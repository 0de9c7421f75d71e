/** The per-client sliding-window rate limiter (app.py `_rate_limit_ok`): a log of request times per
    client address, pruned to the last 60 seconds on every request. */
module RateLimit {

  const Window: int := 60

  /** The request log, one queue of times per client; a missing client has an empty queue. */
  type Log = map<string, seq<int>>

  function QueueOf(log: Log, ip: string): seq<int> {
    if ip in log then log[ip] else []
  }

  /** How many times the `while q and now - q[0] > window: q.popleft()` loop drops. */
  function Dropped(q: seq<int>, now: int): (n: nat)
    ensures n <= |q|
    ensures forall i :: 0 <= i < n ==> now - q[i] > Window
    ensures n < |q| ==> now - q[n] <= Window
    decreases |q|
  {
    if q != [] && now - q[0] > Window then Dropped(q[1..], now) + 1 else 0
  }

  /** The queue left by the pruning loop. */
  function Prune(q: seq<int>, now: int): seq<int> {
    q[Dropped(q, now)..]
  }

  /** The verdict on one request. `Crashed` is the `IndexError` of `q[0]` on an empty queue, which
      only a negative limit reaches. */
  datatype Decision = Allowed | Denied(retryAfter: int) | Crashed

  /** The body of `_rate_limit_ok` on one client's queue `q` with the configured `limit`: the
      verdict and the queue it leaves. The pruning is kept even when the request is denied; only an
      allowed request is recorded. */
  function Check(q: seq<int>, limit: int, now: int): (r: (Decision, seq<int>))
    ensures var p := Prune(q, now);
            && (r.0 == Allowed <==> |p| < limit)
            && (r.0 == Allowed ==> r.1 == p + [now])
            && (r.0 != Allowed ==> r.1 == p)
            && (r.0 == Crashed <==> p == [] && limit <= 0)
            && (r.0.Denied? ==> p != [] && r.0.retryAfter == Max1(Window - (now - p[0])))
  {
    var p := Prune(q, now);
    if |p| >= limit then
      if p == [] then (Crashed, p)
      else (Denied(Max1(Window - (now - p[0]))), p)
    else (Allowed, p + [now])
  }

  /** `_rate_limit_ok(ip)`: the client's queue (created empty on first sight) is replaced by the one
      the check leaves; no other client's queue changes. */
  function RateLimitOk(log: Log, ip: string, limit: int, now: int): (Decision, Log) {
    var (d, q) := Check(QueueOf(log, ip), limit, now);
    (d, log[ip := q])
  }

  function Max1(x: int): (r: int)
    ensures r >= 1 && r >= x && (r == x || r == 1)
  {
    if x < 1 then 1 else x
  }

  /** A queue of request times in arrival order, none in the future. */
  predicate Ordered(q: seq<int>, now: int) {
    && (forall i, j :: 0 <= i < j < |q| ==> q[i] <= q[j])
    && (forall i :: 0 <= i < |q| ==> q[i] <= now)
  }

  /** On an ordered queue, pruning keeps exactly the times inside the window. */
  lemma PruneWindow(q: seq<int>, now: int)
    requires Ordered(q, now)
    ensures forall i :: 0 <= i < |Prune(q, now)| ==> 0 <= now - Prune(q, now)[i] <= Window
  {
    var n := Dropped(q, now);
    forall i | 0 <= i < |Prune(q, now)|
      ensures 0 <= now - Prune(q, now)[i] <= Window
    {
      assert Prune(q, now)[i] == q[n + i] && q[n] <= q[n + i];
    }
  }

  /** The limiter's invariant for one client, with a positive limit and a clock that does not go
      back: the queue stays ordered, never holds more than `limit` times, and after any request
      holds only times from the last 60 seconds; a denied client is told to wait between 1 and 60
      seconds. */
  lemma CheckKeepsWindow(q: seq<int>, limit: int, now: int, later: int)
    requires limit > 0 && now <= later
    requires Ordered(q, now) && |q| <= limit
    ensures var (d, q') := Check(q, limit, later);
            && Ordered(q', later)
            && |q'| <= limit
            && (forall i :: 0 <= i < |q'| ==> later - q'[i] <= Window)
            && d != Crashed
            && (d.Denied? ==> 1 <= d.retryAfter <= Window)
  {
    var p := Prune(q, later);
    assert Ordered(q, later);
    PruneWindow(q, later);
    var (d, q') := Check(q, limit, later);
    if d == Allowed {
      assert forall i :: 0 <= i < |p| ==> (p + [later])[i] == p[i];
    }
  }
}
