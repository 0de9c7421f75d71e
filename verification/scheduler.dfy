/** One scheduler tick (app.py `_kick_scheduler`): stale reclamation, admission arithmetic, then
    oldest-first claiming of queued jobs. */
module Scheduler {
  import opened Wrappers
  import opened Text
  import opened Config
  import opened Models
  import opened JobStore
  import opened Seqs

  /** The reclamation filter: a running (or legacy processing) job whose start, or failing that
      whose last update, lies strictly before the cutoff. */
  predicate IsStale(j: Job, cutoff: int) {
    && IsActive(j.status)
    && match j.startedAt
       case Some(t) => t < cutoff
       case None => j.updatedAt < cutoff
  }

  /** The error message written on reclaimed jobs, `stale_timeout>{stale_sec}s`. */
  function StaleMessage(staleSec: nat): (r: string)
    ensures StartsWith(r, "stale_timeout>") && r[|r| - 1] == 's' && |r| >= 16
    ensures forall i :: 14 <= i < |r| - 1 ==> '0' <= r[i] <= '9'
    ensures DigitsValue(r[14..|r| - 1]) == staleSec
  {
    var digits := NatToString(staleSec);
    NatToStringRoundTrip(staleSec);
    var r := "stale_timeout>" + digits + "s";
    assert r[14..|r| - 1] == digits;
    r
  }

  /** The row a reclaimed job becomes; `updated_at` is refreshed by the column's `onupdate`. */
  function Reclaimed(j: Job, staleSec: nat, now: int): Job {
    j.(status := Failed, errorMessage := Some(StaleMessage(staleSec)), finishedAt := Some(now), updatedAt := now)
  }

  /** The ids reclamation matches at time `now`. */
  function StaleIds(s: Settings, jobs: Jobs, now: int): set<string> {
    set id | id in jobs && IsStale(jobs[id], now - StaleSeconds(s))
  }

  lemma DiffCard(a: set<string>, b: set<string>)
    requires b <= a
    ensures |a - b| == |a| - |b|
  {
    assert a == (a - b) + b;
  }

  /** The table after reclamation: stale jobs failed, all others as they were. */
  function ReclaimTable(s: Settings, jobs: Jobs, now: int): Jobs {
    var stale := StaleIds(s, jobs, now);
    map id | id in jobs :: if id in stale then Reclaimed(jobs[id], StaleSeconds(s), now) else jobs[id]
  }

  /** Reclamation moves exactly the stale jobs out of the running statuses and no job into or out
      of `queued`. */
  lemma ReclaimStatuses(s: Settings, jobs: Jobs, now: int)
    ensures IdsWith(ReclaimTable(s, jobs, now), ActiveStatuses) == IdsWith(jobs, ActiveStatuses) - StaleIds(s, jobs, now)
    ensures IdsWith(ReclaimTable(s, jobs, now), {Queued}) == IdsWith(jobs, {Queued})
    ensures StaleIds(s, jobs, now) <= IdsWith(jobs, ActiveStatuses)
  {
    ReclaimMoves(s, jobs, now, ActiveStatuses);
    ReclaimMoves(s, jobs, now, {Queued});
    StaleAreActive(s, jobs, now);
  }

  /** Only running (or processing) jobs are stale. */
  lemma StaleAreActive(s: Settings, jobs: Jobs, now: int)
    ensures StaleIds(s, jobs, now) <= IdsWith(jobs, ActiveStatuses)
  {
    forall id | id in StaleIds(s, jobs, now)
      ensures id in IdsWith(jobs, ActiveStatuses)
    {
    }
  }

  /** For a set of statuses without `failed`, reclamation takes exactly the stale jobs out of it. */
  lemma ReclaimMoves(s: Settings, jobs: Jobs, now: int, st: set<Status>)
    requires Failed !in st
    ensures IdsWith(ReclaimTable(s, jobs, now), st) == IdsWith(jobs, st) - StaleIds(s, jobs, now)
    ensures Running !in st && Processing !in st ==> IdsWith(ReclaimTable(s, jobs, now), st) == IdsWith(jobs, st)
  {
    var after := ReclaimTable(s, jobs, now);
    var stale := StaleIds(s, jobs, now);
    forall id
      ensures id in IdsWith(after, st) <==> id in IdsWith(jobs, st) - stale
    {
      if id in jobs {
        ReclaimTableStatus(s, jobs, now, id);
      }
    }
    if Running !in st && Processing !in st {
      StaleAreActive(s, jobs, now);
      assert IdsWith(jobs, st) !! IdsWith(jobs, ActiveStatuses);
    }
  }

  /** A reclaimed job is failed; every other keeps its status. */
  lemma ReclaimTableStatus(s: Settings, jobs: Jobs, now: int, id: string)
    requires id in jobs
    ensures id in ReclaimTable(s, jobs, now)
    ensures ReclaimTable(s, jobs, now)[id].status == (if id in StaleIds(s, jobs, now) then Failed else jobs[id].status)
  {
  }

  lemma ReclaimCounts(s: Settings, jobs: Jobs, now: int)
    ensures RunningCount(ReclaimTable(s, jobs, now)) + |StaleIds(s, jobs, now)| == RunningCount(jobs)
    ensures QueuedCount(ReclaimTable(s, jobs, now)) == QueuedCount(jobs)
  {
    ReclaimStatuses(s, jobs, now);
    DiffCard(IdsWith(jobs, ActiveStatuses), StaleIds(s, jobs, now));
  }

  /** `_cleanup_stale_running`: fails exactly the stale jobs and reports how many there were. The
      queued count is untouched and the running count drops by the number reclaimed. */
  function Reclaim(s: Settings, jobs: Jobs, now: int): (r: (Jobs, nat))
    ensures r.0.Keys == jobs.Keys
    ensures forall id :: id in jobs && IsStale(jobs[id], now - StaleSeconds(s)) ==>
              r.0[id].status == Failed && r.0[id].finishedAt == Some(now) &&
              r.0[id].errorMessage == Some(StaleMessage(StaleSeconds(s)))
    ensures forall id :: id in jobs && !IsStale(jobs[id], now - StaleSeconds(s)) ==> r.0[id] == jobs[id]
    ensures r.1 == |StaleIds(s, jobs, now)|
    ensures RunningCount(r.0) + r.1 == RunningCount(jobs)
    ensures QueuedCount(r.0) == QueuedCount(jobs)
  {
    ReclaimCounts(s, jobs, now);
    (ReclaimTable(s, jobs, now), |StaleIds(s, jobs, now)|)
  }

  /** The boundary of the stale filter: a job started at `t` is reclaimed at `now` exactly when more
      than the stale threshold has elapsed, so a job exactly at the cutoff is left alone. */
  lemma StaleBoundary(s: Settings, j: Job, now: int)
    requires IsActive(j.status) && j.startedAt.Some?
    ensures IsStale(j, now - StaleSeconds(s)) <==> now - j.startedAt.value > StaleSeconds(s)
  {
  }

  /** With the default settings a job started at `t0` survives the tick at `t0 + 180` and is
      reclaimed, with message `stale_timeout>180s`, at `t0 + 181`. */
  lemma DefaultStaleScenario(j: Job, t0: int)
    requires j.status == Running && j.startedAt == Some(t0)
    ensures Reclaim(Defaults, map[j.id := j], t0 + 180).0[j.id] == j
    ensures Reclaim(Defaults, map[j.id := j], t0 + 180).1 == 0
    ensures Reclaim(Defaults, map[j.id := j], t0 + 181).0[j.id].status == Failed
    ensures Reclaim(Defaults, map[j.id := j], t0 + 181).0[j.id].errorMessage == Some("stale_timeout>180s")
    ensures Reclaim(Defaults, map[j.id := j], t0 + 181).1 == 1
  {
    var jobs := map[j.id := j];
    assert StaleIds(Defaults, jobs, t0 + 180) == {};
    assert StaleIds(Defaults, jobs, t0 + 181) == {j.id};
    assert NatToString(18) == "18";
    assert NatToString(180) == "180";
    assert StaleSeconds(Defaults) == 180;
    assert StaleMessage(180) == "stale_timeout>180s";
  }

  /** The admission slots: the free concurrency, at most `max(1, max_to_start)`. */
  function Slots(s: Settings, running: nat, maxToStart: int): (r: nat)
    ensures r == 0 <==> running >= ConcurrencyCap(s)
    ensures r > 0 ==> running + r <= ConcurrencyCap(s)
    ensures r <= OrInt(maxToStart, 1) || r <= 1
    ensures r == ConcurrencyCap(s) - running || r == OrInt(maxToStart, 1) || r == 1 || r == 0
    ensures running + r >= ConcurrencyCap(s) || (r >= OrInt(maxToStart, 1) && r >= 1)
  {
    var free := if ConcurrencyCap(s) - running > 0 then ConcurrencyCap(s) - running else 0;
    var most := if OrInt(maxToStart, 1) > 1 then OrInt(maxToStart, 1) else 1;
    if free < most then free else most
  }

  /** The slots are `min(max(0, cap - running), max(1, max_to_start))`: with a cap of 10, nothing
      running and `max_to_start` 5, five jobs may start. */
  lemma SlotsIsMin(s: Settings, running: nat, maxToStart: int)
    ensures var free := if ConcurrencyCap(s) > running then ConcurrencyCap(s) - running else 0;
            var most := if OrInt(maxToStart, 1) > 1 then OrInt(maxToStart, 1) else 1;
            Slots(s, running, maxToStart) == if free <= most then free else most
    ensures ConcurrencyCap(s) == 10 && running == 0 && maxToStart == 5 ==> Slots(s, running, maxToStart) == 5
  {
  }

  /** The tick's JSON report. */
  datatype TickReport =
    | NoSlots(cleaned: nat, running: nat)
    | Backlogged(cleaned: nat, running: nat, queued: nat, backlogCap: int)
    | Started(cleaned: nat, started: nat, running: nat)

  function StartedOf(r: TickReport): nat {
    if r.Started? then r.started else 0
  }

  /** `_kick_scheduler(max_to_start)`: reclaim, compute the slots, refuse when none are free or the
      backlog exceeds its cap, otherwise claim the oldest queued jobs, one conditional update each.
      `dispatched` lists the claimed ids in claim order; each becomes a pending job run. */
  method KickScheduler(s: Settings, jobs: Jobs, now: int, maxToStart: int)
    returns (report: TickReport, after: Jobs, dispatched: seq<string>)
    ensures var (reclaimed, cleaned) := Reclaim(s, jobs, now);
            var slots := Slots(s, RunningCount(reclaimed), maxToStart);
            && report.cleaned == cleaned
            && after.Keys == jobs.Keys
            && (slots == 0 ==> report == NoSlots(cleaned, RunningCount(reclaimed)) && after == reclaimed)
            && (slots > 0 && QueuedCount(reclaimed) > BacklogCap(s) ==>
                  report == Backlogged(cleaned, RunningCount(reclaimed), QueuedCount(reclaimed), BacklogCap(s))
                  && after == reclaimed)
            && (slots > 0 && QueuedCount(reclaimed) <= BacklogCap(s) ==>
                  report.Started? && OldestFirst(reclaimed, dispatched, slots)
                  && |dispatched| == (if slots < QueuedCount(reclaimed) then slots else QueuedCount(reclaimed)))
            && StartedOf(report) == |dispatched| <= slots
            && Distinct(dispatched)
            && (forall id :: id in dispatched ==>
                  reclaimed[id].status == Queued &&
                  after[id] == reclaimed[id].(status := Running, startedAt := Some(now), progress := 0.05, updatedAt := now))
            && (forall id :: id in jobs && id !in dispatched ==> after[id] == reclaimed[id])
            && RunningCount(after) == RunningCount(reclaimed) + |dispatched|
            && (report.Started? ==> report.running == RunningCount(after))
    ensures RunningCount(jobs) <= ConcurrencyCap(s) ==> RunningCount(after) <= ConcurrencyCap(s)
  {
    var (reclaimed, cleaned) := Reclaim(s, jobs, now);
    var running := RunningCount(reclaimed);
    var slots := Slots(s, running, maxToStart);
    if slots == 0 {
      return NoSlots(cleaned, running), reclaimed, [];
    }
    var queued := QueuedCount(reclaimed);
    if queued > BacklogCap(s) {
      return Backlogged(cleaned, running, queued, BacklogCap(s)), reclaimed, [];
    }
    var candidates := OldestQueued(reclaimed, slots);
    ClaimAllQueued(reclaimed, candidates, now);
    ClaimAllEffect(reclaimed, candidates, now);
    ClaimAllDistinct(reclaimed, candidates, now);
    ClaimAllCounts(reclaimed, candidates, now);
    var (claimedJobs, claimed) := ClaimAll(reclaimed, candidates, now);
    after := claimedJobs;
    dispatched := claimed;
    report := Started(cleaned, |claimed|, RunningCount(after));
  }
}
