/** The in-process success/failure counters per platform (sic_memory.py). The module-level dict
    becomes an explicit `Memory` value threaded through the calls. */
module PlatformMemory {
  import opened Text

  datatype Counters = Counters(successes: nat, failures: nat)

  type Memory = map<string, Counters>

  /** The counters at import time: the three known platforms, all zero. */
  const Initial: Memory := map[
    "linkedin" := Counters(0, 0),
    "twitter" := Counters(0, 0),
    "tiktok" := Counters(0, 0)]

  /** `normalize_platform`: the empty string stays empty; otherwise stripped and lowercased, with
      `x` read as `twitter`. */
  function NormalizePlatform(p: string): (r: string)
    ensures r != "x"
    ensures Trimmed(r) && Lower(r) == r
    ensures p == "" ==> r == ""
    ensures p != "" ==> (r == "twitter" <==> Lower(Strip(p)) in {"x", "twitter"})
    ensures p != "" && r != "twitter" ==> r == Lower(Strip(p))
  {
    if p == "" then ""
    else
      var q := Lower(Strip(p));
      LowerKeepsSpaces(Strip(p));
      LowerIdempotent(Strip(p));
      if q == "x" || q == "twitter" then "twitter" else q
  }

  lemma NormalizePlatformIdempotent(p: string)
    ensures NormalizePlatform(NormalizePlatform(p)) == NormalizePlatform(p)
  {
    var r := NormalizePlatform(p);
    if r != "" {
      assert Strip(r) == r;
    }
  }

  /** `record_success`: exactly the success counter of the named platform goes up by one, when
      the platform is known; an unknown platform changes nothing. */
  function RecordSuccess(m: Memory, platform: string): (r: Memory)
    ensures r.Keys == m.Keys
    ensures forall k :: k in m ==>
              && r[k].failures == m[k].failures
              && r[k].successes == m[k].successes + (if k == NormalizePlatform(platform) then 1 else 0)
  {
    Bump(m, NormalizePlatform(platform), true)
  }

  /** `record_failure`: the same for the failure counter. */
  function RecordFailure(m: Memory, platform: string): (r: Memory)
    ensures r.Keys == m.Keys
    ensures forall k :: k in m ==>
              && r[k].successes == m[k].successes
              && r[k].failures == m[k].failures + (if k == NormalizePlatform(platform) then 1 else 0)
  {
    Bump(m, NormalizePlatform(platform), false)
  }

  /** One more success (or failure) for a known key; an unknown key changes nothing. */
  function Bump(m: Memory, key: string, success: bool): (r: Memory)
    ensures r.Keys == m.Keys
    ensures forall k :: k in m ==>
              && r[k].successes == m[k].successes + (if success && k == key then 1 else 0)
              && r[k].failures == m[k].failures + (if !success && k == key then 1 else 0)
  {
    if key !in m then m
    else if success then m[key := m[key].(successes := m[key].successes + 1)]
    else m[key := m[key].(failures := m[key].failures + 1)]
  }

  /** `get_platform_score`: the success ratio, or 0.5 for an unknown platform or one with no
      history. */
  function PlatformScore(m: Memory, platform: string): (r: real)
    ensures 0.0 <= r <= 1.0
    ensures var k := NormalizePlatform(platform);
            k !in m || m[k].successes + m[k].failures == 0 ==> r == 0.5
    ensures var k := NormalizePlatform(platform);
            k in m && m[k].successes + m[k].failures > 0 ==>
              r * (m[k].successes + m[k].failures) as real == m[k].successes as real
  {
    KeyScore(m, NormalizePlatform(platform))
  }

  /** The score of a normalised key. */
  function KeyScore(m: Memory, k: string): (r: real)
    ensures 0.0 <= r <= 1.0
    ensures k !in m || m[k].successes + m[k].failures == 0 ==> r == 0.5
    ensures k in m && m[k].successes + m[k].failures > 0 ==>
              r * (m[k].successes + m[k].failures) as real == m[k].successes as real
  {
    if k !in m then 0.5
    else
      var total := m[k].successes + m[k].failures;
      if total == 0 then 0.5
      else
        Ratio(m[k].successes, total);
        m[k].successes as real / total as real
  }

  lemma Ratio(s: nat, t: nat)
    requires 0 < t && s <= t
    ensures 0.0 <= s as real / t as real <= 1.0
    ensures (s as real / t as real) * t as real == s as real
  {
  }

  /** `x` and `twitter` (in any case, with any surrounding blanks) share one set of counters. */
  lemma SharedTwitterCounters(m: Memory, p: string, q: string)
    requires p != "" && q != ""
    requires Lower(Strip(p)) in {"x", "twitter"} && Lower(Strip(q)) in {"x", "twitter"}
    ensures RecordSuccess(m, p) == RecordSuccess(m, q)
    ensures RecordFailure(m, p) == RecordFailure(m, q)
    ensures PlatformScore(m, p) == PlatformScore(m, q)
  {
    assert NormalizePlatform(p) == "twitter" == NormalizePlatform(q);
    SameKey(m, p, q);
  }

  /** Two spellings with one normal form are recorded and scored alike. */
  lemma SameKey(m: Memory, p: string, q: string)
    requires NormalizePlatform(p) == NormalizePlatform(q)
    ensures RecordSuccess(m, p) == RecordSuccess(m, q)
    ensures RecordFailure(m, p) == RecordFailure(m, q)
    ensures PlatformScore(m, p) == PlatformScore(m, q)
  {
  }

  /** A success never lowers a platform's score and a failure never raises it. */
  lemma RecordMovesScore(m: Memory, platform: string)
    ensures PlatformScore(RecordSuccess(m, platform), platform) >= PlatformScore(m, platform)
    ensures PlatformScore(RecordFailure(m, platform), platform) <= PlatformScore(m, platform)
  {
    var k := NormalizePlatform(platform);
    if k in m {
      var s := m[k].successes;
      var t := s + m[k].failures;
      if t > 0 {
        SuccessRatio(s, t);
        FailureRatio(s, t);
      }
    }
  }

  lemma SuccessRatio(s: nat, t: nat)
    requires 0 < t && s <= t
    ensures (s + 1) as real / (t + 1) as real >= s as real / t as real
  {
    var a := s as real / t as real;
    var b := (s + 1) as real / (t + 1) as real;
    Ratio(s, t);
    assert b * (t + 1) as real == (s + 1) as real;
    assert a * (t + 1) as real == s as real + a <= (s + 1) as real;
  }

  lemma FailureRatio(s: nat, t: nat)
    requires 0 < t && s <= t
    ensures s as real / (t + 1) as real <= s as real / t as real
  {
    var a := s as real / t as real;
    var b := s as real / (t + 1) as real;
    assert a * t as real == s as real;
    assert b * (t + 1) as real == s as real;
    if b > a {
      assert b * t as real > a * t as real;
      assert b * t as real <= b * (t + 1) as real;
    }
  }

  /** Recording keeps the set of known platforms, so the memory always holds exactly the three
      platforms it started with. */
  lemma RecordKeepsPlatforms(m: Memory, platform: string)
    requires m.Keys == Initial.Keys
    ensures RecordSuccess(m, platform).Keys == Initial.Keys
    ensures RecordFailure(m, platform).Keys == Initial.Keys
  {
  }
}
