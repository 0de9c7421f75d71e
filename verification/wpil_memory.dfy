/** The store of abstract winning patterns (wpil_memory.py). The JSON file is a value: absent, or
    the list of patterns it holds; reading and writing it are `Load` and `Store`. */
module WpilMemory {
  import opened Wrappers

  /** A JSON value. */
  datatype Json = Null | Bool(b: bool) | Num(n: int) | Str(s: string) | List(items: seq<Json>) | Object(fields: map<string, Json>)

  /** A stored pattern: a JSON object. */
  type Pattern = map<string, Json>

  /** `p.get(k)`: a missing key reads as `None`, which is also what JSON null loads as. */
  function Get(p: Pattern, k: string): (v: Json)
    ensures k !in p ==> v == Null
  {
    if k in p then p[k] else Null
  }

  /** The memory file: `None` when it does not exist. */
  type MemoryFile = Option<seq<Pattern>>

  /** `_load_memory`: the stored list, or no patterns when the file is missing. */
  function Load(file: MemoryFile): (r: seq<Pattern>)
    ensures file.None? ==> r == []
  {
    file.GetOr([])
  }

  /** `store_pattern`: the file afterwards exists and holds the earlier patterns, in order, and
      then `p`. */
  function Store(file: MemoryFile, p: Pattern): (r: MemoryFile)
    ensures r.Some?
    ensures |Load(r)| == |Load(file)| + 1
    ensures Load(r)[..|Load(file)|] == Load(file) && Load(r)[|Load(file)|] == p
  {
    Some(Load(file) + [p])
  }

  /** The inner loop of `get_patterns`: every filter key reads as its filter value. */
  predicate Matches(p: Pattern, filter: map<string, Json>) {
    forall k :: k in filter ==> Get(p, k) == filter[k]
  }

  /** The outer loop of `get_patterns`: the matching patterns, in stored order. */
  function Matching(patterns: seq<Pattern>, filter: map<string, Json>): (r: seq<Pattern>)
    ensures |r| <= |patterns|
  {
    if patterns == [] then []
    else (if Matches(patterns[0], filter) then [patterns[0]] else []) + Matching(patterns[1..], filter)
  }

  /** The filtered list holds exactly the matching patterns. */
  lemma {:induction false} MatchingSpec(patterns: seq<Pattern>, filter: map<string, Json>)
    ensures forall i :: 0 <= i < |Matching(patterns, filter)| ==>
              Matching(patterns, filter)[i] in patterns && Matches(Matching(patterns, filter)[i], filter)
    ensures forall i :: 0 <= i < |patterns| && Matches(patterns[i], filter) ==> patterns[i] in Matching(patterns, filter)
    decreases |patterns|
  {
    if patterns != [] {
      MatchingSpec(patterns[1..], filter);
      assert forall i :: 1 <= i < |patterns| ==> patterns[i] == patterns[1..][i - 1];
    }
  }

  /** `get_patterns`: every stored pattern without a filter (absent or empty), otherwise the
      matching ones. */
  function GetPatterns(file: MemoryFile, filter: Option<map<string, Json>>): (r: seq<Pattern>)
    ensures filter.None? || filter.value == map[] ==> r == Load(file)
    ensures filter.Some? ==> r == Matching(Load(file), filter.value)
  {
    MatchingEmpty(Load(file));
    if filter.None? || filter.value == map[] then Load(file)
    else Matching(Load(file), filter.value)
  }

  /** Filtering keeps order: the matches of a concatenation are the matches of each part, in
      turn. */
  lemma {:induction false} MatchingAppend(a: seq<Pattern>, b: seq<Pattern>, filter: map<string, Json>)
    ensures Matching(a + b, filter) == Matching(a, filter) + Matching(b, filter)
    decreases |a|
  {
    if a == [] {
      assert a + b == b;
    } else {
      assert (a + b)[0] == a[0] && (a + b)[1..] == a[1..] + b;
      MatchingAppend(a[1..], b, filter);
    }
  }

  /** The empty filter matches everything, so it keeps the whole list. */
  lemma {:induction false} MatchingEmpty(patterns: seq<Pattern>)
    ensures Matching(patterns, map[]) == patterns
    decreases |patterns|
  {
    if patterns != [] {
      MatchingEmpty(patterns[1..]);
    }
  }

  /** Filtering twice by the same filter is filtering once. */
  lemma {:induction false} MatchingIdempotent(patterns: seq<Pattern>, filter: map<string, Json>)
    ensures Matching(Matching(patterns, filter), filter) == Matching(patterns, filter)
    decreases |patterns|
  {
    if patterns != [] {
      var rest := Matching(patterns[1..], filter);
      MatchingIdempotent(patterns[1..], filter);
      if Matches(patterns[0], filter) {
        var r := [patterns[0]] + rest;
        assert Matching(patterns, filter) == r;
        assert r[0] == patterns[0] && r[1..] == rest;
      } else {
        assert Matching(patterns, filter) == [] + rest == rest;
      }
    }
  }

  /** What a read returns after a store: what it returned before, then the new pattern when the
      filter selects it. */
  lemma StoreThenGet(file: MemoryFile, p: Pattern, filter: Option<map<string, Json>>)
    ensures GetPatterns(Store(file, p), filter) ==
              GetPatterns(file, filter) + (if filter.None? || Matches(p, filter.value) then [p] else [])
  {
    assert Load(Store(file, p)) == Load(file) + [p];
    if filter.Some? {
      MatchingAppend(Load(file), [p], filter.value);
      assert Matching([p], filter.value) == if Matches(p, filter.value) then [p] else [];
    }
  }
}
