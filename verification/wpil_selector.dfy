/** Choosing the stored pattern that best fits a content signal (wpil_selector.py): platform
    matches weigh 3, niche 2, intent 1, and the highest positive score wins. */
module WpilSelector {
  import opened Wrappers
  import opened WpilMemory

  const NoPatterns: string := "WPIL has no stored patterns."
  const NoMatch: string := "No compatible winning pattern found."
  const ImportFailure: string := "cannot import name 'load_patterns' from 'wpil_memory'"

  /** The weight of each key that reads the same in the pattern and the signal; a key absent from
      both reads as `None` on each side and so matches. */
  function Score(p: Pattern, signal: Pattern): (n: nat)
    ensures n <= 6
    ensures n == 0 <==> Get(p, "platform") != Get(signal, "platform") && Get(p, "niche") != Get(signal, "niche")
                        && Get(p, "intent") != Get(signal, "intent")
  {
    (if Get(p, "platform") == Get(signal, "platform") then 3 else 0)
    + (if Get(p, "niche") == Get(signal, "niche") then 2 else 0)
    + (if Get(p, "intent") == Get(signal, "intent") then 1 else 0)
  }

  /** The weights encode the priority only in part: a platform match never scores below a pattern
      without one, and among equal platform results a niche match outranks its absence; but a
      platform match alone ties with a niche and intent match. */
  lemma ScorePriority(p: Pattern, q: Pattern, signal: Pattern)
    ensures Get(p, "platform") == Get(signal, "platform") && Get(q, "platform") != Get(signal, "platform") ==>
              Score(p, signal) >= Score(q, signal)
    ensures (Get(p, "platform") == Get(signal, "platform")) == (Get(q, "platform") == Get(signal, "platform"))
            && Get(p, "niche") == Get(signal, "niche") && Get(q, "niche") != Get(signal, "niche") ==>
              Score(p, signal) > Score(q, signal)
    ensures Get(p, "platform") == Get(signal, "platform") && Get(p, "niche") != Get(signal, "niche")
            && Get(p, "intent") != Get(signal, "intent")
            && Get(q, "platform") != Get(signal, "platform") && Get(q, "niche") == Get(signal, "niche")
            && Get(q, "intent") == Get(signal, "intent") ==>
              Score(p, signal) == Score(q, signal)
  {
  }

  /** The `scored_patterns` list: each pattern with a positive score, paired with it, in order. */
  function Scored(patterns: seq<Pattern>, signal: Pattern): (r: seq<(nat, Pattern)>)
    ensures |r| <= |patterns|
  {
    if patterns == [] then []
    else
      var x := patterns[|patterns| - 1];
      Scored(patterns[..|patterns| - 1], signal) + (if Score(x, signal) > 0 then [(Score(x, signal), x)] else [])
  }

  /** Every entry of the scored list is a stored pattern with its positive score. */
  lemma {:induction false} ScoredSound(patterns: seq<Pattern>, signal: Pattern)
    ensures var r := Scored(patterns, signal);
            forall i :: 0 <= i < |r| ==> r[i].0 > 0 && r[i].0 == Score(r[i].1, signal) && r[i].1 in patterns
    decreases |patterns|
  {
    if patterns != [] {
      var pre := patterns[..|patterns| - 1];
      var x := patterns[|patterns| - 1];
      ScoredSound(pre, signal);
      ScoredSnoc(pre, x, signal);
      assert patterns == pre + [x];
      assert forall y :: y in pre ==> y in patterns;
    }
  }

  /** Every positively scored pattern is in the scored list with its score. */
  lemma {:induction false} ScoredComplete(patterns: seq<Pattern>, signal: Pattern)
    ensures var r := Scored(patterns, signal);
            forall i :: 0 <= i < |patterns| && Score(patterns[i], signal) > 0 ==> (Score(patterns[i], signal), patterns[i]) in r
    decreases |patterns|
  {
    if patterns != [] {
      var pre := patterns[..|patterns| - 1];
      var x := patterns[|patterns| - 1];
      ScoredComplete(pre, signal);
      ScoredSnoc(pre, x, signal);
      assert patterns == pre + [x];
      assert forall i :: 0 <= i < |pre| ==> pre[i] == patterns[i];
    }
  }

  /** The scored list is empty exactly when no pattern scores. */
  lemma ScoredSpec(patterns: seq<Pattern>, signal: Pattern)
    ensures var r := Scored(patterns, signal);
            && (forall i :: 0 <= i < |r| ==> r[i].0 > 0 && r[i].0 == Score(r[i].1, signal) && r[i].1 in patterns)
            && (forall i :: 0 <= i < |patterns| && Score(patterns[i], signal) > 0 ==> (Score(patterns[i], signal), patterns[i]) in r)
            && (r == [] <==> forall i :: 0 <= i < |patterns| ==> Score(patterns[i], signal) == 0)
  {
    ScoredSound(patterns, signal);
    ScoredComplete(patterns, signal);
    var r := Scored(patterns, signal);
    if r != [] {
      var j :| 0 <= j < |patterns| && patterns[j] == r[0].1;
      assert Score(patterns[j], signal) > 0;
    }
  }

  /** The first entry after `sort(key=score, reverse=True)`: the sort is stable, so it is the
      earliest entry of the highest score. */
  function Top(scored: seq<(nat, Pattern)>): (i: nat)
    requires scored != []
    ensures i < |scored|
    ensures forall j :: 0 <= j < |scored| ==> scored[j].0 <= scored[i].0
    ensures forall j :: 0 <= j < i ==> scored[j].0 < scored[i].0
  {
    if |scored| == 1 then 0
    else
      var pre := scored[..|scored| - 1];
      var k := Top(pre);
      assert forall j :: 0 <= j < |pre| ==> pre[j] == scored[j];
      if scored[|scored| - 1].0 > scored[k].0 then |scored| - 1 else k
  }

  /** `select_winning_pattern` on the stored patterns: an error without patterns or without a
      positive score, otherwise a pattern scoring at least as high as every other. */
  function Select(patterns: seq<Pattern>, signal: Pattern): (r: Result<Pattern, string>)
    ensures patterns == [] ==> r == Err(NoPatterns)
    ensures patterns != [] ==> (r == Err(NoMatch) <==> forall i :: 0 <= i < |patterns| ==> Score(patterns[i], signal) == 0)
    ensures r.Ok? ==> r.value in patterns && Score(r.value, signal) > 0
    ensures r.Ok? ==> forall i :: 0 <= i < |patterns| ==> Score(patterns[i], signal) <= Score(r.value, signal)
  {
    if patterns == [] then Err(NoPatterns)
    else
      var scored := Scored(patterns, signal);
      ScoredSpec(patterns, signal);
      if scored == [] then Err(NoMatch)
      else
        var i := Top(scored);
        assert forall j :: 0 <= j < |patterns| && Score(patterns[j], signal) > 0 ==>
                 exists k :: 0 <= k < |scored| && scored[k] == (Score(patterns[j], signal), patterns[j]);
        Ok(scored[i].1)
  }

  /** The reference choice: the index of the earliest pattern of the highest score. */
  function EarliestBest(patterns: seq<Pattern>, signal: Pattern): (i: nat)
    requires patterns != []
    ensures i < |patterns|
    ensures forall j :: 0 <= j < |patterns| ==> Score(patterns[j], signal) <= Score(patterns[i], signal)
    ensures forall j :: 0 <= j < i ==> Score(patterns[j], signal) < Score(patterns[i], signal)
  {
    if |patterns| == 1 then 0
    else
      var pre := patterns[..|patterns| - 1];
      var k := EarliestBest(pre, signal);
      assert forall j :: 0 <= j < |pre| ==> pre[j] == patterns[j];
      if Score(patterns[|patterns| - 1], signal) > Score(patterns[k], signal) then |patterns| - 1 else k
  }

  /** Scoring one more pattern adds its pair at the end when its score is positive. */
  lemma ScoredSnoc(pre: seq<Pattern>, x: Pattern, signal: Pattern)
    ensures var s := Score(x, signal);
            Scored(pre + [x], signal) == Scored(pre, signal) + (if s > 0 then [(s, x)] else [])
  {
    assert (pre + [x])[..|pre|] == pre;
  }

  /** The top of a list with one more entry: the new entry when it is strictly higher. */
  lemma TopSnoc(sp: seq<(nat, Pattern)>, y: (nat, Pattern))
    requires sp != []
    ensures Top(sp + [y]) == if y.0 > sp[Top(sp)].0 then |sp| else Top(sp)
  {
    assert (sp + [y])[..|sp|] == sp;
  }

  /** The reference choice with one more pattern: the new one when it scores strictly higher. */
  lemma EarliestBestSnoc(pre: seq<Pattern>, x: Pattern, signal: Pattern)
    requires pre != []
    ensures var k := EarliestBest(pre, signal);
            EarliestBest(pre + [x], signal) == if Score(x, signal) > Score(pre[k], signal) then |pre| else k
  {
    assert (pre + [x])[..|pre|] == pre;
  }

  /** The step of `TopIsEarliestBest` when no earlier pattern scores: the last one wins. */
  lemma TopOfFirstScored(pre: seq<Pattern>, x: Pattern, signal: Pattern)
    requires Scored(pre, signal) == [] && Score(x, signal) > 0
    ensures Scored(pre + [x], signal)[Top(Scored(pre + [x], signal))].1 == x
    ensures EarliestBest(pre + [x], signal) == |pre|
  {
    ScoredSnoc(pre, x, signal);
    assert Scored(pre + [x], signal) == [(Score(x, signal), x)];
    if pre != [] {
      var k := EarliestBest(pre, signal);
      UnscoredIsZero(pre, signal, k);
      EarliestBestSnoc(pre, x, signal);
    }
  }

  /** With an empty scored list, every pattern scores zero. */
  lemma UnscoredIsZero(patterns: seq<Pattern>, signal: Pattern, i: nat)
    requires Scored(patterns, signal) == [] && i < |patterns|
    ensures Score(patterns[i], signal) == 0
  {
    ScoredComplete(patterns, signal);
  }

  /** The step of `TopIsEarliestBest` when earlier patterns score and agree with the reference. */
  lemma TopOfMoreScored(pre: seq<Pattern>, x: Pattern, signal: Pattern)
    requires Scored(pre, signal) != [] && pre != []
    requires Scored(pre, signal)[Top(Scored(pre, signal))].1 == pre[EarliestBest(pre, signal)]
    ensures Scored(pre + [x], signal)[Top(Scored(pre + [x], signal))].1 == (pre + [x])[EarliestBest(pre + [x], signal)]
  {
    var sp := Scored(pre, signal);
    var s := Score(x, signal);
    var kb := EarliestBest(pre, signal);
    var k := Top(sp);
    ScoredSnoc(pre, x, signal);
    EarliestBestSnoc(pre, x, signal);
    assert sp[k].0 == Score(pre[kb], signal) by {
      ScoredSound(pre, signal);
    }
    var all := Scored(pre + [x], signal);
    if s > 0 {
      assert all == sp + [(s, x)];
      TopSnoc(sp, (s, x));
      if s > sp[k].0 {
        assert all[Top(all)].1 == x == (pre + [x])[|pre|];
      } else {
        assert all[Top(all)] == sp[k];
        assert (pre + [x])[kb] == pre[kb];
      }
    } else {
      assert all == sp;
      assert (pre + [x])[kb] == pre[kb];
    }
  }

  /** Sorting the scored list picks the earliest stored pattern of the highest score. */
  lemma {:induction false} TopIsEarliestBest(patterns: seq<Pattern>, signal: Pattern)
    requires Scored(patterns, signal) != []
    ensures patterns != []
    ensures Scored(patterns, signal)[Top(Scored(patterns, signal))].1 == patterns[EarliestBest(patterns, signal)]
    decreases |patterns|
  {
    var pre := patterns[..|patterns| - 1];
    var x := patterns[|patterns| - 1];
    assert patterns == pre + [x];
    ScoredSnoc(pre, x, signal);
    if Scored(pre, signal) == [] {
      TopOfFirstScored(pre, x, signal);
    } else {
      TopIsEarliestBest(pre, signal);
      TopOfMoreScored(pre, x, signal);
    }
  }

  /** `select_winning_pattern` picks the earliest stored pattern of the highest score, when that
      score is positive. */
  lemma SelectEarliest(patterns: seq<Pattern>, signal: Pattern)
    requires patterns != []
    ensures var b := patterns[EarliestBest(patterns, signal)];
            Select(patterns, signal) == if Score(b, signal) > 0 then Ok(b) else Err(NoMatch)
  {
    if Scored(patterns, signal) != [] {
      TopIsEarliestBest(patterns, signal);
    }
  }

  /** `select_winning_pattern` as written: the module imports `load_patterns`, which the memory
      module does not define, so the import raises before the function can be called. */
  function SelectAsWritten(file: MemoryFile, signal: Pattern): (r: Result<Pattern, string>)
    ensures LoadPatternsDefined ==> r == Select(Load(file), signal)
    ensures !LoadPatternsDefined ==> r == Err(ImportFailure)
  {
    if LoadPatternsDefined then Select(Load(file), signal) else Err(ImportFailure)
  }

  /** The names the memory module defines. */
  const MemoryModuleNames: set<string> := {"json", "os", "Dict", "List", "MEMORY_FILE", "_load_memory", "_save_memory", "store_pattern", "get_patterns"}

  /** Whether the name the selector imports exists. */
  const LoadPatternsDefined: bool := "load_patterns" in MemoryModuleNames

  /** Whatever is stored, selection as written fails with the import error. */
  lemma SelectAsWrittenFails(file: MemoryFile, signal: Pattern)
    ensures SelectAsWritten(file, signal) == Err(ImportFailure)
  {
    assert !LoadPatternsDefined;
  }

  /** `select_winning_pattern` reading memory through `_load_memory`, the loader the memory module
      does define. */
  function SelectWinningPattern(file: MemoryFile, signal: Pattern): (r: Result<Pattern, string>)
    ensures Load(file) == [] ==> r == Err(NoPatterns)
    ensures r.Ok? ==> r.value in Load(file) && Score(r.value, signal) > 0
    ensures r.Ok? ==> forall i :: 0 <= i < |Load(file)| ==> Score(Load(file)[i], signal) <= Score(r.value, signal)
  {
    Select(Load(file), signal)
  }
}
