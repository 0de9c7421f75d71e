/** The creator genome (services/genome.py): the DNA profile seeded from a creator's inputs and
    the capped history of winning hooks appended after each experiment. The JSON document is
    reduced to the parts these functions read and write. */
module Genome {
  import opened Wrappers
  import opened Text
  import opened Seqs
  import Models

  /** The longest stored hook, and the number of hooks kept. */
  const HookLength: nat := 120
  const HistoryCap: nat := 50

  datatype Creator = Creator(tone: string, language: string, goal: string, primaryNiche: string)

  datatype Preferences = Preferences(tone: string, language: string, goal: string, niche: string)

  /** The style defaults a seeded profile starts with. */
  datatype Style = Style(pacing: string, avgLengthSec: int, ctaStyle: string)

  /** One remembered winning hook with the lift it achieved and the ISO time stamp of when it was
      stored. */
  datatype Archetype = Archetype(hook: string, lift: map<string, real>, ts: string)

  /** The `learned` object: its hook history and its style keys, each possibly absent. */
  datatype Learned = Learned(hookArchetypes: Option<seq<Archetype>>, style: Option<Style>)

  datatype Seed = Seed(seededAt: string, topVideoUrls: seq<string>, weakVideoUrls: seq<string>,
                       pastScriptsCount: nat, preferences: Preferences)

  /** A DNA document: the seeded part and the `learned` object, each possibly absent (an empty
      stored document has neither). */
  datatype Dna = Dna(seed: Option<Seed>, learned: Option<Learned>)

  const EmptyDna: Dna := Dna(None, None)

  const SeedStyle: Style := Style("fast", 28, "comment_prompt")

  /** `seed_creator_dna`: the creator's inputs, the count of past scripts, an empty hook history
      and the fixed style defaults. */
  function SeedCreatorDna(c: Creator, topVideos: seq<string>, weakVideos: seq<string>,
                          pastScripts: seq<string>, now: string): (d: Dna)
    ensures d.seed.Some? && d.seed.value.pastScriptsCount == |pastScripts| && d.seed.value.seededAt == now
    ensures d.seed.value.preferences == Preferences(c.tone, c.language, c.goal, c.primaryNiche)
    ensures d.seed.value.topVideoUrls == topVideos && d.seed.value.weakVideoUrls == weakVideos
    ensures d.learned == Some(Learned(Some([]), Some(SeedStyle)))
  {
    Dna(Some(Seed(now, topVideos, weakVideos, |pastScripts|,
                  Preferences(c.tone, c.language, c.goal, c.primaryNiche))),
        Some(Learned(Some([]), Some(SeedStyle))))
  }

  /** Python's `xs[-n:]` for `n > 0`: the last `n` elements, or all of them. */
  function Last<T>(xs: seq<T>, n: nat): (r: seq<T>)
    ensures |r| == if |xs| < n then |xs| else n
    ensures r == xs[|xs| - |r|..]
  {
    if |xs| <= n then xs else xs[|xs| - n..]
  }

  /** The hook history of a document, empty when absent. */
  function History(d: Dna): seq<Archetype> {
    if d.learned.Some? && d.learned.value.hookArchetypes.Some? then d.learned.value.hookArchetypes.value else []
  }

  /** `update_genome_after_experiment` on the document: `learned` is created when absent; a
      non-blank winning hook (stripped, cut to 120 characters) is appended with its lift and time,
      and the history is cut to its last 50 entries. */
  function UpdateAfterExperiment(d: Dna, hookText: Option<string>, lift: map<string, real>, now: string): (r: Dna)
    ensures r.seed == d.seed && r.learned.Some?
    ensures d.learned.Some? ==> r.learned.value.style == d.learned.value.style
    ensures Strip(hookText.GetOr("")) == "" ==>
              r.learned.value.hookArchetypes == (if d.learned.Some? then d.learned.value.hookArchetypes else None)
    ensures Strip(hookText.GetOr("")) != "" ==>
              var entry := Archetype(Take(Strip(hookText.GetOr("")), HookLength as int), lift, now);
              && r.learned.value.hookArchetypes.Some?
              && History(r) == Last(History(d) + [entry], HistoryCap)
  {
    var learned := d.learned.GetOr(Learned(None, None));
    var hook := Strip(hookText.GetOr(""));
    if hook == "" then d.(learned := Some(learned))
    else
      var entry := Archetype(Take(hook, HookLength as int), lift, now);
      var archetypes := learned.hookArchetypes.GetOr([]) + [entry];
      d.(learned := Some(learned.(hookArchetypes := Some(Last(archetypes, HistoryCap)))))
  }

  /** After an update with a non-blank hook, the newest history entry is that hook (at most 120
      characters), the history holds at most 50 entries, and every entry kept was already there or
      is the new one, in the same order. */
  lemma UpdateAppendsCapped(d: Dna, hookText: Option<string>, lift: map<string, real>, now: string)
    requires Strip(hookText.GetOr("")) != ""
    ensures var h := History(UpdateAfterExperiment(d, hookText, lift, now));
            && 1 <= |h| <= HistoryCap
            && |h| == (if |History(d)| + 1 < HistoryCap then |History(d)| + 1 else HistoryCap)
            && h[|h| - 1] == Archetype(Take(Strip(hookText.GetOr("")), HookLength as int), lift, now)
            && |h[|h| - 1].hook| <= HookLength
            && h[..|h| - 1] == History(d)[|History(d)| + 1 - |h|..]
  {
    var entry := Archetype(Take(Strip(hookText.GetOr("")), HookLength as int), lift, now);
    var all := History(d) + [entry];
    var h := History(UpdateAfterExperiment(d, hookText, lift, now));
    assert h == all[|all| - |h|..];
    assert h[..|h| - 1] == all[|all| - |h|..|all| - 1];
    assert all[..|all| - 1] == History(d);
  }

  /** A history within the cap stays within it through any number of updates. */
  lemma {:induction false} UpdatesKeepCap(d: Dna, hooks: seq<Option<string>>, lift: map<string, real>, now: string)
    requires |History(d)| <= HistoryCap
    ensures |History(UpdateAll(d, hooks, lift, now))| <= HistoryCap
    decreases |hooks|
  {
    if hooks != [] {
      var d' := UpdateAfterExperiment(d, hooks[0], lift, now);
      if Strip(hooks[0].GetOr("")) != "" {
        UpdateAppendsCapped(d, hooks[0], lift, now);
      }
      UpdatesKeepCap(d', hooks[1..], lift, now);
    }
  }

  /** The records the genome module imports from the models module. */
  const ImportedRecords: set<string> := {"Creator", "Genome"}

  const ImportFailure: string := "cannot import name 'Creator' from 'models'"

  /** `update_genome_after_experiment` as written: its module imports `Creator` and `Genome`, which
      the models module does not define, so the import raises before anything can be called. */
  function UpdateAfterExperimentAsWritten(d: Dna, hookText: Option<string>, lift: map<string, real>, now: string)
    : (r: Result<Dna, string>)
    ensures Models.Importable(ImportedRecords) ==> r == Ok(UpdateAfterExperiment(d, hookText, lift, now))
    ensures !Models.Importable(ImportedRecords) ==> r == Err(ImportFailure)
  {
    if Models.Importable(ImportedRecords) then Ok(UpdateAfterExperiment(d, hookText, lift, now)) else Err(ImportFailure)
  }

  /** Whatever the document and the hook, the update as written fails with the import error. */
  lemma UpdateAsWrittenFails(d: Dna, hookText: Option<string>, lift: map<string, real>, now: string)
    ensures UpdateAfterExperimentAsWritten(d, hookText, lift, now) == Err(ImportFailure)
  {
    assert "Creator" in ImportedRecords && "Creator" !in Models.ModuleNames;
  }

  /** A run of experiments finishing one after another. */
  function UpdateAll(d: Dna, hooks: seq<Option<string>>, lift: map<string, real>, now: string): Dna
    decreases |hooks|
  {
    if hooks == [] then d else UpdateAll(UpdateAfterExperiment(d, hooks[0], lift, now), hooks[1..], lift, now)
  }
}
