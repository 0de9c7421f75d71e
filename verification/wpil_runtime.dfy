/** The runtime interface of the pattern layer (wpil_runtime.py): structural writing constraints
    for a content signal, tightened per platform when a winning post is pasted for remixing. */
module WpilRuntime {
  import opened Wrappers
  import opened Text
  import opened WpilMemory

  /** The string fields of the signal the runtime reads; `None` when absent or `None`. */
  datatype Signal = Signal(platform: Option<string>, niche: Option<string>, winningPost: Option<string>)

  /** The platform, `(platform or "linkedin").lower().strip()`: lowercased and stripped, and
      `linkedin` when absent or empty (the default needs neither step). */
  function Platform(s: Signal): (r: string)
    ensures Trimmed(r)
    ensures s.platform.None? || s.platform == Some("") ==> r == "linkedin"
    ensures s.platform.Some? && s.platform.value != "" ==> r == Strip(Lower(s.platform.value))
  {
    var raw := s.platform.GetOr("");
    if raw == "" then "linkedin" else Strip(Lower(raw))
  }

  /** The niche, `(niche or "general").strip()`: stripped, and `general` when absent or empty. */
  function Niche(s: Signal): (r: string)
    ensures Trimmed(r)
    ensures s.niche.None? || s.niche == Some("") ==> r == "general"
    ensures s.niche.Some? && s.niche.value != "" ==> r == Strip(s.niche.value)
  {
    var raw := s.niche.GetOr("");
    if raw == "" then "general" else Strip(raw)
  }

  /** The stripped winning post, empty when absent. */
  function Post(s: Signal): (r: string)
    ensures Trimmed(r)
    ensures s.winningPost.None? ==> r == ""
  {
    Strip(s.winningPost.GetOr(""))
  }

  datatype Mode = Direct | Remix

  /** The answer: the mode, the constraints by name, and the notes. */
  datatype Plan = Plan(mode: Mode, constraints: map<string, Json>, notes: string)

  const HookConstraint: Json := Object(map["type" := Str("bold_claim"), "max_words" := Num(12)])
  const StructureConstraint: Json := Object(map["line_density" := Str("one_idea_per_line"), "avg_sentence_words" := Num(14)])
  const CtaConstraint: Json := Object(map["type" := Str("question"), "position" := Str("end")])
  const ThreadConstraint: Json := Object(map["tweets" := Str("5-7"), "max_lines_per_tweet" := Num(4)])
  const LengthHintConstraint: Json := Object(map["words" := Str("120-220")])
  const VideoConstraint: Json := Object(map["seconds" := Str("45-70"), "shots" := Str("5-8")])

  const DefaultKeys: set<string> := {"hook", "structure", "cta"}

  /** The constraints every answer starts from. */
  const Defaults: map<string, Json> := map["hook" := HookConstraint, "structure" := StructureConstraint, "cta" := CtaConstraint]

  /** The extra constraint remix mode adds for a platform, if it has one. */
  function Extra(platform: string): (r: Option<(string, Json)>)
    ensures r.Some? <==> platform in {"twitter", "linkedin", "tiktok"}
    ensures r.Some? ==> r.value.0 !in DefaultKeys
  {
    if platform == "twitter" then Some(("thread", ThreadConstraint))
    else if platform == "linkedin" then Some(("length_hint", LengthHintConstraint))
    else if platform == "tiktok" then Some(("video", VideoConstraint))
    else None
  }

  const NotesPrefix: string := "remix enabled for niche="

  /** The defaults, with the extra constraint added when there is one. */
  function WithExtra(extra: Option<(string, Json)>): map<string, Json> {
    if extra.Some? then Defaults[extra.value.0 := extra.value.1] else Defaults
  }

  /** An extra constraint is one new key; the defaults stay as they are. */
  lemma WithExtraAddsOne(extra: Option<(string, Json)>)
    requires extra.Some? ==> extra.value.0 !in DefaultKeys
    ensures DefaultKeys <= WithExtra(extra).Keys
    ensures forall k :: k in DefaultKeys ==> WithExtra(extra)[k] == Defaults[k]
    ensures |WithExtra(extra).Keys - DefaultKeys| == (if extra.Some? then 1 else 0)
  {
    DefaultsKeys();
    if extra.Some? {
      assert WithExtra(extra).Keys - DefaultKeys == {extra.value.0};
    } else {
      assert WithExtra(extra).Keys - DefaultKeys == {};
    }
  }

  /** `invoke_wpil`: remix mode exactly when the stripped winning post is longer than 20
      characters, with notes naming the niche and the platform's extra constraint; otherwise
      direct mode with the default constraints and the notes `defaults`. */
  function InvokeWpil(s: Signal): (r: Plan)
    ensures r.mode == Remix <==> |Post(s)| > 20
    ensures r.mode == Direct ==> r.notes == "defaults" && r.constraints == Defaults
    ensures r.mode == Remix ==> r.notes == NotesPrefix + Niche(s)
    ensures r.mode == Remix && Extra(Platform(s)).None? ==> r.constraints == Defaults
    ensures r.mode == Remix && Extra(Platform(s)).Some? ==>
              r.constraints == Defaults[Extra(Platform(s)).value.0 := Extra(Platform(s)).value.1]
  {
    if |Post(s)| > 20 then
      Plan(Remix, WithExtra(Extra(Platform(s))), NotesPrefix + Niche(s))
    else
      Plan(Direct, Defaults, "defaults")
  }

  /** The defaults hold exactly the hook, structure and call-to-action constraints. */
  lemma DefaultsKeys()
    ensures Defaults.Keys == DefaultKeys
  {
  }

  /** Remixing adds at most one constraint to the defaults and changes none of them; the
      platforms with an extra one get exactly one more. */
  lemma RemixAddsOne(s: Signal)
    ensures var r := InvokeWpil(s);
            && DefaultKeys <= r.constraints.Keys
            && (forall k :: k in DefaultKeys ==> r.constraints[k] == Defaults[k])
            && |r.constraints.Keys - DefaultKeys| == (if r.mode == Remix && Extra(Platform(s)).Some? then 1 else 0)
  {
    var r := InvokeWpil(s);
    if r.mode == Remix {
      WithExtraAddsOne(Extra(Platform(s)));
    } else {
      WithExtraAddsOne(None);
    }
  }

  /** Remix notes contain the niche. */
  lemma RemixNotesNameNiche(s: Signal)
    requires InvokeWpil(s).mode == Remix
    ensures Contains(InvokeWpil(s).notes, Niche(s))
  {
    ContainsSuffix(NotesPrefix, Niche(s));
  }

  /** Without a platform, a remix gets the LinkedIn length hint. */
  lemma DefaultPlatformRemix(s: Signal)
    requires s.platform.None? && |Post(s)| > 20
    ensures InvokeWpil(s).constraints == Defaults["length_hint" := LengthHintConstraint]
  {
  }
}
