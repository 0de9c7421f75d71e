/** The deterministic parts of the content pipeline (pipeline.py): the model list, the text of a
    Gemini answer, the fallback blocks of `generate_assets`, and the dominance score. The model
    calls, the JSON parsing and serialisation and the page fetching are left to the caller. */
module Pipeline {
  import opened Wrappers
  import opened Text
  import opened Seqs
  import Config
  import Scoring

  /** `settings.NEBULA_MODELS` as written: the settings class declares no such field and ignores
      unknown environment keys, so the read raises `AttributeError`. */
  function NebulaSetting(s: Config.Settings): Result<Option<string>, string> {
    Err("'Settings' object has no attribute 'NEBULA_MODELS'")
  }

  /** `nebula_models` as written: the model list of the setting, or the exception its read
      raises. */
  function NebulaModelsAsWritten(s: Config.Settings): (r: Result<seq<string>, string>)
    ensures NebulaSetting(s).Ok? ==> r == Ok(NebulaModels(NebulaSetting(s).value, s.geminiModel))
    ensures NebulaSetting(s).Err? ==> r == Err(NebulaSetting(s).error)
  {
    match NebulaSetting(s)
    case Err(e) => Err(e)
    case Ok(v) => Ok(NebulaModels(v, s.geminiModel))
  }

  /** Whatever the settings, `nebula_models` raises, so `call_gemini` raises as soon as an API
      key is configured. */
  lemma NebulaModelsAsWrittenRaises(s: Config.Settings)
    ensures NebulaModelsAsWritten(s).Err?
  {
  }

  /** `nebula_models` on an optional `NEBULA_MODELS` value: its comma-separated entries, stripped,
      blank ones dropped, or the configured Gemini model alone when none remain. */
  function NebulaModels(setting: Option<string>, geminiModel: string): (r: seq<string>)
    ensures r != []
    ensures StripAll(Split(setting.GetOr(""), ',')) == [] ==> r == [geminiModel]
    ensures StripAll(Split(setting.GetOr(""), ',')) != [] ==> forall i :: 0 <= i < |r| ==> r[i] != "" && Trimmed(r[i])
  {
    var models := StripAll(Split(setting.GetOr(""), ','));
    if models == [] then [geminiModel] else models
  }

  /** A comma-joined list of trimmed, non-blank, comma-free names reads back as that list; a
      missing or blank setting gives the Gemini model. */
  lemma NebulaModelsRoundTrip(names: seq<string>, geminiModel: string)
    requires names != []
    requires forall i :: 0 <= i < |names| ==> names[i] != "" && Trimmed(names[i]) && ',' !in names[i]
    ensures NebulaModels(Some(Join(names, ',')), geminiModel) == names
    ensures NebulaModels(None, geminiModel) == [geminiModel]
  {
    SplitJoin(names, ',');
    StripAllKeeps(names);
    NebulaModelsUnset(geminiModel);
  }

  /** Without the setting, the Gemini model alone. */
  lemma NebulaModelsUnset(geminiModel: string)
    ensures NebulaModels(None, geminiModel) == [geminiModel]
  {
    assert Split("", ',') == [""];
    assert Stripped([""]) == [""];
  }

  /** A `parts` entry of a candidate: without a `text` key, with a string, or with another
      value. */
  datatype TextPart = NoText | StrText(value: string) | OtherText

  /** A candidate of the answer; a missing `content` or `parts` reads as no parts. */
  datatype Candidate = Candidate(parts: seq<TextPart>)

  /** The texts of the parts that have one, in order. */
  function Texts(parts: seq<TextPart>): (r: seq<string>)
    ensures |r| <= |parts|
  {
    if parts == [] then []
    else (if parts[0].StrText? then [parts[0].value] else []) + Texts(parts[1..])
  }

  predicate HasOtherText(parts: seq<TextPart>) {
    exists i :: 0 <= i < |parts| && parts[i].OtherText?
  }

  /** `_extract_text_from_gemini`: the texts of the first candidate's parts joined by newlines,
      `""` without candidates, and `""` when the join raises on a non-string text. */
  function ExtractText(candidates: seq<Candidate>): (r: string)
    ensures candidates == [] ==> r == ""
    ensures candidates != [] && HasOtherText(candidates[0].parts) ==> r == ""
    ensures candidates != [] && !HasOtherText(candidates[0].parts) ==> r == Join(Texts(candidates[0].parts), '\n')
  {
    if candidates == [] || HasOtherText(candidates[0].parts) then ""
    else Join(Texts(candidates[0].parts), '\n')
  }

  /** Line-free texts are recovered by splitting the answer at its newlines. */
  lemma ExtractTextLines(candidates: seq<Candidate>)
    requires candidates != [] && !HasOtherText(candidates[0].parts)
    requires Texts(candidates[0].parts) != []
    requires forall i :: 0 <= i < |Texts(candidates[0].parts)| ==> '\n' !in Texts(candidates[0].parts)[i]
    ensures Split(ExtractText(candidates), '\n') == Texts(candidates[0].parts)
  {
    SplitJoin(Texts(candidates[0].parts), '\n');
  }

  /** A platform block of the assets: what the model generated (kept as its JSON text) or one of
      the fixed fallbacks; the LinkedIn fallback carries the first eight trends as hashtags. */
  datatype Block = Generated(json: string) | LinkedInFallback(hashtags: seq<string>) | XFallback | TikTokFallback

  type Assets = map<string, Block>

  const DefaultPlatforms: seq<string> := ["linkedin", "x", "tiktok"]

  /** `context.get("platforms") or [...]`. */
  function Requested(platforms: seq<string>): seq<string> {
    if platforms == [] then DefaultPlatforms else platforms
  }

  /** The fallback block of a platform that has one. */
  function Fallback(p: string, trends: seq<string>): Block
    requires p in DefaultPlatforms
  {
    if p == "linkedin" then LinkedInFallback(Take(trends, 8)) else if p == "x" then XFallback else TikTokFallback
  }

  /** The fallback part of `generate_assets`: each of LinkedIn, X and TikTok that was requested
      and is missing from the model's output gets its fallback block. */
  function FillFallbacks(platforms: seq<string>, assets: Assets, trends: seq<string>): (r: Assets)
    ensures forall k :: k in r <==> k in assets || (k in DefaultPlatforms && k in Requested(platforms))
    ensures forall k :: k in assets ==> r[k] == assets[k]
    ensures forall k :: k in r && k !in assets ==> k in DefaultPlatforms && r[k] == Fallback(k, trends)
  {
    var ps := Requested(platforms);
    var a1 := FillOne(assets, ps, "linkedin", trends);
    var a2 := FillOne(a1, ps, "x", trends);
    var a3 := FillOne(a2, ps, "tiktok", trends);
    a3
  }

  /** One platform's step of the fill: its fallback is added when requested and missing. */
  function FillOne(assets: Assets, ps: seq<string>, p: string, trends: seq<string>): (r: Assets)
    requires p in DefaultPlatforms
    ensures forall k :: k in r <==> k in assets || (k == p && p in ps)
    ensures forall k :: k in assets ==> r[k] == assets[k]
    ensures forall k :: k in r && k !in assets ==> k == p && r[k] == Fallback(p, trends)
  {
    if p in ps && p !in assets then assets[p := Fallback(p, trends)] else assets
  }

  /** Filling twice is filling once: a block, generated or fallback, is never overwritten. */
  lemma FillFallbacksIdempotent(platforms: seq<string>, assets: Assets, trends: seq<string>)
    ensures FillFallbacks(platforms, FillFallbacks(platforms, assets, trends), trends) == FillFallbacks(platforms, assets, trends)
  {
  }

  /** The inputs `dominance_score` reads, with the JSON serialisation of each platform block and
      of all assets given as text. `keyPoints` is the length of `key_points` when it is a list;
      a trend that is not a string is `None`. */
  datatype ScoreInput = ScoreInput(
    trends: seq<Option<string>>,
    hookFormula: string,
    keyPoints: Option<nat>,
    ctaStyle: string,
    blocks: seq<string>,
    allAssets: string)

  const GenericWords: seq<string> := ["مهم", "جداً", "لازم", "ضروري", "أفضل", "مميز"]

  const HookReason: string := "Hook واضح ومهيكل (صيغة جذب قوية)."
  const PointsReason: string := "نقاط محورية متعددة (محتوى قابل للتقسيم وإعادة الاستخدام)."
  const TrendReason: string := "مواءمة مع ترندات/هاشتاقات حالية (Trend-fit موجود)."
  const CtaReason: string := "CTA محدد (يقود لفعل واضح)."
  const GenericReason: string := "يوجد بعض العموميات؛ يمكن زيادة الدقة والأرقام."
  const DefaultReason: string := "مقبول مبدئيًا، لكن يحتاج مزيدًا من التمايز."

  /** The inner loop over the trends: some non-empty trend occurs in the block. */
  function TrendHit(trends: seq<string>, blob: string): (b: bool)
    ensures b <==> exists i :: 0 <= i < |trends| && trends[i] != "" && Contains(blob, trends[i])
  {
    if trends == [] then false
    else if trends[0] != "" && Contains(blob, trends[0]) then true
    else
      var b := TrendHit(trends[1..], blob);
      assert forall i :: 1 <= i < |trends| ==> trends[i] == trends[1..][i - 1];
      b
  }

  /** The outer loop: how many platform blocks contain one of the trends. */
  function Used(trends: seq<string>, blobs: seq<string>): (n: nat)
    ensures n <= |blobs|
    ensures n == 0 <==> forall i :: 0 <= i < |blobs| ==> !TrendHit(trends, Lower(blobs[i]))
  {
    if blobs == [] then 0
    else
      var n := Used(trends, blobs[1..]);
      assert forall i :: 1 <= i < |blobs| ==> blobs[i] == blobs[1..][i - 1];
      (if TrendHit(trends, Lower(blobs[0])) then 1 else 0) + n
  }

  /** The five criteria of the score. */
  datatype Signals = Signals(hook: bool, points: bool, trendFit: bool, cta: bool, generic: bool)

  /** The criteria as `dominance_score` evaluates them: a hook formula of at least 12 characters,
      a list of at least 4 key points, one of the first eight (lowercased) string trends in some
      (lowercased) platform block, a stripped CTA longer than 8 characters, and at least 4 of the
      generic words in the serialised assets. */
  function SignalsOf(x: ScoreInput): (g: Signals)
    ensures g.trendFit <==>
              exists b, i :: 0 <= b < |x.blocks| && 0 <= i < |Take(LowerAll(Present(x.trends)), 8)|
                && Take(LowerAll(Present(x.trends)), 8)[i] != ""
                && Contains(Lower(x.blocks[b]), Take(LowerAll(Present(x.trends)), 8)[i])
  {
    var trends := Take(LowerAll(Present(x.trends)), 8);
    Signals(
      |x.hookFormula| >= 12,
      x.keyPoints.Some? && x.keyPoints.value >= 4,
      Used(trends, x.blocks) >= 1,
      |Strip(x.ctaStyle)| > 8,
      Scoring.Hits(GenericWords, x.allAssets) >= 4)
  }

  /** Each string lowercased. */
  function LowerAll(xs: seq<string>): (r: seq<string>)
    ensures |r| == |xs| && forall i :: 0 <= i < |xs| ==> r[i] == Lower(xs[i])
  {
    seq(|xs|, i requires 0 <= i < |xs| => Lower(xs[i]))
  }

  /** The score before clamping: 50, plus 10, 10, 10 and 8 for the first four criteria, minus 6
      for the generic wording. */
  function RawScore(g: Signals): int {
    50 + (if g.hook then 10 else 0) + (if g.points then 10 else 0) + (if g.trendFit then 10 else 0)
    + (if g.cta then 8 else 0) - (if g.generic then 6 else 0)
  }

  /** The reasons of the criteria met, in the order they are checked. */
  function Reasons(g: Signals): seq<string> {
    (if g.hook then [HookReason] else []) + (if g.points then [PointsReason] else [])
    + (if g.trendFit then [TrendReason] else []) + (if g.cta then [CtaReason] else [])
    + (if g.generic then [GenericReason] else [])
  }

  /** The verdict: the score, up to three reasons and the recommendation. */
  datatype Verdict = Verdict(score: int, reasons: seq<string>, recommendation: string)

  /** `dominance_score` from its criteria: the score clamped to [0, 100], `publish` from 75,
      `revise` from 55, `regenerate` below, and the first three reasons (a default one when no
      criterion is met). */
  function Dominance(g: Signals): (v: Verdict)
    ensures 0 <= v.score <= 100
    ensures v.recommendation == "publish" <==> v.score >= 75
    ensures v.recommendation == "revise" <==> 55 <= v.score < 75
    ensures v.recommendation == "regenerate" <==> v.score < 55
    ensures 1 <= |v.reasons| <= 3
    ensures v.reasons == [DefaultReason] <==> !g.hook && !g.points && !g.trendFit && !g.cta && !g.generic
  {
    DefaultIsNoReason(g);
    var raw := RawScore(g);
    var score := if raw < 0 then 0 else if raw > 100 then 100 else raw;
    var reasons := if Reasons(g) == [] then [DefaultReason] else Reasons(g);
    var recommendation := if score >= 75 then "publish" else if score >= 55 then "revise" else "regenerate";
    Verdict(score, Take(reasons, 3), recommendation)
  }

  /** The default reason is none of the criteria's reasons. */
  lemma DefaultIsNoReason(g: Signals)
    ensures DefaultReason !in Reasons(g)
  {
    assert |DefaultReason| == 43 && |HookReason| == 33 && |PointsReason| == 57;
    assert |TrendReason| == 50 && |CtaReason| == 26 && |GenericReason| == 46;
  }

  /** `dominance_score` on a plan: 50, plus 10 for a hook formula of at least 12 characters, 10
      for at least four key points, 10 when some platform block uses one of the first eight
      trends, 8 for a CTA longer than 8 characters, minus 6 for four or more generic words. It
      publishes on three bonuses without the penalty, or on all four; it falls back on the default
      reason exactly when no criterion holds. */
  function DominanceScore(x: ScoreInput): (v: Verdict)
    ensures var hook := |x.hookFormula| >= 12;
            var points := x.keyPoints.Some? && x.keyPoints.value >= 4;
            var trend := Used(Take(LowerAll(Present(x.trends)), 8), x.blocks) >= 1;
            var cta := |Strip(x.ctaStyle)| > 8;
            var generic := Scoring.Hits(GenericWords, x.allAssets) >= 4;
            var bonuses := (if hook then 1 else 0) + (if points then 1 else 0) + (if trend then 1 else 0) + (if cta then 1 else 0);
            && v.score == 50 + 10 * (if hook then 1 else 0) + 10 * (if points then 1 else 0)
                          + 10 * (if trend then 1 else 0) + 8 * (if cta then 1 else 0) - 6 * (if generic then 1 else 0)
            && (v.recommendation == "publish" <==> (bonuses >= 3 && !generic) || bonuses == 4)
            && (v.recommendation == "regenerate" <==> v.score < 55)
            && (v.reasons == [DefaultReason] <==> !hook && !points && !trend && !cta && !generic)
  {
    var g := SignalsOf(x);
    DominanceUnclamped(g);
    PublishCriteria(g);
    Dominance(g)
  }

  /** The clamp never binds: the score lies between 44 and 88 and is the raw sum. */
  lemma DominanceUnclamped(g: Signals)
    ensures 44 <= Dominance(g).score <= 88
    ensures Dominance(g).score == RawScore(g)
  {
  }

  /** Publishing takes three of the four bonuses without the generic-wording penalty, or all four
      bonuses: three bonuses and the penalty stop at 74. */
  lemma PublishCriteria(g: Signals)
    ensures var bonuses := (if g.hook then 1 else 0) + (if g.points then 1 else 0) + (if g.trendFit then 1 else 0) + (if g.cta then 1 else 0);
            Dominance(g).recommendation == "publish" <==> (bonuses >= 3 && !g.generic) || bonuses == 4
  {
  }

  /** The reasons are those of the criteria met, in order, cut to three. */
  lemma ReasonsOfCriteria(g: Signals)
    ensures Reasons(g) != [] ==> Dominance(g).reasons == Take(Reasons(g), 3)
    ensures |Reasons(g)| <= 3 && Reasons(g) != [] ==> Dominance(g).reasons == Reasons(g)
  {
  }
}
