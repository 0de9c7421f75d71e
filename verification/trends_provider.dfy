/** The trending-hashtag providers (services/trends_provider.py): hashtag normalisation, the
    post-processing of an external service's answer, the language-aware static fallback, the
    mixer that tops an external answer up from the fallback, and the choice between them. The HTTP
    call, the environment and the clock are inputs. */
module TrendsProvider {
  import opened Wrappers
  import opened Text
  import opened Seqs

  /** What `TrendsResult` carries: the tags, where they came from and an ISO time stamp. */
  datatype TrendsResult = TrendsResult(hashtags: seq<string>, source: string, updatedAt: string)

  /** A well-formed hashtag: `#` followed by at least one character, no whitespace anywhere. */
  predicate ValidHashtag(t: string) {
    |t| >= 2 && t[0] == '#' && NoSpace(t)
  }

  /** `\w` of Python's `re` on a `str` pattern, restricted to ASCII word characters, the digits
      `IsDigitChar` knows and the Arabic letters. Which characters it admits does not change what
      `NormalizeHashtag` returns (see `NormalizeHashtagNone`). */
  predicate RegexWordChar(c: char) {
    ('A' <= c <= 'Z') || ('a' <= c <= 'z') || c == '_' || IsDigitChar(c) || (0x0621 <= c as int <= 0x064A)
  }

  /** `_HASHTAG_RX.match(t)` for `^#\w+`: a `#` and then a word character. */
  predicate HashtagMatch(t: string) {
    |t| >= 2 && t[0] == '#' && RegexWordChar(t[1])
  }

  /** `_normalize_hashtag`: nothing for a missing or blank tag; otherwise the stripped tag with a
      `#` put in front when missing and every whitespace run turned into `_`, kept when it matches
      the pattern or is a `#` and at least one more character without a space. */
  function NormalizeHashtag(tag: Option<string>): (r: Option<string>)
    ensures tag.None? || Strip(tag.value) == "" ==> r == None
    ensures r.Some? ==> ValidHashtag(r.value)
  {
    if tag.None? then None
    else
      var s := Strip(tag.value);
      if s == "" then None
      else
        var u := if StartsWith(s, "#") then s else "#" + s;
        var t := SubSpaces(u, "_");
        assert u[0] == '#';
        SubSpacesHead(u, "_");
        SubSpacesNoSpace(u, "_");
        if !HashtagMatch(t) then
          if |t| >= 2 && StartsWith(t, "#") && ' ' !in t then Some(t) else None
        else Some(t)
  }

  /** A non-empty string keeps at least one character through the substitution. */
  lemma SubSpacesNonEmpty(s: string)
    requires s != []
    ensures SubSpaces(s, "_") != []
  {
  }

  /** A tag is dropped exactly when it is missing, blank, or a bare `#` once stripped; whether the
      pattern matches only decides which branch keeps it. */
  lemma NormalizeHashtagNone(tag: Option<string>)
    ensures NormalizeHashtag(tag) == None <==> tag.None? || Strip(tag.value) == "" || Strip(tag.value) == "#"
  {
    if tag.Some? && Strip(tag.value) == "#" {
      NormalizeBareHash(tag.value);
    } else if tag.Some? && Strip(tag.value) != "" {
      NormalizeKeeps(tag.value);
    }
  }

  lemma NormalizeBareHash(s: string)
    requires Strip(s) == "#"
    ensures NormalizeHashtag(Some(s)) == None
  {
    assert StartsWith("#", "#");
    assert SubSpaces("#", "_") == "#";
  }

  lemma NormalizeKeeps(s0: string)
    requires Strip(s0) != "" && Strip(s0) != "#"
    ensures NormalizeHashtag(Some(s0)).Some?
  {
    var s := Strip(s0);
    var u := if StartsWith(s, "#") then s else "#" + s;
    assert |s| == 1 ==> s == s[..1];
    assert |u| >= 2 && u[0] == '#';
    HashedKeeps(u);
  }

  /** A `#`-led string of two or more characters survives the underscore substitution as a
      blank-free tag of at least two characters. */
  lemma HashedKeeps(u: string)
    requires |u| >= 2 && u[0] == '#'
    ensures var t := SubSpaces(u, "_");
            |t| >= 2 && StartsWith(t, "#") && ' ' !in t
  {
    var t := SubSpaces(u, "_");
    SubSpacesKeepsTwo(u);
    SubSpacesHead(u, "_");
    SubSpacesNoSpace(u, "_");
    NoSpaceNoBlank(t);
    assert t[..1] == "#";
  }

  /** A string of two or more characters that starts with a non-space keeps two. */
  lemma SubSpacesKeepsTwo(u: string)
    requires |u| >= 2 && !IsSpace(u[0])
    ensures |SubSpaces(u, "_")| >= 2
  {
    assert u[1..] != [];
    SubSpacesNonEmpty(u[1..]);
  }

  lemma NoSpaceNoBlank(t: string)
    requires NoSpace(t)
    ensures ' ' !in t
  {
    assert IsSpace(' ');
  }

  /** A well-formed hashtag is its own normal form, so normalising twice is normalising once. */
  lemma NormalizeValid(t: string)
    requires ValidHashtag(t)
    ensures NormalizeHashtag(Some(t)) == Some(t)
  {
    assert Strip(t) == t;
    SubSpacesNoop(t, "_");
    NoSpaceNoBlank(t);
  }

  lemma NormalizeIdempotent(tag: Option<string>)
    ensures NormalizeHashtag(tag).Some? ==> NormalizeHashtag(NormalizeHashtag(tag)) == NormalizeHashtag(tag)
  {
    if NormalizeHashtag(tag).Some? {
      NormalizeValid(NormalizeHashtag(tag).value);
    }
  }

  /** The normal form of each tag, in order. */
  function Normals(xs: seq<Option<string>>): (ys: seq<Option<string>>)
    ensures |ys| == |xs| && forall i :: 0 <= i < |xs| ==> ys[i] == NormalizeHashtag(xs[i])
  {
    seq(|xs|, i requires 0 <= i < |xs| => NormalizeHashtag(xs[i]))
  }

  /** `[t for t in map(_normalize_hashtag, xs) if t]`: the normal forms of the tags kept, in
      order; a normal form is never empty, so `if t` only drops the missing ones. */
  function NormalizeAll(xs: seq<Option<string>>): (r: seq<string>)
    ensures |r| <= |xs|
    ensures forall i :: 0 <= i < |r| ==> ValidHashtag(r[i])
    ensures forall i :: 0 <= i < |xs| && NormalizeHashtag(xs[i]).Some? ==> NormalizeHashtag(xs[i]).value in r
    ensures forall i :: 0 <= i < |r| ==> exists j :: 0 <= j < |xs| && NormalizeHashtag(xs[j]) == Some(r[i])
  {
    var ys := Normals(xs);
    var r := Present(ys);
    forall i | 0 <= i < |r|
      ensures exists j :: 0 <= j < |xs| && NormalizeHashtag(xs[j]) == Some(r[i])
    {
      var j :| 0 <= j < |ys| && ys[j] == Some(r[i]);
    }
    r
  }

  /** Tags that are already well formed pass through unchanged. */
  lemma NormalizeAllValid(xs: seq<string>)
    requires forall i :: 0 <= i < |xs| ==> ValidHashtag(xs[i])
    ensures NormalizeAll(Somes(xs)) == xs
  {
    forall i | 0 <= i < |xs|
      ensures Normals(Somes(xs))[i] == Some(xs[i])
    {
      NormalizeValid(xs[i]);
    }
    PresentAll(xs, Normals(Somes(xs)));
  }

  /** A list of strings as a list of present values. */
  function Somes(xs: seq<string>): (r: seq<Option<string>>)
    ensures |r| == |xs| && forall i :: 0 <= i < |xs| ==> r[i] == Some(xs[i])
  {
    seq(|xs|, i requires 0 <= i < |xs| => Some(xs[i]))
  }

  /** The `hashtags` member of the service's JSON answer: missing (or `null`, `[]`, any false
      value), some other non-list value, or a list whose entries are strings or `null`. */
  datatype HashtagsField = Missing | NotList | Items(items: seq<Option<string>>)

  /** The parts of the answer the provider reads; `updatedAt` is `""` when missing. */
  datatype Answer = Answer(hashtags: HashtagsField, updatedAt: string)

  /** The tags a field yields before normalisation. */
  function RawTags(f: HashtagsField): seq<Option<string>> {
    if f.Items? then f.items else []
  }

  /** The tail both providers share: the tags normalised (dropping the invalid ones),
      de-duplicated keeping first occurrences, and cut to `limit` as `[:int(limit)]` does. */
  function Process(tags: seq<Option<string>>, limit: int): (r: seq<string>)
    ensures Distinct(r) && forall i :: 0 <= i < |r| ==> ValidHashtag(r[i])
    ensures limit >= 0 ==> |r| <= limit
  {
    TakeKeeps(Dedupe(NormalizeAll(tags)), limit);
    Take(Dedupe(NormalizeAll(tags)), limit)
  }

  /** A prefix of a distinct list is distinct and holds only its elements. */
  lemma TakeKeeps<T>(xs: seq<T>, n: int)
    ensures Distinct(xs) ==> Distinct(Take(xs, n))
    ensures forall i :: 0 <= i < |Take(xs, n)| ==> Take(xs, n)[i] == xs[i]
  {
  }

  /** Every tag kept is the normal form of an input tag. */
  lemma ProcessProvenance(tags: seq<Option<string>>, limit: int)
    ensures var r := Process(tags, limit);
            forall i :: 0 <= i < |r| ==> exists j :: 0 <= j < |tags| && NormalizeHashtag(tags[j]) == Some(r[i])
  {
    var n := NormalizeAll(tags);
    var r := Process(tags, limit);
    TakeKeeps(Dedupe(n), limit);
    forall i | 0 <= i < |r|
      ensures exists j :: 0 <= j < |tags| && NormalizeHashtag(tags[j]) == Some(r[i])
    {
      assert r[i] == Dedupe(n)[i] && Dedupe(n)[i] in n;
      var k :| 0 <= k < |n| && n[k] == r[i];
    }
  }

  /** When the limit is no smaller than the number of distinct normal forms, every tag that
      normalises is kept. */
  lemma ProcessKeepsAll(tags: seq<Option<string>>, limit: int)
    requires limit >= |Dedupe(NormalizeAll(tags))|
    ensures forall j :: 0 <= j < |tags| && NormalizeHashtag(tags[j]).Some? ==>
              NormalizeHashtag(tags[j]).value in Process(tags, limit)
  {
    var n := NormalizeAll(tags);
    assert Process(tags, limit) == Dedupe(n);
    forall j | 0 <= j < |tags| && NormalizeHashtag(tags[j]).Some?
      ensures NormalizeHashtag(tags[j]).value in Dedupe(n)
    {
      DedupeHas(n, NormalizeHashtag(tags[j]).value);
    }
  }

  lemma DedupeHas<T>(xs: seq<T>, x: T)
    requires x in xs
    ensures x in Dedupe(xs)
  {
    var k :| 0 <= k < |xs| && xs[k] == x;
  }

  /** Post-processing in `ExternalTrendsAPIProvider.get_hashtags`: anything but a list reads as no
      tags, the tags are processed, and the answer's time stamp is used when present. */
  function ExternalResult(a: Answer, limit: int, now: string): (r: TrendsResult)
    ensures r.source == "external" && r.updatedAt == (if a.updatedAt != "" then a.updatedAt else now)
    ensures !a.hashtags.Items? ==> r.hashtags == []
    ensures a.hashtags.Items? ==> r.hashtags == Process(a.hashtags.items, limit)
  {
    TrendsResult(Process(RawTags(a.hashtags), limit), "external", Or(a.updatedAt, now))
  }

  const EnBase: seq<string> := [
    "#marketing", "#digitalmarketing", "#contentmarketing", "#socialmedia", "#branding", "#growth",
    "#business", "#entrepreneur", "#strategy", "#productivity", "#learn", "#tips"]

  const ArBase: seq<string> := [
    "#التسويق_الرقمي", "#تسويق", "#صناعة_المحتوى", "#سوشيال_ميديا", "#ريادة_الأعمال", "#مشروع",
    "#تطوير_الذات", "#نصائح", "#تعلم", "#استراتيجية", "#نجاح", "#بيزنس"]

  /** The per-language starting lists. */
  const Buckets: map<string, seq<string>> := map[
    "en" := EnBase,
    "ar" := ArBase,
    "es" := ["#marketingdigital", "#emprendimiento", "#negocios", "#consejos", "#aprende"],
    "fr" := ["#marketingdigital", "#entrepreneur", "#business", "#conseils", "#apprendre"],
    "de" := ["#marketing", "#unternehmen", "#business", "#tipps", "#lernen"],
    "pt" := ["#marketingdigital", "#empreendedorismo", "#negocios", "#dicas", "#aprenda"],
    "tr" := ["#dijitalpazarlama", "#girişimcilik", "#iş", "#ipuçları", "#öğren"],
    "ru" := ["#маркетинг", "#бизнес", "#советы", "#обучение", "#стратегия"],
    "id" := ["#digitalmarketing", "#bisnis", "#tips", "#belajar", "#strategi"]]

  /** The bucket of a language code, English for any other code. */
  function Bucket(lang: string): seq<string> {
    if lang in Buckets then Buckets[lang] else EnBase
  }

  /** A topical hint: the keywords that trigger it and the tags it puts in front. */
  datatype Hint = Hint(keys: seq<string>, tags: seq<string>)

  /** The hints in the order they are tried; each later one goes in front of the earlier ones. */
  const Hints: seq<Hint> := [
    Hint(["seo", "search"], ["#seo", "#searchengineoptimization", "#google"]),
    Hint(["ads", "paid", "ppc"], ["#ads", "#ppc", "#facebookads", "#googleads"]),
    Hint(["tiktok", "shorts", "reels"], ["#tiktokmarketing", "#shortformvideo", "#reels"]),
    Hint(["content", "copy", "script"], ["#copywriting", "#contentcreator", "#storytelling"])]

  /** `any(k in t for k in keys)`. */
  predicate Triggers(h: Hint, t: string) {
    exists i :: 0 <= i < |h.keys| && Contains(t, h.keys[i])
  }

  /** The tags of the hints triggered by `t`, the last hint tried first. */
  function HintTags(hints: seq<Hint>, t: string): seq<string>
    decreases |hints|
  {
    if hints == [] then []
    else HintTags(hints[1..], t) + (if Triggers(hints[0], t) then hints[0].tags else [])
  }

  /** The hinting loop of `StaticFallbackProvider.get_hashtags`, one hint at a time. */
  function ApplyHints(hints: seq<Hint>, t: string, base: seq<string>): (r: seq<string>)
    ensures r == HintTags(hints, t) + base
    decreases |hints|
  {
    if hints == [] then base
    else
      var base' := if Triggers(hints[0], t) then hints[0].tags + base else base;
      var r := ApplyHints(hints[1..], t, base');
      assert HintTags(hints[1..], t) + base' == HintTags(hints, t) + base;
      r
  }

  /** The list before normalisation: the bucket, with the triggered hints in front when the
      lowercased, stripped topic is non-empty. */
  function StaticTags(lang: string, topic: Option<string>): (r: seq<string>)
    ensures var t := Strip(Lower(topic.GetOr("")));
            && |Bucket(lang)| <= |r| && r[|r| - |Bucket(lang)|..] == Bucket(lang)
            && (t == "" ==> r == Bucket(lang))
            && (t != "" ==> r[..|r| - |Bucket(lang)|] == HintTags(Hints, t))
  {
    var t := Strip(Lower(topic.GetOr("")));
    var r := if t == "" then Bucket(lang) else ApplyHints(Hints, t, Bucket(lang));
    assert r[|r| - |Bucket(lang)|..] == Bucket(lang);
    r
  }

  /** `StaticFallbackProvider.get_hashtags`: the processed static list, stamped now. */
  function StaticFallback(lang: string, topic: Option<string>, limit: int, now: string): (r: TrendsResult)
    ensures r.source == "static_fallback" && r.updatedAt == now
    ensures r.hashtags == Process(Somes(StaticTags(lang, topic)), limit)
  {
    TrendsResult(Process(Somes(StaticTags(lang, topic)), limit), "static_fallback", now)
  }

  /** A triggered hint has all its tags in front of the bucket, and a topic that triggers no hint
      leaves the bucket alone. */
  lemma {:induction false} HintTagsSpec(hints: seq<Hint>, t: string)
    ensures forall i, x :: 0 <= i < |hints| && Triggers(hints[i], t) && x in hints[i].tags ==> x in HintTags(hints, t)
    ensures (forall i :: 0 <= i < |hints| ==> !Triggers(hints[i], t)) ==> HintTags(hints, t) == []
    ensures forall x :: x in HintTags(hints, t) ==> exists i :: 0 <= i < |hints| && Triggers(hints[i], t) && x in hints[i].tags
    decreases |hints|
  {
    if hints != [] {
      var rest := hints[1..];
      assert forall i :: 0 <= i < |rest| ==> rest[i] == hints[i + 1];
      HintTagsSpec(rest, t);
      forall x | x in HintTags(hints, t)
        ensures exists i :: 0 <= i < |hints| && Triggers(hints[i], t) && x in hints[i].tags
      {
        if x in HintTags(rest, t) {
          var i :| 0 <= i < |rest| && Triggers(rest[i], t) && x in rest[i].tags;
          assert Triggers(hints[i + 1], t) && x in hints[i + 1].tags;
        } else {
          assert Triggers(hints[0], t) && x in hints[0].tags;
        }
      }
    }
  }

  /** `SmartMixerProvider.get_hashtags`: a raising primary yields the fallback's result as it is;
      otherwise the primary's tags and then the fallback's, each once, cut to `limit`. */
  function Mix(primary: Result<TrendsResult, string>, fallback: TrendsResult, limit: int, now: string): (r: TrendsResult)
    ensures primary.Err? ==> r == fallback
    ensures primary.Ok? ==>
              && r.source == primary.value.source + "+" + fallback.source
              && r.updatedAt == (if primary.value.updatedAt != "" then primary.value.updatedAt else now)
              && Distinct(r.hashtags)
              && (limit >= 0 ==> |r.hashtags| <= limit)
              && r.hashtags == Take(Dedupe(primary.value.hashtags + fallback.hashtags), limit)
  {
    match primary
    case Err(_) => fallback
    case Ok(p) =>
      TakeKeeps(Dedupe(p.hashtags + fallback.hashtags), limit);
      TrendsResult(Take(Dedupe(p.hashtags + fallback.hashtags), limit), p.source + "+" + fallback.source, Or(p.updatedAt, now))
  }

  /** The primary's tags come first: the mixed list starts with the primary's distinct tags (as
      many as fit), and the fallback only tops it up. When the primary alone fills the limit, the
      fallback contributes nothing. */
  lemma MixPrimaryFirst(p: TrendsResult, fallback: TrendsResult, limit: nat, now: string)
    ensures var r := Mix(Ok(p), fallback, limit, now).hashtags;
            var d := Dedupe(p.hashtags);
            && (|d| >= limit ==> r == d[..limit])
            && (|d| < limit ==> |r| >= |d| && r[..|d|] == d)
            && forall i :: 0 <= i < |r| ==> r[i] in p.hashtags || r[i] in fallback.hashtags
  {
    DedupePrefix(p.hashtags, fallback.hashtags);
    var m := Dedupe(p.hashtags + fallback.hashtags);
    var d := Dedupe(p.hashtags);
    var r := Mix(Ok(p), fallback, limit, now).hashtags;
    if |d| >= limit {
      assert r == m[..limit];
      assert m[..|d|][..limit] == m[..limit];
    } else {
      assert |r| >= |d|;
      assert r[..|d|] == m[..|r|][..|d|];
    }
    forall i | 0 <= i < |r|
      ensures r[i] in p.hashtags || r[i] in fallback.hashtags
    {
      assert r[i] == m[i] && m[i] in p.hashtags + fallback.hashtags;
    }
  }

  /** The provider `get_trends_provider` builds. */
  datatype Provider = StaticOnly | Mixer

  predicate AsciiDigit(c: char) {
    '0' <= c <= '9'
  }

  /** A digit run of Python's float syntax: digits, with single underscores between them. */
  predicate DigitPart(s: string) {
    && s != [] && AsciiDigit(s[0]) && AsciiDigit(s[|s| - 1])
    && (forall i :: 0 <= i < |s| ==> AsciiDigit(s[i]) || s[i] == '_')
    && (forall i :: 0 <= i < |s| - 1 ==> s[i] == '_' ==> s[i + 1] != '_')
  }

  /** The index of the first character of `s` in `cs`, or `|s|` when there is none. */
  function FirstOf(s: string, cs: set<char>): (i: nat)
    ensures i <= |s| && (i < |s| ==> s[i] in cs)
    ensures forall j :: 0 <= j < i ==> s[j] !in cs
  {
    if s == [] then 0
    else if s[0] in cs then 0
    else 1 + FirstOf(s[1..], cs)
  }

  /** A decimal literal without sign: digits with an optional fraction (at least one side of the
      point non-empty), then an optional exponent `e`/`E`, an optional sign and digits. */
  predicate DecimalText(s: string) {
    var e := FirstOf(s, {'e', 'E'});
    var mantissa := s[..e];
    var d := FirstOf(mantissa, {'.'});
    && (if d == |mantissa| then DigitPart(mantissa)
        else
          var whole := mantissa[..d];
          var frac := mantissa[d + 1..];
          (whole != [] || frac != []) && (whole == [] || DigitPart(whole)) && (frac == [] || DigitPart(frac)))
    && (e == |s| ||
        var exp := s[e + 1..];
        if exp != [] && (exp[0] == '+' || exp[0] == '-') then DigitPart(exp[1..]) else DigitPart(exp))
  }

  /** What Python's `float()` accepts once the text is stripped: an optional sign, then a decimal
      literal, `inf`, `infinity` or `nan` in any case. */
  predicate FloatText(s: string) {
    var body := if s != [] && (s[0] == '+' || s[0] == '-') then s[1..] else s;
    Lower(body) == "inf" || Lower(body) == "infinity" || Lower(body) == "nan" || DecimalText(body)
  }

  /** The text `float()` is given for the service timeout: the stripped `TRENDS_API_TIMEOUT`
      (default `6`), or `6` when that is blank. */
  function TimeoutText(timeout: Option<string>): string {
    var t := Strip(timeout.GetOr("6"));
    if t == "" then "6" else t
  }

  /** The `ValueError` message of `float()` on text it refuses. */
  function FloatError(t: string): string {
    "could not convert string to float: '" + t + "'"
  }

  /** `get_trends_provider`: the mixer of the external service and the fallback exactly when the
      stripped, lowercased `TRENDS_PROVIDER` (default `static`) is `external`, the fallback alone
      otherwise. Building the external provider first parses the timeout as a float, then refuses
      a blank `TRENDS_API_URL`. */
  function ChooseProvider(setting: Option<string>, apiUrl: Option<string>, timeout: Option<string>)
    : (r: Result<Provider, string>)
    ensures var external := Lower(Strip(setting.GetOr("static"))) == "external";
            && (r.Err? <==> external && (!FloatText(TimeoutText(timeout)) || Strip(apiUrl.GetOr("")) == ""))
            && (r.Err? && !FloatText(TimeoutText(timeout)) ==> r.error == FloatError(TimeoutText(timeout)))
            && (r.Err? && FloatText(TimeoutText(timeout)) ==> r.error == "TRENDS_API_URL is not set")
            && (r.Ok? ==> (r.value == Mixer <==> external))
  {
    if Lower(Strip(setting.GetOr("static"))) == "external" then
      var t := TimeoutText(timeout);
      if !FloatText(t) then Err(FloatError(t))
      else if Strip(apiUrl.GetOr("")) == "" then Err("TRENDS_API_URL is not set")
      else Ok(Mixer)
    else Ok(StaticOnly)
  }

  /** The default timeout parses, and so does any plain run of digits; text with a letter other
      than an exponent, `inf` or `nan` does not. */
  lemma {:induction false} DigitsParse(s: string)
    requires s != [] && forall i :: 0 <= i < |s| ==> AsciiDigit(s[i])
    ensures FloatText(s)
  {
    assert s[0] != '+' && s[0] != '-';
    assert FirstOf(s, {'e', 'E'}) == |s| by { NoneOf(s, {'e', 'E'}); }
    assert s[..|s|] == s;
    assert FirstOf(s, {'.'}) == |s| by { NoneOf(s, {'.'}); }
  }

  /** `FirstOf` finds nothing in text without those characters. */
  lemma {:induction false} NoneOf(s: string, cs: set<char>)
    requires forall i :: 0 <= i < |s| ==> s[i] !in cs
    ensures FirstOf(s, cs) == |s|
  {
    if s != [] {
      assert forall i :: 0 <= i < |s[1..]| ==> s[1..][i] == s[i + 1];
      NoneOf(s[1..], cs);
    }
  }

  /** `FirstOf` stops at the first character of `s` in `cs`. */
  lemma {:induction false} FirstOfAt(s: string, cs: set<char>, k: nat)
    requires k < |s| && s[k] in cs && forall j :: 0 <= j < k ==> s[j] !in cs
    ensures FirstOf(s, cs) == k
  {
    if k > 0 {
      assert forall j :: 0 <= j < k - 1 ==> s[1..][j] == s[j + 1];
      FirstOfAt(s[1..], cs, k - 1);
    }
  }

  /** Two digit runs around a point parse as a fraction. */
  lemma FractionParses(w: string, f: string)
    requires DigitPart(w) && DigitPart(f)
    ensures FloatText(w + "." + f)
  {
    var s := w + "." + f;
    assert s[0] == w[0];
    forall k | 0 <= k < |s| ensures s[k] !in {'e', 'E'} {
      if k < |w| { assert s[k] == w[k]; } else if k > |w| { assert s[k] == f[k - |w| - 1]; }
    }
    NoneOf(s, {'e', 'E'});
    assert s[..|s|] == s;
    forall j | 0 <= j < |w| ensures s[j] !in {'.'} {
      assert s[j] == w[j];
    }
    FirstOfAt(s, {'.'}, |w|);
    assert s[..|w|] == w && s[|w| + 1..] == f;
    assert Lower(s)[0] == w[0];
    assert "inf"[0] == 'i' && "infinity"[0] == 'i' && "nan"[0] == 'n';
  }

  /** Text starting with a letter other than those of `inf` and `nan`, and free of points and
      exponent letters, does not parse. */
  lemma {:induction false} LetterRefused(s: string)
    requires s != [] && 'a' <= s[0] <= 'z' && s[0] != 'i' && s[0] != 'n' && s[0] != 'e'
    requires forall k :: 0 <= k < |s| ==> s[k] !in {'e', 'E', '.'}
    ensures !FloatText(s)
  {
    assert Lower(s)[0] == s[0];
    assert "inf"[0] == 'i' && "infinity"[0] == 'i' && "nan"[0] == 'n';
    NoneOf(s, {'e', 'E'});
    assert s[..|s|] == s;
    NoneOf(s, {'.'});
  }

  /** A timeout `float()` refuses stops the external provider even when the URL is set. */
  lemma BadTimeoutRefused(setting: Option<string>, url: Option<string>)
    requires Lower(Strip(setting.GetOr("static"))) == "external"
    ensures ChooseProvider(setting, url, Some("abc")) == Err(FloatError("abc"))
  {
    assert Trimmed("abc") && "abc"[0] == 'a';
    LetterRefused("abc");
  }

  /** With the timeout unset, an external setting and a set URL build the mixer. */
  lemma DefaultTimeoutMixer(setting: Option<string>, url: string)
    requires Lower(Strip(setting.GetOr("static"))) == "external" && Strip(url) != ""
    ensures ChooseProvider(setting, Some(url), None) == Ok(Mixer)
  {
    assert Trimmed("6");
    DigitsParse("6");
  }

  /** One `get_hashtags` call on the chosen provider; `external` is the service's answer, or the
      error its call raised. */
  function GetHashtags(p: Provider, external: Result<Answer, string>, lang: string, topic: Option<string>,
                       limit: int, now: string): (r: TrendsResult)
    ensures p == StaticOnly || external.Err? ==> r == StaticFallback(lang, topic, limit, now)
    ensures p == Mixer && external.Ok? ==>
              r == Mix(Ok(ExternalResult(external.value, limit, now)), StaticFallback(lang, topic, limit, now), limit, now)
    ensures Distinct(r.hashtags) && (limit >= 0 ==> |r.hashtags| <= limit)
  {
    var fallback := StaticFallback(lang, topic, limit, now);
    match p
    case StaticOnly => fallback
    case Mixer =>
      var primary := if external.Ok? then Ok(ExternalResult(external.value, limit, now)) else Err(external.error);
      Mix(primary, fallback, limit, now)
  }
}
