/** The pure helpers of the niche-lock content engine (tasks.py): text cleaning, keyword
    extraction, the niche-lock check, the heuristic dominance score and the column lookup. */
module NicheLock {
  import opened Wrappers
  import opened Text
  import opened Seqs

  /** `_clean_text`: strip, then collapse every whitespace run to one space. */
  function CleanText(s: string): (r: string)
    ensures Trimmed(r) && SingleSpaced(r)
    ensures r == "" <==> forall i :: 0 <= i < |s| ==> IsSpace(s[i])
  {
    var t := Strip(s);
    StripEmptyIffAllSpace(s);
    SubSpacesSingle(t);
    SubSpacesTrimmed(t, " ");
    SubSpaces(t, " ")
  }

  /** Cleaning is idempotent: a cleaned text is trimmed and single-spaced already. */
  lemma CleanTextIdempotent(s: string)
    ensures CleanText(CleanText(s)) == CleanText(s)
  {
    var c := CleanText(s);
    SubSpacesSingleNoop(c);
  }

  /** The two token classes of `[A-Za-z0-9_]+|[؀-ۿ]+`. */
  predicate WordChar(c: char) {
    ('A' <= c <= 'Z') || ('a' <= c <= 'z') || ('0' <= c <= '9') || c == '_'
  }

  predicate ArabicChar(c: char) {
    0x0600 <= c as int <= 0x06FF
  }

  /** Length of the longest prefix of `s` whose characters are all in the class. */
  function RunLength(s: string, word: bool): (n: nat)
    ensures n <= |s|
    ensures forall i :: 0 <= i < n ==> (if word then WordChar(s[i]) else ArabicChar(s[i]))
    ensures n < |s| ==> !(if word then WordChar(s[n]) else ArabicChar(s[n]))
  {
    if s == [] || !(if word then WordChar(s[0]) else ArabicChar(s[0])) then 0
    else RunLength(s[1..], word) + 1
  }

  /** A token: non-empty and drawn from one class. */
  predicate IsToken(t: string) {
    t != [] && ((forall i :: 0 <= i < |t| ==> WordChar(t[i])) || (forall i :: 0 <= i < |t| ==> ArabicChar(t[i])))
  }

  /** `re.findall` of the token pattern: the maximal runs of either class, left to right. */
  function Tokens(s: string): (r: seq<string>)
    ensures forall i :: 0 <= i < |r| ==> IsToken(r[i])
    decreases |s|
  {
    if s == [] then []
    else if WordChar(s[0]) then
      var n := RunLength(s, true);
      [s[..n]] + Tokens(s[n..])
    else if ArabicChar(s[0]) then
      var n := RunLength(s, false);
      [s[..n]] + Tokens(s[n..])
    else Tokens(s[1..])
  }

  /** Tokens hold no `#` and no whitespace, so the `strip("#")` the keyword loop applies leaves them
      unchanged, and ASCII lowering is exactly Python's `lower()` on them. */
  lemma TokenChars(t: string)
    requires IsToken(t)
    ensures '#' !in t && NoSpace(t)
    ensures forall i :: 0 <= i < |t| ==> LowerChar(t[i]) == t[i] || 'A' <= t[i] <= 'Z'
  {
  }

  /** The stop words of both languages. */
  const StopWords: set<string> := {
    "في", "من", "على", "إلى", "عن", "هذا", "هذه", "ذلك", "تلك", "مع", "ثم", "و", "او", "أو",
    "the", "a", "an", "to", "of", "and", "or", "for", "in"}

  /** `str.isdigit()` of a token. */
  predicate AllDigits(t: string) {
    t != [] && forall i :: 0 <= i < |t| ==> IsDigitChar(t[i])
  }

  /** A lowered token the keyword loop keeps. */
  predicate Keep(tt: string) {
    tt != "" && tt !in StopWords && !AllDigits(tt)
  }

  /** The kept, lowered tokens in order, duplicates included. */
  function Candidates(tokens: seq<string>): (r: seq<string>)
    ensures forall i :: 0 <= i < |r| ==> Keep(r[i])
  {
    if tokens == [] then []
    else if Keep(Lower(tokens[0])) then [Lower(tokens[0])] + Candidates(tokens[1..])
    else Candidates(tokens[1..])
  }

  /** The `for t in tokens` loop of `_keywords`, with `out` as accumulated so far: a kept token is
      appended when new, and the loop breaks as soon as `out` reaches `limit`. */
  function KeywordLoop(tokens: seq<string>, limit: int, out: seq<string>): seq<string>
    decreases |tokens|
  {
    if tokens == [] then out
    else
      var tt := Lower(tokens[0]);
      if !Keep(tt) then KeywordLoop(tokens[1..], limit, out)
      else
        var out' := if tt in out then out else out + [tt];
        if |out'| >= limit then out' else KeywordLoop(tokens[1..], limit, out')
  }

  function MaxOne(limit: int): nat {
    if limit < 1 then 1 else limit
  }

  /** The loop collects the first `max(1, limit)` distinct candidates: from any distinct `out`
      below the limit, it computes the de-duplication loop over the remaining candidates, cut at
      `max(1, limit)`. */
  lemma {:induction false} KeywordLoopDedupe(tokens: seq<string>, limit: int, out: seq<string>)
    requires Distinct(out) && |out| < MaxOne(limit)
    ensures KeywordLoop(tokens, limit, out) == Take(DedupeFrom(Candidates(tokens), out), MaxOne(limit))
    decreases |tokens|
  {
    if tokens != [] {
      var tt := Lower(tokens[0]);
      var rest := tokens[1..];
      if Keep(tt) {
        var c := [tt] + Candidates(rest);
        assert Candidates(tokens) == c && c[0] == tt && c[1..] == Candidates(rest);
        var out' := if tt in out then out else out + [tt];
        assert DedupeFrom(c, out) == DedupeFrom(Candidates(rest), out');
        if |out'| >= limit {
          assert tt in out';
        } else {
          KeywordLoopDedupe(rest, limit, out');
        }
      } else {
        KeywordLoopDedupe(rest, limit, out);
      }
    }
  }

  /** `_keywords(niche, limit)` over the niche's tokens. */
  function Keywords(niche: string, limit: int): (r: seq<string>)
    ensures Distinct(r) && |r| <= MaxOne(limit)
    ensures forall i :: 0 <= i < |r| ==> Keep(r[i]) && Lower(r[i]) == r[i]
    ensures r == Take(Dedupe(Candidates(Tokens(CleanText(niche)))), MaxOne(limit))
  {
    var tokens := Tokens(CleanText(niche));
    KeywordLoopDedupe(tokens, limit, []);
    LowerCandidates(tokens);
    TakeDedupeKept(Candidates(tokens), MaxOne(limit));
    KeywordLoop(tokens, limit, [])
  }

  /** The first `n` distinct candidates are distinct, at most `n`, and kept lowered tokens. */
  lemma TakeDedupeKept(c: seq<string>, n: nat)
    requires forall i :: 0 <= i < |c| ==> Keep(c[i]) && Lower(c[i]) == c[i]
    ensures var r := Take(Dedupe(c), n);
            && Distinct(r) && |r| <= n
            && forall i :: 0 <= i < |r| ==> Keep(r[i]) && Lower(r[i]) == r[i]
  {
    var d := Dedupe(c);
    var r := Take(d, n);
    forall i | 0 <= i < |r|
      ensures Keep(r[i]) && Lower(r[i]) == r[i]
    {
      assert r[i] == d[i] && d[i] in c;
      var j :| 0 <= j < |c| && c[j] == d[i];
    }
    assert forall i, j :: 0 <= i < j < |r| ==> r[i] == d[i] && r[j] == d[j];
  }

  lemma {:induction false} LowerCandidates(tokens: seq<string>)
    ensures forall i :: 0 <= i < |Candidates(tokens)| ==> Lower(Candidates(tokens)[i]) == Candidates(tokens)[i]
  {
    if tokens != [] {
      LowerIdempotent(tokens[0]);
      LowerCandidates(tokens[1..]);
    }
  }

  const EmptyNicheError: string := "Niche is empty (cannot generate)"
  const NicheLockError: string := "Niche-Lock failed: outputs do not reflect niche"

  /** Every keyword occurs in `text`. */
  predicate AllIn(kws: seq<string>, text: string) {
    forall i :: 0 <= i < |kws| ==> Contains(text, kws[i])
  }

  /** `_ensure_niche_lock(niche, payload)` with `blob` the payload's JSON text. */
  function EnsureNicheLock(niche: string, blob: string): (r: Result<(), string>)
    ensures CleanText(niche) == "" <==> r == Err(EmptyNicheError)
    ensures CleanText(niche) != "" && Contains(blob, CleanText(niche)) ==> r.Ok?
    ensures CleanText(niche) != "" && !Contains(blob, CleanText(niche)) ==>
              (r.Ok? <==> Keywords(niche, 3) != [] && AllIn(Keywords(niche, 3), Lower(blob)))
    ensures r.Err? ==> r.error == EmptyNicheError || r.error == NicheLockError
  {
    var n := CleanText(niche);
    if n == "" then Err(EmptyNicheError)
    else if Contains(blob, n) then Ok(())
    else
      CleanTextIdempotent(niche);
      var kws := Keywords(n, 3);
      if kws == [] || !AllIn(kws, Lower(blob)) then Err(NicheLockError) else Ok(())
  }

  /** The heuristic report of `_dominance_score`. */
  datatype Heuristic = Heuristic(score: int, signals: seq<string>, risk: string)

  const RiskLow: string := "منخفض"
  const RiskMedium: string := "متوسط"
  const AuthorityTones: set<string> := {"authority", "سلطوي", "سيادي"}

  predicate HasTikTok(platforms: seq<string>) {
    exists i :: 0 <= i < |platforms| && Lower(platforms[i]) == "tiktok"
  }

  /** `_dominance_score(niche, platforms, tone)`. */
  function DominanceHeuristic(niche: string, platforms: seq<string>, tone: string): (h: Heuristic)
    ensures h.score == 60 + (if |Keywords(niche, 8)| >= 4 then 10 else 0)
                          + (if HasTikTok(platforms) then 5 else 0)
                          + (if Lower(tone) in AuthorityTones then 5 else 0)
    ensures h.risk == RiskLow <==> h.score >= 75
    ensures |h.signals| == 3
    ensures h.signals[2] == if |platforms| >= 2 then "Cross-platform: مفعّل" else "منصة واحدة"
  {
    var base := 60;
    var base := if |Keywords(niche, 8)| >= 4 then base + 10 else base;
    var base := if HasTikTok(platforms) then base + 5 else base;
    var base := if Lower(tone) in AuthorityTones then base + 5 else base;
    var base := if base < 95 then base else 95;
    Heuristic(base,
              ["Niche-Lock: مضمون", "CTA: موجود", if |platforms| >= 2 then "Cross-platform: مفعّل" else "منصة واحدة"],
              if base >= 75 then RiskLow else RiskMedium)
  }

  /** The cap of 95 never binds (the bonuses add up to 20), and the risk is low exactly when the
      niche has at least four keywords and TikTok or an authority tone is present. */
  lemma DominanceHeuristicRisk(niche: string, platforms: seq<string>, tone: string)
    ensures 60 <= DominanceHeuristic(niche, platforms, tone).score <= 80
    ensures DominanceHeuristic(niche, platforms, tone).risk == RiskLow <==>
              |Keywords(niche, 8)| >= 4 && (HasTikTok(platforms) || Lower(tone) in AuthorityTones)
  {
  }

  /** `{c.name.lower(): c.name for c in table.columns}`: a later column overwrites an earlier one
      with the same lowered name. */
  function ColumnIndex(columns: seq<string>): map<string, string> {
    if columns == [] then map[]
    else ColumnIndex(columns[..|columns| - 1])[Lower(columns[|columns| - 1]) := columns[|columns| - 1]]
  }

  /** The index has a key for each lowered column name. */
  lemma {:induction false} ColumnIndexKeys(columns: seq<string>, k: string)
    ensures k in ColumnIndex(columns) <==> exists j :: 0 <= j < |columns| && Lower(columns[j]) == k
  {
    if columns != [] {
      var n := |columns| - 1;
      var front := columns[..n];
      ColumnIndexKeys(front, k);
      if k in ColumnIndex(columns) {
        if Lower(columns[n]) != k {
          var j :| 0 <= j < |front| && Lower(front[j]) == k;
          assert columns[j] == front[j];
        }
      } else {
        forall j | 0 <= j < |columns|
          ensures Lower(columns[j]) != k
        {
          if j < n {
            assert columns[j] == front[j];
          }
        }
      }
    }
  }

  /** Column `j` is the last one whose lowered name is `k`. */
  predicate LastNamed(columns: seq<string>, k: string, j: int) {
    && 0 <= j < |columns| && Lower(columns[j]) == k
    && forall j' :: j < j' < |columns| ==> Lower(columns[j']) != k
  }

  /** Each key maps to the last column with that lowered name. */
  lemma {:induction false} ColumnIndexLast(columns: seq<string>, k: string)
    requires k in ColumnIndex(columns)
    ensures exists j :: LastNamed(columns, k, j) && columns[j] == ColumnIndex(columns)[k]
  {
    var n := |columns| - 1;
    var front := columns[..n];
    assert ColumnIndex(columns) == ColumnIndex(front)[Lower(columns[n]) := columns[n]];
    if Lower(columns[n]) == k {
      assert LastNamed(columns, k, n);
    } else {
      assert k in ColumnIndex(front) && ColumnIndex(columns)[k] == ColumnIndex(front)[k];
      ColumnIndexLast(front, k);
      var j :| LastNamed(front, k, j) && front[j] == ColumnIndex(front)[k];
      forall j' | j < j' < |columns|
        ensures Lower(columns[j']) != k
      {
        if j' < n {
          assert columns[j'] == front[j'];
        }
      }
      assert columns[j] == front[j];
      assert LastNamed(columns, k, j);
    }
  }

  /** `_col(table, *names)`: the actual name of the first candidate that matches a column
      case-insensitively. */
  function Col(columns: seq<string>, names: seq<string>): (r: Option<string>)
    ensures r.None? <==> forall i, j :: 0 <= i < |names| && 0 <= j < |columns| ==> Lower(names[i]) != Lower(columns[j])
    ensures r.Some? ==> exists i :: 0 <= i < |names| && r.value in columns && Lower(r.value) == Lower(names[i]) &&
                          forall i', j :: 0 <= i' < i && 0 <= j < |columns| ==> Lower(names[i']) != Lower(columns[j])
  {
    if names == [] then None
    else
      var m := ColumnIndex(columns);
      ColumnIndexKeys(columns, Lower(names[0]));
      if Lower(names[0]) in m then
        ColumnIndexLast(columns, Lower(names[0]));
        Some(m[Lower(names[0])])
      else
        var r := Col(columns, names[1..]);
        assert forall i :: 1 <= i < |names| ==> names[i] == names[1..][i - 1];
        r
  }
}
