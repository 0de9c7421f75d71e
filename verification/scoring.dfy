/** The hook-score heuristic of the experiments feature (services/scoring.py), over reals. */
module Scoring {
  import opened Text

  /** `clamp(x, lo, hi) = max(lo, min(hi, x))`. */
  function Clamp(x: real, lo: real, hi: real): (r: real)
    ensures lo <= hi ==> lo <= r <= hi
    ensures lo <= x <= hi ==> r == x
    ensures x < lo ==> r == lo
    ensures lo <= hi < x ==> r == hi
  {
    var m := if hi <= x then hi else x;
    if lo >= m then lo else m
  }

  /** Clamping into a non-empty interval keeps order and is idempotent. */
  lemma ClampMonotone(x: real, y: real, lo: real, hi: real)
    requires lo <= hi && x <= y
    ensures Clamp(x, lo, hi) <= Clamp(y, lo, hi)
    ensures Clamp(Clamp(x, lo, hi), lo, hi) == Clamp(x, lo, hi)
  {
  }

  /** The curiosity triggers, each worth 1.2 when it occurs in the hook. */
  const Triggers: seq<string> := [
    "رقم", "صادم", "يفاجئك", "تغيّر اللعبة", "بدون", "خلال", "سر",
    "خطأ", "أخطاء", "خطوات", "طريقة", "قبل ما", "لا تفعل", "توقف"]

  /** The vague words, each costing 0.8 when it occurs in the hook. */
  const VagueWords: seq<string> := ["شيء", "موضوع", "كلام", "مرة", "أحيانًا"]

  /** How many entries of `words` occur in `t` (an entry listed twice counts twice). */
  function Hits(words: seq<string>, t: string): (n: nat)
    ensures n <= |words|
  {
    if words == [] then 0
    else (if Contains(t, words[0]) then 1 else 0) + Hits(words[1..], t)
  }

  /** No hits exactly when no listed word occurs; the count over a concatenated list adds up. */
  lemma {:induction false} HitsSpec(words: seq<string>, more: seq<string>, t: string)
    ensures Hits(words, t) == 0 <==> forall i :: 0 <= i < |words| ==> !Contains(t, words[i])
    ensures Hits(words + more, t) == Hits(words, t) + Hits(more, t)
  {
    if words != [] {
      HitsSpec(words[1..], more, t);
      assert (words + more)[1..] == words[1..] + more;
      assert forall i :: 1 <= i < |words| ==> words[i] == words[1..][i - 1];
    } else {
      assert words + more == more;
    }
  }

  /** The length bonuses, which add up: 6 up to 50 characters, 4 more up to 35, 2 more up to 22. */
  function LengthBonus(n: nat): (b: real)
  {
    (if n <= 50 then 6.0 else 0.0) + (if n <= 35 then 4.0 else 0.0) + (if n <= 22 then 2.0 else 0.0)
  }

  /** A shorter hook never gets a smaller length bonus, and the bonus is one of 0, 6, 10, 12. */
  lemma LengthBonusShape(n: nat, m: nat)
    requires n <= m
    ensures LengthBonus(n) >= LengthBonus(m)
    ensures LengthBonus(n) in {0.0, 6.0, 10.0, 12.0}
  {
  }

  predicate HasDigit(s: string) {
    exists i :: 0 <= i < |s| && IsDigitChar(s[i])
  }

  /** `any(ch.isdigit() for ch in (t + o))` is a digit in either part. */
  lemma HasDigitConcat(t: string, o: string)
    ensures HasDigit(t + o) <==> HasDigit(t) || HasDigit(o)
  {
    if HasDigit(t + o) {
      var i :| 0 <= i < |t + o| && IsDigitChar((t + o)[i]);
      if i >= |t| {
        assert o[i - |t|] == (t + o)[i];
      }
    }
    if HasDigit(o) {
      var i :| 0 <= i < |o| && IsDigitChar(o[i]);
      assert (t + o)[|t| + i] == o[i];
    }
    if HasDigit(t) {
      var i :| 0 <= i < |t| && IsDigitChar(t[i]);
      assert (t + o)[i] == t[i];
    }
  }

  /** The score before clamping, on the stripped hook `t` and on-screen text `o`. */
  function RawHookScore(t: string, o: string): real {
    68.0 + LengthBonus(|t|)
    + 1.2 * Hits(Triggers, t) as real
    + (if 0 < |o| <= 20 then 2.0 else 0.0)
    + (if HasDigit(t + o) then 2.0 else 0.0)
    - 0.8 * Hits(VagueWords, t) as real
  }

  /** The unclamped score lies between 64 (every vague word, no bonus) and 100.8 (every trigger and
      bonus), so the clamp's floor of 50 is never reached while its ceiling of 95 can be. */
  lemma RawHookScoreBounds(t: string, o: string)
    ensures 64.0 <= RawHookScore(t, o) <= 100.8
  {
    assert |Triggers| == 14 && |VagueWords| == 5;
    var h := Hits(Triggers, t);
    var v := Hits(VagueWords, t);
    assert 0.0 <= 1.2 * h as real <= 16.8;
    assert 0.0 <= 0.8 * v as real <= 4.0;
  }

  /** `score_hook`: the raw score of the stripped texts, clamped to [50, 95]. A missing text is
      the empty string. */
  function ScoreHook(hook: string, onscreen: string): (r: real)
    ensures 50.0 <= r <= 95.0
    ensures r >= 64.0
    ensures RawHookScore(Strip(hook), Strip(onscreen)) <= 95.0 ==> r == RawHookScore(Strip(hook), Strip(onscreen))
  {
    RawHookScoreBounds(Strip(hook), Strip(onscreen));
    Clamp(RawHookScore(Strip(hook), Strip(onscreen)), 50.0, 95.0)
  }
}
