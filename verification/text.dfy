/** String helpers with the semantics of the Python `str` methods the system uses. */
module Text {

  /** Python's `str.isspace()` for one character (also what `\s` matches in `re`). */
  predicate IsSpace(c: char) {
    var n := c as int;
    || (9 <= n <= 13) || (28 <= n <= 32) || n == 0x85 || n == 0xA0 || n == 0x1680
    || (0x2000 <= n <= 0x200A) || n == 0x2028 || n == 0x2029 || n == 0x202F
    || n == 0x205F || n == 0x3000
  }

  /** Python's `str.isdigit()` restricted to the ASCII and Arabic-Indic digit blocks. */
  predicate IsDigitChar(c: char) {
    var n := c as int;
    ('0' <= c <= '9') || (0x0660 <= n <= 0x0669) || (0x06F0 <= n <= 0x06F9)
  }

  predicate NoSpace(s: string) {
    forall i :: 0 <= i < |s| ==> !IsSpace(s[i])
  }

  /** No whitespace at either end: what `strip()` guarantees. */
  predicate Trimmed(s: string) {
    s == [] || (!IsSpace(s[0]) && !IsSpace(s[|s| - 1]))
  }

  /** `s.lstrip()`: the suffix left after dropping leading whitespace. */
  function LStrip(s: string): (r: string)
    ensures |r| <= |s| && r == s[|s| - |r|..]
    ensures r == [] || !IsSpace(r[0])
    ensures forall i :: 0 <= i < |s| - |r| ==> IsSpace(s[i])
  {
    if s == [] || !IsSpace(s[0]) then s else LStrip(s[1..])
  }

  /** `s.rstrip()`: the prefix left after dropping trailing whitespace. */
  function RStrip(s: string): (r: string)
    ensures |r| <= |s| && r == s[..|r|]
    ensures r == [] || !IsSpace(r[|r| - 1])
    ensures forall i :: |r| <= i < |s| ==> IsSpace(s[i])
  {
    if s == [] || !IsSpace(s[|s| - 1]) then s else RStrip(s[..|s| - 1])
  }

  /** Where the text left by `strip()` begins. */
  function StripStart(s: string): nat {
    |s| - |LStrip(s)|
  }

  /** `s.strip()`: a slice of `s` with no whitespace at either end and only whitespace cut. */
  function Strip(s: string): (r: string)
    ensures Trimmed(r)
    ensures StripStart(s) + |r| <= |s| && r == s[StripStart(s)..StripStart(s) + |r|]
    ensures Trimmed(s) ==> r == s
    ensures NoSpace(s) ==> r == s
  {
    var l := LStrip(s);
    var r := RStrip(l);
    assert r == s[|s| - |l|..|s| - |l| + |r|];
    r
  }

  /** Stripping only removes characters, so a character absent before is absent after. */
  lemma StripNotIn(s: string, c: char)
    requires c !in s
    ensures c !in Strip(s)
  {
    var r := Strip(s);
    assert forall k :: 0 <= k < |r| ==> r[k] == s[StripStart(s) + k];
  }

  lemma StripIdempotent(s: string)
    ensures Strip(Strip(s)) == Strip(s)
  {
  }

  /** A string is blank when it strips to nothing, i.e. it is all whitespace. */
  lemma StripEmptyIffAllSpace(s: string)
    ensures Strip(s) == [] <==> (forall i :: 0 <= i < |s| ==> IsSpace(s[i]))
  {
    if Strip(s) == [] {
      assert LStrip(s) == [];
    }
  }

  function LowerChar(c: char): char {
    if 'A' <= c <= 'Z' then (c as int + 32) as char else c
  }

  /** `s.lower()` on the ASCII letters; other characters are left as they are. */
  function Lower(s: string): (r: string)
    ensures |r| == |s|
    ensures forall i :: 0 <= i < |s| ==> r[i] == LowerChar(s[i])
  {
    seq(|s|, i requires 0 <= i < |s| => LowerChar(s[i]))
  }

  lemma LowerIdempotent(s: string)
    ensures Lower(Lower(s)) == Lower(s)
  {
  }

  /** Lowering never changes which characters are whitespace. */
  lemma LowerKeepsSpaces(s: string)
    ensures Trimmed(s) ==> Trimmed(Lower(s))
    ensures NoSpace(s) ==> NoSpace(Lower(s))
  {
  }

  predicate StartsWith(s: string, prefix: string) {
    |prefix| <= |s| && s[..|prefix|] == prefix
  }

  /** Python's `needle in hay` for strings. */
  predicate Contains(hay: string, needle: string)
    decreases |hay|
  {
    StartsWith(hay, needle) || (|hay| > 0 && Contains(hay[1..], needle))
  }

  lemma ContainsAt(hay: string, needle: string, i: nat)
    requires i + |needle| <= |hay| && hay[i..i + |needle|] == needle
    ensures Contains(hay, needle)
    decreases i
  {
    if i > 0 {
      assert hay[1..][i - 1..i - 1 + |needle|] == needle;
      ContainsAt(hay[1..], needle, i - 1);
    }
  }

  /** A string contains its own tail. */
  lemma ContainsSuffix(a: string, b: string)
    ensures Contains(a + b, b)
  {
    assert (a + b)[|a|..|a| + |b|] == b;
    ContainsAt(a + b, b, |a|);
  }

  lemma ContainsWitness(hay: string, needle: string) returns (i: nat)
    requires Contains(hay, needle)
    ensures i + |needle| <= |hay| && hay[i..i + |needle|] == needle
    decreases |hay|
  {
    if StartsWith(hay, needle) {
      i := 0;
    } else {
      var j := ContainsWitness(hay[1..], needle);
      i := j + 1;
      assert hay[i..i + |needle|] == hay[1..][j..j + |needle|];
    }
  }

  /** Python's `a or b` on strings: the first operand unless it is empty. */
  function Or(a: string, b: string): string {
    if a != "" then a else b
  }

  /** Index of the first occurrence of `c` in `s`. */
  function IndexOf(s: string, c: char): (i: nat)
    requires c in s
    ensures i < |s| && s[i] == c && c !in s[..i]
  {
    if s[0] == c then 0 else IndexOf(s[1..], c) + 1
  }

  /** Python's `s.split(sep)` for a one-character separator. */
  function Split(s: string, sep: char): (r: seq<string>)
    ensures |r| >= 1
    ensures forall i :: 0 <= i < |r| ==> sep !in r[i]
    decreases |s|
  {
    if sep in s then
      var i := IndexOf(s, sep);
      [s[..i]] + Split(s[i + 1..], sep)
    else
      [s]
  }

  /** Python's `sep.join(parts)` for a one-character separator. */
  function Join(parts: seq<string>, sep: char): string
    decreases |parts|
  {
    if |parts| == 0 then ""
    else if |parts| == 1 then parts[0]
    else parts[0] + [sep] + Join(parts[1..], sep)
  }

  /** Joining what `Split` produced gives back the original string. */
  lemma {:induction false} JoinSplit(s: string, sep: char)
    ensures Join(Split(s, sep), sep) == s
    decreases |s|
  {
    if sep in s {
      var i := IndexOf(s, sep);
      var a, b := s[..i], s[i + 1..];
      var rest := Split(b, sep);
      assert Split(s, sep) == [a] + rest;
      assert ([a] + rest)[1..] == rest;
      JoinSplit(b, sep);
      assert Join([a] + rest, sep) == a + [sep] + b;
      assert s == a + [sep] + b;
    }
  }

  /** Splitting a join of separator-free parts gives back the parts. */
  lemma {:induction false} SplitJoin(parts: seq<string>, sep: char)
    requires |parts| >= 1
    requires forall i :: 0 <= i < |parts| ==> sep !in parts[i]
    ensures Split(Join(parts, sep), sep) == parts
    decreases |parts|
  {
    if |parts| > 1 {
      var s := Join(parts, sep);
      var tail := Join(parts[1..], sep);
      assert s == parts[0] + [sep] + tail;
      assert s[|parts[0]|] == sep;
      assert s[..|parts[0]|] == parts[0];
      assert sep in s;
      assert IndexOf(s, sep) == |parts[0]|;
      assert s[|parts[0]| + 1..] == tail;
      SplitJoin(parts[1..], sep);
    }
  }

  /** Python's `s.replace(pat, rep)`: leftmost, non-overlapping occurrences. */
  function Replace(s: string, pat: string, rep: string): string
    requires |pat| > 0
    decreases |s|
  {
    if |s| < |pat| then s
    else if s[..|pat|] == pat then rep + Replace(s[|pat|..], pat, rep)
    else [s[0]] + Replace(s[1..], pat, rep)
  }

  /** Deleting a phrase never lengthens a string, and is a no-op when the phrase is absent. */
  lemma {:induction false} RemoveShrinks(s: string, pat: string)
    requires |pat| > 0
    ensures |Replace(s, pat, "")| <= |s|
    ensures !Contains(s, pat) ==> Replace(s, pat, "") == s
    decreases |s|
  {
    if |s| >= |pat| {
      if s[..|pat|] == pat {
        RemoveShrinks(s[|pat|..], pat);
      } else {
        RemoveShrinks(s[1..], pat);
      }
    }
  }

  /** Replaces every maximal run of whitespace with `rep`, like `re.sub(r"\s+", rep, s)`. */
  function SubSpaces(s: string, rep: string): (r: string)
    decreases |s|
  {
    if s == [] then []
    else if IsSpace(s[0]) then rep + SubSpaces(LStrip(s), rep)
    else [s[0]] + SubSpaces(s[1..], rep)
  }

  /** With a whitespace-free replacement, no whitespace survives the substitution. */
  lemma {:induction false} SubSpacesNoSpace(s: string, rep: string)
    requires NoSpace(rep)
    ensures NoSpace(SubSpaces(s, rep))
    decreases |s|
  {
    if s != [] {
      if IsSpace(s[0]) {
        SubSpacesNoSpace(LStrip(s), rep);
      } else {
        SubSpacesNoSpace(s[1..], rep);
      }
    }
  }

  /** A string without whitespace is left as it is. */
  lemma {:induction false} SubSpacesNoop(s: string, rep: string)
    requires NoSpace(s)
    ensures SubSpaces(s, rep) == s
    decreases |s|
  {
    if s != [] {
      SubSpacesNoop(s[1..], rep);
    }
  }

  /** The first character is kept when it is not whitespace. */
  lemma SubSpacesHead(s: string, rep: string)
    requires s != [] && !IsSpace(s[0])
    ensures SubSpaces(s, rep) != [] && SubSpaces(s, rep)[0] == s[0]
  {
  }

  /** Whitespace appears only as single `' '` characters. */
  predicate SingleSpaced(s: string) {
    forall i :: 0 <= i < |s| && IsSpace(s[i]) ==> s[i] == ' ' && (i + 1 < |s| ==> !IsSpace(s[i + 1]))
  }

  /** Collapsing runs to one space leaves no other whitespace and no two spaces in a row. */
  lemma {:induction false} SubSpacesSingle(s: string)
    ensures SingleSpaced(SubSpaces(s, " "))
    decreases |s|
  {
    if s != [] {
      if IsSpace(s[0]) {
        var t := LStrip(s);
        SubSpacesSingle(t);
        if t != [] {
          SubSpacesHead(t, " ");
        }
      } else {
        SubSpacesSingle(s[1..]);
      }
    }
  }

  /** The last character is kept when it is not whitespace. */
  lemma {:induction false} SubSpacesLast(s: string, rep: string)
    requires s != [] && !IsSpace(s[|s| - 1])
    ensures SubSpaces(s, rep) != [] && SubSpaces(s, rep)[|SubSpaces(s, rep)| - 1] == s[|s| - 1]
    decreases |s|
  {
    if IsSpace(s[0]) {
      SubSpacesLast(LStrip(s), rep);
    } else if |s| > 1 {
      SubSpacesLast(s[1..], rep);
    }
  }

  /** Collapsing whitespace keeps a trimmed string trimmed and a non-empty one non-empty. */
  lemma SubSpacesTrimmed(t: string, rep: string)
    requires Trimmed(t)
    ensures Trimmed(SubSpaces(t, rep))
    ensures t != [] ==> SubSpaces(t, rep) != []
  {
    if t != [] {
      SubSpacesHead(t, rep);
      SubSpacesLast(t, rep);
    }
  }

  /** A single-spaced string is left as it is by the collapse. */
  lemma {:induction false} SubSpacesSingleNoop(s: string)
    requires SingleSpaced(s)
    ensures SubSpaces(s, " ") == s
    decreases |s|
  {
    if s != [] {
      SingleSpacedTail(s);
      SubSpacesSingleNoop(s[1..]);
      if IsSpace(s[0]) {
        LStripOne(s);
      }
    }
  }

  /** The tail of a single-spaced string is single-spaced, and a leading space is followed by
      a non-space. */
  lemma SingleSpacedTail(s: string)
    requires s != [] && SingleSpaced(s)
    ensures SingleSpaced(s[1..])
    ensures IsSpace(s[0]) ==> s[0] == ' ' && (|s| == 1 || !IsSpace(s[1]))
  {
    var t := s[1..];
    forall i | 0 <= i < |t| && IsSpace(t[i])
      ensures t[i] == ' ' && (i + 1 < |t| ==> !IsSpace(t[i + 1]))
    {
      assert t[i] == s[i + 1];
    }
  }

  /** One leading space before a non-space is all `lstrip()` removes. */
  lemma LStripOne(s: string)
    requires |s| >= 1 && IsSpace(s[0]) && (|s| == 1 || !IsSpace(s[1]))
    ensures LStrip(s) == s[1..]
  {
    assert LStrip(s) == LStrip(s[1..]);
  }

  /** Decimal rendering of a natural number, as Python's `str()` or an f-string prints it. */
  function NatToString(n: nat): (r: string)
    ensures |r| >= 1
    ensures forall i :: 0 <= i < |r| ==> '0' <= r[i] <= '9'
  {
    if n < 10 then [DigitChar(n)] else NatToString(n / 10) + [DigitChar(n % 10)]
  }

  function DigitChar(d: nat): (c: char)
    requires d < 10
    ensures '0' <= c <= '9'
  {
    ('0' as int + d) as char
  }

  /** Reading the digits back gives the number: the rendering loses nothing. */
  function DigitsValue(s: string): nat
    requires forall i :: 0 <= i < |s| ==> '0' <= s[i] <= '9'
  {
    if s == [] then 0 else DigitsValue(s[..|s| - 1]) * 10 + (s[|s| - 1] as int - '0' as int)
  }

  lemma {:induction false} NatToStringRoundTrip(n: nat)
    ensures DigitsValue(NatToString(n)) == n
  {
    if n >= 10 {
      NatToStringRoundTrip(n / 10);
      var r := NatToString(n);
      assert r[..|r| - 1] == NatToString(n / 10);
    }
  }

  /** Each item stripped, in order. */
  function Stripped(items: seq<string>): (r: seq<string>)
    ensures |r| == |items| && forall i :: 0 <= i < |items| ==> r[i] == Strip(items[i])
  {
    seq(|items|, i requires 0 <= i < |items| => Strip(items[i]))
  }

  /** The non-empty strings of a list, in order. */
  function NonBlank(xs: seq<string>): (r: seq<string>)
    ensures |r| <= |xs|
    ensures forall i :: 0 <= i < |r| ==> r[i] != "" && r[i] in xs
    ensures forall i :: 0 <= i < |xs| && xs[i] != "" ==> xs[i] in r
  {
    if xs == [] then []
    else
      var rest := NonBlank(xs[1..]);
      assert forall i :: 1 <= i < |xs| ==> xs[i] == xs[1..][i - 1];
      (if xs[0] != "" then [xs[0]] else []) + rest
  }

  /** A list without an empty string keeps all of it. */
  lemma {:induction false} NonBlankAll(xs: seq<string>)
    requires forall i :: 0 <= i < |xs| ==> xs[i] != ""
    ensures NonBlank(xs) == xs
    decreases |xs|
  {
    if xs != [] {
      NonBlankAll(xs[1..]);
    }
  }

  /** `[x.strip() for x in items if x.strip()]`: the stripped items, blank ones left out, in
      order. */
  function StripAll(items: seq<string>): (r: seq<string>)
    ensures |r| <= |items|
    ensures forall i :: 0 <= i < |r| ==> r[i] != "" && Trimmed(r[i])
    ensures forall i :: 0 <= i < |r| ==> r[i] in Stripped(items)
    ensures forall i :: 0 <= i < |items| && Strip(items[i]) != "" ==> Strip(items[i]) in r
  {
    NonBlank(Stripped(items))
  }

  /** Cleaning a list never introduces a character none of its items had. */
  lemma StripAllWithout(items: seq<string>, c: char)
    requires forall i :: 0 <= i < |items| ==> c !in items[i]
    ensures forall i :: 0 <= i < |StripAll(items)| ==> c !in StripAll(items)[i]
  {
    var r := StripAll(items);
    var ys := Stripped(items);
    forall i | 0 <= i < |r|
      ensures c !in r[i]
    {
      var j :| 0 <= j < |ys| && ys[j] == r[i];
      StripNotIn(items[j], c);
    }
  }

  /** The cleaned list is empty exactly when every item is blank, and cleaning it again changes
      nothing. */
  lemma StripAllSpec(items: seq<string>)
    ensures StripAll(items) == [] <==> forall i :: 0 <= i < |items| ==> Strip(items[i]) == ""
    ensures StripAll(StripAll(items)) == StripAll(items)
  {
    var r := StripAll(items);
    if exists i :: 0 <= i < |items| && Strip(items[i]) != "" {
      var i :| 0 <= i < |items| && Strip(items[i]) != "";
      assert Strip(items[i]) in r;
    }
    StripAllKeeps(r);
  }

  /** A list of non-blank, already stripped strings is its own cleaned form. */
  lemma StripAllKeeps(xs: seq<string>)
    requires forall i :: 0 <= i < |xs| ==> xs[i] != "" && Trimmed(xs[i])
    ensures StripAll(xs) == xs
  {
    assert Stripped(xs) == xs;
    NonBlankAll(xs);
  }
}
