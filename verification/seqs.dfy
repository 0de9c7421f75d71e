/** Sequence helpers: distinctness and order-preserving de-duplication. */
module Seqs {
  import opened Wrappers

  predicate Distinct<T(==)>(xs: seq<T>) {
    forall i, j :: 0 <= i < j < |xs| ==> xs[i] != xs[j]
  }

  /** A new element in front of a distinct sequence keeps it distinct. */
  lemma DistinctCons<T>(x: T, xs: seq<T>)
    requires Distinct(xs) && x !in xs
    ensures Distinct([x] + xs)
  {
    assert forall j :: 1 <= j < |[x] + xs| ==> ([x] + xs)[j] == xs[j - 1];
  }

  /** The loop `for x in xs: if x not in out: out.append(x)` started from a distinct `out`. */
  function DedupeFrom<T(==)>(xs: seq<T>, out: seq<T>): (r: seq<T>)
    requires Distinct(out)
    ensures Distinct(r)
    ensures |out| <= |r| <= |out| + |xs| && r[..|out|] == out
    ensures forall i :: 0 <= i < |r| ==> r[i] in out || r[i] in xs
    ensures forall i :: 0 <= i < |xs| ==> xs[i] in r
    decreases |xs|
  {
    if xs == [] then out
    else if xs[0] in out then
      var r := DedupeFrom(xs[1..], out);
      assert forall i :: 0 <= i < |out| ==> out[i] == r[i];
      r
    else
      var r := DedupeFrom(xs[1..], out + [xs[0]]);
      assert r[..|out| + 1][..|out|] == out;
      assert r[|out|] == (out + [xs[0]])[|out|];
      r
  }

  /** The elements of `xs` in first-occurrence order, each once. */
  function Dedupe<T(==)>(xs: seq<T>): (r: seq<T>)
    ensures Distinct(r) && |r| <= |xs|
    ensures forall i :: 0 <= i < |r| ==> r[i] in xs
    ensures forall i :: 0 <= i < |xs| ==> xs[i] in r
  {
    DedupeFrom(xs, [])
  }

  /** Running the loop over `a + b` is running it over `a`, then over `b`. */
  lemma {:induction false} DedupeFromAppend<T>(a: seq<T>, b: seq<T>, out: seq<T>)
    requires Distinct(out)
    ensures DedupeFrom(a + b, out) == DedupeFrom(b, DedupeFrom(a, out))
    decreases |a|
  {
    if a == [] {
      assert a + b == b;
    } else {
      assert (a + b)[0] == a[0] && (a + b)[1..] == a[1..] + b;
      if a[0] in out {
        DedupeFromAppend(a[1..], b, out);
      } else {
        DedupeFromAppend(a[1..], b, out + [a[0]]);
      }
    }
  }

  /** One more element: kept at the end exactly when it is new. */
  lemma DedupeSnoc<T>(xs: seq<T>, x: T)
    ensures Dedupe(xs + [x]) == if x in xs then Dedupe(xs) else Dedupe(xs) + [x]
  {
    DedupeFromAppend(xs, [x], []);
    var d := Dedupe(xs);
    assert DedupeFrom([x], d) == if x in d then d else d + [x];
  }

  /** `r` lists elements of `xs` in the order of their first occurrences: every occurrence in
      `xs` of a later element of `r` comes after an occurrence of each earlier one. */
  predicate FirstOccurrenceOrder<T(==)>(xs: seq<T>, r: seq<T>) {
    forall i, j, k :: 0 <= i < j < |r| && 0 <= k < |xs| && xs[k] == r[j] ==> r[i] in xs[..k]
  }

  /** De-duplication keeps first occurrences in order. */
  lemma {:induction false} DedupeOrder<T>(xs: seq<T>)
    ensures FirstOccurrenceOrder(xs, Dedupe(xs))
    decreases |xs|
  {
    if xs != [] {
      var ys := xs[..|xs| - 1];
      var x := xs[|xs| - 1];
      assert xs == ys + [x];
      DedupeOrder(ys);
      DedupeSnoc(ys, x);
      if x in ys {
        OrderSnocSeen(ys, x, Dedupe(ys));
      } else {
        OrderSnocNew(ys, x, Dedupe(ys));
      }
    }
  }

  /** A repeated last element keeps the order of the de-duplicated prefix. */
  lemma OrderSnocSeen<T>(ys: seq<T>, x: T, d: seq<T>)
    requires x in ys && FirstOccurrenceOrder(ys, d)
    ensures FirstOccurrenceOrder(ys + [x], d)
  {
    var xs := ys + [x];
    forall i, j, k | 0 <= i < j < |d| && 0 <= k < |xs| && xs[k] == d[j]
      ensures d[i] in xs[..k]
    {
      if k < |ys| {
        assert xs[..k] == ys[..k] && ys[k] == xs[k];
      } else {
        var k0 :| 0 <= k0 < |ys| && ys[k0] == x;
        assert d[i] in ys[..k0];
        assert ys[..k0] == xs[..k0] && xs[..k0] <= xs[..k];
      }
    }
  }

  /** A new last element, appended to the de-duplicated prefix, keeps the order. */
  lemma OrderSnocNew<T>(ys: seq<T>, x: T, d: seq<T>)
    requires x !in ys && FirstOccurrenceOrder(ys, d)
    requires forall i :: 0 <= i < |d| ==> d[i] in ys
    ensures FirstOccurrenceOrder(ys + [x], d + [x])
  {
    var xs := ys + [x];
    var r := d + [x];
    forall i, j, k | 0 <= i < j < |r| && 0 <= k < |xs| && xs[k] == r[j]
      ensures r[i] in xs[..k]
    {
      assert r[i] == d[i];
      if j < |d| {
        assert r[j] == d[j] && d[j] in ys;
        assert k < |ys|;
        assert xs[..k] == ys[..k] && ys[k] == xs[k];
      } else {
        assert k == |ys|;
        assert xs[..k] == ys;
      }
    }
  }

  /** De-duplicating a longer list extends the de-duplication of its prefix. */
  lemma DedupePrefix<T>(a: seq<T>, b: seq<T>)
    ensures |Dedupe(a)| <= |Dedupe(a + b)|
    ensures Dedupe(a + b)[..|Dedupe(a)|] == Dedupe(a)
  {
    DedupeFromAppend(a, b, []);
  }

  /** A distinct list is its own de-duplication. */
  lemma {:induction false} DedupeFromDistinct<T>(xs: seq<T>, out: seq<T>)
    requires Distinct(out + xs)
    ensures Distinct(out) && DedupeFrom(xs, out) == out + xs
    decreases |xs|
  {
    assert forall i :: 0 <= i < |out| ==> (out + xs)[i] == out[i];
    if xs != [] {
      assert (out + xs)[|out|] == xs[0];
      assert xs[0] !in out;
      assert out + [xs[0]] + xs[1..] == out + xs;
      DedupeFromDistinct(xs[1..], out + [xs[0]]);
    }
  }

  lemma DedupeIdempotent<T>(xs: seq<T>)
    ensures Dedupe(Dedupe(xs)) == Dedupe(xs)
  {
    assert [] + Dedupe(xs) == Dedupe(xs);
    DedupeFromDistinct(Dedupe(xs), []);
  }

  /** Python's `xs[:n]`; a negative `n` counts from the end. */
  function Take<T>(xs: seq<T>, n: int): (r: seq<T>)
    ensures |r| <= |xs| && r == xs[..|r|]
    ensures n >= 0 ==> |r| == if n < |xs| then n else |xs|
    ensures n < 0 ==> |r| == if |xs| + n > 0 then |xs| + n else 0
  {
    if n >= 0 then (if n < |xs| then xs[..n] else xs)
    else if |xs| + n > 0 then xs[..|xs| + n]
    else []
  }

  /** The present values of a list, in order: `[t for t in ys if t]` when no value is falsy. */
  function Present<T>(ys: seq<Option<T>>): (r: seq<T>)
    ensures |r| <= |ys|
    ensures forall i :: 0 <= i < |ys| && ys[i].Some? ==> ys[i].value in r
    ensures forall i :: 0 <= i < |r| ==> Some(r[i]) in ys
  {
    if ys == [] then []
    else
      var rest := Present(ys[1..]);
      assert forall i :: 1 <= i < |ys| ==> ys[i] == ys[1..][i - 1];
      (if ys[0].Some? then [ys[0].value] else []) + rest
  }

  /** A list with every value present loses nothing. */
  lemma {:induction false} PresentAll<T>(xs: seq<T>, ys: seq<Option<T>>)
    requires |ys| == |xs| && forall i :: 0 <= i < |xs| ==> ys[i] == Some(xs[i])
    ensures Present(ys) == xs
    decreases |xs|
  {
    if xs != [] {
      PresentAll(xs[1..], ys[1..]);
    }
  }
}
