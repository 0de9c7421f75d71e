/** The A/B/C hook experiments (services/experiments.py): engagement rates, winner selection from
    the latest metrics checkpoint, and recording one variant's metrics for a checkpoint. Rates are
    reals. */
module Experiments {
  import opened Wrappers
  import Models

  /** The counters reported for one variant at one checkpoint. */
  datatype Metrics = Metrics(views: int, likes: int, comments: int, shares: int)

  /** `_rates`: engagement rate and share rate per view; both 0 when there are no views. */
  function Rates(views: int, likes: int, comments: int, shares: int): (r: (real, real))
    ensures views <= 0 ==> r == (0.0, 0.0)
    ensures views > 0 ==> r.0 * views as real == (likes + comments + shares) as real
    ensures views > 0 ==> r.1 * views as real == shares as real
  {
    if views <= 0 then (0.0, 0.0)
    else
      var v := if views > 1 then views else 1;
      ((likes + comments + shares) as real / v as real, shares as real / v as real)
  }

  datatype Variant = A | B | C

  const Variants: seq<Variant> := [A, B, C]

  /** A variant's position in `("A", "B", "C")`. */
  function Rank(v: Variant): nat {
    match v
    case A => 0
    case B => 1
    case C => 2
  }

  lemma VariantsComplete()
    ensures forall v: Variant :: v in Variants
  {
    forall v: Variant
      ensures v in Variants
    {
      if v == A {
        assert Variants[0] == v;
      } else if v == B {
        assert Variants[1] == v;
      } else {
        assert Variants[2] == v;
      }
    }
  }

  /** One checkpoint entry: its tag (absent reads as `T+60m`) and each variant's metrics, absent
      until reported. */
  datatype Point = Point(tLabel: Option<string>, a: Option<Metrics>, b: Option<Metrics>, c: Option<Metrics>)
  {
    function Slot(v: Variant): Option<Metrics> {
      match v
      case A => a
      case B => b
      case C => c
    }

    function WithSlot(v: Variant, m: Option<Metrics>): Point {
      match v
      case A => this.(a := m)
      case B => this.(b := m)
      case C => this.(c := m)
    }
  }

  /** The checkpoint order: T+60m < T+24h < T+48h, an unknown tag below all of them. */
  function Priority(p: Point): (n: nat)
    ensures p.tLabel.None? || p.tLabel == Some("T+60m") ==> n == 1
    ensures p.tLabel == Some("T+24h") ==> n == 2
    ensures p.tLabel == Some("T+48h") ==> n == 3
    ensures n == 0 <==> p.tLabel.Some? && p.tLabel.value !in {"T+60m", "T+24h", "T+48h"}
  {
    var tag := p.tLabel.GetOr("T+60m");
    if tag == "T+60m" then 1 else if tag == "T+24h" then 2 else if tag == "T+48h" then 3 else 0
  }

  /** The index of `sorted(points, key=priority)[-1]`: the sort is stable, so it is the last
      point of the highest priority. */
  function LatestIndex(points: seq<Point>): (i: nat)
    requires points != []
    ensures i < |points|
    ensures forall j :: 0 <= j < |points| ==> Priority(points[j]) <= Priority(points[i])
    ensures forall j :: i < j < |points| ==> Priority(points[j]) < Priority(points[i])
  {
    if |points| == 1 then 0
    else
      var k := LatestIndex(points[..|points| - 1]);
      assert forall j :: 0 <= j < |points| - 1 ==> points[..|points| - 1][j] == points[j];
      if Priority(points[|points| - 1]) >= Priority(points[k]) then |points| - 1 else k
  }

  /** A variant's ranking key: shares per thousand views (over `max(1, views)`) and engagement. */
  datatype Score = Score(variant: Variant, sharesPer1k: real, engagement: real)

  function ScoreOf(v: Variant, m: Metrics): Score {
    var per := if m.views > 1 then m.views else 1;
    Score(v, (m.shares as real / per as real) * 1000.0, Rates(m.views, m.likes, m.comments, m.shares).0)
  }

  /** The sort key `(shares_per_1k, engagement_rate)` of `x` is strictly above that of `y`. */
  predicate Above(x: Score, y: Score) {
    x.sharesPer1k > y.sharesPer1k || (x.sharesPer1k == y.sharesPer1k && x.engagement > y.engagement)
  }

  /** The scores of the variants reported at a checkpoint, in the order of `vs`. */
  function Scores(p: Point, vs: seq<Variant>): (r: seq<Score>)
    ensures |r| <= |vs|
    ensures forall i :: 0 <= i < |r| ==> r[i].variant in vs && p.Slot(r[i].variant).Some?
    ensures forall i :: 0 <= i < |r| ==> r[i] == ScoreOf(r[i].variant, p.Slot(r[i].variant).value)
    ensures (r == []) <==> forall v :: v in vs ==> p.Slot(v).None?
    ensures forall v :: v in vs && p.Slot(v).Some? ==> ScoreOf(v, p.Slot(v).value) in r
  {
    if vs == [] then []
    else
      var rest := Scores(p, vs[1..]);
      assert forall v :: v in vs ==> v == vs[0] || v in vs[1..];
      match p.Slot(vs[0])
      case None => rest
      case Some(m) => [ScoreOf(vs[0], m)] + rest
  }

  /** The scores come in increasing rank of their variants. */
  predicate InRankOrder(scores: seq<Score>) {
    forall i, j :: 0 <= i < j < |scores| ==> Rank(scores[i].variant) < Rank(scores[j].variant)
  }

  /** Scoring `("A", "B", "C")` keeps that order. */
  lemma ScoresInOrder(p: Point)
    ensures InRankOrder(Scores(p, Variants))
  {
    assert Variants[1..] == [B, C];
    ScoresStep(p, Variants);
    ScoresTailInOrder(p);
    InOrderCons(if p.a.Some? then [ScoreOf(A, p.a.value)] else [], Scores(p, [B, C]));
  }

  /** Scoring `("B", "C")` keeps that order and scores no A. */
  lemma ScoresTailInOrder(p: Point)
    ensures InRankOrder(Scores(p, [B, C]))
    ensures forall k :: 0 <= k < |Scores(p, [B, C])| ==> Rank(Scores(p, [B, C])[k].variant) > 0
  {
    assert [B, C][1..] == [C] && [C][1..] == [];
    ScoresStep(p, [C]);
    ScoresStep(p, [B, C]);
    InOrderCons(if p.b.Some? then [ScoreOf(B, p.b.value)] else [], Scores(p, [C]));
  }

  /** One step of `Scores`: the head variant's score, if reported, before the rest's. */
  lemma ScoresStep(p: Point, vs: seq<Variant>)
    requires vs != []
    ensures Scores(p, vs) == (if p.Slot(vs[0]).Some? then [ScoreOf(vs[0], p.Slot(vs[0]).value)] else []) + Scores(p, vs[1..])
  {
  }

  /** At most one score ranked below everything after it keeps the order. */
  lemma InOrderCons(x: seq<Score>, rest: seq<Score>)
    requires |x| <= 1 && InRankOrder(rest)
    requires forall i, k :: 0 <= i < |x| && 0 <= k < |rest| ==> Rank(x[i].variant) < Rank(rest[k].variant)
    ensures InRankOrder(x + rest)
  {
    var r := x + rest;
    forall i, j | 0 <= i < j < |r| ensures Rank(r[i].variant) < Rank(r[j].variant) {
      assert r[j] == rest[j - |x|];
      if i >= |x| {
        assert r[i] == rest[i - |x|];
      }
    }
  }

  /** In scores ordered by rank, the first of the best keys beats every earlier-ranked variant. */
  lemma BestBeatsEarlier(scores: seq<Score>, s: Score)
    requires scores != [] && InRankOrder(scores) && s in scores
    requires Rank(s.variant) < Rank(scores[Best(scores)].variant)
    ensures Above(scores[Best(scores)], s)
  {
    var j :| 0 <= j < |scores| && scores[j] == s;
    var i := Best(scores);
    assert j < i;
  }

  /** The first of the scores after `scores.sort(key, reverse=True)`: Python's sort is stable even
      when reversed, so it is the earliest of the highest keys. */
  function Best(scores: seq<Score>): (i: nat)
    requires scores != []
    ensures i < |scores|
    ensures forall j :: 0 <= j < |scores| ==> !Above(scores[j], scores[i])
    ensures forall j :: 0 <= j < i ==> Above(scores[i], scores[j])
  {
    if |scores| == 1 then 0
    else
      var k := Best(scores[..|scores| - 1]);
      assert forall j :: 0 <= j < |scores| - 1 ==> scores[..|scores| - 1][j] == scores[j];
      if Above(scores[|scores| - 1], scores[k]) then |scores| - 1 else k
  }

  /** `_choose_winner`: no winner without points or when the latest point has no variant data;
      otherwise the best-ranked variant of the latest point, the earliest of A, B, C on a tie. */
  function ChooseWinner(points: seq<Point>): (w: Option<Variant>)
    ensures points == [] ==> w == None
    ensures points != [] ==>
              var latest := points[LatestIndex(points)];
              && (w == None <==> latest.a.None? && latest.b.None? && latest.c.None?)
              && (w.Some? ==> latest.Slot(w.value).Some?)
              && (w.Some? ==> forall v :: latest.Slot(v).Some? ==>
                    !Above(ScoreOf(v, latest.Slot(v).value), ScoreOf(w.value, latest.Slot(w.value).value)))
              && (w.Some? ==> forall v :: latest.Slot(v).Some? && Rank(v) < Rank(w.value) ==>
                    Above(ScoreOf(w.value, latest.Slot(w.value).value), ScoreOf(v, latest.Slot(v).value)))
  {
    if points == [] then None else WinnerOf(points[LatestIndex(points)])
  }

  /** The best-ranked variant of one checkpoint entry, if it has variant data. */
  function WinnerOf(latest: Point): (w: Option<Variant>)
    ensures w == None <==> latest.a.None? && latest.b.None? && latest.c.None?
    ensures w.Some? ==> latest.Slot(w.value).Some?
    ensures w.Some? ==> forall v :: latest.Slot(v).Some? ==>
              !Above(ScoreOf(v, latest.Slot(v).value), ScoreOf(w.value, latest.Slot(w.value).value))
    ensures w.Some? ==> forall v :: latest.Slot(v).Some? && Rank(v) < Rank(w.value) ==>
              Above(ScoreOf(w.value, latest.Slot(w.value).value), ScoreOf(v, latest.Slot(v).value))
  {
    var scores := Scores(latest, Variants);
    VariantsComplete();
    ScoresInOrder(latest);
    assert latest.Slot(A) == latest.a && latest.Slot(B) == latest.b && latest.Slot(C) == latest.c;
    if scores == [] then None
    else
      var i := Best(scores);
      forall v | latest.Slot(v).Some?
        ensures !Above(ScoreOf(v, latest.Slot(v).value), scores[i])
        ensures Rank(v) < Rank(scores[i].variant) ==> Above(scores[i], ScoreOf(v, latest.Slot(v).value))
      {
        var j :| 0 <= j < |scores| && scores[j] == ScoreOf(v, latest.Slot(v).value);
        if Rank(v) < Rank(scores[i].variant) {
          BestBeatsEarlier(scores, scores[j]);
        }
      }
      Some(scores[i].variant)
  }

  /** A full tie between A and B goes to A. */
  lemma TieGoesToEarliest(m: Metrics)
    ensures ChooseWinner([Point(None, Some(m), Some(m), None)]) == Some(A)
  {
  }

  /** Labels identify checkpoint entries: no two entries carry the same tag. */
  predicate UniqueLabels(points: seq<Point>) {
    forall i, j :: 0 <= i < j < |points| && points[i].tLabel.Some? ==> points[i].tLabel != points[j].tLabel
  }

  /** The index of the first entry labelled `tag`, if any. */
  function FindLabel(points: seq<Point>, tag: string): (r: Option<nat>)
    ensures r.Some? ==> r.value < |points| && points[r.value].tLabel == Some(tag)
    ensures r.Some? ==> forall j :: 0 <= j < r.value ==> points[j].tLabel != Some(tag)
    ensures r.None? ==> forall j :: 0 <= j < |points| ==> points[j].tLabel != Some(tag)
  {
    if points == [] then None
    else if points[0].tLabel == Some(tag) then Some(0)
    else
      var r := FindLabel(points[1..], tag);
      if r.Some? then Some(r.value + 1) else None
  }

  /** The metrics list after `add_metrics_point` sets variant `v` of checkpoint `tag`: the first
      entry with that tag gets the slot, or a new entry holding only that slot is appended. */
  function Record(points: seq<Point>, v: Variant, tag: string, m: Metrics): (r: seq<Point>)
    ensures |r| == |points| || |r| == |points| + 1
    ensures (|r| == |points| + 1 <==> FindLabel(points, tag).None?)
    ensures FindLabel(r, tag).Some?
    ensures var k := FindLabel(r, tag).value;
            && r[k].Slot(v) == Some(m)
            && (forall u :: u != v ==> r[k].Slot(u) == (if k < |points| then points[k].Slot(u) else None))
            && (forall j :: 0 <= j < |points| && j != k ==> r[j] == points[j])
  {
    var found := FindLabel(points, tag);
    if found.Some? then
      var p := points[found.value].WithSlot(v, Some(m));
      FindLabelUpdate(points, tag, found.value, p);
      points[found.value := p]
    else
      var p := Point(Some(tag), None, None, None).WithSlot(v, Some(m));
      FindLabelAppend(points, tag, p);
      points + [p]
  }

  /** Recording keeps checkpoint tags unique. */
  lemma RecordKeepsUnique(points: seq<Point>, v: Variant, tag: string, m: Metrics)
    requires UniqueLabels(points)
    ensures UniqueLabels(Record(points, v, tag, m))
  {
  }

  /** The stored state of an experiment that `add_metrics_point` reads and writes. */
  datatype Experiment = Experiment(metrics: seq<Point>, winner: Option<Variant>, status: string)

  /** `add_metrics_point`: the point is recorded, the winner recomputed, and a winner completes the
      experiment, while no winner leaves the status as it was. */
  function AddMetricsPoint(e: Experiment, v: Variant, tag: string, m: Metrics): (r: Experiment)
    ensures r.metrics == Record(e.metrics, v, tag, m)
    ensures r.winner == ChooseWinner(r.metrics)
    ensures r.winner.Some? ==> r.status == "completed"
    ensures r.winner.None? ==> r.status == e.status
  {
    var metrics := Record(e.metrics, v, tag, m);
    var winner := ChooseWinner(metrics);
    Experiment(metrics, winner, if winner.Some? then "completed" else e.status)
  }

  /** The record classes the experiments module imports from the models module. */
  const ImportedRecords: set<string> := {"Experiment", "Creator"}

  const ImportFailure: string := "cannot import name 'Experiment' from 'models'"

  /** `add_metrics_point` as written: its module imports `Experiment` and `Creator`, which the
      models module does not define, so the import raises before anything can be called. */
  function AddMetricsPointAsWritten(e: Experiment, v: Variant, tag: string, m: Metrics): (r: Result<Experiment, string>)
    ensures Models.Importable(ImportedRecords) ==> r == Ok(AddMetricsPoint(e, v, tag, m))
    ensures !Models.Importable(ImportedRecords) ==> r == Err(ImportFailure)
  {
    if Models.Importable(ImportedRecords) then Ok(AddMetricsPoint(e, v, tag, m)) else Err(ImportFailure)
  }

  /** Whatever the experiment and the point, the call as written fails with the import error. */
  lemma AddMetricsPointAsWrittenFails(e: Experiment, v: Variant, tag: string, m: Metrics)
    ensures AddMetricsPointAsWritten(e, v, tag, m) == Err(ImportFailure)
  {
    assert "Experiment" in ImportedRecords && "Experiment" !in Models.ModuleNames;
  }

  /** Replacing the first `tag` entry by one with the same tag keeps it the first. */
  lemma {:induction false} FindLabelUpdate(points: seq<Point>, tag: string, k: nat, p: Point)
    requires FindLabel(points, tag) == Some(k) && p.tLabel == Some(tag)
    ensures FindLabel(points[k := p], tag) == Some(k)
    decreases |points|
  {
    if k > 0 {
      assert points[k := p][1..] == points[1..][k - 1 := p];
      FindLabelUpdate(points[1..], tag, k - 1, p);
    }
  }

  /** Appending a `tag` entry to a list without one makes it the first. */
  lemma {:induction false} FindLabelAppend(points: seq<Point>, tag: string, p: Point)
    requires FindLabel(points, tag).None? && p.tLabel == Some(tag)
    ensures FindLabel(points + [p], tag) == Some(|points|)
    decreases |points|
  {
    if points != [] {
      assert (points + [p])[1..] == points[1..] + [p];
      FindLabelAppend(points[1..], tag, p);
    }
  }
}
