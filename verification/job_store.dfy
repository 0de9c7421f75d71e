/** The job table as a map from id to job: counting by status, the status-guarded claim, and the
    oldest-first listing of queued jobs (app.py `_count_status` and the claim query). */
module JobStore {
  import opened Wrappers
  import opened Models
  import opened Seqs

  type Jobs = map<string, Job>

  /** The ids of the jobs whose status is in `st`. */
  function IdsWith(jobs: Jobs, st: set<Status>): (r: set<string>)
    ensures forall id :: id in r <==> id in jobs && jobs[id].status in st
  {
    set id | id in jobs && jobs[id].status in st
  }

  /** `_count_status`: how many jobs have a status in `st`. */
  function CountStatus(jobs: Jobs, st: set<Status>): nat {
    |IdsWith(jobs, st)|
  }

  const ActiveStatuses: set<Status> := {Running, Processing}

  /** Running jobs, counting the legacy `processing` status. */
  function RunningCount(jobs: Jobs): nat {
    CountStatus(jobs, ActiveStatuses)
  }

  function QueuedCount(jobs: Jobs): nat {
    CountStatus(jobs, {Queued})
  }

  /** Updating one job so that its status moves into or out of `st` changes the count by one. */
  lemma CountAfterUpdate(jobs: Jobs, id: string, j: Job, st: set<Status>)
    requires id in jobs
    ensures jobs[id].status !in st && j.status in st ==>
              CountStatus(jobs[id := j], st) == CountStatus(jobs, st) + 1
    ensures jobs[id].status in st && j.status !in st ==>
              CountStatus(jobs[id := j], st) == CountStatus(jobs, st) - 1
    ensures (jobs[id].status in st <==> j.status in st) ==>
              CountStatus(jobs[id := j], st) == CountStatus(jobs, st)
  {
    var before := IdsWith(jobs, st);
    var after := IdsWith(jobs[id := j], st);
    if jobs[id].status !in st && j.status in st {
      assert after == before + {id};
    } else if jobs[id].status in st && j.status !in st {
      assert after == before - {id};
    } else {
      assert after == before;
    }
  }

  /** A queued job that finishes (done or failed) leaves the queued count and does not touch the
      running count. */
  lemma FinishCounts(jobs: Jobs, id: string, j: Job)
    requires id in jobs && jobs[id].status == Queued && (j.status == Done || j.status == Failed)
    ensures RunningCount(jobs[id := j]) == RunningCount(jobs)
    ensures QueuedCount(jobs[id := j]) + 1 == QueuedCount(jobs)
  {
    CountAfterUpdate(jobs, id, j, ActiveStatuses);
    CountAfterUpdate(jobs, id, j, {Queued});
  }

  /** The conditional `queued -> running` update of one job: it applies only when the job exists
      and is still queued, and reports whether it did. */
  function ClaimIfQueued(jobs: Jobs, id: string, now: int): (r: (Jobs, bool))
    ensures r.1 <==> id in jobs && jobs[id].status == Queued
    ensures r.0.Keys == jobs.Keys
    ensures r.1 ==> r.0 == jobs[id := jobs[id].(status := Running, startedAt := Some(now),
                                                 progress := 0.05, updatedAt := now)]
    ensures !r.1 ==> r.0 == jobs
  {
    if id in jobs && jobs[id].status == Queued then
      (jobs[id := jobs[id].(status := Running, startedAt := Some(now), progress := 0.05, updatedAt := now)], true)
    else
      (jobs, false)
  }

  /** Exclusivity: of two claims of the same job, at most one succeeds. */
  lemma ClaimAtMostOnce(jobs: Jobs, id: string, now1: int, now2: int)
    ensures !(ClaimIfQueued(jobs, id, now1).1 && ClaimIfQueued(ClaimIfQueued(jobs, id, now1).0, id, now2).1)
  {
  }

  /** The claim loop: each candidate in turn goes through the conditional update; the result
      lists the candidates whose update applied, in order. */
  function ClaimAll(jobs: Jobs, candidates: seq<string>, now: int): (r: (Jobs, seq<string>))
    ensures r.0.Keys == jobs.Keys
    ensures |r.1| <= |candidates|
    ensures forall id :: id in r.1 ==> id in candidates && id in jobs && jobs[id].status == Queued
    decreases |candidates|
  {
    if candidates == [] then (jobs, [])
    else
      var (j1, ok) := ClaimIfQueued(jobs, candidates[0], now);
      var (j2, rest) := ClaimAll(j1, candidates[1..], now);
      (j2, if ok then [candidates[0]] + rest else rest)
  }

  /** What the claim loop does to the table: the claimed jobs become running with
      `started_at = now` and progress 0.05, and every other job is unchanged. */
  lemma {:induction false} ClaimAllEffect(jobs: Jobs, candidates: seq<string>, now: int)
    ensures var (after, claimed) := ClaimAll(jobs, candidates, now);
            && (forall id :: id in claimed ==>
                  after[id] == jobs[id].(status := Running, startedAt := Some(now), progress := 0.05, updatedAt := now))
            && (forall id :: id in jobs && id !in claimed ==> after[id] == jobs[id])
    decreases |candidates|
  {
    if candidates != [] {
      var c := candidates[0];
      var (j1, ok) := ClaimIfQueued(jobs, c, now);
      ClaimAllEffect(j1, candidates[1..], now);
      ClaimAllDistinct(j1, candidates[1..], now);
    }
  }

  /** No job is claimed twice. */
  lemma {:induction false} ClaimAllDistinct(jobs: Jobs, candidates: seq<string>, now: int)
    ensures Distinct(ClaimAll(jobs, candidates, now).1)
    decreases |candidates|
  {
    if candidates != [] {
      var c := candidates[0];
      var (j1, ok) := ClaimIfQueued(jobs, c, now);
      ClaimAllDistinct(j1, candidates[1..], now);
      if ok {
        var rest := ClaimAll(j1, candidates[1..], now).1;
        assert j1[c].status == Running;
        DistinctCons(c, rest);
      }
    }
  }

  /** The running count grows, and the queued count shrinks, by exactly the number claimed. */
  lemma {:induction false} ClaimAllCounts(jobs: Jobs, candidates: seq<string>, now: int)
    ensures var (after, claimed) := ClaimAll(jobs, candidates, now);
            && RunningCount(after) == RunningCount(jobs) + |claimed|
            && QueuedCount(after) + |claimed| == QueuedCount(jobs)
    decreases |candidates|
  {
    if candidates != [] {
      var c := candidates[0];
      var (j1, ok) := ClaimIfQueued(jobs, c, now);
      ClaimAllCounts(j1, candidates[1..], now);
      if ok {
        CountAfterUpdate(jobs, c, j1[c], ActiveStatuses);
        CountAfterUpdate(jobs, c, j1[c], {Queued});
      }
    }
  }

  /** When the candidates are distinct queued jobs, every claim succeeds. */
  lemma {:induction false} ClaimAllQueued(jobs: Jobs, candidates: seq<string>, now: int)
    requires Distinct(candidates)
    requires forall i :: 0 <= i < |candidates| ==> candidates[i] in jobs && jobs[candidates[i]].status == Queued
    ensures ClaimAll(jobs, candidates, now).1 == candidates
    decreases |candidates|
  {
    if candidates != [] {
      var c, tail := candidates[0], candidates[1..];
      var (j1, ok) := ClaimIfQueued(jobs, c, now);
      assert forall i :: 0 <= i < |tail| ==> tail[i] == candidates[i + 1] && tail[i] != c;
      assert forall i :: 0 <= i < |tail| ==> tail[i] in j1 && j1[tail[i]] == jobs[tail[i]];
      ClaimAllQueued(j1, tail, now);
    }
  }

  /** The queued ids in ascending `created_at` order, at most `limit` of them. */
  predicate OldestFirst(jobs: Jobs, ids: seq<string>, limit: int) {
    && Distinct(ids)
    && (forall i :: 0 <= i < |ids| ==> ids[i] in jobs && jobs[ids[i]].status == Queued)
    && (forall i, j :: 0 <= i < j < |ids| ==> jobs[ids[i]].createdAt <= jobs[ids[j]].createdAt)
    && (forall i, id :: 0 <= i < |ids| && id in jobs && jobs[id].status == Queued && id !in ids ==>
          jobs[ids[i]].createdAt <= jobs[id].createdAt)
    && |ids| == (if limit < QueuedCount(jobs) then (if limit < 0 then 0 else limit) else QueuedCount(jobs))
  }

  lemma OldestExists(jobs: Jobs, s: set<string>) returns (m: string)
    requires s != {} && s <= jobs.Keys
    ensures m in s && forall x :: x in s ==> jobs[m].createdAt <= jobs[x].createdAt
    decreases s
  {
    var y :| y in s;
    if s == {y} {
      m := y;
    } else {
      var m' := OldestExists(jobs, s - {y});
      m := if jobs[y].createdAt <= jobs[m'].createdAt then y else m';
    }
  }

  /** The state of the selection loop: `ids` lists, oldest first, the queued jobs taken out of
      `rest`, and none of them is younger than a job still in `rest`. */
  predicate Selecting(jobs: Jobs, queued: set<string>, rest: set<string>, ids: seq<string>) {
    && queued <= jobs.Keys && rest <= queued
    && Distinct(ids)
    && (forall i :: 0 <= i < |ids| ==> ids[i] in queued && ids[i] !in rest)
    && (forall id :: id in queued && id !in rest ==> id in ids)
    && (forall i, j :: 0 <= i < j < |ids| ==> jobs[ids[i]].createdAt <= jobs[ids[j]].createdAt)
    && (forall i, id :: 0 <= i < |ids| && id in rest ==> jobs[ids[i]].createdAt <= jobs[id].createdAt)
    && |rest| + |ids| == |queued|
  }

  /** Taking an oldest job out of `rest` keeps the loop state. */
  lemma SelectingStep(jobs: Jobs, queued: set<string>, rest: set<string>, ids: seq<string>, m: string)
    requires Selecting(jobs, queued, rest, ids)
    requires m in rest && forall x :: x in rest ==> jobs[m].createdAt <= jobs[x].createdAt
    ensures Selecting(jobs, queued, rest - {m}, ids + [m])
  {
    var ids', rest' := ids + [m], rest - {m};
    assert forall i :: 0 <= i < |ids| ==> ids'[i] == ids[i];
    assert ids'[|ids|] == m;
    assert m !in ids;
    assert |rest'| == |rest| - 1;
    assert forall id :: id in queued && id !in rest' ==> id in ids' by {
      forall id | id in queued && id !in rest'
        ensures id in ids'
      {
        if id != m {
          assert id in ids;
          var i :| 0 <= i < |ids| && ids[i] == id;
          assert ids'[i] == id;
        }
      }
    }
  }

  /** The loop's exit state answers the query. */
  lemma SelectingDone(jobs: Jobs, queued: set<string>, rest: set<string>, ids: seq<string>, limit: int)
    requires queued == IdsWith(jobs, {Queued}) && Selecting(jobs, queued, rest, ids)
    requires limit >= 0 ==> |ids| <= limit
    requires limit < 0 ==> ids == []
    requires !(|ids| < limit && rest != {})
    ensures OldestFirst(jobs, ids, limit)
  {
    assert QueuedCount(jobs) == |queued|;
    if rest != {} {
      assert |ids| == (if limit < 0 then 0 else limit) && limit < |queued|;
    } else {
      assert |ids| == |queued|;
    }
  }

  /** The query `status == queued ORDER BY created_at LIMIT limit`; jobs created at the same second
      may come back in either order. */
  method OldestQueued(jobs: Jobs, limit: int) returns (ids: seq<string>)
    ensures OldestFirst(jobs, ids, limit)
  {
    var queued := IdsWith(jobs, {Queued});
    var rest := queued;
    ids := [];
    while |ids| < limit && rest != {}
      invariant Selecting(jobs, queued, rest, ids)
      invariant limit >= 0 ==> |ids| <= limit
      invariant limit < 0 ==> ids == []
      decreases |rest|
    {
      ghost var oldest := OldestExists(jobs, rest);
      var m :| m in rest && forall x :: x in rest ==> jobs[m].createdAt <= jobs[x].createdAt;
      SelectingStep(jobs, queued, rest, ids, m);
      ids := ids + [m];
      rest := rest - {m};
    }
    SelectingDone(jobs, queued, rest, ids, limit);
  }
}
