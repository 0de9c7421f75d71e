/** Job execution (tasks.py `process_build_pack` and `worker_tick`, app.py `_mark_job_failed` and
    the dispatched runner of `_spawn_job`). Content generation is represented by the JSON text of
    the generated payload, which the niche-lock check reads; everything else is computed.

    The job-level operations take the request reader and the niche-lock check as an `Engine`
    value, so their properties are proved for any reader and check; `Deployed` is the pair the
    system uses. */
module Processing {
  import opened Wrappers
  import opened Text
  import opened Seqs
  import opened Models
  import opened JobStore
  import opened NicheLock

  /** What the request column yields for generation. */
  datatype Parsed = Parsed(mode: string, niche: string, lang: string, tone: string, platforms: seq<string>)

  /** The request-dict reading of `process_build_pack`: each value is the first non-empty field of
      its fallback chain (the jobs table has no mode/input/language/tone/platforms columns), then
      stripped; the niche is cleaned. */
  function ParseRequest(req: Request): Parsed {
    Parsed(
      Strip(Or(Field(req, "mode"), "niche")),
      CleanText(Or(Or(Field(req, "input"), Field(req, "niche")), Field(req, "topic"))),
      Strip(Or(Or(Field(req, "language"), Field(req, "lang")), "ar")),
      Strip(Or(Field(req, "tone"), "Authority")),
      ParsePlatforms(req.platforms))
  }

  /** The values read are trimmed, and each comes from the first non-empty key of its chain, with
      the defaults `niche`, `ar` and `Authority`. */
  lemma ParseRequestSpec(req: Request)
    ensures Trimmed(ParseRequest(req).mode) && Trimmed(ParseRequest(req).lang) && Trimmed(ParseRequest(req).tone) && Trimmed(ParseRequest(req).niche) && SingleSpaced(ParseRequest(req).niche)
    ensures Field(req, "mode") == "" ==> ParseRequest(req).mode == "niche"
    ensures Field(req, "mode") != "" ==> ParseRequest(req).mode == Strip(Field(req, "mode"))
    ensures Field(req, "input") != "" ==> ParseRequest(req).niche == CleanText(Field(req, "input"))
    ensures Field(req, "input") == "" && Field(req, "niche") != "" ==> ParseRequest(req).niche == CleanText(Field(req, "niche"))
    ensures Field(req, "input") == "" && Field(req, "niche") == "" ==> ParseRequest(req).niche == CleanText(Field(req, "topic"))
    ensures Field(req, "language") != "" ==> ParseRequest(req).lang == Strip(Field(req, "language"))
    ensures Field(req, "language") == "" && Field(req, "lang") != "" ==> ParseRequest(req).lang == Strip(Field(req, "lang"))
    ensures Field(req, "language") == "" && Field(req, "lang") == "" ==> ParseRequest(req).lang == "ar"
    ensures Field(req, "tone") == "" ==> ParseRequest(req).tone == "Authority"
    ensures Field(req, "tone") != "" ==> ParseRequest(req).tone == Strip(Field(req, "tone"))
    ensures ParseRequest(req).platforms == ParsePlatforms(req.platforms)
  {
    assert NoSpace("niche") && NoSpace("ar") && NoSpace("Authority");
  }

  /** The two pure pieces of the content engine that decide what a job writes: how the request is
      read, and the niche-lock verdict on a niche and the generated text. */
  datatype Engine = Engine(parse: Request -> Parsed, lock: (string, string) -> Result<(), string>)

  /** `process_build_pack`'s request reading and `_ensure_niche_lock`. */
  const Deployed: Engine := Engine(ParseRequest, EnsureNicheLock)

  /** Why processing a job raised. `PackIdTaken` is the insert failing on an existing pack id. */
  datatype BuildError = JobNotFound(id: string) | Raised(message: string) | PackIdTaken(packId: string)

  /** `str(e)` of the exception. */
  function ErrorText(e: BuildError): string {
    match e
    case JobNotFound(id) => "Job not found: " + id
    case Raised(m) => m
    case PackIdTaken(p) => "duplicate pack id " + p
  }

  /** The failed writeback of `process_build_pack`, applied to the row as it was before the
      rolled-back transaction. */
  function FailedRow(j: Job, message: string, trace: string, now: int): (r: Job)
    ensures r.status == Failed && r.progress == 0.0
    ensures r.errorMessage == Some(message) && r.errorTrace == Some(trace)
    ensures r.finishedAt == Some(now) && r.updatedAt == now
    ensures r.startedAt == j.startedAt && r.packId == j.packId && r.id == j.id && r.createdAt == j.createdAt
  {
    j.(status := Failed, updatedAt := now, finishedAt := Some(now), progress := 0.0,
       errorMessage := Some(message), errorTrace := Some(trace))
  }

  /** The mark-running update followed, in the same transaction, by the done update. */
  function DoneRow(j: Job, packId: string, now: int): (r: Job)
    ensures r.status == Done && r.progress == 1.0 && r.packId == Some(packId)
    ensures r.errorMessage.None? && r.errorTrace.None?
    ensures r.finishedAt == Some(now) && r.updatedAt == now
    ensures r.startedAt == (if j.startedAt.Some? then j.startedAt else Some(now))
    ensures r.id == j.id && r.request == j.request && r.createdAt == j.createdAt
  {
    var running := j.(status := Running, updatedAt := now,
                      startedAt := if j.startedAt.Some? then j.startedAt else Some(now), progress := 0.15);
    running.(status := Done, updatedAt := now, finishedAt := Some(now), progress := 1.0,
             packId := Some(packId), errorMessage := None, errorTrace := None)
  }

  /** The niche-lock verdict on a job's request for the generated text `blob`. */
  function LockOf(eng: Engine, j: Job, blob: string): Result<(), string> {
    eng.lock(eng.parse(j.request).niche, blob)
  }

  /** Whether `process_build_pack` completes or why it raises: a missing row, then the niche-lock
      check on the generated text `blob`, then the insert of the pack id `packId`. */
  function BuildOutcome(eng: Engine, db: Db, id: string, blob: string, packId: string): (r: Result<string, BuildError>)
    ensures id !in db.jobs ==> r == Err(JobNotFound(id))
    ensures id in db.jobs && LockOf(eng, db.jobs[id], blob).Err? ==> r == Err(Raised(LockOf(eng, db.jobs[id], blob).error))
    ensures id in db.jobs && LockOf(eng, db.jobs[id], blob).Ok? && packId in db.packs ==> r == Err(PackIdTaken(packId))
    ensures r.Ok? <==> id in db.jobs && LockOf(eng, db.jobs[id], blob).Ok? && packId !in db.packs
    ensures r.Ok? ==> r.value == packId
  {
    if id !in db.jobs then Err(JobNotFound(id))
    else
      match LockOf(eng, db.jobs[id], blob)
      case Err(m) => Err(Raised(m))
      case Ok(_) => if packId in db.packs then Err(PackIdTaken(packId)) else Ok(packId)
  }

  /** The pack row inserted for a job: the request's values as read, stamped with `now`. */
  function PackFor(eng: Engine, j: Job, id: string, packId: string, now: int): (r: Pack)
    ensures r.id == packId && r.jobId == Some(id) && r.createdAt == now && r.updatedAt == now
    ensures var p := eng.parse(j.request);
            r.mode == p.mode && r.inputValue == p.niche && r.language == p.lang && r.tone == p.tone &&
            r.platforms == p.platforms
  {
    var p := eng.parse(j.request);
    Pack(packId, Some(id), p.mode, p.niche, p.lang, p.tone, p.platforms, now, now)
  }

  /** What `process_build_pack` leaves in the tables for a given outcome. On success: the
      mark-running and done updates of the job and the pack insert, committed together. On an
      exception: the transaction is rolled back and the failed writeback is applied to the row as it
      was, which matches no row when the job is missing. */
  function Writeback(eng: Engine, db: Db, id: string, outcome: Result<string, BuildError>, trace: string, now: int): (r: Db)
    ensures r.jobs.Keys == db.jobs.Keys && r.packs.Keys >= db.packs.Keys
    ensures id in db.jobs ==> r.jobs == db.jobs[id := r.jobs[id]]
    ensures id !in db.jobs ==> r == db
    ensures outcome.Err? ==> r.packs == db.packs
    ensures outcome.Err? && id in db.jobs ==> r.jobs[id] == FailedRow(db.jobs[id], ErrorText(outcome.error), trace, now)
    ensures outcome.Ok? && id in db.jobs ==>
              && r.jobs[id] == DoneRow(db.jobs[id], outcome.value, now)
              && r.packs == db.packs[outcome.value := PackFor(eng, db.jobs[id], id, outcome.value, now)]
  {
    if id !in db.jobs then db
    else
      var j := db.jobs[id];
      match outcome
      case Err(e) => db.(jobs := db.jobs[id := FailedRow(j, ErrorText(e), trace, now)])
      case Ok(packId) => Db(db.jobs[id := DoneRow(j, packId, now)], db.packs[packId := PackFor(eng, j, id, packId, now)])
  }

  /** `process_build_pack(job_id)`: the tables it leaves and what it returns or raises. A missing
      job raises and changes nothing. It returns the pack id exactly when the niche lock passes and
      the id is free; then the job row is done and `packs` gains exactly that pack. Otherwise the
      row is failed with the error text and `packs` is as it was. No other job row changes. */
  function ProcessBuildPack(eng: Engine, db: Db, id: string, blob: string, packId: string, trace: string, now: int)
    : (r: (Db, Result<string, BuildError>))
    ensures id !in db.jobs ==> r.0 == db && r.1 == Err(JobNotFound(id))
    ensures r.0.jobs.Keys == db.jobs.Keys
    ensures forall k :: k in db.jobs && k != id ==> r.0.jobs[k] == db.jobs[k]
    ensures r.1.Ok? <==> id in db.jobs && LockOf(eng, db.jobs[id], blob).Ok? && packId !in db.packs
    ensures id in db.jobs && LockOf(eng, db.jobs[id], blob).Err? ==> r.1 == Err(Raised(LockOf(eng, db.jobs[id], blob).error))
    ensures r.1.Ok? ==>
              && r.1.value == packId
              && r.0.jobs[id] == DoneRow(db.jobs[id], packId, now)
              && r.0.packs == db.packs[packId := PackFor(eng, db.jobs[id], id, packId, now)]
    ensures r.1.Err? ==>
              && r.0.packs == db.packs
              && (id in db.jobs ==> r.0.jobs[id] == FailedRow(db.jobs[id], ErrorText(r.1.error), trace, now))
  {
    var outcome := BuildOutcome(eng, db, id, blob, packId);
    (Writeback(eng, db, id, outcome, trace, now), outcome)
  }

  /** A request whose input, niche and topic are all blank reads as an empty niche, which the
      niche-lock check refuses with the empty-niche message whatever the text. */
  lemma BlankNicheRefused(req: Request, blob: string)
    requires forall i :: 0 <= i < |Field(req, "input")| ==> IsSpace(Field(req, "input")[i])
    requires forall i :: 0 <= i < |Field(req, "niche")| ==> IsSpace(Field(req, "niche")[i])
    requires forall i :: 0 <= i < |Field(req, "topic")| ==> IsSpace(Field(req, "topic")[i])
    ensures ParseRequest(req).niche == ""
    ensures EnsureNicheLock(ParseRequest(req).niche, blob) == Err(EmptyNicheError)
    ensures Deployed.lock(Deployed.parse(req).niche, blob) == Err(EmptyNicheError)
  {
    var raw := Or(Or(Field(req, "input"), Field(req, "niche")), Field(req, "topic"));
    assert forall i :: 0 <= i < |raw| ==> IsSpace(raw[i]);
    assert CleanText("") == "";
  }

  /** A refused niche lock fails the job with the check's message, written to the row with the
      traceback, and inserts no pack. */
  lemma RefusedLockFails(eng: Engine, db: Db, id: string, blob: string, packId: string, trace: string, now: int)
    requires id in db.jobs && LockOf(eng, db.jobs[id], blob).Err?
    ensures var (after, res) := ProcessBuildPack(eng, db, id, blob, packId, trace, now);
            var m := LockOf(eng, db.jobs[id], blob).error;
            && res == Err(Raised(m))
            && after.jobs[id] == FailedRow(db.jobs[id], m, trace, now)
            && after.packs == db.packs
  {
  }

  /** `_mark_job_failed(job_id, err)`: when the job exists, it becomes failed with the error text,
      the traceback and `finished_at = now`; its progress is kept. */
  function MarkJobFailed(jobs: Jobs, id: string, message: string, trace: string, now: int): (r: Jobs)
    ensures r.Keys == jobs.Keys
    ensures forall k :: k in jobs && k != id ==> r[k] == jobs[k]
    ensures id in jobs ==> r[id].status == Failed && r[id].errorMessage == Some(message) &&
                           r[id].errorTrace == Some(trace) && r[id].finishedAt == Some(now) &&
                           r[id].progress == jobs[id].progress && r[id].packId == jobs[id].packId &&
                           r[id].startedAt == jobs[id].startedAt
  {
    if id in jobs then
      jobs[id := jobs[id].(status := Failed, errorMessage := Some(message), errorTrace := Some(trace),
                           finishedAt := Some(now), updatedAt := now)]
    else jobs
  }

  /** A job that has finished, either way. */
  predicate Finished(j: Job) {
    j.status == Done || j.status == Failed
  }

  /** The runner a dispatched job executes: `process_build_pack`, and on an exception the
      catch-all `_mark_job_failed` with its own traceback `trace2`. The job ends finished; it is
      done exactly when processing returned, and a failure carries the error text. */
  function RunDispatched(eng: Engine, db: Db, id: string, blob: string, packId: string, trace: string, trace2: string, now: int)
    : (r: Db)
    ensures r.jobs.Keys == db.jobs.Keys && r.packs.Keys >= db.packs.Keys
    ensures forall k :: k in db.jobs && k != id ==> r.jobs[k] == db.jobs[k]
    ensures id in db.jobs ==> Finished(r.jobs[id])
    ensures var res := BuildOutcome(eng, db, id, blob, packId);
            && (id in db.jobs ==> (r.jobs[id].status == Done <==> res.Ok?))
            && (id in db.jobs && res.Err? ==>
                  r.jobs[id].progress == 0.0 && r.jobs[id].errorTrace == Some(trace2) &&
                  r.jobs[id].errorMessage == Some(ErrorText(res.error)))
            && (res.Ok? ==> r == Writeback(eng, db, id, res, trace, now))
  {
    var (db1, res) := ProcessBuildPack(eng, db, id, blob, packId, trace, now);
    match res
    case Ok(_) => db1
    case Err(e) => db1.(jobs := MarkJobFailed(db1.jobs, id, ErrorText(e), trace2, now))
  }

  /** A finished run never adds to the running count: the job's own row leaves the running
      statuses or stays out of them, and no other row changes. */
  lemma RunDispatchedCounts(eng: Engine, db: Db, id: string, blob: string, packId: string, trace: string, trace2: string, now: int)
    ensures RunningCount(RunDispatched(eng, db, id, blob, packId, trace, trace2, now).jobs) <= RunningCount(db.jobs)
    ensures id in db.jobs && IsActive(db.jobs[id].status) ==>
              RunningCount(RunDispatched(eng, db, id, blob, packId, trace, trace2, now).jobs) + 1 == RunningCount(db.jobs)
  {
    var r := RunDispatched(eng, db, id, blob, packId, trace, trace2, now);
    if id in db.jobs {
      assert r.jobs == db.jobs[id := r.jobs[id]];
      CountAfterUpdate(db.jobs, id, r.jobs[id], ActiveStatuses);
    } else {
      assert r.jobs == db.jobs;
    }
  }

  /** The done writeback is not guarded by the job's status: whatever state the row is in, even one
      that reclamation already failed, a run whose check passes and whose pack id is free leaves it
      done. */
  lemma DoneOverwritesAnyStatus(eng: Engine, db: Db, id: string, blob: string, packId: string, trace: string, trace2: string, now: int)
    requires id in db.jobs && LockOf(eng, db.jobs[id], blob).Ok? && packId !in db.packs
    ensures RunDispatched(eng, db, id, blob, packId, trace, trace2, now).jobs[id] == DoneRow(db.jobs[id], packId, now)
  {
  }

  /** The generated content the model does not compute: the payload text and fresh pack id for
      each job id, and the traceback text. */
  datatype Generator = Generator(blob: string -> string, packId: string -> string, trace: string)

  /** One entry of the worker tick's `processed` list. */
  datatype TickEntry = Processed(jobId: string, packId: string) | Errored(jobId: string, error: BuildError)

  /** The entry the tick records for an id and what processing returned. */
  function EntryOf(id: string, res: Result<string, BuildError>): (e: TickEntry)
    ensures e.jobId == id
    ensures e.Processed? <==> res.Ok?
    ensures e.Processed? ==> e.packId == res.value
    ensures e.Errored? ==> e.error == res.error
  {
    match res
    case Ok(p) => Processed(id, p)
    case Err(e) => Errored(id, e)
  }

  /** One iteration of the worker tick's loop: process the job and record the entry. */
  function TickRun(eng: Engine, db: Db, id: string, gen: Generator, now: int): (r: (Db, TickEntry))
    ensures r.1.jobId == id
    ensures r.0.jobs.Keys == db.jobs.Keys && r.0.packs.Keys >= db.packs.Keys
    ensures id !in db.jobs ==> r.0 == db && r.1 == Errored(id, JobNotFound(id))
    ensures id in db.jobs ==>
              && r.0.jobs == db.jobs[id := r.0.jobs[id]]
              && Finished(r.0.jobs[id])
              && (r.1.Errored? ==> r.1.error != JobNotFound(id))
  {
    var (next, res) := ProcessBuildPack(eng, db, id, gen.blob(id), gen.packId(id), gen.trace, now);
    (next, EntryOf(id, res))
  }

  /** The worker tick's loop over the selected ids, in order. */
  function ProcessAll(eng: Engine, db: Db, ids: seq<string>, gen: Generator, now: int): (r: (Db, seq<TickEntry>))
    ensures |r.1| == |ids|
    decreases |ids|
  {
    if ids == [] then (db, [])
    else
      var (next, e) := TickRun(eng, db, ids[0], gen, now);
      var (after, rest) := ProcessAll(eng, next, ids[1..], gen, now);
      (after, [e] + rest)
  }

  /** Every selected job gets its entry, in order, and none of them is reported missing. */
  lemma {:induction false} ProcessAllEntries(eng: Engine, db: Db, ids: seq<string>, gen: Generator, now: int)
    requires forall i :: 0 <= i < |ids| ==> ids[i] in db.jobs
    ensures var entries := ProcessAll(eng, db, ids, gen, now).1;
            && (forall i :: 0 <= i < |ids| ==> entries[i].jobId == ids[i])
            && (forall i :: 0 <= i < |ids| ==> entries[i].Errored? ==> entries[i].error != JobNotFound(ids[i]))
    decreases |ids|
  {
    if ids != [] {
      var id, tail := ids[0], ids[1..];
      var (next, e) := TickRun(eng, db, id, gen, now);
      ProcessAllEntries(eng, next, tail, gen, now);
    }
  }

  /** Every selected job ends done or failed and no other job changes. */
  lemma {:induction false} ProcessAllEffect(eng: Engine, db: Db, ids: seq<string>, gen: Generator, now: int)
    requires Distinct(ids)
    requires forall i :: 0 <= i < |ids| ==> ids[i] in db.jobs
    ensures var after := ProcessAll(eng, db, ids, gen, now).0;
            && after.jobs.Keys == db.jobs.Keys && after.packs.Keys >= db.packs.Keys
            && (forall i :: 0 <= i < |ids| ==> Finished(after.jobs[ids[i]]))
            && (forall k :: k in db.jobs && k !in ids ==> after.jobs[k] == db.jobs[k])
    decreases |ids|
  {
    if ids != [] {
      var id, tail := ids[0], ids[1..];
      var (next, e) := TickRun(eng, db, id, gen, now);
      assert forall i :: 0 <= i < |tail| ==> tail[i] == ids[i + 1] && tail[i] != id && tail[i] in next.jobs;
      ProcessAllEffect(eng, next, tail, gen, now);
    }
  }

  /** Processing distinct queued jobs takes each out of `queued` and leaves the running count as it
      was. */
  lemma {:induction false} ProcessAllCounts(eng: Engine, db: Db, ids: seq<string>, gen: Generator, now: int)
    requires Distinct(ids)
    requires forall i :: 0 <= i < |ids| ==> ids[i] in db.jobs && db.jobs[ids[i]].status == Queued
    ensures RunningCount(ProcessAll(eng, db, ids, gen, now).0.jobs) == RunningCount(db.jobs)
    ensures QueuedCount(ProcessAll(eng, db, ids, gen, now).0.jobs) + |ids| == QueuedCount(db.jobs)
    decreases |ids|
  {
    if ids != [] {
      var id := ids[0];
      var (next, e) := TickRun(eng, db, id, gen, now);
      FinishCounts(db.jobs, id, next.jobs[id]);
      assert forall i :: 1 <= i < |ids| ==> ids[i] != id;
      ProcessAllCounts(eng, next, ids[1..], gen, now);
    }
  }

  /** `worker_tick(limit)`: the limit is coerced to at least 1; up to that many queued jobs are
      taken oldest-first and processed in turn, each error recorded as an entry instead of raised.
      The concurrency cap is not consulted. */
  method WorkerTick(eng: Engine, db: Db, limit: int, gen: Generator, now: int)
    returns (after: Db, effLimit: int, ids: seq<string>, entries: seq<TickEntry>)
    ensures effLimit == MaxOne(limit)
    ensures OldestFirst(db.jobs, ids, effLimit)
    ensures |ids| == (if effLimit < QueuedCount(db.jobs) then effLimit else QueuedCount(db.jobs))
    ensures (after, entries) == ProcessAll(eng, db, ids, gen, now)
    ensures |entries| == |ids| && forall i :: 0 <= i < |ids| ==> entries[i].jobId == ids[i]
    ensures forall i :: 0 <= i < |entries| ==> entries[i].Errored? ==> entries[i].error != JobNotFound(ids[i])
    ensures after.jobs.Keys == db.jobs.Keys && after.packs.Keys >= db.packs.Keys
    ensures forall i :: 0 <= i < |ids| ==> Finished(after.jobs[ids[i]])
    ensures forall k :: k in db.jobs && k !in ids ==> after.jobs[k] == db.jobs[k]
    ensures RunningCount(after.jobs) == RunningCount(db.jobs)
    ensures QueuedCount(after.jobs) + |ids| == QueuedCount(db.jobs)
  {
    effLimit := if limit == 0 then 1 else limit;
    effLimit := if effLimit < 1 then 1 else effLimit;
    ids := OldestQueued(db.jobs, effLimit);
    ProcessAllEffect(eng, db, ids, gen, now);
    ProcessAllEntries(eng, db, ids, gen, now);
    ProcessAllCounts(eng, db, ids, gen, now);
    var r := ProcessAll(eng, db, ids, gen, now);
    after, entries := r.0, r.1;
  }
}
