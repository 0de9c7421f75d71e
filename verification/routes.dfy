/** The HTTP routes that drive the job machinery (app.py `build_pack`, `job_status`,
    `internal_worker_tick`, `admin_cleanup`), each an atomic step over the server state, plus the
    step a dispatched job thread takes when it runs. Responses are reduced to their outcome. */
module Routes {
  import opened Wrappers
  import opened Text
  import opened Config
  import opened Models
  import opened JobStore
  import opened Seqs
  import opened Scheduler
  import opened NicheLock
  import opened Processing
  import opened RateLimit

  /** The server state between requests: the tables, the in-memory request log, and the ids of
      the jobs whose runner thread has been started but has not run yet. */
  datatype State = State(db: Db, log: Log, pending: seq<string>)

  /** The concurrency bound the scheduler is meant to keep. */
  predicate WithinCap(s: Settings, st: State) {
    RunningCount(st.db.jobs) <= ConcurrencyCap(s)
  }

  /** What `build_pack` reads from the submitted JSON body: the input value, the request to
      store on the job, and the truth of `sync`. Reading the body has no effect on the state, so
      it is done up front (`Read`) and the route works on the result. */
  datatype Submission = Submission(input: string, payload: Request, sync: bool)

  /** The input value of a submission: the first non-empty of input, niche, topic and value,
      stripped. */
  function InputValue(body: Request): string {
    Strip(Or(Or(Or(Field(body, "input"), Field(body, "niche")), Field(body, "topic")), Field(body, "value")))
  }

  /** A job's stored request: the four normalised values and the platform list. */
  function StoredRequest(mode: string, input: string, language: string, tone: string, platforms: seq<string>): Request {
    Request(map["mode" := mode, "input" := input, "language" := language, "tone" := tone], Items(platforms))
  }

  /** The request `build_pack` stores on the new job. */
  function Payload(body: Request, input: string): Request {
    StoredRequest(
      Strip(Or(Field(body, "mode"), "niche")),
      input,
      Strip(Or(Or(Field(body, "language"), Field(body, "lang")), "ar")),
      Strip(Or(Field(body, "tone"), "Authority")),
      ParsePlatforms(body.platforms))
  }

  /** What processing reads back from a stored request: the stored values (a blank one as its
      default), the input cleaned, and the stored platform list, or the defaults if it is empty. */
  lemma StoredReadBack(mode: string, input: string, language: string, tone: string, platforms: seq<string>)
    requires Trimmed(mode) && Trimmed(language) && Trimmed(tone) && input != ""
    ensures var p := ParseRequest(StoredRequest(mode, input, language, tone, platforms));
            && p.mode == Or(mode, "niche")
            && p.niche == CleanText(input)
            && p.lang == Or(language, "ar")
            && p.tone == Or(tone, "Authority")
            && p.platforms == (if platforms == [] then DefaultPlatforms else platforms)
  {
    var req := StoredRequest(mode, input, language, tone, platforms);
    StoredFields(mode, input, language, tone, platforms);
    ParseRequestSpec(req);
    var p := ParseRequest(req);
    assert p.mode == Or(mode, "niche") by { TrimmedOr(mode, "niche"); }
    assert p.lang == Or(language, "ar") by { TrimmedOr(language, "ar"); }
    assert p.tone == Or(tone, "Authority") by { TrimmedOr(tone, "Authority"); }
  }

  /** A stripped value is its own strip; `Or` picks it when it is non-empty. */
  lemma TrimmedOr(a: string, d: string)
    requires Trimmed(a)
    ensures a != "" ==> Or(a, d) == Strip(a)
    ensures a == "" ==> Or(a, d) == d
  {
  }

  /** Each key of a stored request reads back its value; the alias `lang` is absent. */
  lemma StoredFields(mode: string, input: string, language: string, tone: string, platforms: seq<string>)
    ensures var req := StoredRequest(mode, input, language, tone, platforms);
            && Field(req, "mode") == mode && Field(req, "input") == input
            && Field(req, "language") == language && Field(req, "tone") == tone
            && Field(req, "lang") == "" && req.platforms == Items(platforms)
  {
    var req := StoredRequest(mode, input, language, tone, platforms);
    assert req.fields.Keys == {"mode", "input", "language", "tone"};
    assert "lang" != "mode" && "lang" != "input" && "lang" != "language" && "lang" != "tone";
  }

  /** The submission read from a body (its string fields and platforms entry) and its `sync`. */
  function Read(body: Request, sync: bool): (sub: Submission)
    ensures sub.input == InputValue(body) && sub.sync == sync
    ensures sub.input != "" ==> ParseRequest(sub.payload).niche == CleanText(sub.input)
  {
    var input := InputValue(body);
    if input == "" then Submission(input, Payload(body, input), sync)
    else
      StoredReadBack(Strip(Or(Field(body, "mode"), "niche")), input,
                     Strip(Or(Or(Field(body, "language"), Field(body, "lang")), "ar")),
                     Strip(Or(Field(body, "tone"), "Authority")), ParsePlatforms(body.platforms));
      Submission(input, Payload(body, input), sync)
  }

  /** The outcome of `build_pack`, one per response the route can give. */
  datatype BuildResponse =
    | RateLimited(retryAfter: int)
    | LimiterCrashed
    | BadRequest
    | Busy(queued: nat, backlogCap: int)
    | StorageFailed
    | Accepted(jobId: string)
    | SyncDone(jobId: string, packId: string)
    | SyncFailed(error: string)

  /** The submission's checks after rate limiting and, if they pass, the table with the new job. */
  datatype Admission = Rejected(response: BuildResponse) | Created(db: Db)

  /** The part of `build_pack` between rate limiting and processing: a missing input is a bad
      request, a backlog at or over the cap is busy, an id already taken fails the insert, and
      otherwise one queued job holding the payload is added. */
  function Admit(s: Settings, db: Db, input: string, payload: Request, newId: string, now: int): (r: Admission)
    ensures r == Rejected(BadRequest) <==> input == ""
    ensures r.Rejected? && r.response.Busy? <==> input != "" && QueuedCount(db.jobs) >= BacklogCap(s)
    ensures r.Rejected? && r.response.Busy? ==> r.response == Busy(QueuedCount(db.jobs), BacklogCap(s))
    ensures r == Rejected(StorageFailed) <==>
              input != "" && QueuedCount(db.jobs) < BacklogCap(s) && newId in db.jobs
    ensures r.Rejected? ==> r.response.BadRequest? || r.response.Busy? || r.response.StorageFailed?
    ensures r.Created? ==>
              && newId !in db.jobs
              && r.db.packs == db.packs
              && r.db.jobs == db.jobs[newId := NewJob(newId, payload, now)]
              && QueuedCount(r.db.jobs) == QueuedCount(db.jobs) + 1
              && RunningCount(r.db.jobs) == RunningCount(db.jobs)
  {
    if input == "" then Rejected(BadRequest)
    else if QueuedCount(db.jobs) >= BacklogCap(s) then Rejected(Busy(QueuedCount(db.jobs), BacklogCap(s)))
    else if newId in db.jobs then Rejected(StorageFailed)
    else
      var j := NewJob(newId, payload, now);
      CountAdded(db.jobs, newId, j, ActiveStatuses);
      CountAdded(db.jobs, newId, j, {Queued});
      Created(db.(jobs := db.jobs[newId := j]))
  }

  /** Adding a job under a new id counts it exactly when its status is counted. */
  lemma CountAdded(jobs: Jobs, id: string, j: Job, st: set<Status>)
    requires id !in jobs
    ensures CountStatus(jobs[id := j], st) == CountStatus(jobs, st) + (if j.status in st then 1 else 0)
  {
    if j.status in st {
      assert IdsWith(jobs[id := j], st) == IdsWith(jobs, st) + {id};
    } else {
      assert IdsWith(jobs[id := j], st) == IdsWith(jobs, st);
    }
  }

  /** What the part of `build_pack` after rate limiting promises, given the tables `db` and the
      pending runners before it and `resp`, `db'`, `pending'` after: a rejected submission leaves
      everything as it was; a created job is either processed inline and finished (sync) or left
      to the scheduler (async), and the concurrency bound is kept. */
  predicate Submitted(s: Settings, db: Db, pending: seq<string>, sub: Submission, newId: string, now: int,
                      resp: BuildResponse, db': Db, pending': seq<string>)
  {
    var adm := Admit(s, db, sub.input, sub.payload, newId, now);
    && !resp.RateLimited? && !resp.LimiterCrashed?
    && (adm.Rejected? ==> resp == adm.response && db' == db && pending' == pending)
    && (adm.Created? ==>
          && newId !in db.jobs && newId in db'.jobs
          && db'.jobs.Keys == db.jobs.Keys + {newId}
          && (sub.sync ==> pending' == pending && Finished(db'.jobs[newId])
                           && (resp.SyncDone? || resp.SyncFailed?))
          && (!sub.sync ==> resp == Accepted(newId) && |pending'| >= |pending|
                            && pending'[..|pending|] == pending))
    && (resp.SyncDone? ==> resp.jobId == newId && newId in db'.jobs && db'.jobs[newId].status == Done
                           && db'.jobs[newId].packId == Some(resp.packId))
    && (resp.SyncFailed? ==> newId in db'.jobs && db'.jobs[newId].status == Failed
                             && db'.jobs[newId].errorMessage == Some(resp.error))
    && (RunningCount(db.jobs) <= ConcurrencyCap(s) ==> RunningCount(db'.jobs) <= ConcurrencyCap(s))
  }

  /** A scheduler kick as the routes see it: the jobs keep their ids, the packs are untouched,
      the claimed jobs join the pending runners (at most `maxToStart` of them when it is positive),
      and the concurrency bound is kept. */
  method Kick(s: Settings, db: Db, pending: seq<string>, now: int, maxToStart: int)
    returns (db': Db, pending': seq<string>)
    ensures db'.jobs.Keys == db.jobs.Keys && db'.packs == db.packs
    ensures |pending'| >= |pending| && pending'[..|pending|] == pending
    ensures maxToStart > 0 ==> |pending'| <= |pending| + maxToStart
    ensures forall k :: |pending| <= k < |pending'| ==> pending'[k] in db.jobs && db'.jobs[pending'[k]].status == Running
    ensures RunningCount(db.jobs) <= ConcurrencyCap(s) ==> RunningCount(db'.jobs) <= ConcurrencyCap(s)
  {
    var report, after, dispatched := KickScheduler(s, db.jobs, now, maxToStart);
    var reclaimed := Reclaim(s, db.jobs, now).0;
    assert |dispatched| <= Slots(s, RunningCount(reclaimed), maxToStart);
    db' := Db(after, db.packs);
    pending' := pending + dispatched;
    forall k | |pending| <= k < |pending'|
      ensures pending'[k] in db.jobs && db'.jobs[pending'[k]].status == Running
    {
      var id := dispatched[k - |pending|];
      assert pending'[k] == id && id in dispatched;
      assert after[id] == reclaimed[id].(status := Running, startedAt := Some(now), progress := 0.05, updatedAt := now);
    }
  }

  /** The `sync` branch of `build_pack`: the queued job just created is processed in the request
      and the response carries the pack id or the error text. */
  method RunInline(eng: Engine, db: Db, id: string, gen: Generator, now: int) returns (resp: BuildResponse, db': Db)
    requires id in db.jobs && db.jobs[id].status == Queued
    ensures resp.SyncDone? || resp.SyncFailed?
    ensures db'.jobs.Keys == db.jobs.Keys && Finished(db'.jobs[id])
    ensures resp.SyncDone? ==> resp.jobId == id && db'.jobs[id].status == Done && db'.jobs[id].packId == Some(resp.packId)
    ensures resp.SyncFailed? ==> db'.jobs[id].status == Failed && db'.jobs[id].errorMessage == Some(resp.error)
    ensures RunningCount(db'.jobs) == RunningCount(db.jobs)
  {
    var out := ProcessBuildPack(eng, db, id, gen.blob(id), gen.packId(id), gen.trace, now);
    db' := out.0;
    FinishCounts(db.jobs, id, db'.jobs[id]);
    resp := if out.1.Ok? then SyncDone(id, out.1.value) else SyncFailed(ErrorText(out.1.error));
  }

  /** The part of `build_pack` after rate limiting. A created job is processed inline when `sync`
      is set; otherwise the scheduler is kicked with `max_to_start = 2` and the runners it starts
      become pending. */
  method Enqueue(s: Settings, eng: Engine, db: Db, pending: seq<string>, sub: Submission, newId: string,
                 gen: Generator, now: int)
    returns (resp: BuildResponse, db': Db, pending': seq<string>)
    ensures Submitted(s, db, pending, sub, newId, now, resp, db', pending')
  {
    var adm := Admit(s, db, sub.input, sub.payload, newId, now);
    if adm.Rejected? {
      return adm.response, db, pending;
    }
    var db1 := adm.db;
    if sub.sync {
      resp, db' := RunInline(eng, db1, newId, gen, now);
      pending' := pending;
    } else {
      db', pending' := Kick(s, db1, pending, now, 2);
      resp := Accepted(newId);
    }
  }

  /** `POST /v1/build-pack`. Rate limiting comes first; its log update stays whatever follows, and
      a refused or crashed check ends the request with nothing else changed. */
  method BuildPack(s: Settings, eng: Engine, st: State, ip: string, sub: Submission, newId: string,
                   gen: Generator, now: int)
    returns (resp: BuildResponse, st': State)
    ensures var (d, log') := RateLimitOk(st.log, ip, RequestsPerMinute(s), now);
            && st'.log == log'
            && (d == Crashed <==> resp == LimiterCrashed)
            && (d.Denied? <==> resp.RateLimited?)
            && (d.Denied? ==> resp == RateLimited(d.retryAfter))
            && (d != Allowed ==> st'.db == st.db && st'.pending == st.pending)
            && (d == Allowed ==> Submitted(s, st.db, st.pending, sub, newId, now, resp, st'.db, st'.pending))
    ensures WithinCap(s, st) ==> WithinCap(s, st')
  {
    var (d, log') := RateLimitOk(st.log, ip, RequestsPerMinute(s), now);
    if d == Crashed {
      return LimiterCrashed, st.(log := log');
    }
    if d.Denied? {
      return RateLimited(d.retryAfter), st.(log := log');
    }
    var db', pending';
    resp, db', pending' := Enqueue(s, eng, st.db, st.pending, sub, newId, gen, now);
    st' := State(db', log', pending');
  }

  /** `GET /v1/jobs/<job_id>`: a scheduler kick with `max_to_start = 1`, then the job as it is
      after the kick, or not found. */
  datatype StatusResponse = NotFound | Found(job: Job)

  method JobStatus(s: Settings, st: State, id: string, now: int) returns (resp: StatusResponse, st': State)
    ensures resp == NotFound <==> id !in st.db.jobs
    ensures resp.Found? ==> id in st'.db.jobs && resp.job == st'.db.jobs[id]
    ensures st'.db.jobs.Keys == st.db.jobs.Keys && st'.db.packs == st.db.packs && st'.log == st.log
    ensures |st'.pending| >= |st.pending| && st'.pending[..|st.pending|] == st.pending
    ensures |st'.pending| <= |st.pending| + 1
    ensures WithinCap(s, st) ==> WithinCap(s, st')
  {
    var db', pending' := Kick(s, st.db, st.pending, now, 1);
    st' := State(db', st.log, pending');
    resp := if id in db'.jobs then Found(db'.jobs[id]) else NotFound;
  }

  /** The token guard of the internal routes: a token must be configured and the header must
      equal it. */
  predicate Authorized(configured: string, header: string) {
    configured != "" && header == configured
  }

  /** With no token configured, no header is accepted. */
  lemma NoTokenLocksOut(header: string)
    ensures !Authorized("", header)
  {
  }

  datatype TickResponse = TickUnauthorized | Ticked(limit: int, entries: seq<TickEntry>)

  /** `POST /internal/worker-tick`: the guard, then `worker_tick` with the query's `limit`
      (`None` when it is absent or empty, which the route reads as 1). */
  method WorkerTickRoute(s: Settings, eng: Engine, st: State, header: string, limitArg: Option<int>,
                         gen: Generator, now: int)
    returns (resp: TickResponse, st': State)
    ensures resp == TickUnauthorized <==> !Authorized(s.workerTickToken, header)
    ensures resp == TickUnauthorized ==> st' == st
    ensures resp.Ticked? ==> resp.limit == MaxOne(limitArg.GetOr(1)) && |resp.entries| <= resp.limit
    ensures st'.log == st.log && st'.pending == st.pending
    ensures st'.db.jobs.Keys == st.db.jobs.Keys
    ensures RunningCount(st'.db.jobs) == RunningCount(st.db.jobs)
    ensures WithinCap(s, st) ==> WithinCap(s, st')
  {
    if !Authorized(s.workerTickToken, header) {
      return TickUnauthorized, st;
    }
    var after, effLimit, ids, entries := WorkerTick(eng, st.db, limitArg.GetOr(1), gen, now);
    resp := Ticked(effLimit, entries);
    st' := st.(db := after);
  }

  datatype CleanupResponse = CleanupUnauthorized | Cleaned(cleaned: nat, running: nat, queued: nat)

  /** `POST /internal/admin/cleanup`: the guard, then stale reclamation and the counts after it. */
  method AdminCleanup(s: Settings, st: State, header: string, now: int) returns (resp: CleanupResponse, st': State)
    ensures resp == CleanupUnauthorized <==> !Authorized(s.workerTickToken, header)
    ensures resp == CleanupUnauthorized ==> st' == st
    ensures resp.Cleaned? ==>
              && st'.db.jobs == Reclaim(s, st.db.jobs, now).0
              && resp.cleaned == |StaleIds(s, st.db.jobs, now)|
              && resp.running + resp.cleaned == RunningCount(st.db.jobs)
              && resp.running == RunningCount(st'.db.jobs)
              && resp.queued == QueuedCount(st.db.jobs)
    ensures st'.log == st.log && st'.pending == st.pending && st'.db.packs == st.db.packs
    ensures WithinCap(s, st) ==> WithinCap(s, st')
  {
    if !Authorized(s.workerTickToken, header) {
      return CleanupUnauthorized, st;
    }
    var (after, cleaned) := Reclaim(s, st.db.jobs, now);
    st' := st.(db := st.db.(jobs := after));
    resp := Cleaned(cleaned, RunningCount(after), QueuedCount(after));
  }

  /** The runner thread of the `i`-th pending job runs to completion: `process_build_pack` with
      the catch-all failure marking. Threads may run in any order, so any index may be chosen. */
  function RunPending(eng: Engine, st: State, i: nat, gen: Generator, trace2: string, now: int): (st': State)
    requires i < |st.pending|
    ensures st'.pending == st.pending[..i] + st.pending[i + 1..]
    ensures st'.log == st.log
    ensures var id := st.pending[i];
            st'.db == RunDispatched(eng, st.db, id, gen.blob(id), gen.packId(id), gen.trace, trace2, now)
    ensures RunningCount(st'.db.jobs) <= RunningCount(st.db.jobs)
  {
    var id := st.pending[i];
    RunDispatchedCounts(eng, st.db, id, gen.blob(id), gen.packId(id), gen.trace, trace2, now);
    State(RunDispatched(eng, st.db, id, gen.blob(id), gen.packId(id), gen.trace, trace2, now),
          st.log, st.pending[..i] + st.pending[i + 1..])
  }
}
