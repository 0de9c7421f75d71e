/** The persisted records: jobs and the packs they produce (models.py). */
module Models {
  import opened Wrappers
  import opened Text

  /** The names models.py defines at module level: what it imports, `_utcnow`, and the `Base`,
      `Job` and `Pack` classes. */
  const ModuleNames: set<string> := {
    "annotations", "uuid", "datetime", "timezone", "Any", "Dict", "Optional", "DateTime", "Float",
    "ForeignKey", "String", "Text", "Index", "DeclarativeBase", "Mapped", "mapped_column",
    "relationship", "_JSON", "_utcnow", "Base", "Job", "Pack"}

  /** Whether `from models import ...` of these names succeeds. */
  predicate Importable(names: set<string>) {
    names <= ModuleNames
  }

  /** Job status. `Processing` is a legacy spelling of running that older workers wrote; nothing
      in the current code writes it, but the scheduler counts and reclaims it like `Running`. */
  datatype Status = Queued | Running | Processing | Done | Failed

  /** The statuses the scheduler treats as "running". */
  predicate IsActive(s: Status) {
    s == Running || s == Processing
  }

  /** The `platforms` entry of a request: absent (or not a string or list), a comma-separated
      string, or a list of names. */
  datatype PlatformsValue = Absent | Text(text: string) | Items(items: seq<string>)

  /** The JSON request stored on a job: its string-valued fields and its platforms entry. */
  datatype Request = Request(fields: map<string, string>, platforms: PlatformsValue)

  /** The column default: an empty JSON object. */
  const EmptyRequest: Request := Request(map[], Absent)

  /** A field of the request, `""` when absent (Python's `req.get(k)` under `or`). */
  function Field(r: Request, key: string): string {
    if key in r.fields then r.fields[key] else ""
  }

  datatype Job = Job(
    id: string,
    status: Status,
    progress: real,
    request: Request,
    packId: Option<string>,
    errorMessage: Option<string>,
    errorTrace: Option<string>,
    createdAt: int,
    updatedAt: int,
    startedAt: Option<int>,
    finishedAt: Option<int>)

  /** The generated content of a pack (assets, genes, visual, dominance, sources) is not modelled;
      the record keeps the columns the job processing writes. */
  datatype Pack = Pack(
    id: string,
    jobId: Option<string>,
    mode: string,
    inputValue: string,
    language: string,
    tone: string,
    platforms: seq<string>,
    createdAt: int,
    updatedAt: int)

  /** The two tables. */
  datatype Db = Db(jobs: map<string, Job>, packs: map<string, Pack>)

  /** A job as the column defaults create it at time `now`; `id` is the caller's fresh uuid4 hex. */
  function NewJob(id: string, request: Request, now: int): (j: Job)
    ensures j.id == id && j.request == request
    ensures j.status == Queued && j.progress == 0.0
    ensures j.packId.None? && j.errorMessage.None? && j.errorTrace.None?
    ensures j.createdAt == now && j.updatedAt == now
    ensures j.startedAt.None? && j.finishedAt.None?
  {
    Job(id, Queued, 0.0, request, None, None, None, now, now, None, None)
  }

  /** A pack as the column defaults create it. */
  function NewPack(id: string, now: int): (p: Pack)
    ensures p.id == id && p.jobId.None?
    ensures p.mode == "niche" && p.language == "ar" && p.tone == "Authority"
    ensures p.inputValue == "" && p.platforms == []
    ensures p.createdAt == now && p.updatedAt == now
  {
    Pack(id, None, "niche", "", "ar", "Authority", [], now, now)
  }

  const DefaultPlatforms: seq<string> := ["TikTok", "X", "LinkedIn"]

  /** The platform list of a request: a missing or empty value gives the three defaults, a string is
      split on commas (which may leave nothing), a list is taken as it is. */
  function ParsePlatforms(v: PlatformsValue): (r: seq<string>)
    ensures v.Absent? || v == Text("") || v == Items([]) ==> r == DefaultPlatforms
    ensures v.Items? && v.items != [] ==> r == v.items
    ensures v.Text? && v.text != "" ==>
              r == StripAll(Split(v.text, ',')) && forall i :: 0 <= i < |r| ==> r[i] != "" && ',' !in r[i]
  {
    match v
    case Absent => DefaultPlatforms
    case Text(s) =>
      if s == "" then DefaultPlatforms
      else
        StripAllWithout(Split(s, ','), ',');
        StripAll(Split(s, ','))
    case Items(xs) => if xs == [] then DefaultPlatforms else xs
  }
}
