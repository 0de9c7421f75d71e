/** Settings, their fallbacks, secret lookup and database-URL normalisation (config.py). */
module Config {
  import opened Wrappers
  import opened Text

  /** The recognised settings; process environment loading is done by the caller. */
  datatype Settings = Settings(
    databaseUrl: string,
    logLevel: string,
    maxRequestsPerIpPerMin: int,
    maxQueueBacklog: int,
    maxConcurrentJobs: int,
    modelTimeoutSec: int,
    asyncEnabled: bool,
    workerTickToken: string,
    apifyApiKey: string,
    geminiApiKey: string,
    geminiModel: string,
    geminiApiBase: string,
    allowAdminQueryToken: bool)

  const DefaultGeminiModel: string := "gemini-flash-latest"

  /** The declared defaults of the settings class. */
  const Defaults: Settings := Settings(
    databaseUrl := "",
    logLevel := "INFO",
    maxRequestsPerIpPerMin := 60,
    maxQueueBacklog := 60,
    maxConcurrentJobs := 2,
    modelTimeoutSec := 45,
    asyncEnabled := true,
    workerTickToken := "",
    apifyApiKey := "",
    geminiApiKey := "",
    geminiModel := DefaultGeminiModel,
    geminiApiBase := "https://generativelanguage.googleapis.com/v1beta",
    allowAdminQueryToken := false)

  /** Python's `int(x or d)`: a zero setting falls back to `d`. */
  function OrInt(x: int, d: int): (r: int)
    ensures x != 0 ==> r == x
    ensures x == 0 ==> r == d
  {
    if x != 0 then x else d
  }

  function RequestsPerMinute(s: Settings): int {
    OrInt(s.maxRequestsPerIpPerMin, 60)
  }

  function BacklogCap(s: Settings): int {
    OrInt(s.maxQueueBacklog, 60)
  }

  function ConcurrencyCap(s: Settings): int {
    OrInt(s.maxConcurrentJobs, 2)
  }

  function ModelTimeout(s: Settings): int {
    OrInt(s.modelTimeoutSec, 45)
  }

  /** The stale threshold: the larger of 180 seconds and three model timeouts. */
  function StaleSeconds(s: Settings): (r: int)
    ensures r >= 180 && r >= ModelTimeout(s) * 3
    ensures r == 180 || r == ModelTimeout(s) * 3
  {
    if 180 >= ModelTimeout(s) * 3 then 180 else ModelTimeout(s) * 3
  }

  /** The defaults give backlog 60, concurrency 2, a 45 s model timeout and a 180 s stale threshold,
      and a setting of zero behaves exactly like the default. */
  lemma DefaultLimits(s: Settings)
    ensures BacklogCap(Defaults) == 60 && ConcurrencyCap(Defaults) == 2
    ensures ModelTimeout(Defaults) == 45 && RequestsPerMinute(Defaults) == 60
    ensures StaleSeconds(Defaults) == 180
    ensures s.maxQueueBacklog == 0 ==> BacklogCap(s) == BacklogCap(Defaults)
    ensures s.maxConcurrentJobs == 0 ==> ConcurrencyCap(s) == ConcurrencyCap(Defaults)
    ensures s.modelTimeoutSec == 0 ==> StaleSeconds(s) == StaleSeconds(Defaults)
    ensures s.maxRequestsPerIpPerMin == 0 ==> RequestsPerMinute(s) == RequestsPerMinute(Defaults)
  {
  }

  const PostgresScheme: string := "postgres://"
  const PostgresqlScheme: string := "postgresql://"

  /** The scheme rewrite shared by both normalisers (tasks.py applies it without stripping). */
  function RewriteScheme(url: string): (r: string)
    ensures !StartsWith(r, PostgresScheme)
    ensures !StartsWith(url, PostgresScheme) ==> r == url
    ensures StartsWith(url, PostgresScheme) ==>
              StartsWith(r, PostgresqlScheme) && r[|PostgresqlScheme|..] == url[|PostgresScheme|..]
  {
    if StartsWith(url, PostgresScheme) then
      var r := PostgresqlScheme + url[|PostgresScheme|..];
      assert r[8] != PostgresScheme[8];
      r
    else url
  }

  /** The rewrite keeps a stripped value stripped: it only replaces a non-space prefix. */
  lemma RewriteSchemeTrimmed(url: string)
    requires Trimmed(url)
    ensures Trimmed(RewriteScheme(url))
  {
    if StartsWith(url, PostgresScheme) {
      var r := RewriteScheme(url);
      assert r[0] == 'p';
      if |url| > |PostgresScheme| {
        assert r[|r| - 1] == url[|url| - 1];
      } else {
        assert r[|r| - 1] == '/';
      }
    }
  }

  lemma RewriteSchemeIdempotent(url: string)
    ensures RewriteScheme(RewriteScheme(url)) == RewriteScheme(url)
  {
  }

  /** config.py's normaliser: `None` reads as empty, the value is stripped, then rewritten. */
  function NormalizeDbUrl(url: Option<string>): (r: string)
    ensures !StartsWith(r, PostgresScheme)
    ensures Trimmed(r)
    ensures url.None? ==> r == ""
  {
    var t := Strip(url.GetOr(""));
    RewriteSchemeTrimmed(t);
    RewriteScheme(t)
  }

  /** Normalising twice is the same as normalising once. */
  lemma NormalizeDbUrlIdempotent(url: Option<string>)
    ensures NormalizeDbUrl(Some(NormalizeDbUrl(url))) == NormalizeDbUrl(url)
  {
    var r := NormalizeDbUrl(url);
    assert Strip(r) == r;
    assert RewriteScheme(r) == r;
  }

  /** A secret file's contribution: its stripped content when that is non-empty. */
  function FileSecret(content: Option<string>): (r: Option<string>)
    ensures r.Some? <==> content.Some? && Strip(content.value) != ""
    ensures r.Some? ==> r.value == Strip(content.value)
  {
    match content
    case None => None
    case Some(c) => if Strip(c) != "" then Some(Strip(c)) else None
  }

  /** `_read_secret_file`: `/etc/secrets/<name>` first, then the working directory; a missing
      or unreadable file is `None`. */
  function ReadSecretFile(etcSecrets: Option<string>, cwd: Option<string>): (r: Option<string>)
    ensures FileSecret(etcSecrets).Some? ==> r == FileSecret(etcSecrets)
    ensures FileSecret(etcSecrets).None? ==> r == FileSecret(cwd)
  {
    if FileSecret(etcSecrets).Some? then FileSecret(etcSecrets) else FileSecret(cwd)
  }

  /** `get_secret`: a non-blank environment value wins, then the first non-empty secret file,
      else the default. */
  function GetSecret(env: Option<string>, etcSecrets: Option<string>, cwd: Option<string>,
                     default: Option<string>): (r: Option<string>)
    ensures env.Some? && Strip(env.value) != "" ==> r == Some(Strip(env.value))
    ensures (env.None? || Strip(env.value) == "") && FileSecret(etcSecrets).Some? ==>
              r == FileSecret(etcSecrets)
    ensures (env.None? || Strip(env.value) == "") && FileSecret(etcSecrets).None? && FileSecret(cwd).Some? ==>
              r == FileSecret(cwd)
    ensures (env.None? || Strip(env.value) == "") && FileSecret(etcSecrets).None? && FileSecret(cwd).None? ==>
              r == default
  {
    if env.Some? && Strip(env.value) != "" then Some(Strip(env.value))
    else
      var v2 := ReadSecretFile(etcSecrets, cwd);
      if v2.Some? then v2 else default
  }

  /** The process environment and the two secret-file directories, as key-value maps. */
  datatype Environment = Environment(vars: map<string, string>, etcSecrets: map<string, string>,
                                     cwdFiles: map<string, string>)

  function Lookup(m: map<string, string>, k: string): Option<string> {
    if k in m then Some(m[k]) else None
  }

  function SecretOf(e: Environment, name: string): string {
    GetSecret(Lookup(e.vars, name), Lookup(e.etcSecrets, name), Lookup(e.cwdFiles, name), Some("")).GetOr("")
  }

  /** The model name: the environment value if non-empty, else the configured one, else the default,
      stripped. */
  function GeminiModel(env: Option<string>, configured: string): (r: string)
    ensures env.Some? && env.value != "" ==> r == Strip(env.value)
    ensures (env.None? || env.value == "") && configured != "" ==> r == Strip(configured)
    ensures (env.None? || env.value == "") && configured == "" ==> r == DefaultGeminiModel
  {
    assert NoSpace(DefaultGeminiModel);
    var chosen := if env.Some? && env.value != "" then env.value
                  else if configured != "" then configured
                  else DefaultGeminiModel;
    Strip(chosen)
  }

  /** The module-level adjustments applied to the loaded settings at import time. */
  function Boot(s: Settings, e: Environment): (r: Settings)
    ensures r.databaseUrl == NormalizeDbUrl(Some(Or(s.databaseUrl, Lookup(e.vars, "DATABASE_URL").GetOr(""))))
    ensures s.geminiApiKey != "" ==> r.geminiApiKey == s.geminiApiKey
    ensures s.workerTickToken != "" ==> r.workerTickToken == s.workerTickToken
    ensures s.apifyApiKey != "" ==> r.apifyApiKey == s.apifyApiKey
    ensures s.workerTickToken == "" ==> r.workerTickToken == SecretOf(e, "WORKER_TICK_TOKEN")
    ensures r.geminiModel == GeminiModel(Lookup(e.vars, "GEMINI_MODEL"), s.geminiModel)
    ensures r.maxConcurrentJobs == s.maxConcurrentJobs && r.maxQueueBacklog == s.maxQueueBacklog
    ensures r.modelTimeoutSec == s.modelTimeoutSec
  {
    s.(databaseUrl := NormalizeDbUrl(Some(Or(s.databaseUrl, Lookup(e.vars, "DATABASE_URL").GetOr("")))),
       geminiApiKey := if s.geminiApiKey == "" then SecretOf(e, "GEMINI_API_KEY") else s.geminiApiKey,
       apifyApiKey := if s.apifyApiKey == "" then SecretOf(e, "APIFY_API_KEY") else s.apifyApiKey,
       workerTickToken := if s.workerTickToken == "" then SecretOf(e, "WORKER_TICK_TOKEN") else s.workerTickToken,
       geminiModel := GeminiModel(Lookup(e.vars, "GEMINI_MODEL"), s.geminiModel))
  }
}
