/** The first package's configuration, read from the process environment:
    the non-empty lookup with a default, the two mode parsers and the
    settings derived from them. The environment is a map from variable names
    to values; the random fallback secret key is a parameter. */
module Config {
  import opened Schema
  import opened Text

  type Env = map<string, string>

  /** `get_non_empty_env`: the default when the variable is unset or set to
      the empty text, the value otherwise. */
  function GetNonEmptyEnv(env: Env, name: string, default: Option<string>): (r: Option<string>)
    ensures name !in env || env[name] == "" ==> r == default
    ensures name in env && env[name] != "" ==> r == Some(env[name])
  {
    if name in env && env[name] != "" then Some(env[name]) else default
  }

  /** An empty value is never returned unless it is the default. */
  lemma NonEmptyUnlessDefault(env: Env, name: string, default: Option<string>)
    ensures GetNonEmptyEnv(env, name, default) == Some("") ==> default == Some("")
  {
  }

  datatype LLMMode = Testing | Gemini | Ollama
  datatype FileStorageMode = Local

  /** `LLMMode.from_str`: the lower-cased name of a mode, or an error naming
      the lower-cased text. */
  function LLMModeFromStr(name: string): (r: Result<LLMMode>)
    ensures r.Err? ==> r.error == "Invalid LLM mode '" + Lower(name) + "'"
  {
    var n := Lower(name);
    if n == "testing" then Ok(Testing)
    else if n == "gemini" then Ok(Gemini)
    else if n == "ollama" then Ok(Ollama)
    else Err("Invalid LLM mode '" + n + "'")
  }

  /** The name each mode is read from. */
  function LLMModeName(m: LLMMode): string
  {
    match m
    case Testing => "testing"
    case Gemini => "gemini"
    case Ollama => "ollama"
  }

  /** Exactly the three names are accepted, whatever their case, and each
      gives its own mode back. */
  lemma LLMModeFromStrSpec(name: string)
    ensures LLMModeFromStr(name).Ok? <==> Lower(name) in {"testing", "gemini", "ollama"}
    ensures LLMModeFromStr(name).Ok? ==> LLMModeName(LLMModeFromStr(name).value) == Lower(name)
    ensures LLMModeFromStr(Lower(name)) == LLMModeFromStr(name)
  {
    LowerIdempotent(name);
  }

  /** Reading a mode's name gives the mode. */
  lemma LLMModeRoundTrip(m: LLMMode)
    ensures LLMModeFromStr(LLMModeName(m)) == Ok(m)
  {
    var n := LLMModeName(m);
    assert Lower(n) == n;
  }

  /** `FileStorageMode.from_str`: only "local", in any case. */
  function FileStorageModeFromStr(name: string): (r: Result<FileStorageMode>)
    ensures r.Ok? <==> Lower(name) == "local"
    ensures r.Err? ==> r.error == "Invalid file storage mode '" + Lower(name) + "'"
  {
    var n := Lower(name);
    if n == "local" then Ok(Local) else Err("Invalid file storage mode '" + n + "'")
  }

  /** `REQUIRE_OAUTH`: on unless the variable is set to something other than
      "true" in any case. */
  function RequireOauth(env: Env): (b: bool)
    ensures b <==> Lower(GetNonEmptyEnv(env, "REQUIRE_OAUTH", Some("true")).value) == "true"
  {
    Lower(GetNonEmptyEnv(env, "REQUIRE_OAUTH", Some("true")).value) == "true"
  }

  /** The settings the model uses. */
  datatype Settings = Settings(
    secretKey: string,
    dbName: string, dbUser: string, dbPassword: string, dbUrl: string,
    googleClientId: Option<string>, googleClientSecret: Option<string>,
    requireOauth: bool,
    ollamaUrl: string, geminiApiKey: Option<string>,
    llmMode: LLMMode, fileStorageMode: FileStorageMode, fileStoragePath: string)

  /** The variables read with `os.environ[...]`, which raises when unset. */
  const DB_KEYS: set<string> := {"DB_NAME", "DB_USER", "DB_PASSWORD", "DB_URL"}

  predicate HasDbKeys(env: Env)
  {
    "DB_NAME" in env && "DB_USER" in env && "DB_PASSWORD" in env && "DB_URL" in env
  }

  const DEFAULT_OLLAMA_URL: string := "http://localhost:11434"
  const DEFAULT_STORAGE_PATH: string := "storage"

  /** The class body of `Config`: a missing database variable or an unknown
      mode fails the load; everything else has a default. Unlike the other
      variables the database ones may be empty. */
  function LoadSettings(env: Env, randomKey: string): (r: Result<Settings>)
    ensures r.Ok? <==>
      && HasDbKeys(env)
      && LLMModeFromStr(GetNonEmptyEnv(env, "LLM_MODE", Some("testing")).value).Ok?
      && FileStorageModeFromStr(GetNonEmptyEnv(env, "FILE_STORAGE_MODE", Some("local")).value).Ok?
    ensures r.Ok? ==>
      && r.value.dbName == env["DB_NAME"] && r.value.dbUser == env["DB_USER"]
      && r.value.dbPassword == env["DB_PASSWORD"] && r.value.dbUrl == env["DB_URL"]
    ensures r.Ok? ==> r.value.secretKey == if "SECRET_KEY" in env then env["SECRET_KEY"] else randomKey
  {
    if "DB_NAME" !in env then Err("DB_NAME")
    else if "DB_USER" !in env then Err("DB_USER")
    else if "DB_PASSWORD" !in env then Err("DB_PASSWORD")
    else if "DB_URL" !in env then Err("DB_URL")
    else
      var mode := LLMModeFromStr(GetNonEmptyEnv(env, "LLM_MODE", Some("testing")).value);
      var storage := FileStorageModeFromStr(GetNonEmptyEnv(env, "FILE_STORAGE_MODE", Some("local")).value);
      if mode.Err? then Err(mode.error)
      else if storage.Err? then Err(storage.error)
      else Ok(Settings(
        if "SECRET_KEY" in env then env["SECRET_KEY"] else randomKey,
        env["DB_NAME"], env["DB_USER"], env["DB_PASSWORD"], env["DB_URL"],
        GetNonEmptyEnv(env, "GOOGLE_CLIENT_ID", None), GetNonEmptyEnv(env, "GOOGLE_CLIENT_SECRET", None),
        RequireOauth(env),
        GetNonEmptyEnv(env, "OLLAMA_URL", Some(DEFAULT_OLLAMA_URL)).value, GetNonEmptyEnv(env, "GEMINI_API_KEY", None),
        mode.value, storage.value,
        GetNonEmptyEnv(env, "FILE_STORAGE_PATH", Some(DEFAULT_STORAGE_PATH)).value))
  }

  /** With only the database variables set (the other ones unset or empty),
      the chatbot runs the testing model with local storage under "storage",
      requires OAuth and talks to a local Ollama. */
  lemma Defaults(env: Env, randomKey: string)
    requires HasDbKeys(env)
    requires forall name :: name in env && name !in DB_KEYS ==> env[name] == ""
    ensures var r := LoadSettings(env, randomKey);
      && r.Ok?
      && r.value.llmMode == Testing && r.value.fileStorageMode == Local
      && r.value.fileStoragePath == DEFAULT_STORAGE_PATH
      && r.value.requireOauth
      && r.value.ollamaUrl == DEFAULT_OLLAMA_URL
      && r.value.googleClientId.None? && r.value.geminiApiKey.None?
  {
    assert "LLM_MODE" !in DB_KEYS && "FILE_STORAGE_MODE" !in DB_KEYS && "REQUIRE_OAUTH" !in DB_KEYS;
    assert "FILE_STORAGE_PATH" !in DB_KEYS && "OLLAMA_URL" !in DB_KEYS;
    assert "GOOGLE_CLIENT_ID" !in DB_KEYS && "GEMINI_API_KEY" !in DB_KEYS;
    assert Lower("testing") == "testing";
    assert Lower("local") == "local";
    assert Lower("true") == "true";
  }
}
