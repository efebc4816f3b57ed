/**
 * lib/config.ts: the settings derived once, when the module loads, from the process
 * environment. The environment is a map from variable name to value; a variable that is
 * not set has no key. Building the SDK clients is recorded as which client exists and
 * with which key; the clients themselves are not modelled.
 */
module Config {
  import opened Wrappers

  type Env = map<string, string>

  const USE_OLLAMA_VAR := "USE_OLLAMA"
  const GOOGLE_API_KEY_VAR := "GOOGLE_API_KEY"
  const PINECONE_API_KEY_VAR := "PINECONE_API_KEY"
  const PINECONE_INDEX_NAME_VAR := "PINECONE_INDEX_NAME"
  const OLLAMA_HOST_VAR := "OLLAMA_HOST"
  const OLLAMA_EMBEDDING_MODEL_VAR := "OLLAMA_EMBEDDING_MODEL"

  const DEFAULT_PINECONE_INDEX_NAME := "document-qa-index"
  const DEFAULT_OLLAMA_HOST := "http://localhost:11434"
  const DEFAULT_OLLAMA_EMBEDDING_MODEL := "nomic-embed-text:latest"
  /** Fixed in the source, whatever the environment says. */
  const OLLAMA_CHAT_MODEL := "llama3:latest"
  const EMBEDDING_MODEL := "text-embedding-004"
  const CHAT_MODEL := "gemini-1.5-flash"

  /** Target chunk length and the overlap between consecutive chunks, in characters. */
  const CHUNK_SIZE := 1000
  const CHUNK_OVERLAP := 200

  const GOOGLE_KEY_MISSING := "Google API key is missing! Please check your .env.local file."
  const PINECONE_KEY_MISSING := "Pinecone API key is missing! Please check your .env.local file."
  const PINECONE_NOT_INITIALIZED := "Pinecone client not initialized. Please check your PINECONE_API_KEY."
  const PINECONE_CONNECT_FAILED := "Failed to connect to Pinecone index: "

  /** The value of `process.env[name]` is truthy: the variable is set and not empty. */
  predicate IsSet(env: Env, name: string) {
    name in env && env[name] != ""
  }

  /** `process.env[name]`, which is `undefined` when the variable is not set. */
  function Lookup(env: Env, name: string): Option<string> {
    if name in env then Some(env[name]) else None
  }

  /** `process.env[name] || fallback`. */
  function EnvOr(env: Env, name: string, fallback: string): (r: string)
    ensures IsSet(env, name) ==> r == env[name]
    ensures !IsSet(env, name) ==> r == fallback
  {
    if name in env && env[name] != "" then env[name] else fallback
  }

  /** The Gemini client, built with whatever key the environment holds, possibly none. */
  datatype GoogleClient = GoogleClient(apiKey: Option<string>)

  datatype PineconeClient = PineconeClient(apiKey: string)

  /** The module-level constants of lib/config.ts that depend on the environment. */
  datatype Settings = Settings(
    useOllama: bool,
    genAI: Option<GoogleClient>,
    pinecone: Option<PineconeClient>,
    pineconeIndexName: string,
    ollamaHost: string,
    ollamaEmbeddingModel: string,
    ollamaChatModel: string,
    /** The lines written with `console.error` while the module loads. */
    startupErrors: seq<string>)

  /**
   * Loading the module never fails: a missing key is only reported on the error console.
   */
  function Load(env: Env): (s: Settings)
    ensures s.useOllama <==> USE_OLLAMA_VAR in env && env[USE_OLLAMA_VAR] == "true"
    ensures s.genAI == if s.useOllama then None else Some(GoogleClient(Lookup(env, GOOGLE_API_KEY_VAR)))
    ensures s.pinecone.Some? <==> IsSet(env, PINECONE_API_KEY_VAR)
    ensures s.pinecone.Some? ==> s.pinecone.value.apiKey == env[PINECONE_API_KEY_VAR]
    ensures IsSet(env, PINECONE_INDEX_NAME_VAR) ==> s.pineconeIndexName == env[PINECONE_INDEX_NAME_VAR]
    ensures !IsSet(env, PINECONE_INDEX_NAME_VAR) ==> s.pineconeIndexName == DEFAULT_PINECONE_INDEX_NAME
    ensures IsSet(env, OLLAMA_HOST_VAR) ==> s.ollamaHost == env[OLLAMA_HOST_VAR]
    ensures !IsSet(env, OLLAMA_HOST_VAR) ==> s.ollamaHost == DEFAULT_OLLAMA_HOST
    ensures IsSet(env, OLLAMA_EMBEDDING_MODEL_VAR) ==> s.ollamaEmbeddingModel == env[OLLAMA_EMBEDDING_MODEL_VAR]
    ensures !IsSet(env, OLLAMA_EMBEDDING_MODEL_VAR) ==> s.ollamaEmbeddingModel == DEFAULT_OLLAMA_EMBEDDING_MODEL
    ensures s.ollamaChatModel == OLLAMA_CHAT_MODEL
    ensures GOOGLE_KEY_MISSING in s.startupErrors <==> !s.useOllama && !IsSet(env, GOOGLE_API_KEY_VAR)
    ensures PINECONE_KEY_MISSING in s.startupErrors <==> s.pinecone.None?
    ensures |s.startupErrors| <= 2
  {
    var useOllama := Lookup(env, USE_OLLAMA_VAR) == Some("true");
    var googleKey := Lookup(env, GOOGLE_API_KEY_VAR);
    var pineconeKey := Lookup(env, PINECONE_API_KEY_VAR);
    var googleWarning :=
      if !useOllama && (googleKey.None? || googleKey == Some("")) then [GOOGLE_KEY_MISSING] else [];
    var pineconeWarning :=
      if pineconeKey.None? || pineconeKey == Some("") then [PINECONE_KEY_MISSING] else [];
    Settings(
      useOllama,
      if !useOllama then Some(GoogleClient(googleKey)) else None,
      if pineconeKey.Some? && pineconeKey.value != "" then Some(PineconeClient(pineconeKey.value)) else None,
      EnvOr(env, PINECONE_INDEX_NAME_VAR, DEFAULT_PINECONE_INDEX_NAME),
      EnvOr(env, OLLAMA_HOST_VAR, DEFAULT_OLLAMA_HOST),
      EnvOr(env, OLLAMA_EMBEDDING_MODEL_VAR, DEFAULT_OLLAMA_EMBEDDING_MODEL),
      OLLAMA_CHAT_MODEL,
      googleWarning + pineconeWarning)
  }

  /** Only the exact string "true" turns the local provider on. */
  lemma UseOllamaIsExact(env: Env)
    requires USE_OLLAMA_VAR in env && env[USE_OLLAMA_VAR] in {"TRUE", "True", "1", "yes", "true "}
    ensures !Load(env).useOllama
  {
  }

  /** Exactly one of the two embedding back ends has its client built. */
  lemma OneProviderClient(env: Env)
    ensures Load(env).useOllama <==> Load(env).genAI.None?
  {
  }

  /** An empty variable is treated like an unset one by every `||` fallback. */
  lemma EmptyVariableFallsBack(env: Env, name: string)
    requires name in {PINECONE_INDEX_NAME_VAR, OLLAMA_HOST_VAR, OLLAMA_EMBEDDING_MODEL_VAR, PINECONE_API_KEY_VAR}
    ensures Load(env[name := ""]) == Load(env - {name})
  {
    var e1, e2 := env[name := ""], env - {name};
    assert |name| != |USE_OLLAMA_VAR| && |name| != |GOOGLE_API_KEY_VAR|;
    assert Lookup(e1, USE_OLLAMA_VAR) == Lookup(e2, USE_OLLAMA_VAR);
    assert Lookup(e1, GOOGLE_API_KEY_VAR) == Lookup(e2, GOOGLE_API_KEY_VAR);
    forall v | v in {PINECONE_API_KEY_VAR, PINECONE_INDEX_NAME_VAR, OLLAMA_HOST_VAR, OLLAMA_EMBEDDING_MODEL_VAR}
      ensures IsSet(e1, v) == IsSet(e2, v) && (IsSet(e1, v) ==> e1[v] == e2[v])
    {
    }
  }

  /** The chat model is the same under every environment. */
  lemma ChatModelIgnoresEnvironment(env1: Env, env2: Env)
    ensures Load(env1).ollamaChatModel == Load(env2).ollamaChatModel == "llama3:latest"
  {
  }

  /** The chunking constants satisfy the chunker's requirement `0 <= overlap < size`. */
  lemma ChunkParametersValid()
    ensures 0 <= CHUNK_OVERLAP < CHUNK_SIZE
  {
  }

  /** A handle on the named index of a Pinecone client. */
  datatype IndexHandle = IndexHandle(client: PineconeClient, name: string)

  /**
   * `getPineconeIndex()`. Whether the SDK's `index(name)` call succeeds is the
   * parameter `connects`; it is attempted only when a client exists.
   */
  function GetPineconeIndex(s: Settings, connects: bool): (r: Result<IndexHandle, string>)
    ensures s.pinecone.None? ==> r == Failure(PINECONE_NOT_INITIALIZED)
    ensures s.pinecone.Some? && !connects ==> r == Failure(PINECONE_CONNECT_FAILED + s.pineconeIndexName)
    ensures r.Success? <==> s.pinecone.Some? && connects
    ensures r.Success? ==> r.value == IndexHandle(s.pinecone.value, s.pineconeIndexName)
  {
    match s.pinecone
    case None => Failure(PINECONE_NOT_INITIALIZED)
    case Some(client) =>
      if connects then Success(IndexHandle(client, s.pineconeIndexName))
      else Failure(PINECONE_CONNECT_FAILED + s.pineconeIndexName)
  }

  /** With the settings loaded from `env`, an index is reachable only if the Pinecone key is set. */
  lemma IndexNeedsPineconeKey(env: Env, connects: bool)
    ensures GetPineconeIndex(Load(env), connects).Success? <==> IsSet(env, PINECONE_API_KEY_VAR) && connects
    ensures !IsSet(env, PINECONE_API_KEY_VAR) ==>
              GetPineconeIndex(Load(env), connects) == Failure(PINECONE_NOT_INITIALIZED)
  {
  }
}
