/** The shared vocabulary of src/catgpt/types.py: providers, endpoints, message and chat types. */
module Types {
  import opened Wrappers

  /** `MessageType` values. DOCUMENT is referred to by the OpenAI payload builder but not defined with the others; it is given a value of its own here. */
  const TEXT: int := 0
  const PHOTO: int := 1
  const AUDIO: int := 2
  const DOCUMENT: int := 3

  /** Lines 3-14: the message types each known model accepts. */
  const MODEL_MAPPING: map<string, seq<string>> := map[
    "gpt-4o" := ["text", "photo"],
    "gpt-4-1106-preview" := ["text", "photo"],
    "gpt-4-0125-preview" := ["text", "photo"],
    "gpt-4-turbo-preview" := ["text", "photo"],
    "gpt-4-turbo-2024-04-09" := ["text", "photo"],
    "gpt-4-turbo" := ["text", "photo"],
    "gpt-4" := ["text"],
    "gpt-3.5-turbo" := ["text"],
    "gpt-3.5-turbo-0301" := ["text"],
    "gpt-4-0613" := ["text"]]

  /** `Endpoint.is_support` (lines 47-49): a type listed for the model; unknown models support nothing. */
  function IsSupport(model: string, messageType: string): (b: bool)
    ensures model !in MODEL_MAPPING ==> !b
    ensures b ==> messageType == "text" || messageType == "photo"
    ensures model in MODEL_MAPPING && messageType == "text" ==> b
  {
    model in MODEL_MAPPING && messageType in MODEL_MAPPING[model]
  }

  /** Which of the known models accept photos. */
  lemma PhotoSupport()
    ensures IsSupport("gpt-4o", "photo") && IsSupport("gpt-4-turbo", "photo")
    ensures !IsSupport("gpt-4", "photo") && !IsSupport("gpt-3.5-turbo", "photo")
  {
    assert MODEL_MAPPING["gpt-4o"] == ["text", "photo"];
    assert MODEL_MAPPING["gpt-4-turbo"] == ["text", "photo"];
    assert MODEL_MAPPING["gpt-4"] == ["text"];
    assert MODEL_MAPPING["gpt-3.5-turbo"] == ["text"];
  }

  /** Lines 64-67 */
  datatype Provider = OPENAI | GEMINI | QWEN {
    function Value(): string {
      match this
      case OPENAI => "oai"
      case GEMINI => "gemini"
      case QWEN => "qwen"
    }
  }

  /** Lines 34 and 42: `Provider[provider.upper()]` for the three accepted names, nothing for any other. */
  function ProviderNamed(name: string): (p: Option<Provider>)
    ensures p.None? <==> name != "openai" && name != "gemini" && name != "qwen"
    ensures name == "openai" ==> p == Some(OPENAI) && p.value.Value() == "oai"
    ensures p.Some? ==> (p.value == OPENAI || p.value.Value() == name)
  {
    if name == "openai" then Some(OPENAI)
    else if name == "gemini" then Some(GEMINI)
    else if name == "qwen" then Some(QWEN)
    else None
  }

  datatype Endpoint = Endpoint(
    name: string,
    apiUrl: string,
    secretKey: string,
    models: seq<string>,
    provider: Provider,
    defaultModel: string,
    defaultEndpoint: bool,
    generateTitle: bool)

  /**
   * Lines 19-45: the constructor's checks, in order, and the default model falling back to
   * the first listed one. An empty `defaultModel` stands for Python's falsy `None`.
   */
  function NewEndpoint(name: string, apiUrl: string, secretKey: string, models: seq<string>,
                       provider: string := "openai", defaultModel: string := "",
                       defaultEndpoint: bool := false, generateTitle: bool := true): (r: Result<Endpoint>)
    ensures r.Ok? <==> name != [] && apiUrl != [] && secretKey != [] && models != [] && ProviderNamed(provider).Some?
    ensures name == [] ==> r == Err("endpoint name can't be empty")
    ensures name != [] && apiUrl == [] ==> r == Err("api url can't be empty")
    ensures name != [] && apiUrl != [] && secretKey == [] ==> r == Err("secret key can't be empty")
    ensures name != [] && apiUrl != [] && secretKey != [] && models == [] ==> r == Err("models can't be empty")
    ensures name != [] && apiUrl != [] && secretKey != [] && models != [] && ProviderNamed(provider).None? ==>
      r == Err("provider not supported")
    ensures r.Ok? ==>
      && r.value.name == name && r.value.apiUrl == apiUrl && r.value.secretKey == secretKey
      && r.value.models == models
      && r.value.defaultEndpoint == defaultEndpoint && r.value.generateTitle == generateTitle
      && Some(r.value.provider) == ProviderNamed(provider)
      && r.value.defaultModel == (if defaultModel == "" then models[0] else defaultModel)
    ensures r.Ok? && defaultModel == "" ==> r.value.defaultModel in models
  {
    if |name| == 0 then Err("endpoint name can't be empty")
    else if |apiUrl| == 0 then Err("api url can't be empty")
    else if |secretKey| == 0 then Err("secret key can't be empty")
    else if |models| == 0 then Err("models can't be empty")
    else if ProviderNamed(provider).None? then Err("provider not supported")
    else
      Ok(Endpoint(name, apiUrl, secretKey, models, ProviderNamed(provider).value,
                  if defaultModel == "" then models[0] else defaultModel, defaultEndpoint, generateTitle))
  }

  /** Lines 76-79 */
  datatype ChatType = PRIVATE | GROUP | CHANNEL {
    function Value(): int {
      match this
      case PRIVATE => 0
      case GROUP => 10
      case CHANNEL => 20
    }
  }

  /** `ChatType.get` (lines 81-89): every name other than "private" and "channel" is a group. */
  function ChatTypeGet(chatType: string): (t: ChatType)
    ensures t == PRIVATE <==> chatType == "private"
    ensures t == CHANNEL <==> chatType == "channel"
    ensures t == GROUP <==> chatType != "private" && chatType != "channel"
  {
    if chatType == "private" then PRIVATE
    else if chatType == "channel" then CHANNEL
    else GROUP
  }
}
