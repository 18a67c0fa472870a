/** The few parts of the Google generative-AI SDK the client touches, as an
    oracle: what `configure`, `list_models`, `GenerativeModel(...)` and
    `generate_content` answer is fixed in advance by an `Oracle` value, and the
    `Backend` object only records which requests were made, in order. */
module GenAI {
  import opened Wrappers
  import opened Schemas

  /** The exception classes the service tells apart. */
  datatype FaultKind = ValueError | TypeError | RuntimeError | ApiError

  /** A raised exception: its class and `str(e)`. */
  datatype Fault = Fault(kind: FaultKind, message: string)

  /** One element of a candidate's `content.parts`: an object whose `text`
      attribute is a string (or absent / not a string: None), or a bare string. */
  datatype Part = Part(text: Option<string>) | Str(s: string)

  /** A response candidate: its content's parts (None when there is no content)
      and its `finish_reason` as the integer value of the SDK's enumeration. */
  datatype Candidate = Candidate(parts: Option<seq<Part>>, finishReason: Option<int>)

  /** A `generate_content` result. `malformed` means that reading its candidates
      raises. */
  datatype Response = Response(candidates: Option<seq<Candidate>>, usage: Option<Usage>, malformed: bool)

  /** One entry of `list_models()`: its `name` attribute and, when it has one,
      its `supported_generation_methods`. */
  datatype ModelInfo = ModelInfo(name: Option<string>, methods: Option<seq<string>>)

  /** Decoding parameters. Temperature and top-p are in tenths (0.2 is 2); the
      service only ever uses values with one decimal. */
  datatype GenConfig = GenConfig(temperature: nat, topP: nat, topK: nat, maxOutputTokens: nat)

  datatype SafetySetting = SafetySetting(category: string, threshold: string)

  /** A `GenerativeModel` object, identified by what it was built from: the
      model name and the system instruction. */
  datatype ModelHandle = ModelHandle(name: string, instruction: string)

  /** The contents of a generate request. The service sends either a composed
      user prompt or one of three reframings of it; the client module gives the
      exact text each stands for. */
  datatype Prompt =
    | Composed(text: string)
    | Reframed(base: string)
    | GenericWater
    | FormatAdjusted(base: string)

  /** One `generate_content` request: the model it was sent to and its arguments. */
  datatype GenCall = GenCall(model: ModelHandle, prompt: Prompt, config: GenConfig, safety: seq<SafetySetting>)

  /** What the SDK answers. Model construction and generation may answer
      differently from one request to the next, so they are indexed by how many
      requests of that kind came before. */
  datatype Oracle = Oracle(
    configureFault: Option<Fault>,
    listModels: Result<seq<ModelInfo>, Fault>,
    init: (nat, ModelHandle) -> Option<Fault>,
    generate: (nat, GenCall) -> Result<Response, Fault>)

  /** The SDK as the client sees it: answers come from `oracle`; `inited` and
      `generated` log model constructions and generate requests in order. */
  class Backend {
    const oracle: Oracle
    var apiKey: Option<string>
    var inited: seq<ModelHandle>
    var generated: seq<GenCall>

    constructor (oracle: Oracle)
      ensures this.oracle == oracle && apiKey.None? && inited == [] && generated == []
    {
      this.oracle := oracle;
      apiKey := None;
      inited := [];
      generated := [];
    }

    /** `genai.configure(api_key=key)`. */
    method Configure(key: Option<string>) returns (fault: Option<Fault>)
      modifies this`apiKey
      ensures fault == oracle.configureFault && apiKey == key
    {
      fault := oracle.configureFault;
      apiKey := key;
    }

    /** `genai.list_models()`. */
    method ListModels() returns (r: Result<seq<ModelInfo>, Fault>)
      ensures r == oracle.listModels
    {
      r := oracle.listModels;
    }

    /** `genai.GenerativeModel(model_name=..., system_instruction=...)`: None when
        construction succeeds. */
    method NewModel(h: ModelHandle) returns (fault: Option<Fault>)
      modifies this`inited
      ensures fault == oracle.init(|old(inited)|, h) && inited == old(inited) + [h]
    {
      fault := oracle.init(|inited|, h);
      inited := inited + [h];
    }

    /** `model.generate_content(...)`. */
    method Generate(call: GenCall) returns (r: Result<Response, Fault>)
      modifies this`generated
      ensures r == oracle.generate(|old(generated)|, call) && generated == old(generated) + [call]
    {
      r := oracle.generate(|generated|, call);
      generated := generated + [call];
    }
  }
}
