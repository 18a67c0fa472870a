/** The `/v1/agro/ask` and `/v1/agro/chat` endpoints: their own input checks,
    the mapping of the client's exceptions to HTTP statuses, and the chat
    endpoint's translation to and from the ask records. The route decisions are
    functions of the request and of what the client answered; `HandleAsk` and
    `HandleChat` wire them to a fresh client over the shared settings, as every
    request does. */
module AgroRoutes {
  import opened Wrappers
  import opened Text
  import opened Schemas
  import opened Config
  import opened GenAI
  import opened Gemini

  /** An `HTTPException`: its status code and detail text. */
  datatype HttpError = HttpError(status: int, detail: string)

  const MissingInput := "Debes enviar 'question' o bien 'parameter' y 'value'."
  const QuestionTooLong := "La pregunta es demasiado larga."
  const UpstreamFailure := "Error al consultar el modelo."

  /** `bool(req.question and req.question.strip())`: a question that is not
      blank. */
  predicate HasQuestion(question: Option<string>) {
    question.Some? && Strip(question.value) != ""
  }

  /** `bool(req.parameter and (req.value is not None))`: any present value
      counts, 0.0 included. */
  predicate HasMeasure(parameter: Option<string>, value: Option<Float>) {
    Truthy(parameter) && value.Some?
  }

  /** The ask endpoint's checks, made before any client exists: a request needs
      a real question or a measure, and a real question may not be longer than
      the configured maximum. */
  function ValidateAsk(question: Option<string>, parameter: Option<string>, value: Option<Float>,
                       maxInputChars: int): (r: Option<HttpError>)
    ensures r.Some? ==> r.value.status == 400
    ensures r == Some(HttpError(400, MissingInput)) <==> !HasQuestion(question) && !HasMeasure(parameter, value)
    ensures r == Some(HttpError(400, QuestionTooLong)) <==> HasQuestion(question) && |question.value| > maxInputChars
    ensures r.None? <==> (HasQuestion(question) || HasMeasure(parameter, value))
                         && !(HasQuestion(question) && |question.value| > maxInputChars)
  {
    if !HasQuestion(question) && !HasMeasure(parameter, value) then Some(HttpError(400, MissingInput))
    else if HasQuestion(question) && |question.value| > maxInputChars then Some(HttpError(400, QuestionTooLong))
    else None
  }

  /** The chat endpoint's one check: the question's length. */
  function ValidateChat(question: string, maxInputChars: int): (r: Option<HttpError>)
    ensures r.Some? <==> |question| > maxInputChars
    ensures r.Some? ==> r.value == HttpError(400, QuestionTooLong)
  {
    if |question| > maxInputChars then Some(HttpError(400, QuestionTooLong)) else None
  }

  /** The `except` clauses: a ValueError becomes 400 with its own message, any
      other exception 502 with a fixed message. */
  function ErrorStatus(f: Fault): (e: HttpError)
    ensures e.status == 400 <==> f.kind == ValueError
    ensures e.status == 400 || e.status == 502
    ensures f.kind == ValueError ==> e.detail == f.message
    ensures f.kind != ValueError ==> e.detail == UpstreamFailure
  {
    if f.kind == ValueError then HttpError(400, f.message) else HttpError(502, UpstreamFailure)
  }

  /** The ask endpoint, given what the client answered (or raised) had it been
      called. A failed check answers 400 and the client's outcome plays no part;
      otherwise the client's response is passed through and its exception is
      mapped to a status. */
  function AskRoute(question: Option<string>, parameter: Option<string>, value: Option<Float>,
                    maxInputChars: int, outcome: Result<AskResponse, Fault>): (r: Result<AskResponse, HttpError>)
    ensures r.Failure? ==> r.error.status == 400 || r.error.status == 502
    ensures r.Success? <==> ValidateAsk(question, parameter, value, maxInputChars).None? && outcome.Success?
    ensures r.Success? ==> outcome == Success(r.value)
    ensures r.Failure? && r.error.status == 502 <==>
              ValidateAsk(question, parameter, value, maxInputChars).None? && outcome.Failure? && outcome.error.kind != ValueError
    ensures r.Failure? && r.error.status == 502 ==> r.error.detail == UpstreamFailure
  {
    var check := ValidateAsk(question, parameter, value, maxInputChars);
    if check.Some? then Failure(check.value)
    else if outcome.Failure? then Failure(ErrorStatus(outcome.error))
    else Success(outcome.value)
  }

  /** The chat endpoint, given the client's outcome: the length check, then the
      answer, model and tips of the client's response (never its usage), or the
      mapped exception. */
  function ChatRoute(question: string, maxInputChars: int, outcome: Result<AskResponse, Fault>)
    : (r: Result<ChatResponse, HttpError>)
    ensures r.Failure? ==> r.error.status == 400 || r.error.status == 502
    ensures r.Success? <==> |question| <= maxInputChars && outcome.Success?
    ensures r.Success? ==> r.value.answer == outcome.value.answer && r.value.model == outcome.value.model
                           && r.value.tips == outcome.value.tips
    ensures |question| <= maxInputChars && outcome.Failure? ==> r == Failure(ErrorStatus(outcome.error))
  {
    var check := ValidateChat(question, maxInputChars);
    if check.Some? then Failure(check.value)
    else if outcome.Failure? then Failure(ErrorStatus(outcome.error))
    else Success(ChatResponse(outcome.value.answer, outcome.value.model, outcome.value.tips))
  }

  /** A request with a measure and no question passes the endpoint's checks,
      whatever the value (0.0 included). */
  lemma MeasureOnlyPasses(parameter: string, value: Float, maxInputChars: int)
    requires parameter != ""
    ensures ValidateAsk(None, Some(parameter), Some(value), maxInputChars).None?
    ensures ValidateAsk(None, Some(parameter), Some(Float("0.0")), maxInputChars).None?
  {
  }

  /** Such a request then fails inside the client at `len(None)`, a TypeError,
      and so answers 502 rather than 400. */
  lemma MeasureOnlyIsUpstreamFailure(parameter: string, value: Float, maxInputChars: int)
    requires parameter != ""
    ensures AskRoute(None, Some(parameter), Some(value), maxInputChars, Failure(Fault(TypeError, NoLengthMessage)))
            == Failure(HttpError(502, UpstreamFailure))
  {
    MeasureOnlyPasses(parameter, value, maxInputChars);
  }

  /** A blank question is not a real question, so the endpoint does not check its
      length; with a measure it reaches the client, whose own check answers 400
      with the client's longer message. */
  lemma BlankLongQuestionReachesClient(q: string, parameter: string, value: Float, maxInputChars: int)
    requires Strip(q) == "" && |q| > maxInputChars && parameter != ""
    ensures ValidateAsk(Some(q), Some(parameter), Some(value), maxInputChars).None?
    ensures AskRoute(Some(q), Some(parameter), Some(value), maxInputChars, Failure(Fault(ValueError, TooLongMessage)))
            == Failure(HttpError(400, TooLongMessage))
  {
  }

  /** The chat request as the ask request it is forwarded as: question, crop,
      stage, length and safe mode carried over, every other field at its
      default. */
  method ForwardChat(req: ChatRequest) returns (a: AskRequest)
    ensures fresh(a)
    ensures a.question == Some(req.question) && a.crop == req.crop && a.stage == req.stage
    ensures a.length == req.length && a.safeMode == req.safeMode
    ensures a.temperature.None? && a.parameter.None? && a.value.None? && a.unit.None?
  {
    a := new AskRequest(question := Some(req.question), crop := req.crop, stage := req.stage,
                        length := req.length, safeMode := req.safeMode);
  }

  /** `/v1/agro/ask` over the shared settings and SDK. `promptFile` is the
      result of reading the system prompt file, which the client does first. */
  method HandleAsk(settings: Settings, backend: Backend, promptFile: Result<string, Fault>, req: AskRequest)
    returns (r: Result<AskResponse, HttpError>, ghost outcome: Result<AskResponse, Fault>, ghost start: Session,
             ghost cands: seq<string>, ghost availOrder: seq<string>)
    modifies settings, backend
    ensures r == AskRoute(req.question, req.parameter, req.value, settings.maxInputChars, outcome)
    ensures ValidateAsk(req.question, req.parameter, req.value, settings.maxInputChars).Some? ==>
              unchanged(settings, backend)
    ensures ValidateAsk(req.question, req.parameter, req.value, settings.maxInputChars).None? ==>
              && (promptFile.Failure? ==> outcome == Failure(promptFile.error) && unchanged(settings, backend))
              && (promptFile.Success? && req.question.None? ==>
                    outcome == Failure(Fault(TypeError, NoLengthMessage)) && unchanged(settings, backend))
    ensures ValidateAsk(req.question, req.parameter, req.value, settings.maxInputChars).None?
            && promptFile.Success? && req.question.Some? && |req.question.value| <= settings.maxInputChars
            && old(settings.mockMode) ==>
              outcome == Success(MockResponse(req.question.value, old(settings.geminiModel)))
              && unchanged(settings, backend)
    ensures ValidateAsk(req.question, req.parameter, req.value, settings.maxInputChars).None?
            && promptFile.Success? && req.question.Some? && |req.question.value| > settings.maxInputChars ==>
              outcome == Failure(Fault(ValueError, TooLongMessage)) && unchanged(settings, backend)
    ensures ValidateAsk(req.question, req.parameter, req.value, settings.maxInputChars).None?
            && promptFile.Success? && req.question.Some? && |req.question.value| <= settings.maxInputChars
            && settings.mockMode ==>
              outcome == Success(MockResponse(req.question.value, settings.geminiModel))
              && backend.generated == old(backend.generated)
    ensures ValidateAsk(req.question, req.parameter, req.value, settings.maxInputChars).None?
            && promptFile.Success? && req.question.Some? && |req.question.value| <= settings.maxInputChars
            && !settings.mockMode ==>
              && start.generated == old(backend.generated)
              && StartsFromSelection(backend.oracle, old(settings.geminiModel), old(backend.inited), promptFile.value,
                                     start, cands, availOrder)
              && var run := RetryFrom(backend.oracle, start, ComposeUserPrompt(req, settings.maxInputChars),
                                      req.safeMode == Some(true), Some(EffectiveLength(req.length)), MaxAttempts);
                 && outcome == run.outcome
                 && backend.generated == run.after.generated
                 && backend.inited == run.after.inited
                 && settings.geminiModel == run.after.model.name
    ensures ValidateAsk(req.question, req.parameter, req.value, settings.maxInputChars).None?
            && promptFile.Success? && req.question.Some? && |req.question.value| <= settings.maxInputChars
            && !old(settings.mockMode) ==>
              (settings.mockMode <==> ConfigureFallsBack(backend.oracle, settings.apiKey, old(settings.geminiModel),
                                                         old(backend.inited), promptFile.value, availOrder))
    ensures settings.mockMode ==> settings.geminiModel == old(settings.geminiModel)
    ensures ValidateAsk(req.question, req.parameter, req.value, settings.maxInputChars).None?
            && promptFile.Success? && req.question.Some? && |req.question.value| <= settings.maxInputChars
            && settings.mockMode && !old(settings.mockMode) ==>
              backend.inited == ConfigureLog(backend.oracle, settings.apiKey, old(settings.geminiModel),
                                             old(backend.inited), promptFile.value, availOrder)
    ensures old(settings.mockMode) ==> settings.mockMode
  {
    var answer: Result<AskResponse, Fault> := Failure(Fault(RuntimeError, ""));
    outcome := answer;
    start := Session(ModelHandle("", ""), [], []);
    cands, availOrder := [], [];
    var check := ValidateAsk(req.question, req.parameter, req.value, settings.maxInputChars);
    if check.Some? {
      r := Failure(check.value);
      return;
    }
    if promptFile.Failure? {
      answer := Failure(promptFile.error);
    } else {
      var client := new GeminiClient(settings, backend, promptFile.value);
      answer, start, cands, availOrder := client.Ask(req);
    }
    outcome := answer;
    r := AskRoute(req.question, req.parameter, req.value, settings.maxInputChars, answer);
  }

  /** `/v1/agro/chat` over the shared settings and SDK. */
  method HandleChat(settings: Settings, backend: Backend, promptFile: Result<string, Fault>, req: ChatRequest)
    returns (r: Result<ChatResponse, HttpError>, ghost outcome: Result<AskResponse, Fault>,
             ghost forwarded: AskRequest?, ghost start: Session, ghost cands: seq<string>, ghost availOrder: seq<string>)
    modifies settings, backend
    ensures r == ChatRoute(req.question, settings.maxInputChars, outcome)
    ensures |req.question| > settings.maxInputChars ==> unchanged(settings, backend)
    ensures |req.question| <= settings.maxInputChars && promptFile.Failure? ==>
              outcome == Failure(promptFile.error) && unchanged(settings, backend)
    ensures |req.question| <= settings.maxInputChars && promptFile.Success? && old(settings.mockMode) ==>
              outcome == Success(MockResponse(req.question, old(settings.geminiModel)))
              && unchanged(settings, backend)
    ensures |req.question| <= settings.maxInputChars && promptFile.Success? && settings.mockMode ==>
              outcome == Success(MockResponse(req.question, settings.geminiModel))
              && backend.generated == old(backend.generated)
    ensures |req.question| <= settings.maxInputChars && promptFile.Success? && !settings.mockMode ==>
              && forwarded != null
              && forwarded.question == Some(req.question) && forwarded.crop == req.crop
              && forwarded.stage == req.stage && forwarded.length == req.length && forwarded.safeMode == req.safeMode
              && forwarded.temperature.None? && forwarded.value.None? && forwarded.unit.None?
              && start.generated == old(backend.generated)
              && StartsFromSelection(backend.oracle, old(settings.geminiModel), old(backend.inited), promptFile.value,
                                     start, cands, availOrder)
              && var run := RetryFrom(backend.oracle, start, ComposeUserPrompt(forwarded, settings.maxInputChars),
                                      req.safeMode == Some(true), Some(EffectiveLength(req.length)), MaxAttempts);
                 && outcome == run.outcome
                 && backend.generated == run.after.generated
                 && backend.inited == run.after.inited
                 && settings.geminiModel == run.after.model.name
    ensures |req.question| <= settings.maxInputChars && promptFile.Success? && !old(settings.mockMode) ==>
              (settings.mockMode <==> ConfigureFallsBack(backend.oracle, settings.apiKey, old(settings.geminiModel),
                                                         old(backend.inited), promptFile.value, availOrder))
    ensures settings.mockMode ==> settings.geminiModel == old(settings.geminiModel)
    ensures |req.question| <= settings.maxInputChars && promptFile.Success?
            && settings.mockMode && !old(settings.mockMode) ==>
              backend.inited == ConfigureLog(backend.oracle, settings.apiKey, old(settings.geminiModel),
                                             old(backend.inited), promptFile.value, availOrder)
    ensures old(settings.mockMode) ==> settings.mockMode
  {
    var answer: Result<AskResponse, Fault> := Failure(Fault(RuntimeError, ""));
    outcome := answer;
    forwarded := null;
    start := Session(ModelHandle("", ""), [], []);
    cands, availOrder := [], [];
    if |req.question| > settings.maxInputChars {
      r := ChatRoute(req.question, settings.maxInputChars, answer);
      return;
    }
    if promptFile.Failure? {
      answer := Failure(promptFile.error);
    } else {
      var client := new GeminiClient(settings, backend, promptFile.value);
      var askReq := ForwardChat(req);
      forwarded := askReq;
      answer, start, cands, availOrder := client.Ask(askReq);
    }
    outcome := answer;
    r := ChatRoute(req.question, settings.maxInputChars, answer);
  }
}
