/** `GeminiClient`: model selection, prompt composition, decoding parameters,
    the call-failure policy, answer extraction, the reframe escalation and the
    `ask` entry point. The SDK is the oracle of module GenAI; the functions
    below say what one call, one attempt and the three retried attempts do
    given that oracle, and the class's methods are proved to do exactly that. */
module Gemini {
  import opened Wrappers
  import opened Text
  import opened Schemas
  import opened Config
  import opened GenAI
  import Sanitize

  // ---------------------------------------------------------------------------
  // Model selection (`_configure`)
  // ---------------------------------------------------------------------------

  const LatestSuffix := "-latest"

  /** The fixed fallbacks tried after the requested model, best first. */
  const PreferredModels: seq<string> :=
    ["gemini-2.5-pro", "gemini-2.5-flash", "gemini-2.0-flash", "gemini-1.5-pro", "gemini-1.5-flash"]

  /** The list used when no preference is a non-empty name. */
  const LastResortModel := "gemini-2.5-flash"

  /** The requested name, stripped, with "-latest" removed when it ends that way
      (every occurrence goes, as `str.replace` does). */
  function Normalize(requested: string): (r: string)
    ensures !EndsWith(Strip(requested), LatestSuffix) ==> r == Strip(requested)
  {
    var t := Strip(requested);
    if EndsWith(t, LatestSuffix) then Replace(t, LatestSuffix, "") else t
  }

  /** Removing a pattern that occurs only at the very end leaves what precedes it. */
  lemma {:induction false} ReplaceTrailing(u: string, pat: string)
    requires pat != []
    requires forall k :: 0 <= k < |u| ==> !StartsWith((u + pat)[k..], pat)
    ensures Replace(u + pat, pat, "") == u
    decreases |u|
  {
    var s := u + pat;
    if u == [] {
      assert s[..|pat|] == pat && s[|pat|..] == [];
    } else {
      assert !StartsWith(s[0..], pat) && s[0..] == s;
      assert s[1..] == u[1..] + pat;
      forall k | 0 <= k < |u[1..]| ensures !StartsWith((u[1..] + pat)[k..], pat) {
        assert (u[1..] + pat)[k..] == s[k + 1..];
      }
      ReplaceTrailing(u[1..], pat);
    }
  }

  /** A requested name that ends in "-latest", and has it nowhere else, loses
      exactly that suffix. */
  lemma NormalizeDropsSuffix(u: string)
    requires u == [] || !IsSpace(u[0])
    requires forall k :: 0 <= k < |u| ==> !StartsWith((u + LatestSuffix)[k..], LatestSuffix)
    ensures Normalize(u + LatestSuffix) == u
  {
    var s := u + LatestSuffix;
    assert s[0] == (if u == [] then '-' else u[0]) && s[|s| - 1] == 't';
    assert !IsSpace(s[0]) && !IsSpace(s[|s| - 1]);
    assert EndsWith(s, LatestSuffix) by {
      assert s[|s| - |LatestSuffix|..] == LatestSuffix;
    }
    ReplaceTrailing(u, LatestSuffix);
  }

  /** The default model name is requested as "gemini-1.5-pro". */
  lemma DefaultModelNormalized()
    ensures Normalize(DefaultModel) == "gemini-1.5-pro"
  {
    var u := "gemini-1.5-pro";
    var s := u + LatestSuffix;
    assert s == DefaultModel;
    forall k | 0 <= k < |u| ensures !StartsWith(s[k..], LatestSuffix) {
      assert s[k] != '-' || s[k + 1] != 'l';
      assert s[k..][0] == s[k] && s[k..][1] == s[k + 1];
    }
    NormalizeDropsSuffix(u);
  }

  /** `[m for m in xs if keep(m)]`. */
  function Filter(xs: seq<string>, keep: string -> bool): (r: seq<string>)
    ensures |r| <= |xs|
    ensures forall x :: x in r <==> x in xs && keep(x)
    decreases |xs|
  {
    if xs == [] then []
    else (if keep(xs[0]) then [xs[0]] else []) + Filter(xs[1..], keep)
  }

  /** The first element a filter keeps is the first element of the input it accepts. */
  lemma {:induction false} FilterFirst(xs: seq<string>, keep: string -> bool, k: nat)
    requires k < |xs| && keep(xs[k])
    requires forall j :: 0 <= j < k ==> !keep(xs[j])
    ensures Filter(xs, keep) != [] && Filter(xs, keep)[0] == xs[k]
    decreases k
  {
    if k > 0 {
      assert !keep(xs[0]);
      forall j | 0 <= j < k - 1 ensures !keep(xs[1..][j]) {
        assert xs[1..][j] == xs[j + 1];
      }
      FilterFirst(xs[1..], keep, k - 1);
    }
  }

  /** A filter that accepts everything keeps the list as it is. */
  lemma {:induction false} FilterKeepsAll(xs: seq<string>, keep: string -> bool)
    requires forall k :: 0 <= k < |xs| ==> keep(xs[k])
    ensures Filter(xs, keep) == xs
    decreases |xs|
  {
    if xs != [] {
      FilterKeepsAll(xs[1..], keep);
    }
  }

  predicate IsName(m: string) {
    m != ""
  }

  function InSet(avail: set<string>): string -> bool {
    m => m in avail
  }

  /** The requested (normalised) name followed by the fixed fallbacks. */
  function Preferences(requested: string): seq<string> {
    [Normalize(requested)] + PreferredModels
  }

  /** `[m for m in preferences if m] or ["gemini-2.5-flash"]`. */
  function BaseCandidates(requested: string): seq<string> {
    var named := Filter(Preferences(requested), IsName);
    if named == [] then [LastResortModel] else named
  }

  /** The candidate list before the available set is consulted: the requested
      name when it is not empty, then all five fallbacks in order. So the list is
      never empty and the last-resort list is never used. */
  lemma BaseCandidatesShape(requested: string)
    ensures BaseCandidates(requested)
            == (if Normalize(requested) == "" then [] else [Normalize(requested)]) + PreferredModels
  {
    NamedPreferences(Normalize(requested));
  }

  /** Filtering a name followed by the fallbacks drops only an empty name. */
  lemma NamedPreferences(n: string)
    ensures Filter([n] + PreferredModels, IsName) == (if n == "" then [] else [n]) + PreferredModels
  {
    var prefs := [n] + PreferredModels;
    assert prefs[0] == n && prefs[1..] == PreferredModels;
    forall k | 0 <= k < |PreferredModels| ensures IsName(PreferredModels[k]) {
    }
    FilterKeepsAll(PreferredModels, IsName);
  }

  /** `list(avail)`: the available set in some order, each name once. */
  ghost predicate ListsSet(xs: seq<string>, s: set<string>) {
    (forall x :: x in xs <==> x in s) && (forall i, j :: 0 <= i < j < |xs| ==> xs[i] != xs[j])
  }

  /** The candidates `_configure` tries, in order. `availOrder` is the order in
      which `list(avail)` happens to list the available set. */
  function ModelCandidates(requested: string, avail: set<string>, availOrder: seq<string>): (r: seq<string>)
    ensures avail == {} ==> r == BaseCandidates(requested)
  {
    var base := BaseCandidates(requested);
    if avail == {} then base
    else
      var kept := Filter(base, InSet(avail));
      if kept == [] then availOrder else kept
  }

  /** The available set is consulted only when no preference is available. */
  predicate UsesListing(requested: string, avail: set<string>) {
    avail != {} && Filter(BaseCandidates(requested), InSet(avail)) == []
  }

  /** With a non-empty available set every candidate is available and there is
      at least one candidate. */
  lemma CandidatesAreAvailable(requested: string, avail: set<string>, availOrder: seq<string>)
    requires avail != {}
    requires UsesListing(requested, avail) ==> ListsSet(availOrder, avail)
    ensures ModelCandidates(requested, avail, availOrder) != []
    ensures forall m :: m in ModelCandidates(requested, avail, availOrder) ==> m in avail
  {
    if UsesListing(requested, avail) {
      var x :| x in avail;
      assert x in availOrder;
    }
  }

  /** With a non-empty available set, the first candidate is the best-ranked
      preference that is available. */
  lemma BestAvailableFirst(requested: string, avail: set<string>, availOrder: seq<string>, k: nat)
    requires avail != {}
    requires k < |BaseCandidates(requested)| && BaseCandidates(requested)[k] in avail
    requires forall j :: 0 <= j < k ==> BaseCandidates(requested)[j] !in avail
    ensures ModelCandidates(requested, avail, availOrder) != []
            && ModelCandidates(requested, avail, availOrder)[0] == BaseCandidates(requested)[k]
  {
    var base := BaseCandidates(requested);
    forall j | 0 <= j < k ensures !InSet(avail)(base[j]) {
    }
    FilterFirst(base, InSet(avail), k);
  }

  /** The part of a model name after its last '/' (`name.split("/")[-1]`). */
  function LastSegment(name: string): (r: string)
    ensures |r| <= |name| && r == name[|name| - |r|..]
    ensures '/' !in r
    ensures |r| < |name| ==> name[|name| - |r| - 1] == '/'
    decreases |name|
  {
    if name == [] || name[|name| - 1] == '/' then []
    else LastSegment(name[..|name| - 1]) + [name[|name| - 1]]
  }

  predicate Generates(m: ModelInfo) {
    m.methods.Some? && "generateContent" in m.methods.value
  }

  /** The short names of the listed models that support `generateContent`; a
      failed listing gives the empty set. */
  function Available(listing: Result<seq<ModelInfo>, Fault>): (avail: set<string>)
    ensures listing.Failure? ==> avail == {}
    ensures forall m :: m in avail ==> '/' !in m
  {
    if listing.Failure? then {}
    else set m | m in listing.value && Generates(m) :: LastSegment(m.name.GetOr(""))
  }

  datatype Selection = Selection(chosen: Option<string>, inited: seq<ModelHandle>)

  /** Trying the candidates in order until one constructs: the first that does is
      chosen; every construction attempt is logged. */
  function SelectModel(o: Oracle, inited: seq<ModelHandle>, cands: seq<string>, instruction: string): (r: Selection)
    ensures |inited| <= |r.inited| <= |inited| + |cands|
    ensures r.chosen.None? ==> |r.inited| == |inited| + |cands|
    ensures r.chosen.Some? ==> |inited| < |r.inited| && r.chosen.value == cands[|r.inited| - |inited| - 1]
    decreases |cands|
  {
    if cands == [] then Selection(None, inited)
    else
      var h := ModelHandle(cands[0], instruction);
      if o.init(|inited|, h).None? then Selection(Some(cands[0]), inited + [h])
      else SelectModel(o, inited + [h], cands[1..], instruction)
  }

  /** The selection logs one construction per candidate tried, in order; every
      construction before the chosen one failed, and the chosen one succeeded. */
  lemma {:induction false} SelectModelLog(o: Oracle, inited: seq<ModelHandle>, cands: seq<string>, instruction: string)
    ensures var r := SelectModel(o, inited, cands, instruction);
            && r.inited[..|inited|] == inited
            && (forall j :: |inited| <= j < |r.inited| ==> r.inited[j] == ModelHandle(cands[j - |inited|], instruction))
            && (r.chosen.None? ==> forall j :: |inited| <= j < |r.inited| ==> o.init(j, r.inited[j]).Some?)
            && (r.chosen.Some? ==> o.init(|r.inited| - 1, r.inited[|r.inited| - 1]).None?)
            && (r.chosen.Some? ==> forall j :: |inited| <= j < |r.inited| - 1 ==> o.init(j, r.inited[j]).Some?)
    decreases |cands|
  {
    if cands != [] {
      var h := ModelHandle(cands[0], instruction);
      if o.init(|inited|, h).Some? {
        SelectModelLog(o, inited + [h], cands[1..], instruction);
        var r := SelectModel(o, inited + [h], cands[1..], instruction);
        assert r.inited[..|inited| + 1] == inited + [h];
        assert r.inited[..|inited|] == (r.inited[..|inited| + 1])[..|inited|];
      }
    }
  }

  /** One step of `SelectModel` over a suffix of the candidates. */
  lemma SelectModelStep(o: Oracle, inited: seq<ModelHandle>, cands: seq<string>, i: nat, instruction: string)
    requires i < |cands|
    ensures var h := ModelHandle(cands[i], instruction);
            SelectModel(o, inited, cands[i..], instruction)
            == if o.init(|inited|, h).None? then Selection(Some(cands[i]), inited + [h])
               else SelectModel(o, inited + [h], cands[i + 1..], instruction)
  {
    assert cands[i..][0] == cands[i] && cands[i..][1..] == cands[i + 1..];
  }

  /** `list(avail)`: lists a set, each element once, in an unspecified order. */
  method ListSet(s: set<string>) returns (xs: seq<string>)
    ensures ListsSet(xs, s)
  {
    xs := [];
    var rest := s;
    while rest != {}
      invariant rest <= s
      invariant forall x :: x in xs <==> x in s && x !in rest
      invariant forall i, j :: 0 <= i < j < |xs| ==> xs[i] != xs[j]
      decreases |rest|
    {
      var x :| x in rest;
      xs := xs + [x];
      rest := rest - {x};
    }
  }

  /** The candidate list of `_configure`, listing the available set only when
      no preference is available. */
  method CandidatesFor(requested: string, avail: set<string>) returns (cands: seq<string>, ghost availOrder: seq<string>)
    ensures cands == ModelCandidates(requested, avail, availOrder)
    ensures UsesListing(requested, avail) ==> ListsSet(availOrder, avail)
    ensures avail == {} ==> cands == BaseCandidates(requested)
    ensures avail != {} && !UsesListing(requested, avail) ==> cands == Filter(BaseCandidates(requested), InSet(avail))
    ensures UsesListing(requested, avail) ==> ListsSet(cands, avail)
  {
    availOrder := [];
    cands := BaseCandidates(requested);
    if avail != {} {
      cands := Filter(cands, InSet(avail));
      if cands == [] {
        cands := ListSet(avail);
        availOrder := cands;
      }
    }
  }

  // ---------------------------------------------------------------------------
  // Prompt composition (`_compose_user_prompt`)
  // ---------------------------------------------------------------------------

  const Framing := "Contexto educativo: Esta consulta es únicamente "
    + "informativa y de ejemplo teórico para agricultura. "
    + "No contiene datos personales ni requiere "
    + "instrucciones operativas. Evita nombres "
    + "comerciales o marcas; no incluyas cantidades "
    + "numéricas, calendarios ni instrucciones "
    + "paso a paso. "
    + "Responde en tono no prescriptivo (podría, "
    + "en general, como referencia) y con foco "
    + "en buenas prácticas."

  const FormatBlock := "Formato de salida: \n"
    + "- 1) Resumen educativo breve\n"
    + "- 2) Pautas generales (bullets, no prescripciones)\n"
    + "- 3) Parámetros de referencia (rangos típicos)\n"
    + "- 4) Monitoreo sugerido\n"
    + "- 5) Riesgos y mitigaciones generales\n"
    + "- 6) Datos extra útiles (si aplican)"

  const ShortDirective := "Longitud sugerida: 3–5 bullets concisos "
    + "(~150–220 palabras). "
    + "Evita pasos operativos, imperativos o detalles "
    + "numéricos."

  const MediumDirective := "Mantén la respuesta concisa (≈ 200–350 palabras) "
    + "y enfocada en bullets; evita redundancias."

  const SectionSeparator := "\n\n"

  /** The sanitiser's length limit for the question inside a prompt. */
  const PromptQuestionLimit := 800

  function Min(a: int, b: int): int {
    if a <= b then a else b
  }

  /** `req.length or "medium"`. */
  function EffectiveLength(length: Option<Length>): Length {
    length.GetOr(Medium)
  }

  function LengthDirective(l: Length): string {
    if l == Short then ShortDirective else MediumDirective
  }

  function QuestionLine(question: Option<string>, maxInputChars: int): string {
    "Pregunta: " + Sanitize.SanitizeQuestion(question, Min(PromptQuestionLimit, maxInputChars))
  }

  function CropLine(crop: string): string {
    "Cultivo: " + crop
  }

  function TemperatureLine(t: Float): string {
    "Temperatura (°C): " + t.text
  }

  /** The sections of the prompt, in order, from the four request fields that
      reach it. */
  function PromptSections(question: Option<string>, crop: Option<string>, temperature: Option<Float>,
                          length: Option<Length>, maxInputChars: int): (parts: seq<string>)
    ensures |parts| == 4 + (if Truthy(crop) then 1 else 0) + (if temperature.Some? then 1 else 0)
    ensures parts[0] == Framing
    ensures Truthy(crop) ==> parts[1] == CropLine(crop.value)
    ensures parts[if Truthy(crop) then 2 else 1] == QuestionLine(question, maxInputChars)
    ensures temperature.Some? ==> parts[|parts| - 3] == TemperatureLine(temperature.value)
    ensures parts[|parts| - 2] == FormatBlock
    ensures parts[|parts| - 1] == LengthDirective(EffectiveLength(length))
  {
    var cropLine := if Truthy(crop) then [CropLine(crop.value)] else [];
    var temperatureLine := if temperature.Some? then [TemperatureLine(temperature.value)] else [];
    var directive := LengthDirective(EffectiveLength(length));
    SectionOrder(Framing, cropLine, QuestionLine(question, maxInputChars), temperatureLine, FormatBlock, directive);
    [Framing] + cropLine + [QuestionLine(question, maxInputChars)] + temperatureLine + [FormatBlock, directive]
  }

  /** Where each section lands when the optional ones may be missing. */
  lemma SectionOrder(head: string, crop: seq<string>, question: string, temperature: seq<string>,
                     format: string, directive: string)
    requires |crop| <= 1 && |temperature| <= 1
    ensures var parts := [head] + crop + [question] + temperature + [format, directive];
            && |parts| == 4 + |crop| + |temperature|
            && parts[0] == head
            && (|crop| == 1 ==> parts[1] == crop[0])
            && parts[1 + |crop|] == question
            && (|temperature| == 1 ==> parts[|parts| - 3] == temperature[0])
            && parts[|parts| - 2] == format
            && parts[|parts| - 1] == directive
  {
  }

  /** The user prompt: the sections joined by blank lines. It opens with the
      framing, ends with the length directive and holds the sanitised question,
      the crop line when a crop is given and the temperature line when a
      temperature is given. */
  function ComposeUserPrompt(req: AskRequest, maxInputChars: int): (prompt: string)
    ensures StartsWith(prompt, Framing)
    ensures EndsWith(prompt, LengthDirective(EffectiveLength(req.length)))
    ensures Contains(prompt, QuestionLine(req.question, maxInputChars))
    ensures Truthy(req.crop) ==> Contains(prompt, CropLine(req.crop.value))
    ensures req.temperature.Some? ==> Contains(prompt, TemperatureLine(req.temperature.value))
  {
    var parts := PromptSections(req.question, req.crop, req.temperature, req.length, maxInputChars);
    JoinEndsWithLast(parts, SectionSeparator);
    JoinHasPart(parts, SectionSeparator, if Truthy(req.crop) then 2 else 1);
    JoinHasPart(parts, SectionSeparator, if Truthy(req.crop) then 1 else 0);
    JoinHasPart(parts, SectionSeparator, if req.temperature.Some? then |parts| - 3 else 0);
    Join(parts, SectionSeparator)
  }

  /** Only the question, crop, temperature and length reach the prompt: the
      measure fields (parameter, value, unit, stage) and safe mode never do. */
  lemma PromptIgnoresMeasure(a: AskRequest, b: AskRequest, maxInputChars: int)
    requires a.question == b.question && a.crop == b.crop
    requires a.temperature == b.temperature && a.length == b.length
    ensures ComposeUserPrompt(a, maxInputChars) == ComposeUserPrompt(b, maxInputChars)
  {
  }

  // ---------------------------------------------------------------------------
  // Decoding parameters and safety settings
  // ---------------------------------------------------------------------------

  /** `_build_generation_config`: short answers get a smaller, cooler
      configuration; anything else (medium or no length) the default one. */
  function BuildGenerationConfig(length: Option<Length>): (c: GenConfig)
    ensures c.topK == 40
    ensures length == Some(Short) ==> c == GenConfig(1, 7, 40, 520)
    ensures length != Some(Short) ==> c == GenConfig(2, 9, 40, 900)
  {
    if length == Some(Short) then GenConfig(1, 7, 40, 520) else GenConfig(2, 9, 40, 900)
  }

  /** A request without a length is treated as a medium one. */
  lemma DefaultLengthIsMedium(length: Option<Length>)
    requires length.None?
    ensures BuildGenerationConfig(Some(EffectiveLength(length))) == BuildGenerationConfig(length)
    ensures LengthDirective(EffectiveLength(length)) == MediumDirective
  {
  }

  const BlockOnlyHigh := "BLOCK_ONLY_HIGH"

  /** `_safety_settings`: four harm categories, each blocked only at high likelihood. */
  function SafetySettings(): (r: seq<SafetySetting>)
    ensures |r| == 4
    ensures forall k :: 0 <= k < |r| ==> r[k].threshold == BlockOnlyHigh
    ensures forall i, j :: 0 <= i < j < |r| ==> r[i].category != r[j].category
  {
    [SafetySetting("HARM_CATEGORY_DANGEROUS_CONTENT", BlockOnlyHigh),
     SafetySetting("HARM_CATEGORY_HARASSMENT", BlockOnlyHigh),
     SafetySetting("HARM_CATEGORY_HATE_SPEECH", BlockOnlyHigh),
     SafetySetting("HARM_CATEGORY_SEXUALLY_EXPLICIT", BlockOnlyHigh)]
  }

  // ---------------------------------------------------------------------------
  // One call of `_call_gemini`: the state it reads and writes
  // ---------------------------------------------------------------------------

  /** What an attempt reads and changes: the model handle (whose name is also
      `settings.gemini_model`) and the SDK's logs. */
  datatype Session = Session(model: ModelHandle, generated: seq<GenCall>, inited: seq<ModelHandle>)

  /** A value together with the session after producing it. */
  datatype Step<T> = Step(value: T, after: Session)

  /** One `generate_content` request on the session's model. */
  function Issue(o: Oracle, s: Session, call: GenCall): Step<Result<Response, Fault>> {
    Step(o.generate(|s.generated|, call), s.(generated := s.generated + [call]))
  }

  const FallbackModel := "gemini-1.5-flash"

  /** A failure that reads as "this model is not available". */
  predicate IsAvailabilityError(f: Fault) {
    var m := Lower(f.message);
    Contains(m, "404") || Contains(m, "not found") || Contains(m, "unsupported")
  }

  /** The availability test ignores case: a message containing "404", "not
      found" or "unsupported" in any mix of capitals reads as unavailable. */
  lemma AvailabilityErrorIgnoresCase(f: Fault, t: string)
    requires Contains(f.message, t)
    requires Lower(t) == "404" || Lower(t) == "not found" || Lower(t) == "unsupported"
    ensures IsAvailabilityError(f)
  {
    LowerKeepsContains(f.message, t);
  }

  function PrimaryCallOf(model: ModelHandle, prompt: string, config: GenConfig): GenCall {
    GenCall(model, Composed(prompt), config, SafetySettings())
  }

  /** The first request of an attempt, with the one-time switch to the fallback
      model when the model is reported unavailable. */
  function PrimaryCall(o: Oracle, s: Session, prompt: string, config: GenConfig): (st: Step<Result<Response, Fault>>)
    ensures |s.inited| <= |st.after.inited| <= |s.inited| + 1
    ensures |s.generated| + 1 <= |st.after.generated| <= |s.generated| + 1 + (|st.after.inited| - |s.inited|)
  {
    var first := Issue(o, s, PrimaryCallOf(s.model, prompt, config));
    if first.value.Success? || !IsAvailabilityError(first.value.error) then first
    else
      var fallback := ModelHandle(FallbackModel, s.model.instruction);
      var s1 := first.after.(inited := first.after.inited + [fallback]);
      var initFault := o.init(|first.after.inited|, fallback);
      if initFault.Some? then Step(Failure(initFault.value), s1)
      else Issue(o, s1.(model := fallback), PrimaryCallOf(fallback, prompt, config))
  }

  /** The call-failure policy. A success, or a failure that is not about
      availability, is returned as it is after one request. An availability
      failure builds the fallback model exactly once: if that fails, its error is
      raised; otherwise the model (and so `settings.gemini_model`) becomes the
      fallback and the answer of one more request on it is returned. */
  lemma CallFailurePolicy(o: Oracle, s: Session, prompt: string, config: GenConfig)
    ensures
      var call := PrimaryCallOf(s.model, prompt, config);
      var first := o.generate(|s.generated|, call);
      var st := PrimaryCall(o, s, prompt, config);
      (first.Success? || !IsAvailabilityError(first.error)) ==>
        st == Step(first, s.(generated := s.generated + [call]))
    ensures
      var call := PrimaryCallOf(s.model, prompt, config);
      var first := o.generate(|s.generated|, call);
      var fallback := ModelHandle(FallbackModel, s.model.instruction);
      var st := PrimaryCall(o, s, prompt, config);
      (first.Failure? && IsAvailabilityError(first.error)) ==>
        && st.after.inited == s.inited + [fallback]
        && (o.init(|s.inited|, fallback).Some? ==>
              st == Step(Failure(o.init(|s.inited|, fallback).value), s.(generated := s.generated + [call], inited := s.inited + [fallback])))
        && (o.init(|s.inited|, fallback).None? ==>
              && st.after.model == fallback
              && st.after.generated == s.generated + [call, PrimaryCallOf(fallback, prompt, config)]
              && st.value == o.generate(|s.generated| + 1, PrimaryCallOf(fallback, prompt, config)))
  {
  }

  // ---------------------------------------------------------------------------
  // Answer extraction
  // ---------------------------------------------------------------------------

  const BlockedMessage := "La respuesta " + BlockedMarker + " por las políticas "
    + "de seguridad del modelo. "
    + "Intenta reformular la pregunta con términos "
    + "neutros y sin información sensible."

  /** The text a part contributes: its non-empty `text`, or itself when it is a
      non-empty string. */
  function PartText(p: Part): Option<string> {
    match p
    case Part(t) => if t.Some? && t.value != "" then t else None
    case Str(x) => if x != "" then Some(x) else None
  }

  /** The texts of the parts that have one, in order. */
  function Texts(parts: seq<Part>): (ts: seq<string>)
    ensures |ts| <= |parts|
    ensures forall k :: 0 <= k < |ts| ==> ts[k] != ""
    decreases |parts|
  {
    if parts == [] then []
    else
      var t := PartText(parts[|parts| - 1]);
      Texts(parts[..|parts| - 1]) + (if t.Some? then [t.value] else [])
  }

  /** No text is collected exactly when no part has text. */
  lemma {:induction false} TextsEmpty(parts: seq<Part>)
    ensures Texts(parts) == [] <==> forall k :: 0 <= k < |parts| ==> PartText(parts[k]).None?
    decreases |parts|
  {
    if parts != [] {
      var init := parts[..|parts| - 1];
      TextsEmpty(init);
      assert forall k :: 0 <= k < |init| ==> init[k] == parts[k];
    }
  }

  /** Collects the texts of the parts, appending one at a time. */
  method CollectTexts(parts: seq<Part>) returns (texts: seq<string>)
    ensures texts == Texts(parts)
  {
    texts := [];
    var i := 0;
    while i < |parts|
      invariant 0 <= i <= |parts|
      invariant texts == Texts(parts[..i])
    {
      var t := PartText(parts[i]);
      if t.Some? {
        texts := texts + [t.value];
      }
      assert parts[..i + 1][..i] == parts[..i];
      i := i + 1;
    }
    assert parts[..|parts|] == parts;
  }

  /** The first candidate, if the response can be read and has one. */
  function FirstCandidate(r: Response): Option<Candidate> {
    if r.malformed then None
    else
      var cs := r.candidates.GetOr([]);
      if cs == [] then None else Some(cs[0])
  }

  /** The "\n"-join of the first candidate's texts ("" when there is none). */
  function ReplyText(r: Response): string {
    var c := FirstCandidate(r);
    if c.None? then "" else Join(Texts(c.value.parts.GetOr([])), "\n")
  }

  /** The reply text is empty exactly when there is no readable first candidate
      or none of its parts has text. */
  lemma ReplyTextEmpty(r: Response)
    ensures ReplyText(r) == "" <==>
              FirstCandidate(r).None?
              || (var parts := FirstCandidate(r).value.parts.GetOr([]);
                  forall k :: 0 <= k < |parts| ==> PartText(parts[k]).None?)
  {
    var c := FirstCandidate(r);
    if c.Some? {
      var parts := c.value.parts.GetOr([]);
      TextsEmpty(parts);
      JoinEmpty(Texts(parts), "\n");
    }
  }

  /** The reply text holds the text of every part of the first candidate. */
  lemma ReplyTextHasParts(r: Response, k: nat)
    requires FirstCandidate(r).Some? && k < |Texts(FirstCandidate(r).value.parts.GetOr([]))|
    ensures Contains(ReplyText(r), Texts(FirstCandidate(r).value.parts.GetOr([]))[k])
  {
    JoinHasPart(Texts(FirstCandidate(r).value.parts.GetOr([])), "\n", k);
  }

  /** The answer of the first request and its finish reason. */
  datatype Extracted = Extracted(answer: string, finish: Option<int>)

  /** A finish reason outside {None, 0}. */
  predicate Abnormal(finish: Option<int>) {
    finish.Some? && finish.value != 0
  }

  /** Extraction from the first response: the reply text, or the block message
      when that is empty and the finish reason is abnormal. An unreadable
      response gives "" and no finish reason. */
  function Extract(r: Response): (e: Extracted)
    ensures ReplyText(r) != "" ==> e.answer == ReplyText(r)
    ensures ReplyText(r) == "" && Abnormal(e.finish) ==> e.answer == BlockedMessage
    ensures ReplyText(r) == "" && !Abnormal(e.finish) ==> e.answer == ""
    ensures FirstCandidate(r).None? ==> e == Extracted("", None)
    ensures FirstCandidate(r).Some? ==> e.finish == FirstCandidate(r).value.finishReason
  {
    var c := FirstCandidate(r);
    if c.None? then Extracted("", None)
    else
      var text := ReplyText(r);
      var finish := c.value.finishReason;
      Extracted(if text == "" && Abnormal(finish) then BlockedMessage else text, finish)
  }

  /** Reads the reply text of a response, collecting the texts of its first candidate. */
  method ReadReply(r: Response) returns (text: string)
    ensures text == ReplyText(r)
  {
    text := "";
    if r.malformed {
      return;
    }
    var cs := r.candidates.GetOr([]);
    if cs == [] {
      return;
    }
    var texts := CollectTexts(cs[0].parts.GetOr([]));
    text := Join(texts, "\n");
  }

  /** Extraction from the first response of an attempt. */
  method ReadFirstReply(r: Response) returns (e: Extracted)
    ensures e == Extract(r)
  {
    var c := FirstCandidate(r);
    if c.None? {
      return Extracted("", None);
    }
    var text := ReadReply(r);
    var finish := c.value.finishReason;
    if text == "" && Abnormal(finish) {
      text := BlockedMessage;
    }
    e := Extracted(text, finish);
  }

  // ---------------------------------------------------------------------------
  // Escalation
  // ---------------------------------------------------------------------------

  const BlockedMarker := "fue bloqueada"

  const Reframe1Suffix := "\n\nReformulación: Proporciona únicamente "
    + "un resumen educativo general de alto nivel. "
    + "Evita pasos operativos, cantidades, dosis, "
    + "calendarios o imperativos. "
    + "No incluyas productos, marcas ni instrucciones "
    + "de ‘cómo hacer’. "
    + "En su lugar, resume factores a considerar, "
    + "buenas prácticas generales y señales de "
    + "monitoreo, usando lenguaje condicional. "
    + "No apliques límites de longitud estrictos; "
    + "prioriza neutralidad y claridad (≈150–300 "
    + "palabras en bullets)."

  const Reframe2Prompt := "Finalidad educativa: Ofrece un panorama "
    + "general sobre manejo del agua en cultivos "
    + "en términos amplios y neutros. "
    + "Evita pasos operativos, cantidades, dosis, "
    + "calendarios, marcas o productos. "
    + "Usa bullets y lenguaje condicional para "
    + "describir factores a considerar (clima, "
    + "suelo, fenología, monitoreo), sin recomendaciones "
    + "prescriptivas."

  const Reframe3Suffix := "\n\nAjuste de formato: Responde de forma "
    + "concisa (≈ 200–300 palabras) en bullets "
    + "educativos. "
    + "Evita pasos, cantidades numéricas, calendarios, "
    + "marcas o productos. Usa lenguaje condicional."

  /** The exact text a request's contents stand for. */
  function PromptText(p: Prompt): string {
    match p
    case Composed(text) => text
    case Reframed(base) => base + Reframe1Suffix
    case GenericWater => Reframe2Prompt
    case FormatAdjusted(base) => base + Reframe3Suffix
  }

  /** When the first reframe runs (given that reframing is allowed). */
  predicate NeedsReframe(e: Extracted) {
    e.answer == "" || Contains(Lower(e.answer), BlockedMarker) || Abnormal(e.finish)
  }

  /** The block message itself asks for a reframe: it contains the marker. */
  lemma BlockedMessageNeedsReframe(finish: Option<int>)
    ensures NeedsReframe(Extracted(BlockedMessage, finish))
  {
    var m := BlockedMessage;
    MarkerInBlockedMessage();
    LowerSlice(m, 13, 26);
    MarkerIsLower();
    ContainsAt(Lower(m), BlockedMarker, 13);
  }

  lemma MarkerInBlockedMessage()
    ensures |BlockedMessage| >= 26 && BlockedMessage[13..26] == BlockedMarker
  {
    var lead := "La respuesta " + BlockedMarker;
    assert BlockedMessage[..26] == lead;
    assert lead[13..26] == BlockedMarker;
  }

  lemma MarkerIsLower()
    ensures Lower(BlockedMarker) == BlockedMarker
  {
  }

  /** Reframe 1: the prompt with an educational rewording, cooler decoding. */
  function Reframe1Call(model: ModelHandle, prompt: string, config: GenConfig): GenCall {
    GenCall(model, Reframed(prompt), config.(temperature := 1, topP := 7), SafetySettings())
  }

  /** Reframe 2: a fixed generic prompt that no longer carries the question. */
  function Reframe2Call(model: ModelHandle, config: GenConfig): GenCall {
    GenCall(model, GenericWater, config.(temperature := 1, topP := 6), SafetySettings())
  }

  /** Reframe 3: the prompt with a format adjustment, medium decoding. */
  function Reframe3Call(model: ModelHandle, prompt: string): GenCall {
    GenCall(model, FormatAdjusted(prompt), BuildGenerationConfig(Some(Medium)), SafetySettings())
  }

  /** The text a reframe request yields; a failed request yields "". */
  function StageText(r: Result<Response, Fault>): string {
    if r.Success? then ReplyText(r.value) else ""
  }

  function Stage(o: Oracle, s: Session, call: GenCall): Step<string> {
    var i := Issue(o, s, call);
    Step(StageText(i.value), i.after)
  }

  /** A stage's text replaces the answer only when it is not empty. */
  function Keep(answer: string, text: string): string {
    if text != "" then text else answer
  }

  /** The escalation after the first response. */
  function Escalate(o: Oracle, s: Session, prompt: string, config: GenConfig, length: Option<Length>,
                    e: Extracted, allowReframe: bool): (st: Step<string>)
    ensures st.after.model == s.model && st.after.inited == s.inited
    ensures |s.generated| <= |st.after.generated| <= |s.generated| + 3
    ensures st.after.generated[..|s.generated|] == s.generated
    ensures !allowReframe ==> st == Step(e.answer, s)
    ensures st.value == e.answer || st.value != ""
    ensures e.answer != "" ==> st.value != "" && |st.after.generated| <= |s.generated| + 1
    ensures length != Some(Short) ==> |st.after.generated| <= |s.generated| + 2
  {
    if !(allowReframe && NeedsReframe(e)) then Step(e.answer, s)
    else
      var st1 := Stage(o, s, Reframe1Call(s.model, prompt, config));
      LaterStages(o, st1.after, prompt, config, length, Keep(e.answer, st1.value), 2)
  }

  /** The request of reframe stage 2 or 3. */
  function LaterCall(model: ModelHandle, prompt: string, config: GenConfig, k: nat): GenCall {
    if k == 2 then Reframe2Call(model, config) else Reframe3Call(model, prompt)
  }

  /** Reframe stages `k` (2 or 3) onwards: each runs only while the answer is
      still empty, and stage 3 only for a short answer. */
  function LaterStages(o: Oracle, s: Session, prompt: string, config: GenConfig, length: Option<Length>,
                       answer: string, k: nat): (st: Step<string>)
    requires 2 <= k <= 4
    ensures st.after.model == s.model && st.after.inited == s.inited
    ensures |s.generated| <= |st.after.generated| <= |s.generated| + (4 - k)
    ensures st.after.generated[..|s.generated|] == s.generated
    ensures answer != "" ==> st == Step(answer, s)
    ensures st.value == answer || st.value != ""
    ensures length != Some(Short) ==> |st.after.generated| <= |s.generated| + (if k == 2 then 1 else 0)
    decreases 4 - k
  {
    if k == 4 || answer != "" || (k == 3 && length != Some(Short)) then Step(answer, s)
    else
      var st := Stage(o, s, LaterCall(s.model, prompt, config, k));
      LaterStages(o, st.after, prompt, config, length, Keep(answer, st.value), k + 1)
  }

  /** The requests the escalation adds to the log. */
  function NewCalls(s: Session, st: Step<string>): seq<GenCall>
    requires |s.generated| <= |st.after.generated|
  {
    st.after.generated[|s.generated|..]
  }

  /** Which reframe stages run: the first exactly when reframing is allowed and
      the answer is empty, blocked or abnormally finished; the second exactly when
      in addition the answer and the first stage's text are empty; the third
      exactly when in addition the second stage's text is empty and the length is
      short. */
  lemma EscalationStages(o: Oracle, s: Session, prompt: string, config: GenConfig, length: Option<Length>,
                         e: Extracted, allowReframe: bool)
    ensures
      var st := Escalate(o, s, prompt, config, length, e, allowReframe);
      var calls := NewCalls(s, st);
      var t1 := StageText(o.generate(|s.generated|, Reframe1Call(s.model, prompt, config)));
      var t2 := StageText(o.generate(|s.generated| + 1, Reframe2Call(s.model, config)));
      && (|calls| >= 1 <==> allowReframe && NeedsReframe(e))
      && (|calls| >= 1 ==> calls[0] == Reframe1Call(s.model, prompt, config))
      && (|calls| >= 2 <==> allowReframe && e.answer == "" && t1 == "")
      && (|calls| >= 2 ==> calls[1] == Reframe2Call(s.model, config))
      && (|calls| == 3 <==> allowReframe && e.answer == "" && t1 == "" && t2 == "" && length == Some(Short))
      && (|calls| == 3 ==> calls[2] == Reframe3Call(s.model, prompt))
  {
  }

  /** Which text the escalation settles on: the first response's text when no
      reframe runs; otherwise the latest stage text that is not empty, and the
      first response's text (possibly empty) when every stage that ran came back
      empty. */
  lemma EscalationAnswer(o: Oracle, s: Session, prompt: string, config: GenConfig, length: Option<Length>,
                         e: Extracted, allowReframe: bool)
    ensures
      var st := Escalate(o, s, prompt, config, length, e, allowReframe);
      var t1 := StageText(o.generate(|s.generated|, Reframe1Call(s.model, prompt, config)));
      var t2 := StageText(o.generate(|s.generated| + 1, Reframe2Call(s.model, config)));
      var t3 := StageText(o.generate(|s.generated| + 2, Reframe3Call(s.model, prompt)));
      var reframed := allowReframe && NeedsReframe(e);
      && (!reframed ==> st.value == e.answer)
      && (reframed && t1 != "" ==> st.value == t1)
      && (reframed && t1 == "" && e.answer != "" ==> st.value == e.answer)
      && (allowReframe && e.answer == "" && t1 == "" && t2 != "" ==> st.value == t2)
      && (allowReframe && e.answer == "" && t1 == "" && t2 == "" && length == Some(Short) ==> st.value == t3)
      && (allowReframe && e.answer == "" && t1 == "" && t2 == "" && length != Some(Short) ==> st.value == "")
  {
  }

  /** Once the block message has been substituted, reframes 2 and 3 never run
      and the answer stays non-empty. */
  lemma PlaceholderStopsEscalation(o: Oracle, s: Session, prompt: string, config: GenConfig,
                                   length: Option<Length>, finish: Option<int>, allowReframe: bool)
    ensures
      var st := Escalate(o, s, prompt, config, length, Extracted(BlockedMessage, finish), allowReframe);
      st.value != "" && |st.after.generated| <= |s.generated| + 1
  {
  }

  // ---------------------------------------------------------------------------
  // One attempt and the retried call
  // ---------------------------------------------------------------------------

  /** Text with no whitespace at either end. */
  predicate Stripped(t: string) {
    t == [] || (!IsSpace(t[0]) && !IsSpace(t[|t| - 1]))
  }

  /** One run of `_call_gemini`. */
  function Attempt(o: Oracle, s: Session, prompt: string, allowReframe: bool, length: Option<Length>)
    : (st: Step<Result<AskResponse, Fault>>)
    ensures |s.inited| <= |st.after.inited| <= |s.inited| + 1
    ensures |s.generated| + 1 <= |st.after.generated| <= |s.generated| + 4 + (|st.after.inited| - |s.inited|)
    ensures !allowReframe ==> |st.after.generated| <= |s.generated| + 1 + (|st.after.inited| - |s.inited|)
    ensures st.value.Success? ==> st.value.value.model == st.after.model.name && st.value.value.tips.None?
    ensures st.value.Success? ==> Stripped(st.value.value.answer)
  {
    var config := BuildGenerationConfig(length);
    var p := PrimaryCall(o, s, prompt, config);
    if p.value.Failure? then Step(Failure(p.value.error), p.after)
    else
      var e := Extract(p.value.value);
      var esc := Escalate(o, p.after, prompt, config, length, e, allowReframe);
      Step(Success(AskResponse(Strip(esc.value), esc.after.model.name, p.value.value.usage, None)), esc.after)
  }

  /** An answer comes with the usage of the first response, even when a
      reframe's text replaced that response's text. */
  lemma UsageFromFirstResponse(o: Oracle, s: Session, prompt: string, allowReframe: bool, length: Option<Length>)
    ensures
      var st := Attempt(o, s, prompt, allowReframe, length);
      var p := PrimaryCall(o, s, prompt, BuildGenerationConfig(length));
      st.value.Success? <==> p.value.Success?
    ensures
      var st := Attempt(o, s, prompt, allowReframe, length);
      var p := PrimaryCall(o, s, prompt, BuildGenerationConfig(length));
      st.value.Success? ==> st.value.value.usage == p.value.value.usage
  {
  }

  /** A successful attempt answers with the escalation's text, stripped; the
      escalation starts from the first response's extracted text. */
  lemma AttemptAnswer(o: Oracle, s: Session, prompt: string, allowReframe: bool, length: Option<Length>)
    ensures
      var st := Attempt(o, s, prompt, allowReframe, length);
      var config := BuildGenerationConfig(length);
      var p := PrimaryCall(o, s, prompt, config);
      st.value.Success? ==>
        p.value.Success?
        && st.value.value.answer == Strip(Escalate(o, p.after, prompt, config, length, Extract(p.value.value), allowReframe).value)
  {
  }

  const MaxAttempts := 3

  /** The outcome of the retried call and how many attempts it took. */
  datatype Retried = Retried(outcome: Result<AskResponse, Fault>, after: Session, attempts: nat)

  /** The retry policy: an attempt is repeated after a failure while attempts
      remain; the first success, or the last failure, is the outcome. */
  function RetryFrom(o: Oracle, s: Session, prompt: string, allowReframe: bool, length: Option<Length>, left: nat)
    : (r: Retried)
    requires left >= 1
    ensures 1 <= r.attempts <= left
    ensures r.outcome.Failure? ==> r.attempts == left
    ensures |s.generated| + r.attempts <= |r.after.generated|
    ensures |r.after.generated| <= |s.generated| + 5 * r.attempts
    decreases left
  {
    var a := Attempt(o, s, prompt, allowReframe, length);
    if a.value.Success? || left == 1 then Retried(a.value, a.after, 1)
    else
      var rest := RetryFrom(o, a.after, prompt, allowReframe, length, left - 1);
      rest.(attempts := rest.attempts + 1)
  }

  /** A successful first attempt is the outcome, without retries. */
  lemma FirstSuccessIsFinal(o: Oracle, s: Session, prompt: string, allowReframe: bool, length: Option<Length>, left: nat)
    requires left >= 1
    requires Attempt(o, s, prompt, allowReframe, length).value.Success?
    ensures RetryFrom(o, s, prompt, allowReframe, length, left)
            == Retried(Attempt(o, s, prompt, allowReframe, length).value, Attempt(o, s, prompt, allowReframe, length).after, 1)
  {
  }

  // ---------------------------------------------------------------------------
  // Mock answers and `ask`
  // ---------------------------------------------------------------------------

  const MockMarker := "[MODO DEMO]"
  const MockLead := " Recomendación preliminar para agricultura "
    + "basada en la información disponible. "
    + "Agrega tu GEMINI_API_KEY en .env para respuestas "
    + "reales.\n\n"
  const MockNextStep := "Siguiente paso: proporciona datos de suelo "
    + "y clima para ajustar dosis y calendario."
  const MockTips: seq<string> := [
    "Incluye datos de suelo (pH, CE, % humedad) y clima (ET0, precipitación).",
    "Especifica el estado fenológico del cultivo para recomendaciones más precisas."
  ]
  const MockPreviewLength := 180

  const TooLongMessage := "La pregunta es demasiado larga. Reduce el "
    + "tamaño del texto."
  const NoLengthMessage := "object of type 'NoneType' has no len()"

  /** The summary line of a demo answer: the first 180 characters and "...". */
  function MockSummary(question: string): string {
    "Resumen: " + PyPrefix(question, MockPreviewLength) + "..."
  }

  /** The demo answer opens with the demo marker and carries the question's first
      180 characters followed by "...". */
  function MockAnswer(question: string): (a: string)
    ensures StartsWith(a, MockMarker)
    ensures Contains(a, MockSummary(question))
  {
    var summary, tail := MockSummary(question), "\n\n" + MockNextStep;
    MarkedContains(MockMarker, MockLead, summary, tail);
    MockMarker + MockLead + summary + tail
  }

  /** A text built as marker, lead, body and tail opens with the marker and contains the body. */
  lemma MarkedContains(marker: string, lead: string, body: string, tail: string)
    ensures StartsWith(marker + lead + body + tail, marker)
    ensures Contains(marker + lead + body + tail, body)
  {
    var t := marker + lead + body + tail;
    assert t[..|marker|] == marker;
    assert t == (marker + lead) + (body + tail);
    assert StartsWith(body + tail, body);
    ContainsExtend(marker + lead, body + tail, body);
  }

  /** The demo response: the demo answer, exactly two tips and no usage. */
  function MockResponse(question: string, model: string): (r: AskResponse)
    ensures r.usage.None? && r.tips.Some? && |r.tips.value| == 2 && r.model == model
    ensures StartsWith(r.answer, MockMarker) && Contains(r.answer, MockSummary(question))
  {
    AskResponse(MockAnswer(question), model, None, Some(MockTips))
  }

  /** The session the retried call of `ask` starts from when `_configure` has
      just run: the models were listed (in the order `availOrder`), the
      candidates `cands` were formed from the `requested` name, and the first
      candidate that constructed, built with the system prompt `instruction`, is
      the model; the construction log is the one that selection leaves. */
  ghost predicate StartsFromSelection(o: Oracle, requested: string, inited: seq<ModelHandle>, instruction: string,
                                      start: Session, cands: seq<string>, availOrder: seq<string>)
  {
    && start.model.instruction == instruction
    && cands == ModelCandidates(requested, Available(o.listModels), availOrder)
    && (UsesListing(requested, Available(o.listModels)) ==> ListsSet(availOrder, Available(o.listModels)))
    && start.inited == SelectModel(o, inited, cands, instruction).inited
    && Some(start.model.name) == SelectModel(o, inited, cands, instruction).chosen
  }

  /** `_configure`, run on an unconfigured client outside mock mode, falls back
      to mock mode exactly when there is no API key, when configuring the SDK
      fails, or when no candidate constructs. `availOrder` is the order in which
      `list(avail)` listed the available set. */
  ghost predicate ConfigureFallsBack(o: Oracle, apiKey: Option<string>, requested: string, inited: seq<ModelHandle>,
                                     instruction: string, availOrder: seq<string>)
  {
    || !Truthy(apiKey)
    || o.configureFault.Some?
    || SelectModel(o, inited, ModelCandidates(requested, Available(o.listModels), availOrder), instruction).chosen.None?
  }

  /** The construction log that such a `_configure` leaves: untouched when it
      stops before listing the models, otherwise that of the candidate loop. */
  ghost function ConfigureLog(o: Oracle, apiKey: Option<string>, requested: string, inited: seq<ModelHandle>,
                              instruction: string, availOrder: seq<string>): seq<ModelHandle>
  {
    if !Truthy(apiKey) || o.configureFault.Some? then inited
    else SelectModel(o, inited, ModelCandidates(requested, Available(o.listModels), availOrder), instruction).inited
  }

  // ---------------------------------------------------------------------------
  // The client
  // ---------------------------------------------------------------------------

  class GeminiClient {
    const settings: Settings
    const backend: Backend
    /** The system prompt every model is built with (the prompt file's text). */
    const promptText: string
    /** `_model`, identified by the handle it was built from. */
    var model: Option<ModelHandle>
    /** `_configured`. */
    var configured: bool

    /** Configured exactly when a model is held; that model carries the system
        prompt and is the one `settings.gemini_model` names. */
    ghost predicate Valid()
      reads this, settings
    {
      && (configured <==> model.Some?)
      && (model.Some? ==> model.value.name == settings.geminiModel && model.value.instruction == promptText)
    }

    /** The session state an attempt works on. */
    function SessionOf(): Session
      reads this, backend
      requires model.Some?
    {
      Session(model.value, backend.generated, backend.inited)
    }

    constructor (settings: Settings, backend: Backend, promptText: string)
      ensures this.settings == settings && this.backend == backend && this.promptText == promptText
      ensures model.None? && !configured && Valid()
    {
      this.settings := settings;
      this.backend := backend;
      this.promptText := promptText;
      model := None;
      configured := false;
    }

    /** `_configure`. A configured client does nothing. Without an API key
        outside mock mode, mock mode is switched on and nothing else happens. A
        failed SDK configuration, or no candidate that constructs, also switches
        mock mode on and leaves the client unconfigured. Otherwise the first
        candidate that constructs becomes the model and `settings.gemini_model`.
        The ghost results expose the candidate list and the order `list(avail)`
        gave. */
    method Configure() returns (ghost cands: seq<string>, ghost availOrder: seq<string>)
      requires Valid()
      modifies this, settings, backend
      ensures Valid()
      ensures old(configured) ==> unchanged(this, settings, backend)
      ensures !configured ==> settings.mockMode
      ensures old(settings.mockMode) ==> settings.mockMode
      ensures settings.mockMode != old(settings.mockMode) ==> !configured
      ensures backend.generated == old(backend.generated)
      ensures !old(configured) && !old(settings.mockMode) && !Truthy(settings.apiKey) ==>
                settings.mockMode && !configured && unchanged(backend) && settings.geminiModel == old(settings.geminiModel)
      ensures !old(configured) && (old(settings.mockMode) || Truthy(settings.apiKey)) && backend.oracle.configureFault.Some? ==>
                settings.mockMode && !configured && backend.inited == old(backend.inited)
                && settings.geminiModel == old(settings.geminiModel)
      ensures !old(configured) && (old(settings.mockMode) || Truthy(settings.apiKey)) && backend.oracle.configureFault.None? ==>
                && cands == ModelCandidates(old(settings.geminiModel), Available(backend.oracle.listModels), availOrder)
                && (UsesListing(old(settings.geminiModel), Available(backend.oracle.listModels)) ==>
                      ListsSet(availOrder, Available(backend.oracle.listModels)))
                && backend.inited == SelectModel(backend.oracle, old(backend.inited), cands, promptText).inited
                && (configured <==> SelectModel(backend.oracle, old(backend.inited), cands, promptText).chosen.Some?)
                && (configured ==> Some(settings.geminiModel) == SelectModel(backend.oracle, old(backend.inited), cands, promptText).chosen)
                && (!configured ==> settings.geminiModel == old(settings.geminiModel))
    {
      cands, availOrder := [], [];
      if configured {
        return;
      }
      if !settings.mockMode && !Truthy(settings.apiKey) {
        settings.mockMode := true;
        return;
      }
      var fault := backend.Configure(settings.apiKey);
      if fault.Some? {
        settings.mockMode := true;
        return;
      }
      var listing := backend.ListModels();
      var c;
      c, availOrder := CandidatesFor(settings.geminiModel, Available(listing));
      cands := c;
      TryCandidates(c);
      if model.None? {
        settings.mockMode := true;
        return;
      }
      configured := true;
    }

    /** The loop over the candidates: the first that constructs becomes the
        model and `settings.gemini_model`; if none does, neither changes. */
    method TryCandidates(candidates: seq<string>)
      requires Valid() && !configured
      modifies this`model, settings`geminiModel, backend`inited
      ensures model.None? <==> SelectModel(backend.oracle, old(backend.inited), candidates, promptText).chosen.None?
      ensures backend.inited == SelectModel(backend.oracle, old(backend.inited), candidates, promptText).inited
      ensures model.None? ==> settings.geminiModel == old(settings.geminiModel)
      ensures model.Some? ==> model.value == ModelHandle(settings.geminiModel, promptText)
                              && Some(settings.geminiModel) == SelectModel(backend.oracle, old(backend.inited), candidates, promptText).chosen
    {
      ghost var whole := SelectModel(backend.oracle, backend.inited, candidates, promptText);
      var i := 0;
      while i < |candidates| && model.None?
        invariant 0 <= i <= |candidates|
        invariant model.None? ==> settings.geminiModel == old(settings.geminiModel)
        invariant model.None? ==> whole == SelectModel(backend.oracle, backend.inited, candidates[i..], promptText)
        invariant model.Some? ==> model.value == ModelHandle(settings.geminiModel, promptText)
                                  && whole == Selection(Some(settings.geminiModel), backend.inited)
      {
        var h := ModelHandle(candidates[i], promptText);
        SelectModelStep(backend.oracle, backend.inited, candidates, i, promptText);
        var f := backend.NewModel(h);
        if f.None? {
          model := Some(h);
          settings.geminiModel := candidates[i];
        }
        i := i + 1;
      }
    }

    /** The first request of an attempt, with the fallback switch. */
    method Primary(prompt: string, config: GenConfig) returns (r: Result<Response, Fault>)
      requires Valid() && configured
      modifies this`model, settings`geminiModel, backend`generated, backend`inited
      ensures Valid() && configured
      ensures r == PrimaryCall(backend.oracle, old(SessionOf()), prompt, config).value
      ensures SessionOf() == PrimaryCall(backend.oracle, old(SessionOf()), prompt, config).after
    {
      r := backend.Generate(PrimaryCallOf(model.value, prompt, config));
      if r.Failure? && IsAvailabilityError(r.error) {
        var fallback := ModelHandle(FallbackModel, promptText);
        var fault := backend.NewModel(fallback);
        if fault.Some? {
          r := Failure(fault.value);
          return;
        }
        model := Some(fallback);
        settings.geminiModel := FallbackModel;
        r := backend.Generate(PrimaryCallOf(fallback, prompt, config));
      }
    }

    /** One reframe request; a failure yields "". */
    method RunStage(call: GenCall) returns (text: string)
      modifies backend`generated
      ensures text == StageText(backend.oracle.generate(|old(backend.generated)|, call))
      ensures backend.generated == old(backend.generated) + [call]
    {
      var r := backend.Generate(call);
      text := "";
      if r.Success? {
        text := ReadReply(r.value);
      }
    }

    /** The escalation after the first response. */
    method RunEscalation(prompt: string, config: GenConfig, length: Option<Length>, e: Extracted, allowReframe: bool)
      returns (answer: string)
      requires Valid() && configured
      modifies backend`generated
      ensures answer == Escalate(backend.oracle, old(SessionOf()), prompt, config, length, e, allowReframe).value
      ensures SessionOf() == Escalate(backend.oracle, old(SessionOf()), prompt, config, length, e, allowReframe).after
    {
      answer := e.answer;
      if allowReframe && NeedsReframe(e) {
        var m := model.value;
        var t1 := RunStage(Reframe1Call(m, prompt, config));
        if t1 != "" {
          answer := t1;
        }
        if answer == "" {
          var t2 := RunStage(Reframe2Call(m, config));
          if t2 != "" {
            answer := t2;
          }
        }
        if answer == "" && length == Some(Short) {
          var t3 := RunStage(Reframe3Call(m, prompt));
          if t3 != "" {
            answer := t3;
          }
        }
      }
    }

    /** One run of `_call_gemini`. */
    method CallOnce(prompt: string, allowReframe: bool, length: Option<Length>) returns (r: Result<AskResponse, Fault>)
      requires Valid() && configured
      modifies this`model, settings`geminiModel, backend`generated, backend`inited
      ensures Valid() && configured
      ensures r == Attempt(backend.oracle, old(SessionOf()), prompt, allowReframe, length).value
      ensures SessionOf() == Attempt(backend.oracle, old(SessionOf()), prompt, allowReframe, length).after
    {
      var config := BuildGenerationConfig(length);
      var first := Primary(prompt, config);
      if first.Failure? {
        return Failure(first.error);
      }
      var e := ReadFirstReply(first.value);
      var answer := RunEscalation(prompt, config, length, e, allowReframe);
      r := Success(AskResponse(Strip(answer), settings.geminiModel, first.value.usage, None));
    }

    /** `_call_gemini` under its retry decorator: up to three attempts, the last
        failure re-raised. */
    method CallGemini(prompt: string, allowReframe: bool, length: Option<Length>) returns (r: Result<AskResponse, Fault>)
      requires Valid() && configured
      modifies this`model, settings`geminiModel, backend`generated, backend`inited
      ensures Valid() && configured
      ensures r == RetryFrom(backend.oracle, old(SessionOf()), prompt, allowReframe, length, MaxAttempts).outcome
      ensures SessionOf() == RetryFrom(backend.oracle, old(SessionOf()), prompt, allowReframe, length, MaxAttempts).after
    {
      ghost var whole := RetryFrom(backend.oracle, SessionOf(), prompt, allowReframe, length, MaxAttempts);
      r := CallOnce(prompt, allowReframe, length);
      var attempts := 1;
      while r.Failure? && attempts < MaxAttempts
        invariant 1 <= attempts <= MaxAttempts
        invariant Valid() && configured
        invariant r.Failure? && attempts < MaxAttempts ==>
                    whole.outcome == RetryFrom(backend.oracle, SessionOf(), prompt, allowReframe, length, MaxAttempts - attempts).outcome
                    && whole.after == RetryFrom(backend.oracle, SessionOf(), prompt, allowReframe, length, MaxAttempts - attempts).after
        invariant !(r.Failure? && attempts < MaxAttempts) ==> r == whole.outcome && SessionOf() == whole.after
        decreases MaxAttempts - attempts
      {
        r := CallOnce(prompt, allowReframe, length);
        attempts := attempts + 1;
      }
    }

    /** The part of `ask` after the prompt is composed: in mock mode, before or
        after configuration, the demo response for `question` is returned without
        any generate request; otherwise the answer is that of the retried call,
        started from the session `start` that configuration leaves: the model
        already held, or else the candidate `_configure` selected, built with the
        system prompt. `cands` and `availOrder` are those of `Configure`. */
    method Answer(question: string, prompt: string, allowReframe: bool, length: Length)
      returns (r: Result<AskResponse, Fault>, ghost start: Session, ghost cands: seq<string>, ghost availOrder: seq<string>)
      requires Valid()
      modifies this, settings, backend
      ensures Valid()
      ensures old(settings.mockMode) ==> settings.mockMode
      ensures old(settings.mockMode) ==>
                r == Success(MockResponse(question, old(settings.geminiModel))) && unchanged(this, settings, backend)
      ensures settings.mockMode ==>
                r == Success(MockResponse(question, settings.geminiModel)) && backend.generated == old(backend.generated)
      ensures !settings.mockMode ==>
                && configured
                && start.generated == old(backend.generated)
                && var run := RetryFrom(backend.oracle, start, prompt, allowReframe, Some(length), MaxAttempts);
                   r == run.outcome && SessionOf() == run.after
      ensures !settings.mockMode ==> start.model.instruction == promptText
      ensures !settings.mockMode && old(configured) ==> start == old(SessionOf())
      ensures !settings.mockMode && !old(configured) ==>
                StartsFromSelection(backend.oracle, old(settings.geminiModel), old(backend.inited), promptText,
                                    start, cands, availOrder)
      ensures !old(settings.mockMode) && old(configured) ==> !settings.mockMode
      ensures !old(settings.mockMode) && !old(configured) ==>
                (settings.mockMode <==> ConfigureFallsBack(backend.oracle, settings.apiKey, old(settings.geminiModel),
                                                           old(backend.inited), promptText, availOrder))
      ensures settings.mockMode ==> settings.geminiModel == old(settings.geminiModel)
      ensures settings.mockMode && !old(settings.mockMode) ==>
                backend.inited == ConfigureLog(backend.oracle, settings.apiKey, old(settings.geminiModel),
                                               old(backend.inited), promptText, availOrder)
    {
      start := Session(ModelHandle("", ""), [], []);
      cands, availOrder := [], [];
      if settings.mockMode {
        r := Success(MockResponse(question, settings.geminiModel));
        return;
      }
      cands, availOrder := Configure();
      if settings.mockMode {
        r := Success(MockResponse(question, settings.geminiModel));
        return;
      }
      start := SessionOf();
      r := CallGemini(prompt, allowReframe, Some(length));
    }

    /** `ask`. A missing question fails as `len(None)` does; an over-long one
        raises ValueError before anything else; otherwise the composed prompt,
        the requested length (medium by default) and `safe_mode` (reframing only
        when it is True) go to `Answer`. */
    method Ask(req: AskRequest)
      returns (r: Result<AskResponse, Fault>, ghost start: Session, ghost cands: seq<string>, ghost availOrder: seq<string>)
      requires Valid()
      modifies this, settings, backend
      ensures Valid()
      ensures old(settings.mockMode) ==> settings.mockMode
      ensures req.question.None? ==>
                r == Failure(Fault(TypeError, NoLengthMessage)) && unchanged(this, settings, backend)
      ensures req.question.Some? && |req.question.value| > settings.maxInputChars ==>
                r == Failure(Fault(ValueError, TooLongMessage)) && unchanged(this, settings, backend)
      ensures req.question.Some? && |req.question.value| <= settings.maxInputChars && old(settings.mockMode) ==>
                r == Success(MockResponse(req.question.value, old(settings.geminiModel)))
                && unchanged(this, settings, backend)
      ensures req.question.Some? && |req.question.value| <= settings.maxInputChars && settings.mockMode ==>
                r == Success(MockResponse(req.question.value, settings.geminiModel))
                && backend.generated == old(backend.generated)
      ensures req.question.Some? && |req.question.value| <= settings.maxInputChars && !settings.mockMode ==>
                && configured
                && start.generated == old(backend.generated)
                && var run := RetryFrom(backend.oracle, start, ComposeUserPrompt(req, settings.maxInputChars),
                                        req.safeMode == Some(true), Some(EffectiveLength(req.length)), MaxAttempts);
                   r == run.outcome && SessionOf() == run.after
      ensures req.question.Some? && |req.question.value| <= settings.maxInputChars && !settings.mockMode ==>
                start.model.instruction == promptText
      ensures req.question.Some? && |req.question.value| <= settings.maxInputChars && !settings.mockMode
              && old(configured) ==>
                start == old(SessionOf())
      ensures req.question.Some? && |req.question.value| <= settings.maxInputChars && !settings.mockMode
              && !old(configured) ==>
                StartsFromSelection(backend.oracle, old(settings.geminiModel), old(backend.inited), promptText,
                                    start, cands, availOrder)
      ensures req.question.Some? && |req.question.value| <= settings.maxInputChars
              && !old(settings.mockMode) && old(configured) ==>
                !settings.mockMode
      ensures req.question.Some? && |req.question.value| <= settings.maxInputChars
              && !old(settings.mockMode) && !old(configured) ==>
                (settings.mockMode <==> ConfigureFallsBack(backend.oracle, settings.apiKey, old(settings.geminiModel),
                                                           old(backend.inited), promptText, availOrder))
      ensures settings.mockMode ==> settings.geminiModel == old(settings.geminiModel)
      ensures req.question.Some? && |req.question.value| <= settings.maxInputChars
              && settings.mockMode && !old(settings.mockMode) ==>
                backend.inited == ConfigureLog(backend.oracle, settings.apiKey, old(settings.geminiModel),
                                               old(backend.inited), promptText, availOrder)
    {
      start := Session(ModelHandle("", ""), [], []);
      cands, availOrder := [], [];
      if req.question.None? {
        r := Failure(Fault(TypeError, NoLengthMessage));
        return;
      }
      var question := req.question.value;
      if |question| > settings.maxInputChars {
        r := Failure(Fault(ValueError, TooLongMessage));
        return;
      }
      var prompt := ComposeUserPrompt(req, settings.maxInputChars);
      var length := EffectiveLength(req.length);
      r, start, cands, availOrder := Answer(question, prompt, req.safeMode == Some(true), length);
    }
  }
}
