/** The request and response records of the service: `AskRequest` with its
    parameter-name canonicalisation, `AskResponse`, and the chat pair. */
module Schemas {
  import opened Wrappers

  /** The two output lengths a request may ask for (`Literal["short", "medium"]`). */
  datatype Length = Short | Medium

  /** A Python float, carried as the text `str()` gives for it; nothing computes with it. */
  datatype Float = Float(text: string)

  /** Python truthiness of an optional string: present and non-empty. */
  predicate Truthy(s: Option<string>) {
    s.Some? && s.value != ""
  }

  /** Accepted parameter names and the internal English name each stands for. */
  const ParameterNames: map<string, string> := map[
    "humedad_suelo" := "soil_moisture",
    "temperatura_aire" := "air_temperature",
    "temperatura_suelo" := "soil_temperature",
    "humedad_aire" := "air_humidity",
    "ph_suelo" := "soil_ph",
    "luz" := "light",
    "lluvia" := "rain",
    "nutrientes" := "nutrients",
    "light" := "light",
    "rain" := "rain",
    "nutrients" := "nutrients",
    "otro" := "other",
    "other" := "other"
  ]

  /** `AskRequest._map_parameter`: a falsy name is returned as it is, a known name
      becomes its canonical form, any other name is kept. */
  function MapParameter(name: Option<string>): (r: Option<string>)
    ensures Truthy(r) <==> Truthy(name)
    ensures r == name || (name.Some? && name.value in ParameterNames && r.Some?)
    ensures Truthy(name) && name.value in ParameterNames ==> r == Some(ParameterNames[name.value])
  {
    if !Truthy(name) then name
    else if name.value in ParameterNames then Some(ParameterNames[name.value])
    else name
  }

  /** The eight Spanish sensor names and "otro" become their English names. */
  lemma SpanishNamesTranslated()
    ensures MapParameter(Some("humedad_suelo")) == Some("soil_moisture")
    ensures MapParameter(Some("temperatura_aire")) == Some("air_temperature")
    ensures MapParameter(Some("temperatura_suelo")) == Some("soil_temperature")
    ensures MapParameter(Some("humedad_aire")) == Some("air_humidity")
    ensures MapParameter(Some("ph_suelo")) == Some("soil_ph")
    ensures MapParameter(Some("luz")) == Some("light")
    ensures MapParameter(Some("lluvia")) == Some("rain")
    ensures MapParameter(Some("nutrientes")) == Some("nutrients")
    ensures MapParameter(Some("otro")) == Some("other")
  {
  }

  /** The English names the table lists are kept as they are. */
  lemma EnglishNamesFixed()
    ensures MapParameter(Some("light")) == Some("light")
    ensures MapParameter(Some("rain")) == Some("rain")
    ensures MapParameter(Some("nutrients")) == Some("nutrients")
    ensures MapParameter(Some("other")) == Some("other")
  {
  }

  /** A name the table does not know passes through unchanged, and so do None and "". */
  lemma UnknownNameUnchanged(name: Option<string>)
    requires name.None? || name.value !in ParameterNames
    ensures MapParameter(name) == name
  {
  }

  /** Every canonical name is a fixed point of the table. */
  lemma CanonicalNamesFixed()
    ensures forall k :: k in ParameterNames ==>
              ParameterNames[k] !in ParameterNames || ParameterNames[ParameterNames[k]] == ParameterNames[k]
  {
  }

  /** Canonicalising twice gives what canonicalising once gives. */
  lemma MapParameterIdempotent(name: Option<string>)
    ensures MapParameter(MapParameter(name)) == MapParameter(name)
  {
    if Truthy(name) && name.value in ParameterNames {
      CanonicalNamesFixed();
    }
  }

  /** The request body of `/v1/agro/ask`. Only `parameter` is ever rewritten after
      construction, so it is the one mutable field. */
  class AskRequest {
    const question: Option<string>
    const crop: Option<string>
    const temperature: Option<Float>
    const safeMode: Option<bool>
    const length: Option<Length>
    var parameter: Option<string>
    const value: Option<Float>
    const unit: Option<string>
    const stage: Option<string>

    /** Construction followed by `model_post_init`; an omitted field takes its
        declared default (`safe_mode` True, everything else None). */
    constructor (question: Option<string> := None, crop: Option<string> := None,
                 temperature: Option<Float> := None, safeMode: Option<bool> := Some(true),
                 length: Option<Length> := None, parameter: Option<string> := None,
                 value: Option<Float> := None, unit: Option<string> := None,
                 stage: Option<string> := None)
      ensures this.question == question && this.crop == crop && this.temperature == temperature
      ensures this.safeMode == safeMode && this.length == length
      ensures this.value == value && this.unit == unit && this.stage == stage
      ensures this.parameter == MapParameter(parameter)
    {
      this.question := question;
      this.crop := crop;
      this.temperature := temperature;
      this.safeMode := safeMode;
      this.length := length;
      this.parameter := parameter;
      this.value := value;
      this.unit := unit;
      this.stage := stage;
      new;
      PostInit();
    }

    /** `model_post_init`: a truthy `parameter` is replaced by its canonical name;
        a falsy one is left alone, as is every other field. */
    method PostInit()
      modifies this`parameter
      ensures !Truthy(old(parameter)) ==> parameter == old(parameter)
      ensures parameter == MapParameter(old(parameter))
    {
      if Truthy(parameter) {
        parameter := MapParameter(parameter);
      }
    }
  }

  /** Token-usage metadata of an answer, as field name to value text. */
  type Usage = map<string, string>

  /** The answer of `/v1/agro/ask`. */
  datatype AskResponse = AskResponse(answer: string, model: string, usage: Option<Usage>, tips: Option<seq<string>>)

  /** The request body of `/v1/agro/chat`; `length` defaults to medium and `safe_mode` to True. */
  datatype ChatRequest = ChatRequest(question: string, crop: Option<string> := None, stage: Option<string> := None,
                                     length: Option<Length> := Some(Medium), safeMode: Option<bool> := Some(true))

  /** The answer of `/v1/agro/chat`: the ask answer without usage. */
  datatype ChatResponse = ChatResponse(answer: string, model: string, tips: Option<seq<string>>)
}
