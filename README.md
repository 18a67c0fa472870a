# SmartCrops AI-API: the question-answering core, modelled in Dafny

SmartCrops AI-API is a small FastAPI service that answers agricultural questions
with Google's Gemini models. This project models its core:

- the `GeminiClient`: lazy configuration with model selection, user-prompt
  composition, decoding parameters, safety settings, the call-failure policy
  (a one-time fallback model on availability errors), answer extraction, the
  three-stage reframe escalation, the retry decorator (three attempts) and the
  demo ("mock") answers of `ask`;
- the sanitizer, which masks e-mails, phone numbers, ID-like numbers, URLs
  and sensitive terms, then truncates;
- the request records, with the canonicalisation of parameter names;
- the `/v1/agro/ask` and `/v1/agro/chat` endpoints: input checks, forwarding
  a chat request as an ask request, and mapping exceptions to HTTP statuses.

Modules, one per file:

- `Wrappers` (`wrappers.dfy`): `Option` and `Result`.
- `Text` (`text.dfy`): the parts of Python's `str` the service uses (`strip`,
  `lower`, `in`, `join`, `replace`, prefix slicing).
- `Regex` (`regex.dfy`): a backtracking matcher for the fragment of `re` the
  sanitizer's patterns use, with `re.sub`.
- `Sanitize` (`sanitize.dfy`).
- `Schemas` (`schemas.dfy`).
- `Config` (`config.dfy`): the shared settings object.
- `GenAI` (`genai.dfy`): the SDK as an oracle plus a log of requests.
- `Gemini` (`gemini_client.dfy`): the client.
- `AgroRoutes` (`agro_routes.dfy`): the endpoints.

The SDK is modelled as an oracle. A `GenAI.Oracle` value fixes in advance what
`configure`, `list_models`, `GenerativeModel(...)` and `generate_content`
answer. Construction and generation answers are indexed by how many such
requests came before. The `GenAI.Backend` object records every model
construction and every generate request, in order.

Given that oracle, pure functions say what happens:

- `Gemini.SelectModel`: the candidate loop.
- `Gemini.PrimaryCall`: the first request, with its fallback.
- `Gemini.Escalate`: the reframes.
- `Gemini.Attempt`: one run of `_call_gemini`.
- `Gemini.RetryFrom`: the retried call.

The methods of `Gemini.GeminiClient` mutate the client, the shared `Settings`
and the backend, as the source does. Each method is proved to produce exactly
the answer and the new state those functions give. The properties of the
behaviour are lemmas about the functions.

A request's contents are symbolic: `GenAI.Prompt` is either the composed prompt
or one of its three reframings. `Gemini.PromptText` gives the exact text each
stands for.

Where the service's documentation and its code differ, the model follows the
code:

- **Required fields.** The documentation asks for exactly one of a question
  or a measure (parameter and value). The code accepts either, or both.
- **Measure-only requests.** The documentation promises a structured
  recommendation for them. The code has no such path. A request with a measure
  and no question passes the endpoint's checks, then fails inside the client
  at `len(None)`, a TypeError, and so gets a 502. See
  `AgroRoutes.MeasureOnlyIsUpstreamFailure`.

## Model

| member | source | states |
|---|---|---|
| Text.Strip | app/utils/sanitize.py:34 | `str.strip()`: the result has no whitespace at either end, and a text with none at either end is unchanged |
| Text.StripPadding | app/utils/sanitize.py:34 | whitespace around a text is exactly what `strip` removes |
| Text.LowerChar | app/services/gemini_client.py:158 | one character lowered: no capital remains, exactly the characters that are not capitals are kept, ASCII letters stay ASCII letters |
| Text.Lower | app/services/gemini_client.py:158 | `str.lower()` keeps the length, lowers each character on its own and leaves no capital |
| Text.LowerIdempotent | app/services/gemini_client.py:158 | lowering twice is lowering once |
| Text.LowerKeepsContains | app/services/gemini_client.py:158-160 | a text that contains a string still contains it, lowered, after lowering |
| Text.PyPrefix | app/utils/sanitize.py:37 | Python's `s[:k]` is a prefix of `s` whose length is `k` clamped to the text, or `len + k` clamped at 0 for negative `k` |
| Text.Join | app/services/gemini_client.py:199 | `sep.join(xs)`: empty for no parts, starts with the first part, is the part itself for one part |
| Text.JoinEmpty | app/services/gemini_client.py:192-199 | joining non-empty texts gives "" exactly when there are none |
| Text.JoinHasPart | app/services/gemini_client.py:120 | every part occurs in the joined text |
| Text.Replace | app/services/gemini_client.py:38 | `str.replace` leaves a text without the pattern unchanged |
| Regex.MatchLen | app/utils/sanitize.py:24-29 | the length `re.sub` replaces at a position is positive exactly when the leftmost-first match there is non-empty |
| Regex.Sub | app/utils/sanitize.py:24-29 | `re.sub` on "" gives ""; what it does elsewhere is stated by the lemmas below |
| Regex.SubUnchanged | app/utils/sanitize.py:24-29 | a pattern that matches nowhere leaves the text unchanged |
| Regex.SubShowsReplacement | app/utils/sanitize.py:24-29 | where a pattern matches, the replacement appears in the output |
| Regex.SubFromCopies | app/utils/sanitize.py:24-29 | with a replacement that starts with '[', the output up to its first '[' is the input copied verbatim |
| Regex.SubFromAvoids | app/utils/sanitize.py:24-29 | substituting a bracketed replacement free of a text, with a pattern that matches wherever the text occurs, leaves no occurrence of it in any case |
| Regex.SubAvoids | app/utils/sanitize.py:24-29 | the same for a whole `re.sub` |
| Sanitize.MaskTerms | app/utils/sanitize.py:28-29 | the sensitive-term loop, each substitution applied to the previous output; "" stays "" |
| Sanitize.MaskTermsRemoves | app/utils/sanitize.py:28-29 | after the loop, a plain term that is one of the patterns occurs nowhere in the text, in any case |
| Sanitize.MaskTermsKeepsAbsent | app/utils/sanitize.py:28-29 | once a plain term is gone, no later substitution of the loop brings it back |
| Sanitize.PlainTermFacts | app/utils/sanitize.py:12-20 | "veneno", "venenoso", "matar", "arma" and "gramoxone" are sensitive patterns, free of brackets, and do not occur in the mask |
| Sanitize.MaskTermsRemovesPlainTerms | app/utils/sanitize.py:12-29 | the term loop over the sensitive terms leaves none of those five words, in any case |
| Sanitize.MaskBasic | app/utils/sanitize.py:23-30 | `_mask_basic` output contains none of "veneno", "venenoso", "matar", "arma" and "gramoxone", in any case |
| Sanitize.TruncateKeepsAbsent | app/utils/sanitize.py:36-37 | cutting a text short and appending "..." adds no occurrence of a lower-case word |
| Sanitize.SanitizedQuestionHasNoTerm | app/utils/sanitize.py:33-38 | the sanitised question contains none of the five plain sensitive words, in any case |
| Sanitize.Truncate | app/utils/sanitize.py:36-37 | a text within the limit is kept; a longer one becomes its first `max_len - 3` characters plus "..." (length exactly `max_len`), with Python's negative slicing when `max_len < 3` |
| Sanitize.SanitizeQuestion | app/utils/sanitize.py:33-38 | strip, mask, then truncate: the masked text when it fits, else its prefix plus "..." of exactly the limit's length |
| Sanitize.SanitizeDataPreview | app/utils/sanitize.py:41-51 | an unserialisable value gives the fixed placeholder, otherwise the masked, truncated JSON text |
| Sanitize.SanitizeEmptyQuestion | app/utils/sanitize.py:34-38 | a missing or empty question sanitises to "" for any non-negative limit, but to "..." for a negative one |
| Sanitize.SanitizeIgnoresPadding | app/utils/sanitize.py:34 | surrounding whitespace does not change the sanitised question |
| Sanitize.PreviewMatchesQuestion | app/utils/sanitize.py:33-51 | on JSON text, the preview and the question sanitiser agree |
| Sanitize.IdLikeMatch | app/utils/sanitize.py:9 | `\b\d{6,}\b` matches a whole digit run of six or more with no word character on either side, and nothing else |
| Sanitize.IdStepKeepsShortRuns | app/utils/sanitize.py:26 | text without six consecutive digits passes the ID step unchanged |
| Sanitize.UrlMatch | app/utils/sanitize.py:10 | `https?://\S+` matches "http://" or "https://" and the whole non-space run after it, which must be non-empty |
| Sanitize.TermMatch | app/utils/sanitize.py:12-20 | a plain sensitive term matches wherever it occurs, in any case, inside words too |
| Sanitize.ExplosiveMatch | app/utils/sanitize.py:16 | `expl(osiv\|osivo)` always matches just "explosiv", so the "o" of "explosivo" survives |
| Sanitize.DangerousChemicalMatch | app/utils/sanitize.py:18 | "químico", one or more whitespace characters, then "peligroso", in any case |
| Sanitize.VenenosoKeepsSuffix | app/utils/sanitize.py:13-14 | since "veneno" is masked first, "venenoso" comes out of the term loop as the mask followed by "so" |
| Sanitize.TermMaskedAnywhere | app/utils/sanitize.py:28-29 | a sensitive term is masked whatever text surrounds it |
| Sanitize.ArmaInsideWord | app/utils/sanitize.py:17 | the "arma" inside "alarma" is masked |
| Schemas.MapParameter | app/schemas/requests.py:34-54 | a falsy name is returned as is; truthiness is preserved; a known name becomes its table entry; any other name is kept |
| Schemas.SpanishNamesTranslated | app/schemas/requests.py:38-46 | each Spanish sensor name and "otro" maps to its English name |
| Schemas.EnglishNamesFixed | app/schemas/requests.py:47-53 | the English names listed map to themselves |
| Schemas.UnknownNameUnchanged | app/schemas/requests.py:36-54 | None, "" and unknown names pass through unchanged |
| Schemas.CanonicalNamesFixed | app/schemas/requests.py:38-53 | every canonical name the table produces is a fixed point of the table |
| Schemas.MapParameterIdempotent | app/schemas/requests.py:34-59 | canonicalising twice equals canonicalising once |
| Schemas.AskRequest.constructor | app/schemas/requests.py:7-32 | every field takes its argument or its default (safe mode True, the rest None), with `parameter` canonicalised |
| Schemas.AskRequest.PostInit | app/schemas/requests.py:56-59 | `parameter` becomes its canonical name; a falsy one is left alone |
| Config.Settings.constructor | app/config.py:13-19 | the settings take the given values, defaulting to model "gemini-1.5-pro-latest", mock mode on and 12000 input characters |
| GenAI.Backend.Configure | app/services/gemini_client.py:35 | `genai.configure` records the key and answers the oracle's configuration fault |
| GenAI.Backend.ListModels | app/services/gemini_client.py:50 | `list_models` answers the oracle's listing |
| GenAI.Backend.NewModel | app/services/gemini_client.py:67-70 | a model construction is appended to the log and answered by the oracle at its index |
| GenAI.Backend.Generate | app/services/gemini_client.py:152-156 | a generate request is appended to the log and answered by the oracle at its index |
| Gemini.Normalize | app/services/gemini_client.py:37-38 | the requested name stripped, with "-latest" removed only when it ends that way |
| Gemini.NormalizeDropsSuffix | app/services/gemini_client.py:38 | a name ending in "-latest", with no other occurrence, loses exactly that suffix |
| Gemini.DefaultModelNormalized | app/services/gemini_client.py:37-38 | the default "gemini-1.5-pro-latest" is requested as "gemini-1.5-pro" |
| Gemini.Filter | app/services/gemini_client.py:60-62 | a list comprehension's filter keeps exactly the accepted elements, and is no longer than its input |
| Gemini.FilterFirst | app/services/gemini_client.py:62 | the first kept element is the first accepted element of the input |
| Gemini.BaseCandidatesShape | app/services/gemini_client.py:40-60 | the candidates are the normalised name when non-empty, then the five fallbacks in order; the last-resort list is never used |
| Gemini.ModelCandidates | app/services/gemini_client.py:60-62 | with nothing available the candidates are the preferences |
| Gemini.CandidatesAreAvailable | app/services/gemini_client.py:61-62 | with a non-empty available set there is a candidate, and every candidate is available |
| Gemini.BestAvailableFirst | app/services/gemini_client.py:40-62 | with a non-empty available set, the first candidate is the best-ranked available preference |
| Gemini.LastSegment | app/services/gemini_client.py:52 | `name.split("/")[-1]`: a suffix of the name without '/', preceded by '/' when shorter than the name |
| Gemini.Available | app/services/gemini_client.py:49-58 | a failed listing gives the empty set; every available name is a last path segment |
| Gemini.SelectModel | app/services/gemini_client.py:64-75 | the candidate loop logs one construction per candidate tried; when it chooses one, that is the last one tried |
| Gemini.SelectModelLog | app/services/gemini_client.py:64-75 | the log holds the candidates tried, in order; every construction before the chosen one failed and the chosen one succeeded |
| Gemini.ListSet | app/services/gemini_client.py:62 | `list(avail)` lists each available name exactly once, in some order |
| Gemini.CandidatesFor | app/services/gemini_client.py:60-62 | the candidate list: the preferences when nothing is available, the available preferences in order when there are any, else each available name once; the set is listed only in that last case |
| Gemini.PromptSections | app/services/gemini_client.py:86-119 | the framing, the crop line when a crop is given, the sanitised question, the temperature line when one is given, the format block and the length directive, in that order |
| Gemini.ComposeUserPrompt | app/services/gemini_client.py:85-120 | the prompt starts with the framing, ends with the length directive, and contains the sanitised question, plus the crop and temperature lines when given |
| Gemini.PromptIgnoresMeasure | app/services/gemini_client.py:85-120 | only question, crop, temperature and length reach the prompt |
| Gemini.BuildGenerationConfig | app/services/gemini_client.py:122-137 | short gives 0.1 / 0.7 / 40 / 520; medium or none gives 0.2 / 0.9 / 40 / 900 |
| Gemini.DefaultLengthIsMedium | app/services/gemini_client.py:126-131 | no length is treated as medium, both in decoding and in the prompt |
| Gemini.SafetySettings | app/services/gemini_client.py:139-146 | four distinct harm categories, each at BLOCK_ONLY_HIGH |
| Gemini.PrimaryCall | app/services/gemini_client.py:150-181 | one or two generate requests, at most one construction |
| Gemini.IsAvailabilityError | app/services/gemini_client.py:158-160 | the lowered message contains "404", "not found" or "unsupported" (a definition: no contract) |
| Gemini.AvailabilityErrorIgnoresCase | app/services/gemini_client.py:158-160 | a message containing any casing of "404", "not found" or "unsupported" reads as an availability error |
| Gemini.CallFailurePolicy | app/services/gemini_client.py:151-181 | a success or non-availability failure is returned after one request; an availability failure builds the fallback once, raising its error if that fails, otherwise switching model and returning the second request's answer |
| Gemini.Texts | app/services/gemini_client.py:192-198 | the collected texts are all non-empty, one per part at most |
| Gemini.TextsEmpty | app/services/gemini_client.py:192-198 | nothing is collected exactly when no part has text |
| Gemini.CollectTexts | app/services/gemini_client.py:192-198 | the loop over the parts collects exactly `Texts` |
| Gemini.ReplyText | app/services/gemini_client.py:186-199 | the "\n"-join of the first candidate's texts (a definition: its contract is the two lemmas below) |
| Gemini.ReplyTextHasParts | app/services/gemini_client.py:192-199 | the reply holds the text of every part of the first candidate |
| Gemini.ReplyTextEmpty | app/services/gemini_client.py:186-199 | the reply is "" exactly when there is no readable first candidate or none of its parts has text |
| Gemini.Extract | app/services/gemini_client.py:184-207 | the reply text, or the block message when that is empty and the finish reason is outside {None, 0}; an unreadable response gives "" and no finish reason |
| Gemini.ReadReply | app/services/gemini_client.py:187-199 | computes the reply text |
| Gemini.ReadFirstReply | app/services/gemini_client.py:184-205 | computes the extraction |
| Gemini.NeedsReframe | app/services/gemini_client.py:218 | an empty answer, one containing "fue bloqueada" in any case, or a finish reason outside {None, 0} (a definition: no contract) |
| Gemini.BlockedMessageNeedsReframe | app/services/gemini_client.py:201-218 | the block message contains the marker, so it always asks for a reframe |
| Gemini.Escalate | app/services/gemini_client.py:218-324 | no reframe when not allowed; at most three added requests, two unless short; a non-empty answer stays non-empty and costs at most one request; model and constructions unchanged (which text wins: `EscalationAnswer`) |
| Gemini.LaterStages | app/services/gemini_client.py:256-324 | reframes 2 and 3 run only while the answer is empty, the third only for short answers |
| Gemini.EscalationAnswer | app/services/gemini_client.py:218-324 | which text wins: the first response's text when no reframe runs, otherwise the latest non-empty stage text, and the first response's text when every stage that ran came back empty |
| Gemini.EscalationStages | app/services/gemini_client.py:218-324 | exactly which reframe requests are sent and in what order, as iff conditions on the answer, the stage texts, safe mode and length |
| Gemini.PlaceholderStopsEscalation | app/services/gemini_client.py:201-257 | after the block message is substituted, only reframe 1 can run and the answer is non-empty |
| Gemini.Attempt | app/services/gemini_client.py:149-326 | one run: request counts bounded, a successful answer is stripped, names the current model and has no tips (its text: `AttemptAnswer`) |
| Gemini.AttemptAnswer | app/services/gemini_client.py:149-326 | a successful attempt answers with the escalation's text from the first response's extraction, stripped |
| Gemini.UsageFromFirstResponse | app/services/gemini_client.py:208-216 | an attempt succeeds exactly when its first request does, and reports that response's usage even when a reframe replaced the text |
| Gemini.RetryFrom | app/services/gemini_client.py:148 | at most three attempts; a failure means all attempts were used; each attempt makes between one and five requests |
| Gemini.FirstSuccessIsFinal | app/services/gemini_client.py:148 | a successful first attempt is the outcome without retries |
| Gemini.MockAnswer | app/services/gemini_client.py:342-347 | the demo answer starts with "[MODO DEMO]" and holds the question's first 180 characters followed by "..." |
| Gemini.MockResponse | app/services/gemini_client.py:336-348 | the demo answer, the current model, two tips, no usage |
| Gemini.GeminiClient.constructor | app/services/gemini_client.py:19-23 | no model, not configured |
| Gemini.GeminiClient.Configure | app/services/gemini_client.py:25-83 | no-op once configured; no key outside mock mode switches mock mode on; a configuration fault or no constructible candidate switches mock mode on; otherwise the chosen candidate becomes the model and `gemini_model` |
| Gemini.GeminiClient.TryCandidates | app/services/gemini_client.py:64-75 | the loop does exactly what `SelectModel` says |
| Gemini.GeminiClient.Primary | app/services/gemini_client.py:150-181 | computes `PrimaryCall` and leaves its state |
| Gemini.GeminiClient.RunStage | app/services/gemini_client.py:228-250 | one reframe request, whose failure yields "" |
| Gemini.GeminiClient.RunEscalation | app/services/gemini_client.py:218-324 | computes `Escalate` and leaves its state |
| Gemini.GeminiClient.CallOnce | app/services/gemini_client.py:149-326 | computes `Attempt` and leaves its state |
| Gemini.GeminiClient.CallGemini | app/services/gemini_client.py:148-326 | the retry loop computes `RetryFrom` with three attempts |
| Gemini.GeminiClient.Answer | app/services/gemini_client.py:335-367 | mock mode before or after configuring gives the demo response with no generate request; configuring switches mock mode on exactly when there is no API key, configuring the SDK fails or no candidate constructs (`ConfigureFallsBack`), and then keeps the model name and leaves the construction log `ConfigureLog`; a configured client stays live; otherwise the retried call's outcome, started from the model already held or else from the candidate `_configure` selected from the listed models (`StartsFromSelection`), built with the system prompt, with that selection's construction log |
| Gemini.GeminiClient.Ask | app/services/gemini_client.py:328-367 | a missing question raises TypeError and an over-long one ValueError, changing nothing; otherwise the demo response exactly when mock mode was on or configuring falls back to it (`ConfigureFallsBack`), keeping the model name and leaving `ConfigureLog`'s construction log, or else the retried call on the composed prompt, the effective length and safe mode, started from the model already held or the candidate `_configure` selected, built with the system prompt |
| AgroRoutes.HasQuestion | app/routes/agro.py:35 | a question that is present and not blank (a definition: no contract) |
| AgroRoutes.HasMeasure | app/routes/agro.py:36 | a non-empty parameter with a value, 0.0 included (a definition: no contract) |
| AgroRoutes.ValidateAsk | app/routes/agro.py:34-40 | 400 "Debes enviar..." iff neither a non-blank question nor a measure; 400 "demasiado larga" iff a non-blank question is too long; otherwise passes |
| AgroRoutes.ValidateChat | app/routes/agro.py:62-63 | 400 iff the question is too long |
| AgroRoutes.ErrorStatus | app/routes/agro.py:46-49 | ValueError gives 400 with its message; anything else gives 502 with a fixed message |
| AgroRoutes.AskRoute | app/routes/agro.py:24-49 | success iff the checks pass and the client succeeds, passing its response through; 502 iff the checks pass and the client raises anything but ValueError |
| AgroRoutes.ChatRoute | app/routes/agro.py:52-86 | success iff the question fits and the client succeeds, keeping answer, model and tips; a client exception is mapped |
| AgroRoutes.MeasureOnlyPasses | app/routes/agro.py:36-37 | a measure without a question passes the checks, a value of 0.0 included |
| AgroRoutes.MeasureOnlyIsUpstreamFailure | app/routes/agro.py:35-49 | such a request ends in 502, the client's `len(None)` TypeError |
| AgroRoutes.BlankLongQuestionReachesClient | app/routes/agro.py:35-47 | a blank over-long question with a measure skips the endpoint's length check and gets the client's 400 message |
| AgroRoutes.ForwardChat | app/routes/agro.py:68-74 | the ask request carries question, crop, stage, length and safe mode, every other field None |
| AgroRoutes.HandleAsk | app/routes/agro.py:24-49 | the endpoint's answer is `AskRoute` of the client's outcome; a failed check touches nothing; an unreadable prompt file or a missing question fails before any request; an over-long blank question gets the client's ValueError; in mock mode the demo response with no generate request, the shared model name kept; mock mode is switched on exactly when `ConfigureFallsBack` says, leaving `ConfigureLog`'s construction log; otherwise the retried call on the composed prompt, from the backend's log as it was, on the candidate `_configure` selected from the listed models and built with the prompt file's text, and the shared settings' model name, the construction log and the request log are the ones that call leaves |
| AgroRoutes.HandleChat | app/routes/agro.py:52-86 | the endpoint's answer is `ChatRoute` of the client's outcome; an over-long question touches nothing; in mock mode the demo response with no generate request, the shared model name kept; mock mode is switched on exactly when `ConfigureFallsBack` says, leaving `ConfigureLog`'s construction log; otherwise the forwarded request (question, crop, stage, length, safe mode) is asked, and the outcome is the retried call on its composed prompt, on the candidate `_configure` selected and built with the prompt file's text, with the shared settings' model name, construction log and request log that call leaves |

## Left out

- Logging: every `logger` call, including the only use of `last_err` in `_configure`.
- The waits between retries (`wait_exponential`): only the attempt count and the order of attempts are modelled.
- The SDK itself: its answers come from an oracle, so its rules about model names, safety and tokens are not modelled.
- Reading the system prompt file happens outside the model. `HandleAsk` and `HandleChat` take its result as a parameter, so a decoding error is a ValueError (400) and a missing file any other fault (502).
- `get_settings()` and its `lru_cache`: the one shared `Settings` object is a parameter. The environment and `.env` loading are not modelled.
- The `timeout_s` and `log_level` settings are not modelled: the core never reads them.
- Floats (`temperature`, `value`) are kept as their `str()` text, since the core only formats them. Decoding temperatures are kept in tenths.
- `usage`: the reflection over `usage_metadata` is not modelled. The usage mapping is taken as the response's own field, absent when falsy.
- Extraction faults: any exception raised while reading candidates is one flag (`malformed`) on the response.
- The order of `list(avail)` is Python's set order, which depends on hashing. It is left unspecified: a nondeterministic choice, exposed as a ghost result.
- Gemini.Texts: a part whose `text` is not a string is modelled as a part without text.
- Characters: `str.isspace` is Python's whole whitespace set. `str.lower()` and `\w` are modelled for code points up to U+00FF only: above it, no character is a word character and lowering keeps it (Python lowers Greek, Cyrillic and other capitals, and counts their letters as word characters).
- Regex digits: `\d` is ASCII `0`-`9` only. Python's `\d` on `str` matches every Unicode decimal digit, so the source masks a fullwidth "１２３４５６" as an ID and the model does not.
- Regex case folding: `(?i)` compares lowered characters. Python's case-insensitive matching also pairs "ı" (U+0131) with "i", "ſ" (U+017F) with "s" and the Kelvin sign with "k", so the source masks "explosıvo" and the model does not.
- Regex.Sub: only non-empty matches are replaced. None of the sanitizer's patterns can match the empty string.
- Sanitize.MaskBasic: its contract covers the five plain sensitive words only. What the e-mail, phone, ID and URL steps leave behind (a URL ending up as "[url]" after the later steps, or the two structured terms being gone) is not stated; the e-mail and phone patterns are modelled in full but no lemma describes what they match.
- The health endpoint, the FastAPI application and its async plumbing, the database and history modules, and the scripts are not part of this model.
- Text.Replace: only the case with no occurrence is stated as a contract. The case of an occurrence only at the end is the lemma `Gemini.NormalizeDropsSuffix`.
