# `/generate` request pipeline of the local LLM server

This project models, in Dafny, the request pipeline of the `/generate`
endpoint in `llm_server.py`: a FastAPI server that fronts a llama.cpp model.
One request goes through four steps:

1. **Prompt composition.** A non-empty system prompt wraps the user prompt
   in a `System:` / `User:` / `Assistant:` transcript. When the format is
   `"json"` and the stripped prompt does not already end in `json`, the
   line `Respond with valid JSON only:` is appended.
2. **Engine call.** The model is called once with the composed prompt,
   `max_tokens` and `temperature` as given, and the stop list
   `["User:", "\n\n"]`.
3. **Response formatting.** The first choice's text is stripped. In JSON
   mode the span from the first `{` to the last `}` is parsed and
   re-serialised; any failure falls back to the stripped text.
4. **Result.** A success reports the text with a fixed token count of 10.
   Any failure becomes HTTP 500 with detail `Generation error: <reason>`.

Modules, one per step:

- `Results` (`results.dfy`): `Option` and `Result`.
- `PyText` (`text.dfy`): Python's `str.strip()` and `str.endswith`, with
  CPython's exact whitespace table. It also defines a trailing-only strip
  (`rstrip()`); the source never calls it, but it serves as the reference
  that the suffix test is compared against.
- `Api` (`api.dfy`): the request and response records.
- `PromptComposer` (`prompt.dfy`): the prompt composer.
- `JsonSpan` (`span.dfy`): the `re.search(r'\{.*\}', text, re.DOTALL)`
  span search, proved equal to a leftmost-longest match reference.
- `ResponseFormatter` (`formatter.dfy`): strip, then the best-effort JSON step.
- `GenerateHandler` (`handler.dfy`): the engine call, the handler, and the
  end-to-end scenarios.

Foreign code is passed in as parameters:

- The loaded model is an `Engine`: a function from the call's arguments to
  a completion or a failure message.
- `json.loads` and `json.dumps` are the two fields of a `JsonCodec<J>`, over
  an abstract JSON value type `J`. A failing `loads` is `None`.

The request's `Optional[...]` fields can arrive as `null`, so they are
`Option`s. `if request.systemPrompt:` is Python truthiness: present and
non-empty.

Notes on the code itself:

- The suffix test at llm_server.py:78 strips both ends of the prompt.
  `PromptComposer.NeedsJsonInstructionTrailingOnly` proves that only the
  trailing whitespace matters for the suffix `json`.
- llm_server.py:123 binds `DEFAULT_PORT` directly, so there is no port
  selection to model.
- `response_format` is an `Optional[str]` (llm_server.py:55). Every value
  other than `"json"`, and `null`, means plain text.

## Model

| member | source | states |
|---|---|---|
| `Api.DefaultRequest` | llm_server.py:50-55 | A request given only a prompt has an empty system prompt, 1024 max tokens, temperature 0.3 and the `text` format |
| `PyText.Strip` | llm_server.py:93 | `strip()` keeps a contiguous slice with only whitespace outside it and no whitespace at either of its ends |
| `PyText.StripUnique` | llm_server.py:93 | Any slice cut that way is exactly `strip()`'s result, so the contract above characterises `strip()` fully |
| `PyText.StripIdempotent` | llm_server.py:93 | Stripping a stripped text changes nothing |
| `PyText.StripOfStripped` | llm_server.py:93 | A text with no whitespace at either end is its own strip |
| `PyText.StripEnd` | llm_server.py:78 | Reference for line 78's suffix test, not an operation of the source: a trailing-only strip (`rstrip()`) keeps a prefix, only whitespace follows it, and it does not end in whitespace |
| `PyText.EndsWithStripIffStripEnd` | llm_server.py:78 | For a suffix starting with non-whitespace, line 78's `strip().endswith` test agrees with the same test on the trailing-only strip |
| `PromptComposer.ChatPrompt` | llm_server.py:71-74 | With no system prompt (empty or null) the prompt is the raw prompt; otherwise it is `System: <sys>\nUser: ` then the raw prompt, contiguously, then `\nAssistant:` |
| `PromptComposer.ChatPromptInjective` | llm_server.py:74 | For a fixed system prompt, different prompts give different transcripts: the raw prompt is recoverable |
| `PromptComposer.Compose` | llm_server.py:71-79 | The prompt handed to the engine starts with the whole transcript-step result and is either exactly it or it followed by the JSON instruction, the latter only in JSON mode; `ComposeWithoutSystem`, `ComposeKeepsPrompt` and `ComposeJsonWithSystem` state the rest |
| `PromptComposer.WithFormatInstruction` | llm_server.py:77-79 | The JSON instruction is appended once, after the whole prompt, exactly when the format is `"json"` and the stripped prompt does not end in `json`; otherwise the prompt is unchanged |
| `PromptComposer.NeedsJsonInstructionTrailingOnly` | llm_server.py:78 | Whether the instruction is due does not depend on leading whitespace: it matches a test on the right-stripped prompt |
| `PromptComposer.ComposeWithoutSystem` | llm_server.py:71-79 | Without a system prompt the engine prompt is the raw prompt, followed by the JSON instruction only when it is due |
| `PromptComposer.ComposeKeepsPrompt` | llm_server.py:72-79 | With a system prompt the final prompt starts with the system line and user tag, then the raw prompt, then the assistant cue, whether or not the instruction follows |
| `PromptComposer.ChatPromptNeverEndsInJson` | llm_server.py:74-78 | A transcript ends in `:`, so its stripped form never ends in `json` |
| `PromptComposer.ComposeJsonWithSystem` | llm_server.py:74-79 | With a system prompt and the JSON format the final prompt always ends with `\nAssistant:\nRespond with valid JSON only:` |
| `JsonSpan.FindSpan` | llm_server.py:100-102 | A span exists iff some `{` precedes some `}`; it starts at the first `{`, ends just after the last `}`, and is at least two long |
| `JsonSpan.Span` | llm_server.py:100-102 | The matched text is a contiguous slice of the text that starts with `{` and ends with `}` |
| `JsonSpan.FindSpanIsSearch` | llm_server.py:100 | The span is exactly the leftmost, then longest, match of `\{.*\}` with DOTALL, and there is none exactly when the pattern matches nowhere |
| `ResponseFormatter.JsonStep` | llm_server.py:100-108 | The JSON step replaces the text only when a span exists and parses, and then by the serialisation of the parsed value; otherwise the text is unchanged |
| `ResponseFormatter.FormatText` | llm_server.py:93-108 | The text is the strip of the engine text, except in JSON mode with a parsing span, where it is the re-serialised span |
| `ResponseFormatter.PlainTextIsStripped` | llm_server.py:93-96 | Outside JSON mode the text is the stripped engine text: no whitespace at either end, stable under stripping again |
| `ResponseFormatter.JsonFallback` | llm_server.py:100-108 | In JSON mode, with no span or an unparseable span, the stripped text comes back unchanged and nothing fails |
| `ResponseFormatter.JsonFallbackNoMatch` | llm_server.py:100-101 | In JSON mode, stripped text lacking a `{` or a `}` comes back unchanged |
| `ResponseFormatter.ChangedOnlyByParse` | llm_server.py:96-108 | If the result differs from the stripped text, the format was JSON, the regular expression matched (leftmost-longest), the span parsed, and the result is its serialisation |
| `ResponseFormatter.JsonRoundTrip` | llm_server.py:104-105 | With a JSON library whose `loads` undoes `dumps`, a replaced text parses to the same value as the span |
| `GenerateHandler.Invocation` | llm_server.py:83-88 | The engine receives the composed prompt, `max_tokens` and `temperature` unchanged, and the stop list `["User:", "\n\n"]` |
| `GenerateHandler.Failure` | llm_server.py:118-120 | A failure is status 500 with detail `Generation error: ` followed by the reason |
| `GenerateHandler.Handle` | llm_server.py:68-120 | A success carries token count 10 and the formatted first choice. An engine failure, or an empty choice list, gives a 500 error and never a partial response |
| `GenerateHandler.HandleDependsOnlyOnInvocation` | llm_server.py:83-93 | The handler consults the engine only at the request's one invocation |
| `GenerateHandler.ErrorDetailShape` | llm_server.py:93-120 | Every error's detail is the fixed prefix followed by the engine's message, or by `list index out of range` for an empty choice list |
| `GenerateHandler.PlainSuccessIsStripped` | llm_server.py:93-117 | A plain-text success returns the stripped first choice, with no whitespace at either end |
| `GenerateHandler.ScenarioPlainPrompt` | llm_server.py:71-117 | For `What is 2+2?` with defaults, the engine sees the prompt verbatim and the answer is the stripped text with 10 tokens |
| `GenerateHandler.ScenarioBraceFreeJson` | llm_server.py:71-117 | With a system prompt and JSON format, the prompt is the transcript plus the instruction, and brace-free output is returned as it was |
| `GenerateHandler.ScenarioEmbeddedObject` | llm_server.py:93-117 | For `Sure! {"a": 1, "b": 2} thanks` the span is the object, and the response is its re-serialisation |
| `GenerateHandler.ScenarioEngineFailure` | llm_server.py:83-120 | An engine failure gives status 500 and detail `Generation error: <reason>` |

## Left out

- The `/health` endpoint, FastAPI app construction and CORS middleware
  (llm_server.py:23-34, 62-64): framework plumbing.
- Loading the model with `Llama(...)` (llm_server.py:38-47): foreign library
  and file I/O. The loaded model is the `Engine` parameter instead.
- The internals of `json.loads` and `json.dumps`: library code, abstracted as
  the `JsonCodec` fields. `dumps` is total, as it is on anything `loads`
  returns.
- Logging (llm_server.py:13-14, 82, 90-91, 107, 112, 119): side effects only.
  The log calls at line 90 (`response.keys()` on a non-dict result) and
  line 91 could themselves raise on an unusual engine response, which
  would become a 500. That error path is not modelled.
- `GenerateHandler.Handle`: the engine response is reduced to the list of
  choice texts. A response missing the `choices` key or a choice missing
  `text` raises `KeyError` in the source; that error path is not modelled.
  The empty choice list, which raises `IndexError`, is modelled.
- The meaning of `max_tokens` and `temperature`: they are only forwarded,
  so the float is a `real` and is never inspected.
- Starting the listener on `DEFAULT_PORT` (llm_server.py:20, 123): no decision
  logic.
- Concurrent handling of requests: the handler has no shared mutable state.
