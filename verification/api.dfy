/**
 The request and response records of the `/generate` endpoint. Every field
 the request declares `Optional` may arrive as `null`, so it is an `Option`
 here; a field the caller leaves out takes its default.
 */
module Api {
  import opened Results

  /** Default generation length when the caller does not give one. */
  const DefaultMaxTokens: int := 1024

  /** Default sampling temperature when the caller does not give one. */
  const DefaultTemperature: real := 0.3

  /** The only format value that changes behaviour; every other one means plain text. */
  const JsonFormat: string := "json"

  datatype GenerationRequest = GenerationRequest(
    prompt: string,
    systemPrompt: Option<string>,
    maxTokens: Option<int>,
    temperature: Option<real>,
    responseFormat: Option<string>)

  datatype GenerationResponse = GenerationResponse(text: string, tokenCount: int)

  /** A request carrying only a prompt, every other field at its default. */
  function DefaultRequest(prompt: string): (req: GenerationRequest)
    ensures req.prompt == prompt
    ensures req.systemPrompt == Some("") && req.responseFormat == Some("text")
    ensures req.maxTokens == Some(DefaultMaxTokens) && req.temperature == Some(DefaultTemperature)
  {
    GenerationRequest(prompt, Some(""), Some(DefaultMaxTokens), Some(DefaultTemperature), Some("text"))
  }

  /** `request.response_format == "json"`: a missing or different value is not JSON. */
  predicate WantsJson(req: GenerationRequest) {
    req.responseFormat == Some(JsonFormat)
  }
}
