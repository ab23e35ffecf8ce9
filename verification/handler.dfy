/**
 The `/generate` handler: compose the prompt, call the engine once, format
 its text, and answer with a fixed token count; any failure of the engine
 call becomes a server error carrying the failure's message.
 */
module GenerateHandler {
  import opened Results
  import opened PyText
  import opened Api
  import opened PromptComposer
  import opened JsonSpan
  import opened ResponseFormatter

  /** The stop sequences passed on every call: a new user turn, or a blank line. */
  const StopSequences: seq<string> := ["User:", "\n\n"]

  /** The token count every successful response reports; it is not measured. */
  const FixedTokenCount: int := 10

  const ServerErrorStatus: int := 500
  const ErrorPrefix: string := "Generation error: "

  /** The message of the `IndexError` raised by `choices[0]` on an empty list. */
  const EmptyChoicesReason: string := "list index out of range"

  /** The arguments one call of the loaded model receives. */
  datatype EngineCall = EngineCall(
    prompt: string,
    maxTokens: Option<int>,
    temperature: Option<real>,
    stop: seq<string>)

  /** What the model returns: the text of each choice, `response["choices"][i]["text"]`. */
  datatype Completion = Completion(choices: seq<string>)

  /** The loaded model: a call either returns a completion or raises with a message. */
  type Engine = EngineCall -> Result<Completion, string>

  /** The HTTP error the handler raises: a status code and a `detail` message. */
  datatype HttpError = HttpError(statusCode: int, detail: string)

  /** The one engine call a request causes. */
  function Invocation(req: GenerationRequest): (call: EngineCall)
    ensures call.prompt == Compose(req)
    ensures call.maxTokens == req.maxTokens && call.temperature == req.temperature
    ensures call.stop == ["User:", "\n\n"]
  {
    EngineCall(Compose(req), req.maxTokens, req.temperature, StopSequences)
  }

  /** The error response for a failure with message `reason`. */
  function Failure(reason: string): (e: HttpError)
    ensures e.statusCode == 500
    ensures |e.detail| == |ErrorPrefix| + |reason|
    ensures e.detail[..|ErrorPrefix|] == ErrorPrefix && e.detail[|ErrorPrefix|..] == reason
  {
    var e := HttpError(ServerErrorStatus, ErrorPrefix + reason);
    assert e.detail[..|ErrorPrefix|] == ErrorPrefix;
    e
  }

  /** Handles one `/generate` request against an engine and a JSON library. */
  function Handle<J>(engine: Engine, codec: JsonCodec<J>, req: GenerationRequest)
    : (r: Result<GenerationResponse, HttpError>)
    ensures r.Ok? ==> r.value.tokenCount == FixedTokenCount
    ensures r.Err? ==> r.error.statusCode == 500
    ensures r.Err? <==>
      engine(Invocation(req)).Err? || engine(Invocation(req)).value.choices == []
    ensures engine(Invocation(req)).Err? ==> r == Err(Failure(engine(Invocation(req)).error))
    ensures r.Ok? ==>
      r.value.text == FormatText(engine(Invocation(req)).value.choices[0], req.responseFormat, codec)
  {
    match engine(Invocation(req))
    case Err(reason) => Err(Failure(reason))
    case Ok(completion) =>
      if completion.choices == [] then Err(Failure(EmptyChoicesReason))
      else
        var text := FormatText(completion.choices[0], req.responseFormat, codec);
        Ok(GenerationResponse(text, FixedTokenCount))
  }

  /**
   The handler consults the engine only at the request's invocation: two
   engines that agree there give the same result.
   */
  lemma HandleDependsOnlyOnInvocation<J>(e1: Engine, e2: Engine, codec: JsonCodec<J>, req: GenerationRequest)
    requires e1(Invocation(req)) == e2(Invocation(req))
    ensures Handle(e1, codec, req) == Handle(e2, codec, req)
  {
  }

  /** Every failure's detail starts with the fixed prefix followed by the reason. */
  lemma ErrorDetailShape<J>(engine: Engine, codec: JsonCodec<J>, req: GenerationRequest)
    requires Handle(engine, codec, req).Err?
    ensures var d := Handle(engine, codec, req).error.detail;
      var reason := if engine(Invocation(req)).Err? then engine(Invocation(req)).error
        else EmptyChoicesReason;
      d == ErrorPrefix + reason
  {
  }

  /**
   A plain-text success answers with the stripped engine text, which has no
   whitespace at either end and which stripping leaves unchanged.
   */
  lemma PlainSuccessIsStripped<J>(engine: Engine, codec: JsonCodec<J>, req: GenerationRequest)
    requires !WantsJson(req)
    requires Handle(engine, codec, req).Ok?
    ensures var t := Handle(engine, codec, req).value.text;
      && t == Strip(engine(Invocation(req)).value.choices[0])
      && Stripped(t) && Strip(t) == t
  {
    PlainTextIsStripped(engine(Invocation(req)).value.choices[0], req.responseFormat, codec);
  }

  /** "What is 2+2?" with defaults: the engine sees the prompt verbatim and a success counts 10 tokens. */
  lemma ScenarioPlainPrompt<J>(engine: Engine, codec: JsonCodec<J>, answer: string)
    requires engine(Invocation(DefaultRequest("What is 2+2?"))) == Ok(Completion([answer]))
    ensures Invocation(DefaultRequest("What is 2+2?")).prompt == "What is 2+2?"
    ensures Handle(engine, codec, DefaultRequest("What is 2+2?"))
      == Ok(GenerationResponse(Strip(answer), FixedTokenCount))
  {
  }

  /** The request of the terse-system-prompt scenario. */
  function TerseColorsRequest(): (req: GenerationRequest)
    ensures HasSystemPrompt(req.systemPrompt) && WantsJson(req)
  {
    GenerationRequest("List three colors", Some("You are terse."),
      Some(DefaultMaxTokens), Some(DefaultTemperature), Some(JsonFormat))
  }

  /** The letters of the terse scenario's output hold no '{'. */
  lemma BraceFreeChars(raw: string)
    requires raw == "colors are red, green, blue"
    ensures '{' !in raw
  {
  }

  /** The engine output of the terse scenario is already stripped and has no span. */
  lemma BraceFreeOutput()
    ensures Strip("colors are red, green, blue") == "colors are red, green, blue"
    ensures Span("colors are red, green, blue").None?
  {
    var raw := "colors are red, green, blue";
    assert Stripped(raw) by { assert raw[0] == 'c' && raw[|raw| - 1] == 'e'; }
    StripOfStripped(raw);
    assert '{' !in raw by { BraceFreeChars(raw); }
    NoSpanWithoutOpenBrace(raw);
  }

  /** The object in the embedded-object output runs from position 6 up to 22. */
  lemma EmbeddedObjectBounds(raw: string)
    requires raw == "Sure! {\"a\": 1, \"b\": 2} thanks"
    ensures FindSpan(raw) == Some((6, 22))
  {
    FirstIndexAt(raw, '{', 6);
    LastIndexAt(raw, '}', 21);
  }

  /** Positions 6 to 22 of the embedded-object output hold the object. */
  lemma EmbeddedObjectSlice(raw: string)
    requires raw == "Sure! {\"a\": 1, \"b\": 2} thanks"
    ensures raw[6..22] == "{\"a\": 1, \"b\": 2}"
  {
    var obj := "{\"a\": 1, \"b\": 2}";
    assert raw == "Sure! " + obj + " thanks";
    assert raw[6..22] == obj by { assert raw[..22] == "Sure! " + obj; }
  }

  /** The engine output of the embedded-object scenario is stripped and its span is the object. */
  lemma EmbeddedObjectOutput()
    ensures Strip("Sure! {\"a\": 1, \"b\": 2} thanks") == "Sure! {\"a\": 1, \"b\": 2} thanks"
    ensures Span("Sure! {\"a\": 1, \"b\": 2} thanks") == Some("{\"a\": 1, \"b\": 2}")
  {
    var raw := "Sure! {\"a\": 1, \"b\": 2} thanks";
    assert Stripped(raw) by { assert raw[0] == 'S' && raw[|raw| - 1] == 's'; }
    StripOfStripped(raw);
    EmbeddedObjectBounds(raw);
    EmbeddedObjectSlice(raw);
  }

  /**
   A system prompt and the JSON format: the transcript is followed by the
   JSON instruction, and brace-free output comes back as it was, stripped.
   */
  lemma ScenarioBraceFreeJson<J>(engine: Engine, codec: JsonCodec<J>)
    requires engine(Invocation(TerseColorsRequest())) == Ok(Completion(["colors are red, green, blue"]))
    ensures Invocation(TerseColorsRequest()).prompt ==
      "System: " + "You are terse." + "\nUser: " + "List three colors" + "\nAssistant:"
      + "\nRespond with valid JSON only:"
    ensures Handle(engine, codec, TerseColorsRequest())
      == Ok(GenerationResponse("colors are red, green, blue", FixedTokenCount))
  {
    var req := TerseColorsRequest();
    ChatPromptNeverEndsInJson(req.prompt, req.systemPrompt);
    BraceFreeOutput();
  }

  /** Output with a JSON object inside prose: the span is the object, and its re-serialisation is returned. */
  lemma ScenarioEmbeddedObject<J>(engine: Engine, codec: JsonCodec<J>, req: GenerationRequest)
    requires WantsJson(req)
    requires engine(Invocation(req)) == Ok(Completion(["Sure! {\"a\": 1, \"b\": 2} thanks"]))
    requires codec.loads("{\"a\": 1, \"b\": 2}").Some?
    ensures Handle(engine, codec, req)
      == Ok(GenerationResponse(codec.dumps(codec.loads("{\"a\": 1, \"b\": 2}").value), FixedTokenCount))
  {
    EmbeddedObjectOutput();
  }

  /** An engine that raises turns into a 500 whose detail names the generation error. */
  lemma ScenarioEngineFailure<J>(engine: Engine, codec: JsonCodec<J>, req: GenerationRequest, reason: string)
    requires engine(Invocation(req)) == Err(reason)
    ensures Handle(engine, codec, req) == Err(HttpError(500, "Generation error: " + reason))
  {
  }
}
