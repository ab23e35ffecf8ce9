/**
 The prompt composer: wraps the caller's prompt in a chat transcript when a
 system prompt is given, then asks for JSON when the caller wants JSON and
 the prompt does not already end by saying so.
 */
module PromptComposer {
  import opened Results
  import opened PyText
  import opened Api

  const SystemTag: string := "System: "
  const UserTag: string := "\nUser: "
  const AssistantCue: string := "\nAssistant:"
  const JsonInstruction: string := "\nRespond with valid JSON only:"

  /** Python truthiness of the optional system prompt: present and non-empty. */
  predicate HasSystemPrompt(systemPrompt: Option<string>) {
    systemPrompt.Some? && systemPrompt.value != ""
  }

  /** The prompt before the JSON step: the raw prompt, or the three-turn transcript. */
  function ChatPrompt(prompt: string, systemPrompt: Option<string>): (p: string)
    ensures !HasSystemPrompt(systemPrompt) ==> p == prompt
    ensures HasSystemPrompt(systemPrompt) ==>
      var head := SystemTag + systemPrompt.value + UserTag;
      && |p| == |head| + |prompt| + |AssistantCue|
      && p[..|head|] == head
      && p[|head|..|head| + |prompt|] == prompt
      && p[|head| + |prompt|..] == AssistantCue
  {
    if HasSystemPrompt(systemPrompt) then
      var head := SystemTag + systemPrompt.value + UserTag;
      var p := head + prompt + AssistantCue;
      assert p[..|head|] == head;
      assert p[|head|..|head| + |prompt|] == prompt;
      p
    else
      prompt
  }

  /** The JSON instruction is due: JSON was asked for and the stripped prompt does not end in "json". */
  predicate NeedsJsonInstruction(p: string, responseFormat: Option<string>) {
    responseFormat == Some(JsonFormat) && !EndsWith(Strip(p), JsonFormat)
  }

  /** The format step: appends the JSON instruction once when it is due. */
  function WithFormatInstruction(p: string, responseFormat: Option<string>): (q: string)
    ensures NeedsJsonInstruction(p, responseFormat) ==> |q| == |p| + |JsonInstruction|
    ensures NeedsJsonInstruction(p, responseFormat) ==> q[..|p|] == p && q[|p|..] == JsonInstruction
    ensures !NeedsJsonInstruction(p, responseFormat) ==> q == p
  {
    if responseFormat == Some(JsonFormat) && !EndsWith(Strip(p), JsonFormat) then
      var q := p + JsonInstruction;
      assert q[..|p|] == p;
      q
    else
      p
  }

  /**
   The full prompt handed to the engine for a request: the transcript step
   comes first and is kept whole; the JSON step can only add the
   instruction after it, and only when JSON was asked for.
   */
  function Compose(req: GenerationRequest): (r: string)
    ensures var c := ChatPrompt(req.prompt, req.systemPrompt);
      |c| <= |r| && r[..|c|] == c
    ensures var c := ChatPrompt(req.prompt, req.systemPrompt);
      r == c || (WantsJson(req) && r == c + JsonInstruction)
  {
    WithFormatInstruction(ChatPrompt(req.prompt, req.systemPrompt), req.responseFormat)
  }

  /** Without a system prompt the composed prompt is the raw prompt, plus the JSON instruction if due. */
  lemma ComposeWithoutSystem(req: GenerationRequest)
    requires !HasSystemPrompt(req.systemPrompt)
    ensures !NeedsJsonInstruction(req.prompt, req.responseFormat) ==> Compose(req) == req.prompt
    ensures NeedsJsonInstruction(req.prompt, req.responseFormat) ==> Compose(req) == req.prompt + JsonInstruction
  {
  }

  /** With a system prompt, the raw prompt stands contiguously between the user tag and the assistant cue. */
  lemma ComposeKeepsPrompt(req: GenerationRequest)
    requires HasSystemPrompt(req.systemPrompt)
    ensures var head := SystemTag + req.systemPrompt.value + UserTag;
      var c := Compose(req);
      && |head| + |req.prompt| + |AssistantCue| <= |c|
      && c[..|head|] == head
      && c[|head|..|head| + |req.prompt|] == req.prompt
      && c[|head| + |req.prompt|..|head| + |req.prompt| + |AssistantCue|] == AssistantCue
  {
    var head := SystemTag + req.systemPrompt.value + UserTag;
    var p := ChatPrompt(req.prompt, req.systemPrompt);
    var c := Compose(req);
    var n := |head| + |req.prompt| + |AssistantCue|;
    assert c[..n] == p;
    assert c[..|head|] == p[..|head|];
    assert c[|head|..|head| + |req.prompt|] == p[|head|..|head| + |req.prompt|];
    assert c[|head| + |req.prompt|..n] == p[|head| + |req.prompt|..];
  }

  /** The transcript ends in ':', so "json" can never be its stripped suffix. */
  lemma ChatPromptNeverEndsInJson(prompt: string, systemPrompt: Option<string>)
    requires HasSystemPrompt(systemPrompt)
    ensures !EndsWith(Strip(ChatPrompt(prompt, systemPrompt)), JsonFormat)
  {
    var p := ChatPrompt(prompt, systemPrompt);
    assert p[|p| - 1] == ':' by {
      assert p[|p| - |AssistantCue|..][|AssistantCue| - 1] == p[|p| - 1];
    }
    StripOfNonSpaceEnd(p);
    var r := Strip(p);
    assert r[|r| - 1] == ':';
  }

  /**
   With a system prompt and the JSON format, the instruction always follows
   the assistant cue: the composed prompt ends with cue and instruction.
   */
  lemma ComposeJsonWithSystem(req: GenerationRequest)
    requires HasSystemPrompt(req.systemPrompt) && WantsJson(req)
    ensures EndsWith(Compose(req), AssistantCue + JsonInstruction)
  {
    var p := ChatPrompt(req.prompt, req.systemPrompt);
    ChatPromptNeverEndsInJson(req.prompt, req.systemPrompt);
    assert Compose(req) == p + JsonInstruction;
    assert EndsWith(p, AssistantCue);
    EndsWithAppend(p, AssistantCue, JsonInstruction);
  }

  /**
   The suffix test on the stripped prompt is the same as one on the prompt
   with only trailing whitespace removed.
   */
  lemma NeedsJsonInstructionTrailingOnly(p: string, responseFormat: Option<string>)
    ensures NeedsJsonInstruction(p, responseFormat) <==>
      responseFormat == Some(JsonFormat) && !EndsWith(StripEnd(p), JsonFormat)
  {
    EndsWithStripIffStripEnd(p, JsonFormat);
  }

  /** For a fixed system prompt, different prompts compose to different transcripts. */
  lemma ChatPromptInjective(p1: string, p2: string, systemPrompt: Option<string>)
    requires ChatPrompt(p1, systemPrompt) == ChatPrompt(p2, systemPrompt)
    ensures p1 == p2
  {
    if HasSystemPrompt(systemPrompt) {
      var head := SystemTag + systemPrompt.value + UserTag;
      var c := ChatPrompt(p1, systemPrompt);
      assert |p1| == |p2|;
      assert p1 == c[|head|..|head| + |p1|] == p2;
    }
  }
}
