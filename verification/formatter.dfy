/**
 The response formatter: strips the generated text and, when JSON was asked
 for, replaces it by the re-serialised JSON span if that span parses. Every
 failure of the JSON step falls back to the stripped text.
 */
module ResponseFormatter {
  import opened Results
  import opened PyText
  import opened Api
  import opened JsonSpan

  /**
   The JSON library as two uninterpreted functions over some value type `J`:
   `loads` is `json.loads` (None when it raises), `dumps` is `json.dumps`.
   */
  datatype JsonCodec<!J> = JsonCodec(loads: string -> Option<J>, dumps: J -> string)

  /** `json.loads(json.dumps(v))` gives back `v`, for every value. */
  ghost predicate RoundTrips<J(!new)>(codec: JsonCodec<J>) {
    forall v :: codec.loads(codec.dumps(v)) == Some(v)
  }

  /** The JSON step replaces the text: the stripped text has a span, and the span parses. */
  predicate Replaced<J>(stripped: string, codec: JsonCodec<J>) {
    Span(stripped).Some? && codec.loads(Span(stripped).value).Some?
  }

  /**
   The JSON step on already stripped text: the re-serialised span when the
   span exists and parses, the text itself on every failure.
   */
  function JsonStep<J>(text: string, codec: JsonCodec<J>): (r: string)
    ensures Replaced(text, codec) ==> r == codec.dumps(codec.loads(Span(text).value).value)
    ensures !Replaced(text, codec) ==> r == text
  {
    match Span(text)
    case None => text
    case Some(s) =>
      match codec.loads(s)
      case None => text
      case Some(v) => codec.dumps(v)
  }

  /** The final response text for the engine's raw text under the requested format. */
  function FormatText<J>(raw: string, responseFormat: Option<string>, codec: JsonCodec<J>): (r: string)
    ensures responseFormat != Some(JsonFormat) ==> r == Strip(raw)
    ensures !Replaced(Strip(raw), codec) ==> r == Strip(raw)
    ensures responseFormat == Some(JsonFormat) ==> r == JsonStep(Strip(raw), codec)
  {
    var text := Strip(raw);
    if responseFormat == Some(JsonFormat) then JsonStep(text, codec) else text
  }

  /** Plain-text responses are stripped: no whitespace at either end, and stripping again changes nothing. */
  lemma PlainTextIsStripped<J>(raw: string, responseFormat: Option<string>, codec: JsonCodec<J>)
    requires responseFormat != Some(JsonFormat)
    ensures var r := FormatText(raw, responseFormat, codec);
      IsStripOf(r, raw) && Stripped(r) && Strip(r) == r
  {
    StripIdempotent(raw);
  }

  /**
   JSON mode never fails: when the stripped text has no span, or its span
   does not parse, the stripped text comes back unchanged.
   */
  lemma JsonFallback<J>(raw: string, codec: JsonCodec<J>)
    requires Span(Strip(raw)).None? || codec.loads(Span(Strip(raw)).value).None?
    ensures FormatText(raw, Some(JsonFormat), codec) == Strip(raw)
  {
  }

  /** In JSON mode, text on which the pattern matches nowhere comes back stripped and unchanged. */
  lemma JsonFallbackNoMatch<J>(raw: string, codec: JsonCodec<J>)
    requires '{' !in Strip(raw) || '}' !in Strip(raw)
    ensures FormatText(raw, Some(JsonFormat), codec) == Strip(raw)
  {
    var t := Strip(raw);
    if '{' !in t {
      NoSpanWithoutOpenBrace(t);
    }
  }

  /** The text differs from the stripped text only by being the serialisation of a parsed span. */
  lemma ChangedOnlyByParse<J>(raw: string, responseFormat: Option<string>, codec: JsonCodec<J>)
    requires FormatText(raw, responseFormat, codec) != Strip(raw)
    ensures responseFormat == Some(JsonFormat)
    ensures FindSpan(Strip(raw)).Some?
    ensures SearchResult(Strip(raw), FindSpan(Strip(raw)).value.0, FindSpan(Strip(raw)).value.1)
    ensures var s := Span(Strip(raw)).value;
      codec.loads(s).Some? && FormatText(raw, responseFormat, codec) == codec.dumps(codec.loads(s).value)
  {
    var t := Strip(raw);
    var (lo, hi) := FindSpan(t).value;
    FindSpanIsSearch(t, lo, hi);
  }

  /**
   With a library whose `loads` undoes `dumps`, a replaced text parses to
   the same value as the span it came from.
   */
  lemma JsonRoundTrip<J(!new)>(raw: string, codec: JsonCodec<J>)
    requires RoundTrips(codec)
    requires Replaced(Strip(raw), codec)
    ensures codec.loads(FormatText(raw, Some(JsonFormat), codec)) == codec.loads(Span(Strip(raw)).value)
  {
    var v := codec.loads(Span(Strip(raw)).value).value;
    assert codec.loads(codec.dumps(v)) == Some(v);
  }
}
