/**
 * The `dataStream` (`UIMessageStreamWriter`) the document tools write to, as an append-only log of
 * parts, and the two ways a tool's `execute` can end besides returning: a `ChatSDKError` raised by
 * a query, or a plain `Error`.
 */
module DataStream {
  import opened Records

  /** A suggestion as streamed to the client: built from one model element, not yet stored. */
  datatype SuggestionDraft = SuggestionDraft(
    id: string,
    document_id: string,
    original_text: string,
    suggested_text: string,
    description: string,
    is_resolved: bool)

  /** The parts the tools write (`data-suggestion`, `data-clear`, `data-finish`) and any part a handler writes. */
  datatype UIPart =
    | DataSuggestion(draft: SuggestionDraft)
    | DataClear
    | DataFinish
    | HandlerPart(payload: string)

  datatype Event = Event(part: UIPart, transient: bool)

  class Writer {
    var log: seq<Event>

    constructor ()
      ensures log == []
    {
      log := [];
    }

    /** `dataStream.write({ type, data, transient })`. */
    method Write(part: UIPart, transient: bool)
      modifies this
      ensures log == old(log) + [Event(part, transient)]
    {
      log := log + [Event(part, transient)];
    }

    /** Writes each of the parts, in order. */
    method WriteAll(parts: seq<Event>)
      modifies this
      ensures log == old(log) + parts
    {
      var i := 0;
      while i < |parts|
        invariant 0 <= i <= |parts|
        invariant log == old(log) + parts[..i]
      {
        Write(parts[i].part, parts[i].transient);
        assert parts[..i + 1] == parts[..i] + [parts[i]];
        i := i + 1;
      }
    }
  }
}
