/**
 * The `execute` of the `updateDocument` tool (lib/ai/tools/update-document.ts): load the document,
 * write `data-clear`, run the handler registered for the document's kind, write `data-finish`.
 * The handlers (lib/artifacts/server.ts is not part of this model) are inputs: each names its kind
 * and the parts its `onUpdateDocument` writes.
 */
module UpdateDocument {
  import opened Wrappers
  import opened Errors
  import opened Records
  import opened Tables
  import opened Queries
  import opened DataStream

  /** A document handler: the kind it serves and the parts its update writes to the stream. */
  datatype Handler = Handler(kind: DocumentKind, parts: seq<Event>)

  /** What `execute` returns. */
  datatype ToolResult =
    | Updated(id: string, title: string, kind: DocumentKind, content: string)
    | ErrorResult(error: string)

  /** How `execute` can throw: a query's `ChatSDKError`, or a plain `Error` with its message. */
  datatype Thrown = SdkThrown(error: ChatSdkError) | ErrorThrown(message: string)

  /** The `document_kind` value as the database spells it. */
  function KindName(k: DocumentKind): string
  {
    match k
    case Text => "text"
    case Code => "code"
    case Image => "image"
    case Sheet => "sheet"
  }

  /** `documentHandlersByArtifactKind.find(h => h.kind === kind)`: the first handler of that kind. */
  function FindHandler(handlers: seq<Handler>, kind: DocumentKind): (r: Option<Handler>)
    ensures r.Some? ==> r.value in handlers && r.value.kind == kind
    ensures r.Some? ==> exists i :: 0 <= i < |handlers| && handlers[i] == r.value
                                    && forall j :: 0 <= j < i ==> handlers[j].kind != kind
    ensures r.None? <==> forall i :: 0 <= i < |handlers| ==> handlers[i].kind != kind
  {
    if |handlers| == 0 then None
    else if handlers[0].kind == kind then Some(handlers[0])
    else
      var rest := FindHandler(handlers[1..], kind);
      if rest.Some? then
        var i :| 0 <= i < |handlers| - 1 && handlers[1..][i] == rest.value
                 && forall j :: 0 <= j < i ==> handlers[1..][j].kind != kind;
        assert handlers[i + 1] == rest.value;
        rest
      else
        assert forall i :: 0 <= i < |handlers| - 1 ==> handlers[i + 1] == handlers[1..][i];
        None
  }

  /**
   * `execute({ id, description })`. A failed lookup raises its error before anything is written.
   * Otherwise `data-clear` is written first; without a handler for the kind the tool then throws,
   * with no `data-finish`; with one, its parts follow and `data-finish` closes the stream, and the
   * result names the document that was read.
   */
  method Execute(store: Store, stream: Writer, id: string, handlers: seq<Handler>) returns (r: Result<ToolResult, Thrown>)
    modifies stream
    ensures LatestVersion(store.documents, id).Failure? ==>
      r == Failure(SdkThrown(LatestVersion(store.documents, id).error)) && stream.log == old(stream.log)
    ensures LatestVersion(store.documents, id).Success? ==>
      var doc := LatestVersion(store.documents, id).value;
      match FindHandler(handlers, doc.kind)
      case None =>
        && r == Failure(ErrorThrown("No document handler found for kind: " + KindName(doc.kind)))
        && stream.log == old(stream.log) + [Event(DataClear, true)]
      case Some(h) =>
        && r == Success(Updated(id, doc.title, doc.kind, "The document has been updated successfully."))
        && stream.log == old(stream.log) + [Event(DataClear, true)] + h.parts + [Event(DataFinish, true)]
  {
    var lookup := store.GetDocumentById(id);
    if lookup.Failure? {
      return Failure(SdkThrown(lookup.error));
    }
    var document := lookup.value;
    stream.Write(DataClear, true);
    var documentHandler := FindHandler(handlers, document.kind);
    if documentHandler.None? {
      return Failure(ErrorThrown("No document handler found for kind: " + KindName(document.kind)));
    }
    stream.WriteAll(documentHandler.value.parts);
    stream.Write(DataFinish, true);
    r := Success(Updated(id, document.title, document.kind, "The document has been updated successfully."));
  }

  /**
   * On success the log gained exactly one `data-clear`, at its start, and one `data-finish`, at
   * its end, when the handler writes neither itself.
   */
  lemma ClearAndFinishFrame(before: seq<Event>, h: Handler)
    requires forall i :: 0 <= i < |h.parts| ==> h.parts[i].part != DataClear && h.parts[i].part != DataFinish
    ensures var log := before + [Event(DataClear, true)] + h.parts + [Event(DataFinish, true)];
      var added := log[|before|..];
      && added[0].part == DataClear && added[|added| - 1].part == DataFinish
      && (forall i :: 0 < i < |added| ==> added[i].part != DataClear)
      && (forall i :: 0 <= i < |added| - 1 ==> added[i].part != DataFinish)
  {
    var log := before + [Event(DataClear, true)] + h.parts + [Event(DataFinish, true)];
    var added := log[|before|..];
    assert added == [Event(DataClear, true)] + h.parts + [Event(DataFinish, true)];
    forall i | 0 < i < |added| - 1 ensures added[i] == h.parts[i - 1] {
    }
  }
}
