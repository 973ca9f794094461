/**
 * The `execute` of the `requestSuggestions` tool (lib/ai/tools/request-suggestions.ts): load the
 * document, stream one transient `data-suggestion` part per element the model produces, and store
 * the suggestions for a signed-in user. The model's elements and the fresh ids are inputs.
 */
module RequestSuggestions {
  import opened Wrappers
  import opened Errors
  import opened Relational
  import opened Records
  import opened Tables
  import opened Queries
  import opened DataStream

  /** One element of the model's `elementStream`. */
  datatype Element = Element(originalSentence: string, suggestedSentence: string, description: string)

  /** What `execute` returns. */
  datatype ToolResult =
    | Suggested(id: string, title: string, kind: DocumentKind, message: string)
    | ErrorResult(error: string)

  /** `if (!document || !document.content)`: no content at all, or the empty string. */
  predicate HasContent(d: Document)
  {
    d.content.Some? && d.content.value != ""
  }

  /** `if (session.user?.id)`: a signed-in user with a non-empty id. */
  predicate SignedIn(sessionUserId: Option<string>)
  {
    sessionUserId.Some? && sessionUserId.value != ""
  }

  /** The suggestion built from one element. */
  function Draft(documentId: string, e: Element, id: string): (d: SuggestionDraft)
    ensures d.document_id == documentId && !d.is_resolved && d.id == id
  {
    SuggestionDraft(id, documentId, e.originalSentence, e.suggestedSentence, e.description, false)
  }

  /** The suggestions built from all elements, in stream order. */
  function Drafts(documentId: string, elements: seq<Element>, ids: seq<string>): (r: seq<SuggestionDraft>)
    requires |ids| == |elements|
    ensures |r| == |elements|
    ensures forall i :: 0 <= i < |r| ==> r[i] == Draft(documentId, elements[i], ids[i])
  {
    seq(|elements|, i requires 0 <= i < |elements| => Draft(documentId, elements[i], ids[i]))
  }

  function SuggestionEvent(d: SuggestionDraft): Event
  {
    Event(DataSuggestion(d), true)
  }

  /**
   * The row stored for a suggestion: the draft tagged with the user, the version of the document
   * that was read, and the time of the save.
   */
  function Stored(userId: string, documentCreatedAt: int, now: int): SuggestionDraft -> Suggestion
  {
    (d: SuggestionDraft) =>
      Suggestion(d.id, d.document_id, documentCreatedAt, d.original_text, d.suggested_text,
                 Some(d.description), d.is_resolved, userId, now, now)
  }

  // The insert payload of `saveSuggestions`, as a set of column names.

  /** The columns of the `suggestion` table. */
  function SuggestionColumns(): set<string>
  {
    {"id", "document_id", "document_created_at", "original_text", "suggested_text", "description",
     "is_resolved", "user_id", "created_at", "updated_at"}
  }

  /** The columns an insert must set (no default in the table's `Insert` type). */
  function RequiredColumns(): set<string>
  {
    {"document_id", "document_created_at", "original_text", "suggested_text", "user_id"}
  }

  /** An insert is accepted only when it names existing columns and sets every required one. */
  predicate InsertAccepted(keys: set<string>)
  {
    keys <= SuggestionColumns() && RequiredColumns() <= keys
  }

  /** The keys of `{ ...suggestion, userId, createdAt, documentCreatedAt }` as the code builds them. */
  function AsWrittenPayloadKeys(): set<string>
  {
    {"original_text", "suggested_text", "description", "id", "document_id", "is_resolved",
     "userId", "createdAt", "documentCreatedAt"}
  }

  /** The keys of the row `Stored` builds. */
  function StoredPayloadKeys(): set<string>
  {
    {"original_text", "suggested_text", "description", "id", "document_id", "is_resolved",
     "user_id", "created_at", "updated_at", "document_created_at"}
  }

  /**
   * The payload as written names three columns the table lacks and misses two it requires, so
   * every save of a signed-in user's suggestions is rejected.
   */
  lemma AsWrittenPayloadRejected()
    ensures !InsertAccepted(AsWrittenPayloadKeys())
    ensures "userId" in AsWrittenPayloadKeys() && "userId" !in SuggestionColumns()
    ensures "user_id" in RequiredColumns() && "user_id" !in AsWrittenPayloadKeys()
    ensures "document_created_at" in RequiredColumns() && "document_created_at" !in AsWrittenPayloadKeys()
  {
  }

  /** The snake_case payload `Stored` builds is accepted. */
  lemma StoredPayloadAccepted()
    ensures InsertAccepted(StoredPayloadKeys())
  {
  }

  /**
   * The `for await` loop: builds the suggestion of each element in turn, writes it as a transient
   * `data-suggestion` part and collects it.
   */
  method StreamSuggestions(stream: Writer, documentId: string, elements: seq<Element>, ids: seq<string>)
    returns (suggestions: seq<SuggestionDraft>)
    requires |ids| == |elements|
    modifies stream
    ensures suggestions == Drafts(documentId, elements, ids)
    ensures stream.log == old(stream.log) + Map(suggestions, SuggestionEvent)
  {
    suggestions := [];
    var i := 0;
    while i < |elements|
      invariant 0 <= i <= |elements|
      invariant |suggestions| == i
      invariant forall k :: 0 <= k < i ==> suggestions[k] == Draft(documentId, elements[k], ids[k])
      invariant stream.log == old(stream.log) + Map(suggestions, SuggestionEvent)
    {
      var suggestion := Draft(documentId, elements[i], ids[i]);
      stream.Write(DataSuggestion(suggestion), true);
      assert Map(suggestions + [suggestion], SuggestionEvent) == Map(suggestions, SuggestionEvent) + [SuggestionEvent(suggestion)];
      suggestions := suggestions + [suggestion];
      i := i + 1;
    }
  }

  /**
   * `execute({ documentId })`, with the snake_case payload. A failed lookup or save raises the
   * query's error. A document without content ends with `{ error: 'Document not found' }`
   * before anything is streamed or stored. Otherwise one transient `data-suggestion` part per
   * element is written in order, and for a signed-in user the same suggestions are stored against
   * the version that was read.
   */
  method Execute(store: Store, stream: Writer, documentId: string, elements: seq<Element>, ids: seq<string>,
                 sessionUserId: Option<string>, now: int) returns (r: Result<ToolResult, ChatSdkError>)
    requires store.Valid()
    requires |ids| == |elements|
    modifies store`suggestions, stream
    ensures store.Valid()
    ensures LatestVersion(store.documents, documentId).Failure? ==>
      && r == Failure(LatestVersion(store.documents, documentId).error)
      && stream.log == old(stream.log) && store.suggestions == old(store.suggestions)
    ensures LatestVersion(store.documents, documentId).Success? && !HasContent(LatestVersion(store.documents, documentId).value) ==>
      && r == Success(ErrorResult("Document not found"))
      && stream.log == old(stream.log) && store.suggestions == old(store.suggestions)
    ensures LatestVersion(store.documents, documentId).Success? && HasContent(LatestVersion(store.documents, documentId).value) ==>
      var doc := LatestVersion(store.documents, documentId).value;
      var drafts := Drafts(documentId, elements, ids);
      var rows := Map(drafts, Stored(if SignedIn(sessionUserId) then sessionUserId.value else "", doc.created_at, now));
      && stream.log == old(stream.log) + Map(drafts, SuggestionEvent)
      && (!SignedIn(sessionUserId) ==>
            && store.suggestions == old(store.suggestions)
            && r == Success(Suggested(documentId, doc.title, doc.kind, "Suggestions have been added to the document")))
      && (SignedIn(sessionUserId) ==>
            && (r.Success? <==> FreshKeys(old(store.suggestions), rows, SuggestionKey))
            && (r.Success? ==> store.suggestions == old(store.suggestions) + rows)
            && (r.Failure? ==> store.suggestions == old(store.suggestions)
                               && r.error == DatabaseError("Failed to save suggestions")))
      && (r.Success? ==> r.value == Suggested(documentId, doc.title, doc.kind, "Suggestions have been added to the document"))
  {
    var lookup := store.GetDocumentById(documentId);
    if lookup.Failure? {
      return Failure(lookup.error);
    }
    var document := lookup.value;
    if !HasContent(document) {
      return Success(ErrorResult("Document not found"));
    }
    var suggestions := StreamSuggestions(stream, documentId, elements, ids);
    if SignedIn(sessionUserId) {
      var userId := sessionUserId.value;
      StoredRowsReferToReadVersion(store.documents, document, suggestions, userId, now);
      var saved := store.SaveSuggestions(Map(suggestions, Stored(userId, document.created_at, now)));
      if saved.Failure? {
        return Failure(saved.error);
      }
    }
    r := Success(Suggested(documentId, document.title, document.kind, "Suggestions have been added to the document"));
  }

  /**
   * What `execute` streams and what it stores line up: the i-th part written and the i-th row
   * stored carry the same suggestion, tagged with the user and the version read.
   */
  lemma StreamedMatchesStored(documentId: string, elements: seq<Element>, ids: seq<string>,
                              userId: string, documentCreatedAt: int, now: int)
    requires |ids| == |elements|
    ensures var drafts := Drafts(documentId, elements, ids);
      var events := Map(drafts, SuggestionEvent);
      var rows := Map(drafts, Stored(userId, documentCreatedAt, now));
      && |events| == |rows| == |elements|
      && forall i :: 0 <= i < |elements| ==>
           && events[i].transient
           && events[i].part.DataSuggestion?
           && events[i].part.draft.id == rows[i].id == ids[i]
           && rows[i].document_id == documentId && rows[i].document_created_at == documentCreatedAt
           && rows[i].user_id == userId && !rows[i].is_resolved
           && rows[i].original_text == elements[i].originalSentence
           && rows[i].suggested_text == elements[i].suggestedSentence
  {
  }

  /**
   * The stored rows name the version that was read, so a save that takes them always finds its
   * document version (the `(document_id, document_created_at)` reference holds).
   */
  lemma StoredRowsReferToReadVersion(documents: seq<Document>, doc: Document, drafts: seq<SuggestionDraft>,
                                     userId: string, now: int)
    requires doc in documents
    requires forall i :: 0 <= i < |drafts| ==> drafts[i].document_id == doc.id
    ensures SuggestionsReferToVersions(Map(drafts, Stored(userId, doc.created_at, now)), documents)
  {
    var rows := Map(drafts, Stored(userId, doc.created_at, now));
    forall i | 0 <= i < |rows| ensures SuggestionRefersToVersion(rows[i], documents) {
      var k :| 0 <= k < |documents| && documents[k] == doc;
      assert DocumentKey(documents[k]) == (rows[i].document_id, rows[i].document_created_at);
    }
  }
}
