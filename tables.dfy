/**
 * The row selections and table updates of lib/supabase/services/queries.ts as functions of the
 * tables, and what they mean. Each `.eq/.gt/.gte/.in` chain becomes one named predicate, so a
 * query and the statements about it refer to the same selection.
 */
module Tables {
  import opened Wrappers
  import opened Errors
  import opened Relational
  import opened Records
  import opened Pagination
  import opened TagLogic

  // ---------------------------------------------------------------------------------------------
  // Chats and what hangs off them

  function ChatIs(id: string): Chat -> bool { (c: Chat) => c.id == id }
  function ChatIsNot(id: string): Chat -> bool { (c: Chat) => c.id != id }
  function VoteOutside(chatId: string): Vote -> bool { (v: Vote) => v.chat_id != chatId }
  function MessageOutside(chatId: string): Message -> bool { (m: Message) => m.chat_id != chatId }
  function StreamOutside(chatId: string): StreamMarker -> bool { (s: StreamMarker) => s.chat_id != chatId }

  function MessageOf(chatId: string): Message -> bool { (m: Message) => m.chat_id == chatId }
  function MessageIs(id: string): Message -> bool { (m: Message) => m.id == id }
  function VoteOf(chatId: string): Vote -> bool { (v: Vote) => v.chat_id == chatId }
  function StreamOf(chatId: string): StreamMarker -> bool { (s: StreamMarker) => s.chat_id == chatId }

  /** `.eq('user_id', id)` and `.eq('character_id', id)` of the chat listings. */
  function ChatOwnedBy(userId: string): Chat -> bool { (c: Chat) => c.user_id == userId }
  function ChatWithCharacter(characterId: string): Chat -> bool
  {
    (c: Chat) => c.character_id == Some(characterId)
  }

  /** `.update({ visibility }).eq('id', chatId)`. */
  function SetVisibility(chatId: string, visibility: Visibility): Chat -> Chat
  {
    (c: Chat) => if c.id == chatId then c.(visibility := visibility) else c
  }

  /** Under a key, `.eq(key, k).single()` finds a row exactly when one has that key. */
  lemma SingleByKey<T, K>(s: seq<T>, key: T -> K, k: K, p: T -> bool)
    requires DistinctBy(s, key)
    requires forall x :: p(x) <==> key(x) == k
    ensures Single(s, p).Some? <==> HasKey(s, key, k)
    ensures |Filter(s, p)| <= 1
  {
    SingleOfUnique(s, p);
    FilterAtMostOne(s, p);
  }

  // ---------------------------------------------------------------------------------------------
  // deleteMessagesByChatIdAfterTimestamp

  /** `.eq('chat_id', chatId).gte('created_at', timestamp)`: the messages to delete. */
  function MessageFrom(chatId: string, timestamp: int): Message -> bool
  {
    (m: Message) => m.chat_id == chatId && m.created_at >= timestamp
  }

  function MessageBefore(chatId: string, timestamp: int): Message -> bool
  {
    (m: Message) => !(m.chat_id == chatId && m.created_at >= timestamp)
  }

  /** `messagesToDelete.map((message) => message.id)`. */
  function DoomedIds(messages: seq<Message>, chatId: string, timestamp: int): seq<string>
  {
    Map(Filter(messages, MessageFrom(chatId, timestamp)), MessageKey)
  }

  /** `.eq('chat_id', chatId).in('id', messageIds)` and its complement. */
  function MessageIn(chatId: string, ids: seq<string>): Message -> bool
  {
    (m: Message) => m.chat_id == chatId && m.id in ids
  }

  function MessageNotIn(chatId: string, ids: seq<string>): Message -> bool
  {
    (m: Message) => !(m.chat_id == chatId && m.id in ids)
  }

  /** The votes `.eq('chat_id', chatId).in('message_id', messageIds)` does not delete. */
  function VoteNotOn(chatId: string, ids: seq<string>): Vote -> bool
  {
    (v: Vote) => !(v.chat_id == chatId && v.message_id in ids)
  }

  /**
   * Deleting by the collected ids deletes exactly the messages the timestamp selected: with ids
   * unique, a message has a collected id exactly when it was itself selected.
   */
  lemma DeleteByIdsIsDeleteByTimestamp(messages: seq<Message>, chatId: string, timestamp: int)
    requires DistinctBy(messages, MessageKey)
    ensures var ids := DoomedIds(messages, chatId, timestamp);
      && Filter(messages, MessageNotIn(chatId, ids)) == Filter(messages, MessageBefore(chatId, timestamp))
      && Filter(messages, MessageIn(chatId, ids)) == Filter(messages, MessageFrom(chatId, timestamp))
  {
    var doomed := Filter(messages, MessageFrom(chatId, timestamp));
    var ids := DoomedIds(messages, chatId, timestamp);
    forall i | 0 <= i < |messages|
      ensures MessageIn(chatId, ids)(messages[i]) == MessageFrom(chatId, timestamp)(messages[i])
    {
      var m := messages[i];
      if MessageFrom(chatId, timestamp)(m) {
        assert m in doomed;
        var k :| 0 <= k < |doomed| && doomed[k] == m;
        assert ids[k] == m.id;
      }
      if MessageIn(chatId, ids)(m) {
        var k :| 0 <= k < |ids| && ids[k] == m.id;
        assert doomed[k] in messages && MessageKey(doomed[k]) == MessageKey(m);
        KeyDeterminesRow(messages, MessageKey, doomed[k], m);
      }
    }
    FilterCongruent(messages, MessageIn(chatId, ids), MessageFrom(chatId, timestamp));
    FilterCongruent(messages, MessageNotIn(chatId, ids), MessageBefore(chatId, timestamp));
  }

  // ---------------------------------------------------------------------------------------------
  // voteMessage

  function VoteOn(messageId: string): Vote -> bool { (v: Vote) => v.message_id == messageId }

  /** `.eq('message_id', messageId).eq('chat_id', chatId)`. */
  function VoteOnIn(messageId: string, chatId: string): Vote -> bool
  {
    (v: Vote) => v.message_id == messageId && v.chat_id == chatId
  }

  /** `.update({ is_upvoted: type === 'up' })` on those rows. */
  function SetUpvote(messageId: string, chatId: string, up: bool): Vote -> Vote
  {
    (v: Vote) => if v.message_id == messageId && v.chat_id == chatId then v.(is_upvoted := up) else v
  }

  /** The insert branch of `voteMessage`: the new vote becomes the message's only vote. */
  lemma InsertedVoteIsOnly(votes: seq<Vote>, row: Vote)
    requires DistinctBy(votes, VoteKey) && !HasKey(votes, VoteKey, row.message_id)
    ensures DistinctBy(votes + [row], VoteKey)
    ensures forall v :: v in votes + [row] && v.message_id == row.message_id ==> v == row
  {
    InsertKeepsDistinct(votes, [row], VoteKey);
    forall v | v in votes + [row] && v.message_id == row.message_id ensures v == row {
      KeyDeterminesRow(votes + [row], VoteKey, v, row);
    }
  }

  /**
   * The update branch of `voteMessage`: setting the flag of the message's vote keeps one vote per
   * message, changes that vote's flag only, and leaves it the message's only vote.
   */
  lemma SetUpvoteUpdatesOne(votes: seq<Vote>, messageId: string, chatId: string, up: bool, k: nat)
    requires DistinctBy(votes, VoteKey)
    requires k < |votes| && votes[k].message_id == messageId && votes[k].chat_id == chatId
    ensures var updated := Map(votes, SetUpvote(messageId, chatId, up));
      && DistinctBy(updated, VoteKey)
      && updated[k] == votes[k].(is_upvoted := up)
      && forall v :: v in updated && v.message_id == messageId ==> v == updated[k]
  {
    var updated := Map(votes, SetUpvote(messageId, chatId, up));
    MapKeepsDistinct(votes, SetUpvote(messageId, chatId, up), VoteKey);
    forall v | v in updated && v.message_id == messageId ensures v == updated[k] {
      KeyDeterminesRow(updated, VoteKey, v, updated[k]);
    }
  }

  // ---------------------------------------------------------------------------------------------
  // Documents: a document is the set of its versions, rows sharing an id

  function VersionOf(id: string): Document -> bool { (d: Document) => d.id == id }

  /** `.eq('id', id).gt('created_at', timestamp)`: the versions newer than `timestamp`. */
  function VersionAfter(id: string, timestamp: int): Document -> bool
  {
    (d: Document) => d.id == id && d.created_at > timestamp
  }

  function VersionUpTo(id: string, timestamp: int): Document -> bool
  {
    (d: Document) => !(d.id == id && d.created_at > timestamp)
  }

  /** The suggestions `.eq('document_id', id).gt('document_created_at', timestamp)` does not delete. */
  function SuggestionUpTo(id: string, timestamp: int): Suggestion -> bool
  {
    (s: Suggestion) => !(s.document_id == id && s.document_created_at > timestamp)
  }

  function SuggestionOf(documentId: string): Suggestion -> bool
  {
    (s: Suggestion) => s.document_id == documentId
  }

  /** The document version a suggestion belongs to exists (the foreign key `(document_id, document_created_at)`). */
  predicate SuggestionRefersToVersion(s: Suggestion, documents: seq<Document>)
  {
    HasKey(documents, DocumentKey, (s.document_id, s.document_created_at))
  }

  predicate SuggestionsReferToVersions(suggestions: seq<Suggestion>, documents: seq<Document>)
  {
    forall i :: 0 <= i < |suggestions| ==> SuggestionRefersToVersion(suggestions[i], documents)
  }

  /**
   * Deleting the versions after `timestamp` together with their suggestions leaves every
   * remaining suggestion pointing at a remaining version: both deletes cut at the same instant
   * with the same strict comparison.
   */
  lemma DeleteAfterKeepsSuggestionsAttached(suggestions: seq<Suggestion>, documents: seq<Document>,
                                            id: string, timestamp: int)
    requires SuggestionsReferToVersions(suggestions, documents)
    ensures SuggestionsReferToVersions(Filter(suggestions, SuggestionUpTo(id, timestamp)),
                                       Filter(documents, VersionUpTo(id, timestamp)))
  {
    var ss := Filter(suggestions, SuggestionUpTo(id, timestamp));
    var ds := Filter(documents, VersionUpTo(id, timestamp));
    forall i | 0 <= i < |ss| ensures SuggestionRefersToVersion(ss[i], ds) {
      var s := ss[i];
      var k :| 0 <= k < |suggestions| && suggestions[k] == s;
      assert SuggestionRefersToVersion(suggestions[k], documents);
      var j :| 0 <= j < |documents| && DocumentKey(documents[j]) == (s.document_id, s.document_created_at);
      assert documents[j] in ds;
      var m :| 0 <= m < |ds| && ds[m] == documents[j];
      assert DocumentKey(ds[m]) == (s.document_id, s.document_created_at);
    }
  }

  /**
   * `getDocumentById` as written: the versions newest first, then `.single()`, which is an error
   * unless exactly one row came back.
   */
  function DocumentByIdAsWritten(documents: seq<Document>, id: string): (r: Result<Document, ChatSdkError>)
  {
    var ordered := SortBy(Filter(documents, VersionOf(id)), NewestFirst(DocumentCreatedAt));
    if |ordered| == 1 then Success(ordered[0])
    else Failure(DatabaseError("Failed to get document by id"))
  }

  /** As written, the lookup succeeds only for a document with exactly one version. */
  lemma DocumentByIdAsWrittenNeedsOneVersion(documents: seq<Document>, id: string)
    ensures DocumentByIdAsWritten(documents, id).Success? <==> |Filter(documents, VersionOf(id))| == 1
  {
  }

  /** The evidently intended lookup: the newest version (`.limit(1)` before `.single()`). */
  function LatestVersion(documents: seq<Document>, id: string): (r: Result<Document, ChatSdkError>)
  {
    var ordered := SortBy(Filter(documents, VersionOf(id)), NewestFirst(DocumentCreatedAt));
    if |ordered| == 0 then Failure(DatabaseError("Failed to get document by id"))
    else Success(ordered[0])
  }

  /** The intended lookup finds a version whenever the document has one, and it is a newest one. */
  lemma LatestVersionIsNewest(documents: seq<Document>, id: string)
    ensures LatestVersion(documents, id).Success? <==> exists i :: 0 <= i < |documents| && documents[i].id == id
    ensures LatestVersion(documents, id).Failure? ==>
      LatestVersion(documents, id).error == DatabaseError("Failed to get document by id")
    ensures LatestVersion(documents, id).Success? ==>
      var d := LatestVersion(documents, id).value;
      && d in documents && d.id == id
      && forall i :: 0 <= i < |documents| && documents[i].id == id ==> documents[i].created_at <= d.created_at
  {
    var versions := Filter(documents, VersionOf(id));
    if i :| 0 <= i < |documents| && documents[i].id == id {
      assert documents[i] in versions;
    }
    if |versions| > 0 {
      NewestFirstHead(versions, DocumentCreatedAt);
      forall i | 0 <= i < |documents| && documents[i].id == id
        ensures documents[i].created_at <= LatestVersion(documents, id).value.created_at
      {
        assert documents[i] in versions;
        var k :| 0 <= k < |versions| && versions[k] == documents[i];
      }
    }
  }

  /** A version saved later than every existing one becomes what the intended lookup returns. */
  lemma SavedVersionIsLatest(documents: seq<Document>, d: Document)
    requires forall i :: 0 <= i < |documents| && documents[i].id == d.id ==> documents[i].created_at < d.created_at
    ensures LatestVersion(documents + [d], d.id) == Success(d)
  {
    var all := documents + [d];
    LatestVersionIsNewest(all, d.id);
    assert all[|documents|] == d;
    var r := LatestVersion(all, d.id).value;
    var k :| 0 <= k < |all| && all[k] == r;
    if k < |documents| {
      assert false;
    }
  }

  /**
   * Two versions of one document, the second newer: the lookup as written fails where the
   * intended one returns the newer version.
   */
  lemma TwoVersionsBreakDocumentById(v1: Document, v2: Document)
    requires v1.id == v2.id && v1.created_at < v2.created_at
    ensures DocumentByIdAsWritten([v1, v2], v1.id).Failure?
    ensures LatestVersion([v1, v2], v1.id) == Success(v2)
  {
    FilterKeepsAll([v1, v2], VersionOf(v1.id));
    SavedVersionIsLatest([v1], v2);
    assert [v1] + [v2] == [v1, v2];
  }

  // ---------------------------------------------------------------------------------------------
  // getMessageCountByUserId

  const HourMillis := 60 * 60 * 1000

  /**
   * As written the count filters `.eq('chat_id', id)` with the user's id, so it counts the user
   * messages of a chat whose id happens to be the user's id.
   */
  function MessageCountAsWritten(messages: seq<Message>, id: string, differenceInHours: int, now: int): nat
  {
    var since := now - differenceInHours * HourMillis;
    |Filter(messages, (m: Message) => m.chat_id == id && m.created_at >= since && m.role == "user")|
  }

  /** The chat a message belongs to is owned by `userId`. */
  predicate InChatOf(chats: seq<Chat>, userId: string, m: Message)
  {
    exists i :: 0 <= i < |chats| && chats[i].id == m.chat_id && chats[i].user_id == userId
  }

  function RecentUserMessageOf(chats: seq<Chat>, userId: string, since: int): Message -> bool
  {
    (m: Message) => InChatOf(chats, userId, m) && m.created_at >= since && m.role == "user"
  }

  /** The evidently intended count: the user messages of the last hours in the chats the user owns. */
  function MessageCountByUserId(chats: seq<Chat>, messages: seq<Message>, userId: string,
                                differenceInHours: int, now: int): nat
  {
    |Filter(messages, RecentUserMessageOf(chats, userId, now - differenceInHours * HourMillis))|
  }

  /**
   * The intended count is positive as soon as one recent user message sits in a chat of the user,
   * zero when no message sits in a chat of the user, and never more than the number of messages.
   */
  lemma MessageCountCountsOwnMessages(chats: seq<Chat>, messages: seq<Message>, userId: string,
                                      differenceInHours: int, now: int)
    ensures MessageCountByUserId(chats, messages, userId, differenceInHours, now) <= |messages|
    ensures (exists i :: 0 <= i < |messages| && RecentUserMessageOf(chats, userId, now - differenceInHours * HourMillis)(messages[i]))
      ==> MessageCountByUserId(chats, messages, userId, differenceInHours, now) > 0
    ensures (forall i :: 0 <= i < |messages| ==> !InChatOf(chats, userId, messages[i]))
      ==> MessageCountByUserId(chats, messages, userId, differenceInHours, now) == 0
  {
    var p := RecentUserMessageOf(chats, userId, now - differenceInHours * HourMillis);
    if i :| 0 <= i < |messages| && p(messages[i]) {
      assert messages[i] in Filter(messages, p);
    }
    if forall i :: 0 <= i < |messages| ==> !InChatOf(chats, userId, messages[i]) {
      FilterKeepsNone(messages, p);
    }
  }

  /** A user who just wrote in their own chat: the count as written says 0, the intended one 1. */
  lemma MessageCountAsWrittenMissesOwnChat()
    ensures var chats := [Chat("chat-1", "user-1", "Hello", Private, None, 0, 0)];
            var messages := [Message("msg-1", "chat-1", "user", "[]", "[]", 5, 5)];
      && MessageCountAsWritten(messages, "user-1", 24, 10) == 0
      && MessageCountByUserId(chats, messages, "user-1", 24, 10) == 1
  {
    var chats := [Chat("chat-1", "user-1", "Hello", Private, None, 0, 0)];
    var messages := [Message("msg-1", "chat-1", "user", "[]", "[]", 5, 5)];
    assert chats[0].id == messages[0].chat_id && chats[0].user_id == "user-1";
    assert InChatOf(chats, "user-1", messages[0]);
    assert RecentUserMessageOf(chats, "user-1", 10 - 24 * HourMillis)(messages[0]);
  }

  // ---------------------------------------------------------------------------------------------
  // Characters and their tags

  function CharacterIs(id: string): Character -> bool { (c: Character) => c.id == id }
  function CharacterIsNot(id: string): Character -> bool { (c: Character) => c.id != id }
  function CharacterOwnedBy(userId: string): Character -> bool { (c: Character) => c.user_id == userId }
  /** `.eq('visibility', 'public')`. */
  function IsPublicCharacter(): Character -> bool { (c: Character) => c.visibility == "public" }

  /** `(a, b) => a.name <= b.name`: `.order('name', { ascending: true })`. */
  function ByName(): (Tag, Tag) -> bool { (a: Tag, b: Tag) => Text.LexLe(a.name, b.name) }

  lemma ByNameIsOrder()
    ensures Total(ByName()) && Transitive(ByName())
  {
    forall a: Tag, b: Tag ensures ByName()(a, b) || ByName()(b, a) {
      Text.LexLeTotal(a.name, b.name);
    }
    forall a: Tag, b: Tag, c: Tag | ByName()(a, b) && ByName()(b, c) ensures ByName()(a, c) {
      Text.LexLeTransitive(a.name, b.name, c.name);
    }
  }

  function JunctionOf(characterId: string): CharacterTag -> bool
  {
    (ct: CharacterTag) => ct.character_id == characterId
  }

  function JunctionOutside(characterId: string): CharacterTag -> bool
  {
    (ct: CharacterTag) => ct.character_id != characterId
  }

  /** `.eq('character_id', characterId).in('tag_id', tagIds)` and its complement. */
  function JunctionIn(characterId: string, tagIds: seq<string>): CharacterTag -> bool
  {
    (ct: CharacterTag) => ct.character_id == characterId && ct.tag_id in tagIds
  }

  function JunctionNotIn(characterId: string, tagIds: seq<string>): CharacterTag -> bool
  {
    (ct: CharacterTag) => !(ct.character_id == characterId && ct.tag_id in tagIds)
  }

  /** The rows `insertCharacterTags` builds, one per tag id, in order. */
  function JunctionRows(characterId: string, tagIds: seq<string>, now: int): (r: seq<CharacterTag>)
    ensures |r| == |tagIds|
    ensures forall i :: 0 <= i < |r| ==> r[i] == CharacterTag(characterId, tagIds[i], now)
  {
    Map(tagIds, (t: string) => CharacterTag(characterId, t, now))
  }

  /** The tag ids a character currently has, in table order (`.select('tag_id').eq('character_id', id)`). */
  function CurrentTagIds(junction: seq<CharacterTag>, characterId: string): seq<string>
  {
    Map(Filter(junction, JunctionOf(characterId)), CharacterTagId)
  }

  /** The set of tags of a character. */
  function TagSetOf(junction: seq<CharacterTag>, characterId: string): set<string>
  {
    set ct | ct in junction && ct.character_id == characterId :: ct.tag_id
  }

  lemma CurrentTagIdsAreTagSet(junction: seq<CharacterTag>, characterId: string)
    ensures IdSet(CurrentTagIds(junction, characterId)) == TagSetOf(junction, characterId)
  {
    var mine := Filter(junction, JunctionOf(characterId));
    var ids := CurrentTagIds(junction, characterId);
    forall x | x in IdSet(ids) ensures x in TagSetOf(junction, characterId) {
      var i :| 0 <= i < |ids| && ids[i] == x;
      assert mine[i] in junction && mine[i].character_id == characterId;
    }
    forall x | x in TagSetOf(junction, characterId) ensures x in IdSet(ids) {
      var ct :| ct in junction && ct.character_id == characterId && ct.tag_id == x;
      assert ct in mine;
      var i :| 0 <= i < |mine| && mine[i] == ct;
      assert ids[i] == x;
    }
  }

  /** Deleting some tag ids of a character removes exactly those from its tag set. */
  lemma TagSetAfterDelete(junction: seq<CharacterTag>, characterId: string, tagIds: seq<string>)
    ensures TagSetOf(Filter(junction, JunctionNotIn(characterId, tagIds)), characterId)
         == TagSetOf(junction, characterId) - IdSet(tagIds)
  {
    var kept := Filter(junction, JunctionNotIn(characterId, tagIds));
    forall x | x in TagSetOf(kept, characterId) ensures x in TagSetOf(junction, characterId) - IdSet(tagIds) {
      var ct :| ct in kept && ct.character_id == characterId && ct.tag_id == x;
      var k :| 0 <= k < |kept| && kept[k] == ct;
      assert ct in junction && x !in tagIds;
    }
    forall x | x in TagSetOf(junction, characterId) - IdSet(tagIds) ensures x in TagSetOf(kept, characterId) {
      var ct :| ct in junction && ct.character_id == characterId && ct.tag_id == x;
      forall i | 0 <= i < |tagIds| ensures tagIds[i] != x {
        assert tagIds[i] in IdSet(tagIds);
      }
      var k :| 0 <= k < |junction| && junction[k] == ct;
      assert ct in kept;
    }
  }

  /** Inserting rows for some tag ids of a character adds exactly those to its tag set. */
  lemma TagSetAfterInsert(junction: seq<CharacterTag>, characterId: string, tagIds: seq<string>, now: int)
    ensures TagSetOf(junction + JunctionRows(characterId, tagIds, now), characterId)
         == TagSetOf(junction, characterId) + IdSet(tagIds)
  {
    var rows := JunctionRows(characterId, tagIds, now);
    var all := junction + rows;
    forall x | x in TagSetOf(all, characterId) ensures x in TagSetOf(junction, characterId) + IdSet(tagIds) {
      var ct :| ct in all && ct.character_id == characterId && ct.tag_id == x;
      if ct !in junction {
        var k :| 0 <= k < |rows| && rows[k] == ct;
        assert tagIds[k] == x;
      }
    }
    forall x | x in TagSetOf(junction, characterId) + IdSet(tagIds) ensures x in TagSetOf(all, characterId) {
      if x in IdSet(tagIds) {
        var k :| 0 <= k < |tagIds| && tagIds[k] == x;
        assert rows[k] in all;
      } else {
        var ct :| ct in junction && ct.character_id == characterId && ct.tag_id == x;
        assert ct in all;
      }
    }
  }

  /**
   * The rows for distinct tag ids pass the junction's `(character_id, tag_id)` key exactly when
   * the character has none of those tags yet.
   */
  lemma JunctionRowsFreshIff(junction: seq<CharacterTag>, characterId: string, tagIds: seq<string>, now: int)
    requires Distinct(tagIds)
    ensures FreshKeys(junction, JunctionRows(characterId, tagIds, now), CharacterTagKey) <==>
      forall i :: 0 <= i < |tagIds| ==> tagIds[i] !in TagSetOf(junction, characterId)
  {
    var rows := JunctionRows(characterId, tagIds, now);
    assert DistinctBy(rows, CharacterTagKey) by {
      forall i, j | 0 <= i < j < |rows| ensures CharacterTagKey(rows[i]) != CharacterTagKey(rows[j]) {
        assert rows[i].tag_id == tagIds[i] && rows[j].tag_id == tagIds[j];
      }
    }
    forall i | 0 <= i < |tagIds|
      ensures HasKey(junction, CharacterTagKey, CharacterTagKey(rows[i])) <==> tagIds[i] in TagSetOf(junction, characterId)
    {
      if HasKey(junction, CharacterTagKey, CharacterTagKey(rows[i])) {
        var k :| 0 <= k < |junction| && CharacterTagKey(junction[k]) == CharacterTagKey(rows[i]);
        assert junction[k] in junction;
      }
      if tagIds[i] in TagSetOf(junction, characterId) {
        var ct :| ct in junction && ct.character_id == characterId && ct.tag_id == tagIds[i];
        var k :| 0 <= k < |junction| && junction[k] == ct;
        assert CharacterTagKey(junction[k]) == CharacterTagKey(rows[i]);
      }
    }
  }

  /**
   * When the insert of `insertCharacterTags` is accepted: nothing to insert, or a non-blank
   * character id, rows new under the junction's key, and both referenced rows present.
   */
  predicate TagInsertAccepted(characterId: string, tagIds: seq<string>, characters: seq<Character>,
                              tags: seq<Tag>, junction: seq<CharacterTag>, now: int)
  {
    |tagIds| == 0 ||
    (&& characterId != ""
     && FreshKeys(junction, JunctionRows(characterId, tagIds, now), CharacterTagKey)
     && HasKey(characters, CharacterKey, characterId)
     && forall i :: 0 <= i < |tagIds| ==> HasKey(tags, TagKey, tagIds[i]))
  }

  /**
   * Validated ids are inserted exactly when the character id is non-blank, the character exists
   * and has none of them yet.
   */
  lemma ValidatedInsertAccepted(characterId: string, tagIds: seq<string>, characters: seq<Character>,
                                tags: seq<Tag>, junction: seq<CharacterTag>, now: int)
    requires DistinctBy(tags, TagKey)
    requires ValidateTagIds(tagIds, tags).Pass?
    ensures TagInsertAccepted(characterId, tagIds, characters, tags, junction, now) <==>
      (tagIds != [] ==>
         && characterId != "" && HasKey(characters, CharacterKey, characterId)
         && forall i :: 0 <= i < |tagIds| ==> tagIds[i] !in TagSetOf(junction, characterId))
  {
    ValidatedIdsExist(tagIds, tags);
    JunctionRowsFreshIff(junction, characterId, tagIds, now);
  }

  /** The junction table after `syncCharacterTags` succeeds: unwanted rows deleted, missing ones added. */
  function SyncedJunction(junction: seq<CharacterTag>, characterId: string, desired: seq<string>, now: int)
    : seq<CharacterTag>
  {
    var current := CurrentTagIds(junction, characterId);
    Filter(junction, JunctionNotIn(characterId, Without(current, desired)))
      + JunctionRows(characterId, Without(desired, current), now)
  }

  /** After a successful sync the character's tag set is exactly the desired set. */
  lemma SyncReachesDesired(junction: seq<CharacterTag>, characterId: string, desired: seq<string>, now: int)
    ensures TagSetOf(SyncedJunction(junction, characterId, desired, now), characterId) == IdSet(desired)
  {
    var current := CurrentTagIds(junction, characterId);
    var toRemove := Without(current, desired);
    var toAdd := Without(desired, current);
    var kept := Filter(junction, JunctionNotIn(characterId, toRemove));
    TagSetAfterDelete(junction, characterId, toRemove);
    TagSetAfterInsert(kept, characterId, toAdd, now);
    CurrentTagIdsAreTagSet(junction, characterId);
    var cur := TagSetOf(junction, characterId);
    forall x | x in IdSet(desired) ensures x in (cur - IdSet(toRemove)) + IdSet(toAdd) {
      var i :| 0 <= i < |desired| && desired[i] == x;
      if x !in current {
        assert x in toAdd;
        var k :| 0 <= k < |toAdd| && toAdd[k] == x;
      } else {
        var k :| 0 <= k < |current| && current[k] == x;
        assert x in IdSet(current);
      }
    }
    forall x | x in (cur - IdSet(toRemove)) + IdSet(toAdd) ensures x in IdSet(desired) {
      if x in IdSet(toAdd) {
        var k :| 0 <= k < |toAdd| && toAdd[k] == x;
        var i :| 0 <= i < |desired| && desired[i] == x;
      } else {
        assert x in IdSet(current);
        var k :| 0 <= k < |current| && current[k] == x;
        var i :| 0 <= i < |desired| && desired[i] == x;
      }
    }
  }

  /**
   * The rows a sync inserts never clash with the rows left after its delete: each added id is
   * wanted and not yet a tag of the character.
   */
  lemma SyncInsertIsFresh(junction: seq<CharacterTag>, characterId: string, desired: seq<string>, now: int)
    requires Distinct(desired)
    ensures var current := CurrentTagIds(junction, characterId);
      FreshKeys(Filter(junction, JunctionNotIn(characterId, Without(current, desired))),
                JunctionRows(characterId, Without(desired, current), now), CharacterTagKey)
  {
    var current := CurrentTagIds(junction, characterId);
    var toRemove := Without(current, desired);
    var toAdd := Without(desired, current);
    var kept := Filter(junction, JunctionNotIn(characterId, toRemove));
    WithoutKeepsDistinct(desired, current);
    TagSetAfterDelete(junction, characterId, toRemove);
    CurrentTagIdsAreTagSet(junction, characterId);
    forall x | x in IdSet(current) ensures x in current {
      var k :| 0 <= k < |current| && current[k] == x;
    }
    assert forall i :: 0 <= i < |toAdd| ==> toAdd[i] !in TagSetOf(kept, characterId);
    JunctionRowsFreshIff(kept, characterId, toAdd, now);
  }

  /**
   * After validation, the insert of a sync is accepted exactly when there is nothing to add or the
   * character id is non-blank and names a character.
   */
  lemma SyncInsertAccepted(junction: seq<CharacterTag>, characterId: string, desired: seq<string>,
                           characters: seq<Character>, tags: seq<Tag>, now: int)
    requires DistinctBy(tags, TagKey)
    requires ValidateTagIds(desired, tags).Pass?
    ensures var current := CurrentTagIds(junction, characterId);
      TagInsertAccepted(characterId, Without(desired, current), characters, tags,
                        Filter(junction, JunctionNotIn(characterId, Without(current, desired))), now)
      <==> (Without(desired, current) != [] ==> characterId != "" && HasKey(characters, CharacterKey, characterId))
  {
    var current := CurrentTagIds(junction, characterId);
    var toAdd := Without(desired, current);
    ValidatedIdsExist(desired, tags);
    SyncInsertIsFresh(junction, characterId, desired, now);
    assert forall i :: 0 <= i < |toAdd| ==> HasKey(tags, TagKey, toAdd[i]);
  }

  /** A second sync to the same tags changes nothing. */
  lemma SyncIdempotent(junction: seq<CharacterTag>, characterId: string, desired: seq<string>, now: int, later: int)
    ensures var once := SyncedJunction(junction, characterId, desired, now);
      SyncedJunction(once, characterId, desired, later) == once
  {
    var once := SyncedJunction(junction, characterId, desired, now);
    SyncReachesDesired(junction, characterId, desired, now);
    CurrentTagIdsAreTagSet(once, characterId);
    var current := CurrentTagIds(once, characterId);
    SyncDiffsEmptyWhenSynced(current, desired);
    FilterKeepsAll(once, JunctionNotIn(characterId, []));
  }

  /** A sync touches no other character's rows. */
  lemma SyncKeepsOtherCharacters(junction: seq<CharacterTag>, characterId: string, desired: seq<string>,
                                 now: int, ct: CharacterTag)
    requires ct.character_id != characterId
    ensures ct in SyncedJunction(junction, characterId, desired, now) <==> ct in junction
  {
    var current := CurrentTagIds(junction, characterId);
    var kept := Filter(junction, JunctionNotIn(characterId, Without(current, desired)));
    var rows := JunctionRows(characterId, Without(desired, current), now);
    if ct in junction {
      assert ct in kept;
    }
    if ct in kept + rows {
      var k :| 0 <= k < |kept| && kept[k] == ct;
    }
  }

  /**
   * The ids `modifyCharacterTags` inserts: those to add that the character lacks once the ids to
   * remove are deleted.
   */
  function AddedByModify(junction: seq<CharacterTag>, characterId: string,
                         addTagIds: seq<string>, removeTagIds: seq<string>): seq<string>
  {
    var afterRemove := Filter(junction, JunctionNotIn(characterId, removeTagIds));
    Without(addTagIds, Map(Filter(afterRemove, JunctionIn(characterId, addTagIds)), CharacterTagId))
  }

  /** The junction table after `modifyCharacterTags` succeeds. */
  function ModifiedJunction(junction: seq<CharacterTag>, characterId: string,
                            addTagIds: seq<string>, removeTagIds: seq<string>, now: int): seq<CharacterTag>
  {
    Filter(junction, JunctionNotIn(characterId, removeTagIds))
      + JunctionRows(characterId, AddedByModify(junction, characterId, addTagIds, removeTagIds), now)
  }

  /** The rows `modifyCharacterTags` inserts never clash with the rows left after its delete. */
  lemma ModifyInsertIsFresh(junction: seq<CharacterTag>, characterId: string,
                            addTagIds: seq<string>, removeTagIds: seq<string>, now: int)
    requires Distinct(addTagIds)
    ensures FreshKeys(Filter(junction, JunctionNotIn(characterId, removeTagIds)),
                      JunctionRows(characterId, AddedByModify(junction, characterId, addTagIds, removeTagIds), now),
                      CharacterTagKey)
  {
    var afterRemove := Filter(junction, JunctionNotIn(characterId, removeTagIds));
    var hits := Filter(afterRemove, JunctionIn(characterId, addTagIds));
    var existing := Map(hits, CharacterTagId);
    var newIds := AddedByModify(junction, characterId, addTagIds, removeTagIds);
    WithoutKeepsDistinct(addTagIds, existing);
    forall ct | ct in afterRemove && ct.character_id == characterId && ct.tag_id in addTagIds
      ensures ct.tag_id in existing
    {
      var k :| 0 <= k < |afterRemove| && afterRemove[k] == ct;
      assert ct in hits;
      var h :| 0 <= h < |hits| && hits[h] == ct;
      assert existing[h] == ct.tag_id;
    }
    assert forall i :: 0 <= i < |newIds| ==> newIds[i] !in TagSetOf(afterRemove, characterId);
    JunctionRowsFreshIff(afterRemove, characterId, newIds, now);
  }

  /**
   * After validation, the insert of `modifyCharacterTags` is accepted exactly when nothing is left
   * to add or the character id is non-blank and names a character.
   */
  lemma ModifyInsertAccepted(junction: seq<CharacterTag>, characterId: string,
                             addTagIds: seq<string>, removeTagIds: seq<string>,
                             characters: seq<Character>, tags: seq<Tag>, now: int)
    requires DistinctBy(tags, TagKey)
    requires ValidateTagIds(addTagIds, tags).Pass?
    ensures var newIds := AddedByModify(junction, characterId, addTagIds, removeTagIds);
      TagInsertAccepted(characterId, newIds, characters, tags,
                        Filter(junction, JunctionNotIn(characterId, removeTagIds)), now)
      <==> (newIds != [] ==> characterId != "" && HasKey(characters, CharacterKey, characterId))
  {
    var newIds := AddedByModify(junction, characterId, addTagIds, removeTagIds);
    ValidatedIdsExist(addTagIds, tags);
    ModifyInsertIsFresh(junction, characterId, addTagIds, removeTagIds, now);
    assert forall i :: 0 <= i < |newIds| ==> HasKey(tags, TagKey, newIds[i]);
  }

  /** After a successful `modifyCharacterTags` the tag set is `(old \ remove) ∪ add`. */
  lemma ModifyTagSet(junction: seq<CharacterTag>, characterId: string,
                     addTagIds: seq<string>, removeTagIds: seq<string>, now: int)
    ensures TagSetOf(ModifiedJunction(junction, characterId, addTagIds, removeTagIds, now), characterId)
         == (TagSetOf(junction, characterId) - IdSet(removeTagIds)) + IdSet(addTagIds)
  {
    var afterRemove := Filter(junction, JunctionNotIn(characterId, removeTagIds));
    var hits := Filter(afterRemove, JunctionIn(characterId, addTagIds));
    var existing := Map(hits, CharacterTagId);
    var newIds := Without(addTagIds, existing);
    TagSetAfterDelete(junction, characterId, removeTagIds);
    TagSetAfterInsert(afterRemove, characterId, newIds, now);
    var mid := TagSetOf(afterRemove, characterId);
    forall x | x in IdSet(addTagIds) ensures x in mid + IdSet(newIds) {
      var i :| 0 <= i < |addTagIds| && addTagIds[i] == x;
      if x in existing {
        var k :| 0 <= k < |existing| && existing[k] == x;
        assert hits[k] in afterRemove && hits[k].character_id == characterId;
      } else {
        assert x in newIds;
        var k :| 0 <= k < |newIds| && newIds[k] == x;
      }
    }
    forall x | x in IdSet(newIds) ensures x in IdSet(addTagIds) {
      var k :| 0 <= k < |newIds| && newIds[k] == x;
      var i :| 0 <= i < |addTagIds| && addTagIds[i] == x;
    }
  }

  // ---------------------------------------------------------------------------------------------
  // Listings

  /** `getMessagesByChatId`'s order and `getStreamIdsByChatId`'s order: oldest first. */
  function ChatMessagesOldestFirst(messages: seq<Message>, chatId: string): (r: seq<Message>)
    ensures multiset(r) == multiset(Filter(messages, MessageOf(chatId)))
    ensures SortedBy(r, OldestFirst(MessageCreatedAt))
  {
    OldestFirstIsOrder(MessageCreatedAt);
    SortBySorted(Filter(messages, MessageOf(chatId)), OldestFirst(MessageCreatedAt));
    SortBy(Filter(messages, MessageOf(chatId)), OldestFirst(MessageCreatedAt))
  }

  /** `getStreamIdsByChatId`'s rows: the chat's stream markers, oldest first. */
  function ChatStreamsOldestFirst(streams: seq<StreamMarker>, chatId: string): (r: seq<StreamMarker>)
    ensures multiset(r) == multiset(Filter(streams, StreamOf(chatId)))
    ensures SortedBy(r, OldestFirst(StreamCreatedAt))
  {
    OldestFirstIsOrder(StreamCreatedAt);
    SortBySorted(Filter(streams, StreamOf(chatId)), OldestFirst(StreamCreatedAt));
    SortBy(Filter(streams, StreamOf(chatId)), OldestFirst(StreamCreatedAt))
  }

  /** The ids listed are the ids of the chat's markers: one per marker, none from another chat. */
  lemma StreamIdsOfChat(streams: seq<StreamMarker>, chatId: string)
    ensures var ids := Map(ChatStreamsOldestFirst(streams, chatId), StreamKey);
      && |ids| == |Filter(streams, StreamOf(chatId))|
      && (forall i :: 0 <= i < |ids| ==> exists s :: s in streams && s.chat_id == chatId && s.id == ids[i])
      && (forall s :: s in streams && s.chat_id == chatId ==> s.id in ids)
  {
    var mine := Filter(streams, StreamOf(chatId));
    var ordered := ChatStreamsOldestFirst(streams, chatId);
    var ids := Map(ordered, StreamKey);
    assert |ordered| == |multiset(ordered)| == |mine|;
    forall i | 0 <= i < |ids| ensures exists s :: s in streams && s.chat_id == chatId && s.id == ids[i] {
      assert ordered[i] in multiset(mine);
      assert ordered[i] in mine;
    }
    forall s | s in streams && s.chat_id == chatId ensures s.id in ids {
      assert s in mine;
      assert s in multiset(ordered);
      var k :| 0 <= k < |ordered| && ordered[k] == s;
      assert ids[k] == s.id;
    }
  }
}
