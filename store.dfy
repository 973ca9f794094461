/**
 * The storage layer of lib/supabase/services/queries.ts over in-memory tables. Each exported
 * query is a method of `Store`; its contract says which rows it adds, removes or returns and
 * which `ChatSDKError` it raises. The database's own rejections are modelled for what the core
 * relies on: `.single()` on zero or several rows, a key already taken and a missing foreign row on
 * insert. Clock values (`new Date()`) and generated ids are parameters.
 */
module Queries {
  import opened Wrappers
  import opened Errors
  import opened Relational
  import opened Records
  import opened Pagination
  import opened TagLogic
  import opened Tables

  /**
   * The columns `updateCharacter` may set; `None` leaves a column as it is. `updated_at` is always
   * overwritten by the clock, and `id` is not patchable here (see README, "Left out").
   */
  datatype CharacterPatch = CharacterPatch(
    user_id: Option<string>,
    name: Option<string>,
    description: Option<Option<string>>,
    personality: Option<Option<string>>,
    scenario: Option<Option<string>>,
    first_message: Option<Option<string>>,
    message_example: Option<Option<string>>,
    creator_notes: Option<Option<string>>,
    system_prompt: Option<string>,
    post_history_instructions: Option<Option<string>>,
    alternate_greetings: Option<Option<seq<string>>>,
    avatar_url: Option<Option<string>>,
    character_version: Option<int>,
    is_nsfw: Option<bool>,
    visibility: Option<string>,
    created_at: Option<int>)

  /** The patch that sets no column. */
  function EmptyPatch(): CharacterPatch
  {
    CharacterPatch(None, None, None, None, None, None, None, None, None, None, None, None, None, None, None, None)
  }

  function Patched<T>(current: T, update: Option<T>): T
  {
    if update.Some? then update.value else current
  }

  /** `{ ...updates, updated_at: now }` applied to one character row. */
  function ApplyPatch(c: Character, p: CharacterPatch, now: int): (r: Character)
    ensures r.id == c.id && r.updated_at == now
    ensures p.user_id.None? ==> r.user_id == c.user_id
    ensures p.created_at.None? ==> r.created_at == c.created_at
    ensures p == EmptyPatch() ==> r == c.(updated_at := now)
  {
    c.(user_id := Patched(c.user_id, p.user_id),
       name := Patched(c.name, p.name),
       description := Patched(c.description, p.description),
       personality := Patched(c.personality, p.personality),
       scenario := Patched(c.scenario, p.scenario),
       first_message := Patched(c.first_message, p.first_message),
       message_example := Patched(c.message_example, p.message_example),
       creator_notes := Patched(c.creator_notes, p.creator_notes),
       system_prompt := Patched(c.system_prompt, p.system_prompt),
       post_history_instructions := Patched(c.post_history_instructions, p.post_history_instructions),
       alternate_greetings := Patched(c.alternate_greetings, p.alternate_greetings),
       avatar_url := Patched(c.avatar_url, p.avatar_url),
       character_version := Patched(c.character_version, p.character_version),
       is_nsfw := Patched(c.is_nsfw, p.is_nsfw),
       visibility := Patched(c.visibility, p.visibility),
       created_at := Patched(c.created_at, p.created_at),
       updated_at := now)
  }

  /** `.update({ ...updates, updated_at }).eq('id', id)`. */
  function PatchCharacter(id: string, p: CharacterPatch, now: int): Character -> Character
  {
    (c: Character) => if c.id == id then ApplyPatch(c, p, now) else c
  }

  /** The arguments of `createCharacterWithTagValidation` (optional ones as `Option`). */
  datatype NewCharacter = NewCharacter(
    userId: string,
    name: string,
    description: Option<string>,
    personality: Option<string>,
    scenario: Option<string>,
    firstMessage: Option<string>,
    messageExample: Option<string>,
    creatorNotes: Option<string>,
    systemPrompt: string,
    postHistoryInstructions: Option<string>,
    alternateGreetings: Option<seq<string>>,
    avatarUrl: Option<string>,
    characterVersion: Option<int>,
    isNsfw: Option<bool>,
    visibility: Option<string>,
    tagIds: Option<seq<string>>)

  /**
   * The row `createCharacterWithTagValidation` inserts: `characterVersion || 1`,
   * `isNsfw || false`, `visibility || 'private'` (0 and "" are falsy as well as a missing value).
   */
  function NewCharacterRow(id: string, input: NewCharacter, now: int): Character
  {
    Character(id, input.userId, input.name, input.description, input.personality, input.scenario,
              input.firstMessage, input.messageExample, input.creatorNotes, input.systemPrompt,
              input.postHistoryInstructions, input.alternateGreetings, input.avatarUrl,
              if input.characterVersion.None? || input.characterVersion.value == 0 then 1
              else input.characterVersion.value,
              input.isNsfw == Some(true),
              if input.visibility.None? || input.visibility.value == "" then "private"
              else input.visibility.value,
              now, now)
  }

  /** A character created without version, NSFW flag or visibility is version 1, not NSFW and private. */
  lemma NewCharacterDefaults(id: string, input: NewCharacter, now: int)
    ensures var row := NewCharacterRow(id, input, now);
      && row.id == id && row.user_id == input.userId && row.created_at == now
      && (input.characterVersion.None? ==> row.character_version == 1)
      && (input.isNsfw.None? ==> !row.is_nsfw)
      && (input.visibility.None? ==> row.visibility == "private")
      && (input.visibility == Some("public") ==> row.visibility == "public")
  {
  }

  /** Whether `createCharacterWithTagValidation` has tags to handle: `tagIds && tagIds.length > 0`. */
  predicate WantsTags(input: NewCharacter)
  {
    input.tagIds.Some? && |input.tagIds.value| > 0
  }

  /**
   * When `createCharacterWithTagValidation` succeeds: the new id is free and, when there are tags,
   * they pass validation, the id is non-blank and none of the tags is attached to it yet.
   */
  predicate CreateAccepted(input: NewCharacter, newId: string, characters: seq<Character>, tags: seq<Tag>,
                           junction: seq<CharacterTag>)
  {
    && !HasKey(characters, CharacterKey, newId)
    && (WantsTags(input) ==>
          && ValidateTagIds(input.tagIds.value, tags).Pass?
          && newId != ""
          && forall i :: 0 <= i < |input.tagIds.value| ==> input.tagIds.value[i] !in TagSetOf(junction, newId))
  }

  /**
   * The characters table after `createCharacterWithTagValidation`: the new row is inserted once the
   * tags (if any) validate and the id is free, and it stays even when the tag insert then fails.
   */
  function CharactersAfterCreate(input: NewCharacter, newId: string, characters: seq<Character>, tags: seq<Tag>,
                                 now: int): seq<Character>
  {
    if (WantsTags(input) && ValidateTagIds(input.tagIds.value, tags).Fail?) || HasKey(characters, CharacterKey, newId)
    then characters
    else characters + [NewCharacterRow(newId, input, now)]
  }

  /** The junction table after `createCharacterWithTagValidation`: the tag rows only when the create succeeds. */
  function JunctionAfterCreate(input: NewCharacter, newId: string, characters: seq<Character>, tags: seq<Tag>,
                               junction: seq<CharacterTag>, now: int): seq<CharacterTag>
  {
    if CreateAccepted(input, newId, characters, tags, junction) && WantsTags(input)
    then junction + JunctionRows(newId, input.tagIds.value, now)
    else junction
  }

  /** An accepted create attaches every tag of its input, none when the list is empty. */
  lemma AcceptedCreateAttachesTags(input: NewCharacter, newId: string, characters: seq<Character>, tags: seq<Tag>,
                                   junction: seq<CharacterTag>, now: int)
    requires CreateAccepted(input, newId, characters, tags, junction)
    requires input.tagIds.Some?
    ensures JunctionAfterCreate(input, newId, characters, tags, junction, now) ==
      junction + JunctionRows(newId, input.tagIds.value, now)
  {
    if !WantsTags(input) {
      assert JunctionRows(newId, input.tagIds.value, now) == [];
    }
  }

  /** `addTagIds && addTagIds.length > 0 ? addTagIds : []`. */
  function ListOrEmpty(ids: Option<seq<string>>): seq<string>
  {
    if ids.Some? then ids.value else []
  }

  /** One row of `getTagsByCharacterId`: the junction's tag id and the embedded tag, if any. */
  datatype TagLink = TagLink(tag_id: string, tags: Option<Tag>)

  function TagIs(id: string): Tag -> bool { (t: Tag) => t.id == id }

  function LinkOf(tags: seq<Tag>): CharacterTag -> TagLink
  {
    (ct: CharacterTag) => TagLink(ct.tag_id, Single(tags, TagIs(ct.tag_id)))
  }

  /** The tables the core reads and writes. */
  class Store {
    var chats: seq<Chat>
    var messages: seq<Message>
    var votes: seq<Vote>
    var streams: seq<StreamMarker>
    var documents: seq<Document>
    var suggestions: seq<Suggestion>
    var characters: seq<Character>
    var tags: seq<Tag>
    var characterTags: seq<CharacterTag>

    /**
     * Every table keeps its key. The vote table is keyed by `(chat_id, message_id)`; the stronger
     * "one vote per message" holds because `voteMessage`, the only writer, updates the existing
     * vote of a message instead of adding a second.
     */
    ghost predicate Valid()
      reads this
    {
      && DistinctBy(chats, ChatKey)
      && DistinctBy(messages, MessageKey)
      && DistinctBy(votes, VoteKey)
      && DistinctBy(streams, StreamKey)
      && DistinctBy(documents, DocumentKey)
      && DistinctBy(suggestions, SuggestionKey)
      && DistinctBy(characters, CharacterKey)
      && DistinctBy(tags, TagKey)
      && DistinctBy(characterTags, CharacterTagKey)
    }

    constructor ()
      ensures Valid()
      ensures chats == [] && messages == [] && votes == [] && streams == [] && documents == []
      ensures suggestions == [] && characters == [] && tags == [] && characterTags == []
    {
      chats, messages, votes, streams, documents := [], [], [], [], [];
      suggestions, characters, tags, characterTags := [], [], [], [];
    }

    // -------------------------------------------------------------------------------------------
    // Chats

    /** `saveChat`: inserts the chat, failing on a taken id or an unknown character. */
    method SaveChat(id: string, userId: string, title: string, visibility: Visibility,
                    characterId: Option<string>, now: int) returns (r: Result<Chat, ChatSdkError>)
      requires Valid()
      modifies this`chats
      ensures Valid()
      ensures r.Success? <==>
        !HasKey(old(chats), ChatKey, id) && (characterId.Some? ==> HasKey(characters, CharacterKey, characterId.value))
      ensures r.Success? ==>
        r.value == Chat(id, userId, title, visibility, characterId, now, now) && chats == old(chats) + [r.value]
      ensures r.Failure? ==> r.error == DatabaseError("Failed to save chat") && chats == old(chats)
    {
      var row := Chat(id, userId, title, visibility, characterId, now, now);
      if HasKey(chats, ChatKey, id) || (characterId.Some? && !HasKey(characters, CharacterKey, characterId.value)) {
        r := Failure(DatabaseError("Failed to save chat"));
      } else {
        InsertKeepsDistinct(chats, [row], ChatKey);
        chats := chats + [row];
        r := Success(row);
      }
    }

    /**
     * `deleteChatById`: deletes the chat's votes, messages and stream markers, then the chat, and
     * returns it; rows of every other chat stay. The steps are not one transaction.
     */
    method DeleteChatById(id: string) returns (r: Result<Chat, ChatSdkError>)
      requires Valid()
      modifies this`votes, this`messages, this`streams, this`chats
      ensures Valid()
      ensures votes == Filter(old(votes), VoteOutside(id))
      ensures messages == Filter(old(messages), MessageOutside(id))
      ensures streams == Filter(old(streams), StreamOutside(id))
      ensures chats == Filter(old(chats), ChatIsNot(id))
      ensures forall v :: v in votes <==> v in old(votes) && v.chat_id != id
      ensures forall m :: m in messages <==> m in old(messages) && m.chat_id != id
      ensures forall s :: s in streams <==> s in old(streams) && s.chat_id != id
      ensures forall c :: c in chats <==> c in old(chats) && c.id != id
      ensures r.Success? <==> HasKey(old(chats), ChatKey, id)
      ensures r.Success? ==> r.value in old(chats) && r.value.id == id
      ensures r.Failure? ==> r.error == DatabaseError("Failed to delete chat by id")
    {
      DeleteRowsOfChat(id);
      var deleted := Single(chats, ChatIs(id));
      SingleByKey(chats, ChatKey, id, ChatIs(id));
      FilterKeepsDistinct(chats, ChatIsNot(id), ChatKey);
      FilterMembers(chats, ChatIsNot(id));
      chats := Filter(chats, ChatIsNot(id));
      if deleted.Some? {
        r := Success(deleted.value);
      } else {
        r := Failure(DatabaseError("Failed to delete chat by id"));
      }
    }

    /** The first three deletes of `deleteChatById`: the chat's votes, messages and stream markers. */
    method DeleteRowsOfChat(id: string)
      requires Valid()
      modifies this`votes, this`messages, this`streams
      ensures Valid()
      ensures votes == Filter(old(votes), VoteOutside(id))
      ensures messages == Filter(old(messages), MessageOutside(id))
      ensures streams == Filter(old(streams), StreamOutside(id))
      ensures forall v :: v in votes <==> v in old(votes) && v.chat_id != id
      ensures forall m :: m in messages <==> m in old(messages) && m.chat_id != id
      ensures forall s :: s in streams <==> s in old(streams) && s.chat_id != id
    {
      FilterKeepsDistinct(votes, VoteOutside(id), VoteKey);
      FilterMembers(votes, VoteOutside(id));
      votes := Filter(votes, VoteOutside(id));
      FilterKeepsDistinct(messages, MessageOutside(id), MessageKey);
      FilterMembers(messages, MessageOutside(id));
      messages := Filter(messages, MessageOutside(id));
      FilterKeepsDistinct(streams, StreamOutside(id), StreamKey);
      FilterMembers(streams, StreamOutside(id));
      streams := Filter(streams, StreamOutside(id));
    }

    /**
     * `getChatsByUserId`: a newest-first page of the user's chats, after the cursor; an unknown
     * cursor's `not_found:database` is re-raised as `bad_request:database`.
     */
    method GetChatsByUserId(id: string, limit: nat, startingAfter: Option<string>, endingBefore: Option<string>)
      returns (r: Result<Page<Chat>, ChatSdkError>)
      ensures r.Failure? <==> UnknownCursor(chats, ChatKey, ChatCreatedAt, startingAfter, endingBefore)
      ensures r.Failure? ==> r.error == DatabaseError("Failed to get chats by user id")
      ensures r.Success? ==> IsNewestPage(r.value,
        Matching(chats, ChatOwnedBy(id), ChatCreatedAt, CursorWindow(chats, ChatKey, ChatCreatedAt, startingAfter, endingBefore)),
        ChatCreatedAt, limit)
    {
      var listed := ListPage(chats, ChatOwnedBy(id), ChatKey, ChatCreatedAt, limit, startingAfter, endingBefore, "Chat");
      ListPageFailsOnUnknownCursor(chats, ChatOwnedBy(id), ChatKey, ChatCreatedAt, limit, startingAfter, endingBefore, "Chat");
      match listed {
        case Failure(_) =>
          r := Failure(DatabaseError("Failed to get chats by user id"));
        case Success(p) =>
          FetchPageIsNewestPage(Matching(chats, ChatOwnedBy(id), ChatCreatedAt,
            CursorWindow(chats, ChatKey, ChatCreatedAt, startingAfter, endingBefore)), ChatCreatedAt, limit);
          r := Success(p);
      }
    }

    /** `getChatById`: the chat with that id, or an error when there is none. */
    method GetChatById(id: string) returns (r: Result<Chat, ChatSdkError>)
      requires Valid()
      ensures r.Success? <==> HasKey(chats, ChatKey, id)
      ensures r.Success? ==> r.value in chats && r.value.id == id
      ensures r.Failure? ==> r.error == DatabaseError("Failed to get chat by id")
    {
      var found := Single(chats, ChatIs(id));
      SingleByKey(chats, ChatKey, id, ChatIs(id));
      if found.Some? {
        r := Success(found.value);
      } else {
        r := Failure(DatabaseError("Failed to get chat by id"));
      }
    }

    /** `updateChatVisiblityById`: sets the visibility of the one chat with that id. */
    method UpdateChatVisiblityById(chatId: string, visibility: Visibility) returns (r: Result<Chat, ChatSdkError>)
      requires Valid()
      modifies this`chats
      ensures Valid()
      ensures r.Success? <==> HasKey(old(chats), ChatKey, chatId)
      ensures r.Success? ==>
        && chats == Map(old(chats), SetVisibility(chatId, visibility))
        && r.value in chats && r.value.id == chatId && r.value.visibility == visibility
      ensures r.Failure? ==> r.error == DatabaseError("Failed to update chat visibility by id") && chats == old(chats)
    {
      var found := Single(chats, ChatIs(chatId));
      SingleByKey(chats, ChatKey, chatId, ChatIs(chatId));
      if found.Some? {
        MapKeepsDistinct(chats, SetVisibility(chatId, visibility), ChatKey);
        var k :| 0 <= k < |chats| && chats[k] == found.value;
        chats := Map(chats, SetVisibility(chatId, visibility));
        assert chats[k] == found.value.(visibility := visibility);
        r := Success(chats[k]);
      } else {
        r := Failure(DatabaseError("Failed to update chat visibility by id"));
      }
    }

    /** `getChatsByCharacterId`: a newest-first page of the chats with that character. */
    method GetChatsByCharacterId(characterId: string, limit: nat, startingAfter: Option<string>,
                                 endingBefore: Option<string>)
      returns (r: Result<Page<Chat>, ChatSdkError>)
      ensures r.Failure? <==> UnknownCursor(chats, ChatKey, ChatCreatedAt, startingAfter, endingBefore)
      ensures r.Failure? ==> r.error == DatabaseError("Failed to get chats by character id")
      ensures r.Success? ==> IsNewestPage(r.value,
        Matching(chats, ChatWithCharacter(characterId), ChatCreatedAt,
                 CursorWindow(chats, ChatKey, ChatCreatedAt, startingAfter, endingBefore)),
        ChatCreatedAt, limit)
    {
      var listed := ListPage(chats, ChatWithCharacter(characterId), ChatKey, ChatCreatedAt, limit,
                             startingAfter, endingBefore, "Chat");
      ListPageFailsOnUnknownCursor(chats, ChatWithCharacter(characterId), ChatKey, ChatCreatedAt, limit,
                                   startingAfter, endingBefore, "Chat");
      match listed {
        case Failure(_) =>
          r := Failure(DatabaseError("Failed to get chats by character id"));
        case Success(p) =>
          FetchPageIsNewestPage(Matching(chats, ChatWithCharacter(characterId), ChatCreatedAt,
            CursorWindow(chats, ChatKey, ChatCreatedAt, startingAfter, endingBefore)), ChatCreatedAt, limit);
          r := Success(p);
      }
    }

    // -------------------------------------------------------------------------------------------
    // Messages, votes, stream markers

    /** `saveMessages`: inserts all the messages or none. */
    method SaveMessages(rows: seq<Message>) returns (r: Result<seq<Message>, ChatSdkError>)
      requires Valid()
      modifies this`messages
      ensures Valid()
      ensures r.Success? <==>
        FreshKeys(old(messages), rows, MessageKey) && forall i :: 0 <= i < |rows| ==> HasKey(chats, ChatKey, rows[i].chat_id)
      ensures r.Success? ==> r.value == rows && messages == old(messages) + rows
      ensures r.Failure? ==> r.error == DatabaseError("Failed to save messages") && messages == old(messages)
    {
      if FreshKeys(messages, rows, MessageKey) && forall i :: 0 <= i < |rows| ==> HasKey(chats, ChatKey, rows[i].chat_id) {
        InsertKeepsDistinct(messages, rows, MessageKey);
        messages := messages + rows;
        r := Success(rows);
      } else {
        r := Failure(DatabaseError("Failed to save messages"));
      }
    }

    /** `getMessagesByChatId`: every message of the chat, each once, oldest first. */
    method GetMessagesByChatId(id: string) returns (rows: seq<Message>)
      ensures multiset(rows) == multiset(Filter(messages, MessageOf(id)))
      ensures SortedBy(rows, OldestFirst(MessageCreatedAt))
      ensures forall m :: m in rows <==> m in messages && m.chat_id == id
    {
      rows := ChatMessagesOldestFirst(messages, id);
      forall m ensures m in rows <==> m in messages && m.chat_id == id {
        assert m in rows <==> m in multiset(rows);
        assert m in Filter(messages, MessageOf(id)) <==> m in multiset(Filter(messages, MessageOf(id)));
      }
    }

    /** `getMessageById`: the messages with that id (at most one). */
    method GetMessageById(id: string) returns (rows: seq<Message>)
      requires Valid()
      ensures |rows| <= 1
      ensures forall m :: m in rows <==> m in messages && m.id == id
    {
      rows := Filter(messages, MessageIs(id));
      SingleByKey(messages, MessageKey, id, MessageIs(id));
    }

    /**
     * `deleteMessagesByChatIdAfterTimestamp`: when the chat has messages at or after `timestamp`,
     * deletes their votes and then them, returning the deleted messages; otherwise changes
     * nothing and returns nothing.
     */
    method DeleteMessagesByChatIdAfterTimestamp(chatId: string, timestamp: int) returns (r: Option<seq<Message>>)
      requires Valid()
      modifies this`votes, this`messages
      ensures Valid()
      ensures Filter(old(messages), MessageFrom(chatId, timestamp)) == [] ==>
        r.None? && messages == old(messages) && votes == old(votes)
      ensures Filter(old(messages), MessageFrom(chatId, timestamp)) != [] ==>
        && r == Some(Filter(old(messages), MessageFrom(chatId, timestamp)))
        && messages == Filter(old(messages), MessageBefore(chatId, timestamp))
        && votes == Filter(old(votes), VoteNotOn(chatId, DoomedIds(old(messages), chatId, timestamp)))
      ensures forall m :: m in messages <==> m in old(messages) && !(m.chat_id == chatId && m.created_at >= timestamp)
    {
      var messagesToDelete := Filter(messages, MessageFrom(chatId, timestamp));
      if |messagesToDelete| > 0 {
        var messageIds := Map(messagesToDelete, MessageKey);
        DeleteByIdsIsDeleteByTimestamp(messages, chatId, timestamp);
        FilterKeepsDistinct(votes, VoteNotOn(chatId, messageIds), VoteKey);
        votes := Filter(votes, VoteNotOn(chatId, messageIds));
        var deleted := Filter(messages, MessageIn(chatId, messageIds));
        FilterKeepsDistinct(messages, MessageNotIn(chatId, messageIds), MessageKey);
        messages := Filter(messages, MessageNotIn(chatId, messageIds));
        r := Some(deleted);
      } else {
        r := None;
      }
    }

    /**
     * `voteMessage`: with a vote on the message, sets its `is_upvoted` (found only when that vote
     * is in `chatId`); without one, inserts it. Afterwards the message has exactly one vote and it
     * says `up`.
     */
    method VoteMessage(chatId: string, messageId: string, up: bool, now: int) returns (r: Result<Vote, ChatSdkError>)
      requires Valid()
      modifies this`votes
      ensures Valid()
      ensures r.Success? <==>
        if HasKey(old(votes), VoteKey, messageId) then HasKey(old(votes), VotePk, (chatId, messageId))
        else HasKey(chats, ChatKey, chatId) && HasKey(messages, MessageKey, messageId)
      ensures r.Success? ==>
        && r.value.chat_id == chatId && r.value.message_id == messageId && r.value.is_upvoted == up
        && r.value in votes
        && forall v :: v in votes && v.message_id == messageId ==> v == r.value
      ensures r.Success? && HasKey(old(votes), VoteKey, messageId) ==>
        votes == Map(old(votes), SetUpvote(messageId, chatId, up))
      ensures r.Success? && !HasKey(old(votes), VoteKey, messageId) ==>
        votes == old(votes) + [Vote(chatId, messageId, up, now, now)]
      ensures r.Failure? ==> r.error == DatabaseError("Failed to vote message") && votes == old(votes)
    {
      var existingVote := Single(votes, VoteOn(messageId));
      SingleByKey(votes, VoteKey, messageId, VoteOn(messageId));
      if existingVote.Some? {
        var target := Single(votes, VoteOnIn(messageId, chatId));
        SingleByKey(votes, VotePk, (chatId, messageId), VoteOnIn(messageId, chatId));
        if target.Some? {
          var k :| 0 <= k < |votes| && votes[k] == target.value;
          SetUpvoteUpdatesOne(votes, messageId, chatId, up, k);
          votes := Map(votes, SetUpvote(messageId, chatId, up));
          r := Success(votes[k]);
        } else {
          r := Failure(DatabaseError("Failed to vote message"));
        }
      } else {
        var row := Vote(chatId, messageId, up, now, now);
        if HasKey(votes, VotePk, (chatId, messageId)) || !HasKey(chats, ChatKey, chatId)
           || !HasKey(messages, MessageKey, messageId) {
          r := Failure(DatabaseError("Failed to vote message"));
        } else {
          InsertedVoteIsOnly(votes, row);
          votes := votes + [row];
          r := Success(row);
        }
      }
    }

    /** `getVotesByChatId`: the votes of the chat. */
    method GetVotesByChatId(id: string) returns (rows: seq<Vote>)
      ensures forall v :: v in rows <==> v in votes && v.chat_id == id
      ensures multiset(rows) <= multiset(votes)
    {
      rows := Filter(votes, VoteOf(id));
      FilterMultiset(votes, VoteOf(id));
    }

    /** The intended `getMessageCountByUserId`: the user's own recent user messages. */
    method GetMessageCountByUserId(id: string, differenceInHours: int, now: int) returns (count: nat)
      ensures count == MessageCountByUserId(chats, messages, id, differenceInHours, now)
      ensures count <= |messages|
    {
      count := MessageCountByUserId(chats, messages, id, differenceInHours, now);
      MessageCountCountsOwnMessages(chats, messages, id, differenceInHours, now);
    }

    /** `createStreamId`: records a stream marker for the chat. */
    method CreateStreamId(streamId: string, chatId: string, now: int) returns (r: Outcome<ChatSdkError>)
      requires Valid()
      modifies this`streams
      ensures Valid()
      ensures r.Pass? <==> !HasKey(old(streams), StreamKey, streamId) && HasKey(chats, ChatKey, chatId)
      ensures r.Pass? ==> streams == old(streams) + [StreamMarker(streamId, chatId, now, now)]
      ensures r.Fail? ==> r.error == DatabaseError("Failed to create stream id") && streams == old(streams)
    {
      var row := StreamMarker(streamId, chatId, now, now);
      if HasKey(streams, StreamKey, streamId) || !HasKey(chats, ChatKey, chatId) {
        r := Fail(DatabaseError("Failed to create stream id"));
      } else {
        InsertKeepsDistinct(streams, [row], StreamKey);
        streams := streams + [row];
        r := Pass;
      }
    }

    /** `getStreamIdsByChatId`: the ids of the chat's stream markers, oldest first. */
    method GetStreamIdsByChatId(chatId: string) returns (ids: seq<string>)
      ensures ids == Map(ChatStreamsOldestFirst(streams, chatId), StreamKey)
      ensures |ids| == |Filter(streams, StreamOf(chatId))|
      ensures forall i :: 0 <= i < |ids| ==> exists s :: s in streams && s.chat_id == chatId && s.id == ids[i]
      ensures forall s :: s in streams && s.chat_id == chatId ==> s.id in ids
    {
      StreamIdsOfChat(streams, chatId);
      ids := Map(ChatStreamsOldestFirst(streams, chatId), StreamKey);
    }

    // -------------------------------------------------------------------------------------------
    // Documents and suggestions

    /** `saveDocument`: adds a version of the document stamped `now`. */
    method SaveDocument(id: string, title: string, kind: DocumentKind, content: string, userId: string, now: int)
      returns (r: Result<seq<Document>, ChatSdkError>)
      requires Valid()
      modifies this`documents
      ensures Valid()
      ensures r.Success? <==> !HasKey(old(documents), DocumentKey, (id, now))
      ensures r.Success? ==>
        var row := Document(id, title, kind, Some(content), userId, now, now);
        r.value == [row] && documents == old(documents) + [row]
      ensures r.Failure? ==> r.error == DatabaseError("Failed to save document") && documents == old(documents)
    {
      var row := Document(id, title, kind, Some(content), userId, now, now);
      if HasKey(documents, DocumentKey, (id, now)) {
        r := Failure(DatabaseError("Failed to save document"));
      } else {
        InsertKeepsDistinct(documents, [row], DocumentKey);
        documents := documents + [row];
        r := Success([row]);
      }
    }

    /** `getDocumentsById`: every version of the document, oldest first. */
    method GetDocumentsById(id: string) returns (rows: seq<Document>)
      ensures multiset(rows) == multiset(Filter(documents, VersionOf(id)))
      ensures SortedBy(rows, OldestFirst(DocumentCreatedAt))
    {
      OldestFirstIsOrder(DocumentCreatedAt);
      rows := SortBy(Filter(documents, VersionOf(id)), OldestFirst(DocumentCreatedAt));
      SortBySorted(Filter(documents, VersionOf(id)), OldestFirst(DocumentCreatedAt));
    }

    /**
     * `getDocumentById`, with the newest version taken before `.single()` (see
     * Tables.DocumentByIdAsWritten for the code as written): a newest version of the document,
     * or an error when it has none.
     */
    method GetDocumentById(id: string) returns (r: Result<Document, ChatSdkError>)
      ensures r == LatestVersion(documents, id)
      ensures r.Success? <==> exists i :: 0 <= i < |documents| && documents[i].id == id
      ensures r.Success? ==>
        && r.value in documents && r.value.id == id
        && forall i :: 0 <= i < |documents| && documents[i].id == id ==> documents[i].created_at <= r.value.created_at
      ensures r.Failure? ==> r.error == DatabaseError("Failed to get document by id")
    {
      r := LatestVersion(documents, id);
      LatestVersionIsNewest(documents, id);
    }

    /**
     * `deleteDocumentsByIdAfterTimestamp`: deletes the suggestions on versions after `timestamp`,
     * then those versions, returning them; a version stamped exactly `timestamp` stays.
     */
    method DeleteDocumentsByIdAfterTimestamp(id: string, timestamp: int) returns (rows: seq<Document>)
      requires Valid()
      modifies this`suggestions, this`documents
      ensures Valid()
      ensures suggestions == Filter(old(suggestions), SuggestionUpTo(id, timestamp))
      ensures documents == Filter(old(documents), VersionUpTo(id, timestamp))
      ensures rows == Filter(old(documents), VersionAfter(id, timestamp))
      ensures forall d :: d in documents <==> d in old(documents) && !(d.id == id && d.created_at > timestamp)
      ensures SuggestionsReferToVersions(old(suggestions), old(documents)) ==>
        SuggestionsReferToVersions(suggestions, documents)
    {
      if SuggestionsReferToVersions(suggestions, documents) {
        DeleteAfterKeepsSuggestionsAttached(suggestions, documents, id, timestamp);
      }
      FilterKeepsDistinct(suggestions, SuggestionUpTo(id, timestamp), SuggestionKey);
      suggestions := Filter(suggestions, SuggestionUpTo(id, timestamp));
      rows := Filter(documents, VersionAfter(id, timestamp));
      FilterKeepsDistinct(documents, VersionUpTo(id, timestamp), DocumentKey);
      documents := Filter(documents, VersionUpTo(id, timestamp));
    }

    /** `saveSuggestions`: inserts all the suggestions or none; each must name an existing version. */
    method SaveSuggestions(rows: seq<Suggestion>) returns (r: Result<seq<Suggestion>, ChatSdkError>)
      requires Valid()
      modifies this`suggestions
      ensures Valid()
      ensures r.Success? <==>
        FreshKeys(old(suggestions), rows, SuggestionKey) && SuggestionsReferToVersions(rows, documents)
      ensures r.Success? ==> r.value == rows && suggestions == old(suggestions) + rows
      ensures r.Failure? ==> r.error == DatabaseError("Failed to save suggestions") && suggestions == old(suggestions)
    {
      if FreshKeys(suggestions, rows, SuggestionKey) && SuggestionsReferToVersions(rows, documents) {
        InsertKeepsDistinct(suggestions, rows, SuggestionKey);
        suggestions := suggestions + rows;
        r := Success(rows);
      } else {
        r := Failure(DatabaseError("Failed to save suggestions"));
      }
    }

    /** `getSuggestionsByDocumentId`: the suggestions on any version of the document. */
    method GetSuggestionsByDocumentId(documentId: string) returns (rows: seq<Suggestion>)
      ensures forall s :: s in rows <==> s in suggestions && s.document_id == documentId
      ensures multiset(rows) <= multiset(suggestions)
    {
      rows := Filter(suggestions, SuggestionOf(documentId));
      FilterMultiset(suggestions, SuggestionOf(documentId));
    }

    // -------------------------------------------------------------------------------------------
    // Characters

    /** `getCharacterById`: the character with that id, or an error when there is none. */
    method GetCharacterById(id: string) returns (r: Result<Character, ChatSdkError>)
      requires Valid()
      ensures r.Success? <==> HasKey(characters, CharacterKey, id)
      ensures r.Success? ==> r.value in characters && r.value.id == id
      ensures r.Failure? ==> r.error == DatabaseError("Failed to get character by id")
    {
      var found := Single(characters, CharacterIs(id));
      SingleByKey(characters, CharacterKey, id, CharacterIs(id));
      if found.Some? {
        r := Success(found.value);
      } else {
        r := Failure(DatabaseError("Failed to get character by id"));
      }
    }

    /** `getCharactersByUserId`: a newest-first page of the user's characters. */
    method GetCharactersByUserId(userId: string, limit: nat, startingAfter: Option<string>,
                                 endingBefore: Option<string>)
      returns (r: Result<Page<Character>, ChatSdkError>)
      ensures r.Failure? <==> UnknownCursor(characters, CharacterKey, CharacterCreatedAt, startingAfter, endingBefore)
      ensures r.Failure? ==> r.error == DatabaseError("Failed to get characters by user id")
      ensures r.Success? ==> IsNewestPage(r.value,
        Matching(characters, CharacterOwnedBy(userId), CharacterCreatedAt,
                 CursorWindow(characters, CharacterKey, CharacterCreatedAt, startingAfter, endingBefore)),
        CharacterCreatedAt, limit)
    {
      var listed := ListPage(characters, CharacterOwnedBy(userId), CharacterKey, CharacterCreatedAt, limit,
                             startingAfter, endingBefore, "Character");
      ListPageFailsOnUnknownCursor(characters, CharacterOwnedBy(userId), CharacterKey, CharacterCreatedAt, limit,
                                   startingAfter, endingBefore, "Character");
      match listed {
        case Failure(_) =>
          r := Failure(DatabaseError("Failed to get characters by user id"));
        case Success(p) =>
          FetchPageIsNewestPage(Matching(characters, CharacterOwnedBy(userId), CharacterCreatedAt,
            CursorWindow(characters, CharacterKey, CharacterCreatedAt, startingAfter, endingBefore)),
            CharacterCreatedAt, limit);
          r := Success(p);
      }
    }

    /**
     * `getPublicCharacters`: a newest-first page of the public characters. The cursor row is
     * looked up among all characters, public or not.
     */
    method GetPublicCharacters(limit: nat, startingAfter: Option<string>, endingBefore: Option<string>)
      returns (r: Result<Page<Character>, ChatSdkError>)
      ensures r.Failure? <==> UnknownCursor(characters, CharacterKey, CharacterCreatedAt, startingAfter, endingBefore)
      ensures r.Failure? ==> r.error == DatabaseError("Failed to get public characters")
      ensures r.Success? ==> IsNewestPage(r.value,
        Matching(characters, IsPublicCharacter(), CharacterCreatedAt,
                 CursorWindow(characters, CharacterKey, CharacterCreatedAt, startingAfter, endingBefore)),
        CharacterCreatedAt, limit)
      ensures r.Success? ==> forall i :: 0 <= i < |r.value.rows| ==> r.value.rows[i].visibility == "public"
    {
      var listed := ListPage(characters, IsPublicCharacter(), CharacterKey, CharacterCreatedAt, limit,
                             startingAfter, endingBefore, "Character");
      ListPageFailsOnUnknownCursor(characters, IsPublicCharacter(), CharacterKey, CharacterCreatedAt, limit,
                                   startingAfter, endingBefore, "Character");
      match listed {
        case Failure(_) =>
          r := Failure(DatabaseError("Failed to get public characters"));
        case Success(p) =>
          var m := Matching(characters, IsPublicCharacter(), CharacterCreatedAt,
            CursorWindow(characters, CharacterKey, CharacterCreatedAt, startingAfter, endingBefore));
          FetchPageIsNewestPage(m, CharacterCreatedAt, limit);
          NewestPageIsNewest(p, m, CharacterCreatedAt, limit);
          r := Success(p);
      }
    }

    /**
     * `insertCharacterTags`: nothing to do for no tags; a blank character id is rejected with
     * "Invalid character ID"; otherwise one row per tag id, all or none.
     */
    method InsertCharacterTags(characterId: string, tagIds: seq<string>, now: int) returns (r: Outcome<Fault>)
      requires Valid()
      modifies this`characterTags
      ensures Valid()
      ensures |tagIds| == 0 ==> r.Pass?
      ensures |tagIds| > 0 && characterId == "" ==> r == Fail(Sdk(DatabaseError("Invalid character ID")))
      ensures |tagIds| > 0 && characterId != "" ==>
        (r.Pass? <==>
          && FreshKeys(old(characterTags), JunctionRows(characterId, tagIds, now), CharacterTagKey)
          && HasKey(characters, CharacterKey, characterId)
          && forall i :: 0 <= i < |tagIds| ==> HasKey(tags, TagKey, tagIds[i]))
      ensures |tagIds| > 0 && characterId != "" && r.Fail? ==> r.error.Driver?
      ensures r.Pass? <==> TagInsertAccepted(characterId, tagIds, characters, tags, old(characterTags), now)
      ensures r.Pass? ==> characterTags == old(characterTags) + JunctionRows(characterId, tagIds, now)
      ensures r.Fail? ==> characterTags == old(characterTags)
    {
      var rows := JunctionRows(characterId, tagIds, now);
      if |tagIds| == 0 {
        assert characterTags + rows == characterTags;
        r := Pass;
      } else if characterId == "" {
        r := Fail(Sdk(DatabaseError("Invalid character ID")));
      } else if !FreshKeys(characterTags, rows, CharacterTagKey) {
        r := Fail(Driver(UniqueViolation));
      } else if !HasKey(characters, CharacterKey, characterId)
                || !(forall i :: 0 <= i < |tagIds| ==> HasKey(tags, TagKey, tagIds[i])) {
        r := Fail(Driver(ForeignKeyViolation));
      } else {
        InsertKeepsDistinct(characterTags, rows, CharacterTagKey);
        characterTags := characterTags + rows;
        r := Pass;
      }
    }

    /**
     * `syncCharacterTags`: validates the desired tags, deletes the character's tags that are not
     * desired, inserts the desired ones it lacks. On success the tag set is the desired set.
     */
    method SyncCharacterTags(characterId: string, desiredTagIds: seq<string>, now: int) returns (r: Outcome<ChatSdkError>)
      requires Valid()
      modifies this`characterTags
      ensures Valid()
      ensures r.Pass? <==>
        && ValidateTagIds(desiredTagIds, tags).Pass?
        && (Without(desiredTagIds, CurrentTagIds(old(characterTags), characterId)) != [] ==>
              characterId != "" && HasKey(characters, CharacterKey, characterId))
      ensures ValidateTagIds(desiredTagIds, tags).Fail? ==>
        r == Fail(ValidateTagIds(desiredTagIds, tags).error) && characterTags == old(characterTags)
      ensures r.Pass? ==> characterTags == SyncedJunction(old(characterTags), characterId, desiredTagIds, now)
      ensures r.Pass? ==> TagSetOf(characterTags, characterId) == IdSet(desiredTagIds)
      ensures r.Fail? ==> r.error.code == BadRequestDatabase
      ensures r.Fail? && ValidateTagIds(desiredTagIds, tags).Pass? ==>
        characterTags == Filter(old(characterTags), JunctionNotIn(characterId,
          Without(CurrentTagIds(old(characterTags), characterId), desiredTagIds)))
    {
      var validation := ValidateTagIds(desiredTagIds, tags);
      ValidateTagIdsFailures(desiredTagIds, tags);
      if validation.Fail? {
        return Fail(validation.error);
      }
      var currentTagIds := CurrentTagIds(characterTags, characterId);
      var tagsToAdd := Without(desiredTagIds, currentTagIds);
      var tagsToRemove := Without(currentTagIds, desiredTagIds);
      ghost var before := characterTags;
      SyncInsertAccepted(before, characterId, desiredTagIds, characters, tags, now);
      if |tagsToRemove| > 0 {
        FilterKeepsDistinct(characterTags, JunctionNotIn(characterId, tagsToRemove), CharacterTagKey);
        characterTags := Filter(characterTags, JunctionNotIn(characterId, tagsToRemove));
      } else {
        FilterKeepsAll(characterTags, JunctionNotIn(characterId, tagsToRemove));
      }
      assert characterTags == Filter(before, JunctionNotIn(characterId, tagsToRemove));
      var inserted := InsertCharacterTags(characterId, tagsToAdd, now);
      match inserted {
        case Pass =>
          SyncReachesDesired(before, characterId, desiredTagIds, now);
          r := Pass;
        case Fail(Sdk(e)) =>
          r := Fail(e);
        case Fail(Driver(_)) =>
          r := Fail(DatabaseError("Failed to sync character tags"));
      }
    }

    /**
     * `updateCharacter`: patches the character and, when tags are given, syncs them. A failure
     * of the sync is reported as itself only with `enhancedErrorHandling`; the patch stays
     * applied either way.
     */
    method UpdateCharacter(id: string, updates: CharacterPatch, tagIds: Option<seq<string>>,
                           enhancedErrorHandling: bool, now: int) returns (r: Result<Character, ChatSdkError>)
      requires Valid()
      modifies this`characters, this`characterTags
      ensures Valid()
      ensures !HasKey(old(characters), CharacterKey, id) ==>
        && r == Failure(DatabaseError("Failed to update character"))
        && characters == old(characters) && characterTags == old(characterTags)
      ensures HasKey(old(characters), CharacterKey, id) ==>
        characters == Map(old(characters), PatchCharacter(id, updates, now))
      ensures tagIds.None? ==> characterTags == old(characterTags)
      ensures tagIds.None? && HasKey(old(characters), CharacterKey, id) ==> r.Success?
      ensures r.Success? ==> r.value in characters && r.value.id == id && r.value.updated_at == now
      ensures r.Success? && tagIds.Some? ==> TagSetOf(characterTags, id) == IdSet(tagIds.value)
      ensures r.Success? && tagIds.Some? ==> characterTags == SyncedJunction(old(characterTags), id, tagIds.value, now)
      ensures r.Failure? && HasKey(old(characters), CharacterKey, id) && tagIds.Some? ==>
        if ValidateTagIds(tagIds.value, tags).Fail? then characterTags == old(characterTags)
        else characterTags == Filter(old(characterTags), JunctionNotIn(id,
          Without(CurrentTagIds(old(characterTags), id), tagIds.value)))
      ensures HasKey(old(characters), CharacterKey, id) && tagIds.Some? ==>
        (r.Success? <==>
          && ValidateTagIds(tagIds.value, tags).Pass?
          && (Without(tagIds.value, CurrentTagIds(old(characterTags), id)) != [] ==> id != ""))
      ensures r.Failure? && !enhancedErrorHandling ==> r.error == DatabaseError("Failed to update character")
      ensures r.Failure? ==> r.error.code == BadRequestDatabase
    {
      var found := Single(characters, CharacterIs(id));
      SingleByKey(characters, CharacterKey, id, CharacterIs(id));
      if found.None? {
        return Failure(DatabaseError("Failed to update character"));
      }
      var k :| 0 <= k < |characters| && characters[k] == found.value;
      MapKeepsDistinct(characters, PatchCharacter(id, updates, now), CharacterKey);
      characters := Map(characters, PatchCharacter(id, updates, now));
      var character := characters[k];
      assert HasKey(characters, CharacterKey, id) by {
        assert CharacterKey(characters[k]) == id;
      }
      if tagIds.Some? {
        var synced := SyncCharacterTags(id, tagIds.value, now);
        if synced.Fail? {
          if enhancedErrorHandling {
            return Failure(synced.error);
          }
          return Failure(DatabaseError("Failed to update character"));
        }
      }
      r := Success(character);
    }

    /** `deleteCharacterById`: deletes the character's tag rows, then the character, and returns it. */
    method DeleteCharacterById(id: string) returns (r: Result<Character, ChatSdkError>)
      requires Valid()
      modifies this`characterTags, this`characters
      ensures Valid()
      ensures characterTags == Filter(old(characterTags), JunctionOutside(id))
      ensures characters == Filter(old(characters), CharacterIsNot(id))
      ensures forall c :: c in characters <==> c in old(characters) && c.id != id
      ensures TagSetOf(characterTags, id) == {}
      ensures r.Success? <==> HasKey(old(characters), CharacterKey, id)
      ensures r.Success? ==> r.value in old(characters) && r.value.id == id
      ensures r.Failure? ==> r.error == DatabaseError("Failed to delete character by id")
    {
      FilterKeepsDistinct(characterTags, JunctionOutside(id), CharacterTagKey);
      characterTags := Filter(characterTags, JunctionOutside(id));
      var deleted := Single(characters, CharacterIs(id));
      SingleByKey(characters, CharacterKey, id, CharacterIs(id));
      FilterKeepsDistinct(characters, CharacterIsNot(id), CharacterKey);
      characters := Filter(characters, CharacterIsNot(id));
      if deleted.Some? {
        r := Success(deleted.value);
      } else {
        r := Failure(DatabaseError("Failed to delete character by id"));
      }
    }

    /**
     * `createCharacterWithTagValidation`: validates the tags (when there are any), inserts the
     * character with its defaults, then its tag rows. A failed tag insert leaves the character.
     */
    method CreateCharacterWithTagValidation(input: NewCharacter, newId: string, now: int)
      returns (r: Result<Character, ChatSdkError>)
      requires Valid()
      modifies this`characters, this`characterTags
      ensures Valid()
      ensures WantsTags(input) && ValidateTagIds(input.tagIds.value, tags).Fail? ==>
        && r == Failure(ValidateTagIds(input.tagIds.value, tags).error)
        && characters == old(characters) && characterTags == old(characterTags)
      ensures (!WantsTags(input) || ValidateTagIds(input.tagIds.value, tags).Pass?) && HasKey(old(characters), CharacterKey, newId) ==>
        && r == Failure(DatabaseError("Failed to create character with tags"))
        && characters == old(characters) && characterTags == old(characterTags)
      ensures !WantsTags(input) && !HasKey(old(characters), CharacterKey, newId) ==> r.Success?
      ensures r.Success? <==> CreateAccepted(input, newId, old(characters), tags, old(characterTags))
      ensures r.Success? ==>
        && r.value == NewCharacterRow(newId, input, now)
        && characters == old(characters) + [r.value]
        && characterTags == old(characterTags) + (if WantsTags(input) then JunctionRows(newId, input.tagIds.value, now) else [])
      ensures r.Failure? ==> characterTags == old(characterTags) && r.error.code == BadRequestDatabase
      ensures r.Failure? ==> characters == old(characters) || characters == old(characters) + [NewCharacterRow(newId, input, now)]
      ensures characters == CharactersAfterCreate(input, newId, old(characters), tags, now)
      ensures characterTags == JunctionAfterCreate(input, newId, old(characters), tags, old(characterTags), now)
    {
      if WantsTags(input) {
        var validation := ValidateTagIds(input.tagIds.value, tags);
        ValidateTagIdsFailures(input.tagIds.value, tags);
        if validation.Fail? {
          return Failure(validation.error);
        }
      }
      var row := NewCharacterRow(newId, input, now);
      if HasKey(characters, CharacterKey, newId) {
        return Failure(DatabaseError("Failed to create character with tags"));
      }
      InsertKeepsDistinct(characters, [row], CharacterKey);
      characters := characters + [row];
      assert CharacterKey(characters[|characters| - 1]) == newId;
      if WantsTags(input) {
        ValidatedInsertAccepted(newId, input.tagIds.value, characters, tags, characterTags, now);
        var inserted := InsertCharacterTags(newId, input.tagIds.value, now);
        match inserted {
          case Pass =>
          case Fail(Sdk(e)) =>
            return Failure(e);
          case Fail(Driver(_)) =>
            return Failure(DatabaseError("Failed to create character with tags"));
        }
      } else {
        assert characterTags == characterTags + [];
      }
      r := Success(row);
    }

    // -------------------------------------------------------------------------------------------
    // Tags

    /** `getAllTags`: every tag, by name. */
    method GetAllTags() returns (rows: seq<Tag>)
      ensures multiset(rows) == multiset(tags)
      ensures SortedBy(rows, ByName())
    {
      ByNameIsOrder();
      rows := SortBy(tags, ByName());
      SortBySorted(tags, ByName());
    }

    /** `getTagsByCharacterId`: the character's tag rows with their tags; a blank id is rejected. */
    method GetTagsByCharacterId(characterId: string) returns (r: Result<seq<TagLink>, ChatSdkError>)
      requires Valid()
      ensures characterId == "" ==> r == Failure(DatabaseError("Invalid character ID"))
      ensures characterId != "" ==> r.Success?
      ensures r.Success? ==>
        var mine := Filter(characterTags, JunctionOf(characterId));
        && |r.value| == |mine|
        && forall i :: 0 <= i < |mine| ==>
             && r.value[i].tag_id == mine[i].tag_id
             && (r.value[i].tags.Some? <==> HasKey(tags, TagKey, mine[i].tag_id))
             && (r.value[i].tags.Some? ==> r.value[i].tags.value in tags && r.value[i].tags.value.id == mine[i].tag_id)
    {
      if characterId == "" {
        return Failure(DatabaseError("Invalid character ID"));
      }
      var mine := Filter(characterTags, JunctionOf(characterId));
      var links := Map(mine, LinkOf(tags));
      forall i | 0 <= i < |mine|
        ensures links[i].tags.Some? <==> HasKey(tags, TagKey, mine[i].tag_id)
      {
        SingleByKey(tags, TagKey, mine[i].tag_id, TagIs(mine[i].tag_id));
      }
      r := Success(links);
    }

    /**
     * `addTagsToCharacter`: validates and inserts the tags, then returns the character's rows for
     * those tag ids.
     */
    method AddTagsToCharacter(characterId: string, tagIds: seq<string>, now: int)
      returns (r: Result<seq<CharacterTag>, ChatSdkError>)
      requires Valid()
      modifies this`characterTags
      ensures Valid()
      ensures ValidateTagIds(tagIds, tags).Fail? ==>
        r == Failure(ValidateTagIds(tagIds, tags).error) && characterTags == old(characterTags)
      ensures r.Success? <==>
        && ValidateTagIds(tagIds, tags).Pass?
        && (tagIds != [] ==>
              && characterId != "" && HasKey(characters, CharacterKey, characterId)
              && forall i :: 0 <= i < |tagIds| ==> tagIds[i] !in TagSetOf(old(characterTags), characterId))
      ensures r.Success? ==> characterTags == old(characterTags) + JunctionRows(characterId, tagIds, now)
      ensures r.Success? ==> TagSetOf(characterTags, characterId) == TagSetOf(old(characterTags), characterId) + IdSet(tagIds)
      ensures r.Success? ==>
        forall ct :: ct in r.value <==> ct in characterTags && ct.character_id == characterId && ct.tag_id in tagIds
      ensures r.Failure? ==> characterTags == old(characterTags) && r.error.code == BadRequestDatabase
    {
      var validation := ValidateTagIds(tagIds, tags);
      ValidateTagIdsFailures(tagIds, tags);
      if validation.Fail? {
        return Failure(validation.error);
      }
      ValidatedInsertAccepted(characterId, tagIds, characters, tags, characterTags, now);
      var inserted := InsertCharacterTags(characterId, tagIds, now);
      match inserted {
        case Fail(Sdk(e)) =>
          return Failure(e);
        case Fail(Driver(_)) =>
          return Failure(DatabaseError("Failed to add tags to character"));
        case Pass =>
      }
      TagSetAfterInsert(old(characterTags), characterId, tagIds, now);
      r := Success(Filter(characterTags, JunctionIn(characterId, tagIds)));
    }

    /** `removeTagsFromCharacter`: deletes those tag rows and reports `tagIds.length` as removed. */
    method RemoveTagsFromCharacter(characterId: string, tagIds: seq<string>) returns (removedCount: nat)
      requires Valid()
      modifies this`characterTags
      ensures Valid()
      ensures removedCount == |tagIds|
      ensures characterTags == Filter(old(characterTags), JunctionNotIn(characterId, tagIds))
      ensures TagSetOf(characterTags, characterId) == TagSetOf(old(characterTags), characterId) - IdSet(tagIds)
    {
      TagSetAfterDelete(characterTags, characterId, tagIds);
      if |tagIds| == 0 {
        FilterKeepsAll(characterTags, JunctionNotIn(characterId, tagIds));
        return 0;
      }
      FilterKeepsDistinct(characterTags, JunctionNotIn(characterId, tagIds), CharacterTagKey);
      characterTags := Filter(characterTags, JunctionNotIn(characterId, tagIds));
      removedCount := |tagIds|;
    }

    /**
     * `modifyCharacterTags`: validates the tags to add, deletes the tags to remove, then inserts
     * the tags to add that the character does not have. On success the tag set is
     * `(old \ remove) ∪ add`.
     */
    method ModifyCharacterTags(characterId: string, addTagIds: Option<seq<string>>,
                               removeTagIds: Option<seq<string>>, now: int) returns (r: Outcome<ChatSdkError>)
      requires Valid()
      modifies this`characterTags
      ensures Valid()
      ensures |ListOrEmpty(addTagIds)| > 0 && ValidateTagIds(ListOrEmpty(addTagIds), tags).Fail? ==>
        r == Fail(ValidateTagIds(ListOrEmpty(addTagIds), tags).error) && characterTags == old(characterTags)
      ensures r.Pass? <==>
        || ListOrEmpty(addTagIds) == []
        || (&& ValidateTagIds(ListOrEmpty(addTagIds), tags).Pass?
            && (AddedByModify(old(characterTags), characterId, ListOrEmpty(addTagIds), ListOrEmpty(removeTagIds)) != [] ==>
                  characterId != "" && HasKey(characters, CharacterKey, characterId)))
      ensures r.Pass? ==>
        characterTags == ModifiedJunction(old(characterTags), characterId, ListOrEmpty(addTagIds),
                                          ListOrEmpty(removeTagIds), now)
      ensures r.Pass? ==>
        TagSetOf(characterTags, characterId) ==
        (TagSetOf(old(characterTags), characterId) - IdSet(ListOrEmpty(removeTagIds))) + IdSet(ListOrEmpty(addTagIds))
      ensures r.Fail? ==> r.error.code == BadRequestDatabase
      ensures r.Fail? && ValidateTagIds(ListOrEmpty(addTagIds), tags).Pass? ==>
        && characterTags == Filter(old(characterTags), JunctionNotIn(characterId, ListOrEmpty(removeTagIds)))
        && r.error == DatabaseError(if characterId == "" then "Invalid character ID" else "Failed to modify character tags")
    {
      var add := ListOrEmpty(addTagIds);
      var remove := ListOrEmpty(removeTagIds);
      if |add| > 0 {
        var validation := ValidateTagIds(add, tags);
        ValidateTagIdsFailures(add, tags);
        if validation.Fail? {
          return Fail(validation.error);
        }
      }
      if |remove| > 0 {
        FilterKeepsDistinct(characterTags, JunctionNotIn(characterId, remove), CharacterTagKey);
        characterTags := Filter(characterTags, JunctionNotIn(characterId, remove));
      } else {
        FilterKeepsAll(characterTags, JunctionNotIn(characterId, remove));
      }
      ghost var afterRemove := characterTags;
      assert afterRemove == Filter(old(characterTags), JunctionNotIn(characterId, remove));
      if |add| > 0 {
        var existingTagIds := Map(Filter(characterTags, JunctionIn(characterId, add)), CharacterTagId);
        var newTagIds := Without(add, existingTagIds);
        assert newTagIds == AddedByModify(old(characterTags), characterId, add, remove);
        ModifyInsertAccepted(old(characterTags), characterId, add, remove, characters, tags, now);
        var inserted := InsertCharacterTags(characterId, newTagIds, now);
        match inserted {
          case Fail(Sdk(e)) =>
            return Fail(e);
          case Fail(Driver(_)) =>
            return Fail(DatabaseError("Failed to modify character tags"));
          case Pass =>
        }
      } else {
        assert AddedByModify(old(characterTags), characterId, add, remove) == [];
        assert characterTags == afterRemove + [];
      }
      ModifyTagSet(old(characterTags), characterId, add, remove, now);
      r := Pass;
    }
  }
}
