# Storage layer, document tools, profile provisioning and character form of a chat application

This project models, in Dafny, the core of a web chat application built on Supabase in which users
talk to an AI model, optionally through a configured character persona, and the model can create,
revise and annotate document artifacts. It covers five parts of the source:

- **The storage layer** (`lib/supabase/services/queries.ts`). Every exported query is a method of the
  class `Queries.Store`. The class holds one sequence per table: chats, messages, votes, stream
  markers, document versions, suggestions, characters, tags and the character–tag junction. Each
  method's contract says three things: the rows it adds, removes or returns; its failure, which is
  always a `ChatSDKError` (`bad_request:database`, or the inner `not_found:database` of an unknown
  cursor); and that the table keys stay unique (`Store.Valid`). The selections (`.eq`, `.gt`,
  `.gte`, `.in`) and table updates are named functions in `Tables`, and the lemmas about them live
  there too. Keyset pagination, with its `limit + 1` look-ahead and its `startingAfter` /
  `endingBefore` cursors, is `Pagination`. Tag validation and the list differences of the tag sync
  are `TagLogic`.
- **The `requestSuggestions` tool** (`lib/ai/tools/request-suggestions.ts`), as
  `RequestSuggestions.Execute`. It does three things:
  - streams one transient `data-suggestion` part per element the model yields;
  - stores the suggestions for a signed-in user against the exact document version that was read;
  - models both the insert payload as written and the one the table accepts.
- **The `updateDocument` tool** (`lib/ai/tools/update-document.ts`), as `UpdateDocument.Execute`:
  - `data-clear` is written first;
  - then comes the dispatch to the handler registered for the document's kind;
  - `data-finish` is written last;
  - when no handler is registered for the kind, the tool throws.
- **Profile provisioning** (`lib/supabase/services/profile-service.ts`). This covers the username
  availability probe, the bounded search for a free username with its clock-suffix fallback, and
  the profile insert.
- **The character creation page** (`app/characters/create/page.tsx`), as the class
  `CharacterForm.CreateCharacterPage`. Its state is the form, the `loading` flag, the alerts shown
  and the routes pushed. It has the greeting and tag editors, and `handleSubmit`, which normalises
  the form and calls `createCharacterWithTagValidation`.

Modelling conventions:
- Timestamps are integers (milliseconds): the ISO-8601 strings the source stores compare in the
  order of the instants they denote.
- Clock readings (`new Date()`, `Date.now()`), freshly generated ids and the signed-in user are
  parameters.
- What the model yields, the document handlers and the username generator are inputs.
- The database is modelled for the rejections the core relies on:
  - `.single()` on zero or on several rows;
  - an insert whose key is taken;
  - an insert that references a missing row.

Where the code departs from what it evidently intends, the model follows the code:
- The `updateDocument` tool does not store a new version itself; its handler does.
- A missing document makes the lookup raise `bad_request:database` rather than produce the tool's
  "not found" result. The tool's `!document` branch therefore cannot be reached.

Modelled as intended, with the code as written kept beside it in `Tables.MessageCountAsWritten`,
`RequestSuggestions.AsWrittenPayloadKeys` and `Tables.DocumentByIdAsWritten` (see "## Findings"):
- The daily message count as written looks at one chat, not at all of the user's chats (finding 1).
- The suggestions are not stored under the code as written (finding 2).
- Fetching a document with several versions as written fails instead of returning the newest one
  (finding 3).

The rest of the model (the tools, the store's `GetDocumentById` and `GetMessageCountByUserId`) uses
the intended versions.

## Model

| member | source | states |
|---|---|---|
| Queries.Store.SaveChat | lib/supabase/services/queries.ts:7-43 | Inserts exactly the new chat row, stamped `now`, iff its id is free and its character (if any) exists; otherwise fails with "Failed to save chat" and changes nothing; keys stay unique |
| Queries.Store.DeleteChatById | lib/supabase/services/queries.ts:45-71 | Removes exactly the chat's votes, messages and stream markers and the chat itself, keeping every row of other chats; returns the deleted chat iff it existed, else "Failed to delete chat by id" |
| Queries.Store.DeleteRowsOfChat | lib/supabase/services/queries.ts:51-53 | The three dependent deletes: afterwards no vote, message or stream marker of the chat remains and all others do |
| Queries.Store.GetChatsByUserId | lib/supabase/services/queries.ts:73-145 | Fails (re-raised as "Failed to get chats by user id") exactly on an unknown cursor; otherwise returns the user's newest page after the cursor, with `hasMore` exactly when more than `limit` chats match |
| Queries.Store.GetChatById | lib/supabase/services/queries.ts:147-163 | Returns the chat with that id iff one exists, else "Failed to get chat by id" |
| Queries.Store.SaveMessages | lib/supabase/services/queries.ts:166-185 | Appends all messages or none: succeeds iff every id is fresh and every chat exists; returns the rows saved |
| Queries.Store.GetMessagesByChatId | lib/supabase/services/queries.ts:187-206 | Returns every message of the chat, each as often as stored, oldest first, and none of another chat |
| Queries.Store.GetMessageById | lib/supabase/services/queries.ts:208-226 | Returns at most one row, exactly the message with that id when it exists |
| Queries.Store.DeleteMessagesByChatIdAfterTimestamp | lib/supabase/services/queries.ts:228-273 | With no message of the chat at or after the timestamp, changes nothing and returns nothing; otherwise deletes exactly those messages and their votes and returns the deleted messages |
| Tables.DeleteByIdsIsDeleteByTimestamp | lib/supabase/services/queries.ts:240-262 | Deleting by the collected message ids removes exactly the messages the timestamp selected (ids are unique) |
| Queries.Store.VoteMessage | lib/supabase/services/queries.ts:276-328 | Updates the message's existing vote (found only in `chatId`) or inserts a new one; on success the message has exactly one vote, in that chat, saying `up`; otherwise "Failed to vote message" and no change |
| Tables.SetUpvoteUpdatesOne | lib/supabase/services/queries.ts:296-307 | The update branch keeps one vote per message, changes only that vote's flag, and leaves it the message's only vote |
| Tables.InsertedVoteIsOnly | lib/supabase/services/queries.ts:308-324 | The insert branch makes the new vote the message's only vote and keeps one vote per message |
| Queries.Store.GetVotesByChatId | lib/supabase/services/queries.ts:330-348 | Returns exactly the votes of the chat, a sub-multiset of the table |
| Queries.Store.SaveDocument | lib/supabase/services/queries.ts:351-386 | Appends a new version stamped `now` (same id, new timestamp) iff `(id, now)` is unused; returns it |
| Queries.Store.GetDocumentsById | lib/supabase/services/queries.ts:388-407 | Returns every version of the document, oldest first |
| Queries.Store.GetDocumentById | lib/supabase/services/queries.ts:409-429 | The intended lookup: succeeds iff the document has a version, and returns a newest one; else "Failed to get document by id" |
| Tables.LatestVersionIsNewest | lib/supabase/services/queries.ts:409-429 | The newest-version lookup finds a version whenever one exists, and no version of the document is newer |
| Tables.SavedVersionIsLatest | lib/supabase/services/queries.ts:351-429 | A version saved later than every existing one is what the lookup then returns |
| Tables.DocumentByIdAsWrittenNeedsOneVersion | lib/supabase/services/queries.ts:413-419 | As written (`.order` then `.single()`), the lookup succeeds only for a document with exactly one version |
| Tables.TwoVersionsBreakDocumentById | lib/supabase/services/queries.ts:413-419 | For two versions of one document, the lookup as written fails while the intended one returns the newer version |
| Tables.LatestVersion | lib/supabase/services/queries.ts:409-429 | The intended newest-version lookup (definition; its meaning is stated by `Tables.LatestVersionIsNewest`) |
| Tables.DocumentByIdAsWritten | lib/supabase/services/queries.ts:413-419 | The lookup as written (definition; its one-version restriction is stated by `Tables.DocumentByIdAsWrittenNeedsOneVersion`) |
| Queries.Store.DeleteDocumentsByIdAfterTimestamp | lib/supabase/services/queries.ts:431-465 | Deletes exactly the versions strictly after the timestamp and the suggestions on them, returns the deleted versions, and keeps every remaining suggestion pointing at an existing version |
| Tables.DeleteAfterKeepsSuggestionsAttached | lib/supabase/services/queries.ts:442-455 | Both deletes cut at the same instant with the same strict comparison, so no remaining suggestion loses its version |
| Queries.Store.SaveSuggestions | lib/supabase/services/queries.ts:468-490 | Appends all suggestions or none: succeeds iff every id is fresh and every suggestion names an existing document version |
| Queries.Store.GetSuggestionsByDocumentId | lib/supabase/services/queries.ts:492-514 | Returns exactly the suggestions on any version of the document |
| Queries.Store.UpdateChatVisiblityById | lib/supabase/services/queries.ts:517-543 | Succeeds iff the chat exists; then only that chat's visibility changes and the updated chat is returned |
| Queries.Store.GetMessageCountByUserId | lib/supabase/services/queries.ts:546-570 | The intended count: the user's `user`-role messages of the last `differenceInHours` hours in chats the user owns |
| Tables.MessageCountCountsOwnMessages | lib/supabase/services/queries.ts:546-570 | The intended count is positive when such a message exists, zero when the user owns no chat with messages, and at most the number of messages |
| Tables.MessageCountAsWrittenMissesOwnChat | lib/supabase/services/queries.ts:551-560 | For a user who just wrote in their own chat, the count as written (`chat_id = userId`) is 0 while the intended count is 1 |
| Tables.MessageCountByUserId | lib/supabase/services/queries.ts:546-570 | The intended count (definition; its bounds are stated by `Tables.MessageCountCountsOwnMessages`) |
| Tables.MessageCountAsWritten | lib/supabase/services/queries.ts:551-560 | The count as written, with `chat_id` compared to the user id (definition; its discrepancy is stated by `Tables.MessageCountAsWrittenMissesOwnChat`) |
| Queries.Store.CreateStreamId | lib/supabase/services/queries.ts:573-598 | Appends exactly the new stream marker iff its id is free and the chat exists; else "Failed to create stream id" |
| Queries.Store.GetStreamIdsByChatId | lib/supabase/services/queries.ts:600-619 | Returns one id per stream marker of the chat, oldest first: every marker of the chat is listed and no other |
| Tables.ChatStreamsOldestFirst | lib/supabase/services/queries.ts:605-609 | The chat's stream markers, each as often as stored, ordered oldest first |
| Tables.StreamIdsOfChat | lib/supabase/services/queries.ts:600-619 | The listed ids correspond one-to-one in number to the chat's markers and name only markers of that chat |
| TagLogic.ValidateTagIdsAccepts | lib/supabase/services/queries.ts:624-662 | Validation passes exactly for an empty list or for distinct, non-blank ids that each name an existing tag |
| TagLogic.ValidateTagIdsFailures | lib/supabase/services/queries.ts:624-662 | Every validation failure is `bad_request:database`; a blank id is reported as "Invalid tag ID format detected" |
| TagLogic.ValidateTagIds | lib/supabase/services/queries.ts:624-662 | `validateTagIds`; every failure it returns is `bad_request:database` (what passes is stated by `TagLogic.ValidateTagIdsAccepts`) |
| TagLogic.ValidatedIdsExist | lib/supabase/services/queries.ts:624-662 | Ids that passed validation are pairwise different and each names an existing tag |
| TagLogic.WithoutKeepsDistinct | lib/supabase/services/queries.ts:711-714 | Dropping ids from a list without repeats leaves a list without repeats |
| TagLogic.FoundAllIff | lib/supabase/services/queries.ts:647-654 | The lookup finds as many tags as ids were given exactly when the ids are distinct and all exist |
| TagLogic.FoundCount | lib/supabase/services/queries.ts:647-654 | With unique tag ids, the lookup returns one tag per distinct existing id |
| TagLogic.IdSetCard | lib/supabase/services/queries.ts:654 | A list has at least as many entries as distinct ids, and exactly as many when none repeats |
| TagLogic.Without | lib/supabase/services/queries.ts:711-714 | The difference keeps exactly the entries of the first list that are absent from the second |
| Queries.Store.InsertCharacterTags | lib/supabase/services/queries.ts:665-688 | No tags pass with no change; a blank character id fails with "Invalid character ID"; otherwise one row per tag is appended iff all are fresh and reference existing rows, and nothing changes on failure; it succeeds exactly when `Tables.TagInsertAccepted` holds (no tags, or a non-blank id naming an existing character, tags that exist and rows not yet present) |
| Queries.Store.SyncCharacterTags | lib/supabase/services/queries.ts:691-738 | A validation failure changes nothing; succeeds exactly when the desired ids validate and, if some of them are missing from the character, the character id is non-blank and names an existing character; on success the junction table is the synced one and the character's tag set is exactly the desired set; every failure is `bad_request:database` |
| Tables.SyncedJunction | lib/supabase/services/queries.ts:700-728 | The junction table after a successful sync: the character's unwanted rows deleted, then rows appended for the desired ids it lacks (definition; its tag set is stated by `Tables.SyncReachesDesired`) |
| Tables.SyncReachesDesired | lib/supabase/services/queries.ts:700-728 | After deleting the unwanted rows and inserting the missing ones, the character's tag set is exactly the desired set |
| Tables.SyncIdempotent | lib/supabase/services/queries.ts:700-728 | A second sync to the same tags changes nothing |
| Tables.SyncKeepsOtherCharacters | lib/supabase/services/queries.ts:700-728 | A sync neither adds nor removes rows of any other character |
| TagLogic.SyncDiffsDisjoint | lib/supabase/services/queries.ts:711-714 | The ids to add and the ids to remove never overlap |
| TagLogic.SyncDiffsEmptyWhenSynced | lib/supabase/services/queries.ts:711-714 | When the current tags already are the desired set, there is nothing to add or remove |
| Tables.CurrentTagIdsAreTagSet | lib/supabase/services/queries.ts:701-708 | The tag ids read for a character are exactly its tag set |
| Tables.TagSetAfterDelete | lib/supabase/services/queries.ts:717-725 | Deleting some tag ids of a character removes exactly those from its tag set |
| Tables.TagSetAfterInsert | lib/supabase/services/queries.ts:677-687 | Inserting junction rows for some tag ids adds exactly those to the character's tag set |
| Tables.JunctionRows | lib/supabase/services/queries.ts:677-681 | One junction row per tag id, in order, for that character and time |
| Tables.JunctionRowsFreshIff | lib/supabase/services/queries.ts:677-687 | For distinct tag ids, the rows to insert have fresh keys exactly when none of the tags is attached to the character yet |
| Tables.ValidatedInsertAccepted | lib/supabase/services/queries.ts:665-688 | For ids that passed validation, the insert is accepted exactly when there are none, or the character id is non-blank, names a character and carries none of the tags yet |
| Tables.SyncInsertIsFresh | lib/supabase/services/queries.ts:711-728 | The rows the sync inserts never collide with the rows left after its delete |
| Tables.SyncInsertAccepted | lib/supabase/services/queries.ts:711-728 | After validation, the sync's insert is accepted exactly when it has nothing to add, or the character id is non-blank and names a character |
| Tables.ModifyInsertIsFresh | lib/supabase/services/queries.ts:1294-1308 | The rows the modify inserts, only the tags not yet attached after the removal, never collide with existing rows |
| Tables.ModifyInsertAccepted | lib/supabase/services/queries.ts:1294-1308 | After validation, the modify's insert is accepted exactly when it has nothing new to add, or the character id is non-blank and names a character |
| Tables.AddedByModify | lib/supabase/services/queries.ts:1294-1305 | The tags to add that are not attached after the removal (definition; its use is stated by `Tables.ModifyTagSet` and `Tables.ModifyInsertAccepted`) |
| Queries.Store.GetCharacterById | lib/supabase/services/queries.ts:740-759 | Returns the character with that id iff one exists, else "Failed to get character by id" |
| Queries.Store.GetCharactersByUserId | lib/supabase/services/queries.ts:761-835 | Fails exactly on an unknown cursor; otherwise returns the user's newest page of characters after the cursor |
| Queries.Store.GetPublicCharacters | lib/supabase/services/queries.ts:837-909 | Fails exactly on an unknown cursor; otherwise returns the newest page of public characters, and every character returned is public |
| Queries.ApplyPatch | lib/supabase/services/queries.ts:927-935 | A patch keeps the character's id and stamps `updated_at`; owner and creation time change only when patched, and an empty patch changes nothing but `updated_at` |
| Queries.PatchCharacter | lib/supabase/services/queries.ts:927-935 | `.update(...).eq('id', id)`: the patch applied to the row with that id, every other row left as it was (definition) |
| Queries.Store.UpdateCharacter | lib/supabase/services/queries.ts:911-954 | A missing character fails with nothing changed; otherwise exactly that row is patched; tags are synced only when given, and then the update succeeds exactly when the sync's conditions hold; on success the junction table is the synced one and the tag set is the given set; after a failed sync the junction table is unchanged (tags invalid) or has only the sync's removal applied; a sync failure is surfaced as itself only with `enhancedErrorHandling` |
| Queries.Store.DeleteCharacterById | lib/supabase/services/queries.ts:956-980 | Deletes the character's tag rows (leaving it no tags) and the character; returns it iff it existed |
| Queries.Store.GetAllTags | lib/supabase/services/queries.ts:983-995 | Returns every tag exactly once per stored row, ordered by name |
| Tables.ByNameIsOrder | lib/supabase/services/queries.ts:983-995 | Ordering by name is total and transitive |
| Queries.Store.GetTagsByCharacterId | lib/supabase/services/queries.ts:997-1030 | A blank id fails with "Invalid character ID"; otherwise one entry per junction row of the character, carrying its tag id and the tag it names when that tag exists |
| Queries.Store.AddTagsToCharacter | lib/supabase/services/queries.ts:1033-1068 | Succeeds exactly when the ids validate and, if there are any, the character id is non-blank, names an existing character and has none of them yet; a failure changes nothing; on success one row per tag is appended, the tag set grows by exactly those ids, and the character's rows for those ids are returned |
| Queries.Store.RemoveTagsFromCharacter | lib/supabase/services/queries.ts:1070-1101 | Deletes exactly the character's rows for those ids, shrinking its tag set by them, and reports `tagIds.length` as removed |
| Queries.Store.GetChatsByCharacterId | lib/supabase/services/queries.ts:1103-1175 | Fails exactly on an unknown cursor; otherwise returns the newest page of the character's chats after the cursor |
| Queries.NewCharacterDefaults | lib/supabase/services/queries.ts:1222-1244 | A new character without version, NSFW flag or visibility is version 1, not NSFW and private, owned by the user and stamped `now` |
| Queries.NewCharacterRow | lib/supabase/services/queries.ts:1222-1244 | The inserted row with the `\|\|` defaults (definition; its defaults are stated by `Queries.NewCharacterDefaults`) |
| Queries.Store.CreateCharacterWithTagValidation | lib/supabase/services/queries.ts:1177-1263 | Succeeds exactly when `Queries.CreateAccepted` holds: the new id is free and, when tags are given, they validate, the id is non-blank and carries none of them yet; the tables afterwards are exactly `Queries.CharactersAfterCreate` and `Queries.JunctionAfterCreate`: invalid tags or a taken id write nothing, and a failed tag insert keeps the inserted character but adds no tag rows; on success the character row and its tag rows are appended |
| Queries.AcceptedCreateAttachesTags | lib/supabase/services/queries.ts:1248-1251 | An accepted create attaches one junction row per tag of its input, and none for an empty list |
| Queries.CharactersAfterCreate | lib/supabase/services/queries.ts:1217-1251 | The characters table after a create: unchanged when the tags fail validation or the id is taken, otherwise the new row appended, which a later failed tag insert does not undo (definition) |
| Queries.JunctionAfterCreate | lib/supabase/services/queries.ts:1217-1251 | The junction table after a create: the new character's tag rows appended exactly when the create succeeds with tags, otherwise unchanged (definition; its accepted case is stated by `Queries.AcceptedCreateAttachesTags`) |
| Queries.Store.ModifyCharacterTags | lib/supabase/services/queries.ts:1265-1321 | Succeeds exactly when there is nothing to add, or the ids to add validate and, if some are not yet attached after the removal, the character id is non-blank and names an existing character; invalid tags to add fail with the validation error and nothing changed; on success the junction table is `Tables.ModifiedJunction` and the character's tag set is `(old − remove) ∪ add`; a failed insert after validation keeps the removal applied and fails with "Invalid character ID" for a blank id, else "Failed to modify character tags" |
| Tables.ModifiedJunction | lib/supabase/services/queries.ts:1283-1309 | The junction table after a successful modify: the character's rows for the ids to remove deleted, then rows appended for the ids to add it lacks (definition; its tag set is stated by `Tables.ModifyTagSet`) |
| Tables.ModifyTagSet | lib/supabase/services/queries.ts:1283-1309 | Removing, then inserting only the missing tags to add, yields the tag set `(old − remove) ∪ add` |
| Pagination.FetchPageIsNewestPage | lib/supabase/services/queries.ts:88-138 | The `limit + 1` look-ahead is exact: `hasMore` holds iff more than `limit` rows match, and the page is the first `min(limit, n)` rows newest first |
| Pagination.FetchPage | lib/supabase/services/queries.ts:88-138 | What the listing computes from the matching rows: the first `limit + 1` newest first, `hasMore` when more than `limit` came back, and then the first `limit` (definition; stated by `Pagination.FetchPageIsNewestPage`) |
| Pagination.ListPage | lib/supabase/services/queries.ts:88-138 | The listing: the cursor lookup, failing with `not_found:database` on an unknown cursor, then the page of the matching rows in the cursor's window (definition; stated by `Pagination.ListPageFailsOnUnknownCursor` and `Pagination.CursorBounds`) |
| Pagination.NewestPageIsNewest | lib/supabase/services/queries.ts:88-138 | A page is ordered newest first, holds only matching rows, and leaves out no row newer than one it shows |
| Pagination.ListPageFailsOnUnknownCursor | lib/supabase/services/queries.ts:97-127 | A listing fails with `not_found:database` exactly when its cursor names no single row |
| Pagination.CursorBounds | lib/supabase/services/queries.ts:97-127 | `startingAfter` wins and keeps only strictly newer rows; `endingBefore` alone keeps only strictly older ones; every row kept matches the listing's filter |
| Pagination.NewestFirstHead | lib/supabase/services/queries.ts:94 | The first row in newest-first order is a matching row, and none is newer |
| Relational.SortBySorted | lib/supabase/services/queries.ts:94 | Ordering the rows sorts them and keeps them a permutation of the rows (for a total, transitive order) |
| RequestSuggestions.Execute | lib/ai/tools/request-suggestions.ts:32-97 | A failed lookup raises its error and a document without content returns "Document not found", in both cases with nothing streamed or stored; otherwise one transient part per element is streamed in order; for a signed-in user exactly those suggestions are stored against the version read (or "Failed to save suggestions" with nothing stored); without a user nothing is stored and the tool returns the document's id, title and kind with "Suggestions have been added to the document" |
| RequestSuggestions.StreamSuggestions | lib/ai/tools/request-suggestions.ts:58-76 | The loop streams, in order, one transient `data-suggestion` part per element and collects the same suggestions |
| RequestSuggestions.Drafts | lib/ai/tools/request-suggestions.ts:60-67 | One unresolved suggestion per element, for the document, with its own id |
| RequestSuggestions.StreamedMatchesStored | lib/ai/tools/request-suggestions.ts:58-89 | The i-th part streamed and the i-th row stored carry the same suggestion, tagged with the user and the version read |
| RequestSuggestions.StoredRowsReferToReadVersion | lib/ai/tools/request-suggestions.ts:78-89 | The rows stored name the version that was read, so their version reference always holds |
| RequestSuggestions.AsWrittenPayloadRejected | lib/ai/tools/request-suggestions.ts:82-87 | The payload as written names columns the table lacks (`userId`, …) and misses required ones (`user_id`, `document_created_at`), so it is rejected |
| RequestSuggestions.StoredPayloadAccepted | lib/ai/tools/request-suggestions.ts:82-87 | The snake_case payload the model stores names only existing columns and sets every required one |
| RequestSuggestions.Stored | lib/ai/tools/request-suggestions.ts:82-87 | The intended stored row: the draft with the user, the `created_at` of the version read and the save time (definition; stated by `RequestSuggestions.StoredRowsReferToReadVersion` and `RequestSuggestions.StoredPayloadAccepted`) |
| DataStream.Writer.WriteAll | lib/ai/tools/update-document.ts:52-58 | Writing a handler's parts appends exactly those parts, in order |
| UpdateDocument.FindHandler | lib/ai/tools/update-document.ts:43-46 | Returns the first handler of the document's kind, and none exactly when no handler serves that kind |
| UpdateDocument.KindName | lib/ai/tools/update-document.ts:43-49 | The `kind` string of each document kind, as the message "No document handler found for kind: …" names it (definition) |
| UpdateDocument.Execute | lib/ai/tools/update-document.ts:28-68 | A failed lookup raises its error with nothing written; otherwise `data-clear` is written, then either the tool throws "No document handler found for kind: …" or the handler's parts and `data-finish` follow and the document read is returned |
| UpdateDocument.ClearAndFinishFrame | lib/ai/tools/update-document.ts:37-60 | On success the parts added start with the only `data-clear` and end with the only `data-finish`, when the handler writes neither |
| ProfileService.AvailableIffUnused | lib/supabase/services/profile-service.ts:57-83 | With unique usernames, a username is reported available exactly when nobody uses it |
| ProfileService.IsUsernameAvailable | lib/supabase/services/profile-service.ts:57-83 | A name is available only when the lookup fails with PGRST116; a found row or a thrown exception reports it taken |
| ProfileService.ProbeUsernames | lib/supabase/services/profile-service.ts:62-66 | The `.single()` lookup never throws here, and its only error is PGRST116 |
| ProfileService.UniqueUsername | lib/supabase/services/profile-service.ts:91-111 | The username `generateUniqueUsername` settles on (definition; its cases are stated by `ProfileService.UniqueUsernameCases`, and the loop is proved equal to it) |
| ProfileService.FirstAvailable | lib/supabase/services/profile-service.ts:98-106 | The first candidate within the budget that the check accepts, with every earlier one rejected, or none exactly when all are rejected |
| ProfileService.GenerateUniqueUsername | lib/supabase/services/profile-service.ts:91-111 | The loop returns the first available candidate within `maxAttempts` checks, else the next candidate with the last four clock digits appended |
| ProfileService.UniqueUsernameCases | lib/supabase/services/profile-service.ts:91-111 | The username is an available candidate with every earlier one taken, or, after every allowed check failed, the unchecked next candidate plus the last four digits of the clock |
| ProfileService.FirstAvailablePrefix | lib/supabase/services/profile-service.ts:98-106 | A free candidate after only taken ones stays the first available for any longer budget |
| ProfileService.DisplayNameIsPrefix | lib/supabase/services/profile-service.ts:22 | The display name is the e-mail up to its first `@`, or the whole e-mail when it has none |
| ProfileService.DisplayName | lib/supabase/services/profile-service.ts:22 | `email.split('@')[0]` (definition; stated by `ProfileService.DisplayNameIsPrefix`) |
| ProfileService.CreateProfileForUser | lib/supabase/services/profile-service.ts:11-50 | Inserts the generated username, the display name, an empty bio and no avatar for the user; returns the inserted row exactly when the insert succeeds, else nothing |
| Text.TrimIsMiddle | app/characters/create/page.tsx:130-139 | Trimming yields the middle of the string with only whitespace cut from either end |
| Text.TrimEmptyIffBlank | app/characters/create/page.tsx:124-139 | A string trims to empty exactly when it is all whitespace |
| Text.NatToStringValue | lib/supabase/services/profile-service.ts:109-110 | The decimal rendering of the clock denotes its value, with at least four digits from 1000 on |
| Text.LastFour | lib/supabase/services/profile-service.ts:109-110 | `slice(-4)`: the last four characters, or all of a shorter string |
| Text.BeforeFirst | lib/supabase/services/profile-service.ts:22 | `split(sep)[0]`: the prefix before the first separator, free of it |
| CharacterForm.CreateCharacterPage.constructor | app/characters/create/page.tsx:44-60 | The whole form starts as the empty record: every text field blank, one blank greeting, private, not NSFW, no tags; not loading, no alerts, no routes |
| CharacterForm.CreateCharacterPage.HandleAlternateGreetingChange | app/characters/create/page.tsx:80-84 | Replaces only the greeting at `index`, keeping the length and every other greeting |
| CharacterForm.CreateCharacterPage.AddAlternateGreeting | app/characters/create/page.tsx:86-91 | Appends one blank greeting and changes nothing else |
| CharacterForm.CreateCharacterPage.RemoveAlternateGreeting | app/characters/create/page.tsx:93-98 | Drops the greeting at `index` (one fewer in range), and changes nothing for an index out of range |
| CharacterForm.RemoveAt | app/characters/create/page.tsx:96 | `filter((_, i) => i !== index)` is the list without that position, or the list itself out of range |
| CharacterForm.RemoveAtShifts | app/characters/create/page.tsx:96 | Earlier greetings keep their index and later ones move down by one |
| CharacterForm.CreateCharacterPage.HandleTagToggle | app/characters/create/page.tsx:100-107 | Toggles whether the tag is selected |
| CharacterForm.ToggleMembership | app/characters/create/page.tsx:100-107 | Toggling flips the tag's selection and leaves every other selection as it was |
| CharacterForm.ToggleTwice | app/characters/create/page.tsx:100-107 | Toggling an unselected tag twice gives back the original list |
| CharacterForm.Toggle | app/characters/create/page.tsx:100-107 | `tagIds.includes(id) ? filter(…) : [...tagIds, id]` (definition; its meaning is stated by `CharacterForm.ToggleMembership` and `CharacterForm.ToggleTwice`) |
| CharacterForm.NonBlankGreetingsIsFilter | app/characters/create/page.tsx:124-126 | The greetings filter is the relational filter with the non-blank test |
| CharacterForm.NonBlankGreetings | app/characters/create/page.tsx:124-126 | `alternateGreetings.filter(g => g.trim())` (definition; stated by `CharacterForm.NonBlankGreetingsIsFilter` and `CharacterForm.GreetingsKept`) |
| CharacterForm.GreetingsKept | app/characters/create/page.tsx:124-141 | The greetings sent are the non-blank ones, untrimmed, none lost; null is sent exactly when every greeting is blank |
| CharacterForm.TrimOrNullBlank | app/characters/create/page.tsx:131-139 | `trim() \|\| null` is null exactly for a blank field, and otherwise the trimmed text |
| CharacterForm.TrimOrNull | app/characters/create/page.tsx:131-139 | `trim() \|\| null` (definition; its meaning is stated by `CharacterForm.TrimOrNullBlank`) |
| CharacterForm.GreetingsOrNull | app/characters/create/page.tsx:124-141 | The non-blank greetings, or null when none is left (definition; its meaning is stated by `CharacterForm.GreetingsKept`) |
| CharacterForm.Submission | app/characters/create/page.tsx:128-145 | The input `handleSubmit` sends (definition; its normalisation is stated by `CharacterForm.SubmissionNormalises`) |
| CharacterForm.SubmissionNormalises | app/characters/create/page.tsx:128-145 | The name and system prompt are trimmed, never nulled; every other text field is null exactly when blank; tags, NSFW flag and visibility are passed as selected |
| CharacterForm.CreateCharacterPage.HandleSubmit | app/characters/create/page.tsx:109-154 | `CharacterForm.SubmitEffect` of the form as it was: without a user, alerts and writes nothing; with one, the tables are those the create leaves, and it pushes `/characters/<id>` with no alert exactly when `CharacterForm.SubmitAccepted` holds, alerting otherwise; `loading` ends off |
| CharacterForm.SubmitEffect | app/characters/create/page.tsx:109-154 | What a submission does: without a user, an alert and no write; with one, the tables the create leaves, and the new page pushed exactly when `CharacterForm.SubmitAccepted` holds, an alert otherwise (definition; its consequences are the `CharacterForm.Submit…` lemmas) |
| CharacterForm.CreateCharacterPage.TrySubmit | app/characters/create/page.tsx:113-150 | The `try` block: `CharacterForm.SubmitEffect` of its form, the same outcome as `handleSubmit` without the `loading` flag |
| CharacterForm.CreateCharacterPage.CreateFromInput | app/characters/create/page.tsx:128-150 | The create call: the tables become `Queries.CharactersAfterCreate` / `Queries.JunctionAfterCreate` of the input; it navigates, with no alert, exactly when `Queries.CreateAccepted` holds, and otherwise alerts and pushes nothing |
| CharacterForm.SubmitPushCreated | app/characters/create/page.tsx:128-147 | A submission that ends on the new page had a user, raised no alert, and stored exactly the normalised character |
| CharacterForm.SubmitPushAttachesTags | app/characters/create/page.tsx:128-147 | A submission that ends on the new page attached one junction row for every tag selected in the form |
| CharacterForm.SubmitTaglessPushes | app/characters/create/page.tsx:128-147 | A signed-in submission with no tags selected and a free id always ends on the new page |
| CharacterForm.SubmitAlertStoresNoTags | app/characters/create/page.tsx:148-150 | A submission that alerts pushed no route and stored no tag rows; the characters changed at most by the new row |

## Left out

- Network and driver faults other than the key and reference rejections are not modelled. As a
  result a read query fails only on the modelled `.single()` outcomes, an unknown cursor, or its
  own input checks, and the tools' generic `catch` branches are reached only through those
  modelled failures.
- Foreign-key checks on delete are not modelled. The deletes are modelled in the order the code
  runs them, which removes dependent rows first. The multi-step deletes and inserts are not
  transactions: an intermediate failure is modelled where the code can leave partial state
  (`createCharacterWithTagValidation`, `modifyCharacterTags`, `updateCharacter`).
- Concurrency is not modelled: two requests interleaving their queries, or two turns on one chat.
- The SQL collation of `order('name')` is taken to be code-point lexicographic order (`Text.LexLe`).
- `validateTagIds`' `!Array.isArray` and `typeof id === 'string'` checks are not modelled; the types
  already rule those inputs out.
- The language model is an input in both tools:
  - `requestSuggestions` takes the model's elements as an input sequence; the prompt, `streamObject`
    and the five-suggestion bound it asks for are not modelled;
  - `updateDocument`'s handlers are inputs naming their kind and the parts they write. What
    `onUpdateDocument` does inside, including the new version it saves, is not modelled
    (lib/artifacts/server.ts is not part of this model).
- The session (`session.user?.id`) and the authenticated user of the form are inputs.
- The username generator, the `profiles` lookups, the profile insert and `Date.now()` are inputs.
  Only the PGRST116 distinction of `isUsernameAvailable` and the insert's outcome are modelled.
- `console.error` / `console.log` calls are not modelled; neither is the `alert` text beyond its
  message.
- The page's rendering, `loadTags` / `useEffect` and `handleInputChange` are not modelled.
  `handleInputChange` is a generic setter of a named field with an untyped value.
- CharacterForm.CreateCharacterPage.HandleAlternateGreetingChange: requires `index` within the
  greetings. In JavaScript an assignment past the end extends the array with holes, and that is not
  modelled.
- `updateDocument`'s `if (!document)` result (`Document not found`) is not modelled as reachable. The
  lookup raises an error whenever it finds no row, so that branch cannot be taken.
- Queries.ApplyPatch: `id` cannot be patched (a patch may still change the owner and the creation
  time). `character_tags` and `chat` reference `characters.id` by foreign keys
  (lib/supabase/database.ts:35-39, 143-147), and the schema types do not give their `ON UPDATE`
  action, so what renaming a character's key does to those rows, or a collision with a taken id,
  cannot be stated faithfully.
- Queries.Store.UpdateCharacter: for the same reason, an update never renames the character.
- ProfileService.GenerateUniqueUsername: the number of availability checks is stated through a
  ghost out-parameter; the username itself is a real result.

## Findings

| source | as written | input that shows it | evidently intended | confidence | as-written member | corrected member |
|---|---|---|---|---|---|---|
| lib/supabase/services/queries.ts:551-560 | `getMessageCountByUserId` filters messages with `.eq('chat_id', id)` where `id` is the user's id, so it counts the messages of a chat whose id equals the user's id | user `user-1` owns chat `chat-1`, which holds one `user` message from 5 ms before `now`; counted over 24 hours the code says 0 | count the user's recent `user` messages in all chats the user owns (the rate-limit gate's quota) | not executed | Tables.MessageCountAsWrittenMissesOwnChat | Tables.MessageCountCountsOwnMessages |
| lib/ai/tools/request-suggestions.ts:82-87 | `saveSuggestions` receives `{ ...suggestion, userId, createdAt, documentCreatedAt }`, whose camelCase keys are not columns of the `suggestion` table, and which does not set the required `user_id` and `document_created_at` | any signed-in session with at least one suggestion: the insert is rejected and the tool throws "Failed to save suggestions" | store each suggestion with `user_id`, `created_at` and `document_created_at` set to the version read | not executed | RequestSuggestions.AsWrittenPayloadRejected | RequestSuggestions.StoredPayloadAccepted |
| lib/supabase/services/queries.ts:413-419 | `getDocumentById` orders the versions newest first and calls `.single()` without `.limit(1)`, which fails unless exactly one row matches | a document saved twice (two versions, the second newer): the lookup fails with "Failed to get document by id" | return the newest version | not executed | Tables.TwoVersionsBreakDocumentById | Tables.LatestVersionIsNewest |
