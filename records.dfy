/**
 * The rows of the tables the core reads and writes, after the `Row` types of the generated
 * database typings (lib/supabase/database.ts). Timestamps are integers counting milliseconds: the
 * ISO-8601 strings the source stores compare in the order of the instants they denote. JSON columns
 * are opaque text.
 */
module Records {
  import opened Wrappers

  /** `document_kind`. */
  datatype DocumentKind = Text | Code | Image | Sheet

  /** `VisibilityType` of a chat. */
  datatype Visibility = Private | Public

  datatype Chat = Chat(
    id: string,
    user_id: string,
    title: string,
    visibility: Visibility,
    character_id: Option<string>,
    created_at: int,
    updated_at: int)

  datatype Message = Message(
    id: string,
    chat_id: string,
    role: string,
    parts: string,        // JSON
    attachments: string,  // JSON
    created_at: int,
    updated_at: int)

  datatype Vote = Vote(
    chat_id: string,
    message_id: string,
    is_upvoted: bool,
    created_at: int,
    updated_at: int)

  /** A row of the `stream` table: one marker per generated turn. */
  datatype StreamMarker = StreamMarker(
    id: string,
    chat_id: string,
    created_at: int,
    updated_at: int)

  /** One version of a document; a document is every row sharing an `id`. */
  datatype Document = Document(
    id: string,
    title: string,
    kind: DocumentKind,
    content: Option<string>,
    user_id: string,
    created_at: int,
    updated_at: int)

  /** A suggestion, tied to the exact document version `(document_id, document_created_at)`. */
  datatype Suggestion = Suggestion(
    id: string,
    document_id: string,
    document_created_at: int,
    original_text: string,
    suggested_text: string,
    description: Option<string>,
    is_resolved: bool,
    user_id: string,
    created_at: int,
    updated_at: int)

  datatype Character = Character(
    id: string,
    user_id: string,
    name: string,
    description: Option<string>,
    personality: Option<string>,
    scenario: Option<string>,
    first_message: Option<string>,
    message_example: Option<string>,
    creator_notes: Option<string>,
    system_prompt: string,
    post_history_instructions: Option<string>,
    alternate_greetings: Option<seq<string>>,
    avatar_url: Option<string>,
    character_version: int,
    is_nsfw: bool,
    visibility: string,
    created_at: int,
    updated_at: int)

  datatype Tag = Tag(
    id: string,
    name: string,
    description: Option<string>,
    is_system: Option<bool>,
    created_at: int)

  /** A row of the `character_tags` junction table. */
  datatype CharacterTag = CharacterTag(
    character_id: string,
    tag_id: string,
    created_at: int)

  // The key of each table, as a function the uniqueness invariants are stated with.

  function ChatKey(c: Chat): string { c.id }
  function MessageKey(m: Message): string { m.id }
  /** At most one vote per message: what the upsert of `voteMessage` keeps (see Queries.Store.Valid). */
  function VoteKey(v: Vote): string { v.message_id }
  /** The vote table's own key `(chat_id, message_id)`. */
  function VotePk(v: Vote): (string, string) { (v.chat_id, v.message_id) }
  function StreamKey(s: StreamMarker): string { s.id }
  /** The composite key `(id, created_at)` that suggestions reference. */
  function DocumentKey(d: Document): (string, int) { (d.id, d.created_at) }
  function SuggestionKey(s: Suggestion): string { s.id }
  function CharacterKey(c: Character): string { c.id }
  function TagKey(t: Tag): string { t.id }
  function CharacterTagKey(ct: CharacterTag): (string, string) { (ct.character_id, ct.tag_id) }

  function ChatCreatedAt(c: Chat): int { c.created_at }
  function MessageCreatedAt(m: Message): int { m.created_at }
  function StreamCreatedAt(s: StreamMarker): int { s.created_at }
  function DocumentCreatedAt(d: Document): int { d.created_at }
  function CharacterTagId(ct: CharacterTag): string { ct.tag_id }
  function CharacterCreatedAt(c: Character): int { c.created_at }
}
