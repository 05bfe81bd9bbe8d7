/**
 * The chat record (one row of the `chats` table), the payload that creates
 * one, and the `ChatMessageType` raw-value enumeration, with the coding that
 * Swift synthesises for them.
 */
module ChatModel {
  import opened Wrappers
  import opened Uuids
  import opened Keyed

  /** `enum ChatMessageType: String`: the message kind as the store spells it. */
  datatype ChatMessageType = Text | Image | Link

  /** `rawValue` */
  function RawValue(t: ChatMessageType): (r: string)
    ensures FromRawValue(r) == Some(t)
  {
    match t
    case Text => "text"
    case Image => "image"
    case Link => "link"
  }

  /** `ChatMessageType(rawValue: s)` */
  function FromRawValue(s: string): (r: Option<ChatMessageType>)
    ensures r.Some? <==> s == "text" || s == "image" || s == "link"
  {
    if s == "text" then Some(Text)
    else if s == "image" then Some(Image)
    else if s == "link" then Some(Link)
    else None
  }

  /** The three cases have three distinct raw values. */
  lemma RawValuesDistinct(t: ChatMessageType, u: ChatMessageType)
    ensures RawValue(t) == RawValue(u) <==> t == u
  {
  }

  /** `init(rawValue:)` inverts `rawValue`, in both directions. */
  lemma RawValueRoundTrip(t: ChatMessageType, s: string)
    ensures FromRawValue(RawValue(t)) == Some(t)
    ensures FromRawValue(s) == Some(t) <==> RawValue(t) == s
  {
  }

  /** Decoding a `ChatMessageType` field: a string that is one of the raw values. */
  function DecodeMessageType(rec: Record, key: string): (r: Result<ChatMessageType, DecodingError>)
    ensures r.Success? <==> key in rec && rec[key].JString? && FromRawValue(rec[key].str).Some?
    ensures r.Success? ==> RawValue(r.value) == rec[key].str
  {
    var s :- DecodeString(rec, key);
    match FromRawValue(s)
    case Some(t) => Success(t)
    case None => Failure(DataCorrupted(key))
  }

  /** Encoding a `ChatMessageType` field writes its raw value. */
  function EncodeMessageType(rec: Record, key: string, t: ChatMessageType): (r: Record)
    ensures DecodeMessageType(r, key) == Success(t)
  {
    rec[key := JString(RawValue(t))]
  }

  /** `struct Chat`: `last_message_at` may be absent; the other fields are required. */
  datatype Chat = Chat(
    id: Uuid,
    user_a: Uuid,
    user_b: Uuid,
    last_message_at: Option<string>,
    created_at: string)

  /** The synthesised `Chat.init(from:)`, reading the fields in declaration order. */
  function DecodeChat(rec: Record): (r: Result<Chat, DecodingError>)
    ensures r.Success? ==> {"id", "user_a", "user_b", "created_at"} <= rec.Keys
  {
    var id :- DecodeUuid(rec, "id");
    var userA :- DecodeUuid(rec, "user_a");
    var userB :- DecodeUuid(rec, "user_b");
    var lastMessageAt :- DecodeStringIfPresent(rec, "last_message_at");
    var createdAt :- DecodeString(rec, "created_at");
    Success(Chat(id, userA, userB, lastMessageAt, createdAt))
  }

  /** The synthesised `Chat.encode(to:)`: `last_message_at` only when present. */
  function EncodeChat(c: Chat): (r: Record)
    ensures r.Keys == {"id", "user_a", "user_b", "created_at"} + (if c.last_message_at.Some? then {"last_message_at"} else {})
  {
    var rec := EncodeUuid(map[], "id", c.id);
    var rec := EncodeUuid(rec, "user_a", c.user_a);
    var rec := EncodeUuid(rec, "user_b", c.user_b);
    var rec := EncodeStringIfPresent(rec, "last_message_at", c.last_message_at);
    EncodeString(rec, "created_at", c.created_at)
  }

  /** Every chat survives an encode/decode round trip, absent `last_message_at` included. */
  lemma ChatRoundTrip(c: Chat)
    ensures DecodeChat(EncodeChat(c)) == Success(c)
    ensures "last_message_at" in EncodeChat(c) <==> c.last_message_at.Some?
  {
    ParseUuidString(c.id);
    ParseUuidString(c.user_a);
    ParseUuidString(c.user_b);
  }

  /**
   * A row as the store returns it, with its uuid columns in lower case and a
   * null `last_message_at`, decodes to the chat it describes.
   */
  lemma DecodeStoreRow(id: Uuid, a: Uuid, b: Uuid, createdAt: string)
    ensures DecodeChat(map["id" := JString(StoreUuidText(id)), "user_a" := JString(StoreUuidText(a)),
                           "user_b" := JString(StoreUuidText(b)), "last_message_at" := JNull,
                           "created_at" := JString(createdAt)])
            == Success(Chat(id, a, b, None, createdAt))
  {
    ParseStoreUuidText(id);
    ParseStoreUuidText(a);
    ParseStoreUuidText(b);
  }

  /** A row without `id`, `user_a`, `user_b` or `created_at` does not decode. */
  lemma ChatRequiredKeys(rec: Record, key: string)
    requires key in {"id", "user_a", "user_b", "created_at"} && key !in rec
    ensures DecodeChat(rec).Failure?
  {
  }

  /** A row without `last_message_at` decodes as if it were there and null. */
  lemma ChatOptionalLastMessage(rec: Record)
    requires "last_message_at" !in rec
    ensures DecodeChat(rec) == DecodeChat(rec["last_message_at" := JNull])
    ensures DecodeChat(rec).Success? ==> DecodeChat(rec).value.last_message_at.None?
  {
    assert forall k | k != "last_message_at" :: k in rec <==> k in rec["last_message_at" := JNull];
  }

  /** `Chat.InsertPayload`: only the two participants; the store assigns `id` and `created_at`. */
  datatype ChatInsertPayload = ChatInsertPayload(user_a: Uuid, user_b: Uuid)

  /** The synthesised `InsertPayload.encode(to:)`. */
  function EncodeChatInsert(p: ChatInsertPayload): (rec: Record)
    ensures rec.Keys == {"user_a", "user_b"}
  {
    EncodeUuid(EncodeUuid(map[], "user_a", p.user_a), "user_b", p.user_b)
  }

  /** The participants of an insert payload are read back unchanged from what it encodes. */
  lemma ChatInsertRoundTrip(p: ChatInsertPayload)
    ensures DecodeUuid(EncodeChatInsert(p), "user_a") == Success(p.user_a)
    ensures DecodeUuid(EncodeChatInsert(p), "user_b") == Success(p.user_b)
  {
    ParseUuidString(p.user_a);
    ParseUuidString(p.user_b);
  }
}
