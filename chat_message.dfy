/**
 * A message row (`struct ChatMessage`), its insert payload, and its
 * hand-written `init(from:)` / `encode(to:)`. The decoder normalises both
 * `id` and `sender_id` to the canonical `uuidString` form.
 */
module ChatMessages {
  import opened Wrappers
  import opened Uuids
  import opened Keyed
  import CM = ChatModel

  /** The chat UI library's `MessageType`, which the message record stores. */
  datatype MessageType = Text | Image | Link

  /**
   * `struct ChatMessage`. The Swift field `type` is called `kind` here, as
   * `type` is a Dafny keyword.
   */
  datatype ChatMessage = ChatMessage(
    id: string,
    chat_id: Uuid,
    sender_id: string,
    content: string,
    kind: MessageType,
    is_read: bool,
    created_at: string,
    updated_at: Option<string>)

  /** The coding keys every message row must carry. */
  const RequiredKeys: set<string> :=
    {"id", "chat_id", "sender_id", "content", "type", "is_read", "created_at"}

  /** `chatMessageType`: the library kind as the store's enumeration. */
  function ChatMessageTypeOf(t: MessageType): (r: CM.ChatMessageType)
    ensures MessageTypeOf(r) == t
  {
    match t
    case Text => CM.Text
    case Image => CM.Image
    case Link => CM.Link
  }

  /** The decoder's `switch chatType`: the store's enumeration as the library kind. */
  function MessageTypeOf(t: CM.ChatMessageType): (r: MessageType)
    ensures r == Image <==> t == CM.Image
    ensures r == Link <==> t == CM.Link
  {
    match t
    case Text => Text
    case Image => Image
    case Link => Link
  }

  /** The two mappings are mutual inverses: text to text, image to image, link to link. */
  lemma KindMappingsInverse(t: MessageType, c: CM.ChatMessageType)
    ensures MessageTypeOf(ChatMessageTypeOf(t)) == t
    ensures ChatMessageTypeOf(MessageTypeOf(c)) == c
    ensures ChatMessageTypeOf(t) == c <==> MessageTypeOf(c) == t
  {
  }

  /** Both identifiers hold canonical UUID text, as every decoded message does. */
  predicate WellFormed(m: ChatMessage) {
    IsCanonical(m.id) && IsCanonical(m.sender_id)
  }

  /** `ChatMessage.init(from:)` */
  function Decode(rec: Record): (r: Result<ChatMessage, DecodingError>)
    ensures r.Success? ==> RequiredKeys <= rec.Keys
    ensures r.Success? ==>
      && DecodeUuid(rec, "id").Success? && DecodeUuid(rec, "sender_id").Success?
      && r.value.id == UuidString(DecodeUuid(rec, "id").value)
      && r.value.sender_id == UuidString(DecodeUuid(rec, "sender_id").value)
  {
    var uuidId :- DecodeUuid(rec, "id");
    var chatId :- DecodeUuid(rec, "chat_id");
    var uuidSenderId :- DecodeUuid(rec, "sender_id");
    var content :- DecodeString(rec, "content");
    var chatType :- CM.DecodeMessageType(rec, "type");
    var isRead :- DecodeBool(rec, "is_read");
    var createdAt :- DecodeString(rec, "created_at");
    var updatedAt :- DecodeStringIfPresent(rec, "updated_at");
    Success(ChatMessage(UuidString(uuidId), chatId, UuidString(uuidSenderId), content,
                        MessageTypeOf(chatType), isRead, createdAt, updatedAt))
  }

  /**
   * `ChatMessage.encode(to:)`. `idFallback` and `senderFallback` stand for the
   * fresh `UUID()` written when `id` or `sender_id` is not UUID text.
   */
  function Encode(m: ChatMessage, idFallback: Uuid, senderFallback: Uuid): (r: Record)
    ensures r.Keys == RequiredKeys + (if m.updated_at.Some? then {"updated_at"} else {})
  {
    var rec := EncodeUuid(map[], "id", UuidOr(m.id, idFallback));
    var rec := EncodeUuid(rec, "chat_id", m.chat_id);
    var rec := EncodeUuid(rec, "sender_id", UuidOr(m.sender_id, senderFallback));
    var rec := EncodeString(rec, "content", m.content);
    var rec := CM.EncodeMessageType(rec, "type", ChatMessageTypeOf(m.kind));
    var rec := EncodeBool(rec, "is_read", m.is_read);
    var rec := EncodeString(rec, "created_at", m.created_at);
    EncodeStringIfPresent(rec, "updated_at", m.updated_at)
  }

  /** Every successfully decoded message is well formed. */
  lemma DecodedIsWellFormed(rec: Record)
    requires Decode(rec).Success?
    ensures WellFormed(Decode(rec).value)
  {
    UuidStringIsCanonical(ParseUuid(rec["id"].str).value);
    UuidStringIsCanonical(ParseUuid(rec["sender_id"].str).value);
  }

  /** Each field `Encode` writes reads back, key by key, as the value written. */
  lemma EncodedFields(m: ChatMessage, idFallback: Uuid, senderFallback: Uuid)
    ensures var rec := Encode(m, idFallback, senderFallback);
      && DecodeUuid(rec, "id") == Success(UuidOr(m.id, idFallback))
      && DecodeUuid(rec, "chat_id") == Success(m.chat_id)
      && DecodeUuid(rec, "sender_id") == Success(UuidOr(m.sender_id, senderFallback))
      && DecodeString(rec, "content") == Success(m.content)
      && CM.DecodeMessageType(rec, "type") == Success(ChatMessageTypeOf(m.kind))
      && DecodeBool(rec, "is_read") == Success(m.is_read)
      && DecodeString(rec, "created_at") == Success(m.created_at)
      && DecodeStringIfPresent(rec, "updated_at") == Success(m.updated_at)
      && ("updated_at" in rec <==> m.updated_at.Some?)
  {
    ParseUuidString(UuidOr(m.id, idFallback));
    ParseUuidString(m.chat_id);
    ParseUuidString(UuidOr(m.sender_id, senderFallback));
  }

  /**
   * Encoding then decoding any message keeps `chat_id`, `content`, the kind,
   * `is_read`, `created_at` and `updated_at` (present or absent) unchanged;
   * the identifiers come back as the canonical text of what was written.
   */
  lemma EncodeDecodePassThrough(m: ChatMessage, idFallback: Uuid, senderFallback: Uuid)
    ensures var r := Decode(Encode(m, idFallback, senderFallback));
      && r.Success?
      && r.value.id == UuidString(UuidOr(m.id, idFallback))
      && r.value.sender_id == UuidString(UuidOr(m.sender_id, senderFallback))
      && r.value.chat_id == m.chat_id
      && r.value.content == m.content
      && r.value.kind == m.kind
      && r.value.is_read == m.is_read
      && r.value.created_at == m.created_at
      && r.value.updated_at == m.updated_at
    ensures "updated_at" in Encode(m, idFallback, senderFallback) <==> m.updated_at.Some?
  {
    EncodedFields(m, idFallback, senderFallback);
    KindMappingsInverse(m.kind, CM.Text);
  }

  /** A well-formed message never takes the random fallback and decodes back to itself. */
  lemma RoundTrip(m: ChatMessage, idFallback: Uuid, senderFallback: Uuid)
    requires WellFormed(m)
    ensures Decode(Encode(m, idFallback, senderFallback)) == Success(m)
  {
    EncodeDecodePassThrough(m, idFallback, senderFallback);
  }

  /** Re-encoding a decoded message reproduces its UUIDs whatever the fallbacks. */
  lemma ReencodeDecoded(rec: Record, f1: Uuid, f2: Uuid, g1: Uuid, g2: Uuid)
    requires Decode(rec).Success?
    ensures Encode(Decode(rec).value, f1, f2) == Encode(Decode(rec).value, g1, g2)
    ensures Decode(Encode(Decode(rec).value, f1, f2)) == Decode(rec)
  {
    DecodedIsWellFormed(rec);
    RoundTrip(Decode(rec).value, f1, f2);
  }

  /** A row missing any required key does not decode. */
  lemma MissingRequiredKey(rec: Record, key: string)
    requires key in RequiredKeys && key !in rec
    ensures Decode(rec).Failure?
  {
  }

  /** A row without `updated_at` decodes exactly as if that field were null. */
  lemma MissingUpdatedAt(rec: Record)
    requires Decode(rec).Success?
    ensures Decode(rec - {"updated_at"}) == Success(Decode(rec).value.(updated_at := None))
  {
    var r' := rec - {"updated_at"};
    assert forall k | k != "updated_at" :: k in r' <==> k in rec;
    assert forall k | k != "updated_at" && k in rec :: r'[k] == rec[k];
  }

  /** `ChatMessage.InsertPayload`: what a send writes; the store assigns the rest. */
  datatype InsertPayload = InsertPayload(
    chat_id: Uuid,
    sender_id: Uuid,
    content: string,
    kind: CM.ChatMessageType)

  /** The synthesised `InsertPayload.encode(to:)`. */
  function EncodeInsert(p: InsertPayload): (rec: Record)
    ensures rec.Keys == {"chat_id", "sender_id", "content", "type"}
    ensures DecodeString(rec, "content") == Success(p.content)
    ensures CM.DecodeMessageType(rec, "type") == Success(p.kind)
  {
    var rec := EncodeUuid(map[], "chat_id", p.chat_id);
    var rec := EncodeUuid(rec, "sender_id", p.sender_id);
    var rec := EncodeString(rec, "content", p.content);
    CM.EncodeMessageType(rec, "type", p.kind)
  }
}
