/**
 * The sync engine of one conversation (`ChatViewModel`): it owns the message
 * list of a chat and merges four sources into it: the history load, the
 * user's sends, the user's deletes and the store's change feed. Each call to
 * the store is an outcome passed in by the caller (the reply body or the
 * error thrown), which the engine decodes as the app does.
 */
module ChatEngine {
  import opened Wrappers
  import opened Uuids
  import opened Text
  import opened Urls
  import opened Keyed
  import CM = ChatModel
  import opened ChatMessages
  import Profiles
  import opened MessageList
  import opened ChatRules

  /** An error a store call or a decode threw. */
  datatype Error = StoreError(description: string) | Decoding(reason: DecodingError)

  /** `error.localizedDescription` */
  function Describe(e: Error): (r: string)
    ensures e.StoreError? ==> r == e.description
    ensures e.Decoding? ==> r != []
  {
    match e
    case StoreError(d) => d
    case Decoding(KeyNotFound(_)) => "The data couldn’t be read because it is missing."
    case Decoding(ValueNotFound(_)) => "The data couldn’t be read because it is missing."
    case Decoding(_) => "The data couldn’t be read because it isn’t in the correct format."
  }

  /** What a store call gave back: the response body, or the error it threw. */
  type Reply = Result<Body, Error>

  /** The JSON object a successful call returned, if its body is one. */
  function ReplyObject(reply: Reply): Option<Record> {
    if reply.Success? && reply.value.JsonBody? && reply.value.value.JObject? then
      Some(reply.value.value.fields)
    else
      None
  }

  /** `try JSONDecoder().decode(ChatMessage.self, from: response.data)` after a successful call. */
  function MessageReply(reply: Reply): (r: Result<ChatMessage, Error>)
    ensures reply.Failure? ==> r == Failure(reply.error)
    ensures r.Success? <==> ReplyObject(reply).Some? && Decode(ReplyObject(reply).value).Success?
    ensures r.Success? ==> Decode(ReplyObject(reply).value) == Success(r.value)
  {
    match reply
    case Failure(e) => Failure(e)
    case Success(body) =>
      match DecodeObject(body, Decode)
      case Success(m) => Success(m)
      case Failure(d) => Failure(Decoding(d))
  }

  /** `loadMessages`: the chat's rows, oldest first, decoded as `[ChatMessage]`. */
  function LoadHistory(reply: Reply): (r: Result<seq<ChatMessage>, Error>)
    ensures reply.Failure? ==> r == Failure(reply.error)
    ensures r.Success? ==> reply.Success? && reply.value.JsonBody? && reply.value.value.JArray?
    ensures r.Success? ==> |r.value| == |reply.value.value.items|
    ensures r.Success? ==> forall i | 0 <= i < |r.value| ::
      reply.value.value.items[i].JObject? && Decode(reply.value.value.items[i].fields) == Success(r.value[i])
    ensures reply.Success? && reply.value.JsonBody? && reply.value.value.JArray? &&
      (forall j | 0 <= j < |reply.value.value.items| ::
         reply.value.value.items[j].JObject? && Decode(reply.value.value.items[j].fields).Success?)
      ==> r.Success?
  {
    match reply
    case Failure(e) => Failure(e)
    case Success(body) =>
      match DecodeArray(body, Decode)
      case Success(ms) => Success(ms)
      case Failure(d) => Failure(Decoding(d))
  }

  /** The history load returned rows with pairwise distinct ids (or failed). */
  predicate HistoryIdsDistinct(reply: Reply) {
    LoadHistory(reply).Success? ==> UniqueIds(LoadHistory(reply).value)
  }

  /** Every message a reply decodes to is well formed. */
  lemma MessageReplyWellFormed(reply: Reply)
    requires MessageReply(reply).Success?
    ensures WellFormed(MessageReply(reply).value)
  {
    DecodedIsWellFormed(reply.value.value.fields);
  }

  /** Every message of a loaded history is well formed. */
  lemma HistoryWellFormed(reply: Reply)
    requires LoadHistory(reply).Success?
    ensures forall i | 0 <= i < |LoadHistory(reply).value| :: WellFormed(LoadHistory(reply).value[i])
  {
    var items := reply.value.value.items;
    var ms := LoadHistory(reply).value;
    forall i | 0 <= i < |ms| ensures WellFormed(ms[i]) {
      DecodedIsWellFormed(items[i].fields);
    }
  }

  /**
   * The chat the lookup found: a non-empty reply that decodes as `[Chat]`
   * with at least one element gives its first element; a failed call, an
   * empty body, an undecodable body or an empty array give nothing.
   */
  function ExistingChat(lookup: Reply): (r: Option<CM.Chat>)
    ensures r.Some? ==> lookup.Success? && lookup.value.JsonBody? && lookup.value.value.JArray?
    ensures r.Some? ==> |lookup.value.value.items| > 0 && lookup.value.value.items[0].JObject?
    ensures r.Some? ==> CM.DecodeChat(lookup.value.value.items[0].fields) == Success(r.value)
    ensures lookup.Success? && lookup.value.JsonBody? && lookup.value.value.JArray? &&
      lookup.value.value.items != [] && DecodeEach(lookup.value.value.items, CM.DecodeChat).Success?
      ==> r == Some(CM.DecodeChat(lookup.value.value.items[0].fields).value)
  {
    match lookup
    case Failure(_) => None
    case Success(body) =>
      if body == EmptyBody then None
      else
        match DecodeArray(body, CM.DecodeChat)
        case Success(chats) => if chats != [] then Some(chats[0]) else None
        case Failure(_) => None
  }

  /** The `or(...)` filter of the lookup: the chat joins `a` and `b`, in either order. */
  predicate MatchesPair(c: CM.Chat, a: Uuid, b: Uuid)
    ensures MatchesPair(c, a, b) ==> {c.user_a, c.user_b} == {a, b}
  {
    (c.user_a == a && c.user_b == b) || (c.user_a == b && c.user_b == a)
  }

  /** The result of `loadOrCreateChat`, and the insert it issued if it got that far. */
  datatype Opening = Opening(chat: Result<CM.Chat, Error>, insert: Option<CM.ChatInsertPayload>)

  /**
   * `loadOrCreateChat`: the chat the lookup found, or else the chat the
   * store creates for the pair (current user as `user_a`).
   */
  function LoadOrCreateChat(me: Uuid, other: Uuid, lookup: Reply, create: Reply): (r: Opening)
    ensures r.insert.None? <==> ExistingChat(lookup).Some?
    ensures r.insert.Some? ==> r.insert.value == CM.ChatInsertPayload(me, other)
    ensures ExistingChat(lookup).Some? ==> r.chat == Success(ExistingChat(lookup).value)
    ensures ExistingChat(lookup).None? && create.Failure? ==> r.chat == Failure(create.error)
  {
    match ExistingChat(lookup)
    case Some(chat) => Opening(Success(chat), None)
    case None =>
      var payload := CM.ChatInsertPayload(me, other);
      match create
      case Failure(e) => Opening(Failure(e), Some(payload))
      case Success(body) =>
        match DecodeObject(body, CM.DecodeChat)
        case Success(chat) => Opening(Success(chat), Some(payload))
        case Failure(d) => Opening(Failure(Decoding(d)), Some(payload))
  }

  /**
   * A lookup whose rows all decode as chats returns the first of them, and no
   * chat is created; the rows may hold the store's lower-case ids and a null
   * `last_message_at`.
   */
  lemma LookupHitSkipsCreate(me: Uuid, other: Uuid, lookup: Reply, create: Reply, items: seq<Json>)
    requires lookup == Success(JsonBody(JArray(items)))
    requires items != []
    requires forall k | 0 <= k < |items| :: items[k].JObject? && CM.DecodeChat(items[k].fields).Success?
    ensures LoadOrCreateChat(me, other, lookup, create) == Opening(Success(CM.DecodeChat(items[0].fields).value), None)
  {
  }

  /**
   * A lookup answered with the store's row for the pair (lower-case ids, no
   * last message yet) returns that chat, and no chat is created.
   */
  lemma {:induction false} LookupStoreRowSkipsCreate(me: Uuid, other: Uuid, create: Reply, id: Uuid, createdAt: string)
    ensures var row := map["id" := JString(StoreUuidText(id)), "user_a" := JString(StoreUuidText(me)),
                            "user_b" := JString(StoreUuidText(other)), "last_message_at" := JNull,
                            "created_at" := JString(createdAt)];
      LoadOrCreateChat(me, other, Success(JsonBody(JArray([JObject(row)]))), create)
      == Opening(Success(CM.Chat(id, me, other, None, createdAt)), None)
  {
    var row := map["id" := JString(StoreUuidText(id)), "user_a" := JString(StoreUuidText(me)),
                   "user_b" := JString(StoreUuidText(other)), "last_message_at" := JNull,
                   "created_at" := JString(createdAt)];
    CM.DecodeStoreRow(id, me, other, createdAt);
    LookupHitSkipsCreate(me, other, Success(JsonBody(JArray([JObject(row)]))), create, [JObject(row)]);
  }

  /**
   * A lookup that fails, returns no data, or returns rows that are not chats
   * or no rows at all falls through to creation; the created chat is the one
   * the insert reply decodes to, and a failed insert is the error thrown.
   */
  lemma LookupMissCreates(me: Uuid, other: Uuid, lookup: Reply, create: Reply)
    requires || lookup.Failure?
             || lookup == Success(EmptyBody)
             || lookup == Success(JsonBody(JArray([])))
             || (lookup.Success? && DecodeArray(lookup.value, CM.DecodeChat).Failure?)
    ensures var r := LoadOrCreateChat(me, other, lookup, create);
      && r.insert == Some(CM.ChatInsertPayload(me, other))
      && (create.Failure? ==> r.chat == Failure(create.error))
      && (create.Success? ==> (r.chat.Success? <==> DecodeObject(create.value, CM.DecodeChat).Success?))
      && (r.chat.Success? ==> Success(r.chat.value) == DecodeObject(create.value, CM.DecodeChat))
  {
  }

  /**
   * The chat created from the insert payload of one participant is the one
   * the lookup filter selects, whichever of the two participants looks it up.
   */
  lemma CreatedChatMatchesEither(me: Uuid, other: Uuid, c: CM.Chat)
    requires c.user_a == CM.ChatInsertPayload(me, other).user_a
    requires c.user_b == CM.ChatInsertPayload(me, other).user_b
    ensures MatchesPair(c, me, other) && MatchesPair(c, other, me)
  {
    MatchesPairSymmetric(c, me, other);
  }

  /** The lookup filter does not depend on which participant opens the chat. */
  lemma MatchesPairSymmetric(c: CM.Chat, a: Uuid, b: Uuid)
    ensures MatchesPair(c, a, b) <==> MatchesPair(c, b, a)
    ensures MatchesPair(CM.Chat(c.id, a, b, c.last_message_at, c.created_at), b, a)
  {
  }

  /**
   * The old-record handler as written: `removeAll { $0.id == idValue }`
   * compares the feed's id text with the stored `uuidString`.
   */
  function FeedDeleteAsWritten(ms: seq<ChatMessage>, idValue: string): (r: seq<ChatMessage>)
    ensures |r| <= |ms|
    ensures forall m :: m in r <==> m in ms && m.id != idValue
  {
    RemoveByIdMembers(ms, idValue);
    RemoveById(ms, idValue)
  }

  /**
   * The feed reports the deleted row's id as the store prints it, in lower
   * case; the handler as written then removes nothing, and the message the
   * row held stays in the list.
   */
  lemma FeedDeleteAsWrittenKeepsRow(ms: seq<ChatMessage>, u: Uuid, k: nat)
    requires k < 32 && u[k] >= 10
    requires forall i | 0 <= i < |ms| :: WellFormed(ms[i])
    ensures FeedDeleteAsWritten(ms, StoreUuidText(u)) == ms
  {
    StoreTextDiffersFromUuidString(u, k);
    ParseStoreUuidText(u);
    var t := StoreUuidText(u);
    assert !IsCanonical(t);
    forall i | 0 <= i < |ms| ensures ms[i].id != t {
      assert WellFormed(ms[i]);
    }
    RemoveByIdAbsent(ms, t);
  }

  /** The UUID whose 32 digits are all `A`: the store prints it in lower case. */
  const AllA: Uuid := seq(32, _ => 10)

  /**
   * A concrete case: a list holding one decoded message with id `AllA`
   * keeps it when the feed reports that row deleted.
   */
  lemma FeedDeleteAsWrittenExample(m: ChatMessage)
    requires WellFormed(m) && m.id == UuidString(AllA)
    ensures FeedDeleteAsWritten([m], StoreUuidText(AllA)) == [m]
    ensures FeedDelete([m], StoreUuidText(AllA)) == []
  {
    FeedDeleteAsWrittenKeepsRow([m], AllA, 0);
    FeedDeleteStoreText([m], AllA);
  }

  /**
   * The handler as intended: the feed's id text is read as a UUID and the
   * message with that UUID is removed, whatever letter case the store uses.
   */
  function FeedDelete(ms: seq<ChatMessage>, idValue: string): (r: seq<ChatMessage>)
    ensures ParseUuid(idValue).None? ==> r == FeedDeleteAsWritten(ms, idValue)
    ensures IsCanonical(idValue) ==> r == FeedDeleteAsWritten(ms, idValue)
  {
    match ParseUuid(idValue)
    case Some(u) => RemoveById(ms, UuidString(u))
    case None => RemoveById(ms, idValue)
  }

  /**
   * In a list of decoded messages, the corrected handler removes exactly the
   * messages whose id names the same UUID as the feed's text, keeps every
   * other message, and keeps ids unique.
   */
  lemma FeedDeleteRemovesRow(ms: seq<ChatMessage>, idValue: string)
    requires ParseUuid(idValue).Some?
    requires forall i | 0 <= i < |ms| :: WellFormed(ms[i])
    ensures forall m :: m in FeedDelete(ms, idValue) <==>
      m in ms && ParseUuid(m.id) != ParseUuid(idValue)
    ensures UniqueIds(ms) ==> UniqueIds(FeedDelete(ms, idValue))
  {
    var u := ParseUuid(idValue).value;
    RemoveByIdMembers(ms, UuidString(u));
    forall m | m in ms ensures m.id == UuidString(u) <==> ParseUuid(m.id) == Some(u) {
      var i :| 0 <= i < |ms| && ms[i] == m;
      assert WellFormed(ms[i]);
      ParseUuidString(u);
    }
    if UniqueIds(ms) {
      RemoveByIdPreservesUnique(ms, UuidString(u));
    }
  }

  /** With the corrected handler, the lower-case id of a row deletes its message. */
  lemma FeedDeleteStoreText(ms: seq<ChatMessage>, u: Uuid)
    requires forall i | 0 <= i < |ms| :: WellFormed(ms[i])
    ensures FeedDelete(ms, StoreUuidText(u)) == RemoveById(ms, UuidString(u))
    ensures UuidString(u) !in Ids(FeedDelete(ms, StoreUuidText(u)))
  {
    ParseStoreUuidText(u);
    RemoveByIdMembers(ms, UuidString(u));
  }

  /** The replies the store gives to the three calls of `start`. */
  datatype StartReplies = StartReplies(lookup: Reply, create: Reply, load: Reply)

  /** One change-feed event on the `messages` table. */
  datatype Change = Insert(record: Record) | Update(record: Record) | Delete(oldRecord: Record)

  class ChatViewModel {
    var messages: seq<ChatMessage>
    var isLoading: bool
    var errorMessage: Option<string>
    var chatId: Option<Uuid>
    /** The chat id each opened change feed was opened for, oldest first. */
    var feeds: seq<Uuid>
    const currentUser: Profiles.ProfileModel
    const otherUser: Profiles.ProfileModel

    /**
     * Both participants are decoded profiles; ids in `messages` are unique
     * and every message is a decoded (well-formed) one.
     */
    ghost predicate Valid()
      reads this
    {
      && Profiles.WellFormed(currentUser) && Profiles.WellFormed(otherUser)
      && UniqueIds(messages)
      && forall i | 0 <= i < |messages| :: WellFormed(messages[i])
    }

    /** `currentUser.uuidId` */
    function MyId(): (u: Uuid)
      requires Profiles.WellFormed(currentUser)
      ensures UuidString(u) == currentUser.id
    {
      ParseUuid(currentUser.id).value
    }

    /** `otherUser.uuidId` */
    function OtherId(): (u: Uuid)
      requires Profiles.WellFormed(otherUser)
      ensures UuidString(u) == otherUser.id
    {
      ParseUuid(otherUser.id).value
    }

    constructor(currentUser: Profiles.ProfileModel, otherUser: Profiles.ProfileModel)
      requires Profiles.WellFormed(currentUser) && Profiles.WellFormed(otherUser)
      ensures Valid()
      ensures this.currentUser == currentUser && this.otherUser == otherUser
      ensures messages == [] && !isLoading && errorMessage.None? && chatId.None? && feeds == []
    {
      this.currentUser := currentUser;
      this.otherUser := otherUser;
      messages := [];
      isLoading := false;
      errorMessage := None;
      chatId := None;
      feeds := [];
    }

    /**
     * `start`: clears the error, opens the chat, binds `chatId`, replaces the
     * list with the history and opens a change feed for the chat. Any error
     * is recorded and stops the sequence where it happened; loading always
     * ends.
     */
    method Start(replies: StartReplies) returns (insert: Option<CM.ChatInsertPayload>)
      requires Valid() && HistoryIdsDistinct(replies.load)
      modifies this
      ensures Valid() && !isLoading
      ensures var o := LoadOrCreateChat(MyId(), OtherId(), replies.lookup, replies.create);
        && insert == o.insert
        && (o.chat.Failure? ==>
              && chatId == old(chatId) && messages == old(messages) && feeds == old(feeds)
              && errorMessage == Some(Describe(o.chat.error)))
        && (o.chat.Success? ==> chatId == Some(o.chat.value.id))
        && (o.chat.Success? && LoadHistory(replies.load).Failure? ==>
              && messages == old(messages) && feeds == old(feeds)
              && errorMessage == Some(Describe(LoadHistory(replies.load).error)))
        && (o.chat.Success? && LoadHistory(replies.load).Success? ==>
              && messages == LoadHistory(replies.load).value
              && feeds == old(feeds) + [o.chat.value.id]
              && errorMessage.None?)
    {
      isLoading := true;
      errorMessage := None;
      var opening := LoadOrCreateChat(MyId(), OtherId(), replies.lookup, replies.create);
      insert := opening.insert;
      match opening.chat {
        case Failure(e) =>
          errorMessage := Some(Describe(e));
        case Success(chat) =>
          chatId := Some(chat.id);
          match LoadHistory(replies.load) {
            case Failure(e) =>
              errorMessage := Some(Describe(e));
            case Success(history) =>
              HistoryWellFormed(replies.load);
              messages := history;
              feeds := feeds + [chat.id];
          }
      }
      isLoading := false;
    }

    /**
     * The store's reply to a message insert: the returned row is appended
     * unless a message with its id is already there; an error is recorded
     * and the list kept.
     */
    method RecordSent(reply: Reply)
      requires Valid()
      modifies this
      ensures Valid()
      ensures chatId == old(chatId) && feeds == old(feeds) && isLoading == old(isLoading)
      ensures MessageReply(reply).Success? ==>
        messages == AppendIfAbsent(old(messages), MessageReply(reply).value)
        && errorMessage == old(errorMessage)
      ensures MessageReply(reply).Failure? ==>
        messages == old(messages) && errorMessage == Some(Describe(MessageReply(reply).error))
    {
      match MessageReply(reply) {
        case Success(m) =>
          MessageReplyWellFormed(reply);
          AppendIfAbsentSpec(messages, m);
          messages := AppendIfAbsent(messages, m);
        case Failure(e) =>
          errorMessage := Some(Describe(e));
      }
    }

    /**
     * `sendTextMessage`: blank text is ignored; otherwise the chat is opened
     * if need be and the trimmed text is inserted, as a link or as text.
     */
    method SendTextMessage(text: string, replies: StartReplies, insert: Reply)
      returns (payload: Option<InsertPayload>)
      requires Valid()
      requires chatId.None? ==> HistoryIdsDistinct(replies.load)
      modifies this
      ensures Valid()
      ensures Trim(text) == [] ==>
        && payload.None? && messages == old(messages) && chatId == old(chatId)
        && errorMessage == old(errorMessage) && feeds == old(feeds) && isLoading == old(isLoading)
      ensures payload.Some? <==> Trim(text) != [] && chatId.Some?
      ensures payload.Some? ==>
        && payload.value.content == Trim(text)
        && payload.value.kind == Classify(Trim(text))
        && UuidString(payload.value.sender_id) == currentUser.id
        && chatId == Some(payload.value.chat_id)
      ensures payload.Some? && MessageReply(insert).Success? ==> MessageReply(insert).value.id in Ids(messages)
      ensures payload.Some? && MessageReply(insert).Failure? ==>
        errorMessage == Some(Describe(MessageReply(insert).error))
      ensures Trim(text) != [] && old(chatId).Some? ==>
        && chatId == old(chatId) && feeds == old(feeds) && isLoading == old(isLoading)
        && (MessageReply(insert).Success? ==>
              && messages == AppendIfAbsent(old(messages), MessageReply(insert).value)
              && errorMessage == old(errorMessage))
        && (MessageReply(insert).Failure? ==> messages == old(messages))
      ensures Trim(text) != [] && old(chatId).None? ==> !isLoading
    {
      var trimmed := Trim(text);
      if trimmed == [] {
        return None;
      }
      if chatId.None? {
        var _ := Start(replies);
      }
      if chatId.None? {
        return None;
      }
      payload := Some(InsertPayload(chatId.value, MyId(), trimmed, Classify(trimmed)));
      ghost var before := messages;
      RecordSent(insert);
      if MessageReply(insert).Success? {
        AppendIfAbsentSpec(before, MessageReply(insert).value);
      }
    }

    /**
     * `sendImageMessage`: opens the chat if need be, then inserts the
     * uploaded image's public URL as an image message. An upload error is
     * recorded and nothing is inserted.
     */
    method SendImageMessage(replies: StartReplies, upload: Result<string, Error>, insert: Reply)
      returns (payload: Option<InsertPayload>)
      requires Valid()
      requires chatId.None? ==> HistoryIdsDistinct(replies.load)
      modifies this
      ensures Valid()
      ensures payload.Some? <==> chatId.Some? && upload.Success?
      ensures payload.Some? ==>
        && payload.value == InsertPayload(chatId.value, MyId(), upload.value, CM.Image)
        && (MessageReply(insert).Success? ==> MessageReply(insert).value.id in Ids(messages))
        && (MessageReply(insert).Failure? ==> errorMessage == Some(Describe(MessageReply(insert).error)))
      ensures chatId.Some? && upload.Failure? ==> errorMessage == Some(Describe(upload.error))
      ensures old(chatId).Some? ==>
        && chatId == old(chatId) && feeds == old(feeds) && isLoading == old(isLoading)
        && (upload.Failure? ==> messages == old(messages))
        && (upload.Success? && MessageReply(insert).Success? ==>
              && messages == AppendIfAbsent(old(messages), MessageReply(insert).value)
              && errorMessage == old(errorMessage))
        && (upload.Success? && MessageReply(insert).Failure? ==> messages == old(messages))
      ensures old(chatId).None? ==> !isLoading
    {
      if chatId.None? {
        var _ := Start(replies);
      }
      if chatId.None? {
        return None;
      }
      match upload {
        case Failure(e) =>
          errorMessage := Some(Describe(e));
          payload := None;
        case Success(url) =>
          payload := Some(InsertPayload(chatId.value, MyId(), url, CM.Image));
          ghost var before := messages;
          RecordSent(insert);
          if MessageReply(insert).Success? {
            AppendIfAbsentSpec(before, MessageReply(insert).value);
          }
      }
    }

    /**
     * `deleteMessage`: for an image, the blob at its storage path is removed
     * first and a failure there is ignored; then, when the id is UUID text,
     * the row is deleted and, once the store confirms, every entry with that
     * id leaves the list. A store error is recorded and the list kept.
     */
    method DeleteMessage(message: ChatMessage, blobRemoval: Result<(), Error>, rowDelete: Result<(), Error>)
      returns (blobPath: Option<string>, rowId: Option<Uuid>)
      requires Valid()
      modifies this
      ensures Valid()
      ensures blobPath == if message.kind == Image then StoragePath(message.content, ChatImagesBucket) else None
      ensures rowId == ParseUuid(message.id)
      ensures chatId == old(chatId) && feeds == old(feeds) && isLoading == old(isLoading)
      ensures rowId.None? ==> messages == old(messages) && errorMessage == old(errorMessage)
      ensures rowId.Some? && rowDelete.Success? ==>
        messages == RemoveById(old(messages), message.id) && errorMessage == old(errorMessage)
      ensures rowId.Some? && rowDelete.Failure? ==>
        messages == old(messages) && errorMessage == Some(Describe(rowDelete.error))
    {
      blobPath := if message.kind == Image then StoragePath(message.content, ChatImagesBucket) else None;
      rowId := ParseUuid(message.id);
      if rowId.None? {
        return;
      }
      match rowDelete {
        case Success(_) =>
          RemoveByIdPreservesUnique(messages, message.id);
          RemoveByIdMembers(messages, message.id);
          messages := RemoveById(messages, message.id);
        case Failure(e) =>
          errorMessage := Some(Describe(e));
      }
    }

    /**
     * `deleteChat`: without a bound chat nothing happens; otherwise the chat
     * row is deleted and, once the store confirms, the list is emptied.
     */
    method DeleteChat(outcome: Result<(), Error>) returns (deleted: Option<Uuid>)
      requires Valid()
      modifies this
      ensures Valid()
      ensures deleted == old(chatId)
      ensures chatId == old(chatId) && feeds == old(feeds) && isLoading == old(isLoading)
      ensures deleted.None? ==> messages == old(messages) && errorMessage == old(errorMessage)
      ensures deleted.Some? && outcome.Success? ==> messages == [] && errorMessage == old(errorMessage)
      ensures deleted.Some? && outcome.Failure? ==>
        messages == old(messages) && errorMessage == Some(Describe(outcome.error))
    {
      deleted := chatId;
      if chatId.None? {
        return;
      }
      match outcome {
        case Success(_) =>
          messages := [];
        case Failure(e) =>
          errorMessage := Some(Describe(e));
      }
    }

    /**
     * An inserted or updated row from the feed of chat `feedChat`: a row of
     * that chat is upserted by id, a row of another chat is ignored, and an
     * undecodable row records an error.
     */
    method ApplyUpsert(feedChat: Uuid, record: Record)
      requires Valid()
      modifies this
      ensures Valid()
      ensures chatId == old(chatId) && feeds == old(feeds) && isLoading == old(isLoading)
      ensures Decode(record).Failure? ==>
        messages == old(messages) && errorMessage == Some(Describe(Decoding(Decode(record).error)))
      ensures Decode(record).Success? && Decode(record).value.chat_id == feedChat ==>
        messages == Upsert(old(messages), Decode(record).value) && errorMessage == old(errorMessage)
      ensures Decode(record).Success? && Decode(record).value.chat_id != feedChat ==>
        messages == old(messages) && errorMessage == old(errorMessage)
    {
      match Decode(record) {
        case Failure(e) =>
          errorMessage := Some(Describe(Decoding(e)));
        case Success(m) =>
          if m.chat_id == feedChat {
            DecodedIsWellFormed(record);
            UpsertSpec(messages, m);
            UpsertMembers(messages, m);
            messages := Upsert(messages, m);
          }
      }
    }

    /**
     * A deleted row from the feed, as written: when the old record carries a
     * string `id`, every message whose id text equals it is removed, whichever
     * chat it was in.
     */
    method ApplyDelete(oldRecord: Record)
      requires Valid()
      modifies this
      ensures Valid()
      ensures chatId == old(chatId) && feeds == old(feeds) && isLoading == old(isLoading)
      ensures errorMessage == old(errorMessage)
      ensures messages == if "id" in oldRecord && oldRecord["id"].JString?
        then FeedDeleteAsWritten(old(messages), oldRecord["id"].str)
        else old(messages)
    {
      if "id" in oldRecord && oldRecord["id"].JString? {
        var idValue := oldRecord["id"].str;
        RemoveByIdPreservesUnique(messages, idValue);
        messages := FeedDeleteAsWritten(messages, idValue);
      }
    }

    /**
     * A deleted row from the feed, corrected: the old record's `id` is read
     * as a UUID, so the message is removed whatever letter case the store
     * prints the id in.
     */
    method ApplyDeleteByUuid(oldRecord: Record)
      requires Valid()
      modifies this
      ensures Valid()
      ensures chatId == old(chatId) && feeds == old(feeds) && isLoading == old(isLoading)
      ensures errorMessage == old(errorMessage)
      ensures messages == if "id" in oldRecord && oldRecord["id"].JString?
        then FeedDelete(old(messages), oldRecord["id"].str)
        else old(messages)
    {
      if "id" in oldRecord && oldRecord["id"].JString? {
        var idValue := oldRecord["id"].str;
        if ParseUuid(idValue).Some? {
          FeedDeleteRemovesRow(messages, idValue);
        } else {
          RemoveByIdPreservesUnique(messages, idValue);
          RemoveByIdMembers(messages, idValue);
        }
        messages := FeedDelete(messages, idValue);
      }
    }

    /** One event from the change feed opened for chat `feeds[feed]`. */
    method ApplyChange(feed: nat, change: Change)
      requires Valid() && feed < |feeds|
      modifies this
      ensures Valid()
      ensures chatId == old(chatId) && feeds == old(feeds) && isLoading == old(isLoading)
      ensures !change.Delete? && Decode(change.record).Success? ==>
        var m := Decode(change.record).value;
        messages == (if m.chat_id == feeds[feed] then Upsert(old(messages), m) else old(messages))
      ensures !change.Delete? && Decode(change.record).Failure? ==>
        messages == old(messages) && errorMessage == Some(Describe(Decoding(Decode(change.record).error)))
      ensures change.Delete? || Decode(change.record).Success? ==> errorMessage == old(errorMessage)
      ensures change.Delete? && "id" in change.oldRecord && change.oldRecord["id"].JString? ==>
        messages == FeedDeleteAsWritten(old(messages), change.oldRecord["id"].str)
      ensures change.Delete? && !("id" in change.oldRecord && change.oldRecord["id"].JString?) ==>
        messages == old(messages)
    {
      match change {
        case Insert(record) => ApplyUpsert(feeds[feed], record);
        case Update(record) => ApplyUpsert(feeds[feed], record);
        case Delete(oldRecord) => ApplyDelete(oldRecord);
      }
    }
  }
}
