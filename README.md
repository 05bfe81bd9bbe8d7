# SwiftChatApp sync engine, modelled in Dafny

This project models the core of a one-to-one chat client written in Swift
over a Supabase back end. The centre is `ChatViewModel`, the sync engine of
one conversation. It owns the in-memory message list of a chat and merges
four sources into it:

- the history load on `start`;
- the user's sends (text, link or image);
- the user's deletes (of one message or of the whole chat);
- the store's realtime change feed (inserts, updates and deletes of rows).

Its central invariant is that no two messages in the list share an id. Around
it sit:

- the records it reads and writes, with their keyed JSON coding: `ChatMessage`,
  `Chat`, `ProfileModel` and the `ChatMessageType` raw-value enumeration;
- two pure rules: how the text of a message decides its kind, and how the
  public URL of an uploaded image gives its storage path;
- the state logic of `PaginatedChatView`: the tracker that scrolls to the
  bottom only when a new last message arrives, the send button's enabling
  rule, what a tap on send does with the draft, and which messages offer a
  delete action.

Every call to the store (query, insert, delete, upload, blob removal) is an
outcome the caller passes in: the response body or the error thrown. Those
bodies are decoded exactly as the app decodes them, so the codecs and the
engine are proved together.

Modules, one per file:

| file | module | models |
|---|---|---|
| `wrappers.dfy` | `Wrappers` | `Option` and `Result` |
| `uuids.dfy` | `Uuids` | `UUID`: `uuidString` (upper-case 8-4-4-4-12), `UUID(uuidString:)` (either case), and the lower-case text PostgreSQL prints for a `uuid` column |
| `text.dfy` | `Text` | `trimmingCharacters(in: .whitespacesAndNewlines)`, `lowercased()`, `joined(separator:)`, and splitting at a character |
| `urls.dfy` | `Urls` | `URL(string:)`, `url.scheme` and `url.pathComponents`, after the generic syntax of RFC 3986, section 3 |
| `keyed.dfy` | `Keyed` | JSON values and the keyed container calls (`decode`, `decodeIfPresent`, `encode`, `encodeIfPresent`) |
| `chat.dfy` | `ChatModel` | `Chat`, `Chat.InsertPayload`, `ChatMessageType` |
| `chat_message.dfy` | `ChatMessages` | `ChatMessage`, its `init(from:)`/`encode(to:)`, `ChatMessage.InsertPayload` |
| `profile.dfy` | `Profiles` | `ProfileModel` and its coding |
| `message_list.dfy` | `MessageList` | the list updates: dedup append, upsert, remove by id |
| `chat_rules.dfy` | `ChatRules` | link/text classification and `storagePath(from:bucket:)` |
| `chat_view_model.dfy` | `ChatEngine` | the class `ChatViewModel`: `start`, `loadOrCreateChat`, sends, deletes, feed handlers |
| `paginated_chat_view.dfy` | `ChatViewState` | the class `PaginatedChatState`: the `@State` logic of `PaginatedChatView` |

Behaviour of the code that a reader might not expect, modelled as written:

- A failed `start` keeps the message list it had, and `chatId` is already
  bound when only the history load fails (ChatViewModel.swift:33-40;
  `ChatEngine.ChatViewModel.Start`).
- `deleteMessage` removes the message locally only after the store confirms
  the row delete; any store error keeps it (ChatViewModel.swift:194-203).
- Feed inserts and updates are filtered by the chat id the feed was opened
  for, not by the engine's current `chatId` (ChatViewModel.swift:243). Feed
  deletes are not filtered by chat at all (ChatViewModel.swift:271-274).
- `loadOrCreateChat` does not re-run the lookup when the create call fails;
  the error is thrown to `start` (ChatViewModel.swift:69-77).
- The feed's delete handler compares id texts, so it misses a row whose id
  the store prints in lower case; see "## Findings".

## Model

| member | source | states |
|---|---|---|
| `Uuids.UuidString` | SwiftWithSupa/Features/Chat/Model/ChatMessage.swift:48 | `uuidString` is 8-4-4-4-12 UUID text with no small letters |
| `Uuids.StoreUuidText` | SwiftWithSupa/Features/Chat/ViewModel/ChatViewModel.swift:272 | the id text of a uuid column is 8-4-4-4-12 UUID text with no capital letters |
| `Uuids.ParseUuid` | SwiftWithSupa/Features/Chat/Model/ChatMessage.swift:47 | `UUID(uuidString:)` succeeds exactly on 8-4-4-4-12 hexadecimal text |
| `Uuids.ParseUuidString` | SwiftWithSupa/Features/Chat/Model/ChatMessage.swift:47-48 | parsing a `uuidString` gives the same UUID back |
| `Uuids.UuidStringIsCanonical` | SwiftWithSupa/Features/Chat/Model/ChatMessage.swift:48 | every `uuidString` is a fixed point of parse-then-print |
| `Uuids.UuidStringInjective` | SwiftWithSupa/Features/Chat/Model/ChatMessage.swift:48 | two UUIDs with the same `uuidString` are equal |
| `Uuids.ParseThenPrintIsCanonical` | SwiftWithSupa/Features/Home/Model/ProfileModel.swift:24-25 | the text stored after decoding is canonical, whatever case the row used |
| `Uuids.UuidOr` | SwiftWithSupa/Features/Chat/Model/ChatMessage.swift:14-16 | `UUID(uuidString: s) ?? fallback`: the parsed UUID when `s` parses, the fallback otherwise |
| `Uuids.UuidOrCanonical` | SwiftWithSupa/Features/Chat/Model/ChatMessage.swift:75 | on canonical text the fallback is never taken and the text is recovered |
| `Uuids.ParseStoreUuidText` | SwiftWithSupa/Features/Chat/ViewModel/ChatViewModel.swift:272 | the store's lower-case id text parses to the same UUID |
| `Uuids.StoreTextDiffersFromUuidString` | SwiftWithSupa/Features/Chat/ViewModel/ChatViewModel.swift:272-273 | the store's text and `uuidString` name the same UUID but differ as strings once a digit is a letter |
| `Text.Trim` | SwiftWithSupa/Features/Chat/ViewModel/ChatViewModel.swift:93 | the trimmed text is no longer than the text and neither starts nor ends with whitespace |
| `Text.TrimStart` | SwiftWithSupa/Features/Chat/ViewModel/ChatViewModel.swift:93 | the result is a suffix; all dropped characters are whitespace; it does not start with whitespace |
| `Text.TrimEnd` | SwiftWithSupa/Features/Chat/ViewModel/ChatViewModel.swift:93 | the result is a prefix; all dropped characters are whitespace; it does not end with whitespace |
| `Text.TrimKeepsInfix` | SwiftWithSupa/Features/Chat/ViewModel/ChatViewModel.swift:93 | the trimmed text is a contiguous part of the text |
| `Text.TrimDropsWhitespace` | SwiftWithSupa/Features/Chat/ViewModel/ChatViewModel.swift:93 | everything trimming drops on either side is whitespace |
| `Text.TrimEdges` | SwiftWithSupa/Features/Chat/ViewModel/ChatViewModel.swift:93 | the trimmed text neither starts nor ends with whitespace |
| `Text.TrimEmptyIffAllWhitespace` | SwiftWithSupa/Features/Chat/ViewModel/ChatViewModel.swift:93-96 | the trimmed text is empty exactly when the text is all whitespace |
| `Text.TrimIdempotent` | SwiftWithSupa/Features/Chat/ViewModel/ChatViewModel.swift:93 | trimming twice is trimming once |
| `Text.Lowercased` | SwiftWithSupa/Features/Chat/ViewModel/ChatViewModel.swift:108 | same length; each ASCII capital becomes its small letter, other characters stay |
| `Text.Join` | SwiftWithSupa/Features/Chat/ViewModel/ChatViewModel.swift:300 | joining no pieces gives the empty text, joining one gives that piece |
| `Text.Split` | SwiftWithSupa/Features/Chat/ViewModel/ChatViewModel.swift:292 | splitting the path at `/` gives at least one piece |
| `Text.JoinSplit` | SwiftWithSupa/Features/Chat/ViewModel/ChatViewModel.swift:300 | joining the pieces of a split with the separator restores the text |
| `Text.SplitJoin` | SwiftWithSupa/Features/Chat/ViewModel/ChatViewModel.swift:300 | splitting a join of separator-free pieces gives the pieces back |
| `Text.SplitPiecesLackSeparator` | SwiftWithSupa/Features/Chat/ViewModel/ChatViewModel.swift:292 | no piece of a split contains the separator |
| `Urls.SchemeOf` | SwiftWithSupa/Features/Chat/ViewModel/ChatViewModel.swift:108 | the scheme is the non-empty text before the first `:`, a letter then scheme characters |
| `Urls.SchemeOfPrefix` | SwiftWithSupa/Features/Chat/ViewModel/ChatViewModel.swift:108 | a valid scheme followed by `:` is read back as that scheme |
| `Urls.ParseUrl` | SwiftWithSupa/Features/Chat/ViewModel/ChatViewModel.swift:107 | `URL(string:)` as built for iOS 17 is nil exactly for the empty string; any other text parses, with the scheme before the first `:` |
| `Urls.PathComponents` | SwiftWithSupa/Features/Chat/ViewModel/ChatViewModel.swift:292 | components are non-empty; only the first may be `"/"`; no other contains `/` |
| `Keyed.DecodeString` | SwiftWithSupa/Features/Chat/Model/ChatMessage.swift:55 | succeeds exactly on a present string; an absent key is `keyNotFound` |
| `Keyed.DecodeStringIfPresent` | SwiftWithSupa/Features/Chat/Model/ChatMessage.swift:69 | absent or null is nil; a string is itself; anything else fails |
| `Keyed.DecodeBool` | SwiftWithSupa/Features/Chat/Model/ChatMessage.swift:67 | succeeds exactly on a present Boolean |
| `Keyed.DecodeUuid` | SwiftWithSupa/Features/Chat/Model/ChatMessage.swift:50 | succeeds exactly on a present string that parses as a UUID |
| `Keyed.DecodeEncodedUuid` | SwiftWithSupa/Features/Chat/Model/ChatMessage.swift:76 | a UUID written by the encoder reads back unchanged |
| `Keyed.DecodeEncodedOptional` | SwiftWithSupa/Features/Chat/Model/ChatMessage.swift:82 | `encodeIfPresent` then `decodeIfPresent` restores the optional, and the key is present exactly for a value |
| `Keyed.DecodeEach` | SwiftWithSupa/Features/Chat/ViewModel/ChatViewModel.swift:88 | an array decodes element by element, failing if any element fails |
| `ChatModel.RawValue` | SwiftWithSupa/Features/Chat/Model/Chat.swift:18-22 | `init(rawValue:)` reads each raw value back as its case |
| `ChatModel.FromRawValue` | SwiftWithSupa/Features/Chat/Model/Chat.swift:18-22 | `init(rawValue:)` succeeds exactly on "text", "image" and "link" |
| `ChatModel.RawValuesDistinct` | SwiftWithSupa/Features/Chat/Model/Chat.swift:18-22 | the three cases have three distinct raw values |
| `ChatModel.RawValueRoundTrip` | SwiftWithSupa/Features/Chat/Model/Chat.swift:18 | `init(rawValue:)` inverts `rawValue`, both ways |
| `ChatModel.DecodeMessageType` | SwiftWithSupa/Features/Chat/Model/ChatMessage.swift:57 | decoding the `type` key succeeds exactly on a raw value, and gives the case with that raw value |
| `ChatModel.EncodeMessageType` | SwiftWithSupa/Features/Chat/Model/ChatMessage.swift:79 | what is encoded decodes to the same case |
| `ChatModel.DecodeChat` | SwiftWithSupa/Features/Chat/Model/Chat.swift:3-9 | the synthesised decoder succeeds only on a row carrying `id`, `user_a`, `user_b` and `created_at` |
| `ChatModel.EncodeChat` | SwiftWithSupa/Features/Chat/Model/Chat.swift:3-9 | the synthesised encoder writes the four required keys, and `last_message_at` exactly when present |
| `ChatModel.ChatRoundTrip` | SwiftWithSupa/Features/Chat/Model/Chat.swift:3-9 | every chat survives encode then decode; `last_message_at` is written only when present |
| `ChatModel.ChatRequiredKeys` | SwiftWithSupa/Features/Chat/Model/Chat.swift:4-8 | a row without `id`, `user_a`, `user_b` or `created_at` does not decode |
| `ChatModel.ChatOptionalLastMessage` | SwiftWithSupa/Features/Chat/Model/Chat.swift:7 | an absent `last_message_at` decodes as null, to nil |
| `ChatModel.EncodeChatInsert` | SwiftWithSupa/Features/Chat/Model/Chat.swift:11-16 | the insert payload carries exactly `user_a` and `user_b` |
| `ChatModel.ChatInsertRoundTrip` | SwiftWithSupa/Features/Chat/Model/Chat.swift:11-16 | both participants read back unchanged |
| `ChatMessages.ChatMessageTypeOf` | SwiftWithSupa/Features/Chat/Model/ChatMessage.swift:22-31 | `chatMessageType` is undone by the decoder's switch |
| `ChatMessages.MessageTypeOf` | SwiftWithSupa/Features/Chat/Model/ChatMessage.swift:58-65 | the decoder's switch maps image to image and link to link, and everything else to text |
| `ChatMessages.Decode` | SwiftWithSupa/Features/Chat/Model/ChatMessage.swift:44-70 | `init(from:)` succeeds only on a row with the seven required keys, and stores `id` and `sender_id` as the `uuidString` of the UUIDs read |
| `ChatMessages.Encode` | SwiftWithSupa/Features/Chat/Model/ChatMessage.swift:72-83 | `encode(to:)` writes exactly the seven required keys, plus `updated_at` when present |
| `ChatMessages.KindMappingsInverse` | SwiftWithSupa/Features/Chat/Model/ChatMessage.swift:22-31 | `chatMessageType` and the decoder's switch (lines 58-65) are mutual inverses |
| `ChatMessages.DecodedIsWellFormed` | SwiftWithSupa/Features/Chat/Model/ChatMessage.swift:47-53 | after decoding, `id` and `sender_id` hold canonical UUID text |
| `ChatMessages.EncodedFields` | SwiftWithSupa/Features/Chat/Model/ChatMessage.swift:72-83 | each key the encoder writes reads back as the value written |
| `ChatMessages.EncodeDecodePassThrough` | SwiftWithSupa/Features/Chat/Model/ChatMessage.swift:44-83 | encode then decode keeps `chat_id`, `content`, kind, `is_read`, `created_at` and `updated_at` (present or absent); ids come back canonical |
| `ChatMessages.RoundTrip` | SwiftWithSupa/Features/Chat/Model/ChatMessage.swift:44-83 | a well-formed message decodes back to itself whatever the fallbacks |
| `ChatMessages.ReencodeDecoded` | SwiftWithSupa/Features/Chat/Model/ChatMessage.swift:75-77 | re-encoding a decoded message does not depend on the random fallbacks and decodes to the same message |
| `ChatMessages.MissingRequiredKey` | SwiftWithSupa/Features/Chat/Model/ChatMessage.swift:47-68 | a row missing any of the seven required keys does not decode |
| `ChatMessages.MissingUpdatedAt` | SwiftWithSupa/Features/Chat/Model/ChatMessage.swift:69 | a row without `updated_at` decodes as the same message with nil |
| `ChatMessages.EncodeInsert` | SwiftWithSupa/Features/Chat/Model/ChatMessage.swift:37-42 | the insert payload carries exactly `chat_id`, `sender_id`, `content` and `type` |
| `Profiles.Decode` | SwiftWithSupa/Features/Home/Model/ProfileModel.swift:21-33 | `init(from:)` succeeds only on a row with `id`, `full_name` and `email`, and stores `id` as the `uuidString` of the UUID read |
| `Profiles.Encode` | SwiftWithSupa/Features/Home/Model/ProfileModel.swift:35-45 | `encode(to:)` writes the three required keys and no key outside the seven coding keys |
| `Profiles.UuidId` | SwiftWithSupa/Features/Home/Model/ProfileModel.swift:14-16 | for a decoded profile, `uuidId` is the UUID whose text is `id` |
| `Profiles.DecodedIsWellFormed` | SwiftWithSupa/Features/Home/Model/ProfileModel.swift:24-25 | after decoding, `id` holds canonical UUID text |
| `Profiles.EncodedRequiredFields` | SwiftWithSupa/Features/Home/Model/ProfileModel.swift:38-40 | `id`, `full_name` and `email` read back as written |
| `Profiles.EncodedOptionalFields` | SwiftWithSupa/Features/Home/Model/ProfileModel.swift:41-44 | each optional field is written only when present and reads back as it was |
| `Profiles.EncodeDecodePassThrough` | SwiftWithSupa/Features/Home/Model/ProfileModel.swift:21-45 | encode then decode keeps every field but `id`, which comes back canonical |
| `Profiles.RoundTrip` | SwiftWithSupa/Features/Home/Model/ProfileModel.swift:21-45 | a well-formed profile decodes back to itself |
| `Profiles.ReencodeDecoded` | SwiftWithSupa/Features/Home/Model/ProfileModel.swift:38 | re-encoding a decoded profile reproduces its id whatever the fallback |
| `Profiles.MissingRequiredKey` | SwiftWithSupa/Features/Home/Model/ProfileModel.swift:24-28 | a row missing `id`, `full_name` or `email` does not decode |
| `Profiles.MissingOptionalKey` | SwiftWithSupa/Features/Home/Model/ProfileModel.swift:29-32 | a row missing an optional key decodes as the same profile with that field nil |
| `MessageList.CountId` | SwiftWithSupa/Features/Chat/ViewModel/ChatViewModel.swift:132 | the count of an id is zero exactly when the id is absent |
| `MessageList.FirstIndexOf` | SwiftWithSupa/Features/Chat/ViewModel/ChatViewModel.swift:245 | `firstIndex(where:)`: none exactly when absent, else the first matching index |
| `MessageList.AppendIfAbsent` | SwiftWithSupa/Features/Chat/ViewModel/ChatViewModel.swift:132-134 | the old list is a prefix, it grows by at most one, and the reply's id is present afterwards |
| `MessageList.Upsert` | SwiftWithSupa/Features/Chat/ViewModel/ChatViewModel.swift:245-249 | the list grows by at most one and holds the new row afterwards |
| `MessageList.RemoveById` | SwiftWithSupa/Features/Chat/ViewModel/ChatViewModel.swift:200 | `removeAll` leaves no entry with that id and never grows the list |
| `MessageList.RemoveByIdMembers` | SwiftWithSupa/Features/Chat/ViewModel/ChatViewModel.swift:200 | removal keeps exactly the entries with another id |
| `MessageList.RemoveByIdAbsent` | SwiftWithSupa/Features/Chat/ViewModel/ChatViewModel.swift:273 | removing an absent id changes nothing |
| `MessageList.RemoveByIdConcat` | SwiftWithSupa/Features/Chat/ViewModel/ChatViewModel.swift:200 | removal distributes over concatenation: it is a filter |
| `MessageList.RemoveByIdKeepsOrder` | SwiftWithSupa/Features/Chat/ViewModel/ChatViewModel.swift:273 | two kept entries stay in the same relative order |
| `MessageList.RemoveByIdPreservesUnique` | SwiftWithSupa/Features/Chat/ViewModel/ChatViewModel.swift:200 | removal keeps ids unique |
| `MessageList.AppendIfAbsentSpec` | SwiftWithSupa/Features/Chat/ViewModel/ChatViewModel.swift:132-134 | the send path keeps ids unique, keeps the old list as a prefix, grows it by at most one, at the end, exactly when the id was new |
| `MessageList.UpsertSpec` | SwiftWithSupa/Features/Chat/ViewModel/ChatViewModel.swift:245-249 | the feed path keeps ids unique; a present id is replaced at its index with the length kept, a new id appended |
| `MessageList.UpsertMembers` | SwiftWithSupa/Features/Chat/ViewModel/ChatViewModel.swift:245-249 | after an upsert every entry is the new row or was there before |
| `MessageList.UpsertIdempotent` | SwiftWithSupa/Features/Chat/ViewModel/ChatViewModel.swift:262-266 | the same feed row applied twice is applied once |
| `MessageList.UpsertReplacesOnlyMatch` | SwiftWithSupa/Features/Chat/ViewModel/ChatViewModel.swift:246 | entries with other ids are left where they were |
| `MessageList.UniqueCount` | SwiftWithSupa/Features/Chat/ViewModel/ChatViewModel.swift:132 | with unique ids each id occurs at most once |
| `MessageList.SendAndFeedInsertEitherOrder` | SwiftWithSupa/Features/Chat/ViewModel/ChatViewModel.swift:132-134 | whether the send reply or the feed insert lands first, the message is in the list exactly once |
| `ChatRules.Classify` | SwiftWithSupa/Features/Chat/ViewModel/ChatViewModel.swift:106-113 | a link exactly when the text parses as a URL whose lower-cased scheme is http or https; never an image |
| `ChatRules.NoColonIsText` | SwiftWithSupa/Features/Chat/ViewModel/ChatViewModel.swift:107-112 | text without `:` is plain text |
| `ChatRules.SchemeDecidesKind` | SwiftWithSupa/Features/Chat/ViewModel/ChatViewModel.swift:107-112 | for scheme `:` rest, whatever the rest, the kind is link exactly when the scheme is http or https in any case |
| `ChatRules.HttpsPrefixIsLink` | SwiftWithSupa/Features/Chat/ViewModel/ChatViewModel.swift:107-110 | `https:` followed by anything, spaces included, is sent as a link |
| `ChatRules.OtherSchemeIsText` | SwiftWithSupa/Features/Chat/ViewModel/ChatViewModel.swift:109 | `ftp:` followed by anything is plain text |
| `ChatRules.FirstIndex` | SwiftWithSupa/Features/Chat/ViewModel/ChatViewModel.swift:294 | `firstIndex(of:)`: none exactly when absent, else the first occurrence |
| `ChatRules.PathAfterBucket` | SwiftWithSupa/Features/Chat/ViewModel/ChatViewModel.swift:294-300 | a path exactly when the bucket occurs and its first occurrence is not the last component |
| `ChatRules.StoragePath` | SwiftWithSupa/Features/Chat/ViewModel/ChatViewModel.swift:287-301 | nil when the URL does not parse; otherwise the path after the bucket of its path components |
| `ChatRules.StoragePathSegments` | SwiftWithSupa/Features/Chat/ViewModel/ChatViewModel.swift:294-300 | the storage path split at `/` is exactly the components after the first occurrence of the bucket |
| `ChatRules.StoragePathAbsent` | SwiftWithSupa/Features/Chat/ViewModel/ChatViewModel.swift:294-297 | no path when the bucket is absent or only the last component |
| `ChatEngine.Describe` | SwiftWithSupa/Features/Chat/ViewModel/ChatViewModel.swift:38-40 | `error.localizedDescription`: a store error's own description; a non-empty text for a decoding error |
| `ChatEngine.MatchesPair` | SwiftWithSupa/Features/Chat/ViewModel/ChatViewModel.swift:51 | the filter the store applies to the lookup: a chat only when its two participants are the two users |
| `ChatEngine.MessageReply` | SwiftWithSupa/Features/Chat/ViewModel/ChatViewModel.swift:123-130 | a message exactly when the call succeeded with an object that decodes; a failed call is its error |
| `ChatEngine.LoadHistory` | SwiftWithSupa/Features/Chat/ViewModel/ChatViewModel.swift:80-90 | the history is an array reply whose i-th object decodes to the i-th message, and it loads whenever every element decodes; a failed call is its error |
| `ChatEngine.MessageReplyWellFormed` | SwiftWithSupa/Features/Chat/ViewModel/ChatViewModel.swift:130 | every message a send reply decodes to is well formed |
| `ChatEngine.HistoryWellFormed` | SwiftWithSupa/Features/Chat/ViewModel/ChatViewModel.swift:88-89 | every loaded message is well formed |
| `ChatEngine.ExistingChat` | SwiftWithSupa/Features/Chat/ViewModel/ChatViewModel.swift:55-59 | a chat only from a successful, non-empty array reply, and then its first element; conversely, a non-empty array whose rows all decode as chats gives its first row |
| `ChatEngine.LoadOrCreateChat` | SwiftWithSupa/Features/Chat/ViewModel/ChatViewModel.swift:43-78 | an insert (of `user_a` = me, `user_b` = other) is issued exactly when the lookup found nothing; a found chat is returned |
| `ChatEngine.LookupHitSkipsCreate` | SwiftWithSupa/Features/Chat/ViewModel/ChatViewModel.swift:55-59 | a lookup whose rows all decode as chats returns the first of them and creates nothing |
| `ChatModel.DecodeStoreRow` | SwiftWithSupa/Features/Chat/Model/Chat.swift:3-9 | a row as the store returns it, with lower-case uuid text and a null `last_message_at`, decodes to the chat it describes |
| `ChatEngine.LookupStoreRowSkipsCreate` | SwiftWithSupa/Features/Chat/ViewModel/ChatViewModel.swift:51-59 | a lookup answered with the store's row for the pair returns that chat and creates nothing |
| `ChatEngine.LookupMissCreates` | SwiftWithSupa/Features/Chat/ViewModel/ChatViewModel.swift:60-77 | a failed, empty or undecodable lookup falls through to creation; a failed create is the error thrown |
| `ChatEngine.CreatedChatMatchesEither` | SwiftWithSupa/Features/Chat/ViewModel/ChatViewModel.swift:51-77 | a chat created from one participant's insert payload is selected by the lookup filter of either participant |
| `ChatEngine.MatchesPairSymmetric` | SwiftWithSupa/Features/Chat/ViewModel/ChatViewModel.swift:51 | the lookup filter matches the pair in either order |
| `ChatEngine.FeedDeleteAsWritten` | SwiftWithSupa/Features/Chat/ViewModel/ChatViewModel.swift:271-274 | the handler as written keeps exactly the entries whose id text differs from the old record's, and never grows the list |
| `ChatEngine.FeedDeleteAsWrittenKeepsRow` | SwiftWithSupa/Features/Chat/ViewModel/ChatViewModel.swift:272-273 | given the store's lower-case id of a row, the handler as written removes nothing |
| `ChatEngine.FeedDeleteAsWrittenExample` | SwiftWithSupa/Features/Chat/ViewModel/ChatViewModel.swift:272-273 | the all-`A` UUID: the message survives the delete as written and is removed by the corrected handler |
| `ChatEngine.FeedDelete` | SwiftWithSupa/Features/Chat/ViewModel/ChatViewModel.swift:271-274 | agrees with the handler as written on canonical or non-UUID id text |
| `ChatEngine.FeedDeleteRemovesRow` | SwiftWithSupa/Features/Chat/ViewModel/ChatViewModel.swift:271-274 | the corrected handler removes exactly the messages with the same UUID as the id text, and keeps ids unique |
| `ChatEngine.FeedDeleteStoreText` | SwiftWithSupa/Features/Chat/ViewModel/ChatViewModel.swift:272-273 | with the corrected handler the store's lower-case id removes the row's message |
| `ChatEngine.ChatViewModel.MyId` | SwiftWithSupa/Features/Chat/ViewModel/ChatViewModel.swift:44 | the current user's UUID is the one whose text is the profile id |
| `ChatEngine.ChatViewModel.OtherId` | SwiftWithSupa/Features/Chat/ViewModel/ChatViewModel.swift:45 | the other user's UUID is the one whose text is that profile's id |
| `ChatEngine.ChatViewModel.constructor` | SwiftWithSupa/Features/Chat/ViewModel/ChatViewModel.swift:10-25 | an empty list, no chat, no error, not loading |
| `ChatEngine.ChatViewModel.Start` | SwiftWithSupa/Features/Chat/ViewModel/ChatViewModel.swift:27-41 | clears the error; binds `chatId` before loading; on success the list is the history and a feed is opened; an error is recorded and stops the sequence; loading always ends |
| `ChatEngine.ChatViewModel.RecordSent` | SwiftWithSupa/Features/Chat/ViewModel/ChatViewModel.swift:130-137 | a decoded reply is appended unless its id is present; an error is recorded and the list kept |
| `ChatEngine.ChatViewModel.SendTextMessage` | SwiftWithSupa/Features/Chat/ViewModel/ChatViewModel.swift:92-138 | blank text changes nothing and inserts nothing; otherwise the trimmed text is sent with its kind, after opening the chat if needed; into a bound chat a successful insert appends the reply and keeps the error and loading flag |
| `ChatEngine.ChatViewModel.SendImageMessage` | SwiftWithSupa/Features/Chat/ViewModel/ChatViewModel.swift:140-175 | an upload error is recorded and nothing inserted; otherwise the URL is sent as an image message; into a bound chat a successful insert appends the reply and keeps the error and loading flag |
| `ChatEngine.ChatViewModel.DeleteMessage` | SwiftWithSupa/Features/Chat/ViewModel/ChatViewModel.swift:177-204 | the blob path is tried for images whatever the outcome; a non-UUID id changes nothing; the list loses the id only after the store confirms |
| `ChatEngine.ChatViewModel.DeleteChat` | SwiftWithSupa/Features/Chat/ViewModel/ChatViewModel.swift:206-220 | without a chat nothing happens; on success the list is empty; on failure the error is recorded |
| `ChatEngine.ChatViewModel.ApplyUpsert` | SwiftWithSupa/Features/Chat/ViewModel/ChatViewModel.swift:237-269 | rows of the feed's chat are upserted, other chats' rows ignored, undecodable rows record an error |
| `ChatEngine.ChatViewModel.ApplyDelete` | SwiftWithSupa/Features/Chat/ViewModel/ChatViewModel.swift:271-274 | an old record with a string id removes, as written, every message whose id text equals it, whichever chat; otherwise nothing changes |
| `ChatEngine.ChatViewModel.ApplyDeleteByUuid` | SwiftWithSupa/Features/Chat/ViewModel/ChatViewModel.swift:271-274 | the corrected handler of "## Findings": the old record's id is read as a UUID, so its message is removed in either letter case |
| `ChatEngine.ChatViewModel.ApplyChange` | SwiftWithSupa/Features/Chat/ViewModel/ChatViewModel.swift:234-276 | dispatches one feed event, keeping ids unique |
| `ChatViewState.NextLastMessageId` | SwiftWithSupa/Features/Chat/View/PaginatedChatView.swift:117-121 | afterwards the tracked id is the last message's id; an empty list leaves it |
| `ChatViewState.ScrollAfterCountChange` | SwiftWithSupa/Features/Chat/View/PaginatedChatView.swift:63-65 | a scroll to the last message exactly when the last id differs from the tracked one |
| `ChatViewState.PrependDoesNotScroll` | SwiftWithSupa/Features/Chat/View/PaginatedChatView.swift:117-121 | once the tracker holds the last message's id, prepending older messages neither moves the tracker nor scrolls |
| `ChatViewState.AppendScrolls` | SwiftWithSupa/Features/Chat/View/PaginatedChatView.swift:117-121 | a new message at the bottom scrolls to it |
| `ChatViewState.EmptyListKeepsTracker` | SwiftWithSupa/Features/Chat/View/PaginatedChatView.swift:118 | an empty list neither moves the tracker nor scrolls |
| `ChatViewState.CanSendIff` | SwiftWithSupa/Features/Chat/View/PaginatedChatView.swift:22 | send is enabled exactly when the draft is not all whitespace or an image is picked |
| `ChatViewState.DeleteOfferedIffOwnMessage` | SwiftWithSupa/Features/Chat/View/PaginatedChatView.swift:37 | for decoded records, delete is offered exactly on messages whose sender UUID is the current user's |
| `ChatViewState.PaginatedChatState.constructor` | SwiftWithSupa/Features/Chat/View/PaginatedChatView.swift:15-19 | empty draft, no image, empty tracked id, initial scroll not done |
| `ChatViewState.PaginatedChatState.ObserveMessages` | SwiftWithSupa/Features/Chat/View/PaginatedChatView.swift:117-121 | only a change of count moves the tracker, and the scroll follows the tracker |
| `ChatViewState.PaginatedChatState.OnAppear` | SwiftWithSupa/Features/Chat/View/PaginatedChatView.swift:51-62 | the initial scroll is done and targets the last message; the tracker is left as it was. The handler is attached only inside the non-empty branch (line 25), so the `else` branch (lines 59-61) never runs; a call with an empty list stands for nothing in the app |
| `ChatViewState.PaginatedChatState.OnAppearTrackingLast` | SwiftWithSupa/Features/Chat/View/PaginatedChatView.swift:51-62 | the corrected handler of "## Findings": as `OnAppear`, and the tracker moves to the last message shown |
| `ChatViewState.LoadMoreWaitsForAppear` | SwiftWithSupa/Features/Chat/View/PaginatedChatView.swift:158-163 | from a fresh view, through any count changes and taps on send, the load-more trigger requests nothing; after the list's `onAppear` (lines 51-62) it requests older messages. `OnAppear` stands for the end of the block `onAppear` schedules 0.15 s later (lines 53-58), where `initialScrollDone` is set |
| `ChatViewState.FirstPrependAsWritten` | SwiftWithSupa/Features/Chat/View/PaginatedChatView.swift:51-62 | a view created over a non-empty list scrolls to the bottom on the first page of older messages prepended after it appears |
| `ChatViewState.FirstPrependTrackingLast` | SwiftWithSupa/Features/Chat/View/PaginatedChatView.swift:117-121 | with the tracker synchronised on appear, that first prepend does not scroll |
| `ChatViewState.PaginatedChatState.OnSend` | SwiftWithSupa/Features/Chat/View/PaginatedChatView.swift:94-104 | with an image: sends it, clears the selection, keeps the draft; else sends the draft and clears it. The view clears the draft before the send and the image after it completes (lines 96-102); the method gives the state after both |

## Left out

- Supabase itself (query builders, `.execute()`, storage upload, removal and public URLs, realtime channels) is not modelled. Each call is an outcome parameter: the body it returned or the error it threw. The text of the `or(...)` filter is not built; `ChatEngine.MatchesPair` states what it selects.
- `ChatEngine.ExistingChat`: the store applies the lookup filter, and the engine trusts its rows. A returned chat is not re-checked against `ChatEngine.MatchesPair`, just as the app does not check it.
- Concurrency is not modelled: `@MainActor` isolation, spawned `Task`s and the `for await` loop over the change stream become one sequential method call per completion or event. Starting again opens one more feed; earlier feeds keep delivering, which `feeds` records but no method ends.
- `isLoading` is `true` only while `start` runs; the model states its final value only.
- `UIImage.jpegData`, the 0.7 JPEG quality, the random upload file name and `uploadImage` are not modelled; the upload is an outcome carrying the public URL or the error.
- The random `UUID()` fallbacks of `uuidId`, `uuidSenderId` and `encode(to:)` are parameters. The engine requires both profiles to be decoded ones, as every `ProfileModel` in the app comes from `JSONDecoder`, so it never draws a fallback.
- `error.localizedDescription` is modelled for store errors (their description) and for the four decoding errors (Foundation's two fixed texts); NSError and URL errors have no finer texts here.
- `Urls.ParseUrl`: the app is built for iOS 17 or later (it uses the two-parameter `onChange(of:)`, PaginatedChatView.swift:63). There, `URL(string:)` percent-encodes characters RFC 3986 does not allow instead of returning nil. The model returns nil for the empty string only; text that stays invalid after encoding (a malformed host or port) is not modelled. Host, port, query and fragment are parsed only as far as the path needs, and the path is kept unencoded.
- `Urls.PathComponents`: Foundation percent-decodes each path component; the model returns the raw segments, so `storagePath` of a URL whose path holds an escape such as `%20` keeps the escape. The app's own image paths are a `uuidString` plus `.jpg` (ChatViewModel.swift:308), which hold no escapes.
- `CharacterSet.whitespacesAndNewlines` is the characters U+0009 to U+000D, U+0020, U+0085, U+00A0, U+1680, U+2000 to U+200A, U+2028, U+2029, U+202F, U+205F and U+3000. `lowercased()` is modelled for ASCII letters only, which is all the scheme can hold.
- JSON numbers, nesting and the bytes of a body are not modelled; a body is empty, a JSON value or unparsable.
- `loadMoreMessages`, `isLoadingMore` and `hasMoreOlderMessages` are used by the view but not defined in the view model, so no page cursor is modelled; only the view's trigger guard is.
- The SwiftUI layout, animations, the image picker sheet and the `DispatchQueue` delays of the view are not modelled; a delayed scroll is returned as the scroll target.
- `ChatEngine.ChatViewModel.SendTextMessage`: when the chat is opened during the send, the ensures state ids unique, the reply's message present and the error recorded, but not the list as a function of the start replies.
- `ChatEngine.ChatViewModel.SendImageMessage`: same restriction when the chat is opened during the send.

## Findings

| source | as written | input that shows it | evidently intended | confidence | as-written member | corrected member |
|---|---|---|---|---|---|---|
| SwiftWithSupa/Features/Chat/ViewModel/ChatViewModel.swift:271-274 | the feed's delete handler removes messages whose `id` string equals the old record's `id` string | a message decoded with id "AAAAAAAA-AAAA-AAAA-AAAA-AAAAAAAAAAAA" (the decoder stores `uuidString`, ChatMessage.swift:47-48) and a delete event whose old record carries the store's text of that uuid, "aaaaaaaa-aaaa-aaaa-aaaa-aaaaaaaaaaaa": the message stays | read the id as a UUID and remove the message with that UUID | medium; not executed; assumes the feed reports uuid columns in PostgreSQL's lower-case output form | `ChatEngine.FeedDeleteAsWrittenKeepsRow` | `ChatEngine.FeedDeleteRemovesRow` |
| SwiftWithSupa/Features/Chat/View/PaginatedChatView.swift:51-62 | the list's `onAppear` scrolls to the last message but leaves `lastMessageId` at its initial "" (line 18) | a view created while the list already holds "x"; after it appears, loading the older message "old" makes the list ["old", "x"]: the count changes, the tracker moves from "" to "x", and the view jumps to the bottom | the tracker holds the last id shown once the list appears, so only a new bottom message scrolls (the doc comment, lines 4-5) | low; not executed; reachable only when the view is created over a non-empty list | `ChatViewState.FirstPrependAsWritten` | `ChatViewState.FirstPrependTrackingLast` |
