# One-to-one chat service: room resolution, message pipeline and presence

This project models the server-side core of a one-to-one chat service. Two users exchange messages. Each message belongs to a room. A room is stored as two directional records, (sender, receiver) and (receiver, sender), that share one `chatId`.

- **Room resolution** (`ChatRooms`). `getChatRoomId` looks up the exact ordered pair. When no record matches, it returns nothing, or, if asked to create, it writes the two mirrored records and returns their `chatId`, `sender ❤ receiver`.
- **Messages** (`ChatMessages`). Save resolves the message's own pair with creation on. It stamps the resolved id into the caller's message and appends the message to the message store. Fetch resolves without creating a room, fails when there is none, and otherwise returns every stored message carrying the resolved id, in store order.
- **Presence** (`Users`). Registration marks a user online and upserts it under its nickname. Going online or offline first checks that the nickname is stored, then writes the caller's user object with the status forced. Listing returns the users whose status is online.
- **Pipeline** (`ChatControllers`, `ChatNotifications`). `processChatMessage` saves the message, then pushes `{id, senderId, receiverId, content}` to the receiver's `/queue/messages`. `fetchChatMessages` delegates to the message service.

Each service is a class whose fields are its stores: the room records as a `seq`, the messages as a `seq`, the users as a `map` keyed by nickname, and the broker's outbox as a `seq`. Messages and users are classes too, because the services write to the caller's object (`setChatRoomId`, `setStatus`). Each store keeps a copy of the object's `Doc()`. Every method's postcondition equates the new state and the result with a pure function of the old state, such as `Resolve`, `Save`, `Fetch`, `Register`, `UpdateStatus`, `Process`, `MirroredRecords` or `Connected`. The lemmas state what the source promises about those functions, including properties that span several calls.

Modelling choices:
- Stores run synchronously. Each `CompletableFuture` block is modelled as completing inside the call.
- A document id is `ObjectId(n)`, the decimal form of a counter.
  - A room record gets the size of the room collection, since rooms are only ever written by the store itself.
  - A message or user saved without an id gets `FreshId(keys)`: the least counter id the store does not already hold. So a save never overwrites a stored document under an id it issued itself.
- `findBySenderIdAndReceiverId` is a single-result Spring Data query. When two or more documents match, it throws `IncorrectResultSizeDataAccessException`. The model writes this as `IncorrectResultSize(1)`. Like the exception, it carries only the expected size; Spring does not count the matches.
- Exceptions are `Err`/`Thrown` values. `IllegalArgumentException` carries the source's own messages: "Chat room not found", "User does not exist in database" and "User nickname cannot be null".
- The code calls `setChatRoomId` and `findByChatRoomId`, but the entity field is `chatId` and the repository declares no such query. The model has one room-id field on the message (`chatId`) and one query, `FindByChatId`, which returns the messages carrying that id in store order.
- The tests call `findConnectedUsers` under the name `findConnectedUsersAsync`. Both are modelled as `FindConnectedUsers`.
- The `chatId` is built once per room from the ordered pair, sender first, and both records of the room carry it.

Where the code's behaviour looks unintended, the model still follows the code:
- A found room yields its record's document id, not its `chatId`.
- A self pair is not rejected.
- `ChatControllerTest.java:143` expects `processChatMessage` not to throw when the save throws. The code does not catch the exception, so in the model it propagates.

## Model

| member | source | states |
|---|---|---|
| `Common.ObjectIdInjective` | src/main/java/org/ovo307000/chat/module/entity/ChatRoom.java:15-17 | distinct counters give distinct document ids (the digit-only form of ids is in `ObjectId`'s contract) |
| `ChatNotifications.FromChatNotification` | src/main/java/org/ovo307000/chat/module/dto/ChatNotificationDTO.java:18-24 | the payload copies id, senderId, receiverId and content of the notification unchanged |
| `ChatNotifications.FromChatMessage` | src/main/java/org/ovo307000/chat/module/dto/ChatNotificationDTO.java:32-38 | the payload copies id, senderId, receiverId and content of the message unchanged |
| `ChatNotifications.FromChatMessageKeepsFourFields` | src/main/java/org/ovo307000/chat/module/dto/ChatNotificationDTO.java:10-38 | two messages give equal payloads if and only if they agree on the four copied fields |
| `ChatNotifications.FromChatMessageIgnoresRoomAndTime` | src/main/java/org/ovo307000/chat/module/dto/ChatNotificationDTO.java:32-38 | the room id and the timestamp of a message do not reach the payload |
| `ChatNotifications.SamePayload` | src/main/java/org/ovo307000/chat/module/dto/ChatNotificationDTO.java:18-38 | a message and a notification that agree on the four fields map to the same payload |
| `ChatRooms.ChatIdOf` | src/main/java/org/ovo307000/chat/service/ChatRoomService.java:55 | the chatId is the sender, then " ❤ ", then the receiver, with lengths adding up |
| `ChatRooms.ChatIdContainsBoth` | src/main/java/org/ovo307000/chat/service/ChatRoomService.java:55 | the chatId contains the sender at its start and the receiver after it |
| `ChatRooms.ChatIdInjective` | src/main/java/org/ovo307000/chat/service/ChatRoomService.java:55 | for ids without the heart character, equal chatIds mean equal ordered pairs, so (A, B) and (B, A) with A ≠ B give different chatIds |
| `ChatRooms.ChatIdCollision` | src/main/java/org/ovo307000/chat/service/ChatRoomService.java:55 | ids containing " ❤ " can give two different pairs one chatId |
| `ChatRooms.Matching` | src/main/java/org/ovo307000/chat/repository/ChatRoomRepository.java:11 | the query result holds exactly the records of the ordered pair, no more than the store |
| `ChatRooms.MirroredRecords` | src/main/java/org/ovo307000/chat/service/ChatRoomService.java:55-67 | definition of the two records a creation writes, (sender, receiver) then (receiver, sender), with one chatId; properties in `MirroredRecordsAreMirrored`, `ResolveKeepsRoomInvariant` and `SelfPairBreaksLookup` |
| `Common.FreshId` | src/main/java/org/ovo307000/chat/service/UserService.java:49 | the id the store issues to a document saved without one is not among the ids it holds |
| `Common.LeastFree` | src/main/java/org/ovo307000/chat/service/UserService.java:49 | the issued counter value is the least one from the start whose id the store does not hold, and every id below it is held |
| `ChatRooms.Resolve` | src/main/java/org/ovo307000/chat/service/ChatRoomService.java:36-49 | definition of getChatRoomId as written; properties in `ResolveFoundReturnsDocumentId`, `ResolveMissing`, `ResolveOnlyAppends`, `ResolveKeepsRoomInvariant` and `CreatedRoomLookups` |
| `ChatRooms.FindBySenderIdAndReceiverId` | src/main/java/org/ovo307000/chat/repository/ChatRoomRepository.java:11 | empty exactly when no record has the ordered pair; a single matching record is returned; it throws `IncorrectResultSize(1)` if and only if two or more records match |
| `ChatRooms.OnlyRecordMatch` | src/main/java/org/ovo307000/chat/repository/ChatRoomRepository.java:11 | a record that is the only one of its ordered pair is the whole query result, whatever other pairs the store holds |
| `ChatRooms.NoMatchIsEmpty` | src/main/java/org/ovo307000/chat/repository/ChatRoomRepository.java:11 | the query result is empty if and only if no record has the pair |
| `ChatRooms.UniqueLookupSucceeds` | src/main/java/org/ovo307000/chat/service/ChatRoomService.java:36 | with one record per ordered pair the lookup never throws |
| `ChatRooms.ResolveFoundReturnsDocumentId` | src/main/java/org/ovo307000/chat/service/ChatRoomService.java:36-37 | a record that is the only one of its ordered pair yields its document `id`, whatever the flag and whatever other pairs the store holds, and nothing is written |
| `ChatRooms.ResolveMissing` | src/main/java/org/ovo307000/chat/service/ChatRoomService.java:38-48 | with no record for the pair: without the flag the result is empty and the store unchanged; with it the result is the pair's chatId and two records are added |
| `ChatRooms.ResolveWithoutCreateWritesNothing` | src/main/java/org/ovo307000/chat/service/ChatRoomService.java:38-48 | resolution without the create flag never writes |
| `ChatRooms.ResolveOnlyAppends` | src/main/java/org/ovo307000/chat/service/ChatRoomService.java:36-70 | existing records are never changed or removed; the store changes exactly when the pair is missing and creation is asked for, and then by the two mirrored records |
| `ChatRooms.ResolveKeepsIdsAndMirrors` | src/main/java/org/ovo307000/chat/service/ChatRoomService.java:41-70 | document ids stay distinct and every record keeps a mirror with the same chatId |
| `ChatRooms.ResolveKeepsRoomInvariant` | src/main/java/org/ovo307000/chat/service/ChatRoomService.java:41-70 | for sender ≠ receiver, mirrored records and at most one record per ordered pair are preserved |
| `ChatRooms.CreatedRoomLookups` | src/main/java/org/ovo307000/chat/service/ChatRoomService.java:36-67 | after a create from (A, B), lookups of (A, B) and (B, A) both succeed and return their own record's document id; these two ids differ from each other and from the chatId the create returned |
| `ChatRooms.SelfPairBreaksLookup` | src/main/java/org/ovo307000/chat/service/ChatRoomService.java:57-67 | creating for (A, A) writes two records with the same ordered pair, after which every lookup of (A, A) throws |
| `ChatRooms.SelfChatLeavesOtherPairs` | src/main/java/org/ovo307000/chat/service/ChatRoomService.java:36-67 | after a self chat writes its duplicate records, every pair with a single record still resolves to that record's id |
| `ChatRooms.IntendedRecords` | src/main/java/org/ovo307000/chat/service/ChatRoomService.java:57-67 | definition of the corrected creation: one record for a self pair, the two mirrored records otherwise; properties in `ResolveIntendedKeepsRoomInvariant` |
| `ChatRooms.ResolveIntended` | src/main/java/org/ovo307000/chat/service/ChatRoomService.java:36-49 | definition of the corrected resolution, where a found record yields its `chatId`; properties in `ResolveIntendedKeepsRoomInvariant` and `ResolveIntendedIsStable` |
| `ChatRooms.ResolveIntendedKeepsRoomInvariant` | src/main/java/org/ovo307000/chat/service/ChatRoomService.java:57-67 | the corrected creation keeps mirrored, unique records for every pair, a self pair included |
| `ChatRooms.ResolveIntendedIsStable` | src/main/java/org/ovo307000/chat/service/ChatRoomService.java:36-37 | with the corrected found path, every later resolution of the pair from either direction returns the id the creating call returned, and writes nothing |
| `ChatRooms.ChatRoomService.GetChatRoomId` | src/main/java/org/ovo307000/chat/service/ChatRoomService.java:30-50 | the new store and the result are those of `Resolve`; the id and mirror invariant is kept |
| `ChatRooms.ChatRoomService.CreateAndSaveChatRoom` | src/main/java/org/ovo307000/chat/service/ChatRoomService.java:52-80 | appends (sender, receiver) then (receiver, sender) with one chatId and returns that chatId |
| `ChatMessages.FindByChatId` | src/main/java/org/ovo307000/chat/service/ChatMessageService.java:64 | the history holds exactly the stored messages carrying the id |
| `ChatMessages.FindByChatIdAppend` | src/main/java/org/ovo307000/chat/service/ChatMessageService.java:64 | the history keeps store order: it distributes over appending, with no re-sorting |
| `ChatMessages.Stamp` | src/main/java/org/ovo307000/chat/service/ChatMessageService.java:42-45 | the stored message carries the resolved room id; a message without an id gets the issued id, and one with an id keeps it; sender, receiver, content and timestamp are unchanged |
| `ChatMessages.Save` | src/main/java/org/ovo307000/chat/service/ChatMessageService.java:33-45 | definition of saveChatMessageAsync; properties in `SaveStoresStampedMessage`, `SaveNeverReportsMissingRoom` and `SaveExtendsHistory` |
| `ChatMessages.Fetch` | src/main/java/org/ovo307000/chat/service/ChatMessageService.java:56-64 | definition of fetchChatMessagesAsync; properties in `FetchWithoutRoomFails`, `SaveExtendsHistory` and `FirstMessageMissingFromHistory` |
| `ChatMessages.SaveStoresStampedMessage` | src/main/java/org/ovo307000/chat/service/ChatMessageService.java:36-45 | save resolves the message's own pair with creation; on success it appends exactly the stamped message and returns it, and an issued id differs from every stored message's id; on failure it stores nothing |
| `ChatMessages.SaveNeverReportsMissingRoom` | src/main/java/org/ovo307000/chat/service/ChatMessageService.java:36-39 | with creation on, save never throws "Chat room not found"; its only failure is a non-unique lookup |
| `ChatMessages.FetchWithoutRoomFails` | src/main/java/org/ovo307000/chat/service/ChatMessageService.java:60-61 | fetching a pair with no record throws "Chat room not found" |
| `ChatMessages.SaveExtendsHistory` | src/main/java/org/ovo307000/chat/service/ChatMessageService.java:33-65 | once the message's pair has exactly one record, whatever other pairs the store holds, a save extends that direction's history by exactly the saved message, at its end |
| `ChatMessages.FirstMessageMissingFromHistory` | src/main/java/org/ovo307000/chat/service/ChatMessageService.java:36-64 | the first message of a new conversation is stored but is in neither direction's history once a second message is saved |
| `ChatMessages.ChatMessageService.SaveChatMessage` | src/main/java/org/ovo307000/chat/service/ChatMessageService.java:33-46 | the stores and the result are those of `Save`; on success the caller's message becomes the stored message, on failure it is unchanged |
| `ChatMessages.ChatMessageService.FetchChatMessages` | src/main/java/org/ovo307000/chat/service/ChatMessageService.java:56-65 | the room store is unchanged and the result is `Fetch` of the stores |
| `Users.UserExists` | src/main/java/org/ovo307000/chat/service/UserService.java:107-115 | a null nickname throws "User nickname cannot be null"; otherwise the result is whether the nickname key is stored |
| `Users.Connected` | src/main/java/org/ovo307000/chat/service/UserService.java:126-131 | exactly the stored users whose status is online |
| `Users.Register` | src/main/java/org/ovo307000/chat/service/UserService.java:43-51 | definition of saveUserAsync; properties in `RegisterStoresOnline` |
| `Users.UpdateStatus` | src/main/java/org/ovo307000/chat/service/UserService.java:64-93 | definition of the two status updates, online (lines 143-172) and offline; properties in `UpdateWritesCallerUser`, `UpdateUnknownUserFails`, `UpdateKeepsStore`, `UpdateIdempotent` and `OnlineThenOfflineDisconnects` |
| `Users.RegisterStoresOnline` | src/main/java/org/ovo307000/chat/service/UserService.java:43-51 | registration forces status online and upserts the user under its nickname, with no existence check; the user is then connected; a user without a nickname is inserted under a key the store did not hold, so no stored user is replaced |
| `Users.UpdateWritesCallerUser` | src/main/java/org/ovo307000/chat/service/UserService.java:68-73 | for a stored nickname the caller's user, fullName and password included, replaces the stored one with only the status forced |
| `Users.UpdateUnknownUserFails` | src/main/java/org/ovo307000/chat/service/UserService.java:64-93 | for an unknown nickname the update throws "User does not exist in database" (for a null one, the null-nickname error) and writes nothing |
| `Users.UpdateKeepsStore` | src/main/java/org/ovo307000/chat/service/UserService.java:68-73 | status changes never add a user and keep every user under its own nickname |
| `Users.UpdateIdempotent` | src/main/java/org/ovo307000/chat/service/UserService.java:147-152 | setting a status twice gives the same store and outcome as setting it once |
| `Users.OnlineThenOfflineDisconnects` | src/main/java/org/ovo307000/chat/service/UserService.java:64-152 | after going online then offline the user is not connected, and every other connected user stays connected |
| `Users.UserService.SaveUser` | src/main/java/org/ovo307000/chat/service/UserService.java:42-51 | the store and the caller's user are those of `Register` |
| `Users.UserService.UpdateStatusToOffline` | src/main/java/org/ovo307000/chat/service/UserService.java:63-93 | the store and outcome are those of `UpdateStatus` with offline; the caller's user is set offline exactly when the update succeeds |
| `Users.UserService.UpdateStatusToOnline` | src/main/java/org/ovo307000/chat/service/UserService.java:143-172 | the store and outcome are those of `UpdateStatus` with online; the caller's user is set online exactly when the update succeeds |
| `Users.UserService.FindConnectedUsers` | src/main/java/org/ovo307000/chat/service/UserService.java:126-131 | returns the connected users of the current store |
| `ChatControllers.MessageBroker.ConvertAndSendToUser` | src/main/java/org/ovo307000/chat/controller/ChatController.java:69-71 | appends exactly one push, to the given user and destination |
| `ChatControllers.Process` | src/main/java/org/ovo307000/chat/controller/ChatController.java:62-72 | definition of processChatMessage; properties in `ProcessSavesThenNotifiesReceiver`, `ProcessFailsOnlyOnNonUniqueRoom` and `SelfChatSecondMessageFails` |
| `ChatControllers.ProcessSavesThenNotifiesReceiver` | src/main/java/org/ovo307000/chat/controller/ChatController.java:62-72 | a processed message is stored, then exactly one push goes to its receiver on "/queue/messages" with the stored message's payload; a failed save stores and pushes nothing |
| `ChatControllers.ProcessFailsOnlyOnNonUniqueRoom` | src/main/java/org/ovo307000/chat/controller/ChatController.java:67 | processing throws if and only if the message's own ordered pair has two or more records, whatever other pairs the store holds, and the exception is `IncorrectResultSize(1)` |
| `ChatControllers.SelfChatSecondMessageFails` | src/main/java/org/ovo307000/chat/controller/ChatController.java:67-71 | the second message of a self chat throws and nothing is pushed or stored for it |
| `ChatControllers.ChatController.ProcessChatMessage` | src/main/java/org/ovo307000/chat/controller/ChatController.java:61-72 | the stores, the outbox and the outcome are those of `Process` of the old state and the caller's message; on success the caller's message becomes the stored message, on failure it is unchanged |
| `ChatControllers.ChatController.FetchChatMessages` | src/main/java/org/ovo307000/chat/controller/ChatController.java:42-53 | delegates with the pair unchanged: the room store is unchanged and the result is `Fetch` of the stores, errors included |

## Left out

- Asynchronous dispatch (`CompletableFuture`, the thread pool) is not modelled: every store write completes inside the call.
- Store failures are not modelled. In the code, a failed room or status write is logged, and a failed user or message save is dropped silently; neither reaches the caller. A failed history query does reach the caller, through `join()` at ChatController.java:52.
- ChatControllers.Process: builds the push after a completed save, so the payload's `id` is always set. The code pushes as soon as the save is dispatched, so its payload may carry a null `id`.
- The race between concurrent room creations from both directions is not modelled, because the model is sequential.
- MongoDB is replaced by in-memory sequences and maps. A message save always appends, so Mongo's replace-by-id for a message that arrives with an id already stored is not modelled.
- Null arguments are not modelled: Dafny strings are never null, so Lombok's `@NonNull` checks on room ids cannot fail. The one null check in the core, on the user nickname, is modelled.
- A user object's status before registration or an update is never read, so a null status is not modelled.
- `fetchChatMessages` maps its result with `ChatMessageDTO.fromChatMessages`, which is not part of this model. The model returns the stored messages. The HTTP response wrapper is also left out.
- Timestamps are opaque values. Logging, STOMP/SockJS configuration, the browser client, `UserController` and the other DTOs are not part of this model.
- Users.UserService.FindConnectedUsers: returns a set of users, so the order of the store's list is not modelled.
- ChatControllers.ChatController.FetchChatMessages: returns the stored messages rather than their DTO view, because that mapping is not part of this model.

## Findings

| source | as written | input that shows it | evidently intended | confidence | as-written member | corrected member |
|---|---|---|---|---|---|---|
| src/main/java/org/ovo307000/chat/service/ChatRoomService.java:37 | a found room yields its record's document `id`, while creation yields the `chatId` | on empty stores alice sends "hello" and then "again" to bob. "hello" is stamped "alice ❤ bob" and "again" is stamped with the first record's id. Fetching (alice, bob) returns only "again", and fetching (bob, alice) returns nothing | a found room yields the `chatId` that the creating call returned, so every message of the pair carries one id in both directions | high; not executed | `ChatMessages.FirstMessageMissingFromHistory` | `ChatRooms.ResolveIntendedIsStable` |
| src/main/java/org/ovo307000/chat/service/ChatRoomService.java:57-67 | a self pair (A, A) gets two records with the same ordered pair | alice sends two messages to alice. The first creates two (alice, alice) records. For the second, the single-result lookup matches two documents and throws, so nothing is stored or pushed | one record per ordered pair, a self chat included | medium (relies on the single-result query throwing when two documents match); not executed | `ChatControllers.SelfChatSecondMessageFails` | `ChatRooms.ResolveIntendedKeepsRoomInvariant` |

The services model the code as written. The corrected resolution, `ChatRooms.ResolveIntended`, is defined alongside it. It returns the found record's `chatId` and writes a single record for a self pair. The two lemmas named in the corrected column prove its properties.
