/** Message save and fetch: a message is stamped with the room id its (sender,
    receiver) pair resolves to and appended to the message store; the history of a
    pair is every stored message carrying the id the pair resolves to. */
module ChatMessages {
  import opened Common
  import opened Entities
  import opened ChatRooms

  /** The message query: the stored messages carrying `chatId`, in store order. */
  function FindByChatId(messages: seq<ChatMessageDoc>, chatId: string): (found: seq<ChatMessageDoc>)
    ensures |found| <= |messages|
    ensures forall m :: m in found <==> m in messages && m.chatId == Some(chatId)
  {
    if messages == [] then []
    else
      var rest := FindByChatId(messages[1..], chatId);
      assert forall m :: m in messages <==> m == messages[0] || m in messages[1..];
      if messages[0].chatId == Some(chatId) then [messages[0]] + rest else rest
  }

  /** The query keeps store order: messages appended later come later. */
  lemma {:induction false} FindByChatIdAppend(a: seq<ChatMessageDoc>, b: seq<ChatMessageDoc>, chatId: string)
    ensures FindByChatId(a + b, chatId) == FindByChatId(a, chatId) + FindByChatId(b, chatId)
  {
    if a != [] {
      assert (a + b)[1..] == a[1..] + b;
      FindByChatIdAppend(a[1..], b, chatId);
    } else {
      assert a + b == b;
    }
  }

  /** The document ids the message store holds. */
  function MessageIds(messages: seq<ChatMessageDoc>): (ids: set<string>)
    ensures forall m :: m in messages && m.id.Some? ==> m.id.value in ids
  {
    set m | m in messages && m.id.Some? :: m.id.value
  }

  /** The message as the store keeps it: the resolved room id stamped in, and the
      store-issued id `issued` when the message has none. */
  function Stamp(m: ChatMessageDoc, roomId: string, issued: string): (saved: ChatMessageDoc)
    ensures saved.chatId == Some(roomId)
    ensures saved.id == if m.id.Some? then m.id else Some(issued)
    ensures saved.senderId == m.senderId && saved.receiverId == m.receiverId
    ensures saved.content == m.content && saved.timestamp == m.timestamp
  {
    var stamped := m.(chatId := Some(roomId));
    if stamped.id.None? then stamped.(id := Some(issued)) else stamped
  }

  /** The stores after a save, and what the save returned. */
  datatype Saved = Saved(rooms: seq<ChatRoom>, messages: seq<ChatMessageDoc>, result: Result<ChatMessageDoc>)

  /** saveChatMessageAsync: resolve the message's own pair with creation, fail when
      nothing resolves, otherwise stamp and store the message. */
  function Save(rooms: seq<ChatRoom>, messages: seq<ChatMessageDoc>, m: ChatMessageDoc): Saved {
    var resolved := Resolve(rooms, m.senderId, m.receiverId, true);
    match resolved.result
    case Err(e) => Saved(resolved.rooms, messages, Err(e))
    case Ok(None) => Saved(resolved.rooms, messages, Err(IllegalArgument(ChatRoomNotFound)))
    case Ok(Some(roomId)) =>
      var saved := Stamp(m, roomId, FreshId(MessageIds(messages)));
      Saved(resolved.rooms, messages + [saved], Ok(saved))
  }

  /** fetchChatMessagesAsync: resolve without creation, fail when there is no room,
      otherwise query the messages carrying the resolved id. */
  function Fetch(rooms: seq<ChatRoom>, messages: seq<ChatMessageDoc>, senderId: string, receiverId: string)
    : Result<seq<ChatMessageDoc>>
  {
    match Resolve(rooms, senderId, receiverId, false).result
    case Err(e) => Err(e)
    case Ok(None) => Err(IllegalArgument(ChatRoomNotFound))
    case Ok(Some(roomId)) => Ok(FindByChatId(messages, roomId))
  }

  /** A save resolves the message's own pair with creation; on success it stores
      exactly the stamped message and returns it, otherwise it stores nothing. */
  lemma SaveStoresStampedMessage(rooms: seq<ChatRoom>, messages: seq<ChatMessageDoc>, m: ChatMessageDoc)
    ensures var s := Save(rooms, messages, m);
      var resolved := Resolve(rooms, m.senderId, m.receiverId, true);
      && s.rooms == resolved.rooms
      && (s.result.Ok? <==> resolved.result.Ok? && resolved.result.value.Some?)
      && (s.result.Ok? ==>
            s.messages == messages + [s.result.value]
            && s.result.value == Stamp(m, resolved.result.value.value, FreshId(MessageIds(messages)))
            && s.result.value.id.Some?
            && (m.id.None? ==> forall x :: x in messages ==> x.id != s.result.value.id))
      && (s.result.Err? ==> s.messages == messages)
  {
  }

  /** With creation on, resolution always yields an id, so a save never fails with
      "Chat room not found"; it fails only when the pair's lookup is not unique. */
  lemma SaveNeverReportsMissingRoom(rooms: seq<ChatRoom>, messages: seq<ChatMessageDoc>, m: ChatMessageDoc)
    ensures Save(rooms, messages, m).result != Err(IllegalArgument(ChatRoomNotFound))
    ensures Save(rooms, messages, m).result.Err? ==> Save(rooms, messages, m).result.error.IncorrectResultSize?
  {
  }

  /** Fetching a pair that has no record fails with "Chat room not found". */
  lemma FetchWithoutRoomFails(rooms: seq<ChatRoom>, messages: seq<ChatMessageDoc>, senderId: string, receiverId: string)
    requires forall x :: x in rooms ==> !IsPair(x, senderId, receiverId)
    ensures Fetch(rooms, messages, senderId, receiverId) == Err(IllegalArgument(ChatRoomNotFound))
  {
  }

  /** Once a pair has its record, a save in that direction extends the history of
      that direction by exactly the saved message, at its end. */
  lemma SaveExtendsHistory(rooms: seq<ChatRoom>, messages: seq<ChatMessageDoc>, m: ChatMessageDoc, k: nat)
    requires k < |rooms| && OnlyRecordOfPair(rooms, k) && IsPair(rooms[k], m.senderId, m.receiverId)
    ensures var s := Save(rooms, messages, m);
      && s.result.Ok? && s.rooms == rooms
      && Fetch(rooms, messages, m.senderId, m.receiverId).Ok?
      && Fetch(s.rooms, s.messages, m.senderId, m.receiverId)
         == Ok(Fetch(rooms, messages, m.senderId, m.receiverId).value + [s.result.value])
  {
    ResolveFoundReturnsDocumentId(rooms, k, true);
    ResolveFoundReturnsDocumentId(rooms, k, false);
    var s := Save(rooms, messages, m);
    FindByChatIdAppend(messages, [s.result.value], rooms[k].id);
    assert FindByChatId([s.result.value], rooms[k].id) == [s.result.value];
  }

  /** The history as written loses the first message of a conversation: the first
      save is stamped with the new room's chatId, while every later lookup, in either
      direction, returns a record's document id, so neither direction's history
      holds the first message although the store does. */
  lemma FirstMessageMissingFromHistory(rooms: seq<ChatRoom>, messages: seq<ChatMessageDoc>, m1: ChatMessageDoc, m2: ChatMessageDoc)
    requires Mirrored(rooms) && m1.senderId != m1.receiverId
    requires forall x :: x in rooms ==> !IsPair(x, m1.senderId, m1.receiverId)
    requires m2.senderId == m1.senderId && m2.receiverId == m1.receiverId
    ensures var s1 := Save(rooms, messages, m1);
      var s2 := Save(s1.rooms, s1.messages, m2);
      var forward := Fetch(s2.rooms, s2.messages, m1.senderId, m1.receiverId);
      var backward := Fetch(s2.rooms, s2.messages, m1.receiverId, m1.senderId);
      && s1.result.Ok? && s2.result.Ok?
      && s1.result.value in s2.messages
      && forward.Ok? && s1.result.value !in forward.value && s2.result.value in forward.value
      && backward.Ok? && s1.result.value !in backward.value
  {
    var sender, receiver := m1.senderId, m1.receiverId;
    CreatedRoomLookups(rooms, sender, receiver, true);
    CreatedRoomLookups(rooms, sender, receiver, false);
    var s1 := Save(rooms, messages, m1);
    var s2 := Save(s1.rooms, s1.messages, m2);
    assert s1.result.value.chatId == Some(ChatIdOf(sender, receiver));
    assert s2.result.value.chatId == Some(ObjectId(|rooms|));
    assert s2.messages == s1.messages + [s2.result.value];
  }

  /** The message service: the message collection, in insertion order, and the room
      service it resolves rooms with. */
  class ChatMessageService {
    const roomService: ChatRoomService
    var messages: seq<ChatMessageDoc>

    ghost predicate Valid()
      reads this, roomService
    {
      roomService.Valid()
    }

    constructor (roomService: ChatRoomService)
      requires roomService.Valid()
      ensures Valid()
      ensures this.roomService == roomService && messages == []
    {
      this.roomService := roomService;
      messages := [];
    }

    /** Resolves (creating if needed) the message's room, stamps the room id into the
        caller's message and stores it. */
    method SaveChatMessage(message: ChatMessage) returns (res: Result<ChatMessageDoc>)
      requires Valid()
      modifies this, roomService, message
      ensures Valid()
      ensures Saved(roomService.rooms, messages, res) == Save(old(roomService.rooms), old(messages), old(message.Doc()))
      ensures message.Doc() == if res.Ok? then res.value else old(message.Doc())
    {
      var resolved := roomService.GetChatRoomId(message.senderId, message.receiverId, true);
      match resolved {
        case Err(e) =>
          res := Err(e);
        case Ok(None) =>
          res := Err(IllegalArgument(ChatRoomNotFound));
        case Ok(Some(roomId)) =>
          message.chatId := Some(roomId);
          // the store issues a document id to a message that has none, then keeps a copy
          if message.id.None? {
            message.id := Some(FreshId(MessageIds(messages)));
          }
          messages := messages + [message.Doc()];
          res := Ok(message.Doc());
      }
    }

    /** Resolves the pair without creating a room and returns the room's messages. */
    method FetchChatMessages(senderId: string, receiverId: string) returns (res: Result<seq<ChatMessageDoc>>)
      requires Valid()
      modifies roomService
      ensures Valid() && roomService.rooms == old(roomService.rooms)
      ensures res == Fetch(roomService.rooms, messages, senderId, receiverId)
    {
      var resolved := roomService.GetChatRoomId(senderId, receiverId, false);
      match resolved {
        case Err(e) =>
          res := Err(e);
        case Ok(None) =>
          res := Err(IllegalArgument(ChatRoomNotFound));
        case Ok(Some(roomId)) =>
          res := Ok(FindByChatId(messages, roomId));
      }
    }
  }
}
