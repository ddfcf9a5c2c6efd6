/** The chat pipeline: save an incoming message, then push its notification payload to
    the receiver's private queue; and the history endpoint, which delegates to the
    message service. */
module ChatControllers {
  import opened Common
  import opened Entities
  import opened ChatRooms
  import opened ChatMessages
  import opened ChatNotifications

  /** The receiver's private destination. */
  const QueueMessages: string := "/queue/messages"

  /** One push through the broker: to whom, on which destination, with what payload. */
  datatype Push = Push(user: string, destination: string, payload: ChatNotificationDTO)

  /** The pushes the broker has been handed, in order. */
  class MessageBroker {
    var sent: seq<Push>

    constructor ()
      ensures sent == []
    {
      sent := [];
    }

    method ConvertAndSendToUser(user: string, destination: string, payload: ChatNotificationDTO)
      modifies this
      ensures sent == old(sent) + [Push(user, destination, payload)]
    {
      sent := sent + [Push(user, destination, payload)];
    }
  }

  /** The stores and the broker after processing a message, and how it ended. */
  datatype Processed = Processed(rooms: seq<ChatRoom>, messages: seq<ChatMessageDoc>, sent: seq<Push>, outcome: Outcome)

  /** processChatMessage: save the message; if the save throws, the exception
      propagates and nothing is pushed; otherwise the stamped message's payload is
      pushed to its receiver. */
  function Process(rooms: seq<ChatRoom>, messages: seq<ChatMessageDoc>, sent: seq<Push>, m: ChatMessageDoc): Processed {
    var s := Save(rooms, messages, m);
    match s.result
    case Err(e) => Processed(s.rooms, s.messages, sent, Thrown(e))
    case Ok(saved) =>
      Processed(s.rooms, s.messages, sent + [Push(saved.receiverId, QueueMessages, FromChatMessage(saved))], Done)
  }

  /** A processed message is stored before exactly one push goes to its receiver's
      queue, carrying the stored message's id, sender, receiver and content; a failed
      save pushes nothing and stores nothing. */
  lemma ProcessSavesThenNotifiesReceiver(rooms: seq<ChatRoom>, messages: seq<ChatMessageDoc>, sent: seq<Push>, m: ChatMessageDoc)
    ensures var p := Process(rooms, messages, sent, m);
      && p.rooms == Save(rooms, messages, m).rooms
      && (p.outcome.Done? ==>
            && |p.messages| == |messages| + 1 && p.messages[..|messages|] == messages
            && |p.sent| == |sent| + 1 && p.sent[..|sent|] == sent
            && p.sent[|sent|].user == m.receiverId
            && p.sent[|sent|].destination == QueueMessages
            && p.sent[|sent|].payload == FromChatMessage(p.messages[|messages|])
            && p.sent[|sent|].payload.senderId == m.senderId
            && p.sent[|sent|].payload.content == m.content
            && p.sent[|sent|].payload.id.Some?)
      && (p.outcome.Thrown? ==> p.messages == messages && p.sent == sent)
  {
    var s := Save(rooms, messages, m);
    if s.result.Ok? {
      SaveStoresStampedMessage(rooms, messages, m);
      assert s.messages[|messages|] == s.result.value;
    }
  }

  /** Processing throws exactly when the message's own pair has two or more records,
      whatever the rest of the store holds, and the exception reaches the caller. */
  lemma ProcessFailsOnlyOnNonUniqueRoom(rooms: seq<ChatRoom>, messages: seq<ChatMessageDoc>, sent: seq<Push>, m: ChatMessageDoc)
    ensures Process(rooms, messages, sent, m).outcome.Thrown?
        <==> |Matching(rooms, m.senderId, m.receiverId)| >= 2
    ensures Process(rooms, messages, sent, m).outcome.Thrown?
        ==> Process(rooms, messages, sent, m).outcome.error == IncorrectResultSize(1)
  {
  }

  /** A second message of a self chat throws, because the first one left two records
      for the pair (a, a); nothing is pushed for it. */
  lemma SelfChatSecondMessageFails(rooms: seq<ChatRoom>, messages: seq<ChatMessageDoc>, sent: seq<Push>, m1: ChatMessageDoc, m2: ChatMessageDoc)
    requires forall x :: x in rooms ==> !IsPair(x, m1.senderId, m1.senderId)
    requires m1.receiverId == m1.senderId && m2.senderId == m1.senderId && m2.receiverId == m1.senderId
    ensures var p1 := Process(rooms, messages, sent, m1);
      var p2 := Process(p1.rooms, p1.messages, p1.sent, m2);
      && p1.outcome == Done
      && p2.outcome == Thrown(IncorrectResultSize(1))
      && p2.sent == p1.sent && p2.messages == p1.messages
  {
    SelfPairBreaksLookup(rooms, m1.senderId, true);
  }

  /** The controller: the message service and the broker it pushes through. */
  class ChatController {
    const messageService: ChatMessageService
    const broker: MessageBroker

    ghost predicate Valid()
      reads this, messageService, messageService.roomService
    {
      messageService.Valid()
    }

    constructor (messageService: ChatMessageService, broker: MessageBroker)
      requires messageService.Valid()
      ensures Valid()
      ensures this.messageService == messageService && this.broker == broker
    {
      this.messageService := messageService;
      this.broker := broker;
    }

    /** Saves the caller's message, then pushes its payload to the receiver. */
    method ProcessChatMessage(message: ChatMessage) returns (outcome: Outcome)
      requires Valid()
      modifies message, messageService, messageService.roomService, broker
      ensures Valid()
      ensures Process(old(messageService.roomService.rooms), old(messageService.messages), old(broker.sent), old(message.Doc()))
           == Processed(messageService.roomService.rooms, messageService.messages, broker.sent, outcome)
      ensures message.Doc() == if outcome.Done? then messageService.messages[|messageService.messages| - 1] else old(message.Doc())
    {
      var saved := messageService.SaveChatMessage(message);
      if saved.Err? {
        outcome := Thrown(saved.error);
        return;
      }
      broker.ConvertAndSendToUser(message.receiverId, QueueMessages, FromChatMessage(message.Doc()));
      outcome := Done;
    }

    /** Returns the history of the pair, as the message service computes it. */
    method FetchChatMessages(senderId: string, receiverId: string) returns (res: Result<seq<ChatMessageDoc>>)
      requires Valid()
      modifies messageService.roomService
      ensures Valid() && messageService.roomService.rooms == old(messageService.roomService.rooms)
      ensures res == Fetch(messageService.roomService.rooms, messageService.messages, senderId, receiverId)
    {
      res := messageService.FetchChatMessages(senderId, receiverId);
    }
  }
}
