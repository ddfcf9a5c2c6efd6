/** The persisted entities: chat-room records, chat messages, users and notifications.
    Entities the services mutate in place (ChatMessage, User) are classes whose `Doc()`
    is the document a store keeps a copy of; the others are values. */
module Entities {
  import opened Common

  /** One directional room record: `id` is the document id the store issues, `chatId`
      the conversation name both directions share. */
  datatype ChatRoom = ChatRoom(id: string, chatId: string, senderId: string, receiverId: string)

  /** A chat message as stored. `id` is absent until the store issues one, and `chatId`
      until the message service stamps the resolved room id. */
  datatype ChatMessageDoc = ChatMessageDoc(
    id: Option<string>,
    chatId: Option<string>,
    senderId: string,
    receiverId: string,
    content: string,
    timestamp: LocalDateTime)

  /** The message object a client hands in; the service and the store write to it. */
  class ChatMessage {
    var id: Option<string>
    var chatId: Option<string>
    var senderId: string
    var receiverId: string
    var content: string
    var timestamp: LocalDateTime

    constructor (doc: ChatMessageDoc)
      ensures Doc() == doc
    {
      id, chatId := doc.id, doc.chatId;
      senderId, receiverId := doc.senderId, doc.receiverId;
      content, timestamp := doc.content, doc.timestamp;
    }

    function Doc(): ChatMessageDoc
      reads this
    {
      ChatMessageDoc(id, chatId, senderId, receiverId, content, timestamp)
    }
  }

  /** The notification entity: a message without its room id and timestamp. */
  datatype ChatNotification = ChatNotification(id: Option<string>, senderId: string, receiverId: string, content: string)

  datatype UserStatus = Online | Offline

  /** A user as stored; the nickname is the document key and may be absent (null) on
      an object a client hands in. */
  datatype UserDoc = UserDoc(nickName: Option<string>, fullName: string, password: string, status: UserStatus)

  /** The user object a client hands in; the service sets its status in place. */
  class User {
    var nickName: Option<string>
    var fullName: string
    var password: string
    var status: UserStatus

    constructor (doc: UserDoc)
      ensures Doc() == doc
    {
      nickName, fullName, password, status := doc.nickName, doc.fullName, doc.password, doc.status;
    }

    function Doc(): UserDoc
      reads this
    {
      UserDoc(nickName, fullName, password, status)
    }
  }
}
