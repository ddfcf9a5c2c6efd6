/** The payload pushed to a receiver: the four fields a notification carries. */
module ChatNotifications {
  import opened Common
  import opened Entities

  datatype ChatNotificationDTO = ChatNotificationDTO(id: Option<string>, senderId: string, receiverId: string, content: string)

  function FromChatNotification(n: ChatNotification): (dto: ChatNotificationDTO)
    ensures dto.id == n.id && dto.senderId == n.senderId
    ensures dto.receiverId == n.receiverId && dto.content == n.content
  {
    ChatNotificationDTO(n.id, n.senderId, n.receiverId, n.content)
  }

  function FromChatMessage(m: ChatMessageDoc): (dto: ChatNotificationDTO)
    ensures dto.id == m.id && dto.senderId == m.senderId
    ensures dto.receiverId == m.receiverId && dto.content == m.content
  {
    ChatNotificationDTO(m.id, m.senderId, m.receiverId, m.content)
  }

  /** Two messages give the same payload exactly when they agree on the four copied
      fields: the room id and the timestamp are dropped. */
  lemma FromChatMessageKeepsFourFields(m1: ChatMessageDoc, m2: ChatMessageDoc)
    ensures FromChatMessage(m1) == FromChatMessage(m2)
        <==> m1.id == m2.id && m1.senderId == m2.senderId && m1.receiverId == m2.receiverId && m1.content == m2.content
  {
  }

  /** Stamping a room id or a timestamp does not change the payload. */
  lemma FromChatMessageIgnoresRoomAndTime(m: ChatMessageDoc, chatId: Option<string>, timestamp: LocalDateTime)
    ensures FromChatMessage(m.(chatId := chatId, timestamp := timestamp)) == FromChatMessage(m)
  {
  }

  /** A message and a notification that agree on the four fields map to one payload. */
  lemma SamePayload(m: ChatMessageDoc, n: ChatNotification)
    requires m.id == n.id && m.senderId == n.senderId && m.receiverId == n.receiverId && m.content == n.content
    ensures FromChatMessage(m) == FromChatNotification(n)
  {
  }
}
