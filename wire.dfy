/** The JSON bodies and real-time event payloads exchanged between the
    browser client and the server. */
module Wire {
  import opened Options
  import opened Values

  /** An element of `GET /api/users`, the body of `GET /api/search/<username>`,
      and the client's `currentChatUser`. */
  datatype UserJson = UserJson(id: Value, username: string, name: string)

  /** An element of `GET /api/messages/<id>`; `sender_name` is the raw,
      nullable `name` column. */
  datatype HistoryJson = HistoryJson(
    text: string, timestamp: string, senderUsername: string,
    senderName: Option<string>, isOwn: bool)

  /** Client to server: `send_message`. */
  datatype SendPayload = SendPayload(receiverId: Value, message: string)

  /** Server to the receiver's room: `receive_message`. */
  datatype ReceivePayload = ReceivePayload(
    message: string, senderId: Value, senderUsername: string,
    senderName: string, timestamp: string)

  /** Server back to the sending socket: `message_sent`. */
  datatype SentPayload = SentPayload(message: string, receiverId: Value, timestamp: string)
}
