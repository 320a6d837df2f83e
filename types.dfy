/** The records of types/index.ts. */
module Types {
  import opened Wrappers

  datatype User = User(
    id: string,
    name: string,
    publicKey: string,
    privateKey: Option<string>,
    avatar: Option<string>)

  datatype Presence = Online | Offline

  /** A contact is a user seen from the address book, with presence and last-seen time. */
  datatype Contact = Contact(
    id: string,
    name: string,
    publicKey: string,
    privateKey: Option<string>,
    avatar: Option<string>,
    status: Presence,
    lastSeen: Timestamp)

  datatype EncryptedContent = EncryptedContent(encrypted: string, ephemeralPublicKey: string, nonce: string)

  /** `string | EncryptedContent`: a message body is plaintext or an envelope. */
  datatype Content = Plain(text: string) | Sealed(envelope: EncryptedContent)

  datatype MessageStatus = Sent | Delivered | Read

  datatype MessageType = TextMessage | ImageMessage | FileMessage

  datatype Message = Message(
    id: string,
    senderId: string,
    content: Content,
    timestamp: Timestamp,
    status: MessageStatus,
    messageType: MessageType)

  datatype Chat = Chat(
    id: string,
    participants: seq<User>,
    messages: seq<Message>,
    lastMessage: Option<Message>,
    unreadCount: int,
    isGroup: bool,
    groupName: Option<string>,
    groupAvatar: Option<string>)

  /**
   * The time value a JavaScript `Date` holds. Parsing a date string is not
   * modelled: a date made from a string stands for whatever instant that
   * string denotes.
   */
  datatype Instant = TimeValue(millis: int) | ParsedFrom(text: string)

  /** A timestamp as it may reach the store: a `Date`, or a string or number a `Date` is made from. */
  datatype Timestamp = Date(instant: Instant) | DateString(text: string) | EpochMillis(millis: int)
}
