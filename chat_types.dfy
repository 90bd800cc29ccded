/** The records that travel between the tabs and peers of a chat room. */
module ChatTypes {

  datatype Option<+T> = None | Some(value: T)

  /** A room member. Members are compared by `id` only. */
  datatype User = User(id: string, name: string, color: string)

  /** A chat message; `timestamp` is the sender's clock in milliseconds and is never used for ordering. */
  datatype Message = Message(id: string, text: string, userId: string, userName: string, timestamp: int, color: string)

  /**
   * The wire unit `{type, payload}` shared by the peer path and the broadcast bus,
   * one constructor per `type` the dispatchers recognise.
   *  - NEW_MESSAGE carries a Message;
   *  - USER_JOINED carries a User;
   *  - USER_INFO carries a User, or null when the bus dispatcher replies without a local user;
   *  - USER_LEFT and REQUEST_USERS carry `{userId}`;
   *  - any other `type` (HEARTBEAT, say) is Unrecognised and ignored by every dispatcher.
   */
  datatype Envelope =
    | NewMessage(message: Message)
    | UserJoined(joined: User)
    | UserInfo(info: Option<User>)
    | UserLeft(leftId: string)
    | RequestUsers(requesterId: string)
    | Unrecognised(kind: string)

  /** One call `sendPeerMessage(from, envelope)` handed to the peer layer. */
  datatype PeerPost = PeerPost(from: string, envelope: Envelope)

  /** One `postMessage(envelope)` on the broadcast channel named `channel`. */
  datatype BusPost = BusPost(channel: string, envelope: Envelope)
}
