/** A room session seen end to end, with the broadcast bus between two tabs of one browser. */
module Scenarios {
  import opened ChatTypes
  import opened ChatContext
  import ChatService

  /**
   * The announce/reply round trip between two tabs on one channel: B's
   * USER_JOINED and REQUEST_USERS reach A, A answers each with USER_INFO, and
   * both answers reach B.
   */
  method Handshake(a: ChatProvider, b: ChatProvider, ann: User, bob: User, channel: string)
    requires a != b && ann.id != bob.id
    requires a.Valid() && a.user == Some(ann) && a.users == [ann] && a.broadcastChannel == Some(channel) && a.busOut == []
    requires b.Valid() && b.user == Some(bob) && b.users == [bob] && b.broadcastChannel == Some(channel)
    requires b.busOut == [BusPost(channel, UserJoined(bob)), BusPost(channel, RequestUsers(bob.id))]
    modifies a, b
    ensures a.Valid() && b.Valid()
    ensures a.users == [ann, bob] && b.users == [bob, ann]
    ensures a.busOut == [BusPost(channel, UserInfo(Some(ann))), BusPost(channel, UserInfo(Some(ann)))]
    ensures b.busOut == old(b.busOut)
    ensures a.messages == old(a.messages) && b.messages == old(b.messages)
    ensures a.user == old(a.user) && a.roomId == old(a.roomId) && a.broadcastChannel == old(a.broadcastChannel)
    ensures b.user == old(b.user) && b.roomId == old(b.roomId) && b.broadcastChannel == old(b.broadcastChannel)
  {
    a.HandleBusMessage(a.user, b.busOut[0].envelope);
    assert Presence.RemoveId([ann], bob.id) == [ann];
    assert a.users == [ann, bob];
    a.HandleBusMessage(a.user, b.busOut[1].envelope);
    b.HandleBusMessage(b.user, a.busOut[0].envelope);
    assert Presence.RemoveId([bob], ann.id) == [bob];
    assert b.users == [bob, ann];
    b.HandleBusMessage(b.user, a.busOut[1].envelope);
    assert Presence.RemoveId([bob, ann], ann.id) == [bob];
  }

  /**
   * Tab A creates a room and tab B joins it over the bus alone, no signalling
   * exchanged. The bus hands each post to every other tab on the channel (never
   * back to the poster). After one announce/reply round trip each tab lists both
   * members, and A's message shows up exactly once in each tab.
   */
  method SameDeviceRoom(room: string, idA: string, idB: string, msgId: string, at: int)
    returns (usersA: seq<User>, usersB: seq<User>, messagesA: seq<Message>, messagesB: seq<Message>)
    requires idA != idB && room != ""
    ensures usersA == [User(idA, "Ann", Palette[0]), User(idB, "Bob", Palette[1])]
    ensures usersB == [User(idB, "Bob", Palette[1]), User(idA, "Ann", Palette[0])]
    ensures messagesA == [Message(msgId, "hello", idA, "Ann", at, Palette[0])]
    ensures messagesB == messagesA
  {
    var store := new ChatService.SignalingStore();
    var a := new ChatProvider();
    var b := new ChatProvider();
    var _ := a.CreateRoom("Ann", room, idA, 0, store);
    b.JoinRoom(room, "Bob", idB, 1);
    Handshake(a, b, a.user.value, b.user.value, ChannelName(room));

    // A's message goes out on both transports; only the bus reaches B
    a.SendMessage("hello", msgId, at);
    b.HandleBusMessage(b.user, a.busOut[2].envelope);

    usersA, usersB, messagesA, messagesB := a.users, b.users, a.messages, b.messages;
  }
}
