/**
 * The room session held by the chat context provider: its state, the five
 * operations it offers, and its two envelope dispatchers. Replies and
 * outgoing envelopes are appended to two outboxes, one per transport.
 */
module ChatContext {
  import opened ChatTypes
  import opened Presence
  import ChatService

  /** The ten pastel colours `getRandomColor` picks from. */
  const Palette: seq<string> := ["#FFA69E", "#FAF3DD", "#B8F2E6", "#AED9E0", "#5E6472",
                                 "#E3D0D8", "#C1D37F", "#A3C4BC", "#957DAD", "#D291BC"]

  /** The broadcast channel a room uses, `chat-room-<roomId>`. */
  function ChannelName(roomId: string): string {
    "chat-room-" + roomId
  }

  function PeerPosts(from: string, es: seq<Envelope>): (r: seq<PeerPost>)
    ensures |r| == |es| && forall k :: 0 <= k < |es| ==> r[k] == PeerPost(from, es[k])
  {
    seq(|es|, k requires 0 <= k < |es| => PeerPost(from, es[k]))
  }

  function BusPosts(channel: string, es: seq<Envelope>): (r: seq<BusPost>)
    ensures |r| == |es| && forall k :: 0 <= k < |es| ==> r[k] == BusPost(channel, es[k])
  {
    seq(|es|, k requires 0 <= k < |es| => BusPost(channel, es[k]))
  }

  class ChatProvider {
    var messages: seq<Message>
    var user: Option<User>
    var users: seq<User>
    var roomId: Option<string>
    var isConnected: bool
    var signalingData: Option<string>
    /** The open broadcast channel, by name; None when `broadcastChannel` is null. */
    var broadcastChannel: Option<string>
    /** Every `sendPeerMessage` call, in order. */
    var peerOut: seq<PeerPost>
    /** Every `postMessage` on a broadcast channel, in order. */
    var busOut: seq<BusPost>

    ghost predicate Valid()
      reads this
    {
      UniqueIds(users)
    }

    /** `!user || !roomId` is false: a local user exists and the room id is a non-empty string. */
    predicate InRoom()
      reads this
    {
      user.Some? && roomId.Some? && roomId.value != ""
    }

    /** The initial state of every `useState`. */
    constructor ()
      ensures Valid()
      ensures messages == [] && user == None && users == [] && roomId == None
      ensures !isConnected && signalingData == None && broadcastChannel == None
      ensures peerOut == [] && busOut == []
    {
      messages, user, users, roomId := [], None, [], None;
      isConnected, signalingData, broadcastChannel := false, None, None;
      peerOut, busOut := [], [];
    }

    /**
     * `createRoom`: the local user becomes the only member, the room's channel is
     * opened, and the signalling string stored for the new room (if any) is taken.
     * The room and user ids and the colour index stand for the random sources.
     */
    method CreateRoom(userName: string, newRoomId: string, newUserId: string, colorPick: nat, store: ChatService.SignalingStore)
      returns (created: string)
      requires colorPick < |Palette|
      modifies this
      ensures Valid()
      ensures created == newRoomId
      ensures var me := User(newUserId, userName, Palette[colorPick]);
        && user == Some(me) && roomId == Some(newRoomId) && users == [me]
      ensures broadcastChannel == Some(ChannelName(newRoomId)) && isConnected
      ensures var stored := ChatService.Lookup(store.peerSignalingData, newRoomId);
        signalingData == if stored.Some? then stored else old(signalingData)
      ensures messages == old(messages) && peerOut == old(peerOut) && busOut == old(busOut)
    {
      var newUser := User(newUserId, userName, Palette[colorPick]);
      user := Some(newUser);
      roomId := Some(newRoomId);
      users := [newUser];
      // initializePeer(newUserId, newRoomId, handlePeerMessage) belongs to the peer layer
      broadcastChannel := Some(ChannelName(newRoomId));
      var sigData := store.GetSignalingData(newRoomId);
      if sigData.Some? {
        signalingData := sigData;
      }
      isConnected := true;
      created := newRoomId;
    }

    /**
     * `joinRoom`: the local user becomes the only member, the room's channel is
     * opened, and USER_JOINED then REQUEST_USERS are posted on it.
     */
    method JoinRoom(room: string, userName: string, newUserId: string, colorPick: nat)
      requires colorPick < |Palette|
      modifies this
      ensures Valid()
      ensures var me := User(newUserId, userName, Palette[colorPick]);
        && user == Some(me) && roomId == Some(room) && users == [me]
        && busOut == old(busOut) + [BusPost(ChannelName(room), UserJoined(me)), BusPost(ChannelName(room), RequestUsers(me.id))]
      ensures broadcastChannel == Some(ChannelName(room)) && isConnected
      ensures messages == old(messages) && signalingData == old(signalingData) && peerOut == old(peerOut)
    {
      var newUser := User(newUserId, userName, Palette[colorPick]);
      user := Some(newUser);
      roomId := Some(room);
      users := [newUser];
      var channel := ChannelName(room);
      broadcastChannel := Some(channel);
      busOut := busOut + [BusPost(channel, UserJoined(newUser))];
      busOut := busOut + [BusPost(channel, RequestUsers(newUser.id))];
      isConnected := true;
    }

    /**
     * `connectWithSignalingData`: nothing happens outside a room; otherwise, unless
     * `joinPeer` throws, USER_JOINED and REQUEST_USERS go out on the peer path.
     */
    method ConnectWithSignalingData(data: string, joinPeerThrows: bool)
      modifies this
      ensures messages == old(messages) && user == old(user) && users == old(users) && roomId == old(roomId)
      ensures peerOut == old(peerOut) +
        (if old(InRoom()) && !joinPeerThrows
         then [PeerPost(user.value.id, UserJoined(user.value)), PeerPost(user.value.id, RequestUsers(user.value.id))]
         else [])
      ensures isConnected == old(isConnected) && signalingData == old(signalingData)
      ensures broadcastChannel == old(broadcastChannel) && busOut == old(busOut)
    {
      if !InRoom() {
        return;
      }
      var me := user.value;
      // joinPeer(me.id, roomId, data, handlePeerMessage) belongs to the peer layer
      if !joinPeerThrows {
        peerOut := peerOut + [PeerPost(me.id, UserJoined(me))];
        peerOut := peerOut + [PeerPost(me.id, RequestUsers(me.id))];
      }
    }

    /**
     * `leaveRoom`: USER_LEFT is posted when both a channel and a local user exist,
     * then the whole session is reset.
     */
    method LeaveRoom()
      modifies this
      ensures Valid()
      ensures busOut == old(busOut) +
        (if old(broadcastChannel).Some? && old(user).Some?
         then [BusPost(old(broadcastChannel).value, UserLeft(old(user).value.id))]
         else [])
      ensures broadcastChannel == None && user == None && roomId == None
      ensures messages == [] && users == [] && signalingData == None && !isConnected
      ensures peerOut == old(peerOut)
    {
      // closeAllPeers() belongs to the peer layer
      if broadcastChannel.Some? && user.Some? {
        busOut := busOut + [BusPost(broadcastChannel.value, UserLeft(user.value.id))];
      }
      broadcastChannel := None;
      user := None;
      roomId := None;
      messages := [];
      users := [];
      signalingData := None;
      isConnected := false;
    }

    /**
     * `sendMessage`: outside a room nothing happens; otherwise exactly one message
     * authored by the local user is appended and sent as NEW_MESSAGE on the peer
     * path, and on the bus when a channel is open.
     */
    method SendMessage(text: string, newId: string, timestamp: int)
      modifies this
      ensures !old(InRoom()) ==> messages == old(messages) && peerOut == old(peerOut) && busOut == old(busOut)
      ensures old(InRoom()) ==>
        var me := old(user).value;
        var m := Message(newId, text, me.id, me.name, timestamp, me.color);
        && messages == old(messages) + [m]
        && peerOut == old(peerOut) + [PeerPost(me.id, NewMessage(m))]
        && busOut == old(busOut) + (if broadcastChannel.Some? then [BusPost(broadcastChannel.value, NewMessage(m))] else [])
      ensures user == old(user) && users == old(users) && roomId == old(roomId) && isConnected == old(isConnected)
      ensures signalingData == old(signalingData) && broadcastChannel == old(broadcastChannel)
    {
      if !InRoom() {
        return;
      }
      var me := user.value;
      var newMessage := Message(newId, text, me.id, me.name, timestamp, me.color);
      messages := messages + [newMessage];
      peerOut := peerOut + [PeerPost(me.id, NewMessage(newMessage))];
      if broadcastChannel.Some? {
        busOut := busOut + [BusPost(broadcastChannel.value, NewMessage(newMessage))];
      }
    }

    /**
     * `handlePeerMessage`, run with `local` as the user it sees. The member and
     * message lists become what `React` on the peer path says, and its replies go
     * out on the peer path; nothing else changes.
     */
    method HandlePeerMessage(local: Option<User>, env: Envelope)
      requires Valid()
      modifies this
      ensures Valid()
      ensures var r := React(Peer, local, old(users), old(messages), env);
        && users == r.users && messages == r.messages
        && peerOut == old(peerOut) + (if local.Some? then PeerPosts(local.value.id, r.replies) else [])
      ensures user == old(user) && roomId == old(roomId) && isConnected == old(isConnected)
      ensures signalingData == old(signalingData) && broadcastChannel == old(broadcastChannel) && busOut == old(busOut)
    {
      match env {
        case NewMessage(m) =>
          if IsForeign(local, m.userId) {
            messages := messages + [m];
          }
        case UserJoined(u) =>
          if IsForeign(local, u.id) {
            UpsertKeepsUniqueIds(users, u);
            users := Upsert(users, u);
            if local.Some? {
              peerOut := peerOut + [PeerPost(local.value.id, UserInfo(local))];
            }
          }
        case UserInfo(info) =>
          // a null payload throws on `payload.id` before any setter runs
          if info.Some? && IsForeign(local, info.value.id) {
            UpsertKeepsUniqueIds(users, info.value);
            users := Upsert(users, info.value);
          }
        case UserLeft(id) =>
          RemoveIdKeepsUniqueIds(users, id);
          users := RemoveId(users, id);
        case RequestUsers(id) =>
          if IsForeign(local, id) && local.Some? {
            peerOut := peerOut + [PeerPost(local.value.id, UserInfo(local))];
          }
        case Unrecognised(_) =>
      }
    }

    /**
     * The bus `handleMessage` installed while a channel is open, run with `local` as
     * the user it sees. Unlike the peer path it answers USER_JOINED and
     * REQUEST_USERS even when `local` is null, with a null payload.
     */
    method HandleBusMessage(local: Option<User>, env: Envelope)
      requires Valid() && broadcastChannel.Some?
      modifies this
      ensures Valid()
      ensures user == old(user) && roomId == old(roomId) && isConnected == old(isConnected)
      ensures signalingData == old(signalingData) && broadcastChannel == old(broadcastChannel) && peerOut == old(peerOut)
      ensures var r := React(Bus, local, old(users), old(messages), env);
        && users == r.users && messages == r.messages
        && busOut == old(busOut) + BusPosts(broadcastChannel.value, r.replies)
    {
      var channel := broadcastChannel.value;
      match env {
        case NewMessage(m) =>
          if IsForeign(local, m.userId) {
            messages := messages + [m];
          }
        case UserJoined(u) =>
          if IsForeign(local, u.id) {
            UpsertKeepsUniqueIds(users, u);
            users := Upsert(users, u);
            busOut := busOut + [BusPost(channel, UserInfo(local))];
          }
        case UserInfo(info) =>
          // a null payload throws on `payload.id` before any setter runs
          if info.Some? && IsForeign(local, info.value.id) {
            UpsertKeepsUniqueIds(users, info.value);
            users := Upsert(users, info.value);
          }
        case UserLeft(id) =>
          RemoveIdKeepsUniqueIds(users, id);
          users := RemoveId(users, id);
        case RequestUsers(id) =>
          if IsForeign(local, id) {
            busOut := busOut + [BusPost(channel, UserInfo(local))];
          }
        case Unrecognised(_) =>
      }
    }
  }
}
