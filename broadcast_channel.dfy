/**
 * The standalone broadcast-channel dispatcher: it reports what an incoming
 * envelope does through three callbacks and `postMessage` on its channel,
 * here returned as the ordered list of those effects.
 */
module BroadcastChannel {
  import opened ChatTypes
  import opened Presence

  datatype Effect =
    | DeliverMessage(message: Message)   // onNewMessage(payload)
    | DeliverUser(user: User)            // onUserJoined(payload)
    | DeliverLeave(userId: string)       // onUserLeft(payload.userId)
    | Post(envelope: Envelope)           // channel.postMessage(envelope)

  /**
   * The `handleMessage` of `setupBroadcastChannel` for a tab whose local user is `user`.
   * A USER_INFO with a null payload throws on `payload.id` before any callback runs.
   */
  function HandleMessage(user: Option<User>, env: Envelope): (effects: seq<Effect>)
    // at most one callback and at most one post, the callback first
    ensures |effects| <= 2
    ensures |effects| == 2 ==> !effects[0].Post? && effects[1].Post?
    ensures |effects| == 1 && effects[0].Post? ==> env.RequestUsers?
    // a post only ever answers with the non-null local user
    ensures forall k :: 0 <= k < |effects| && effects[k].Post? ==> user.Some? && effects[k].envelope == UserInfo(user)
    ensures env.NewMessage? ==> forall k :: 0 <= k < |effects| ==> effects[k] == DeliverMessage(env.message)
    ensures env.NewMessage? ==> (|effects| == 1 <==> IsForeign(user, env.message.userId))
    ensures env.UserJoined? ==> (|effects| >= 1 <==> IsForeign(user, env.joined.id))
    ensures env.UserJoined? ==> (|effects| == 2 <==> IsForeign(user, env.joined.id) && user.Some?)
    ensures env.UserJoined? && |effects| >= 1 ==> effects[0] == DeliverUser(env.joined)
    ensures env.UserInfo? ==> (effects != [] <==> env.info.Some? && IsForeign(user, env.info.value.id))
    ensures env.UserInfo? && effects != [] ==> effects == [DeliverUser(env.info.value)]
    ensures env.UserLeft? ==> effects == [DeliverLeave(env.leftId)]
    ensures env.RequestUsers? ==> (effects != [] <==> user.Some? && IsForeign(user, env.requesterId))
    ensures env.RequestUsers? ==> forall k :: 0 <= k < |effects| ==> effects[k].Post?
    ensures env.Unrecognised? ==> effects == []
  {
    match env
    case NewMessage(m) =>
      if IsForeign(user, m.userId) then [DeliverMessage(m)] else []
    case UserJoined(u) =>
      if IsForeign(user, u.id) then
        [DeliverUser(u)] + (if user.Some? then [Post(UserInfo(user))] else [])
      else []
    case UserInfo(info) =>
      if info.Some? && IsForeign(user, info.value.id) then [DeliverUser(info.value)] else []
    case UserLeft(id) =>
      [DeliverLeave(id)]
    case RequestUsers(id) =>
      if IsForeign(user, id) && user.Some? then [Post(UserInfo(user))] else []
    case Unrecognised(_) =>
      []
  }

  /** `sendBroadcastMessage(channel, type, payload)`: one post of the envelope when the channel is there, none otherwise. */
  function SendBroadcastMessage(channelPresent: bool, env: Envelope): (effects: seq<Effect>)
    ensures channelPresent ==> effects == [Post(env)]
    ensures !channelPresent ==> effects == []
  {
    if channelPresent then [Post(env)] else []
  }

  /** Wires the callbacks to the chat context's list updaters and collects the posts as replies. */
  function ApplyEffects(users: seq<User>, messages: seq<Message>, effects: seq<Effect>): Reaction
    decreases |effects|
  {
    if effects == [] then Reaction(users, messages, [])
    else
      var rest := effects[1..];
      match effects[0]
      case DeliverMessage(m) => ApplyEffects(users, messages + [m], rest)
      case DeliverUser(u) => ApplyEffects(Upsert(users, u), messages, rest)
      case DeliverLeave(id) => ApplyEffects(RemoveId(users, id), messages, rest)
      case Post(e) =>
        var r := ApplyEffects(users, messages, rest);
        Reaction(r.users, r.messages, [e] + r.replies)
  }

  /**
   * Wired to the chat context's list updaters, the standalone dispatcher does
   * exactly what the chat context's peer-path dispatcher does.
   */
  lemma HandleMessageMatchesPeerPath(user: Option<User>, users: seq<User>, messages: seq<Message>, env: Envelope)
    ensures ApplyEffects(users, messages, HandleMessage(user, env)) == React(Peer, user, users, messages, env)
  {
    var effects := HandleMessage(user, env);
    if |effects| == 2 {
      var u := env.joined;
      assert effects[1..] == [Post(UserInfo(user))] && effects[1..][1..] == [];
      assert ApplyEffects(Upsert(users, u), messages, effects[1..]) == Reaction(Upsert(users, u), messages, [UserInfo(user)]);
    } else if |effects| == 1 {
      assert effects[1..] == [];
    }
  }

  /**
   * It differs from the chat context's bus-path dispatcher exactly where that one
   * replies without a local user.
   */
  lemma HandleMessageVersusBusPath(user: Option<User>, users: seq<User>, messages: seq<Message>, env: Envelope)
    ensures ApplyEffects(users, messages, HandleMessage(user, env)) == React(Bus, user, users, messages, env)
        <==> !(user.None? && (env.UserJoined? || env.RequestUsers?))
  {
    HandleMessageMatchesPeerPath(user, users, messages, env);
    PathsDiffer(user, users, messages, env);
  }

  /** A message posted with `sendBroadcastMessage` reaches another tab's `onNewMessage` exactly once. */
  lemma SendThenReceive(receiver: Option<User>, m: Message)
    requires IsForeign(receiver, m.userId)
    ensures var sent := SendBroadcastMessage(true, NewMessage(m));
      |sent| == 1 && HandleMessage(receiver, sent[0].envelope) == [DeliverMessage(m)]
  {
  }
}
