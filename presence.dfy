/**
 * The presence and message router of the chat context: how one incoming envelope
 * changes the member list and the message list, and which reply it produces.
 * The chat context has two dispatchers, one for the peer path and one for the
 * broadcast bus; they are the same switch except for one guard, so both are
 * `React` here, told apart by a `Path`.
 */
module Presence {
  import opened ChatTypes

  /**
   * `id !== user?.id`: with no local user, `user?.id` is undefined and every
   * (defined) id counts as foreign.
   */
  predicate IsForeign(local: Option<User>, id: string) {
    local.None? || id != local.value.id
  }

  predicate HasId(users: seq<User>, id: string) {
    exists i :: 0 <= i < |users| && users[i].id == id
  }

  /** The member-list invariant: no two records share an id. */
  predicate UniqueIds(users: seq<User>) {
    forall i, j :: 0 <= i < j < |users| ==> users[i].id != users[j].id
  }

  /** `users.filter(u => u.id !== id)` */
  function RemoveId(users: seq<User>, id: string): (r: seq<User>)
    ensures |r| <= |users|
    ensures forall u :: u in r <==> u in users && u.id != id
    ensures forall i :: 0 <= i < |r| ==> r[i].id != id
  {
    if users == [] then []
    else if users[0].id == id then RemoveId(users[1..], id)
    else [users[0]] + RemoveId(users[1..], id)
  }

  /** `[...users.filter(u => u.id !== user.id), user]` */
  function Upsert(users: seq<User>, user: User): (r: seq<User>)
    ensures |r| > 0 && r[|r| - 1] == user
    ensures forall i :: 0 <= i < |r| - 1 ==> r[i].id != user.id
    ensures forall u :: u in r <==> u == user || (u in users && u.id != user.id)
  {
    RemoveId(users, user.id) + [user]
  }

  /** Removing an id nobody has changes nothing. */
  lemma {:induction false} RemoveIdAbsent(users: seq<User>, id: string)
    requires !HasId(users, id)
    ensures RemoveId(users, id) == users
  {
    if users != [] {
      assert users[0].id != id;
      assert !HasId(users[1..], id) by {
        forall i | 0 <= i < |users[1..]| ensures users[1..][i].id != id {
          assert users[1..][i] == users[i + 1];
        }
      }
      RemoveIdAbsent(users[1..], id);
      assert [users[0]] + users[1..] == users;
    }
  }

  /** Filtering distributes over concatenation, so the records that stay keep their relative order. */
  lemma {:induction false} RemoveIdConcat(a: seq<User>, b: seq<User>, id: string)
    ensures RemoveId(a + b, id) == RemoveId(a, id) + RemoveId(b, id)
  {
    if a == [] {
      assert a + b == b;
    } else {
      assert (a + b)[0] == a[0];
      assert (a + b)[1..] == a[1..] + b;
      RemoveIdConcat(a[1..], b, id);
    }
  }

  lemma UniqueIdsCons(x: User, rest: seq<User>)
    requires UniqueIds(rest)
    requires forall k :: 0 <= k < |rest| ==> rest[k].id != x.id
    ensures UniqueIds([x] + rest)
  {
  }

  /** Filtering never creates two records with the same id. */
  lemma {:induction false} RemoveIdKeepsUniqueIds(users: seq<User>, id: string)
    requires UniqueIds(users)
    ensures UniqueIds(RemoveId(users, id))
  {
    if users != [] {
      var tail := users[1..];
      assert UniqueIds(tail) by {
        forall i, j | 0 <= i < j < |tail| ensures tail[i].id != tail[j].id {
          assert tail[i] == users[i + 1] && tail[j] == users[j + 1];
        }
      }
      RemoveIdKeepsUniqueIds(tail, id);
      if users[0].id != id {
        var rest := RemoveId(tail, id);
        forall k | 0 <= k < |rest| ensures rest[k].id != users[0].id {
          assert rest[k] in tail;
          var j :| 0 <= j < |tail| && tail[j] == rest[k];
          assert tail[j] == users[j + 1];
        }
        UniqueIdsCons(users[0], rest);
      }
    }
  }

  /** The upsert keeps the member list free of duplicate ids. */
  lemma UpsertKeepsUniqueIds(users: seq<User>, user: User)
    requires UniqueIds(users)
    ensures UniqueIds(Upsert(users, user))
  {
    var rest := RemoveId(users, user.id);
    RemoveIdKeepsUniqueIds(users, user.id);
    var r := rest + [user];
    forall i, j | 0 <= i < j < |r| ensures r[i].id != r[j].id {
      if j < |rest| {
        assert r[i] == rest[i] && r[j] == rest[j];
      } else {
        assert r[i] == rest[i];
      }
    }
  }

  /** With the upserted id filtered out, the list is what it was with that id filtered out: the other members keep their records and their order. */
  lemma UpsertLeavesOthers(users: seq<User>, user: User)
    ensures RemoveId(Upsert(users, user), user.id) == RemoveId(users, user.id)
  {
    var rest := RemoveId(users, user.id);
    RemoveIdConcat(rest, [user], user.id);
    RemoveIdAbsent(rest, user.id);
    assert RemoveId([user], user.id) == [];
  }

  /** The transport an envelope arrived on. */
  datatype Path = Peer | Bus

  /** What one envelope does to a session: the new member list, the new message list and the replies sent back on the same transport. */
  datatype Reaction = Reaction(users: seq<User>, messages: seq<Message>, replies: seq<Envelope>)

  /**
   * When a dispatcher answers with USER_INFO: a foreign USER_JOINED or REQUEST_USERS.
   * The peer path also needs a local user (`if (user)`); the bus path replies
   * even without one, with a null payload.
   */
  predicate ReplyDue(path: Path, local: Option<User>, env: Envelope) {
    && ((env.UserJoined? && IsForeign(local, env.joined.id)) || (env.RequestUsers? && IsForeign(local, env.requesterId)))
    && (path == Bus || local.Some?)
  }

  /**
   * One step of either dispatcher of the chat context. A USER_INFO whose payload is
   * null throws on `payload.id` before any setter runs, so it changes nothing.
   */
  function React(path: Path, local: Option<User>, users: seq<User>, messages: seq<Message>, env: Envelope): (r: Reaction)
    ensures r.replies == (if ReplyDue(path, local, env) then [UserInfo(local)] else [])
    ensures !env.NewMessage? ==> r.messages == messages
    ensures env.NewMessage? ==> r.users == users
    ensures env.NewMessage? && IsForeign(local, env.message.userId) ==>
              |r.messages| == |messages| + 1 && r.messages[..|messages|] == messages && r.messages[|messages|] == env.message
    ensures env.NewMessage? && !IsForeign(local, env.message.userId) ==> r.messages == messages
    ensures (env.UserJoined? || env.UserInfo?) ==> |r.users| <= |users| + 1
  {
    match env
    case NewMessage(m) =>
      if IsForeign(local, m.userId) then Reaction(users, messages + [m], []) else Reaction(users, messages, [])
    case UserJoined(u) =>
      if IsForeign(local, u.id) then
        Reaction(Upsert(users, u), messages, if path == Bus || local.Some? then [UserInfo(local)] else [])
      else Reaction(users, messages, [])
    case UserInfo(info) =>
      if info.Some? && IsForeign(local, info.value.id) then Reaction(Upsert(users, info.value), messages, [])
      else Reaction(users, messages, [])
    case UserLeft(id) =>
      Reaction(RemoveId(users, id), messages, [])
    case RequestUsers(id) =>
      Reaction(users, messages, if IsForeign(local, id) && (path == Bus || local.Some?) then [UserInfo(local)] else [])
    case Unrecognised(_) =>
      Reaction(users, messages, [])
  }

  /** The member record a USER_JOINED or USER_INFO announces, if any. */
  function Announced(env: Envelope): Option<User> {
    match env
    case UserJoined(u) => Some(u)
    case UserInfo(info) => info
    case _ => None
  }

  /** Every dispatcher step keeps member ids pairwise distinct. */
  lemma ReactKeepsUniqueIds(path: Path, local: Option<User>, users: seq<User>, messages: seq<Message>, env: Envelope)
    requires UniqueIds(users)
    ensures UniqueIds(React(path, local, users, messages, env).users)
  {
    match env
    case UserJoined(u) => UpsertKeepsUniqueIds(users, u);
    case UserInfo(info) => if info.Some? { UpsertKeepsUniqueIds(users, info.value); }
    case UserLeft(id) => RemoveIdKeepsUniqueIds(users, id);
    case _ =>
  }

  /**
   * A foreign USER_JOINED or USER_INFO ends with the payload as the last member,
   * no other record with its id, and every other member in its old order.
   */
  lemma ReactUpsertsForeign(path: Path, local: Option<User>, users: seq<User>, messages: seq<Message>, env: Envelope)
    requires Announced(env).Some? && IsForeign(local, Announced(env).value.id)
    ensures var r := React(path, local, users, messages, env); var u := Announced(env).value;
      && |r.users| > 0 && r.users[|r.users| - 1] == u
      && (forall i :: 0 <= i < |r.users| - 1 ==> r.users[i].id != u.id)
      && RemoveId(r.users, u.id) == RemoveId(users, u.id)
  {
    UpsertLeavesOthers(users, Announced(env).value);
  }

  /** A USER_JOINED or USER_INFO carrying the local user's own id leaves the member list alone. */
  lemma ReactIgnoresOwnAnnounce(path: Path, local: Option<User>, users: seq<User>, messages: seq<Message>, env: Envelope)
    requires Announced(env).Some? && local.Some? && Announced(env).value.id == local.value.id
    ensures React(path, local, users, messages, env).users == users
  {
  }

  /**
   * USER_LEFT removes every record with that id, even the local user's own;
   * an id nobody has is a no-op.
   */
  lemma ReactUserLeft(path: Path, local: Option<User>, users: seq<User>, messages: seq<Message>, id: string)
    ensures var r := React(path, local, users, messages, UserLeft(id));
      && !HasId(r.users, id)
      && (forall u :: u in r.users <==> u in users && u.id != id)
      && r.messages == messages && r.replies == []
      && (!HasId(users, id) ==> r.users == users)
  {
    if !HasId(users, id) {
      RemoveIdAbsent(users, id);
    }
  }

  /** Apart from USER_LEFT, no envelope removes or replaces a record carrying the local user's id. */
  lemma ReactKeepsSelf(path: Path, me: User, users: seq<User>, messages: seq<Message>, env: Envelope)
    requires !env.UserLeft?
    ensures forall u :: u in users && u.id == me.id ==> u in React(path, Some(me), users, messages, env).users
  {
  }

  /** The two dispatchers differ only when there is no local user and a foreign USER_JOINED or REQUEST_USERS arrives. */
  lemma PathsDiffer(local: Option<User>, users: seq<User>, messages: seq<Message>, env: Envelope)
    ensures React(Peer, local, users, messages, env) != React(Bus, local, users, messages, env)
        <==> local.None? && (env.UserJoined? || env.RequestUsers?)
  {
  }

  /** A run of envelopes on one path, the replies concatenated in order. */
  function ReactAll(path: Path, local: Option<User>, users: seq<User>, messages: seq<Message>, envs: seq<Envelope>): (r: Reaction)
    decreases |envs|
  {
    if envs == [] then Reaction(users, messages, [])
    else
      var first := React(path, local, users, messages, envs[0]);
      var rest := ReactAll(path, local, first.users, first.messages, envs[1..]);
      Reaction(rest.users, rest.messages, first.replies + rest.replies)
  }

  /** Member ids stay pairwise distinct along any run of envelopes. */
  lemma {:induction false} ReactAllKeepsUniqueIds(path: Path, local: Option<User>, users: seq<User>, messages: seq<Message>, envs: seq<Envelope>)
    requires UniqueIds(users)
    ensures UniqueIds(ReactAll(path, local, users, messages, envs).users)
    decreases |envs|
  {
    if envs != [] {
      var first := React(path, local, users, messages, envs[0]);
      ReactKeepsUniqueIds(path, local, users, messages, envs[0]);
      ReactAllKeepsUniqueIds(path, local, first.users, first.messages, envs[1..]);
    }
  }

  /** Messages are only ever appended: the old list stays a prefix. */
  lemma {:induction false} MessagesOnlyGrow(path: Path, local: Option<User>, users: seq<User>, messages: seq<Message>, envs: seq<Envelope>)
    ensures var r := ReactAll(path, local, users, messages, envs);
      |messages| <= |r.messages| && r.messages[..|messages|] == messages
    decreases |envs|
  {
    if envs != [] {
      var first := React(path, local, users, messages, envs[0]);
      MessagesOnlyGrow(path, local, first.users, first.messages, envs[1..]);
      var r := ReactAll(path, local, first.users, first.messages, envs[1..]);
      assert r.messages[..|messages|] == r.messages[..|first.messages|][..|messages|];
    }
  }

  /** A run without NEW_MESSAGE leaves the message list exactly as it was. */
  lemma {:induction false} PresenceKeepsMessages(path: Path, local: Option<User>, users: seq<User>, messages: seq<Message>, envs: seq<Envelope>)
    requires forall k :: 0 <= k < |envs| ==> !envs[k].NewMessage?
    ensures ReactAll(path, local, users, messages, envs).messages == messages
    decreases |envs|
  {
    if envs != [] {
      var first := React(path, local, users, messages, envs[0]);
      PresenceKeepsMessages(path, local, first.users, first.messages, envs[1..]);
    }
  }

  /** Every reply either dispatcher sends carries the local user (or null for it). */
  lemma {:induction false} RepliesCarryLocal(path: Path, local: Option<User>, users: seq<User>, messages: seq<Message>, envs: seq<Envelope>)
    ensures var r := ReactAll(path, local, users, messages, envs);
      |r.replies| <= |envs| && forall k :: 0 <= k < |r.replies| ==> r.replies[k] == UserInfo(local)
    decreases |envs|
  {
    if envs != [] {
      var first := React(path, local, users, messages, envs[0]);
      RepliesCarryLocal(path, local, first.users, first.messages, envs[1..]);
    }
  }

  /** An id that is absent stays absent until some envelope announces it again. */
  lemma {:induction false} AbsentStaysAbsent(path: Path, local: Option<User>, users: seq<User>, messages: seq<Message>, envs: seq<Envelope>, id: string)
    requires !HasId(users, id)
    requires forall k :: 0 <= k < |envs| ==> Announced(envs[k]).None? || Announced(envs[k]).value.id != id
    ensures !HasId(ReactAll(path, local, users, messages, envs).users, id)
    decreases |envs|
  {
    if envs != [] {
      var first := React(path, local, users, messages, envs[0]);
      assert !HasId(first.users, id) by {
        forall u | u in first.users ensures u.id != id {
          assert u in users || Some(u) == Announced(envs[0]);
        }
      }
      AbsentStaysAbsent(path, local, first.users, first.messages, envs[1..], id);
    }
  }

  /**
   * USER_LEFT for `id` followed by any run that does not announce `id` again
   * never brings `id` back; a foreign announcement of `id` does.
   */
  lemma LeaveIsSticky(path: Path, local: Option<User>, users: seq<User>, messages: seq<Message>, id: string, envs: seq<Envelope>)
    requires forall k :: 0 <= k < |envs| ==> Announced(envs[k]).None? || Announced(envs[k]).value.id != id
    ensures !HasId(ReactAll(path, local, users, messages, [UserLeft(id)] + envs).users, id)
  {
    var first := React(path, local, users, messages, UserLeft(id));
    assert ([UserLeft(id)] + envs)[1..] == envs;
    AbsentStaysAbsent(path, local, first.users, first.messages, envs, id);
  }

  lemma AnnounceReadds(path: Path, local: Option<User>, users: seq<User>, messages: seq<Message>, u: User)
    requires IsForeign(local, u.id)
    ensures u in ReactAll(path, local, users, messages, [UserLeft(u.id), UserInfo(Some(u))]).users
  {
    var envs := [UserLeft(u.id), UserInfo(Some(u))];
    var afterLeave := React(path, local, users, messages, envs[0]);
    var afterInfo := React(path, local, afterLeave.users, afterLeave.messages, envs[1]);
    assert envs[1..] == [UserInfo(Some(u))];
    assert ReactAll(path, local, afterLeave.users, afterLeave.messages, envs[1..]).users == afterInfo.users;
    assert u in afterInfo.users;
  }

  /** The local user's own record survives every run that holds no USER_LEFT for its id. */
  lemma {:induction false} SelfSurvives(path: Path, me: User, users: seq<User>, messages: seq<Message>, envs: seq<Envelope>)
    requires me in users
    requires forall k :: 0 <= k < |envs| ==> envs[k] != UserLeft(me.id)
    ensures me in ReactAll(path, Some(me), users, messages, envs).users
    decreases |envs|
  {
    if envs != [] {
      var first := React(path, Some(me), users, messages, envs[0]);
      if envs[0].UserLeft? {
        assert envs[0].leftId != me.id;
      } else {
        ReactKeepsSelf(path, me, users, messages, envs[0]);
      }
      SelfSurvives(path, me, first.users, first.messages, envs[1..]);
    }
  }

  /**
   * There is no deduplication by message id: a foreign message that reaches a
   * session once over each transport is appended twice.
   */
  lemma NoDedupAcrossTransports(local: Option<User>, users: seq<User>, messages: seq<Message>, m: Message)
    requires IsForeign(local, m.userId)
    ensures var viaPeer := React(Peer, local, users, messages, NewMessage(m));
      React(Bus, local, viaPeer.users, viaPeer.messages, NewMessage(m)).messages == messages + [m, m]
  {
  }
}
