# Chat room presence and message router, in Dafny

This project models the serverless browser chat's room session: the state the
chat context provider holds (local user, room id, member list, message list,
connection flag, signalling string, open broadcast channel), the operations it
offers (create, join, connect with signalling data, send, leave), and the two
envelope dispatchers that turn incoming `{type, payload}` envelopes into
updates of that state and into replies. It also models the standalone
broadcast-channel dispatcher and the per-room store of signalling strings.

- `chat_types.dfy` (module `ChatTypes`): `User`, `Message`, and `Envelope`,
  a tagged union with one constructor per envelope type the dispatchers know
  (`NEW_MESSAGE`, `USER_JOINED`, `USER_INFO`, `USER_LEFT`, `REQUEST_USERS`)
  and `Unrecognised` for any other type, such as `HEARTBEAT`.
- `presence.dfy` (module `Presence`): the list updaters as pure functions:
  filter by id (`RemoveId`) and filter-then-append (`Upsert`). `React` is one
  step of either dispatcher, with `Path` choosing peer or bus. `ReactAll` runs
  a sequence of envelopes. The lemmas cover the member-list invariant (ids
  pairwise distinct), order preservation, stickiness of a leave, survival of
  the local user's own record, and that messages only grow.
- `chat_context.dfy` (module `ChatContext`): class `ChatProvider` with the
  session fields and two outboxes. `peerOut` records every `sendPeerMessage`
  call. `busOut` records every `postMessage` on a broadcast channel. Each
  method updates the fields step by step. Its postcondition ties the new
  state to the old one, the handlers through `React`.
- `broadcast_channel.dfy` (module `BroadcastChannel`): the standalone
  dispatcher as a function from (local user, envelope) to the ordered list of
  callbacks and posts it performs. A lemma proves that, wired to the chat
  context's list updaters, it behaves exactly like the peer-path dispatcher.
- `chat_service.dfy` (module `ChatService`): the signalling store as a class
  over a `map<string, string>`, with the `data || null` read.
- `scenarios.dfy` (module `Scenarios`): two tabs of one browser meeting over
  the broadcast bus and exchanging a message.

The random and time-dependent inputs are parameters: new room, user and
message ids, the colour (an index into the ten-colour palette), and the
timestamp. Each handler takes the local user it sees as an explicit parameter.
A handler call together with its state updates is one atomic step.

Where the design description and the code disagree, the model follows the code:

- The member list starts as `[newUser]` (`src/context/ChatContext.tsx:129`,
  `:160`), so a member does see itself in its own member list.
- A foreign `USER_JOINED` is upserted and answered even when the id is
  already known. The answer goes out at once, with no randomized delay
  (`src/context/ChatContext.tsx:80-92`).
- An envelope of any other type, heartbeats included, is ignored by every
  dispatcher. The switches have no default case.
- `sendMessage` always hands the message to the peer layer. It posts on the
  bus only when a channel is open (`src/context/ChatContext.tsx:244-255`).

## Model

| member | source | states |
|---|---|---|
| `Presence.RemoveId` | src/context/ChatContext.tsx:101 | the filter keeps exactly the records whose id differs, never grows the list, and leaves no record with that id |
| `Presence.Upsert` | src/context/ChatContext.tsx:82 | the payload ends up last and is the only record with its id; every other record was there before and does not carry the payload's id |
| `Presence.RemoveIdAbsent` | src/context/ChatContext.tsx:101 | removing an id nobody has returns the list unchanged |
| `Presence.RemoveIdConcat` | src/context/ChatContext.tsx:101 | filtering distributes over concatenation, so the records that remain keep their relative order |
| `Presence.RemoveIdKeepsUniqueIds` | src/context/ChatContext.tsx:101 | filtering preserves pairwise-distinct ids |
| `Presence.UpsertKeepsUniqueIds` | src/context/ChatContext.tsx:82 | filter-then-append preserves pairwise-distinct ids |
| `Presence.UpsertLeavesOthers` | src/context/ChatContext.tsx:96 | with the upserted id filtered out, the list equals the old list with that id filtered out, so the other members keep their records and order |
| `Presence.React` | src/context/ChatContext.tsx:69-113 | one dispatcher step. It replies with exactly one `USER_INFO` carrying the local user when a foreign `USER_JOINED`/`REQUEST_USERS` arrives and the path allows it, and otherwise sends nothing. Only `NEW_MESSAGE` touches messages, and it never touches users. A foreign message is appended last with the earlier messages unchanged; an own message changes nothing |
| `Presence.ReactKeepsUniqueIds` | src/context/ChatContext.tsx:80-102 | every dispatcher step keeps member ids pairwise distinct |
| `Presence.ReactUpsertsForeign` | src/context/ChatContext.tsx:80-98 | a foreign `USER_JOINED`/`USER_INFO` leaves the payload last and alone with its id, and the other members unchanged and in order |
| `Presence.ReactIgnoresOwnAnnounce` | src/context/ChatContext.tsx:273-289 | a `USER_JOINED`/`USER_INFO` carrying the local user's own id leaves the member list unchanged |
| `Presence.ReactUserLeft` | src/context/ChatContext.tsx:291-293 | `USER_LEFT` removes every record with that id, the local user's included, and keeps all others. An unknown id is a no-op. Messages are untouched and there is no reply |
| `Presence.ReactKeepsSelf` | src/context/ChatContext.tsx:80-111 | no envelope other than `USER_LEFT` removes or replaces a record carrying the local user's id |
| `Presence.PathsDiffer` | src/context/ChatContext.tsx:273-301 | the peer and bus dispatchers give different results exactly when there is no local user and a `USER_JOINED` or `REQUEST_USERS` arrives |
| `Presence.ReactAllKeepsUniqueIds` | src/context/ChatContext.tsx:69-113 | member ids stay pairwise distinct along any run of envelopes |
| `Presence.MessagesOnlyGrow` | src/context/ChatContext.tsx:266-271 | along any run the old message list stays a prefix of the new one |
| `Presence.PresenceKeepsMessages` | src/context/ChatContext.tsx:80-111 | a run without `NEW_MESSAGE` leaves the message list exactly as it was |
| `Presence.RepliesCarryLocal` | src/context/ChatContext.tsx:104-111 | a run produces at most one reply per envelope, and every reply is `USER_INFO` carrying the local user |
| `Presence.AbsentStaysAbsent` | src/context/ChatContext.tsx:285-293 | an absent id stays absent along any run that does not announce it |
| `Presence.LeaveIsSticky` | src/context/ChatContext.tsx:100-102 | after `USER_LEFT` for an id, no run without an announcement of that id brings it back |
| `Presence.AnnounceReadds` | src/context/ChatContext.tsx:94-98 | a foreign `USER_INFO` right after that user's `USER_LEFT` puts the user back |
| `Presence.SelfSurvives` | src/context/ChatContext.tsx:80-111 | the local user's own record survives every run with no `USER_LEFT` for its id |
| `Presence.NoDedupAcrossTransports` | src/context/ChatContext.tsx:266-271 | a foreign message that arrives once over each transport is appended twice; there is no deduplication by message id |
| `ChatContext.ChatProvider.constructor` | src/context/ChatContext.tsx:58-66 | the initial session: no user, room, members, messages, signalling data or channel, and not connected |
| `ChatContext.ChatProvider.CreateRoom` | src/context/ChatContext.tsx:116-146 | the new user, with a palette colour, is the local user and the only member. The channel `chat-room-<id>` is open and the session is connected. The stored signalling string is taken only when the store has a non-empty one. Messages, outboxes and invariant are kept; the new room id is returned |
| `ChatContext.ChatProvider.JoinRoom` | src/context/ChatContext.tsx:149-179 | the new user is the local user and the only member. `USER_JOINED` and then `REQUEST_USERS` are posted on the room's channel in that order, and the session is connected |
| `ChatContext.ChatProvider.ConnectWithSignalingData` | src/context/ChatContext.tsx:182-202 | nothing happens without a user or without a non-empty room id. Otherwise, unless joining the peer throws, `USER_JOINED` and then `REQUEST_USERS` go to the peer path. All other state is unchanged |
| `ChatContext.ChatProvider.LeaveRoom` | src/context/ChatContext.tsx:205-225 | `USER_LEFT` with the local id is posted only when a channel and a user both exist. Then user, room, channel and signalling data are null, both lists are empty, and the session is disconnected |
| `ChatContext.ChatProvider.SendMessage` | src/context/ChatContext.tsx:228-256 | outside a room nothing changes. Otherwise exactly one message with the local user's id, name and colour is appended. It is sent as `NEW_MESSAGE` on the peer path, and on the bus only when a channel is open |
| `ChatContext.ChatProvider.HandlePeerMessage` | src/context/ChatContext.tsx:69-113 | members and messages become what the peer-path `React` gives. Its replies go to the peer outbox under the local id. Nothing else changes, and ids stay distinct |
| `ChatContext.ChatProvider.HandleBusMessage` | src/context/ChatContext.tsx:262-304 | members and messages become what the bus-path `React` gives. Its replies, null payload included, are posted on the open channel. Nothing else changes, and ids stay distinct |
| `BroadcastChannel.HandleMessage` | src/utils/broadcastChannel.ts:16-60 | at most one callback and at most one post, callback first. A post only answers with the non-null local user. `onNewMessage` is called exactly for foreign messages. A foreign `USER_JOINED` calls `onUserJoined` and posts only with a local user. A foreign `USER_INFO` only calls `onUserJoined`. `USER_LEFT` always calls `onUserLeft`. `REQUEST_USERS` only posts, and only for a foreign requester with a local user. Unknown types do nothing |
| `BroadcastChannel.SendBroadcastMessage` | src/utils/broadcastChannel.ts:75-79 | exactly one post of the given envelope when the channel is present, none otherwise |
| `BroadcastChannel.HandleMessageMatchesPeerPath` | src/utils/broadcastChannel.ts:16-60 | with its callbacks wired to the list updaters, the standalone dispatcher produces exactly the members, messages and replies of the chat context's peer-path dispatcher |
| `BroadcastChannel.HandleMessageVersusBusPath` | src/utils/broadcastChannel.ts:27-58 | it agrees with the chat context's bus-path dispatcher except when there is no local user and a `USER_JOINED` or `REQUEST_USERS` arrives |
| `BroadcastChannel.SendThenReceive` | src/utils/broadcastChannel.ts:20-25 | a message posted by `sendBroadcastMessage` reaches the `onNewMessage` of a tab with a different user exactly once |
| `ChatService.Lookup` | src/utils/chatService.ts:45-53 | a room reads back its stored string when that string is non-empty, and null when nothing or the empty string is stored |
| `ChatService.SignalingStore.constructor` | src/utils/chatService.ts:11 | the store starts empty |
| `ChatService.SignalingStore.StoreSignalingData` | src/utils/chatService.ts:35-42 | the room's entry is set to the data and the room then reads back that data, or null if it is empty. Every other room reads as before |
| `ChatService.SignalingStore.GetSignalingData` | src/utils/chatService.ts:45-53 | returns the stored string exactly when it is present and non-empty, without changing the store |
| `ChatService.StoreThenGet` | src/utils/chatService.ts:35-53 | storing a non-empty string and reading the room back returns it |
| `ChatService.NeverStoredIsNull` | src/utils/chatService.ts:45-52 | a room never stored reads as null |
| `ChatService.EmptyStoredIsNull` | src/utils/chatService.ts:52 | a stored empty string reads as null |
| `ChatService.LastWriteWins` | src/utils/chatService.ts:37 | a second store for the same room overwrites the first |
| `Scenarios.Handshake` | src/context/ChatContext.tsx:262-304 | B's `USER_JOINED` and `REQUEST_USERS` reach A and A's two `USER_INFO` answers reach B. Then A lists `[A, B]` and B lists `[B, A]`, with no messages changed |
| `Scenarios.SameDeviceRoom` | src/context/ChatContext.tsx:116-304 | A creates a room and B joins it over the bus only. After one announce/reply round trip each tab lists both members. A's message appears exactly once in both tabs |

## Left out

- The peer-connection layer (`initializePeer`, `joinPeer`, `sendPeerMessage`,
  `closeAllPeers`) is not part of this model. No source for it is available.
  A peer send is an entry in the peer outbox. Whether `joinPeer` throws is a
  parameter. Negotiation, connection states, retries and timers are not
  modelled, and neither is the peer-connection scenario.
- The random sources (`nanoid`, `Math.random`, `Date.now`) are parameters.
- `checkWebRTCSupport` probes the host's capabilities and is not modelled.
- The `BroadcastChannel` object is not modelled. That covers listener
  registration and removal, `close`, and delivery between tabs, which the
  scenario performs by hand. React's render scheduling and state batching are
  not modelled either. The closure a handler captures is not modelled: the
  local user is an explicit parameter.
- Console logging and the `try/catch` around a map write that cannot throw are
  left out.
- Envelope payloads are typed per envelope type. A payload of the wrong shape
  (a `USER_JOINED` carrying a message, say) is not modelled. A `USER_INFO`
  with a null payload is modelled. Reading `payload.id` on it throws before
  any state change or callback, so it has no effect.
- `connectionStatus` is declared in the shared types but never implemented,
  so it is not modelled.
- The usePeerConnection hook, the UI components, input trimming, clipboard
  use and time formatting are not modelled.
