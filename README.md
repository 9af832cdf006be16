# Forum socket server: presence, chat history and notification fan-out

A Dafny model of the socket.io server of a discussion forum (`index.js`). The
server keeps a live count of signed-in users and anonymous connections, serves
paged chat history to the group namespaces `/group1`, `/group2` and `/group3`,
stores and broadcasts chat messages, forwards comment notifications to the rooms
of a post's followers, forwards reports to the rooms of all administrators, and
relays room joins and post events.

Modules:

- `Wrappers` (`wrappers.dfy`): `Option`, and `Store`, the outcome of a database
  call (its records, or `Unreachable` when the query throws).
- `Presence` (`presence.dfy`): class `PresenceTracker` with the two sets
  `loggedUsers` and `anonymousUsers` and the global broadcasts. The methods
  `Connect` and `Disconnect` are tied to the pure transitions `AfterConnect` and
  `AfterDisconnect`, whose properties are lemmas. A handshake counts as signed in
  when `userId` is present and non-empty, as JavaScript truthiness decides.
- `ChatHistory` (`chat_history.dfy`): the `Message` record and the history
  query as functions: group filter, sort by timestamp descending, skip and limit.
- `ChatServer` (`chat_server.dfy`): class `Server` holding the stored messages,
  the sockets whose `sendMessage` handler is registered, and the emissions.
- `Rooms` (`rooms.dfy`): the `join`/`joinRoom`/`leave`/`leaveRoom` requests and
  the verbatim `newReply`/`newComment` relays.
- `Notifications` (`notifications.dfy`): the `newCommentNotification` and
  `newReport` loops as methods, proved equal to the fan-out functions, with
  lemmas about those functions.

Inputs the code receives from outside become parameters:
- the handshake (socket id and `userId` query value);
- the requested `page`;
- the message timestamp (the schema's `Date.now` default, applied when the message is constructed at index.js:48);
- whether a save or a history query succeeds;
- the post collection, as `Store<map<string, Post>>`;
- the user collection, as `Store<seq<User>>`.

Emissions are recorded as entries appended to an outbox.

Behaviour one might expect of such a server, and what `index.js` does instead:

- One might expect a comment notification to skip the commenter, de-duplicate
  recipients and word the message per role (post author, comment author,
  follower). The code (index.js:162-166) forwards the received payload,
  unchanged, once per entry of the post's `followers`. Duplicate entries get
  duplicate notifications and a commenter who follows the post is notified.
  `Notifications.FollowerNotificationCounts` states this.
- One might expect no id to be both signed-in and anonymous. The code keeps
  user ids in one set and socket ids in the other and never compares them, so
  no disjointness invariant is claimed.
- One might expect every disconnect to lower exactly one count by one. The code
  does so only when the chosen id is recorded. Two connections of one user
  share one entry, so the user shows as gone while another of their
  connections is still open (`Presence.OneDisconnectRemovesSharedUser`).
- One might expect a separate history query with its own page size. `index.js`
  has none: its only history query is the one made on namespace connection,
  with page size 10.

## Model

| member | source | states |
|---|---|---|
| `Presence.PresenceTracker.constructor` | index.js:13-14 | both presence sets start empty, and nothing has been broadcast |
| `Presence.PresenceTracker.Connect` | index.js:90-109 | the new sets are `AfterConnect` of the old ones; exactly one broadcast is appended (`userConnected` or `anonymousUserConnected`), and it carries the two set sizes after the change |
| `Presence.PresenceTracker.Disconnect` | index.js:180-198 | the new sets are `AfterDisconnect` of the old ones; one broadcast (`userDisconnected` or `anonymousUserDisconnected`) carries the sizes after the change |
| `Presence.ConnectAuthenticatedFrame` | index.js:90-95 | a signed-in connect puts its user id in `loggedUsers` and its socket id out of `anonymousUsers`; every other element of either set keeps its membership |
| `Presence.ConnectAnonymousFrame` | index.js:101-103 | an anonymous connect puts its socket id in `anonymousUsers`, leaves `loggedUsers` equal, and changes no other anonymous entry |
| `Presence.DisconnectFrame` | index.js:183-192 | a disconnect removes only the id chosen by the connect-time handshake test: every other element of that set keeps its membership, and the other set stays equal |
| `Presence.DisconnectCounts` | index.js:183-196 | if the chosen id was recorded, exactly that count drops by one and the other stays; otherwise the state is unchanged |
| `Presence.ReconnectSameUser` | index.js:90-93 | a second connect with the same user id leaves `loggedUsers` and its size as the first connect left them |
| `Presence.OneDisconnectRemovesSharedUser` | index.js:183-185 | after two connects with one user id, a disconnect of either connection removes that user |
| `Presence.AnonymousRoundTrip` | index.js:101-103 | an anonymous connect then its disconnect restores the state when the socket id was not recorded |
| `Presence.AuthenticatedRoundTrip` | index.js:90-95 | a signed-in connect then its disconnect restores the state exactly when the socket id was not in `anonymousUsers`; otherwise the defensive removal stays |
| `Presence.ConnectAllMembers` | index.js:90-103 | from empty sets, after a run of connects on distinct sockets, the recorded ids are exactly the user ids of signed-in handshakes and the socket ids of anonymous ones |
| `Presence.ConnectAllCounts` | index.js:97-108 | N signed-in connects with distinct user ids and M anonymous connects, all on distinct sockets, yield counts N and M |
| `ChatHistory.GroupMessages` | index.js:72 | the filtered messages all belong to the requested group, and there are no more than were stored |
| `ChatHistory.GroupMessagesCount` | index.js:72 | each message of the group occurs as often as in the store; messages of other groups do not occur |
| `ChatHistory.GroupMessagesAppend` | index.js:46-51 | saving a message appends it to its own group's messages and changes no other group's |
| `ChatHistory.SortByTimestampDesc` | index.js:73 | the result is a permutation of the input, with non-increasing timestamps |
| `ChatHistory.RecentMessages` | index.js:66-76 | a history page has at most 10 messages, all of the requested group, with non-increasing timestamps, none taken more often than stored |
| `ChatHistory.PageBounds` | index.js:68-75 | page p has `min(size, n - (p-1)*size)` elements (0 past the end), and its element i is element `(p-1)*size + i` of the ordered result |
| `ChatHistory.RecentMessagesPositions` | index.js:67-76 | history page p has exactly `min(10, n - (p-1)*10)` messages (0 past the end), and its element i is element `(p-1)*10 + i` of the group's n messages in descending timestamp order |
| `ChatHistory.ConsecutivePages` | index.js:69-75 | pages p and p+1 together are the contiguous slice starting at `(p-1)*size`; they do not overlap |
| `ChatHistory.PagesMerge` | index.js:68-75 | pages 2p-1 and 2p of size k, concatenated, equal page p of size 2k |
| `ChatHistory.PagesDisjoint` | index.js:67-76 | history pages p and p+1 together take no message of the group more often than it is stored |
| `ChatHistory.OtherGroupUnaffected` | index.js:46-52 | a message saved to another group leaves every history page of this group unchanged |
| `ChatHistory.NewestMessageFirst` | index.js:72-75 | a saved message newer than all of its group's messages heads page 1 afterwards |
| `ChatServer.Server.constructor` | index.js:34-41 | the server starts with the given stored messages, of any groups, no registered sockets and no emissions |
| `ChatServer.Server.Connect` | index.js:66-83 | a successful history query sends the socket history page `page` and registers its `sendMessage` handler; a failed query emits nothing and registers nothing; messages never change |
| `ChatServer.Server.SendMessage` | index.js:46-56 | for a registered socket, a successful save appends a message with the namespace's group and the payload's user and text, then broadcasts it to `/<group>`, and that group is a configured one; a failed save or an unregistered socket changes neither the store nor the outbox |
| `Rooms.SharedRoomNames` | index.js:111-117 | `join{username: x}` and `joinRoom{roomId: x}` join the same room, so that socket also receives relays for post x |
| `Rooms.RelayReachesJoinedSockets` | index.js:118-131 | a relayed `newReply`/`newComment` keeps its event name and payload; it reaches a socket after `joinRoom` for the post and not after `leaveRoom`; leaving touches no other room |
| `Rooms.JoinLeaveIdempotent` | index.js:174-179 | for `Rooms.Apply`, the stand-in for the transport's room membership that the join and leave handlers call on: joining twice is joining once, leaving twice is leaving once, and join then leave of a new room restores the room set |
| `Notifications.FanOut` | index.js:164-166 | one emission per room, in order, with the same event and payload |
| `Notifications.NotifyFollowers` | index.js:147-172 | the loop's outbox equals `FollowerNotifications`: nothing if the lookup fails or the post is missing, otherwise the follower fan-out |
| `Notifications.FollowerNotificationsSpec` | index.js:155-166 | missing post or failed lookup: no emissions; otherwise the recipients are exactly `followers` in order, each emission is a `newCommentNotification` with the payload unchanged |
| `Notifications.FollowerNotificationCounts` | index.js:162-166 | each user receives as many notifications as their entries in `followers`, and receives one iff they follow the post |
| `Notifications.AdminUsernames` | index.js:135-137 | the administrator usernames contain no duplicates and are exactly the usernames of user records with `isAdmin` |
| `Notifications.NotifyAdmins` | index.js:133-145 | the loop's outbox equals `ReportNotifications`: nothing if the user query fails, otherwise one `newReport` per administrator username |
| `Notifications.ReportOncePerAdmin` | index.js:135-141 | every distinct administrator username receives exactly one report and nobody else receives any; each report is `newReport` carrying `{newCommentNotification}` as received; a failed query sends nothing |

## Left out

- HTTP server, CORS settings, environment loading, `server.listen` (index.js:1-22, 201-205): process set-up with no logic of its own.
- The MongoDB connection and schemas (index.js:24-41): the stores are in-memory values. A query's success or failure is an input.
- socket.io mechanics (namespaces, `socket.join`/`leave`, delivery to room members): emissions are outbox entries. `Rooms.Apply` states only the join and leave semantics the handlers rely on.
- Concurrency: each handler is one atomic step. Handlers that interleave across their `await` points are not modelled.
- Coercion of the `page` query string to a number (index.js:67-69): `page` is a natural number of at least 1. A page of 0, a negative page or a non-numeric page is not modelled.
- `Date.now` as the default timestamp (index.js:38): the timestamp is a parameter.
- The order of messages with equal timestamps, which the store leaves unspecified: `SortByTimestampDesc` keeps store order. `RecentMessages` and `NewestMessageFirst` hold for any tie order. `ConsecutivePages`, `PagesMerge` and `PagesDisjoint` compare pages cut from one and the same order. Pages 1 and 2 come from two separate queries (index.js:72-75), and the store may break ties differently in each. Two pages of the same group can then share a message when timestamps tie.
- The order of `distinct("username")` results, which the store leaves unspecified: `AdminUsernames` uses first-occurrence order.
- A post's `followers` field being absent (the `?.` at index.js:162-164): the schema in postSchema.js:18-20 always gives an array, so `Post.followers` is a sequence.
- Notifications.NotifyFollowers, Notifications.NotifyAdmins, ChatServer.Server.SendMessage: an event sent without its payload object is not modelled. The payload is destructured before any `try` (index.js:47, 133, 150-152), so such an event throws outside the handler's `catch`. The async handler's promise then rejects unhandled, and by default Node ends the process. The join and leave handlers (index.js:111-117, 174-179) throw the same way. The model types every payload as a complete record, so this crash path does not appear.
- The namespace `disconnect` handler (index.js:58-60): it only logs.
- Logging with `console.log`/`console.error` throughout.
- userSchema.js is not part of this model: the administrator query reads only `username` and `isAdmin` of each user record.
- indexx.js is not part of this model: it is a separate server that rebroadcasts `newComment` to every client.
