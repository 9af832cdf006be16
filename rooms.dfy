/**
 * The room handlers of the main namespace (index.js): `joinRoom`/`join` and
 * `leaveRoom`/`leave` ask the transport to add the socket to, or drop it from,
 * a named room, and `newReply`/`newComment` are re-emitted verbatim to the
 * room named by the payload's post id.
 */
module Rooms {

  /** One `io.to(room).emit(event, payload)`. */
  datatype Emission<P> = Emission(room: string, event: string, payload: P)

  /** A request the handlers make of the transport for the calling socket. */
  datatype RoomRequest = Join(room: string) | Leave(room: string)

  /** A client event that carries a post id, such as the payload of `newReply` and `newComment`. */
  datatype PostEvent<P> = PostEvent(postID: string, content: P)

  /** The two relayed events. */
  datatype RelayKind = NewReply | NewComment

  function EventName(k: RelayKind): string {
    match k
    case NewReply => "newReply"
    case NewComment => "newComment"
  }

  /** `joinRoom({roomId})`. */
  function OnJoinRoom(roomId: string): RoomRequest {
    Join(roomId)
  }

  /** `join({username})`: the user's notification room is named by the bare username. */
  function OnJoinUser(username: string): RoomRequest {
    Join(username)
  }

  /** `leaveRoom({roomId})`. */
  function OnLeaveRoom(roomId: string): RoomRequest {
    Leave(roomId)
  }

  /** `leave({username})`. */
  function OnLeaveUser(username: string): RoomRequest {
    Leave(username)
  }

  /** `newReply` and `newComment`: the same event, the unchanged payload, to the post's room. */
  function Relay<P>(k: RelayKind, data: PostEvent<P>): Emission<PostEvent<P>> {
    Emission(data.postID, EventName(k), data)
  }

  /**
   * The socket's room set after the transport has served a request, with the
   * semantics the handlers rely on: joining adds the room, leaving removes it.
   */
  function Apply(rooms: set<string>, r: RoomRequest): set<string> {
    match r
    case Join(room) => rooms + {room}
    case Leave(room) => rooms - {room}
  }

  /** A socket receives an emission exactly when it is in the emission's room. */
  predicate Receives<P>(rooms: set<string>, e: Emission<P>) {
    e.room in rooms
  }

  /**
   * Room names share one namespace: `join({username: x})` and
   * `joinRoom({roomId: x})` put the socket in the same room, so a username
   * that equals a post id also receives that post's relayed events.
   */
  lemma SharedRoomNames<P>(rooms: set<string>, x: string, k: RelayKind, content: P)
    ensures Apply(rooms, OnJoinUser(x)) == Apply(rooms, OnJoinRoom(x))
    ensures Receives(Apply(rooms, OnJoinUser(x)), Relay(k, PostEvent(x, content)))
  {
  }

  /**
   * After `joinRoom` for a post a socket receives every relay for that post,
   * unchanged; after `leaveRoom` for it, none, and other rooms are untouched.
   */
  lemma RelayReachesJoinedSockets<P>(rooms: set<string>, data: PostEvent<P>, k: RelayKind, other: string)
    ensures Receives(Apply(rooms, OnJoinRoom(data.postID)), Relay(k, data))
    ensures Relay(k, data).payload == data && Relay(k, data).event == EventName(k)
    ensures !Receives(Apply(rooms, OnLeaveRoom(data.postID)), Relay(k, data))
    ensures other != data.postID ==>
      (other in Apply(rooms, OnLeaveRoom(data.postID)) <==> other in rooms)
  {
  }

  /** Joining twice is joining once; leaving a room twice is leaving it once. */
  lemma JoinLeaveIdempotent(rooms: set<string>, room: string)
    ensures Apply(Apply(rooms, Join(room)), Join(room)) == Apply(rooms, Join(room))
    ensures Apply(Apply(rooms, Leave(room)), Leave(room)) == Apply(rooms, Leave(room))
    ensures room !in rooms ==> Apply(Apply(rooms, Join(room)), Leave(room)) == rooms
  {
  }
}
