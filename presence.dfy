/**
 * The presence tracker of the main socket namespace (index.js): two sets,
 * one of the user ids presented in connection handshakes and one of the socket
 * ids of anonymous connections, updated on connect and disconnect, with the
 * two sizes broadcast to every client after each change.
 */
module Presence {
  import opened Wrappers

  /** The handshake data the handlers read: the socket id and the `userId` query value. */
  datatype Handshake = Handshake(socketId: string, userId: Option<string>)

  /**
   * The handlers test `socket.handshake.query.userId` for JavaScript truthiness:
   * a missing value and the empty string both select the anonymous branch.
   */
  predicate Authenticated(h: Handshake) {
    h.userId.Some? && h.userId.value != ""
  }

  /** The four presence events the server broadcasts. */
  datatype PresenceEvent =
    | UserConnected
    | AnonymousUserConnected
    | UserDisconnected
    | AnonymousUserDisconnected

  /** One global broadcast `{loggedInUsersCount, anonymousUsersCount}`. */
  datatype Broadcast = Broadcast(event: PresenceEvent, loggedInUsersCount: nat, anonymousUsersCount: nat)

  /** The abstract value of the tracker: `loggedUsers` and `anonymousUsers`. */
  datatype PresenceState = PresenceState(logged: set<string>, anonymous: set<string>)

  const Empty := PresenceState({}, {})

  /** The state after the connection handler has run for handshake `h`. */
  function AfterConnect(s: PresenceState, h: Handshake): PresenceState {
    if Authenticated(h) then
      PresenceState(s.logged + {h.userId.value}, s.anonymous - {h.socketId})
    else
      PresenceState(s.logged, s.anonymous + {h.socketId})
  }

  /**
   * The state after the disconnect handler has run. It decides which set to
   * touch by the same handshake test as the connection handler.
   */
  function AfterDisconnect(s: PresenceState, h: Handshake): PresenceState {
    if Authenticated(h) then
      PresenceState(s.logged - {h.userId.value}, s.anonymous)
    else
      PresenceState(s.logged, s.anonymous - {h.socketId})
  }

  /** The broadcast that reports state `s`: the two set sizes, nothing else. */
  function Report(event: PresenceEvent, s: PresenceState): Broadcast {
    Broadcast(event, |s.logged|, |s.anonymous|)
  }

  /** The module-level sets `loggedUsers` and `anonymousUsers`, with the global broadcasts as an outbox. */
  class PresenceTracker {
    var loggedUsers: set<string>
    var anonymousUsers: set<string>
    var broadcasts: seq<Broadcast>

    function State(): PresenceState
      reads this
    {
      PresenceState(loggedUsers, anonymousUsers)
    }

    /** Both sets start empty when the process starts. */
    constructor ()
      ensures State() == Empty && broadcasts == []
    {
      loggedUsers, anonymousUsers, broadcasts := {}, {}, [];
    }

    /** The `connection` handler's presence part. */
    method Connect(h: Handshake)
      modifies this
      ensures State() == AfterConnect(old(State()), h)
      ensures broadcasts == old(broadcasts) + [Report(if Authenticated(h) then UserConnected else AnonymousUserConnected, State())]
    {
      if Authenticated(h) {
        var userId := h.userId.value;
        loggedUsers := loggedUsers + {userId};
        anonymousUsers := anonymousUsers - {h.socketId};
        broadcasts := broadcasts + [Broadcast(UserConnected, |loggedUsers|, |anonymousUsers|)];
      } else {
        var anonymousUserId := h.socketId;
        anonymousUsers := anonymousUsers + {anonymousUserId};
        broadcasts := broadcasts + [Broadcast(AnonymousUserConnected, |loggedUsers|, |anonymousUsers|)];
      }
    }

    /** The `disconnect` handler, given the handshake of the closing socket. */
    method Disconnect(h: Handshake)
      modifies this
      ensures State() == AfterDisconnect(old(State()), h)
      ensures broadcasts == old(broadcasts) + [Report(if Authenticated(h) then UserDisconnected else AnonymousUserDisconnected, State())]
    {
      if Authenticated(h) {
        var userId := h.userId.value;
        loggedUsers := loggedUsers - {userId};
        broadcasts := broadcasts + [Broadcast(UserDisconnected, |loggedUsers|, |anonymousUsers|)];
      } else {
        var anonymousUserId := h.socketId;
        anonymousUsers := anonymousUsers - {anonymousUserId};
        broadcasts := broadcasts + [Broadcast(AnonymousUserDisconnected, |loggedUsers|, |anonymousUsers|)];
      }
    }
  }

  // ---------------------------------------------------------------------------
  // Properties of one connect or disconnect

  /** An authenticated connect adds its user id, drops its socket id, and changes no other element. */
  lemma ConnectAuthenticatedFrame(s: PresenceState, h: Handshake, x: string)
    requires Authenticated(h)
    ensures h.userId.value in AfterConnect(s, h).logged
    ensures h.socketId !in AfterConnect(s, h).anonymous
    ensures x != h.userId.value ==> (x in AfterConnect(s, h).logged <==> x in s.logged)
    ensures x != h.socketId ==> (x in AfterConnect(s, h).anonymous <==> x in s.anonymous)
  {
  }

  /** An anonymous connect adds its socket id and leaves `loggedUsers` as it was. */
  lemma ConnectAnonymousFrame(s: PresenceState, h: Handshake, x: string)
    requires !Authenticated(h)
    ensures h.socketId in AfterConnect(s, h).anonymous
    ensures AfterConnect(s, h).logged == s.logged
    ensures x != h.socketId ==> (x in AfterConnect(s, h).anonymous <==> x in s.anonymous)
  {
  }

  /**
   * A disconnect removes only the id chosen by the connect-time test: every
   * other element of that set keeps its membership, and the other set is as it was.
   */
  lemma DisconnectFrame(s: PresenceState, h: Handshake, x: string)
    ensures Authenticated(h) ==>
      AfterDisconnect(s, h).anonymous == s.anonymous && h.userId.value !in AfterDisconnect(s, h).logged
    ensures Authenticated(h) && x != h.userId.value ==>
      (x in AfterDisconnect(s, h).logged <==> x in s.logged)
    ensures !Authenticated(h) ==>
      AfterDisconnect(s, h).logged == s.logged && h.socketId !in AfterDisconnect(s, h).anonymous
    ensures !Authenticated(h) && x != h.socketId ==>
      (x in AfterDisconnect(s, h).anonymous <==> x in s.anonymous)
  {
  }

  /**
   * A disconnect changes the reported counts by exactly one, in exactly one of
   * the two counts, precisely when the chosen id was recorded; otherwise neither
   * count moves.
   */
  lemma DisconnectCounts(s: PresenceState, h: Handshake)
    ensures Authenticated(h) && h.userId.value in s.logged ==>
      |AfterDisconnect(s, h).logged| == |s.logged| - 1 && |AfterDisconnect(s, h).anonymous| == |s.anonymous|
    ensures !Authenticated(h) && h.socketId in s.anonymous ==>
      |AfterDisconnect(s, h).anonymous| == |s.anonymous| - 1 && |AfterDisconnect(s, h).logged| == |s.logged|
    ensures (if Authenticated(h) then h.userId.value !in s.logged else h.socketId !in s.anonymous) ==>
      AfterDisconnect(s, h) == s
  {
  }

  // ---------------------------------------------------------------------------
  // Set semantics: one user id, several connections

  /** Connecting a second time with the same user id leaves `loggedUsers` as the first connect left it. */
  lemma ReconnectSameUser(s: PresenceState, h1: Handshake, h2: Handshake)
    requires Authenticated(h1) && Authenticated(h2) && h1.userId == h2.userId
    ensures AfterConnect(AfterConnect(s, h1), h2).logged == AfterConnect(s, h1).logged
    ensures |AfterConnect(AfterConnect(s, h1), h2).logged| == |AfterConnect(s, h1).logged|
  {
  }

  /**
   * Two open connections of one user count once, and either one disconnecting
   * removes that user even though the other connection is still open.
   */
  lemma OneDisconnectRemovesSharedUser(s: PresenceState, h1: Handshake, h2: Handshake)
    requires Authenticated(h1) && Authenticated(h2) && h1.userId == h2.userId
    ensures h1.userId.value !in AfterDisconnect(AfterConnect(AfterConnect(s, h1), h2), h1).logged
    ensures h1.userId.value !in AfterDisconnect(AfterConnect(AfterConnect(s, h1), h2), h2).logged
  {
  }

  // ---------------------------------------------------------------------------
  // Round trips

  /** An anonymous connect followed by its disconnect restores the state, given a fresh socket id. */
  lemma AnonymousRoundTrip(s: PresenceState, h: Handshake)
    requires !Authenticated(h) && h.socketId !in s.anonymous
    ensures AfterDisconnect(AfterConnect(s, h), h) == s
  {
    assert s.anonymous + {h.socketId} - {h.socketId} == s.anonymous;
  }

  /**
   * An authenticated connect followed by its disconnect restores the state
   * when the user id was not yet recorded and the socket id was not in
   * `anonymousUsers`; if the socket id was there, the connect's defensive
   * removal is not undone.
   */
  lemma AuthenticatedRoundTrip(s: PresenceState, h: Handshake)
    requires Authenticated(h) && h.userId.value !in s.logged
    ensures h.socketId !in s.anonymous ==> AfterDisconnect(AfterConnect(s, h), h) == s
    ensures h.socketId in s.anonymous ==> AfterDisconnect(AfterConnect(s, h), h) != s
  {
    assert s.logged + {h.userId.value} - {h.userId.value} == s.logged;
    assert h.socketId in s.anonymous ==> h.socketId !in AfterDisconnect(AfterConnect(s, h), h).anonymous;
  }

  // ---------------------------------------------------------------------------
  // Many connections

  /** The state after the connection handler has run for each handshake in turn. */
  function ConnectAll(s: PresenceState, hs: seq<Handshake>): PresenceState
    decreases |hs|
  {
    if hs == [] then s else AfterConnect(ConnectAll(s, hs[..|hs| - 1]), hs[|hs| - 1])
  }

  /** The number of authenticated handshakes in `hs`. */
  function CountAuthenticated(hs: seq<Handshake>): (n: nat)
    ensures n <= |hs|
  {
    if hs == [] then 0
    else CountAuthenticated(hs[..|hs| - 1]) + (if Authenticated(hs[|hs| - 1]) then 1 else 0)
  }

  /** Every connection has its own socket id. */
  predicate DistinctSockets(hs: seq<Handshake>) {
    forall i, j :: 0 <= i < j < |hs| ==> hs[i].socketId != hs[j].socketId
  }

  /** No two authenticated handshakes present the same user id. */
  predicate DistinctUsers(hs: seq<Handshake>) {
    forall i, j :: 0 <= i < j < |hs| && Authenticated(hs[i]) && Authenticated(hs[j]) ==> hs[i].userId != hs[j].userId
  }

  /** From empty sets, the recorded ids are exactly those the handshakes presented. */
  lemma {:induction false} ConnectAllMembers(hs: seq<Handshake>, x: string)
    requires DistinctSockets(hs)
    ensures x in ConnectAll(Empty, hs).logged <==>
      exists i :: 0 <= i < |hs| && Authenticated(hs[i]) && hs[i].userId.value == x
    ensures x in ConnectAll(Empty, hs).anonymous <==>
      exists i :: 0 <= i < |hs| && !Authenticated(hs[i]) && hs[i].socketId == x
    decreases |hs|
  {
    if hs != [] {
      var n := |hs| - 1;
      var init := hs[..n];
      assert DistinctSockets(init) by {
        forall i, j | 0 <= i < j < |init| ensures init[i].socketId != init[j].socketId {
          assert init[i] == hs[i] && init[j] == hs[j];
        }
      }
      ConnectAllMembers(init, x);
      assert forall i :: 0 <= i < n ==> init[i] == hs[i];
      if Authenticated(hs[n]) && x == hs[n].socketId {
        // The last connection's socket id was never used by an anonymous one before it.
        forall i | 0 <= i < n && !Authenticated(hs[i]) ensures hs[i].socketId != x {
        }
      }
    }
  }

  /**
   * After N authenticated connects with distinct user ids and M anonymous
   * connects, all on distinct sockets, the counts are N and M.
   */
  lemma {:induction false} ConnectAllCounts(hs: seq<Handshake>)
    requires DistinctSockets(hs) && DistinctUsers(hs)
    ensures |ConnectAll(Empty, hs).logged| == CountAuthenticated(hs)
    ensures |ConnectAll(Empty, hs).anonymous| == |hs| - CountAuthenticated(hs)
    decreases |hs|
  {
    if hs != [] {
      var n := |hs| - 1;
      var init := hs[..n];
      var h := hs[n];
      assert forall i :: 0 <= i < n ==> init[i] == hs[i];
      assert DistinctSockets(init) by {
        forall i, j | 0 <= i < j < |init| ensures init[i].socketId != init[j].socketId {
          assert init[i] == hs[i] && init[j] == hs[j];
        }
      }
      assert DistinctUsers(init) by {
        forall i, j | 0 <= i < j < |init| && Authenticated(init[i]) && Authenticated(init[j])
          ensures init[i].userId != init[j].userId
        {
          assert init[i] == hs[i] && init[j] == hs[j];
        }
      }
      ConnectAllCounts(init);
      var before := ConnectAll(Empty, init);
      if Authenticated(h) {
        ConnectAllMembers(init, h.userId.value);
        ConnectAllMembers(init, h.socketId);
        assert h.userId.value !in before.logged;
        assert h.socketId !in before.anonymous;
        assert before.anonymous - {h.socketId} == before.anonymous;
      } else {
        ConnectAllMembers(init, h.socketId);
        assert h.socketId !in before.anonymous;
      }
    }
  }
}
