/**
 * The group chat namespaces of index.js: a connection to `/<groupId>` is
 * primed with a page of history, and only then listens for `sendMessage`,
 * whose message is saved and broadcast to the namespace.
 */
module ChatServer {
  import opened ChatHistory

  /** The configured chat groups; each has namespace `/<groupId>`. */
  const Groups: seq<string> := ["group1", "group2", "group3"]

  function Namespace(groupId: string): string {
    "/" + groupId
  }

  /** What the namespace handlers emit. */
  datatype ChatEmission =
    | RecentMessagesTo(socketId: string, messages: seq<Message>)  // `socket.emit("recentMessages", …)`
    | MessageBroadcast(namespace: string, message: Message)       // `io.of(ns).emit("message", …)`

  /**
   * The message collection, the sockets whose `sendMessage` handler is
   * registered (with the group of their namespace), and the emissions so far.
   * Saves and history queries succeed or fail as the callers say.
   */
  class Server {
    var messages: seq<Message>
    var sessions: map<string, string>
    var outbox: seq<ChatEmission>

    /** Every socket with a registered handler listens on the namespace of a configured group. */
    ghost predicate Valid()
      reads this
    {
      forall s :: s in sessions ==> sessions[s] in Groups
    }

    /** The collection may hold messages of any group; the history query filters them. */
    constructor (stored: seq<Message>)
      ensures Valid()
      ensures messages == stored && sessions == map[] && outbox == []
    {
      messages, sessions, outbox := stored, map[], [];
    }

    /**
     * A socket connects to the namespace of `groupId`, asking for `page`.
     * When the history query succeeds the socket gets that page and its
     * `sendMessage` handler is registered; when it fails nothing is emitted
     * and the handler is never registered.
     */
    method Connect(socketId: string, groupId: string, page: nat, queryOk: bool)
      requires Valid() && groupId in Groups && page >= 1
      modifies this
      ensures Valid()
      ensures messages == old(messages)
      ensures queryOk ==> outbox == old(outbox) + [RecentMessagesTo(socketId, RecentMessages(messages, groupId, page))]
      ensures queryOk ==> sessions == old(sessions)[socketId := groupId]
      ensures !queryOk ==> outbox == old(outbox) && sessions == old(sessions)
    {
      if queryOk {
        var recent := RecentMessages(messages, groupId, page);
        outbox := outbox + [RecentMessagesTo(socketId, recent)];
        sessions := sessions[socketId := groupId];
      }
    }

    /**
     * `sendMessage{user, text}` from `socketId`. A socket without a registered
     * handler is ignored. Otherwise the message gets the namespace's group,
     * and is stored and broadcast only when the save succeeds; a failed save
     * leaves the store and the outbox as they were.
     */
    method SendMessage(socketId: string, user: string, text: string, timestamp: int, saveOk: bool)
      requires Valid()
      modifies this
      ensures Valid()
      ensures sessions == old(sessions)
      ensures socketId in sessions && saveOk ==>
        var m := Message(sessions[socketId], user, text, timestamp);
        messages == old(messages) + [m] && outbox == old(outbox) + [MessageBroadcast(Namespace(m.groupId), m)]
      ensures socketId in sessions && saveOk ==> messages[|messages| - 1].groupId in Groups
      ensures socketId !in sessions || !saveOk ==> messages == old(messages) && outbox == old(outbox)
    {
      if socketId in sessions {
        var groupId := sessions[socketId];
        var message := Message(groupId, user, text, timestamp);
        if saveOk {
          messages := messages + [message];
          outbox := outbox + [MessageBroadcast(Namespace(groupId), message)];
        }
      }
    }
  }
}
