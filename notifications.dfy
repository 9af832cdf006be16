/**
 * The notification fan-out of the main namespace (index.js): a
 * `newCommentNotification` is forwarded, unchanged, to the room of every
 * follower of its post, and a `newReport` to the room of every administrator.
 */
module Notifications {
  import opened Wrappers
  import opened Rooms

  /** The fields of a post that the handlers could read (postSchema.js). */
  datatype Post = Post(authorUsername: string, followers: seq<string>)

  /** The `newCommentNotification` object a client sends; only `postID` is read. */
  datatype CommentNotification = CommentNotification(
    postID: string,
    commenterUsername: string,
    commenterName: string,
    commentID: Option<string>,
    date: string)

  /** The `{ newCommentNotification }` object emitted for a report. */
  datatype Report = Report(newCommentNotification: CommentNotification)

  /** A user record as far as the administrator query reads it. */
  datatype User = User(username: string, isAdmin: bool)

  const NewCommentNotificationEvent := "newCommentNotification"
  const NewReportEvent := "newReport"

  /** The same event and payload to each room of `rooms`, in order. */
  function FanOut<P>(rooms: seq<string>, event: string, payload: P): (r: seq<Emission<P>>)
    ensures |r| == |rooms|
    ensures forall i :: 0 <= i < |r| ==> r[i] == Emission(rooms[i], event, payload)
    decreases |rooms|
  {
    if rooms == [] then []
    else FanOut(rooms[..|rooms| - 1], event, payload) + [Emission(rooms[|rooms| - 1], event, payload)]
  }

  /** The rooms an outbox addresses, in order. */
  function Recipients<P>(out: seq<Emission<P>>): (r: seq<string>)
    ensures |r| == |out| && forall i :: 0 <= i < |r| ==> r[i] == out[i].room
  {
    seq(|out|, i requires 0 <= i < |out| => out[i].room)
  }

  // ---------------------------------------------------------------------------
  // newCommentNotification

  /**
   * What the `newCommentNotification` handler emits: nothing when the post
   * lookup throws or finds no post, else one emission per follower entry.
   */
  function FollowerNotifications(posts: Store<map<string, Post>>, n: CommentNotification): seq<Emission<CommentNotification>> {
    match posts
    case Unreachable => []
    case Reachable(byId) =>
      if n.postID in byId then FanOut(byId[n.postID].followers, NewCommentNotificationEvent, n) else []
  }

  /** The handler's `followers.forEach(…)` loop, appending one emission per follower. */
  method NotifyFollowers(posts: Store<map<string, Post>>, n: CommentNotification) returns (out: seq<Emission<CommentNotification>>)
    ensures out == FollowerNotifications(posts, n)
  {
    out := [];
    if posts.Unreachable? || n.postID !in posts.records {
      return;
    }
    var followers := posts.records[n.postID].followers;
    var i := 0;
    while i < |followers|
      invariant 0 <= i <= |followers|
      invariant out == FanOut(followers[..i], NewCommentNotificationEvent, n)
    {
      out := out + [Emission(followers[i], NewCommentNotificationEvent, n)];
      i := i + 1;
      assert followers[..i][..i - 1] == followers[..i - 1];
    }
    assert followers[..i] == followers;
  }

  /**
   * A missing post, or a failed lookup, emits nothing; otherwise the outbox has
   * exactly one `newCommentNotification` per entry of `followers`, in order,
   * each carrying the payload unchanged.
   */
  lemma FollowerNotificationsSpec(posts: Store<map<string, Post>>, n: CommentNotification)
    ensures (posts.Unreachable? || n.postID !in posts.records) ==> FollowerNotifications(posts, n) == []
    ensures posts.Reachable? && n.postID in posts.records ==>
      var followers := posts.records[n.postID].followers;
      var out := FollowerNotifications(posts, n);
      Recipients(out) == followers &&
      forall i :: 0 <= i < |out| ==> out[i].event == NewCommentNotificationEvent && out[i].payload == n
  {
  }

  /**
   * Each user gets as many notifications as they have entries in `followers`:
   * none if not a follower, and the commenter too if they follow the post.
   * Nobody is excluded and nothing is de-duplicated.
   */
  lemma FollowerNotificationCounts(post: Post, byId: map<string, Post>, n: CommentNotification, u: string)
    requires n.postID in byId && byId[n.postID] == post
    ensures multiset(Recipients(FollowerNotifications(Reachable(byId), n)))[u] == multiset(post.followers)[u]
    ensures u in post.followers <==> exists e :: e in FollowerNotifications(Reachable(byId), n) && e.room == u
  {
    var out := FollowerNotifications(Reachable(byId), n);
    assert Recipients(out) == post.followers;
    if u in post.followers {
      var i :| 0 <= i < |post.followers| && post.followers[i] == u;
      assert out[i] in out;
    }
  }

  // ---------------------------------------------------------------------------
  // newReport

  /** Whether some user record named `u` has `isAdmin` set. */
  ghost predicate IsAdmin(users: seq<User>, u: string) {
    exists i :: 0 <= i < |users| && users[i].isAdmin && users[i].username == u
  }

  /** No element occurs twice. */
  predicate NoDuplicates(s: seq<string>) {
    forall i, j :: 0 <= i < j < |s| ==> s[i] != s[j]
  }

  /**
   * `User.find({isAdmin: true}).distinct("username")`: the usernames of the
   * administrator records, each once, in order of first occurrence.
   */
  function AdminUsernames(users: seq<User>): (r: seq<string>)
    ensures NoDuplicates(r)
    ensures forall u :: u in r <==> IsAdmin(users, u)
    decreases |users|
  {
    if users == [] then []
    else
      var init := users[..|users| - 1];
      var last := users[|users| - 1];
      var r := AdminUsernames(init);
      assert forall i :: 0 <= i < |init| ==> init[i] == users[i];
      if last.isAdmin && last.username !in r then r + [last.username] else r
  }

  /** What the `newReport` handler emits: nothing when the query throws, else one report per administrator. */
  function ReportNotifications(users: Store<seq<User>>, n: CommentNotification): seq<Emission<Report>> {
    match users
    case Unreachable => []
    case Reachable(records) => FanOut(AdminUsernames(records), NewReportEvent, Report(n))
  }

  /** The handler's `isAdminUsers.forEach(…)` loop. */
  method NotifyAdmins(users: Store<seq<User>>, n: CommentNotification) returns (out: seq<Emission<Report>>)
    ensures out == ReportNotifications(users, n)
  {
    out := [];
    if users.Unreachable? {
      return;
    }
    var admins := AdminUsernames(users.records);
    var i := 0;
    while i < |admins|
      invariant 0 <= i <= |admins|
      invariant out == FanOut(admins[..i], NewReportEvent, Report(n))
    {
      out := out + [Emission(admins[i], NewReportEvent, Report(n))];
      i := i + 1;
      assert admins[..i][..i - 1] == admins[..i - 1];
    }
    assert admins[..i] == admins;
  }

  /** An element of a sequence without duplicates occurs exactly once. */
  lemma {:induction false} NoDuplicatesOnce(s: seq<string>, u: string)
    requires NoDuplicates(s)
    ensures multiset(s)[u] == if u in s then 1 else 0
    decreases |s|
  {
    if s != [] {
      var init := s[..|s| - 1];
      assert s == init + [s[|s| - 1]];
      assert NoDuplicates(init) by {
        forall i, j | 0 <= i < j < |init| ensures init[i] != init[j] {
          assert init[i] == s[i] && init[j] == s[j];
        }
      }
      NoDuplicatesOnce(init, u);
      if u == s[|s| - 1] {
        assert u !in init;
      }
    }
  }

  /**
   * A report reaches each distinct administrator username exactly once, and
   * nobody else; a failed user query sends nothing. Every emission is a
   * `newReport` carrying `{ newCommentNotification }` as received.
   */
  lemma ReportOncePerAdmin(users: seq<User>, n: CommentNotification, u: string)
    ensures multiset(Recipients(ReportNotifications(Reachable(users), n)))[u] == if IsAdmin(users, u) then 1 else 0
    ensures forall e :: e in ReportNotifications(Reachable(users), n) ==> e.event == NewReportEvent && e.payload == Report(n)
    ensures ReportNotifications(Unreachable, n) == []
  {
    var admins := AdminUsernames(users);
    assert Recipients(ReportNotifications(Reachable(users), n)) == admins;
    NoDuplicatesOnce(admins, u);
  }
}
