/**
 * Chat history of one group namespace (index.js): the messages of a group,
 * most recent first, cut into pages of ten.
 */
module ChatHistory {

  /** A stored chat message. The timestamp is supplied by the caller. */
  datatype Message = Message(groupId: string, user: string, text: string, timestamp: int)

  /** The page size the namespace connection handler uses. */
  const PageSize: nat := 10

  /** The messages of `store` that belong to group `g`, in store order; `find({groupId})`. */
  function GroupMessages(store: seq<Message>, g: string): (r: seq<Message>)
    ensures |r| <= |store|
    ensures forall i :: 0 <= i < |r| ==> r[i].groupId == g
    decreases |store|
  {
    if store == [] then []
    else
      var rest := GroupMessages(store[..|store| - 1], g);
      var last := store[|store| - 1];
      if last.groupId == g then rest + [last] else rest
  }

  /** The group's messages are the stored messages of that group, each as often as it is stored. */
  lemma {:induction false} GroupMessagesCount(store: seq<Message>, g: string, m: Message)
    ensures multiset(GroupMessages(store, g))[m] == if m.groupId == g then multiset(store)[m] else 0
    decreases |store|
  {
    if store != [] {
      var init := store[..|store| - 1];
      assert store == init + [store[|store| - 1]];
      GroupMessagesCount(init, g, m);
    }
  }

  /** Saving a message appends it to its own group's messages and to no other group's. */
  lemma GroupMessagesAppend(store: seq<Message>, m: Message, g: string)
    ensures GroupMessages(store + [m], g) == if m.groupId == g then GroupMessages(store, g) + [m] else GroupMessages(store, g)
  {
    assert (store + [m])[..|store + [m]| - 1] == store;
  }

  /** Timestamps never increase along `s`. */
  predicate NonIncreasing(s: seq<Message>) {
    forall i, j :: 0 <= i < j < |s| ==> s[i].timestamp >= s[j].timestamp
  }

  /** Inserts `m` into a non-increasing sequence, before the first strictly older message. */
  function Insert(m: Message, s: seq<Message>): (r: seq<Message>)
    requires NonIncreasing(s)
    ensures |r| == |s| + 1
    ensures r[0] == m || (s != [] && r[0] == s[0])
    ensures NonIncreasing(r)
    ensures multiset(r) == multiset(s) + multiset{m}
  {
    if s == [] || m.timestamp >= s[0].timestamp then
      assert forall j :: 0 <= j < |s| ==> s[0].timestamp >= s[j].timestamp;
      [m] + s
    else
      var tail := Insert(m, s[1..]);
      assert s == [s[0]] + s[1..];
      assert s[0].timestamp >= tail[0].timestamp;
      assert forall j :: 0 <= j < |tail| ==> tail[0].timestamp >= tail[j].timestamp;
      [s[0]] + tail
  }

  /**
   * `sort({timestamp: -1})`: the messages ordered by timestamp, newest first.
   * The store does not fix the order of equal timestamps; this definition keeps
   * them in store order, and the lemmas below rely only on the two ensures.
   */
  function SortByTimestampDesc(s: seq<Message>): (r: seq<Message>)
    ensures NonIncreasing(r)
    ensures multiset(r) == multiset(s)
  {
    if s == [] then []
    else
      assert s == [s[0]] + s[1..];
      Insert(s[0], SortByTimestampDesc(s[1..]))
  }

  /** The number of results a page skips: `(page - 1) * pageSize`. */
  function Skip(page: nat, size: nat): nat
    requires page >= 1
  {
    (page - 1) * size
  }

  /** `skip((page - 1) * size).limit(size)` on an ordered result. */
  function Page(s: seq<Message>, page: nat, size: nat): seq<Message>
    requires page >= 1
  {
    var skip := Skip(page, size);
    if skip >= |s| then []
    else if skip + size <= |s| then s[skip..skip + size]
    else s[skip..]
  }

  /** The `recentMessages` the namespace connection handler sends for `page`. */
  function RecentMessages(store: seq<Message>, g: string, page: nat): (r: seq<Message>)
    requires page >= 1
    ensures |r| <= PageSize
    ensures forall i :: 0 <= i < |r| ==> r[i].groupId == g
    ensures NonIncreasing(r)
    ensures multiset(r) <= multiset(store)
  {
    var group := GroupMessages(store, g);
    var sorted := SortByTimestampDesc(group);
    var r := Page(sorted, page, PageSize);
    PageBounds(sorted, page, PageSize);
    PageMultiset(sorted, page, PageSize);
    assert multiset(group) <= multiset(store) by {
      forall m ensures multiset(group)[m] <= multiset(store)[m] {
        GroupMessagesCount(store, g, m);
      }
    }
    assert forall i :: 0 <= i < |r| ==> r[i].groupId == g by {
      forall i | 0 <= i < |r| ensures r[i].groupId == g {
        assert r[i] in multiset(r);
        GroupMessagesCount(store, g, r[i]);
      }
    }
    r
  }

  // ---------------------------------------------------------------------------
  // Pages

  /** A page holds at most `size` elements, and they are the ones at positions `(page-1)*size + i`. */
  lemma PageBounds(s: seq<Message>, page: nat, size: nat)
    requires page >= 1
    ensures |Page(s, page, size)| <= size
    ensures |Page(s, page, size)| == if Skip(page, size) >= |s| then 0
                                      else Min(size, |s| - Skip(page, size))
    ensures forall i :: 0 <= i < |Page(s, page, size)| ==> Page(s, page, size)[i] == s[Skip(page, size) + i]
  {
  }

  function Min(a: int, b: int): int {
    if a <= b then a else b
  }

  /** A contiguous slice of `s` takes no element more often than `s` holds it. */
  lemma SliceMultiset(s: seq<Message>, lo: nat, hi: nat)
    requires lo <= hi <= |s|
    ensures multiset(s[lo..hi]) <= multiset(s)
  {
    assert s == s[..lo] + s[lo..hi] + s[hi..];
  }

  /** A contiguous slice of a non-increasing sequence is non-increasing. */
  lemma SliceNonIncreasing(s: seq<Message>, lo: nat, hi: nat)
    requires lo <= hi <= |s| && NonIncreasing(s)
    ensures NonIncreasing(s[lo..hi])
  {
    var t := s[lo..hi];
    forall i, j | 0 <= i < j < |t| ensures t[i].timestamp >= t[j].timestamp {
      assert t[i] == s[lo + i] && t[j] == s[lo + j];
    }
  }

  /** A page is a sub-multiset of what it is cut from, and keeps its order. */
  lemma PageMultiset(s: seq<Message>, page: nat, size: nat)
    requires page >= 1
    ensures multiset(Page(s, page, size)) <= multiset(s)
    ensures NonIncreasing(s) ==> NonIncreasing(Page(s, page, size))
  {
    var skip := Skip(page, size);
    if skip < |s| {
      var hi := if skip + size <= |s| then skip + size else |s|;
      assert Page(s, page, size) == s[skip..hi];
      SliceMultiset(s, skip, hi);
      if NonIncreasing(s) {
        SliceNonIncreasing(s, skip, hi);
      }
    }
  }

  /** Two consecutive pages are one contiguous slice of `s`, without overlap. */
  lemma ConsecutivePages(s: seq<Message>, page: nat, size: nat)
    requires page >= 1
    ensures Page(s, page, size) + Page(s, page + 1, size) ==
      var lo := Skip(page, size);
      if lo >= |s| then [] else s[lo..lo + Min(2 * size, |s| - lo)]
  {
    var lo := Skip(page, size);
    assert Skip(page + 1, size) == lo + size;
    PageBounds(s, page, size);
    PageBounds(s, page + 1, size);
  }

  /** Page `2p - 1` of size `k` starts where page `p` of size `2k` does. */
  lemma SkipDouble(p: nat, k: nat)
    requires p >= 1
    ensures Skip(2 * p - 1, k) == Skip(p, 2 * k)
  {
  }

  /**
   * Pages `2p - 1` and `2p` of size `k` together are page `p` of size `2k`:
   * with `k = 10`, pages 1 and 2 are the first twenty messages.
   */
  lemma PagesMerge(s: seq<Message>, p: nat, k: nat)
    requires p >= 1
    ensures Page(s, 2 * p - 1, k) + Page(s, 2 * p, k) == Page(s, p, 2 * k)
  {
    SkipDouble(p, k);
    ConsecutivePages(s, 2 * p - 1, k);
    PageBounds(s, p, 2 * k);
  }

  /**
   * Pages `p` and `p + 1` of the history are disjoint: together they take no
   * stored message of the group more often than the store holds it.
   */
  lemma PagesDisjoint(store: seq<Message>, g: string, p: nat)
    requires p >= 1
    ensures multiset(RecentMessages(store, g, p)) + multiset(RecentMessages(store, g, p + 1))
            <= multiset(GroupMessages(store, g))
  {
    var group := GroupMessages(store, g);
    var sorted := SortByTimestampDesc(group);
    assert RecentMessages(store, g, p) == Page(sorted, p, PageSize);
    assert RecentMessages(store, g, p + 1) == Page(sorted, p + 1, PageSize);
    ConsecutivePagesMultiset(sorted, p, PageSize);
  }

  /** Consecutive pages together take no element more often than the sequence they are cut from. */
  lemma ConsecutivePagesMultiset(s: seq<Message>, p: nat, size: nat)
    requires p >= 1
    ensures multiset(Page(s, p, size)) + multiset(Page(s, p + 1, size)) <= multiset(s)
  {
    var first, second := Page(s, p, size), Page(s, p + 1, size);
    ConsecutivePages(s, p, size);
    var lo := Skip(p, size);
    var both := first + second;
    if lo < |s| {
      var hi := lo + Min(2 * size, |s| - lo);
      assert both == s[lo..hi];
      SliceMultiset(s, lo, hi);
    } else {
      assert both == [];
    }
    assert multiset(both) == multiset(first) + multiset(second);
  }

  /** Page `p` of the history is the slice at positions `(p-1)*10 .. (p-1)*10+9` of the sorted group messages. */
  lemma RecentMessagesPositions(store: seq<Message>, g: string, p: nat, i: nat)
    requires p >= 1
    ensures var n := |SortByTimestampDesc(GroupMessages(store, g))|;
      |RecentMessages(store, g, p)| == if (p - 1) * PageSize >= n then 0 else Min(PageSize, n - (p - 1) * PageSize)
    ensures i < |RecentMessages(store, g, p)| ==>
      && (p - 1) * PageSize + i < |SortByTimestampDesc(GroupMessages(store, g))|
      && RecentMessages(store, g, p)[i] == SortByTimestampDesc(GroupMessages(store, g))[(p - 1) * PageSize + i]
  {
    PageBounds(SortByTimestampDesc(GroupMessages(store, g)), p, PageSize);
  }

  // ---------------------------------------------------------------------------
  // History after a send

  /** A message saved to another group leaves this group's history exactly as it was. */
  lemma OtherGroupUnaffected(store: seq<Message>, m: Message, g: string, p: nat)
    requires p >= 1 && m.groupId != g
    ensures RecentMessages(store + [m], g, p) == RecentMessages(store, g, p)
  {
    GroupMessagesAppend(store, m, g);
  }

  /** A message newer than every message of its group heads the first page afterwards. */
  lemma NewestMessageFirst(store: seq<Message>, m: Message)
    requires forall i :: 0 <= i < |store| && store[i].groupId == m.groupId ==> store[i].timestamp < m.timestamp
    ensures RecentMessages(store + [m], m.groupId, 1) != []
    ensures RecentMessages(store + [m], m.groupId, 1)[0] == m
  {
    var g := m.groupId;
    var group := GroupMessages(store, g);
    GroupMessagesAppend(store, m, g);
    var sorted := SortByTimestampDesc(group + [m]);
    assert m in multiset(group + [m]);
    assert m in multiset(sorted);
    PageBounds(sorted, 1, PageSize);
    var first := sorted[0];
    assert first in multiset(group + [m]);
    var j :| 0 <= j < |sorted| && sorted[j] == m;
    assert first.timestamp >= m.timestamp;
    GroupMessagesCount(store, g, first);
  }
}
