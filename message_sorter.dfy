/**
 * MessageSorter.ProcessMessages: turning a flat list of chat messages into
 * threads. Messages without a ReplyToId seed full threads, replies whose parent
 * is one of those roots join the root's thread, replies whose parent was not
 * fetched are grouped by parent into partial threads, and everything is
 * ordered by creation time.
 *
 * Reconstruct is the specification; ProcessMessages builds the same list the
 * way the source does, step by step.
 */
module MessageSorter {
  import opened Wrappers
  import opened Linq
  import opened GraphModels

  /** ThreadDetails: the messages of one thread and the time of its newest message. */
  datatype ThreadDetails = ThreadDetails(isFull: bool, messages: seq<Message>, lastMessageCreationTime: int)

  function LastTime(t: ThreadDetails): int {
    t.lastMessageCreationTime
  }

  function IsFullThread(t: ThreadDetails): bool {
    t.isFull
  }

  /** The messages whose ReplyToId equals k (both may be null). */
  function ParentIs(k: Option<string>): Message -> bool {
    (m: Message) => m.replyToId == k
  }

  /** The messages whose ReplyToId is one of ids. */
  function ParentIn(ids: set<Option<string>>): Message -> bool {
    (m: Message) => m.replyToId in ids
  }

  /** The messages with a ReplyToId that names none of ids. */
  function ParentMissing(ids: set<Option<string>>): Message -> bool {
    (m: Message) => m.replyToId != None && m.replyToId !in ids
  }

  /** The Id values of a list of messages (a null Id included). */
  function Ids(s: seq<Message>): set<Option<string>> {
    set m | m in s :: m.id
  }

  /** Thread roots: the messages whose ReplyToId is null. */
  function Roots(d: seq<Message>): seq<Message> {
    Filter(d, ParentIs(None))
  }

  function RootIds(d: seq<Message>): set<Option<string>> {
    Ids(Roots(d))
  }

  /** The messages whose ReplyToId names some fetched message. */
  function Children(d: seq<Message>): seq<Message> {
    Filter(d, ParentIn(Ids(d)))
  }

  /** The replies whose parent was not fetched. */
  function Orphans(d: seq<Message>): seq<Message> {
    Filter(d, ParentMissing(Ids(d)))
  }

  /** The replies that join a root's thread: their parent is a root. */
  function AttachedReplies(d: seq<Message>): seq<Message> {
    Filter(d, ParentIn(RootIds(d)))
  }

  /** The thread a root starts with: the root alone, full when its ReplyToId is null or empty. */
  function Seed(r: Message): ThreadDetails {
    ThreadDetails(r.replyToId.None? || r.replyToId.value == "", [r], r.createdDateTime)
  }

  /** A root's thread once its replies are added and the messages ordered. */
  function RootThread(r: Message, replies: seq<Message>): ThreadDetails {
    var msgs := SortBy([r] + replies, Created);
    ThreadDetails(Seed(r).isFull, msgs, MaxBy(msgs, Created))
  }

  /**
   * Each root in turn takes the remaining children that reply to it; the
   * children it takes are gone for the roots after it.
   */
  function AttachReplies(roots: seq<Message>, children: seq<Message>): (r: seq<ThreadDetails>)
    ensures |r| == |roots|
  {
    if |roots| == 0 then []
    else
      var p := ParentIs(roots[0].id);
      [RootThread(roots[0], Filter(children, p))] + AttachReplies(roots[1..], Reject(children, p))
  }

  /** GroupBy(ReplyToId): the groups in order of first occurrence, each in input order. */
  function GroupByParent(s: seq<Message>): (groups: seq<seq<Message>>)
    ensures forall i :: 0 <= i < |groups| ==> |groups[i]| > 0
    decreases |s|
  {
    if |s| == 0 then []
    else
      var p := ParentIs(s[0].replyToId);
      assert p(s[0]);
      assert |Reject(s, p)| < |s| by {
        assert Reject(s, p) == Reject(s[1..], p);
      }
      [Filter(s, p)] + GroupByParent(Reject(s, p))
  }

  /** A partial thread over one group of orphan replies. */
  function GroupThread(g: seq<Message>): ThreadDetails
    requires |g| > 0
  {
    ThreadDetails(false, SortBy(g, Created), MaxBy(g, Created))
  }

  function GroupThreads(groups: seq<seq<Message>>): (r: seq<ThreadDetails>)
    requires forall i :: 0 <= i < |groups| ==> |groups[i]| > 0
    ensures |r| == |groups|
  {
    if |groups| == 0 then [] else [GroupThread(groups[0])] + GroupThreads(groups[1..])
  }

  function OrphanThreads(d: seq<Message>): seq<ThreadDetails> {
    GroupThreads(GroupByParent(Orphans(d)))
  }

  /** The threads ProcessMessages returns, before the final ordering. */
  function UnorderedThreads(d: seq<Message>): seq<ThreadDetails> {
    AttachReplies(Roots(d), Children(d)) + OrphanThreads(d)
  }

  /** The threads ProcessMessages returns. */
  function Reconstruct(d: seq<Message>): seq<ThreadDetails> {
    SortBy(UnorderedThreads(d), LastTime)
  }

  /** Every message of every thread, in thread order. */
  function Flatten(ts: seq<ThreadDetails>): seq<Message> {
    if |ts| == 0 then [] else ts[0].messages + Flatten(ts[1..])
  }

  /** A thread is non-empty, ascending by creation time, and carries the time of its newest message. */
  predicate WellFormed(t: ThreadDetails) {
    && |t.messages| > 0
    && SortedBy(t.messages, Created)
    && t.lastMessageCreationTime == Created(t.messages[|t.messages| - 1])
    && (forall i :: 0 <= i < |t.messages| ==> Created(t.messages[i]) <= t.lastMessageCreationTime)
  }

  /**
   * ProcessMessages, step by step as the source runs it: seed one thread per
   * root; if any children exist, let each thread in turn take the children
   * that reply to its first message, then order it; append one partial thread
   * per orphan group; order the threads.
   */
  method ProcessMessages(details: seq<Message>) returns (threads: seq<ThreadDetails>)
    ensures threads == Reconstruct(details)
    ensures SortedBy(threads, LastTime)
    ensures forall i :: 0 <= i < |threads| ==> WellFormed(threads[i])
  {
    var roots := Roots(details);
    threads := SeedThreads(roots);
    var children := Children(details);
    if |children| > 0 {
      threads := AttachChildren(roots, threads, children);
    } else {
      NoChildrenKeepsSeeds(roots);
      assert children == [];
      assert threads == AttachReplies(roots, children);
    }
    var orphans := Orphans(details);
    if |orphans| > 0 {
      threads := AppendGroups(threads, orphans);
    } else {
      assert orphans == [];
      assert threads == threads + GroupThreads(GroupByParent(orphans));
    }
    assert threads == UnorderedThreads(details);
    threads := SortBy(threads, LastTime);
    ReconstructWellFormed(details);
  }

  /** One single-message thread per root, in root order. */
  method SeedThreads(roots: seq<Message>) returns (threads: seq<ThreadDetails>)
    ensures |threads| == |roots|
    ensures forall j :: 0 <= j < |roots| ==> threads[j] == Seed(roots[j])
  {
    threads := [];
    var i := 0;
    while i < |roots|
      invariant i <= |roots| && |threads| == i
      invariant forall j :: 0 <= j < i ==> threads[j] == Seed(roots[j])
    {
      threads := threads + [Seed(roots[i])];
      i := i + 1;
    }
  }

  /**
   * A thread's first message takes its replies: each is appended to the
   * thread and then removed from the children with List.Remove.
   */
  method TakeReplies(root: Message, children: seq<Message>) returns (msgs: seq<Message>, left: seq<Message>)
    ensures msgs == [root] + Filter(children, ParentIs(root.id))
    ensures left == Reject(children, ParentIs(root.id))
  {
    var p := ParentIs(root.id);
    var results := Filter(children, p);
    DropNoneMatching(children, p);
    msgs := [root];
    left := children;
    var k := 0;
    while k < |results|
      invariant k <= |results|
      invariant msgs == [root] + results[..k]
      invariant left == DropMatching(children, p, k)
    {
      msgs := msgs + [results[k]];
      TakeSnocAfter([root], results, k);
      RemoveNextMatch(children, p, k);
      left := RemoveFirst(left, results[k]);
      k := k + 1;
    }
    DropAllMatching(children, p);
    assert results[..k] == results;
  }

  /** Each seeded thread in turn takes its replies, then is ordered by creation time. */
  method AttachChildren(roots: seq<Message>, seeds: seq<ThreadDetails>, children: seq<Message>) returns (threads: seq<ThreadDetails>)
    requires |seeds| == |roots|
    requires forall j :: 0 <= j < |roots| ==> seeds[j] == Seed(roots[j])
    ensures threads == AttachReplies(roots, children)
  {
    threads := seeds;
    var left := children;
    var t := 0;
    while t < |threads|
      invariant |threads| == |roots| && t <= |roots|
      invariant forall j :: t <= j < |roots| ==> threads[j] == Seed(roots[j])
      invariant threads[..t] + AttachReplies(roots[t..], left) == AttachReplies(roots, children)
    {
      var thread := threads[t];
      var msgs, rest := TakeReplies(thread.messages[0], left);
      msgs := SortBy(msgs, Created);
      thread := thread.(messages := msgs, lastMessageCreationTime := MaxBy(msgs, Created));
      AttachStep(threads[..t], roots, t, left);
      UpdateSlice(threads, t, thread);
      threads := threads[t := thread];
      left := rest;
      t := t + 1;
    }
    assert threads[..t] == threads;
    assert roots[t..] == [];
  }

  /** One partial thread per group of orphan replies, appended in group order. */
  method AppendGroups(attached: seq<ThreadDetails>, orphans: seq<Message>) returns (threads: seq<ThreadDetails>)
    ensures threads == attached + GroupThreads(GroupByParent(orphans))
  {
    var groups := GroupByParent(orphans);
    ghost var all := GroupThreads(groups);
    threads := attached;
    var g := 0;
    while g < |groups|
      invariant g <= |groups|
      invariant threads == attached + all[..g]
    {
      GroupThreadsAt(groups, g);
      TakeSnocAfter(attached, all, g);
      threads := threads + [GroupThread(groups[g])];
      g := g + 1;
    }
    assert all[..g] == all;
  }

  lemma AttachStep(done: seq<ThreadDetails>, roots: seq<Message>, t: nat, left: seq<Message>)
    requires t < |roots|
    ensures done + AttachReplies(roots[t..], left)
         == (done + [RootThread(roots[t], Filter(left, ParentIs(roots[t].id)))])
            + AttachReplies(roots[t + 1..], Reject(left, ParentIs(roots[t].id)))
  {
    assert roots[t..][0] == roots[t] && roots[t..][1..] == roots[t + 1..];
  }

  lemma {:induction false} NoChildrenKeepsSeeds(roots: seq<Message>)
    ensures forall j :: 0 <= j < |roots| ==> AttachReplies(roots, [])[j] == Seed(roots[j])
  {
    if |roots| > 0 {
      NoChildrenKeepsSeeds(roots[1..]);
      var r := roots[0];
      assert SortBy([r], Created) == [r] by {
        assert [r][..0] == [];
      }
      var rest := AttachReplies(roots[1..], []);
      assert AttachReplies(roots, []) == [RootThread(r, [])] + rest;
      forall j | 1 <= j < |roots|
        ensures AttachReplies(roots, [])[j] == Seed(roots[j])
      {
        assert AttachReplies(roots, [])[j] == rest[j - 1];
      }
    }
  }

  /** The g-th partial thread is the one over the g-th group. */
  lemma {:induction false} GroupThreadsAt(groups: seq<seq<Message>>, g: nat)
    requires forall i :: 0 <= i < |groups| ==> |groups[i]| > 0
    requires g < |groups|
    ensures GroupThreads(groups)[g] == GroupThread(groups[g])
    decreases g
  {
    assert GroupThreads(groups) == [GroupThread(groups[0])] + GroupThreads(groups[1..]);
    if g > 0 {
      GroupThreadsAt(groups[1..], g - 1);
      assert groups[1..][g - 1] == groups[g];
    }
  }

  // ---------------------------------------------------------------------------
  // Shape of every thread
  // ---------------------------------------------------------------------------

  lemma RootThreadWellFormed(r: Message, replies: seq<Message>)
    ensures WellFormed(RootThread(r, replies))
  {
    var msgs := SortBy([r] + replies, Created);
    MaxOfSorted(msgs, Created);
  }

  lemma GroupThreadWellFormed(g: seq<Message>)
    requires |g| > 0
    ensures WellFormed(GroupThread(g))
  {
    var msgs := SortBy(g, Created);
    MaxOfSorted(msgs, Created);
    MaxByPermutation(g, msgs, Created);
  }

  lemma AttachRepliesWellFormed(roots: seq<Message>, children: seq<Message>)
    ensures forall i :: 0 <= i < |roots| ==> WellFormed(AttachReplies(roots, children)[i])
  {
    forall i | 0 <= i < |roots|
      ensures WellFormed(AttachReplies(roots, children)[i])
    {
      AttachAt(roots, children, i);
      RootThreadWellFormed(roots[i], ChildrenAt(roots, children, i));
    }
  }

  /** The children the i-th root is offered: those the earlier roots did not take. */
  function ChildrenAt(roots: seq<Message>, children: seq<Message>, i: nat): seq<Message>
    requires i < |roots|
  {
    var p := ParentIs(roots[0].id);
    if i == 0 then Filter(children, p) else ChildrenAt(roots[1..], Reject(children, p), i - 1)
  }

  lemma {:induction false} AttachAt(roots: seq<Message>, children: seq<Message>, i: nat)
    requires i < |roots|
    ensures AttachReplies(roots, children)[i] == RootThread(roots[i], ChildrenAt(roots, children, i))
    decreases i
  {
    var p := ParentIs(roots[0].id);
    var rest := AttachReplies(roots[1..], Reject(children, p));
    assert AttachReplies(roots, children) == [RootThread(roots[0], Filter(children, p))] + rest;
    if i > 0 {
      AttachAt(roots[1..], Reject(children, p), i - 1);
      assert roots[1..][i - 1] == roots[i];
    }
  }

  lemma {:induction false} GroupThreadsWellFormed(groups: seq<seq<Message>>)
    requires forall i :: 0 <= i < |groups| ==> |groups[i]| > 0
    ensures forall i :: 0 <= i < |groups| ==> WellFormed(GroupThreads(groups)[i])
  {
    if |groups| > 0 {
      GroupThreadWellFormed(groups[0]);
      GroupThreadsWellFormed(groups[1..]);
      var rest := GroupThreads(groups[1..]);
      assert forall i :: 1 <= i < |groups| ==> GroupThreads(groups)[i] == rest[i - 1];
    }
  }

  /** Every thread is non-empty, its messages ascend by creation time, and its time is that of its newest message. */
  lemma ReconstructWellFormed(d: seq<Message>)
    ensures forall i :: 0 <= i < |Reconstruct(d)| ==> WellFormed(Reconstruct(d)[i])
  {
    var u := UnorderedThreads(d);
    AttachRepliesWellFormed(Roots(d), Children(d));
    GroupThreadsWellFormed(GroupByParent(Orphans(d)));
    assert forall t :: t in u ==> WellFormed(t);
    var r := Reconstruct(d);
    forall i | 0 <= i < |r|
      ensures WellFormed(r[i])
    {
      assert r[i] in multiset(u);
    }
  }

  /**
   * The final OrderBy is stable: the threads that share a LastMessageCreationTime
   * keep their relative order, root threads in root order first, then the
   * orphan groups in order of first occurrence.
   */
  lemma ReconstructStable(d: seq<Message>, v: int)
    ensures Filter(Reconstruct(d), KeyIs(LastTime, v))
         == Filter(AttachReplies(Roots(d), Children(d)), KeyIs(LastTime, v)) + Filter(OrphanThreads(d), KeyIs(LastTime, v))
  {
    SortByStable(UnorderedThreads(d), LastTime, v);
    FilterConcat(AttachReplies(Roots(d), Children(d)), OrphanThreads(d), KeyIs(LastTime, v));
  }

  // ---------------------------------------------------------------------------
  // Where every message goes
  // ---------------------------------------------------------------------------

  lemma {:induction false} FlattenConcat(a: seq<ThreadDetails>, b: seq<ThreadDetails>)
    ensures Flatten(a + b) == Flatten(a) + Flatten(b)
    decreases |a|
  {
    if |a| > 0 {
      assert (a + b)[0] == a[0] && (a + b)[1..] == a[1..] + b;
      FlattenConcat(a[1..], b);
    } else {
      assert a + b == b;
    }
  }

  lemma {:induction false} FlattenInsert(x: ThreadDetails, s: seq<ThreadDetails>)
    ensures multiset(Flatten(Insert(x, s, LastTime))) == multiset(Flatten(s)) + multiset(x.messages)
  {
    if |s| > 0 && LastTime(x) >= LastTime(s[0]) {
      FlattenInsert(x, s[1..]);
      assert Insert(x, s, LastTime) == [s[0]] + Insert(x, s[1..], LastTime);
    } else if |s| > 0 {
      assert ([x] + s)[1..] == s;
    }
  }

  /** Flattening a list of threads is flattening all but the last, then the last one's messages. */
  lemma {:induction false} FlattenSnoc(s: seq<ThreadDetails>)
    requires |s| > 0
    ensures Flatten(s) == Flatten(s[..|s| - 1]) + s[|s| - 1].messages
    decreases |s|
  {
    assert Flatten(s) == s[0].messages + Flatten(s[1..]);
    if |s| == 1 {
      assert s[1..] == [] && s[..0] == [];
    } else {
      var rest, init := s[1..], s[..|s| - 1];
      FlattenSnoc(rest);
      assert rest[|rest| - 1] == s[|s| - 1];
      assert init[0] == s[0] && init[1..] == rest[..|rest| - 1];
      assert Flatten(init) == s[0].messages + Flatten(init[1..]);
      AppendAssoc(s[0].messages, Flatten(init[1..]), s[|s| - 1].messages);
    }
  }

  /** Ordering the threads moves no message in or out of them. */
  lemma {:induction false} FlattenSortBy(s: seq<ThreadDetails>)
    ensures multiset(Flatten(SortBy(s, LastTime))) == multiset(Flatten(s))
    decreases |s|
  {
    if |s| > 0 {
      var init, last := s[..|s| - 1], s[|s| - 1];
      var sortedInit := SortBy(init, LastTime);
      FlattenSortBy(init);
      FlattenInsert(last, sortedInit);
      assert SortBy(s, LastTime) == Insert(last, sortedInit, LastTime);
      FlattenSnoc(s);
      MultisetStep(Flatten(Insert(last, sortedInit, LastTime)), Flatten(sortedInit), Flatten(init), last.messages);
    }
  }

  lemma {:induction false} AttachFlatten(roots: seq<Message>, ch: seq<Message>)
    ensures multiset(Flatten(AttachReplies(roots, ch))) == multiset(roots) + multiset(Filter(ch, ParentIn(Ids(roots))))
  {
    if |roots| == 0 {
      FilterNone(ch, ParentIn(Ids(roots)));
    } else {
      var r, others := roots[0], roots[1..];
      var p := ParentIs(r.id);
      var mine := Filter(ch, p);
      var rest := AttachReplies(others, Reject(ch, p));
      assert multiset(Flatten(AttachReplies(roots, ch))) == multiset(RootThread(r, mine).messages) + multiset(Flatten(rest)) by {
        assert AttachReplies(roots, ch) == [RootThread(r, mine)] + rest;
      }
      assert multiset(RootThread(r, mine).messages) == multiset{r} + multiset(mine);
      assert multiset(Flatten(rest)) == multiset(others) + multiset(Filter(Reject(ch, p), ParentIn(Ids(others)))) by {
        AttachFlatten(others, Reject(ch, p));
      }
      assert multiset(mine) + multiset(Filter(Reject(ch, p), ParentIn(Ids(others)))) == multiset(Filter(ch, ParentIn(Ids(roots)))) by {
        IdsCons(roots);
        FilterThenRest(ch, p, ParentIn(Ids(others)), ParentIn(Ids(roots)));
      }
      MultisetHeadTail(roots);
      Regroup(multiset(Flatten(AttachReplies(roots, ch))), multiset(RootThread(r, mine).messages), multiset(Flatten(rest)),
              multiset(mine), multiset(Filter(Reject(ch, p), ParentIn(Ids(others)))), multiset(Filter(ch, ParentIn(Ids(roots)))),
              multiset(roots), multiset(others), r);
    }
  }

  lemma IdsCons(s: seq<Message>)
    requires |s| > 0
    ensures Ids(s) == Ids(s[1..]) + {s[0].id}
  {
    assert forall m :: m in s <==> m == s[0] || m in s[1..];
  }

  lemma Regroup(flat: multiset<Message>, first: multiset<Message>, later: multiset<Message>, mine: multiset<Message>,
                theirs: multiset<Message>, all: multiset<Message>, roots: multiset<Message>, others: multiset<Message>, r: Message)
    requires flat == first + later && first == multiset{r} + mine && later == others + theirs
    requires mine + theirs == all && roots == multiset{r} + others
    ensures flat == roots + all
  {
  }

  lemma {:induction false} GroupsFlatten(s: seq<Message>)
    ensures multiset(Flatten(GroupThreads(GroupByParent(s)))) == multiset(s)
    decreases |s|
  {
    if |s| > 0 {
      var p := ParentIs(s[0].replyToId);
      assert |Reject(s, p)| < |s| by {
        assert Reject(s, p) == Reject(s[1..], p);
      }
      GroupsFlatten(Reject(s, p));
      FilterRejectMultiset(s, p);
    }
  }

  lemma RootIdsFetched(d: seq<Message>)
    ensures RootIds(d) <= Ids(d)
  {
    forall k | k in RootIds(d)
      ensures k in Ids(d)
    {
      var m :| m in Roots(d) && m.id == k;
      FilterMember(d, ParentIs(None), m);
    }
  }

  /**
   * Where the messages go: the threads hold every root once, every reply to a
   * root once, and every reply whose parent was not fetched once, and nothing else.
   */
  lemma Placement(d: seq<Message>)
    ensures multiset(Flatten(Reconstruct(d))) == multiset(Roots(d)) + multiset(AttachedReplies(d)) + multiset(Orphans(d))
  {
    FlattenSortBy(UnorderedThreads(d));
    FlattenConcat(AttachReplies(Roots(d), Children(d)), OrphanThreads(d));
    AttachFlatten(Roots(d), Children(d));
    RootIdsFetched(d);
    FilterFilterImplied(d, ParentIn(Ids(d)), ParentIn(RootIds(d)));
    GroupsFlatten(Orphans(d));
  }

  /** Each message belongs to at most one of the three kinds, and belongs to one under the partition condition. */
  predicate PartitionCondition(d: seq<Message>) {
    && (forall i :: 0 <= i < |d| ==> d[i].id.Some?)
    && (forall i :: 0 <= i < |d| && d[i].replyToId in Ids(d) ==> d[i].replyToId in RootIds(d))
  }

  /**
   * When every message has an Id and every reply to a fetched message replies
   * to a root, each input message appears in exactly one thread, as often as
   * it appears in the input.
   */
  lemma Partition(d: seq<Message>)
    requires PartitionCondition(d)
    ensures multiset(Flatten(Reconstruct(d))) == multiset(d)
  {
    Placement(d);
    RootIdsFetched(d);
    assert None !in Ids(d);
    FilterPartition3(d, ParentIs(None), ParentIn(RootIds(d)), ParentMissing(Ids(d)));
  }

  /**
   * A reply whose parent was fetched but is not a root (a reply to a reply,
   * or a message that replies to itself) appears in no thread.
   */
  lemma Dropped(d: seq<Message>, m: Message)
    requires m.replyToId.Some? && m.replyToId in Ids(d) && m.replyToId !in RootIds(d)
    ensures m !in Flatten(Reconstruct(d))
  {
    Placement(d);
    FilterMember(d, ParentIs(None), m);
    FilterMember(d, ParentIn(RootIds(d)), m);
    FilterMember(d, ParentMissing(Ids(d)), m);
    assert m !in multiset(Flatten(Reconstruct(d)));
  }

  /** A single message that replies to itself yields no thread at all. */
  lemma SelfReplyVanishes(m: Message)
    requires m.id.Some? && m.replyToId == m.id
    ensures Reconstruct([m]) == []
  {
    assert Ids([m]) == {m.id};
    assert Roots([m]) == [];
    assert Orphans([m]) == [];
  }

  // ---------------------------------------------------------------------------
  // What each thread holds
  // ---------------------------------------------------------------------------

  /** The root a root thread was seeded with, and the children it took. */
  predicate ThreadOfRoot(t: ThreadDetails, r: Message, ch: seq<Message>) {
    && r in t.messages
    && t.isFull == Seed(r).isFull
    && forall m :: m in t.messages ==> m == r || (m in ch && m.replyToId == r.id)
  }

  lemma {:induction false} AttachMember(roots: seq<Message>, ch: seq<Message>, t: ThreadDetails)
    requires t in AttachReplies(roots, ch)
    ensures exists r :: r in roots && ThreadOfRoot(t, r, ch)
  {
    var r := roots[0];
    var p := ParentIs(r.id);
    var first := RootThread(r, Filter(ch, p));
    var rest := AttachReplies(roots[1..], Reject(ch, p));
    assert AttachReplies(roots, ch) == [first] + rest;
    if t == first {
      forall m | m in t.messages
        ensures m == r || (m in ch && m.replyToId == r.id)
      {
        assert m in multiset([r] + Filter(ch, p));
        assert m in [r] + Filter(ch, p);
        FilterMember(ch, p, m);
      }
      assert r in multiset(t.messages);
      assert ThreadOfRoot(t, r, ch);
    } else {
      assert t in rest;
      AttachMember(roots[1..], Reject(ch, p), t);
      var r' :| r' in roots[1..] && ThreadOfRoot(t, r', Reject(ch, p));
      forall m | m in t.messages
        ensures m == r' || (m in ch && m.replyToId == r'.id)
      {
        RejectMember(ch, p, m);
      }
      assert ThreadOfRoot(t, r', ch);
    }
  }

  lemma {:induction false} GroupMember(s: seq<Message>, t: ThreadDetails)
    requires t in GroupThreads(GroupByParent(s))
    ensures !t.isFull && |t.messages| > 0
    ensures forall m :: m in t.messages ==> m in s && m.replyToId == t.messages[0].replyToId
    ensures forall m :: m in s && m.replyToId == t.messages[0].replyToId ==> m in t.messages
    decreases |s|
  {
    var p := ParentIs(s[0].replyToId);
    var g := Filter(s, p);
    assert |Reject(s, p)| < |s| by {
      assert Reject(s, p) == Reject(s[1..], p);
    }
    if t == GroupThread(g) {
      forall m | m in t.messages
        ensures m in s && m.replyToId == s[0].replyToId
      {
        assert m in multiset(g);
        FilterMember(s, p, m);
      }
      assert t.messages[0] in t.messages;
      forall m | m in s && m.replyToId == t.messages[0].replyToId
        ensures m in t.messages
      {
        FilterMember(s, p, m);
        assert m in multiset(t.messages);
      }
    } else {
      GroupMember(Reject(s, p), t);
      forall m | m in t.messages
        ensures m in s
      {
        RejectMember(s, p, m);
      }
      forall m | m in s && m.replyToId == t.messages[0].replyToId
        ensures m in t.messages
      {
        RejectMember(s, p, t.messages[0]);
        RejectMember(s, p, m);
      }
    }
  }

  /**
   * A full thread holds a root and replies to that root; a partial thread
   * holds replies to one and the same parent, which was not fetched.
   */
  lemma ThreadMembership(d: seq<Message>, t: ThreadDetails)
    requires t in Reconstruct(d)
    ensures t.isFull ==>
      exists r :: (r in Roots(d) && r in t.messages
                   && forall m :: m in t.messages ==> m == r || (m in d && m.replyToId == r.id))
    ensures !t.isFull ==>
      (&& |t.messages| > 0
       && t.messages[0].replyToId.Some? && t.messages[0].replyToId !in Ids(d)
       && (forall m :: m in t.messages ==> m in d && m.replyToId == t.messages[0].replyToId)
       && (forall m :: m in d && m.replyToId == t.messages[0].replyToId ==> m in t.messages))
  {
    assert t in multiset(UnorderedThreads(d));
    if t in AttachReplies(Roots(d), Children(d)) {
      AttachMember(Roots(d), Children(d), t);
      var r :| r in Roots(d) && ThreadOfRoot(t, r, Children(d));
      FilterMember(d, ParentIs(None), r);
      assert t.isFull;
      forall m | m in t.messages
        ensures m == r || (m in d && m.replyToId == r.id)
      {
        FilterMember(d, ParentIn(Ids(d)), m);
      }
    } else {
      GroupMember(Orphans(d), t);
      var m0 := t.messages[0];
      assert m0 in t.messages;
      FilterMember(d, ParentMissing(Ids(d)), m0);
      forall m | m in t.messages
        ensures m in d
      {
        FilterMember(d, ParentMissing(Ids(d)), m);
      }
      forall m | m in d && m.replyToId == m0.replyToId
        ensures m in t.messages
      {
        FilterMember(d, ParentMissing(Ids(d)), m);
      }
    }
  }

  lemma {:induction false} AttachAllFull(roots: seq<Message>, ch: seq<Message>)
    requires forall i :: 0 <= i < |roots| ==> roots[i].replyToId.None?
    ensures Filter(AttachReplies(roots, ch), IsFullThread) == AttachReplies(roots, ch)
  {
    if |roots| > 0 {
      var p := ParentIs(roots[0].id);
      AttachAllFull(roots[1..], Reject(ch, p));
    }
  }

  lemma {:induction false} GroupsNoneFull(groups: seq<seq<Message>>)
    requires forall i :: 0 <= i < |groups| ==> |groups[i]| > 0
    ensures Filter(GroupThreads(groups), IsFullThread) == []
  {
    if |groups| > 0 {
      GroupsNoneFull(groups[1..]);
    }
  }

  /** There are exactly as many full threads as roots: each root seeds one. */
  lemma FullThreadCount(d: seq<Message>)
    ensures |Filter(Reconstruct(d), IsFullThread)| == |Roots(d)|
  {
    var u := UnorderedThreads(d);
    SortByFilterMultiset(u, LastTime, IsFullThread);
    FilterConcat(AttachReplies(Roots(d), Children(d)), OrphanThreads(d), IsFullThread);
    forall i | 0 <= i < |Roots(d)|
      ensures Roots(d)[i].replyToId.None?
    {
      FilterMember(d, ParentIs(None), Roots(d)[i]);
    }
    AttachAllFull(Roots(d), Children(d));
    GroupsNoneFull(GroupByParent(Orphans(d)));
    assert |multiset(Filter(Reconstruct(d), IsFullThread))| == |multiset(Filter(u, IsFullThread))|;
  }

  /**
   * A reply whose parent was not fetched lands in a partial thread together
   * with exactly the other replies to the same parent; a ReplyToId of "" with
   * no message of Id "" is such a reply, since only a null ReplyToId makes a root.
   */
  lemma OrphanPlacement(d: seq<Message>, m: Message)
    requires m in d && m.replyToId.Some? && m.replyToId !in Ids(d)
    ensures exists t :: (&& t in Reconstruct(d) && !t.isFull && m in t.messages
                         && (forall x :: x in t.messages ==> x.replyToId == m.replyToId)
                         && (forall x :: x in d && x.replyToId == m.replyToId ==> x in t.messages))
  {
    OrphanPlaced(d, m);
    var t := MessageInSomeThread(Reconstruct(d), m);
    FullThreadReplies(d, t, m);
    ThreadMembership(d, t);
    assert m.replyToId == t.messages[0].replyToId;
  }

  /** A reply whose parent was not fetched is in the reconstructed threads. */
  lemma OrphanPlaced(d: seq<Message>, m: Message)
    requires m in d && m.replyToId.Some? && m.replyToId !in Ids(d)
    ensures m in Flatten(Reconstruct(d))
  {
    Placement(d);
    FilterMember(d, ParentMissing(Ids(d)), m);
    assert m in multiset(Orphans(d));
    assert m in multiset(Flatten(Reconstruct(d)));
  }

  /** Every message of a full thread is a root or replies to a fetched message. */
  lemma FullThreadReplies(d: seq<Message>, t: ThreadDetails, m: Message)
    requires t in Reconstruct(d) && m in t.messages
    ensures t.isFull ==> m.replyToId == None || m.replyToId in Ids(d)
  {
    ThreadMembership(d, t);
    if t.isFull {
      var r :| r in Roots(d) && r in t.messages && forall x :: x in t.messages ==> x == r || (x in d && x.replyToId == r.id);
      FilterMember(d, ParentIs(None), r);
      assert r.id in Ids(d);
      assert m == r || m.replyToId == r.id;
    }
  }

  function MessageInSomeThread(ts: seq<ThreadDetails>, m: Message): (t: ThreadDetails)
    requires m in Flatten(ts)
    ensures t in ts && m in t.messages
  {
    if m in ts[0].messages then ts[0] else MessageInSomeThread(ts[1..], m)
  }

  /**
   * A root comes first in its thread when none of its replies is older: the
   * ordering is stable and the root was the first message.
   */
  lemma RootFirst(r: Message, replies: seq<Message>)
    requires forall i :: 0 <= i < |replies| ==> Created(r) <= Created(replies[i])
    ensures RootThread(r, replies).messages[0] == r
  {
    var s := [r] + replies;
    assert forall i :: 1 <= i < |s| ==> s[i] == replies[i - 1];
    SortByKeepsLeastFirst(s, Created);
  }

  /** A root's thread holds the root and its replies, nothing more or less. */
  lemma RootThreadContents(r: Message, replies: seq<Message>)
    ensures r.replyToId.None? ==> RootThread(r, replies).isFull
    ensures multiset(RootThread(r, replies).messages) == multiset{r} + multiset(replies)
    ensures RootThread(r, replies).lastMessageCreationTime == MaxBy([r] + replies, Created)
  {
    var s := [r] + replies;
    MaxByPermutation(s, SortBy(s, Created), Created);
  }

  /**
   * With distinct root Ids, the thread of the i-th root holds that root and
   * every child replying to it.
   */
  lemma {:induction false} AttachDistinct(roots: seq<Message>, ch: seq<Message>, i: nat)
    requires i < |roots|
    requires forall a, b :: 0 <= a < b < |roots| ==> roots[a].id != roots[b].id
    ensures AttachReplies(roots, ch)[i] == RootThread(roots[i], Filter(ch, ParentIs(roots[i].id)))
  {
    if i > 0 {
      var p := ParentIs(roots[0].id);
      AttachDistinct(roots[1..], Reject(ch, p), i - 1);
      assert roots[1..][i - 1] == roots[i];
      var q := ParentIs(roots[i].id);
      forall j | 0 <= j < |ch| && q(ch[j])
        ensures !p(ch[j])
      {
      }
      FilterAfterReject(ch, p, q);
    }
  }
}
