/**
 * The LINQ operators the core applies to its lists: Where, the stable OrderBy,
 * Max, List.Remove and GroupBy's per-key selection. Each is a function on
 * sequences; the lemmas state what LINQ promises of it (order kept, nothing
 * lost, ties kept in input order).
 */
module Linq {

  /** Enumerable.Where: the elements that satisfy p, in order. */
  function Filter<T>(s: seq<T>, p: T -> bool): (r: seq<T>)
    ensures |r| <= |s|
  {
    if |s| == 0 then [] else (if p(s[0]) then [s[0]] else []) + Filter(s[1..], p)
  }

  /** The elements that do not satisfy p, in order. */
  function Reject<T>(s: seq<T>, p: T -> bool): (r: seq<T>)
    ensures |r| <= |s|
  {
    if |s| == 0 then [] else (if p(s[0]) then [] else [s[0]]) + Reject(s[1..], p)
  }

  lemma MultisetHeadTail<T>(s: seq<T>)
    requires |s| > 0
    ensures multiset(s) == multiset{s[0]} + multiset(s[1..])
  {
    assert s == [s[0]] + s[1..];
  }

  lemma HeadRestMultiset<T>(s: seq<T>)
    requires |s| > 0
    ensures multiset([s[0]] + s[1..]) == multiset(s)
  {
    assert [s[0]] + s[1..] == s;
  }

  /** The first k + 1 elements are the first k and the k-th. */
  lemma TakeSnoc<T>(s: seq<T>, k: nat)
    requires k < |s|
    ensures s[..k + 1] == s[..k] + [s[k]]
  {
  }

  /** Appending the k-th element after a prefix of the first k gives the prefix of the first k + 1. */
  lemma TakeSnocAfter<T>(pre: seq<T>, s: seq<T>, k: nat)
    requires k < |s|
    ensures pre + s[..k] + [s[k]] == pre + s[..k + 1]
  {
    assert s[..k + 1] == s[..k] + [s[k]];
  }

  /** A sequence is its part before k and its part from k. */
  lemma SplitAt<T>(s: seq<T>, k: nat)
    requires k <= |s|
    ensures s == s[..k] + s[k..]
  {
  }

  /** Updating position t and cutting after it adds the new element to the old prefix. */
  lemma UpdateSlice<T>(s: seq<T>, t: nat, x: T)
    requires t < |s|
    ensures s[t := x][..t + 1] == s[..t] + [x]
    ensures s[t := x][t + 1..] == s[t + 1..]
  {
  }

  /** Where keeps exactly the elements that satisfy p. */
  lemma {:induction false} FilterMember<T>(s: seq<T>, p: T -> bool, x: T)
    ensures x in Filter(s, p) <==> x in s && p(x)
  {
    if |s| > 0 {
      FilterMember(s[1..], p, x);
      assert s == [s[0]] + s[1..];
    }
  }

  lemma {:induction false} RejectMember<T>(s: seq<T>, p: T -> bool, x: T)
    ensures x in Reject(s, p) <==> x in s && !p(x)
  {
    if |s| > 0 {
      RejectMember(s[1..], p, x);
      assert s == [s[0]] + s[1..];
    }
  }

  lemma {:induction false} FilterConcat<T>(a: seq<T>, b: seq<T>, p: T -> bool)
    ensures Filter(a + b, p) == Filter(a, p) + Filter(b, p)
    decreases |a|
  {
    if |a| > 0 {
      FilterConcat(a[1..], b, p);
      var h := if p(a[0]) then [a[0]] else [];
      assert (a + b)[0] == a[0] && (a + b)[1..] == a[1..] + b;
      assert Filter(a + b, p) == h + Filter(a[1..] + b, p);
      assert Filter(a, p) == h + Filter(a[1..], p);
    } else {
      assert a + b == b;
    }
  }

  lemma {:induction false} RejectConcat<T>(a: seq<T>, b: seq<T>, p: T -> bool)
    ensures Reject(a + b, p) == Reject(a, p) + Reject(b, p)
    decreases |a|
  {
    if |a| > 0 {
      RejectConcat(a[1..], b, p);
      var h := if p(a[0]) then [] else [a[0]];
      assert (a + b)[0] == a[0] && (a + b)[1..] == a[1..] + b;
      assert Reject(a + b, p) == h + Reject(a[1..] + b, p);
      assert Reject(a, p) == h + Reject(a[1..], p);
    } else {
      assert a + b == b;
    }
  }

  /** Where(p) and Where(!p) split a list without loss. */
  lemma {:induction false} FilterRejectMultiset<T>(s: seq<T>, p: T -> bool)
    ensures multiset(Filter(s, p)) + multiset(Reject(s, p)) == multiset(s)
  {
    if |s| > 0 {
      var h, rest := s[0], s[1..];
      FilterRejectMultiset(rest, p);
      assert Filter(s, p) == (if p(h) then [h] else []) + Filter(rest, p);
      assert Reject(s, p) == (if p(h) then [] else [h]) + Reject(rest, p);
      AddHeads(if p(h) then [h] else [], Filter(rest, p), if p(h) then [] else [h], Reject(rest, p), [h], rest);
      HeadRestMultiset(s);
    }
  }

  /** Filtering a list is filtering all but its last element, then the last. */
  lemma {:induction false} FilterSnoc<T>(s: seq<T>, p: T -> bool)
    requires |s| > 0
    ensures Filter(s, p) == Filter(s[..|s| - 1], p) + Filter([s[|s| - 1]], p)
    decreases |s|
  {
    var last := [s[|s| - 1]];
    assert Filter(last, p) == (if p(s[|s| - 1]) then last else []) + Filter(last[1..], p);
    assert last[1..] == [];
    if |s| > 1 {
      var rest, init := s[1..], s[..|s| - 1];
      FilterSnoc(rest, p);
      assert rest[|rest| - 1] == s[|s| - 1];
      assert init[0] == s[0] && init[1..] == rest[..|rest| - 1];
      assert Filter(init, p) == (if p(s[0]) then [s[0]] else []) + Filter(init[1..], p);
    } else {
      assert s[..|s| - 1] == [] && s[1..] == [];
    }
  }

  /** A filter whose predicate holds of every element keeps the list. */
  lemma {:induction false} FilterAll<T>(s: seq<T>, p: T -> bool)
    requires forall i :: 0 <= i < |s| ==> p(s[i])
    ensures Filter(s, p) == s
  {
    if |s| > 0 {
      FilterAll(s[1..], p);
    }
  }

  /** A filter whose predicate holds of no element is empty. */
  lemma {:induction false} FilterNone<T>(s: seq<T>, p: T -> bool)
    requires forall i :: 0 <= i < |s| ==> !p(s[i])
    ensures Filter(s, p) == []
  {
    if |s| > 0 {
      FilterNone(s[1..], p);
    }
  }

  lemma FilterCons<T>(x: T, s: seq<T>, p: T -> bool)
    ensures Filter([x] + s, p) == (if p(x) then [x] else []) + Filter(s, p)
  {
    assert ([x] + s)[0] == x && ([x] + s)[1..] == s;
  }

  /** Filtering by q after filtering by a weaker p is filtering by q. */
  lemma {:induction false} FilterFilterImplied<T>(s: seq<T>, p: T -> bool, q: T -> bool)
    requires forall i :: 0 <= i < |s| && q(s[i]) ==> p(s[i])
    ensures Filter(Filter(s, p), q) == Filter(s, q)
  {
    if |s| > 0 {
      FilterFilterImplied(s[1..], p, q);
      var fp := Filter(s[1..], p);
      if p(s[0]) {
        assert Filter(s, p) == [s[0]] + fp;
        FilterCons(s[0], fp, q);
      } else {
        assert Filter(s, p) == fp;
        assert Filter(s, q) == Filter(s[1..], q);
      }
    }
  }

  /**
   * Taking the p-elements, then the q-elements of what is left, takes the
   * elements that satisfy either.
   */
  lemma {:induction false} FilterThenRest<T>(s: seq<T>, p: T -> bool, q: T -> bool, pq: T -> bool)
    requires forall i :: 0 <= i < |s| ==> pq(s[i]) == (p(s[i]) || q(s[i]))
    ensures multiset(Filter(s, p)) + multiset(Filter(Reject(s, p), q)) == multiset(Filter(s, pq))
  {
    if |s| > 0 {
      var c, tail := s[0], s[1..];
      FilterThenRest(tail, p, q, pq);
      var hq := if !p(c) && q(c) then [c] else [];
      assert Filter(Reject(s, p), q) == hq + Filter(Reject(tail, p), q) by {
        if !p(c) {
          assert Reject(s, p) == [c] + Reject(tail, p);
          FilterCons(c, Reject(tail, p), q);
        } else {
          assert Reject(s, p) == Reject(tail, p);
        }
      }
      AddHeads(if p(c) then [c] else [], Filter(tail, p), hq, Filter(Reject(tail, p), q),
               if pq(c) then [c] else [], Filter(tail, pq));
    }
  }

  /** Three filters that between them pick every element exactly once split the list without loss. */
  lemma {:induction false} FilterPartition3<T>(s: seq<T>, p: T -> bool, q: T -> bool, r: T -> bool)
    requires forall i :: 0 <= i < |s| ==> (if p(s[i]) then 1 else 0) + (if q(s[i]) then 1 else 0) + (if r(s[i]) then 1 else 0) == 1
    ensures multiset(Filter(s, p)) + multiset(Filter(s, q)) + multiset(Filter(s, r)) == multiset(s)
  {
    if |s| > 0 {
      var c := s[0];
      FilterPartition3(s[1..], p, q, r);
      MultisetHeadTail(s);
      AddThree(if p(c) then [c] else [], Filter(s[1..], p), if q(c) then [c] else [], Filter(s[1..], q),
               if r(c) then [c] else [], Filter(s[1..], r), c, s[1..]);
    }
  }

  lemma AddThree<T>(hp: seq<T>, a: seq<T>, hq: seq<T>, b: seq<T>, hr: seq<T>, e: seq<T>, c: T, t: seq<T>)
    requires multiset(hp) + multiset(hq) + multiset(hr) == multiset{c}
    requires multiset(a) + multiset(b) + multiset(e) == multiset(t)
    ensures multiset(hp + a) + multiset(hq + b) + multiset(hr + e) == multiset{c} + multiset(t)
  {
  }

  lemma AddHeads<T>(hp: seq<T>, a: seq<T>, hq: seq<T>, b: seq<T>, hpq: seq<T>, e: seq<T>)
    requires multiset(hp) + multiset(hq) == multiset(hpq)
    requires multiset(a) + multiset(b) == multiset(e)
    ensures multiset(hp + a) + multiset(hq + b) == multiset(hpq + e)
  {
  }

  /** Filtering by q after removing the p-elements is filtering by q when no q-element is a p-element. */
  lemma {:induction false} FilterAfterReject<T>(s: seq<T>, p: T -> bool, q: T -> bool)
    requires forall i :: 0 <= i < |s| && q(s[i]) ==> !p(s[i])
    ensures Filter(Reject(s, p), q) == Filter(s, q)
  {
    if |s| > 0 {
      assert !(q(s[0]) && p(s[0]));
      FilterAfterReject(s[1..], p, q);
      var rest := Reject(s[1..], p);
      if !p(s[0]) {
        assert Reject(s, p) == [s[0]] + rest;
        assert ([s[0]] + rest)[1..] == rest;
      } else {
        assert Reject(s, p) == rest;
        assert Filter(s, q) == Filter(s[1..], q);
      }
    }
  }

  /** List.Remove(x): drops the first element equal to x, if any. */
  function RemoveFirst<T(==)>(s: seq<T>, x: T): (r: seq<T>)
    ensures x in s ==> |r| == |s| - 1 && multiset(r) == multiset(s) - multiset{x}
    ensures x !in s ==> r == s
  {
    if |s| == 0 then []
    else
      assert s == [s[0]] + s[1..];
      if s[0] == x then s[1..] else [s[0]] + RemoveFirst(s[1..], x)
  }

  /** s with its first j elements that satisfy p taken out. */
  function DropMatching<T>(s: seq<T>, p: T -> bool, j: nat): seq<T>
  {
    if |s| == 0 then []
    else if p(s[0]) && j > 0 then DropMatching(s[1..], p, j - 1)
    else [s[0]] + DropMatching(s[1..], p, j)
  }

  /**
   * Removing the matches of p one at a time, each by List.Remove, takes out the
   * next match each time: List.Remove finds no earlier equal element, because
   * an element equal to a match is a match.
   */
  lemma {:induction false} RemoveNextMatch<T>(s: seq<T>, p: T -> bool, j: nat)
    requires j < |Filter(s, p)|
    ensures RemoveFirst(DropMatching(s, p, j), Filter(s, p)[j]) == DropMatching(s, p, j + 1)
  {
    assert |s| > 0;
    var tail := Filter(s[1..], p);
    if p(s[0]) {
      assert Filter(s, p) == [s[0]] + tail;
      if j > 0 {
        assert Filter(s, p)[j] == tail[j - 1];
        RemoveNextMatch(s[1..], p, j - 1);
      } else {
        DropNoneMatching(s[1..], p);
        assert DropMatching(s, p, 0) == [s[0]] + s[1..];
      }
    } else {
      assert Filter(s, p) == tail;
      var y := tail[j];
      FilterMember(s[1..], p, y);
      assert y != s[0];
      var rest := DropMatching(s[1..], p, j);
      assert DropMatching(s, p, j) == [s[0]] + rest;
      assert ([s[0]] + rest)[1..] == rest;
      RemoveNextMatch(s[1..], p, j);
    }
  }

  lemma {:induction false} DropNoneMatching<T>(s: seq<T>, p: T -> bool)
    ensures DropMatching(s, p, 0) == s
  {
    if |s| > 0 {
      DropNoneMatching(s[1..], p);
    }
  }

  /** Once every match is taken out, what is left is the rest of the list. */
  lemma {:induction false} DropAllMatching<T>(s: seq<T>, p: T -> bool)
    ensures DropMatching(s, p, |Filter(s, p)|) == Reject(s, p)
  {
    if |s| > 0 {
      DropAllMatching(s[1..], p);
    }
  }

  predicate SortedBy<T>(s: seq<T>, key: T -> int) {
    forall i, j :: 0 <= i < j < |s| ==> key(s[i]) <= key(s[j])
  }

  /** Inserts x after the leading elements whose key is not above its own. */
  function Insert<T>(x: T, s: seq<T>, key: T -> int): (r: seq<T>)
    ensures |r| == |s| + 1
    ensures multiset(r) == multiset(s) + multiset{x}
  {
    if |s| == 0 then [x]
    else
      assert s == [s[0]] + s[1..];
      if key(x) < key(s[0]) then [x] + s else [s[0]] + Insert(x, s[1..], key)
  }

  lemma {:induction false} InsertLowerBound<T>(x: T, s: seq<T>, key: T -> int, lo: int)
    requires lo <= key(x)
    requires forall i :: 0 <= i < |s| ==> lo <= key(s[i])
    ensures forall i :: 0 <= i < |Insert(x, s, key)| ==> lo <= key(Insert(x, s, key)[i])
  {
    if |s| > 0 && key(x) >= key(s[0]) {
      InsertLowerBound(x, s[1..], key, lo);
    }
  }

  lemma SortedCons<T>(a: T, t: seq<T>, key: T -> int)
    requires SortedBy(t, key)
    requires forall i :: 0 <= i < |t| ==> key(a) <= key(t[i])
    ensures SortedBy([a] + t, key)
  {
    var r := [a] + t;
    forall i, j | 0 <= i < j < |r|
      ensures key(r[i]) <= key(r[j])
    {
      if i > 0 {
        assert r[i] == t[i - 1] && r[j] == t[j - 1];
      } else {
        assert r[j] == t[j - 1];
      }
    }
  }

  /** Inserting into a sorted list keeps it sorted. */
  lemma {:induction false} InsertSorted<T>(x: T, s: seq<T>, key: T -> int)
    requires SortedBy(s, key)
    ensures SortedBy(Insert(x, s, key), key)
  {
    if |s| > 0 {
      if key(x) < key(s[0]) {
        SortedCons(x, s, key);
      } else {
        InsertSorted(x, s[1..], key);
        InsertLowerBound(x, s[1..], key, key(s[0]));
        SortedCons(s[0], Insert(x, s[1..], key), key);
      }
    }
  }

  /**
   * Enumerable.OrderBy(key): a stable sort. Each element in turn is inserted
   * after the ones already placed with an equal key.
   */
  function SortBy<T>(s: seq<T>, key: T -> int): (r: seq<T>)
    ensures SortedBy(r, key)
    ensures |r| == |s|
    ensures multiset(r) == multiset(s)
  {
    if |s| == 0 then []
    else
      assert s == s[..|s| - 1] + [s[|s| - 1]];
      var t := SortBy(s[..|s| - 1], key);
      InsertSorted(s[|s| - 1], t, key);
      Insert(s[|s| - 1], t, key)
  }

  /** The elements whose key is v. */
  function KeyIs<T>(key: T -> int, v: int): T -> bool {
    x => key(x) == v
  }

  lemma {:induction false} InsertStable<T>(x: T, s: seq<T>, key: T -> int, v: int)
    requires SortedBy(s, key)
    ensures Filter(Insert(x, s, key), KeyIs(key, v)) == Filter(s, KeyIs(key, v)) + Filter([x], KeyIs(key, v))
  {
    if |s| == 0 {
      assert Insert(x, s, key) == [x];
      assert Filter(s, KeyIs(key, v)) == [];
    } else if key(x) < key(s[0]) {
      InsertFrontStable(x, s, key, v);
    } else {
      SortedTail(s, key);
      InsertStable(x, s[1..], key, v);
      InsertAfterStable(x, s, key, KeyIs(key, v));
    }
  }

  /** Dropping the first element of a sorted list leaves it sorted. */
  lemma SortedTail<T>(s: seq<T>, key: T -> int)
    requires SortedBy(s, key) && |s| > 0
    ensures SortedBy(s[1..], key)
  {
  }

  /** One step of Insert past the first element, for any filter, given the step for the rest. */
  lemma InsertAfterStable<T>(x: T, s: seq<T>, key: T -> int, p: T -> bool)
    requires |s| > 0 && key(x) >= key(s[0])
    requires Filter(Insert(x, s[1..], key), p) == Filter(s[1..], p) + Filter([x], p)
    ensures Filter(Insert(x, s, key), p) == Filter(s, p) + Filter([x], p)
  {
    var tail := Insert(x, s[1..], key);
    var h := if p(s[0]) then [s[0]] else [];
    assert Insert(x, s, key) == [s[0]] + tail;
    FilterCons(s[0], tail, p);
    assert Filter(s, p) == h + Filter(s[1..], p);
    AppendAssoc(h, Filter(s[1..], p), Filter([x], p));
  }

  /** Concatenation is associative. */
  lemma AppendAssoc<T>(a: seq<T>, b: seq<T>, c: seq<T>)
    ensures a + b + c == a + (b + c)
  {
  }

  lemma InsertFrontStable<T>(x: T, s: seq<T>, key: T -> int, v: int)
    requires SortedBy(s, key) && |s| > 0 && key(x) < key(s[0])
    ensures Filter(Insert(x, s, key), KeyIs(key, v)) == Filter(s, KeyIs(key, v)) + Filter([x], KeyIs(key, v))
  {
    var p := KeyIs(key, v);
    assert Insert(x, s, key) == [x] + s;
    FilterCons(x, s, p);
    FilterCons(x, [], p);
    if key(x) == v {
      BelowLeastKeyNone(s, key, v);
    }
  }

  /** In a sorted list no element has a key below the first one's. */
  lemma BelowLeastKeyNone<T>(s: seq<T>, key: T -> int, v: int)
    requires SortedBy(s, key) && |s| > 0 && v < key(s[0])
    ensures Filter(s, KeyIs(key, v)) == []
  {
    forall i | 0 <= i < |s|
      ensures !KeyIs(key, v)(s[i])
    {
      if i > 0 {
        assert key(s[0]) <= key(s[i]);
      }
    }
    FilterNone(s, KeyIs(key, v));
  }

  /** OrderBy is stable: the elements with any one key keep their input order. */
  lemma {:induction false} SortByStable<T>(s: seq<T>, key: T -> int, v: int)
    ensures Filter(SortBy(s, key), KeyIs(key, v)) == Filter(s, KeyIs(key, v))
    decreases |s|
  {
    if |s| > 0 {
      var init, last := s[..|s| - 1], s[|s| - 1];
      var sorted := SortBy(init, key);
      SortByStable(init, key, v);
      InsertStable(last, sorted, key, v);
      assert SortBy(s, key) == Insert(last, sorted, key);
      FilterSnoc(s, KeyIs(key, v));
    }
  }

  lemma {:induction false} InsertFilterMultiset<T>(x: T, s: seq<T>, key: T -> int, p: T -> bool)
    ensures multiset(Filter(Insert(x, s, key), p)) == multiset(Filter(s, p)) + multiset(Filter([x], p))
  {
    var fx := Filter([x], p);
    FilterCons(x, [], p);
    if |s| == 0 {
      assert Insert(x, s, key) == [x];
    } else if key(x) < key(s[0]) {
      assert Insert(x, s, key) == [x] + s;
      FilterCons(x, s, p);
      PrependMultiset(fx, Filter(s, p));
    } else {
      var tail := Insert(x, s[1..], key);
      assert Insert(x, s, key) == [s[0]] + tail;
      FilterCons(s[0], tail, p);
      assert s == [s[0]] + s[1..];
      FilterCons(s[0], s[1..], p);
      InsertFilterMultiset(x, s[1..], key, p);
      ConsMultiset(if p(s[0]) then [s[0]] else [], Filter(tail, p), Filter(s[1..], p), fx);
    }
  }

  lemma MultisetStep<T>(inserted: seq<T>, sorted: seq<T>, init: seq<T>, last: seq<T>)
    requires multiset(sorted) == multiset(init)
    requires multiset(inserted) == multiset(sorted) + multiset(last)
    ensures multiset(inserted) == multiset(init + last)
  {
  }

  lemma PrependMultiset<T>(h: seq<T>, a: seq<T>)
    ensures multiset(h + a) == multiset(a) + multiset(h)
  {
  }

  lemma ConsMultiset<T>(h: seq<T>, a: seq<T>, b: seq<T>, c: seq<T>)
    requires multiset(a) == multiset(b) + multiset(c)
    ensures multiset(h + a) == multiset(h + b) + multiset(c)
  {
  }

  /** Sorting keeps, for every predicate, the same elements satisfying it. */
  lemma {:induction false} SortByFilterMultiset<T>(s: seq<T>, key: T -> int, p: T -> bool)
    ensures multiset(Filter(SortBy(s, key), p)) == multiset(Filter(s, p))
    decreases |s|
  {
    if |s| > 0 {
      var init, last := s[..|s| - 1], s[|s| - 1];
      var sorted := SortBy(init, key);
      SortByFilterMultiset(init, key, p);
      InsertFilterMultiset(last, sorted, key, p);
      assert SortBy(s, key) == Insert(last, sorted, key);
      FilterSnoc(s, p);
      MultisetStep(Filter(Insert(last, sorted, key), p), Filter(sorted, p), Filter(init, p), Filter([last], p));
    }
  }

  /**
   * When no element has a key below that of the first, OrderBy leaves the first
   * element first: the sort is stable and it has the least key.
   */
  lemma SortByKeepsLeastFirst<T>(s: seq<T>, key: T -> int)
    requires |s| > 0
    requires forall i :: 0 <= i < |s| ==> key(s[0]) <= key(s[i])
    ensures SortBy(s, key)[0] == s[0]
  {
    var r := SortBy(s, key);
    var v := key(s[0]);
    var p := KeyIs(key, v);
    assert r[0] in multiset(s);
    var i :| 0 <= i < |s| && s[i] == r[0];
    assert s[0] in multiset(r);
    var j :| 0 <= j < |r| && r[j] == s[0];
    assert key(r[0]) <= key(r[j]);
    assert p(r[0]) && p(s[0]);
    SortByStable(s, key, v);
    assert Filter(r, p) == [r[0]] + Filter(r[1..], p);
    assert Filter(s, p) == [s[0]] + Filter(s[1..], p);
  }

  /** Enumerable.Max(key) over a non-empty list. */
  function MaxBy<T>(s: seq<T>, key: T -> int): (m: int)
    requires |s| > 0
    ensures forall i :: 0 <= i < |s| ==> key(s[i]) <= m
    ensures exists i :: 0 <= i < |s| && key(s[i]) == m
  {
    if |s| == 1 then key(s[0])
    else
      var m := MaxBy(s[1..], key);
      assert forall i :: 1 <= i < |s| ==> key(s[i]) == key(s[1..][i - 1]);
      if key(s[0]) >= m then key(s[0]) else m
  }

  /** Max depends only on the elements, not their order. */
  lemma MaxByPermutation<T>(a: seq<T>, b: seq<T>, key: T -> int)
    requires |a| > 0 && |b| > 0 && multiset(a) == multiset(b)
    ensures MaxBy(a, key) == MaxBy(b, key)
  {
    var i :| 0 <= i < |a| && key(a[i]) == MaxBy(a, key);
    var j :| 0 <= j < |b| && key(b[j]) == MaxBy(b, key);
    assert a[i] in multiset(b);
    assert b[j] in multiset(a);
  }

  /** In a list sorted by key, the maximum is the key of the last element. */
  lemma MaxOfSorted<T>(s: seq<T>, key: T -> int)
    requires |s| > 0 && SortedBy(s, key)
    ensures MaxBy(s, key) == key(s[|s| - 1])
  {
  }

  /** GroupBy's keys: each distinct element once, in order of first occurrence. */
  function Distinct<T(==)>(s: seq<T>): (d: seq<T>)
    ensures |d| <= |s|
    ensures forall i :: 0 <= i < |d| ==> d[i] in s
  {
    if |s| == 0 then []
    else
      var front := s[..|s| - 1];
      Distinct(front) + (if s[|s| - 1] in front then [] else [s[|s| - 1]])
  }

  /** The size of key k's group: how often k occurs. */
  function CountOf<T(==)>(s: seq<T>, k: T): nat {
    if |s| == 0 then 0 else CountOf(s[..|s| - 1], k) + (if s[|s| - 1] == k then 1 else 0)
  }

  /** The position of the first occurrence of k. */
  function FirstIndex<T(==)>(s: seq<T>, k: T): (i: nat)
    requires k in s
    ensures i < |s| && s[i] == k && forall j :: 0 <= j < i ==> s[j] != k
  {
    if s[0] == k then 0 else 1 + FirstIndex(s[1..], k)
  }

  /** The first occurrence of k in s is still the first once something is appended. */
  lemma FirstIndexSnoc<T>(s: seq<T>, x: T, k: T)
    requires k in s
    ensures FirstIndex(s + [x], k) == FirstIndex(s, k)
  {
    var i := FirstIndex(s, k);
    var j := FirstIndex(s + [x], k);
    assert (s + [x])[i] == k;
  }

  /** The keys are exactly the elements of s. */
  lemma {:induction false} DistinctMembers<T>(s: seq<T>)
    ensures forall k :: k in Distinct(s) <==> k in s
  {
    if |s| > 0 {
      var front := s[..|s| - 1];
      assert s == front + [s[|s| - 1]];
      DistinctMembers(front);
    }
  }

  /** No key occurs twice. */
  lemma {:induction false} DistinctUnique<T>(s: seq<T>)
    ensures forall i, j :: 0 <= i < j < |Distinct(s)| ==> Distinct(s)[i] != Distinct(s)[j]
  {
    if |s| > 0 {
      var front := s[..|s| - 1];
      DistinctUnique(front);
      DistinctMembers(front);
    }
  }

  /** The keys come in the order of their first occurrence in s. */
  lemma {:induction false} DistinctOrder<T>(s: seq<T>)
    ensures forall i, j :: 0 <= i < j < |Distinct(s)| ==> FirstIndex(s, Distinct(s)[i]) < FirstIndex(s, Distinct(s)[j])
  {
    DistinctMembers(s);
    if |s| > 0 {
      var front := s[..|s| - 1];
      var x := s[|s| - 1];
      assert s == front + [x];
      DistinctOrder(front);
      DistinctMembers(front);
      var d := Distinct(front);
      forall i | 0 <= i < |d|
        ensures FirstIndex(s, d[i]) == FirstIndex(front, d[i])
      {
        FirstIndexSnoc(front, x, d[i]);
      }
      if x !in front {
        assert FirstIndex(s, x) == |front| by {
          assert s[|front|] == x;
        }
      }
    }
  }

  /** The group sizes add up to the length of s. */
  lemma {:induction false} DistinctCounts<T>(s: seq<T>)
    ensures SumCounts(Distinct(s), s) == |s|
  {
    if |s| > 0 {
      var front := s[..|s| - 1];
      var x := s[|s| - 1];
      assert s == front + [x];
      DistinctCounts(front);
      var d := Distinct(front);
      assert SumCounts(d, s) == |front| + CountOf(d, x) by {
        SumCountsSnoc(d, front, x);
      }
      assert CountOf(d, x) == if x in front then 1 else 0 by {
        DistinctMembers(front);
        DistinctUnique(front);
        OccursOnce(d, x);
      }
      if x in front {
        assert Distinct(s) == d;
      } else {
        assert Distinct(s) == d + [x];
        assert CountOf(s, x) == 1 by {
          CountAbsent(front, x);
        }
        SumCountsSnocKey(d, s, x);
      }
    }
  }

  /** The sum of the group sizes, over the keys ks. */
  function SumCounts<T(==)>(ks: seq<T>, s: seq<T>): nat {
    if |ks| == 0 then 0 else SumCounts(ks[..|ks| - 1], s) + CountOf(s, ks[|ks| - 1])
  }

  /** Appending x to s adds one to the sum per occurrence of x among the keys. */
  lemma {:induction false} SumCountsSnoc<T>(ks: seq<T>, s: seq<T>, x: T)
    ensures SumCounts(ks, s + [x]) == SumCounts(ks, s) + CountOf(ks, x)
  {
    if |ks| > 0 {
      SumCountsSnoc(ks[..|ks| - 1], s, x);
      assert (s + [x])[..|s|] == s;
    }
  }

  lemma SumCountsSnocKey<T>(ks: seq<T>, s: seq<T>, k: T)
    ensures SumCounts(ks + [k], s) == SumCounts(ks, s) + CountOf(s, k)
  {
    assert (ks + [k])[..|ks|] == ks;
  }

  lemma {:induction false} CountAbsent<T>(s: seq<T>, k: T)
    requires k !in s
    ensures CountOf(s, k) == 0
  {
    if |s| > 0 {
      CountAbsent(s[..|s| - 1], k);
    }
  }

  /** In a list without duplicates an element occurs once if at all. */
  lemma {:induction false} OccursOnce<T>(d: seq<T>, k: T)
    requires forall i, j :: 0 <= i < j < |d| ==> d[i] != d[j]
    ensures CountOf(d, k) == if k in d then 1 else 0
  {
    if |d| > 0 {
      var front := d[..|d| - 1];
      OccursOnce(front, k);
      assert d == front + [d[|d| - 1]];
    }
  }
}
