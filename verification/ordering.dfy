/** The display order shared by the sales and purchase lists
    (`sortSalesOrders`, `sortPurchaseOrders`): a stable sort under a
    comparator over two timestamps. */
module Ordering {
  import opened Wrappers
  import opened Seqs

  /** What the comparator reads from a record: the optional completion time
      and the creation time, both as milliseconds. */
  datatype Stamp = Stamp(completed: Option<int>, created: int)

  /** The comparator as written: a negative result puts `a` before `b`.
      Two completed records compare by completion time, newest first; an
      open record goes before a completed one; two open records compare by
      creation time, newest first. */
  function Compare(a: Stamp, b: Stamp): (r: int)
    ensures a.completed.None? && b.completed.Some? ==> r < 0
    ensures a.completed.Some? && b.completed.None? ==> r > 0
    ensures a.completed.Some? && b.completed.Some? ==>
              (r < 0 <==> a.completed.value > b.completed.value) && (r == 0 <==> a.completed.value == b.completed.value)
    ensures a.completed.None? && b.completed.None? ==>
              (r < 0 <==> a.created > b.created) && (r == 0 <==> a.created == b.created)
  {
    if a.completed.Some? && b.completed.Some? then b.completed.value - a.completed.value
    else if a.completed.None? && b.completed.Some? then -1
    else if a.completed.Some? && b.completed.None? then 1
    else b.created - a.created
  }

  /** `a` may be placed before `b`. */
  predicate Precedes(a: Stamp, b: Stamp) {
    Compare(a, b) <= 0
  }

  /** Neither record is placed before the other by the comparator. */
  predicate Ties(a: Stamp, b: Stamp) {
    Compare(a, b) == 0
  }

  /** The comparator is antisymmetric: swapping the arguments negates it. */
  lemma CompareAntisymmetric(a: Stamp, b: Stamp)
    ensures Compare(a, b) == -Compare(b, a)
  {
  }

  /** The comparator is transitive, so together with antisymmetry it is the
      consistent total preorder `Array.prototype.sort` requires. */
  lemma PrecedesTransitive(a: Stamp, b: Stamp, c: Stamp)
    requires Precedes(a, b) && Precedes(b, c)
    ensures Precedes(a, c)
  {
  }

  /** Two records tying with a third tie with each other. */
  lemma TiesEquivalence(a: Stamp, b: Stamp, k: Stamp)
    requires Ties(a, k) && Ties(b, k)
    ensures Ties(a, b)
  {
  }

  /** Every earlier element may precede every later one. */
  predicate SortedBy<T>(s: seq<T>, stamp: T -> Stamp) {
    forall i, j :: 0 <= i < j < |s| ==> Precedes(stamp(s[i]), stamp(s[j]))
  }

  /** The order in words: a record without a completion time is never
      placed after a record with one; among open records creation time does
      not increase, among completed records completion time does not
      increase. */
  predicate DisplayOrder<T>(s: seq<T>, stamp: T -> Stamp) {
    forall i, j :: 0 <= i < j < |s| ==>
      var a, b := stamp(s[i]), stamp(s[j]);
      && (b.completed.None? ==> a.completed.None? && a.created >= b.created)
      && (a.completed.Some? ==> b.completed.Some? && a.completed.value >= b.completed.value)
  }

  /** Sorted under the comparator means exactly the display order above. */
  lemma SortedIffDisplayOrder<T>(s: seq<T>, stamp: T -> Stamp)
    ensures SortedBy(s, stamp) <==> DisplayOrder(s, stamp)
  {
  }

  /** Places `x` before the first element it may precede. */
  function Insert<T>(x: T, s: seq<T>, stamp: T -> Stamp): (r: seq<T>)
    ensures |r| == |s| + 1
  {
    if |s| == 0 then [x]
    else if Precedes(stamp(x), stamp(s[0])) then [x] + s
    else [s[0]] + Insert(x, s[1..], stamp)
  }

  /** The stable sort the browser performs: each element is inserted, in
      input order, ahead of the sorted remainder. */
  function Sort<T>(s: seq<T>, stamp: T -> Stamp): (r: seq<T>)
    ensures |r| == |s|
  {
    if |s| == 0 then []
    else Insert(s[0], Sort(s[1..], stamp), stamp)
  }

  /** Insertion adds exactly the inserted element. */
  lemma {:induction false} InsertPermutes<T>(x: T, s: seq<T>, stamp: T -> Stamp)
    ensures multiset(Insert(x, s, stamp)) == multiset(s) + multiset{x}
  {
    if |s| > 0 {
      assert s == [s[0]] + s[1..];
      if !Precedes(stamp(x), stamp(s[0])) {
        InsertPermutes(x, s[1..], stamp);
      }
    }
  }

  /** The sort's output is a permutation of its input. */
  lemma {:induction false} SortPermutes<T>(s: seq<T>, stamp: T -> Stamp)
    ensures multiset(Sort(s, stamp)) == multiset(s)
  {
    if |s| > 0 {
      assert s == [s[0]] + s[1..];
      SortPermutes(s[1..], stamp);
      InsertPermutes(s[0], Sort(s[1..], stamp), stamp);
    }
  }

  lemma {:induction false} InsertSorted<T>(x: T, s: seq<T>, stamp: T -> Stamp)
    requires SortedBy(s, stamp)
    ensures SortedBy(Insert(x, s, stamp), stamp)
  {
    if |s| == 0 {
    } else if Precedes(stamp(x), stamp(s[0])) {
      forall j | 0 < j < |s|
        ensures Precedes(stamp(x), stamp(s[j]))
      {
        PrecedesTransitive(stamp(x), stamp(s[0]), stamp(s[j]));
      }
    } else {
      InsertSorted(x, s[1..], stamp);
      var rest := Insert(x, s[1..], stamp);
      InsertPermutes(x, s[1..], stamp);
      CompareAntisymmetric(stamp(x), stamp(s[0]));
      forall k | 0 <= k < |rest|
        ensures Precedes(stamp(s[0]), stamp(rest[k]))
      {
        assert rest[k] in multiset(rest);
        if rest[k] != x {
          assert rest[k] in multiset(s[1..]);
          var m :| 0 <= m < |s[1..]| && s[1..][m] == rest[k];
          assert s[m + 1] == rest[k];
        }
      }
    }
  }

  /** The sort's output is in comparator order. */
  lemma {:induction false} SortSorted<T>(s: seq<T>, stamp: T -> Stamp)
    ensures SortedBy(Sort(s, stamp), stamp)
  {
    if |s| > 0 {
      SortSorted(s[1..], stamp);
      InsertSorted(s[0], Sort(s[1..], stamp), stamp);
    }
  }

  /** Sorting a non-empty sequence inserts its head into the sorted tail. */
  lemma SortCons<T>(x: T, s: seq<T>, stamp: T -> Stamp)
    ensures Sort([x] + s, stamp) == Insert(x, Sort(s, stamp), stamp)
  {
    assert ([x] + s)[1..] == s;
  }

  /** An element that may precede the head goes in front. */
  lemma InsertFront<T>(x: T, s: seq<T>, stamp: T -> Stamp)
    requires |s| > 0 && Precedes(stamp(x), stamp(s[0]))
    ensures Insert(x, s, stamp) == [x] + s
  {
  }

  /** An element that may not precede `y` goes after it. */
  lemma InsertAfterOne<T>(x: T, y: T, stamp: T -> Stamp)
    requires !Precedes(stamp(x), stamp(y))
    ensures Insert(x, [y], stamp) == [y, x]
  {
    assert [y][1..] == [];
  }

  /** Sorting three elements where the first may precede the last, and the
      middle one may not precede the last, swaps the last two. */
  lemma SortThree<T>(a: T, b: T, c: T, stamp: T -> Stamp)
    requires Precedes(stamp(a), stamp(c)) && !Precedes(stamp(b), stamp(c))
    ensures Sort([a, b, c], stamp) == [a, c, b]
  {
    SortCons(c, [], stamp);
    assert [c] + [] == [c];
    InsertAfterOne(b, c, stamp);
    SortCons(b, [c], stamp);
    assert [b] + [c] == [b, c];
    InsertFront(a, [c, b], stamp);
    SortCons(a, [b, c], stamp);
    assert [a] + [b, c] == [a, b, c];
  }

  /** The elements of `s` that tie with `k`, in order. */
  function TieClass<T>(s: seq<T>, stamp: T -> Stamp, k: Stamp): seq<T> {
    Filter(s, y => Ties(stamp(y), k))
  }

  lemma {:induction false} InsertTieClass<T>(x: T, s: seq<T>, stamp: T -> Stamp, k: Stamp)
    ensures TieClass(Insert(x, s, stamp), stamp, k)
            == (if Ties(stamp(x), k) then [x] else []) + TieClass(s, stamp, k)
  {
    if |s| == 0 {
    } else if Precedes(stamp(x), stamp(s[0])) {
      assert ([x] + s)[1..] == s;
    } else {
      InsertTieClass(x, s[1..], stamp, k);
      var r := Insert(x, s, stamp);
      assert r[0] == s[0] && r[1..] == Insert(x, s[1..], stamp);
      if Ties(stamp(x), k) && Ties(stamp(s[0]), k) {
        TiesEquivalence(stamp(x), stamp(s[0]), k);
        assert false;
      }
    }
  }

  /** Stability: the records that tie under the comparator keep their input
      order. */
  lemma {:induction false} SortStable<T>(s: seq<T>, stamp: T -> Stamp, k: Stamp)
    ensures TieClass(Sort(s, stamp), stamp, k) == TieClass(s, stamp, k)
  {
    if |s| > 0 {
      SortStable(s[1..], stamp, k);
      InsertTieClass(s[0], Sort(s[1..], stamp), stamp, k);
    }
  }

  /** Filtering a sorted sequence leaves it sorted. */
  lemma {:induction false} FilterSorted<T>(s: seq<T>, stamp: T -> Stamp, p: T -> bool)
    requires SortedBy(s, stamp)
    ensures SortedBy(Filter(s, p), stamp)
  {
    if |s| > 0 {
      FilterSorted(s[1..], stamp, p);
      var rest := Filter(s[1..], p);
      if p(s[0]) {
        forall k | 0 <= k < |rest|
          ensures Precedes(stamp(s[0]), stamp(rest[k]))
        {
          assert rest[k] in multiset(rest);
          FilterMembership(s[1..], p, rest[k]);
          var m :| 0 <= m < |s[1..]| && s[1..][m] == rest[k];
          assert s[m + 1] == rest[k];
        }
      }
    }
  }
}
