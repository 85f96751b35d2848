/** The array operations the order stores are built from: `filter`, the
    index-excluding `filter` used for deletion, and slot replacement. */
module Seqs {

  /** `s.filter(p)`: the elements satisfying `p`, in their original order. */
  function Filter<T>(s: seq<T>, p: T -> bool): (r: seq<T>)
    ensures |r| <= |s|
    ensures forall i :: 0 <= i < |r| ==> p(r[i])
  {
    if |s| == 0 then []
    else if p(s[0]) then [s[0]] + Filter(s[1..], p)
    else Filter(s[1..], p)
  }

  /** `a` is `b` with some elements left out, the rest in the same order. */
  predicate IsSubsequence<T(==)>(a: seq<T>, b: seq<T>)
    decreases |b|
  {
    || |a| == 0
    || (&& |b| > 0
        && ((a[0] == b[0] && IsSubsequence(a[1..], b[1..])) || IsSubsequence(a, b[1..])))
  }

  /** An element survives the filter exactly when it was there and passes. */
  lemma {:induction false} FilterMembership<T>(s: seq<T>, p: T -> bool, x: T)
    ensures x in Filter(s, p) <==> x in s && p(x)
  {
    if |s| > 0 {
      FilterMembership(s[1..], p, x);
      assert s == [s[0]] + s[1..];
    }
  }

  /** The filter keeps the relative order of what it keeps. */
  lemma {:induction false} FilterIsSubsequence<T>(s: seq<T>, p: T -> bool)
    ensures IsSubsequence(Filter(s, p), s)
  {
    if |s| > 0 {
      FilterIsSubsequence(s[1..], p);
      var r := Filter(s, p);
      if p(s[0]) {
        assert r[0] == s[0] && r[1..] == Filter(s[1..], p);
      }
    }
  }

  /** The filter keeps every copy of a passing element and no copy of a
      failing one. */
  lemma {:induction false} FilterCount<T>(s: seq<T>, p: T -> bool, x: T)
    ensures multiset(Filter(s, p))[x] == if p(x) then multiset(s)[x] else 0
  {
    if |s| > 0 {
      FilterCount(s[1..], p, x);
      FilterHead(s, p);
      assert s == [s[0]] + s[1..];
    }
  }

  /** A filter whose predicate holds everywhere keeps everything. */
  lemma {:induction false} FilterKeepsAll<T>(s: seq<T>, p: T -> bool)
    requires forall i :: 0 <= i < |s| ==> p(s[i])
    ensures Filter(s, p) == s
  {
    if |s| > 0 {
      FilterKeepsAll(s[1..], p);
      assert s == [s[0]] + s[1..];
    }
  }

  /** The filter's contents, one step at a time. */
  lemma FilterHead<T>(s: seq<T>, p: T -> bool)
    requires |s| > 0
    ensures multiset(Filter(s, p)) == (if p(s[0]) then multiset{s[0]} else multiset{}) + multiset(Filter(s[1..], p))
  {
    if p(s[0]) {
      assert Filter(s, p) == [s[0]] + Filter(s[1..], p);
    }
  }

  /** Two sequences with the same multiset have the same members. */
  lemma SameMembers<T>(a: seq<T>, b: seq<T>)
    requires multiset(a) == multiset(b)
    ensures forall x :: x in a <==> x in b
  {
    forall x
      ensures x in a <==> x in b
    {
      assert x in a <==> x in multiset(a);
      assert x in b <==> x in multiset(b);
    }
  }

  /** `s.filter((_, j) => j !== i)`: removes the element at index `i`; an
      index outside the sequence removes nothing. */
  function RemoveAt<T>(s: seq<T>, i: nat): (r: seq<T>)
    ensures i < |s| ==> r == s[..i] + s[i + 1..]
    ensures i >= |s| ==> r == s
  {
    if |s| == 0 then []
    else if i == 0 then
      assert s[..0] + s[1..] == s[1..];
      s[1..]
    else if i < |s| then
      var t := s[1..];
      var rest := RemoveAt(t, i - 1);
      assert rest == t[..i - 1] + t[i..];
      assert t[..i - 1] == s[1..i] && t[i..] == s[i + 1..];
      assert [s[0]] + (s[1..i] + s[i + 1..]) == ([s[0]] + s[1..i]) + s[i + 1..];
      assert [s[0]] + s[1..i] == s[..i];
      [s[0]] + rest
    else
      assert [s[0]] + s[1..] == s;
      [s[0]] + RemoveAt(s[1..], i - 1)
  }

  /** Removing an index inside the sequence shortens it by one and shifts
      every later element down by one place. */
  lemma RemoveAtShifts<T>(s: seq<T>, i: nat)
    requires i < |s|
    ensures |RemoveAt(s, i)| == |s| - 1
    ensures forall j :: 0 <= j < i ==> RemoveAt(s, i)[j] == s[j]
    ensures forall j :: i <= j < |s| - 1 ==> RemoveAt(s, i)[j] == s[j + 1]
  {
  }

  /** What is left after a removal keeps its relative order. */
  lemma {:induction false} RemoveAtIsSubsequence<T>(s: seq<T>, i: nat)
    ensures IsSubsequence(RemoveAt(s, i), s)
  {
    if |s| > 0 {
      if i == 0 {
        SuffixIsSubsequence(s);
      } else {
        RemoveAtIsSubsequence(s[1..], i - 1);
        var r := RemoveAt(s, i);
        assert r[0] == s[0] && r[1..] == RemoveAt(s[1..], i - 1);
      }
    } else {
      assert RemoveAt(s, i) == [];
    }
  }

  lemma {:induction false} SelfIsSubsequence<T>(s: seq<T>)
    ensures IsSubsequence(s, s)
  {
    if |s| > 0 {
      SelfIsSubsequence(s[1..]);
    }
  }

  lemma {:induction false} SuffixIsSubsequence<T>(s: seq<T>)
    requires |s| > 0
    ensures IsSubsequence(s[1..], s)
  {
    if |s| == 1 {
      assert |s[1..]| == 0;
    } else {
      SuffixIsSubsequence(s[1..]);
      assert s[1..][0] == s[1] && s[1..][1..] == s[2..];
      SelfIsSubsequence(s[2..]);
    }
  }

  /** `copy[i] = x` on a copy of the array: slot `i` replaced, nothing else. */
  function ReplaceAt<T>(s: seq<T>, i: nat, x: T): (r: seq<T>)
    requires i < |s|
    ensures |r| == |s| && r[i] == x
    ensures forall j :: 0 <= j < |s| && j != i ==> r[j] == s[j]
  {
    s[i := x]
  }
}
