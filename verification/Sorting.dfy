/** Stable sorting by a lexicographic rank, and why a sorted order is unique. */
module Sorting {
  /** Compared component by component. */
  datatype Rank = Rank(a: nat, b: nat, c: nat)

  predicate Below(x: Rank, y: Rank)
  {
    x.a < y.a || (x.a == y.a && (x.b < y.b || (x.b == y.b && x.c < y.c)))
  }

  ghost predicate Ordered<T(!new)>(s: seq<T>, rank: T -> Rank)
  {
    forall i, j :: 0 <= i < j < |s| ==> !Below(rank(s[j]), rank(s[i]))
  }

  /** No two entries share a rank. */
  ghost predicate Distinct<T(!new)>(s: seq<T>, rank: T -> Rank)
  {
    forall i, j :: 0 <= i < j < |s| ==> rank(s[i]) != rank(s[j])
  }

  /** The entries of one rank, in their order. */
  ghost function Of<T(!new)>(s: seq<T>, rank: T -> Rank, r: Rank): (o: seq<T>)
    ensures forall x :: x in o <==> x in s && rank(x) == r
  {
    if s == [] then []
    else (if rank(s[0]) == r then [s[0]] else []) + Of(s[1..], rank, r)
  }

  /** Two arrangements of the same entries that keep equal ranks in order. */
  ghost predicate Rearranged<T(!new)>(s: seq<T>, t: seq<T>, rank: T -> Rank)
  {
    forall r :: Of(s, rank, r) == Of(t, rank, r)
  }

  lemma {:induction false} OfConcat<T(!new)>(s: seq<T>, t: seq<T>, rank: T -> Rank, r: Rank)
    ensures Of(s + t, rank, r) == Of(s, rank, r) + Of(t, rank, r)
  {
    if s == [] {
      assert s + t == t;
    } else {
      assert (s + t)[1..] == s[1..] + t;
      OfConcat(s[1..], t, rank, r);
    }
  }

  lemma EmptyRearranged<T(!new)>(s: seq<T>, t: seq<T>, rank: T -> Rank)
    requires (s == [] || t == []) && Rearranged(s, t, rank)
    ensures s == t == []
  {
    var longer := if s == [] then t else s;
    var r := if longer == [] then Rank(0, 0, 0) else rank(longer[0]);
    assert Of(s, rank, r) == Of(t, rank, r);
  }

  /** A stable ordering of given entries is unique. */
  lemma {:induction false} OrderedUnique<T(!new)>(s: seq<T>, t: seq<T>, rank: T -> Rank)
    requires Ordered(s, rank) && Ordered(t, rank) && Rearranged(s, t, rank)
    ensures s == t
    decreases |s|
  {
    if s == [] || t == [] {
      EmptyRearranged(s, t, rank);
    } else {
      var r := rank(s[0]);
      assert s[0] in Of(s, rank, r);
      assert Of(s, rank, r) == Of(t, rank, r);
      assert s[0] in t;
      assert t[0] in Of(t, rank, rank(t[0]));
      assert Of(s, rank, rank(t[0])) == Of(t, rank, rank(t[0]));
      assert t[0] in s;
      assert !Below(rank(t[0]), r) && !Below(r, rank(t[0]));
      assert rank(t[0]) == r;
      assert Of(s, rank, r)[0] == s[0] && Of(t, rank, r)[0] == t[0];
      forall q
        ensures Of(s[1..], rank, q) == Of(t[1..], rank, q)
      {
        assert Of(s, rank, q) == Of(t, rank, q);
        assert Of(s[1..], rank, q) == if q == r then Of(s, rank, q)[1..] else Of(s, rank, q);
      }
      OrderedUnique(s[1..], t[1..], rank);
    }
  }

  lemma {:induction false} NoneOf<T(!new)>(s: seq<T>, rank: T -> Rank, r: Rank)
    requires forall i :: 0 <= i < |s| ==> rank(s[i]) != r
    ensures Of(s, rank, r) == []
  {
    if s != [] { NoneOf(s[1..], rank, r); }
  }

  lemma {:induction false} AtMostOne<T(!new)>(s: seq<T>, rank: T -> Rank, r: Rank)
    requires Distinct(s, rank)
    ensures |Of(s, rank, r)| <= 1
  {
    if s != [] {
      if rank(s[0]) == r { NoneOf(s[1..], rank, r); } else { AtMostOne(s[1..], rank, r); }
    }
  }

  /** With distinct ranks the same entries are rearranged in any order. */
  lemma SameEntries<T(!new)>(s: seq<T>, t: seq<T>, rank: T -> Rank)
    requires Distinct(s, rank) && Distinct(t, rank) && forall x :: x in s <==> x in t
    ensures Rearranged(s, t, rank)
  {
    forall r
      ensures Of(s, rank, r) == Of(t, rank, r)
    {
      AtMostOne(s, rank, r);
      AtMostOne(t, rank, r);
      var a, b := Of(s, rank, r), Of(t, rank, r);
      assert |a| == 1 ==> a[0] in b;
      assert |b| == 1 ==> b[0] in a;
    }
  }

  /** Where a later entry goes: behind everything not above it. */
  function Slot<T>(s: seq<T>, rank: T -> Rank, x: T): (i: nat)
    ensures i <= |s|
    ensures i > 0 ==> !Below(rank(x), rank(s[i - 1]))
    ensures forall j :: i <= j < |s| ==> Below(rank(x), rank(s[j]))
  {
    if s == [] then 0
    else if Below(rank(x), rank(s[|s| - 1])) then Slot(s[..|s| - 1], rank, x)
    else |s|
  }

  /** The stable sort of the standard library, as insertion of one entry after
      another. */
  function StableSort<T(!new)>(s: seq<T>, rank: T -> Rank): (t: seq<T>)
    ensures Ordered(t, rank) && Rearranged(s, t, rank)
    ensures forall x :: x in t <==> x in s
    ensures |t| == |s|
  {
    if s == [] then []
    else
      var front := StableSort(s[..|s| - 1], rank);
      var x := s[|s| - 1];
      var i := Slot(front, rank, x);
      InsertRearranges(s, front, rank, i);
      front[..i] + [x] + front[i..]
  }

  lemma InsertRearranges<T(!new)>(s: seq<T>, front: seq<T>, rank: T -> Rank, i: nat)
    requires s != [] && i <= |front| && i == Slot(front, rank, s[|s| - 1])
    requires Ordered(front, rank) && Rearranged(s[..|s| - 1], front, rank)
    requires forall x :: x in front <==> x in s[..|s| - 1]
    ensures var t := front[..i] + [s[|s| - 1]] + front[i..];
      Ordered(t, rank) && Rearranged(s, t, rank) && forall x :: x in t <==> x in s
  {
    hide Slot, Of, Below;
    var x := s[|s| - 1];
    assert front == front[..i] + front[i..];
    assert s == s[..|s| - 1] + [x];
    assert forall y :: y in front[..i] + [x] + front[i..] <==> y in front || y == x;
    InsertOrdered(front, rank, x);
    forall r
      ensures Of(s, rank, r) == Of(front[..i] + [x] + front[i..], rank, r)
    {
      OfConcat(s[..|s| - 1], [x], rank, r);
      assert Of(s[..|s| - 1], rank, r) == Of(front, rank, r);
      InsertOf(front, rank, x, r);
    }
  }

  lemma InsertOrdered<T(!new)>(front: seq<T>, rank: T -> Rank, x: T)
    requires Ordered(front, rank)
    ensures var i := Slot(front, rank, x); Ordered(front[..i] + [x] + front[i..], rank)
  {
    hide Slot;
  }

  lemma InsertOf<T(!new)>(front: seq<T>, rank: T -> Rank, x: T, r: Rank)
    ensures var i := Slot(front, rank, x);
      Of(front[..i] + [x] + front[i..], rank, r) == Of(front, rank, r) + Of([x], rank, r)
  {
    hide Slot, Of;
    var i := Slot(front, rank, x);
    OfConcat(front[..i] + [x], front[i..], rank, r);
    OfConcat(front[..i], [x], rank, r);
    OfConcat(front[..i], front[i..], rank, r);
    assert front == front[..i] + front[i..];
    if rank(x) == r {
      NoneOf(front[i..], rank, r);
    } else {
      NoneOf([x], rank, r);
    }
    OfAround(Of(front[..i], rank, r), Of([x], rank, r), Of(front[i..], rank, r));
  }

  lemma OfAround<T>(a: seq<T>, x: seq<T>, b: seq<T>)
    requires x == [] || b == []
    ensures a + x + b == a + b + x
  {
  }
}
