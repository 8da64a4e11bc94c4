/** Permuting a list: what a sum, a strict order and a stable listing make of it. */
module Permutations {

  function Sum<T>(f: T -> nat, s: seq<T>): nat
  {
    if s == [] then 0 else Sum(f, s[..|s| - 1]) + f(s[|s| - 1])
  }

  lemma {:induction false} SumAppend<T>(f: T -> nat, a: seq<T>, b: seq<T>)
    ensures Sum(f, a + b) == Sum(f, a) + Sum(f, b)
  {
    if b == [] {
      assert a + b == a;
    } else {
      assert (a + b)[..|a + b| - 1] == a + b[..|b| - 1];
      SumAppend(f, a, b[..|b| - 1]);
    }
  }

  lemma Around<T>(s: seq<T>, k: nat)
    requires k < |s|
    ensures s == s[..k] + [s[k]] + s[k + 1..]
  {
  }

  lemma CountAround<T>(a: seq<T>, x: T, b: seq<T>)
    ensures multiset(a + b) == multiset(a + [x] + b) - multiset{x}
  {
  }

  function Without<T>(s: seq<T>, k: nat): (r: seq<T>)
    requires k < |s|
    ensures multiset(r) == multiset(s) - multiset{s[k]}
  {
    Around(s, k);
    CountAround(s[..k], s[k], s[k + 1..]);
    s[..k] + s[k + 1..]
  }

  lemma SumOne<T>(f: T -> nat, x: T)
    ensures Sum(f, [x]) == f(x)
  {
    assert [x][..0] == [];
  }

  lemma SumAround<T>(f: T -> nat, a: seq<T>, x: T, b: seq<T>)
    ensures Sum(f, a + [x] + b) == Sum(f, a + b) + f(x)
  {
    SumAppend(f, a + [x], b);
    SumAppend(f, a, [x]);
    SumAppend(f, a, b);
    SumOne(f, x);
  }

  lemma SumWithout<T>(f: T -> nat, s: seq<T>, k: nat)
    requires k < |s|
    ensures Sum(f, s) == Sum(f, Without(s, k)) + f(s[k])
  {
    Around(s, k);
    SumAround(f, s[..k], s[k], s[k + 1..]);
  }

  /** A sum does not see the order. */
  lemma {:induction false} SumPermuted<T>(f: T -> nat, a: seq<T>, b: seq<T>)
    requires multiset(a) == multiset(b)
    ensures Sum(f, a) == Sum(f, b)
    decreases |a|
  {
    if a == [] {
      assert |multiset(b)| == 0;
      assert b == [];
    } else {
      var x := a[|a| - 1];
      assert a == a[..|a| - 1] + [x];
      assert x in multiset(b);
      var k :| 0 <= k < |b| && b[k] == x;
      SumWithout(f, b, k);
      SumPermuted(f, a[..|a| - 1], Without(b, k));
    }
  }

  function Mapped<S, T>(f: S -> T, s: seq<S>): (r: seq<T>)
    ensures |r| == |s|
  {
    if s == [] then [] else Mapped(f, s[..|s| - 1]) + [f(s[|s| - 1])]
  }

  lemma MappedSnoc<S, T>(f: S -> T, s: seq<S>, x: S)
    ensures Mapped(f, s + [x]) == Mapped(f, s) + [f(x)]
  {
    assert (s + [x])[..|s|] == s;
  }

  lemma {:induction false} MappedAppend<S, T>(f: S -> T, a: seq<S>, b: seq<S>)
    ensures Mapped(f, a + b) == Mapped(f, a) + Mapped(f, b)
  {
    if b == [] {
      assert a + b == a;
    } else {
      assert (a + b)[..|a + b| - 1] == a + b[..|b| - 1];
      MappedAppend(f, a, b[..|b| - 1]);
    }
  }

  lemma MappedWithout<S, T>(f: S -> T, s: seq<S>, k: nat)
    requires k < |s|
    ensures multiset(Mapped(f, s)) == multiset(Mapped(f, Without(s, k))) + multiset{f(s[k])}
  {
    Around(s, k);
    MappedAround(f, s[..k], s[k], s[k + 1..]);
  }

  lemma MappedAround<S, T>(f: S -> T, a: seq<S>, x: S, b: seq<S>)
    ensures multiset(Mapped(f, a + [x] + b)) == multiset(Mapped(f, a + b)) + multiset{f(x)}
  {
    MappedAppend(f, a + [x], b);
    MappedSnoc(f, a, x);
    MappedAppend(f, a, b);
  }

  /** Permuting a list permutes its image. */
  lemma {:induction false} MappedPermuted<S, T>(f: S -> T, a: seq<S>, b: seq<S>)
    requires multiset(a) == multiset(b)
    ensures multiset(Mapped(f, a)) == multiset(Mapped(f, b))
    decreases |a|
  {
    if a == [] {
      assert |multiset(b)| == 0;
      assert b == [];
    } else {
      var x := a[|a| - 1];
      assert a == a[..|a| - 1] + [x];
      assert x in multiset(b);
      var k :| 0 <= k < |b| && b[k] == x;
      MappedWithout(f, b, k);
      MappedPermuted(f, a[..|a| - 1], Without(b, k));
      MappedSnoc(f, a[..|a| - 1], x);
    }
  }

  // ------------------------------------------------------------ strict orders

  /** Strictly increasing under `less`. */
  ghost predicate Increasing<T>(less: (T, T) -> bool, s: seq<T>)
  {
    forall i, j :: 0 <= i < j < |s| ==> less(s[i], s[j])
  }

  /** A strict order that decides every two different elements of a set. */
  ghost predicate Orders<T(!new)>(less: (T, T) -> bool, elems: set<T>)
  {
    && (forall a :: a in elems ==> !less(a, a))
    && (forall a, b, c :: a in elems && b in elems && c in elems && less(a, b) && less(b, c) ==> less(a, c))
    && (forall a, b :: a in elems && b in elems && a != b ==> less(a, b) || less(b, a))
  }

  function Place<T>(less: (T, T) -> bool, x: T, s: seq<T>): (r: seq<T>)
    ensures multiset(r) == multiset(s) + multiset{x}
  {
    if s == [] || less(x, s[0]) then [x] + s
    else
      assert s == [s[0]] + s[1..];
      [s[0]] + Place(less, x, s[1..])
  }

  /** The elements of `s` in the order of `less`. */
  function Sorted<T>(less: (T, T) -> bool, s: seq<T>): (r: seq<T>)
    ensures multiset(r) == multiset(s)
  {
    if s == [] then []
    else
      assert s == s[..|s| - 1] + [s[|s| - 1]];
      Place(less, s[|s| - 1], Sorted(less, s[..|s| - 1]))
  }

  predicate Distinct<T(==)>(s: seq<T>)
  {
    forall i, j :: 0 <= i < j < |s| ==> s[i] != s[j]
  }

  lemma DistinctCounts<T>(s: seq<T>)
    ensures Distinct(s) <==> forall x :: multiset(s)[x] <= 1
  {
    if Distinct(s) {
      forall x
        ensures multiset(s)[x] <= 1
      {
        CountOnce(s, x);
      }
    } else {
      var i, j :| 0 <= i < j < |s| && s[i] == s[j];
      assert s == s[..j] + [s[j]] + s[j + 1..];
      assert s[j] in multiset(s[..j]) by {
        assert s[i] in s[..j];
      }
      assert multiset(s) == multiset(s[..j]) + multiset{s[j]} + multiset(s[j + 1..]);
      assert multiset(s)[s[j]] >= 2;
    }
  }

  lemma {:induction false} CountOnce<T>(s: seq<T>, x: T)
    requires Distinct(s)
    ensures multiset(s)[x] <= 1
  {
    if s != [] {
      var k := |s| - 1;
      assert s == s[..k] + [s[k]];
      CountOnce(s[..k], x);
      if s[k] == x {
        assert x !in s[..k];
        assert x !in multiset(s[..k]);
      }
    }
  }

  lemma InBoth<T>(a: seq<T>, b: seq<T>, x: T)
    requires multiset(a) == multiset(b)
    ensures x in a <==> x in b
  {
    assert x in multiset(a) <==> x in multiset(b);
  }

  lemma {:induction false} PlaceIncreasing<T(!new)>(less: (T, T) -> bool, x: T, s: seq<T>, elems: set<T>)
    requires Orders(less, elems) && Increasing(less, s) && x in elems && x !in s
    requires forall y :: y in s ==> y in elems
    ensures Increasing(less, Place(less, x, s))
    decreases |s|
  {
    if s != [] && !less(x, s[0]) {
      PlaceIncreasing(less, x, s[1..], elems);
      PlacedAfter(less, x, s, elems);
    } else if s != [] {
      forall y | y in s
        ensures less(x, y)
      {
        var k :| 0 <= k < |s| && s[k] == y;
        assert k == 0 || less(s[0], s[k]);
      }
    }
  }

  lemma PlacedAfter<T(!new)>(less: (T, T) -> bool, x: T, s: seq<T>, elems: set<T>)
    requires Orders(less, elems) && Increasing(less, s) && x in elems && x !in s && s != [] && !less(x, s[0])
    requires forall y :: y in s ==> y in elems
    ensures forall y :: y in Place(less, x, s[1..]) ==> less(s[0], y)
  {
    var rest := Place(less, x, s[1..]);
    assert less(s[0], x);
    CountCons(x, s[1..]);
    forall y | y in rest
      ensures less(s[0], y)
    {
      InBoth(rest, [x] + s[1..], y);
    }
  }

  lemma {:induction false} SortedIncreasing<T(!new)>(less: (T, T) -> bool, s: seq<T>, elems: set<T>)
    requires Orders(less, elems) && Distinct(s)
    requires forall y :: y in s ==> y in elems
    ensures Increasing(less, Sorted(less, s))
    decreases |s|
  {
    if s != [] {
      var front := s[..|s| - 1];
      SortedIncreasing(less, front, elems);
      var sorted := Sorted(less, front);
      forall y | y in sorted
        ensures y in front
      {
        InBoth(sorted, front, y);
      }
      assert s[|s| - 1] !in front;
      PlaceIncreasing(less, s[|s| - 1], sorted, elems);
    }
  }

  /** Two increasing lists with the same elements are the same list. */
  lemma {:induction false} IncreasingUnique<T(!new)>(less: (T, T) -> bool, a: seq<T>, b: seq<T>, elems: set<T>)
    requires Orders(less, elems) && Increasing(less, a) && Increasing(less, b)
    requires forall y :: y in a ==> y in elems
    requires multiset(a) == multiset(b)
    ensures a == b
    decreases |a|
  {
    assert |multiset(a)| == |a| && |multiset(b)| == |b|;
    if a != [] {
      SameFirst(less, a, b, elems);
      CountTail(a);
      CountTail(b);
      IncreasingUnique(less, a[1..], b[1..], elems);
    }
  }

  lemma CountTail<T>(s: seq<T>)
    requires s != []
    ensures s == [s[0]] + s[1..] && multiset(s[1..]) == multiset(s) - multiset{s[0]}
  {
    CountCons(s[0], s[1..]);
    assert s == [s[0]] + s[1..];
  }

  lemma CountSnoc<T>(s: seq<T>, x: T)
    ensures multiset(s + [x]) == multiset(s) + multiset{x}
  {
  }

  lemma CountCons<T>(x: T, s: seq<T>)
    ensures multiset([x] + s) == multiset(s) + multiset{x}
  {
  }

  lemma SameFirst<T(!new)>(less: (T, T) -> bool, a: seq<T>, b: seq<T>, elems: set<T>)
    requires Orders(less, elems) && Increasing(less, a) && Increasing(less, b)
    requires forall y :: y in a ==> y in elems
    requires multiset(a) == multiset(b) && a != [] && b != []
    ensures a[0] == b[0]
  {
    InBoth(a, b, a[0]);
    InBoth(a, b, b[0]);
    FirstIsLeast(less, a, b[0]);
    FirstIsLeast(less, b, a[0]);
  }

  lemma FirstIsLeast<T>(less: (T, T) -> bool, s: seq<T>, x: T)
    requires Increasing(less, s) && x in s
    ensures s[0] == x || less(s[0], x)
  {
    var k :| 0 <= k < |s| && s[k] == x;
    assert k == 0 || less(s[0], s[k]);
  }

  /** Sorting forgets the order things came in. */
  lemma SortForgetsOrder<T(!new)>(less: (T, T) -> bool, a: seq<T>, b: seq<T>, elems: set<T>)
    requires Orders(less, elems) && Distinct(a) && Distinct(b)
    requires forall y :: y in a ==> y in elems
    requires multiset(a) == multiset(b)
    ensures Sorted(less, a) == Sorted(less, b)
  {
    forall y | y in b
      ensures y in elems
    {
      InBoth(a, b, y);
    }
    SortedIncreasing(less, a, elems);
    SortedIncreasing(less, b, elems);
    forall y | y in Sorted(less, a)
      ensures y in elems
    {
      InBoth(Sorted(less, a), a, y);
    }
    IncreasingUnique(less, Sorted(less, a), Sorted(less, b), elems);
  }
}
