/** Sorting with a caller-supplied order: `sorted(...)` in Python and ORDER BY in SQL. */
module Ordering {

  ghost predicate TotalPreorder<T(!new)>(leq: (T, T) -> bool) {
    && (forall x, y :: leq(x, y) || leq(y, x))
    && (forall x, y, z :: leq(x, y) && leq(y, z) ==> leq(x, z))
  }

  ghost predicate Sorted<T>(xs: seq<T>, leq: (T, T) -> bool) {
    forall i, j :: 0 <= i < j < |xs| ==> leq(xs[i], xs[j])
  }

  function Insert<T(!new)>(x: T, xs: seq<T>, leq: (T, T) -> bool): (r: seq<T>)
    ensures multiset(r) == multiset{x} + multiset(xs)
    ensures |r| == |xs| + 1
  {
    if xs == [] then [x]
    else if leq(x, xs[0]) then [x] + xs
    else
      assert xs == [xs[0]] + xs[1..];
      [xs[0]] + Insert(x, xs[1..], leq)
  }

  lemma {:induction false} InsertSorted<T(!new)>(x: T, xs: seq<T>, leq: (T, T) -> bool)
    requires TotalPreorder(leq) && Sorted(xs, leq)
    ensures Sorted(Insert(x, xs, leq), leq)
  {
    if xs != [] && !leq(x, xs[0]) {
      InsertSorted(x, xs[1..], leq);
      var r := Insert(x, xs[1..], leq);
      assert xs == [xs[0]] + xs[1..];
      forall y | y in r ensures leq(xs[0], y) {
        assert y in multiset(r);
        assert y == x || y in xs[1..];
      }
    }
  }

  /** A stable insertion sort. */
  function SortBy<T(!new)>(xs: seq<T>, leq: (T, T) -> bool): (r: seq<T>)
    ensures multiset(r) == multiset(xs)
    ensures |r| == |xs|
  {
    if xs == [] then []
    else
      assert xs == [xs[0]] + xs[1..];
      Insert(xs[0], SortBy(xs[1..], leq), leq)
  }

  lemma {:induction false} SortBySorted<T(!new)>(xs: seq<T>, leq: (T, T) -> bool)
    requires TotalPreorder(leq)
    ensures Sorted(SortBy(xs, leq), leq)
  {
    if xs != [] {
      SortBySorted(xs[1..], leq);
      InsertSorted(xs[0], SortBy(xs[1..], leq), leq);
    }
  }

  lemma SortByMembers<T(!new)>(xs: seq<T>, leq: (T, T) -> bool)
    ensures forall x :: x in SortBy(xs, leq) <==> x in xs
  {
    forall x ensures x in SortBy(xs, leq) <==> x in xs {
      assert x in SortBy(xs, leq) <==> x in multiset(SortBy(xs, leq));
      assert x in xs <==> x in multiset(xs);
    }
  }

  /** Sorting keeps a duplicate-free sequence duplicate-free. */
  lemma SortByDistinct<T(!new)>(xs: seq<T>, leq: (T, T) -> bool)
    requires forall i, j :: 0 <= i < j < |xs| ==> xs[i] != xs[j]
    ensures forall i, j :: 0 <= i < j < |xs| ==> SortBy(xs, leq)[i] != SortBy(xs, leq)[j]
  {
    MultiplicityOne(xs);
    SortByMembers(xs, leq);
    DistinctFromMultiplicity(SortBy(xs, leq));
  }

  /** A set of rows that the order tells apart can be sorted in one way only. */
  lemma {:induction false} SortedUnique<T(!new)>(xs: seq<T>, ys: seq<T>, leq: (T, T) -> bool)
    requires TotalPreorder(leq) && Sorted(xs, leq) && Sorted(ys, leq) && multiset(xs) == multiset(ys)
    requires forall x, y :: x in xs && y in xs && leq(x, y) && leq(y, x) ==> x == y
    ensures xs == ys
  {
    assert |xs| == |multiset(xs)| == |multiset(ys)| == |ys|;
    if xs != [] {
      hide *;
      SortedSameHead(xs, ys, leq);
      TailOf(xs, leq);
      TailOf(ys, leq);
      SortedUnique(xs[1..], ys[1..], leq);
    }
  }

  lemma TailOf<T(!new)>(xs: seq<T>, leq: (T, T) -> bool)
    requires xs != [] && Sorted(xs, leq)
    ensures xs == [xs[0]] + xs[1..] && multiset(xs[1..]) == multiset(xs) - multiset{xs[0]}
    ensures Sorted(xs[1..], leq) && forall x :: x in xs[1..] ==> x in xs
  {
    assert xs == [xs[0]] + xs[1..];
  }

  lemma SortedSameHead<T(!new)>(xs: seq<T>, ys: seq<T>, leq: (T, T) -> bool)
    requires TotalPreorder(leq) && Sorted(xs, leq) && Sorted(ys, leq) && multiset(xs) == multiset(ys) && xs != []
             && ys != []
    requires forall x, y :: x in xs && y in xs && leq(x, y) && leq(y, x) ==> x == y
    ensures xs[0] == ys[0]
  {
    assert xs[0] in multiset(xs) && xs[0] in multiset(ys) && xs[0] in ys;
    assert ys[0] in multiset(ys) && ys[0] in multiset(xs) && ys[0] in xs;
    assert leq(xs[0], ys[0]) && leq(ys[0], xs[0]);
  }

  lemma {:induction false} DistinctFromMultiplicity<T>(xs: seq<T>)
    requires forall x :: x in xs ==> multiset(xs)[x] == 1
    ensures forall i, j :: 0 <= i < j < |xs| ==> xs[i] != xs[j]
  {
    if xs != [] {
      var n := |xs| - 1;
      assert xs == xs[..n] + [xs[n]];
      forall x | x in xs[..n] ensures multiset(xs[..n])[x] == 1 {
        assert x in multiset(xs[..n]);
        assert multiset(xs)[x] == multiset(xs[..n])[x] + multiset([xs[n]])[x];
      }
      DistinctFromMultiplicity(xs[..n]);
      assert multiset(xs)[xs[n]] == multiset(xs[..n])[xs[n]] + 1;
      assert xs[n] in xs && xs[n] !in multiset(xs[..n]);
    }
  }

  lemma {:induction false} MultiplicityOne<T>(xs: seq<T>)
    requires forall i, j :: 0 <= i < j < |xs| ==> xs[i] != xs[j]
    ensures forall x :: x in xs ==> multiset(xs)[x] == 1
  {
    if xs != [] {
      var n := |xs| - 1;
      MultiplicityOne(xs[..n]);
      assert xs == xs[..n] + [xs[n]];
      assert xs[n] !in xs[..n];
    }
  }

  /** Code-point order on strings. */
  predicate StringLeq(a: string, b: string) {
    a == [] || (b != [] && (a[0] < b[0] || (a[0] == b[0] && StringLeq(a[1..], b[1..]))))
  }

  /** The sequences agree before position k and differ there. */
  ghost predicate DifferAt<T(!new)>(a: seq<T>, b: seq<T>, k: nat) {
    k < |a| && k < |b| && a[k] != b[k] && forall i :: 0 <= i < k ==> a[i] == b[i]
  }

  lemma DifferAtHead<T(!new)>(a: seq<T>, b: seq<T>, k: nat)
    requires a != [] && b != []
    ensures a[0] == b[0] ==> (DifferAt(a, b, k) <==> k > 0 && DifferAt(a[1..], b[1..], k - 1))
    ensures a[0] == b[0] ==> (a <= b <==> a[1..] <= b[1..])
    ensures a[0] != b[0] ==> (DifferAt(a, b, k) <==> k == 0) && !(a <= b)
  {
    assert a == [a[0]] + a[1..] && b == [b[0]] + b[1..];
  }

  /** a is a prefix of b, or has the smaller character at the first difference. */
  lemma {:induction false} StringLeqMeaning(a: string, b: string)
    ensures StringLeq(a, b) <==> a <= b || exists k: nat :: DifferAt(a, b, k) && a[k] < b[k]
  {
    if a != [] && b != [] {
      StringLeqMeaning(a[1..], b[1..]);
      forall k: nat ensures a[0] == b[0] ==> (DifferAt(a, b, k + 1) <==> DifferAt(a[1..], b[1..], k)) {
        DifferAtHead(a, b, k + 1);
      }
      DifferAtHead(a, b, 0);
      hide DifferAt;
      if k: nat :| DifferAt(a, b, k) && a[k] < b[k] {
        DifferAtHead(a, b, k);
      }
    }
  }

  lemma {:induction false} StringLeqTotal(a: string, b: string)
    ensures StringLeq(a, b) || StringLeq(b, a)
    ensures StringLeq(a, b) && StringLeq(b, a) ==> a == b
  {
    if a != [] && b != [] && a[0] == b[0] {
      StringLeqTotal(a[1..], b[1..]);
      assert a == [a[0]] + a[1..] && b == [b[0]] + b[1..];
    }
  }

  lemma {:induction false} StringLeqTransitive(a: string, b: string, c: string)
    requires StringLeq(a, b) && StringLeq(b, c)
    ensures StringLeq(a, c)
  {
    if a != [] && b != [] && c != [] && a[0] == b[0] == c[0] {
      StringLeqTransitive(a[1..], b[1..], c[1..]);
    }
  }

  lemma StringsAreOrdered()
    ensures TotalPreorder(StringLeq)
  {
    forall a, b ensures StringLeq(a, b) || StringLeq(b, a) {
      StringLeqTotal(a, b);
    }
    forall a, b, c | StringLeq(a, b) && StringLeq(b, c) ensures StringLeq(a, c) {
      StringLeqTransitive(a, b, c);
    }
  }

  /** Tuples of strings, compared at their first difference. */
  predicate TupleLeq(a: seq<string>, b: seq<string>) {
    if a == [] then true
    else if b == [] then false
    else if a[0] == b[0] then TupleLeq(a[1..], b[1..])
    else StringLeq(a[0], b[0])
  }

  /** a is a prefix of b, or has the smaller string at the first difference. */
  lemma {:induction false} TupleLeqMeaning(a: seq<string>, b: seq<string>)
    ensures TupleLeq(a, b) <==> a <= b || exists k: nat :: DifferAt(a, b, k) && StringLeq(a[k], b[k])
  {
    hide StringLeq;
    if a != [] && b != [] {
      TupleLeqMeaning(a[1..], b[1..]);
      forall k: nat ensures a[0] == b[0] ==> (DifferAt(a, b, k + 1) <==> DifferAt(a[1..], b[1..], k)) {
        DifferAtHead(a, b, k + 1);
      }
      DifferAtHead(a, b, 0);
      hide DifferAt;
      if k: nat :| DifferAt(a, b, k) && StringLeq(a[k], b[k]) {
        DifferAtHead(a, b, k);
      }
    }
  }

  lemma {:induction false} TupleLeqTotal(a: seq<string>, b: seq<string>)
    ensures TupleLeq(a, b) || TupleLeq(b, a)
    ensures TupleLeq(a, b) && TupleLeq(b, a) ==> a == b
  {
    if a != [] && b != [] {
      StringLeqTotal(a[0], b[0]);
      if a[0] == b[0] {
        TupleLeqTotal(a[1..], b[1..]);
        assert a == [a[0]] + a[1..] && b == [b[0]] + b[1..];
      }
    }
  }

  lemma {:induction false} TupleLeqTransitive(a: seq<string>, b: seq<string>, c: seq<string>)
    requires TupleLeq(a, b) && TupleLeq(b, c)
    ensures TupleLeq(a, c)
  {
    if a != [] && b != [] && c != [] {
      if a[0] == b[0] == c[0] {
        TupleLeqTransitive(a[1..], b[1..], c[1..]);
      } else if a[0] != b[0] && b[0] != c[0] {
        StringLeqTransitive(a[0], b[0], c[0]);
        StringLeqTotal(a[0], b[0]);
      }
    }
  }

  /** Two sequences without repetitions and with the same members hold the same multiset. */
  lemma SameMembersSameMultiset<T(!new)>(xs: seq<T>, ys: seq<T>)
    requires forall i, j :: 0 <= i < j < |xs| ==> xs[i] != xs[j]
    requires forall i, j :: 0 <= i < j < |ys| ==> ys[i] != ys[j]
    requires forall x :: x in xs <==> x in ys
    ensures multiset(xs) == multiset(ys)
  {
    MultiplicityOne(xs);
    MultiplicityOne(ys);
    forall x ensures multiset(xs)[x] == multiset(ys)[x] {
      if x in xs {
        assert x in ys;
      } else {
        assert x !in ys && x !in multiset(xs) && x !in multiset(ys);
      }
    }
  }
}
