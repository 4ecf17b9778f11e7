/** `walk_forward_windows`: a deterministic schedule of research, validation and test windows. */
module WalkForward {
  import opened Prelude

  /** First and last point of each part. */
  datatype Window<+T> = Window(research: (T, T), validation: (T, T), forwardTest: (T, T))

  /** The number of indices in range(0, stop, step). */
  function RangeLength(stop: int, step: int): nat
    requires step >= 1
  {
    if stop <= 0 then 0 else (stop - 1) / step + 1
  }

  /** k * step is in range(0, stop, step) exactly for k below the length. */
  lemma RangeMember(stop: int, step: int, k: nat)
    requires step >= 1
    ensures k < RangeLength(stop, step) <==> k * step < stop
  {
    if stop > 0 {
      var q, rest := (stop - 1) / step, (stop - 1) % step;
      assert stop - 1 == q * step + rest;
      if k <= q {
        MulMonotone(k, q, step);
      } else {
        MulMonotone(q + 1, k, step);
        assert (q + 1) * step == q * step + step;
      }
    } else {
      MulMonotone(0, k, step);
    }
  }

  lemma MulMonotone(a: int, b: int, c: int)
    requires a <= b && c >= 0
    ensures a * c <= b * c
  {
  }

  function Count(length: nat, research: int, validation: int, test: int): nat
    requires research >= 1 && validation >= 1 && test >= 1
  {
    RangeLength(length - (research + validation + test) + 1, test)
  }

  function WalkForwardWindows<T>(points: seq<T>, research: int, validation: int,
                                 test: int): (r: Result<seq<Window<T>>, Violation>)
    ensures r.Err? <==> research < 1 || validation < 1 || test < 1
  {
    if research < 1 || validation < 1 || test < 1 then Err(ValidationError)
    else Ok(seq(Count(|points|, research, validation, test),
                k requires 0 <= k < Count(|points|, research, validation, test) =>
                  WindowAt(points, research, validation, test, k)))
  }

  function WindowAt<T>(points: seq<T>, research: int, validation: int, test: int, k: nat): Window<T>
    requires research >= 1 && validation >= 1 && test >= 1
    requires k < Count(|points|, research, validation, test)
  {
    RangeMember(|points| - (research + validation + test) + 1, test, k);
    MulMonotone(0, k, test);
    var index := k * test;
    Window(
      (points[index], points[index + research - 1]),
      (points[index + research], points[index + research + validation - 1]),
      (points[index + research + validation], points[index + research + validation + test - 1]))
  }

  /** Position p of the points lies in the forward-test part of window k. */
  predicate InTest(research: int, validation: int, test: int, k: int, p: int) {
    research + validation + k * test <= p < research + validation + (k + 1) * test
  }

  /**
   The forward-test parts tile the points behind the first research and validation part: they are
   adjacent, no position lies in two of them, every position up to the end of the last one lies in
   one, and fewer than a test size remain over.
   */
  lemma TestWindowsTile<T>(points: seq<T>, research: int, validation: int, test: int, p: int)
    requires research >= 1 && validation >= 1 && test >= 1
    requires research + validation <= p < |points|
    ensures var n := |WalkForwardWindows(points, research, validation, test).value|;
            var end := research + validation + n * test;
            && |points| - test < end <= |points|
            && (p < end <==> exists k :: 0 <= k < n && InTest(research, validation, test, k, p))
            && forall k, l :: InTest(research, validation, test, k, p) && InTest(research, validation, test, l, p) ==>
                k == l
  {
    EndOfLastTest(|points|, research, validation, test);
    CoveredOnce(research, validation, test, Count(|points|, research, validation, test), p);
    hide InTest, Count;
  }

  /**
   A position is covered by one of the first n test parts, and by one only, if and only if it lies before the end
   of the n-th.
   */
  lemma CoveredOnce(research: int, validation: int, test: int, n: nat, p: int)
    requires test >= 1 && research + validation <= p
    ensures p < research + validation + n * test <==> exists k :: 0 <= k < n && InTest(research, validation, test, k, p)
    ensures forall k, l :: InTest(research, validation, test, k, p) && InTest(research, validation, test, l, p) ==>
              k == l
  {
    var q := TestPartOf(research, validation, test, p);
    BelowMultiple(p - (research + validation), test, n);
    forall k ensures InTest(research, validation, test, k, p) <==> k == q {
      InTestIff(research, validation, test, k, p);
    }
    PartIsUnique(research, validation, test, n, p, q);
    hide InTest, TestPartOf;
  }

  /** The number of the test part that covers a position. */
  function TestPartOf(research: int, validation: int, test: int, p: int): (q: int)
    requires test >= 1
    ensures research + validation <= p ==> q >= 0
  {
    (p - (research + validation)) / test
  }

  lemma PartIsUnique(research: int, validation: int, test: int, n: nat, p: int, q: nat)
    requires forall k :: InTest(research, validation, test, k, p) <==> k == q
    ensures q < n <==> exists k :: 0 <= k < n && InTest(research, validation, test, k, p)
  {
    hide InTest;
    assert InTest(research, validation, test, q, p);
  }

  /** The test part that covers a position is found by division. */
  lemma InTestIff(research: int, validation: int, test: int, k: int, p: int)
    requires test >= 1
    ensures InTest(research, validation, test, k, p) <==> k == TestPartOf(research, validation, test, p)
  {
    var x := p - (research + validation);
    var q := x / test;
    assert x == q * test + x % test && (q + 1) * test == q * test + test;
    if InTest(research, validation, test, k, p) {
      OnlyQuotient(x, test, k);
    }
  }

  /** The last test part ends within the points, with less than another test part to spare. */
  lemma EndOfLastTest(length: nat, research: int, validation: int, test: int)
    requires research >= 1 && validation >= 1 && test >= 1 && research + validation < length
    ensures var end := research + validation + Count(length, research, validation, test) * test;
            length - test < end <= length
  {
    hide RangeLength;
    var n := Count(length, research, validation, test);
    var stop := length - (research + validation + test) + 1;
    RangeMember(stop, test, n);
    if n > 0 {
      RangeMember(stop, test, n - 1);
      assert (n - 1) * test == n * test - test;
    }
  }

  lemma BelowMultiple(x: nat, d: int, n: nat)
    requires d >= 1
    ensures x < n * d <==> x / d < n
  {
    var k := x / d;
    assert x == k * d + x % d && (k + 1) * d == k * d + d;
    if k < n {
      MulMonotone(k + 1, n, d);
    } else {
      MulMonotone(n, k, d);
    }
  }

  /** The recorded end points: each part starts right behind the one before it. */
  lemma WindowEndPoints<T>(points: seq<T>, research: int, validation: int, test: int, k: nat)
    requires research >= 1 && validation >= 1 && test >= 1
    requires k < |WalkForwardWindows(points, research, validation, test).value|
    ensures var w := WalkForwardWindows(points, research, validation, test).value[k];
            var a, b, c := k * test, k * test + research, k * test + research + validation;
            && 0 <= a <= b - 1 < b <= c - 1 < c <= c + test - 1 < |points|
            && w == Window((points[a], points[b - 1]), (points[b], points[c - 1]), (points[c], points[c + test - 1]))
            && InTest(research, validation, test, k, c) && InTest(research, validation, test, k, c + test - 1)
            && !InTest(research, validation, test, k, c - 1) && !InTest(research, validation, test, k, c + test)
  {
    RangeMember(|points| - (research + validation + test) + 1, test, k);
    MulMonotone(0, k, test);
    assert (k + 1) * test == k * test + test;
  }

  lemma OnlyQuotient(x: int, d: int, q: int)
    requires d >= 1 && q * d <= x < (q + 1) * d
    ensures q == x / d
  {
    var k := x / d;
    assert x == k * d + x % d;
    assert (k + 1) * d == k * d + d;
    if q < k {
      MulMonotone(q + 1, k, d);
    } else if k < q {
      MulMonotone(k + 1, q, d);
    }
  }
}
