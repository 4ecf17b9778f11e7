/** Types shared by every component of the model. */
module Prelude {

  datatype Option<+T> = None | Some(value: T)

  /** A modelled call either returns a value or raises one of the errors below. */
  datatype Result<+T, +E> = Ok(value: T) | Err(error: E)

  /** The exception classes that the modelled code raises, and the database's refusal of a row at a flush. */
  datatype Violation =
    | IntegrityViolation
    | ValidationError
    | DivisionByZero
    | GovernanceViolation
    | PointInTimeViolation
    | ConstraintViolation

  /** An aware UTC timestamp, in microseconds since the epoch. */
  type Time = int

  const MICROS_PER_DAY := 86_400_000_000
  const MICROS_PER_SECOND := 1_000_000

  /** Membership of an instant in a half-open validity interval; no upper bound means forever. */
  predicate InInterval(from: Time, until: Option<Time>, t: Time) {
    from <= t && (until.None? || t < until.value)
  }

  /** The characters that `str.strip` removes. */
  predicate Space(c: char) {
    var n := c as int;
    || 0x09 <= n <= 0x0D || 0x1C <= n <= 0x20 || n == 0x85 || n == 0xA0 || n == 0x1680 || 0x2000 <= n <= 0x200A
    || n == 0x2028 || n == 0x2029 || n == 0x202F || n == 0x205F || n == 0x3000
  }

  function Max(a: real, b: real): real {
    if a < b then b else a
  }

  function Min(a: real, b: real): real {
    if b < a then b else a
  }

  /** The elements of xs that satisfy p, in order. */
  function Filter<T(!new)>(xs: seq<T>, p: T -> bool): (r: seq<T>)
    ensures forall x :: x in r <==> x in xs && p(x)
    ensures |r| <= |xs|
  {
    if xs == [] then []
    else
      var rest := Filter(xs[..|xs| - 1], p);
      if p(xs[|xs| - 1]) then rest + [xs[|xs| - 1]] else rest
  }

  /** Filtering drops nothing, and shortens nothing, just when all elements pass. */
  lemma {:induction false} FilterAll<T(!new)>(xs: seq<T>, p: T -> bool)
    ensures Filter(xs, p) == xs <==> forall x :: x in xs ==> p(x)
    ensures |Filter(xs, p)| == |xs| <==> forall x :: x in xs ==> p(x)
  {
    if xs != [] {
      var n := |xs| - 1;
      FilterAll(xs[..n], p);
      assert xs == xs[..n] + [xs[n]];
    }
  }

  /** Filtering a sequence without repetitions repeats nothing. */
  lemma {:induction false} FilterDistinct<T(!new)>(xs: seq<T>, p: T -> bool)
    requires forall i, j :: 0 <= i < j < |xs| ==> xs[i] != xs[j]
    ensures forall i, j :: 0 <= i < j < |Filter(xs, p)| ==> Filter(xs, p)[i] != Filter(xs, p)[j]
  {
    if xs != [] {
      var init, last := xs[..|xs| - 1], xs[|xs| - 1];
      FilterDistinct(init, p);
      var rest, r := Filter(init, p), Filter(xs, p);
      forall i, j | 0 <= i < j < |r| ensures r[i] != r[j] {
        if j == |rest| {
          assert rest[i] in rest && rest[i] in init;
        }
      }
    }
  }

  /** Filtering keeps the order of what it keeps. */
  lemma {:induction false} FilterKeepsOrder<T(!new)>(xs: seq<T>, p: T -> bool, leq: (T, T) -> bool)
    requires forall i, j :: 0 <= i < j < |xs| ==> leq(xs[i], xs[j])
    ensures forall i, j :: 0 <= i < j < |Filter(xs, p)| ==> leq(Filter(xs, p)[i], Filter(xs, p)[j])
  {
    if xs != [] {
      var init, last := xs[..|xs| - 1], xs[|xs| - 1];
      FilterKeepsOrder(init, p, leq);
      var rest, r := Filter(init, p), Filter(xs, p);
      forall i, j | 0 <= i < j < |r| ensures leq(r[i], r[j]) {
        if j == |rest| {
          assert rest[i] in rest && rest[i] in init;
        }
      }
    }
  }

  /** Keeps the first occurrence of every element, as `dict.fromkeys` does. */
  function Distinct<T(==, !new)>(xs: seq<T>): (r: seq<T>)
    ensures forall x :: x in r <==> x in xs
    ensures forall i, j :: 0 <= i < j < |r| ==> r[i] != r[j]
  {
    if xs == [] then []
    else
      var rest := Distinct(xs[..|xs| - 1]);
      if xs[|xs| - 1] in rest then rest else rest + [xs[|xs| - 1]]
  }
}
