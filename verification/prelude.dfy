/** Shared vocabulary for the model: optional values and error results,
    the Python arithmetic and slicing the services rely on, filtering and
    counting over sequences, and timestamps in whole seconds. */
module Prelude {

  /** An optional value; also stands for a dictionary key that may be absent. */
  datatype Option<+T> = None | Some(value: T) {

    /** The value, or `default` when absent: Python's `dict.get(key, default)`. */
    function GetOr(default: T): T {
      match this
      case Some(v) => v
      case None => default
    }
  }

  /** A value, or the error the Python code would have raised instead. */
  datatype Result<+T, +E> = Success(value: T) | Failure(error: E)

  function Min(a: int, b: int): int { if a <= b then a else b }

  function Max(a: int, b: int): int { if a <= b then b else a }

  /** Python's `max(lo, min(hi, x))` on reals. */
  function Clamp(x: real, lo: real, hi: real): (r: real)
    requires lo <= hi
    ensures lo <= r <= hi
    ensures lo <= x <= hi ==> r == x
    ensures x < lo ==> r == lo
    ensures hi < x ==> r == hi
  {
    if x < lo then lo else if hi < x then hi else x
  }

  /** Python's `int(x)` on a float: drops the fraction, rounding toward zero. */
  function Trunc(x: real): (n: int)
    ensures 0.0 <= x ==> 0 <= n && n as real <= x < n as real + 1.0
    ensures x < 0.0 ==> n <= 0 && n as real - 1.0 < x <= n as real
  {
    if 0.0 <= x then x.Floor else -((-x).Floor)
  }

  lemma TruncMonotone(x: real, y: real)
    requires x <= y
    ensures Trunc(x) <= Trunc(y)
  {
  }

  /** A point in time, in whole seconds since the epoch (UTC). */
  type Instant = int

  const SecondsPerDay: int := 86400

  /** The calendar day of a timestamp, Python's `.date()`: the day number
      rounds down, also for instants before the epoch. */
  function DayOf(t: Instant): (d: int)
    ensures d * SecondsPerDay <= t < (d + 1) * SecondsPerDay
  {
    t / SecondsPerDay
  }

  /** Python's `s[:n]`: a negative `n` counts from the end. */
  function Prefix<T>(s: seq<T>, n: int): (r: seq<T>)
    ensures r <= s
    ensures 0 <= n ==> |r| == Min(n, |s|)
    ensures n < 0 ==> |r| == Max(|s| + n, 0)
  {
    if 0 <= n then s[..Min(n, |s|)] else s[..Max(|s| + n, 0)]
  }

  /** A list comprehension `[x for x in s if p(x)]`. */
  function Filter<T>(s: seq<T>, p: T -> bool): (r: seq<T>)
    ensures |r| <= |s|
    ensures forall i :: 0 <= i < |r| ==> r[i] in s && p(r[i])
    ensures forall i :: 0 <= i < |s| && p(s[i]) ==> s[i] in r
    ensures (forall i :: 0 <= i < |s| ==> !p(s[i])) ==> r == []
    ensures |r| == Count(s, p)
  {
    if |s| == 0 then [] else (if p(s[0]) then [s[0]] else []) + Filter(s[1..], p)
  }

  /** Filtering keeps the original order: filtering a concatenation is
      concatenating the filtered parts. Together with the one-element case
      this pins the result down completely. */
  lemma {:induction false} FilterAppend<T>(a: seq<T>, b: seq<T>, p: T -> bool)
    ensures Filter(a + b, p) == Filter(a, p) + Filter(b, p)
  {
    if |a| == 0 {
      assert a + b == b;
    } else {
      assert (a + b)[0] == a[0];
      assert (a + b)[1..] == a[1..] + b;
      FilterAppend(a[1..], b, p);
    }
  }

  /** Filtering a single element keeps it exactly when it satisfies `p`. */
  lemma FilterSingleton<T>(x: T, p: T -> bool)
    ensures Filter([x], p) == if p(x) then [x] else []
  {
    assert [x][1..] == [];
  }

  /** Filtering by a condition every element meets changes nothing. */
  lemma {:induction false} FilterKeepsAll<T>(s: seq<T>, p: T -> bool)
    requires forall i :: 0 <= i < |s| ==> p(s[i])
    ensures Filter(s, p) == s
  {
    if |s| > 0 {
      var rest := s[1..];
      forall i | 0 <= i < |rest|
        ensures p(rest[i])
      {
        assert rest[i] == s[i + 1];
      }
      FilterKeepsAll(rest, p);
      assert p(s[0]);
      assert s == [s[0]] + rest;
    }
  }

  /** `sum(1 for x in s if p(x))`: how many elements satisfy `p`. */
  function Count<T>(s: seq<T>, p: T -> bool): (n: nat)
    ensures n <= |s|
  {
    if |s| == 0 then 0 else (if p(s[0]) then 1 else 0) + Count(s[1..], p)
  }

  /** A weaker condition counts at least as many elements. */
  lemma {:induction false} CountMonotone<T>(s: seq<T>, p: T -> bool, q: T -> bool)
    requires forall i :: 0 <= i < |s| && p(s[i]) ==> q(s[i])
    ensures Count(s, p) <= Count(s, q)
  {
    if |s| > 0 {
      assert forall i :: 0 <= i < |s[1..]| ==> s[1..][i] == s[i + 1];
      CountMonotone(s[1..], p, q);
    }
  }

  /** Python's `sum(s)` over reals. */
  function Sum(s: seq<real>): real {
    if |s| == 0 then 0.0 else Sum(s[..|s| - 1]) + s[|s| - 1]
  }

  /** A sum of terms each below `c` is below `c` times their number. */
  lemma {:induction false} SumBelow(s: seq<real>, c: real)
    requires |s| > 0
    requires forall i :: 0 <= i < |s| ==> s[i] < c
    ensures Sum(s) < c * |s| as real
  {
    if |s| > 1 {
      SumBelow(s[..|s| - 1], c);
    }
  }

  /** A sum of terms each at least `c` is at least `c` times their number. */
  lemma {:induction false} SumAtLeast(s: seq<real>, c: real)
    requires forall i :: 0 <= i < |s| ==> c <= s[i]
    ensures c * |s| as real <= Sum(s)
  {
    if |s| > 0 {
      SumAtLeast(s[..|s| - 1], c);
    }
  }

  /** Scaling a non-negative amount by a factor of at least 1 never
      shrinks it. */
  lemma ScaleGrows(x: real, f: real)
    requires 0.0 <= x && 1.0 <= f
    ensures x <= x * f
  {
    assert x * f - x == x * (f - 1.0);
  }

  /** Scaling by a factor of at least 1 never truncates lower. */
  lemma TruncScaledGrows(x: real, f: real)
    requires 0.0 <= x && 1.0 <= f
    ensures Trunc(x) <= Trunc(x * f)
  {
    var y := x * f;
    ScaleGrows(x, f);
    TruncMonotone(x, y);
  }

  /** A number times a positive divisor, divided by it, is the number. */
  lemma QuotientOfProduct(r: real, d: real, s: real)
    requires 0.0 < d && r * d == s
    ensures r == s / d
  {
  }

  /** Dividing by a positive number keeps a strict upper bound ... */
  lemma QuotientBelow(x: real, n: real, c: real)
    requires 0.0 < n && x < c * n
    ensures x / n < c
  {
    var q := x / n;
    assert q * n == x;
    assert (c - q) * n > 0.0;
  }

  /** ... and a lower bound. */
  lemma QuotientAtLeast(x: real, n: real, c: real)
    requires 0.0 < n && c * n <= x
    ensures c <= x / n
  {
    var q := x / n;
    assert q * n == x;
    assert (q - c) * n >= 0.0;
  }
}
