/**
 * The least-squares arithmetic behind `ForecastService::calculateTrendFactors`:
 * the sums the service accumulates and the sign of the slope they give.
 */
module Regression {

  /** PHP `array_sum` over reals. */
  function SumOf(s: seq<real>): real
  {
    if s == [] then 0.0 else SumOf(s[..|s| - 1]) + s[|s| - 1]
  }

  /** The sum of `xs[i] * ys[i]`, the `$sum_xy` (or, with ys == xs, `$sum_xx`) of the service. */
  function SumProducts(xs: seq<real>, ys: seq<real>): real
    requires |xs| == |ys|
  {
    if xs == [] then 0.0
    else SumProducts(xs[..|xs| - 1], ys[..|ys| - 1]) + xs[|xs| - 1] * ys[|ys| - 1]
  }

  /** `n·Σxy − Σx·Σy`; with ys == xs it is the denominator `n·Σx² − (Σx)²`. */
  function Numerator(xs: seq<real>, ys: seq<real>): real
    requires |xs| == |ys|
  {
    |xs| as real * SumProducts(xs, ys) - SumOf(xs) * SumOf(ys)
  }

  /**
   * The slope from the accumulated sums, `(n·Σxy − Σx·Σy) / (n·Σx² − (Σx)²)`, and 0 when the
   * denominator is 0.
   */
  function SlopeFromSums(n: real, sumX: real, sumY: real, sumXY: real, sumXX: real): real {
    if n * sumXX - sumX * sumX == 0.0 then 0.0 else (n * sumXY - sumX * sumY) / (n * sumXX - sumX * sumX)
  }

  /** The ordinary least-squares slope of ys over xs, and 0 when the xs do not spread. */
  function OlsSlope(xs: seq<real>, ys: seq<real>): real
    requires |xs| == |ys|
  {
    SlopeFromSums(|xs| as real, SumOf(xs), SumOf(ys), SumProducts(xs, ys), SumProducts(xs, xs))
  }

  /** The largest element, PHP `max($values)`. */
  function MaxOf(s: seq<real>): (r: real)
    requires |s| > 0
    ensures forall i :: 0 <= i < |s| ==> s[i] <= r
    ensures exists i :: 0 <= i < |s| && s[i] == r
  {
    if |s| == 1 then s[0]
    else
      var m := MaxOf(s[..|s| - 1]);
      assert forall i :: 0 <= i < |s| - 1 ==> s[..|s| - 1][i] == s[i];
      if s[|s| - 1] >= m then s[|s| - 1] else m
  }

  ghost predicate StrictlyIncreasing(s: seq<real>) {
    forall i, j :: 0 <= i < j < |s| ==> s[i] < s[j]
  }

  ghost predicate StrictlyDecreasing(s: seq<real>) {
    forall i, j :: 0 <= i < j < |s| ==> s[i] > s[j]
  }

  ghost predicate Constant(s: seq<real>) {
    forall i, j :: 0 <= i < j < |s| ==> s[i] == s[j]
  }

  /** What adding the point (x, y) adds to the numerator: `Σ (x − xs[i])·(y − ys[i])`. */
  function Cross(x: real, y: real, xs: seq<real>, ys: seq<real>): real
    requires |xs| == |ys|
  {
    if xs == [] then 0.0
    else Cross(x, y, xs[..|xs| - 1], ys[..|ys| - 1]) + (x - xs[|xs| - 1]) * (y - ys[|ys| - 1])
  }

  /** The polynomial identity behind one step of CrossExpand. */
  lemma CrossExpandAlgebra(n: real, n1: real, x: real, y: real, a: real, b: real,
                           sx: real, sx1: real, sy: real, sy1: real, p: real, p1: real, c: real, c1: real)
    requires n1 == n + 1.0 && sx1 == sx + a && sy1 == sy + b && p1 == p + a * b
    requires c == n * x * y - x * sy - y * sx + p && c1 == c + (x - a) * (y - b)
    ensures c1 == n1 * x * y - x * sy1 - y * sx1 + p1
  {
  }

  /** The polynomial identity behind NumeratorStep. */
  lemma StepAlgebra(n: real, n1: real, x: real, y: real, sx: real, sx1: real, sy: real, sy1: real,
                    p: real, p1: real, c: real)
    ensures n1 == n + 1.0 && sx1 == sx + x && sy1 == sy + y && p1 == p + x * y &&
            c == n * x * y - x * sy - y * sx + p ==>
            n1 * p1 - sx1 * sy1 == (n * p - sx * sy) + c
  {
  }

  /** The sign of a product with a positive factor. */
  lemma ProductSign(d: real, e: real)
    requires d > 0.0
    ensures e > 0.0 ==> d * e > 0.0
    ensures e < 0.0 ==> d * e < 0.0
    ensures e == 0.0 ==> d * e == 0.0
  {
  }

  /** The sums at the last point: each sum is the prefix's sum plus the last term. */
  lemma {:induction false} SumsAtLast(xs: seq<real>, ys: seq<real>, x: real, y: real)
    requires |xs| == |ys| > 0 && x == xs[|xs| - 1] && y == ys[|ys| - 1]
    ensures SumOf(xs) == SumOf(xs[..|xs| - 1]) + x
    ensures SumOf(ys) == SumOf(ys[..|ys| - 1]) + y
    ensures SumProducts(xs, ys) == SumProducts(xs[..|xs| - 1], ys[..|ys| - 1]) + x * y
  {
  }

  /** The cross term at the last point: the prefix's cross term plus the last product. */
  lemma CrossAtLast(x: real, y: real, xs: seq<real>, ys: seq<real>)
    requires |xs| == |ys| > 0
    ensures Cross(x, y, xs, ys)
         == Cross(x, y, xs[..|xs| - 1], ys[..|ys| - 1]) + (x - xs[|xs| - 1]) * (y - ys[|ys| - 1])
  {
  }

  /** One step of CrossExpand: the expansion for the prefix gives the expansion with the last point. */
  lemma {:induction false} CrossExpandStep(x: real, y: real, xs: seq<real>, ys: seq<real>)
    requires |xs| == |ys| > 0
    requires Cross(x, y, xs[..|xs| - 1], ys[..|ys| - 1])
          == |xs[..|xs| - 1]| as real * x * y - x * SumOf(ys[..|ys| - 1]) - y * SumOf(xs[..|xs| - 1])
             + SumProducts(xs[..|xs| - 1], ys[..|ys| - 1])
    ensures Cross(x, y, xs, ys)
         == |xs| as real * x * y - x * SumOf(ys) - y * SumOf(xs) + SumProducts(xs, ys)
  {
    SumsAtLast(xs, ys, xs[|xs| - 1], ys[|ys| - 1]);
    CrossAtLast(x, y, xs, ys);
    CrossExpandAlgebra(|xs[..|xs| - 1]| as real, |xs| as real, x, y, xs[|xs| - 1], ys[|ys| - 1],
                       SumOf(xs[..|xs| - 1]), SumOf(xs), SumOf(ys[..|ys| - 1]), SumOf(ys),
                       SumProducts(xs[..|xs| - 1], ys[..|ys| - 1]), SumProducts(xs, ys),
                       Cross(x, y, xs[..|xs| - 1], ys[..|ys| - 1]), Cross(x, y, xs, ys));
  }

  /** The cross term in closed form: `n·x·y − x·Σys − y·Σxs + Σ xs[i]·ys[i]`. */
  lemma {:induction false} CrossExpand(x: real, y: real, xs: seq<real>, ys: seq<real>)
    requires |xs| == |ys|
    ensures Cross(x, y, xs, ys)
         == |xs| as real * x * y - x * SumOf(ys) - y * SumOf(xs) + SumProducts(xs, ys)
  {
    if xs != [] {
      CrossExpand(x, y, xs[..|xs| - 1], ys[..|ys| - 1]);
      CrossExpandStep(x, y, xs, ys);
    }
  }

  /** The last point adds exactly its cross term to the numerator. */
  lemma {:induction false} NumeratorStep(xs: seq<real>, ys: seq<real>)
    requires |xs| == |ys| > 0
    ensures Numerator(xs, ys)
         == Numerator(xs[..|xs| - 1], ys[..|ys| - 1]) + Cross(xs[|xs| - 1], ys[|ys| - 1], xs[..|xs| - 1], ys[..|ys| - 1])
  {
    CrossExpand(xs[|xs| - 1], ys[|ys| - 1], xs[..|xs| - 1], ys[..|ys| - 1]);
    SumsAtLast(xs, ys, xs[|xs| - 1], ys[|ys| - 1]);
    StepAlgebra(|xs[..|xs| - 1]| as real, |xs| as real, xs[|xs| - 1], ys[|ys| - 1],
                SumOf(xs[..|xs| - 1]), SumOf(xs), SumOf(ys[..|ys| - 1]), SumOf(ys),
                SumProducts(xs[..|xs| - 1], ys[..|ys| - 1]), SumProducts(xs, ys),
                Cross(xs[|xs| - 1], ys[|ys| - 1], xs[..|xs| - 1], ys[..|ys| - 1]));
  }

  /** When (x, y) lies above and to the right of every earlier point, every cross term is positive. */
  lemma {:induction false} CrossPositive(x: real, y: real, xs: seq<real>, ys: seq<real>)
    requires |xs| == |ys|
    requires forall i :: 0 <= i < |xs| ==> xs[i] < x
    requires forall i :: 0 <= i < |ys| ==> ys[i] < y
    ensures Cross(x, y, xs, ys) >= 0.0
    ensures |xs| > 0 ==> Cross(x, y, xs, ys) > 0.0
  {
    if xs != [] {
      var xs', ys' := xs[..|xs| - 1], ys[..|ys| - 1];
      var a, b := xs[|xs| - 1], ys[|ys| - 1];
      assert forall i :: 0 <= i < |xs'| ==> xs'[i] == xs[i];
      assert forall i :: 0 <= i < |ys'| ==> ys'[i] == ys[i];
      CrossPositive(x, y, xs', ys');
      var d, e := x - a, y - b;
      assert d > 0.0 && e > 0.0;
      ProductSign(d, e);
      assert Cross(x, y, xs, ys) == Cross(x, y, xs', ys') + d * e;
    }
  }

  /** When (x, y) lies below and to the right of every earlier point, every cross term is negative. */
  lemma {:induction false} CrossNegative(x: real, y: real, xs: seq<real>, ys: seq<real>)
    requires |xs| == |ys|
    requires forall i :: 0 <= i < |xs| ==> xs[i] < x
    requires forall i :: 0 <= i < |ys| ==> ys[i] > y
    ensures Cross(x, y, xs, ys) <= 0.0
    ensures |xs| > 0 ==> Cross(x, y, xs, ys) < 0.0
  {
    if xs != [] {
      var xs', ys' := xs[..|xs| - 1], ys[..|ys| - 1];
      var a, b := xs[|xs| - 1], ys[|ys| - 1];
      assert forall i :: 0 <= i < |xs'| ==> xs'[i] == xs[i];
      assert forall i :: 0 <= i < |ys'| ==> ys'[i] == ys[i];
      CrossNegative(x, y, xs', ys');
      var d, e := x - a, y - b;
      assert d > 0.0 && e < 0.0;
      ProductSign(d, e);
      assert Cross(x, y, xs, ys) == Cross(x, y, xs', ys') + d * e;
    }
  }

  /** When y equals every earlier ys[i], every cross term is zero. */
  lemma {:induction false} CrossZero(x: real, y: real, xs: seq<real>, ys: seq<real>)
    requires |xs| == |ys|
    requires forall i :: 0 <= i < |ys| ==> ys[i] == y
    ensures Cross(x, y, xs, ys) == 0.0
  {
    if xs != [] {
      var xs', ys' := xs[..|xs| - 1], ys[..|ys| - 1];
      assert forall i :: 0 <= i < |ys'| ==> ys'[i] == ys[i];
      CrossZero(x, y, xs', ys');
    }
  }

  /** Strictly increasing xs and ys give a non-negative numerator, positive from two points on. */
  lemma {:induction false} NumeratorPositive(xs: seq<real>, ys: seq<real>)
    requires |xs| == |ys|
    requires StrictlyIncreasing(xs) && StrictlyIncreasing(ys)
    ensures Numerator(xs, ys) >= 0.0
    ensures |xs| >= 2 ==> Numerator(xs, ys) > 0.0
  {
    if |xs| > 0 {
      var xs', ys' := xs[..|xs| - 1], ys[..|ys| - 1];
      var x, y := xs[|xs| - 1], ys[|ys| - 1];
      assert forall i :: 0 <= i < |xs'| ==> xs'[i] == xs[i] < x;
      assert forall i :: 0 <= i < |ys'| ==> ys'[i] == ys[i] < y;
      NumeratorPositive(xs', ys');
      CrossPositive(x, y, xs', ys');
      NumeratorStep(xs, ys);
    }
  }

  /** Strictly increasing xs and strictly decreasing ys give a non-positive numerator, negative from two points on. */
  lemma {:induction false} NumeratorNegative(xs: seq<real>, ys: seq<real>)
    requires |xs| == |ys|
    requires StrictlyIncreasing(xs) && StrictlyDecreasing(ys)
    ensures Numerator(xs, ys) <= 0.0
    ensures |xs| >= 2 ==> Numerator(xs, ys) < 0.0
  {
    if |xs| > 0 {
      var xs', ys' := xs[..|xs| - 1], ys[..|ys| - 1];
      var x, y := xs[|xs| - 1], ys[|ys| - 1];
      assert forall i :: 0 <= i < |xs'| ==> xs'[i] == xs[i] < x;
      assert forall i :: 0 <= i < |ys'| ==> ys'[i] == ys[i] > y;
      NumeratorNegative(xs', ys');
      CrossNegative(x, y, xs', ys');
      NumeratorStep(xs, ys);
    }
  }

  /** Constant ys give a zero numerator, whatever the xs. */
  lemma {:induction false} NumeratorZero(xs: seq<real>, ys: seq<real>)
    requires |xs| == |ys|
    requires Constant(ys)
    ensures Numerator(xs, ys) == 0.0
  {
    if |xs| > 0 {
      var xs', ys' := xs[..|xs| - 1], ys[..|ys| - 1];
      var x, y := xs[|xs| - 1], ys[|ys| - 1];
      assert forall i :: 0 <= i < |ys'| ==> ys'[i] == ys[i] == y;
      NumeratorZero(xs', ys');
      CrossZero(x, y, xs', ys');
      NumeratorStep(xs, ys);
    }
  }

  /** Without the 0 guard, the slope is the numerator over the denominator. */
  lemma SlopeOfNumerators(xs: seq<real>, ys: seq<real>)
    requires |xs| == |ys|
    ensures Numerator(xs, xs) == 0.0 ==> OlsSlope(xs, ys) == 0.0
    ensures Numerator(xs, xs) != 0.0 ==> OlsSlope(xs, ys) == Numerator(xs, ys) / Numerator(xs, xs)
  {
  }

  /** Dividing by a positive number keeps the sign. */
  lemma QuotientSign(a: real, d: real)
    requires d > 0.0
    ensures a > 0.0 ==> a / d > 0.0
    ensures a < 0.0 ==> a / d < 0.0
    ensures a == 0.0 ==> a / d == 0.0
  {
  }

  /**
   * The slope's sign follows the data: with strictly increasing timestamps it is positive
   * for strictly increasing totals, negative for strictly decreasing totals, and zero for
   * constant totals.
   */
  lemma {:induction false} SlopeSign(xs: seq<real>, ys: seq<real>)
    requires |xs| == |ys| >= 2
    requires StrictlyIncreasing(xs)
    ensures StrictlyIncreasing(ys) ==> OlsSlope(xs, ys) > 0.0
    ensures StrictlyDecreasing(ys) ==> OlsSlope(xs, ys) < 0.0
    ensures Constant(ys) ==> OlsSlope(xs, ys) == 0.0
  {
    NumeratorPositive(xs, xs);
    SlopeOfNumerators(xs, ys);
    QuotientSign(Numerator(xs, ys), Numerator(xs, xs));
    if StrictlyIncreasing(ys) {
      NumeratorPositive(xs, ys);
    }
    if StrictlyDecreasing(ys) {
      NumeratorNegative(xs, ys);
    }
    if Constant(ys) {
      NumeratorZero(xs, ys);
    }
  }
}
