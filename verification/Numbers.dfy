/** Exact numbers shared by every module: options, sums, and the rounding modes
    of the money path. kWh and CHF figures are exact reals; the rounding modes
    of Decimal (half away from zero) and of Python's round (half to even) are
    kept apart. */
module Numbers {

  datatype Option<+T> = None | Some(value: T)

  function Max(a: real, b: real): real {
    if a < b then b else a
  }

  function Min(a: real, b: real): real {
    if b < a then b else a
  }

  function Abs(a: real): real {
    if a < 0.0 then -a else a
  }

  function Sum(xs: seq<real>): real {
    if xs == [] then 0.0 else Sum(xs[..|xs| - 1]) + xs[|xs| - 1]
  }

  function SumInt(xs: seq<int>): int {
    if xs == [] then 0 else SumInt(xs[..|xs| - 1]) + xs[|xs| - 1]
  }

  predicate Distinct(ids: seq<int>) {
    forall i, j :: 0 <= i < j < |ids| ==> ids[i] != ids[j]
  }

  // Decimal's ROUND_HALF_UP to a whole number: ties go away from zero.
  function RoundHalfUp(x: real): (r: int)
    ensures -0.5 <= r as real - x <= 0.5
    ensures x >= 0.0 ==> r >= 0 && r as real - 0.5 <= x < r as real + 0.5
  {
    if x >= 0.0 then (x + 0.5).Floor else -(0.5 - x).Floor
  }

  // Python's round to a whole number: ties go to the even neighbour.
  function RoundHalfEven(x: real): (r: int)
    ensures -0.5 <= r as real - x <= 0.5
    ensures x >= 0.0 ==> r >= 0
  {
    var below := x.Floor;
    var excess := x - below as real;
    if excess < 0.5 || (excess == 0.5 && below % 2 == 0) then below else below + 1
  }

  // Ties go away from zero, for credits as for charges.
  lemma HalfUpExact(x: real, n: int)
    ensures RoundHalfUp(x) == n <==>
      if x >= 0.0 then n as real - 0.5 <= x < n as real + 0.5 else n as real - 0.5 < x <= n as real + 0.5
  {
    if x < 0.0 {
      assert (0.5 - x).Floor as real <= 0.5 - x < (0.5 - x).Floor as real + 1.0;
    }
  }

  // Ties go to the even neighbour.
  lemma HalfEvenExact(x: real, n: int)
    ensures RoundHalfEven(x) == n <==>
      n as real - 0.5 <= x <= n as real + 0.5 && (x == n as real - 0.5 || x == n as real + 0.5 ==> n % 2 == 0)
  {
  }

  lemma RoundWhole(n: int)
    ensures RoundHalfUp(n as real) == n && RoundHalfEven(n as real) == n
  {
  }

  lemma {:induction false} SumPointwise(xs: seq<real>, ys: seq<real>, zs: seq<real>)
    requires |xs| == |ys| == |zs|
    requires forall i :: 0 <= i < |xs| ==> zs[i] == xs[i] + ys[i]
    ensures Sum(zs) == Sum(xs) + Sum(ys)
  {
    if xs != [] {
      var n := |xs| - 1;
      SumPointwise(xs[..n], ys[..n], zs[..n]);
    }
  }

  lemma {:induction false} SumScaled(xs: seq<real>, factor: real, ys: seq<real>)
    requires |xs| == |ys|
    requires forall i :: 0 <= i < |xs| ==> ys[i] == factor * xs[i]
    ensures Sum(ys) == factor * Sum(xs)
  {
    if xs != [] {
      var n := |xs| - 1;
      SumScaled(xs[..n], factor, ys[..n]);
    }
  }

  lemma {:induction false} SumMonotone(xs: seq<real>, ys: seq<real>)
    requires |xs| == |ys|
    requires forall i :: 0 <= i < |xs| ==> xs[i] <= ys[i]
    ensures Sum(xs) <= Sum(ys)
  {
    if xs != [] {
      var n := |xs| - 1;
      SumMonotone(xs[..n], ys[..n]);
    }
  }

  lemma {:induction false} SumNonNegative(xs: seq<real>)
    requires forall i :: 0 <= i < |xs| ==> xs[i] >= 0.0
    ensures Sum(xs) >= 0.0
    ensures Sum(xs) == 0.0 ==> forall i :: 0 <= i < |xs| ==> xs[i] == 0.0
    ensures forall i :: 0 <= i < |xs| ==> xs[i] <= Sum(xs)
  {
    if xs != [] {
      SumNonNegative(xs[..|xs| - 1]);
      forall i | 0 <= i < |xs| - 1
        ensures xs[i] <= Sum(xs) && (Sum(xs) == 0.0 ==> xs[i] == 0.0)
      {
        assert xs[..|xs| - 1][i] == xs[i];
      }
    }
  }

  lemma {:induction false} SumOfZeros(xs: seq<real>)
    requires forall i :: 0 <= i < |xs| ==> xs[i] == 0.0
    ensures Sum(xs) == 0.0
  {
    if xs != [] {
      SumOfZeros(xs[..|xs| - 1]);
    }
  }
}
