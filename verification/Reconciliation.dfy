/** The rounding-certificate decision procedure for E66 interval readings.

    The VNB delivers three channels per meter (total, local, residual), each
    rounded on its own. A reading stands for a half-open cell of exact values.
    The procedure decides whether one proportional allocation explains every
    cell of an interval at once. */
module Reconciliation {
  import opened Numbers

  datatype Interval = Interval(lower: real, upper: real)

  // What MakeCell returns: non-negative and never empty.
  type Cell = c: Interval | 0.0 <= c.lower < c.upper witness Interval(0.0, 1.0)

  datatype Channels = Channels(total: Cell, local: Cell, residual: Cell)

  datatype Group = Group(consumption: seq<Channels>, production: seq<Channels>)

  const HALF_QUANTUM := 0.0005
  const MAX_STEPS := 128

  // kWh; readings of nine integer digits are refused.
  const READING_LIMIT := 100000000.0

  predicate Within(x: real, c: Interval) {
    c.lower <= x < c.upper
  }

  function WattHours(wh: int): real {
    wh as real / 1000.0
  }

  // What a meter reports of an exact energy: half-up to 0.001 kWh.
  function Reading(x: real): real {
    WattHours(RoundHalfUp(x * 1000.0))
  }

  lemma WholeWattHours(reading: real)
    ensures forall n :: reading == WattHours(n) ==> (reading * 1000.0).Floor == n
  {
    forall n | reading == WattHours(n)
      ensures (reading * 1000.0).Floor == n
    {
      assert reading * 1000.0 == n as real;
    }
  }

  // The exact values that round half-up to a reading.
  function CellOf(reading: real): (c: Cell)
    requires reading >= 0.0
    ensures forall x | x >= 0.0 :: Within(x, c) <==> reading - HALF_QUANTUM <= x < reading + HALF_QUANTUM
  {
    Interval(Max(0.0, reading - HALF_QUANTUM), reading + HALF_QUANTUM)
  }

  // A reading is a non-negative whole number of Wh below the limit; anything
  // else is refused.
  function MakeCell(reading: real): (r: Option<Cell>)
    ensures r.Some? <==> 0.0 <= reading < 100000000.0 && exists wh :: reading == WattHours(wh)
    ensures r.Some? ==> r.value == CellOf(reading)
  {
    var wh := (reading * 1000.0).Floor;
    if reading < 0.0 || reading >= READING_LIMIT then None
    else if reading != WattHours(wh) then
      WholeWattHours(reading);
      None
    else
      Some(CellOf(reading))
  }

  // The cell of an accepted reading holds exactly the energies that are reported
  // as that reading.
  lemma CellReads(reading: real, x: real)
    requires MakeCell(reading).Some?
    ensures Within(x, MakeCell(reading).value) <==> x >= 0.0 && Reading(x) == reading
  {
    var wh :| reading == WattHours(wh);
    ReadsAs(x, wh);
    assert reading - HALF_QUANTUM <= x < reading + HALF_QUANTUM
      <==> wh as real - 0.5 <= x * 1000.0 < wh as real + 0.5;
  }

  lemma ReadsAs(x: real, wh: int)
    requires wh >= 0
    ensures x >= 0.0 ==> (Reading(x) == WattHours(wh) <==> wh as real - 0.5 <= x * 1000.0 < wh as real + 0.5)
  {
    if x >= 0.0 {
      var y := x * 1000.0;
      var n := RoundHalfUp(y);
      SameWattHours(n, wh);
      NearestIsOne(y, n, wh);
    }
  }

  lemma SameWattHours(m: int, n: int)
    ensures WattHours(m) == WattHours(n) <==> m == n
  {
    assert WattHours(m) * 1000.0 == m as real && WattHours(n) * 1000.0 == n as real;
  }

  lemma NearestIsOne(y: real, m: int, n: int)
    requires m as real - 0.5 <= y < m as real + 0.5
    ensures n as real - 0.5 <= y < n as real + 0.5 <==> m == n
  {
  }

  // ---------------------------------------------------------------------
  // What a certificate claims: one exact proportional allocation.

  // Unrounded energy of one meter in one interval.
  datatype Exact = Exact(total: real, local: real, residual: real)

  ghost predicate Fits(e: Exact, row: Channels) {
    && e.total == e.local + e.residual
    && Within(e.total, row.total)
    && Within(e.local, row.local)
    && Within(e.residual, row.residual)
  }

  // A row that keeps only a common share of its total.
  ghost predicate Shares(e: Exact, row: Channels, ratio: real) {
    Fits(e, row) && e.local == ratio * e.total
  }

  function Locals(es: seq<Exact>): seq<real> {
    seq(|es|, i requires 0 <= i < |es| => es[i].local)
  }

  // One side is used up, the other shares at one common ratio, energy is conserved.
  ghost predicate IsAllocation(full: seq<Channels>, part: seq<Channels>, ratio: real,
                               fs: seq<Exact>, ps: seq<Exact>)
  {
    && |fs| == |full| && |ps| == |part|
    && (forall i :: 0 <= i < |full| ==> Fits(fs[i], full[i]) && fs[i].residual == 0.0)
    && (forall i :: 0 <= i < |part| ==> Shares(ps[i], part[i], ratio))
    && Sum(Locals(fs)) == Sum(Locals(ps))
  }

  ghost predicate Allocatable(full: seq<Channels>, part: seq<Channels>, ratio: real) {
    exists fs, ps :: IsAllocation(full, part, ratio, fs, ps)
  }

  // ---------------------------------------------------------------------
  // The code's expressions.

  function Intersection(first: Interval, second: Interval): (r: Option<Interval>)
    ensures r.Some? <==> exists x :: Within(x, first) && Within(x, second)
    ensures r.Some? ==> forall x :: Within(x, r.value) <==> Within(x, first) && Within(x, second)
  {
    var lower, upper := Max(first.lower, second.lower), Min(first.upper, second.upper);
    if lower < upper then
      assert Within(lower, first) && Within(lower, second);
      Some(Interval(lower, upper))
    else None
  }

  predicate ZeroAllocation(full: seq<Channels>, unused: seq<Channels>) {
    && (forall row | row in full :: row.total.lower == row.local.lower == row.residual.lower == 0.0)
    && (forall row | row in unused :: row.local.lower == 0.0 && Intersection(row.total, row.residual).Some?)
  }

  function Total(cells: seq<Interval>): Interval {
    if cells == [] then Interval(0.0, 0.0) else
      var rest := Total(cells[..|cells| - 1]);
      var last := cells[|cells| - 1];
      Interval(rest.lower + last.lower, rest.upper + last.upper)
  }

  // The local energy a fully used row can carry: nothing is left over.
  predicate CanBeFullyUsed(row: Channels) {
    row.residual.lower == 0.0 && Intersection(row.total, row.local).Some?
  }

  function FullRange(row: Channels): Interval {
    Interval(Max(row.total.lower, row.local.lower), Min(row.total.upper, row.local.upper))
  }

  function FullRanges(rows: seq<Channels>): seq<Interval> {
    seq(|rows|, i requires 0 <= i < |rows| => FullRange(rows[i]))
  }

  // The local energy a row can carry at a ratio strictly between 0 and 1.
  function LocalRange(row: Channels, ratio: real): Interval
    requires 0.0 < ratio < 1.0
  {
    RangeAt(row, ratio, ratio / (1.0 - ratio))
  }

  function RangeAt(row: Channels, ratio: real, residualRatio: real): Interval {
    Overlap(Scaled(ratio, row.total), row.local, Scaled(residualRatio, row.residual))
  }

  function Scaled(factor: real, c: Interval): Interval {
    Interval(factor * c.lower, factor * c.upper)
  }

  function Overlap(a: Interval, b: Interval, c: Interval): Interval {
    Interval(Max(Max(a.lower, b.lower), c.lower), Min(Min(a.upper, b.upper), c.upper))
  }

  function LocalRanges(rows: seq<Channels>, ratio: real): seq<Interval>
    requires 0.0 < ratio < 1.0
  {
    seq(|rows|, i requires 0 <= i < |rows| => LocalRange(rows[i], ratio))
  }

  predicate NonEmpty(c: Interval) {
    c.lower < c.upper
  }

  predicate AllNonEmpty(cells: seq<Interval>) {
    forall i :: 0 <= i < |cells| ==> NonEmpty(cells[i])
  }

  function RowLower(row: Channels): real {
    var base := Max(row.local.lower / row.total.upper,
                    row.local.lower / (row.local.lower + row.residual.upper));
    if row.total.lower != 0.0 then Max(base, 1.0 - row.residual.upper / row.total.lower) else base
  }

  function RowUpper(row: Channels): real {
    var base := Min(1.0 - row.residual.lower / row.total.upper,
                    row.local.upper / (row.residual.lower + row.local.upper));
    if row.total.lower != 0.0 then Min(base, row.local.upper / row.total.lower) else base
  }

  // The open interval of ratios that the rows admit one by one.
  function Bounds(rows: seq<Channels>): (b: Interval)
    ensures 0.0 <= b.lower && b.upper <= 1.0
  {
    if rows == [] then Interval(0.0, 1.0) else
      var rest := Bounds(rows[..|rows| - 1]);
      var row := rows[|rows| - 1];
      Interval(Max(rest.lower, RowLower(row)), Min(rest.upper, RowUpper(row)))
  }

  // The test inside the bisection, together with the row-by-row bounds.
  predicate Feasible(full: seq<Channels>, part: seq<Channels>, ratio: real)
    requires 0.0 < ratio < 1.0
  {
    && (forall row | row in full :: CanBeFullyUsed(row))
    && Bounds(part).lower < ratio < Bounds(part).upper
    && Total(LocalRanges(part, ratio)).lower < Total(FullRanges(full)).upper
    && Total(FullRanges(full)).lower < Total(LocalRanges(part, ratio)).upper
  }

  // ---------------------------------------------------------------------
  // Sums of half-open ranges.

  lemma {:induction false} TotalBounds(cells: seq<Interval>, xs: seq<real>)
    requires |cells| == |xs|
    requires forall i :: 0 <= i < |xs| ==> Within(xs[i], cells[i])
    ensures Total(cells).lower <= Sum(xs) <= Total(cells).upper
    ensures cells != [] ==> Within(Sum(xs), Total(cells))
  {
    if cells != [] {
      var n := |cells| - 1;
      TotalBounds(cells[..n], xs[..n]);
    }
  }

  function At(c: Interval, share: real): real {
    c.lower + share * (c.upper - c.lower)
  }

  lemma AtWithin(c: Interval, share: real)
    requires 0.0 <= share < 1.0 && NonEmpty(c)
    ensures Within(At(c, share), c)
  {
    BetweenEnds(c.lower, c.upper, share);
  }

  lemma BetweenEnds(low: real, high: real, share: real)
    requires 0.0 <= share < 1.0 && low < high
    ensures low <= low + share * (high - low) < high
  {
    var width := high - low;
    ProductPositive(share, width);
    ProductPositive(1.0 - share, width);
    assert (1.0 - share) * width == width - share * width;
    assert share * width == share * (high - low);
  }

  lemma ProductPositive(a: real, b: real)
    requires a >= 0.0 && b > 0.0
    ensures a * b >= 0.0 && (a > 0.0 ==> a * b > 0.0)
  {
  }

  lemma AtAdds(a: Interval, b: Interval, share: real)
    ensures At(a, share) + At(b, share) == At(Interval(a.lower + b.lower, a.upper + b.upper), share)
  {
  }

  // Taking the same share of every range takes that share of the total.
  lemma {:induction false} Blend(cells: seq<Interval>, share: real, xs: seq<real>)
    requires |xs| == |cells|
    requires forall i :: 0 <= i < |cells| ==> xs[i] == At(cells[i], share)
    ensures Sum(xs) == At(Total(cells), share)
  {
    if cells != [] {
      var n := |cells| - 1;
      Blend(cells[..n], share, xs[..n]);
      AtAdds(Total(cells[..n]), cells[n], share);
    }
  }

  lemma {:induction false} TotalOrdered(cells: seq<Interval>)
    requires AllNonEmpty(cells)
    ensures Total(cells).lower <= Total(cells).upper
    ensures cells != [] ==> NonEmpty(Total(cells))
  {
    if cells != [] {
      TotalOrdered(cells[..|cells| - 1]);
    }
  }

  // Every target inside the summed range is reached by values inside the cells.
  lemma SplitTotal(cells: seq<Interval>, target: real) returns (xs: seq<real>)
    requires AllNonEmpty(cells)
    requires cells != [] && Within(target, Total(cells))
    ensures |xs| == |cells|
    ensures forall i :: 0 <= i < |xs| ==> Within(xs[i], cells[i])
    ensures Sum(xs) == target
  {
    TotalOrdered(cells);
    var total := Total(cells);
    var share := ShareOf(total, target);
    xs := seq(|cells|, i requires 0 <= i < |cells| => At(cells[i], share));
    forall i | 0 <= i < |cells|
      ensures Within(xs[i], cells[i])
    {
      AtWithin(cells[i], share);
    }
    Blend(cells, share, xs);
  }

  lemma ShareOf(c: Interval, x: real) returns (share: real)
    requires Within(x, c)
    ensures 0.0 <= share < 1.0 && At(c, share) == x
  {
    share := (x - c.lower) / (c.upper - c.lower);
    ProperFraction(x - c.lower, c.upper - c.lower);
  }

  lemma ProperFraction(part: real, whole: real)
    requires 0.0 <= part < whole
    ensures 0.0 <= part / whole < 1.0 && part / whole * whole == part
  {
  }

  // Two families of ranges can meet in one common sum iff their totals overlap.
  lemma CommonSum(first: seq<Interval>, second: seq<Interval>) returns (xs: seq<real>, ys: seq<real>)
    requires first != [] && second != []
    requires AllNonEmpty(first)
    requires AllNonEmpty(second)
    requires Total(first).lower < Total(second).upper && Total(second).lower < Total(first).upper
    ensures |xs| == |first| && |ys| == |second|
    ensures forall i :: 0 <= i < |xs| ==> Within(xs[i], first[i])
    ensures forall i :: 0 <= i < |ys| ==> Within(ys[i], second[i])
    ensures Sum(xs) == Sum(ys)
  {
    TotalOrdered(first);
    TotalOrdered(second);
    var target := Max(Total(first).lower, Total(second).lower);
    xs := SplitTotal(first, target);
    ys := SplitTotal(second, target);
  }

  // ---------------------------------------------------------------------
  // One row at one ratio.

  lemma BelowQuotient(a: real, b: real, ratio: real)
    requires b > 0.0
    ensures a / b < ratio <==> a < ratio * b
    ensures ratio < a / b <==> ratio * b < a
  {
    assert a / b * b == a;
  }

  lemma Cancel(x: real, y: real, factor: real)
    requires factor > 0.0
    ensures x < y <==> x * factor < y * factor
  {
  }

  // The code's quotients, multiplied out.
  lemma LowerCrossed(l: real, t: real, t': real, r': real, ratio: real)
    requires l >= 0.0 && t >= 0.0 && t' > 0.0 && r' > 0.0
    ensures && l / t' < ratio && l / (l + r') < ratio && (t != 0.0 ==> 1.0 - r' / t < ratio)
            <==>
            && l < ratio * t' && l < ratio * (l + r') && (1.0 - ratio) * t < r'
  {
    BelowQuotient(l, t', ratio);
    BelowQuotient(l, l + r', ratio);
    if t != 0.0 {
      BelowQuotient(r', t, 1.0 - ratio);
    }
  }

  lemma RowLowerParts(row: Channels, ratio: real)
    ensures RowLower(row) < ratio <==>
            && row.local.lower / row.total.upper < ratio
            && row.local.lower / (row.local.lower + row.residual.upper) < ratio
            && (row.total.lower != 0.0 ==> 1.0 - row.residual.upper / row.total.lower < ratio)
  {
  }

  lemma RowLowerExact(row: Channels, ratio: real)
    ensures RowLower(row) < ratio <==>
            && row.local.lower < ratio * row.total.upper
            && row.local.lower < ratio * (row.local.lower + row.residual.upper)
            && (1.0 - ratio) * row.total.lower < row.residual.upper
  {
    RowLowerParts(row, ratio);
    LowerCrossed(row.local.lower, row.total.lower, row.total.upper, row.residual.upper, ratio);
  }

  lemma UpperCrossed(l': real, t: real, t': real, r: real, ratio: real)
    requires l' > 0.0 && t >= 0.0 && t' > 0.0 && r >= 0.0
    ensures && ratio < 1.0 - r / t' && ratio < l' / (r + l') && (t != 0.0 ==> ratio < l' / t)
            <==>
            && r < (1.0 - ratio) * t' && ratio * (r + l') < l' && ratio * t < l'
  {
    BelowQuotient(r, t', 1.0 - ratio);
    BelowQuotient(l', r + l', ratio);
    if t != 0.0 {
      BelowQuotient(l', t, ratio);
    }
  }

  lemma RowUpperParts(row: Channels, ratio: real)
    ensures ratio < RowUpper(row) <==>
            && ratio < 1.0 - row.residual.lower / row.total.upper
            && ratio < row.local.upper / (row.residual.lower + row.local.upper)
            && (row.total.lower != 0.0 ==> ratio < row.local.upper / row.total.lower)
  {
  }

  lemma RowUpperExact(row: Channels, ratio: real)
    ensures ratio < RowUpper(row) <==>
            && row.residual.lower < (1.0 - ratio) * row.total.upper
            && ratio * (row.residual.lower + row.local.upper) < row.local.upper
            && ratio * row.total.lower < row.local.upper
  {
    RowUpperParts(row, ratio);
    UpperCrossed(row.local.upper, row.total.lower, row.total.upper, row.residual.lower, ratio);
  }

  // s turns a local energy into the residual that goes with it.
  predicate Odds(ratio: real, s: real) {
    0.0 < ratio < 1.0 && s * (1.0 - ratio) == ratio
  }

  lemma OddsPositive(ratio: real, s: real)
    requires Odds(ratio, s)
    ensures s > 0.0
  {
  }

  lemma ResidualShare(r: real, ratio: real, s: real)
    requires Odds(ratio, s)
    ensures s * r * (1.0 - ratio) == ratio * r
  {
    assert s * (1.0 - ratio) * r == ratio * r;
  }

  // sr stands for the local energy that goes with the residual r.
  lemma AgainstShare(l: real, r: real, ratio: real, sr: real)
    requires 0.0 < ratio < 1.0 && sr * (1.0 - ratio) == ratio * r
    ensures l < sr <==> l < ratio * (l + r)
    ensures sr < l <==> ratio * (r + l) < l
  {
    var rest := 1.0 - ratio;
    Cancel(l, sr, rest);
    Cancel(sr, l, rest);
    assert l * rest == l - ratio * l;
    assert ratio * (l + r) == ratio * l + sr * rest;
  }

  lemma LocalAgainstResidual(l: real, r: real, ratio: real, s: real)
    requires Odds(ratio, s)
    ensures l < s * r <==> l < ratio * (l + r)
    ensures s * r < l <==> ratio * (r + l) < l
  {
    ResidualShare(r, ratio, s);
    AgainstShare(l, r, ratio, s * r);
  }

  lemma TotalAgainstResidual(t: real, r: real, ratio: real, s: real)
    requires Odds(ratio, s)
    ensures ratio * t < s * r <==> (1.0 - ratio) * t < r
    ensures s * r < ratio * t <==> r < (1.0 - ratio) * t
  {
    assert s > 0.0;
    assert ratio * t == (1.0 - ratio) * t * s;
    Cancel((1.0 - ratio) * t, r, s);
    Cancel(r, (1.0 - ratio) * t, s);
  }

  lemma PairsExact(t: real, t': real, l: real, l': real, r: real, r': real, ratio: real, s: real)
    requires Odds(ratio, s)
    ensures && ratio * t < l' && ratio * t < s * r' && l < ratio * t'
            && l < s * r' && s * r < ratio * t' && s * r < l'
            <==>
            && ratio * t < l' && (1.0 - ratio) * t < r' && l < ratio * t'
            && l < ratio * (l + r') && r < (1.0 - ratio) * t' && ratio * (r + l') < l'
  {
    LocalAgainstResidual(l, r', ratio, s);
    LocalAgainstResidual(l', r, ratio, s);
    TotalAgainstResidual(t, r', ratio, s);
    TotalAgainstResidual(t', r, ratio, s);
  }

  // Three non-empty ranges meet iff they meet in pairs.
  lemma ThreeRanges(a: Interval, b: Interval, c: Interval)
    requires NonEmpty(a) && NonEmpty(b) && NonEmpty(c)
    ensures NonEmpty(Overlap(a, b, c)) <==>
            && a.lower < b.upper && a.lower < c.upper && b.lower < a.upper
            && b.lower < c.upper && c.lower < a.upper && c.lower < b.upper
  {
  }

  lemma ScaledNonEmpty(factor: real, c: Cell)
    requires factor > 0.0
    ensures NonEmpty(Scaled(factor, c))
  {
  }

  lemma RangeMeets(t: Cell, l: Cell, r: Cell, ratio: real, s: real, a: Interval, c: Interval)
    requires NonEmpty(a) && NonEmpty(c)
    requires a == Interval(ratio * t.lower, ratio * t.upper)
    requires c == Interval(s * r.lower, s * r.upper)
    ensures NonEmpty(Overlap(a, l, c)) <==>
            && ratio * t.lower < l.upper && ratio * t.lower < s * r.upper
            && l.lower < ratio * t.upper && l.lower < s * r.upper
            && s * r.lower < ratio * t.upper && s * r.lower < l.upper
  {
    ThreeRanges(a, l, c);
  }

  lemma RangePairs(t: Cell, l: Cell, r: Cell, ratio: real, s: real)
    requires ratio > 0.0 && s > 0.0
    ensures NonEmpty(Overlap(Scaled(ratio, t), l, Scaled(s, r))) <==>
            && ratio * t.lower < l.upper && ratio * t.lower < s * r.upper
            && l.lower < ratio * t.upper && l.lower < s * r.upper
            && s * r.lower < ratio * t.upper && s * r.lower < l.upper
  {
    ScaledNonEmpty(ratio, t);
    ScaledNonEmpty(s, r);
    RangeMeets(t, l, r, ratio, s, Scaled(ratio, t), Scaled(s, r));
  }

  lemma RowPairsExact(t: Cell, l: Cell, r: Cell, ratio: real, s: real)
    requires Odds(ratio, s)
    ensures && ratio * t.lower < l.upper && ratio * t.lower < s * r.upper
            && l.lower < ratio * t.upper && l.lower < s * r.upper
            && s * r.lower < ratio * t.upper && s * r.lower < l.upper
            <==>
            && ratio * t.lower < l.upper && (1.0 - ratio) * t.lower < r.upper
            && l.lower < ratio * t.upper && l.lower < ratio * (l.lower + r.upper)
            && r.lower < (1.0 - ratio) * t.upper && ratio * (r.lower + l.upper) < l.upper
  {
    PairsExact(t.lower, t.upper, l.lower, l.upper, r.lower, r.upper, ratio, s);
  }

  lemma RangeExact(t: Cell, l: Cell, r: Cell, ratio: real, s: real)
    requires Odds(ratio, s)
    ensures NonEmpty(Overlap(Scaled(ratio, t), l, Scaled(s, r))) <==>
            && ratio * t.lower < l.upper && (1.0 - ratio) * t.lower < r.upper
            && l.lower < ratio * t.upper && l.lower < ratio * (l.lower + r.upper)
            && r.lower < (1.0 - ratio) * t.upper && ratio * (r.lower + l.upper) < l.upper
  {
    OddsPositive(ratio, s);
    RangePairs(t, l, r, ratio, s);
    RowPairsExact(t, l, r, ratio, s);
  }

  // The six quotients are exactly the conditions for a row to admit a ratio.
  lemma RowBoundsExact(row: Channels, ratio: real)
    requires 0.0 < ratio < 1.0
    ensures NonEmpty(LocalRange(row, ratio)) <==> RowLower(row) < ratio < RowUpper(row)
  {
    RangeExact(row.total, row.local, row.residual, ratio, ratio / (1.0 - ratio));
    RowLowerExact(row, ratio);
    RowUpperExact(row, ratio);
  }

  lemma {:induction false} BoundsExact(rows: seq<Channels>, ratio: real)
    requires 0.0 < ratio < 1.0
    ensures Bounds(rows).lower < ratio < Bounds(rows).upper <==>
            forall i :: 0 <= i < |rows| ==> NonEmpty(LocalRange(rows[i], ratio))
  {
    if rows != [] {
      var n := |rows| - 1;
      BoundsExact(rows[..n], ratio);
      RowBoundsExact(rows[n], ratio);
      assert forall i :: 0 <= i < n ==> rows[..n][i] == rows[i];
    }
  }
}
