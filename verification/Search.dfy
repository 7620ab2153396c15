/** The search itself: ratio bounds, bisection and the interval verdict. */
module Search {
  import opened Numbers
  import opened Reconciliation
  import opened Witness

  function Pow2(n: nat): real {
    if n == 0 then 1.0 else 2.0 * Pow2(n - 1)
  }

  lemma {:induction false} PowAdds(m: nat, n: nat)
    ensures Pow2(m + n) == Pow2(m) * Pow2(n)
  {
    if m > 0 {
      PowAdds(m - 1, n);
      assert 2.0 * (Pow2(m - 1) * Pow2(n)) == 2.0 * Pow2(m - 1) * Pow2(n);
    }
  }

  lemma PowDoubles(n: nat, half: real)
    requires Pow2(n) == half
    ensures Pow2(n + n) == half * half
  {
    PowAdds(n, n);
  }

  // 128 halvings.
  lemma StepsExact()
    ensures Pow2(MAX_STEPS) == 340282366920938463463374607431768211456.0
  {
    var one, two: nat, four: nat, eight: nat := 1, 2, 4, 8;
    PowDoubles(one, 2.0);
    PowDoubles(two, 4.0);
    PowDoubles(four, 16.0);
    PowDoubles(eight, 256.0);
    PowDoubles(eight + eight, 65536.0);
    PowDoubles(32, 4294967296.0);
    PowDoubles(64, 18446744073709551616.0);
  }

  // ---------------------------------------------------------------------
  // Allocated energy grows with the ratio, so a rejected half holds no witness.

  lemma OddsGrow(ratio: real, ratio': real)
    requires 0.0 < ratio <= ratio' < 1.0
    ensures 0.0 < ratio / (1.0 - ratio) <= ratio' / (1.0 - ratio')
  {
    OddsOf(ratio);
    OddsOf(ratio');
    OddsOrder(ratio, ratio', ratio / (1.0 - ratio), ratio' / (1.0 - ratio'));
  }

  lemma OddsOrder(ratio: real, ratio': real, s: real, s': real)
    requires Odds(ratio, s) && Odds(ratio', s') && ratio <= ratio'
    ensures s <= s'
  {
    OddsPositive(ratio, s);
    var rest, rest' := 1.0 - ratio, 1.0 - ratio';
    ProductGrows(rest', rest, s);
    assert rest * s == ratio && rest' * s' == ratio';
    Order(s', s, rest');
  }

  lemma ScaledGrows(c: Cell, factor: real, factor': real)
    requires 0.0 < factor <= factor'
    ensures Scaled(factor, c).lower <= Scaled(factor', c).lower
    ensures Scaled(factor, c).upper <= Scaled(factor', c).upper
  {
    ProductGrows(factor, factor', c.lower);
    ProductGrows(factor, factor', c.upper);
  }

  lemma ProductGrows(factor: real, factor': real, x: real)
    requires factor <= factor' && x >= 0.0
    ensures factor * x <= factor' * x
  {
  }

  lemma RangeGrows(row: Channels, ratio: real, ratio': real)
    requires 0.0 < ratio <= ratio' < 1.0
    ensures LocalRange(row, ratio).lower <= LocalRange(row, ratio').lower
    ensures LocalRange(row, ratio).upper <= LocalRange(row, ratio').upper
  {
    OddsGrow(ratio, ratio');
    ScaledGrows(row.total, ratio, ratio');
    ScaledGrows(row.residual, ratio / (1.0 - ratio), ratio' / (1.0 - ratio'));
  }

  lemma {:induction false} TotalGrows(rows: seq<Channels>, ratio: real, ratio': real)
    requires 0.0 < ratio <= ratio' < 1.0
    ensures Total(LocalRanges(rows, ratio)).lower <= Total(LocalRanges(rows, ratio')).lower
    ensures Total(LocalRanges(rows, ratio)).upper <= Total(LocalRanges(rows, ratio')).upper
  {
    if rows != [] {
      var n := |rows| - 1;
      TotalGrows(rows[..n], ratio, ratio');
      RangeGrows(rows[n], ratio, ratio');
      assert LocalRanges(rows, ratio)[..n] == LocalRanges(rows[..n], ratio);
      assert LocalRanges(rows, ratio')[..n] == LocalRanges(rows[..n], ratio');
    }
  }

  // The ratios that explain an interval on one side form one open stretch.
  lemma FeasibleConvex(full: seq<Channels>, part: seq<Channels>, low: real, ratio: real, high: real)
    requires full != [] && part != [] && 0.0 < low <= ratio <= high < 1.0
    requires Allocatable(full, part, low) && Allocatable(full, part, high)
    ensures Allocatable(full, part, ratio)
  {
    PartialExact(full, part, low);
    PartialExact(full, part, high);
    TotalGrows(part, low, ratio);
    TotalGrows(part, ratio, high);
    PartialExact(full, part, ratio);
  }

  // ---------------------------------------------------------------------
  // The loops.

  lemma MaxThree(a: real, b: real, c: real, d: real)
    ensures Max(Max(a, b), c) == Max(a, Max(b, c))
    ensures Max(Max(Max(a, b), c), d) == Max(a, Max(Max(b, c), d))
  {
  }

  lemma MinThree(a: real, b: real, c: real, d: real)
    ensures Min(Min(a, b), c) == Min(a, Min(b, c))
    ensures Min(Min(Min(a, b), c), d) == Min(a, Min(Min(b, c), d))
  {
  }

  method RatioBounds(rows: seq<Channels>) returns (lower: real, upper: real)
    ensures Interval(lower, upper) == Bounds(rows)
  {
    lower, upper := 0.0, 1.0;
    for i := 0 to |rows|
      invariant Interval(lower, upper) == Bounds(rows[..i])
    {
      var lower', upper' := TightenBounds(rows[i], lower, upper);
      assert rows[..i + 1][..i] == rows[..i];
      lower, upper := lower', upper';
    }
    assert rows[..|rows|] == rows;
  }

  method TightenBounds(row: Channels, low: real, high: real) returns (lower: real, upper: real)
    ensures lower == Max(low, RowLower(row)) && upper == Min(high, RowUpper(row))
  {
    var total, local, residual := row.total, row.local, row.residual;
    var floor, share := local.lower / total.upper, local.lower / (local.lower + residual.upper);
    var ceiling, rest := 1.0 - residual.lower / total.upper, local.upper / (residual.lower + local.upper);
    lower := Max(Max(low, floor), share);
    upper := Min(Min(high, ceiling), rest);
    MaxThree(low, floor, share, 0.0);
    MinThree(high, ceiling, rest, 0.0);
    if total.lower != 0.0 {
      var least, most := 1.0 - residual.upper / total.lower, local.upper / total.lower;
      MaxThree(low, floor, share, least);
      MinThree(high, ceiling, rest, most);
      lower := Max(lower, least);
      upper := Min(upper, most);
    }
  }

  method AllocatedRange(rows: seq<Channels>, ratio: real) returns (lower: real, upper: real)
    requires 0.0 < ratio < 1.0
    ensures Interval(lower, upper) == Total(LocalRanges(rows, ratio))
  {
    var residualRatio := ratio / (1.0 - ratio);
    lower, upper := 0.0, 0.0;
    for i := 0 to |rows|
      invariant Interval(lower, upper) == Total(LocalRanges(rows[..i], ratio))
    {
      var range := RangeAt(rows[i], ratio, residualRatio);
      lower := lower + range.lower;
      upper := upper + range.upper;
      assert LocalRanges(rows[..i + 1], ratio)[..i] == LocalRanges(rows[..i], ratio);
    }
    assert rows[..|rows|] == rows;
  }

  function FullyUsed(rows: seq<Channels>): Option<Interval> {
    if rows != [] && forall row | row in rows :: CanBeFullyUsed(row) then
      Some(Total(FullRanges(rows)))
    else None
  }

  datatype Outcome = Found(ratio: real) | NotFound | Exhausted

  // One side cannot be used up, or the rows of the other admit no ratio one by
  // one: there is nothing to search.
  predicate Stuck(full: seq<Channels>, part: seq<Channels>) {
    FullyUsed(full).None? || part == [] || Bounds(part).lower >= Bounds(part).upper
  }

  // The three outcomes of one halving.
  datatype Half = Lower | Upper | Neither

  function HalfOf(part: seq<Channels>, available: Interval, ratio: real): Half
    requires 0.0 < ratio < 1.0
  {
    var range := Total(LocalRanges(part, ratio));
    if range.lower >= available.upper then Lower else if range.upper <= available.lower then Upper else Neither
  }

  // Halves the bracket until its midpoint is feasible.
  function BisectFrom(part: seq<Channels>, available: Interval, lower: real, upper: real, steps: nat): Option<real>
    requires 0.0 <= lower < upper <= 1.0
    decreases part, steps
  {
    if steps == 0 then None else
      var ratio := (lower + upper) / 2.0;
      match HalfOf(part, available, ratio)
      case Lower => BisectFrom(part, available, lower, ratio, steps - 1)
      case Upper => BisectFrom(part, available, ratio, upper, steps - 1)
      case Neither => Some(ratio)
  }

  function PartialOf(full: seq<Channels>, part: seq<Channels>): Outcome {
    if Stuck(full, part) then NotFound else
      var ratio := BisectFrom(part, FullyUsed(full).value, Bounds(part).lower, Bounds(part).upper, MAX_STEPS);
      if ratio.Some? then Found(ratio.value) else Exhausted
  }

  method Bisect(part: seq<Channels>, available: Interval, low: real, high: real, steps: nat)
    returns (r: Option<real>)
    requires 0.0 <= low < high <= 1.0
    ensures r == BisectFrom(part, available, low, high, steps)
  {
    var lower, upper := low, high;
    for step := 0 to steps
      invariant 0.0 <= lower < upper <= 1.0
      invariant BisectFrom(part, available, low, high, steps) == BisectFrom(part, available, lower, upper, steps - step)
    {
      var ratio := (lower + upper) / 2.0;
      var allocatedLower, allocatedUpper := AllocatedRange(part, ratio);
      if allocatedLower >= available.upper {
        upper := ratio;
      } else if allocatedUpper <= available.lower {
        lower := ratio;
      } else {
        return Some(ratio);
      }
    }
    return None;
  }

  method PartialAllocation(full: seq<Channels>, part: seq<Channels>) returns (r: Outcome)
    ensures r == PartialOf(full, part)
  {
    var available := FullyUsed(full);
    if available == None || part == [] {
      return NotFound;
    }
    var lower, upper := RatioBounds(part);
    if lower >= upper {
      return NotFound;
    }
    var ratio := Bisect(part, available.value, lower, upper, MAX_STEPS);
    if ratio.Some? {
      return Found(ratio.value);
    }
    return Exhausted;
  }

  // ---------------------------------------------------------------------
  // What the bisection finds and what it leaves.

  ghost predicate Brackets(full: seq<Channels>, part: seq<Channels>, lower: real, upper: real) {
    forall ratio | 0.0 < ratio < 1.0 && Feasible(full, part, ratio) :: lower < ratio < upper
  }

  predicate Near(a: real, b: real, scale: real, width: real) {
    (b - a) * scale < width
  }

  // Feasible ratios lie within the scale-th part of the width of each other.
  ghost predicate Close(full: seq<Channels>, part: seq<Channels>, scale: real, width: real) {
    forall a, b | 0.0 < a <= b < 1.0 && Feasible(full, part, a) && Feasible(full, part, b) :: Near(a, b, scale, width)
  }

  // The same of the ratios that explain, against the initial bounds.
  ghost predicate AtMostWide(full: seq<Channels>, part: seq<Channels>, scale: real) {
    forall a, b | 0.0 < a <= b < 1.0 && Allocatable(full, part, a) && Allocatable(full, part, b) ::
      Near(a, b, scale, Bounds(part).upper - Bounds(part).lower)
  }

  lemma RejectsAbove(full: seq<Channels>, part: seq<Channels>, ratio: real)
    requires 0.0 < ratio < 1.0
    requires Total(LocalRanges(part, ratio)).lower >= Total(FullRanges(full)).upper
    ensures forall other | 0.0 < other < 1.0 && Feasible(full, part, other) :: other < ratio
  {
    forall other | 0.0 < other < 1.0 && Feasible(full, part, other)
      ensures other < ratio
    {
      if ratio <= other {
        TotalGrows(part, ratio, other);
      }
    }
  }

  lemma RejectsBelow(full: seq<Channels>, part: seq<Channels>, ratio: real)
    requires 0.0 < ratio < 1.0
    requires Total(LocalRanges(part, ratio)).upper <= Total(FullRanges(full)).lower
    ensures forall other | 0.0 < other < 1.0 && Feasible(full, part, other) :: ratio < other
  {
    forall other | 0.0 < other < 1.0 && Feasible(full, part, other)
      ensures ratio < other
    {
      if other <= ratio {
        TotalGrows(part, other, ratio);
      }
    }
  }

  lemma UpperHalfRejected(full: seq<Channels>, part: seq<Channels>, lower: real, ratio: real, upper: real)
    requires Brackets(full, part, lower, upper) && 0.0 < ratio < 1.0
    requires Total(LocalRanges(part, ratio)).lower >= Total(FullRanges(full)).upper
    ensures Brackets(full, part, lower, ratio)
  {
    RejectsAbove(full, part, ratio);
  }

  lemma LowerHalfRejected(full: seq<Channels>, part: seq<Channels>, lower: real, ratio: real, upper: real)
    requires Brackets(full, part, lower, upper) && 0.0 < ratio < 1.0
    requires Total(LocalRanges(part, ratio)).upper <= Total(FullRanges(full)).lower
    ensures Brackets(full, part, ratio, upper)
  {
    RejectsBelow(full, part, ratio);
  }

  lemma Midpoint(lower: real, upper: real, ratio: real)
    requires 0.0 <= lower < upper <= 1.0 && ratio == (lower + upper) / 2.0
    ensures lower < ratio < upper && 0.0 < ratio < 1.0
    ensures 2.0 * (ratio - lower) == upper - lower == 2.0 * (upper - ratio)
  {
  }

  lemma HalfRejected(full: seq<Channels>, part: seq<Channels>, available: Interval, lower: real, ratio: real, upper: real)
    requires FullyUsed(full) == Some(available) && 0.0 < ratio < 1.0
    requires Brackets(full, part, lower, upper)
    ensures HalfOf(part, available, ratio) == Lower ==> Brackets(full, part, lower, ratio)
    ensures HalfOf(part, available, ratio) == Upper ==> Brackets(full, part, ratio, upper)
    ensures HalfOf(part, available, ratio) == Neither && Bounds(part).lower < ratio < Bounds(part).upper ==>
      Feasible(full, part, ratio)
  {
    if HalfOf(part, available, ratio) == Lower {
      UpperHalfRejected(full, part, lower, ratio, upper);
    } else if HalfOf(part, available, ratio) == Upper {
      LowerHalfRejected(full, part, lower, ratio, upper);
    }
  }

  lemma LowerHalfAnswers(full: seq<Channels>, part: seq<Channels>, available: Interval,
                         lower: real, ratio: real, upper: real, steps: nat)
    requires steps > 0 && 0.0 <= lower < ratio < upper <= 1.0 && ratio == (lower + upper) / 2.0
    requires HalfOf(part, available, ratio) == Lower
    requires Answers(full, part, BisectFrom(part, available, lower, ratio, steps - 1), steps - 1, ratio - lower)
    ensures Answers(full, part, BisectFrom(part, available, lower, upper, steps), steps, upper - lower)
  {
    AnswersTwice(full, part, BisectFrom(part, available, lower, ratio, steps - 1), steps - 1, ratio - lower);
  }

  lemma UpperHalfAnswers(full: seq<Channels>, part: seq<Channels>, available: Interval,
                         lower: real, ratio: real, upper: real, steps: nat)
    requires steps > 0 && 0.0 <= lower < ratio < upper <= 1.0 && ratio == (lower + upper) / 2.0
    requires HalfOf(part, available, ratio) == Upper
    requires Answers(full, part, BisectFrom(part, available, ratio, upper, steps - 1), steps - 1, upper - ratio)
    ensures Answers(full, part, BisectFrom(part, available, lower, upper, steps), steps, upper - lower)
  {
    AnswersTwice(full, part, BisectFrom(part, available, ratio, upper, steps - 1), steps - 1, upper - ratio);
  }

  // No halving drops a feasible ratio.
  lemma {:induction false} BisectExact(full: seq<Channels>, part: seq<Channels>, available: Interval,
                                       lower: real, upper: real, steps: nat)
    requires FullyUsed(full) == Some(available)
    requires Bounds(part).lower <= lower < upper <= Bounds(part).upper
    requires Brackets(full, part, lower, upper)
    ensures Answers(full, part, BisectFrom(part, available, lower, upper, steps), steps, upper - lower)
    decreases steps
  {
    if steps == 0 {
      BracketIsClose(full, part, lower, upper);
    } else {
      var ratio := (lower + upper) / 2.0;
      Midpoint(lower, upper, ratio);
      HalfRejected(full, part, available, lower, ratio, upper);
      match HalfOf(part, available, ratio)
      case Lower =>
        BisectExact(full, part, available, lower, ratio, steps - 1);
        LowerHalfAnswers(full, part, available, lower, ratio, upper, steps);
      case Upper =>
        BisectExact(full, part, available, ratio, upper, steps - 1);
        UpperHalfAnswers(full, part, available, lower, ratio, upper, steps);
      case Neither =>
    }
  }

  // A ratio that is returned is feasible; without one the feasible ratios are close.
  ghost predicate Answers(full: seq<Channels>, part: seq<Channels>, r: Option<real>, steps: nat, width: real) {
    if r.Some? then 0.0 < r.value < 1.0 && Feasible(full, part, r.value)
    else Close(full, part, Pow2(steps), width)
  }

  lemma AnswersTwice(full: seq<Channels>, part: seq<Channels>, r: Option<real>, steps: nat, width: real)
    requires Answers(full, part, r, steps, width)
    ensures Answers(full, part, r, steps + 1, 2.0 * width)
  {
    if r.None? {
      CloseDoubles(full, part, Pow2(steps), width);
    }
  }

  lemma BracketIsClose(full: seq<Channels>, part: seq<Channels>, lower: real, upper: real)
    requires Brackets(full, part, lower, upper)
    ensures Close(full, part, Pow2(0), upper - lower)
  {
  }

  lemma CloseDoubles(full: seq<Channels>, part: seq<Channels>, scale: real, width: real)
    requires Close(full, part, scale, width)
    ensures Close(full, part, 2.0 * scale, 2.0 * width)
  {
    forall a, b | 0.0 < a <= b < 1.0 && Feasible(full, part, a) && Feasible(full, part, b)
      ensures Near(a, b, 2.0 * scale, 2.0 * width)
    {
      assert Near(a, b, scale, width);
      NearDoubles(a, b, scale, width);
    }
  }

  lemma NearDoubles(a: real, b: real, scale: real, width: real)
    requires Near(a, b, scale, width)
    ensures Near(a, b, 2.0 * scale, 2.0 * width)
  {
  }

  // Nothing to search is nothing to find.
  lemma StuckHasNone(full: seq<Channels>, part: seq<Channels>, ratio: real)
    requires full != [] && part != [] && Stuck(full, part) && 0.0 < ratio < 1.0
    ensures !Allocatable(full, part, ratio)
  {
    PartialExact(full, part, ratio);
  }

  // What each answer of the bisection means: a found ratio explains, "not
  // found" is stuck, exhaustion leaves only ratios close to each other.
  lemma PartialMeans(full: seq<Channels>, part: seq<Channels>)
    ensures var r := PartialOf(full, part);
      && (r.Found? ==> 0.0 < r.ratio < 1.0 && Allocatable(full, part, r.ratio))
      && (r.NotFound? <==> Stuck(full, part))
      && (r.Exhausted? ==> AtMostWide(full, part, Pow2(MAX_STEPS)))
  {
    if !Stuck(full, part) {
      var lower, upper := Bounds(part).lower, Bounds(part).upper;
      BisectExact(full, part, FullyUsed(full).value, lower, upper, MAX_STEPS);
      var r := PartialOf(full, part);
      if r.Found? {
        PartialExact(full, part, r.ratio);
      } else {
        CloseIsNarrow(full, part, Pow2(MAX_STEPS));
      }
    }
  }

  lemma CloseIsNarrow(full: seq<Channels>, part: seq<Channels>, scale: real)
    requires full != [] && part != []
    requires Close(full, part, scale, Bounds(part).upper - Bounds(part).lower)
    ensures AtMostWide(full, part, scale)
  {
    forall a, b | 0.0 < a <= b < 1.0 && Allocatable(full, part, a) && Allocatable(full, part, b)
      ensures Near(a, b, scale, Bounds(part).upper - Bounds(part).lower)
    {
      PartialExact(full, part, a);
      PartialExact(full, part, b);
    }
  }

  // Every row, taken alone, can share at the ratio.
  predicate RowsAdmit(rows: seq<Channels>, ratio: real)
    requires 0.0 < ratio < 1.0
  {
    forall i :: 0 <= i < |rows| ==> NonEmpty(LocalRange(rows[i], ratio))
  }

  lemma BoundsAdmit(rows: seq<Channels>, ratio: real)
    requires 0.0 < ratio < 1.0
    ensures Bounds(rows).lower < ratio < Bounds(rows).upper <==> RowsAdmit(rows, ratio)
  {
    BoundsExact(rows, ratio);
  }

  // Two non-empty sides are stuck exactly when some row cannot be used up or
  // no ratio suits every row of the other side.
  lemma StuckExact(full: seq<Channels>, part: seq<Channels>)
    requires full != [] && part != []
    ensures Stuck(full, part) <==>
      || (exists i :: 0 <= i < |full| && !CanBeFullyUsed(full[i]))
      || (forall ratio | 0.0 < ratio < 1.0 :: !RowsAdmit(part, ratio))
  {
    AllFullyUsed(full);
    var lower, upper := Bounds(part).lower, Bounds(part).upper;
    if lower < upper {
      var middle := (lower + upper) / 2.0;
      Midpoint(lower, upper, middle);
      BoundsAdmit(part, middle);
    } else {
      forall ratio | 0.0 < ratio < 1.0
        ensures !RowsAdmit(part, ratio)
      {
        BoundsAdmit(part, ratio);
      }
    }
  }

  lemma AllFullyUsed(rows: seq<Channels>)
    requires rows != []
    ensures FullyUsed(rows).None? <==> exists i :: 0 <= i < |rows| && !CanBeFullyUsed(rows[i])
  {
  }

  // ---------------------------------------------------------------------
  // The verdict on one interval.

  datatype Side = ProductionSide | ConsumptionSide | BothSides

  datatype Verdict = Certified(limiting: Side, ratio: real) | Disagreement | Unresolved

  // The claim a certified verdict makes: the limiting side is fully used and
  // the other side shares at the ratio.
  ghost predicate Explains(group: Group, side: Side, ratio: real) {
    match side
    case ProductionSide => Allocatable(group.production, group.consumption, ratio)
    case ConsumptionSide => Allocatable(group.consumption, group.production, ratio)
    case BothSides => ratio == 1.0 && Allocatable(group.production, group.consumption, 1.0)
  }

  ghost predicate Explainable(group: Group, side: Side) {
    exists ratio :: 0.0 <= ratio <= 1.0 && Explains(group, side, ratio)
  }

  // An explanation by the simple ratios 0 and 1.
  ghost predicate SimplyExplained(group: Group) {
    exists side :: Explains(group, side, 0.0) || Explains(group, side, 1.0)
  }

  ghost predicate Narrow(group: Group, side: Side) {
    match side
    case ProductionSide => AtMostWide(group.production, group.consumption, Pow2(MAX_STEPS))
    case ConsumptionSide => AtMostWide(group.consumption, group.production, Pow2(MAX_STEPS))
    case BothSides => false
  }

  predicate StuckBothWays(group: Group) {
    Stuck(group.production, group.consumption) && Stuck(group.consumption, group.production)
  }

  predicate MeetFully(group: Group) {
    var consumerTotal, producerTotal := FullyUsed(group.consumption), FullyUsed(group.production);
    consumerTotal.Some? && producerTotal.Some? && Intersection(consumerTotal.value, producerTotal.value).Some?
  }

  function WitnessOf(group: Group): Verdict {
    if ZeroAllocation(group.production, group.consumption) then Certified(ProductionSide, 0.0)
    else if ZeroAllocation(group.consumption, group.production) then Certified(ConsumptionSide, 0.0)
    else if MeetFully(group) then Certified(BothSides, 1.0)
    else Searched(PartialOf(group.production, group.consumption), PartialOf(group.consumption, group.production))
  }

  function Searched(first: Outcome, second: Outcome): Verdict {
    if first.Found? then Certified(ProductionSide, first.ratio)
    else if second.Found? then Certified(ConsumptionSide, second.ratio)
    else if first.Exhausted? || second.Exhausted? then Unresolved
    else Disagreement
  }

  method IntervalWitness(group: Group) returns (v: Verdict)
    ensures v == WitnessOf(group)
  {
    var consumption, production := group.consumption, group.production;
    if ZeroAllocation(production, consumption) {
      return Certified(ProductionSide, 0.0);
    }
    if ZeroAllocation(consumption, production) {
      return Certified(ConsumptionSide, 0.0);
    }
    var consumerTotal, producerTotal := FullyUsed(consumption), FullyUsed(production);
    if consumerTotal.Some? && producerTotal.Some?
      && Intersection(consumerTotal.value, producerTotal.value).Some? {
      return Certified(BothSides, 1.0);
    }
    var first := PartialAllocation(production, consumption);
    if first.Found? {
      return Certified(ProductionSide, first.ratio);
    }
    var second := PartialAllocation(consumption, production);
    if second.Found? {
      return Certified(ConsumptionSide, second.ratio);
    }
    v := if first.Exhausted? || second.Exhausted? then Unresolved else Disagreement;
  }

  // Simple explanations are found whenever there is one, and first.
  lemma SimpleFirst(group: Group)
    ensures SimplyExplained(group) <==> WitnessOf(group).Certified? && WitnessOf(group).ratio in {0.0, 1.0}
    ensures (exists side :: Explains(group, side, 0.0)) <==> WitnessOf(group).Certified? && WitnessOf(group).ratio == 0.0
    ensures WitnessOf(group) == Certified(ProductionSide, 0.0) <==> Explains(group, ProductionSide, 0.0)
    ensures WitnessOf(group).Certified? ==> (WitnessOf(group).limiting == BothSides <==> WitnessOf(group).ratio == 1.0)
  {
    ZeroExact(group.production, group.consumption);
    ZeroExact(group.consumption, group.production);
    PartialMeans(group.production, group.consumption);
    PartialMeans(group.consumption, group.production);
    if Explains(group, ProductionSide, 0.0) {
    } else if Explains(group, ConsumptionSide, 0.0) {
    } else {
      BothFullyUsed(group);
      assert MeetFully(group) ==> Explains(group, BothSides, 1.0);
    }
  }

  // Soundness: a certificate is an exact allocation.
  lemma WitnessIsSound(group: Group)
    requires WitnessOf(group).Certified?
    ensures var v := WitnessOf(group); 0.0 <= v.ratio <= 1.0 && Explains(group, v.limiting, v.ratio)
  {
    ZeroExact(group.production, group.consumption);
    ZeroExact(group.consumption, group.production);
    if !ZeroAllocation(group.production, group.consumption) && !ZeroAllocation(group.consumption, group.production) {
      BothFullyUsed(group);
      PartialMeans(group.production, group.consumption);
      PartialMeans(group.consumption, group.production);
    }
  }

  // Completeness: a side that is stuck has no explanation, simple ones aside.
  lemma StuckIsUnexplained(group: Group, side: Side)
    requires !SimplyExplained(group)
    requires side == ProductionSide ==> Stuck(group.production, group.consumption)
    requires side == ConsumptionSide ==> Stuck(group.consumption, group.production)
    ensures !Explainable(group, side)
  {
    ZeroExact(group.production, group.consumption);
    ZeroExact(group.consumption, group.production);
    assert !Explains(group, ProductionSide, 0.0) && !Explains(group, ConsumptionSide, 0.0);
    NothingWithEmptySide(group);
    if group.production != [] && group.consumption != [] {
      forall ratio | 0.0 <= ratio <= 1.0
        ensures !Explains(group, side, ratio)
      {
        StuckNowhere(group, side, ratio);
      }
    }
  }

  lemma StuckNowhere(group: Group, side: Side, ratio: real)
    requires !SimplyExplained(group) && group.production != [] && group.consumption != [] && 0.0 <= ratio <= 1.0
    requires side == ProductionSide ==> Stuck(group.production, group.consumption)
    requires side == ConsumptionSide ==> Stuck(group.consumption, group.production)
    ensures !Explains(group, side, ratio)
  {
    assert !Explains(group, side, 0.0) && !Explains(group, side, 1.0);
    if 0.0 < ratio < 1.0 {
      match side
      case ProductionSide => StuckHasNone(group.production, group.consumption, ratio);
      case ConsumptionSide => StuckHasNone(group.consumption, group.production, ratio);
      case BothSides =>
    }
  }

  // The class of every refusal: a disagreement is stuck both ways, and then
  // nothing explains it at any ratio. Anything else that is not certified stays
  // unresolved: nothing at the ends, and each side either has no explanation or
  // only ratios within 2^-128 of the initial bounds' width of each other.
  lemma RefusalExact(group: Group)
    ensures WitnessOf(group) == Disagreement <==> !SimplyExplained(group) && StuckBothWays(group)
    ensures WitnessOf(group) == Disagreement ==> forall side :: !Explainable(group, side)
    ensures WitnessOf(group) == Unresolved ==>
      !SimplyExplained(group) && !StuckBothWays(group) && forall side :: Explainable(group, side) ==> Narrow(group, side)
  {
    SimpleFirst(group);
    PartialMeans(group.production, group.consumption);
    PartialMeans(group.consumption, group.production);
    if !SimplyExplained(group) {
      forall side
        ensures WitnessOf(group) in {Disagreement, Unresolved} && Explainable(group, side) ==> Narrow(group, side)
        ensures StuckBothWays(group) ==> !Explainable(group, side)
      {
        if WitnessOf(group) in {Disagreement, Unresolved} {
          NotFoundIsNarrow(group, side);
        }
        if StuckBothWays(group) {
          StuckIsUnexplained(group, side);
        }
      }
    }
  }

  function PartialFor(group: Group, side: Side): Outcome
    requires side != BothSides
  {
    if side == ProductionSide then PartialOf(group.production, group.consumption)
    else PartialOf(group.consumption, group.production)
  }

  // A side the search gave up has no explanation or only ratios close to each other.
  lemma NotFoundIsNarrow(group: Group, side: Side)
    requires !SimplyExplained(group)
    requires side != BothSides ==> !PartialFor(group, side).Found?
    ensures Explainable(group, side) ==> Narrow(group, side)
  {
    PartialMeans(group.production, group.consumption);
    PartialMeans(group.consumption, group.production);
    if side == BothSides || PartialFor(group, side).NotFound? {
      StuckIsUnexplained(group, side);
    }
  }

  // Ratios in between come last, the production side before the consumption side.
  lemma ProductionBeforeConsumption(group: Group)
    requires WitnessOf(group).Certified? && WitnessOf(group).limiting == ConsumptionSide && WitnessOf(group).ratio != 0.0
    ensures Explainable(group, ProductionSide) ==> Narrow(group, ProductionSide)
  {
    SimpleFirst(group);
    SearchedOnly(group);
    NotFoundIsNarrow(group, ProductionSide);
  }

  lemma SearchedOnly(group: Group)
    requires WitnessOf(group).Certified? && WitnessOf(group).limiting == ConsumptionSide && WitnessOf(group).ratio != 0.0
    ensures !PartialOf(group.production, group.consumption).Found? && WitnessOf(group).ratio != 1.0
  {
    PartialMeans(group.consumption, group.production);
  }

  // Ten kWh produced and shared against two consumed: nothing explains it, yet
  // the consumer's own three readings agree, so the search does not call it a
  // disagreement.
  function TenAgainstTwo(): Group {
    Group([Channels(Interval(4.9995, 5.0005), Interval(1.9995, 2.0005), Interval(2.9995, 3.0005))],
          [Channels(Interval(9.9995, 10.0005), Interval(9.9995, 10.0005), Interval(0.0, 0.0005))])
  }

  lemma TenAgainstTwoIsUnresolved()
    ensures WitnessOf(TenAgainstTwo()) == Unresolved
    ensures forall side :: !Explainable(TenAgainstTwo(), side)
  {
    var group := TenAgainstTwo();
    TenIsNotSimple();
    NoShareOfTen();
    RefusalExact(group);
    PartialMeans(group.production, group.consumption);
    forall side
      ensures !Explainable(group, side)
    {
      if side != ProductionSide {
        StuckIsUnexplained(group, side);
      } else {
        assert !Explains(group, side, 0.0) && !Explains(group, side, 1.0);
      }
    }
    assert WitnessOf(group) == Searched(PartialOf(group.production, group.consumption),
                                        PartialOf(group.consumption, group.production));
  }

  lemma NoShareOfTen()
    ensures forall ratio | 0.0 < ratio < 1.0 :: !Allocatable(TenAgainstTwo().production, TenAgainstTwo().consumption, ratio)
    ensures !StuckBothWays(TenAgainstTwo()) && Stuck(TenAgainstTwo().consumption, TenAgainstTwo().production)
  {
    ConsumerIsConsistent();
    TenIsAvailable();
    forall ratio | 0.0 < ratio < 1.0
      ensures !Allocatable(TenAgainstTwo().production, TenAgainstTwo().consumption, ratio)
    {
      TwoIsTooLittle(ratio);
      PartialExact(TenAgainstTwo().production, TenAgainstTwo().consumption, ratio);
    }
  }

  lemma TenIsNotSimple()
    ensures !ZeroAllocation(TenAgainstTwo().production, TenAgainstTwo().consumption)
    ensures !ZeroAllocation(TenAgainstTwo().consumption, TenAgainstTwo().production)
    ensures !MeetFully(TenAgainstTwo()) && !SimplyExplained(TenAgainstTwo())
  {
    var group := TenAgainstTwo();
    var c, p := group.consumption, group.production;
    assert c[0] in c && p[0] in p;
    assert c[0].local.lower > 0.0;
    TenIsAvailable();
    ZeroExact(p, c);
    ZeroExact(c, p);
    BothFullyUsed(group);
  }

  lemma TenIsAvailable()
    ensures FullyUsed(TenAgainstTwo().production) == Some(Interval(9.9995, 10.0005))
    ensures FullyUsed(TenAgainstTwo().consumption) == None
  {
    var p, c := TenAgainstTwo().production, TenAgainstTwo().consumption;
    assert c[0] in c;
    assert FullRanges(p) == [Interval(9.9995, 10.0005)];
    assert FullRanges(p)[..0] == [];
  }

  lemma ConsumerIsConsistent()
    ensures !Stuck(TenAgainstTwo().production, TenAgainstTwo().consumption)
  {
    var c := TenAgainstTwo().consumption;
    TenIsAvailable();
    assert c[..0] == [];
    assert Bounds(c) == Interval(Max(0.0, RowLower(c[0])), Min(1.0, RowUpper(c[0])));
  }

  lemma TwoIsTooLittle(ratio: real)
    requires 0.0 < ratio < 1.0
    ensures Total(LocalRanges(TenAgainstTwo().consumption, ratio)).upper <= 2.0005
    ensures !Feasible(TenAgainstTwo().production, TenAgainstTwo().consumption, ratio)
  {
    var c := TenAgainstTwo().consumption;
    TenIsAvailable();
    assert LocalRanges(c, ratio)[..0] == [];
  }

  lemma BothFullyUsed(group: Group)
    requires !ZeroAllocation(group.production, group.consumption)
    requires !ZeroAllocation(group.consumption, group.production)
    ensures MeetFully(group) <==> Explains(group, BothSides, 1.0)
    ensures forall side :: Explains(group, side, 1.0) ==> Explains(group, BothSides, 1.0)
  {
    var c, p := group.consumption, group.production;
    if c == [] || p == [] {
      NothingWithEmptySide(group);
      forall side
        ensures !Explains(group, side, 1.0)
      {
        assert !Explainable(group, side);
      }
    } else {
      FullExact(p, c);
      FullExact(c, p);
      if FullyUsed(c).Some? && FullyUsed(p).Some? {
        FullRangesNonEmpty(c);
        FullRangesNonEmpty(p);
        TotalOrdered(FullRanges(c));
        TotalOrdered(FullRanges(p));
      }
    }
  }

  lemma NothingWithEmptySide(group: Group)
    requires !ZeroAllocation(group.production, group.consumption)
    requires !ZeroAllocation(group.consumption, group.production)
    ensures group.consumption == [] || group.production == [] ==> forall side :: !Explainable(group, side)
  {
    if group.consumption == [] || group.production == [] {
      forall side, ratio | 0.0 <= ratio <= 1.0 && Explains(group, side, ratio)
        ensures false
      {
        if side == ConsumptionSide {
          EmptySide(group.consumption, group.production, ratio);
        } else {
          EmptySide(group.production, group.consumption, ratio);
        }
      }
    }
  }
}
