/** The billing engine's interval allocation, and what the rounding audit makes of it. */
module Allocation {
  import opened Numbers
  import opened Reconciliation
  import opened Witness
  import opened Search

  datatype Model = Proportional | Einfach

  const REDISTRIBUTION_THRESHOLD := 0.001

  predicate NonNegative(xs: seq<real>) {
    forall i :: 0 <= i < |xs| ==> xs[i] >= 0.0
  }

  function Scale(xs: seq<real>, factor: real): (r: seq<real>)
    ensures |r| == |xs|
  {
    seq(|xs|, i requires 0 <= i < |xs| => factor * xs[i])
  }

  function Capped(xs: seq<real>, cap: real): (r: seq<real>)
    ensures |r| == |xs|
  {
    seq(|xs|, i requires 0 <= i < |xs| => Min(xs[i], cap))
  }

  function PointwiseMin(xs: seq<real>, ys: seq<real>): (r: seq<real>)
    requires |xs| == |ys|
    ensures |r| == |xs|
  {
    seq(|xs|, i requires 0 <= i < |xs| => Min(xs[i], ys[i]))
  }

  function Minus(xs: seq<real>, ys: seq<real>): (r: seq<real>)
    requires |xs| == |ys|
    ensures |r| == |xs|
  {
    seq(|xs|, i requires 0 <= i < |xs| => xs[i] - ys[i])
  }

  function Plus(xs: seq<real>, ys: seq<real>): (r: seq<real>)
    requires |xs| == |ys|
    ensures |r| == |xs|
  {
    seq(|xs|, i requires 0 <= i < |xs| => xs[i] + ys[i])
  }

  function Zeros(n: nat): seq<real> {
    seq(n, i => 0.0)
  }

  // ---------------------------------------------------------------------
  // One interval.

  function ProportionalSplit(prod: real, cons: seq<real>): (r: seq<real>)
    requires Sum(cons) > 0.0
    ensures |r| == |cons|
  {
    var total := Sum(cons);
    PointwiseMin(Scale(cons, Min(prod, total) / total), cons)
  }

  function EqualShare(prod: real, n: nat): real
    requires n > 0
  {
    prod / n as real
  }

  // Everyone's equal share, capped at the consumption.
  function EqualShares(prod: real, cons: seq<real>): (r: seq<real>)
    requires cons != []
    ensures |r| == |cons|
  {
    Capped(cons, EqualShare(prod, |cons|))
  }

  // The second pass tops the first one up when enough remains and someone can absorb it.
  function TwoPasses(remaining: real, first: seq<real>, unfilled: seq<real>, extra: seq<real>): (r: seq<real>)
    requires |first| == |extra|
    ensures |r| == |first|
  {
    if remaining > REDISTRIBUTION_THRESHOLD && Sum(unfilled) > 0.0 then Plus(first, extra) else first
  }

  // The remainder in proportion to what is unfilled, capped at it.
  function Extra(unfilled: seq<real>, remaining: real): (r: seq<real>)
    ensures |r| == |unfilled|
  {
    if Sum(unfilled) == 0.0 then unfilled
    else PointwiseMin(Scale(unfilled, remaining / Sum(unfilled)), unfilled)
  }

  // What each consumer could still absorb, clipped at zero.
  function Unfilled(cons: seq<real>, first: seq<real>): (r: seq<real>)
    requires |cons| == |first|
    ensures |r| == |cons|
  {
    seq(|cons|, i requires 0 <= i < |cons| => Max(cons[i] - first[i], 0.0))
  }

  // The state between the two passes.
  datatype Pass = Pass(first: seq<real>, unfilled: seq<real>, remaining: real)

  function FirstPassOf(prod: real, cons: seq<real>): (p: Pass)
    requires cons != []
    ensures |p.first| == |p.unfilled| == |cons|
  {
    var first := EqualShares(prod, cons);
    Pass(first, Unfilled(cons, first), prod - Sum(first))
  }

  function EinfachSplit(prod: real, cons: seq<real>): (r: seq<real>)
    requires cons != []
    ensures |r| == |cons|
  {
    Redistribute(FirstPassOf(prod, cons))
  }

  function Redistribute(p: Pass): (r: seq<real>)
    requires |p.first| == |p.unfilled|
    ensures |r| == |p.first|
  {
    TwoPasses(p.remaining, p.first, p.unfilled, Extra(p.unfilled, p.remaining))
  }

  function AllocateInterval(prod: real, cons: seq<real>, model: Model): (r: seq<real>)
    ensures |r| == |cons|
  {
    if prod <= 0.0 || Sum(cons) <= 0.0 then Zeros(|cons|)
    else if model == Proportional then ProportionalSplit(prod, cons)
    else EinfachSplit(prod, cons)
  }

  // Producers are credited by their share of the interval's production.
  function Credits(prods: seq<real>, handedOut: real): (r: seq<real>)
    ensures |r| == |prods|
  {
    if Sum(prods) == 0.0 then Zeros(|prods|) else Scale(prods, handedOut / Sum(prods))
  }

  method SplitInterval(prod: real, cons: seq<real>, model: Model, row: seq<real>) returns (split: seq<real>)
    requires row == Zeros(|cons|)
    ensures split == AllocateInterval(prod, cons, model)
  {
    if prod <= 0.0 {
      return row;
    }
    if Sum(cons) <= 0.0 {
      return row;
    }
    if model == Proportional {
      split := ProportionalSplit(prod, cons);
    } else {
      split := EinfachSplit(prod, cons);
    }
  }

  method AllocateEnergy(production: seq<real>, consumption: seq<seq<real>>, model: Model)
    returns (result: seq<seq<real>>)
    requires |production| == |consumption|
    ensures |result| == |consumption|
    ensures forall t :: 0 <= t < |result| ==>
      result[t] == AllocateInterval(production[t], consumption[t], model)
  {
    result := seq(|consumption|, t requires 0 <= t < |consumption| => Zeros(|consumption[t]|));
    for t := 0 to |production|
      invariant |result| == |consumption|
      invariant forall k :: 0 <= k < t ==> result[k] == AllocateInterval(production[k], consumption[k], model)
      invariant forall k :: t <= k < |result| ==> result[k] == Zeros(|consumption[k]|)
    {
      var split := SplitInterval(production[t], consumption[t], model, result[t]);
      result := result[t := split];
    }
  }

  // ---------------------------------------------------------------------
  // Proportional: one common ratio, nothing left over on the short side.

  lemma ProperShare(part: real, whole: real)
    requires 0.0 <= part <= whole && whole > 0.0
    ensures 0.0 <= part / whole <= 1.0 && part / whole * whole == part
  {
  }

  lemma ShareBelow(share: real, x: real)
    requires 0.0 <= share <= 1.0 && x >= 0.0
    ensures 0.0 <= share * x <= x
  {
  }

  lemma ScaleDown(xs: seq<real>, ratio: real)
    requires NonNegative(xs) && 0.0 <= ratio <= 1.0
    ensures forall i :: 0 <= i < |xs| ==> 0.0 <= Scale(xs, ratio)[i] <= xs[i]
    ensures PointwiseMin(Scale(xs, ratio), xs) == Scale(xs, ratio)
  {
    var scaled := Scale(xs, ratio);
    forall i | 0 <= i < |xs|
      ensures 0.0 <= scaled[i] <= xs[i]
    {
      var x := xs[i];
      ShareBelow(ratio, x);
      assert scaled[i] == ratio * x;
    }
  }

  lemma ScaleToSum(xs: seq<real>, part: real, ratio: real)
    requires Sum(xs) > 0.0 && ratio == part / Sum(xs)
    ensures Sum(Scale(xs, ratio)) == part
  {
    SumScaled(xs, ratio, Scale(xs, ratio));
  }

  // The cap at the consumption never bites: the split is one common ratio.
  lemma ProportionalRatio(prod: real, cons: seq<real>, ratio: real)
    requires prod > 0.0 && NonNegative(cons) && Sum(cons) > 0.0
    requires ratio == Min(prod, Sum(cons)) / Sum(cons)
    ensures 0.0 <= ratio <= 1.0 && ProportionalSplit(prod, cons) == Scale(cons, ratio)
    ensures Sum(ProportionalSplit(prod, cons)) == Min(prod, Sum(cons))
    ensures forall i :: 0 <= i < |cons| ==> 0.0 <= ProportionalSplit(prod, cons)[i] <= cons[i]
  {
    ProperShare(Min(prod, Sum(cons)), Sum(cons));
    ScaleDown(cons, ratio);
    ScaleToSum(cons, Min(prod, Sum(cons)), ratio);
  }

  lemma CreditsExact(prods: seq<real>, handedOut: real)
    requires NonNegative(prods) && 0.0 <= handedOut <= Sum(prods)
    ensures Sum(Credits(prods, handedOut)) == handedOut
    ensures forall j :: 0 <= j < |prods| ==> 0.0 <= Credits(prods, handedOut)[j] <= prods[j]
  {
    if Sum(prods) == 0.0 {
      SumOfZeros(Zeros(|prods|));
    } else {
      SumNonNegative(prods);
      var ratio := handedOut / Sum(prods);
      ProperShare(handedOut, Sum(prods));
      ScaleDown(prods, ratio);
      ScaleToSum(prods, handedOut, ratio);
    }
  }

  // ---------------------------------------------------------------------
  // Einfach: equal shares, one redistribution, a shortfall of at most one Wh.

  lemma {:induction false} SumCapped(xs: seq<real>, cap: real)
    ensures Sum(Capped(xs, cap)) <= |xs| as real * cap
  {
    if xs != [] {
      var n := |xs| - 1;
      SumCapped(xs[..n], cap);
      assert Capped(xs, cap)[..n] == Capped(xs[..n], cap);
    }
  }

  lemma SumMinus(xs: seq<real>, ys: seq<real>)
    requires |xs| == |ys|
    ensures Sum(Minus(xs, ys)) == Sum(xs) - Sum(ys)
  {
    SumPointwise(Minus(xs, ys), ys, xs);
  }

  // What the second pass hands out: all that remains, or all that is unfilled.
  lemma SecondPass(remaining: real, unfilled: seq<real>, extra: seq<real>)
    requires remaining >= 0.0 && NonNegative(unfilled) && Sum(unfilled) > 0.0
    requires extra == Extra(unfilled, remaining)
    ensures forall i :: 0 <= i < |unfilled| ==> 0.0 <= extra[i] <= unfilled[i]
    ensures Sum(extra) == Min(remaining, Sum(unfilled))
  {
    var total := Sum(unfilled);
    var ratio := remaining / total;
    if remaining <= total {
      ProperShare(remaining, total);
      ScaleDown(unfilled, ratio);
      ScaleToSum(unfilled, remaining, ratio);
    } else {
      ExcessShare(remaining, total);
      ScaleUp(unfilled, ratio);
    }
  }

  lemma ExcessShare(part: real, whole: real)
    requires part > whole > 0.0
    ensures part / whole >= 1.0
  {
  }

  lemma ScaleUp(xs: seq<real>, ratio: real)
    requires NonNegative(xs) && ratio >= 1.0
    ensures PointwiseMin(Scale(xs, ratio), xs) == xs
  {
    forall i | 0 <= i < |xs|
      ensures Scale(xs, ratio)[i] >= xs[i]
    {
      ProductGrows(1.0, ratio, xs[i]);
    }
  }

  predicate Redistributes(prod: real, cons: seq<real>)
    requires cons != []
  {
    var p := FirstPassOf(prod, cons);
    p.remaining > REDISTRIBUTION_THRESHOLD && Sum(p.unfilled) > 0.0
  }

  // The clip at zero never bites.
  lemma UnfilledIsDifference(cons: seq<real>, cap: real)
    ensures Unfilled(cons, Capped(cons, cap)) == Minus(cons, Capped(cons, cap))
  {
  }

  lemma EqualSharesAddUp(prod: real, n: nat, share: real)
    requires prod >= 0.0 && n > 0 && share == EqualShare(prod, n)
    ensures AddsUp(share, n, prod)
  {
  }

  // n non-negative shares of equal size make up the whole.
  predicate AddsUp(share: real, n: nat, whole: real) {
    share >= 0.0 && n as real * share == whole
  }

  lemma CappedPass(prod: real, cons: seq<real>, cap: real, first: seq<real>)
    requires NonNegative(cons) && AddsUp(cap, |cons|, prod) && first == Capped(cons, cap)
    ensures Sum(first) <= prod
    ensures forall i :: 0 <= i < |cons| ==> 0.0 <= first[i] <= cons[i]
    ensures Unfilled(cons, first) == Minus(cons, first) && NonNegative(Minus(cons, first))
    ensures Sum(Minus(cons, first)) == Sum(cons) - Sum(first)
  {
    SumCapped(cons, cap);
    UnfilledIsDifference(cons, cap);
    SumMinus(cons, first);
  }

  lemma FirstPass(prod: real, cons: seq<real>, p: Pass)
    requires prod >= 0.0 && NonNegative(cons) && cons != []
    requires p == FirstPassOf(prod, cons)
    ensures p.remaining >= 0.0 && Sum(p.first) == prod - p.remaining
    ensures forall i :: 0 <= i < |cons| ==> 0.0 <= p.first[i] <= cons[i]
    ensures p.unfilled == Minus(cons, p.first) && NonNegative(p.unfilled)
    ensures Sum(p.unfilled) == Sum(cons) - Sum(p.first)
  {
    var share := EqualShare(prod, |cons|);
    EqualSharesAddUp(prod, |cons|, share);
    CappedPass(prod, cons, share, p.first);
  }

  // A pass that redistributes hands out all that is possible.
  lemma RedistributedPass(p: Pass, cons: seq<real>)
    requires |p.first| == |p.unfilled| == |cons| && p.unfilled == Minus(cons, p.first)
    requires NonNegative(p.first) && NonNegative(p.unfilled)
    requires p.remaining > REDISTRIBUTION_THRESHOLD && Sum(p.unfilled) > 0.0
    ensures forall i :: 0 <= i < |cons| ==> 0.0 <= Redistribute(p)[i] <= cons[i]
    ensures Sum(Redistribute(p)) == Sum(p.first) + Min(p.remaining, Sum(p.unfilled))
  {
    var extra := Extra(p.unfilled, p.remaining);
    SecondPass(p.remaining, p.unfilled, extra);
    AddedPass(p.first, p.unfilled, extra, cons);
  }

  // What the split hands out, from what the first pass leaves.
  lemma PassTotals(produced: real, consumed: real, first: real, remaining: real, unfilled: real)
    requires first == produced - remaining && unfilled == consumed - first
    requires remaining >= 0.0 && unfilled >= 0.0
    ensures first <= Min(produced, consumed)
    ensures first + Min(remaining, unfilled) == Min(produced, consumed)
    ensures !(remaining > REDISTRIBUTION_THRESHOLD && unfilled > 0.0) ==>
      Min(produced, consumed) <= first + REDISTRIBUTION_THRESHOLD
  {
  }

  lemma EinfachExact(prod: real, cons: seq<real>)
    requires prod >= 0.0 && NonNegative(cons) && cons != []
    ensures forall i :: 0 <= i < |cons| ==> 0.0 <= EinfachSplit(prod, cons)[i] <= cons[i]
    ensures Sum(EinfachSplit(prod, cons)) <= Min(prod, Sum(cons)) <= Sum(EinfachSplit(prod, cons)) + REDISTRIBUTION_THRESHOLD
    ensures Redistributes(prod, cons) ==> Sum(EinfachSplit(prod, cons)) == Min(prod, Sum(cons))
  {
    var p := FirstPassOf(prod, cons);
    FirstPass(prod, cons, p);
    SumNonNegative(p.unfilled);
    PassTotals(prod, Sum(cons), Sum(p.first), p.remaining, Sum(p.unfilled));
    if Redistributes(prod, cons) {
      RedistributedPass(p, cons);
    }
  }

  lemma AddedPass(first: seq<real>, unfilled: seq<real>, extra: seq<real>, cons: seq<real>)
    requires |first| == |unfilled| == |extra| == |cons| && unfilled == Minus(cons, first)
    requires forall i :: 0 <= i < |cons| ==> 0.0 <= first[i] && 0.0 <= extra[i] <= unfilled[i]
    ensures forall i :: 0 <= i < |cons| ==> 0.0 <= Plus(first, extra)[i] <= cons[i]
    ensures Sum(Plus(first, extra)) == Sum(first) + Sum(extra)
  {
    SumPointwise(first, extra, Plus(first, extra));
    assert forall i :: 0 <= i < |cons| ==> unfilled[i] == cons[i] - first[i];
  }

  // ---------------------------------------------------------------------
  // An honest VNB: exact proportional energy, each channel rounded half-up to 1 Wh.

  function ReadingCell(x: real): (c: Cell)
    requires x >= 0.0
    ensures Within(x, c)
  {
    CellOf(Reading(x))
  }

  // Such a reading is accepted below the limit.
  lemma ReadingIsAccepted(x: real)
    requires x >= 0.0
    ensures MakeCell(Reading(x)) == if Reading(x) < READING_LIMIT then Some(ReadingCell(x)) else None
  {
    assert Reading(x) >= 0.0 && Reading(x) == WattHours(RoundHalfUp(x * 1000.0));
  }

  predicate Shared(totals: seq<real>, locals: seq<real>) {
    |totals| == |locals| && forall i :: 0 <= i < |totals| ==> 0.0 <= locals[i] <= totals[i]
  }

  function RoundedRows(totals: seq<real>, locals: seq<real>): seq<Channels>
    requires Shared(totals, locals)
  {
    seq(|totals|, i requires 0 <= i < |totals| =>
      Channels(ReadingCell(totals[i]), ReadingCell(locals[i]), ReadingCell(totals[i] - locals[i])))
  }

  function Meters(totals: seq<real>, locals: seq<real>): seq<Exact>
    requires |totals| == |locals|
  {
    seq(|totals|, i requires 0 <= i < |totals| => Exact(totals[i], locals[i], totals[i] - locals[i]))
  }

  lemma RoundedFits(totals: seq<real>, locals: seq<real>)
    requires Shared(totals, locals)
    ensures Locals(Meters(totals, locals)) == locals
    ensures forall i :: 0 <= i < |totals| ==> Fits(Meters(totals, locals)[i], RoundedRows(totals, locals)[i])
  {
    forall i | 0 <= i < |totals|
      ensures Fits(Meters(totals, locals)[i], RoundedRows(totals, locals)[i])
    {
      var e := Exact(totals[i], locals[i], totals[i] - locals[i]);
      assert Fits(e, Channels(ReadingCell(e.total), ReadingCell(e.local), ReadingCell(e.residual)));
    }
  }

  lemma ScaledMeter(row: Channels, total: real, local: real, ratio: real)
    requires Fits(Exact(total, local, total - local), row) && local == ratio * total
    ensures Shares(Exact(total, local, total - local), row, ratio)
  {
  }

  lemma ScaledMeters(rows: seq<Channels>, totals: seq<real>, locals: seq<real>, ratio: real)
    requires |rows| == |totals| && locals == Scale(totals, ratio)
    requires forall i :: 0 <= i < |rows| ==> Fits(Meters(totals, locals)[i], rows[i])
    ensures forall i :: 0 <= i < |rows| ==> Shares(Meters(totals, locals)[i], rows[i], ratio)
  {
    forall i | 0 <= i < |rows|
      ensures Shares(Meters(totals, locals)[i], rows[i], ratio)
    {
      assert Meters(totals, locals)[i] == Exact(totals[i], locals[i], totals[i] - locals[i]);
      ScaledMeter(rows[i], totals[i], locals[i], ratio);
    }
  }

  lemma MetersAllocate(fullRows: seq<Channels>, partRows: seq<Channels>, fs: seq<Exact>, ps: seq<Exact>, ratio: real)
    requires |fs| == |fullRows| && |ps| == |partRows|
    requires forall i :: 0 <= i < |fs| ==> Fits(fs[i], fullRows[i]) && fs[i].residual == 0.0
    requires forall i :: 0 <= i < |ps| ==> Shares(ps[i], partRows[i], ratio)
    requires Sum(Locals(fs)) == Sum(Locals(ps))
    ensures Allocatable(fullRows, partRows, ratio)
  {
    assert IsAllocation(fullRows, partRows, ratio, fs, ps);
  }

  lemma RoundedIsAllocatable(full: seq<real>, part: seq<real>, locals: seq<real>, ratio: real)
    requires NonNegative(full) && Shared(part, locals)
    requires locals == Scale(part, ratio) && Sum(full) == Sum(locals)
    ensures Shared(full, full)
    ensures Allocatable(RoundedRows(full, full), RoundedRows(part, locals), ratio)
  {
    RoundedFits(full, full);
    RoundedFits(part, locals);
    ScaledMeters(RoundedRows(part, locals), part, locals, ratio);
    MetersAllocate(RoundedRows(full, full), RoundedRows(part, locals),
                   Meters(full, full), Meters(part, locals), ratio);
  }

  lemma ScaleEnds(xs: seq<real>)
    requires NonNegative(xs)
    ensures Scale(xs, 1.0) == xs
    ensures Scale(xs, 0.0) == Zeros(|xs|)
    ensures Sum(xs) == 0.0 ==> xs == Zeros(|xs|)
    ensures Sum(Zeros(|xs|)) == 0.0
  {
    SumNonNegative(xs);
    SumOfZeros(Zeros(|xs|));
  }

  lemma SplitIsShared(prods: seq<real>, cons: seq<real>)
    requires NonNegative(prods) && NonNegative(cons)
    ensures var split := AllocateInterval(Sum(prods), cons, Proportional);
            Shared(cons, split) && Shared(prods, Credits(prods, Sum(split)))
            && Sum(Credits(prods, Sum(split))) == Sum(split)
  {
    SumNonNegative(prods);
    ScaleEnds(cons);
    if Sum(prods) > 0.0 && Sum(cons) > 0.0 {
      ProportionalRatio(Sum(prods), cons, Min(Sum(prods), Sum(cons)) / Sum(cons));
    }
    CreditsExact(prods, Sum(AllocateInterval(Sum(prods), cons, Proportional)));
  }

  // The interval an honest VNB reports for these exact totals.
  function HonestGroup(prods: seq<real>, cons: seq<real>): Group
    requires NonNegative(prods) && NonNegative(cons)
  {
    SplitIsShared(prods, cons);
    var split := AllocateInterval(Sum(prods), cons, Proportional);
    Group(RoundedRows(cons, split), RoundedRows(prods, Credits(prods, Sum(split))))
  }

  lemma HonestVnbExplainable(prods: seq<real>, cons: seq<real>)
    requires NonNegative(prods) && NonNegative(cons)
    ensures exists side :: Explainable(HonestGroup(prods, cons), side)
  {
    var group := HonestGroup(prods, cons);
    var produced, consumed := Sum(prods), Sum(cons);
    var split := AllocateInterval(produced, cons, Proportional);
    SumNonNegative(prods);
    SumNonNegative(cons);
    ScaleEnds(prods);
    ScaleEnds(cons);
    SplitIsShared(prods, cons);
    if produced == 0.0 {
      assert Credits(prods, Sum(split)) == prods;
      RoundedIsAllocatable(prods, cons, split, 0.0);
      assert Explains(group, ProductionSide, 0.0);
      assert Explainable(group, ProductionSide);
    } else if consumed == 0.0 {
      assert split == cons;
      ZeroCredits(prods);
      RoundedIsAllocatable(cons, prods, Credits(prods, 0.0), 0.0);
      assert Explains(group, ConsumptionSide, 0.0);
      assert Explainable(group, ConsumptionSide);
    } else if produced <= consumed {
      var ratio := produced / consumed;
      ProportionalRatio(produced, cons, ratio);
      FullCredits(prods);
      RoundedIsAllocatable(prods, cons, split, ratio);
      assert Explains(group, ProductionSide, ratio);
      assert Explainable(group, ProductionSide);
    } else {
      var ratio := consumed / produced;
      WholeShare(consumed);
      ProportionalRatio(produced, cons, 1.0);
      ProperShare(consumed, produced);
      RoundedIsAllocatable(cons, prods, Credits(prods, consumed), ratio);
      assert Explains(group, ConsumptionSide, ratio);
      assert Explainable(group, ConsumptionSide);
    }
  }

  lemma WholeShare(x: real)
    requires x != 0.0
    ensures x / x == 1.0 && 0.0 / x == 0.0
  {
  }

  lemma FullCredits(prods: seq<real>)
    requires NonNegative(prods) && Sum(prods) > 0.0
    ensures Credits(prods, Sum(prods)) == prods
  {
    WholeShare(Sum(prods));
    ScaleEnds(prods);
  }

  lemma ZeroCredits(prods: seq<real>)
    requires NonNegative(prods) && Sum(prods) > 0.0
    ensures Credits(prods, 0.0) == Scale(prods, 0.0)
  {
    WholeShare(Sum(prods));
  }

  // A rounded honest VNB is never refused as a disagreement.
  method CertifyHonestVnb(prods: seq<real>, cons: seq<real>) returns (v: Verdict)
    requires NonNegative(prods) && NonNegative(cons)
    ensures v != Disagreement
    ensures v.Certified? ==> Explains(HonestGroup(prods, cons), v.limiting, v.ratio)
  {
    HonestVnbExplainable(prods, cons);
    RefusalExact(HonestGroup(prods, cons));
    v := IntervalWitness(HonestGroup(prods, cons));
    if v.Certified? {
      WitnessIsSound(HonestGroup(prods, cons));
    }
  }
}
