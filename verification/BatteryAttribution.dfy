/** What the battery handed out, what it is credited, and when approval accepts
    the frozen attribution. Energy in millionths of a kWh, money in millionths
    of a CHF. */
module BatteryAttribution {
  import opened Numbers
  import opened Approval
  import opened BatterySource
  import Allocation

  // One battery period: total production, the battery's two meters, what was
  // allocated to the battery itself and to each other consumer.
  datatype Meter = Meter(total: seq<real>, charge: seq<real>, discharge: seq<real>,
                         own: seq<real>, ids: seq<int>, alloc: seq<seq<real>>)

  predicate Below(xs: seq<real>, ys: seq<real>) {
    |xs| == |ys| && forall t :: 0 <= t < |xs| ==> xs[t] <= ys[t]
  }

  function Times(xs: seq<real>, fs: seq<real>): (r: seq<real>)
    requires |xs| == |fs|
    ensures |r| == |xs|
  {
    seq(|xs|, t requires 0 <= t < |xs| => xs[t] * fs[t])
  }

  predicate SameLength(alloc: seq<seq<real>>, n: nat) {
    forall i :: 0 <= i < |alloc| ==> |alloc[i]| == n
  }

  // Per interval, what all consumers of the allocation receive.
  function Handed(own: seq<real>, alloc: seq<seq<real>>): (r: seq<real>)
    requires SameLength(alloc, |own|)
    ensures |r| == |own|
  {
    if alloc == [] then own else Allocation.Plus(Handed(own, alloc[..|alloc| - 1]), alloc[|alloc| - 1])
  }

  // What non-negative readings and an allocation within them satisfy.
  ghost predicate Measured(m: Meter) {
    && |m.total| == |m.charge| == |m.discharge| == |m.own|
    && |m.ids| == |m.alloc| && SameLength(m.alloc, |m.own|)
    && Allocation.NonNegative(m.charge) && Allocation.NonNegative(m.discharge) && Allocation.NonNegative(m.own)
    && (forall i :: 0 <= i < |m.alloc| ==> Allocation.NonNegative(m.alloc[i]))
    && Below(m.discharge, m.total) && Below(m.own, m.charge)
    && Below(Handed(m.own, m.alloc), m.total)
  }

  ghost predicate Metered(m: Meter) {
    Measured(m) && !Simultaneous(m.charge, m.discharge)
  }

  // The battery's part of an interval, as the attribution computes it.
  function BatteryFraction(discharge: real, total: real): (f: real)
    ensures 0.0 <= f <= 1.0
  {
    if total > 0.0 then Min(Max(discharge / total, 0.0), 1.0) else 0.0
  }

  // The same part, as the producer credit computes it.
  function CreditShare(discharge: real, total: real): real {
    if total == 0.0 then 0.0 else discharge / total
  }

  function Fractions(m: Meter): (r: seq<real>)
    requires |m.total| == |m.discharge|
    ensures |r| == |m.total|
  {
    seq(|m.total|, t requires 0 <= t < |m.total| => BatteryFraction(m.discharge[t], m.total[t]))
  }

  function CreditShares(m: Meter): (r: seq<real>)
    requires |m.total| == |m.discharge|
    ensures |r| == |m.total|
  {
    seq(|m.total|, t requires 0 <= t < |m.total| => CreditShare(m.discharge[t], m.total[t]))
  }

  function Part(xs: seq<real>, fs: seq<real>): real
    requires |xs| == |fs|
  {
    Sum(Times(xs, fs))
  }

  // The unrounded producer credit of the battery.
  function BatteryCredit(m: Meter): real
    requires |m.total| == |m.discharge| == |m.own| && SameLength(m.alloc, |m.own|)
  {
    Part(Handed(m.own, m.alloc), CreditShares(m))
  }

  // The unrounded battery part of each consumer, before the cap at its line.
  function Parts(alloc: seq<seq<real>>, fs: seq<real>): (r: seq<real>)
    requires SameLength(alloc, |fs|)
    ensures |r| == |alloc|
  {
    seq(|alloc|, i requires 0 <= i < |alloc| => Part(alloc[i], fs))
  }

  // The line quantity of each consumer.
  function Lines(alloc: seq<seq<real>>): (r: seq<int>)
    ensures |r| == |alloc|
  {
    seq(|alloc|, i requires 0 <= i < |alloc| => RoundHalfEven(Sum(alloc[i])))
  }

  function Capped(parts: seq<real>, lines: seq<int>): (r: seq<real>)
    requires |parts| == |lines|
    ensures |r| == |parts|
  {
    seq(|parts|, i requires 0 <= i < |parts| => Min(parts[i], lines[i] as real))
  }

  function Raw(m: Meter): (r: seq<real>)
    requires |m.total| == |m.discharge| == |m.own| && SameLength(m.alloc, |m.own|)
    ensures |r| == |m.alloc|
  {
    Capped(Parts(m.alloc, Fractions(m)), Lines(m.alloc))
  }

  // ---------------------------------------------------------------------
  // Attribution adds up to the credit.

  lemma DistributeTimes(x: real, y: real, f: real)
    ensures (x + y) * f == x * f + y * f
  {
  }

  lemma PartAdds(xs: seq<real>, ys: seq<real>, fs: seq<real>)
    requires |xs| == |ys| == |fs|
    ensures Part(Allocation.Plus(xs, ys), fs) == Part(xs, fs) + Part(ys, fs)
  {
    forall t | 0 <= t < |fs|
      ensures Times(Allocation.Plus(xs, ys), fs)[t] == Times(xs, fs)[t] + Times(ys, fs)[t]
    {
      DistributeTimes(xs[t], ys[t], fs[t]);
    }
    SumPointwise(Times(xs, fs), Times(ys, fs), Times(Allocation.Plus(xs, ys), fs));
  }

  lemma {:induction false} PartsAddUp(own: seq<real>, alloc: seq<seq<real>>, fs: seq<real>)
    requires |own| == |fs| && SameLength(alloc, |fs|)
    ensures Part(Handed(own, alloc), fs) == Part(own, fs) + Sum(Parts(alloc, fs))
  {
    if alloc != [] {
      var n := |alloc| - 1;
      PartsAddUp(own, alloc[..n], fs);
      PartAdds(Handed(own, alloc[..n]), alloc[n], fs);
      assert Parts(alloc, fs)[..n] == Parts(alloc[..n], fs);
    }
  }

  lemma SameShare(discharge: real, total: real)
    requires 0.0 <= discharge <= total
    ensures BatteryFraction(discharge, total) == CreditShare(discharge, total)
    ensures discharge == 0.0 ==> BatteryFraction(discharge, total) == 0.0
  {
    if total > 0.0 {
      assert 0.0 <= discharge / total <= 1.0;
    }
  }

  lemma SameShares(m: Meter)
    requires Metered(m)
    ensures Fractions(m) == CreditShares(m)
    ensures forall t :: 0 <= t < |m.total| ==> m.discharge[t] == 0.0 ==> Fractions(m)[t] == 0.0
  {
    forall t | 0 <= t < |m.total|
      ensures Fractions(m)[t] == CreditShares(m)[t] && (m.discharge[t] == 0.0 ==> Fractions(m)[t] == 0.0)
    {
      SameShare(m.discharge[t], m.total[t]);
    }
  }

  // While the battery discharges it charges nothing, so it receives nothing.
  lemma OwnPartIsZero(m: Meter)
    requires Metered(m)
    ensures Part(m.own, Fractions(m)) == 0.0
  {
    SameShares(m);
    forall t | 0 <= t < |m.own|
      ensures Times(m.own, Fractions(m))[t] == 0.0
    {
      assert !(m.charge[t] > 0.0 && m.discharge[t] > 0.0);
      ZeroFactor(m.own[t], Fractions(m)[t]);
    }
    SumOfZeros(Times(m.own, Fractions(m)));
  }

  lemma ZeroFactor(x: real, f: real)
    requires x == 0.0 || f == 0.0
    ensures x * f == 0.0
  {
  }

  // Before any rounding, the consumers' battery parts are the battery's credit.
  lemma AttributionIsCredit(m: Meter)
    requires Metered(m)
    ensures Sum(Parts(m.alloc, Fractions(m))) == BatteryCredit(m)
  {
    SameShares(m);
    OwnPartIsZero(m);
    PartsAddUp(m.own, m.alloc, Fractions(m));
  }

  lemma SmallerPart(x: real, f: real)
    requires x >= 0.0 && 0.0 <= f <= 1.0
    ensures 0.0 <= x * f <= x
  {
  }

  lemma TimesWithin(xs: seq<real>, fs: seq<real>, ts: seq<real>)
    requires |xs| == |fs| && Allocation.NonNegative(xs) && ts == Times(xs, fs)
    requires forall t :: 0 <= t < |fs| ==> 0.0 <= fs[t] <= 1.0
    ensures |ts| == |xs| && forall t :: 0 <= t < |ts| ==> 0.0 <= ts[t] <= xs[t]
  {
    forall t | 0 <= t < |fs|
      ensures 0.0 <= ts[t] <= xs[t]
    {
      SmallerPart(xs[t], fs[t]);
    }
  }

  lemma SumBetween(ts: seq<real>, xs: seq<real>)
    requires |ts| == |xs| && forall t :: 0 <= t < |ts| ==> 0.0 <= ts[t] <= xs[t]
    ensures 0.0 <= Sum(ts) <= Sum(xs)
  {
    SumNonNegative(ts);
    SumMonotone(ts, xs);
  }

  lemma PartWithin(xs: seq<real>, fs: seq<real>)
    requires |xs| == |fs| && Allocation.NonNegative(xs)
    requires forall t :: 0 <= t < |fs| ==> 0.0 <= fs[t] <= 1.0
    ensures 0.0 <= Part(xs, fs) <= Sum(xs)
  {
    TimesWithin(xs, fs, Times(xs, fs));
    SumBetween(Times(xs, fs), xs);
  }

  // No cap bites: no consumer's battery part exceeds its rounded line.
  predicate CapsHold(parts: seq<real>, lines: seq<int>) {
    |parts| == |lines| && forall i :: 0 <= i < |parts| ==> parts[i] <= lines[i] as real
  }

  // The equality approval demands: the attributed total is the credited line.
  lemma TargetIsCreditLine(m: Meter)
    requires Metered(m) && CapsHold(Parts(m.alloc, Fractions(m)), Lines(m.alloc))
    ensures RoundHalfEven(Sum(Raw(m))) == RoundHalfEven(BatteryCredit(m))
  {
    assert Raw(m) == Parts(m.alloc, Fractions(m));
    AttributionIsCredit(m);
  }

  predicate WholeUnits(xs: seq<real>) {
    forall t :: 0 <= t < |xs| ==> Whole(xs[t])
  }

  // Interval allocations in whole millionths never meet the cap.
  lemma WholeIntervalsKeepCaps(m: Meter)
    requires Metered(m)
    requires forall i :: 0 <= i < |m.alloc| ==> WholeUnits(m.alloc[i])
    ensures CapsHold(Parts(m.alloc, Fractions(m)), Lines(m.alloc))
  {
    forall i | 0 <= i < |m.alloc|
      ensures Parts(m.alloc, Fractions(m))[i] <= Lines(m.alloc)[i] as real
    {
      PartWithin(m.alloc[i], Fractions(m));
      WholeSum(m.alloc[i]);
      RoundWhole(Sum(m.alloc[i]).Floor);
    }
  }

  lemma {:induction false} CappedSum(parts: seq<real>, lines: seq<int>)
    requires |parts| == |lines|
    ensures Sum(Capped(parts, lines)) <= Sum(parts)
    ensures Sum(Capped(parts, lines)) == Sum(parts) <==> CapsHold(parts, lines)
  {
    if parts != [] {
      var n := |parts| - 1;
      CappedSum(parts[..n], lines[..n]);
      assert Capped(parts, lines)[..n] == Capped(parts[..n], lines[..n]);
    }
  }

  // The capped parts still carry the whole credit iff no cap bites.
  lemma CreditIsLostToCaps(m: Meter)
    requires Metered(m)
    ensures Sum(Raw(m)) <= BatteryCredit(m)
    ensures Sum(Raw(m)) == BatteryCredit(m) <==> CapsHold(Parts(m.alloc, Fractions(m)), Lines(m.alloc))
  {
    AttributionIsCredit(m);
    CappedSum(Parts(m.alloc, Fractions(m)), Lines(m.alloc));
  }

  // What each cap takes away.
  function Lost(parts: seq<real>, lines: seq<int>): (r: seq<real>)
    requires |parts| == |lines|
    ensures |r| == |parts|
  {
    seq(|parts|, i requires 0 <= i < |parts| => Max(0.0, parts[i] - lines[i] as real))
  }

  lemma CapsTakeTheLost(parts: seq<real>, lines: seq<int>)
    requires |parts| == |lines|
    ensures Sum(Capped(parts, lines)) == Sum(parts) - Sum(Lost(parts, lines)) && Sum(Lost(parts, lines)) >= 0.0
  {
    SumPointwise(Capped(parts, lines), Lost(parts, lines), parts);
    SumNonNegative(Lost(parts, lines));
  }

  lemma HalfEvenAt(x: real, n: int)
    ensures RoundHalfEven(x) == n
            <==> n as real - 0.5 < x < n as real + 0.5 || (n % 2 == 0 && (x == n as real - 0.5 || x == n as real + 0.5))
  {
  }

  // What is lost does not take the credit below its rounded line: it stays
  // above the half below the line, or on it if the line is even.
  predicate LineSurvives(credit: real, lost: real) {
    var line := RoundHalfEven(credit);
    credit - lost > line as real - 0.5 || (credit - lost == line as real - 0.5 && line % 2 == 0)
  }

  lemma RoundingSurvives(credit: real, lost: real, kept: real)
    requires lost >= 0.0 && kept == credit - lost
    ensures RoundHalfEven(kept) == RoundHalfEven(credit) <==> LineSurvives(credit, lost)
  {
    HalfEvenAt(credit, RoundHalfEven(credit));
    HalfEvenAt(kept, RoundHalfEven(credit));
  }

  // What the caps take from the whole attribution.
  function LostToCaps(m: Meter): real
    requires Metered(m)
  {
    Sum(Lost(Parts(m.alloc, Fractions(m)), Lines(m.alloc)))
  }

  lemma KeptAndLost(m: Meter)
    requires Metered(m)
    ensures Sum(Raw(m)) == BatteryCredit(m) - LostToCaps(m) && LostToCaps(m) >= 0.0
  {
    AttributionIsCredit(m);
    CapsTakeTheLost(Parts(m.alloc, Fractions(m)), Lines(m.alloc));
  }

  // The attributed total is the credited line iff the credit survives its caps.
  lemma TargetReachesLine(m: Meter)
    requires Metered(m)
    ensures RoundHalfEven(Sum(Raw(m))) == RoundHalfEven(BatteryCredit(m)) <==> LineSurvives(BatteryCredit(m), LostToCaps(m))
  {
    KeptAndLost(m);
    RoundingSurvives(BatteryCredit(m), LostToCaps(m), Sum(Raw(m)));
  }

  // ---------------------------------------------------------------------
  // The attribution of one period.

  // Direct solar and battery energy of each consumer, and the battery's audit.
  datatype Attribution = Attribution(battery: seq<int>, direct: seq<int>, charged: int, discharged: int, target: int)

  // A consumer's line, split into two sources.
  predicate Sourced(battery: int, direct: int, raw: real, line: int) {
    battery >= 0 && direct >= 0 && battery + direct == line && -1.0 < battery as real - raw < 1.0
  }

  // What the attribution promises each consumer and the battery.
  ghost predicate Attributes(m: Meter, a: Attribution)
    requires Metered(m)
  {
    var raw, lines := Raw(m), Lines(m.alloc);
    && |a.battery| == |a.direct| == |m.alloc|
    && a.target == RoundHalfEven(Sum(raw)) == SumInt(a.battery)
    && LargestShares(raw, m.ids, a.battery)
    && (forall i :: 0 <= i < |raw| ==> Sourced(a.battery[i], a.direct[i], raw[i], lines[i]))
    && a.charged == RoundHalfEven(Sum(m.charge)) && a.discharged == RoundHalfEven(Sum(m.discharge))
    && a.target <= a.discharged
  }

  lemma RoundMonotone(x: real, y: real)
    requires x <= y
    ensures RoundHalfEven(x) <= RoundHalfEven(y)
  {
  }

  lemma PartOfTotal(handed: real, discharge: real, total: real)
    requires 0.0 <= handed <= total && 0.0 <= discharge <= total
    ensures handed * CreditShare(discharge, total) <= discharge
  {
    if total > 0.0 {
      var share := discharge / total;
      assert share >= 0.0 && share * total == discharge;
    }
  }

  lemma {:induction false} HandedNonNegative(own: seq<real>, alloc: seq<seq<real>>)
    requires SameLength(alloc, |own|) && Allocation.NonNegative(own)
    requires forall i :: 0 <= i < |alloc| ==> Allocation.NonNegative(alloc[i])
    ensures Allocation.NonNegative(Handed(own, alloc))
  {
    if alloc != [] {
      HandedNonNegative(own, alloc[..|alloc| - 1]);
    }
  }

  // The battery cannot be credited more than it discharged.
  lemma CreditWithinDischarge(m: Meter)
    requires Metered(m)
    ensures BatteryCredit(m) <= Sum(m.discharge)
  {
    HandedNonNegative(m.own, m.alloc);
    var handed, shares := Handed(m.own, m.alloc), CreditShares(m);
    var credits := Times(handed, shares);
    forall t | 0 <= t < |credits|
      ensures credits[t] <= m.discharge[t]
    {
      PartOfTotal(handed[t], m.discharge[t], m.total[t]);
    }
    SumMonotone(credits, m.discharge);
  }

  lemma RawWithinLines(m: Meter)
    requires Metered(m)
    ensures forall i :: 0 <= i < |m.alloc| ==> 0.0 <= Raw(m)[i] <= Lines(m.alloc)[i] as real
  {
    forall i | 0 <= i < |m.alloc|
      ensures 0.0 <= Raw(m)[i] <= Lines(m.alloc)[i] as real
    {
      PartWithin(m.alloc[i], Fractions(m));
    }
  }

  lemma UnitFits(share: int, x: real, line: int)
    requires 0.0 <= x <= line as real
    requires share == x.Floor || (share == x.Floor + 1 && x - x.Floor as real > 0.0)
    ensures 0 <= share <= line && -1.0 < share as real - x < 1.0
  {
  }

  lemma TargetWithinDischarge(m: Meter)
    requires Metered(m)
    ensures RoundHalfEven(Sum(Raw(m))) <= RoundHalfEven(BatteryCredit(m)) <= RoundHalfEven(Sum(m.discharge))
  {
    CreditIsLostToCaps(m);
    CreditWithinDischarge(m);
    RoundMonotone(Sum(Raw(m)), BatteryCredit(m));
    RoundMonotone(BatteryCredit(m), Sum(m.discharge));
  }

  method SplitLines(raw: seq<real>, ids: seq<int>, lines: seq<int>, battery: seq<int>) returns (direct: seq<int>)
    requires |raw| == |ids| == |lines| && LargestShares(raw, ids, battery)
    requires forall i :: 0 <= i < |raw| ==> 0.0 <= raw[i] <= lines[i] as real
    ensures |direct| == |lines|
    ensures forall i :: 0 <= i < |raw| ==> Sourced(battery[i], direct[i], raw[i], lines[i])
  {
    direct := [];
    for i := 0 to |lines|
      invariant |direct| == i
      invariant forall k :: 0 <= k < i ==> Sourced(battery[k], direct[k], raw[k], lines[k])
    {
      UnitFits(battery[i], raw[i], lines[i]);
      direct := direct + [lines[i] - battery[i]];
    }
  }

  // Attributes exactly the periods whose battery measurements are explainable.
  method AttributeSources(m: Meter, capacity: real) returns (r: Option<Attribution>)
    requires Measured(m)
    ensures r.Some? <==> capacity > 0.0 && !Simultaneous(m.charge, m.discharge)
                         && Storable(m.charge, m.discharge, capacity + SPAN_SLACK)
    ensures r.Some? ==> Attributes(m, r.value)
  {
    var ok := CheckBattery(m.charge, m.discharge, capacity);
    if !ok {
      return None;
    }
    var raw, lines := Raw(m), Lines(m.alloc);
    var battery, target := LargestRemainders(raw, m.ids);
    RawWithinLines(m);
    var direct := SplitLines(raw, m.ids, lines, battery);
    TargetWithinDischarge(m);
    r := Some(Attribution(battery, direct, RoundHalfEven(Sum(m.charge)), RoundHalfEven(Sum(m.discharge)), target));
  }

  // ---------------------------------------------------------------------
  // The attribution in figures.

  // A member's energy, interval by interval in proportion to what the battery
  // gave of all production.
  function FromBattery(energy: seq<real>, discharge: seq<real>, total: seq<real>): real
    requires |energy| == |discharge| == |total|
  {
    if energy == [] then 0.0 else
      var t := |energy| - 1;
      FromBattery(energy[..t], discharge[..t], total[..t])
      + energy[t] * (if total[t] == 0.0 then 0.0 else discharge[t] / total[t])
  }

  lemma TimesLast(xs: seq<real>, fs: seq<real>)
    requires |xs| == |fs| > 0
    ensures var t := |xs| - 1;
      Times(xs, fs)[..t] == Times(xs[..t], fs[..t]) && Times(xs, fs)[t] == xs[t] * fs[t]
  {
    var t := |xs| - 1;
    forall k | 0 <= k < t
      ensures Times(xs, fs)[k] == Times(xs[..t], fs[..t])[k]
    {
      assert xs[..t][k] == xs[k] && fs[..t][k] == fs[k];
    }
  }

  lemma {:induction false} PartIsFromBattery(energy: seq<real>, discharge: seq<real>, total: seq<real>, fs: seq<real>)
    requires |energy| == |discharge| == |total| == |fs|
    requires forall t :: 0 <= t < |fs| ==> fs[t] == CreditShare(discharge[t], total[t])
    ensures Part(energy, fs) == FromBattery(energy, discharge, total)
  {
    if energy != [] {
      var t := |energy| - 1;
      PartIsFromBattery(energy[..t], discharge[..t], total[..t], fs[..t]);
      TimesLast(energy, fs);
    }
  }

  // What the battery earns is its part of everybody's energy.
  lemma CreditIsFromBattery(m: Meter)
    requires Metered(m)
    ensures BatteryCredit(m) == FromBattery(Handed(m.own, m.alloc), m.discharge, m.total)
  {
    PartIsFromBattery(Handed(m.own, m.alloc), m.discharge, m.total, CreditShares(m));
  }

  // Each member's line, split into whole millionths: from the battery its part of
  // the battery's energy, no more than the line and within one millionth, the
  // rest directly; together the rounded sum of the parts.
  lemma AttributedIs(m: Meter, a: Attribution, i: nat)
    requires Metered(m) && Attributes(m, a) && i < |m.alloc|
    ensures var line := RoundHalfEven(Sum(m.alloc[i]));
            var part := Min(FromBattery(m.alloc[i], m.discharge, m.total), line as real);
      && |a.battery| == |a.direct| == |m.alloc|
      && Raw(m)[i] == part && a.battery[i] + a.direct[i] == line
      && a.battery[i] >= 0 && a.direct[i] >= 0 && -1.0 < a.battery[i] as real - part < 1.0
    ensures SumInt(a.battery) == a.target == RoundHalfEven(Sum(Raw(m)))
    ensures a.charged == RoundHalfEven(Sum(m.charge)) && a.discharged == RoundHalfEven(Sum(m.discharge))
  {
    SameShares(m);
    PartIsFromBattery(m.alloc[i], m.discharge, m.total, Fractions(m));
  }
}
