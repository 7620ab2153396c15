/** Approval of the frozen battery attribution against the approved lines. */
module BatteryApproval {
  import opened Numbers
  import opened LineItems
  import opened Approval
  import opened Invoices
  import opened BatterySource
  import opened BatteryAttribution

  datatype Source = Source(consumer: int, direct: real, battery: real, value: real)

  datatype Snapshot = Snapshot(charged: real, discharged: real, difference: real,
                               allocatedBattery: real, unallocated: real, sources: seq<Source>)

  predicate Amount(x: real) {
    x >= 0.0 && Whole(x)
  }

  function Consumers(sources: seq<Source>): set<int> {
    set i | 0 <= i < |sources| :: sources[i].consumer
  }

  function BatteryColumn(sources: seq<Source>): (r: seq<real>)
    ensures |r| == |sources|
  {
    seq(|sources|, i requires 0 <= i < |sources| => sources[i].battery)
  }

  function ApprovedValue(energy: real, price: real): real {
    ToCents(energy * price)
  }

  // One consumer: its value is its battery energy priced and rounded once, and
  // its two sources are its approved line.
  predicate SourceAgrees(s: Source, consumption: map<int, real>, price: real) {
    && Amount(s.direct) && Amount(s.battery) && Amount(s.value)
    && s.value == ApprovedValue(s.battery, price)
    && s.consumer in consumption && s.direct + s.battery == consumption[s.consumer]
  }

  ghost predicate SourcesAgree(sources: seq<Source>, consumption: map<int, real>, price: real) {
    forall i :: 0 <= i < |sources| ==> SourceAgrees(sources[i], consumption, price)
  }

  predicate Balanced(s: Snapshot) {
    && Amount(s.charged) && Amount(s.discharged) && Whole(s.difference)
    && Amount(s.allocatedBattery) && Amount(s.unallocated)
    && s.difference == s.charged - s.discharged
    && s.unallocated == s.discharged - s.allocatedBattery
  }

  ghost predicate EnergyReconciled(s: Snapshot, battery: int, consumption: map<int, real>,
                                   production: map<int, real>, price: real)
  {
    && Balanced(s)
    && Consumers(s.sources) == consumption.Keys - {battery}
    && SourcesAgree(s.sources, consumption, price)
    && Sum(BatteryColumn(s.sources)) == s.allocatedBattery
    && battery in production && production[battery] == s.allocatedBattery
    && battery in consumption && consumption[battery] <= s.charged
  }

  method RequireEnergySnapshot(s: Snapshot, battery: int, consumption: map<int, real>,
                               production: map<int, real>, price: real) returns (ok: bool)
    ensures ok <==> EnergyReconciled(s, battery, consumption, production, price)
  {
    if !Balanced(s) || Consumers(s.sources) != consumption.Keys - {battery} {
      return false;
    }
    var attributed := 0.0;
    for i := 0 to |s.sources|
      invariant forall k :: 0 <= k < i ==> SourceAgrees(s.sources[k], consumption, price)
      invariant attributed == Sum(BatteryColumn(s.sources)[..i])
    {
      if !SourceAgrees(s.sources[i], consumption, price) {
        return false;
      }
      SumPrefix(BatteryColumn(s.sources), i + 1);
      attributed := attributed + s.sources[i].battery;
    }
    assert BatteryColumn(s.sources)[..|s.sources|] == BatteryColumn(s.sources);
    ok := attributed == s.allocatedBattery && battery in production && production[battery] == s.allocatedBattery
      && battery in consumption && consumption[battery] <= s.charged;
  }

  // ---------------------------------------------------------------------
  // The engine values battery energy with two roundings, approval with one.

  function EngineValue(energy: real, price: real): real {
    ToCents(PricedAmount(energy, price))
  }

  // Less than half a millionth below the half cent: rounding to millionths
  // first lifts the amount onto the tie, and the tie is rounded up.
  predicate JustBelowHalfCent(x: real) {
    var within := x - CENT * (x / CENT).Floor as real;
    HALF_CENT - 0.5 <= within < HALF_CENT
  }

  predicate ValueSurvives(energy: real, price: real) {
    !JustBelowHalfCent(energy * price)
  }

  lemma RoundAt(y: real, n: int, e: real)
    requires n >= 0 && 0.0 <= e < 1.0 && y == n as real + e
    ensures y.Floor == n && RoundHalfUp(y) == if e < 0.5 then n else n + 1
  {
  }

  lemma RoundShifted(x: real, n: int, w: real)
    requires n >= 0 && w >= 0.0 && x == n as real + w
    ensures RoundHalfUp(x) == n + RoundHalfUp(w)
  {
    assert x + 0.5 == n as real + (w + 0.5);
  }

  lemma CentsOf(x: real, cents: int, within: real)
    requires x == CENT * cents as real + within
    ensures x / CENT == cents as real + within / CENT
    ensures 0.0 <= within < CENT <==> 0.0 <= within / CENT < 1.0
    ensures within < HALF_CENT <==> within / CENT < 0.5
  {
    assert CENT == 10000.0;
  }

  lemma ToCentsOf(x: real, cents: int, within: real)
    requires cents >= 0 && 0.0 <= within < CENT && x == CENT * cents as real + within
    ensures (x / CENT).Floor == cents
    ensures RoundHalfUp(x / CENT) == if within < HALF_CENT then cents else cents + 1
  {
    CentsOf(x, cents, within);
    RoundAt(x / CENT, cents, within / CENT);
  }

  // The whole cents below an amount, and what is left of it.
  lemma SplitCents(x: real) returns (cents: int, within: real)
    requires x >= 0.0
    ensures cents >= 0 && cents == (x / CENT).Floor && 0.0 <= within < CENT && x == CENT * cents as real + within
  {
    assert CENT == 10000.0;
    cents := (x / CENT).Floor;
    within := x - CENT * cents as real;
  }

  lemma RoundWithin(x: real, cents: int, within: real)
    requires cents >= 0 && within >= 0.0 && x == CENT * cents as real + within
    ensures RoundHalfUp(x) as real == CENT * cents as real + RoundHalfUp(within) as real
  {
    assert CENT * cents as real == (10000 * cents) as real;
    RoundShifted(x, 10000 * cents, within);
  }

  lemma SameCents(m: int, n: int)
    ensures m as real * CENT == n as real * CENT <==> m == n
  {
    assert CENT == 10000.0;
  }

  lemma TwoRoundings(x: real)
    requires x >= 0.0
    ensures ToCents(RoundHalfUp(x) as real) == ToCents(x) <==> !JustBelowHalfCent(x)
  {
    var cents, within := SplitCents(x);
    ToCentsOf(x, cents, within);
    RoundWithin(x, cents, within);
    var r, rounded := RoundHalfUp(x) as real, RoundHalfUp(within) as real;
    WithinRounds(within);
    if rounded < CENT {
      ToCentsOf(r, cents, rounded);
    } else {
      NextCent(r, cents);
      ToCentsOf(r, cents + 1, 0.0);
    }
    SameCents(RoundHalfUp(r / CENT), RoundHalfUp(x / CENT));
  }

  lemma NextCent(r: real, cents: int)
    requires r == CENT * cents as real + CENT
    ensures r == CENT * (cents + 1) as real + 0.0
  {
    assert CENT == 10000.0;
  }

  lemma WithinRounds(within: real)
    requires 0.0 <= within < CENT
    ensures var rounded := RoundHalfUp(within) as real;
      && 0.0 <= rounded <= CENT
      && (rounded < HALF_CENT <==> within < HALF_CENT - 0.5)
  {
  }

  // The engine's value of battery energy is the approved one except just below
  // a half cent, where the draft is refused.
  lemma ValuesAgree(energy: real, price: real)
    requires energy >= 0.0 && price >= 0.0
    ensures EngineValue(energy, price) == ApprovedValue(energy, price) <==> ValueSurvives(energy, price)
  {
    assert energy * price >= 0.0;
    TwoRoundings(energy * price);
  }

  // 0.005 kWh at 0.999999 CHF are worth 0.004999995 CHF: a cent to the
  // engine, nothing to approval.
  lemma HalfCentRefusal()
    ensures EngineValue(5000.0, 0.999999) == CENT && ApprovedValue(5000.0, 0.999999) == 0.0
  {
    assert 5000.0 * 0.999999 == 4999.995;
    ToCentsOf(4999.995, 0, 4999.995);
    RoundAt(4999.995, 4999, 0.995);
    ToCentsOf(5000.0, 0, 5000.0);
  }

  // ---------------------------------------------------------------------
  // What the run freezes, and exactly when approval accepts it.

  function FrozenSources(a: Attribution, ids: seq<int>, price: real): (r: seq<Source>)
    requires |a.battery| == |a.direct| == |ids|
    ensures |r| == |ids|
  {
    seq(|ids|, i requires 0 <= i < |ids| =>
      Source(ids[i], a.direct[i] as real, a.battery[i] as real, EngineValue(a.battery[i] as real, price)))
  }

  function Frozen(a: Attribution, ids: seq<int>, price: real): Snapshot
    requires |a.battery| == |a.direct| == |ids|
  {
    Snapshot(a.charged as real, a.discharged as real, (a.charged - a.discharged) as real,
             a.target as real, (a.discharged - a.target) as real, FrozenSources(a, ids, price))
  }

  // The approved lines bill the allocation the attribution was made from.
  ghost predicate BilledAs(m: Meter, battery: int, consumption: map<int, real>, production: map<int, real>)
    requires Metered(m)
  {
    && consumption.Keys == (set i | 0 <= i < |m.ids| :: m.ids[i]) + {battery}
    && battery !in m.ids
    && (forall i :: 0 <= i < |m.ids| ==> consumption[m.ids[i]] == Lines(m.alloc)[i] as real)
    && consumption[battery] == RoundHalfEven(Sum(m.own)) as real
    && battery in production && production[battery] == RoundHalfEven(BatteryCredit(m)) as real
  }

  ghost predicate ValuesSurvive(battery: seq<int>, price: real) {
    forall i :: 0 <= i < |battery| ==> ValueSurvives(battery[i] as real, price)
  }

  lemma {:induction false} SumOfInts(xs: seq<int>, ys: seq<real>)
    requires |xs| == |ys| && forall i :: 0 <= i < |xs| ==> ys[i] == xs[i] as real
    ensures Sum(ys) == SumInt(xs) as real
  {
    if xs != [] {
      SumOfInts(xs[..|xs| - 1], ys[..|ys| - 1]);
    }
  }

  lemma WholeCents(x: real)
    requires x >= 0.0
    ensures Amount(ToCents(x))
  {
    assert CENT == 10000.0;
    var n := RoundHalfUp(x / CENT);
    assert n >= 0 && ToCents(x) == (10000 * n) as real;
  }

  lemma AmountsPriced(energy: real, price: real)
    requires energy >= 0.0 && price >= 0.0
    ensures Amount(EngineValue(energy, price))
  {
    assert energy * price >= 0.0;
    WholeCents(PricedAmount(energy, price));
  }

  lemma WholeAmounts(direct: int, battery: int)
    requires direct >= 0 && battery >= 0
    ensures Amount(direct as real) && Amount(battery as real)
    ensures direct as real + battery as real == (direct + battery) as real
  {
  }

  lemma SourceAccepted(s: Source, direct: int, battery: int, consumption: map<int, real>, price: real, survives: bool)
    requires s.direct == direct as real && s.battery == battery as real && direct >= 0 && battery >= 0
    requires s.consumer in consumption && (direct + battery) as real == consumption[s.consumer]
    requires Amount(s.value) && (s.value == ApprovedValue(s.battery, price) <==> survives)
    ensures SourceAgrees(s, consumption, price) <==> survives
  {
    WholeAmounts(direct, battery);
  }

  // Each frozen source agrees iff its value survives.
  lemma FrozenSourceAgrees(m: Meter, a: Attribution, battery: int, consumption: map<int, real>,
                           production: map<int, real>, price: real, i: nat)
    requires Metered(m) && Attributes(m, a) && price >= 0.0 && BilledAs(m, battery, consumption, production)
    requires i < |m.ids|
    ensures SourceAgrees(FrozenSources(a, m.ids, price)[i], consumption, price) <==> ValueSurvives(a.battery[i] as real, price)
  {
    assert m.ids[i] in consumption.Keys && Sourced(a.battery[i], a.direct[i], Raw(m)[i], Lines(m.alloc)[i]);
    var s := FrozenSources(a, m.ids, price)[i];
    ValuesAgree(a.battery[i] as real, price);
    AmountsPriced(a.battery[i] as real, price);
    SourceAccepted(s, a.direct[i], a.battery[i], consumption, price, ValueSurvives(a.battery[i] as real, price));
  }

  lemma FrozenSourcesAgree(m: Meter, a: Attribution, battery: int, consumption: map<int, real>,
                           production: map<int, real>, price: real)
    requires Metered(m) && Attributes(m, a) && price >= 0.0 && BilledAs(m, battery, consumption, production)
    ensures SourcesAgree(FrozenSources(a, m.ids, price), consumption, price) <==> ValuesSurvive(a.battery, price)
  {
    forall i | 0 <= i < |m.ids|
      ensures SourceAgrees(FrozenSources(a, m.ids, price)[i], consumption, price) <==> ValueSurvives(a.battery[i] as real, price)
    {
      FrozenSourceAgrees(m, a, battery, consumption, production, price, i);
    }
  }

  lemma FrozenBalances(m: Meter, a: Attribution, price: real)
    requires Metered(m) && Attributes(m, a)
    ensures Balanced(Frozen(a, m.ids, price))
    ensures Sum(BatteryColumn(FrozenSources(a, m.ids, price))) == a.target as real
    ensures RoundHalfEven(Sum(m.own)) <= a.charged
  {
    SumOfInts(a.battery, BatteryColumn(FrozenSources(a, m.ids, price)));
    SumNonNegative(m.charge);
    SumNonNegative(m.discharge);
    SumMonotone(m.own, m.charge);
    RoundMonotone(Sum(m.own), Sum(m.charge));
    TargetIsNatural(a.battery);
  }

  lemma {:induction false} TargetIsNatural(battery: seq<int>)
    requires forall i :: 0 <= i < |battery| ==> battery[i] >= 0
    ensures SumInt(battery) >= 0
  {
    if battery != [] {
      TargetIsNatural(battery[..|battery| - 1]);
    }
  }

  lemma FrozenConsumers(a: Attribution, ids: seq<int>, price: real, battery: int, keys: set<int>)
    requires |a.battery| == |a.direct| == |ids| && battery !in ids
    requires keys == (set i | 0 <= i < |ids| :: ids[i]) + {battery}
    ensures Consumers(FrozenSources(a, ids, price)) == keys - {battery}
  {
    var sources := FrozenSources(a, ids, price);
    forall id
      ensures id in Consumers(sources) <==> id in ids
    {
      if id in ids {
        var i :| 0 <= i < |ids| && ids[i] == id;
        assert sources[i].consumer == id;
      }
    }
  }

  // Approval accepts the frozen attribution iff the credit survives the caps
  // and no value sits just below a half cent.
  lemma SnapshotAccepted(m: Meter, a: Attribution, battery: int, consumption: map<int, real>,
                         production: map<int, real>, price: real)
    requires Metered(m) && Attributes(m, a) && price >= 0.0 && BilledAs(m, battery, consumption, production)
    ensures EnergyReconciled(Frozen(a, m.ids, price), battery, consumption, production, price)
            <==> LineSurvives(BatteryCredit(m), LostToCaps(m)) && ValuesSurvive(a.battery, price)
  {
    TargetReachesLine(m);
    FrozenBalances(m, a, price);
    FrozenSourcesAgree(m, a, battery, consumption, production, price);
    FrozenConsumers(a, m.ids, price, battery, consumption.Keys);
  }

  // With interval allocations in whole millionths only the half cent remains.
  lemma WholeIntervalsAccepted(m: Meter, a: Attribution, battery: int, consumption: map<int, real>,
                               production: map<int, real>, price: real)
    requires Metered(m) && Attributes(m, a) && price >= 0.0 && BilledAs(m, battery, consumption, production)
    requires forall i :: 0 <= i < |m.alloc| ==> WholeUnits(m.alloc[i])
    ensures EnergyReconciled(Frozen(a, m.ids, price), battery, consumption, production, price)
            <==> ValuesSurvive(a.battery, price)
  {
    SnapshotAccepted(m, a, battery, consumption, production, price);
    WholeIntervalsKeepCaps(m);
    TargetIsCreditLine(m);
    TargetReachesLine(m);
  }

  // ---------------------------------------------------------------------
  // What an accepted snapshot says, in figures.

  // Each consumer's two sources make up its line and its battery energy is worth
  // the price in whole cents; they sum to the credited line; what was charged
  // covers the battery's own line, what was discharged the rest.
  lemma ReconciledMeans(s: Snapshot, battery: int, consumption: map<int, real>, production: map<int, real>, price: real)
    requires EnergyReconciled(s, battery, consumption, production, price)
    ensures forall i :: 0 <= i < |s.sources| ==>
      var x := s.sources[i];
      && x.consumer in consumption && x.consumer != battery && x.direct >= 0.0 && x.battery >= 0.0
      && x.direct + x.battery == consumption[x.consumer] && InCents(x.value, x.battery * price)
    ensures forall id :: id in consumption && id != battery ==> exists i :: 0 <= i < |s.sources| && s.sources[i].consumer == id
    ensures battery in production && Sum(BatteryColumn(s.sources)) == production[battery]
    ensures battery in consumption && consumption[battery] <= s.charged
    ensures s.difference == s.charged - s.discharged
    ensures s.unallocated == s.discharged - production[battery] && s.unallocated >= 0.0
  {
    forall i | 0 <= i < |s.sources|
      ensures var x := s.sources[i];
        && x.consumer in consumption && x.consumer != battery && x.direct >= 0.0 && x.battery >= 0.0
        && x.direct + x.battery == consumption[x.consumer] && InCents(x.value, x.battery * price)
    {
      assert SourceAgrees(s.sources[i], consumption, price);
      assert s.sources[i].consumer in Consumers(s.sources);
      Invoices.CentsOf(s.sources[i].battery * price);
    }
    forall id | id in consumption && id != battery
      ensures exists i :: 0 <= i < |s.sources| && s.sources[i].consumer == id
    {
      assert id in Consumers(s.sources);
    }
  }
}
