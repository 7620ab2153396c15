/** A balanced period of a run with a battery that approval refuses: the caps
    lose one millionth that rounding up elsewhere hides from every balance. */
module BalancedRefusal {
  import opened Numbers
  import opened LineItems
  import opened Approval
  import opened Allocation
  import opened CostShares
  import opened BatterySource
  import opened BatteryAttribution
  import opened BatteryApproval
  import opened DraftApproval
  import opened EngineColumns
  import opened BatteryDraft
  import opened BilledSource
  import LedgerApproval

  const WATT_HOUR := 0.001

  // The battery's own column, three members, seven members.
  function Row(x: real, y: real): (r: seq<real>)
    ensures |r| == 11
    ensures forall i :: 0 <= i < 11 ==> r[i] == if i == 0 then 0.0 else if i < 4 then x else y
  {
    [0.0, x, x, x, y, y, y, y, y, y, y]
  }

  lemma {:induction false} RowPrefix(x: real, y: real, k: nat)
    requires k <= 11
    ensures Sum(Row(x, y)[..k]) ==
            if k == 0 then 0.0 else if k <= 4 then (k - 1) as real * x else 3.0 * x + (k - 4) as real * y
  {
    if k > 0 {
      RowPrefix(x, y, k - 1);
      SumPrefix(Row(x, y), k);
    }
  }

  lemma RowSum(x: real, y: real)
    ensures Sum(Row(x, y)) == 3.0 * x + 7.0 * y
  {
    RowPrefix(x, y, 11);
    assert Row(x, y)[..11] == Row(x, y);
  }

  // A quantity spread over two intervals, of which only the first has battery energy.
  lemma PairPart(x: real, y: real)
    ensures Part([x, y], [1.0, 0.0]) == x
  {
    assert Times([x, y], [1.0, 0.0]) == [x, 0.0];
    PairSum(x, 0.0);
  }

  lemma PairSum(x: real, y: real)
    ensures Sum([x, y]) == x + y
  {
    assert [x, y][..1] == [x] && Sum([x]) == x;
  }

  // First the battery gives 1 Wh to three members, then a solar plant gives
  // 1 Wh to the other seven.
  function RefusedRun(): Run {
    Run([[WATT_HOUR, 0.0], [0.0, WATT_HOUR]], [Row(WATT_HOUR, 0.0), Row(0.0, WATT_HOUR)], Proportional,
        [0, 11], seq(11, i => i), 0, 0)
  }

  function Consumers(): seq<Billed> {
    BilledColumns(seq(11, i => i), Row(333.0, 143.0))
  }

  function Producers(): seq<Billed> {
    BilledColumns([0, 11], [1000.0, 1000.0])
  }

  lemma RunIsValid()
    ensures ValidRun(RefusedRun())
  {
    var run := RefusedRun();
    forall t | 0 <= t < 2
      ensures NonNegative(run.production[t]) && NonNegative(run.consumption[t])
      ensures |run.production[t]| == 2 && |run.consumption[t]| == 11
    {
    }
  }

  lemma Shared(x: real, y: real, ratio: real)
    ensures Scale(Row(x, y), ratio) == Row(ratio * x, ratio * y)
  {
    forall i | 0 <= i < 11
      ensures Scale(Row(x, y), ratio)[i] == Row(ratio * x, ratio * y)[i]
    {
      assert Scale(Row(x, y), ratio)[i] == ratio * Row(x, y)[i];
    }
  }

  lemma IntervalSplit(prods: seq<real>, cons: seq<real>, x: real, y: real, ratio: real)
    requires cons == Row(x, y) && NonNegative(cons) && Sum(prods) == WATT_HOUR && Sum(cons) >= WATT_HOUR
    requires ratio == WATT_HOUR / Sum(cons)
    ensures AllocateInterval(Sum(prods), cons, Proportional) == Row(ratio * x, ratio * y)
  {
    ProportionalRatio(WATT_HOUR, cons, ratio);
    Shared(x, y, ratio);
  }

  lemma RunAllocation()
    requires ValidRun(RefusedRun())
    ensures EngineAllocation(RefusedRun().production, RefusedRun().consumption, Proportional)
            == [Row(WATT_HOUR / 3.0, 0.0), Row(0.0, WATT_HOUR / 7.0)]
  {
    var run := RefusedRun();
    PairSum(WATT_HOUR, 0.0);
    PairSum(0.0, WATT_HOUR);
    RowSum(WATT_HOUR, 0.0);
    RowSum(0.0, WATT_HOUR);
    IntervalSplit(run.production[0], run.consumption[0], WATT_HOUR, 0.0, 1.0 / 3.0);
    IntervalSplit(run.production[1], run.consumption[1], 0.0, WATT_HOUR, 1.0 / 7.0);
  }

  lemma RunCredits()
    requires ValidRun(RefusedRun())
    ensures var allocation := EngineAllocation(RefusedRun().production, RefusedRun().consumption, Proportional);
            EngineCredits(RefusedRun().production, allocation) == RefusedRun().production
  {
    var run := RefusedRun();
    RunAllocation();
    RowSum(WATT_HOUR / 3.0, 0.0);
    RowSum(0.0, WATT_HOUR / 7.0);
    PairSum(WATT_HOUR, 0.0);
    PairSum(0.0, WATT_HOUR);
    assert Credits(run.production[0], WATT_HOUR) == run.production[0];
    assert Credits(run.production[1], WATT_HOUR) == run.production[1];
  }

  // Members' energy in millionths of a kWh, interval by interval.
  lemma MemberColumn(i: nat)
    requires ValidRun(RefusedRun()) && i < 11
    ensures var allocation := EngineAllocation(RefusedRun().production, RefusedRun().consumption, Proportional);
      && Column(allocation, 11, i) == (if i == 0 then [0.0, 0.0] else if i < 4 then [1000.0 / 3.0, 0.0] else [0.0, 1000.0 / 7.0])
      && RoundHalfEven(Sum(Column(allocation, 11, i))) == (if i == 0 then 0 else if i < 4 then 333 else 143)
  {
    RunAllocation();
    PairSum(0.0, 0.0);
    PairSum(1000.0 / 3.0, 0.0);
    PairSum(0.0, 1000.0 / 7.0);
    RoundWhole(0);
  }

  lemma ConsumersMatch()
    requires ValidRun(RefusedRun())
    ensures var run := RefusedRun();
            MatchesEngine(Consumers(), EngineConsumers(run.production, run.consumption, Proportional, run.consumerIds))
  {
    var run := RefusedRun();
    var engine := EngineConsumers(run.production, run.consumption, Proportional, run.consumerIds);
    forall i | 0 <= i < 11
      ensures Consumers()[i].participant == engine[i].participant
      ensures SameRounded(Consumers()[i].quantity, engine[i].quantity)
    {
      MemberColumn(i);
      RoundWhole(if i == 0 then 0 else if i < 4 then 333 else 143);
    }
  }

  lemma ColumnsAreBilling()
    ensures Billing(Consumers(), Producers())
  {
    RowSum(333.0, 143.0);
    PairSum(1000.0, 1000.0);
    RawIsSum(seq(11, i => i), Row(333.0, 143.0));
    RawIsSum([0, 11], [1000.0, 1000.0]);
  }

  // The period passes every balance: the billed columns add up, and round as
  // the engine's own.
  lemma RefusedRunIsBalanced()
    ensures ValidRun(RefusedRun())
    ensures Billing(Consumers(), Producers()) && BillsRun(RefusedRun(), Consumers(), Producers())
  {
    RunIsValid();
    ColumnsAreBilling();
    ConsumersMatch();
    ProducersMatch();
  }

  lemma ProducersMatch()
    requires ValidRun(RefusedRun())
    ensures var run := RefusedRun();
            var credits := EngineCredits(run.production, EngineAllocation(run.production, run.consumption, Proportional));
      && ColumnTotals(credits, 2) == [1000.0, 1000.0]
      && EngineProducers(run.production, run.consumption, Proportional, run.producerIds) == Producers()
  {
    var run := RefusedRun();
    RunCredits();
    assert Column(run.production, 2, 0) == [1000.0, 0.0] && Column(run.production, 2, 1) == [0.0, 1000.0];
    PairSum(1000.0, 0.0);
    PairSum(0.0, 1000.0);
  }

  lemma MeterFlows()
    requires ValidRun(RefusedRun())
    ensures var m := MeterOf(RefusedRun());
      && Metered(m) && |m.alloc| == 10 && Fractions(m) == [1.0, 0.0]
  {
    var run := RefusedRun();
    var m := MeterOf(run);
    PairSum(WATT_HOUR, 0.0);
    PairSum(0.0, WATT_HOUR);
    assert m.charge == [0.0, 0.0] && m.discharge == [1000.0, 0.0] && m.total == [1000.0, 1000.0];
    assert !Simultaneous(m.charge, m.discharge);
    RunIsMetered(run);
  }

  lemma LostByMember(k: nat)
    requires ValidRun(RefusedRun()) && k < 10
    ensures var m := MeterOf(RefusedRun());
      && Metered(m) && |m.alloc| == 10
      && Parts(m.alloc, Fractions(m))[k] == (if k < 3 then 1000.0 / 3.0 else 0.0)
      && Lines(m.alloc)[k] == (if k < 3 then 333 else 143)
  {
    var m := MeterOf(RefusedRun());
    MeterFlows();
    MemberColumn(k + 1);
    if k < 3 {
      assert m.alloc[k] == [1000.0 / 3.0, 0.0];
      PairPart(1000.0 / 3.0, 0.0);
    } else {
      assert m.alloc[k] == [0.0, 1000.0 / 7.0];
      PairPart(0.0, 1000.0 / 7.0);
    }
  }

  lemma LossSum(lost: seq<real>)
    requires |lost| == 10 && forall k :: 0 <= k < 10 ==> lost[k] == if k < 3 then 1.0 / 3.0 else 0.0
    ensures Sum(lost) == 1.0
  {
    RowSum(1.0 / 3.0, 0.0);
    assert Row(1.0 / 3.0, 0.0) == [] + [0.0] + lost && [] + lost == lost;
    SumInsert([], 0.0, lost);
  }

  lemma LostInRun()
    requires ValidRun(RefusedRun())
    ensures Metered(MeterOf(RefusedRun())) && LostToCaps(MeterOf(RefusedRun())) == 1.0
  {
    var m := MeterOf(RefusedRun());
    MeterFlows();
    var lost := Lost(Parts(m.alloc, Fractions(m)), Lines(m.alloc));
    forall k | 0 <= k < 10
      ensures lost[k] == if k < 3 then 1.0 / 3.0 else 0.0
    {
      LostByMember(k);
    }
    LossSum(lost);
  }

  // One third of a millionth is lost for each of three members.
  lemma OneMillionthIsLost()
    requires ValidRun(RefusedRun())
    ensures var m := MeterOf(RefusedRun());
      && Metered(m) && BatteryCredit(m) == 1000.0 && LostToCaps(m) == 1.0
      && !LineSurvives(BatteryCredit(m), LostToCaps(m))
  {
    var run := RefusedRun();
    LostInRun();
    ProducersMatch();
    EngineCreditsBattery(run.production, run.consumption, Proportional, 2, run.consumerIds, 0, 0);
    RoundWhole(1000);
  }

  // Whatever the prices, the policy and the battery's configuration: the run
  // freezes a draft that approval refuses.
  lemma BalancedRunIsRefused(d: Draft, participants: seq<int>, c: Config, a: Attribution, e: Option<Evidence>)
    requires PricesColumns(d, Consumers(), Producers(), participants, c)
    requires FreezesAttribution(d, RefusedRun(), Consumers(), Producers(), c, a)
    ensures !BatteryApproved(d, d.battery.value) && !Approved(d, e)
  {
    OneMillionthIsLost();
    RunIsApprovable(d, Consumers(), Producers(), participants, c);
    RunBatteryIsApproved(d, RefusedRun(), Consumers(), Producers(), c, a);
  }
}
