/** Drafts with a shared battery: from the engine's allocation of the readings
    to the verdict of approval, and a balanced period that is refused. */
module BatteryDraft {
  import opened Numbers
  import opened LineItems
  import opened Approval
  import opened Invoices
  import opened Allocation
  import opened Proration
  import opened CostShares
  import opened VnbReconciliation
  import opened BatterySource
  import opened BatteryAttribution
  import opened BatteryApproval
  import opened BilledSource
  import opened DraftApproval
  import opened EngineColumns
  import opened CertifiedDraft
  import opened SourceCertificate
  import SourceGroups
  import LedgerApproval

  // ---------------------------------------------------------------------
  // The billed columns agree with the allocation behind the attribution.

  ghost predicate BillsMeter(m: Meter, battery: int, consumers: seq<Billed>, producers: seq<Billed>)
    requires Metered(m)
  {
    && battery !in m.ids
    && LineIds(consumers) == (set i | 0 <= i < |m.ids| :: m.ids[i]) + {battery}
    && (forall i :: 0 <= i < |m.ids| ==> HasLine(consumers, m.ids[i], Lines(m.alloc)[i] as real))
    && HasLine(consumers, battery, RoundHalfEven(Sum(m.own)) as real)
    && HasLine(producers, battery, RoundHalfEven(BatteryCredit(m)) as real)
  }

  lemma DraftBillsMeter(m: Meter, battery: int, consumers: seq<Billed>, producers: seq<Billed>, items: seq<Item>)
    requires Metered(m) && BillsMeter(m, battery, consumers, producers)
    requires LedgerApproval.Distinct(consumers) && LedgerApproval.Distinct(producers)
    requires KindLines(items, ConsumerCharge) == consumers && KindLines(items, ProducerCredit) == producers
    ensures BilledAs(m, battery, QuantityMap(items, ConsumerCharge), QuantityMap(items, ProducerCredit))
  {
    QuantitiesAreLines(items, ConsumerCharge);
    QuantitiesAreLines(items, ProducerCredit);
  }

  // ---------------------------------------------------------------------
  // The engine's run over the readings.

  // The readings of a period; the battery produces in column b and consumes in
  // column c.
  datatype Run = Run(production: seq<seq<real>>, consumption: seq<seq<real>>, model: Model,
                     producerIds: seq<int>, consumerIds: seq<int>, b: nat, c: nat)

  ghost predicate ValidRun(run: Run) {
    && Metering(run.production, run.consumption, |run.producerIds|, |run.consumerIds|)
    && Distinct(run.producerIds) && Distinct(run.consumerIds)
    && run.b < |run.producerIds| && run.c < |run.consumerIds|
    && run.producerIds[run.b] == run.consumerIds[run.c]
  }

  function MeterOf(run: Run): Meter
    requires ValidRun(run)
  {
    EngineMeter(run.production, run.consumption, run.model, |run.producerIds|, run.consumerIds, run.b, run.c)
  }

  // The billed split rounds to the engine's own columns; a run with a battery
  // refuses any other.
  ghost predicate MatchesEngine(billed: seq<Billed>, engine: seq<Billed>) {
    && |billed| == |engine|
    && forall i :: 0 <= i < |billed| ==>
         billed[i].participant == engine[i].participant && SameRounded(billed[i].quantity, engine[i].quantity)
  }

  predicate SameRounded(x: real, y: real) {
    RoundHalfEven(x) == RoundHalfEven(y)
  }

  ghost predicate BillsRun(run: Run, consumers: seq<Billed>, producers: seq<Billed>)
    requires ValidRun(run)
  {
    && MatchesEngine(consumers, EngineConsumers(run.production, run.consumption, run.model, run.consumerIds))
    && MatchesEngine(producers, EngineProducers(run.production, run.consumption, run.model, run.producerIds))
  }

  lemma RunIsMetered(run: Run)
    requires ValidRun(run) && !Simultaneous(MeterOf(run).charge, MeterOf(run).discharge)
    ensures Metered(MeterOf(run))
  {
    EngineIsMeasured(run.production, run.consumption, run.model, |run.producerIds|, run.consumerIds, run.b, run.c);
  }

  lemma WholeLine(lines: seq<Billed>, i: nat, id: int, engine: real)
    requires i < |lines| && lines[i].participant == id && Whole(lines[i].quantity)
    requires SameRounded(lines[i].quantity, engine)
    ensures HasLine(lines, id, RoundHalfEven(engine) as real)
  {
    RoundWhole(lines[i].quantity.Floor);
    assert lines[i] == Billed(id, RoundHalfEven(engine) as real);
  }

  lemma IdsAreLines(ids: seq<int>, c: nat, lines: seq<Billed>)
    requires Distinct(ids) && c < |ids| && |lines| == |ids|
    requires forall i :: 0 <= i < |ids| ==> lines[i].participant == ids[i]
    ensures ids[c] !in Without(ids, c)
    ensures LineIds(lines) == (set i | 0 <= i < |ids| - 1 :: Without(ids, c)[i]) + {ids[c]}
  {
    var rest := Without(ids, c);
    assert forall k :: 0 <= k < |rest| ==> rest[k] == ids[if k < c then k else k + 1];
    forall id
      ensures id in LineIds(lines) <==> id == ids[c] || exists k :: 0 <= k < |rest| && rest[k] == id
    {
      if id in LineIds(lines) {
        var i :| 0 <= i < |lines| && lines[i].participant == id;
        assert i == c || rest[if i < c then i else i - 1] == id;
      }
      if id == ids[c] {
        assert lines[c].participant == id;
      } else if exists k :: 0 <= k < |rest| && rest[k] == id {
        var k :| 0 <= k < |rest| && rest[k] == id;
        assert lines[if k < c then k else k + 1].participant == id;
      }
    }
  }

  lemma ColumnsAreLines(rows: seq<seq<real>>, ids: seq<int>, c: nat, lines: seq<Billed>)
    requires Wide(rows, |ids|) && c < |ids| && WholeQuantities(lines)
    requires MatchesEngine(lines, BilledColumns(ids, ColumnTotals(rows, |ids|)))
    ensures forall i :: 0 <= i < |ids| ==> HasLine(lines, ids[i], RoundHalfEven(ColumnTotals(rows, |ids|)[i]) as real)
  {
    forall i | 0 <= i < |ids|
      ensures HasLine(lines, ids[i], RoundHalfEven(ColumnTotals(rows, |ids|)[i]) as real)
    {
      assert BilledColumns(ids, ColumnTotals(rows, |ids|))[i] == Billed(ids[i], ColumnTotals(rows, |ids|)[i]);
      WholeLine(lines, i, ids[i], ColumnTotals(rows, |ids|)[i]);
    }
  }

  lemma OthersAreLines(rows: seq<seq<real>>, ids: seq<int>, c: nat, lines: seq<Billed>)
    requires Wide(rows, |ids|) && c < |ids|
    requires forall i :: 0 <= i < |ids| ==> HasLine(lines, ids[i], RoundHalfEven(ColumnTotals(rows, |ids|)[i]) as real)
    ensures forall k :: 0 <= k < |ids| - 1 ==>
      HasLine(lines, Without(ids, c)[k], Lines(Others(rows, |ids|, c))[k] as real)
  {
    forall k | 0 <= k < |ids| - 1
      ensures HasLine(lines, Without(ids, c)[k], Lines(Others(rows, |ids|, c))[k] as real)
    {
      var i := if k < c then k else k + 1;
      assert Without(ids, c)[k] == ids[i] && Others(rows, |ids|, c)[k] == Column(rows, |ids|, i);
    }
  }

  lemma RunBillsMembers(run: Run, consumers: seq<Billed>, producers: seq<Billed>)
    requires ValidRun(run) && BillsRun(run, consumers, producers) && WholeQuantities(consumers)
    ensures var m, ids, c := MeterOf(run), run.consumerIds, run.c;
      && ids[c] !in m.ids && LineIds(consumers) == (set i | 0 <= i < |m.ids| :: m.ids[i]) + {ids[c]}
      && |Lines(m.alloc)| == |m.ids|
      && (forall k :: 0 <= k < |m.ids| ==> HasLine(consumers, m.ids[k], Lines(m.alloc)[k] as real))
      && HasLine(consumers, ids[c], RoundHalfEven(Sum(m.own)) as real)
  {
    var ids, c := run.consumerIds, run.c;
    var allocation := EngineAllocation(run.production, run.consumption, run.model);
    IdsAreLines(ids, c, consumers);
    ColumnsAreLines(allocation, ids, c, consumers);
    OthersAreLines(allocation, ids, c, consumers);
  }

  lemma RunCreditsBattery(run: Run, consumers: seq<Billed>, producers: seq<Billed>)
    requires ValidRun(run) && BillsRun(run, consumers, producers) && WholeQuantities(producers)
    requires Metered(MeterOf(run))
    ensures HasLine(producers, run.consumerIds[run.c], RoundHalfEven(BatteryCredit(MeterOf(run))) as real)
  {
    var credits := EngineCredits(run.production, EngineAllocation(run.production, run.consumption, run.model));
    EngineCreditsBattery(run.production, run.consumption, run.model, |run.producerIds|, run.consumerIds, run.b, run.c);
    ColumnsAreLines(credits, run.producerIds, run.b, producers);
  }

  // So the lines bill exactly the allocation the attribution was made from.
  lemma RunBillsMeter(run: Run, consumers: seq<Billed>, producers: seq<Billed>)
    requires ValidRun(run) && BillsRun(run, consumers, producers)
    requires !Simultaneous(MeterOf(run).charge, MeterOf(run).discharge)
    requires WholeQuantities(consumers) && WholeQuantities(producers)
    ensures Metered(MeterOf(run)) && BillsMeter(MeterOf(run), run.consumerIds[run.c], consumers, producers)
  {
    RunIsMetered(run);
    RunBillsMembers(run, consumers, producers);
    RunCreditsBattery(run, consumers, producers);
  }

  // ---------------------------------------------------------------------
  // The verdict.

  // The draft prices the columns and shares the battery's cost.
  ghost predicate PricesColumns(d: Draft, consumers: seq<Billed>, producers: seq<Billed>, participants: seq<int>, c: Config) {
    && ValidWindow(d) && Earlier(d.start, d.end) && ValidPolicy(d.policy)
    && Billing(consumers, producers)
    && Covered(consumers, participants) && Covered(producers, participants)
    && ValidConfig(c) && AllShare(participants, c) && Distinct(participants)
    && d.items == Ledger(consumers, producers, PricesOf(d.policy).internal, PricesOf(d.policy).settlement)
                  + ShareLines(participants, c.participant, Due(c, Fraction(d.start, d.end)))
  }

  // The draft freezes the attribution of the engine's allocation, which the
  // columns bill.
  ghost predicate FreezesAttribution(d: Draft, run: Run, consumers: seq<Billed>, producers: seq<Billed>, c: Config, a: Attribution) {
    && ValidWindow(d)
    && ValidRun(run) && run.consumerIds[run.c] == c.participant && BillsRun(run, consumers, producers)
    && Metered(MeterOf(run)) && Attributes(MeterOf(run), a) && ValidConfig(c)
    && d.battery == Some(FrozenBattery(d.origin.community, c, d.start, d.end, Fraction(d.start, d.end),
                                       Frozen(a, MeterOf(run).ids, d.policy.internal)))
  }

  lemma RunIsApprovable(d: Draft, consumers: seq<Billed>, producers: seq<Billed>, participants: seq<int>, c: Config)
    requires PricesColumns(d, consumers, producers, participants, c)
    requires BatteryOf(d) == Some(Battery(c.participant, Due(c, Fraction(d.start, d.end))))
    ensures Approvable(PeriodOf(d))
    ensures KindLines(d.items, ConsumerCharge) == consumers && KindLines(d.items, ProducerCredit) == producers
  {
    FractionIsPositive(d.start, d.end);
    ClockOrder(d.start, d.end);
    DraftIsApprovable(consumers, producers, c, participants, Fraction(d.start, d.end), PeriodOf(d));
    ShareLinesAre(participants, c.participant, Due(c, Fraction(d.start, d.end)));
    DraftLines(consumers, producers, PricesOf(d.policy),
               ShareLines(participants, c.participant, Due(c, Fraction(d.start, d.end))));
  }

  lemma LinesDecideSnapshot(m: Meter, a: Attribution, battery: int, consumers: seq<Billed>, producers: seq<Billed>,
                            items: seq<Item>, price: real)
    requires Metered(m) && Attributes(m, a) && BillsMeter(m, battery, consumers, producers) && price >= 0.0
    requires LedgerApproval.Distinct(consumers) && LedgerApproval.Distinct(producers)
    requires KindLines(items, ConsumerCharge) == consumers && KindLines(items, ProducerCredit) == producers
    ensures EnergyReconciled(Frozen(a, m.ids, price), battery, QuantityMap(items, ConsumerCharge),
                             QuantityMap(items, ProducerCredit), price)
            <==> LineSurvives(BatteryCredit(m), LostToCaps(m)) && ValuesSurvive(a.battery, price)
  {
    DraftBillsMeter(m, battery, consumers, producers, items);
    SnapshotAccepted(m, a, battery, QuantityMap(items, ConsumerCharge), QuantityMap(items, ProducerCredit), price);
  }

  // The battery's credit survives the caps, and no attributed value sits just
  // below a half cent.
  ghost predicate Survives(run: Run, a: Attribution, price: real)
    requires ValidRun(run) && Metered(MeterOf(run)) && price >= 0.0
    requires Attributes(MeterOf(run), a)
  {
    LineSurvives(BatteryCredit(MeterOf(run)), LostToCaps(MeterOf(run))) && ValuesSurvive(a.battery, price)
  }

  lemma RunBatteryIsApproved(d: Draft, run: Run, consumers: seq<Billed>, producers: seq<Billed>, c: Config, a: Attribution)
    requires FreezesAttribution(d, run, consumers, producers, c, a) && Billing(consumers, producers)
    requires KindLines(d.items, ConsumerCharge) == consumers && KindLines(d.items, ProducerCredit) == producers
    requires d.policy.internal >= 0.0
    ensures BatteryApproved(d, d.battery.value) <==> Survives(run, a, d.policy.internal)
  {
    RunBillsMeter(run, consumers, producers);
    LinesDecideSnapshot(MeterOf(run), a, c.participant, consumers, producers, d.items, d.policy.internal);
  }

  // What a run with a battery freezes stands on its own iff each participant is
  // billed the VNB's figure, the battery's credit survives the caps, and no
  // attributed value sits just below a half cent.
  lemma BatteryStands(d: Draft, run: Run, consumers: seq<Billed>, producers: seq<Billed>,
                      consumed: seq<Figures>, produced: seq<Figures>,
                      participants: seq<int>, c: Config, a: Attribution)
    requires PricesColumns(d, consumers, producers, participants, c)
    requires FreezesAttribution(d, run, consumers, producers, c, a)
    requires Reports(consumed, consumers) && Reports(produced, producers)
    requires d.consumption == ReportOf(consumed) && d.production == ReportOf(produced)
    ensures SelfApproved(d) <==>
      && BilledAsReported(consumed, consumers, d.certificate.Some?)
      && BilledAsReported(produced, producers, d.certificate.Some?)
      && Survives(run, a, d.policy.internal)
  {
    RunIsApprovable(d, consumers, producers, participants, c);
    RunBatteryIsApproved(d, run, consumers, producers, c, a);
    ReportAccepted(consumed, consumers, d.certificate.Some?);
    ReportAccepted(produced, producers, d.certificate.Some?);
  }

  // Approval accepts it iff moreover it claims no certificate and the accepted
  // E66 delivery confirms it, if there is one.
  lemma BatteryDraftIsApproved(d: Draft, run: Run, consumers: seq<Billed>, producers: seq<Billed>,
                               consumed: seq<Figures>, produced: seq<Figures>,
                               participants: seq<int>, c: Config, a: Attribution, e: Option<Evidence>)
    requires PricesColumns(d, consumers, producers, participants, c)
    requires FreezesAttribution(d, run, consumers, producers, c, a)
    requires Reports(consumed, consumers) && Reports(produced, producers)
    requires d.consumption == ReportOf(consumed) && d.production == ReportOf(produced)
    ensures Approved(d, e) <==>
      && d.certificate.None? && SourceApproved(d, e)
      && BilledAsReported(consumed, consumers, false) && BilledAsReported(produced, producers, false)
      && Survives(run, a, d.policy.internal)
  {
    BatteryStands(d, run, consumers, producers, consumed, produced, participants, c, a);
  }

  // ---------------------------------------------------------------------
  // A run with a battery in a period with an accepted E66 delivery.

  // The readings agree with the delivery, its quantities are billed, and they
  // round as the engine's own; the run reports what it bills.
  ghost predicate SourcedRun(d: Draft, run: Run, consumers: seq<Billed>, producers: seq<Billed>,
                             consumed: seq<Figures>, produced: seq<Figures>, e: Evidence)
  {
    var records := e.delivery.records;
    var ids := ParticipantsOf(records);
    && e.accepted && d.origin == OriginOf(e) && d.certificate.None? && d.model == run.model
    && PreciseRecords(records) && Balances(records, CommunityKwh)
    && ValidRun(run) && run.producerIds == ids && run.consumerIds == ids && BillsRun(run, consumers, producers)
    && Agrees(run.production, Frame(records, SourceGroups.Production, TotalKwh), |ids|)
    && Agrees(run.consumption, Frame(records, SourceGroups.Consumption, TotalKwh), |ids|)
    && consumers == SourceColumns(records, SourceGroups.Consumption)
    && producers == SourceColumns(records, SourceGroups.Production)
    && Reports(consumed, consumers) && BilledAsReported(consumed, consumers, false)
    && Reports(produced, producers) && BilledAsReported(produced, producers, false)
    && d.consumption == ReportOf(consumed) && d.production == ReportOf(produced)
  }

  // What the run reports of one side, the engine finds on the delivery's totals.
  lemma BilledIsCompared(ids: seq<int>, vnb: seq<real>, engine: seq<Billed>, billed: seq<Billed>, side: seq<Figures>)
    requires |ids| == |vnb| && billed == BilledColumns(ids, vnb) && MatchesEngine(billed, engine)
    requires WholeQuantities(billed) && Reports(side, billed) && BilledAsReported(side, billed, false)
    ensures side == Compared(ids, vnb, engine)
  {
    forall j | 0 <= j < |ids|
      ensures side[j] == Compared(ids, vnb, engine)[j]
    {
      assert billed[j] == Billed(ids[j], vnb[j]);
      RoundWhole(vnb[j].Floor);
      assert BilledFigure(side[j], billed[j], false);
    }
  }

  lemma SourcedReports(d: Draft, run: Run, consumers: seq<Billed>, producers: seq<Billed>,
                       consumed: seq<Figures>, produced: seq<Figures>, e: Evidence)
    requires SourcedRun(d, run, consumers, producers, consumed, produced, e)
    ensures consumed == IndependentFigures(e.delivery.records, SourceGroups.Consumption, d.model)
    ensures produced == IndependentFigures(e.delivery.records, SourceGroups.Production, d.model)
  {
    var records := e.delivery.records;
    var ids := ParticipantsOf(records);
    FrameIsPrecise(records, SourceGroups.Production);
    FrameIsPrecise(records, SourceGroups.Consumption);
    AgreeingIsEqual(run.production, Frame(records, SourceGroups.Production, TotalKwh), |ids|);
    AgreeingIsEqual(run.consumption, Frame(records, SourceGroups.Consumption, TotalKwh), |ids|);
    ColumnsOfSource(records, SourceGroups.Consumption);
    ColumnsOfSource(records, SourceGroups.Production);
    SharesArePrecise(records, SourceGroups.Consumption);
    SharesArePrecise(records, SourceGroups.Production);
    BilledIsCompared(ids, SourceTotals(records, SourceGroups.Consumption),
                     EngineConsumers(run.production, run.consumption, run.model, ids), consumers, consumed);
    BilledIsCompared(ids, SourceTotals(records, SourceGroups.Production),
                     EngineProducers(run.production, run.consumption, run.model, ids), producers, produced);
  }

  lemma SourcedIsConfirmed(d: Draft, run: Run, consumers: seq<Billed>, producers: seq<Billed>,
                           consumed: seq<Figures>, produced: seq<Figures>, e: Evidence)
    requires SourcedRun(d, run, consumers, producers, consumed, produced, e)
    requires KindLines(d.items, ConsumerCharge) == consumers && KindLines(d.items, ProducerCredit) == producers
    ensures Confirmed(ClaimOf(d), e)
  {
    var records := e.delivery.records;
    SourcedReports(d, run, consumers, producers, consumed, produced, e);
    FrameIsPrecise(records, SourceGroups.Production);
    FrameIsPrecise(records, SourceGroups.Consumption);
    LinesBillSource(d, records);
  }

  // In such a period approval accepts the draft iff the battery's credit and
  // the attributed values survive.
  lemma SourcedBatteryIsApproved(d: Draft, run: Run, consumers: seq<Billed>, producers: seq<Billed>,
                                 consumed: seq<Figures>, produced: seq<Figures>,
                                 participants: seq<int>, c: Config, a: Attribution, e: Evidence)
    requires PricesColumns(d, consumers, producers, participants, c)
    requires FreezesAttribution(d, run, consumers, producers, c, a)
    requires SourcedRun(d, run, consumers, producers, consumed, produced, e)
    ensures Approved(d, Some(e)) <==> Survives(run, a, d.policy.internal)
  {
    RunIsApprovable(d, consumers, producers, participants, c);
    SourcedIsConfirmed(d, run, consumers, producers, consumed, produced, e);
    BatteryStands(d, run, consumers, producers, consumed, produced, participants, c, a);
  }
}
