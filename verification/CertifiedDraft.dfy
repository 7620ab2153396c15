/** Certified drafts: from an accepted delivery with a certificate to the
    verdict of approval, and back. */
module CertifiedDraft {
  import opened Numbers
  import opened LineItems
  import opened Approval
  import opened Invoices
  import opened Allocation
  import opened EngineColumns
  import opened SourceGroups
  import opened SourceCertificate
  import opened BilledSource
  import opened VnbReconciliation
  import opened Proration
  import opened DraftApproval
  import Reconciliation
  import Audit
  import SourceWitness
  import SplitWitness
  import LedgerApproval
  import MemberBill

  // ---------------------------------------------------------------------
  // The figures of an accepted delivery are whole watt hours.

  predicate Precise(x: real) {
    x >= 0.0 && Whole(Millionths(x))
  }

  predicate PreciseRecord(r: SourceRecord) {
    && Precise(r.total) && Precise(r.community) && Precise(r.billed)
    && r.billed == r.community && r.direction != OtherDirection
  }

  ghost predicate PreciseRecords(records: seq<SourceRecord>) {
    forall i :: 0 <= i < |records| ==> PreciseRecord(records[i])
  }

  lemma ReadingIsPrecise(x: real)
    requires Reconciliation.MakeCell(x).Some?
    ensures Precise(x)
  {
    var wh :| x == Reconciliation.WattHours(wh);
    assert Millionths(x) == (1000 * wh) as real;
    WholeInt(1000 * wh);
  }

  lemma AcceptedIsPrecise(d: Delivery)
    requires Accepted(d)
    ensures d.records != [] && PreciseRecords(d.records)
  {
    forall i | 0 <= i < |d.records|
      ensures PreciseRecord(d.records[i])
    {
      AcceptedRecord(d, i);
    }
    SlotHasRecords(d, d.start);
  }

  lemma AcceptedRecord(d: Delivery, i: nat)
    requires Accepted(d) && i < |d.records|
    ensures PreciseRecord(d.records[i])
  {
    var r := d.records[i];
    ReadingIsPrecise(r.total);
    ReadingIsPrecise(r.community);
    var k :| 0 <= k < |d.mappings| && Declares(d.mappings[k], IdentityOf(r));
    assert ValidMapping(d.mappings[k]);
  }

  lemma PreciseAdds(x: real, y: real)
    requires Precise(x) && Precise(y)
    ensures Precise(x + y)
  {
    assert Millionths(x + y) == Millionths(x) + Millionths(y);
    WholeAdds(Millionths(x), Millionths(y));
  }

  lemma {:induction false} CellIsPrecise(records: seq<SourceRecord>, side: Direction, t: int, id: int, channel: Channel)
    requires PreciseRecords(records)
    ensures Precise(CellOf(records, side, t, id, channel))
  {
    if records != [] {
      var n := |records| - 1;
      CellIsPrecise(records[..n], side, t, id, channel);
      assert PreciseRecord(records[n]);
      PreciseAdds(CellOf(records[..n], side, t, id, channel), ValueOf(records[n], channel));
    }
  }

  lemma {:induction false} ShareIsPrecise(records: seq<SourceRecord>, side: Direction, id: int)
    requires PreciseRecords(records)
    ensures Precise(ShareOf(records, side, id, CommunityKwh))
    ensures ShareOf(records, side, id, AllocatedKwh) == ShareOf(records, side, id, CommunityKwh)
  {
    if records != [] {
      var n := |records| - 1;
      ShareIsPrecise(records[..n], side, id);
      assert PreciseRecord(records[n]);
      PreciseAdds(ShareOf(records[..n], side, id, CommunityKwh), records[n].community);
    }
  }

  lemma SharesArePrecise(records: seq<SourceRecord>, side: Direction)
    requires PreciseRecords(records)
    ensures ShareColumn(records, side, AllocatedKwh) == ShareColumn(records, side, CommunityKwh)
    ensures forall j :: 0 <= j < |ShareColumn(records, side, CommunityKwh)| ==> Precise(ShareColumn(records, side, CommunityKwh)[j])
  {
    forall j | 0 <= j < |ParticipantsOf(records)|
      ensures ShareColumn(records, side, AllocatedKwh)[j] == ShareColumn(records, side, CommunityKwh)[j]
      ensures Precise(ShareColumn(records, side, CommunityKwh)[j])
    {
      ShareIsPrecise(records, side, ParticipantsOf(records)[j]);
    }
  }

  // ---------------------------------------------------------------------
  // A delivery in balance can be billed as it is.

  lemma IdsIncrease(records: seq<SourceRecord>)
    ensures Increasing(ParticipantsOf(records)) && Distinct(ParticipantsOf(records))
    ensures records != [] ==> ParticipantsOf(records) != []
  {
    if records != [] {
      SomeParticipant(records);
    }
  }

  lemma ColumnsOfSource(records: seq<SourceRecord>, side: Direction)
    requires PreciseRecords(records)
    ensures var columns := SourceColumns(records, side);
      && LedgerApproval.Distinct(columns) && LedgerApproval.NonNegative(columns) && WholeQuantities(columns)
      && LedgerApproval.Raw(columns) == Millionths(Sum(ShareColumn(records, side, CommunityKwh)))
  {
    IdsIncrease(records);
    SharesArePrecise(records, side);
    RawIsSum(ParticipantsOf(records), SourceTotals(records, side));
    SumOfScaled(ShareColumn(records, side, CommunityKwh));
  }

  lemma SourceIsBilling(records: seq<SourceRecord>)
    requires PreciseRecords(records) && records != [] && Balances(records, CommunityKwh)
    ensures Billing(SourceColumns(records, Consumption), SourceColumns(records, Production))
  {
    IdsIncrease(records);
    ColumnsOfSource(records, Consumption);
    ColumnsOfSource(records, Production);
  }

  lemma QuantitiesOfSource(records: seq<SourceRecord>, side: Direction, billed: map<int, real>)
    requires billed.Keys == LineIds(SourceColumns(records, side))
    requires forall id, q :: HasLine(SourceColumns(records, side), id, q) ==> id in billed && billed[id] == q
    ensures billed == SourceQuantities(records, side)
  {
    var ids, columns := ParticipantsOf(records), SourceColumns(records, side);
    forall id
      ensures id in billed <==> id in ids
      ensures id in ids ==> billed[id] == Millionths(ShareOf(records, side, id, CommunityKwh))
    {
      if id in ids {
        var j :| 0 <= j < |ids| && ids[j] == id;
        assert columns[j] == Billed(id, Millionths(ShareOf(records, side, id, CommunityKwh)));
        assert HasLine(columns, id, Millionths(ShareOf(records, side, id, CommunityKwh)));
      }
      if id in billed {
        var j :| 0 <= j < |columns| && columns[j].participant == id;
        assert ids[j] == id;
      }
    }
  }

  // ---------------------------------------------------------------------
  // Readings that agree with the delivery to six decimals are the delivery's.

  predicate SameToSix(x: real, y: real) {
    RoundHalfEven(Millionths(x)) == RoundHalfEven(Millionths(y))
  }

  // The run's frame of readings, kept at six decimals or fewer, against the source's.
  predicate Agrees(readings: seq<seq<real>>, source: seq<seq<real>>, n: nat) {
    && |readings| == |source| && Wide(readings, n) && Wide(source, n)
    && forall t, j :: 0 <= t < |readings| && 0 <= j < n ==>
         Whole(Millionths(readings[t][j])) && SameToSix(readings[t][j], source[t][j])
  }

  predicate WholeCells(rows: seq<seq<real>>) {
    forall t, j :: 0 <= t < |rows| && 0 <= j < |rows[t]| ==> Whole(Millionths(rows[t][j]))
  }

  lemma SixDecimalsDecide(x: real, y: real)
    requires Whole(Millionths(x)) && Whole(Millionths(y)) && SameToSix(x, y)
    ensures x == y
  {
    RoundWhole(Millionths(x).Floor);
    RoundWhole(Millionths(y).Floor);
  }

  lemma AgreeingIsEqual(readings: seq<seq<real>>, source: seq<seq<real>>, n: nat)
    requires Agrees(readings, source, n) && WholeCells(source)
    ensures readings == source
  {
    forall t | 0 <= t < |readings|
      ensures readings[t] == source[t]
    {
      forall j | 0 <= j < n
        ensures readings[t][j] == source[t][j]
      {
        SixDecimalsDecide(readings[t][j], source[t][j]);
      }
    }
  }

  lemma FrameIsPrecise(records: seq<SourceRecord>, side: Direction)
    requires PreciseRecords(records)
    ensures WholeCells(Frame(records, side, TotalKwh)) && NonNegativeRows(Frame(records, side, TotalKwh))
  {
    var moments, ids, frame := MomentsOf(records), ParticipantsOf(records), Frame(records, side, TotalKwh);
    forall t, j | 0 <= t < |frame| && 0 <= j < |ids|
      ensures Precise(frame[t][j])
    {
      CellIsPrecise(records, side, moments[t], ids[j], TotalKwh);
    }
  }

  // ---------------------------------------------------------------------
  // From the run to approval.

  // A run on an accepted delivery that got its certificate and balances: it
  // bills the delivery's quantities, and reports the engine's own beside them.
  ghost predicate CertifiedRun(d: Draft, e: Evidence, production: seq<seq<real>>, consumption: seq<seq<real>>) {
    var records := e.delivery.records;
    && ValidWindow(d) && Earlier(d.start, d.end) && ValidPolicy(d.policy) && d.battery.None?
    && e.accepted && d.origin == OriginOf(e)
    && d.certificate.Some? && d.certificate == CertificateOf(e.fingerprint, e.delivery, d.model)
    && Agrees(production, Frame(records, Production, TotalKwh), |ParticipantsOf(records)|)
    && Agrees(consumption, Frame(records, Consumption, TotalKwh), |ParticipantsOf(records)|)
    && Balances(records, CommunityKwh)
    && d.items == Ledger(SourceColumns(records, Consumption), SourceColumns(records, Production),
                         PricesOf(d.policy).internal, PricesOf(d.policy).settlement)
    && d.consumption == ReportOf(FiguresOn(records, Consumption, d.model, production, consumption))
    && d.production == ReportOf(FiguresOn(records, Production, d.model, production, consumption))
  }

  lemma CertifiedIsAccepted(d: Draft, e: Evidence)
    requires d.certificate.Some? && d.certificate == CertificateOf(e.fingerprint, e.delivery, d.model)
    ensures Accepted(e.delivery)
  {
  }

  lemma RunFiguresAreIndependent(d: Draft, e: Evidence, production: seq<seq<real>>, consumption: seq<seq<real>>)
    requires CertifiedRun(d, e, production, consumption) && PreciseRecords(e.delivery.records)
    ensures d.consumption == ReportOf(IndependentFigures(e.delivery.records, Consumption, d.model))
    ensures d.production == ReportOf(IndependentFigures(e.delivery.records, Production, d.model))
  {
    var records := e.delivery.records;
    FrameIsPrecise(records, Production);
    FrameIsPrecise(records, Consumption);
    AgreeingIsEqual(production, Frame(records, Production, TotalKwh), |ParticipantsOf(records)|);
    AgreeingIsEqual(consumption, Frame(records, Consumption, TotalKwh), |ParticipantsOf(records)|);
  }

  lemma FiguresAreReported(records: seq<SourceRecord>, side: Direction, model: Model)
    requires PreciseRecords(records)
    ensures Reports(IndependentFigures(records, side, model), SourceColumns(records, side))
    ensures BilledAsReported(IndependentFigures(records, side, model), SourceColumns(records, side), true)
  {
    SharesArePrecise(records, side);
    forall j | 0 <= j < |ParticipantsOf(records)|
      ensures Whole(IndependentFigures(records, side, model)[j].vnb) && Whole(IndependentFigures(records, side, model)[j].engine)
      ensures IndependentFigures(records, side, model)[j].vnb == SourceColumns(records, side)[j].quantity
    {
      var f := IndependentFigures(records, side, model)[j];
      WholeInt(RoundHalfUp(Millionths(ShareColumn(records, side, AllocatedKwh)[j])));
      WholeInt(f.engine.Floor);
      RoundWhole(Millionths(ShareColumn(records, side, CommunityKwh)[j]).Floor);
    }
  }

  // Lines that carry the delivery's columns bill the delivery.
  lemma LinesBillSource(d: Draft, records: seq<SourceRecord>)
    requires PreciseRecords(records) && Balances(records, CommunityKwh)
    requires KindLines(d.items, ConsumerCharge) == SourceColumns(records, Consumption)
    requires KindLines(d.items, ProducerCredit) == SourceColumns(records, Production)
    ensures BillsSource(ClaimOf(d), records)
  {
    ColumnsOfSource(records, Consumption);
    ColumnsOfSource(records, Production);
    QuantitiesAreLines(d.items, ConsumerCharge);
    QuantitiesAreLines(d.items, ProducerCredit);
    QuantitiesOfSource(records, Consumption, QuantityMap(d.items, ConsumerCharge));
    QuantitiesOfSource(records, Production, QuantityMap(d.items, ProducerCredit));
    SharesArePrecise(records, Consumption);
    SharesArePrecise(records, Production);
  }

  lemma CertifiedBills(d: Draft, records: seq<SourceRecord>)
    requires PreciseRecords(records) && records != [] && Balances(records, CommunityKwh)
    requires ValidWindow(d) && Earlier(d.start, d.end) && ValidPolicy(d.policy) && d.battery.None?
    requires d.items == Ledger(SourceColumns(records, Consumption), SourceColumns(records, Production),
                               PricesOf(d.policy).internal, PricesOf(d.policy).settlement)
    ensures BillsSource(ClaimOf(d), records)
  {
    SourceIsBilling(records);
    PlainIsApprovable(SourceColumns(records, Consumption), SourceColumns(records, Production), d);
    LinesBillSource(d, records);
  }

  lemma CertifiedIsConfirmed(d: Draft, e: Evidence, production: seq<seq<real>>, consumption: seq<seq<real>>)
    requires CertifiedRun(d, e, production, consumption) && PreciseRecords(e.delivery.records) && e.delivery.records != []
    ensures Confirmed(ClaimOf(d), e)
  {
    var records := e.delivery.records;
    CertifiedBills(d, records);
    RunFiguresAreIndependent(d, e, production, consumption);
    FrameIsPrecise(records, Production);
    FrameIsPrecise(records, Consumption);
  }

  // An accepted delivery in balance that gets a certificate, billed by its own
  // channels: the draft passes the second audit, the comparison of quantities,
  // the independent run of the engine, and every other check of approval.
  lemma CertifiedDraftIsApproved(d: Draft, e: Evidence, production: seq<seq<real>>, consumption: seq<seq<real>>)
    requires CertifiedRun(d, e, production, consumption)
    ensures Approved(d, Some(e))
  {
    var records := e.delivery.records;
    CertifiedIsAccepted(d, e);
    AcceptedIsPrecise(e.delivery);
    CertifiedIsConfirmed(d, e, production, consumption);
    CertifiedStands(d, e, production, consumption);
  }

  lemma CertifiedStands(d: Draft, e: Evidence, production: seq<seq<real>>, consumption: seq<seq<real>>)
    requires CertifiedRun(d, e, production, consumption) && PreciseRecords(e.delivery.records) && e.delivery.records != []
    ensures SelfApproved(d)
  {
    var records := e.delivery.records;
    SourceIsBilling(records);
    RunFiguresAreIndependent(d, e, production, consumption);
    FiguresAreReported(records, Consumption, d.model);
    FiguresAreReported(records, Production, d.model);
    PlainStands(SourceColumns(records, Consumption), SourceColumns(records, Production),
                IndependentFigures(records, Consumption, d.model), IndependentFigures(records, Production, d.model), d);
  }

  // ---------------------------------------------------------------------
  // And back: what an approved certificate guarantees.

  // Behind an approved draft with a proportional certificate there is one exact
  // allocation of every quarter hour, and the draft bills the delivery's sums.
  lemma ApprovedIsExplained(d: Draft, e: Evidence, t: int)
    requires ValidWindow(d) && Approved(d, Some(e)) && d.certificate.Some? && d.model == Proportional
    requires Slot(e.delivery, t)
    ensures Accepted(e.delivery) && RecordsAreExplained(e.delivery.records, t)
    ensures QuantityMap(d.items, ConsumerCharge) == SourceQuantities(e.delivery.records, Consumption)
    ensures QuantityMap(d.items, ProducerCredit) == SourceQuantities(e.delivery.records, Production)
  {
    assert Confirmed(ClaimOf(d), e);
    CertificateExplains(e.fingerprint, e.delivery, t);
  }

  // Exact energies behind the records of a quarter hour, one direction fully used.
  ghost predicate RecordsAreExplained(records: seq<SourceRecord>, t: int) {
    exists full, ratio :: full in {Consumption, Production} && 0.0 <= ratio <= 1.0
                          && SourceWitness.RecordsExplained(records, t, full, ratio)
  }

  lemma CertificateExplains(fingerprint: int, d: Delivery, t: int)
    requires CertificateOf(fingerprint, d, Proportional).Some? && Slot(d, t)
    ensures Accepted(d) && RecordsAreExplained(d.records, t)
  {
    Audit.SlotsAreSlots(d);
    assert t in Audit.Verdicts(d);
    SourceWitness.CertifiedRecords(d, t);
  }

  // Behind one with an equal-split certificate every reading of every quarter
  // hour holds what the engine's split gives it.
  lemma ApprovedSplitsHold(d: Draft, e: Evidence, t: int)
    requires ValidWindow(d) && Approved(d, Some(e)) && d.certificate.Some? && d.model == Einfach
    requires Slot(e.delivery, t)
    ensures Accepted(e.delivery) && SplitWitness.ModelHolds(e.delivery.records, t)
    ensures QuantityMap(d.items, ConsumerCharge) == SourceQuantities(e.delivery.records, Consumption)
    ensures QuantityMap(d.items, ProducerCredit) == SourceQuantities(e.delivery.records, Production)
  {
    assert Confirmed(ClaimOf(d), e);
    CertificateSplits(e.fingerprint, e.delivery, t);
    SplitWitness.SplitMeans(e.delivery, t);
  }

  lemma CertificateSplits(fingerprint: int, d: Delivery, t: int)
    requires CertificateOf(fingerprint, d, Einfach).Some? && Slot(d, t)
    ensures Accepted(d) && SplitHolds(RecordsAt(d.records, t))
  {
    Audit.SlotsAreSlots(d);
    assert SplitOutcomes(d.records, Audit.Slots(d))[t].Some?;
  }

  // Lines that bill the delivery charge each participant the sum of its community
  // figures, and credit it the same way.
  lemma SourceIsCharged(records: seq<SourceRecord>, items: seq<Item>, price: real, fee: real, j: nat)
    requires PreciseRecords(records) && j < |ParticipantsOf(records)|
    requires items == Ledger(SourceColumns(records, Consumption), SourceColumns(records, Production), price, fee)
    ensures var id := ParticipantsOf(records)[j];
      MemberBill.ChargesQuantity(items, id, 1000000.0 * SharedBy(records, Consumption, id), price, fee)
  {
    var consumers, producers := SourceColumns(records, Consumption), SourceColumns(records, Production);
    ColumnIsSum(records, Consumption, j);
    MemberBill.ColumnIsCharged(consumers, producers, price, fee, j);
  }

  lemma SourceIsCredited(records: seq<SourceRecord>, items: seq<Item>, price: real, fee: real, j: nat)
    requires PreciseRecords(records) && j < |ParticipantsOf(records)|
    requires items == Ledger(SourceColumns(records, Consumption), SourceColumns(records, Production), price, fee)
    ensures var id := ParticipantsOf(records)[j];
      MemberBill.CreditsQuantity(items, id, 1000000.0 * SharedBy(records, Production, id), price)
  {
    var consumers, producers := SourceColumns(records, Consumption), SourceColumns(records, Production);
    ColumnIsSum(records, Production, j);
    MemberBill.ColumnIsCredited(consumers, producers, price, fee, j);
  }

  lemma ColumnIsSum(records: seq<SourceRecord>, side: Direction, j: nat)
    requires PreciseRecords(records) && j < |ParticipantsOf(records)|
    ensures var id := ParticipantsOf(records)[j];
      && SourceColumns(records, side)[j] == Billed(id, 1000000.0 * SharedBy(records, side, id))
      && RoundHalfEven(SourceColumns(records, side)[j].quantity) as real == SourceColumns(records, side)[j].quantity
  {
    var id := ParticipantsOf(records)[j];
    ShareIsSum(records, side, id);
    ShareIsPrecise(records, side, id);
    RoundWhole(Millionths(ShareOf(records, side, id, CommunityKwh)).Floor);
  }
}
