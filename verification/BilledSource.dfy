/** What an accepted delivery bills, and its re-check at approval: the billed
    quantities are the delivery's own, and the reconciliation is the one an
    independent run of the engine over the delivery's totals gives. */
module BilledSource {
  import opened Numbers
  import opened LineItems
  import opened Allocation
  import opened EngineColumns
  import opened SourceGroups
  import opened SourceCertificate
  import opened VnbReconciliation
  import Invoices

  datatype Channel = TotalKwh | CommunityKwh | AllocatedKwh

  function ValueOf(r: SourceRecord, channel: Channel): real {
    match channel
    case TotalKwh => r.total
    case CommunityKwh => r.community
    case AllocatedKwh => r.billed
  }

  // ---------------------------------------------------------------------
  // From records to frames.

  function MomentsOf(records: seq<SourceRecord>): (r: seq<int>)
    ensures forall i :: 0 <= i < |records| ==> records[i].measuredAt in r
  {
    var all := seq(|records|, i requires 0 <= i < |records| => records[i].measuredAt);
    assert forall i :: 0 <= i < |records| ==> all[i] == records[i].measuredAt;
    Invoices.Sorted(all)
  }

  // The energy of one participant in one direction, at one moment and overall.
  function CellOf(records: seq<SourceRecord>, d: Direction, t: int, id: int, channel: Channel): real {
    if records == [] then 0.0 else
      var last := records[|records| - 1];
      CellOf(records[..|records| - 1], d, t, id, channel)
      + if last.direction == d && last.measuredAt == t && last.participant == id then ValueOf(last, channel) else 0.0
  }

  function ShareOf(records: seq<SourceRecord>, d: Direction, id: int, channel: Channel): real {
    if records == [] then 0.0 else
      var last := records[|records| - 1];
      ShareOf(records[..|records| - 1], d, id, channel)
      + if last.direction == d && last.participant == id then ValueOf(last, channel) else 0.0
  }

  function FrameRow(records: seq<SourceRecord>, d: Direction, t: int, ids: seq<int>, channel: Channel): (r: seq<real>)
    ensures |r| == |ids|
  {
    seq(|ids|, j requires 0 <= j < |ids| => CellOf(records, d, t, ids[j], channel))
  }

  // One row per moment, one column per participant.
  function Frame(records: seq<SourceRecord>, d: Direction, channel: Channel): (r: seq<seq<real>>)
    ensures |r| == |MomentsOf(records)| && Wide(r, |ParticipantsOf(records)|)
  {
    var moments, ids := MomentsOf(records), ParticipantsOf(records);
    seq(|moments|, k requires 0 <= k < |moments| => FrameRow(records, d, moments[k], ids, channel))
  }

  function ShareColumn(records: seq<SourceRecord>, d: Direction, channel: Channel): (r: seq<real>)
    ensures |r| == |ParticipantsOf(records)|
  {
    var ids := ParticipantsOf(records);
    seq(|ids|, j requires 0 <= j < |ids| => ShareOf(records, d, ids[j], channel))
  }

  // ---------------------------------------------------------------------
  // A participant's column adds up to its share: every record has one moment.

  function Cells(records: seq<SourceRecord>, d: Direction, moments: seq<int>, id: int, channel: Channel): (r: seq<real>)
    ensures |r| == |moments|
  {
    seq(|moments|, k requires 0 <= k < |moments| => CellOf(records, d, moments[k], id, channel))
  }

  lemma {:induction false} SumRaised(xs: seq<real>, ys: seq<real>, k: nat, x: real)
    requires |xs| == |ys| && k < |xs| && ys[k] == xs[k] + x
    requires forall i :: 0 <= i < |xs| && i != k ==> ys[i] == xs[i]
    ensures Sum(ys) == Sum(xs) + x
  {
    var n := |xs| - 1;
    if k < n {
      SumRaised(xs[..n], ys[..n], k, x);
    } else {
      assert xs[..n] == ys[..n];
    }
  }

  lemma {:induction false} CellsAddUp(records: seq<SourceRecord>, d: Direction, moments: seq<int>, id: int, channel: Channel)
    requires Invoices.Increasing(moments)
    requires forall i :: 0 <= i < |records| ==> records[i].measuredAt in moments
    ensures Sum(Cells(records, d, moments, id, channel)) == ShareOf(records, d, id, channel)
  {
    if records == [] {
      SumOfZeros(Cells(records, d, moments, id, channel));
    } else {
      var n := |records| - 1;
      var last := records[n];
      var before, after := Cells(records[..n], d, moments, id, channel), Cells(records, d, moments, id, channel);
      CellsAddUp(records[..n], d, moments, id, channel);
      assert records[n].measuredAt in moments;
      var k :| 0 <= k < |moments| && moments[k] == last.measuredAt;
      if last.direction == d && last.participant == id {
        assert forall i :: 0 <= i < |moments| && i != k ==> moments[i] != moments[k];
        SumRaised(before, after, k, ValueOf(last, channel));
      } else {
        assert before == after;
      }
    }
  }

  lemma FrameColumnIsShare(records: seq<SourceRecord>, d: Direction, channel: Channel, j: nat)
    requires j < |ParticipantsOf(records)|
    ensures ColumnTotals(Frame(records, d, channel), |ParticipantsOf(records)|)[j]
            == Millionths(ShareOf(records, d, ParticipantsOf(records)[j], channel))
  {
    var moments, ids := MomentsOf(records), ParticipantsOf(records);
    var column := Column(Frame(records, d, channel), |ids|, j);
    var cells := Cells(records, d, moments, ids[j], channel);
    CellsAddUp(records, d, moments, ids[j], channel);
    assert column == EngineColumns.Scaled(cells);
    SumOfScaled(cells);
  }

  // ---------------------------------------------------------------------
  // The figures by the fields they come from.

  // What a participant's meters read at one moment.
  function MeteredAt(records: seq<SourceRecord>, d: Direction, t: int, id: int): real {
    if records == [] then 0.0 else
      var r := records[|records| - 1];
      MeteredAt(records[..|records| - 1], d, t, id)
      + if r.direction == d && r.measuredAt == t && r.participant == id then r.total else 0.0
  }

  // What a participant got from the community, or gave to it.
  function SharedBy(records: seq<SourceRecord>, d: Direction, id: int): real {
    if records == [] then 0.0 else
      var r := records[|records| - 1];
      SharedBy(records[..|records| - 1], d, id) + if r.direction == d && r.participant == id then r.community else 0.0
  }

  // What the VNB allocated to it.
  function AllocatedTo(records: seq<SourceRecord>, d: Direction, id: int): real {
    if records == [] then 0.0 else
      var r := records[|records| - 1];
      AllocatedTo(records[..|records| - 1], d, id) + if r.direction == d && r.participant == id then r.billed else 0.0
  }

  lemma {:induction false} CellIsMetered(records: seq<SourceRecord>, d: Direction, t: int, id: int)
    ensures CellOf(records, d, t, id, TotalKwh) == MeteredAt(records, d, t, id)
  {
    if records != [] {
      CellIsMetered(records[..|records| - 1], d, t, id);
    }
  }

  lemma {:induction false} ShareIsSum(records: seq<SourceRecord>, d: Direction, id: int)
    ensures ShareOf(records, d, id, CommunityKwh) == SharedBy(records, d, id)
    ensures ShareOf(records, d, id, AllocatedKwh) == AllocatedTo(records, d, id)
  {
    if records != [] {
      ShareIsSum(records[..|records| - 1], d, id);
    }
  }

  // The frame the independent run reads.
  lemma FrameIsMetered(records: seq<SourceRecord>, d: Direction, k: nat, j: nat)
    requires k < |MomentsOf(records)| && j < |ParticipantsOf(records)|
    ensures Frame(records, d, TotalKwh)[k][j] == MeteredAt(records, d, MomentsOf(records)[k], ParticipantsOf(records)[j])
  {
    CellIsMetered(records, d, MomentsOf(records)[k], ParticipantsOf(records)[j]);
  }

  // ---------------------------------------------------------------------
  // The re-check.

  // Accepted calculated values, as approval receives them.
  datatype Evidence = Evidence(e66: bool, accepted: bool, community: int, fingerprint: int, delivery: Delivery)

  // What ties a draft to its delivery.
  datatype Origin = Origin(community: int, fingerprint: int, start: int, end: int)

  function OriginOf(e: Evidence): Origin {
    Origin(e.community, e.fingerprint, e.delivery.start, e.delivery.end)
  }

  // What a draft says about its source: billed quantities per participant,
  // reports of both sides, and the certificate, if it claims one.
  datatype Claim = Claim(origin: Origin, model: Model, certificate: Option<Certificate>, battery: bool,
                         charged: map<int, real>, credited: map<int, real>, consumption: Report, production: Report)

  function SourceTotals(records: seq<SourceRecord>, d: Direction): (r: seq<real>)
    ensures |r| == |ParticipantsOf(records)|
  {
    EngineColumns.Scaled(ShareColumn(records, d, CommunityKwh))
  }

  // The delivery's own quantities, as columns and per participant.
  function SourceColumns(records: seq<SourceRecord>, d: Direction): (r: seq<Billed>)
    ensures |r| == |ParticipantsOf(records)|
  {
    BilledColumns(ParticipantsOf(records), SourceTotals(records, d))
  }

  function SourceQuantities(records: seq<SourceRecord>, d: Direction): map<int, real> {
    map id | id in ParticipantsOf(records) :: Millionths(ShareOf(records, d, id, CommunityKwh))
  }

  function Compared(ids: seq<int>, vnb: seq<real>, engine: seq<Billed>): (r: seq<Figures>)
    requires |ids| == |vnb| == |engine|
    ensures |r| == |ids|
  {
    seq(|ids|, j requires 0 <= j < |ids| =>
      Figures(ids[j], RoundHalfUp(vnb[j]) as real, RoundHalfEven(engine[j].quantity) as real))
  }

  // The VNB's split beside the engine's own, computed from two frames of readings.
  function FiguresOn(records: seq<SourceRecord>, d: Direction, model: Model,
                     production: seq<seq<real>>, consumption: seq<seq<real>>): (r: seq<Figures>)
    requires |production| == |consumption|
    requires Wide(production, |ParticipantsOf(records)|) && Wide(consumption, |ParticipantsOf(records)|)
    ensures |r| == |ParticipantsOf(records)|
  {
    var ids := ParticipantsOf(records);
    Compared(ids, EngineColumns.Scaled(ShareColumn(records, d, AllocatedKwh)),
             if d == Consumption then EngineConsumers(production, consumption, model, ids)
             else EngineProducers(production, consumption, model, ids))
  }

  function IndependentFigures(records: seq<SourceRecord>, d: Direction, model: Model): (r: seq<Figures>)
    ensures |r| == |ParticipantsOf(records)|
  {
    FiguresOn(records, d, model, Frame(records, Production, TotalKwh), Frame(records, Consumption, TotalKwh))
  }

  predicate Balances(records: seq<SourceRecord>, channel: Channel) {
    Sum(ShareColumn(records, Consumption, channel)) == Sum(ShareColumn(records, Production, channel))
  }

  predicate Usable(records: seq<SourceRecord>) {
    && (forall i :: 0 <= i < |records| ==> records[i].direction != OtherDirection)
    && NonNegativeRows(Frame(records, Production, TotalKwh)) && NonNegativeRows(Frame(records, Consumption, TotalKwh))
  }

  function EntriesOf(r: Report): set<Entry> {
    set k | 0 <= k < |r.entries| :: r.entries[k]
  }

  // Reports are dictionaries by participant.
  predicate SameReport(a: Report, b: Report) {
    a.total == b.total && EntriesOf(a) == EntriesOf(b)
  }

  predicate BillsSource(c: Claim, records: seq<SourceRecord>) {
    && Balances(records, AllocatedKwh) && Balances(records, CommunityKwh)
    && c.charged == SourceQuantities(records, Consumption) && c.credited == SourceQuantities(records, Production)
  }

  predicate ReportsSource(c: Claim, records: seq<SourceRecord>) {
    && SameReport(c.consumption, ReportOf(IndependentFigures(records, Consumption, c.model)))
    && SameReport(c.production, ReportOf(IndependentFigures(records, Production, c.model)))
  }

  // The certificate is the one a second audit gives; no battery draft has one.
  ghost predicate Recertified(c: Claim, e: Evidence) {
    c.certificate.Some? ==> !c.battery && CertificateOf(e.fingerprint, e.delivery, c.model) == c.certificate
  }

  ghost predicate Confirmed(c: Claim, e: Evidence) {
    && OriginOf(e) == c.origin && e.accepted && Recertified(c, e)
    && Usable(e.delivery.records) && BillsSource(c, e.delivery.records) && ReportsSource(c, e.delivery.records)
  }

  method Recertify(c: Claim, e: Evidence) returns (ok: bool)
    ensures ok <==> Recertified(c, e)
  {
    if c.certificate.None? {
      return true;
    }
    var again := AuditE66(e.fingerprint, e.delivery, c.model);
    return again == c.certificate && !c.battery;
  }

  method ValidateBilledSource(c: Claim, e: Evidence) returns (ok: bool)
    ensures ok <==> Confirmed(c, e)
  {
    if OriginOf(e) != c.origin {
      return false;
    }
    var certified := Recertify(c, e);
    if !certified || !e.accepted || !Usable(e.delivery.records) {
      return false;
    }
    if !BillsSource(c, e.delivery.records) {
      return false;
    }
    var consumption := ReconcileWithVnb(IndependentFigures(e.delivery.records, Consumption, c.model));
    var production := ReconcileWithVnb(IndependentFigures(e.delivery.records, Production, c.model));
    return SameReport(c.consumption, consumption) && SameReport(c.production, production);
  }

  // ---------------------------------------------------------------------
  // What the re-check compares with, in figures.

  lemma QuantityIsSum(records: seq<SourceRecord>, d: Direction, id: int)
    requires id in ParticipantsOf(records)
    ensures id in SourceQuantities(records, d)
    ensures SourceQuantities(records, d)[id] == 1000000.0 * SharedBy(records, d, id)
  {
    ShareIsSum(records, d, id);
  }

  lemma FigureAt(ids: seq<int>, vnb: seq<real>, engine: seq<Billed>, j: nat, allotted: real, quantity: real)
    requires |ids| == |vnb| == |engine| && j < |ids| && vnb[j] == allotted && engine[j].quantity == quantity
    ensures Compared(ids, vnb, engine)[j]
            == Figures(ids[j], RoundHalfUp(allotted) as real, RoundHalfEven(quantity) as real)
  {
  }

  lemma AllottedAt(records: seq<SourceRecord>, d: Direction, j: nat)
    requires j < |ParticipantsOf(records)|
    ensures EngineColumns.Scaled(ShareColumn(records, d, AllocatedKwh))[j]
            == 1000000.0 * AllocatedTo(records, d, ParticipantsOf(records)[j])
  {
    ShareIsSum(records, d, ParticipantsOf(records)[j]);
  }

  // Each entry sets what the VNB allocated beside the member's part of the
  // readings under the model, both at six decimals.
  lemma ConsumerFigure(records: seq<SourceRecord>, model: Model, production: seq<seq<real>>, consumption: seq<seq<real>>,
                       j: nat, allotted: real, quantity: real)
    requires var n := |ParticipantsOf(records)|; Metering(production, consumption, n, n) && j < n
    requires allotted == 1000000.0 * AllocatedTo(records, Consumption, ParticipantsOf(records)[j])
    requires quantity == 1000000.0 * Sum(PeriodParts(production, consumption, model, |ParticipantsOf(records)|, j))
    ensures FiguresOn(records, Consumption, model, production, consumption)[j]
            == Figures(ParticipantsOf(records)[j], RoundHalfUp(allotted) as real, RoundHalfEven(quantity) as real)
  {
    var ids := ParticipantsOf(records);
    AllottedAt(records, Consumption, j);
    ConsumerColumn(production, consumption, model, |ids|, ids, j);
    FigureAt(ids, EngineColumns.Scaled(ShareColumn(records, Consumption, AllocatedKwh)),
             EngineConsumers(production, consumption, model, ids), j, allotted, quantity);
  }

  lemma ProducerFigure(records: seq<SourceRecord>, model: Model, production: seq<seq<real>>, consumption: seq<seq<real>>,
                       j: nat, allotted: real, quantity: real)
    requires var n := |ParticipantsOf(records)|; Metering(production, consumption, n, n) && j < n
    requires allotted == 1000000.0 * AllocatedTo(records, Production, ParticipantsOf(records)[j])
    requires quantity == 1000000.0 * Sum(CreditParts(production, consumption, model, |ParticipantsOf(records)|, j))
    ensures FiguresOn(records, Production, model, production, consumption)[j]
            == Figures(ParticipantsOf(records)[j], RoundHalfUp(allotted) as real, RoundHalfEven(quantity) as real)
  {
    var ids := ParticipantsOf(records);
    AllottedAt(records, Production, j);
    ProducerColumn(production, consumption, model, |ids|, ids, j);
    FigureAt(ids, EngineColumns.Scaled(ShareColumn(records, Production, AllocatedKwh)),
             EngineProducers(production, consumption, model, ids), j, allotted, quantity);
  }

  // A confirmed draft reports of each participant exactly that entry.
  lemma ConfirmedEntry(c: Claim, e: Evidence, side: Direction, j: nat)
    requires Confirmed(c, e) && side in {Consumption, Production} && j < |ParticipantsOf(e.delivery.records)|
    ensures var f := IndependentFigures(e.delivery.records, side, c.model)[j];
            var r := if side == Consumption then c.consumption else c.production;
      Entry(f.participant, GapOf(f.vnb, f.engine)) in r.entries
  {
    var figures := IndependentFigures(e.delivery.records, side, c.model);
    var r := if side == Consumption then c.consumption else c.production;
    assert ReportOf(figures).entries[j] in EntriesOf(ReportOf(figures));
    assert ReportOf(figures).entries[j] in EntriesOf(r);
  }

  // Draft and delivery are of one community, one set of inputs and one window.
  lemma ConfirmedMeans(c: Claim, e: Evidence)
    requires Confirmed(c, e)
    ensures c.origin.community == e.community && c.origin.fingerprint == e.fingerprint && e.accepted
    ensures c.origin.start == e.delivery.start && c.origin.end == e.delivery.end && Usable(e.delivery.records)
  {
  }

  // Every meter of a usable delivery read a known direction and no negative energy.
  lemma UsableMeans(records: seq<SourceRecord>, d: Direction, k: nat, j: nat)
    requires Usable(records) && d in {Consumption, Production}
    requires k < |MomentsOf(records)| && j < |ParticipantsOf(records)|
    ensures MeteredAt(records, d, MomentsOf(records)[k], ParticipantsOf(records)[j]) >= 0.0
    ensures forall i :: 0 <= i < |records| ==> records[i].direction in {Consumption, Production}
  {
    FrameIsMetered(records, d, k, j);
    RowIsNonNegative(Frame(records, d, TotalKwh), k, j);
  }

  lemma RowIsNonNegative(rows: seq<seq<real>>, k: nat, j: nat)
    requires NonNegativeRows(rows) && k < |rows| && j < |rows[k]|
    ensures rows[k][j] >= 0.0
  {
  }
}
