/** From the rows of a period to an approved draft: the VNB's split of the
    loaded rows is billed, and nothing is refused on the way. */
module LoadedDraft {
  import opened Numbers
  import opened LineItems
  import opened Approval
  import opened Invoices
  import opened Readings
  import opened Frames
  import opened VnbReconciliation
  import opened Proration
  import opened DraftApproval
  import opened BilledSource
  import opened Loading
  import LedgerApproval
  import EngineColumns
  import MemberBill

  // One column per participant, at the figure the VNB gave it.
  function LoadedColumns(participants: seq<int>, billed: map<Loading.Column, real>, side: Readings.Direction): (r: seq<Billed>)
    requires Known(side) && billed.Keys == Columns(participants)
    ensures |r| == |participants|
  {
    EngineColumns.BilledColumns(participants, ColumnValues(billed, side, participants))
  }

  ghost predicate WholeRows(rows: seq<Row>) {
    forall i :: 0 <= i < |rows| ==> Whole(Frames.AmountOf(rows[i], Community))
  }

  lemma {:induction false} SliceIsNonNegative(rows: seq<Row>, mapping: map<int, int>, s: Slice)
    requires forall i :: 0 <= i < |rows| ==> Plausible(rows[i].community)
    ensures SliceSum(rows, mapping, s, Community) >= 0.0
  {
    if rows != [] {
      SliceIsNonNegative(rows[..|rows| - 1], mapping, s);
    }
  }

  lemma BilledNonNegative(l: Loaded, rows: seq<Row>, mapping: map<int, int>, billed: map<Loading.Column, real>)
    requires Aggregates(l, rows, mapping) && BilledVerbatim(billed, l.vnb)
    requires forall i :: 0 <= i < |rows| ==> Plausible(rows[i].community)
    ensures forall c :: c in billed ==> billed[c] >= 0.0 && Whole(billed[c])
  {
    forall c | c in billed
      ensures billed[c] >= 0.0 && Whole(billed[c])
    {
      SliceIsNonNegative(rows, mapping, ColumnSlice(c));
      WholeInt(RoundHalfUp(l.vnb[c]));
    }
  }

  lemma ColumnsAreBillable(participants: seq<int>, billed: map<Loading.Column, real>, side: Readings.Direction)
    requires Known(side) && billed.Keys == Columns(participants) && Increasing(participants)
    requires forall c :: c in billed ==> billed[c] >= 0.0 && Whole(billed[c])
    ensures var columns := LoadedColumns(participants, billed, side);
      && LedgerApproval.Distinct(columns) && LedgerApproval.NonNegative(columns) && WholeQuantities(columns)
      && LedgerApproval.Raw(columns) == Sum(ColumnValues(billed, side, participants))
  {
    EngineColumns.RawIsSum(participants, ColumnValues(billed, side, participants));
    forall k | 0 <= k < |participants|
      ensures LoadedColumns(participants, billed, side)[k].quantity >= 0.0
      ensures Whole(LoadedColumns(participants, billed, side)[k].quantity)
    {
      assert Loading.Column(side, participants[k]) in billed;
    }
  }

  // Complete rows of at most six decimals, in balance, make columns a run can bill.
  lemma LoadedIsBilling(points: seq<Point>, l: Loaded, rows: seq<Row>, billed: map<Loading.Column, real>)
    requires Complete(points, rows, l.grid) && rows != [] && WholeRows(rows) && VnbBalances(rows, MappingOf(points))
    requires Aggregates(l, rows, MappingOf(points)) && BilledVerbatim(billed, l.vnb) && Increasing(l.participants)
    requires forall p :: p in MappingOf(points) ==> MappingOf(points)[p] in l.participants
    ensures Billing(LoadedColumns(l.participants, billed, Readings.Consumption),
                    LoadedColumns(l.participants, billed, Readings.Production))
  {
    var mapping := MappingOf(points);
    forall i | 0 <= i < |rows|
      ensures Plausible(rows[i].community) && rows[i].point in mapping
    {
      assert Clean(rows[i], mapping, DeclarationsOf(points), l.grid);
    }
    assert mapping[rows[0].point] in l.participants;
    BilledSidesBalance(l, rows, mapping, billed);
    BilledNonNegative(l, rows, mapping, billed);
    ColumnsAreBillable(l.participants, billed, Readings.Consumption);
    ColumnsAreBillable(l.participants, billed, Readings.Production);
  }

  // The figures of a run that bills the VNB's split and reports what it bills.
  function AsBilled(billed: seq<Billed>): (r: seq<Figures>)
    ensures |r| == |billed|
  {
    seq(|billed|, i requires 0 <= i < |billed| => Figures(billed[i].participant, billed[i].quantity, billed[i].quantity))
  }

  ghost predicate DraftsColumns(d: Draft, consumers: seq<Billed>, producers: seq<Billed>) {
    && ValidPolicy(d.policy) && d.battery == None && d.certificate.None?
    && ValidWindow(d) && Earlier(d.start, d.end)
    && d.items == Ledger(consumers, producers, PricesOf(d.policy).internal, PricesOf(d.policy).settlement)
    && d.consumption == ReportOf(AsBilled(consumers)) && d.production == ReportOf(AsBilled(producers))
  }

  // A run that reports what it bills makes a draft that stands.
  lemma BilledStands(d: Draft, consumers: seq<Billed>, producers: seq<Billed>)
    requires Billing(consumers, producers) && DraftsColumns(d, consumers, producers)
    ensures SelfApproved(d)
  {
    PlainStands(consumers, producers, AsBilled(consumers), AsBilled(producers), d);
  }

  // From rows to approval: the draft of a loaded period in balance stands, and
  // is approved iff an accepted E66 delivery, if there is one, confirms it.
  lemma LoadedDraftIsApproved(points: seq<Point>, l: Loaded, rows: seq<Row>, billed: map<Loading.Column, real>,
                              d: Draft, e: Option<Evidence>)
    requires Complete(points, rows, l.grid) && rows != [] && WholeRows(rows) && VnbBalances(rows, MappingOf(points))
    requires Aggregates(l, rows, MappingOf(points)) && BilledVerbatim(billed, l.vnb) && Increasing(l.participants)
    requires forall p :: p in MappingOf(points) ==> MappingOf(points)[p] in l.participants
    requires DraftsColumns(d, LoadedColumns(l.participants, billed, Readings.Consumption),
                           LoadedColumns(l.participants, billed, Readings.Production))
    ensures Approved(d, e) <==> SourceApproved(d, e)
    ensures e.None? || !e.value.e66 ==> Approved(d, e)
  {
    LoadedIsBilling(points, l, rows, billed);
    BilledStands(d, LoadedColumns(l.participants, billed, Readings.Consumption),
                 LoadedColumns(l.participants, billed, Readings.Production));
  }

  // Loads a period and bills the VNB's split of it.
  method BillPeriod(points: seq<Point>, unassigned: seq<int>, rows: seq<Row>, start: int, end: int)
    returns (r: Option<(seq<Billed>, seq<Billed>)>)
    ensures r.Some? <==>
      && start < end && unassigned == [] && rows != []
      && Complete(points, rows, Grid(start, end)) && VnbBalances(rows, MappingOf(points))
    ensures r.Some? && WholeRows(rows) ==> Billing(r.value.0, r.value.1)
  {
    var loaded, billed := LoadPeriodFrames(points, unassigned, rows, start, end, false);
    if loaded.None? {
      return None;
    }
    var l := loaded.value;
    if WholeRows(rows) {
      LoadedIsBilling(points, l, rows, billed);
    }
    r := Some((LoadedColumns(l.participants, billed, Readings.Consumption),
               LoadedColumns(l.participants, billed, Readings.Production)));
  }

  // A run on loaded rows charges each participant what its rows allotted to it,
  // at six decimals, and credits it the same way.
  lemma LoadedCharges(l: Loaded, rows: seq<Row>, mapping: map<int, int>, billed: map<Loading.Column, real>, d: Draft, k: nat)
    requires Aggregates(l, rows, mapping) && BilledVerbatim(billed, l.vnb) && k < |l.participants|
    requires DraftsColumns(d, LoadedColumns(l.participants, billed, Readings.Consumption),
                           LoadedColumns(l.participants, billed, Readings.Production))
    ensures var id := l.participants[k];
      && MemberBill.ChargesQuantity(d.items, id, RoundHalfUp(Allotted(rows, mapping, Readings.Consumption, id)) as real,
                                    PricesOf(d.policy).internal, PricesOf(d.policy).settlement)
      && MemberBill.CreditsQuantity(d.items, id, RoundHalfUp(Allotted(rows, mapping, Readings.Production, id)) as real,
                                    PricesOf(d.policy).internal)
  {
    var prices := PricesOf(d.policy);
    var consumers := LoadedColumns(l.participants, billed, Readings.Consumption);
    var producers := LoadedColumns(l.participants, billed, Readings.Production);
    LoadedColumnIs(l, rows, mapping, billed, Readings.Consumption, k);
    LoadedColumnIs(l, rows, mapping, billed, Readings.Production, k);
    MemberBill.ColumnIsCharged(consumers, producers, prices.internal, prices.settlement, k);
    MemberBill.ColumnIsCredited(consumers, producers, prices.internal, prices.settlement, k);
  }

  lemma LoadedColumnIs(l: Loaded, rows: seq<Row>, mapping: map<int, int>, billed: map<Loading.Column, real>,
                       side: Readings.Direction, k: nat)
    requires Aggregates(l, rows, mapping) && BilledVerbatim(billed, l.vnb) && k < |l.participants| && Known(side)
    ensures var column := LoadedColumns(l.participants, billed, side)[k];
      && column == Billed(l.participants[k], RoundHalfUp(Allotted(rows, mapping, side, l.participants[k])) as real)
      && RoundHalfEven(column.quantity) as real == column.quantity
  {
    var c := Loading.Column(side, l.participants[k]);
    assert c in l.vnb;
    ColumnIsAllotted(rows, mapping, c);
    RoundWhole(RoundHalfUp(l.vnb[c]));
  }
}
