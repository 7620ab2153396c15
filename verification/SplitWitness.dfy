/** What the equal-split certificate of a quarter hour says about the records
    delivered for it: their figures are the model's, rounded. */
module SplitWitness {
  import opened Numbers
  import opened Reconciliation
  import opened Allocation
  import opened SourceGroups
  import opened SourceCertificate
  import opened BilledSource
  import EinfachAudit

  // What the meters of the quarter hour's participants read in one direction.
  function MetersAt(records: seq<SourceRecord>, t: int, side: Direction): (r: seq<real>)
    ensures |r| == |ParticipantsOf(RecordsAt(records, t))|
  {
    var ids := ParticipantsOf(RecordsAt(records, t));
    seq(|ids|, j requires 0 <= j < |ids| => MeteredAt(records, side, t, ids[j]))
  }

  // The model's figure for each participant of one side.
  function ModelAt(records: seq<SourceRecord>, t: int, side: Direction): seq<real> {
    var prods, cons := MetersAt(records, t, Production), MetersAt(records, t, Consumption);
    var split := AllocateInterval(Sum(prods), cons, Einfach);
    if side == Production then Credits(prods, Sum(split)) else split
  }

  // The record's three figures round its reading into the model's part and the rest.
  predicate ReportsModel(r: SourceRecord, figure: real) {
    && figure >= 0.0 && r.total - figure >= 0.0
    && Reading(r.total) == r.total && Reading(figure) == r.community && Reading(r.total - figure) == r.grid
  }

  ghost predicate ModelHolds(records: seq<SourceRecord>, t: int) {
    var ids := ParticipantsOf(RecordsAt(records, t));
    forall r, j :: r in records && r.measuredAt == t && 0 <= j < |ids| && ids[j] == r.participant
                   && j < |ModelAt(records, t, r.direction)| ==>
      ReportsModel(r, ModelAt(records, t, r.direction)[j])
  }

  // ---------------------------------------------------------------------
  // The certificate's totals are the readings.

  lemma {:induction false} OnlyThoseAt(records: seq<SourceRecord>, side: Direction, t: int, id: int)
    ensures MeteredAt(RecordsAt(records, t), side, t, id) == MeteredAt(records, side, t, id)
  {
    if records != [] {
      var front, last := RecordsAt(records[..|records| - 1], t), records[|records| - 1];
      OnlyThoseAt(records[..|records| - 1], side, t, id);
      assert (front + [last])[..|front|] == front;
      assert front + [] == front;
    }
  }

  lemma {:induction false} NoneMetered(records: seq<SourceRecord>, side: Direction, t: int, id: int)
    requires forall i :: 0 <= i < |records| ==> records[i].participant != id || records[i].direction != side
    ensures MeteredAt(records, side, t, id) == 0.0
  {
    if records != [] {
      NoneMetered(records[..|records| - 1], side, t, id);
    }
  }

  ghost predicate NumbersSeries(records: seq<SourceRecord>, series: seq<EinfachAudit.Record>, ids: seq<int>) {
    && |series| == |records|
    && forall i :: 0 <= i < |records| ==>
         && records[i].direction != OtherDirection
         && series[i].participant < |ids| && ids[series[i].participant] == records[i].participant
         && series[i].producing == (records[i].direction == Production)
         && series[i].total == records[i].total && series[i].community == records[i].community
         && series[i].grid == records[i].grid
  }

  lemma {:induction false} TotalIsMetered(records: seq<SourceRecord>, series: seq<EinfachAudit.Record>, ids: seq<int>,
                                          t: int, side: Direction, j: nat)
    requires NumbersSeries(records, series, ids) && EinfachAudit.NoDuplicates(series)
    requires forall i :: 0 <= i < |records| ==> records[i].measuredAt == t
    requires forall k, l :: 0 <= k < l < |ids| ==> ids[k] != ids[l]
    requires j < |ids| && side != OtherDirection
    ensures EinfachAudit.SeriesTotal(series, j, side == Production) == MeteredAt(records, side, t, ids[j])
  {
    if records != [] {
      var n := |records| - 1;
      TotalIsMetered(records[..n], series[..n], ids, t, side, j);
      if series[n].participant == j && series[n].producing == (side == Production) {
        forall i | 0 <= i < n
          ensures records[i].participant != ids[j] || records[i].direction != side
        {
          assert !EinfachAudit.Identified(series[i], series[n]);
        }
        NoneMetered(records[..n], side, t, ids[j]);
      }
    }
  }

  // ---------------------------------------------------------------------
  // The witness, record by record.

  lemma SeriesNumbers(records: seq<SourceRecord>)
    requires forall i :: 0 <= i < |records| ==> records[i].direction != OtherDirection
    ensures NumbersSeries(records, SeriesOf(records), ParticipantsOf(records))
    ensures forall k, l :: 0 <= k < l < |ParticipantsOf(records)| ==> ParticipantsOf(records)[k] != ParticipantsOf(records)[l]
  {
  }

  lemma TotalsAreMeters(records: seq<SourceRecord>, t: int)
    requires forall r :: r in records ==> r.direction != OtherDirection
    requires EinfachAudit.NoDuplicates(SeriesOf(RecordsAt(records, t)))
    ensures var rs := RecordsAt(records, t);
      && EinfachAudit.Totals(SeriesOf(rs), |ParticipantsOf(rs)|, true) == MetersAt(records, t, Production)
      && EinfachAudit.Totals(SeriesOf(rs), |ParticipantsOf(rs)|, false) == MetersAt(records, t, Consumption)
  {
    var rs := RecordsAt(records, t);
    var series, ids := SeriesOf(rs), ParticipantsOf(rs);
    SeriesNumbers(rs);
    forall j | 0 <= j < |ids|
      ensures EinfachAudit.Totals(series, |ids|, true)[j] == MetersAt(records, t, Production)[j]
      ensures EinfachAudit.Totals(series, |ids|, false)[j] == MetersAt(records, t, Consumption)[j]
    {
      TotalIsMetered(rs, series, ids, t, Production, j);
      TotalIsMetered(rs, series, ids, t, Consumption, j);
      OnlyThoseAt(records, Production, t, ids[j]);
      OnlyThoseAt(records, Consumption, t, ids[j]);
    }
  }

  lemma CellReports(r: SourceRecord, row: EinfachAudit.Record, figure: real)
    requires row.total == r.total && row.community == r.community && row.grid == r.grid
    requires EinfachAudit.RowHolds(row, figure) && figure >= 0.0
    ensures ReportsModel(r, figure)
  {
    CellReads(r.total, r.total);
    CellReads(r.community, figure);
    CellReads(r.grid, r.total - figure);
  }

  lemma FigureIsModel(records: seq<SourceRecord>, t: int, series: seq<EinfachAudit.Record>, n: nat, row: EinfachAudit.Record)
    requires 0 < n && row.participant < n && EinfachAudit.ValidTotals(series)
    requires EinfachAudit.Totals(series, n, true) == MetersAt(records, t, Production)
    requires EinfachAudit.Totals(series, n, false) == MetersAt(records, t, Consumption)
    ensures var figures := ModelAt(records, t, if row.producing then Production else Consumption);
      |figures| == n && EinfachAudit.Modelled(series, n, row) == figures[row.participant] >= 0.0
  {
    EinfachAudit.ModelledIsBilled(series, n, row);
  }

  lemma RecordReports(records: seq<SourceRecord>, t: int, r: SourceRecord, series: seq<EinfachAudit.Record>, n: nat,
                      row: EinfachAudit.Record)
    requires 0 < n && row.participant < n && EinfachAudit.ValidTotals(series)
    requires EinfachAudit.Totals(series, n, true) == MetersAt(records, t, Production)
    requires EinfachAudit.Totals(series, n, false) == MetersAt(records, t, Consumption)
    requires row.total == r.total && row.community == r.community && row.grid == r.grid
    requires row.producing == (r.direction == Production) && r.direction != OtherDirection
    requires EinfachAudit.RowHolds(row, EinfachAudit.Modelled(series, n, row))
    ensures row.participant < |ModelAt(records, t, r.direction)|
    ensures ReportsModel(r, ModelAt(records, t, r.direction)[row.participant])
  {
    FigureIsModel(records, t, series, n, row);
    CellReports(r, row, EinfachAudit.Modelled(series, n, row));
  }

  // Behind the certificate of a quarter hour, every record holds the model's
  // part of its reading and the rest, each rounded half-up.
  lemma SplitMeans(d: Delivery, t: int)
    requires Accepted(d) && SplitHolds(RecordsAt(d.records, t))
    ensures ModelHolds(d.records, t)
  {
    var rs := RecordsAt(d.records, t);
    KnownDirections(d);
    SeriesNumbers(rs);
    TotalsAreMeters(d.records, t);
    forall r, j | r in d.records && r.measuredAt == t && 0 <= j < |ParticipantsOf(rs)| && ParticipantsOf(rs)[j] == r.participant
                  && j < |ModelAt(d.records, t, r.direction)|
      ensures ReportsModel(r, ModelAt(d.records, t, r.direction)[j])
    {
      var k := IndexAt(d.records, t, r);
      assert SeriesOf(rs)[k].participant == j;
      RecordReports(d.records, t, r, SeriesOf(rs), |ParticipantsOf(rs)|, SeriesOf(rs)[k]);
    }
  }

  lemma IndexAt(records: seq<SourceRecord>, t: int, r: SourceRecord) returns (k: nat)
    requires r in records && r.measuredAt == t
    ensures k < |RecordsAt(records, t)| && RecordsAt(records, t)[k] == r
  {
    var i :| 0 <= i < |records| && records[i] == r;
    RecordsAtKeeps(records, i);
    k :| 0 <= k < |RecordsAt(records, t)| && RecordsAt(records, t)[k] == r;
  }

  lemma KnownDirections(d: Delivery)
    requires Accepted(d)
    ensures forall r :: r in d.records ==> r.direction != OtherDirection
  {
    forall r | r in d.records
      ensures r.direction != OtherDirection
    {
      var i :| 0 <= i < |d.records| && d.records[i] == r;
      var k :| 0 <= k < |d.mappings| && Declares(d.mappings[k], IdentityOf(r));
      assert ValidMapping(d.mappings[k]);
    }
  }

  // ---------------------------------------------------------------------
  // And back: readings that hold the model's figures are certified.

  // No participant has two records of one direction in the quarter hour.
  ghost predicate OncePerSide(records: seq<SourceRecord>, t: int) {
    forall i, j :: 0 <= i < j < |records| && records[i].measuredAt == t && records[j].measuredAt == t ==>
      records[i].participant != records[j].participant || records[i].direction != records[j].direction
  }

  lemma {:induction false} BehindPair(records: seq<SourceRecord>, t: int, k: nat, l: nat) returns (i: nat, j: nat)
    requires k < l < |RecordsAt(records, t)|
    ensures i < j < |records| && records[i] == RecordsAt(records, t)[k] && records[j] == RecordsAt(records, t)[l]
  {
    var n := |records| - 1;
    var front := RecordsAt(records[..n], t);
    if l < |front| {
      i, j := BehindPair(records[..n], t, k, l);
    } else {
      j := n;
      assert front[k] in records[..n];
      i :| 0 <= i < n && records[..n][i] == front[k];
    }
  }

  lemma {:induction false} PairKept(records: seq<SourceRecord>, t: int, i: nat, j: nat) returns (k: nat, l: nat)
    requires i < j < |records| && records[i].measuredAt == t && records[j].measuredAt == t
    ensures k < l < |RecordsAt(records, t)| && RecordsAt(records, t)[k] == records[i] && RecordsAt(records, t)[l] == records[j]
  {
    var n := |records| - 1;
    var front := RecordsAt(records[..n], t);
    if j < n {
      k, l := PairKept(records[..n], t, i, j);
    } else {
      RecordsAtKeeps(records[..n], i);
      k :| 0 <= k < |front| && front[k] == records[i];
      l := |front|;
    }
  }

  lemma OnceIsDistinct(records: seq<SourceRecord>, t: int)
    requires forall r :: r in records ==> r.direction != OtherDirection
    ensures OncePerSide(records, t) <==> EinfachAudit.NoDuplicates(SeriesOf(RecordsAt(records, t)))
  {
    var rs := RecordsAt(records, t);
    var series, ids := SeriesOf(rs), ParticipantsOf(rs);
    SeriesNumbers(rs);
    if OncePerSide(records, t) {
      forall k, l | 0 <= k < l < |series|
        ensures !EinfachAudit.Identified(series[k], series[l])
      {
        var i, j := BehindPair(records, t, k, l);
      }
    }
    if EinfachAudit.NoDuplicates(series) {
      forall i, j | 0 <= i < j < |records| && records[i].measuredAt == t && records[j].measuredAt == t
        ensures records[i].participant != records[j].participant || records[i].direction != records[j].direction
      {
        var k, l := PairKept(records, t, i, j);
        assert !EinfachAudit.Identified(series[k], series[l]);
        assert ids[series[k].participant] == records[i].participant && ids[series[l].participant] == records[j].participant;
      }
    }
  }

  lemma ReportedHolds(r: SourceRecord, row: EinfachAudit.Record, figure: real)
    requires row.total == r.total && row.community == r.community && row.grid == r.grid
    requires ReportsModel(r, figure) && ChannelsOf(r).Some?
    ensures EinfachAudit.RowHolds(row, figure)
  {
    CellReads(r.total, r.total);
    CellReads(r.community, figure);
    CellReads(r.grid, r.total - figure);
  }

  lemma TotalsAreValid(d: Delivery, t: int)
    requires Accepted(d)
    ensures EinfachAudit.ValidTotals(SeriesOf(RecordsAt(d.records, t)))
    ensures forall r :: r in d.records ==> ChannelsOf(r).Some?
  {
    forall r | r in d.records
      ensures ChannelsOf(r).Some?
    {
      var i :| 0 <= i < |d.records| && d.records[i] == r;
    }
    KnownDirections(d);
    SeriesNumbers(RecordsAt(d.records, t));
  }

  // The certificate of a quarter hour exists exactly when no participant has two
  // records of one direction and every record holds the model's figures, rounded.
  lemma SplitExact(d: Delivery, t: int)
    requires Accepted(d) && Slot(d, t)
    ensures SplitHolds(RecordsAt(d.records, t)) <==> OncePerSide(d.records, t) && ModelHolds(d.records, t)
  {
    KnownDirections(d);
    OnceIsDistinct(d.records, t);
    if SplitHolds(RecordsAt(d.records, t)) {
      SplitMeans(d, t);
    }
    if OncePerSide(d.records, t) && ModelHolds(d.records, t) {
      ModelIsWitnessed(d, t);
    }
  }

  lemma ModelIsWitnessed(d: Delivery, t: int)
    requires Accepted(d) && Slot(d, t) && ModelHolds(d.records, t)
    requires EinfachAudit.NoDuplicates(SeriesOf(RecordsAt(d.records, t)))
    ensures SplitHolds(RecordsAt(d.records, t))
  {
    var rs := RecordsAt(d.records, t);
    var n := |ParticipantsOf(rs)|;
    SlotHasRecords(d, t);
    SomeParticipant(rs);
    KnownDirections(d);
    SeriesNumbers(rs);
    TotalsAreValid(d, t);
    TotalsAreMeters(d.records, t);
    forall k | 0 <= k < |rs|
      ensures EinfachAudit.RowHolds(SeriesOf(rs)[k], EinfachAudit.Modelled(SeriesOf(rs), n, SeriesOf(rs)[k]))
    {
      RowIsWitnessed(d.records, t, rs[k], SeriesOf(rs), n, SeriesOf(rs)[k]);
    }
  }

  lemma RowIsWitnessed(records: seq<SourceRecord>, t: int, r: SourceRecord, series: seq<EinfachAudit.Record>, n: nat,
                       row: EinfachAudit.Record)
    requires ModelHolds(records, t) && r in records && r.measuredAt == t && ChannelsOf(r).Some?
    requires n == |ParticipantsOf(RecordsAt(records, t))| && row.participant < n && EinfachAudit.ValidTotals(series)
    requires ParticipantsOf(RecordsAt(records, t))[row.participant] == r.participant
    requires EinfachAudit.Totals(series, n, true) == MetersAt(records, t, Production)
    requires EinfachAudit.Totals(series, n, false) == MetersAt(records, t, Consumption)
    requires row.total == r.total && row.community == r.community && row.grid == r.grid
    requires row.producing == (r.direction == Production) && r.direction != OtherDirection
    ensures EinfachAudit.RowHolds(row, EinfachAudit.Modelled(series, n, row))
  {
    FigureIsModel(records, t, series, n, row);
    assert ReportsModel(r, ModelAt(records, t, r.direction)[row.participant]);
    ReportedHolds(r, row, EinfachAudit.Modelled(series, n, row));
  }
}
