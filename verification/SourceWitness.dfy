/** What the verdict on a quarter hour says about the records delivered for it:
    unrounded energies behind their three figures, or none. */
module SourceWitness {
  import opened Numbers
  import opened Reconciliation
  import opened Search
  import opened SourceGroups
  import opened Audit

  // ---------------------------------------------------------------------
  // The claim, over the delivery's own fields.

  // Exact energies a meter reports as this record.
  ghost predicate ReportedAs(e: Exact, r: SourceRecord) {
    && e.total >= 0.0 && e.local >= 0.0 && e.residual >= 0.0 && e.total == e.local + e.residual
    && Reading(e.total) == r.total && Reading(e.local) == r.community && Reading(e.residual) == r.grid
  }

  function LocalSum(records: seq<SourceRecord>, es: seq<Exact>, t: int, side: Direction): real
    requires |es| == |records|
  {
    if records == [] then 0.0 else
      var n := |records| - 1;
      LocalSum(records[..n], es[..n], t, side)
      + if records[n].measuredAt == t && records[n].direction == side then es[n].local else 0.0
  }

  // A record of the fully used side leaves nothing over, one of the other side
  // keeps the common share.
  ghost predicate KeepsTo(e: Exact, full: bool, ratio: real) {
    if full then e.residual == 0.0 else e.local == ratio * e.total
  }

  // One exact energy per record of the quarter hour; what the consumers take
  // locally is what the producers give.
  ghost predicate ExplainsRecords(records: seq<SourceRecord>, es: seq<Exact>, t: int, full: Direction, ratio: real) {
    && |es| == |records|
    && (forall i :: 0 <= i < |records| && records[i].measuredAt == t ==>
          ReportedAs(es[i], records[i]) && KeepsTo(es[i], records[i].direction == full, ratio))
    && LocalSum(records, es, t, Consumption) == LocalSum(records, es, t, Production)
  }

  ghost predicate RecordsExplained(records: seq<SourceRecord>, t: int, full: Direction, ratio: real) {
    exists es :: ExplainsRecords(records, es, t, full, ratio)
  }

  // ---------------------------------------------------------------------
  // From records to the two sides of a group, and back.

  function SideOf(group: Group, side: Direction): seq<Channels> {
    if side == Consumption then group.consumption else group.production
  }

  // The energies of the records of one moment and direction.
  function Pick(records: seq<SourceRecord>, es: seq<Exact>, t: int, side: Direction): seq<Exact>
    requires |es| == |records|
  {
    if records == [] then [] else
      var n := |records| - 1;
      Pick(records[..n], es[..n], t, side)
      + if records[n].measuredAt == t && records[n].direction == side then [es[n]] else []
  }

  // Every record carries three accepted readings and a known direction.
  predicate Readable(records: seq<SourceRecord>) {
    forall i :: 0 <= i < |records| ==> ChannelsOf(records[i]).Some? && records[i].direction != OtherDirection
  }

  ghost predicate FitsAs(e: Exact, row: Channels, full: bool, ratio: real) {
    Fits(e, row) && KeepsTo(e, full, ratio)
  }

  ghost predicate AllFit(es: seq<Exact>, rows: seq<Channels>, full: bool, ratio: real) {
    |es| == |rows| && forall i :: 0 <= i < |rows| ==> FitsAs(es[i], rows[i], full, ratio)
  }

  ghost predicate AllReported(records: seq<SourceRecord>, es: seq<Exact>, t: int, side: Direction, full: bool, ratio: real)
    requires |es| == |records|
  {
    forall i :: 0 <= i < |records| && records[i].measuredAt == t && records[i].direction == side ==>
      ReportedAs(es[i], records[i]) && KeepsTo(es[i], full, ratio)
  }

  lemma ReportedFits(e: Exact, r: SourceRecord)
    requires ChannelsOf(r).Some?
    ensures Fits(e, ChannelsOf(r).value) <==> ReportedAs(e, r)
  {
    CellReads(r.total, e.total);
    CellReads(r.community, e.local);
    CellReads(r.grid, e.residual);
  }

  lemma FitsLast(es: seq<Exact>, rows: seq<Channels>, e: Exact, row: Channels, full: bool, ratio: real)
    requires |es| == |rows|
    ensures AllFit(es + [e], rows + [row], full, ratio) <==> AllFit(es, rows, full, ratio) && FitsAs(e, row, full, ratio)
  {
    var all, cells := es + [e], rows + [row];
    assert all[|es|] == e && cells[|rows|] == row;
    assert forall i :: 0 <= i < |es| ==> all[i] == es[i] && cells[i] == rows[i];
  }

  lemma ReportedLast(records: seq<SourceRecord>, es: seq<Exact>, t: int, side: Direction, full: bool, ratio: real)
    requires records != [] && |es| == |records|
    ensures var n := |records| - 1;
      AllReported(records, es, t, side, full, ratio) <==>
        && AllReported(records[..n], es[..n], t, side, full, ratio)
        && (records[n].measuredAt == t && records[n].direction == side ==>
              ReportedAs(es[n], records[n]) && KeepsTo(es[n], full, ratio))
  {
    var n := |records| - 1;
    assert forall i :: 0 <= i < n ==> records[..n][i] == records[i] && es[..n][i] == es[i];
  }

  lemma GroupLast(records: seq<SourceRecord>, t: int, side: Direction)
    requires records != [] && Readable(records) && side != OtherDirection
    ensures var n := |records| - 1;
      SideOf(GroupAt(records, t), side) == SideOf(GroupAt(records[..n], t), side)
        + if records[n].measuredAt == t && records[n].direction == side then [ChannelsOf(records[n]).value] else []
  {
    var n := |records| - 1;
    assert SideOf(GroupAt(records[..n], t), side) + [] == SideOf(GroupAt(records[..n], t), side);
  }

  // A side of the group holds the cells of its records, in their order.
  lemma {:induction false} PickFits(records: seq<SourceRecord>, es: seq<Exact>, t: int, side: Direction, full: bool, ratio: real)
    requires |es| == |records| && Readable(records) && side != OtherDirection
    ensures |Pick(records, es, t, side)| == |SideOf(GroupAt(records, t), side)|
    ensures AllFit(Pick(records, es, t, side), SideOf(GroupAt(records, t), side), full, ratio)
            <==> AllReported(records, es, t, side, full, ratio)
  {
    if records != [] {
      var n := |records| - 1;
      PickFits(records[..n], es[..n], t, side, full, ratio);
      ReportedLast(records, es, t, side, full, ratio);
      GroupLast(records, t, side);
      var picked, rows := Pick(records[..n], es[..n], t, side), SideOf(GroupAt(records[..n], t), side);
      if records[n].measuredAt == t && records[n].direction == side {
        ReportedFits(es[n], records[n]);
        FitsLast(picked, rows, es[n], ChannelsOf(records[n]).value, full, ratio);
      } else {
        assert picked + [] == picked && rows + [] == rows;
      }
    }
  }

  lemma LocalsLast(es: seq<Exact>, e: Exact)
    ensures Sum(Locals(es + [e])) == Sum(Locals(es)) + e.local
  {
    assert Locals(es + [e])[..|es|] == Locals(es);
  }

  lemma {:induction false} PickSums(records: seq<SourceRecord>, es: seq<Exact>, t: int, side: Direction)
    requires |es| == |records|
    ensures Sum(Locals(Pick(records, es, t, side))) == LocalSum(records, es, t, side)
  {
    if records != [] {
      var n := |records| - 1;
      PickSums(records[..n], es[..n], t, side);
      var picked := Pick(records[..n], es[..n], t, side);
      LocalsLast(picked, es[n]);
      assert picked + [] == picked;
    }
  }

  // What is left of the two sides before a record, and the energy it takes.
  datatype Draw = Draw(cs: seq<Exact>, ps: seq<Exact>, e: Exact)

  function DrawFor(last: SourceRecord, t: int, cs: seq<Exact>, ps: seq<Exact>): Draw {
    if last.measuredAt == t && last.direction == Consumption && cs != [] then
      Draw(cs[..|cs| - 1], ps, cs[|cs| - 1])
    else if last.measuredAt == t && last.direction == Production && ps != [] then
      Draw(cs, ps[..|ps| - 1], ps[|ps| - 1])
    else Draw(cs, ps, Exact(0.0, 0.0, 0.0))
  }

  // One energy per record from the energies of the two sides.
  function Weave(records: seq<SourceRecord>, t: int, cs: seq<Exact>, ps: seq<Exact>): (es: seq<Exact>)
    ensures |es| == |records|
  {
    if records == [] then [] else
      var draw := DrawFor(records[|records| - 1], t, cs, ps);
      Weave(records[..|records| - 1], t, draw.cs, draw.ps) + [draw.e]
  }

  lemma DrawnBack(last: SourceRecord, t: int, cs: seq<Exact>, ps: seq<Exact>)
    requires last.measuredAt == t && last.direction == Consumption ==> cs != []
    requires last.measuredAt == t && last.direction == Production ==> ps != []
    ensures var draw := DrawFor(last, t, cs, ps);
      && cs == draw.cs + (if last.measuredAt == t && last.direction == Consumption then [draw.e] else [])
      && ps == draw.ps + (if last.measuredAt == t && last.direction == Production then [draw.e] else [])
  {
  }

  lemma PickLast(records: seq<SourceRecord>, es: seq<Exact>, e: Exact, t: int, side: Direction)
    requires records != [] && |es| + 1 == |records|
    ensures var n := |records| - 1;
      Pick(records, es + [e], t, side) == Pick(records[..n], es, t, side)
        + if records[n].measuredAt == t && records[n].direction == side then [e] else []
  {
    assert (es + [e])[..|es|] == es;
  }

  function CountAt(records: seq<SourceRecord>, t: int, side: Direction): nat {
    if records == [] then 0 else
      var last := records[|records| - 1];
      CountAt(records[..|records| - 1], t, side) + if last.measuredAt == t && last.direction == side then 1 else 0
  }

  lemma {:induction false} CountIsSize(records: seq<SourceRecord>, t: int, side: Direction)
    requires Readable(records) && side != OtherDirection
    ensures |SideOf(GroupAt(records, t), side)| == CountAt(records, t, side)
  {
    if records != [] {
      CountIsSize(records[..|records| - 1], t, side);
      GroupLast(records, t, side);
    }
  }

  lemma {:induction false} PickWoven(records: seq<SourceRecord>, t: int, cs: seq<Exact>, ps: seq<Exact>)
    requires |cs| == CountAt(records, t, Consumption) && |ps| == CountAt(records, t, Production)
    ensures Pick(records, Weave(records, t, cs, ps), t, Consumption) == cs
    ensures Pick(records, Weave(records, t, cs, ps), t, Production) == ps
  {
    if records != [] {
      var n := |records| - 1;
      var draw := DrawFor(records[n], t, cs, ps);
      DrawnBack(records[n], t, cs, ps);
      PickWoven(records[..n], t, draw.cs, draw.ps);
      var es := Weave(records[..n], t, draw.cs, draw.ps);
      PickLast(records, es, draw.e, t, Consumption);
      PickLast(records, es, draw.e, t, Production);
    }
  }

  function Other(side: Direction): Direction {
    if side == Consumption then Production else Consumption
  }

  lemma SplitByDirection(records: seq<SourceRecord>, es: seq<Exact>, t: int, full: Direction, ratio: real)
    requires |es| == |records| && Readable(records) && full != OtherDirection
    ensures (forall i :: 0 <= i < |records| && records[i].measuredAt == t ==>
               ReportedAs(es[i], records[i]) && KeepsTo(es[i], records[i].direction == full, ratio))
            <==> AllReported(records, es, t, full, true, ratio) && AllReported(records, es, t, Other(full), false, ratio)
  {
    forall i | 0 <= i < |records|
      ensures records[i].direction == full || records[i].direction == Other(full)
    {
      assert ChannelsOf(records[i]).Some?;
    }
  }

  lemma AllocationFits(full: seq<Channels>, part: seq<Channels>, ratio: real, fs: seq<Exact>, ps: seq<Exact>)
    ensures IsAllocation(full, part, ratio, fs, ps) <==>
      AllFit(fs, full, true, ratio) && AllFit(ps, part, false, ratio) && Sum(Locals(fs)) == Sum(Locals(ps))
  {
  }

  // The records are explained exactly when the cells of their group are.
  lemma RecordsMean(records: seq<SourceRecord>, t: int, full: Direction, ratio: real)
    requires Readable(records) && full != OtherDirection
    ensures RecordsExplained(records, t, full, ratio)
            <==> Allocatable(SideOf(GroupAt(records, t), full), SideOf(GroupAt(records, t), Other(full)), ratio)
  {
    var rows, others := SideOf(GroupAt(records, t), full), SideOf(GroupAt(records, t), Other(full));
    if RecordsExplained(records, t, full, ratio) {
      var es :| ExplainsRecords(records, es, t, full, ratio);
      EnergiesFit(records, es, t, full, ratio);
      assert IsAllocation(rows, others, ratio, Pick(records, es, t, full), Pick(records, es, t, Other(full)));
    }
    if Allocatable(rows, others, ratio) {
      var fs, ps :| IsAllocation(rows, others, ratio, fs, ps);
      var es := if full == Consumption then Weave(records, t, fs, ps) else Weave(records, t, ps, fs);
      WovenPicks(records, t, full, fs, ps);
      EnergiesFit(records, es, t, full, ratio);
      assert ExplainsRecords(records, es, t, full, ratio);
    }
  }

  lemma WovenPicks(records: seq<SourceRecord>, t: int, full: Direction, fs: seq<Exact>, ps: seq<Exact>)
    requires Readable(records) && full != OtherDirection
    requires |fs| == |SideOf(GroupAt(records, t), full)| && |ps| == |SideOf(GroupAt(records, t), Other(full))|
    ensures var es := if full == Consumption then Weave(records, t, fs, ps) else Weave(records, t, ps, fs);
      Pick(records, es, t, full) == fs && Pick(records, es, t, Other(full)) == ps
  {
    CountIsSize(records, t, Consumption);
    CountIsSize(records, t, Production);
    if full == Consumption {
      PickWoven(records, t, fs, ps);
    } else {
      PickWoven(records, t, ps, fs);
    }
  }

  lemma EnergiesFit(records: seq<SourceRecord>, es: seq<Exact>, t: int, full: Direction, ratio: real)
    requires |es| == |records| && Readable(records) && full != OtherDirection
    ensures ExplainsRecords(records, es, t, full, ratio) <==>
      IsAllocation(SideOf(GroupAt(records, t), full), SideOf(GroupAt(records, t), Other(full)), ratio,
                   Pick(records, es, t, full), Pick(records, es, t, Other(full)))
  {
    var rows, others := SideOf(GroupAt(records, t), full), SideOf(GroupAt(records, t), Other(full));
    PickFits(records, es, t, full, true, ratio);
    PickFits(records, es, t, Other(full), false, ratio);
    PickSums(records, es, t, Consumption);
    PickSums(records, es, t, Production);
    SplitByDirection(records, es, t, full, ratio);
    AllocationFits(rows, others, ratio, Pick(records, es, t, full), Pick(records, es, t, Other(full)));
  }

  // ---------------------------------------------------------------------
  // The verdicts.

  lemma AcceptedIsReadable(d: Delivery)
    requires Accepted(d)
    ensures Readable(d.records)
  {
    forall i | 0 <= i < |d.records|
      ensures ChannelsOf(d.records[i]).Some? && d.records[i].direction != OtherDirection
    {
      var k :| 0 <= k < |d.mappings| && Declares(d.mappings[k], IdentityOf(d.records[i]));
      assert ValidMapping(d.mappings[k]);
    }
  }

  lemma ExplainsMeans(records: seq<SourceRecord>, t: int, ratio: real)
    requires Readable(records)
    ensures Explains(GroupAt(records, t), ProductionSide, ratio) <==> RecordsExplained(records, t, Production, ratio)
    ensures Explains(GroupAt(records, t), ConsumptionSide, ratio) <==> RecordsExplained(records, t, Consumption, ratio)
    ensures Explains(GroupAt(records, t), BothSides, ratio) <==> ratio == 1.0 && RecordsExplained(records, t, Production, 1.0)
  {
    RecordsMean(records, t, Production, ratio);
    RecordsMean(records, t, Consumption, ratio);
    RecordsMean(records, t, Production, 1.0);
  }

  // A certified quarter hour: behind its records there are exact energies, one
  // direction fully used, the other sharing at the certificate's ratio.
  lemma CertifiedRecords(d: Delivery, t: int)
    requires Accepted(d) && t in Verdicts(d) && Verdicts(d)[t].Certified?
    ensures var v := Verdicts(d)[t];
      && 0.0 <= v.ratio <= 1.0
      && RecordsExplained(d.records, t, if v.limiting == ConsumptionSide then Consumption else Production, v.ratio)
      && (v.limiting == BothSides ==> v.ratio == 1.0)
  {
    var v := Verdicts(d)[t];
    AcceptedIsReadable(d);
    WitnessIsSound(GroupAt(d.records, t));
    ExplainsMeans(d.records, t, v.ratio);
  }

  // A disagreement: there are none, whichever direction is fully used.
  lemma DisagreeingRecords(d: Delivery, t: int, full: Direction, ratio: real)
    requires Accepted(d) && t in Verdicts(d) && Verdicts(d)[t] == Disagreement
    requires full != OtherDirection && 0.0 <= ratio <= 1.0
    ensures !RecordsExplained(d.records, t, full, ratio)
  {
    AcceptedIsReadable(d);
    RefusalExact(GroupAt(d.records, t));
    ExplainsMeans(d.records, t, ratio);
    var side := if full == Consumption then ConsumptionSide else ProductionSide;
    assert !Explainable(GroupAt(d.records, t), side);
  }

  // An unresolved quarter hour has none at the ratios 0 and 1.
  lemma UnresolvedRecords(d: Delivery, t: int, full: Direction)
    requires Accepted(d) && t in Verdicts(d) && Verdicts(d)[t] == Unresolved && full != OtherDirection
    ensures !RecordsExplained(d.records, t, full, 0.0) && !RecordsExplained(d.records, t, full, 1.0)
  {
    AcceptedIsReadable(d);
    RefusalExact(GroupAt(d.records, t));
    ExplainsMeans(d.records, t, 0.0);
    ExplainsMeans(d.records, t, 1.0);
    var side := if full == Consumption then ConsumptionSide else ProductionSide;
    assert !Explains(GroupAt(d.records, t), side, 0.0) && !Explains(GroupAt(d.records, t), side, 1.0);
  }

  // ---------------------------------------------------------------------
  // An honest VNB.

  function TotalSum(records: seq<SourceRecord>, es: seq<Exact>, t: int, side: Direction): real
    requires |es| == |records|
  {
    if records == [] then 0.0 else
      var n := |records| - 1;
      TotalSum(records[..n], es[..n], t, side)
      + if records[n].measuredAt == t && records[n].direction == side then es[n].total else 0.0
  }

  // The share of its energy that a side trades locally: the smaller of the two
  // sides' energies over its own.
  function TradedShare(own: real, other: real): real {
    if own <= 0.0 then 0.0 else Min(own, other) / own
  }

  function ShareOn(side: Direction, consumed: real, produced: real): real {
    if side == Production then produced else consumed
  }

  // Every record of the quarter hour reports exact energies of which its side
  // trades one common share.
  ghost predicate TradesShares(records: seq<SourceRecord>, es: seq<Exact>, t: int, consumed: real, produced: real)
    requires |es| == |records|
  {
    forall i :: 0 <= i < |records| && records[i].measuredAt == t ==>
      ReportedAs(es[i], records[i]) && KeepsTo(es[i], false, ShareOn(records[i].direction, consumed, produced))
  }

  ghost predicate Honest(records: seq<SourceRecord>, es: seq<Exact>, t: int)
    requires |es| == |records|
  {
    var produced, consumed := TotalSum(records, es, t, Production), TotalSum(records, es, t, Consumption);
    TradesShares(records, es, t, TradedShare(consumed, produced), TradedShare(produced, consumed))
  }

  lemma {:induction false} TotalsAreSums(records: seq<SourceRecord>, es: seq<Exact>, t: int, side: Direction)
    requires |es| == |records|
    requires forall i :: 0 <= i < |records| && records[i].measuredAt == t ==> es[i].total >= 0.0
    ensures TotalSum(records, es, t, side) >= 0.0
    ensures TotalSum(records, es, t, side) == 0.0 ==>
      forall i :: 0 <= i < |records| && records[i].measuredAt == t && records[i].direction == side ==> es[i].total == 0.0
  {
    if records != [] {
      var n := |records| - 1;
      TotalsAreSums(records[..n], es[..n], t, side);
      forall i | 0 <= i < |records| && records[i].measuredAt == t && records[i].direction == side
        ensures TotalSum(records, es, t, side) == 0.0 ==> es[i].total == 0.0
      {
        if i < n {
          assert records[..n][i] == records[i] && es[..n][i] == es[i];
        }
      }
    }
  }

  // Locals in proportion to totals sum up in proportion.
  lemma {:induction false} LocalsAreShare(records: seq<SourceRecord>, es: seq<Exact>, t: int, side: Direction, share: real)
    requires |es| == |records| && SideTrades(records, es, t, side, share)
    ensures InProportion(LocalSum(records, es, t, side), share, TotalSum(records, es, t, side))
  {
    if records != [] {
      var n := |records| - 1;
      TradesBefore(records, es, t, side, share);
      LocalsAreShare(records[..n], es[..n], t, side, share);
      var counts := records[n].measuredAt == t && records[n].direction == side;
      ProportionAdds(LocalSum(records[..n], es[..n], t, side), share, TotalSum(records[..n], es[..n], t, side),
                     if counts then es[n].local else 0.0, if counts then es[n].total else 0.0);
    } else {
      NoProportion(share);
    }
  }

  predicate InProportion(x: real, share: real, whole: real) {
    x == share * whole
  }

  lemma NoProportion(share: real)
    ensures InProportion(0.0, share, 0.0)
  {
  }

  lemma ProportionAdds(x: real, share: real, whole: real, y: real, part: real)
    requires InProportion(x, share, whole) && InProportion(y, share, part)
    ensures InProportion(x + y, share, whole + part)
  {
    ShareAdds(share, whole, part);
  }

  ghost predicate SideTrades(records: seq<SourceRecord>, es: seq<Exact>, t: int, side: Direction, share: real)
    requires |es| == |records|
  {
    forall i :: 0 <= i < |records| ==>
      var counts := records[i].measuredAt == t && records[i].direction == side;
      InProportion(if counts then es[i].local else 0.0, share, if counts then es[i].total else 0.0)
  }

  lemma TradesBefore(records: seq<SourceRecord>, es: seq<Exact>, t: int, side: Direction, share: real)
    requires records != [] && |es| == |records| && SideTrades(records, es, t, side, share)
    ensures var n := |records| - 1;
            var counts := records[n].measuredAt == t && records[n].direction == side;
      && SideTrades(records[..n], es[..n], t, side, share)
      && InProportion(if counts then es[n].local else 0.0, share, if counts then es[n].total else 0.0)
  {
    var n := |records| - 1;
    assert forall i :: 0 <= i < n ==> records[..n][i] == records[i] && es[..n][i] == es[i];
  }

  lemma SharesTradeOnSide(records: seq<SourceRecord>, es: seq<Exact>, t: int, side: Direction, consumed: real, produced: real)
    requires |es| == |records| && TradesShares(records, es, t, consumed, produced)
    ensures SideTrades(records, es, t, side, ShareOn(side, consumed, produced))
  {
    forall i | 0 <= i < |records|
      ensures var counts := records[i].measuredAt == t && records[i].direction == side;
        InProportion(if counts then es[i].local else 0.0, ShareOn(side, consumed, produced), if counts then es[i].total else 0.0)
    {
    }
  }

  lemma ShareAdds(share: real, x: real, y: real)
    ensures share * (x + y) == share * x + share * y
  {
  }

  lemma Traded(own: real, other: real, share: real)
    requires own >= 0.0 && other >= 0.0 && share == TradedShare(own, other)
    ensures share * own == Min(own, other) && 0.0 <= share <= 1.0
    ensures 0.0 < own <= other ==> share == 1.0
  {
    if own > 0.0 {
      var traded := Min(own, other);
      assert traded / own * own == traded;
    }
  }

  lemma RecordKeeps(e: Exact, r: SourceRecord, full: bool, share: real, ratio: real)
    requires ReportedAs(e, r) && KeepsTo(e, false, share)
    requires if full then share == 1.0 || e.total == 0.0 else ratio == share
    ensures KeepsTo(e, full, ratio)
  {
  }

  lemma SharesExplain(records: seq<SourceRecord>, es: seq<Exact>, t: int, full: Direction, consumed: real, produced: real)
    requires |es| == |records| && Readable(records) && TradesShares(records, es, t, consumed, produced)
    requires full in {Consumption, Production}
    requires ShareOn(full, consumed, produced) == 1.0
      || forall i :: 0 <= i < |records| && records[i].measuredAt == t && records[i].direction == full ==> es[i].total == 0.0
    requires LocalSum(records, es, t, Consumption) == LocalSum(records, es, t, Production)
    ensures RecordsExplained(records, t, full, ShareOn(Other(full), consumed, produced))
  {
    var ratio := ShareOn(Other(full), consumed, produced);
    forall i | 0 <= i < |records| && records[i].measuredAt == t
      ensures ReportedAs(es[i], records[i]) && KeepsTo(es[i], records[i].direction == full, ratio)
    {
      assert records[i].direction != OtherDirection;
      RecordKeeps(es[i], records[i], records[i].direction == full, ShareOn(records[i].direction, consumed, produced), ratio);
    }
    assert ExplainsRecords(records, es, t, full, ratio);
  }

  lemma HonestSums(localC: real, localP: real, c: real, p: real, consumed: real, produced: real)
    requires c >= 0.0 && p >= 0.0 && consumed == TradedShare(c, p) && produced == TradedShare(p, c)
    requires InProportion(localC, consumed, c) && InProportion(localP, produced, p)
    ensures localC == localP && 0.0 <= consumed <= 1.0 && 0.0 <= produced <= 1.0
  {
    Traded(p, c, produced);
    Traded(c, p, consumed);
  }

  // The side with less energy is fully used.
  lemma SmallerIsFull(records: seq<SourceRecord>, es: seq<Exact>, t: int, side: Direction, share: real)
    requires |es| == |records| && side in {Consumption, Production}
    requires forall i :: 0 <= i < |records| && records[i].measuredAt == t ==> es[i].total >= 0.0
    requires TotalSum(records, es, t, side) <= TotalSum(records, es, t, Other(side))
    requires share == TradedShare(TotalSum(records, es, t, side), TotalSum(records, es, t, Other(side)))
    ensures share == 1.0
      || forall i :: 0 <= i < |records| && records[i].measuredAt == t && records[i].direction == side ==> es[i].total == 0.0
  {
    TotalsAreSums(records, es, t, side);
    Traded(TotalSum(records, es, t, side), TotalSum(records, es, t, Other(side)), share);
  }

  lemma HonestIsExplained(records: seq<SourceRecord>, es: seq<Exact>, t: int) returns (full: Direction, ratio: real)
    requires |es| == |records| && Readable(records) && Honest(records, es, t)
    ensures full in {Consumption, Production} && 0.0 <= ratio <= 1.0 && RecordsExplained(records, t, full, ratio)
  {
    var p, c := TotalSum(records, es, t, Production), TotalSum(records, es, t, Consumption);
    var consumed, produced := TradedShare(c, p), TradedShare(p, c);
    full := if p <= c then Production else Consumption;
    ratio := ShareOn(Other(full), consumed, produced);
    TotalsAreSums(records, es, t, Production);
    TotalsAreSums(records, es, t, Consumption);
    SharesTradeOnSide(records, es, t, Consumption, consumed, produced);
    SharesTradeOnSide(records, es, t, Production, consumed, produced);
    LocalsAreShare(records, es, t, Consumption, consumed);
    LocalsAreShare(records, es, t, Production, produced);
    HonestSums(LocalSum(records, es, t, Consumption), LocalSum(records, es, t, Production), c, p, consumed, produced);
    SmallerIsFull(records, es, t, full, ShareOn(full, consumed, produced));
    SharesExplain(records, es, t, full, consumed, produced);
  }

  // Rounding alone never makes a disagreement.
  lemma HonestRecords(d: Delivery, es: seq<Exact>, t: int)
    requires Accepted(d) && t in Verdicts(d) && |es| == |d.records| && Honest(d.records, es, t)
    ensures Verdicts(d)[t] != Disagreement
  {
    AcceptedIsReadable(d);
    var full, ratio := HonestIsExplained(d.records, es, t);
    NotDisagreeing(d, t, full, ratio);
  }

  lemma NotDisagreeing(d: Delivery, t: int, full: Direction, ratio: real)
    requires Accepted(d) && t in Verdicts(d) && full in {Consumption, Production} && 0.0 <= ratio <= 1.0
    requires RecordsExplained(d.records, t, full, ratio)
    ensures Verdicts(d)[t] != Disagreement
  {
    if Verdicts(d)[t] == Disagreement {
      DisagreeingRecords(d, t, full, ratio);
    }
  }
}
