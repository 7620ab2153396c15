/** The report of a run against the VNB's split, and the approval of the frozen
    report. One side is the consumption or the production of a draft. Energy is
    in millionths of a kWh. */
module VnbReconciliation {
  import opened Numbers
  import opened LineItems
  import opened Approval
  import LedgerApproval

  datatype Gap = Gap(vnb: real, engine: real, difference: real)

  datatype Entry = Entry(participant: int, gap: Gap)

  datatype Report = Report(total: Gap, entries: seq<Entry>)

  // What the VNB reported and what the engine priced for each participant.
  datatype Figures = Figures(participant: int, vnb: real, engine: real)

  // ---------------------------------------------------------------------
  // The run's report.

  function GapOf(vnb: real, engine: real): Gap {
    Gap(RoundHalfEven(vnb) as real, RoundHalfEven(engine) as real, RoundHalfEven(engine - vnb) as real)
  }

  function VnbColumn(side: seq<Figures>): (r: seq<real>)
    ensures |r| == |side|
  {
    seq(|side|, i requires 0 <= i < |side| => side[i].vnb)
  }

  function EngineColumn(side: seq<Figures>): (r: seq<real>)
    ensures |r| == |side|
  {
    seq(|side|, i requires 0 <= i < |side| => side[i].engine)
  }

  function ReportOf(side: seq<Figures>): Report {
    Report(GapOf(Sum(VnbColumn(side)), Sum(EngineColumn(side))),
           seq(|side|, i requires 0 <= i < |side| => Entry(side[i].participant, GapOf(side[i].vnb, side[i].engine))))
  }

  method ReconcileWithVnb(side: seq<Figures>) returns (r: Report)
    ensures r == ReportOf(side)
  {
    var vnb, engine, entries := 0.0, 0.0, [];
    for i := 0 to |side|
      invariant vnb == Sum(VnbColumn(side)[..i]) && engine == Sum(EngineColumn(side)[..i])
      invariant |entries| == i
      invariant forall k :: 0 <= k < i ==> entries[k] == Entry(side[k].participant, GapOf(side[k].vnb, side[k].engine))
    {
      assert VnbColumn(side)[..i + 1][..i] == VnbColumn(side)[..i];
      assert EngineColumn(side)[..i + 1][..i] == EngineColumn(side)[..i];
      vnb, engine := vnb + side[i].vnb, engine + side[i].engine;
      entries := entries + [Entry(side[i].participant, GapOf(side[i].vnb, side[i].engine))];
    }
    assert VnbColumn(side)[..|side|] == VnbColumn(side) && EngineColumn(side)[..|side|] == EngineColumn(side);
    r := Report(GapOf(vnb, engine), entries);
  }

  // ---------------------------------------------------------------------
  // Approval of the frozen report.

  // A draft priced from the source bills the VNB figure, any other the
  // engine's, and only the former may show a gap.
  function Billable(g: Gap, vnbBasis: bool): real {
    if vnbBasis then g.vnb else g.engine
  }

  predicate Truthful(g: Gap, vnbBasis: bool) {
    g.difference == RoundHalfUp(g.engine - g.vnb) as real && (vnbBasis || g.difference == 0.0)
  }

  predicate HasLine(lines: seq<Billed>, participant: int, quantity: real) {
    exists i :: 0 <= i < |lines| && lines[i] == Billed(participant, quantity)
  }

  function LineIds(lines: seq<Billed>): set<int> {
    set i | 0 <= i < |lines| :: lines[i].participant
  }

  function EntryIds(entries: seq<Entry>): set<int> {
    set i | 0 <= i < |entries| :: entries[i].participant
  }

  function Quantities(lines: seq<Billed>): (r: seq<real>)
    ensures |r| == |lines|
  {
    seq(|lines|, i requires 0 <= i < |lines| => lines[i].quantity)
  }

  predicate EntryAgrees(e: Entry, lines: seq<Billed>, vnbBasis: bool) {
    Truthful(e.gap, vnbBasis) && HasLine(lines, e.participant, Billable(e.gap, vnbBasis))
  }

  // The lines are a dictionary: one line per participant.
  predicate Canonical(r: Report, lines: seq<Billed>, vnbBasis: bool) {
    && Truthful(r.total, vnbBasis)
    && EntryIds(r.entries) == LineIds(lines)
    && (forall k :: 0 <= k < |r.entries| ==> EntryAgrees(r.entries[k], lines, vnbBasis))
    && Billable(r.total, vnbBasis) == Sum(Quantities(lines))
  }

  method RequireCanonical(r: Report, lines: seq<Billed>, vnbBasis: bool) returns (ok: bool)
    ensures ok <==> Canonical(r, lines, vnbBasis)
  {
    if !Truthful(r.total, vnbBasis) || EntryIds(r.entries) != LineIds(lines) {
      return false;
    }
    for k := 0 to |r.entries|
      invariant forall l :: 0 <= l < k ==> EntryAgrees(r.entries[l], lines, vnbBasis)
    {
      if !EntryAgrees(r.entries[k], lines, vnbBasis) {
        return false;
      }
    }
    var total := 0.0;
    for i := 0 to |lines|
      invariant total == Sum(Quantities(lines)[..i])
    {
      assert Quantities(lines)[..i + 1][..i] == Quantities(lines)[..i];
      total := total + lines[i].quantity;
    }
    assert Quantities(lines)[..|lines|] == Quantities(lines);
    ok := Billable(r.total, vnbBasis) == total;
  }

  // ---------------------------------------------------------------------
  // What a run reports, approval accepts iff the draft bills it.

  predicate WholeFigures(side: seq<Figures>) {
    forall i :: 0 <= i < |side| ==> Whole(side[i].vnb) && Whole(side[i].engine)
  }

  predicate BilledFigure(f: Figures, line: Billed, vnbBasis: bool) {
    line.quantity == f.vnb && (vnbBasis || f.engine == f.vnb)
  }

  // Each participant is billed the VNB's figure; without the source basis the
  // engine priced that figure too.
  predicate BilledAsReported(side: seq<Figures>, lines: seq<Billed>, vnbBasis: bool)
    requires |side| == |lines|
  {
    forall i :: 0 <= i < |side| ==> BilledFigure(side[i], lines[i], vnbBasis)
  }

  lemma WholeGap(vnb: real, engine: real, vnbBasis: bool)
    requires Whole(vnb) && Whole(engine)
    ensures GapOf(vnb, engine) == Gap(vnb, engine, engine - vnb)
    ensures Truthful(GapOf(vnb, engine), vnbBasis) <==> vnbBasis || engine == vnb
  {
    RoundWhole(vnb.Floor);
    RoundWhole(engine.Floor);
    assert engine - vnb == (engine.Floor - vnb.Floor) as real;
    RoundWhole(engine.Floor - vnb.Floor);
  }

  lemma EntryAccepted(side: seq<Figures>, lines: seq<Billed>, vnbBasis: bool, i: nat)
    requires |side| == |lines| && i < |side| && WholeFigures(side) && LedgerApproval.Distinct(lines)
    requires lines[i].participant == side[i].participant
    ensures EntryAgrees(ReportOf(side).entries[i], lines, vnbBasis)
            <==> BilledFigure(side[i], lines[i], vnbBasis)
  {
    WholeGap(side[i].vnb, side[i].engine, vnbBasis);
    var quantity := Billable(GapOf(side[i].vnb, side[i].engine), vnbBasis);
    if HasLine(lines, side[i].participant, quantity) {
      var k :| 0 <= k < |lines| && lines[k] == Billed(side[i].participant, quantity);
      assert k == i;
    }
    if lines[i].quantity == quantity {
      assert lines[i] == Billed(side[i].participant, quantity);
    }
  }

  lemma TotalAccepted(side: seq<Figures>, lines: seq<Billed>, vnbBasis: bool)
    requires |side| == |lines| && WholeFigures(side) && BilledAsReported(side, lines, vnbBasis)
    ensures Truthful(ReportOf(side).total, vnbBasis) && Billable(ReportOf(side).total, vnbBasis) == Sum(Quantities(lines))
  {
    WholeSum(VnbColumn(side));
    WholeSum(EngineColumn(side));
    WholeGap(Sum(VnbColumn(side)), Sum(EngineColumn(side)), vnbBasis);
    assert Quantities(lines) == VnbColumn(side);
    if !vnbBasis {
      assert EngineColumn(side) == VnbColumn(side);
    }
  }

  lemma SameIds(entries: seq<Entry>, lines: seq<Billed>)
    requires |entries| == |lines|
    requires forall i :: 0 <= i < |entries| ==> entries[i].participant == lines[i].participant
    ensures EntryIds(entries) == LineIds(lines)
  {
    forall id
      ensures id in EntryIds(entries) <==> id in LineIds(lines)
    {
      if id in LineIds(lines) {
        var i :| 0 <= i < |lines| && lines[i].participant == id;
        assert entries[i].participant == id;
      }
      if id in EntryIds(entries) {
        var i :| 0 <= i < |entries| && entries[i].participant == id;
        assert lines[i].participant == id;
      }
    }
  }

  lemma EntriesAccepted(side: seq<Figures>, lines: seq<Billed>, vnbBasis: bool)
    requires |side| == |lines| && WholeFigures(side) && LedgerApproval.Distinct(lines)
    requires forall i :: 0 <= i < |side| ==> lines[i].participant == side[i].participant
    ensures (forall i :: 0 <= i < |side| ==> EntryAgrees(ReportOf(side).entries[i], lines, vnbBasis))
            <==> BilledAsReported(side, lines, vnbBasis)
  {
    forall i | 0 <= i < |side|
      ensures EntryAgrees(ReportOf(side).entries[i], lines, vnbBasis) <==> BilledFigure(side[i], lines[i], vnbBasis)
    {
      EntryAccepted(side, lines, vnbBasis, i);
    }
  }

  lemma ReportAccepted(side: seq<Figures>, lines: seq<Billed>, vnbBasis: bool)
    requires |side| == |lines| && WholeFigures(side) && LedgerApproval.Distinct(lines)
    requires forall i :: 0 <= i < |side| ==> lines[i].participant == side[i].participant
    ensures Canonical(ReportOf(side), lines, vnbBasis) <==> BilledAsReported(side, lines, vnbBasis)
  {
    SameIds(ReportOf(side).entries, lines);
    EntriesAccepted(side, lines, vnbBasis);
    if BilledAsReported(side, lines, vnbBasis) {
      TotalAccepted(side, lines, vnbBasis);
    }
  }

  // ---------------------------------------------------------------------
  // What an accepted report says, in figures.

  // Every billed participant has an entry with the figure it is billed, the
  // VNB's under a certificate, else the engine's; the gap is theirs to six
  // decimals, and without a certificate there is none.
  lemma CanonicalMeans(r: Report, lines: seq<Billed>, vnbBasis: bool, i: nat)
    requires Canonical(r, lines, vnbBasis) && i < |lines|
    ensures exists k :: 0 <= k < |r.entries| && r.entries[k].participant == lines[i].participant
    ensures forall k :: 0 <= k < |r.entries| ==>
      var e := r.entries[k];
      && (exists l :: 0 <= l < |lines| && lines[l].participant == e.participant
                      && lines[l].quantity == if vnbBasis then e.gap.vnb else e.gap.engine)
      && e.gap.difference == RoundHalfUp(e.gap.engine - e.gap.vnb) as real && (!vnbBasis ==> e.gap.difference == 0.0)
    ensures (if vnbBasis then r.total.vnb else r.total.engine) == Sum(Quantities(lines))
    ensures r.total.difference == RoundHalfUp(r.total.engine - r.total.vnb) as real && (!vnbBasis ==> r.total.difference == 0.0)
  {
    assert lines[i].participant in LineIds(lines);
    assert lines[i].participant in EntryIds(r.entries);
    forall k | 0 <= k < |r.entries|
      ensures var e := r.entries[k];
        && (exists l :: 0 <= l < |lines| && lines[l].participant == e.participant
                        && lines[l].quantity == if vnbBasis then e.gap.vnb else e.gap.engine)
        && e.gap.difference == RoundHalfUp(e.gap.engine - e.gap.vnb) as real && (!vnbBasis ==> e.gap.difference == 0.0)
    {
      var e := r.entries[k];
      assert EntryAgrees(e, lines, vnbBasis);
      var l :| 0 <= l < |lines| && lines[l] == Billed(e.participant, Billable(e.gap, vnbBasis));
      assert lines[l].participant == e.participant;
    }
  }
}
