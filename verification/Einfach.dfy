/** The certificate of the "einfach" (equal split) model: the audit recomputes
    the split from the reported totals and checks every channel against it. */
module EinfachAudit {
  import opened Numbers
  import opened Reconciliation
  import opened Allocation

  // One delivered series value of an interval; participants are numbered 0..n-1.
  datatype Record = Record(participant: nat, producing: bool, total: real, community: real, grid: real)

  // The audit's own split, written as the audit computes it.
  function AuditSplit(prods: seq<real>, cons: seq<real>): (r: seq<real>)
    requires |prods| == |cons| > 0
    ensures |r| == |cons|
  {
    var allocation := AuditShares(cons, Sum(prods) / |cons| as real);
    AuditRedistribute(allocation, AuditFree(cons, allocation), Sum(prods) - Sum(allocation))
  }

  function AuditShares(cons: seq<real>, share: real): (r: seq<real>)
    ensures |r| == |cons|
  {
    seq(|cons|, i requires 0 <= i < |cons| => if share < cons[i] then share else cons[i])
  }

  function AuditFree(cons: seq<real>, allocation: seq<real>): (r: seq<real>)
    requires |cons| == |allocation|
    ensures |r| == |cons|
  {
    seq(|cons|, i requires 0 <= i < |cons| => cons[i] - allocation[i])
  }

  function AuditRedistribute(allocation: seq<real>, free: seq<real>, remaining: real): (r: seq<real>)
    requires |allocation| == |free|
    ensures |r| == |allocation|
  {
    if remaining > 1.0 / 1000.0 && Sum(free) > 0.0 then
      AuditTopUp(allocation, AuditExtra(free, remaining, Sum(free)))
    else allocation
  }

  function AuditTopUp(allocation: seq<real>, extra: seq<real>): (r: seq<real>)
    requires |allocation| == |extra|
    ensures |r| == |allocation|
  {
    seq(|allocation|, i requires 0 <= i < |allocation| => allocation[i] + extra[i])
  }

  function AuditExtra(free: seq<real>, remaining: real, total: real): (r: seq<real>)
    requires total != 0.0
    ensures |r| == |free|
  {
    seq(|free|, i requires 0 <= i < |free| => AuditShare(free[i], remaining, total))
  }

  function AuditShare(free: real, remaining: real, total: real): real
    requires total != 0.0
  {
    Min(free, remaining * free / total)
  }

  function AuditCredits(prods: seq<real>, cons: seq<real>): (r: seq<real>)
    requires |prods| == |cons| > 0
    ensures |r| == |prods|
  {
    if Sum(prods) == 0.0 then Zeros(|prods|)
    else Portions(prods, Sum(AuditSplit(prods, cons)), Sum(prods))
  }

  function Portions(prods: seq<real>, handedOut: real, total: real): (r: seq<real>)
    requires total != 0.0
    ensures |r| == |prods|
  {
    seq(|prods|, i requires 0 <= i < |prods| => prods[i] * handedOut / total)
  }

  // ---------------------------------------------------------------------
  // The audit and the engine agree on every interval.

  lemma Regroup(x: real, y: real, z: real)
    requires z != 0.0
    ensures x * y / z == x / z * y && y * x / z == x / z * y
  {
    var q := x / z;
    assert q * z == x;
    assert q * y * z == x * y;
  }

  lemma PortionsAgree(prods: seq<real>, handedOut: real, total: real)
    requires total != 0.0
    ensures Portions(prods, handedOut, total) == Scale(prods, handedOut / total)
  {
    var portions, scaled := Portions(prods, handedOut, total), Scale(prods, handedOut / total);
    forall i | 0 <= i < |prods|
      ensures portions[i] == scaled[i]
    {
      var x := prods[i];
      Regroup(handedOut, x, total);
      assert portions[i] == x * handedOut / total && scaled[i] == handedOut / total * x;
    }
  }

  lemma ShareAt(free: real, remaining: real, total: real)
    requires total != 0.0
    ensures AuditShare(free, remaining, total) == Min(remaining / total * free, free)
  {
    Regroup(remaining, free, total);
  }

  lemma ExtraAgrees(unfilled: seq<real>, remaining: real, total: real)
    requires total != 0.0
    ensures AuditExtra(unfilled, remaining, total) == PointwiseMin(Scale(unfilled, remaining / total), unfilled)
  {
    var scaled := Scale(unfilled, remaining / total);
    var ours, theirs := AuditExtra(unfilled, remaining, total), PointwiseMin(scaled, unfilled);
    forall i | 0 <= i < |unfilled|
      ensures ours[i] == theirs[i]
    {
      var free := unfilled[i];
      ShareAt(free, remaining, total);
      assert ours[i] == AuditShare(free, remaining, total);
      assert scaled[i] == remaining / total * free;
      assert theirs[i] == Min(scaled[i], free);
    }
  }

  lemma FirstPassAgrees(prod: real, cons: seq<real>)
    requires cons != []
    ensures var p, share := FirstPassOf(prod, cons), prod / |cons| as real;
            p.first == AuditShares(cons, share) && p.unfilled == AuditFree(cons, AuditShares(cons, share))
  {
    UnfilledIsDifference(cons, EqualShare(prod, |cons|));
  }

  lemma RedistributeAgrees(p: Pass)
    requires |p.first| == |p.unfilled|
    ensures AuditRedistribute(p.first, p.unfilled, p.remaining) == Redistribute(p)
  {
    if Sum(p.unfilled) > 0.0 {
      SecondPassAgrees(p.unfilled, p.remaining);
      TopUpAgrees(p.first, Extra(p.unfilled, p.remaining));
    }
  }

  lemma SecondPassAgrees(unfilled: seq<real>, remaining: real)
    requires Sum(unfilled) > 0.0
    ensures AuditExtra(unfilled, remaining, Sum(unfilled)) == Extra(unfilled, remaining)
  {
    ExtraAgrees(unfilled, remaining, Sum(unfilled));
  }

  lemma TopUpAgrees(first: seq<real>, extra: seq<real>)
    requires |first| == |extra|
    ensures AuditTopUp(first, extra) == Plus(first, extra)
  {
  }

  lemma FirstPassVanishes(prod: real, cons: seq<real>, p: Pass)
    requires cons != [] && NonNegative(cons) && prod >= 0.0 && (prod == 0.0 || Sum(cons) == 0.0)
    requires p == FirstPassOf(prod, cons)
    ensures p.first == Zeros(|cons|)
    ensures p.remaining == 0.0 || Sum(p.unfilled) == 0.0
  {
    FirstPass(prod, cons, p);
    SumNonNegative(p.first);
    SumNonNegative(p.unfilled);
    AllVanish(p.first);
  }

  lemma AllVanish(xs: seq<real>)
    requires NonNegative(xs) && Sum(xs) <= 0.0
    ensures xs == Zeros(|xs|)
  {
    SumNonNegative(xs);
  }

  // Without production or without demand nothing is handed out.
  lemma NothingShared(prod: real, cons: seq<real>)
    requires cons != [] && NonNegative(cons) && prod >= 0.0 && (prod == 0.0 || Sum(cons) == 0.0)
    ensures EinfachSplit(prod, cons) == Zeros(|cons|) && !Redistributes(prod, cons)
    ensures Sum(Zeros(|cons|)) == 0.0
  {
    FirstPassVanishes(prod, cons, FirstPassOf(prod, cons));
    SumOfZeros(Zeros(|cons|));
  }

  lemma SplitsAgree(prods: seq<real>, cons: seq<real>)
    requires |prods| == |cons| > 0 && NonNegative(prods) && NonNegative(cons)
    ensures AuditSplit(prods, cons) == AllocateInterval(Sum(prods), cons, Einfach)
  {
    SumNonNegative(prods);
    SumNonNegative(cons);
    PassesAgree(prods, cons);
    if Sum(prods) == 0.0 || Sum(cons) == 0.0 {
      NothingShared(Sum(prods), cons);
    }
  }

  lemma PassesAgree(prods: seq<real>, cons: seq<real>)
    requires |prods| == |cons| > 0
    ensures AuditSplit(prods, cons) == EinfachSplit(Sum(prods), cons)
  {
    FirstPassAgrees(Sum(prods), cons);
    RedistributeAgrees(FirstPassOf(Sum(prods), cons));
  }

  lemma CreditsAgree(prods: seq<real>, cons: seq<real>)
    requires |prods| == |cons| > 0 && NonNegative(prods) && NonNegative(cons)
    ensures AuditCredits(prods, cons)
            == Credits(prods, Sum(AllocateInterval(Sum(prods), cons, Einfach)))
  {
    SplitsAgree(prods, cons);
    if Sum(prods) != 0.0 {
      PortionsAgree(prods, Sum(AuditSplit(prods, cons)), Sum(prods));
    }
  }

  // What the einfach model hands out in any interval, for both implementations.
  lemma EinfachInterval(prods: seq<real>, cons: seq<real>)
    requires |prods| == |cons| > 0 && NonNegative(prods) && NonNegative(cons)
    ensures var split := AllocateInterval(Sum(prods), cons, Einfach);
      && split == AuditSplit(prods, cons)
      && |split| == |cons|
      && (forall i :: 0 <= i < |cons| ==> 0.0 <= split[i] <= cons[i])
      && 0.0 <= Sum(split) <= Min(Sum(prods), Sum(cons)) <= Sum(split) + REDISTRIBUTION_THRESHOLD
      && (Redistributes(Sum(prods), cons) ==> Sum(split) == Min(Sum(prods), Sum(cons)))
  {
    SumNonNegative(prods);
    SumNonNegative(cons);
    SplitsAgree(prods, cons);
    if Sum(prods) > 0.0 && Sum(cons) > 0.0 {
      EinfachExact(Sum(prods), cons);
      SumNonNegative(EinfachSplit(Sum(prods), cons));
    } else {
      NothingShared(Sum(prods), cons);
    }
  }

  // Producers are credited exactly what consumers are allocated.
  lemma EinfachBalances(prods: seq<real>, cons: seq<real>)
    requires |prods| == |cons| > 0 && NonNegative(prods) && NonNegative(cons)
    ensures Sum(AuditCredits(prods, cons)) == Sum(AllocateInterval(Sum(prods), cons, Einfach))
    ensures forall j :: 0 <= j < |prods| ==> 0.0 <= AuditCredits(prods, cons)[j] <= prods[j]
  {
    EinfachInterval(prods, cons);
    CreditsAgree(prods, cons);
    CreditsExact(prods, Sum(AllocateInterval(Sum(prods), cons, Einfach)));
  }

  // A consumer's split can fall short by the whole threshold, and no further:
  // three consumers want 0.001 kWh in all and two of them nothing.
  lemma ShortfallIsReached()
    ensures var prods, cons := [0.0015, 0.0, 0.0], [0.0015, 0.0, 0.0];
            NonNegative(prods) && NonNegative(cons)
            && AllocateInterval(Sum(prods), cons, Einfach) == [0.0005, 0.0, 0.0]
            && Min(Sum(prods), Sum(cons)) == 0.0005 + REDISTRIBUTION_THRESHOLD
  {
    var xs := [0.0015, 0.0, 0.0];
    assert xs[..2] == [0.0015, 0.0] && xs[..2][..1] == [0.0015] && [0.0015][..0] == [];
    assert Sum(xs) == Sum(xs[..2]) + 0.0 && Sum(xs[..2]) == Sum([0.0015]) + 0.0;
    assert Sum([0.0015]) == Sum([]) + 0.0015;
    var first := EqualShares(0.0015, xs);
    assert first == [0.0005, 0.0, 0.0];
    assert first[..2] == [0.0005, 0.0] && first[..2][..1] == [0.0005] && [0.0005][..0] == [];
    assert Sum(first) == Sum(first[..2]) + 0.0 && Sum(first[..2]) == Sum([0.0005]) + 0.0;
    assert Sum([0.0005]) == Sum([]) + 0.0005;
  }

  // ---------------------------------------------------------------------
  // The certificate of one interval.

  predicate Numbered(records: seq<Record>, n: nat) {
    forall i :: 0 <= i < |records| ==> records[i].participant < n
  }

  predicate Identified(a: Record, b: Record) {
    a.participant == b.participant && a.producing == b.producing
  }

  predicate NoDuplicates(records: seq<Record>) {
    forall i, j :: 0 <= i < j < |records| ==> !Identified(records[i], records[j])
  }

  // The reported total of a series; zero when the participant has none.
  function SeriesTotal(records: seq<Record>, participant: nat, producing: bool): real {
    if records == [] then 0.0 else
      var last := records[|records| - 1];
      if last.participant == participant && last.producing == producing then last.total
      else SeriesTotal(records[..|records| - 1], participant, producing)
  }

  function Totals(records: seq<Record>, n: nat, producing: bool): seq<real> {
    seq(n, p requires 0 <= p < n => SeriesTotal(records, p, producing))
  }

  predicate CellHolds(reading: real, x: real) {
    MakeCell(reading).Some? && Within(x, MakeCell(reading).value)
  }

  predicate RowHolds(row: Record, local: real) {
    CellHolds(row.total, row.total) && CellHolds(row.community, local) && CellHolds(row.grid, row.total - local)
  }

  predicate ValidTotals(records: seq<Record>) {
    forall i :: 0 <= i < |records| ==> MakeCell(records[i].total).Some?
  }

  // What the model assigns to the series of a row.
  function Modelled(records: seq<Record>, n: nat, row: Record): real
    requires n > 0 && row.participant < n
  {
    var prods, cons := Totals(records, n, true), Totals(records, n, false);
    if row.producing then AuditCredits(prods, cons)[row.participant]
    else AuditSplit(prods, cons)[row.participant]
  }

  lemma {:induction false} SeriesTotalsValid(records: seq<Record>, participant: nat, producing: bool)
    requires ValidTotals(records)
    ensures SeriesTotal(records, participant, producing) >= 0.0
  {
    if records != [] {
      SeriesTotalsValid(records[..|records| - 1], participant, producing);
    }
  }

  lemma {:induction false} SeriesTotalAt(records: seq<Record>, i: nat)
    requires NoDuplicates(records) && i < |records|
    ensures SeriesTotal(records, records[i].participant, records[i].producing) == records[i].total
  {
    var n := |records| - 1;
    if i < n {
      assert !Identified(records[i], records[n]);
      SeriesTotalAt(records[..n], i);
    }
  }

  // Every channel of every series holds what the model gives it.
  ghost predicate Witnessed(records: seq<Record>, n: nat)
    requires n > 0 && Numbered(records, n)
  {
    && NoDuplicates(records) && ValidTotals(records)
    && forall i :: 0 <= i < |records| ==> RowHolds(records[i], Modelled(records, n, records[i]))
  }

  // The engine's own allocation of the reported totals.
  function SplitOf(records: seq<Record>, n: nat): seq<real> {
    AllocateInterval(Sum(Totals(records, n, true)), Totals(records, n, false), Einfach)
  }

  method EinfachIntervalWitness(records: seq<Record>, n: nat) returns (r: Option<seq<real>>)
    requires n > 0 && Numbered(records, n)
    ensures r.Some? <==> Witnessed(records, n)
    ensures r.Some? ==> r.value == SplitOf(records, n)
  {
    var totals := CollectTotals(records, n);
    if totals.None? {
      return None;
    }
    var (production, consumption) := totals.value;
    var handedOut, credits := AuditSplit(production, consumption), AuditCredits(production, consumption);
    var holds := CheckCells(records, n, production, consumption, handedOut, credits);
    if !holds {
      return None;
    }
    TotalsNonNegative(records, n);
    SplitsAgree(production, consumption);
    return Some(handedOut);
  }

  method CheckCells(records: seq<Record>, n: nat, production: seq<real>, consumption: seq<real>,
                    handedOut: seq<real>, credits: seq<real>)
    returns (holds: bool)
    requires n > 0 && Numbered(records, n) && NoDuplicates(records)
    requires production == Totals(records, n, true) && consumption == Totals(records, n, false)
    requires handedOut == AuditSplit(production, consumption)
    requires credits == AuditCredits(production, consumption)
    ensures holds <==> forall i :: 0 <= i < |records| ==> RowHolds(records[i], Modelled(records, n, records[i]))
  {
    for i := 0 to |records|
      invariant forall k :: 0 <= k < i ==> RowHolds(records[k], Modelled(records, n, records[k]))
    {
      var row := records[i];
      var total := if row.producing then production[row.participant] else consumption[row.participant];
      var local := if row.producing then credits[row.participant] else handedOut[row.participant];
      SeriesTotalAt(records, i);
      assert total == row.total && local == Modelled(records, n, row);
      if !(CellHolds(row.total, total) && CellHolds(row.community, local) && CellHolds(row.grid, total - local)) {
        return false;
      }
    }
    return true;
  }

  // One more record sets the total of its own series.
  lemma TotalsStep(records: seq<Record>, i: nat, n: nat)
    requires i < |records| && records[i].participant < n
    ensures var row := records[i];
      && Totals(records[..i + 1], n, row.producing) == Totals(records[..i], n, row.producing)[row.participant := row.total]
      && Totals(records[..i + 1], n, !row.producing) == Totals(records[..i], n, !row.producing)
  {
    assert records[..i + 1][..i] == records[..i];
  }

  method CollectTotals(records: seq<Record>, n: nat) returns (r: Option<(seq<real>, seq<real>)>)
    requires Numbered(records, n)
    ensures r.Some? <==> NoDuplicates(records) && ValidTotals(records)
    ensures r.Some? ==> r.value == (Totals(records, n, true), Totals(records, n, false))
  {
    var consumption, production := Zeros(n), Zeros(n);
    var seen: set<(nat, bool)> := {};
    for i := 0 to |records|
      invariant NoDuplicates(records[..i]) && ValidTotals(records[..i])
      invariant consumption == Totals(records[..i], n, false)
      invariant production == Totals(records[..i], n, true)
      invariant seen == set k | 0 <= k < i :: (records[k].participant, records[k].producing)
    {
      var row := records[i];
      assert records[..i + 1][..i] == records[..i];
      if (row.participant, row.producing) in seen {
        var k :| 0 <= k < i && (records[k].participant, records[k].producing) == (row.participant, row.producing);
        assert Identified(records[k], records[i]);
        return None;
      }
      seen := seen + {(row.participant, row.producing)};
      if MakeCell(row.total).None? {
        return None;
      }
      TotalsStep(records, i, n);
      if row.producing {
        production := production[row.participant := row.total];
      } else {
        consumption := consumption[row.participant := row.total];
      }
    }
    assert records[..|records|] == records;
    return Some((production, consumption));
  }

  lemma TotalsNonNegative(records: seq<Record>, n: nat)
    requires ValidTotals(records)
    ensures NonNegative(Totals(records, n, true)) && NonNegative(Totals(records, n, false))
  {
    forall p: nat | p < n
      ensures SeriesTotal(records, p, true) >= 0.0 && SeriesTotal(records, p, false) >= 0.0
    {
      SeriesTotalsValid(records, p, true);
      SeriesTotalsValid(records, p, false);
    }
  }

  // The audit's figure of a series is the engine's.
  lemma ModelledIsBilled(records: seq<Record>, n: nat, row: Record)
    requires n > 0 && row.participant < n && ValidTotals(records)
    ensures var prods, cons := Totals(records, n, true), Totals(records, n, false);
            var split := AllocateInterval(Sum(prods), cons, Einfach);
            var figure := if row.producing then Credits(prods, Sum(split)) else split;
            |figure| == n && Modelled(records, n, row) == figure[row.participant] >= 0.0
  {
    var prods, cons := Totals(records, n, true), Totals(records, n, false);
    TotalsNonNegative(records, n);
    SplitsAgree(prods, cons);
    CreditsAgree(prods, cons);
    EinfachInterval(prods, cons);
    EinfachBalances(prods, cons);
  }

  // Every billed reading of a certified interval is the engine's figure to within half a Wh.
  lemma CertifiedReadings(records: seq<Record>, n: nat, i: nat)
    requires n > 0 && Numbered(records, n) && i < |records| && ValidTotals(records)
    requires RowHolds(records[i], Modelled(records, n, records[i]))
    ensures var prods, cons := Totals(records, n, true), Totals(records, n, false);
            var split := AllocateInterval(Sum(prods), cons, Einfach);
            var figure := if records[i].producing then Credits(prods, Sum(split)) else split;
            |figure| == n && Abs(records[i].community - figure[records[i].participant]) <= HALF_QUANTUM
  {
    ModelledIsBilled(records, n, records[i]);
    CellNear(records[i], Modelled(records, n, records[i]));
  }

  lemma CellNear(row: Record, figure: real)
    requires RowHolds(row, figure) && figure >= 0.0
    ensures Abs(row.community - figure) <= HALF_QUANTUM
  {
  }
}
