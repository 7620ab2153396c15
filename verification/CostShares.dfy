/** The shared battery's configuration, the cost-share lines a run bills, and
    what approval makes of them. */
module CostShares {
  import opened Numbers
  import opened LineItems
  import opened Approval
  import opened Invoices
  import opened Proration

  const MAX_CAPACITY := 10000.0
  const MAX_ANNUAL_COST := 100000.0

  // A share in percent; absent when the stored value is not a number.
  datatype Share = Share(participant: int, percent: Option<real>)

  // Capacity in kWh, annual cost in CHF; the shares are a dictionary.
  datatype Config = Config(participant: int, capacity: Option<real>, annualCost: Option<real>, shares: seq<Share>)

  predicate TwoPlaces(x: real) {
    Whole(x * 100.0)
  }

  predicate Within(v: Option<real>, low: real, high: real) {
    v.Some? && TwoPlaces(v.value) && low <= v.value <= high
  }

  predicate OneEntryEach(shares: seq<Share>) {
    forall i, j :: 0 <= i < j < |shares| ==> shares[i].participant != shares[j].participant
  }

  predicate Percentages(shares: seq<Share>) {
    forall i :: 0 <= i < |shares| ==> Within(shares[i].percent, 0.0, 100.0)
  }

  function Percents(shares: seq<Share>): (r: seq<real>)
    requires Percentages(shares)
    ensures |r| == |shares|
  {
    seq(|shares|, i requires 0 <= i < |shares| => shares[i].percent.value)
  }

  predicate Holds(shares: seq<Share>, participant: int) {
    exists i :: 0 <= i < |shares| && shares[i].participant == participant
  }

  // Every member's part is known, they make the whole, and the battery's own
  // metering point pays nothing.
  predicate ValidConfig(c: Config) {
    && Within(c.capacity, 0.0, MAX_CAPACITY) && c.capacity.value > 0.0
    && Within(c.annualCost, 0.0, MAX_ANNUAL_COST)
    && c.shares != [] && Percentages(c.shares)
    && Sum(Percents(c.shares)) == 100.0
    && !Holds(c.shares, c.participant)
  }

  method ValidateConfig(c: Config) returns (ok: bool)
    ensures ok <==> ValidConfig(c)
  {
    if !Within(c.capacity, 0.0, MAX_CAPACITY) || c.capacity.value <= 0.0
      || !Within(c.annualCost, 0.0, MAX_ANNUAL_COST) || c.shares == [] {
      return false;
    }
    var total := 0.0;
    for i := 0 to |c.shares|
      invariant Percentages(c.shares[..i])
      invariant total == Sum(Percents(c.shares[..i]))
    {
      if !Within(c.shares[i].percent, 0.0, 100.0) {
        assert !Percentages(c.shares);
        return false;
      }
      ghost var before, after := c.shares[..i], c.shares[..i + 1];
      assert after == before + [c.shares[i]];
      assert Percents(after)[..i] == Percents(before);
      total := total + c.shares[i].percent.value;
    }
    assert c.shares[..|c.shares|] == c.shares;
    ok := total == 100.0 && !Holds(c.shares, c.participant);
  }

  // ---------------------------------------------------------------------
  // The lines.

  function RawShare(annualCost: real, percent: real, fraction: real): real {
    annualCost * percent / 100.0 * fraction * 1000000.0
  }

  function CostShare(annualCost: real, percent: real, fraction: real): real {
    RoundHalfUp(RawShare(annualCost, percent, fraction)) as real
  }

  // The amount each member is due, by participant.
  function Due(c: Config, fraction: real): (r: map<int, real>)
    requires ValidConfig(c)
    ensures forall id :: id in r <==> Holds(c.shares, id)
  {
    DueOf(c.shares, c.annualCost.value, fraction)
  }

  function DueOf(shares: seq<Share>, annualCost: real, fraction: real): (r: map<int, real>)
    requires Percentages(shares)
    ensures forall id :: id in r <==> Holds(shares, id)
  {
    if shares == [] then map[] else
      var last := shares[|shares| - 1];
      var rest := DueOf(shares[..|shares| - 1], annualCost, fraction);
      var r := rest[last.participant := CostShare(annualCost, last.percent.value, fraction)];
      assert forall id :: id in r <==> Holds(shares, id) by {
        forall id | Holds(shares[..|shares| - 1], id)
          ensures Holds(shares, id)
        {
          var i :| 0 <= i < |shares| - 1 && shares[..|shares| - 1][i].participant == id;
          assert shares[i].participant == id;
        }
        forall id | Holds(shares, id)
          ensures id == last.participant || Holds(shares[..|shares| - 1], id)
        {
          var i :| 0 <= i < |shares| && shares[i].participant == id;
          assert i == |shares| - 1 || shares[..|shares| - 1][i].participant == id;
        }
        assert shares[|shares| - 1].participant == last.participant;
      }
      r
  }

  function ShareLine(id: int, amount: real): Item {
    Item(id, BatteryCostShare, None, None, amount)
  }

  function ShareLines(participants: seq<int>, battery: int, due: map<int, real>): seq<Item>
    requires forall id :: id in participants && id != battery ==> id in due
  {
    if participants == [] then [] else
      var last := participants[|participants| - 1];
      ShareLines(participants[..|participants| - 1], battery, due)
      + if last == battery then [] else [ShareLine(last, due[last])]
  }

  // Every billed participant except the battery has a share.
  predicate AllShare(participants: seq<int>, c: Config) {
    forall i :: 0 <= i < |participants| && participants[i] != c.participant ==> Holds(c.shares, participants[i])
  }

  // The lines exist iff the configuration is valid and covers the participants.
  method BatteryLines(c: Config, participants: seq<int>, start: Moment, end: Moment) returns (r: Option<seq<Item>>)
    requires ValidMoment(start) && ValidMoment(end)
    ensures r.Some? <==> ValidConfig(c) && AllShare(participants, c) && Earlier(start, end)
    ensures r.Some? ==> r.value == ShareLines(participants, c.participant, Due(c, Fraction(start, end)))
  {
    var valid := ValidateConfig(c);
    if !valid {
      return None;
    }
    var fraction := PeriodFraction(start, end);
    if fraction.None? {
      return None;
    }
    var due := Due(c, fraction.value);
    var lines: seq<Item> := [];
    for i := 0 to |participants|
      invariant AllShare(participants[..i], c)
      invariant lines == ShareLines(participants[..i], c.participant, due)
    {
      var id := participants[i];
      assert participants[..i + 1] == participants[..i] + [id];
      if id == c.participant {
        continue;
      }
      if id !in due {
        return None;
      }
      lines := lines + [ShareLine(id, due[id])];
    }
    assert participants[..|participants|] == participants;
    r := Some(lines);
  }

  // ---------------------------------------------------------------------
  // What a run bills, approval's share check accepts.

  predicate DueLine(line: Item, participants: seq<int>, battery: int, due: map<int, real>) {
    && line.participant in participants && line.participant != battery
    && line.participant in due && line == ShareLine(line.participant, due[line.participant])
  }

  lemma {:induction false} ShareLinesAre(participants: seq<int>, battery: int, due: map<int, real>)
    requires Distinct(participants)
    requires forall id :: id in participants && id != battery ==> id in due
    ensures var lines := ShareLines(participants, battery, due);
      && (forall k :: 0 <= k < |lines| ==> DueLine(lines[k], participants, battery, due))
      && Distinct(Participants(lines))
      && (forall id :: id in participants && id != battery ==> Pays(lines, id))
  {
    if participants != [] {
      var n := |participants| - 1;
      var last := participants[n];
      ShareLinesAre(participants[..n], battery, due);
      var before, lines := ShareLines(participants[..n], battery, due), ShareLines(participants, battery, due);
      assert last !in participants[..n];
      forall id | id in participants && id != battery
        ensures Pays(lines, id)
      {
        if id == last {
          assert lines[|lines| - 1].participant == last;
        } else {
          assert id in participants[..n];
          var k :| 0 <= k < |before| && Invoices.Shares(before[k]) && before[k].participant == id;
          assert lines[k] == before[k];
        }
      }
      forall k, l | 0 <= k < l < |lines|
        ensures Participants(lines)[k] != Participants(lines)[l]
      {
        assert Participants(before)[k] == lines[k].participant;
        if l < |before| {
          assert Participants(before)[l] == lines[l].participant;
        }
      }
    }
  }

  // The engine's lines name only participants and carry no shares themselves.
  ghost predicate EnergyLines(items: seq<Item>, participants: seq<int>) {
    forall i :: 0 <= i < |items| ==> items[i].participant in participants && !Invoices.Shares(items[i])
  }

  // Energy lines carry no shares, so the shares of all lines are the share lines.
  lemma SharesAmong(items: seq<Item>, lines: seq<Item>, participants: seq<int>, i: nat)
    requires EnergyLines(items, participants) && i < |items + lines|
    ensures Invoices.Shares((items + lines)[i]) ==> i >= |items| && (items + lines)[i] == lines[i - |items|]
    ensures i >= |items| ==> (items + lines)[i] == lines[i - |items|]
    ensures i < |items| ==> (items + lines)[i].participant in participants
  {
  }

  lemma PaysAmong(items: seq<Item>, lines: seq<Item>, id: int)
    requires Pays(lines, id)
    ensures Pays(items + lines, id)
  {
    var k :| 0 <= k < |lines| && Invoices.Shares(lines[k]) && lines[k].participant == id;
    assert (items + lines)[|items| + k] == lines[k];
  }

  lemma OneShareEachAmong(items: seq<Item>, lines: seq<Item>, participants: seq<int>)
    requires EnergyLines(items, participants) && Distinct(Participants(lines))
    ensures OneShareEach(items + lines)
  {
    var all := items + lines;
    forall i, j | 0 <= i < j < |all| && Invoices.Shares(all[i]) && Invoices.Shares(all[j])
      ensures all[i].participant != all[j].participant
    {
      SharesAmong(items, lines, participants, i);
      SharesAmong(items, lines, participants, j);
      assert Participants(lines)[i - |items|] != Participants(lines)[j - |items|];
    }
  }

  lemma BilledSharesAreCovered(items: seq<Item>, c: Config, participants: seq<int>, fraction: real)
    requires ValidConfig(c) && AllShare(participants, c) && Distinct(participants) && EnergyLines(items, participants)
    ensures var due := Due(c, fraction);
            SharesCovered(items + ShareLines(participants, c.participant, due), Some(Battery(c.participant, due)))
  {
    var due := Due(c, fraction);
    var lines, battery := ShareLines(participants, c.participant, due), Some(Battery(c.participant, due));
    var all := items + lines;
    ShareLinesAre(participants, c.participant, due);
    OneShareEachAmong(items, lines, participants);
    forall i | 0 <= i < |all|
      ensures Invoices.Shares(all[i]) ==> ShareDue(all[i], battery)
      ensures all[i].participant != c.participant ==> Pays(all, all[i].participant)
    {
      SharesAmong(items, lines, participants, i);
      if i >= |items| {
        assert DueLine(lines[i - |items|], participants, c.participant, due);
      }
      if all[i].participant != c.participant {
        PaysAmong(items, lines, all[i].participant);
      }
    }
  }

  // ---------------------------------------------------------------------
  // The shares pay the prorated cost, up to half a millionth per member.

  predicate WithinHalves(x: real, y: real, n: nat) {
    Abs(x - y) <= 0.5 * n as real
  }

  lemma {:induction false} RoundedSum(raws: seq<real>, amounts: seq<real>)
    requires |raws| == |amounts| && forall i :: 0 <= i < |raws| ==> amounts[i] == RoundHalfUp(raws[i]) as real
    ensures WithinHalves(Sum(amounts), Sum(raws), |raws|)
  {
    if raws != [] {
      var n := |raws| - 1;
      RoundedSum(raws[..n], amounts[..n]);
      OneMoreRounding(Sum(amounts[..n]), Sum(raws[..n]), n, raws[n]);
    }
  }

  lemma OneMoreRounding(x: real, y: real, n: nat, raw: real)
    requires WithinHalves(x, y, n)
    ensures WithinHalves(x + RoundHalfUp(raw) as real, y + raw, n + 1)
  {
    assert -0.5 <= RoundHalfUp(raw) as real - raw <= 0.5;
  }

  function ShareAmounts(shares: seq<Share>, due: map<int, real>): (r: seq<real>)
    requires forall i :: 0 <= i < |shares| ==> shares[i].participant in due
    ensures |r| == |shares|
  {
    seq(|shares|, i requires 0 <= i < |shares| => due[shares[i].participant])
  }

  // A hundredth of the prorated cost, per percent.
  function PerPercent(annualCost: real, fraction: real): real {
    annualCost / 100.0 * fraction * 1000000.0
  }

  lemma ShareIsScaled(annualCost: real, percent: real, fraction: real)
    ensures RawShare(annualCost, percent, fraction) == PerPercent(annualCost, fraction) * percent
  {
  }

  lemma HundredPercent(annualCost: real, fraction: real)
    ensures PerPercent(annualCost, fraction) * 100.0 == annualCost * fraction * 1000000.0
  {
  }

  lemma {:induction false} DueIsCostShare(shares: seq<Share>, annualCost: real, fraction: real, i: nat)
    requires Percentages(shares) && OneEntryEach(shares) && i < |shares|
    ensures shares[i].participant in DueOf(shares, annualCost, fraction)
    ensures DueOf(shares, annualCost, fraction)[shares[i].participant] == CostShare(annualCost, shares[i].percent.value, fraction)
  {
    var n := |shares| - 1;
    if i < n {
      DueIsCostShare(shares[..n], annualCost, fraction, i);
    }
  }

  function RawShares(percents: seq<real>, annualCost: real, fraction: real): (r: seq<real>)
    ensures |r| == |percents|
  {
    seq(|percents|, i requires 0 <= i < |percents| => RawShare(annualCost, percents[i], fraction))
  }

  function ProratedCost(annualCost: real, fraction: real): real {
    annualCost * fraction * 1000000.0
  }

  lemma AmountsAreRounded(c: Config, fraction: real)
    requires ValidConfig(c) && OneEntryEach(c.shares)
    ensures forall i :: 0 <= i < |c.shares| ==> c.shares[i].participant in Due(c, fraction)
    ensures var raws, amounts := RawShares(Percents(c.shares), c.annualCost.value, fraction), ShareAmounts(c.shares, Due(c, fraction));
            forall i :: 0 <= i < |raws| ==> amounts[i] == RoundHalfUp(raws[i]) as real
  {
    forall i | 0 <= i < |c.shares|
      ensures c.shares[i].participant in Due(c, fraction)
      ensures Due(c, fraction)[c.shares[i].participant] == CostShare(c.annualCost.value, c.shares[i].percent.value, fraction)
    {
      DueIsCostShare(c.shares, c.annualCost.value, fraction, i);
    }
  }

  lemma RawsAddUp(annualCost: real, percents: seq<real>, fraction: real)
    requires Sum(percents) == 100.0
    ensures Sum(RawShares(percents, annualCost, fraction)) == ProratedCost(annualCost, fraction)
  {
    var per, raws := PerPercent(annualCost, fraction), RawShares(percents, annualCost, fraction);
    forall i | 0 <= i < |raws|
      ensures raws[i] == per * percents[i]
    {
      ShareIsScaled(annualCost, percents[i], fraction);
    }
    SumScaled(percents, per, raws);
    HundredPercent(annualCost, fraction);
  }

  lemma SharesPayTheCost(c: Config, fraction: real)
    requires ValidConfig(c) && OneEntryEach(c.shares)
    ensures forall i :: 0 <= i < |c.shares| ==> c.shares[i].participant in Due(c, fraction)
    ensures WithinHalves(Sum(ShareAmounts(c.shares, Due(c, fraction))),
                         ProratedCost(c.annualCost.value, fraction), |c.shares|)
  {
    AmountsAreRounded(c, fraction);
    RawsAddUp(c.annualCost.value, Percents(c.shares), fraction);
    RoundedSum(RawShares(Percents(c.shares), c.annualCost.value, fraction), ShareAmounts(c.shares, Due(c, fraction)));
  }

  // ---------------------------------------------------------------------
  // The amounts and limits in figures.

  lemma {:induction false} DueAt(shares: seq<Share>, annualCost: real, fraction: real, i: nat)
    requires i < |shares| && Percentages(shares) && OneEntryEach(shares)
    ensures shares[i].participant in DueOf(shares, annualCost, fraction)
    ensures DueOf(shares, annualCost, fraction)[shares[i].participant]
            == CostShare(annualCost, shares[i].percent.value, fraction)
  {
    var n := |shares| - 1;
    if i < n {
      DueAt(shares[..n], annualCost, fraction, i);
      assert shares[..n][i] == shares[i] && shares[i].participant != shares[n].participant;
    }
  }

  // A member owes its percentage of the annual cost, for the fraction of the
  // year, to the nearest millionth.
  lemma DueIsShare(c: Config, fraction: real, i: nat)
    requires ValidConfig(c) && OneEntryEach(c.shares) && i < |c.shares|
    ensures c.shares[i].participant in Due(c, fraction)
    ensures Due(c, fraction)[c.shares[i].participant]
            == RoundHalfUp(c.annualCost.value * c.shares[i].percent.value / 100.0 * fraction * 1000000.0) as real
  {
    DueAt(c.shares, c.annualCost.value, fraction, i);
    CostShareIs(c.annualCost.value, c.shares[i].percent.value, fraction);
  }

  lemma CostShareIs(annualCost: real, percent: real, fraction: real)
    ensures CostShare(annualCost, percent, fraction)
            == RoundHalfUp(annualCost * percent / 100.0 * fraction * 1000000.0) as real
  {
  }

  function Single(capacity: real, annualCost: real): Config {
    Config(1, Some(capacity), Some(annualCost), [Share(2, Some(100.0))])
  }

  // Capacity above zero up to 10000 kWh, cost up to 100000 CHF a year, both in
  // hundredths.
  lemma ConfigLimits()
    ensures ValidConfig(Single(10000.0, 100000.0)) && ValidConfig(Single(0.01, 0.0))
    ensures !ValidConfig(Single(10000.01, 0.0)) && !ValidConfig(Single(0.0, 0.0)) && !ValidConfig(Single(1.005, 0.0))
    ensures !ValidConfig(Single(1.0, 0.0).(participant := 2)) && !ValidConfig(Single(1.0, 0.0).(shares := []))
    ensures !ValidConfig(Single(1.0, 100000.01)) && !ValidConfig(Single(1.0, -0.01)) && !ValidConfig(Single(1.0, 0.005))
  {
    LimitHolds(10000.0, 100000.0, 1000000, 10000000);
    LimitHolds(0.01, 0.0, 1, 0);
    assert Single(1.0, 0.0).shares[0].participant == 2;
    assert (1.005 * 100.0).Floor == 100 && (0.005 * 100.0).Floor == 0;
  }

  lemma LimitHolds(capacity: real, annualCost: real, hundredths: int, cost: int)
    requires capacity * 100.0 == hundredths as real && annualCost * 100.0 == cost as real
    requires 0 < hundredths <= 1000000 && 0 <= cost <= 10000000
    ensures ValidConfig(Single(capacity, annualCost))
  {
    var shares := Single(capacity, annualCost).shares;
    assert Percents(shares) == [100.0] && [100.0][..0] == [];
    WholeInt(10000);
  }
}
