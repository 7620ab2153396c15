/** One frozen invoice per participant, and the member view that re-derives
    every figure of it. Moments are microseconds of local wall time. */
module Invoices {
  import opened Numbers
  import opened LineItems
  import opened Approval

  const DAY := 86400000000
  const CENT := 10000.0
  const HALF_CENT := 5000.0

  function DayOf(moment: int): int {
    moment / DAY
  }

  // A policy snapshot; drafts older than the settlement fee carry none.
  datatype Policy = Policy(internal: real, settlement: Option<real>, standardVat: bool, vatRate: real, paymentDays: int)

  function PricesOf(p: Policy): Prices {
    Prices(p.internal, if p.settlement.Some? then p.settlement.value else 0.0)
  }

  predicate ValidPolicy(p: Policy) {
    && p.internal >= 0.0 && (p.settlement.Some? ==> p.settlement.value >= 0.0)
    && (if p.standardVat then 0.0 < p.vatRate <= 100.0 else p.vatRate == 0.0)
    && 1 <= p.paymentDays <= 365
  }

  // The frozen battery asset: who stores, and what each member is due to pay.
  datatype Battery = Battery(participant: int, expected: map<int, real>)

  datatype Period = Period(items: seq<Item>, policy: Policy, start: int, end: int,
                           battery: Option<Battery>, sourceEvidence: bool)

  datatype Residue = Residue(participant: int, amount: real)

  datatype Invoice = Invoice(participant: int, items: seq<Item>, net: real, vatRate: real, vat: real, gross: real,
                             issueDay: int, dueDay: int, policy: Policy, start: int, end: int,
                             producers: seq<int>, rounding: Option<Residue>)

  // ---------------------------------------------------------------------
  // Participants and their lines.

  function Insert(id: int, ids: seq<int>): seq<int> {
    if ids == [] then [id]
    else if id == ids[0] then ids
    else if id < ids[0] then [id] + ids
    else [ids[0]] + Insert(id, ids[1..])
  }

  function SortedParticipants(items: seq<Item>): seq<int> {
    if items == [] then [] else
      Insert(items[|items| - 1].participant, SortedParticipants(items[..|items| - 1]))
  }

  function LinesOf(items: seq<Item>, id: int): seq<Item> {
    if items == [] then [] else
      var last := items[|items| - 1];
      LinesOf(items[..|items| - 1], id) + if last.participant == id then [last] else []
  }

  function AmountTotal(items: seq<Item>): real {
    if items == [] then 0.0 else AmountTotal(items[..|items| - 1]) + items[|items| - 1].amount
  }

  function ToCents(x: real): real {
    RoundHalfUp(x / CENT) as real * CENT
  }

  function VatOn(net: real, rate: real): real {
    ToCents(net * rate / 100.0)
  }

  // ---------------------------------------------------------------------
  // Battery cost shares.

  predicate Shares(item: Item) {
    item.kind == BatteryCostShare
  }

  ghost predicate OneShareEach(items: seq<Item>) {
    forall i, j :: 0 <= i < j < |items| && Shares(items[i]) && Shares(items[j]) ==>
      items[i].participant != items[j].participant
  }

  // The share line of a member carries exactly the frozen amount.
  predicate ShareDue(item: Item, battery: Option<Battery>) {
    && battery.Some?
    && item.participant != battery.value.participant
    && item.participant in battery.value.expected
    && item.amount == battery.value.expected[item.participant]
  }

  ghost predicate Pays(items: seq<Item>, id: int) {
    exists i :: 0 <= i < |items| && Shares(items[i]) && items[i].participant == id
  }

  // Every billed participant except the battery pays exactly its frozen share;
  // without a battery there are no shares.
  ghost predicate SharesCovered(items: seq<Item>, battery: Option<Battery>) {
    && OneShareEach(items)
    && (forall i :: 0 <= i < |items| && Shares(items[i]) ==> ShareDue(items[i], battery))
    && (battery.Some? ==> forall i :: 0 <= i < |items| && items[i].participant != battery.value.participant ==>
          Pays(items, items[i].participant))
  }

  method CollectShares(items: seq<Item>, battery: Option<Battery>) returns (paid: Option<set<int>>)
    ensures paid.Some? <==>
      OneShareEach(items) && forall i :: 0 <= i < |items| && Shares(items[i]) ==> ShareDue(items[i], battery)
    ensures paid.Some? ==> paid.value == set i | 0 <= i < |items| && Shares(items[i]) :: items[i].participant
  {
    var seen: set<int> := {};
    for i := 0 to |items|
      invariant seen == set k | 0 <= k < i && Shares(items[k]) :: items[k].participant
      invariant OneShareEach(items[..i])
      invariant forall k :: 0 <= k < i && Shares(items[k]) ==> ShareDue(items[k], battery)
    {
      var item := items[i];
      if Shares(item) {
        if item.participant in seen || !ShareDue(item, battery) {
          return None;
        }
        seen := seen + {item.participant};
      }
    }
    assert items[..|items|] == items;
    return Some(seen);
  }

  method RequireCostShares(items: seq<Item>, battery: Option<Battery>) returns (ok: bool)
    ensures ok <==> SharesCovered(items, battery)
  {
    var paid := CollectShares(items, battery);
    if paid.None? {
      return false;
    }
    forall i | 0 <= i < |items|
      ensures items[i].participant in paid.value <==> Pays(items, items[i].participant)
    {
    }
    ok := battery.None? || forall i | 0 <= i < |items| ::
      items[i].participant == battery.value.participant || items[i].participant in paid.value;
  }

  // ---------------------------------------------------------------------
  // Freezing.

  // The producers the provenance names: all of them, or under source evidence
  // only the participant's own entry.
  function ProvenanceProducers(period: Period, id: int): seq<int> {
    var producers := Participants(OfKind(period.items, ProducerCredit));
    if !period.sourceEvidence then producers else if id in producers then [id] else []
  }

  function NetOf(items: seq<Item>, id: int): real {
    ToCents(AmountTotal(LinesOf(items, id)))
  }

  function InvoiceOf(period: Period, issueDay: int, id: int): Invoice {
    var items := LinesOf(period.items, id);
    var rounding := OfKind(items, RoundingAdjustment);
    var net := NetOf(period.items, id);
    var vat := VatOn(net, period.policy.vatRate);
    Invoice(id, items, net, period.policy.vatRate, vat, net + vat,
            issueDay, issueDay + period.policy.paymentDays, period.policy, period.start, period.end,
            ProvenanceProducers(period, id),
            if rounding == [] then None else Some(Residue(id, rounding[0].amount)))
  }

  function Cents(n: int): real {
    10000.0 * n as real
  }

  // A figure in whole cents nearest to an exact one, ties away from zero.
  ghost predicate InCents(amount: real, exact: real) {
    && (exists n :: amount == Cents(n))
    && Abs(amount - exact) <= 5000.0
    && (Abs(amount - exact) == 5000.0 ==> Abs(amount) > Abs(exact))
  }

  // The sum of one participant's lines.
  function SumFor(items: seq<Item>, id: int): real {
    if items == [] then 0.0 else
      SumFor(items[..|items| - 1], id) + if items[|items| - 1].participant == id then items[|items| - 1].amount else 0.0
  }

  lemma {:induction false} LinesSum(items: seq<Item>, id: int)
    ensures AmountTotal(LinesOf(items, id)) == SumFor(items, id)
  {
    if items != [] {
      var front, last := LinesOf(items[..|items| - 1], id), items[|items| - 1];
      LinesSum(items[..|items| - 1], id);
      assert (front + [last])[..|front|] == front;
      assert front + [] == front;
    }
  }

  // The lines of one participant, each as often as on the draft, and no others.
  ghost predicate LinesFor(lines: seq<Item>, items: seq<Item>, id: int) {
    forall line :: multiset(lines)[line] == if line.participant == id then multiset(items)[line] else 0
  }

  ghost predicate IsCredited(items: seq<Item>, id: int) {
    exists i :: 0 <= i < |items| && items[i].kind == ProducerCredit && items[i].participant == id
  }

  // What an invoice asks its member to pay, for which lines, for how long, at
  // which tax rate; and which producers its proof names.
  ghost predicate Asks(inv: Invoice, period: Period, issueDay: int, id: int) {
    && inv.participant == id && LinesFor(inv.items, period.items, id)
    && (forall p :: p in inv.producers <==> IsCredited(period.items, p) && (period.sourceEvidence ==> p == id))
    && InCents(inv.net, SumFor(period.items, id))
    && inv.vatRate == period.policy.vatRate && InCents(inv.vat, inv.net * period.policy.vatRate / 100.0)
    && inv.gross == inv.net + inv.vat
    && inv.issueDay == issueDay && inv.dueDay == issueDay + period.policy.paymentDays
    && inv.start == period.start && inv.end == period.end && inv.policy == period.policy
  }

  lemma CentsOf(x: real)
    ensures InCents(ToCents(x), x)
  {
    var y := x / 10000.0;
    var n := RoundHalfUp(y);
    HalfUpExact(y, n);
    CentsAround(x, y, n);
    assert ToCents(x) == Cents(n);
  }

  lemma CentsAround(x: real, y: real, n: int)
    requires x == 10000.0 * y
    requires if y >= 0.0 then n as real - 0.5 <= y < n as real + 0.5 else n as real - 0.5 < y <= n as real + 0.5
    ensures Abs(Cents(n) - x) <= 5000.0 && (Abs(Cents(n) - x) == 5000.0 ==> Abs(Cents(n)) > Abs(x))
  {
  }

  lemma NetIsInCents(items: seq<Item>, id: int)
    ensures InCents(NetOf(items, id), SumFor(items, id))
  {
    LinesSum(items, id);
    CentsOf(SumFor(items, id));
  }

  lemma VatIsInCents(net: real, rate: real)
    ensures InCents(VatOn(net, rate), net * rate / 100.0)
  {
    CentsOf(net * rate / 100.0);
  }

  lemma {:induction false} LinesExact(items: seq<Item>, id: int)
    ensures LinesFor(LinesOf(items, id), items, id)
  {
    if items != [] {
      var front, last := items[..|items| - 1], items[|items| - 1];
      LinesExact(front, id);
      assert items == front + [last];
      assert LinesOf(front, id) + [] == LinesOf(front, id);
    }
  }

  lemma {:induction false} KindExact(items: seq<Item>, kind: Kind, x: int)
    ensures x in Participants(OfKind(items, kind)) <==>
      exists i :: 0 <= i < |items| && items[i].kind == kind && items[i].participant == x
  {
    if items != [] {
      var n := |items| - 1;
      var before := OfKind(items[..n], kind);
      KindExact(items[..n], kind, x);
      assert OfKind(items, kind) == before + (if items[n].kind == kind then [items[n]] else []);
      assert Participants(before + [items[n]]) == Participants(before) + [items[n].participant];
      assert before + [] == before;
      if exists i :: 0 <= i < n && items[..n][i].kind == kind && items[..n][i].participant == x {
        var i :| 0 <= i < n && items[..n][i].kind == kind && items[..n][i].participant == x;
        assert items[i].kind == kind && items[i].participant == x;
      }
      if exists i :: 0 <= i < |items| && items[i].kind == kind && items[i].participant == x {
        var i :| 0 <= i < |items| && items[i].kind == kind && items[i].participant == x;
        assert i == n || (items[..n][i].kind == kind && items[..n][i].participant == x);
      }
    }
  }

  lemma ProducersExact(period: Period, id: int)
    ensures forall p :: p in ProvenanceProducers(period, id) <==>
      IsCredited(period.items, p) && (period.sourceEvidence ==> p == id)
  {
    forall p
      ensures p in ProvenanceProducers(period, id) <==> IsCredited(period.items, p) && (period.sourceEvidence ==> p == id)
    {
      KindExact(period.items, ProducerCredit, p);
    }
  }

  lemma InvoiceAsks(period: Period, issueDay: int, id: int, inv: Invoice)
    requires inv == InvoiceOf(period, issueDay, id)
    ensures Asks(inv, period, issueDay, id)
  {
    NetIsInCents(period.items, id);
    VatIsInCents(inv.net, period.policy.vatRate);
    LinesExact(period.items, id);
    ProducersExact(period, id);
  }

  ghost predicate Approvable(period: Period) {
    && period.start < period.end
    && ValidPolicy(period.policy)
    && WellFormed(period.items, PricesOf(period.policy))
    && SharesCovered(period.items, period.battery)
  }

  method FreezeInvoices(period: Period, issueDay: int, ids: seq<int>) returns (invoices: seq<Invoice>)
    ensures |invoices| == |ids|
    ensures forall k :: 0 <= k < |ids| ==> invoices[k] == InvoiceOf(period, issueDay, ids[k])
  {
    invoices := [];
    for k := 0 to |ids|
      invariant |invoices| == k
      invariant forall l :: 0 <= l < k ==> invoices[l] == InvoiceOf(period, issueDay, ids[l])
    {
      invoices := invoices + [InvoiceOf(period, issueDay, ids[k])];
    }
  }

  lemma InvoicesAsk(period: Period, issueDay: int, ids: seq<int>, invoices: seq<Invoice>)
    requires |invoices| == |ids|
    requires forall k :: 0 <= k < |ids| ==> invoices[k] == InvoiceOf(period, issueDay, ids[k])
    ensures forall k :: 0 <= k < |ids| ==> Asks(invoices[k], period, issueDay, ids[k])
  {
    forall k | 0 <= k < |ids|
      ensures Asks(invoices[k], period, issueDay, ids[k])
    {
      InvoiceAsks(period, issueDay, ids[k], invoices[k]);
    }
  }

  method PrepareInvoices(period: Period, issueDay: int) returns (r: Option<seq<Invoice>>)
    ensures r.Some? <==> Approvable(period)
    ensures r.Some? ==>
      && |r.value| == |SortedParticipants(period.items)|
      && forall k :: 0 <= k < |r.value| ==>
           && r.value[k] == InvoiceOf(period, issueDay, SortedParticipants(period.items)[k])
           && Asks(r.value[k], period, issueDay, SortedParticipants(period.items)[k])
  {
    if period.start >= period.end || !ValidPolicy(period.policy) {
      return None;
    }
    var gate := RequireWellformed(period.items, PricesOf(period.policy));
    if gate.None? {
      return None;
    }
    var shares := RequireCostShares(period.items, period.battery);
    if !shares {
      return None;
    }
    var invoices := FreezeInvoices(period, issueDay, SortedParticipants(period.items));
    InvoicesAsk(period, issueDay, SortedParticipants(period.items), invoices);
    return Some(invoices);
  }

  // ---------------------------------------------------------------------
  // Nothing is lost or billed twice.

  predicate Increasing(ids: seq<int>) {
    forall i, j :: 0 <= i < j < |ids| ==> ids[i] < ids[j]
  }

  lemma {:induction false} InsertKeepsOrder(id: int, ids: seq<int>)
    requires Increasing(ids)
    ensures Increasing(Insert(id, ids))
    ensures forall x :: x in Insert(id, ids) <==> x == id || x in ids
  {
    if ids != [] && id > ids[0] {
      var rest := Insert(id, ids[1..]);
      InsertKeepsOrder(id, ids[1..]);
      assert ids == [ids[0]] + ids[1..] && Insert(id, ids) == [ids[0]] + rest;
      forall k | 0 <= k < |rest|
        ensures ids[0] < rest[k]
      {
        assert rest[k] == id || rest[k] in ids[1..];
      }
    }
  }

  // Any list of ids, sorted and without repetition.
  function Sorted(ids: seq<int>): (r: seq<int>)
    ensures Increasing(r) && forall x :: x in r <==> x in ids
  {
    if ids == [] then [] else
      var rest := Sorted(ids[..|ids| - 1]);
      InsertKeepsOrder(ids[|ids| - 1], rest);
      Insert(ids[|ids| - 1], rest)
  }

  lemma {:induction false} SortedCovers(items: seq<Item>)
    ensures Increasing(SortedParticipants(items))
    ensures forall x :: x in SortedParticipants(items) <==> exists i :: 0 <= i < |items| && items[i].participant == x
  {
    if items != [] {
      var n := |items| - 1;
      SortedCovers(items[..n]);
      InsertKeepsOrder(items[n].participant, SortedParticipants(items[..n]));
      forall x
        ensures x in SortedParticipants(items) <==> exists i :: 0 <= i < |items| && items[i].participant == x
      {
        if exists i :: 0 <= i < n && items[..n][i].participant == x {
          var i :| 0 <= i < n && items[..n][i].participant == x;
          assert items[i].participant == x;
        }
        if exists i :: 0 <= i < |items| && items[i].participant == x {
          var i :| 0 <= i < |items| && items[i].participant == x;
          assert i == n || items[..n][i].participant == x;
        }
      }
    }
  }

  // The invoices' lines, one participant after the other.
  function Gathered(items: seq<Item>, ids: seq<int>): seq<Item> {
    if ids == [] then [] else Gathered(items, ids[..|ids| - 1]) + LinesOf(items, ids[|ids| - 1])
  }

  function GatheredTotal(items: seq<Item>, ids: seq<int>): real {
    if ids == [] then 0.0 else
      GatheredTotal(items, ids[..|ids| - 1]) + AmountTotal(LinesOf(items, ids[|ids| - 1]))
  }

  lemma AmountStep(items: seq<Item>, item: Item)
    ensures AmountTotal(items + [item]) == AmountTotal(items) + item.amount
  {
    assert (items + [item])[..|items|] == items;
  }

  lemma LinesStep(items: seq<Item>, item: Item, id: int)
    ensures LinesOf(items + [item], id) == LinesOf(items, id) + if item.participant == id then [item] else []
  {
    assert (items + [item])[..|items|] == items;
  }

  function Once(item: Item, present: bool): multiset<Item> {
    if present then multiset{item} else multiset{}
  }

  lemma LinesOfStep(items: seq<Item>, item: Item, id: int)
    ensures multiset(LinesOf(items + [item], id)) == multiset(LinesOf(items, id)) + Once(item, item.participant == id)
    ensures AmountTotal(LinesOf(items + [item], id))
            == AmountTotal(LinesOf(items, id)) + if item.participant == id then item.amount else 0.0
  {
    LinesStep(items, item, id);
    AmountStep(LinesOf(items, id), item);
    assert LinesOf(items, id) + [] == LinesOf(items, id);
  }

  lemma InLast(ids: seq<int>, x: int)
    requires ids != [] && Increasing(ids)
    ensures x in ids <==> x in ids[..|ids| - 1] || x == ids[|ids| - 1]
    ensures ids[|ids| - 1] !in ids[..|ids| - 1]
  {
    assert ids == ids[..|ids| - 1] + [ids[|ids| - 1]];
  }

  lemma GatheredLast(items: seq<Item>, ids: seq<int>)
    requires ids != []
    ensures multiset(Gathered(items, ids))
            == multiset(Gathered(items, ids[..|ids| - 1])) + multiset(LinesOf(items, ids[|ids| - 1]))
  {
  }

  lemma {:induction false} GatheredStep(items: seq<Item>, item: Item, ids: seq<int>)
    requires Increasing(ids)
    ensures multiset(Gathered(items + [item], ids)) == multiset(Gathered(items, ids)) + Once(item, item.participant in ids)
  {
    if ids != [] {
      var n := |ids| - 1;
      GatheredStep(items, item, ids[..n]);
      LinesOfStep(items, item, ids[n]);
      InLast(ids, item.participant);
      GatheredLast(items + [item], ids);
      GatheredLast(items, ids);
    }
  }

  lemma {:induction false} TotalStep(items: seq<Item>, item: Item, ids: seq<int>)
    requires Increasing(ids)
    ensures GatheredTotal(items + [item], ids)
            == GatheredTotal(items, ids) + if item.participant in ids then item.amount else 0.0
  {
    if ids != [] {
      var n := |ids| - 1;
      TotalStep(items, item, ids[..n]);
      LinesOfStep(items, item, ids[n]);
      InLast(ids, item.participant);
    }
  }

  lemma {:induction false} GatheredNothing(ids: seq<int>)
    ensures Gathered([], ids) == [] && GatheredTotal([], ids) == 0.0
  {
    if ids != [] {
      GatheredNothing(ids[..|ids| - 1]);
    }
  }

  ghost predicate Covers(ids: seq<int>, items: seq<Item>) {
    Increasing(ids) && forall i :: 0 <= i < |items| ==> items[i].participant in ids
  }

  // For every list of participants that covers the lines, each line lands in
  // exactly one invoice.
  lemma {:induction false} Partition(items: seq<Item>, ids: seq<int>)
    requires Covers(ids, items)
    ensures multiset(Gathered(items, ids)) == multiset(items)
    ensures GatheredTotal(items, ids) == AmountTotal(items)
  {
    if items == [] {
      GatheredNothing(ids);
    } else {
      var n := |items| - 1;
      var front, last := items[..n], items[n];
      assert items == front + [last];
      Partition(front, ids);
      GatheredStep(front, last, ids);
      TotalStep(front, last, ids);
      AmountStep(front, last);
    }
  }

  // ---------------------------------------------------------------------
  // Shares and policy limits in figures.

  // Whoever pays a share pays its due, exactly and once.
  ghost predicate PaysDue(items: seq<Item>, b: Battery) {
    && (forall i :: 0 <= i < |items| && items[i].kind == BatteryCostShare ==>
          && items[i].participant in b.expected && items[i].participant != b.participant
          && items[i].amount == b.expected[items[i].participant])
    && (forall i, j :: 0 <= i < j < |items| && items[i].kind == items[j].kind == BatteryCostShare ==>
          items[i].participant != items[j].participant)
  }

  ghost predicate PaysShare(items: seq<Item>, id: int) {
    exists k :: 0 <= k < |items| && items[k].kind == BatteryCostShare && items[k].participant == id
  }

  // With a battery every billed member but the battery pays its due; without one
  // nobody does.
  lemma SharesExact(items: seq<Item>, battery: Option<Battery>)
    requires SharesCovered(items, battery)
    ensures battery.None? ==> forall id :: !PaysShare(items, id)
    ensures battery.Some? ==> PaysDue(items, battery.value)
    ensures battery.Some? ==> forall i :: 0 <= i < |items| && items[i].participant != battery.value.participant ==>
      PaysShare(items, items[i].participant)
  {
    SharesAreKind(items);
    if battery.Some? {
      forall i | 0 <= i < |items| && items[i].participant != battery.value.participant
        ensures PaysShare(items, items[i].participant)
      {
        assert Pays(items, items[i].participant);
        var k :| 0 <= k < |items| && Shares(items[k]) && items[k].participant == items[i].participant;
        assert items[k].kind == BatteryCostShare;
      }
    }
  }

  lemma SharesAreKind(items: seq<Item>)
    ensures forall i :: 0 <= i < |items| ==> (Shares(items[i]) <==> items[i].kind == BatteryCostShare)
  {
  }

  // Payment within 1 to 365 days, VAT up to 100 percent or none at all, no
  // negative price.
  lemma PolicyLimits()
    ensures ValidPolicy(Policy(0.0, None, true, 100.0, 1)) && ValidPolicy(Policy(0.0, Some(0.0), false, 0.0, 365))
    ensures !ValidPolicy(Policy(0.0, None, false, 0.0, 0)) && !ValidPolicy(Policy(0.0, None, false, 0.0, 366))
    ensures !ValidPolicy(Policy(0.0, None, true, 100.01, 30)) && !ValidPolicy(Policy(0.0, None, true, 0.0, 30))
    ensures !ValidPolicy(Policy(0.0, None, false, 8.1, 30))
    ensures !ValidPolicy(Policy(-0.01, None, false, 0.0, 30)) && !ValidPolicy(Policy(0.0, Some(-0.01), false, 0.0, 30))
  {
  }
}
