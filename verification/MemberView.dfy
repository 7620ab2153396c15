/** The member view re-validates a frozen invoice from scratch. Together with
    approval: what is frozen is displayed, and no money appears or disappears. */
module MemberView {
  import opened Numbers
  import opened LineItems
  import opened Approval
  import opened LedgerApproval
  import opened Invoices

  // ---------------------------------------------------------------------
  // The view's own checks.

  predicate LineShown(item: Item, participant: int, policy: Policy) {
    && item.participant == participant
    && if item.kind == RoundingAdjustment || item.kind == BatteryCostShare then
         item.quantity.None? && item.price.None?
       else
         && item.quantity.Some? && item.price.Some?
         && item.quantity.value >= 0.0 && item.price.value >= 0.0
         && (var policyPrice := if item.kind == SettlementFee then policy.settlement else Some(policy.internal);
             policyPrice.Some? && item.price.value == policyPrice.value)
         && (var expected := PricedAmount(item.quantity.value, item.price.value);
             item.amount == if item.kind == ProducerCredit then -expected else expected)
  }

  ghost predicate KindsDistinct(items: seq<Item>) {
    forall i, j :: 0 <= i < j < |items| && items[i].kind != RoundingAdjustment ==> items[i].kind != items[j].kind
  }

  // At most one residual, on a producer's invoice, proven by the frozen residue
  // and carried by the smallest producer of the provenance.
  predicate RoundingShown(inv: Invoice) {
    var rounding, credits := OfKind(inv.items, RoundingAdjustment), OfKind(inv.items, ProducerCredit);
    && |rounding| <= 1
    && (rounding == [] ==> inv.rounding == None)
    && (rounding != [] ==>
          && credits != []
          && inv.rounding == Some(Residue(inv.participant, rounding[0].amount))
          && inv.producers != [] && inv.participant == Smallest(inv.producers))
  }

  predicate TotalsShown(inv: Invoice) {
    && inv.vatRate == inv.policy.vatRate
    && (if inv.policy.standardVat then 0.0 < inv.vatRate <= 100.0 else inv.vatRate == 0.0)
    && ToCents(AmountTotal(inv.items)) == inv.net
    && inv.vat == VatOn(inv.net, inv.vatRate)
    && inv.gross == inv.net + inv.vat
  }

  predicate DatesShown(inv: Invoice) {
    && DayOf(inv.start) < DayOf(inv.end)
    && DayOf(inv.end - 1) <= inv.issueDay
    && inv.dueDay == inv.issueDay + inv.policy.paymentDays
  }

  predicate PolicyShown(p: Policy) {
    && p.internal >= 0.0 && (p.settlement.Some? ==> p.settlement.value >= 0.0)
    && 1 <= p.paymentDays <= 365
  }

  ghost predicate Displayed(inv: Invoice) {
    && PolicyShown(inv.policy)
    && inv.items != []
    && (forall i :: 0 <= i < |inv.items| ==> LineShown(inv.items[i], inv.participant, inv.policy))
    && KindsDistinct(inv.items)
    && RoundingShown(inv)
    && TotalsShown(inv)
    && DatesShown(inv)
  }

  // ---------------------------------------------------------------------
  // One participant's lines inside an approved draft.

  lemma {:induction false} LinesOfMembers(items: seq<Item>, id: int, i: nat)
    requires i < |LinesOf(items, id)|
    ensures LinesOf(items, id)[i].participant == id
    ensures LinesOf(items, id)[i] in items
  {
    var n := |items| - 1;
    if i < |LinesOf(items[..n], id)| {
      LinesOfMembers(items[..n], id, i);
    }
  }

  // Two lines of one invoice are two lines of the draft.
  lemma {:induction false} LinesOfPairs(items: seq<Item>, id: int, i: nat, j: nat) returns (k: nat, l: nat)
    requires i < j < |LinesOf(items, id)|
    ensures k < l < |items| && items[k] == LinesOf(items, id)[i] && items[l] == LinesOf(items, id)[j]
  {
    var n := |items| - 1;
    var front := LinesOf(items[..n], id);
    if j < |front| {
      k, l := LinesOfPairs(items[..n], id, i, j);
    } else {
      l := n;
      LinesOfMembers(items[..n], id, i);
      k :| 0 <= k < n && items[..n][k] == front[i];
    }
  }

  lemma {:induction false} LinesOfKind(items: seq<Item>, id: int, kind: Kind)
    ensures OfKind(LinesOf(items, id), kind) == LinesOf(OfKind(items, kind), id)
  {
    if items != [] {
      var front, last := items[..|items| - 1], items[|items| - 1];
      assert items == front + [last];
      LinesOfKind(front, id, kind);
      LinesStep(front, last, id);
      SumStep(front, last, kind);
      SumStep(LinesOf(front, id), last, kind);
      LinesStep(OfKind(front, kind), last, id);
      assert LinesOf(front, id) + [] == LinesOf(front, id);
      assert OfKind(front, kind) + [] == OfKind(front, kind);
    }
  }

  lemma {:induction false} LinesOfPresent(items: seq<Item>, id: int, i: nat)
    requires i < |items| && items[i].participant == id
    ensures LinesOf(items, id) != []
  {
    if i < |items| - 1 {
      LinesOfPresent(items[..|items| - 1], id, i);
    }
  }

  lemma {:induction false} OfKindMembers(items: seq<Item>, kind: Kind, i: nat)
    requires i < |OfKind(items, kind)|
    ensures OfKind(items, kind)[i].kind == kind && OfKind(items, kind)[i] in items
  {
    var n := |items| - 1;
    if i < |OfKind(items[..n], kind)| {
      OfKindMembers(items[..n], kind, i);
    }
  }

  // ---------------------------------------------------------------------
  // Check by check, an approved draft's invoices pass.

  lemma LinesAreShown(period: Period, id: int, i: nat)
    requires Approvable(period) && i < |LinesOf(period.items, id)|
    ensures LineShown(LinesOf(period.items, id)[i], id, period.policy)
  {
    LinesOfMembers(period.items, id, i);
    var item := LinesOf(period.items, id)[i];
    var k :| 0 <= k < |period.items| && period.items[k] == item;
    assert ValidItem(item, PricesOf(period.policy));
    if item.kind == SettlementFee && period.policy.settlement.None? {
      FeeInMap(period.items, k);
    }
  }

  // A fee line shows up among the fees, so a policy without a fee has none.
  lemma {:induction false} FeeInMap(items: seq<Item>, k: nat)
    requires k < |items| && items[k].kind == SettlementFee && items[k].quantity.Some?
    ensures items[k].participant in QuantityMap(items, SettlementFee)
  {
    if k < |items| - 1 {
      FeeInMap(items[..|items| - 1], k);
    }
  }

  lemma KindsAreDistinct(period: Period, id: int)
    requires Approvable(period)
    ensures KindsDistinct(LinesOf(period.items, id))
  {
    var lines := LinesOf(period.items, id);
    forall i, j | 0 <= i < j < |lines| && lines[i].kind != RoundingAdjustment
      ensures lines[i].kind != lines[j].kind
    {
      var k, l := LinesOfPairs(period.items, id, i, j);
      LinesOfMembers(period.items, id, i);
      LinesOfMembers(period.items, id, j);
      assert !SameLine(period.items[k], period.items[l]);
    }
  }

  lemma SmallestAlone(id: int)
    ensures Smallest([id]) == id
  {
  }

  lemma RoundingIsShown(period: Period, issueDay: int, id: int)
    requires Approvable(period)
    ensures RoundingShown(InvoiceOf(period, issueDay, id))
  {
    var items := period.items;
    var rounding, credits := OfKind(items, RoundingAdjustment), OfKind(items, ProducerCredit);
    LinesOfKind(items, id, RoundingAdjustment);
    LinesOfKind(items, id, ProducerCredit);
    if LinesOf(rounding, id) != [] {
      LinesOfMembers(rounding, id, 0);
      var producers := Participants(credits);
      assert rounding == [rounding[0]] && rounding[0].participant == Smallest(producers) == id;
      assert LinesOf(rounding, id) == [rounding[0]] by {
        assert rounding[..0] == [];
      }
      var k :| 0 <= k < |producers| && producers[k] == id;
      LinesOfPresent(credits, id, k);
      SmallestAlone(id);
    }
  }

  lemma FrozenLinesAreShown(period: Period, issueDay: int, id: int)
    requires Approvable(period) && id in SortedParticipants(period.items)
    ensures var inv := InvoiceOf(period, issueDay, id);
      && inv.items != [] && KindsDistinct(inv.items)
      && forall i :: 0 <= i < |inv.items| ==> LineShown(inv.items[i], inv.participant, inv.policy)
  {
    forall i | 0 <= i < |LinesOf(period.items, id)|
      ensures LineShown(LinesOf(period.items, id)[i], id, period.policy)
    {
      LinesAreShown(period, id, i);
    }
    KindsAreDistinct(period, id);
    SortedCovers(period.items);
    var k :| 0 <= k < |period.items| && period.items[k].participant == id;
    LinesOfPresent(period.items, id, k);
  }

  lemma FrozenTotalsAreShown(period: Period, issueDay: int, id: int)
    requires Approvable(period)
    ensures TotalsShown(InvoiceOf(period, issueDay, id)) && PolicyShown(period.policy)
  {
  }

  // What approval freezes, the member view shows, exactly when the window
  // crosses a local midnight and is over by the issue date. Approval itself
  // tests neither.
  lemma FrozenIsDisplayed(period: Period, issueDay: int, id: int)
    requires Approvable(period) && id in SortedParticipants(period.items)
    ensures Displayed(InvoiceOf(period, issueDay, id))
            <==> period.start / 86400000000 < period.end / 86400000000 && (period.end - 1) / 86400000000 <= issueDay
  {
    FrozenLinesAreShown(period, issueDay, id);
    FrozenTotalsAreShown(period, issueDay, id);
    RoundingIsShown(period, issueDay, id);
  }

  // One member, nothing consumed, nothing produced, two days.
  function QuietPeriod(): Period {
    Period([Item(1, ConsumerCharge, Some(0.0), Some(0.0), 0.0)], Policy(0.0, None, false, 0.0, 30),
           0, 2 * DAY, None, false)
  }

  lemma QuietIsApprovable()
    ensures Approvable(QuietPeriod())
  {
    var charge := QuietPeriod().items[0];
    assert [charge] == [] + [charge];
    SumStep([], charge, ConsumerCharge);
    SumStep([], charge, ProducerCredit);
    SumStep([], charge, RoundingAdjustment);
    MapStep([], charge, SettlementFee);
    RoundWhole(0);
  }

  lemma QuietDays()
    ensures SortedParticipants(QuietPeriod().items) == [1]
    ensures DayOf(QuietPeriod().end - 1) == 1
  {
  }

  // Approving on the first day of a two-day window freezes an invoice that the
  // member cannot open.
  lemma EarlyApprovalIsNotDisplayed()
    ensures Approvable(QuietPeriod()) && 1 in SortedParticipants(QuietPeriod().items)
    ensures !Displayed(InvoiceOf(QuietPeriod(), 0, 1))
  {
    QuietIsApprovable();
    QuietDays();
    FrozenIsDisplayed(QuietPeriod(), 0, 1);
  }

  // ---------------------------------------------------------------------
  // Money conservation across the invoices of a draft.

  function NetTotal(invoices: seq<Invoice>): real {
    if invoices == [] then 0.0 else NetTotal(invoices[..|invoices| - 1]) + invoices[|invoices| - 1].net
  }

  predicate WithinHalfCents(x: real, y: real, n: nat) {
    Abs(x - y) <= HALF_CENT * n as real
  }

  lemma CentRounding(x: real)
    ensures WithinHalfCents(ToCents(x), x, 1)
  {
    var r := RoundHalfUp(x / CENT) as real;
    assert -0.5 <= r - x / CENT <= 0.5;
  }

  lemma RoundingAddsUp(x: real, y: real, x': real, y': real, n: nat)
    requires WithinHalfCents(x, y, n) && WithinHalfCents(x', y', 1)
    ensures WithinHalfCents(x + x', y + y', n + 1)
  {
  }

  lemma {:induction false} NetsNearLines(items: seq<Item>, ids: seq<int>, invoices: seq<Invoice>)
    requires |invoices| == |ids|
    requires forall k :: 0 <= k < |ids| ==> invoices[k].net == NetOf(items, ids[k])
    ensures WithinHalfCents(NetTotal(invoices), GatheredTotal(items, ids), |ids|)
  {
    if ids != [] {
      var n := |ids| - 1;
      NetsNearLines(items, ids[..n], invoices[..n]);
      var lines := AmountTotal(LinesOf(items, ids[n]));
      CentRounding(lines);
      RoundingAddsUp(NetTotal(invoices[..n]), GatheredTotal(items, ids[..n]), invoices[n].net, lines, n);
    }
  }

  lemma {:induction false} TotalByKind(items: seq<Item>)
    ensures AmountTotal(items) == EnergyTotal(items) + AmountOf(items, RoundingAdjustment)
            + AmountOf(items, SettlementFee) + AmountOf(items, BatteryCostShare)
  {
    if items != [] {
      TotalByKind(items[..|items| - 1]);
    }
  }

  ghost predicate Freezes(period: Period, issueDay: int, invoices: seq<Invoice>) {
    && |invoices| == |SortedParticipants(period.items)|
    && forall k :: 0 <= k < |invoices| ==>
         invoices[k] == InvoiceOf(period, issueDay, SortedParticipants(period.items)[k])
  }

  // Each line lands in exactly one invoice.
  lemma InvoicesPartitionLines(period: Period)
    ensures multiset(Gathered(period.items, SortedParticipants(period.items))) == multiset(period.items)
    ensures GatheredTotal(period.items, SortedParticipants(period.items)) == AmountTotal(period.items)
  {
    SortedCovers(period.items);
    Partition(period.items, SortedParticipants(period.items));
  }

  lemma NetsNearTotal(period: Period, issueDay: int, invoices: seq<Invoice>)
    requires Freezes(period, issueDay, invoices)
    ensures WithinHalfCents(NetTotal(invoices), AmountTotal(period.items), |invoices|)
  {
    NetsNearLines(period.items, SortedParticipants(period.items), invoices);
    InvoicesPartitionLines(period);
  }

  // With a producer on the draft the invoices together charge the settlement
  // fees and the battery shares, up to half a cent per invoice.
  lemma InvoicesConserveMoney(period: Period, issueDay: int, invoices: seq<Invoice>)
    requires WellFormed(period.items, PricesOf(period.policy)) && OfKind(period.items, ProducerCredit) != []
    requires Freezes(period, issueDay, invoices)
    ensures WithinHalfCents(NetTotal(invoices),
                            AmountOf(period.items, SettlementFee) + AmountOf(period.items, BatteryCostShare),
                            |invoices|)
  {
    NetsNearTotal(period, issueDay, invoices);
    PoolTotal(period.items, PricesOf(period.policy));
  }

  lemma PoolTotal(items: seq<Item>, prices: Prices)
    requires WellFormed(items, prices) && OfKind(items, ProducerCredit) != []
    ensures AmountTotal(items) == AmountOf(items, SettlementFee) + AmountOf(items, BatteryCostShare)
  {
    TotalByKind(items);
    PoolIsZeroSum(items, prices);
  }

  // ---------------------------------------------------------------------
  // What a displayed invoice shows, in figures.

  // The member's own lines, no kind twice but the adjustment, at the policy's
  // prices; net the sum of the lines and VAT the rate of it, in cents; due the
  // policy's days after an issue date not before the last day of the window.
  lemma DisplayedMeans(inv: Invoice)
    requires Displayed(inv)
    ensures inv.items != [] && forall i :: 0 <= i < |inv.items| ==>
      inv.items[i].participant == inv.participant && ShowsPrice(inv.items[i], inv.policy)
    ensures forall i, j :: 0 <= i < j < |inv.items| && inv.items[i].kind == inv.items[j].kind ==>
      inv.items[i].kind == RoundingAdjustment
    ensures InCents(inv.net, AmountTotal(inv.items)) && InCents(inv.vat, inv.net * inv.vatRate / 100.0)
    ensures inv.gross == inv.net + inv.vat && inv.vatRate == inv.policy.vatRate
    ensures inv.dueDay == inv.issueDay + inv.policy.paymentDays && (inv.end - 1) / 86400000000 <= inv.issueDay
    ensures inv.start / 86400000000 < inv.end / 86400000000
  {
    CentsOf(AmountTotal(inv.items));
    VatIsInCents(inv.net, inv.vatRate);
    forall i | 0 <= i < |inv.items|
      ensures inv.items[i].participant == inv.participant && ShowsPrice(inv.items[i], inv.policy)
    {
      assert LineShown(inv.items[i], inv.participant, inv.policy);
    }
  }

  predicate ShowsPrice(line: Item, p: Policy) {
    match line.kind
    case ConsumerCharge => Costs(line, p.internal, line.amount)
    case ProducerCredit => Costs(line, p.internal, -line.amount)
    case SettlementFee => p.settlement.Some? && Costs(line, p.settlement.value, line.amount)
    case _ => line.quantity.None? && line.price.None?
  }
}
