/** Approval of a whole draft: lines, battery cost shares, the re-check against
    the accepted delivery, both reconciliations and the frozen battery. */
module DraftApproval {
  import opened Numbers
  import opened LineItems
  import opened Approval
  import opened Invoices
  import opened Proration
  import opened CostShares
  import opened VnbReconciliation
  import opened BatteryAttribution
  import opened BatteryApproval
  import opened BilledSource
  import Allocation
  import SourceCertificate
  import LedgerApproval

  predicate Named(bills: seq<Bill>, participants: seq<int>) {
    forall i :: 0 <= i < |bills| ==> bills[i].participant in participants
  }

  lemma EnergyLinesStep(items: seq<Item>, item: Item, participants: seq<int>)
    requires EnergyLines(items, participants)
    requires item.participant in participants && item.kind != BatteryCostShare
    ensures EnergyLines(items + [item], participants)
  {
  }

  lemma {:induction false} ChargesAreEnergyLines(bills: seq<Bill>, price: real, fee: real, participants: seq<int>)
    requires Named(bills, participants)
    ensures EnergyLines(ConsumerItems(bills, price, fee), participants)
  {
    if bills != [] {
      var n := |bills| - 1;
      ChargesAreEnergyLines(bills[..n], price, fee, participants);
      var items := ConsumerItems(bills[..n], price, fee);
      EnergyLinesStep(items, Charge(bills[n], price), participants);
      if fee > 0.0 {
        EnergyLinesStep(items + [Charge(bills[n], price)], Fee(bills[n], fee), participants);
      } else {
        assert items + [Charge(bills[n], price)] + [] == items + [Charge(bills[n], price)];
      }
    }
  }

  lemma {:induction false} CreditsAreEnergyLines(lines: seq<Item>, bills: seq<Bill>, price: real, participants: seq<int>)
    requires EnergyLines(lines, participants) && Named(bills, participants)
    ensures EnergyLines(lines + ProducerItems(bills, price), participants)
  {
    if bills == [] {
      assert lines + [] == lines;
    } else {
      var n := |bills| - 1;
      CreditsAreEnergyLines(lines, bills[..n], price, participants);
      EnergyLinesStep(lines + ProducerItems(bills[..n], price), Credit(bills[n], price), participants);
      assert lines + ProducerItems(bills, price) == lines + ProducerItems(bills[..n], price) + [Credit(bills[n], price)];
    }
  }

  predicate Covered(billed: seq<Billed>, participants: seq<int>) {
    forall i :: 0 <= i < |billed| ==> billed[i].participant in participants
  }

  lemma LedgerIsEnergyLines(consumers: seq<Billed>, producers: seq<Billed>, price: real, fee: real, participants: seq<int>)
    requires Covered(consumers, participants) && Covered(producers, participants)
    ensures EnergyLines(Ledger(consumers, producers, price, fee), participants)
  {
    var cs, ps := BillAll(consumers, price, fee), BillAll(producers, price, fee);
    assert Named(cs, participants) && Named(ps, participants);
    ChargesAreEnergyLines(cs, price, fee, participants);
    CreditsAreEnergyLines(ConsumerItems(cs, price, fee), ps, price, participants);
    var lines := ConsumerItems(cs, price, fee) + ProducerItems(ps, price);
    if Ids(ps) != [] && EnergyTotal(lines) != 0.0 {
      assert Smallest(Ids(ps)) in Ids(ps);
      EnergyLinesStep(lines, Item(Smallest(Ids(ps)), RoundingAdjustment, None, None, -EnergyTotal(lines)), participants);
    }
  }

  predicate Payable(amount: real) {
    amount >= 0.0 && Whole(amount)
  }

  lemma ShareIsPayable(annualCost: real, percent: real, fraction: real)
    requires annualCost >= 0.0 && percent >= 0.0 && fraction >= 0.0
    ensures Payable(CostShare(annualCost, percent, fraction))
  {
    assert annualCost * percent >= 0.0;
    assert annualCost * percent / 100.0 * fraction >= 0.0;
  }

  lemma {:induction false} DuesArePayable(shares: seq<Share>, annualCost: real, fraction: real)
    requires Percentages(shares) && annualCost >= 0.0 && fraction >= 0.0
    ensures forall id :: id in DueOf(shares, annualCost, fraction) ==> Payable(DueOf(shares, annualCost, fraction)[id])
  {
    if shares != [] {
      var n := |shares| - 1;
      DuesArePayable(shares[..n], annualCost, fraction);
      ShareIsPayable(annualCost, shares[n].percent.value, fraction);
    }
  }

  // So do any number of them.
  lemma {:induction false} SharesKeepGate(items: seq<Item>, prices: Prices, lines: seq<Item>)
    requires forall k :: 0 <= k < |lines| ==> lines[k] == ShareLine(lines[k].participant, lines[k].amount) && Payable(lines[k].amount)
    ensures WellFormed(items + lines, prices) <==> WellFormed(items, prices) || (items == [] && lines != [])
  {
    if lines == [] {
      assert items + lines == items;
    } else {
      var n := |lines| - 1;
      SharesKeepGate(items, prices, lines[..n]);
      LedgerApproval.BatteryShareKeepsGate(items + lines[..n], prices, lines[n]);
      assert items + lines == items + lines[..n] + [lines[n]];
    }
  }

  // What the run bills for one period, approval accepts: an allocation in
  // balance, a valid battery that covers every participant, a valid policy.
  lemma DraftIsApprovable(consumers: seq<Billed>, producers: seq<Billed>, c: Config, participants: seq<int>,
                          fraction: real, period: Period)
    requires LedgerApproval.Distinct(consumers) && LedgerApproval.Distinct(producers)
    requires LedgerApproval.NonNegative(consumers) && LedgerApproval.NonNegative(producers)
    requires LedgerApproval.Raw(consumers) == LedgerApproval.Raw(producers)
    requires Covered(consumers, participants) && Covered(producers, participants)
    requires consumers != [] || producers != []
    requires ValidConfig(c) && AllShare(participants, c) && Distinct(participants) && fraction >= 0.0
    requires ValidPolicy(period.policy) && period.start < period.end
    requires var prices := PricesOf(period.policy);
             period.items == Ledger(consumers, producers, prices.internal, prices.settlement)
                             + ShareLines(participants, c.participant, Due(c, fraction))
    requires period.battery == Some(Battery(c.participant, Due(c, fraction)))
    ensures Approvable(period)
  {
    var prices, due := PricesOf(period.policy), Due(c, fraction);
    var ledger := Ledger(consumers, producers, prices.internal, prices.settlement);
    LedgerApproval.LedgerAccepted(consumers, producers, prices);
    LedgerIsEnergyLines(consumers, producers, prices.internal, prices.settlement, participants);
    BilledSharesAreCovered(ledger, c, participants, fraction);
    ShareLinesAre(participants, c.participant, due);
    DuesArePayable(c.shares, c.annualCost.value, fraction);
    SharesKeepGate(ledger, prices, ShareLines(participants, c.participant, due));
  }

  // ---------------------------------------------------------------------
  // Approval of a draft with everything it froze.

  // The billed quantities on one kind of line, in line order.
  function KindLines(items: seq<Item>, kind: Kind): seq<Billed> {
    if items == [] then [] else
      var last := items[|items| - 1];
      KindLines(items[..|items| - 1], kind)
      + if last.kind == kind && last.quantity.Some? then [Billed(last.participant, last.quantity.value)] else []
  }

  // The battery a run froze: its community and configuration, the window and
  // annual fraction it was prorated with, and the attribution of its energy.
  datatype FrozenBattery = FrozenBattery(community: int, config: Config, start: Moment, end: Moment, fraction: real,
                                         energy: Snapshot)

  // With a certificate a draft bills the VNB's quantities beside the engine's.
  datatype Draft = Draft(items: seq<Item>, policy: Policy, start: Moment, end: Moment, sourceEvidence: bool,
                         consumption: Report, production: Report, battery: Option<FrozenBattery>,
                         origin: Origin, model: Allocation.Model,
                         certificate: Option<SourceCertificate.Certificate>)

  // What each member owes for the frozen battery over the draft's own window.
  function BatteryOf(d: Draft): Option<Battery> {
    if d.battery.None? then None
    else
      var c := d.battery.value.config;
      Some(Battery(c.participant, if ValidConfig(c) then Due(c, Fraction(d.start, d.end)) else map[]))
  }

  predicate ValidWindow(d: Draft) {
    ValidMoment(d.start) && ValidMoment(d.end)
  }

  function PeriodOf(d: Draft): Period
    requires ValidWindow(d)
  {
    Period(d.items, d.policy, WallClock(d.start), WallClock(d.end), BatteryOf(d), d.sourceEvidence)
  }

  ghost predicate BatteryApproved(d: Draft, b: FrozenBattery) {
    && ValidConfig(b.config) && b.community == d.origin.community
    && b.start == d.start && b.end == d.end && b.fraction == Fraction(d.start, d.end)
    && EnergyReconciled(b.energy, b.config.participant, QuantityMap(d.items, ConsumerCharge),
                        QuantityMap(d.items, ProducerCredit), d.policy.internal)
  }

  function ClaimOf(d: Draft): Claim {
    Claim(d.origin, d.model, d.certificate, d.battery.Some?, QuantityMap(d.items, ConsumerCharge),
          QuantityMap(d.items, ProducerCredit), d.consumption, d.production)
  }

  // A certified draft, and any draft of a period with an accepted E66 delivery,
  // is held against that delivery.
  ghost predicate SourceApproved(d: Draft, e: Option<Evidence>) {
    d.certificate.Some? || (e.Some? && e.value.e66) ==> e.Some? && Confirmed(ClaimOf(d), e.value)
  }

  // Everything approval finds in the draft itself.
  ghost predicate SelfApproved(d: Draft)
    requires ValidWindow(d)
  {
    && Approvable(PeriodOf(d))
    && Canonical(d.consumption, KindLines(d.items, ConsumerCharge), d.certificate.Some?)
    && Canonical(d.production, KindLines(d.items, ProducerCredit), d.certificate.Some?)
    && (d.battery.Some? ==> BatteryApproved(d, d.battery.value))
  }

  ghost predicate Approved(d: Draft, e: Option<Evidence>)
    requires ValidWindow(d)
  {
    SelfApproved(d) && SourceApproved(d, e)
  }

  method RequireFrozenBattery(d: Draft, b: FrozenBattery) returns (ok: bool)
    requires ValidWindow(d) && Earlier(d.start, d.end)
    ensures ok <==> BatteryApproved(d, b)
  {
    ok := ValidateConfig(b.config);
    if !ok || b.community != d.origin.community {
      return false;
    }
    var fraction := PeriodFraction(d.start, d.end);
    if b.start != d.start || b.end != d.end || b.fraction != fraction.value {
      return false;
    }
    ok := RequireEnergySnapshot(b.energy, b.config.participant, QuantityMap(d.items, ConsumerCharge),
                                QuantityMap(d.items, ProducerCredit), d.policy.internal);
  }

  method RequireSource(d: Draft, e: Option<Evidence>) returns (ok: bool)
    ensures ok <==> SourceApproved(d, e)
  {
    if d.certificate.None? && (e.None? || !e.value.e66) {
      return true;
    }
    if e.None? {
      return false;
    }
    ok := ValidateBilledSource(ClaimOf(d), e.value);
  }

  method RequireReports(d: Draft) returns (ok: bool)
    ensures ok <==>
      && Canonical(d.consumption, KindLines(d.items, ConsumerCharge), d.certificate.Some?)
      && Canonical(d.production, KindLines(d.items, ProducerCredit), d.certificate.Some?)
  {
    var consumed := RequireCanonical(d.consumption, KindLines(d.items, ConsumerCharge), d.certificate.Some?);
    var produced := RequireCanonical(d.production, KindLines(d.items, ProducerCredit), d.certificate.Some?);
    ok := consumed && produced;
  }

  method ApproveDraft(d: Draft, issueDay: int, e: Option<Evidence>) returns (r: Option<seq<Invoice>>)
    requires ValidWindow(d)
    ensures r.Some? <==> Approved(d, e)
    ensures r.Some? ==>
      && |r.value| == |SortedParticipants(d.items)|
      && forall k :: 0 <= k < |r.value| ==>
           && r.value[k] == InvoiceOf(PeriodOf(d), issueDay, SortedParticipants(d.items)[k])
           && Asks(r.value[k], PeriodOf(d), issueDay, SortedParticipants(d.items)[k])
  {
    var sourced := RequireSource(d, e);
    if !sourced {
      return None;
    }
    r := PrepareInvoices(PeriodOf(d), issueDay);
    if r.None? {
      return None;
    }
    var reported := RequireReports(d);
    if !reported {
      return None;
    }
    if d.battery.Some? {
      ClockOrder(d.start, d.end);
      var ok := RequireFrozenBattery(d, d.battery.value);
      if !ok {
        return None;
      }
    }
  }

  // No draft carries both a certificate and a battery.
  lemma CertifiedHasNoBattery(d: Draft, e: Option<Evidence>)
    requires ValidWindow(d) && Approved(d, e)
    ensures d.certificate.None? || d.battery.None?
  {
  }

  // ---------------------------------------------------------------------
  // The quantities a run bills are those of its lines.

  function BillLines(bills: seq<Bill>): (r: seq<Billed>)
    ensures |r| == |bills|
  {
    seq(|bills|, i requires 0 <= i < |bills| => Billed(bills[i].participant, bills[i].quantity))
  }

  lemma KindLinesStep(items: seq<Item>, item: Item, kind: Kind)
    ensures item.kind != kind || item.quantity.None? ==> KindLines(items + [item], kind) == KindLines(items, kind)
    ensures item.kind == kind && item.quantity.Some? ==>
      KindLines(items + [item], kind) == KindLines(items, kind) + [Billed(item.participant, item.quantity.value)]
  {
    assert (items + [item])[..|items|] == items;
    assert KindLines(items, kind) + [] == KindLines(items, kind);
  }

  lemma BillLinesStep(bills: seq<Bill>, n: nat)
    requires n + 1 == |bills|
    ensures BillLines(bills) == BillLines(bills[..n]) + [Billed(bills[n].participant, bills[n].quantity)]
  {
  }

  // The lines of one bill add its quantity to the charges.
  lemma ChargeLine(items: seq<Item>, bill: Bill, price: real, fee: real)
    ensures var after := items + [Charge(bill, price)] + FeeLines(bill, fee);
            KindLines(after, ConsumerCharge) == KindLines(items, ConsumerCharge) + [Billed(bill.participant, bill.quantity)]
            && KindLines(after, ProducerCredit) == KindLines(items, ProducerCredit)
  {
    var charged := items + [Charge(bill, price)];
    KindLinesStep(items, Charge(bill, price), ConsumerCharge);
    KindLinesStep(items, Charge(bill, price), ProducerCredit);
    if fee > 0.0 {
      KindLinesStep(charged, Fee(bill, fee), ConsumerCharge);
      KindLinesStep(charged, Fee(bill, fee), ProducerCredit);
    } else {
      assert charged + [] == charged;
    }
  }

  lemma {:induction false} ChargeLines(bills: seq<Bill>, price: real, fee: real)
    ensures KindLines(ConsumerItems(bills, price, fee), ConsumerCharge) == BillLines(bills)
    ensures KindLines(ConsumerItems(bills, price, fee), ProducerCredit) == []
  {
    if bills != [] {
      var n := |bills| - 1;
      ChargeLines(bills[..n], price, fee);
      ChargeLine(ConsumerItems(bills[..n], price, fee), bills[n], price, fee);
      BillLinesStep(bills, n);
    }
  }

  lemma CreditLine(items: seq<Item>, bill: Bill, price: real)
    ensures KindLines(items + [Credit(bill, price)], ConsumerCharge) == KindLines(items, ConsumerCharge)
    ensures KindLines(items + [Credit(bill, price)], ProducerCredit)
            == KindLines(items, ProducerCredit) + [Billed(bill.participant, bill.quantity)]
  {
    KindLinesStep(items, Credit(bill, price), ConsumerCharge);
    KindLinesStep(items, Credit(bill, price), ProducerCredit);
  }

  // Credits were added to the lines.
  predicate AddsCredits(lines: seq<Item>, all: seq<Item>, credits: seq<Billed>) {
    && KindLines(all, ConsumerCharge) == KindLines(lines, ConsumerCharge)
    && KindLines(all, ProducerCredit) == KindLines(lines, ProducerCredit) + credits
  }

  lemma AddsCredit(lines: seq<Item>, before: seq<Item>, credits: seq<Billed>, bill: Bill, price: real)
    requires AddsCredits(lines, before, credits)
    ensures AddsCredits(lines, before + [Credit(bill, price)], credits + [Billed(bill.participant, bill.quantity)])
  {
    CreditLine(before, bill, price);
  }

  lemma {:induction false} CreditLines(lines: seq<Item>, bills: seq<Bill>, price: real)
    ensures AddsCredits(lines, lines + ProducerItems(bills, price), BillLines(bills))
  {
    if bills == [] {
      assert lines + [] == lines;
    } else {
      var n := |bills| - 1;
      CreditLines(lines, bills[..n], price);
      LedgerApproval.ProducerItemsStep(lines, bills, price);
      AddsCredit(lines, lines + ProducerItems(bills[..n], price), BillLines(bills[..n]), bills[n], price);
      BillLinesStep(bills, n);
    }
  }

  lemma LedgerLines(consumers: seq<Bill>, producers: seq<Bill>, price: real, fee: real)
    ensures KindLines(LedgerOf(consumers, producers, price, fee), ConsumerCharge) == BillLines(consumers)
    ensures KindLines(LedgerOf(consumers, producers, price, fee), ProducerCredit) == BillLines(producers)
  {
    var charges := ConsumerItems(consumers, price, fee);
    ChargeLines(consumers, price, fee);
    CreditLines(charges, producers, price);
    var lines := charges + ProducerItems(producers, price);
    if Ids(producers) != [] && EnergyTotal(lines) != 0.0 {
      var residue := Item(Smallest(Ids(producers)), RoundingAdjustment, None, None, -EnergyTotal(lines));
      KindLinesStep(lines, residue, ConsumerCharge);
      KindLinesStep(lines, residue, ProducerCredit);
    }
  }

  lemma {:induction false} SharesCarryNoQuantity(items: seq<Item>, lines: seq<Item>, kind: Kind)
    requires forall k :: 0 <= k < |lines| ==> lines[k].quantity.None?
    ensures KindLines(items + lines, kind) == KindLines(items, kind)
  {
    if lines == [] {
      assert items + lines == items;
    } else {
      var n := |lines| - 1;
      SharesCarryNoQuantity(items, lines[..n], kind);
      KindLinesStep(items + lines[..n], lines[n], kind);
      assert items + lines == items + lines[..n] + [lines[n]];
    }
  }

  // ---------------------------------------------------------------------
  // Drafts without a battery.

  // What a run bills: columns of at most six decimals whose sides balance.
  ghost predicate Billing(consumers: seq<Billed>, producers: seq<Billed>) {
    && (consumers != [] || producers != [])
    && LedgerApproval.Distinct(consumers) && LedgerApproval.Distinct(producers)
    && LedgerApproval.NonNegative(consumers) && LedgerApproval.NonNegative(producers)
    && WholeQuantities(consumers) && WholeQuantities(producers)
    && LedgerApproval.Raw(consumers) == LedgerApproval.Raw(producers)
  }

  ghost predicate WholeQuantities(billed: seq<Billed>) {
    forall i :: 0 <= i < |billed| ==> Whole(billed[i].quantity)
  }

  // A reconciliation lists the billed participants, in their order.
  ghost predicate Reports(side: seq<Figures>, billed: seq<Billed>) {
    && |side| == |billed| && WholeFigures(side)
    && forall i :: 0 <= i < |side| ==> side[i].participant == billed[i].participant
  }

  lemma WholeColumns(billed: seq<Billed>, price: real, fee: real)
    requires WholeQuantities(billed)
    ensures BillLines(BillAll(billed, price, fee)) == billed
  {
    forall i | 0 <= i < |billed|
      ensures BillLines(BillAll(billed, price, fee))[i] == billed[i]
    {
      RoundWhole(billed[i].quantity.Floor);
    }
  }

  // The lines of a draft carry the billed columns as they are.
  lemma DraftLines(consumers: seq<Billed>, producers: seq<Billed>, prices: Prices, shares: seq<Item>)
    requires WholeQuantities(consumers) && WholeQuantities(producers)
    requires forall k :: 0 <= k < |shares| ==> shares[k].quantity.None?
    ensures var items := Ledger(consumers, producers, prices.internal, prices.settlement) + shares;
            KindLines(items, ConsumerCharge) == consumers && KindLines(items, ProducerCredit) == producers
  {
    var price, fee := prices.internal, prices.settlement;
    LedgerLines(BillAll(consumers, price, fee), BillAll(producers, price, fee), price, fee);
    WholeColumns(consumers, price, fee);
    WholeColumns(producers, price, fee);
    SharesCarryNoQuantity(Ledger(consumers, producers, price, fee), shares, ConsumerCharge);
    SharesCarryNoQuantity(Ledger(consumers, producers, price, fee), shares, ProducerCredit);
  }

  lemma LedgerHasNoShares(consumers: seq<Billed>, producers: seq<Billed>, prices: Prices)
    ensures SharesCovered(Ledger(consumers, producers, prices.internal, prices.settlement), None)
  {
    var all := Ids(BillAll(consumers, 0.0, 0.0)) + Ids(BillAll(producers, 0.0, 0.0));
    forall i | 0 <= i < |consumers|
      ensures consumers[i].participant in all
    {
      assert all[i] == consumers[i].participant;
    }
    forall i | 0 <= i < |producers|
      ensures producers[i].participant in all
    {
      assert all[|consumers| + i] == producers[i].participant;
    }
    LedgerIsEnergyLines(consumers, producers, prices.internal, prices.settlement, all);
  }

  // Whatever figures of the VNB and the engine a run reports, its draft stands on
  // its own iff each participant is billed the VNB's figure and, without a
  // certificate, the engine arrived at that figure too.
  lemma PlainStands(consumers: seq<Billed>, producers: seq<Billed>,
                    consumed: seq<Figures>, produced: seq<Figures>, d: Draft)
    requires Billing(consumers, producers) && Reports(consumed, consumers) && Reports(produced, producers)
    requires ValidPolicy(d.policy) && d.battery == None
    requires ValidWindow(d) && Earlier(d.start, d.end)
    requires d.items == Ledger(consumers, producers, PricesOf(d.policy).internal, PricesOf(d.policy).settlement)
    requires d.consumption == ReportOf(consumed) && d.production == ReportOf(produced)
    ensures SelfApproved(d) <==>
      && BilledAsReported(consumed, consumers, d.certificate.Some?)
      && BilledAsReported(produced, producers, d.certificate.Some?)
  {
    PlainIsApprovable(consumers, producers, d);
    ReportAccepted(consumed, consumers, d.certificate.Some?);
    ReportAccepted(produced, producers, d.certificate.Some?);
  }

  // Approval accepts it iff the accepted delivery confirms it as well, where one
  // is asked for.
  lemma PlainDraftIsApproved(consumers: seq<Billed>, producers: seq<Billed>,
                             consumed: seq<Figures>, produced: seq<Figures>, d: Draft, e: Option<Evidence>)
    requires Billing(consumers, producers) && Reports(consumed, consumers) && Reports(produced, producers)
    requires ValidPolicy(d.policy) && d.battery == None
    requires ValidWindow(d) && Earlier(d.start, d.end)
    requires d.items == Ledger(consumers, producers, PricesOf(d.policy).internal, PricesOf(d.policy).settlement)
    requires d.consumption == ReportOf(consumed) && d.production == ReportOf(produced)
    ensures Approved(d, e) <==>
      && SourceApproved(d, e)
      && BilledAsReported(consumed, consumers, d.certificate.Some?)
      && BilledAsReported(produced, producers, d.certificate.Some?)
  {
    PlainStands(consumers, producers, consumed, produced, d);
  }

  lemma PlainIsApprovable(consumers: seq<Billed>, producers: seq<Billed>, d: Draft)
    requires Billing(consumers, producers) && ValidPolicy(d.policy) && d.battery == None
    requires ValidWindow(d) && Earlier(d.start, d.end)
    requires d.items == Ledger(consumers, producers, PricesOf(d.policy).internal, PricesOf(d.policy).settlement)
    ensures Approvable(PeriodOf(d))
    ensures KindLines(d.items, ConsumerCharge) == consumers && KindLines(d.items, ProducerCredit) == producers
  {
    var prices := PricesOf(d.policy);
    LedgerApproval.LedgerAccepted(consumers, producers, prices);
    LedgerHasNoShares(consumers, producers, prices);
    ClockOrder(d.start, d.end);
    assert d.items + [] == d.items;
    DraftLines(consumers, producers, prices, []);
  }

  // The quantities per participant on one kind of line are a dictionary.
  lemma {:induction false} QuantitiesAreLines(items: seq<Item>, kind: Kind)
    requires LedgerApproval.Distinct(KindLines(items, kind))
    ensures QuantityMap(items, kind).Keys == LineIds(KindLines(items, kind))
    ensures forall id, q :: HasLine(KindLines(items, kind), id, q) ==>
      id in QuantityMap(items, kind) && QuantityMap(items, kind)[id] == q
  {
    if items != [] {
      var front, last := items[..|items| - 1], items[|items| - 1];
      var before, after := KindLines(front, kind), KindLines(items, kind);
      assert items == front + [last];
      KindLinesStep(front, last, kind);
      MapStep(front, last, kind);
      if last.kind == kind && last.quantity.Some? {
        var line := Billed(last.participant, last.quantity.value);
        assert after == before + [line];
        LinesGrow(before, line);
        QuantitiesAreLines(front, kind);
      } else {
        QuantitiesAreLines(front, kind);
      }
    }
  }

  lemma LinesGrow(lines: seq<Billed>, line: Billed)
    requires LedgerApproval.Distinct(lines + [line])
    ensures LedgerApproval.Distinct(lines) && line.participant !in LineIds(lines)
    ensures LineIds(lines + [line]) == LineIds(lines) + {line.participant}
    ensures forall id, q :: HasLine(lines + [line], id, q) <==> HasLine(lines, id, q) || Billed(id, q) == line
  {
    var all := lines + [line];
    assert forall i :: 0 <= i < |lines| ==> all[i] == lines[i];
    assert all[|lines|] == line;
    forall id
      ensures id in LineIds(all) <==> id in LineIds(lines) || id == line.participant
    {
      if id in LineIds(lines) {
        var i :| 0 <= i < |lines| && lines[i].participant == id;
        assert all[i].participant == id;
      }
    }
    forall id, q
      ensures HasLine(all, id, q) <==> HasLine(lines, id, q) || Billed(id, q) == line
    {
      if HasLine(lines, id, q) {
        var i :| 0 <= i < |lines| && lines[i] == Billed(id, q);
        assert all[i] == Billed(id, q);
      }
    }
  }

}
