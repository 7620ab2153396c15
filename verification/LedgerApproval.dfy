/** What the engine emits, approval accepts; what approval accepts is a
    zero-sum energy pool. */
module LedgerApproval {
  import opened Numbers
  import opened LineItems
  import opened Approval

  // ---------------------------------------------------------------------
  // Money conservation behind the gate.

  lemma {:induction false} EnergyIsWhole(items: seq<Item>, prices: Prices)
    requires forall i :: 0 <= i < |items| ==> ValidItem(items[i], prices)
    ensures Whole(EnergyTotal(items))
  {
    if items != [] {
      EnergyIsWhole(items[..|items| - 1], prices);
      var last := items[|items| - 1];
      AmountIsWhole(last, prices);
      WholeAdds(EnergyTotal(items[..|items| - 1]), if Energy(last) then last.amount else 0.0);
    }
  }

  lemma PricedIsWhole(quantity: real, price: real)
    ensures Whole(PricedAmount(quantity, price)) && Whole(-PricedAmount(quantity, price))
  {
    WholeInt(RoundHalfUp(quantity * price));
  }

  lemma AmountIsWhole(item: Item, prices: Prices)
    requires ValidItem(item, prices)
    ensures Whole(item.amount)
  {
    if PricedItem(item) {
      PricedIsWhole(item.quantity.value, item.price.value);
    }
  }

  lemma {:induction false} AmountOfKind(items: seq<Item>, kind: Kind)
    ensures OfKind(items, kind) == [] ==> AmountOf(items, kind) == 0.0
    ensures |OfKind(items, kind)| == 1 ==> AmountOf(items, kind) == OfKind(items, kind)[0].amount
  {
    if items != [] {
      AmountOfKind(items[..|items| - 1], kind);
    }
  }

  // With a producer on the draft the energy pool sums to zero, to the last
  // millionth: charges, credits and the adjustment cancel.
  lemma PoolIsZeroSum(items: seq<Item>, prices: Prices)
    requires WellFormed(items, prices) && OfKind(items, ProducerCredit) != []
    ensures EnergyTotal(items) + AmountOf(items, RoundingAdjustment) == 0.0
  {
    EnergyIsWhole(items, prices);
    AmountOfKind(items, RoundingAdjustment);
    var energy := EnergyTotal(items);
    WholeAdds(energy, 0.0);
    RoundWhole((-energy).Floor);
    assert Participants(OfKind(items, ProducerCredit)) != [];
  }

  // A line outside the energy pool and the fees leaves every total as it is.
  lemma OtherLine(items: seq<Item>, item: Item)
    requires item.kind == BatteryCostShare || item.kind == RoundingAdjustment
    ensures var all := items + [item];
      && Mismatch(all) == Mismatch(items) && HalfPerLine(all) == HalfPerLine(items)
      && EnergyTotal(all) == EnergyTotal(items)
      && OfKind(all, ProducerCredit) == OfKind(items, ProducerCredit)
      && OfKind(all, RoundingAdjustment)
         == OfKind(items, RoundingAdjustment) + (if item.kind == RoundingAdjustment then [item] else [])
      && QuantityMap(all, ConsumerCharge) == QuantityMap(items, ConsumerCharge)
      && QuantityMap(all, SettlementFee) == QuantityMap(items, SettlementFee)
  {
    SumStep(items, item, ConsumerCharge);
    SumStep(items, item, ProducerCredit);
    SumStep(items, item, RoundingAdjustment);
    MapStep(items, item, ConsumerCharge);
    MapStep(items, item, SettlementFee);
  }

  // A payable battery cost share leaves the gate's verdict as it is, but for the
  // draft without a line, which it makes acceptable.
  lemma BatteryShareKeepsGate(items: seq<Item>, prices: Prices, share: Item)
    requires share.kind == BatteryCostShare && ValidItem(share, prices)
    ensures WellFormed(items + [share], prices) <==> WellFormed(items, prices) || items == []
  {
    OtherLine(items, share);
    ShareIsClean(items, prices, share);
    assert RoundingCloses(items + [share], prices) == RoundingCloses(items, prices);
    assert FeesMatch(items + [share], prices) == FeesMatch(items, prices);
    if items == [] {
      NothingIsClosed(prices);
    }
  }

  lemma ShareIsClean(items: seq<Item>, prices: Prices, share: Item)
    requires share.kind == BatteryCostShare && ValidItem(share, prices)
    ensures Clean(items + [share], prices) <==> Clean(items, prices)
  {
    var all := items + [share];
    assert all[|items|] == share;
    assert forall i :: 0 <= i < |items| ==> all[i] == items[i];
  }

  lemma NothingIsClosed(prices: Prices)
    ensures RoundingCloses([], prices) && FeesMatch([], prices) && Mismatch([]) <= HalfPerLine([])
  {
  }

  // ---------------------------------------------------------------------
  // Sums of the engine's ledger.

  predicate Distinct(billed: seq<Billed>) {
    forall i, j :: 0 <= i < j < |billed| ==> billed[i].participant != billed[j].participant
  }

  predicate NonNegative(billed: seq<Billed>) {
    forall i :: 0 <= i < |billed| ==> billed[i].quantity >= 0.0
  }

  function Raw(billed: seq<Billed>): real {
    if billed == [] then 0.0 else Raw(billed[..|billed| - 1]) + billed[|billed| - 1].quantity
  }

  function Quantities(bills: seq<Bill>): real {
    if bills == [] then 0.0 else Quantities(bills[..|bills| - 1]) + bills[|bills| - 1].quantity
  }

  function Amounts(bills: seq<Bill>): real {
    if bills == [] then 0.0 else Amounts(bills[..|bills| - 1]) + bills[|bills| - 1].amount
  }

  function BillMap(bills: seq<Bill>): map<int, real> {
    if bills == [] then map[] else
      BillMap(bills[..|bills| - 1])[bills[|bills| - 1].participant := bills[|bills| - 1].quantity]
  }

  // Appending a consumer's charge, with or without a fee line.
  lemma ConsumerStep(front: seq<Item>, charge: Item, fees: seq<Item>)
    requires charge.kind == ConsumerCharge && charge.quantity.Some?
    requires fees == [] || (|fees| == 1 && fees[0].kind == SettlementFee && fees[0].quantity.Some?)
    ensures var lines := front + [charge] + fees;
      && QuantityOf(lines, ConsumerCharge) == QuantityOf(front, ConsumerCharge) + charge.quantity.value
      && QuantityOf(lines, ProducerCredit) == QuantityOf(front, ProducerCredit)
      && EnergyCount(lines) == EnergyCount(front) + 1
      && OfKind(lines, ProducerCredit) == OfKind(front, ProducerCredit)
      && OfKind(lines, RoundingAdjustment) == OfKind(front, RoundingAdjustment)
      && EnergyTotal(lines) == EnergyTotal(front) + charge.amount
      && QuantityMap(lines, ConsumerCharge)
         == QuantityMap(front, ConsumerCharge)[charge.participant := charge.quantity.value]
      && QuantityMap(lines, SettlementFee)
         == if fees == [] then QuantityMap(front, SettlementFee)
            else QuantityMap(front, SettlementFee)[fees[0].participant := fees[0].quantity.value]
  {
    SumStep(front, charge, ConsumerCharge);
    SumStep(front, charge, ProducerCredit);
    SumStep(front, charge, RoundingAdjustment);
    MapStep(front, charge, ConsumerCharge);
    MapStep(front, charge, SettlementFee);
    var charged := front + [charge];
    if fees == [] {
      assert charged + fees == charged;
    } else {
      assert fees == [fees[0]];
      SumStep(charged, fees[0], ConsumerCharge);
      SumStep(charged, fees[0], ProducerCredit);
      SumStep(charged, fees[0], RoundingAdjustment);
      MapStep(charged, fees[0], ConsumerCharge);
      MapStep(charged, fees[0], SettlementFee);
    }
  }

  lemma {:induction false} ConsumerSums(bills: seq<Bill>, price: real, fee: real)
    ensures var lines := ConsumerItems(bills, price, fee);
      && QuantityOf(lines, ConsumerCharge) == Quantities(bills) && QuantityOf(lines, ProducerCredit) == 0.0
      && EnergyCount(lines) == |bills| && EnergyTotal(lines) == Amounts(bills)
      && OfKind(lines, ProducerCredit) == [] && OfKind(lines, RoundingAdjustment) == []
      && QuantityMap(lines, ConsumerCharge) == BillMap(bills)
      && QuantityMap(lines, SettlementFee) == (if fee > 0.0 then BillMap(bills) else map[])
  {
    if bills != [] {
      var n := |bills| - 1;
      ConsumerSums(bills[..n], price, fee);
      ConsumerStep(ConsumerItems(bills[..n], price, fee), Charge(bills[n], price), FeeLines(bills[n], fee));
    }
  }

  // Appending a producer's credit.
  lemma ProducerStep(front: seq<Item>, credit: Item)
    requires credit.kind == ProducerCredit && credit.quantity.Some?
    ensures var lines := front + [credit];
      && QuantityOf(lines, ConsumerCharge) == QuantityOf(front, ConsumerCharge)
      && QuantityOf(lines, ProducerCredit) == QuantityOf(front, ProducerCredit) + credit.quantity.value
      && EnergyCount(lines) == EnergyCount(front) + 1
      && Participants(OfKind(lines, ProducerCredit)) == Participants(OfKind(front, ProducerCredit)) + [credit.participant]
      && OfKind(lines, RoundingAdjustment) == OfKind(front, RoundingAdjustment)
      && EnergyTotal(lines) == EnergyTotal(front) + credit.amount
      && QuantityMap(lines, ConsumerCharge) == QuantityMap(front, ConsumerCharge)
      && QuantityMap(lines, SettlementFee) == QuantityMap(front, SettlementFee)
  {
    SumStep(front, credit, ConsumerCharge);
    SumStep(front, credit, ProducerCredit);
    SumStep(front, credit, RoundingAdjustment);
    MapStep(front, credit, ConsumerCharge);
    MapStep(front, credit, SettlementFee);
  }

  lemma ProducerItemsStep(lines: seq<Item>, bills: seq<Bill>, price: real)
    requires bills != []
    ensures lines + ProducerItems(bills, price)
            == lines + ProducerItems(bills[..|bills| - 1], price) + [Credit(bills[|bills| - 1], price)]
  {
  }

  lemma {:induction false} ProducerSums(lines: seq<Item>, bills: seq<Bill>, price: real)
    ensures var all := lines + ProducerItems(bills, price);
      && QuantityOf(all, ConsumerCharge) == QuantityOf(lines, ConsumerCharge)
      && QuantityOf(all, ProducerCredit) == QuantityOf(lines, ProducerCredit) + Quantities(bills)
      && EnergyCount(all) == EnergyCount(lines) + |bills| && EnergyTotal(all) == EnergyTotal(lines) - Amounts(bills)
  {
    if bills == [] {
      assert lines + ProducerItems(bills, price) == lines;
    } else {
      var n := |bills| - 1;
      ProducerSums(lines, bills[..n], price);
      ProducerItemsStep(lines, bills, price);
      ProducerStep(lines + ProducerItems(bills[..n], price), Credit(bills[n], price));
    }
  }

  // Credits were added to the lines, and nothing else.
  predicate CreditsAdded(lines: seq<Item>, all: seq<Item>, ids: seq<int>) {
    && Participants(OfKind(all, ProducerCredit)) == Participants(OfKind(lines, ProducerCredit)) + ids
    && OfKind(all, RoundingAdjustment) == OfKind(lines, RoundingAdjustment)
    && QuantityMap(all, ConsumerCharge) == QuantityMap(lines, ConsumerCharge)
    && QuantityMap(all, SettlementFee) == QuantityMap(lines, SettlementFee)
  }

  lemma CreditAdded(lines: seq<Item>, before: seq<Item>, ids: seq<int>, credit: Item)
    requires CreditsAdded(lines, before, ids) && credit.kind == ProducerCredit && credit.quantity.Some?
    ensures CreditsAdded(lines, before + [credit], ids + [credit.participant])
  {
    ProducerStep(before, credit);
  }

  lemma {:induction false} ProducerKinds(lines: seq<Item>, bills: seq<Bill>, price: real)
    ensures CreditsAdded(lines, lines + ProducerItems(bills, price), Ids(bills))
  {
    if bills == [] {
      assert lines + ProducerItems(bills, price) == lines;
    } else {
      var n := |bills| - 1;
      ProducerKinds(lines, bills[..n], price);
      ProducerItemsStep(lines, bills, price);
      CreditAdded(lines, lines + ProducerItems(bills[..n], price), Ids(bills[..n]), Credit(bills[n], price));
      assert Ids(bills) == Ids(bills[..n]) + [bills[n].participant];
    }
  }

  // ---------------------------------------------------------------------
  // Pricing.

  // n rounded amounts are within n halves of the exact price of the quantity.
  predicate Near(total: real, price: real, quantity: real, n: nat) {
    Abs(total - price * quantity) <= 0.5 * n as real
  }

  lemma MoneyStep(price: real, before: real, quantity: real, total: real, n: nat)
    requires Near(total, price, before, n)
    ensures Near(total + PricedAmount(quantity, price), price, before + quantity, n + 1)
  {
    assert quantity * price == price * quantity;
    assert price * (before + quantity) == price * before + price * quantity;
  }

  lemma {:induction false} PricingNear(billed: seq<Billed>, price: real, fee: real)
    ensures Near(Amounts(BillAll(billed, price, fee)), price, Quantities(BillAll(billed, price, fee)), |billed|)
  {
    if billed != [] {
      var n := |billed| - 1;
      PricingNear(billed[..n], price, fee);
      assert BillAll(billed, price, fee)[..n] == BillAll(billed[..n], price, fee);
      var front := BillAll(billed[..n], price, fee);
      MoneyStep(price, Quantities(front), BillOf(billed[n], price, fee).quantity, Amounts(front), n);
    }
  }

  lemma {:induction false} RoundedTotals(billed: seq<Billed>, price: real, fee: real)
    ensures Abs(Quantities(BillAll(billed, price, fee)) - Raw(billed)) <= 0.5 * |billed| as real
  {
    if billed != [] {
      var n := |billed| - 1;
      RoundedTotals(billed[..n], price, fee);
      assert BillAll(billed, price, fee)[..n] == BillAll(billed[..n], price, fee);
      assert Abs(BillOf(billed[n], price, fee).quantity - billed[n].quantity) <= 0.5;
    }
  }

  // ---------------------------------------------------------------------
  // Lines of the engine's ledger.

  ghost predicate Clean(items: seq<Item>, prices: Prices) {
    NoRepeatedLines(items) && forall i :: 0 <= i < |items| ==> ValidItem(items[i], prices)
  }

  predicate ValidBill(b: Bill, prices: Prices) {
    && b.quantity >= 0.0
    && b.amount == PricedAmount(b.quantity, prices.internal)
    && b.fee == PricedAmount(b.quantity, prices.settlement)
  }

  predicate ValidBills(bills: seq<Bill>, prices: Prices) {
    && (forall i :: 0 <= i < |bills| ==> ValidBill(bills[i], prices))
    && (forall i, j :: 0 <= i < j < |bills| ==> bills[i].participant != bills[j].participant)
  }

  lemma BillsAreValid(billed: seq<Billed>, prices: Prices)
    requires Distinct(billed) && NonNegative(billed)
    ensures ValidBills(BillAll(billed, prices.internal, prices.settlement), prices)
  {
  }

  lemma CleanStep(items: seq<Item>, prices: Prices, item: Item)
    requires Clean(items, prices) && ValidItem(item, prices)
    requires forall i :: 0 <= i < |items| ==> !SameLine(items[i], item)
    ensures Clean(items + [item], prices)
  {
  }

  lemma {:induction false} ConsumerLines(bills: seq<Bill>, prices: Prices)
    requires ValidBills(bills, prices) && prices.internal >= 0.0 && prices.settlement >= 0.0
    ensures var lines := ConsumerItems(bills, prices.internal, prices.settlement);
      && Clean(lines, prices)
      && forall i :: 0 <= i < |lines| ==> lines[i].kind != ProducerCredit && lines[i].participant in Ids(bills)
  {
    if bills != [] {
      var n := |bills| - 1;
      ConsumerLines(bills[..n], prices);
      var front, last := ConsumerItems(bills[..n], prices.internal, prices.settlement), bills[n];
      assert Ids(bills) == Ids(bills[..n]) + [last.participant];
      assert last.participant !in Ids(bills[..n]);
      CleanStep(front, prices, Charge(last, prices.internal));
      CleanStep(front + [Charge(last, prices.internal)], prices, Fee(last, prices.settlement));
    }
  }

  lemma {:induction false} ProducerLines(lines: seq<Item>, bills: seq<Bill>, prices: Prices)
    requires ValidBills(bills, prices) && prices.internal >= 0.0 && prices.settlement >= 0.0
    requires Clean(lines, prices)
    requires forall i :: 0 <= i < |lines| ==> lines[i].kind != ProducerCredit
    ensures var all := lines + ProducerItems(bills, prices.internal);
      && Clean(all, prices)
      && forall i :: 0 <= i < |all| && all[i].kind == ProducerCredit ==> all[i].participant in Ids(bills)
  {
    if bills == [] {
      assert lines + ProducerItems(bills, prices.internal) == lines;
    } else {
      var n := |bills| - 1;
      ProducerLines(lines, bills[..n], prices);
      ProducerItemsStep(lines, bills, prices.internal);
      assert Ids(bills) == Ids(bills[..n]) + [bills[n].participant];
      assert bills[n].participant !in Ids(bills[..n]);
      CleanStep(lines + ProducerItems(bills[..n], prices.internal), prices, Credit(bills[n], prices.internal));
    }
  }

  // ---------------------------------------------------------------------
  // The engine's output passes the gate.

  lemma AbsProduct(factor: real, x: real)
    requires factor >= 0.0
    ensures Abs(factor * x) == Abs(x) * factor
  {
  }

  lemma Triangle(charged: real, credited: real, x: real, y: real)
    ensures Abs(charged - credited) <= Abs(charged - x) + Abs(credited - y) + Abs(x - y)
  {
  }

  lemma ResidueBounded(consumed: real, produced: real, charged: real, credited: real, price: real, n: nat, m: nat)
    requires price >= 0.0 && Near(charged, price, consumed, n) && Near(credited, price, produced, m)
    ensures Abs(charged - credited) <= ResidueBound(Abs(consumed - produced), price, 0.5 * (n + m) as real)
  {
    PriceGap(price, consumed, produced);
    AddUp(charged, credited, price * consumed, price * produced, 0.5 * n as real, 0.5 * m as real,
          Abs(consumed - produced) * price);
  }

  lemma PriceGap(price: real, consumed: real, produced: real)
    requires price >= 0.0
    ensures Abs(price * consumed - price * produced) == Abs(consumed - produced) * price
  {
    Distribute(price, consumed, produced);
    AbsProduct(price, consumed - produced);
  }

  lemma AddUp(charged: real, credited: real, x: real, y: real, a: real, b: real, gap: real)
    requires Abs(charged - x) <= a && Abs(credited - y) <= b && Abs(x - y) == gap
    ensures Abs(charged - credited) <= gap + (a + b)
  {
  }

  lemma Distribute(factor: real, x: real, y: real)
    ensures factor * x - factor * y == factor * (x - y)
  {
  }

  ghost predicate Balanced(lines: seq<Item>, producers: seq<int>, prices: Prices) {
    && Mismatch(lines) <= HalfPerLine(lines)
    && Abs(EnergyTotal(lines)) <= ResidueBound(Mismatch(lines), prices.internal, HalfPerLine(lines))
    && Participants(OfKind(lines, ProducerCredit)) == producers
    && OfKind(lines, RoundingAdjustment) == []
    && FeesMatch(lines, prices)
  }

  // The quantities and the money of two sides are within the gate's bounds.
  predicate WithinBounds(consumers: seq<Bill>, producers: seq<Bill>, price: real) {
    var mismatch := Abs(Quantities(consumers) - Quantities(producers));
    var half := 0.5 * (|consumers| + |producers|) as real;
    && mismatch <= half
    && Abs(Amounts(consumers) - Amounts(producers)) <= ResidueBound(mismatch, price, half)
  }

  lemma PricingWithinBounds(consumers: seq<Billed>, producers: seq<Billed>, prices: Prices)
    requires Raw(consumers) == Raw(producers) && prices.internal >= 0.0
    ensures WithinBounds(BillAll(consumers, prices.internal, prices.settlement),
                         BillAll(producers, prices.internal, prices.settlement), prices.internal)
  {
    var cs := BillAll(consumers, prices.internal, prices.settlement);
    var ps := BillAll(producers, prices.internal, prices.settlement);
    RoundedBills(consumers, prices.internal, prices.settlement, cs);
    RoundedBills(producers, prices.internal, prices.settlement, ps);
    BillsWithinBounds(cs, ps, Raw(consumers), prices.internal);
  }

  lemma RoundedBills(billed: seq<Billed>, price: real, fee: real, bills: seq<Bill>)
    requires bills == BillAll(billed, price, fee)
    ensures Near(Amounts(bills), price, Quantities(bills), |bills|)
    ensures Abs(Quantities(bills) - Raw(billed)) <= 0.5 * |bills| as real
  {
    PricingNear(billed, price, fee);
    RoundedTotals(billed, price, fee);
  }

  lemma BillsWithinBounds(cs: seq<Bill>, ps: seq<Bill>, raw: real, price: real)
    requires price >= 0.0 && Near(Amounts(cs), price, Quantities(cs), |cs|) && Near(Amounts(ps), price, Quantities(ps), |ps|)
    requires Abs(Quantities(cs) - raw) <= 0.5 * |cs| as real && Abs(Quantities(ps) - raw) <= 0.5 * |ps| as real
    ensures WithinBounds(cs, ps, price)
  {
    QuantitiesClose(Quantities(cs), Quantities(ps), raw, |cs|, |ps|);
    ResidueBounded(Quantities(cs), Quantities(ps), Amounts(cs), Amounts(ps), price, |cs|, |ps|);
  }

  lemma QuantitiesClose(x: real, y: real, raw: real, n: nat, m: nat)
    requires Abs(x - raw) <= 0.5 * n as real && Abs(y - raw) <= 0.5 * m as real
    ensures Abs(x - y) <= 0.5 * (n + m) as real
  {
    Triangle(x, y, raw, raw);
  }

  lemma LinesAreBalanced(consumers: seq<Bill>, producers: seq<Bill>, prices: Prices)
    requires prices.settlement >= 0.0 && WithinBounds(consumers, producers, prices.internal)
    ensures Balanced(ConsumerItems(consumers, prices.internal, prices.settlement)
                     + ProducerItems(producers, prices.internal), Ids(producers), prices)
  {
    var charges := ConsumerItems(consumers, prices.internal, prices.settlement);
    var lines := charges + ProducerItems(producers, prices.internal);
    ConsumerSums(consumers, prices.internal, prices.settlement);
    ProducerSums(charges, producers, prices.internal);
    ProducerKinds(charges, producers, prices.internal);
    assert Participants(OfKind(charges, ProducerCredit)) + Ids(producers) == Ids(producers);
    BoundsCarryOver(lines, consumers, producers, prices.internal);
  }

  lemma BoundsCarryOver(lines: seq<Item>, consumers: seq<Bill>, producers: seq<Bill>, price: real)
    requires WithinBounds(consumers, producers, price)
    requires QuantityOf(lines, ConsumerCharge) == Quantities(consumers)
    requires QuantityOf(lines, ProducerCredit) == Quantities(producers)
    requires EnergyCount(lines) == |consumers| + |producers|
    requires EnergyTotal(lines) == Amounts(consumers) - Amounts(producers)
    ensures Mismatch(lines) <= HalfPerLine(lines)
    ensures Abs(EnergyTotal(lines)) <= ResidueBound(Mismatch(lines), price, HalfPerLine(lines))
  {
    assert Mismatch(lines) == Abs(Quantities(consumers) - Quantities(producers));
    assert HalfPerLine(lines) == 0.5 * (|consumers| + |producers|) as real;
  }

  // The residue is a whole amount, so rounding leaves it as it is.
  lemma ResidueIsWhole(lines: seq<Item>, prices: Prices)
    requires Clean(lines, prices)
    ensures Whole(-EnergyTotal(lines)) && RoundHalfUp(-EnergyTotal(lines)) as real == -EnergyTotal(lines)
  {
    EnergyIsWhole(lines, prices);
    WholeAdds(EnergyTotal(lines), 0.0);
    RoundWhole((-EnergyTotal(lines)).Floor);
  }

  lemma AdjustmentCloses(lines: seq<Item>, producers: seq<int>, prices: Prices)
    requires Clean(lines, prices) && producers != [] && Balanced(lines, producers, prices)
    requires EnergyTotal(lines) != 0.0
    ensures WellFormed(lines + [Item(Smallest(producers), RoundingAdjustment, None, None, -EnergyTotal(lines))], prices)
  {
    var adjustment := Item(Smallest(producers), RoundingAdjustment, None, None, -EnergyTotal(lines));
    ResidueIsWhole(lines, prices);
    CleanStep(lines, prices, adjustment);
    OtherLine(lines, adjustment);
  }

  lemma PlainAccepted(lines: seq<Item>, producers: seq<int>, prices: Prices)
    requires Clean(lines, prices) && Balanced(lines, producers, prices)
    requires producers == [] || EnergyTotal(lines) == 0.0
    ensures WellFormed(lines, prices) <==> lines != []
  {
  }

  lemma AdjustedAccepted(lines: seq<Item>, producers: seq<int>, prices: Prices)
    requires Clean(lines, prices) && Balanced(lines, producers, prices)
    ensures WellFormed(WithAdjustment(lines, producers), prices) <==> lines != []
  {
    if producers != [] && EnergyTotal(lines) != 0.0 {
      AdjustmentCloses(lines, producers, prices);
    } else {
      PlainAccepted(lines, producers, prices);
    }
  }

  lemma LinesAreClean(consumers: seq<Bill>, producers: seq<Bill>, prices: Prices)
    requires ValidBills(consumers, prices) && ValidBills(producers, prices)
    requires prices.internal >= 0.0 && prices.settlement >= 0.0
    ensures Clean(ConsumerItems(consumers, prices.internal, prices.settlement)
                  + ProducerItems(producers, prices.internal), prices)
  {
    ConsumerLines(consumers, prices);
    ProducerLines(ConsumerItems(consumers, prices.internal, prices.settlement), producers, prices);
  }

  lemma NonEmptyLines(consumers: seq<Bill>, producers: seq<Bill>, prices: Prices)
    ensures ConsumerItems(consumers, prices.internal, prices.settlement) + ProducerItems(producers, prices.internal) == []
            <==> consumers == [] && producers == []
  {
    if consumers != [] {
      assert |ConsumerItems(consumers, prices.internal, prices.settlement)| > 0;
    }
    if producers != [] {
      assert |ProducerItems(producers, prices.internal)| > 0;
    }
  }

  // For a balanced allocation and prices from the policy's domain the gate
  // accepts the engine's ledger, whenever there is anybody to bill.
  lemma LedgerAccepted(consumers: seq<Billed>, producers: seq<Billed>, prices: Prices)
    requires Distinct(consumers) && Distinct(producers) && NonNegative(consumers) && NonNegative(producers)
    requires Raw(consumers) == Raw(producers)
    requires prices.internal >= 0.0 && prices.settlement >= 0.0
    ensures WellFormed(Ledger(consumers, producers, prices.internal, prices.settlement), prices)
            <==> consumers != [] || producers != []
  {
    var cs := BillAll(consumers, prices.internal, prices.settlement);
    var ps := BillAll(producers, prices.internal, prices.settlement);
    BillsAreValid(consumers, prices);
    BillsAreValid(producers, prices);
    PricingWithinBounds(consumers, producers, prices);
    LinesAreBalanced(cs, ps, prices);
    LinesAreClean(cs, ps, prices);
    NonEmptyLines(cs, ps, prices);
    AdjustedAccepted(ConsumerItems(cs, prices.internal, prices.settlement) + ProducerItems(ps, prices.internal),
                     Ids(ps), prices);
  }

  // ---------------------------------------------------------------------
  // What the gate lets through, in figures.

  function ChargedLessCredited(items: seq<Item>): real {
    if items == [] then 0.0 else
      var line := items[|items| - 1];
      var quantity := if line.quantity.Some? then line.quantity.value else 0.0;
      ChargedLessCredited(items[..|items| - 1])
      + match line.kind
        case ConsumerCharge => quantity
        case ProducerCredit => -quantity
        case _ => 0.0
  }

  function EnergyMoney(items: seq<Item>): real {
    if items == [] then 0.0 else
      var line := items[|items| - 1];
      EnergyMoney(items[..|items| - 1])
      + if line.kind == ConsumerCharge || line.kind == ProducerCredit then line.amount else 0.0
  }

  function EnergyLineCount(items: seq<Item>): nat {
    if items == [] then 0 else
      var line := items[|items| - 1];
      EnergyLineCount(items[..|items| - 1]) + if line.kind == ConsumerCharge || line.kind == ProducerCredit then 1 else 0
  }

  lemma {:induction false} SumsInFigures(items: seq<Item>)
    ensures QuantityOf(items, ConsumerCharge) - QuantityOf(items, ProducerCredit) == ChargedLessCredited(items)
    ensures EnergyTotal(items) == EnergyMoney(items) && EnergyCount(items) == EnergyLineCount(items)
  {
    if items != [] {
      SumsInFigures(items[..|items| - 1]);
    }
  }

  // Charged and credited energy differ by half a millionth per energy line at
  // most; with a producer one adjustment takes up their money, to the millionth.
  lemma AcceptedFigures(items: seq<Item>, prices: Prices)
    requires WellFormed(items, prices)
    ensures Abs(ChargedLessCredited(items)) <= 0.5 * EnergyLineCount(items) as real
    ensures OfKind(items, ProducerCredit) != [] ==>
      && EnergyMoney(items) + AmountOf(items, RoundingAdjustment) == 0.0
      && |OfKind(items, RoundingAdjustment)| == (if EnergyMoney(items) == 0.0 then 0 else 1)
  {
    SumsInFigures(items);
    if OfKind(items, ProducerCredit) != [] {
      PoolIsZeroSum(items, prices);
      assert Participants(OfKind(items, ProducerCredit)) != [];
    }
  }

  // That money is the energy's difference at the internal price and half a
  // millionth per line at most.
  lemma AcceptedMoney(items: seq<Item>, prices: Prices, mismatch: real, half: real, bound: real)
    requires WellFormed(items, prices) && OfKind(items, ProducerCredit) != []
    requires mismatch == Abs(ChargedLessCredited(items)) && half == 0.5 * EnergyLineCount(items) as real
    requires bound == mismatch * prices.internal + half
    ensures Abs(EnergyMoney(items)) <= bound
  {
    BoundInFigures(items, prices, mismatch, half);
    MoneyWithin(items, prices, bound);
  }

  lemma MoneyWithin(items: seq<Item>, prices: Prices, bound: real)
    requires WellFormed(items, prices) && OfKind(items, ProducerCredit) != []
    requires bound == ResidueBound(Mismatch(items), prices.internal, HalfPerLine(items))
    ensures Abs(EnergyMoney(items)) <= bound
  {
    CreditsArePriced(items, prices);
    BoundIsPositive(Mismatch(items), prices.internal, HalfPerLine(items), bound);
    AdjustmentWithin(items, prices, bound);
    AcceptedFigures(items, prices);
    AdjustmentBounded(EnergyMoney(items), AmountOf(items, RoundingAdjustment), bound);
  }

  lemma AdjustmentWithin(items: seq<Item>, prices: Prices, bound: real)
    requires WellFormed(items, prices) && OfKind(items, ProducerCredit) != [] && bound >= 0.0
    requires bound == ResidueBound(Mismatch(items), prices.internal, HalfPerLine(items))
    ensures Abs(AmountOf(items, RoundingAdjustment)) <= bound
  {
    AmountOfKind(items, RoundingAdjustment);
    assert Participants(OfKind(items, ProducerCredit)) != [];
  }

  lemma BoundInFigures(items: seq<Item>, prices: Prices, mismatch: real, half: real)
    requires mismatch == Abs(ChargedLessCredited(items)) && half == 0.5 * EnergyLineCount(items) as real
    ensures ResidueBound(Mismatch(items), prices.internal, HalfPerLine(items)) == mismatch * prices.internal + half
  {
    MismatchInFigures(items);
    assert Mismatch(items) == mismatch && HalfPerLine(items) == half;
    BoundOf(Mismatch(items), prices.internal, HalfPerLine(items), mismatch, half);
  }

  lemma MismatchInFigures(items: seq<Item>)
    ensures Mismatch(items) == Abs(ChargedLessCredited(items)) && HalfPerLine(items) == 0.5 * EnergyLineCount(items) as real
  {
    SumsInFigures(items);
  }

  lemma BoundOf(x: real, price: real, y: real, mismatch: real, half: real)
    requires x == mismatch && y == half
    ensures ResidueBound(x, price, y) == mismatch * price + half
  {
  }

  lemma AdjustmentBounded(money: real, adjustment: real, bound: real)
    requires money + adjustment == 0.0 && Abs(adjustment) <= bound
    ensures Abs(money) <= bound
  {
  }

  lemma {:induction false} CreditsArePriced(items: seq<Item>, prices: Prices)
    requires forall i :: 0 <= i < |items| ==> ValidItem(items[i], prices)
    ensures OfKind(items, ProducerCredit) != [] ==> prices.internal >= 0.0
  {
    if items != [] {
      var n := |items| - 1;
      CreditsArePriced(items[..n], prices);
      assert ValidItem(items[n], prices);
    }
  }

  lemma BoundIsPositive(mismatch: real, price: real, half: real, bound: real)
    requires bound == ResidueBound(mismatch, price, half)
    ensures mismatch >= 0.0 && price >= 0.0 && half >= 0.0 ==> bound >= 0.0
  {
  }

  predicate Costs(line: Item, price: real, amount: real) {
    && line.quantity.Some? && line.quantity.value >= 0.0 && line.price.Some? && line.price.value == price
    && amount == PricedAmount(line.quantity.value, price)
  }

  lemma PricedLine(line: Item, prices: Prices)
    requires ValidItem(line, prices) && PricedItem(line)
    ensures Costs(line, if line.kind == SettlementFee then prices.settlement else prices.internal,
                  if line.kind == ProducerCredit then -line.amount else line.amount)
  {
  }

  // Every accepted line: a price of the policy and the amount it gives, a
  // non-negative share, a whole adjustment.
  lemma AcceptedLine(items: seq<Item>, prices: Prices, i: nat)
    requires WellFormed(items, prices) && i < |items|
    ensures items[i].kind == ConsumerCharge ==> Costs(items[i], prices.internal, items[i].amount)
    ensures items[i].kind == ProducerCredit ==> Costs(items[i], prices.internal, -items[i].amount)
    ensures items[i].kind == SettlementFee ==> Costs(items[i], prices.settlement, items[i].amount)
    ensures items[i].kind == BatteryCostShare ==> items[i].quantity.None? && items[i].amount >= 0.0 && Whole(items[i].amount)
    ensures items[i].kind == RoundingAdjustment ==> items[i].quantity.None? && Whole(items[i].amount)
  {
    assert ValidItem(items[i], prices);
    if PricedItem(items[i]) {
      PricedLine(items[i], prices);
    }
  }
}
