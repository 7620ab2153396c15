/** The lines of a billing draft, and the zero-sum ledger the engine emits.

    Quantities are in millionths of a kWh and amounts in millionths of a CHF,
    so quantity times price is an amount and six decimals are whole numbers. */
module LineItems {
  import opened Numbers

  datatype Kind = ConsumerCharge | ProducerCredit | RoundingAdjustment | SettlementFee | BatteryCostShare

  datatype Item = Item(participant: int, kind: Kind, quantity: Option<real>, price: Option<real>, amount: real)

  // One column of the billed allocation.
  datatype Billed = Billed(participant: int, quantity: real)

  // The priced figures of one column: rounded quantity, energy amount, fee.
  datatype Bill = Bill(participant: int, quantity: real, amount: real, fee: real)

  function PricedAmount(quantity: real, price: real): real {
    RoundHalfUp(quantity * price) as real
  }

  // The engine rounds quantities with Python's round and money with Decimal.
  function BillOf(b: Billed, price: real, fee: real): Bill {
    var quantity := RoundHalfEven(b.quantity) as real;
    Bill(b.participant, quantity, PricedAmount(quantity, price), PricedAmount(quantity, fee))
  }

  function BillAll(billed: seq<Billed>, price: real, fee: real): (bills: seq<Bill>)
    ensures |bills| == |billed|
  {
    seq(|billed|, i requires 0 <= i < |billed| => BillOf(billed[i], price, fee))
  }

  function Charge(b: Bill, price: real): Item {
    Item(b.participant, ConsumerCharge, Some(b.quantity), Some(price), b.amount)
  }

  function Fee(b: Bill, fee: real): Item {
    Item(b.participant, SettlementFee, Some(b.quantity), Some(fee), b.fee)
  }

  function Credit(b: Bill, price: real): Item {
    Item(b.participant, ProducerCredit, Some(b.quantity), Some(price), -b.amount)
  }

  function FeeLines(b: Bill, fee: real): seq<Item> {
    if fee > 0.0 then [Fee(b, fee)] else []
  }

  function ConsumerItems(bills: seq<Bill>, price: real, fee: real): seq<Item> {
    if bills == [] then [] else
      var last := bills[|bills| - 1];
      ConsumerItems(bills[..|bills| - 1], price, fee) + [Charge(last, price)] + FeeLines(last, fee)
  }

  function ProducerItems(bills: seq<Bill>, price: real): seq<Item> {
    if bills == [] then [] else
      ProducerItems(bills[..|bills| - 1], price) + [Credit(bills[|bills| - 1], price)]
  }

  function Ids(bills: seq<Bill>): seq<int> {
    seq(|bills|, i requires 0 <= i < |bills| => bills[i].participant)
  }

  function Smallest(ids: seq<int>): (least: int)
    requires ids != []
    ensures least in ids && forall id :: id in ids ==> least <= id
  {
    var last := ids[|ids| - 1];
    assert ids == ids[..|ids| - 1] + [last];
    if |ids| == 1 then last else
      var rest := Smallest(ids[..|ids| - 1]);
      if last < rest then last else rest
  }

  // ---------------------------------------------------------------------
  // Sums over lines.

  predicate Energy(item: Item) {
    item.kind == ConsumerCharge || item.kind == ProducerCredit
  }

  function EnergyTotal(items: seq<Item>): real {
    if items == [] then 0.0 else
      var last := items[|items| - 1];
      EnergyTotal(items[..|items| - 1]) + if Energy(last) then last.amount else 0.0
  }

  function AmountOf(items: seq<Item>, kind: Kind): real {
    if items == [] then 0.0 else
      var last := items[|items| - 1];
      AmountOf(items[..|items| - 1], kind) + if last.kind == kind then last.amount else 0.0
  }

  function QuantityOf(items: seq<Item>, kind: Kind): real {
    if items == [] then 0.0 else
      var last := items[|items| - 1];
      QuantityOf(items[..|items| - 1], kind)
      + if last.kind == kind && last.quantity.Some? then last.quantity.value else 0.0
  }

  function EnergyCount(items: seq<Item>): nat {
    if items == [] then 0 else
      EnergyCount(items[..|items| - 1]) + if Energy(items[|items| - 1]) then 1 else 0
  }

  function OfKind(items: seq<Item>, kind: Kind): seq<Item> {
    if items == [] then [] else
      var last := items[|items| - 1];
      OfKind(items[..|items| - 1], kind) + if last.kind == kind then [last] else []
  }

  lemma SumStep(items: seq<Item>, item: Item, kind: Kind)
    ensures EnergyTotal(items + [item]) == EnergyTotal(items) + if Energy(item) then item.amount else 0.0
    ensures AmountOf(items + [item], kind) == AmountOf(items, kind) + if item.kind == kind then item.amount else 0.0
    ensures QuantityOf(items + [item], kind) == QuantityOf(items, kind)
            + if item.kind == kind && item.quantity.Some? then item.quantity.value else 0.0
    ensures EnergyCount(items + [item]) == EnergyCount(items) + if Energy(item) then 1 else 0
    ensures OfKind(items + [item], kind) == OfKind(items, kind) + if item.kind == kind then [item] else []
  {
    assert (items + [item])[..|items|] == items;
  }

  lemma QuantityStep(items: seq<Item>, item: Item, kind: Kind)
    ensures item.kind == kind && item.quantity.Some? ==>
      QuantityOf(items + [item], kind) == QuantityOf(items, kind) + item.quantity.value
    ensures item.kind != kind || item.quantity.None? ==> QuantityOf(items + [item], kind) == QuantityOf(items, kind)
    ensures EnergyCount(items + [item]) == EnergyCount(items) + if Energy(item) then 1 else 0
  {
    assert (items + [item])[..|items|] == items;
  }

  // ---------------------------------------------------------------------
  // The engine's ledger.

  // The residue of the lines' rounding goes to the smallest producer.
  function WithAdjustment(lines: seq<Item>, producers: seq<int>): seq<Item> {
    if producers != [] && EnergyTotal(lines) != 0.0 then
      lines + [Item(Smallest(producers), RoundingAdjustment, None, None, -EnergyTotal(lines))]
    else lines
  }

  function LedgerOf(consumers: seq<Bill>, producers: seq<Bill>, price: real, fee: real): seq<Item> {
    WithAdjustment(ConsumerItems(consumers, price, fee) + ProducerItems(producers, price), Ids(producers))
  }

  function Ledger(consumers: seq<Billed>, producers: seq<Billed>, price: real, fee: real): seq<Item> {
    LedgerOf(BillAll(consumers, price, fee), BillAll(producers, price, fee), price, fee)
  }

  lemma ConsumerItemsStep(bills: seq<Bill>, i: nat, price: real, fee: real)
    requires i < |bills|
    ensures var charged := ConsumerItems(bills[..i], price, fee) + [Charge(bills[i], price)];
            ConsumerItems(bills[..i + 1], price, fee) == if fee > 0.0 then charged + [Fee(bills[i], fee)] else charged
    ensures var items := ConsumerItems(bills[..i], price, fee);
      EnergyTotal(items + [Charge(bills[i], price)]) == EnergyTotal(items) + bills[i].amount
      && EnergyTotal(ConsumerItems(bills[..i + 1], price, fee)) == EnergyTotal(items) + bills[i].amount
  {
    var charged := ConsumerItems(bills[..i], price, fee) + [Charge(bills[i], price)];
    assert bills[..i + 1][..i] == bills[..i];
    assert charged + [] == charged;
    ChargeStep(ConsumerItems(bills[..i], price, fee), bills[i], price, fee);
  }

  method EmitCharges(consumers: seq<Billed>, price: real, fee: real) returns (items: seq<Item>, chargeTotal: real)
    ensures items == ConsumerItems(BillAll(consumers, price, fee), price, fee)
    ensures chargeTotal == EnergyTotal(items)
  {
    items, chargeTotal := [], 0.0;
    ghost var bills := BillAll(consumers, price, fee);
    for i := 0 to |consumers|
      invariant items == ConsumerItems(bills[..i], price, fee)
      invariant chargeTotal == EnergyTotal(items)
    {
      var bill := BillOf(consumers[i], price, fee);
      ConsumerItemsStep(bills, i, price, fee);
      items := items + [Charge(bill, price)];
      chargeTotal := chargeTotal + bill.amount;
      if fee > 0.0 {
        items := items + [Fee(bill, fee)];
      }
    }
    assert bills[..|consumers|] == bills;
  }

  lemma ChargeStep(items: seq<Item>, bill: Bill, price: real, fee: real)
    ensures EnergyTotal(items + [Charge(bill, price)]) == EnergyTotal(items) + bill.amount
    ensures EnergyTotal(items + [Charge(bill, price)] + [Fee(bill, fee)]) == EnergyTotal(items) + bill.amount
  {
    var charge, feeLine := Charge(bill, price), Fee(bill, fee);
    EnergyStep(items, charge);
    EnergyStep(items + [charge], feeLine);
  }

  lemma EnergyStep(items: seq<Item>, item: Item)
    ensures EnergyTotal(items + [item]) == EnergyTotal(items) + if Energy(item) then item.amount else 0.0
  {
    assert (items + [item])[..|items|] == items;
  }

  method EmitCredits(lines: seq<Item>, producers: seq<Billed>, price: real, fee: real)
    returns (items: seq<Item>, creditedTotal: real)
    ensures items == lines + ProducerItems(BillAll(producers, price, fee), price)
    ensures EnergyTotal(items) == EnergyTotal(lines) - creditedTotal
  {
    items, creditedTotal := lines, 0.0;
    ghost var bills := BillAll(producers, price, fee);
    for j := 0 to |producers|
      invariant items == lines + ProducerItems(bills[..j], price)
      invariant EnergyTotal(items) == EnergyTotal(lines) - creditedTotal
    {
      var bill := BillOf(producers[j], price, fee);
      assert bills[..j + 1][..j] == bills[..j] && bills[j] == bill;
      EnergyStep(items, Credit(bill, price));
      creditedTotal := creditedTotal + bill.amount;
      items := items + [Credit(bill, price)];
    }
    assert bills[..|producers|] == bills;
  }

  method EmitLines(consumers: seq<Billed>, producers: seq<Billed>, price: real, fee: real)
    returns (items: seq<Item>)
    ensures items == Ledger(consumers, producers, price, fee)
  {
    var lines, chargeTotal := EmitCharges(consumers, price, fee);
    var creditedTotal;
    items, creditedTotal := EmitCredits(lines, producers, price, fee);
    var difference := chargeTotal - creditedTotal;
    var producerIds := Ids(BillAll(producers, price, fee));
    if producerIds != [] && difference != 0.0 {
      items := items + [Item(Smallest(producerIds), RoundingAdjustment, None, None, -difference)];
    }
  }
}
