/** The approval gate on line items: fail closed on anything but the shapes and
    sums the engine emits. */
module Approval {
  import opened Numbers
  import opened LineItems

  // The gate's parameters, taken from a policy inside its value domain.
  datatype Prices = Prices(internal: real, settlement: real)

  predicate Whole(x: real) {
    x == x.Floor as real
  }

  lemma WholeInt(n: int)
    ensures Whole(n as real) && Whole(-(n as real))
  {
    assert -(n as real) == (-n) as real;
  }

  lemma WholeAdds(x: real, y: real)
    requires Whole(x) && Whole(y)
    ensures Whole(x + y) && Whole(-x)
  {
    WholeInt(x.Floor + y.Floor);
    WholeInt(x.Floor);
    assert x + y == (x.Floor + y.Floor) as real;
  }

  lemma {:induction false} WholeSum(xs: seq<real>)
    requires forall i :: 0 <= i < |xs| ==> Whole(xs[i])
    ensures Whole(Sum(xs))
  {
    if xs != [] {
      WholeSum(xs[..|xs| - 1]);
      WholeAdds(Sum(xs[..|xs| - 1]), xs[|xs| - 1]);
    }
  }

  // ---------------------------------------------------------------------
  // One line.

  predicate PricedItem(item: Item) {
    item.kind == ConsumerCharge || item.kind == ProducerCredit || item.kind == SettlementFee
  }

  // The shape and the money of one line, as the gate tests them.
  predicate ValidItem(item: Item, prices: Prices) {
    if item.kind == RoundingAdjustment then
      item.quantity.None? && item.price.None? && Whole(item.amount)
    else if item.kind == BatteryCostShare then
      item.quantity.None? && item.price.None? && item.amount >= 0.0 && Whole(item.amount)
    else
      && item.quantity.Some? && item.price.Some?
      && item.quantity.value >= 0.0 && item.price.value >= 0.0
      && item.price.value == (if item.kind == SettlementFee then prices.settlement else prices.internal)
      && item.amount == (var expected := PricedAmount(item.quantity.value, item.price.value);
                         if item.kind == ProducerCredit then -expected else expected)
  }

  // ---------------------------------------------------------------------
  // What the gate promises about the whole draft.

  predicate SameLine(a: Item, b: Item) {
    PricedItem(a) && PricedItem(b) && a.participant == b.participant && a.kind == b.kind
  }

  ghost predicate NoRepeatedLines(items: seq<Item>) {
    forall i, j :: 0 <= i < j < |items| ==> !SameLine(items[i], items[j])
  }

  // The quantity a participant is billed on a kind of line.
  function QuantityMap(items: seq<Item>, kind: Kind): map<int, real> {
    if items == [] then map[] else
      var rest := QuantityMap(items[..|items| - 1], kind);
      var last := items[|items| - 1];
      if last.kind == kind && last.quantity.Some? then rest[last.participant := last.quantity.value] else rest
  }

  function Mismatch(items: seq<Item>): real {
    Abs(QuantityOf(items, ConsumerCharge) - QuantityOf(items, ProducerCredit))
  }

  function HalfPerLine(items: seq<Item>): real {
    0.5 * EnergyCount(items) as real
  }

  function Participants(items: seq<Item>): seq<int> {
    seq(|items|, i requires 0 <= i < |items| => items[i].participant)
  }

  function ResidueBound(mismatch: real, price: real, half: real): real {
    mismatch * price + half
  }

  // The one residual the billed totals imply, on the smallest producer.
  predicate RoundingAdjusts(producers: seq<int>, rounding: seq<Item>, energy: real, bound: real)
    requires producers != []
  {
    if energy == 0.0 then rounding == []
    else
      && |rounding| == 1
      && rounding[0].participant == Smallest(producers)
      && Abs(rounding[0].amount) <= bound
      && rounding[0].amount == RoundHalfUp(-energy) as real
  }

  predicate RoundingCloses(items: seq<Item>, prices: Prices) {
    var rounding, producers := OfKind(items, RoundingAdjustment), Participants(OfKind(items, ProducerCredit));
    if producers == [] then rounding == []
    else
      RoundingAdjusts(producers, rounding, EnergyTotal(items),
                      ResidueBound(Mismatch(items), prices.internal, HalfPerLine(items)))
  }

  predicate FeesMatch(items: seq<Item>, prices: Prices) {
    var fees, charges := QuantityMap(items, SettlementFee), QuantityMap(items, ConsumerCharge);
    if prices.settlement == 0.0 then fees == map[] else fees == charges
  }

  ghost predicate WellFormed(items: seq<Item>, prices: Prices) {
    && items != []
    && (forall i :: 0 <= i < |items| ==> ValidItem(items[i], prices))
    && NoRepeatedLines(items)
    && Mismatch(items) <= HalfPerLine(items)
    && FeesMatch(items, prices)
    && RoundingCloses(items, prices)
  }

  // ---------------------------------------------------------------------
  // The gate.

  datatype Totals = Totals(consumption: map<int, real>, production: map<int, real>, fees: map<int, real>,
                           rounding: seq<Item>, producers: seq<int>, energy: real, count: nat,
                           consumed: real, produced: real)

  ghost predicate Maps(t: Totals, items: seq<Item>) {
    && t.consumption == QuantityMap(items, ConsumerCharge)
    && t.production == QuantityMap(items, ProducerCredit)
    && t.fees == QuantityMap(items, SettlementFee)
  }

  ghost predicate Lists(t: Totals, items: seq<Item>) {
    && t.rounding == OfKind(items, RoundingAdjustment)
    && t.producers == Participants(OfKind(items, ProducerCredit))
  }

  ghost predicate Sums(t: Totals, items: seq<Item>) {
    && t.energy == EnergyTotal(items)
    && t.count == EnergyCount(items)
    && t.consumed == QuantityOf(items, ConsumerCharge)
    && t.produced == QuantityOf(items, ProducerCredit)
  }

  ghost predicate Accumulates(t: Totals, items: seq<Item>) {
    Maps(t, items) && Lists(t, items) && Sums(t, items)
  }

  function Account(t: Totals, item: Item): Totals {
    match item.kind
    case RoundingAdjustment => t.(rounding := t.rounding + [item])
    case BatteryCostShare => t
    case SettlementFee =>
      if item.quantity.None? then t else t.(fees := t.fees[item.participant := item.quantity.value])
    case ConsumerCharge =>
      var t' := t.(energy := t.energy + item.amount, count := t.count + 1);
      if item.quantity.None? then t' else
        t'.(consumption := t.consumption[item.participant := item.quantity.value],
            consumed := t.consumed + item.quantity.value)
    case ProducerCredit =>
      var t' := t.(energy := t.energy + item.amount, count := t.count + 1,
                   producers := t.producers + [item.participant]);
      if item.quantity.None? then t' else
        t'.(production := t.production[item.participant := item.quantity.value],
            produced := t.produced + item.quantity.value)
  }

  lemma MapStep(items: seq<Item>, item: Item, kind: Kind)
    ensures QuantityMap(items + [item], kind) ==
            if item.kind == kind && item.quantity.Some?
            then QuantityMap(items, kind)[item.participant := item.quantity.value] else QuantityMap(items, kind)
  {
    assert (items + [item])[..|items|] == items;
  }

  lemma MapsStep(t: Totals, items: seq<Item>, item: Item)
    requires Maps(t, items)
    ensures Maps(Account(t, item), items + [item])
  {
    MapStep(items, item, ConsumerCharge);
    MapStep(items, item, ProducerCredit);
    MapStep(items, item, SettlementFee);
  }

  lemma KindStep(items: seq<Item>, item: Item, kind: Kind)
    ensures item.kind != kind ==> OfKind(items + [item], kind) == OfKind(items, kind)
    ensures item.kind == kind ==> OfKind(items + [item], kind) == OfKind(items, kind) + [item]
    ensures item.kind == kind ==>
      Participants(OfKind(items + [item], kind)) == Participants(OfKind(items, kind)) + [item.participant]
  {
    assert (items + [item])[..|items|] == items;
    assert OfKind(items, kind) + [] == OfKind(items, kind);
  }

  lemma ListsStep(t: Totals, items: seq<Item>, item: Item)
    requires Lists(t, items)
    ensures Lists(Account(t, item), items + [item])
  {
    KindStep(items, item, RoundingAdjustment);
    KindStep(items, item, ProducerCredit);
  }

  lemma SumsStep(t: Totals, items: seq<Item>, item: Item)
    requires Sums(t, items)
    ensures Sums(Account(t, item), items + [item])
  {
    EnergyStep(items, item);
    QuantityStep(items, item, ConsumerCharge);
    QuantityStep(items, item, ProducerCredit);
  }

  lemma AccountStep(t: Totals, items: seq<Item>, item: Item)
    requires Accumulates(t, items)
    ensures Accumulates(Account(t, item), items + [item])
  {
    MapsStep(t, items, item);
    ListsStep(t, items, item);
    SumsStep(t, items, item);
  }

  method ReadLines(items: seq<Item>, prices: Prices) returns (r: Option<Totals>)
    ensures r.Some? <==>
      && (forall i :: 0 <= i < |items| ==> ValidItem(items[i], prices)) && NoRepeatedLines(items)
    ensures r.Some? ==> Accumulates(r.value, items)
  {
    var totals := Totals(map[], map[], map[], [], [], 0.0, 0, 0.0, 0.0);
    var seen: set<(int, Kind)> := {};
    for i := 0 to |items|
      invariant forall k :: 0 <= k < i ==> ValidItem(items[k], prices)
      invariant NoRepeatedLines(items[..i])
      invariant seen == set k | 0 <= k < i && PricedItem(items[k]) :: (items[k].participant, items[k].kind)
      invariant Accumulates(totals, items[..i])
    {
      var item := items[i];
      if !ValidItem(item, prices) {
        return None;
      }
      if PricedItem(item) {
        if (item.participant, item.kind) in seen {
          var k :| 0 <= k < i && PricedItem(items[k]) && (items[k].participant, items[k].kind) == (item.participant, item.kind);
          assert SameLine(items[k], items[i]);
          return None;
        }
        seen := seen + {(item.participant, item.kind)};
      }
      AccountStep(totals, items[..i], item);
      totals := Account(totals, item);
      assert items[..i + 1] == items[..i] + [item];
    }
    assert items[..|items|] == items;
    return Some(totals);
  }

  method RequireWellformed(items: seq<Item>, prices: Prices) returns (r: Option<(map<int, real>, map<int, real>)>)
    ensures r.Some? <==> WellFormed(items, prices)
    ensures r.Some? ==> r.value == (QuantityMap(items, ConsumerCharge), QuantityMap(items, ProducerCredit))
  {
    if items == [] {
      return None;
    }
    var read := ReadLines(items, prices);
    if read.None? {
      return None;
    }
    var t := read.value;
    var mismatch := Abs(t.consumed - t.produced);
    var half := 0.5 * t.count as real;
    if mismatch > half {
      return None;
    }
    if prices.settlement == 0.0 && t.fees != map[] {
      return None;
    }
    if prices.settlement != 0.0 && t.fees != t.consumption {
      return None;
    }
    if t.producers == [] {
      if t.rounding != [] {
        return None;
      }
    } else if !RoundingAdjusts(t.producers, t.rounding, t.energy, ResidueBound(mismatch, prices.internal, half)) {
      return None;
    }
    return Some((t.consumption, t.production));
  }
}
