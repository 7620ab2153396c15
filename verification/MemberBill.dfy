/** What one member is billed, written out from the readings: its part of every
    interval under each model, and the lines that carry a quantity. */
module MemberBill {
  import opened Numbers
  import opened LineItems
  import opened Allocation

  // ---------------------------------------------------------------------
  // One member's part of one interval.

  function EqualPart(supply: real, cons: seq<real>, i: nat): real
    requires i < |cons|
  {
    Min(cons[i], supply / |cons| as real)
  }

  function EqualParts(supply: real, cons: seq<real>): (r: seq<real>)
    ensures |r| == |cons|
  {
    seq(|cons|, i requires 0 <= i < |cons| => EqualPart(supply, cons, i))
  }

  function Shortfalls(supply: real, cons: seq<real>): (r: seq<real>)
    ensures |r| == |cons|
  {
    seq(|cons|, i requires 0 <= i < |cons| => cons[i] - EqualPart(supply, cons, i))
  }

  // What is left, in proportion to what a member still lacks and no more than that.
  function Rationed(left: real, lacking: real, short: real): real
    requires lacking > 0.0
  {
    Min(left / lacking * short, short)
  }

  function TopUp(supply: real, cons: seq<real>, i: nat): real
    requires i < |cons|
  {
    var left, lacking := supply - Sum(EqualParts(supply, cons)), Sum(Shortfalls(supply, cons));
    var short := cons[i] - EqualPart(supply, cons, i);
    if left > 0.001 && lacking > 0.0 then Rationed(left, lacking, short) else 0.0
  }

  function MemberPart(supply: real, cons: seq<real>, model: Model, i: nat): real
    requires i < |cons|
  {
    if supply <= 0.0 || Sum(cons) <= 0.0 then 0.0
    else if model == Proportional then Min(supply, Sum(cons)) / Sum(cons) * cons[i]
    else EqualPart(supply, cons, i) + TopUp(supply, cons, i)
  }

  lemma ProportionalIsScaled(supply: real, cons: seq<real>, ratio: real)
    requires NonNegative(cons) && supply > 0.0 && Sum(cons) > 0.0 && ratio == Min(supply, Sum(cons)) / Sum(cons)
    ensures AllocateInterval(supply, cons, Proportional) == Scale(cons, ratio)
  {
    ProportionalRatio(supply, cons, ratio);
  }

  lemma ProportionalPart(supply: real, cons: seq<real>, ratio: real, i: nat)
    requires supply > 0.0 && Sum(cons) > 0.0 && ratio == Min(supply, Sum(cons)) / Sum(cons) && i < |cons|
    ensures MemberPart(supply, cons, Proportional, i) == ratio * cons[i]
  {
  }

  lemma ScaledAt(xs: seq<real>, ratio: real, i: nat)
    requires i < |xs|
    ensures Scale(xs, ratio)[i] == ratio * xs[i]
    ensures PointwiseMin(Scale(xs, ratio), xs)[i] == Min(ratio * xs[i], xs[i])
  {
  }

  lemma FirstParts(supply: real, cons: seq<real>)
    requires cons != []
    ensures EqualShares(supply, cons) == EqualParts(supply, cons)
    ensures Unfilled(cons, EqualShares(supply, cons)) == Shortfalls(supply, cons)
  {
    var first, unfilled := EqualShares(supply, cons), Unfilled(cons, EqualShares(supply, cons));
    forall i | 0 <= i < |cons|
      ensures first[i] == EqualParts(supply, cons)[i] && unfilled[i] == Shortfalls(supply, cons)[i]
    {
    }
  }

  // The second pass, member by member.
  lemma TopUps(short: seq<real>, left: real) returns (extra: seq<real>)
    ensures |extra| == |short|
    ensures Sum(short) > 0.0 ==> extra == Extra(short, left)
    ensures Sum(short) > 0.0 ==> forall i :: 0 <= i < |short| ==> extra[i] == Rationed(left, Sum(short), short[i])
  {
    extra := short;
    if Sum(short) > 0.0 {
      var ratio := left / Sum(short);
      extra := PointwiseMin(Scale(short, ratio), short);
      ExtraIsScaled(short, left, ratio);
      RationsAre(short, left, Sum(short), ratio, extra);
    }
  }

  lemma RationsAre(short: seq<real>, left: real, lacking: real, ratio: real, extra: seq<real>)
    requires lacking > 0.0 && ratio == left / lacking && extra == PointwiseMin(Scale(short, ratio), short)
    ensures forall i :: 0 <= i < |short| ==> extra[i] == Rationed(left, lacking, short[i])
  {
    forall i | 0 <= i < |short|
      ensures extra[i] == Rationed(left, lacking, short[i])
    {
      ScaledAt(short, ratio, i);
      RationedAt(left, lacking, short[i], ratio);
    }
  }

  lemma ExtraIsScaled(short: seq<real>, left: real, ratio: real)
    requires Sum(short) > 0.0 && ratio == left / Sum(short)
    ensures Extra(short, left) == PointwiseMin(Scale(short, ratio), short)
  {
  }

  lemma EinfachIsTwoPasses(supply: real, cons: seq<real>, p: Pass, extra: seq<real>)
    requires supply > 0.0 && Sum(cons) > 0.0 && p == FirstPassOf(supply, cons)
    requires |extra| == |cons| && (Sum(p.unfilled) > 0.0 ==> extra == Extra(p.unfilled, p.remaining))
    ensures AllocateInterval(supply, cons, Einfach) == TwoPasses(p.remaining, p.first, p.unfilled, extra)
  {
    assert AllocateInterval(supply, cons, Einfach) == Redistribute(p);
  }

  lemma PassIsParts(supply: real, cons: seq<real>)
    requires cons != []
    ensures FirstPassOf(supply, cons)
            == Pass(EqualParts(supply, cons), Shortfalls(supply, cons), supply - Sum(EqualParts(supply, cons)))
  {
    FirstParts(supply, cons);
  }

  lemma TwoPassesAt(left: real, first: seq<real>, short: seq<real>, extra: seq<real>, i: nat)
    requires |first| == |short| == |extra| && i < |first|
    ensures TwoPasses(left, first, short, extra)[i]
            == first[i] + if left > 0.001 && Sum(short) > 0.0 then extra[i] else 0.0
  {
  }

  lemma TopUpIsExtra(supply: real, cons: seq<real>, first: seq<real>, short: seq<real>, left: real, extra: real, i: nat)
    requires i < |cons|
    requires first == EqualParts(supply, cons) && short == Shortfalls(supply, cons) && left == supply - Sum(first)
    requires left > 0.001 && Sum(short) > 0.0 ==> extra == Rationed(left, Sum(short), short[i])
    ensures TopUp(supply, cons, i) == if left > 0.001 && Sum(short) > 0.0 then extra else 0.0
  {
  }

  lemma TwoPassPart(supply: real, cons: seq<real>, p: Pass, extra: seq<real>, split: seq<real>, i: nat)
    requires i < |cons| == |extra|
    requires p == Pass(EqualParts(supply, cons), Shortfalls(supply, cons), supply - Sum(EqualParts(supply, cons)))
    requires Sum(p.unfilled) > 0.0 ==> extra[i] == Rationed(p.remaining, Sum(p.unfilled), p.unfilled[i])
    requires split == TwoPasses(p.remaining, p.first, p.unfilled, extra)
    ensures split[i] == EqualPart(supply, cons, i) + TopUp(supply, cons, i)
  {
    TwoPassesAt(p.remaining, p.first, p.unfilled, extra, i);
    TopUpIsExtra(supply, cons, p.first, p.unfilled, p.remaining, extra[i], i);
  }

  lemma EinfachPart(supply: real, cons: seq<real>, i: nat)
    requires supply > 0.0 && Sum(cons) > 0.0 && i < |cons|
    ensures AllocateInterval(supply, cons, Einfach)[i] == EqualPart(supply, cons, i) + TopUp(supply, cons, i)
  {
    var p := Pass(EqualParts(supply, cons), Shortfalls(supply, cons), supply - Sum(EqualParts(supply, cons)));
    var extra := TopUps(p.unfilled, p.remaining);
    PassIsParts(supply, cons);
    EinfachIsTwoPasses(supply, cons, p, extra);
    TwoPassPart(supply, cons, p, extra, TwoPasses(p.remaining, p.first, p.unfilled, extra), i);
  }

  lemma RationedAt(left: real, lacking: real, short: real, ratio: real)
    requires lacking > 0.0 && ratio == left / lacking
    ensures Rationed(left, lacking, short) == Min(ratio * short, short)
  {
  }

  // The engine's split gives each member its part.
  lemma SplitParts(supply: real, cons: seq<real>, model: Model, i: nat)
    requires NonNegative(cons) && i < |cons|
    ensures AllocateInterval(supply, cons, model)[i] == MemberPart(supply, cons, model, i)
  {
    if supply > 0.0 && Sum(cons) > 0.0 {
      if model == Proportional {
        var ratio := Min(supply, Sum(cons)) / Sum(cons);
        ProportionalIsScaled(supply, cons, ratio);
        ProportionalPart(supply, cons, ratio, i);
        ScaledAt(cons, ratio, i);
      } else {
        EinfachPart(supply, cons, i);
      }
    }
  }

  // One producer's credit for one interval: its share of what was handed out.
  function MemberCredit(prods: seq<real>, handed: real, j: nat): real
    requires j < |prods|
  {
    if Sum(prods) == 0.0 then 0.0 else handed / Sum(prods) * prods[j]
  }

  // ---------------------------------------------------------------------
  // The lines that bill a quantity.

  predicate ChargesQuantity(items: seq<Item>, id: int, quantity: real, price: real, fee: real) {
    && Item(id, ConsumerCharge, Some(quantity), Some(price), RoundHalfUp(quantity * price) as real) in items
    && (fee > 0.0 ==> Item(id, SettlementFee, Some(quantity), Some(fee), RoundHalfUp(quantity * fee) as real) in items)
  }

  predicate CreditsQuantity(items: seq<Item>, id: int, quantity: real, price: real) {
    Item(id, ProducerCredit, Some(quantity), Some(price), -(RoundHalfUp(quantity * price) as real)) in items
  }

  lemma {:induction false} BillIsCharged(bills: seq<Bill>, i: nat, price: real, fee: real)
    requires i < |bills|
    ensures Charge(bills[i], price) in ConsumerItems(bills, price, fee)
    ensures fee > 0.0 ==> Fee(bills[i], fee) in ConsumerItems(bills, price, fee)
  {
    var n := |bills| - 1;
    if i < n {
      BillIsCharged(bills[..n], i, price, fee);
    } else {
      assert fee > 0.0 ==> Fee(bills[n], fee) in FeeLines(bills[n], fee);
    }
  }

  lemma {:induction false} BillIsCredited(bills: seq<Bill>, j: nat, price: real)
    requires j < |bills|
    ensures Credit(bills[j], price) in ProducerItems(bills, price)
  {
    var n := |bills| - 1;
    if j < n {
      BillIsCredited(bills[..n], j, price);
    }
  }

  lemma ColumnIsCharged(consumers: seq<Billed>, producers: seq<Billed>, price: real, fee: real, i: nat)
    requires i < |consumers|
    ensures ChargesQuantity(Ledger(consumers, producers, price, fee), consumers[i].participant,
                            RoundHalfEven(consumers[i].quantity) as real, price, fee)
  {
    var bills := BillAll(consumers, price, fee);
    BillIsCharged(bills, i, price, fee);
    assert bills[i] == BillOf(consumers[i], price, fee);
  }

  lemma ColumnIsCredited(consumers: seq<Billed>, producers: seq<Billed>, price: real, fee: real, j: nat)
    requires j < |producers|
    ensures CreditsQuantity(Ledger(consumers, producers, price, fee), producers[j].participant,
                            RoundHalfEven(producers[j].quantity) as real, price)
  {
    var bills := BillAll(producers, price, fee);
    BillIsCredited(bills, j, price);
    assert bills[j] == BillOf(producers[j], price, fee);
  }
}
