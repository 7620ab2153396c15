/** The period columns of the engine's own allocation: what a draft bills from
    it, and what the battery attribution is made from. Readings are in kWh per
    interval and member, columns in millionths of a kWh. */
module EngineColumns {
  import opened Numbers
  import opened LineItems
  import opened Approval
  import opened Allocation
  import opened MemberBill
  import opened BatterySource
  import opened BatteryAttribution
  import LedgerApproval

  function Millionths(kwh: real): real {
    1000000.0 * kwh
  }

  predicate Wide(rows: seq<seq<real>>, n: nat) {
    forall t :: 0 <= t < |rows| ==> |rows[t]| == n
  }

  predicate NonNegativeRows(rows: seq<seq<real>>) {
    forall t :: 0 <= t < |rows| ==> NonNegative(rows[t])
  }

  // The readings the engine accepts: one row per interval, one column per member.
  predicate Metering(production: seq<seq<real>>, consumption: seq<seq<real>>, m: nat, n: nat) {
    && |production| == |consumption|
    && Wide(production, m) && Wide(consumption, n)
    && NonNegativeRows(production) && NonNegativeRows(consumption)
  }

  function RowSums(rows: seq<seq<real>>): (r: seq<real>)
    ensures |r| == |rows|
  {
    seq(|rows|, t requires 0 <= t < |rows| => Sum(rows[t]))
  }

  function RowTotals(rows: seq<seq<real>>): (r: seq<real>)
    ensures |r| == |rows|
  {
    seq(|rows|, t requires 0 <= t < |rows| => Millionths(Sum(rows[t])))
  }

  function Scaled(row: seq<real>): (r: seq<real>)
    ensures |r| == |row|
  {
    seq(|row|, i requires 0 <= i < |row| => Millionths(row[i]))
  }

  lemma SumOfScaled(row: seq<real>)
    ensures Sum(Scaled(row)) == Millionths(Sum(row))
  {
    SumScaled(row, 1000000.0, Scaled(row));
  }

  function Column(rows: seq<seq<real>>, n: nat, i: nat): (r: seq<real>)
    requires Wide(rows, n) && i < n
    ensures |r| == |rows|
  {
    seq(|rows|, t requires 0 <= t < |rows| => Millionths(rows[t][i]))
  }

  function ColumnTotals(rows: seq<seq<real>>, n: nat): (r: seq<real>)
    requires Wide(rows, n)
    ensures |r| == n
  {
    seq(n, i requires 0 <= i < n => Sum(Column(rows, n, i)))
  }

  function EngineAllocation(production: seq<seq<real>>, consumption: seq<seq<real>>, model: Model): (r: seq<seq<real>>)
    requires |production| == |consumption|
    ensures |r| == |consumption|
    ensures forall t :: 0 <= t < |r| ==> |r[t]| == |consumption[t]|
  {
    seq(|consumption|, t requires 0 <= t < |consumption| =>
      AllocateInterval(Sum(production[t]), consumption[t], model))
  }

  function EngineCredits(production: seq<seq<real>>, allocation: seq<seq<real>>): (r: seq<seq<real>>)
    requires |production| == |allocation|
    ensures |r| == |production|
    ensures forall t :: 0 <= t < |r| ==> |r[t]| == |production[t]|
  {
    seq(|production|, t requires 0 <= t < |production| => Credits(production[t], Sum(allocation[t])))
  }

  // ---------------------------------------------------------------------
  // One interval, for both models.

  lemma IntervalBounds(prods: seq<real>, cons: seq<real>, model: Model)
    requires NonNegative(prods) && NonNegative(cons)
    ensures var split := AllocateInterval(Sum(prods), cons, model);
      && NonNegative(split) && (forall i :: 0 <= i < |cons| ==> split[i] <= cons[i])
      && 0.0 <= Sum(split) <= Sum(prods)
      && NonNegative(Credits(prods, Sum(split))) && Sum(Credits(prods, Sum(split))) == Sum(split)
  {
    SumNonNegative(prods);
    SumNonNegative(cons);
    if Sum(prods) <= 0.0 || Sum(cons) <= 0.0 {
      SumOfZeros(Zeros(|cons|));
    } else if model == Proportional {
      ProportionalRatio(Sum(prods), cons, Min(Sum(prods), Sum(cons)) / Sum(cons));
    } else {
      EinfachExact(Sum(prods), cons);
    }
    SumNonNegative(AllocateInterval(Sum(prods), cons, model));
    CreditsExact(prods, Sum(AllocateInterval(Sum(prods), cons, model)));
  }

  // ---------------------------------------------------------------------
  // Members' columns and intervals' rows hold the same energy.

  lemma ColumnStep(rows: seq<seq<real>>, n: nat, i: nat)
    requires rows != [] && Wide(rows, n) && i < n
    ensures Sum(Column(rows, n, i)) == Sum(Column(rows[..|rows| - 1], n, i)) + Millionths(rows[|rows| - 1][i])
  {
    var k := |rows| - 1;
    assert Column(rows, n, i)[..k] == Column(rows[..k], n, i);
  }

  lemma ColumnTotalsStep(rows: seq<seq<real>>, n: nat)
    requires rows != [] && Wide(rows, n)
    ensures Sum(ColumnTotals(rows, n)) == Sum(ColumnTotals(rows[..|rows| - 1], n)) + Millionths(Sum(rows[|rows| - 1]))
  {
    var front, last := rows[..|rows| - 1], Scaled(rows[|rows| - 1]);
    var before, after := ColumnTotals(front, n), ColumnTotals(rows, n);
    forall i | 0 <= i < n
      ensures after[i] == before[i] + last[i]
    {
      ColumnStep(rows, n, i);
    }
    SumPointwise(before, last, after);
    SumOfScaled(rows[|rows| - 1]);
  }

  lemma RowTotalsStep(rows: seq<seq<real>>)
    requires rows != []
    ensures Sum(RowTotals(rows)) == Sum(RowTotals(rows[..|rows| - 1])) + Millionths(Sum(rows[|rows| - 1]))
  {
    assert RowTotals(rows)[..|rows| - 1] == RowTotals(rows[..|rows| - 1]);
  }

  lemma {:induction false} ColumnsAreRows(rows: seq<seq<real>>, n: nat)
    requires Wide(rows, n)
    ensures Sum(ColumnTotals(rows, n)) == Sum(RowTotals(rows))
  {
    if rows == [] {
      SumOfZeros(ColumnTotals(rows, n));
    } else {
      ColumnsAreRows(rows[..|rows| - 1], n);
      ColumnTotalsStep(rows, n);
      RowTotalsStep(rows);
    }
  }

  lemma ColumnsNonNegative(rows: seq<seq<real>>, n: nat)
    requires Wide(rows, n) && NonNegativeRows(rows)
    ensures forall i :: 0 <= i < n ==> NonNegative(Column(rows, n, i)) && ColumnTotals(rows, n)[i] >= 0.0
  {
    forall i | 0 <= i < n
      ensures NonNegative(Column(rows, n, i)) && ColumnTotals(rows, n)[i] >= 0.0
    {
      forall t | 0 <= t < |rows|
        ensures Column(rows, n, i)[t] >= 0.0
      {
        assert NonNegative(rows[t]);
      }
      SumNonNegative(Column(rows, n, i));
    }
  }

  lemma EngineRows(production: seq<seq<real>>, consumption: seq<seq<real>>, m: nat, n: nat, model: Model)
    requires Metering(production, consumption, m, n)
    ensures var allocation := EngineAllocation(production, consumption, model);
            var credits := EngineCredits(production, allocation);
      && Wide(allocation, n) && Wide(credits, m) && NonNegativeRows(allocation) && NonNegativeRows(credits)
      && RowTotals(allocation) == RowTotals(credits)
  {
    var allocation := EngineAllocation(production, consumption, model);
    var credits := EngineCredits(production, allocation);
    forall t | 0 <= t < |production|
      ensures NonNegative(allocation[t]) && NonNegative(credits[t])
      ensures RowTotals(allocation)[t] == RowTotals(credits)[t]
    {
      IntervalBounds(production[t], consumption[t], model);
    }
  }

  // Over a whole period the engine credits what it allocates.
  lemma EngineBalances(production: seq<seq<real>>, consumption: seq<seq<real>>, m: nat, n: nat, model: Model)
    requires Metering(production, consumption, m, n)
    ensures var allocation := EngineAllocation(production, consumption, model);
            var credits := EngineCredits(production, allocation);
      && Wide(allocation, n) && Wide(credits, m)
      && Sum(ColumnTotals(allocation, n)) == Sum(ColumnTotals(credits, m))
  {
    EngineRows(production, consumption, m, n, model);
    ColumnsAreRows(EngineAllocation(production, consumption, model), n);
    ColumnsAreRows(EngineCredits(production, EngineAllocation(production, consumption, model)), m);
  }

  // ---------------------------------------------------------------------
  // The ledger of the engine's own allocation.

  function BilledColumns(ids: seq<int>, totals: seq<real>): (r: seq<Billed>)
    requires |ids| == |totals|
    ensures |r| == |ids|
  {
    seq(|ids|, i requires 0 <= i < |ids| => Billed(ids[i], totals[i]))
  }

  lemma {:induction false} RawIsSum(ids: seq<int>, totals: seq<real>)
    requires |ids| == |totals|
    ensures LedgerApproval.Raw(BilledColumns(ids, totals)) == Sum(totals)
  {
    if ids != [] {
      var k := |ids| - 1;
      RawIsSum(ids[..k], totals[..k]);
      assert BilledColumns(ids, totals)[..k] == BilledColumns(ids[..k], totals[..k]);
    }
  }

  function EngineConsumers(production: seq<seq<real>>, consumption: seq<seq<real>>, model: Model, ids: seq<int>): seq<Billed>
    requires |production| == |consumption| && Wide(consumption, |ids|)
  {
    BilledColumns(ids, ColumnTotals(EngineAllocation(production, consumption, model), |ids|))
  }

  function EngineProducers(production: seq<seq<real>>, consumption: seq<seq<real>>, model: Model, ids: seq<int>): seq<Billed>
    requires |production| == |consumption| && Wide(production, |ids|)
  {
    BilledColumns(ids, ColumnTotals(EngineCredits(production, EngineAllocation(production, consumption, model)), |ids|))
  }

  // What the gate demands of the two billed sides.
  lemma EngineSides(production: seq<seq<real>>, consumption: seq<seq<real>>, model: Model,
                    producerIds: seq<int>, consumerIds: seq<int>)
    requires Metering(production, consumption, |producerIds|, |consumerIds|)
    ensures var consumers := EngineConsumers(production, consumption, model, consumerIds);
            var producers := EngineProducers(production, consumption, model, producerIds);
      && LedgerApproval.Raw(consumers) == LedgerApproval.Raw(producers)
      && LedgerApproval.NonNegative(consumers) && LedgerApproval.NonNegative(producers)
  {
    var m, n := |producerIds|, |consumerIds|;
    var allocation := EngineAllocation(production, consumption, model);
    var credits := EngineCredits(production, allocation);
    EngineRows(production, consumption, m, n, model);
    EngineBalances(production, consumption, m, n, model);
    ColumnsNonNegative(allocation, n);
    ColumnsNonNegative(credits, m);
    RawIsSum(consumerIds, ColumnTotals(allocation, n));
    RawIsSum(producerIds, ColumnTotals(credits, m));
  }

  // The gate accepts the ledger of the engine's own allocation, whenever there
  // is anybody to bill.
  lemma EngineLedgerAccepted(production: seq<seq<real>>, consumption: seq<seq<real>>, model: Model,
                             producerIds: seq<int>, consumerIds: seq<int>, prices: Prices)
    requires Metering(production, consumption, |producerIds|, |consumerIds|)
    requires Distinct(producerIds) && Distinct(consumerIds)
    requires prices.internal >= 0.0 && prices.settlement >= 0.0
    ensures WellFormed(Ledger(EngineConsumers(production, consumption, model, consumerIds),
                              EngineProducers(production, consumption, model, producerIds),
                              prices.internal, prices.settlement), prices)
            <==> consumerIds != [] || producerIds != []
  {
    EngineSides(production, consumption, model, producerIds, consumerIds);
    LedgerApproval.LedgerAccepted(EngineConsumers(production, consumption, model, consumerIds),
                                  EngineProducers(production, consumption, model, producerIds), prices);
  }

  // A member's parts of all intervals, in kWh.
  function PeriodParts(production: seq<seq<real>>, consumption: seq<seq<real>>, model: Model, n: nat, i: nat): (r: seq<real>)
    requires |production| == |consumption| && Wide(consumption, n) && i < n
    ensures |r| == |production|
  {
    seq(|production|, t requires 0 <= t < |production| => MemberPart(Sum(production[t]), consumption[t], model, i))
  }

  // What an interval hands out: everybody's part.
  function HandedOut(prods: seq<real>, cons: seq<real>, model: Model): real {
    Sum(seq(|cons|, i requires 0 <= i < |cons| => MemberPart(Sum(prods), cons, model, i)))
  }

  function CreditParts(production: seq<seq<real>>, consumption: seq<seq<real>>, model: Model, m: nat, j: nat): (r: seq<real>)
    requires |production| == |consumption| && Wide(production, m) && j < m
    ensures |r| == |production|
  {
    seq(|production|, t requires 0 <= t < |production| =>
      MemberCredit(production[t], HandedOut(production[t], consumption[t], model), j))
  }

  lemma ColumnOfParts(rows: seq<seq<real>>, n: nat, i: nat, parts: seq<real>)
    requires Wide(rows, n) && i < n && |parts| == |rows|
    requires forall t :: 0 <= t < |rows| ==> rows[t][i] == parts[t]
    ensures ColumnTotals(rows, n)[i] == Millionths(Sum(parts))
  {
    assert Column(rows, n, i) == Scaled(parts);
    SumOfScaled(parts);
  }

  // A consumer's column is the sum of its parts.
  lemma ConsumerColumn(production: seq<seq<real>>, consumption: seq<seq<real>>, model: Model, m: nat, ids: seq<int>, i: nat)
    requires Metering(production, consumption, m, |ids|) && i < |ids|
    ensures EngineConsumers(production, consumption, model, ids)[i]
            == Billed(ids[i], Millionths(Sum(PeriodParts(production, consumption, model, |ids|, i))))
  {
    var rows := EngineAllocation(production, consumption, model);
    forall t | 0 <= t < |rows|
      ensures rows[t][i] == PeriodParts(production, consumption, model, |ids|, i)[t]
    {
      SplitParts(Sum(production[t]), consumption[t], model, i);
    }
    ColumnOfParts(rows, |ids|, i, PeriodParts(production, consumption, model, |ids|, i));
  }

  lemma SplitHandsOut(prods: seq<real>, cons: seq<real>, model: Model)
    requires NonNegative(cons)
    ensures Sum(AllocateInterval(Sum(prods), cons, model)) == HandedOut(prods, cons, model)
  {
    var split := AllocateInterval(Sum(prods), cons, model);
    var parts := seq(|cons|, i requires 0 <= i < |cons| => MemberPart(Sum(prods), cons, model, i));
    forall i | 0 <= i < |cons|
      ensures split[i] == parts[i]
    {
      SplitParts(Sum(prods), cons, model, i);
    }
    assert split == parts;
  }

  lemma CreditIsPart(prods: seq<real>, handed: real, j: nat)
    requires j < |prods|
    ensures Credits(prods, handed)[j] == MemberCredit(prods, handed, j)
  {
    var total := Sum(prods);
    if total == 0.0 {
      assert Credits(prods, handed) == Zeros(|prods|);
    } else {
      var ratio := handed / total;
      CreditsAreScaled(prods, handed, total, ratio);
      ScaledAt(prods, ratio, j);
    }
  }

  // A producer's column is the sum of its credits.
  lemma ProducerColumn(production: seq<seq<real>>, consumption: seq<seq<real>>, model: Model, n: nat, ids: seq<int>, j: nat)
    requires Metering(production, consumption, |ids|, n) && j < |ids|
    ensures EngineProducers(production, consumption, model, ids)[j]
            == Billed(ids[j], Millionths(Sum(CreditParts(production, consumption, model, |ids|, j))))
  {
    var allocation := EngineAllocation(production, consumption, model);
    var rows := EngineCredits(production, allocation);
    forall t | 0 <= t < |rows|
      ensures rows[t][j] == CreditParts(production, consumption, model, |ids|, j)[t]
    {
      SplitHandsOut(production[t], consumption[t], model);
      CreditIsPart(production[t], Sum(allocation[t]), j);
    }
    ColumnOfParts(rows, |ids|, j, CreditParts(production, consumption, model, |ids|, j));
  }

  // A consumer is charged, and a producer credited, the sum of its parts of the
  // readings, in whole millionths of a kWh.
  ghost predicate ChargesReadings(items: seq<Item>, production: seq<seq<real>>, consumption: seq<seq<real>>, model: Model,
                                  ids: seq<int>, i: nat, prices: Prices)
    requires |production| == |consumption| && Wide(consumption, |ids|) && i < |ids|
  {
    ChargesQuantity(items, ids[i],
                    RoundHalfEven(1000000.0 * Sum(PeriodParts(production, consumption, model, |ids|, i))) as real,
                    prices.internal, prices.settlement)
  }

  ghost predicate CreditsReadings(items: seq<Item>, production: seq<seq<real>>, consumption: seq<seq<real>>, model: Model,
                                  ids: seq<int>, j: nat, prices: Prices)
    requires |production| == |consumption| && Wide(production, |ids|) && j < |ids|
  {
    CreditsQuantity(items, ids[j],
                    RoundHalfEven(1000000.0 * Sum(CreditParts(production, consumption, model, |ids|, j))) as real,
                    prices.internal)
  }

  ghost predicate BillsReadings(items: seq<Item>, production: seq<seq<real>>, consumption: seq<seq<real>>, model: Model,
                                producerIds: seq<int>, consumerIds: seq<int>, prices: Prices)
    requires Metering(production, consumption, |producerIds|, |consumerIds|)
  {
    && (forall i :: 0 <= i < |consumerIds| ==> ChargesReadings(items, production, consumption, model, consumerIds, i, prices))
    && (forall j :: 0 <= j < |producerIds| ==> CreditsReadings(items, production, consumption, model, producerIds, j, prices))
  }

  lemma ReadingsCharged(items: seq<Item>, production: seq<seq<real>>, consumption: seq<seq<real>>, model: Model,
                        ids: seq<int>, i: nat, column: Billed, prices: Prices)
    requires |production| == |consumption| && Wide(consumption, |ids|) && i < |ids|
    requires column == Billed(ids[i], Millionths(Sum(PeriodParts(production, consumption, model, |ids|, i))))
    requires ChargesQuantity(items, column.participant, RoundHalfEven(column.quantity) as real, prices.internal, prices.settlement)
    ensures ChargesReadings(items, production, consumption, model, ids, i, prices)
  {
  }

  lemma ReadingsCredited(items: seq<Item>, production: seq<seq<real>>, consumption: seq<seq<real>>, model: Model,
                         ids: seq<int>, j: nat, column: Billed, prices: Prices)
    requires |production| == |consumption| && Wide(production, |ids|) && j < |ids|
    requires column == Billed(ids[j], Millionths(Sum(CreditParts(production, consumption, model, |ids|, j))))
    requires CreditsQuantity(items, column.participant, RoundHalfEven(column.quantity) as real, prices.internal)
    ensures CreditsReadings(items, production, consumption, model, ids, j, prices)
  {
  }

  lemma EngineBillsReadings(production: seq<seq<real>>, consumption: seq<seq<real>>, model: Model,
                            producerIds: seq<int>, consumerIds: seq<int>, prices: Prices, items: seq<Item>)
    requires Metering(production, consumption, |producerIds|, |consumerIds|)
    requires items == Ledger(EngineConsumers(production, consumption, model, consumerIds),
                             EngineProducers(production, consumption, model, producerIds),
                             prices.internal, prices.settlement)
    ensures BillsReadings(items, production, consumption, model, producerIds, consumerIds, prices)
  {
    var m, n := |producerIds|, |consumerIds|;
    var consumers := EngineConsumers(production, consumption, model, consumerIds);
    var producers := EngineProducers(production, consumption, model, producerIds);
    forall i | 0 <= i < n
      ensures ChargesReadings(items, production, consumption, model, consumerIds, i, prices)
    {
      ConsumerColumn(production, consumption, model, m, consumerIds, i);
      ColumnIsCharged(consumers, producers, prices.internal, prices.settlement, i);
      ReadingsCharged(items, production, consumption, model, consumerIds, i, consumers[i], prices);
    }
    forall j | 0 <= j < m
      ensures CreditsReadings(items, production, consumption, model, producerIds, j, prices)
    {
      ProducerColumn(production, consumption, model, n, producerIds, j);
      ColumnIsCredited(consumers, producers, prices.internal, prices.settlement, j);
      ReadingsCredited(items, production, consumption, model, producerIds, j, producers[j], prices);
    }
  }

  // Allocates, credits and prices a period; the lines pass approval's gate.
  method GenerateLines(production: seq<seq<real>>, consumption: seq<seq<real>>, model: Model,
                       producerIds: seq<int>, consumerIds: seq<int>, prices: Prices) returns (items: seq<Item>)
    requires Metering(production, consumption, |producerIds|, |consumerIds|)
    requires Distinct(producerIds) && Distinct(consumerIds)
    requires prices.internal >= 0.0 && prices.settlement >= 0.0
    ensures items == Ledger(EngineConsumers(production, consumption, model, consumerIds),
                            EngineProducers(production, consumption, model, producerIds),
                            prices.internal, prices.settlement)
    ensures BillsReadings(items, production, consumption, model, producerIds, consumerIds, prices)
    ensures WellFormed(items, prices) <==> consumerIds != [] || producerIds != []
  {
    var allocation := AllocateEnergy(RowSums(production), consumption, model);
    assert allocation == EngineAllocation(production, consumption, model);
    var credits: seq<seq<real>> := [];
    for t := 0 to |production|
      invariant |credits| == t
      invariant forall k :: 0 <= k < t ==> credits[k] == Credits(production[k], Sum(allocation[k]))
    {
      credits := credits + [Credits(production[t], Sum(allocation[t]))];
    }
    assert credits == EngineCredits(production, allocation);
    EngineLedgerAccepted(production, consumption, model, producerIds, consumerIds, prices);
    items := EmitLines(BilledColumns(consumerIds, ColumnTotals(allocation, |consumerIds|)),
                       BilledColumns(producerIds, ColumnTotals(credits, |producerIds|)),
                       prices.internal, prices.settlement);
    EngineBillsReadings(production, consumption, model, producerIds, consumerIds, prices, items);
  }

  // ---------------------------------------------------------------------
  // The battery's meter in the engine's own allocation.

  // The columns of all members but one.
  function Others(rows: seq<seq<real>>, n: nat, c: nat): (r: seq<seq<real>>)
    requires Wide(rows, n) && c < n
    ensures |r| == n - 1 && SameLength(r, |rows|)
  {
    var r := seq(n - 1, k requires 0 <= k < n - 1 => Column(rows, n, if k < c then k else k + 1));
    assert forall k :: 0 <= k < n - 1 ==> r[k] == Column(rows, n, if k < c then k else k + 1);
    r
  }

  function Without(ids: seq<int>, c: nat): (r: seq<int>)
    requires c < |ids|
    ensures |r| == |ids| - 1
  {
    ids[..c] + ids[c + 1..]
  }

  // The battery consumes in column c and produces in column b.
  function EngineMeter(production: seq<seq<real>>, consumption: seq<seq<real>>, model: Model,
                       m: nat, ids: seq<int>, b: nat, c: nat): Meter
    requires |production| == |consumption| && Wide(production, m) && Wide(consumption, |ids|) && b < m && c < |ids|
  {
    var allocation := EngineAllocation(production, consumption, model);
    Meter(RowTotals(production), Column(consumption, |ids|, c), Column(production, m, b),
          Column(allocation, |ids|, c), Without(ids, c), Others(allocation, |ids|, c))
  }

  function At(alloc: seq<seq<real>>, t: nat): (r: seq<real>)
    requires forall i :: 0 <= i < |alloc| ==> t < |alloc[i]|
    ensures |r| == |alloc|
  {
    seq(|alloc|, i requires 0 <= i < |alloc| => alloc[i][t])
  }

  lemma {:induction false} HandedAt(own: seq<real>, alloc: seq<seq<real>>, t: nat)
    requires SameLength(alloc, |own|) && t < |own|
    ensures Handed(own, alloc)[t] == own[t] + Sum(At(alloc, t))
  {
    if alloc != [] {
      var k := |alloc| - 1;
      HandedAt(own, alloc[..k], t);
      assert At(alloc, t)[..k] == At(alloc[..k], t);
    }
  }

  lemma SumWithout(xs: seq<real>, front: seq<real>, x: real, back: seq<real>)
    requires xs == front + [x] + back
    ensures Sum(xs) == x + Sum(front + back)
  {
    SumInsert(front, x, back);
  }

  lemma OthersAt(rows: seq<seq<real>>, n: nat, c: nat, t: nat)
    requires Wide(rows, n) && c < n && t < |rows|
    ensures At(Others(rows, n, c), t) == Scaled(rows[t])[..c] + Scaled(rows[t])[c + 1..]
  {
    var scaled := Scaled(rows[t]);
    var expected := scaled[..c] + scaled[c + 1..];
    forall k | 0 <= k < n - 1
      ensures At(Others(rows, n, c), t)[k] == expected[k]
    {
      assert expected[k] == scaled[if k < c then k else k + 1];
      assert Others(rows, n, c)[k] == Column(rows, n, if k < c then k else k + 1);
    }
  }

  // The battery's column and all others make up the interval's allocation.
  lemma HandedIsRow(rows: seq<seq<real>>, n: nat, c: nat, t: nat)
    requires Wide(rows, n) && c < n && t < |rows|
    ensures Handed(Column(rows, n, c), Others(rows, n, c))[t] == Millionths(Sum(rows[t]))
  {
    var scaled := Scaled(rows[t]);
    HandedAt(Column(rows, n, c), Others(rows, n, c), t);
    OthersAt(rows, n, c, t);
    assert scaled == scaled[..c] + [scaled[c]] + scaled[c + 1..];
    SumWithout(scaled, scaled[..c], scaled[c], scaled[c + 1..]);
    SumOfScaled(rows[t]);
  }

  lemma MemberWithin(row: seq<real>, i: nat)
    requires NonNegative(row) && i < |row|
    ensures 0.0 <= Millionths(row[i]) <= Millionths(Sum(row))
  {
    SumNonNegative(row);
  }

  lemma MeterAt(production: seq<seq<real>>, consumption: seq<seq<real>>, model: Model,
                m: nat, ids: seq<int>, b: nat, c: nat, t: nat)
    requires Metering(production, consumption, m, |ids|) && b < m && c < |ids| && t < |production|
    ensures var meter := EngineMeter(production, consumption, model, m, ids, b, c);
      && meter.discharge[t] <= meter.total[t] && meter.own[t] <= meter.charge[t]
      && Handed(meter.own, meter.alloc)[t] <= meter.total[t]
  {
    IntervalBounds(production[t], consumption[t], model);
    MemberWithin(production[t], b);
    HandedIsRow(EngineAllocation(production, consumption, model), |ids|, c, t);
  }

  lemma OthersNonNegative(rows: seq<seq<real>>, n: nat, c: nat)
    requires Wide(rows, n) && NonNegativeRows(rows) && c < n
    ensures forall k :: 0 <= k < n - 1 ==> NonNegative(Others(rows, n, c)[k])
  {
    ColumnsNonNegative(rows, n);
  }

  // What the attribution requires of an allocation, the engine's has.
  lemma EngineIsMeasured(production: seq<seq<real>>, consumption: seq<seq<real>>, model: Model,
                         m: nat, ids: seq<int>, b: nat, c: nat)
    requires Metering(production, consumption, m, |ids|) && b < m && c < |ids|
    ensures Measured(EngineMeter(production, consumption, model, m, ids, b, c))
  {
    var meter := EngineMeter(production, consumption, model, m, ids, b, c);
    EngineRows(production, consumption, m, |ids|, model);
    ColumnsNonNegative(production, m);
    ColumnsNonNegative(consumption, |ids|);
    ColumnsNonNegative(EngineAllocation(production, consumption, model), |ids|);
    OthersNonNegative(EngineAllocation(production, consumption, model), |ids|, c);
    forall t | 0 <= t < |production|
      ensures meter.discharge[t] <= meter.total[t] && meter.own[t] <= meter.charge[t]
      ensures Handed(meter.own, meter.alloc)[t] <= meter.total[t]
    {
      MeterAt(production, consumption, model, m, ids, b, c, t);
    }
  }

  function CreditPart(handed: real, total: real, produced: real): real {
    if total == 0.0 then 0.0 else handed / total * produced
  }

  lemma ScaledCredit(handed: real, produced: real, total: real)
    ensures Millionths(handed) * CreditShare(Millionths(produced), Millionths(total))
            == Millionths(CreditPart(handed, total, produced))
  {
    if total != 0.0 {
      var share := CreditShare(Millionths(produced), Millionths(total));
      assert share * total == produced;
      assert handed / total * total == handed;
      assert handed * share == handed / total * produced;
    }
  }

  lemma PartOfRatio(handed: real, total: real, produced: real, ratio: real)
    requires total != 0.0 && ratio == handed / total
    ensures CreditPart(handed, total, produced) == ratio * produced
  {
  }

  lemma CreditsAreScaled(prods: seq<real>, handed: real, total: real, ratio: real)
    requires total == Sum(prods) && total != 0.0 && ratio == handed / total
    ensures Credits(prods, handed) == Scale(prods, ratio)
  {
  }

  lemma CreditOf(prods: seq<real>, handed: real, total: real, b: nat, credit: real)
    requires b < |prods| && total == Sum(prods) && credit == Credits(prods, handed)[b]
    ensures credit == CreditPart(handed, total, prods[b])
  {
    if total != 0.0 {
      var ratio := handed / total;
      CreditsAreScaled(prods, handed, total, ratio);
      ScaledAt(prods, ratio, b);
      PartOfRatio(handed, total, prods[b], ratio);
    }
  }

  lemma TimesIsCredit(all: seq<real>, shares: seq<real>, t: nat, handed: real, produced: real, total: real)
    requires |all| == |shares| && t < |all| && all[t] == Millionths(handed)
    requires shares[t] == CreditShare(Millionths(produced), Millionths(total))
    ensures Times(all, shares)[t] == Millionths(CreditPart(handed, total, produced))
  {
    ScaledCredit(handed, produced, total);
  }

  lemma CreditColumn(times: seq<real>, column: seq<real>)
    requires |times| == |column| && forall t :: 0 <= t < |times| ==> times[t] == column[t]
    ensures Sum(times) == Sum(column)
  {
    assert times == column;
  }

  lemma CreditAt(production: seq<seq<real>>, consumption: seq<seq<real>>, model: Model,
                 m: nat, ids: seq<int>, b: nat, c: nat, t: nat)
    requires Metering(production, consumption, m, |ids|) && b < m && c < |ids| && t < |production|
    ensures var meter := EngineMeter(production, consumption, model, m, ids, b, c);
            var credits := EngineCredits(production, EngineAllocation(production, consumption, model));
      Times(Handed(meter.own, meter.alloc), CreditShares(meter))[t] == Column(credits, m, b)[t]
  {
    var meter := EngineMeter(production, consumption, model, m, ids, b, c);
    var allocation := EngineAllocation(production, consumption, model);
    var handed, total, produced := Sum(allocation[t]), Sum(production[t]), production[t][b];
    HandedIsRow(allocation, |ids|, c, t);
    CreditOf(production[t], handed, total, b, Credits(production[t], handed)[b]);
    TimesIsCredit(Handed(meter.own, meter.alloc), CreditShares(meter), t, handed, produced, total);
  }

  // The credit the attribution is measured against is the battery's own column
  // of the engine's credits.
  lemma EngineCreditsBattery(production: seq<seq<real>>, consumption: seq<seq<real>>, model: Model,
                             m: nat, ids: seq<int>, b: nat, c: nat)
    requires Metering(production, consumption, m, |ids|) && b < m && c < |ids|
    ensures Measured(EngineMeter(production, consumption, model, m, ids, b, c))
    ensures BatteryCredit(EngineMeter(production, consumption, model, m, ids, b, c))
            == ColumnTotals(EngineCredits(production, EngineAllocation(production, consumption, model)), m)[b]
  {
    var credits := EngineCredits(production, EngineAllocation(production, consumption, model));
    var meter := EngineMeter(production, consumption, model, m, ids, b, c);
    EngineIsMeasured(production, consumption, model, m, ids, b, c);
    var times := Times(Handed(meter.own, meter.alloc), CreditShares(meter));
    forall t | 0 <= t < |production|
      ensures times[t] == Column(credits, m, b)[t]
    {
      CreditAt(production, consumption, model, m, ids, b, c, t);
    }
    CreditColumn(times, Column(credits, m, b));
  }

  // The battery's meter, figure by figure: what all producers and the battery
  // gave, what the battery took, and what the model gives it and every other member.
  lemma MeterIs(production: seq<seq<real>>, consumption: seq<seq<real>>, model: Model,
                m: nat, ids: seq<int>, b: nat, c: nat, t: nat)
    requires Metering(production, consumption, m, |ids|) && b < m && c < |ids| && t < |production|
    ensures var meter := EngineMeter(production, consumption, model, m, ids, b, c);
            var supply := Sum(production[t]);
      && meter.total[t] == 1000000.0 * supply
      && meter.discharge[t] == 1000000.0 * production[t][b] && meter.charge[t] == 1000000.0 * consumption[t][c]
      && meter.own[t] == 1000000.0 * MemberPart(supply, consumption[t], model, c)
      && |meter.alloc| == |meter.ids| == |ids| - 1
      && forall i :: 0 <= i < |ids| && i != c ==>
           var k := if i < c then i else i - 1;
           meter.ids[k] == ids[i] && meter.alloc[k][t] == 1000000.0 * MemberPart(supply, consumption[t], model, i)
  {
    var meter := EngineMeter(production, consumption, model, m, ids, b, c);
    SplitParts(Sum(production[t]), consumption[t], model, c);
    forall i | 0 <= i < |ids| && i != c
      ensures var k := if i < c then i else i - 1;
        meter.ids[k] == ids[i] && meter.alloc[k][t] == 1000000.0 * MemberPart(Sum(production[t]), consumption[t], model, i)
    {
      SplitParts(Sum(production[t]), consumption[t], model, i);
      var k := if i < c then i else i - 1;
      assert meter.alloc[k] == Column(EngineAllocation(production, consumption, model), |ids|, i);
    }
  }
}
