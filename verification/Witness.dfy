/** Soundness, completeness and progress of the interval witness search:
    what the procedure accepts is exactly an allocation, what it calls a
    disagreement has none, and what it leaves unresolved is provably narrow. */
module Witness {
  import opened Numbers
  import opened Reconciliation

  // ---------------------------------------------------------------------
  // Each test of the procedure decides the existence of an allocation.

  lemma ZeroLocals(rows: seq<Channels>, es: seq<Exact>)
    requires |es| == |rows| && forall i :: 0 <= i < |rows| ==> Fits(es[i], rows[i])
    requires Sum(Locals(es)) == 0.0
    ensures forall i :: 0 <= i < |es| ==> es[i].local == 0.0
  {
    SumNonNegative(Locals(es));
    assert forall i :: 0 <= i < |es| ==> Locals(es)[i] == es[i].local;
  }

  lemma AcceptsZero(full: seq<Channels>, part: seq<Channels>)
    requires ZeroAllocation(full, part)
    ensures Allocatable(full, part, 0.0)
  {
    var fs := seq(|full|, i => Exact(0.0, 0.0, 0.0));
    var ps := seq(|part|, i requires 0 <= i < |part| =>
      var t := Max(part[i].total.lower, part[i].residual.lower); Exact(t, 0.0, t));
    SumOfZeros(Locals(fs));
    SumOfZeros(Locals(ps));
    forall i | 0 <= i < |full|
      ensures Fits(fs[i], full[i])
    {
      assert full[i] in full;
    }
    forall i | 0 <= i < |part|
      ensures Fits(ps[i], part[i])
    {
      assert part[i] in part;
    }
    assert IsAllocation(full, part, 0.0, fs, ps);
  }

  lemma RequiresZero(full: seq<Channels>, part: seq<Channels>, fs: seq<Exact>, ps: seq<Exact>)
    requires IsAllocation(full, part, 0.0, fs, ps)
    ensures ZeroAllocation(full, part)
  {
    SumOfZeros(Locals(ps));
    ZeroLocals(full, fs);
    forall row | row in full
      ensures row.total.lower == row.local.lower == row.residual.lower == 0.0
    {
      var i :| 0 <= i < |full| && full[i] == row;
      assert Fits(fs[i], row);
    }
    forall row | row in part
      ensures row.local.lower == 0.0 && Intersection(row.total, row.residual).Some?
    {
      var i :| 0 <= i < |part| && part[i] == row;
      assert Fits(ps[i], row);
      assert Within(ps[i].total, row.total) && Within(ps[i].total, row.residual);
    }
  }

  lemma ZeroExact(full: seq<Channels>, part: seq<Channels>)
    ensures Allocatable(full, part, 0.0) <==> ZeroAllocation(full, part)
  {
    if ZeroAllocation(full, part) {
      AcceptsZero(full, part);
    }
    if Allocatable(full, part, 0.0) {
      var fs, ps :| IsAllocation(full, part, 0.0, fs, ps);
      RequiresZero(full, part, fs, ps);
    }
  }

  // With a side missing, every allocation is the zero allocation.
  lemma EmptySide(full: seq<Channels>, part: seq<Channels>, ratio: real)
    requires full == [] || part == []
    requires 0.0 <= ratio <= 1.0 && Allocatable(full, part, ratio)
    ensures ZeroAllocation(full, part)
  {
    var fs, ps :| IsAllocation(full, part, ratio, fs, ps);
    assert Sum(Locals(fs)) == 0.0 && Sum(Locals(ps)) == 0.0;
    ZeroLocals(full, fs);
    ZeroLocals(part, ps);
    RequiresZero(full, part, fs, ps);
  }

  lemma FullyUsedLocals(rows: seq<Channels>, es: seq<Exact>)
    requires |es| == |rows|
    requires forall i :: 0 <= i < |rows| ==> Fits(es[i], rows[i]) && es[i].residual == 0.0
    ensures forall row | row in rows :: CanBeFullyUsed(row)
    ensures forall i :: 0 <= i < |rows| ==> Within(Locals(es)[i], FullRanges(rows)[i])
    ensures AllNonEmpty(FullRanges(rows))
  {
    forall i | 0 <= i < |rows|
      ensures CanBeFullyUsed(rows[i]) && Within(es[i].local, FullRange(rows[i]))
    {
      assert Within(es[i].local, rows[i].total) && Within(es[i].local, rows[i].local);
    }
  }

  lemma FullyUsedFrom(rows: seq<Channels>, xs: seq<real>) returns (es: seq<Exact>)
    requires forall row | row in rows :: CanBeFullyUsed(row)
    requires |xs| == |rows| && forall i :: 0 <= i < |xs| ==> Within(xs[i], FullRanges(rows)[i])
    ensures |es| == |rows| && Locals(es) == xs
    ensures forall i :: 0 <= i < |rows| ==> Fits(es[i], rows[i]) && es[i].residual == 0.0
    ensures forall i :: 0 <= i < |rows| ==> es[i].local == es[i].total
  {
    es := seq(|rows|, i requires 0 <= i < |rows| => Exact(xs[i], xs[i], 0.0));
    forall i | 0 <= i < |rows|
      ensures Fits(es[i], rows[i])
    {
      assert rows[i] in rows;
      assert Within(xs[i], FullRange(rows[i]));
    }
  }

  predicate FullOnBothSides(full: seq<Channels>, part: seq<Channels>) {
    && (forall row | row in full :: CanBeFullyUsed(row))
    && (forall row | row in part :: CanBeFullyUsed(row))
    && Total(FullRanges(full)).lower < Total(FullRanges(part)).upper
    && Total(FullRanges(part)).lower < Total(FullRanges(full)).upper
  }

  lemma FullRangesNonEmpty(rows: seq<Channels>)
    requires forall row | row in rows :: CanBeFullyUsed(row)
    ensures AllNonEmpty(FullRanges(rows))
  {
    forall i | 0 <= i < |rows|
      ensures NonEmpty(FullRange(rows[i]))
    {
      assert rows[i] in rows;
    }
  }

  lemma FullExact(full: seq<Channels>, part: seq<Channels>)
    requires full != [] && part != []
    ensures Allocatable(full, part, 1.0) <==> FullOnBothSides(full, part)
  {
    if FullOnBothSides(full, part) {
      FullRangesNonEmpty(full);
      FullRangesNonEmpty(part);
      var xs, ys := CommonSum(FullRanges(full), FullRanges(part));
      var fs := FullyUsedFrom(full, xs);
      var ps := FullyUsedFrom(part, ys);
      assert IsAllocation(full, part, 1.0, fs, ps);
    }
    if Allocatable(full, part, 1.0) {
      var fs, ps :| IsAllocation(full, part, 1.0, fs, ps);
      FullyUsedLocals(full, fs);
      FullyUsedLocals(part, ps);
      TotalBounds(FullRanges(full), Locals(fs));
      TotalBounds(FullRanges(part), Locals(ps));
    }
  }

  lemma OverlapWithin(x: real, a: Interval, b: Interval, c: Interval)
    ensures Within(x, Overlap(a, b, c)) <==> Within(x, a) && Within(x, b) && Within(x, c)
  {
  }

  // A row's local range is exactly what its three cells admit at the ratio.
  lemma LocalRangeExact(row: Channels, ratio: real, s: real, e: Exact)
    requires ratio > 0.0 && s > 0.0
    requires e.local == ratio * e.total && e.local == s * e.residual
    ensures Within(e.local, RangeAt(row, ratio, s)) <==>
            Within(e.total, row.total) && Within(e.local, row.local) && Within(e.residual, row.residual)
  {
    ScaledWithin(e.total, e.local, row.total, ratio);
    ScaledWithin(e.residual, e.local, row.residual, s);
    OverlapWithin(e.local, Scaled(ratio, row.total), row.local, Scaled(s, row.residual));
  }

  lemma LocalWithin(row: Channels, ratio: real, e: Exact)
    requires 0.0 < ratio < 1.0 && Shares(e, row, ratio)
    ensures Within(e.local, LocalRange(row, ratio))
  {
    var s := ratio / (1.0 - ratio);
    OddsOf(ratio);
    ResidualFromLocal(e.total, ratio, s);
    assert e.residual == e.total - ratio * e.total;
    LocalRangeExact(row, ratio, s, e);
  }

  lemma OddsOf(ratio: real)
    requires 0.0 < ratio < 1.0
    ensures Odds(ratio, ratio / (1.0 - ratio)) && ratio / (1.0 - ratio) > 0.0
  {
  }

  lemma ResidualFromLocal(total: real, ratio: real, s: real)
    requires Odds(ratio, s)
    ensures s * (total - ratio * total) == ratio * total
  {
    assert total - ratio * total == (1.0 - ratio) * total;
    assert s * ((1.0 - ratio) * total) == s * (1.0 - ratio) * total;
  }

  lemma ScaledWithin(x: real, y: real, c: Interval, factor: real)
    requires factor > 0.0 && y == factor * x
    ensures Within(x, c) <==> Within(y, Scaled(factor, c))
  {
    Order(x, c.lower, factor);
    Order(x, c.upper, factor);
  }

  lemma Order(x: real, y: real, factor: real)
    requires factor > 0.0
    ensures x < y <==> factor * x < factor * y
  {
  }

  lemma ChannelsOf(local: real, ratio: real, s: real) returns (e: Exact)
    requires Odds(ratio, s)
    ensures e.local == local && e.total == local + e.residual
    ensures local == ratio * e.total && local == s * e.residual
  {
    var total := local / ratio;
    assert ratio * total == local;
    ResidualFromLocal(total, ratio, s);
    e := Exact(total, local, total - local);
  }

  // A local energy inside the row's range extends to all three channels.
  lemma LocalExtends(row: Channels, ratio: real, local: real) returns (e: Exact)
    requires 0.0 < ratio < 1.0 && Within(local, LocalRange(row, ratio))
    ensures Shares(e, row, ratio) && e.local == local
  {
    var s := ratio / (1.0 - ratio);
    OddsOf(ratio);
    e := ChannelsOf(local, ratio, s);
    LocalRangeExact(row, ratio, s, e);
  }

  lemma {:induction false} ExtendAll(rows: seq<Channels>, ratio: real, ys: seq<real>) returns (es: seq<Exact>)
    requires 0.0 < ratio < 1.0 && |ys| == |rows|
    requires forall i :: 0 <= i < |rows| ==> Within(ys[i], LocalRange(rows[i], ratio))
    ensures |es| == |rows| && Locals(es) == ys
    ensures forall i :: 0 <= i < |rows| ==> Shares(es[i], rows[i], ratio)
  {
    if rows == [] {
      es := [];
    } else {
      var n := |rows| - 1;
      var front := ExtendAll(rows[..n], ratio, ys[..n]);
      var e := LocalExtends(rows[n], ratio, ys[n]);
      es := front + [e];
      assert forall i :: 0 <= i < n ==> Locals(front)[i] == front[i].local;
    }
  }

  lemma PartialRequires(full: seq<Channels>, part: seq<Channels>, ratio: real, fs: seq<Exact>, ps: seq<Exact>)
    requires full != [] && part != [] && 0.0 < ratio < 1.0
    requires IsAllocation(full, part, ratio, fs, ps)
    ensures Feasible(full, part, ratio)
  {
    FullyUsedLocals(full, fs);
    TotalBounds(FullRanges(full), Locals(fs));
    forall i | 0 <= i < |part|
      ensures Within(Locals(ps)[i], LocalRanges(part, ratio)[i])
    {
      LocalWithin(part[i], ratio, ps[i]);
    }
    assert forall i :: 0 <= i < |part| ==> LocalRanges(part, ratio)[i] == LocalRange(part[i], ratio);
    BoundsExact(part, ratio);
    TotalBounds(LocalRanges(part, ratio), Locals(ps));
  }

  lemma PartialAccepts(full: seq<Channels>, part: seq<Channels>, ratio: real)
    requires full != [] && part != [] && 0.0 < ratio < 1.0
    requires Feasible(full, part, ratio)
    ensures Allocatable(full, part, ratio)
  {
    FullRangesNonEmpty(full);
    BoundsExact(part, ratio);
    var xs, ys := CommonSum(FullRanges(full), LocalRanges(part, ratio));
    var fs := FullyUsedFrom(full, xs);
    forall i | 0 <= i < |part|
      ensures Within(ys[i], LocalRange(part[i], ratio))
    {
      assert Within(ys[i], LocalRanges(part, ratio)[i]);
    }
    var ps := ExtendAll(part, ratio, ys);
    assert IsAllocation(full, part, ratio, fs, ps);
  }

  // The bisection's test is exact: strict inequalities on cell ends decide it.
  lemma PartialExact(full: seq<Channels>, part: seq<Channels>, ratio: real)
    requires full != [] && part != [] && 0.0 < ratio < 1.0
    ensures Allocatable(full, part, ratio) <==> Feasible(full, part, ratio)
  {
    if Feasible(full, part, ratio) {
      PartialAccepts(full, part, ratio);
    }
    if Allocatable(full, part, ratio) {
      var fs, ps :| IsAllocation(full, part, ratio, fs, ps);
      PartialRequires(full, part, ratio, fs, ps);
    }
  }
}
