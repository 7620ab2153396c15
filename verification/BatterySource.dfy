/** Attribution of already allocated energy to one metered battery, in
    millionths of a kWh: the state-of-charge test and the largest remainders. */
module BatterySource {
  import opened Numbers

  // ---------------------------------------------------------------------
  // State of charge: the measured path must fit the capacity.

  // The comparison tolerates 1e-9 kWh.
  const SPAN_SLACK := 0.001

  // Net energy stored after the first k intervals.
  function Level(charge: seq<real>, discharge: seq<real>, k: nat): real
    requires |charge| == |discharge| && k <= |charge|
  {
    if k == 0 then 0.0 else Level(charge, discharge, k - 1) + charge[k - 1] - discharge[k - 1]
  }

  // An opening charge that keeps the whole measured path inside the capacity.
  // What went in less what came out.
  lemma {:induction false} LevelIsBalance(charge: seq<real>, discharge: seq<real>, k: nat)
    requires |charge| == |discharge| && k <= |charge|
    ensures Level(charge, discharge, k) == Sum(charge[..k]) - Sum(discharge[..k])
  {
    if k > 0 {
      LevelIsBalance(charge, discharge, k - 1);
      assert charge[..k][..k - 1] == charge[..k - 1] && discharge[..k][..k - 1] == discharge[..k - 1];
    }
  }

  predicate StoresFrom(charge: seq<real>, discharge: seq<real>, capacity: real, opening: real)
    requires |charge| == |discharge|
  {
    forall k :: 0 <= k <= |charge| ==> 0.0 <= opening + Level(charge, discharge, k) <= capacity
  }

  ghost predicate Storable(charge: seq<real>, discharge: seq<real>, capacity: real)
    requires |charge| == |discharge|
  {
    exists opening :: StoresFrom(charge, discharge, capacity, opening)
  }

  predicate Simultaneous(charge: seq<real>, discharge: seq<real>)
    requires |charge| == |discharge|
  {
    exists t :: 0 <= t < |charge| && charge[t] > 0.0 && discharge[t] > 0.0
  }

  // Accepts exactly the measurements some opening charge can explain.
  method CheckBattery(charge: seq<real>, discharge: seq<real>, capacity: real) returns (ok: bool)
    requires |charge| == |discharge|
    ensures ok <==>
      && capacity > 0.0
      && !Simultaneous(charge, discharge)
      && Storable(charge, discharge, capacity + 0.001)
  {
    if capacity <= 0.0 {
      return false;
    }
    for t := 0 to |charge|
      invariant forall k :: 0 <= k < t ==> !(charge[k] > 0.0 && discharge[k] > 0.0)
    {
      if charge[t] > 0.0 && discharge[t] > 0.0 {
        return false;
      }
    }
    var level, high, low := 0.0, 0.0, 0.0;
    ghost var atHigh, atLow := 0, 0;
    for k := 0 to |charge|
      invariant level == Level(charge, discharge, k)
      invariant forall j :: 0 <= j <= k ==> low <= Level(charge, discharge, j) <= high
      invariant 0 <= atHigh <= k && Level(charge, discharge, atHigh) == high
      invariant 0 <= atLow <= k && Level(charge, discharge, atLow) == low
    {
      level := level + (charge[k] - discharge[k]);
      if level > high {
        high, atHigh := level, k + 1;
      }
      if level < low {
        low, atLow := level, k + 1;
      }
    }
    SpanExact(charge, discharge, capacity + SPAN_SLACK, high, atHigh, low, atLow);
    ok := high - low <= capacity + SPAN_SLACK;
  }

  lemma SpanExact(charge: seq<real>, discharge: seq<real>, capacity: real,
                  high: real, atHigh: nat, low: real, atLow: nat)
    requires |charge| == |discharge| && atHigh <= |charge| && atLow <= |charge|
    requires Level(charge, discharge, atHigh) == high && Level(charge, discharge, atLow) == low
    requires forall j :: 0 <= j <= |charge| ==> low <= Level(charge, discharge, j) <= high
    ensures Storable(charge, discharge, capacity) <==> high - low <= capacity
  {
    if high - low <= capacity {
      assert StoresFrom(charge, discharge, capacity, -low);
    }
    if Storable(charge, discharge, capacity) {
      var opening :| StoresFrom(charge, discharge, capacity, opening);
      assert 0.0 <= opening + low && opening + high <= capacity;
    }
  }

  // ---------------------------------------------------------------------
  // Ranking by remainder: the larger first, then the smaller id.

  predicate Before(rems: seq<real>, ids: seq<int>, i: int, j: int)
    requires |rems| == |ids| && 0 <= i < |rems| && 0 <= j < |rems|
  {
    rems[i] > rems[j] || (rems[i] == rems[j] && ids[i] <= ids[j])
  }

  predicate Indices(order: seq<int>, n: nat) {
    forall k :: 0 <= k < |order| ==> 0 <= order[k] < n
  }

  function Position(rems: seq<real>, ids: seq<int>, i: int, order: seq<int>): (p: nat)
    requires |rems| == |ids| && 0 <= i < |rems| && Indices(order, |rems|)
    ensures p <= |order|
    ensures forall k :: 0 <= k < p ==> !Before(rems, ids, i, order[k])
    ensures p < |order| ==> Before(rems, ids, i, order[p])
  {
    if order == [] || Before(rems, ids, i, order[0]) then 0
    else
      var rest := order[1..];
      assert forall k :: 0 <= k < |rest| ==> rest[k] == order[k + 1];
      1 + Position(rems, ids, i, rest)
  }

  function Inserted(order: seq<int>, i: int, p: nat): (r: seq<int>)
    requires p <= |order|
    ensures |r| == |order| + 1
    ensures forall k :: 0 <= k < |r| ==> r[k] == if k < p then order[k] else if k == p then i else order[k - 1]
  {
    order[..p] + [i] + order[p..]
  }

  function Ranking(rems: seq<real>, ids: seq<int>, n: nat): (r: seq<int>)
    requires |rems| == |ids| && n <= |rems|
    ensures |r| == n && Indices(r, n)
  {
    if n == 0 then [] else
      var order := Ranking(rems, ids, n - 1);
      var p := Position(rems, ids, n - 1, order);
      Inserted(order, n - 1, p)
  }

  ghost predicate Ranked(rems: seq<real>, ids: seq<int>, order: seq<int>)
    requires |rems| == |ids| && Indices(order, |rems|)
  {
    forall k, l :: 0 <= k < l < |order| ==> Before(rems, ids, order[k], order[l])
  }

  lemma RankGrows(rems: seq<real>, ids: seq<int>, n: nat)
    requires |rems| == |ids| && 0 < n <= |rems|
    requires Ranked(rems, ids, Ranking(rems, ids, n - 1))
    ensures Ranked(rems, ids, Ranking(rems, ids, n))
  {
    var order := Ranking(rems, ids, n - 1);
    InsertKeepsRank(rems, ids, n - 1, order, Position(rems, ids, n - 1, order), Ranking(rems, ids, n));
  }

  lemma {:induction false} RankingIsSorted(rems: seq<real>, ids: seq<int>, n: nat)
    requires |rems| == |ids| && n <= |rems|
    ensures Ranked(rems, ids, Ranking(rems, ids, n))
  {
    if n > 0 {
      RankingIsSorted(rems, ids, n - 1);
      RankGrows(rems, ids, n);
    }
  }

  lemma InsertKeepsRank(rems: seq<real>, ids: seq<int>, i: int, order: seq<int>, p: nat, r: seq<int>)
    requires |rems| == |ids| && 0 <= i < |rems| && Indices(order, |rems|) && Ranked(rems, ids, order)
    requires p <= |order| && r == Inserted(order, i, p) && Indices(r, |rems|)
    requires forall k :: 0 <= k < p ==> !Before(rems, ids, i, order[k])
    requires p < |order| ==> Before(rems, ids, i, order[p])
    ensures Ranked(rems, ids, r)
  {
    forall k, l | 0 <= k < l < |r|
      ensures Before(rems, ids, r[k], r[l])
    {
      if k == p {
        assert Before(rems, ids, i, order[p]);
        assert l - 1 == p || Before(rems, ids, order[p], order[l - 1]);
      }
    }
  }

  ghost predicate Listed(order: seq<int>, i: int) {
    exists k :: 0 <= k < |order| && order[k] == i
  }

  ghost predicate Permutation(order: seq<int>, n: nat) {
    Distinct(order) && forall i :: 0 <= i < n ==> Listed(order, i)
  }

  // The ranking is a permutation of the consumers.
  lemma {:induction false} RankingIsPermutation(rems: seq<real>, ids: seq<int>, n: nat)
    requires |rems| == |ids| && n <= |rems|
    ensures Permutation(Ranking(rems, ids, n), n)
  {
    if n > 0 {
      RankingIsPermutation(rems, ids, n - 1);
      RankingGrows(rems, ids, n);
    }
  }

  lemma RankingGrows(rems: seq<real>, ids: seq<int>, n: nat)
    requires |rems| == |ids| && 0 < n <= |rems|
    requires Permutation(Ranking(rems, ids, n - 1), n - 1)
    ensures Permutation(Ranking(rems, ids, n), n)
  {
    var order := Ranking(rems, ids, n - 1);
    InsertKeepsPermutation(n - 1, order, Position(rems, ids, n - 1, order), Ranking(rems, ids, n));
  }

  lemma InsertKeepsPermutation(i: nat, order: seq<int>, p: nat, r: seq<int>)
    requires p <= |order| && Indices(order, i) && Permutation(order, i) && r == Inserted(order, i, p)
    ensures Permutation(r, i + 1)
  {
    forall j | 0 <= j <= i
      ensures Listed(r, j)
    {
      if j == i {
        assert r[p] == i;
      } else {
        assert Listed(order, j);
        var k :| 0 <= k < |order| && order[k] == j;
        assert r[if k < p then k else k + 1] == j;
      }
    }
  }

  function Along(rems: seq<real>, order: seq<int>): (r: seq<real>)
    requires Indices(order, |rems|)
    ensures |r| == |order|
  {
    seq(|order|, k requires 0 <= k < |order| => rems[order[k]])
  }

  lemma {:induction false} SumInsert(a: seq<real>, x: real, b: seq<real>)
    ensures Sum(a + [x] + b) == Sum(a + b) + x
  {
    if b == [] {
      assert a + [x] + b == a + [x] && a + b == a;
      assert (a + [x])[..|a|] == a;
    } else {
      var m := |b| - 1;
      SumInsert(a, x, b[..m]);
      assert (a + [x] + b)[..|a| + 1 + m] == a + [x] + b[..m];
      assert (a + b)[..|a| + m] == a + b[..m];
    }
  }

  lemma AlongInsert(rems: seq<real>, i: int, order: seq<int>, p: nat, r: seq<int>)
    requires 0 <= i < |rems| && Indices(order, |rems|) && Indices(r, |rems|)
    requires p <= |order| && r == Inserted(order, i, p)
    ensures Sum(Along(rems, r)) == Sum(Along(rems, order)) + rems[i]
  {
    var front, back := Along(rems, order)[..p], Along(rems, order)[p..];
    AlongParts(rems, i, order, p, r, front, back);
    SumInsert(front, rems[i], back);
  }

  lemma AlongParts(rems: seq<real>, i: int, order: seq<int>, p: nat, r: seq<int>, front: seq<real>, back: seq<real>)
    requires 0 <= i < |rems| && Indices(order, |rems|) && Indices(r, |rems|)
    requires p <= |order| && r == Inserted(order, i, p)
    requires front == Along(rems, order)[..p] && back == Along(rems, order)[p..]
    ensures Along(rems, r) == front + [rems[i]] + back && Along(rems, order) == front + back
  {
    var expected := front + [rems[i]] + back;
    forall k | 0 <= k < |r|
      ensures Along(rems, r)[k] == expected[k]
    {
    }
  }

  lemma RankingStep(rems: seq<real>, ids: seq<int>, n: nat)
    requires |rems| == |ids| && 0 < n <= |rems|
    ensures Sum(Along(rems, Ranking(rems, ids, n))) == Sum(Along(rems, Ranking(rems, ids, n - 1))) + rems[n - 1]
  {
    var order := Ranking(rems, ids, n - 1);
    AlongInsert(rems, n - 1, order, Position(rems, ids, n - 1, order), Ranking(rems, ids, n));
  }

  lemma SumPrefix(xs: seq<real>, n: nat)
    requires 0 < n <= |xs|
    ensures Sum(xs[..n]) == Sum(xs[..n - 1]) + xs[n - 1]
  {
    assert xs[..n][..n - 1] == xs[..n - 1];
  }

  lemma {:induction false} SumAlongRanking(rems: seq<real>, ids: seq<int>, n: nat)
    requires |rems| == |ids| && n <= |rems|
    ensures Sum(Along(rems, Ranking(rems, ids, n))) == Sum(rems[..n])
  {
    if n == 0 {
      assert Along(rems, Ranking(rems, ids, 0)) == rems[..0];
    } else {
      SumAlongRanking(rems, ids, n - 1);
      SumPrefix(rems, n);
      RankingStep(rems, ids, n);
    }
  }

  // ---------------------------------------------------------------------
  // Largest remainders: whole units that sum to the rounded total.

  function Floors(raw: seq<real>): (r: seq<int>)
    ensures |r| == |raw|
  {
    seq(|raw|, i requires 0 <= i < |raw| => raw[i].Floor)
  }

  function Remainders(raw: seq<real>): (r: seq<real>)
    ensures |r| == |raw|
    ensures forall i :: 0 <= i < |raw| ==> 0.0 <= r[i] < 1.0
  {
    seq(|raw|, i requires 0 <= i < |raw| => raw[i] - raw[i].Floor as real)
  }

  lemma {:induction false} SumRemainders(raw: seq<real>)
    ensures Sum(Remainders(raw)) == Sum(raw) - SumInt(Floors(raw)) as real
  {
    if raw != [] {
      var n := |raw| - 1;
      SumRemainders(raw[..n]);
      assert Remainders(raw)[..n] == Remainders(raw[..n]);
      assert Floors(raw)[..n] == Floors(raw[..n]);
    }
  }

  // A tail of zeros bounds the sum by the length of what precedes it.
  lemma {:induction false} ZeroTail(xs: seq<real>, k: nat)
    requires k <= |xs|
    requires forall i :: 0 <= i < |xs| ==> 0.0 <= xs[i] < 1.0
    requires forall i :: k <= i < |xs| ==> xs[i] == 0.0
    ensures 0.0 <= Sum(xs) <= k as real
  {
    if xs != [] {
      var n := |xs| - 1;
      ZeroTail(xs[..n], if k < n then k else n);
    }
  }

  // The units to hand out are no more than the consumers with a remainder.
  lemma UnitsFit(raw: seq<real>, ids: seq<int>, order: seq<int>, remaining: int)
    requires |raw| == |ids| && order == Ranking(Remainders(raw), ids, |raw|)
    requires remaining == RoundHalfEven(Sum(raw)) - SumInt(Floors(raw))
    ensures 0 <= remaining <= |raw|
    ensures forall k :: 0 <= k < remaining ==> Remainders(raw)[order[k]] > 0.0
  {
    var rems := Remainders(raw);
    var along := Along(rems, order);
    SumRemainders(raw);
    SumAlongRanking(rems, ids, |raw|);
    assert rems[..|raw|] == rems;
    RankingIsSorted(rems, ids, |raw|);
    ZeroTail(along, |along|);
    forall k | 0 <= k < remaining
      ensures rems[order[k]] > 0.0
    {
      if rems[order[k]] == 0.0 {
        forall l | k <= l < |along|
          ensures along[l] == 0.0
        {
          assert k == l || Before(rems, ids, order[k], order[l]);
        }
        ZeroTail(along, k);
      }
    }
  }

  lemma {:induction false} SumIntUpdate(xs: seq<int>, i: nat, x: int)
    requires i < |xs|
    ensures SumInt(xs[i := x]) == SumInt(xs) - xs[i] + x
  {
    var n := |xs| - 1;
    if i < n {
      SumIntUpdate(xs[..n], i, x);
      assert xs[i := x][..n] == xs[..n][i := x];
    } else {
      assert xs[i := x][..n] == xs[..n];
    }
  }

  predicate OneUnitMore(share: int, x: real) {
    share == x.Floor + 1
  }

  // Whole shares: floors, plus one unit each for the larger remainders.
  ghost predicate LargestShares(raw: seq<real>, ids: seq<int>, shares: seq<int>)
    requires |raw| == |ids|
  {
    && |shares| == |raw|
    && (forall i :: 0 <= i < |raw| ==>
          shares[i] == raw[i].Floor || (OneUnitMore(shares[i], raw[i]) && Remainders(raw)[i] > 0.0))
    && (forall i, j :: 0 <= i < |raw| && 0 <= j < |raw| && OneUnitMore(shares[i], raw[i]) && shares[j] == raw[j].Floor ==>
          Precedes(raw, ids, i, j))
  }

  // The larger remainder goes first, between equal ones the smaller id.
  predicate Precedes(raw: seq<real>, ids: seq<int>, i: int, j: int)
    requires |raw| == |ids| && 0 <= i < |raw| && 0 <= j < |raw|
  {
    var first, second := raw[i] - raw[i].Floor as real, raw[j] - raw[j].Floor as real;
    first > second || (first == second && ids[i] <= ids[j])
  }

  // One unit more for each of the first consumers of the ranking.
  predicate UnitsGiven(floors: seq<int>, order: seq<int>, units: nat, shares: seq<int>)
    requires |floors| == |shares| && Indices(order, |floors|)
  {
    forall l :: 0 <= l < |order| ==> shares[order[l]] == floors[order[l]] + if l < units then 1 else 0
  }

  lemma GivenAt(raw: seq<real>, order: seq<int>, units: nat, shares: seq<int>, i: nat) returns (l: nat)
    requires |shares| == |raw| && i < |raw| && Permutation(order, |raw|) && Indices(order, |raw|)
    requires UnitsGiven(Floors(raw), order, units, shares)
    ensures l < |order| && order[l] == i && shares[i] == raw[i].Floor + if l < units then 1 else 0
  {
    assert Listed(order, i);
    l :| 0 <= l < |order| && order[l] == i;
  }

  lemma UnitsAreLargest(raw: seq<real>, ids: seq<int>, order: seq<int>, units: nat, shares: seq<int>)
    requires |raw| == |ids| == |shares| && Indices(order, |raw|)
    requires Permutation(order, |raw|) && Ranked(Remainders(raw), ids, order)
    requires forall k :: 0 <= k < units && k < |order| ==> Remainders(raw)[order[k]] > 0.0
    requires UnitsGiven(Floors(raw), order, units, shares)
    ensures LargestShares(raw, ids, shares)
  {
    forall i | 0 <= i < |raw|
      ensures shares[i] == raw[i].Floor || (OneUnitMore(shares[i], raw[i]) && Remainders(raw)[i] > 0.0)
    {
      var l := GivenAt(raw, order, units, shares, i);
      assert l < units ==> Remainders(raw)[order[l]] > 0.0;
    }
    forall i, j | 0 <= i < |raw| && 0 <= j < |raw| && OneUnitMore(shares[i], raw[i]) && shares[j] == raw[j].Floor
      ensures Precedes(raw, ids, i, j)
    {
      var k := GivenAt(raw, order, units, shares, i);
      var l := GivenAt(raw, order, units, shares, j);
      assert Before(Remainders(raw), ids, order[k], order[l]);
    }
  }

  lemma GiveUnit(floors: seq<int>, order: seq<int>, k: nat, shares: seq<int>)
    requires |floors| == |shares| && Indices(order, |floors|) && Distinct(order) && k < |order|
    requires UnitsGiven(floors, order, k, shares)
    ensures var after := shares[order[k] := shares[order[k]] + 1];
            UnitsGiven(floors, order, k + 1, after) && SumInt(after) == SumInt(shares) + 1
  {
    SumIntUpdate(shares, order[k], shares[order[k]] + 1);
  }

  method LargestRemainders(raw: seq<real>, ids: seq<int>) returns (shares: seq<int>, target: int)
    requires |raw| == |ids|
    ensures target == RoundHalfEven(Sum(raw))
    ensures LargestShares(raw, ids, shares) && SumInt(shares) == target
  {
    var floors := Floors(raw);
    shares, target := floors, RoundHalfEven(Sum(raw));
    var remaining := target - SumInt(shares);
    var order := Ranking(Remainders(raw), ids, |raw|);
    UnitsFit(raw, ids, order, remaining);
    RankingIsPermutation(Remainders(raw), ids, |raw|);
    RankingIsSorted(Remainders(raw), ids, |raw|);
    for k := 0 to remaining
      invariant |shares| == |raw| && SumInt(shares) == SumInt(floors) + k
      invariant UnitsGiven(floors, order, k, shares)
    {
      GiveUnit(floors, order, k, shares);
      shares := shares[order[k] := shares[order[k]] + 1];
    }
    UnitsAreLargest(raw, ids, order, remaining, shares);
  }
}
