/** From accepted readings to the engine's frames and the VNB totals. */
module Frames {
  import opened Numbers
  import opened Readings
  import Invoices

  // ---------------------------------------------------------------------
  // No problems means an exact cover.

  function Grid(start: int, end: int): (grid: seq<int>)
    requires start <= end
    ensures |grid| == (end - start) / QUARTER
  {
    seq((end - start) / QUARTER, k requires 0 <= k < (end - start) / QUARTER => start + QUARTER * k)
  }

  // Every quarter hour that ends inside the window, in microseconds.
  lemma GridExact(start: int, end: int, t: int)
    requires start <= end
    ensures t in Grid(start, end) <==> start <= t && t + 900000000 <= end && (t - start) % 900000000 == 0
  {
    if start <= t && t + 900000000 <= end && (t - start) % 900000000 == 0 {
      assert Grid(start, end)[(t - start) / 900000000] == t;
    }
  }

  ghost predicate DistinctMoments(grid: seq<int>) {
    forall k, l :: 0 <= k < l < |grid| ==> grid[k] != grid[l]
  }

  lemma GridIsDistinct(start: int, end: int)
    requires start <= end
    ensures DistinctMoments(Grid(start, end))
  {
  }

  ghost predicate Delivered(rows: seq<Row>, key: Key) {
    exists i :: 0 <= i < |rows| && KeyOf(rows[i]) == key
  }

  // One row for each declared series and each interval, and nothing else.
  ghost predicate ExactCover(rows: seq<Row>, declarations: map<int, set<Direction>>, grid: seq<int>) {
    && (forall i :: 0 <= i < |rows| ==>
          Declared(declarations, rows[i].point, rows[i].direction) && rows[i].moment in grid)
    && NoDuplicates(rows)
    && (forall p, d, m :: Declared(declarations, p, d) && m in grid ==> Delivered(rows, Key(p, d, m)))
  }

  lemma SilenceIsExactCover(rows: seq<Row>, mapping: map<int, int>, declarations: map<int, set<Direction>>, grid: seq<int>)
    requires CleanRows(rows, mapping, declarations, grid) && NoDuplicates(rows)
    requires GapFree(SeenKeys(rows, mapping, grid), declarations, grid)
    ensures ExactCover(rows, declarations, grid)
  {
  }

  // The one row of a declared series and interval.
  lemma CoverMeans(rows: seq<Row>, declarations: map<int, set<Direction>>, grid: seq<int>, p: int, d: Direction, m: int)
    requires ExactCover(rows, declarations, grid) && p in declarations && d in declarations[p] && m in grid
    ensures exists i :: 0 <= i < |rows| && rows[i].point == p && rows[i].direction == d && rows[i].moment == m
    ensures forall i, j :: 0 <= i < j < |rows| ==>
      rows[i].point != rows[j].point || rows[i].direction != rows[j].direction || rows[i].moment != rows[j].moment
  {
    DistinctRows(rows);
    assert Delivered(rows, Key(p, d, m));
    var i :| 0 <= i < |rows| && KeyOf(rows[i]) == Key(p, d, m);
    assert rows[i].point == p && rows[i].direction == d && rows[i].moment == m;
  }

  function Keys(rows: seq<Row>): set<Key> {
    set i | 0 <= i < |rows| :: KeyOf(rows[i])
  }

  lemma {:induction false} DistinctKeysCount(rows: seq<Row>)
    requires NoDuplicates(rows)
    ensures |Keys(rows)| == |rows|
  {
    if rows != [] {
      var n := |rows| - 1;
      DistinctKeysCount(rows[..n]);
      assert Keys(rows) == Keys(rows[..n]) + {KeyOf(rows[n])} by {
        forall key | key in Keys(rows)
          ensures key in Keys(rows[..n]) + {KeyOf(rows[n])}
        {
          var i :| 0 <= i < |rows| && KeyOf(rows[i]) == key;
          assert i == n || KeyOf(rows[..n][i]) == key;
        }
        forall key | key in Keys(rows[..n])
          ensures key in Keys(rows)
        {
          var i :| 0 <= i < n && KeyOf(rows[..n][i]) == key;
          assert KeyOf(rows[i]) == key;
        }
      }
      assert KeyOf(rows[n]) !in Keys(rows[..n]);
    }
  }

  datatype Series = Series(point: int, direction: Direction)

  function DeclaredSeries(declarations: map<int, set<Direction>>): set<Series> {
    set p, d | p in declarations && d in declarations[p] :: Series(p, d)
  }

  function At(series: set<Series>, moment: int): set<Key> {
    set s | s in series :: Key(s.point, s.direction, moment)
  }

  lemma {:induction false} AtCount(series: set<Series>, moment: int)
    ensures |At(series, moment)| == |series|
    decreases series
  {
    if series != {} {
      var s :| s in series;
      AtCount(series - {s}, moment);
      assert At(series, moment) == At(series - {s}, moment) + {Key(s.point, s.direction, moment)};
    }
  }

  function Cover(series: set<Series>, grid: seq<int>): set<Key> {
    set s, k | s in series && 0 <= k < |grid| :: Key(s.point, s.direction, grid[k])
  }

  lemma CoverStep(series: set<Series>, grid: seq<int>, n: nat)
    requires DistinctMoments(grid) && n + 1 == |grid|
    ensures Cover(series, grid) == Cover(series, grid[..n]) + At(series, grid[n])
    ensures Cover(series, grid[..n]) !! At(series, grid[n])
  {
    var before, last := Cover(series, grid[..n]), At(series, grid[n]);
    forall key | key in before
      ensures key in Cover(series, grid) && key !in last
    {
      var s, k :| s in series && 0 <= k < n && key == Key(s.point, s.direction, grid[..n][k]);
      assert grid[..n][k] == grid[k] && key == Key(s.point, s.direction, grid[k]);
    }
    forall key | key in last
      ensures key in Cover(series, grid)
    {
      var s :| s in series && key == Key(s.point, s.direction, grid[n]);
    }
    forall key | key in Cover(series, grid)
      ensures key in before + last
    {
      var s, k :| s in series && 0 <= k < |grid| && key == Key(s.point, s.direction, grid[k]);
      assert k == n || key == Key(s.point, s.direction, grid[..n][k]);
    }
  }

  lemma {:induction false} CoverCount(series: set<Series>, grid: seq<int>)
    requires DistinctMoments(grid)
    ensures |Cover(series, grid)| == |series| * |grid|
  {
    if grid == [] {
      assert Cover(series, grid) == {};
    } else {
      var n := |grid| - 1;
      CoverCount(series, grid[..n]);
      AtCount(series, grid[n]);
      CoverStep(series, grid, n);
      OneMore(|series|, n);
    }
  }

  lemma OneMore(size: int, n: int)
    ensures size * n + size == size * (n + 1)
  {
  }

  // The count that follows: rows are the declared series times the intervals.
  lemma ExactCoverCount(rows: seq<Row>, declarations: map<int, set<Direction>>, grid: seq<int>)
    requires ExactCover(rows, declarations, grid) && DistinctMoments(grid)
    ensures |rows| == |DeclaredSeries(declarations)| * |grid|
  {
    var series := DeclaredSeries(declarations);
    forall key
      ensures key in Keys(rows) <==> key in Cover(series, grid)
    {
      if key in Cover(series, grid) {
        var s, k :| s in series && 0 <= k < |grid| && key == Key(s.point, s.direction, grid[k]);
        assert Declared(declarations, s.point, s.direction) && Delivered(rows, key);
      }
      if key in Keys(rows) {
        var i :| 0 <= i < |rows| && KeyOf(rows[i]) == key;
        var k :| 0 <= k < |grid| && grid[k] == rows[i].moment;
        assert Series(rows[i].point, rows[i].direction) in series;
      }
    }
    assert Keys(rows) == Cover(series, grid);
    DistinctKeysCount(rows);
    CoverCount(series, grid);
  }

  // ---------------------------------------------------------------------
  // Sums over rows.

  datatype Channel = Total | Community

  // Rows of one direction, and of one participant or one instant if given.
  datatype Slice = Slice(direction: Direction, participant: Option<int>, moment: Option<int>)

  function AmountOf(row: Row, channel: Channel): real {
    var v := if channel == Total then row.total else row.community;
    if v.Some? && v.value.Finite? then v.value.amount else 0.0
  }

  predicate Selects(s: Slice, row: Row, mapping: map<int, int>) {
    && row.direction == s.direction
    && row.point in mapping
    && (s.participant.Some? ==> mapping[row.point] == s.participant.value)
    && (s.moment.Some? ==> row.moment == s.moment.value)
  }

  function SliceSum(rows: seq<Row>, mapping: map<int, int>, s: Slice, channel: Channel): real {
    if rows == [] then 0.0 else
      var last := rows[|rows| - 1];
      SliceSum(rows[..|rows| - 1], mapping, s, channel) + if Selects(s, last, mapping) then AmountOf(last, channel) else 0.0
  }

  lemma SliceStep(rows: seq<Row>, i: nat, mapping: map<int, int>, s: Slice, channel: Channel)
    requires i < |rows|
    ensures SliceSum(rows[..i + 1], mapping, s, channel)
            == SliceSum(rows[..i], mapping, s, channel) + if Selects(s, rows[i], mapping) then AmountOf(rows[i], channel) else 0.0
  {
    assert rows[..i + 1][..i] == rows[..i];
  }

  function SliceSums(rows: seq<Row>, mapping: map<int, int>, slices: seq<Slice>, channel: Channel): (r: seq<real>)
    ensures |r| == |slices|
  {
    seq(|slices|, k requires 0 <= k < |slices| => SliceSum(rows, mapping, slices[k], channel))
  }

  // Each row of the whole is in exactly one part.
  ghost predicate Parts(row: Row, mapping: map<int, int>, parts: seq<Slice>, whole: Slice) {
    && (forall k :: 0 <= k < |parts| && Selects(parts[k], row, mapping) ==> Selects(whole, row, mapping))
    && (Selects(whole, row, mapping) ==> exists k :: 0 <= k < |parts| && Selects(parts[k], row, mapping))
    && (forall k, l :: 0 <= k < l < |parts| ==> !(Selects(parts[k], row, mapping) && Selects(parts[l], row, mapping)))
  }

  lemma {:induction false} SumBump(xs: seq<real>, ys: seq<real>, k: nat, x: real)
    requires |xs| == |ys| && k < |xs| && ys[k] == xs[k] + x
    requires forall l :: 0 <= l < |xs| && l != k ==> ys[l] == xs[l]
    ensures Sum(ys) == Sum(xs) + x
  {
    var n := |xs| - 1;
    if k < n {
      SumBump(xs[..n], ys[..n], k, x);
    } else {
      assert xs[..n] == ys[..n];
    }
  }

  lemma {:induction false} PartsAddUp(rows: seq<Row>, mapping: map<int, int>, parts: seq<Slice>, whole: Slice, channel: Channel)
    requires forall i :: 0 <= i < |rows| ==> Parts(rows[i], mapping, parts, whole)
    ensures Sum(SliceSums(rows, mapping, parts, channel)) == SliceSum(rows, mapping, whole, channel)
  {
    var after := SliceSums(rows, mapping, parts, channel);
    if rows == [] {
      SumOfZeros(after);
    } else {
      var n := |rows| - 1;
      var last := rows[n];
      PartsAddUp(rows[..n], mapping, parts, whole, channel);
      var before := SliceSums(rows[..n], mapping, parts, channel);
      assert Parts(last, mapping, parts, whole);
      if Selects(whole, last, mapping) {
        var k :| 0 <= k < |parts| && Selects(parts[k], last, mapping);
        SumBump(before, after, k, AmountOf(last, channel));
      } else {
        assert before == after;
      }
    }
  }

  function Moments(d: Direction, participant: int, grid: seq<int>): (r: seq<Slice>)
    ensures |r| == |grid|
  {
    seq(|grid|, k requires 0 <= k < |grid| => Slice(d, Some(participant), Some(grid[k])))
  }

  // Nothing is lost between the intervals of a column.
  lemma ColumnIsSumOfRows(rows: seq<Row>, mapping: map<int, int>, d: Direction, participant: int, grid: seq<int>, channel: Channel)
    requires DistinctMoments(grid)
    requires forall i :: 0 <= i < |rows| ==> rows[i].moment in grid
    ensures Sum(SliceSums(rows, mapping, Moments(d, participant, grid), channel))
            == SliceSum(rows, mapping, Slice(d, Some(participant), None), channel)
  {
    var parts, whole := Moments(d, participant, grid), Slice(d, Some(participant), None);
    forall i | 0 <= i < |rows|
      ensures Parts(rows[i], mapping, parts, whole)
    {
      var k :| 0 <= k < |grid| && grid[k] == rows[i].moment;
      assert Selects(parts[k], rows[i], mapping) <==> Selects(whole, rows[i], mapping);
    }
    PartsAddUp(rows, mapping, parts, whole, channel);
  }

  function Members(d: Direction, participants: seq<int>): (r: seq<Slice>)
    ensures |r| == |participants|
  {
    seq(|participants|, k requires 0 <= k < |participants| => Slice(d, Some(participants[k]), None))
  }

  // Nothing is lost between the participants.
  lemma CommunityIsSumOfMembers(rows: seq<Row>, mapping: map<int, int>, d: Direction, participants: seq<int>, channel: Channel)
    requires Invoices.Increasing(participants)
    requires forall p :: p in mapping ==> mapping[p] in participants
    ensures Sum(SliceSums(rows, mapping, Members(d, participants), channel))
            == SliceSum(rows, mapping, Slice(d, None, None), channel)
  {
    var parts, whole := Members(d, participants), Slice(d, None, None);
    forall i | 0 <= i < |rows|
      ensures Parts(rows[i], mapping, parts, whole)
    {
      if rows[i].point in mapping {
        var k :| 0 <= k < |participants| && participants[k] == mapping[rows[i].point];
        assert Selects(parts[k], rows[i], mapping) <==> Selects(whole, rows[i], mapping);
      }
    }
    PartsAddUp(rows, mapping, parts, whole, channel);
  }
}
