/** The gate between stored meter readings and the billing frames. Instants are
    microseconds, energy is in millionths of a kWh. */
module Readings {
  import opened Numbers

  const QUARTER := 900000000
  const RESOLUTION := 15

  datatype Direction = Consumption | Production | Other(code: int)

  datatype Value = Finite(amount: real) | NonFinite

  datatype Point = Point(id: int, building: Option<int>, confirmed: bool, expected: set<Direction>)

  datatype Row = Row(point: int, direction: Direction, moment: int, resolution: Option<int>,
                     total: Option<Value>, grid: Option<Value>, community: Option<Value>)

  datatype Kind =
    | UnmappedPoint | UnconfirmedMember | UndeclaredDirection
    | UnknownPoint | MixedResolution | MissingTotal | NonFiniteValue | NegativeValue | UnknownDirection
    | UnexpectedDirection | MissingVnbAllocation | MisalignedInterval | DuplicateInterval
    | MissingSeries | MissingInterval | VnbImbalance

  datatype Problem = Problem(kind: Kind, point: int)

  datatype Key = Key(point: int, direction: Direction, moment: int)

  // The list every check appends to.
  class ProblemLog {
    var entries: seq<Problem>

    constructor ()
      ensures entries == []
    {
      entries := [];
    }

    method Report(kind: Kind, point: int)
      modifies this
      ensures entries == old(entries) + [Problem(kind, point)]
    {
      entries := entries + [Problem(kind, point)];
    }
  }

  // ---------------------------------------------------------------------
  // Points: who is billed, and which series each point must deliver.

  predicate Assigned(p: Point) {
    p.building.Some? && p.confirmed
  }

  predicate Billable(p: Point) {
    Assigned(p) && p.expected != {}
  }

  function MappingOf(points: seq<Point>): map<int, int> {
    if points == [] then map[] else
      var last := points[|points| - 1];
      var rest := MappingOf(points[..|points| - 1]);
      if Assigned(last) then rest[last.id := last.building.value] else rest
  }

  function DeclarationsOf(points: seq<Point>): map<int, set<Direction>> {
    if points == [] then map[] else
      var last := points[|points| - 1];
      var rest := DeclarationsOf(points[..|points| - 1]);
      if Billable(last) then rest[last.id := last.expected] else rest
  }

  method ParticipantMap(points: seq<Point>, log: ProblemLog)
    returns (mapping: map<int, int>, declarations: map<int, set<Direction>>)
    modifies log
    ensures mapping == MappingOf(points) && declarations == DeclarationsOf(points)
    ensures old(log.entries) <= log.entries
    ensures log.entries == old(log.entries) <==> forall i :: 0 <= i < |points| ==> Billable(points[i])
  {
    mapping, declarations := map[], map[];
    for i := 0 to |points|
      invariant mapping == MappingOf(points[..i]) && declarations == DeclarationsOf(points[..i])
      invariant old(log.entries) <= log.entries
      invariant log.entries == old(log.entries) <==> forall k :: 0 <= k < i ==> Billable(points[k])
    {
      var p := points[i];
      assert points[..i + 1][..i] == points[..i];
      if p.building.None? {
        log.Report(UnmappedPoint, p.id);
      } else if !p.confirmed {
        log.Report(UnconfirmedMember, p.id);
      } else {
        mapping := mapping[p.id := p.building.value];
        if p.expected == {} {
          log.Report(UndeclaredDirection, p.id);
        } else {
          declarations := declarations[p.id := p.expected];
        }
      }
    }
    assert points[..|points|] == points;
  }

  // ---------------------------------------------------------------------
  // Rows.

  predicate Plausible(v: Option<Value>) {
    v.Some? ==> v.value.Finite? && v.value.amount >= 0.0
  }

  predicate Known(d: Direction) {
    d == Consumption || d == Production
  }

  predicate Declared(declarations: map<int, set<Direction>>, point: int, d: Direction) {
    point in declarations && d in declarations[point]
  }

  // A row a period can be billed from.
  predicate Clean(row: Row, mapping: map<int, int>, declarations: map<int, set<Direction>>, grid: seq<int>) {
    && row.point in mapping
    && row.resolution == Some(RESOLUTION)
    && row.total.Some? && row.community.Some?
    && Plausible(row.total) && Plausible(row.grid) && Plausible(row.community)
    && Known(row.direction) && Declared(declarations, row.point, row.direction)
    && row.moment in grid
  }

  function KeyOf(row: Row): Key {
    Key(row.point, row.direction, row.moment)
  }

  function SeenKeys(rows: seq<Row>, mapping: map<int, int>, grid: seq<int>): set<Key> {
    set i | 0 <= i < |rows| && rows[i].point in mapping && rows[i].moment in grid :: KeyOf(rows[i])
  }

  ghost predicate NoDuplicates(rows: seq<Row>) {
    forall i, j :: 0 <= i < j < |rows| ==> KeyOf(rows[i]) != KeyOf(rows[j])
  }

  ghost predicate CleanRows(rows: seq<Row>, mapping: map<int, int>, declarations: map<int, set<Direction>>, grid: seq<int>) {
    forall i :: 0 <= i < |rows| ==> Clean(rows[i], mapping, declarations, grid)
  }

  method CheckChannel(v: Option<Value>, point: int, log: ProblemLog)
    modifies log
    ensures old(log.entries) <= log.entries
    ensures log.entries == old(log.entries) <==> Plausible(v)
  {
    if v.Some? {
      if v.value.NonFinite? {
        log.Report(NonFiniteValue, point);
      } else if v.value.amount < 0.0 {
        log.Report(NegativeValue, point);
      }
    }
  }

  method CheckChannels(row: Row, log: ProblemLog)
    modifies log
    ensures old(log.entries) <= log.entries
    ensures log.entries == old(log.entries) <==>
      Plausible(row.total) && Plausible(row.grid) && Plausible(row.community)
  {
    CheckChannel(row.total, row.point, log);
    CheckChannel(row.grid, row.point, log);
    CheckChannel(row.community, row.point, log);
  }

  method CheckDirection(row: Row, declarations: map<int, set<Direction>>, log: ProblemLog)
    modifies log
    ensures old(log.entries) <= log.entries
    ensures log.entries == old(log.entries) <==>
      Known(row.direction) && Declared(declarations, row.point, row.direction) && row.community.Some?
  {
    if !Known(row.direction) {
      log.Report(UnknownDirection, row.point);
    } else if !Declared(declarations, row.point, row.direction) {
      log.Report(UnexpectedDirection, row.point);
    }
    if Known(row.direction) && row.community.None? {
      log.Report(MissingVnbAllocation, row.point);
    }
  }

  // One row; a row off the grid or of an unknown point is not counted as seen.
  method CheckRow(row: Row, mapping: map<int, int>, declarations: map<int, set<Direction>>, grid: seq<int>,
                  seen: set<Key>, log: ProblemLog) returns (seen': set<Key>)
    modifies log
    ensures old(log.entries) <= log.entries
    ensures log.entries == old(log.entries) <==> Clean(row, mapping, declarations, grid) && KeyOf(row) !in seen
    ensures seen' == if row.point in mapping && row.moment in grid then seen + {KeyOf(row)} else seen
  {
    seen' := seen;
    if row.point !in mapping {
      log.Report(UnknownPoint, row.point);
      return;
    }
    if row.resolution != Some(RESOLUTION) {
      log.Report(MixedResolution, row.point);
    }
    if row.total.None? {
      log.Report(MissingTotal, row.point);
    }
    CheckChannels(row, log);
    CheckDirection(row, declarations, log);
    if row.moment !in grid {
      log.Report(MisalignedInterval, row.point);
      return;
    }
    if KeyOf(row) in seen {
      log.Report(DuplicateInterval, row.point);
    }
    seen' := seen + {KeyOf(row)};
  }

  // ---------------------------------------------------------------------
  // Gaps: every declared series must cover the whole grid.

  ghost predicate SeriesComplete(seen: set<Key>, point: int, d: Direction, grid: seq<int>) {
    grid != [] && forall k :: 0 <= k < |grid| ==> Key(point, d, grid[k]) in seen
  }

  ghost predicate GapFree(seen: set<Key>, declarations: map<int, set<Direction>>, grid: seq<int>) {
    forall p, d :: Declared(declarations, p, d) ==> SeriesComplete(seen, p, d, grid)
  }

  method CheckSeries(seen: set<Key>, point: int, d: Direction, grid: seq<int>, log: ProblemLog)
    modifies log
    ensures old(log.entries) <= log.entries
    ensures log.entries == old(log.entries) <==> SeriesComplete(seen, point, d, grid)
  {
    var present, missing := 0, 0;
    for k := 0 to |grid|
      invariant present >= 0 && missing >= 0 && present + missing == k
      invariant missing == 0 <==> forall j :: 0 <= j < k ==> Key(point, d, grid[j]) in seen
    {
      if Key(point, d, grid[k]) in seen {
        present := present + 1;
      } else {
        missing := missing + 1;
      }
    }
    if present == 0 {
      log.Report(MissingSeries, point);
    } else if missing > 0 {
      log.Report(MissingInterval, point);
    }
  }

  method CheckPoint(seen: set<Key>, point: int, expected: set<Direction>, grid: seq<int>, log: ProblemLog)
    modifies log
    ensures old(log.entries) <= log.entries
    ensures log.entries == old(log.entries) <==> forall d :: d in expected ==> SeriesComplete(seen, point, d, grid)
  {
    var todo := expected;
    while todo != {}
      invariant todo <= expected
      invariant old(log.entries) <= log.entries
      invariant log.entries == old(log.entries) <==>
        forall d :: d in expected - todo ==> SeriesComplete(seen, point, d, grid)
      decreases todo
    {
      var d :| d in todo;
      CheckSeries(seen, point, d, grid, log);
      todo := todo - {d};
    }
  }

  method CheckGaps(seen: set<Key>, declarations: map<int, set<Direction>>, grid: seq<int>, log: ProblemLog)
    modifies log
    ensures old(log.entries) <= log.entries
    ensures log.entries == old(log.entries) <==> GapFree(seen, declarations, grid)
  {
    var todo := declarations.Keys;
    while exists p :: p in todo
      invariant todo <= declarations.Keys
      invariant old(log.entries) <= log.entries
      invariant log.entries == old(log.entries) <==>
        forall p, d :: p in declarations.Keys - todo && d in declarations[p] ==> SeriesComplete(seen, p, d, grid)
      decreases todo
    {
      var p :| p in todo;
      CheckPoint(seen, p, declarations[p], grid, log);
      todo := todo - {p};
    }
  }

  // Reports nothing iff the rows are clean, distinct and without gaps.
  method CheckRows(rows: seq<Row>, mapping: map<int, int>, declarations: map<int, set<Direction>>, grid: seq<int>,
                   log: ProblemLog)
    modifies log
    ensures old(log.entries) <= log.entries
    ensures log.entries == old(log.entries) <==>
      && CleanRows(rows, mapping, declarations, grid)
      && NoDuplicates(rows)
      && GapFree(SeenKeys(rows, mapping, grid), declarations, grid)
  {
    var seen: set<Key> := {};
    for i := 0 to |rows|
      invariant seen == SeenKeys(rows[..i], mapping, grid)
      invariant old(log.entries) <= log.entries
      invariant log.entries == old(log.entries) <==>
        CleanRows(rows[..i], mapping, declarations, grid) && NoDuplicates(rows[..i])
    {
      RowStep(rows, i, mapping, declarations, grid);
      seen := CheckRow(rows[i], mapping, declarations, grid, seen, log);
    }
    assert rows[..|rows|] == rows;
    CheckGaps(seen, declarations, grid, log);
  }

  lemma RowStep(rows: seq<Row>, i: nat, mapping: map<int, int>, declarations: map<int, set<Direction>>, grid: seq<int>)
    requires i < |rows|
    ensures SeenKeys(rows[..i + 1], mapping, grid) == SeenKeys(rows[..i], mapping, grid)
            + if rows[i].point in mapping && rows[i].moment in grid then {KeyOf(rows[i])} else {}
    ensures CleanRows(rows[..i + 1], mapping, declarations, grid) && NoDuplicates(rows[..i + 1]) <==>
            && CleanRows(rows[..i], mapping, declarations, grid) && NoDuplicates(rows[..i])
            && Clean(rows[i], mapping, declarations, grid) && KeyOf(rows[i]) !in SeenKeys(rows[..i], mapping, grid)
  {
  }

  // ---------------------------------------------------------------------
  // What the maps and a clean row say, field by field.

  ghost predicate ConfirmedAt(points: seq<Point>, k: int, id: int) {
    0 <= k < |points| && points[k].id == id && points[k].building.Some? && points[k].confirmed
  }

  // A point is mapped to the building of its last confirmed entry.
  lemma {:induction false} MappingExact(points: seq<Point>, id: int)
    ensures id in MappingOf(points) <==> exists k :: ConfirmedAt(points, k, id)
    ensures id in MappingOf(points) ==>
      exists k :: ConfirmedAt(points, k, id) && MappingOf(points)[id] == points[k].building.value
                  && forall l :: k < l < |points| ==> !ConfirmedAt(points, l, id)
  {
    if points != [] {
      var n := |points| - 1;
      MappingExact(points[..n], id);
      forall k | 0 <= k < n
        ensures ConfirmedAt(points, k, id) <==> ConfirmedAt(points[..n], k, id)
      {
      }
      if ConfirmedAt(points, n, id) {
        assert MappingOf(points)[id] == points[n].building.value;
      } else {
        assert id in MappingOf(points) <==> id in MappingOf(points[..n]);
        if id in MappingOf(points) {
          var k :| ConfirmedAt(points[..n], k, id) && MappingOf(points[..n])[id] == points[..n][k].building.value
                   && forall l :: k < l < n ==> !ConfirmedAt(points[..n], l, id);
          assert ConfirmedAt(points, k, id) && MappingOf(points)[id] == points[k].building.value;
          forall l | k < l < |points|
            ensures !ConfirmedAt(points, l, id)
          {
            assert l == n || !ConfirmedAt(points[..n], l, id);
          }
        }
        if exists k :: ConfirmedAt(points, k, id) {
          var k :| ConfirmedAt(points, k, id);
          assert ConfirmedAt(points[..n], k, id);
        }
      }
    }
  }

  // A quarter-hour row of a mapped point, both figures delivered, none negative.
  lemma CleanMeans(row: Row, mapping: map<int, int>, declarations: map<int, set<Direction>>, grid: seq<int>)
    ensures Clean(row, mapping, declarations, grid) <==>
      && row.point in mapping && row.resolution == Some(15) && row.moment in grid
      && row.direction in {Consumption, Production}
      && row.point in declarations && row.direction in declarations[row.point]
      && row.total.Some? && row.total.value.Finite? && row.total.value.amount >= 0.0
      && row.community.Some? && row.community.value.Finite? && row.community.value.amount >= 0.0
      && (row.grid.Some? ==> row.grid.value.Finite? && row.grid.value.amount >= 0.0)
  {
  }

  // A point declares the directions of its last billable entry.
  ghost predicate BillableAt(points: seq<Point>, k: int, id: int) {
    ConfirmedAt(points, k, id) && points[k].expected != {}
  }

  lemma {:induction false} DeclarationsExact(points: seq<Point>, id: int)
    ensures id in DeclarationsOf(points) <==> exists k :: BillableAt(points, k, id)
    ensures id in DeclarationsOf(points) ==>
      exists k :: BillableAt(points, k, id) && DeclarationsOf(points)[id] == points[k].expected
                  && forall l :: k < l < |points| ==> !BillableAt(points, l, id)
  {
    if points != [] {
      var n := |points| - 1;
      DeclarationsExact(points[..n], id);
      forall k | 0 <= k < n
        ensures BillableAt(points, k, id) <==> BillableAt(points[..n], k, id)
      {
      }
      if BillableAt(points, n, id) {
        assert DeclarationsOf(points)[id] == points[n].expected;
      } else {
        assert id in DeclarationsOf(points) <==> id in DeclarationsOf(points[..n]);
        if id in DeclarationsOf(points) {
          var k :| BillableAt(points[..n], k, id) && DeclarationsOf(points[..n])[id] == points[..n][k].expected
                   && forall l :: k < l < n ==> !BillableAt(points[..n], l, id);
          assert BillableAt(points, k, id) && DeclarationsOf(points)[id] == points[k].expected;
          forall l | k < l < |points|
            ensures !BillableAt(points, l, id)
          {
            assert l == n || !BillableAt(points[..n], l, id);
          }
        }
        if exists k :: BillableAt(points, k, id) {
          var k :| BillableAt(points, k, id);
          assert BillableAt(points[..n], k, id);
        }
      }
    }
  }

  // No two rows of one point, direction and moment.
  lemma DistinctRows(rows: seq<Row>)
    ensures NoDuplicates(rows) <==> forall i, j :: 0 <= i < j < |rows| ==>
      rows[i].point != rows[j].point || rows[i].direction != rows[j].direction || rows[i].moment != rows[j].moment
  {
  }
}
