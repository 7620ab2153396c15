/** Loading one billable period: the gate, the frames and the VNB totals. */
module Loading {
  import opened Numbers
  import opened Readings
  import opened Frames
  import Approval
  import Invoices

  datatype Cell = Cell(direction: Direction, moment: int, participant: int)
  datatype Column = Column(direction: Direction, participant: int)

  // The engine's two frames, and what the VNB allocated to each participant.
  datatype Loaded = Loaded(participants: seq<int>, grid: seq<int>, frames: map<Cell, real>, vnb: map<Column, real>)

  function Cells(grid: seq<int>, participants: seq<int>): set<Cell> {
    set d, m, b | d in {Consumption, Production} && m in grid && b in participants :: Cell(d, m, b)
  }

  function Columns(participants: seq<int>): set<Column> {
    set d, b | d in {Consumption, Production} && b in participants :: Column(d, b)
  }

  function CellSlice(c: Cell): Slice {
    Slice(c.direction, Some(c.participant), Some(c.moment))
  }

  function ColumnSlice(c: Column): Slice {
    Slice(c.direction, Some(c.participant), None)
  }

  // Frames and totals are the sums of the rows that belong to them.
  ghost predicate Aggregates(l: Loaded, rows: seq<Row>, mapping: map<int, int>) {
    && l.frames.Keys == Cells(l.grid, l.participants)
    && l.vnb.Keys == Columns(l.participants)
    && FrameSums(l.frames, rows, mapping)
    && VnbSums(l.vnb, rows, mapping)
  }

  ghost predicate FrameSums(frames: map<Cell, real>, rows: seq<Row>, mapping: map<int, int>) {
    forall c :: c in frames ==> frames[c] == SliceSum(rows, mapping, CellSlice(c), Total)
  }

  // The metered energy of one participant, direction and moment, row by row.
  function Metered(rows: seq<Row>, mapping: map<int, int>, d: Direction, participant: int, moment: int): real {
    if rows == [] then 0.0 else
      var row := rows[|rows| - 1];
      Metered(rows[..|rows| - 1], mapping, d, participant, moment)
      + if row.direction == d && row.moment == moment && row.point in mapping && mapping[row.point] == participant
           && row.total.Some? && row.total.value.Finite?
        then row.total.value.amount else 0.0
  }

  // What the VNB allocated to one participant in one direction, row by row.
  function Allotted(rows: seq<Row>, mapping: map<int, int>, d: Direction, participant: int): real {
    if rows == [] then 0.0 else
      var row := rows[|rows| - 1];
      Allotted(rows[..|rows| - 1], mapping, d, participant)
      + if row.direction == d && row.point in mapping && mapping[row.point] == participant
           && row.community.Some? && row.community.value.Finite?
        then row.community.value.amount else 0.0
  }

  lemma {:induction false} CellIsMetered(rows: seq<Row>, mapping: map<int, int>, c: Cell)
    ensures SliceSum(rows, mapping, CellSlice(c), Total) == Metered(rows, mapping, c.direction, c.participant, c.moment)
  {
    if rows != [] {
      CellIsMetered(rows[..|rows| - 1], mapping, c);
    }
  }

  lemma {:induction false} ColumnIsAllotted(rows: seq<Row>, mapping: map<int, int>, c: Column)
    ensures SliceSum(rows, mapping, ColumnSlice(c), Community) == Allotted(rows, mapping, c.direction, c.participant)
  {
    if rows != [] {
      ColumnIsAllotted(rows[..|rows| - 1], mapping, c);
    }
  }

  // Frames hold what the meters read, VNB totals what the VNB allocated.
  ghost predicate HoldsReadings(l: Loaded, rows: seq<Row>, mapping: map<int, int>) {
    && (forall c :: c in l.frames ==> l.frames[c] == Metered(rows, mapping, c.direction, c.participant, c.moment))
    && (forall c :: c in l.vnb ==> l.vnb[c] == Allotted(rows, mapping, c.direction, c.participant))
  }

  lemma AggregatesHold(l: Loaded, rows: seq<Row>, mapping: map<int, int>)
    requires Aggregates(l, rows, mapping)
    ensures HoldsReadings(l, rows, mapping)
  {
    forall c | c in l.frames
      ensures l.frames[c] == Metered(rows, mapping, c.direction, c.participant, c.moment)
    {
      CellIsMetered(rows, mapping, c);
    }
    forall c | c in l.vnb
      ensures l.vnb[c] == Allotted(rows, mapping, c.direction, c.participant)
    {
      ColumnIsAllotted(rows, mapping, c);
    }
  }

  ghost predicate VnbSums(vnb: map<Column, real>, rows: seq<Row>, mapping: map<int, int>) {
    forall c :: c in vnb ==> vnb[c] == SliceSum(rows, mapping, ColumnSlice(c), Community)
  }

  ghost predicate Placeable(row: Row, mapping: map<int, int>, grid: seq<int>) {
    && row.point in mapping && Known(row.direction) && row.moment in grid
    && row.total.Some? && row.total.value.Finite? && row.community.Some? && row.community.value.Finite?
  }

  function Deposit<K>(m: map<K, real>, key: K, amount: real): (r: map<K, real>)
    requires key in m
    ensures r.Keys == m.Keys
  {
    m[key := m[key] + amount]
  }

  lemma CellStep(frames: map<Cell, real>, rows: seq<Row>, i: nat, mapping: map<int, int>, grid: seq<int>, cell: Cell)
    requires i < |rows| && Placeable(rows[i], mapping, grid)
    requires cell == Cell(rows[i].direction, rows[i].moment, mapping[rows[i].point]) && cell in frames
    requires FrameSums(frames, rows[..i], mapping)
    ensures FrameSums(Deposit(frames, cell, AmountOf(rows[i], Total)), rows[..i + 1], mapping)
  {
    forall c | c in frames
      ensures SliceSum(rows[..i + 1], mapping, CellSlice(c), Total)
              == frames[c] + if c == cell then AmountOf(rows[i], Total) else 0.0
    {
      SliceStep(rows, i, mapping, CellSlice(c), Total);
    }
  }

  lemma ColumnStep(vnb: map<Column, real>, rows: seq<Row>, i: nat, mapping: map<int, int>, grid: seq<int>, column: Column)
    requires i < |rows| && Placeable(rows[i], mapping, grid)
    requires column == Column(rows[i].direction, mapping[rows[i].point]) && column in vnb
    requires VnbSums(vnb, rows[..i], mapping)
    ensures VnbSums(Deposit(vnb, column, AmountOf(rows[i], Community)), rows[..i + 1], mapping)
  {
    forall c | c in vnb
      ensures SliceSum(rows[..i + 1], mapping, ColumnSlice(c), Community)
              == vnb[c] + if c == column then AmountOf(rows[i], Community) else 0.0
    {
      SliceStep(rows, i, mapping, ColumnSlice(c), Community);
    }
  }

  method PlaceOf(row: Row, mapping: map<int, int>, grid: seq<int>, participants: seq<int>)
    returns (cell: Cell, column: Column)
    requires Placeable(row, mapping, grid) && mapping[row.point] in participants
    ensures cell == Cell(row.direction, row.moment, mapping[row.point]) && cell in Cells(grid, participants)
    ensures column == Column(row.direction, mapping[row.point]) && column in Columns(participants)
  {
    cell := Cell(row.direction, row.moment, mapping[row.point]);
    column := Column(row.direction, mapping[row.point]);
  }

  method Aggregate(rows: seq<Row>, mapping: map<int, int>, grid: seq<int>, participants: seq<int>) returns (l: Loaded)
    requires forall i :: 0 <= i < |rows| ==> Placeable(rows[i], mapping, grid)
    requires forall p :: p in mapping ==> mapping[p] in participants
    ensures l.participants == participants && l.grid == grid && Aggregates(l, rows, mapping)
    ensures HoldsReadings(l, rows, mapping)
  {
    var frames := map c | c in Cells(grid, participants) :: 0.0;
    var vnb := map c | c in Columns(participants) :: 0.0;
    for i := 0 to |rows|
      invariant frames.Keys == Cells(grid, participants) && vnb.Keys == Columns(participants)
      invariant FrameSums(frames, rows[..i], mapping) && VnbSums(vnb, rows[..i], mapping)
    {
      var row := rows[i];
      var cell, column := PlaceOf(row, mapping, grid, participants);
      CellStep(frames, rows, i, mapping, grid, cell);
      ColumnStep(vnb, rows, i, mapping, grid, column);
      frames := Deposit(frames, cell, AmountOf(row, Total));
      vnb := Deposit(vnb, column, AmountOf(row, Community));
    }
    assert rows[..|rows|] == rows;
    l := Loaded(participants, grid, frames, vnb);
    AggregatesHold(l, rows, mapping);
  }

  // The participants: the mapped buildings, sorted and without repetition.
  method BillableParticipants(mapping: map<int, int>) returns (ids: seq<int>)
    ensures Invoices.Increasing(ids)
    ensures forall x :: x in ids <==> exists p :: p in mapping && mapping[p] == x
    ensures forall p :: p in mapping ==> mapping[p] in ids
  {
    ids := [];
    var todo := mapping.Keys;
    while exists p :: p in todo
      invariant todo <= mapping.Keys && Invoices.Increasing(ids)
      invariant forall x :: x in ids <==> exists p :: p in mapping.Keys - todo && mapping[p] == x
      decreases todo
    {
      var p :| p in todo;
      Invoices.InsertKeepsOrder(mapping[p], ids);
      ghost var before := ids;
      ids := Invoices.Insert(mapping[p], ids);
      forall x
        ensures x in ids <==> exists q :: q in mapping.Keys - (todo - {p}) && mapping[q] == x
      {
        if x == mapping[p] {
          assert p in mapping.Keys - (todo - {p});
        }
        if exists q :: q in mapping.Keys - todo && mapping[q] == x {
          var q :| q in mapping.Keys - todo && mapping[q] == x;
          assert q in mapping.Keys - (todo - {p});
        }
      }
      todo := todo - {p};
    }
  }

  // ---------------------------------------------------------------------
  // The VNB's two community totals must balance exactly.

  function ColumnValues(vnb: map<Column, real>, d: Direction, participants: seq<int>): (r: seq<real>)
    requires Known(d) && vnb.Keys == Columns(participants)
    ensures |r| == |participants|
  {
    seq(|participants|, k requires 0 <= k < |participants| =>
      assert Column(d, participants[k]) in Columns(participants);
      vnb[Column(d, participants[k])])
  }

  method ColumnTotal(vnb: map<Column, real>, d: Direction, participants: seq<int>) returns (total: real)
    requires Known(d) && vnb.Keys == Columns(participants)
    ensures total == Sum(ColumnValues(vnb, d, participants))
  {
    total := 0.0;
    var values := ColumnValues(vnb, d, participants);
    for k := 0 to |participants|
      invariant total == Sum(values[..k])
    {
      assert values[..k + 1][..k] == values[..k];
      total := total + values[k];
    }
    assert values[..|participants|] == values;
  }

  // What is billed: the VNB's figures at six decimals.
  predicate BilledVerbatim(billed: map<Column, real>, vnb: map<Column, real>) {
    billed.Keys == vnb.Keys && forall c :: c in vnb ==> billed[c] == RoundHalfUp(vnb[c]) as real
  }

  // Reports an imbalance iff the totals differ; bills each side verbatim.
  method VnbReference(vnb: map<Column, real>, participants: seq<int>, log: ProblemLog) returns (billed: map<Column, real>)
    requires vnb.Keys == Columns(participants)
    modifies log
    ensures log.entries == old(log.entries) <==>
      Sum(ColumnValues(vnb, Consumption, participants)) == Sum(ColumnValues(vnb, Production, participants))
    ensures BilledVerbatim(billed, vnb)
  {
    var consumed := ColumnTotal(vnb, Consumption, participants);
    var produced := ColumnTotal(vnb, Production, participants);
    if consumed != produced {
      log.Report(VnbImbalance, 0);
    }
    billed := map c | c in vnb :: RoundHalfUp(vnb[c]) as real;
  }

  // ---------------------------------------------------------------------
  // Conservation from rows to columns.

  lemma FrameColumn(l: Loaded, rows: seq<Row>, mapping: map<int, int>, d: Direction, participant: int)
    requires Aggregates(l, rows, mapping) && Known(d) && participant in l.participants && DistinctMoments(l.grid)
    requires forall i :: 0 <= i < |rows| ==> rows[i].moment in l.grid
    ensures forall k :: 0 <= k < |l.grid| ==> Cell(d, l.grid[k], participant) in l.frames
    ensures Sum(seq(|l.grid|, k requires 0 <= k < |l.grid| => l.frames[Cell(d, l.grid[k], participant)]))
            == SliceSum(rows, mapping, Slice(d, Some(participant), None), Total)
  {
    forall k | 0 <= k < |l.grid|
      ensures Cell(d, l.grid[k], participant) in l.frames
    {
      assert Cell(d, l.grid[k], participant) in Cells(l.grid, l.participants);
    }
    var column := seq(|l.grid|, k requires 0 <= k < |l.grid| => l.frames[Cell(d, l.grid[k], participant)]);
    var sums := SliceSums(rows, mapping, Moments(d, participant, l.grid), Total);
    assert column == sums;
    ColumnIsSumOfRows(rows, mapping, d, participant, l.grid, Total);
  }

  lemma CommunityTotal(l: Loaded, rows: seq<Row>, mapping: map<int, int>, d: Direction)
    requires Aggregates(l, rows, mapping) && Known(d) && Invoices.Increasing(l.participants)
    requires forall p :: p in mapping ==> mapping[p] in l.participants
    ensures Sum(ColumnValues(l.vnb, d, l.participants)) == SliceSum(rows, mapping, Slice(d, None, None), Community)
  {
    var values := ColumnValues(l.vnb, d, l.participants);
    var sums := SliceSums(rows, mapping, Members(d, l.participants), Community);
    forall k | 0 <= k < |values|
      ensures values[k] == sums[k]
    {
      var c := Column(d, l.participants[k]);
      assert c in Columns(l.participants);
      assert c in l.vnb;
    }
    assert values == sums;
    CommunityIsSumOfMembers(rows, mapping, d, l.participants, Community);
  }

  lemma {:induction false} WholeSlice(rows: seq<Row>, mapping: map<int, int>, s: Slice, channel: Channel)
    requires forall i :: 0 <= i < |rows| ==> Approval.Whole(AmountOf(rows[i], channel))
    ensures Approval.Whole(SliceSum(rows, mapping, s, channel))
  {
    if rows != [] {
      var n := |rows| - 1;
      WholeSlice(rows[..n], mapping, s, channel);
      Approval.WholeAdds(SliceSum(rows[..n], mapping, s, channel), AmountOf(rows[n], channel));
    }
  }

  // Deliveries of at most six decimals are billed unrounded, so the billed
  // sides balance as the delivered ones do.
  lemma BilledSidesBalance(l: Loaded, rows: seq<Row>, mapping: map<int, int>, billed: map<Column, real>)
    requires Aggregates(l, rows, mapping) && BilledVerbatim(billed, l.vnb) && Invoices.Increasing(l.participants)
    requires forall p :: p in mapping ==> mapping[p] in l.participants
    requires forall i :: 0 <= i < |rows| ==> Approval.Whole(AmountOf(rows[i], Community))
    ensures billed == l.vnb
    ensures Sum(ColumnValues(billed, Consumption, l.participants)) == Sum(ColumnValues(billed, Production, l.participants))
            <==> VnbBalances(rows, mapping)
  {
    forall c | c in l.vnb
      ensures billed[c] == l.vnb[c]
    {
      WholeSlice(rows, mapping, ColumnSlice(c), Community);
      RoundWhole(l.vnb[c].Floor);
    }
    assert billed == l.vnb;
    CommunityTotal(l, rows, mapping, Consumption);
    CommunityTotal(l, rows, mapping, Production);
  }

  ghost predicate VnbBalances(rows: seq<Row>, mapping: map<int, int>) {
    SliceSum(rows, mapping, Slice(Consumption, None, None), Community)
    == SliceSum(rows, mapping, Slice(Production, None, None), Community)
  }

  // ---------------------------------------------------------------------
  // The whole load.

  ghost predicate Complete(points: seq<Point>, rows: seq<Row>, grid: seq<int>) {
    var mapping, declarations := MappingOf(points), DeclarationsOf(points);
    && (forall i :: 0 <= i < |points| ==> Billable(points[i]))
    && CleanRows(rows, mapping, declarations, grid) && NoDuplicates(rows)
    && GapFree(SeenKeys(rows, mapping, grid), declarations, grid)
  }

  lemma CleanIsPlaceable(rows: seq<Row>, mapping: map<int, int>, declarations: map<int, set<Direction>>, grid: seq<int>)
    requires CleanRows(rows, mapping, declarations, grid)
    ensures forall i :: 0 <= i < |rows| ==> Placeable(rows[i], mapping, grid)
  {
    forall i | 0 <= i < |rows|
      ensures Placeable(rows[i], mapping, grid)
    {
      assert Clean(rows[i], mapping, declarations, grid);
    }
  }

  // Loads exactly the periods the readings cover and the VNB balances.
  method LoadPeriodFrames(points: seq<Point>, unassigned: seq<int>, rows: seq<Row>, start: int, end: int, calculated: bool)
    returns (r: Option<Loaded>, billed: map<Column, real>)
    ensures r.Some? <==>
      && start < end && unassigned == [] && rows != []
      && Complete(points, rows, Grid(start, end))
      && (calculated || VnbBalances(rows, MappingOf(points)))
    ensures r.Some? ==>
      && r.value.grid == Grid(start, end) && DistinctMoments(r.value.grid)
      && ExactCover(rows, DeclarationsOf(points), r.value.grid)
      && Aggregates(r.value, rows, MappingOf(points)) && HoldsReadings(r.value, rows, MappingOf(points))
      && Invoices.Increasing(r.value.participants)
      && (forall p :: p in MappingOf(points) ==> MappingOf(points)[p] in r.value.participants)
    ensures r.Some? && !calculated ==> BilledVerbatim(billed, r.value.vnb)
  {
    billed := map[];
    if end <= start {
      return None, billed;
    }
    var log := new ProblemLog();
    var mapping, declarations := ParticipantMap(points, log);
    if rows == [] {
      return None, billed;
    }
    var grid := Grid(start, end);
    CheckRows(rows, mapping, declarations, grid, log);
    if log.entries != [] || unassigned != [] {
      return None, billed;
    }
    GridIsDistinct(start, end);
    SilenceIsExactCover(rows, mapping, declarations, grid);
    CleanIsPlaceable(rows, mapping, declarations, grid);
    var participants := BillableParticipants(mapping);
    var l := Aggregate(rows, mapping, grid, participants);
    if !calculated {
      CommunityTotal(l, rows, mapping, Consumption);
      CommunityTotal(l, rows, mapping, Production);
      billed := VnbReference(l.vnb, participants, log);
      if log.entries != [] {
        return None, billed;
      }
    }
    r := Some(l);
  }
}
