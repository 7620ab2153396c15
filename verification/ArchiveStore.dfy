/** The store an archive is restored into: all or nothing, and safe to repeat. */
module ArchiveStore {
  import opened Numbers
  import opened Archive

  // A serial sequence: its last value, and whether that value was handed out.
  datatype Position = Position(last: int, called: bool, increment: int, cache: int)

  datatype Dataset = Dataset(table: int, rows: seq<Row>, batched: bool)

  // ---------------------------------------------------------------------
  // Sequences.

  predicate Ascending(p: Position) {
    p.increment >= 1 && p.cache == 1
  }

  // The next identifier the sequence hands out.
  function Issued(p: Position): int {
    if p.called then p.last + p.increment else p.last
  }

  // The restart value: the old next identifier, or one step past the largest
  // identifier stored, whichever is larger.
  predicate Advances(before: Position, after: Position, t: Table) {
    && after == Position(after.last, false, before.increment, before.cache)
    && after.last >= Issued(before)
    && (forall id :: id in t ==> after.last >= id + before.increment)
    && (after.last == Issued(before) || after.last - before.increment in t)
  }

  // No identifier is handed out twice, and the sequence never moves back.
  lemma AdvanceIsSafe(before: Position, after: Position, t: Table)
    requires Ascending(before) && Advances(before, after, t)
    ensures Ascending(after) && Issued(after) >= Issued(before)
    ensures forall id :: id in t ==> Issued(after) > id
  {
  }

  // The restart value is determined, and stays where it is on a second run.
  lemma AdvanceIsDetermined(before: Position, first: Position, second: Position, t: Table)
    requires Advances(before, first, t)
    ensures Advances(before, second, t) <==> second == first
    ensures Ascending(before) ==> (Advances(first, second, t) <==> second == first)
  {
  }

  // The next identifier is past every stored one, past the last one handed out,
  // and no further than one of the two requires.
  lemma RestartIs(before: Position, after: Position, t: Table)
    requires Ascending(before) && Advances(before, after, t)
    ensures !after.called && after.increment == before.increment
    ensures forall id :: id in t ==> id + before.increment <= after.last
    ensures before.last + (if before.called then before.increment else 0) <= after.last
    ensures after.last == before.last + (if before.called then before.increment else 0)
            || exists id :: id in t && after.last == id + before.increment
  {
    if after.last != Issued(before) {
      var id := after.last - before.increment;
      assert id in t && after.last == id + before.increment;
    }
  }

  method LargestId(t: Table) returns (largest: Option<int>)
    ensures largest.None? ==> forall id :: id !in t
    ensures largest.Some? ==> largest.value in t && forall id :: id in t ==> id <= largest.value
  {
    largest := None;
    var todo := t.Keys;
    while exists id :: id in todo
      invariant todo <= t.Keys
      invariant largest.None? ==> todo == t.Keys
      invariant largest.Some? ==> largest.value in t && forall id :: id in t && id !in todo ==> id <= largest.value
      decreases todo
    {
      var id :| id in todo;
      if largest.None? || id > largest.value {
        largest := Some(id);
      }
      todo := todo - {id};
    }
  }

  method Advance(p: Position, t: Table) returns (after: Position)
    ensures Advances(p, after, t)
  {
    var largest := LargestId(t);
    var next := Issued(p);
    if largest.Some? && largest.value + p.increment > next {
      next := largest.value + p.increment;
    }
    after := Position(next, false, p.increment, p.cache);
  }

  // ---------------------------------------------------------------------
  // All datasets of an archive.

  type Tables = map<int, Table>
  type Catalog = map<int, Schema>

  function RestoredAll(tables: Tables, datasets: seq<Dataset>, catalog: Catalog): (r: Option<Tables>)
    requires catalog.Keys <= tables.Keys
    ensures r.Some? ==> r.value.Keys == tables.Keys
  {
    if datasets == [] then Some(tables) else
      var before := RestoredAll(tables, datasets[..|datasets| - 1], catalog);
      var d := datasets[|datasets| - 1];
      if before.None? then None else RestoredDataset(before.value, d, catalog)
  }

  function RestoredDataset(tables: Tables, d: Dataset, catalog: Catalog): (r: Option<Tables>)
    requires catalog.Keys <= tables.Keys
    ensures r.Some? ==> r.value.Keys == tables.Keys
  {
    if d.table !in catalog then (if d.rows == [] then Some(tables) else None)
    else
      var t := Restored(tables[d.table], d.rows, catalog[d.table]);
      if t.Some? then Some(tables[d.table := t.value]) else None
  }

  predicate DatasetHeld(tables: Tables, d: Dataset, catalog: Catalog) {
    if d.table in catalog && d.table in tables then
      forall i :: 0 <= i < |d.rows| ==> Holds(tables[d.table], d.rows[i]) && Known(d.rows[i], catalog[d.table])
    else d.rows == []
  }

  ghost predicate AllExtend(before: Tables, after: Tables) {
    forall t :: t in before ==> t in after && Extends(before[t], after[t])
  }

  lemma HeldLonger(before: Tables, after: Tables, d: Dataset, catalog: Catalog)
    requires AllExtend(before, after) && DatasetHeld(before, d, catalog)
    requires catalog.Keys <= before.Keys
    ensures DatasetHeld(after, d, catalog)
  {
    if d.table in catalog {
      forall i | 0 <= i < |d.rows|
        ensures Holds(after[d.table], d.rows[i]) && Known(d.rows[i], catalog[d.table])
      {
        assert Holds(before[d.table], d.rows[i]);
      }
    }
  }

  // No stored record is altered, and every archived one is present.
  lemma {:induction false} RestoreHoldsAll(tables: Tables, datasets: seq<Dataset>, catalog: Catalog)
    requires catalog.Keys <= tables.Keys && RestoredAll(tables, datasets, catalog).Some?
    ensures AllExtend(tables, RestoredAll(tables, datasets, catalog).value)
    ensures forall k :: 0 <= k < |datasets| ==> DatasetHeld(RestoredAll(tables, datasets, catalog).value, datasets[k], catalog)
  {
    if datasets != [] {
      var n := |datasets| - 1;
      var d := datasets[n];
      RestoreHoldsAll(tables, datasets[..n], catalog);
      var before, after := RestoredAll(tables, datasets[..n], catalog).value, RestoredAll(tables, datasets, catalog).value;
      if d.table in catalog {
        RestoreKeepsAndAdds(before[d.table], d.rows, catalog[d.table]);
      }
      assert AllExtend(before, after);
      forall k | 0 <= k < n
        ensures DatasetHeld(after, datasets[k], catalog)
      {
        assert datasets[..n][k] == datasets[k];
        HeldLonger(before, after, datasets[k], catalog);
      }
    }
  }

  lemma {:induction false} NothingToRestoreAll(tables: Tables, datasets: seq<Dataset>, catalog: Catalog)
    requires catalog.Keys <= tables.Keys
    requires forall k :: 0 <= k < |datasets| ==> DatasetHeld(tables, datasets[k], catalog)
    ensures RestoredAll(tables, datasets, catalog) == Some(tables)
  {
    if datasets != [] {
      var d := datasets[|datasets| - 1];
      NothingToRestoreAll(tables, datasets[..|datasets| - 1], catalog);
      if d.table in catalog {
        NothingToRestore(tables[d.table], d.rows, catalog[d.table]);
        assert tables[d.table := tables[d.table]] == tables;
      }
    }
  }

  // Restoring the same archive again changes no table.
  lemma RestoreTwice(tables: Tables, datasets: seq<Dataset>, catalog: Catalog)
    requires catalog.Keys <= tables.Keys && RestoredAll(tables, datasets, catalog).Some?
    ensures var once := RestoredAll(tables, datasets, catalog);
            RestoredAll(once.value, datasets, catalog) == once
  {
    RestoreHoldsAll(tables, datasets, catalog);
    NothingToRestoreAll(RestoredAll(tables, datasets, catalog).value, datasets, catalog);
  }

  // The sequences of the tables the archive has rows for.
  predicate Touched(datasets: seq<Dataset>, table: int) {
    exists k :: 0 <= k < |datasets| && datasets[k].table == table && datasets[k].rows != []
  }

  predicate SequencesFit(sequences: map<int, Position>, datasets: seq<Dataset>) {
    forall t :: t in sequences && Touched(datasets, t) ==> Ascending(sequences[t])
  }

  // ---------------------------------------------------------------------
  // The store.

  class Store {
    const catalog: Catalog
    var tables: Tables
    var sequences: map<int, Position>

    ghost predicate Valid()
      reads this
    {
      catalog.Keys <= tables.Keys && sequences.Keys <= tables.Keys
    }

    constructor (catalog: Catalog, tables: Tables, sequences: map<int, Position>)
      requires catalog.Keys <= tables.Keys && sequences.Keys <= tables.Keys
      ensures Valid() && this.catalog == catalog && this.tables == tables && this.sequences == sequences
    {
      this.catalog, this.tables, this.sequences := catalog, tables, sequences;
    }

    // One insert, and one comparison if nothing was inserted.
    method RestoreRow(table: int, row: Row) returns (ok: bool)
      requires Valid() && table in catalog
      modifies this`tables
      ensures Valid()
      ensures var r := Restored(old(tables[table]), [row], catalog[table]);
              ok == r.Some? && (ok ==> tables == old(tables)[table := r.value])
    {
      var t := tables[table];
      assert [row][..0] == [];
      assert Restored(t, [], catalog[table]) == Some(t);
      if !Known(row, catalog[table]) {
        return false;
      }
      var after := Inserted(t, row, catalog[table]);
      if after == t && (row.id !in t || !Same(t[row.id], row)) {
        return false;
      }
      tables := tables[table := after];
      ok := true;
    }

    method RestoreRows(table: int, rows: seq<Row>) returns (ok: bool)
      requires Valid() && table in catalog
      modifies this`tables
      ensures Valid()
      ensures var r := Restored(old(tables[table]), rows, catalog[table]);
              ok == r.Some? && (ok ==> tables == old(tables)[table := r.value])
    {
      ghost var start := tables[table];
      for i := 0 to |rows|
        invariant Valid() && table in tables
        invariant Restored(start, rows[..i], catalog[table]) == Some(tables[table])
        invariant tables == old(tables)[table := tables[table]]
      {
        RestoreInParts(start, rows[..i], [rows[i]], catalog[table]);
        assert rows[..i + 1] == rows[..i] + [rows[i]];
        var inserted := RestoreRow(table, rows[i]);
        if !inserted {
          RestoreInParts(start, rows[..i + 1], rows[i + 1..], catalog[table]);
          assert rows == rows[..i + 1] + rows[i + 1..];
          return false;
        }
      }
      assert rows[..|rows|] == rows;
      ok := true;
    }

    // One multi-row insert, then one comparison of the whole batch.
    method RestoreBatch(table: int, batch: seq<Row>) returns (ok: bool)
      requires Valid() && table in catalog && AllKnown(batch, catalog[table])
      modifies this`tables
      ensures Valid()
      ensures var r := Restored(old(tables[table]), batch, catalog[table]);
              ok == r.Some? && (ok ==> tables == old(tables)[table := r.value])
    {
      ghost var start := tables[table];
      var t := tables[table];
      for i := 0 to |batch|
        invariant t == InsertedAll(start, batch[..i], catalog[table])
      {
        assert batch[..i + 1][..i] == batch[..i];
        t := Inserted(t, batch[i], catalog[table]);
      }
      assert batch[..|batch|] == batch;
      BatchIsRowByRow(start, batch, catalog[table]);
      tables := tables[table := t];
      ok := AllHeld(t, batch);
    }

    // Runs of rows with equal columns, at most 500 at a time.
    method RestoreReadings(table: int, rows: seq<Row>) returns (ok: bool)
      requires Valid() && table in catalog
      modifies this`tables
      ensures Valid()
      ensures var r := Restored(old(tables[table]), rows, catalog[table]);
              ok == r.Some? && (ok ==> tables == old(tables)[table := r.value])
    {
      if !AllKnown(rows, catalog[table]) {
        UnknownFails(tables[table], rows, catalog[table]);
        return false;
      }
      ghost var start := tables[table];
      var i := 0;
      while i < |rows|
        invariant i <= |rows|
        invariant Valid() && table in tables
        invariant Restored(start, rows[..i], catalog[table]) == Some(tables[table])
        invariant tables == old(tables)[table := tables[table]]
        decreases |rows| - i
      {
        var j := i + 1;
        while j < |rows| && j - i < BATCH && rows[j].fields.Keys == rows[i].fields.Keys
          invariant i < j <= |rows|
        {
          j := j + 1;
        }
        RestoreInParts(start, rows[..i], rows[i..j], catalog[table]);
        PrefixGrows(rows, i, j);
        var restored := RestoreBatch(table, rows[i..j]);
        if !restored {
          RestoreInParts(start, rows[..j], rows[j..], catalog[table]);
          return false;
        }
        i := j;
      }
      assert rows[..|rows|] == rows;
      ok := true;
    }

    // Readings go in batches, other records one by one, and a table outside
    // the catalog must be empty.
    method RestoreDataset(d: Dataset) returns (ok: bool)
      requires Valid()
      modifies this`tables
      ensures Valid()
      ensures var r := RestoredDataset(old(tables), d, catalog);
              ok == r.Some? && (ok ==> r == Some(tables))
    {
      if d.table !in catalog {
        return d.rows == [];
      }
      if d.batched {
        ok := RestoreReadings(d.table, d.rows);
      } else {
        ok := RestoreRows(d.table, d.rows);
      }
    }

    // The sequence of every table the archive fills is past all its identifiers.
    static ghost predicate PastArchived(datasets: seq<Dataset>, tables: Tables, sequences: map<int, Position>) {
      forall k, id :: 0 <= k < |datasets| && datasets[k].rows != [] && datasets[k].table in sequences
                      && datasets[k].table in tables && id in tables[datasets[k].table] ==>
        id + sequences[datasets[k].table].increment <= sequences[datasets[k].table].last
    }

    // Every other sequence stays where it was.
    static ghost predicate UnusedKept(datasets: seq<Dataset>, before: map<int, Position>, after: map<int, Position>) {
      forall t :: t in before && t in after
                  && (forall k :: 0 <= k < |datasets| && datasets[k].table == t ==> datasets[k].rows == []) ==>
        after[t] == before[t]
    }

    // Restores everything and advances the sequences, or changes nothing.
    method RestoreCommunity(datasets: seq<Dataset>) returns (ok: bool)
      requires Valid()
      modifies this
      ensures Valid()
      ensures ok <==> SequencesFit(old(sequences), datasets) && RestoredAll(old(tables), datasets, catalog).Some?
      ensures !ok ==> tables == old(tables) && sequences == old(sequences)
      ensures ok ==> tables == RestoredAll(old(tables), datasets, catalog).value
      ensures ok ==> PastArchived(datasets, tables, sequences) && UnusedKept(datasets, old(sequences), sequences)
      ensures ok ==> sequences.Keys == old(sequences).Keys && forall t :: t in sequences ==>
        if Touched(datasets, t) then Advances(old(sequences)[t], sequences[t], tables[t]) else sequences[t] == old(sequences)[t]
    {
      if !SequencesFit(sequences, datasets) {
        return false;
      }
      var before := tables;
      for k := 0 to |datasets|
        invariant Valid() && sequences == old(sequences) && tables.Keys == before.Keys
        invariant RestoredAll(before, datasets[..k], catalog) == Some(tables)
      {
        var d := datasets[k];
        assert datasets[..k + 1][..k] == datasets[..k];
        var restored := RestoreDataset(d);
        if !restored {
          FailureSpreads(before, datasets, catalog, k + 1);
          tables := before;
          return false;
        }
      }
      assert datasets[..|datasets|] == datasets;
      AdvanceSequences(datasets);
      ok := true;
    }

    method AdvanceSequences(datasets: seq<Dataset>)
      requires Valid()
      modifies this`sequences
      ensures Valid() && sequences.Keys == old(sequences).Keys
      ensures forall t :: t in sequences ==>
        if Touched(datasets, t) then Advances(old(sequences)[t], sequences[t], tables[t]) else sequences[t] == old(sequences)[t]
    {
      var todo := sequences.Keys;
      while exists t :: t in todo
        invariant todo <= sequences.Keys && sequences.Keys == old(sequences).Keys
        invariant forall t :: t in todo ==> sequences[t] == old(sequences)[t]
        invariant forall t :: t in sequences && t !in todo ==>
          if Touched(datasets, t) then Advances(old(sequences)[t], sequences[t], tables[t]) else sequences[t] == old(sequences)[t]
        decreases todo
      {
        var t :| t in todo;
        if Touched(datasets, t) {
          var after := Advance(sequences[t], tables[t]);
          sequences := sequences[t := after];
        }
        todo := todo - {t};
      }
    }
  }

  lemma PrefixGrows<T>(rows: seq<T>, i: nat, j: nat)
    requires i <= j <= |rows|
    ensures rows[..j] == rows[..i] + rows[i..j] && rows == rows[..j] + rows[j..]
  {
  }

  lemma {:induction false} UnknownFails(t: Table, rows: seq<Row>, schema: Schema)
    requires !AllKnown(rows, schema)
    ensures Restored(t, rows, schema).None?
  {
    if Known(rows[|rows| - 1], schema) {
      UnknownFails(t, rows[..|rows| - 1], schema);
    }
  }

  lemma {:induction false} FailureSpreads(tables: Tables, datasets: seq<Dataset>, catalog: Catalog, k: nat)
    requires catalog.Keys <= tables.Keys && k <= |datasets| && RestoredAll(tables, datasets[..k], catalog).None?
    ensures RestoredAll(tables, datasets, catalog).None?
  {
    if k < |datasets| {
      var n := |datasets| - 1;
      assert datasets[..n][..k] == datasets[..k];
      FailureSpreads(tables, datasets[..n], catalog, k);
    } else {
      assert datasets[..k] == datasets;
    }
  }
}
