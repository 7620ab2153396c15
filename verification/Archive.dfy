/** Restoring an archive: every record is inserted or found unchanged, or the
    store stays as it was. */
module Archive {
  import opened Numbers

  const BATCH := 500

  // The columns of a record; a column that is absent or None is null.
  type Fields = map<int, Option<int>>

  datatype Row = Row(id: int, fields: Fields)

  // The catalog of one table: its columns, and those with a secondary unique
  // constraint.
  datatype Schema = Schema(columns: set<int>, uniques: set<int>)

  type Table = map<int, Fields>

  function Col(fields: Fields, column: int): Option<int> {
    if column in fields then fields[column] else None
  }

  // The stored record agrees with the archived one on every archived column.
  predicate Same(stored: Fields, row: Row) {
    forall c :: c in row.fields ==> Col(stored, c) == row.fields[c]
  }

  // Another record holds a unique value; nulls never clash.
  predicate Clashes(t: Table, row: Row, schema: Schema) {
    exists id, c :: id in t && c in schema.uniques && Col(row.fields, c).Some? && Col(t[id], c) == Col(row.fields, c)
  }

  predicate Known(row: Row, schema: Schema) {
    row.fields.Keys <= schema.columns
  }

  // ---------------------------------------------------------------------
  // What a restore means, record by record.

  // INSERT ... ON CONFLICT DO NOTHING.
  function Inserted(t: Table, row: Row, schema: Schema): Table {
    if row.id in t || Clashes(t, row, schema) then t else t[row.id := row.fields]
  }

  function Restored(t: Table, rows: seq<Row>, schema: Schema): Option<Table> {
    if rows == [] then Some(t) else
      var before := Restored(t, rows[..|rows| - 1], schema);
      var row := rows[|rows| - 1];
      if before.None? || !Known(row, schema) then None
      else
        var after := Inserted(before.value, row, schema);
        if row.id in after && Same(after[row.id], row) then Some(after) else None
  }

  ghost predicate Extends(before: Table, after: Table) {
    forall id :: id in before ==> id in after && after[id] == before[id]
  }

  predicate Holds(t: Table, row: Row) {
    row.id in t && Same(t[row.id], row)
  }

  // A restore alters no record, and leaves every archived one present.
  lemma {:induction false} RestoreKeepsAndAdds(t: Table, rows: seq<Row>, schema: Schema)
    requires Restored(t, rows, schema).Some?
    ensures Extends(t, Restored(t, rows, schema).value)
    ensures forall i :: 0 <= i < |rows| ==> Holds(Restored(t, rows, schema).value, rows[i]) && Known(rows[i], schema)
    ensures forall id :: id in Restored(t, rows, schema).value ==> id in t || exists i :: 0 <= i < |rows| && rows[i].id == id
  {
    if rows != [] {
      var n := |rows| - 1;
      RestoreKeepsAndAdds(t, rows[..n], schema);
      var before, after := Restored(t, rows[..n], schema).value, Restored(t, rows, schema).value;
      forall i | 0 <= i < |rows|
        ensures Holds(after, rows[i]) && Known(rows[i], schema)
      {
        if i < n {
          assert Holds(before, rows[..n][i]) && Known(rows[..n][i], schema);
        }
      }
      forall id | id in after
        ensures id in t || exists i :: 0 <= i < |rows| && rows[i].id == id
      {
        if id == rows[n].id {
        } else if id !in t {
          var i :| 0 <= i < n && rows[..n][i].id == id;
          assert rows[i].id == id;
        }
      }
    }
  }

  // Records that are all present restore to the same table.
  lemma {:induction false} NothingToRestore(t: Table, rows: seq<Row>, schema: Schema)
    requires forall i :: 0 <= i < |rows| ==> Holds(t, rows[i]) && Known(rows[i], schema)
    ensures Restored(t, rows, schema) == Some(t)
  {
    if rows != [] {
      NothingToRestore(t, rows[..|rows| - 1], schema);
    }
  }

  // Restoring twice changes nothing.
  lemma RestoreIsIdempotent(t: Table, rows: seq<Row>, schema: Schema)
    requires Restored(t, rows, schema).Some?
    ensures Restored(Restored(t, rows, schema).value, rows, schema) == Restored(t, rows, schema)
  {
    RestoreKeepsAndAdds(t, rows, schema);
    NothingToRestore(Restored(t, rows, schema).value, rows, schema);
  }

  // ---------------------------------------------------------------------
  // The batched form: insert all, then compare all.

  function InsertedAll(t: Table, rows: seq<Row>, schema: Schema): Table {
    if rows == [] then t else
      Inserted(InsertedAll(t, rows[..|rows| - 1], schema), rows[|rows| - 1], schema)
  }

  predicate AllHeld(t: Table, rows: seq<Row>) {
    forall i :: 0 <= i < |rows| ==> Holds(t, rows[i])
  }

  predicate AllKnown(rows: seq<Row>, schema: Schema) {
    forall i :: 0 <= i < |rows| ==> Known(rows[i], schema)
  }

  // A record that was skipped clashes for good.
  lemma {:induction false} SkippedClashes(t: Table, rows: seq<Row>, schema: Schema, i: nat)
    requires i < |rows| && rows[i].id !in InsertedAll(t, rows, schema)
    ensures Clashes(InsertedAll(t, rows, schema), rows[i], schema)
  {
    var n := |rows| - 1;
    var before, after := InsertedAll(t, rows[..n], schema), InsertedAll(t, rows, schema);
    if i < n {
      SkippedClashes(t, rows[..n], schema, i);
      ClashLasts(before, after, rows[i], schema);
    }
  }

  lemma ClashLasts(before: Table, after: Table, row: Row, schema: Schema)
    requires Extends(before, after) && Clashes(before, row, schema)
    ensures Clashes(after, row, schema)
  {
    var id, c :| id in before && c in schema.uniques && Col(row.fields, c).Some? && Col(before[id], c) == Col(row.fields, c);
    assert id in after && Col(after[id], c) == Col(row.fields, c);
  }

  // A record under the same id that agrees with a clashing one clashes too.
  lemma AgreementClashes(t: Table, row: Row, other: Row, schema: Schema)
    requires Clashes(t, row, schema) && Same(other.fields, row)
    ensures Clashes(t, other, schema)
  {
    var id, c :| id in t && c in schema.uniques && Col(row.fields, c).Some? && Col(t[id], c) == Col(row.fields, c);
    assert Col(other.fields, c) == Col(row.fields, c);
  }

  // What was not held before the last record is not held after it.
  lemma StillNotHeld(t: Table, rows: seq<Row>, schema: Schema, n: nat, i: nat)
    requires n + 1 == |rows| && i < n && !Holds(InsertedAll(t, rows[..n], schema), rows[i])
    ensures !Holds(InsertedAll(t, rows, schema), rows[i])
  {
    var before, last := InsertedAll(t, rows[..n], schema), rows[n];
    if rows[i].id !in before {
      SkippedClashes(t, rows[..n], schema, i);
      if last.id == rows[i].id && Same(last.fields, rows[i]) {
        AgreementClashes(before, rows[i], last, schema);
      }
    }
  }

  // Insert-then-compare gives the outcome of record by record.
  lemma {:induction false} BatchIsRowByRow(t: Table, rows: seq<Row>, schema: Schema)
    requires AllKnown(rows, schema)
    ensures Restored(t, rows, schema)
            == if AllHeld(InsertedAll(t, rows, schema), rows) then Some(InsertedAll(t, rows, schema)) else None
  {
    if rows != [] {
      var n := |rows| - 1;
      BatchIsRowByRow(t, rows[..n], schema);
      var before, after := InsertedAll(t, rows[..n], schema), InsertedAll(t, rows, schema);
      if AllHeld(before, rows[..n]) {
        forall i | 0 <= i < n
          ensures Holds(after, rows[i])
        {
          assert Holds(before, rows[..n][i]);
        }
      } else {
        var i :| 0 <= i < n && !Holds(before, rows[..n][i]);
        StillNotHeld(t, rows, schema, n, i);
      }
    }
  }

  // A restore of one part after the other is the restore of the whole.
  lemma {:induction false} RestoreInParts(t: Table, first: seq<Row>, second: seq<Row>, schema: Schema)
    ensures Restored(t, first + second, schema) ==
            (var middle := Restored(t, first, schema);
             if middle.Some? then Restored(middle.value, second, schema) else None)
  {
    if second == [] {
      assert first + second == first;
    } else {
      var m := |second| - 1;
      RestoreInParts(t, first, second[..m], schema);
      assert (first + second)[..|first| + m] == first + second[..m];
    }
  }

  // ---------------------------------------------------------------------
  // One record, column by column.

  ghost predicate KnownColumns(fields: Fields, columns: set<int>) {
    forall c :: c in fields ==> c in columns
  }

  // The stored record has every value of the archived one; a column it lacks is empty.
  ghost predicate HasValues(stored: Fields, fields: Fields) {
    forall c :: c in fields ==> (if c in stored then stored[c] else None) == fields[c]
  }

  ghost predicate Taken(t: Table, row: Row, uniques: set<int>) {
    || row.id in t
    || exists id, c :: id in t && c in uniques && c in row.fields && row.fields[c].Some?
                       && c in t[id] && t[id][c] == row.fields[c]
  }

  // A record is refused for an unknown column. Otherwise it is inserted as it is
  // if neither its id nor a unique value is taken, and else accepted only if the
  // stored record of that id has every one of its values.
  lemma RowOutcome(t: Table, row: Row, schema: Schema)
    ensures Restored(t, [row], schema) ==
      if !KnownColumns(row.fields, schema.columns) then None
      else if !Taken(t, row, schema.uniques) then Some(t[row.id := row.fields])
      else if row.id in t && HasValues(t[row.id], row.fields) then Some(t) else None
  {
    assert [row][..0] == [] && [row][0] == row;
    assert Restored(t, [], schema) == Some(t);
    KnownMeans(row, schema);
    ClashesAre(t, row, schema);
    SameMeans(row.fields, row);
    if row.id in t {
      SameMeans(t[row.id], row);
    }
  }

  lemma KnownMeans(row: Row, schema: Schema)
    ensures Known(row, schema) <==> KnownColumns(row.fields, schema.columns)
  {
    if KnownColumns(row.fields, schema.columns) {
      forall c | c in row.fields.Keys
        ensures c in schema.columns
      {
        assert c in row.fields;
      }
    }
    if Known(row, schema) {
      forall c | c in row.fields
        ensures c in schema.columns
      {
        assert c in row.fields.Keys;
      }
    }
  }

  lemma SameMeans(stored: Fields, row: Row)
    ensures Same(stored, row) <==> HasValues(stored, row.fields)
  {
    forall c | c in row.fields
      ensures Col(stored, c) == row.fields[c] <==> (if c in stored then stored[c] else None) == row.fields[c]
    {
    }
  }

  lemma ClashesAre(t: Table, row: Row, schema: Schema)
    ensures row.id in t || Clashes(t, row, schema) <==> Taken(t, row, schema.uniques)
  {
    if Clashes(t, row, schema) {
      var id, c :| id in t && c in schema.uniques && Col(row.fields, c).Some? && Col(t[id], c) == Col(row.fields, c);
      assert c in row.fields && c in t[id];
    }
    if Taken(t, row, schema.uniques) && row.id !in t {
      var id, c :| id in t && c in schema.uniques && c in row.fields && row.fields[c].Some?
                   && c in t[id] && t[id][c] == row.fields[c];
      assert Col(t[id], c) == Col(row.fields, c);
    }
  }
}
