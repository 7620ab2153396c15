/** Values of an archive: database scalars travel as tagged JSON objects. */
module ArchiveValues {
  import opened Numbers

  datatype Tag = Binary | DecimalNumber | DateTime | Date

  // A dictionary key is one of the four tag names or any other text.
  datatype Key = TagName(tag: Tag) | Name(text: string)

  // A Python value; JSON values are those without a tagged scalar inside. The
  // values of a dictionary are listed in the order of its keys.
  datatype Value =
    | Null | Flag(flag: bool) | Number(number: int) | Text(text: string)
    | Scalar(tag: Tag, content: int)
    | List(items: seq<Value>)
    | Dict(keys: seq<Key>, values: seq<Value>)

  // A dictionary whose only key is a tag name reads as that scalar.
  predicate LooksTagged(keys: seq<Key>, values: seq<Value>) {
    |keys| == 1 && |values| == 1 && keys[0].TagName?
  }

  // Each scalar type prints a text and parses what it finds under its tag.
  type Printer = (Tag, int) -> string
  type Parser = (Tag, Value) -> Option<int>

  ghost predicate Faithful(show: Printer, parse: Parser) {
    forall tag, x :: parse(tag, Text(show(tag, x))) == Some(x)
  }

  // ---------------------------------------------------------------------
  // Encoding and decoding.

  function Encode(v: Value, show: Printer): Value
    decreases v
  {
    match v
    case Scalar(tag, content) => Dict([TagName(tag)], [Text(show(tag, content))])
    case List(items) => List(EncodeAll(items, show))
    case Dict(keys, values) => Dict(keys, EncodeAll(values, show))
    case _ => v
  }

  function EncodeAll(items: seq<Value>, show: Printer): (r: seq<Value>)
    ensures |r| == |items|
    decreases items
  {
    if items == [] then [] else
      EncodeAll(items[..|items| - 1], show) + [Encode(items[|items| - 1], show)]
  }

  function Decode(v: Value, parse: Parser): Option<Value>
    decreases v
  {
    match v
    case List(items) =>
      var decoded := DecodeAll(items, parse);
      if decoded.Some? then Some(List(decoded.value)) else None
    case Dict(keys, values) =>
      if LooksTagged(keys, values) then
        var content := parse(keys[0].tag, values[0]);
        if content.Some? then Some(Scalar(keys[0].tag, content.value)) else None
      else
        var decoded := DecodeAll(values, parse);
        if decoded.Some? then Some(Dict(keys, decoded.value)) else None
    case _ => Some(v)
  }

  function DecodeAll(items: seq<Value>, parse: Parser): Option<seq<Value>>
    decreases items
  {
    if items == [] then Some([]) else
      AddLast(DecodeAll(items[..|items| - 1], parse), Decode(items[|items| - 1], parse))
  }

  function AddLast(rest: Option<seq<Value>>, last: Option<Value>): Option<seq<Value>> {
    if rest.Some? && last.Some? then Some(rest.value + [last.value]) else None
  }

  // ---------------------------------------------------------------------
  // Round trips.

  // No dictionary anywhere looks like a tagged scalar.
  predicate Unambiguous(v: Value)
    decreases v
  {
    match v
    case List(items) => forall i :: 0 <= i < |items| ==> Unambiguous(items[i])
    case Dict(keys, values) =>
      !LooksTagged(keys, values) && forall i :: 0 <= i < |values| ==> Unambiguous(values[i])
    case _ => true
  }

  predicate AllUnambiguous(items: seq<Value>) {
    forall i :: 0 <= i < |items| ==> Unambiguous(items[i])
  }

  // A value JSON can hold as it is.
  predicate Plain(v: Value)
    decreases v
  {
    match v
    case Scalar(_, _) => false
    case List(items) => forall i :: 0 <= i < |items| ==> Plain(items[i])
    case Dict(_, values) => forall i :: 0 <= i < |values| ==> Plain(values[i])
    case _ => true
  }

  lemma AddsLast(rest: Option<seq<Value>>, last: Option<Value>, whole: seq<Value>)
    requires whole != []
    ensures AddLast(rest, last) == Some(whole)
            <==> rest == Some(whole[..|whole| - 1]) && last == Some(whole[|whole| - 1])
  {
    assert whole == whole[..|whole| - 1] + [whole[|whole| - 1]];
    if rest.Some? && last.Some? && rest.value + [last.value] == whole {
      assert (rest.value + [last.value])[..|rest.value|] == rest.value;
    }
  }

  // A value survives export and restore iff it is unambiguous.
  lemma {:induction false} RoundTrip(v: Value, show: Printer, parse: Parser)
    requires Faithful(show, parse)
    ensures Decode(Encode(v, show), parse) == Some(v) <==> Unambiguous(v)
    decreases v
  {
    match v
    case Scalar(tag, content) =>
      ScalarRoundTrip(tag, content, show, parse);
    case List(items) =>
      RoundTripAll(items, show, parse);
      ListRoundTrip(items, EncodeAll(items, show), parse);
    case Dict(keys, values) =>
      RoundTripAll(values, show, parse);
      DictRoundTrip(keys, values, EncodeAll(values, show), parse);
    case _ =>
  }

  lemma ListRoundTrip(items: seq<Value>, encoded: seq<Value>, parse: Parser)
    ensures Decode(List(encoded), parse) == Some(List(items)) <==> DecodeAll(encoded, parse) == Some(items)
  {
  }

  // A dictionary fares as its values do, unless it looks like a scalar.
  lemma DictRoundTrip(keys: seq<Key>, values: seq<Value>, encoded: seq<Value>, parse: Parser)
    requires |encoded| == |values|
    ensures Decode(Dict(keys, encoded), parse) == Some(Dict(keys, values))
            <==> !LooksTagged(keys, values) && DecodeAll(encoded, parse) == Some(values)
  {
  }

  lemma ScalarRoundTrip(tag: Tag, content: int, show: Printer, parse: Parser)
    requires Faithful(show, parse)
    ensures Decode(Encode(Scalar(tag, content), show), parse) == Some(Scalar(tag, content))
  {
    assert parse(tag, Text(show(tag, content))) == Some(content);
  }

  lemma EncodedLast(items: seq<Value>, show: Printer, parse: Parser)
    requires items != []
    ensures DecodeAll(EncodeAll(items, show), parse)
            == AddLast(DecodeAll(EncodeAll(items[..|items| - 1], show), parse),
                       Decode(Encode(items[|items| - 1], show), parse))
  {
    var n := |items| - 1;
    var encoded := EncodeAll(items, show);
    assert encoded[..n] == EncodeAll(items[..n], show) && encoded[n] == Encode(items[n], show);
  }

  lemma {:induction false} RoundTripAll(items: seq<Value>, show: Printer, parse: Parser)
    requires Faithful(show, parse)
    ensures DecodeAll(EncodeAll(items, show), parse) == Some(items) <==> AllUnambiguous(items)
    decreases items
  {
    if items != [] {
      var n := |items| - 1;
      RoundTripAll(items[..n], show, parse);
      RoundTrip(items[n], show, parse);
      DecodedLast(items, show, parse);
      UnambiguousLast(items);
    }
  }

  lemma UnambiguousLast(items: seq<Value>)
    requires items != []
    ensures AllUnambiguous(items) <==>
      AllUnambiguous(items[..|items| - 1]) && Unambiguous(items[|items| - 1])
  {
    assert forall i :: 0 <= i < |items| - 1 ==> items[..|items| - 1][i] == items[i];
  }

  lemma DecodedLast(items: seq<Value>, show: Printer, parse: Parser)
    requires items != []
    ensures var front, last := items[..|items| - 1], items[|items| - 1];
      DecodeAll(EncodeAll(items, show), parse) == Some(items)
      <==> DecodeAll(EncodeAll(front, show), parse) == Some(front) && Decode(Encode(last, show), parse) == Some(last)
  {
    var front, last := items[..|items| - 1], items[|items| - 1];
    EncodedLast(items, show, parse);
    AddsLast(DecodeAll(EncodeAll(front, show), parse), Decode(Encode(last, show), parse), items);
  }

  lemma {:induction false} EncodedIsPlain(v: Value, show: Printer)
    ensures Plain(Encode(v, show))
    ensures Encode(v, show) == v <==> Plain(v)
    decreases v
  {
    match v
    case List(items) => EncodedAllArePlain(items, show);
    case Dict(_, values) => EncodedAllArePlain(values, show);
    case _ =>
  }

  lemma {:induction false} EncodedAllArePlain(items: seq<Value>, show: Printer)
    ensures forall i :: 0 <= i < |items| ==> Plain(EncodeAll(items, show)[i])
    ensures EncodeAll(items, show) == items <==> forall i :: 0 <= i < |items| ==> Plain(items[i])
    decreases items
  {
    if items != [] {
      var n := |items| - 1;
      EncodedAllArePlain(items[..n], show);
      EncodedIsPlain(items[n], show);
      AddsLast(Some(EncodeAll(items[..n], show)), Some(Encode(items[n], show)), items);
      assert forall i :: 0 <= i < n ==> items[..n][i] == items[i];
    }
  }

  // ---------------------------------------------------------------------
  // Records: JSON columns are stored as they are, all others carry tags.

  datatype Column = Column(name: string, value: Value)

  function EncodeRecord(row: seq<Column>, show: Printer): (r: seq<Column>)
    ensures |r| == |row|
  {
    seq(|row|, i requires 0 <= i < |row| => Column(row[i].name, Encode(row[i].value, show)))
  }

  function DecodeColumn(c: Column, jsonColumns: set<string>, parse: Parser): Option<Value> {
    if c.name in jsonColumns then Some(c.value) else Decode(c.value, parse)
  }

  method DecodeRecord(row: seq<Column>, jsonColumns: set<string>, parse: Parser) returns (r: Option<seq<Column>>)
    ensures r.Some? <==> forall i :: 0 <= i < |row| ==> DecodeColumn(row[i], jsonColumns, parse).Some?
    ensures r.Some? ==> |r.value| == |row| && forall i :: 0 <= i < |row| ==>
      r.value[i].name == row[i].name && Some(r.value[i].value) == DecodeColumn(row[i], jsonColumns, parse)
  {
    var decoded: seq<Column> := [];
    for i := 0 to |row|
      invariant |decoded| == i
      invariant forall k :: 0 <= k < i ==>
        decoded[k].name == row[k].name && Some(decoded[k].value) == DecodeColumn(row[k], jsonColumns, parse)
    {
      var value := DecodeColumn(row[i], jsonColumns, parse);
      if value.None? {
        return None;
      }
      decoded := decoded + [Column(row[i].name, value.value)];
    }
    r := Some(decoded);
  }

  predicate NoDictionary(v: Value)
    decreases v
  {
    match v
    case Dict(_, _) => false
    case List(items) => forall i :: 0 <= i < |items| ==> NoDictionary(items[i])
    case _ => true
  }

  // What the catalog lets a column hold: plain JSON in a JSON column, scalars
  // and arrays of scalars in any other.
  predicate Typed(c: Column, jsonColumns: set<string>) {
    if c.name in jsonColumns then Plain(c.value) else NoDictionary(c.value)
  }

  lemma {:induction false} NoDictionaryIsUnambiguous(v: Value)
    requires NoDictionary(v)
    ensures Unambiguous(v)
    decreases v
  {
    if v.List? {
      forall i | 0 <= i < |v.items|
        ensures Unambiguous(v.items[i])
      {
        NoDictionaryIsUnambiguous(v.items[i]);
      }
    }
  }

  // A column survives export and restore.
  predicate Archivable(c: Column, jsonColumns: set<string>) {
    if c.name in jsonColumns then Plain(c.value) else Unambiguous(c.value)
  }

  lemma ColumnRoundTrip(c: Column, jsonColumns: set<string>, show: Printer, parse: Parser)
    requires Faithful(show, parse)
    ensures DecodeColumn(Column(c.name, Encode(c.value, show)), jsonColumns, parse) == Some(c.value)
            <==> Archivable(c, jsonColumns)
  {
    EncodedIsPlain(c.value, show);
    RoundTrip(c.value, show, parse);
  }

  lemma TypedIsArchivable(c: Column, jsonColumns: set<string>)
    requires Typed(c, jsonColumns)
    ensures Archivable(c, jsonColumns)
  {
    if c.name !in jsonColumns {
      NoDictionaryIsUnambiguous(c.value);
    }
  }

  // Export and restore one row: it comes back as it was iff every column is
  // archivable. The rows of a typed catalog all are, literal tag objects in
  // their JSON columns included.
  method ArchiveRecord(row: seq<Column>, jsonColumns: set<string>, show: Printer, parse: Parser)
    returns (r: Option<seq<Column>>)
    requires Faithful(show, parse)
    ensures r == Some(row) <==> forall i :: 0 <= i < |row| ==> Archivable(row[i], jsonColumns)
    ensures (forall i :: 0 <= i < |row| ==> Typed(row[i], jsonColumns)) ==> r == Some(row)
  {
    var encoded := EncodeRecord(row, show);
    r := DecodeRecord(encoded, jsonColumns, parse);
    forall i | 0 <= i < |row|
      ensures DecodeColumn(encoded[i], jsonColumns, parse) == Some(row[i].value) <==> Archivable(row[i], jsonColumns)
    {
      ColumnRoundTrip(row[i], jsonColumns, show, parse);
    }
    if forall i :: 0 <= i < |row| ==> Archivable(row[i], jsonColumns) {
      forall i | 0 <= i < |row|
        ensures r.Some? && r.value[i] == row[i]
      {
        assert DecodeColumn(encoded[i], jsonColumns, parse) == Some(row[i].value);
      }
      assert r.value == row;
    }
    forall i | 0 <= i < |row| && Typed(row[i], jsonColumns)
      ensures Archivable(row[i], jsonColumns)
    {
      TypedIsArchivable(row[i], jsonColumns);
    }
    if r == Some(row) {
      forall i | 0 <= i < |row|
        ensures Archivable(row[i], jsonColumns)
      {
        assert r.value[i].value == row[i].value;
      }
    }
  }
}
