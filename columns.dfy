/** Column records and the schema map of src/lib.rs: `ColumnInfo`, its
    decoding from JSON, `create_column_info` and `build_schema_map`, and the
    table keys `schema.table` that the map is keyed by. */
module Columns {
  import opened Wrappers
  import opened Text
  import opened NumericField
  import opened JsonValue
  import opened Envelope

  /** `ColumnInfo`: one column of one table, as `information_schema` reports it. */
  datatype ColumnInfo = ColumnInfo(
    tableSchema: string,
    tableName: string,
    columnName: string,
    dataType: string,
    isNullable: string,
    columnDefault: Option<string>,
    characterMaximumLength: Option<U64>)

  // ---------------------------------------------------------------------------
  // Decoding. serde's derived `Deserialize` of `ColumnInfo` reads an object
  // keyed by field name, or an array of the seven values in declaration
  // order. `character_maximum_length` has a custom reader and no `default`,
  // so it must be present (it may be null); `column_default` is an `Option`
  // and may be absent.

  /** Every value the object holds for a field of `ColumnInfo` has the type
      that field's reader accepts. */
  predicate ColumnValuesReadable(f: map<string, Json>)
  {
    TextAt(f, "table_schema").Success? && TextAt(f, "table_name").Success? &&
    TextAt(f, "column_name").Success? && TextAt(f, "data_type").Success? &&
    TextAt(f, "is_nullable").Success? && OptionalTextAt(f, "column_default").Success? &&
    NumberAt(f, "character_maximum_length", U64_MAX).Success?
  }

  /** Every field of `ColumnInfo` that cannot be absent is there. */
  predicate ColumnFieldsPresent(f: map<string, Json>)
  {
    "table_schema" in f && "table_name" in f && "column_name" in f && "data_type" in f &&
    "is_nullable" in f && "character_maximum_length" in f
  }

  /** `ColumnInfo` from an object: the values first, then the fields that
      are not there. */
  function DecodeColumnFields(f: map<string, Json>): (r: Result<ColumnInfo, DecodeError>)
    ensures r.Success? <==> ColumnValuesReadable(f) && ColumnFieldsPresent(f)
    ensures r.Success? ==>
      f["table_schema"] == Str(r.value.tableSchema) && f["table_name"] == Str(r.value.tableName) &&
      f["column_name"] == Str(r.value.columnName) && f["data_type"] == Str(r.value.dataType) &&
      f["is_nullable"] == Str(r.value.isNullable)
    ensures r.Success? ==> (r.value.columnDefault ==
      if "column_default" in f && f["column_default"].Str? then Some(f["column_default"].s) else None)
    ensures r.Success? ==>
      ReadOptionalUnsigned(ScalarOf(f["character_maximum_length"]), U64_MAX) == Success(r.value.characterMaximumLength)
    ensures !ColumnValuesReadable(f) ==> r.Failure? && (r.error.WrongType? || r.error.BadNumber?)
    ensures ColumnValuesReadable(f) && !ColumnFieldsPresent(f) ==>
      r.Failure? && r.error.MissingField? && r.error.field !in f
  {
    var tableSchema :- TextAt(f, "table_schema");
    var tableName :- TextAt(f, "table_name");
    var columnName :- TextAt(f, "column_name");
    var dataType :- TextAt(f, "data_type");
    var isNullable :- TextAt(f, "is_nullable");
    var columnDefault :- OptionalTextAt(f, "column_default");
    var length :- NumberAt(f, "character_maximum_length", U64_MAX);
    var tableSchema' :- Required(tableSchema, "table_schema");
    var tableName' :- Required(tableName, "table_name");
    var columnName' :- Required(columnName, "column_name");
    var dataType' :- Required(dataType, "data_type");
    var isNullable' :- Required(isNullable, "is_nullable");
    var length' :- Required(length, "character_maximum_length");
    Success(ColumnInfo(tableSchema', tableName', columnName', dataType', isNullable',
                       if columnDefault.Some? then columnDefault.value else None, AsU64(length')))
  }

  /** `ColumnInfo` from an array: exactly seven values, by position. */
  function DecodeColumnItems(items: seq<Json>): (r: Result<ColumnInfo, DecodeError>)
    ensures r.Success? <==>
      |items| == 7 && items[0].Str? && items[1].Str? && items[2].Str? && items[3].Str? && items[4].Str? &&
      (items[5].Null? || items[5].Str?) && ReadOptionalUnsigned(ScalarOf(items[6]), U64_MAX).Success?
    ensures r.Success? ==>
      items[0] == Str(r.value.tableSchema) && items[1] == Str(r.value.tableName) &&
      items[2] == Str(r.value.columnName) && items[3] == Str(r.value.dataType) &&
      items[4] == Str(r.value.isNullable) && items[5] == OptionalStringJson(r.value.columnDefault) &&
      ReadOptionalUnsigned(ScalarOf(items[6]), U64_MAX) == Success(r.value.characterMaximumLength)
    ensures r.Failure? ==> (r.error.WrongType? || r.error.BadNumber? ||
      (r.error == InvalidLength(|items|) && |items| < 7) || (r.error == TrailingElements && |items| > 7))
  {
    var tableSchema :- TextElement(items, 0, "table_schema");
    var tableName :- TextElement(items, 1, "table_name");
    var columnName :- TextElement(items, 2, "column_name");
    var dataType :- TextElement(items, 3, "data_type");
    var isNullable :- TextElement(items, 4, "is_nullable");
    var columnDefault :- OptionalTextElement(items, 5, "column_default", false);
    var length :- NumberElement(items, 6, "character_maximum_length", U64_MAX, false);
    Finished(items, 7, ColumnInfo(tableSchema, tableName, columnName, dataType, isNullable, columnDefault,
                                  AsU64(length)))
  }

  /** The derived `Deserialize` of `ColumnInfo`. */
  function DecodeColumn(v: Json): (r: Result<ColumnInfo, DecodeError>)
    ensures v.Obj? ==> r == DecodeColumnFields(v.fields)
    ensures v.Arr? ==> r == DecodeColumnItems(v.items)
    ensures !v.Obj? && !v.Arr? ==> r == Failure(NotARecord)
  {
    match v
    case Obj(f) => DecodeColumnFields(f)
    case Arr(items) => DecodeColumnItems(items)
    case _ => Failure(NotARecord)
  }

  function OptionalStringJson(o: Option<string>): Json
  {
    if o.Some? then Str(o.value) else Null
  }

  function LengthJson(o: Option<U64>): Json
  {
    if o.Some? then Number(o.value) else Null
  }

  /** The derived `Serialize` of `ColumnInfo`, as serde_json writes it. */
  function ColumnJson(c: ColumnInfo): Json
  {
    Obj(map[
      "table_schema" := Str(c.tableSchema),
      "table_name" := Str(c.tableName),
      "column_name" := Str(c.columnName),
      "data_type" := Str(c.dataType),
      "is_nullable" := Str(c.isNullable),
      "column_default" := OptionalStringJson(c.columnDefault),
      "character_maximum_length" := LengthJson(c.characterMaximumLength)])
  }

  /** A column written as an array of its values in declaration order. */
  function ColumnRow(c: ColumnInfo): Json
  {
    Arr([Str(c.tableSchema), Str(c.tableName), Str(c.columnName), Str(c.dataType), Str(c.isNullable),
         OptionalStringJson(c.columnDefault), LengthJson(c.characterMaximumLength)])
  }

  /** A serialized column reads back as itself. */
  lemma DecodeColumnJson(c: ColumnInfo)
    ensures DecodeColumn(ColumnJson(c)) == Success(c)
  {
    var f := ColumnJson(c).fields;
    assert ColumnValuesReadable(f) && ColumnFieldsPresent(f);
  }

  /** So does a column written as an array. */
  lemma DecodeColumnRow(c: ColumnInfo)
    ensures DecodeColumn(ColumnRow(c)) == Success(c)
  {
    var items := ColumnRow(c).items;
    assert ReadOptionalUnsigned(ScalarOf(items[6]), U64_MAX) == Success(c.characterMaximumLength);
  }

  /** A record with a value of the wrong type is reported for that value,
      even when fields are missing too. */
  lemma WrongTypeBeforeMissing()
    ensures DecodeColumn(Obj(map["table_name" := Number(5)])) == Failure(WrongType("table_name"))
  {
  }

  /** `create_column_info`. */
  function CreateColumnInfo(doc: Json): (r: Result<seq<ColumnInfo>, string>)
    ensures DecodeArray(doc, DecodeColumn).Success? ==> r == Success(DecodeArray(doc, DecodeColumn).value)
    ensures r.Failure? ==> (r.error == "Cannot find data" ||
      (|r.error| >= |ParseErrorPrefix| && r.error[..|ParseErrorPrefix|] == ParseErrorPrefix))
  {
    CreateInfo(doc, DecodeColumn)
  }

  /** A flat document whose record is written as an array is read like one
      written as an object. */
  lemma FlatDocumentOfArrays()
    ensures CreateColumnInfo(Arr([Arr([Str("public"), Str("users"), Str("id"), Str("int"), Str("NO"), Null, Null])])) ==
            Success([ColumnInfo("public", "users", "id", "int", "NO", None, None)])
  {
    var c := ColumnInfo("public", "users", "id", "int", "NO", None, None);
    DecodeColumnRow(c);
    assert ColumnRow(c) == Arr([Str("public"), Str("users"), Str("id"), Str("int"), Str("NO"), Null, Null]);
    var doc := Arr([ColumnRow(c)]);
    assert doc.items[0] == ColumnRow(c);
    var r := DecodeArray(doc, DecodeColumn);
    assert r.Success? && |r.value| == 1 && r.value[0] == c;
    assert r.value == [c];
  }

  // ---------------------------------------------------------------------------
  // Table keys

  /** The key `build_schema_map` files a column under: when neither name
      has a dot, the key splits back into the column's schema and table. */
  function TableKey(c: ColumnInfo): (key: string)
    ensures '.' !in c.tableSchema && '.' !in c.tableName ==> SplitTableKey(key) == (c.tableSchema, c.tableName)
  {
    QualifiedNameSplits(c.tableSchema, c.tableName);
    c.tableSchema + "." + c.tableName
  }

  /** `schema.table` splits back into its halves when neither has a dot. */
  lemma QualifiedNameSplits(schema: string, table: string)
    ensures '.' !in schema && '.' !in table ==> SplitTableKey(schema + "." + table) == (schema, table)
  {
    if '.' !in schema && '.' !in table {
      SplitTableKeyRoundTrip(schema, table);
    }
  }

  /** A table key split back into `(schema, table)` for `tables_only_in_*`:
      the first two pieces between dots, or schema `public` when there is
      no dot. Neither half has a dot, and a dotted key begins with the two
      halves joined by a dot. */
  function SplitTableKey(key: string): (r: (string, string))
    ensures '.' !in r.0 && '.' !in r.1
    ensures '.' in key ==> r.0 + "." + r.1 <= key
    ensures '.' !in key ==> r == ("public", key)
  {
    var parts := Split(key, '.');
    if |parts| >= 2 then
      SplitKeyStartsWith(key);
      (parts[0], parts[1])
    else
      assert key == parts[0];
      ("public", parts[0])
  }

  /** A key that splits into several pieces begins with the first two, and
      only such a key has a dot. */
  lemma SplitKeyStartsWith(key: string)
    ensures var parts := Split(key, '.');
      |parts| >= 2 <==> '.' in key
    ensures var parts := Split(key, '.');
      |parts| >= 2 ==> parts[0] + "." + parts[1] <= key
  {
    var parts := Split(key, '.');
    if |parts| >= 2 {
      var rest := Join(parts[1..], ".");
      assert key == parts[0] + "." + rest;
      assert key[|parts[0]|] == '.';
      JoinStartsWith(parts[1..], ".");
      assert parts[1] <= rest;
      assert (parts[0] + ".") + parts[1] <= (parts[0] + ".") + rest;
    } else {
      assert key == parts[0];
    }
  }

  /** The `table_name` of a column difference: the piece after the first dot,
      or the whole key when there is none, which is the table half of
      `SplitTableKey`. */
  function TableNameOf(key: string): (name: string)
    ensures name == SplitTableKey(key).1
    ensures '.' !in key ==> name == key
  {
    var parts := Split(key, '.');
    if |parts| >= 2 then parts[1]
    else
      assert key == parts[0];
      key
  }

  /** Names without dots come back out of the key they were put in. */
  lemma SplitTableKeyRoundTrip(schema: string, table: string)
    requires '.' !in schema && '.' !in table
    ensures SplitTableKey(schema + "." + table) == (schema, table)
    ensures TableNameOf(schema + "." + table) == table
  {
    SplitOfJoin([schema, table], '.');
    assert Join([schema, table], ".") == schema + "." + Join([table], ".");
  }

  /** A key without a dot is a table of the `public` schema. */
  lemma SplitDotlessKey(key: string)
    requires '.' !in key
    ensures SplitTableKey(key) == ("public", key)
    ensures TableNameOf(key) == key
  {
    SplitHasSeveralPieces(key, '.');
    assert Join(Split(key, '.'), ".") == key;
  }

  /** A dot inside a name makes two different tables share a key, and the
      key splits back into neither. */
  lemma DottedNamesCollide()
    ensures TableKey(ColumnInfo("a.b", "c", "id", "int", "NO", None, None)) ==
            TableKey(ColumnInfo("a", "b.c", "id", "int", "NO", None, None))
    ensures SplitTableKey("a.b.c") == ("a", "b")
  {
    assert "a.b" + "." + "c" == "a" + "." + "b.c";
    SplitOfABC();
  }

  lemma SplitOfBC()
    ensures Split("b.c", '.') == ["b", "c"]
  {
    assert Split("c", '.') == ["c"];
    assert ".c"[0] == '.' && ".c"[1..] == "c";
    assert Split(".c", '.') == [""] + Split("c", '.');
    assert "b.c" == "b" + ".c";
    SplitAfterPlainPrefix("b", ".c", '.');
    assert Split(".c", '.') == ["", "c"] && "b" + "" == "b";
  }

  lemma SplitOfABC()
    ensures Split("a.b.c", '.') == ["a", "b", "c"]
  {
    SplitOfBC();
    assert ".b.c"[0] == '.' && ".b.c"[1..] == "b.c";
    assert Split(".b.c", '.') == [""] + Split("b.c", '.');
    assert "a.b.c" == "a" + ".b.c";
    SplitAfterPlainPrefix("a", ".b.c", '.');
    assert Split(".b.c", '.') == ["", "b", "c"] && "a" + "" == "a";
  }

  // ---------------------------------------------------------------------------
  // The schema map

  /** `HashMap<String, HashMap<String, ColumnInfo>>`: table key, then column name. */
  type SchemaMap = map<string, map<string, ColumnInfo>>

  /** Record `i` is the last of `columns` with table key `k` and column name `c`. */
  ghost predicate IsLastFor(columns: seq<ColumnInfo>, i: int, k: string, c: string)
  {
    0 <= i < |columns| && TableKey(columns[i]) == k && columns[i].columnName == c &&
    forall j :: i < j < |columns| ==> !(TableKey(columns[j]) == k && columns[j].columnName == c)
  }

  /** What `build_schema_map` promises: a table key exists iff some record has
      it, a column name exists under it iff some record of that table has it,
      and the record kept is the last such record. */
  ghost predicate GroupsColumns(columns: seq<ColumnInfo>, m: SchemaMap)
  {
    HasTablesOf(columns, m) && HasColumnsOf(columns, m) && KeepsLast(columns, m)
  }

  ghost predicate HasTablesOf(columns: seq<ColumnInfo>, m: SchemaMap)
  {
    (forall i :: 0 <= i < |columns| ==> TableKey(columns[i]) in m) &&
    (forall k :: k in m ==> exists i :: 0 <= i < |columns| && TableKey(columns[i]) == k)
  }

  ghost predicate HasColumnsOf(columns: seq<ColumnInfo>, m: SchemaMap)
  {
    (forall i :: 0 <= i < |columns| ==> TableKey(columns[i]) in m && columns[i].columnName in m[TableKey(columns[i])]) &&
    (forall k, c :: k in m && c in m[k] ==>
      exists i :: 0 <= i < |columns| && TableKey(columns[i]) == k && columns[i].columnName == c)
  }

  ghost predicate KeepsLast(columns: seq<ColumnInfo>, m: SchemaMap)
  {
    forall k, c :: k in m && c in m[k] ==> exists i :: IsLastFor(columns, i, k, c) && m[k][c] == columns[i]
  }

  /** `build_schema_map`: the entry API inserts each record in turn, so that
      a later record overwrites an earlier one with the same keys. */
  method BuildSchemaMap(columns: seq<ColumnInfo>) returns (m: SchemaMap)
    ensures GroupsColumns(columns, m)
  {
    m := map[];
    for n := 0 to |columns|
      invariant GroupsColumns(columns[..n], m)
    {
      var column := columns[n];
      var key := TableKey(column);
      var table := if key in m then m[key] else map[];
      ghost var before := m;
      m := m[key := table[column.columnName := column]];
      assert m == Inserted(before, column);
      GroupsColumnsStep(columns, n, before);
    }
    assert columns[..|columns|] == columns;
  }

  /** The map after inserting `column` the way the entry API does. */
  function Inserted(m: SchemaMap, column: ColumnInfo): SchemaMap
  {
    var key := TableKey(column);
    m[key := (if key in m then m[key] else map[])[column.columnName := column]]
  }

  /** Inserting one more record keeps `GroupsColumns`. */
  lemma GroupsColumnsStep(columns: seq<ColumnInfo>, n: nat, before: SchemaMap)
    requires n < |columns|
    requires GroupsColumns(columns[..n], before)
    ensures GroupsColumns(columns[..n + 1], Inserted(before, columns[n]))
  {
    assert columns[..n + 1] == columns[..n] + [columns[n]];
    TablesStep(columns[..n], before, columns[n]);
    ColumnsStep(columns[..n], before, columns[n]);
    LastStep(columns[..n], before, columns[n]);
  }

  lemma TablesStep(prefix: seq<ColumnInfo>, before: SchemaMap, column: ColumnInfo)
    requires HasTablesOf(prefix, before)
    ensures HasTablesOf(prefix + [column], Inserted(before, column))
  {
    var s, after := prefix + [column], Inserted(before, column);
    assert s[|prefix|] == column;
    forall k | k in after ensures exists i :: 0 <= i < |s| && TableKey(s[i]) == k {
      if k != TableKey(column) {
        var i :| 0 <= i < |prefix| && TableKey(prefix[i]) == k;
        assert s[i] == prefix[i];
      }
    }
    forall i | 0 <= i < |s| ensures TableKey(s[i]) in after {
      if i < |prefix| { assert s[i] == prefix[i]; }
    }
  }

  lemma ColumnsStep(prefix: seq<ColumnInfo>, before: SchemaMap, column: ColumnInfo)
    requires HasColumnsOf(prefix, before)
    ensures HasColumnsOf(prefix + [column], Inserted(before, column))
  {
    var s, after := prefix + [column], Inserted(before, column);
    var key, name := TableKey(column), column.columnName;
    assert s[|prefix|] == column;
    forall k, c | k in after && c in after[k]
      ensures exists i :: 0 <= i < |s| && TableKey(s[i]) == k && s[i].columnName == c
    {
      if k == key && c == name {
        assert TableKey(s[|prefix|]) == k && s[|prefix|].columnName == c;
      } else {
        assert k in before && c in before[k];
        var i :| 0 <= i < |prefix| && TableKey(prefix[i]) == k && prefix[i].columnName == c;
        assert s[i] == prefix[i];
      }
    }
    forall i | 0 <= i < |s| ensures TableKey(s[i]) in after && s[i].columnName in after[TableKey(s[i])] {
      if i < |prefix| { assert s[i] == prefix[i]; }
    }
  }

  lemma LastStep(prefix: seq<ColumnInfo>, before: SchemaMap, column: ColumnInfo)
    requires KeepsLast(prefix, before)
    ensures KeepsLast(prefix + [column], Inserted(before, column))
  {
    var s, after := prefix + [column], Inserted(before, column);
    forall k, c | k in after && c in after[k]
      ensures exists i :: IsLastFor(s, i, k, c) && after[k][c] == s[i]
    {
      if k == TableKey(column) && c == column.columnName {
        assert IsLastFor(s, |prefix|, k, c);
      } else {
        var i :| IsLastFor(prefix, i, k, c) && before[k][c] == prefix[i];
        assert IsLastFor(s, i, k, c);
      }
    }
  }

  /** Every record in a built map sits under its own table key and column
      name. */
  lemma BuiltMapIsKeyed(columns: seq<ColumnInfo>, m: SchemaMap, k: string, c: string)
    requires GroupsColumns(columns, m)
    requires k in m && c in m[k]
    ensures TableKey(m[k][c]) == k && m[k][c].columnName == c
  {
    var i :| IsLastFor(columns, i, k, c) && m[k][c] == columns[i];
  }

  /** `build_schema_map` is a function of its input: one map at most
      satisfies `GroupsColumns` for given records. */
  lemma GroupingIsUnique(columns: seq<ColumnInfo>, m: SchemaMap, m': SchemaMap)
    requires GroupsColumns(columns, m) && GroupsColumns(columns, m')
    ensures m == m'
  {
    SameTables(columns, m, m');
    forall k | k in m ensures m[k] == m'[k] {
      SameTable(columns, m, m', k);
    }
  }

  lemma SameTable(columns: seq<ColumnInfo>, m: SchemaMap, m': SchemaMap, k: string)
    requires HasColumnsOf(columns, m) && HasColumnsOf(columns, m')
    requires KeepsLast(columns, m) && KeepsLast(columns, m')
    requires k in m && k in m'
    ensures m[k] == m'[k]
  {
    SameColumns(columns, m, m', k);
    forall c | c in m[k] ensures m[k][c] == m'[k][c] {
      SameRecord(columns, m, m', k, c);
    }
  }

  lemma SameTables(columns: seq<ColumnInfo>, m: SchemaMap, m': SchemaMap)
    requires HasTablesOf(columns, m) && HasTablesOf(columns, m')
    ensures m.Keys == m'.Keys
  {
    forall k | k in m ensures k in m' {
      var i :| 0 <= i < |columns| && TableKey(columns[i]) == k;
    }
    forall k | k in m' ensures k in m {
      var i :| 0 <= i < |columns| && TableKey(columns[i]) == k;
    }
  }

  lemma SameColumns(columns: seq<ColumnInfo>, m: SchemaMap, m': SchemaMap, k: string)
    requires HasColumnsOf(columns, m) && HasColumnsOf(columns, m')
    requires k in m && k in m'
    ensures m[k].Keys == m'[k].Keys
  {
    forall c | c in m[k] ensures c in m'[k] {
      var i :| 0 <= i < |columns| && TableKey(columns[i]) == k && columns[i].columnName == c;
    }
    forall c | c in m'[k] ensures c in m[k] {
      var i :| 0 <= i < |columns| && TableKey(columns[i]) == k && columns[i].columnName == c;
    }
  }

  lemma SameRecord(columns: seq<ColumnInfo>, m: SchemaMap, m': SchemaMap, k: string, c: string)
    requires KeepsLast(columns, m) && KeepsLast(columns, m')
    requires k in m && c in m[k] && k in m' && c in m'[k]
    ensures m[k][c] == m'[k][c]
  {
    var i :| IsLastFor(columns, i, k, c) && m[k][c] == columns[i];
    var j :| IsLastFor(columns, j, k, c) && m'[k][c] == columns[j];
    NoLaterRecord(columns, i, j, k, c);
    NoLaterRecord(columns, j, i, k, c);
  }

  /** A record for the same keys after the last one does not exist. */
  lemma NoLaterRecord(columns: seq<ColumnInfo>, i: int, j: int, k: string, c: string)
    requires IsLastFor(columns, i, k, c)
    requires 0 <= j < |columns| && TableKey(columns[j]) == k && columns[j].columnName == c
    ensures j <= i
  {
  }

  /** Two records of one table with different column names group into one
      table holding both. */
  lemma GroupsTwoColumns(a: ColumnInfo, b: ColumnInfo)
    requires TableKey(a) == TableKey(b) && a.columnName != b.columnName
    ensures GroupsColumns([a, b], map[TableKey(a) := map[a.columnName := a, b.columnName := b]])
  {
    var columns := [a, b];
    var m := map[TableKey(a) := map[a.columnName := a, b.columnName := b]];
    assert IsLastFor(columns, 0, TableKey(a), a.columnName);
    assert IsLastFor(columns, 1, TableKey(a), b.columnName);
    assert HasTablesOf(columns, m) by {
      forall k | k in m ensures exists i :: 0 <= i < |columns| && TableKey(columns[i]) == k {
        assert TableKey(columns[0]) == k;
      }
    }
    assert HasColumnsOf(columns, m) by {
      forall k, c | k in m && c in m[k]
        ensures exists i :: 0 <= i < |columns| && TableKey(columns[i]) == k && columns[i].columnName == c
      {
        if c == a.columnName {
          assert TableKey(columns[0]) == k && columns[0].columnName == c;
        } else {
          assert TableKey(columns[1]) == k && columns[1].columnName == c;
        }
      }
    }
  }
}
