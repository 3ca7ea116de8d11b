/** Index records of src/index.rs: `IndexInfo`, its decoding from JSON,
    `create_index_info`, and the builder with its validating `build`. */
module Indexes {
  import opened Wrappers
  import opened NumericField
  import opened JsonValue
  import opened Envelope

  /** `IndexInfo`: one column of one index, as `information_schema.statistics`
      reports it. */
  datatype IndexInfo = IndexInfo(
    tableSchema: string,
    tableName: string,
    indexName: string,
    columnName: string,
    seqInIndex: Option<U32>,
    collation: Option<string>,
    cardinality: Option<U64>,
    subPart: Option<U64>,
    packed: Option<string>,
    nullable: string,
    indexType: string,
    nonUnique: Option<U8>)   // 0 for a unique index

  // ---------------------------------------------------------------------------
  // Decoding. serde's derived `Deserialize` of `IndexInfo` reads an object
  // keyed by field name, or an array of the twelve values in declaration
  // order. Six fields carry `#[serde(default)]` (the four numeric ones, with
  // their own readers, and `collation` and `packed`) and may be absent; the
  // other six are required.

  /** Every value the object holds for a field of `IndexInfo` has the type
      that field's reader accepts. */
  predicate IndexValuesReadable(f: map<string, Json>)
  {
    TextAt(f, "table_schema").Success? && TextAt(f, "table_name").Success? &&
    TextAt(f, "index_name").Success? && TextAt(f, "column_name").Success? &&
    NumberAt(f, "seq_in_index", U32_MAX).Success? && OptionalTextAt(f, "collation").Success? &&
    NumberAt(f, "cardinality", U64_MAX).Success? && NumberAt(f, "sub_part", U64_MAX).Success? &&
    OptionalTextAt(f, "packed").Success? && TextAt(f, "nullable").Success? &&
    TextAt(f, "index_type").Success? && NumberAt(f, "non_unique", U8_MAX).Success?
  }

  /** Every field of `IndexInfo` without a default is there. */
  predicate IndexFieldsPresent(f: map<string, Json>)
  {
    "table_schema" in f && "table_name" in f && "index_name" in f && "column_name" in f &&
    "nullable" in f && "index_type" in f
  }

  /** What a numeric field with a default comes to in an object. */
  predicate NumberFieldIs(f: map<string, Json>, name: string, max: nat, value: Option<nat>)
  {
    if name in f then ReadOptionalUnsigned(ScalarOf(f[name]), max) == Success(value) else value.None?
  }

  /** What an `Option<String>` field comes to in an object. */
  function TextFieldOf(f: map<string, Json>, name: string): Option<string>
  {
    if name in f && f[name].Str? then Some(f[name].s) else None
  }

  /** `IndexInfo` from an object: the values first, then the fields that are
      not there. */
  function DecodeIndexFields(f: map<string, Json>): (r: Result<IndexInfo, DecodeError>)
    ensures r.Success? ==> IndexFieldsPresent(f)
  {
    var tableSchema :- TextAt(f, "table_schema");
    var tableName :- TextAt(f, "table_name");
    var indexName :- TextAt(f, "index_name");
    var columnName :- TextAt(f, "column_name");
    var seqInIndex :- NumberAt(f, "seq_in_index", U32_MAX);
    var collation :- OptionalTextAt(f, "collation");
    var cardinality :- NumberAt(f, "cardinality", U64_MAX);
    var subPart :- NumberAt(f, "sub_part", U64_MAX);
    var packed :- OptionalTextAt(f, "packed");
    var nullable :- TextAt(f, "nullable");
    var indexType :- TextAt(f, "index_type");
    var nonUnique :- NumberAt(f, "non_unique", U8_MAX);
    var tableSchema' :- Required(tableSchema, "table_schema");
    var tableName' :- Required(tableName, "table_name");
    var indexName' :- Required(indexName, "index_name");
    var columnName' :- Required(columnName, "column_name");
    var nullable' :- Required(nullable, "nullable");
    var indexType' :- Required(indexType, "index_type");
    Success(IndexInfo(tableSchema', tableName', indexName', columnName',
                      AsU32(Defaulted(seqInIndex)), Defaulted(collation),
                      AsU64(Defaulted(cardinality)), AsU64(Defaulted(subPart)), Defaulted(packed),
                      nullable', indexType', AsU8(Defaulted(nonUnique))))
  }

  /** An object decodes as an index record exactly when each value has the
      type of its field and every required field is there. */
  lemma DecodeIndexFieldsSucceeds(f: map<string, Json>)
    ensures DecodeIndexFields(f).Success? <==> IndexValuesReadable(f) && IndexFieldsPresent(f)
  {
  }

  /** The record holds the object's values. */
  lemma DecodeIndexFieldsValues(f: map<string, Json>)
    requires DecodeIndexFields(f).Success?
    ensures var x := DecodeIndexFields(f).value;
      f["table_schema"] == Str(x.tableSchema) && f["table_name"] == Str(x.tableName) &&
      f["index_name"] == Str(x.indexName) && f["column_name"] == Str(x.columnName) &&
      f["nullable"] == Str(x.nullable) && f["index_type"] == Str(x.indexType)
    ensures var x := DecodeIndexFields(f).value;
      x.collation == TextFieldOf(f, "collation") && x.packed == TextFieldOf(f, "packed")
    ensures var x := DecodeIndexFields(f).value;
      NumberFieldIs(f, "seq_in_index", U32_MAX, x.seqInIndex) &&
      NumberFieldIs(f, "cardinality", U64_MAX, x.cardinality) &&
      NumberFieldIs(f, "sub_part", U64_MAX, x.subPart) &&
      NumberFieldIs(f, "non_unique", U8_MAX, x.nonUnique)
  {
  }

  /** A value of the wrong type is reported before any missing field. */
  lemma DecodeIndexFieldsErrors(f: map<string, Json>)
    ensures !IndexValuesReadable(f) ==>
      DecodeIndexFields(f).Failure? && (DecodeIndexFields(f).error.WrongType? || DecodeIndexFields(f).error.BadNumber?)
    ensures IndexValuesReadable(f) && !IndexFieldsPresent(f) ==>
      DecodeIndexFields(f).Failure? && DecodeIndexFields(f).error.MissingField? &&
      DecodeIndexFields(f).error.field !in f
  {
    if IndexValuesReadable(f) && !IndexFieldsPresent(f) {
      assert DecodeIndexFields(f).Failure?;
    }
  }

  /** A field with `#[serde(default)]`: `None` when it was not found. */
  function Defaulted<T>(found: Option<Option<T>>): (r: Option<T>)
    ensures found.None? ==> r.None?
    ensures found.Some? ==> r == found.value
  {
    if found.Some? then found.value else None
  }

  /** `IndexInfo` from an array: the twelve values by position, of which the
      last, `non_unique`, may be left off. The fields at positions 4 to 8
      have a default too, so an array that stops among them is first short
      of `nullable`, and the invalid-length error names position 9. */
  function DecodeIndexItems(items: seq<Json>): (r: Result<IndexInfo, DecodeError>)
    ensures r.Success? <==>
      (|items| == 11 || |items| == 12) &&
      items[0].Str? && items[1].Str? && items[2].Str? && items[3].Str? &&
      NumberValue("seq_in_index", items[4], U32_MAX).Success? && (items[5].Null? || items[5].Str?) &&
      NumberValue("cardinality", items[6], U64_MAX).Success? && NumberValue("sub_part", items[7], U64_MAX).Success? &&
      (items[8].Null? || items[8].Str?) && items[9].Str? && items[10].Str? &&
      (|items| == 12 ==> NumberValue("non_unique", items[11], U8_MAX).Success?)
    ensures r.Success? ==>
      items[0] == Str(r.value.tableSchema) && items[1] == Str(r.value.tableName) &&
      items[2] == Str(r.value.indexName) && items[3] == Str(r.value.columnName) &&
      items[9] == Str(r.value.nullable) && items[10] == Str(r.value.indexType)
    ensures r.Success? ==>
      items[5] == OptionalTextJson(r.value.collation) && items[8] == OptionalTextJson(r.value.packed)
    ensures r.Success? ==>
      NumberValue("seq_in_index", items[4], U32_MAX) == Success(r.value.seqInIndex) &&
      NumberValue("cardinality", items[6], U64_MAX) == Success(r.value.cardinality) &&
      NumberValue("sub_part", items[7], U64_MAX) == Success(r.value.subPart)
    ensures r.Success? ==> (if |items| == 12 then NumberValue("non_unique", items[11], U8_MAX) == Success(r.value.nonUnique)
                           else r.value.nonUnique.None?)
    ensures r.Failure? ==> (r.error.WrongType? || r.error.BadNumber? ||
      (r.error == InvalidLength(if 4 <= |items| <= 9 then 9 else |items|) && |items| < 11) ||
      (r.error == TrailingElements && |items| > 12))
  {
    var tableSchema :- TextElement(items, 0, "table_schema");
    var tableName :- TextElement(items, 1, "table_name");
    var indexName :- TextElement(items, 2, "index_name");
    var columnName :- TextElement(items, 3, "column_name");
    var seqInIndex :- NumberElement(items, 4, "seq_in_index", U32_MAX, true);
    var collation :- OptionalTextElement(items, 5, "collation", true);
    var cardinality :- NumberElement(items, 6, "cardinality", U64_MAX, true);
    var subPart :- NumberElement(items, 7, "sub_part", U64_MAX, true);
    var packed :- OptionalTextElement(items, 8, "packed", true);
    var nullable :- TextElement(items, 9, "nullable");
    var indexType :- TextElement(items, 10, "index_type");
    var nonUnique :- NumberElement(items, 11, "non_unique", U8_MAX, true);
    Finished(items, 12, IndexInfo(tableSchema, tableName, indexName, columnName, AsU32(seqInIndex), collation,
                                  AsU64(cardinality), AsU64(subPart), packed, nullable, indexType, AsU8(nonUnique)))
  }

  /** The derived `Deserialize` of `IndexInfo`. */
  function DecodeIndex(v: Json): (r: Result<IndexInfo, DecodeError>)
    ensures v.Obj? ==> r == DecodeIndexFields(v.fields)
    ensures v.Arr? ==> r == DecodeIndexItems(v.items)
    ensures !v.Obj? && !v.Arr? ==> r == Failure(NotARecord)
  {
    match v
    case Obj(f) => DecodeIndexFields(f)
    case Arr(items) => DecodeIndexItems(items)
    case _ => Failure(NotARecord)
  }

  function OptionalNumberJson(o: Option<nat>): Json
  {
    if o.Some? then Number(o.value) else Null
  }

  function OptionalTextJson(o: Option<string>): Json
  {
    if o.Some? then Str(o.value) else Null
  }

  /** The derived `Serialize` of `IndexInfo`, as serde_json writes it. */
  function IndexJson(x: IndexInfo): Json
  {
    Obj(map[
      "table_schema" := Str(x.tableSchema),
      "table_name" := Str(x.tableName),
      "index_name" := Str(x.indexName),
      "column_name" := Str(x.columnName),
      "seq_in_index" := OptionalNumberJson(x.seqInIndex),
      "collation" := OptionalTextJson(x.collation),
      "cardinality" := OptionalNumberJson(x.cardinality),
      "sub_part" := OptionalNumberJson(x.subPart),
      "packed" := OptionalTextJson(x.packed),
      "nullable" := Str(x.nullable),
      "index_type" := Str(x.indexType),
      "non_unique" := OptionalNumberJson(x.nonUnique)])
  }

  /** An index record written as an array of its twelve values. */
  function IndexRow(x: IndexInfo): Json
  {
    Arr([Str(x.tableSchema), Str(x.tableName), Str(x.indexName), Str(x.columnName),
         OptionalNumberJson(x.seqInIndex), OptionalTextJson(x.collation), OptionalNumberJson(x.cardinality),
         OptionalNumberJson(x.subPart), OptionalTextJson(x.packed), Str(x.nullable), Str(x.indexType),
         OptionalNumberJson(x.nonUnique)])
  }

  /** A serialized index record reads back as itself. */
  lemma DecodeIndexJson(x: IndexInfo)
    ensures DecodeIndex(IndexJson(x)) == Success(x)
  {
    var f := IndexJson(x).fields;
    IndexJsonLookups(x);
    NumberReadsBack(x.seqInIndex, U32_MAX);
    NumberReadsBack(x.cardinality, U64_MAX);
    NumberReadsBack(x.subPart, U64_MAX);
    NumberReadsBack(x.nonUnique, U8_MAX);
    assert IndexValuesReadable(f) && IndexFieldsPresent(f);
    DecodeIndexFieldsSucceeds(f);
    DecodeIndexFieldsValues(f);
  }

  /** The value `IndexJson` writes under each key. */
  lemma IndexJsonLookups(x: IndexInfo)
    ensures var f := IndexJson(x).fields;
      "table_schema" in f && f["table_schema"] == Str(x.tableSchema) &&
      "table_name" in f && f["table_name"] == Str(x.tableName) &&
      "index_name" in f && f["index_name"] == Str(x.indexName) &&
      "column_name" in f && f["column_name"] == Str(x.columnName) &&
      "seq_in_index" in f && f["seq_in_index"] == OptionalNumberJson(x.seqInIndex) &&
      "collation" in f && f["collation"] == OptionalTextJson(x.collation) &&
      "cardinality" in f && f["cardinality"] == OptionalNumberJson(x.cardinality) &&
      "sub_part" in f && f["sub_part"] == OptionalNumberJson(x.subPart) &&
      "packed" in f && f["packed"] == OptionalTextJson(x.packed) &&
      "nullable" in f && f["nullable"] == Str(x.nullable) &&
      "index_type" in f && f["index_type"] == Str(x.indexType) &&
      "non_unique" in f && f["non_unique"] == OptionalNumberJson(x.nonUnique)
  {
  }

  /** So does one written as an array. */
  lemma DecodeIndexRow(x: IndexInfo)
    ensures DecodeIndex(IndexRow(x)) == Success(x)
  {
    IndexRowItems(x);
    NumberValueReadsBack("seq_in_index", x.seqInIndex, U32_MAX);
    NumberValueReadsBack("cardinality", x.cardinality, U64_MAX);
    NumberValueReadsBack("sub_part", x.subPart, U64_MAX);
    NumberValueReadsBack("non_unique", x.nonUnique, U8_MAX);
    ItemsDecode(IndexRow(x).items, x);
  }

  /** What `IndexRow` writes at each position. */
  lemma IndexRowItems(x: IndexInfo)
    ensures var items := IndexRow(x).items;
      |items| == 12 &&
      items[0] == Str(x.tableSchema) && items[1] == Str(x.tableName) &&
      items[2] == Str(x.indexName) && items[3] == Str(x.columnName) &&
      items[4] == OptionalNumberJson(x.seqInIndex) && items[5] == OptionalTextJson(x.collation) &&
      items[6] == OptionalNumberJson(x.cardinality) && items[7] == OptionalNumberJson(x.subPart) &&
      items[8] == OptionalTextJson(x.packed) && items[9] == Str(x.nullable) &&
      items[10] == Str(x.indexType) && items[11] == OptionalNumberJson(x.nonUnique)
  {
    var items := [Str(x.tableSchema), Str(x.tableName), Str(x.indexName), Str(x.columnName),
                  OptionalNumberJson(x.seqInIndex), OptionalTextJson(x.collation), OptionalNumberJson(x.cardinality),
                  OptionalNumberJson(x.subPart), OptionalTextJson(x.packed), Str(x.nullable), Str(x.indexType),
                  OptionalNumberJson(x.nonUnique)];
    assert IndexRow(x) == Arr(items);
  }

  /** An array whose twelve values read as the fields of `x` decodes as `x`. */
  lemma ItemsDecode(items: seq<Json>, x: IndexInfo)
    requires |items| == 12
    requires items[0] == Str(x.tableSchema) && items[1] == Str(x.tableName)
    requires items[2] == Str(x.indexName) && items[3] == Str(x.columnName)
    requires items[5] == OptionalTextJson(x.collation) && items[8] == OptionalTextJson(x.packed)
    requires items[9] == Str(x.nullable) && items[10] == Str(x.indexType)
    requires NumberValue("seq_in_index", items[4], U32_MAX) == Success(x.seqInIndex)
    requires NumberValue("cardinality", items[6], U64_MAX) == Success(x.cardinality)
    requires NumberValue("sub_part", items[7], U64_MAX) == Success(x.subPart)
    requires NumberValue("non_unique", items[11], U8_MAX) == Success(x.nonUnique)
    ensures DecodeIndexItems(items) == Success(x)
  {
  }

  /** The same through the field reader, whatever the field's name. */
  lemma NumberValueReadsBack(name: string, o: Option<nat>, max: nat)
    requires o.Some? ==> o.value <= max
    ensures NumberValue(name, OptionalNumberJson(o), max) == Success(o)
  {
    NumberReadsBack(o, max);
  }

  /** A number the numeric readers wrote reads back as itself. */
  lemma NumberReadsBack(o: Option<nat>, max: nat)
    requires o.Some? ==> o.value <= max
    ensures ReadOptionalUnsigned(ScalarOf(OptionalNumberJson(o)), max) == Success(o)
  {
  }

  /** A record with only the required fields decodes with every optional
      field `None`. */
  lemma OptionalFieldsDefault(tableSchema: string, tableName: string, indexName: string, columnName: string,
                              nullable: string, indexType: string)
    ensures DecodeIndex(Obj(map[
      "table_schema" := Str(tableSchema), "table_name" := Str(tableName), "index_name" := Str(indexName),
      "column_name" := Str(columnName), "nullable" := Str(nullable), "index_type" := Str(indexType)])) ==
      Success(IndexInfo(tableSchema, tableName, indexName, columnName, None, None, None, None, None,
                        nullable, indexType, None))
  {
  }

  /** A record without `table_schema` does not decode; when its other values
      are all readable, the error names `table_schema`, the first field
      declared. */
  lemma SchemaIsRequired(v: Json)
    requires v.Obj? && "table_schema" !in v.fields
    ensures DecodeIndex(v).Failure?
    ensures IndexValuesReadable(v.fields) ==> DecodeIndex(v) == Failure(MissingField("table_schema"))
  {
  }

  /** An index array that stops after `seq_in_index` is short of
      `nullable`: the invalid-length error names position 9, not the five
      elements it holds. */
  lemma ShortArrayLacksNullable(tableSchema: string, tableName: string, indexName: string, columnName: string,
                                seqInIndex: nat)
    requires seqInIndex <= U32_MAX
    ensures DecodeIndex(Arr([Str(tableSchema), Str(tableName), Str(indexName), Str(columnName),
                            Number(seqInIndex)])) == Failure(InvalidLength(9))
  {
  }

  /** `create_index_info`: the same envelope rules as for columns. */
  function CreateIndexInfo(doc: Json): (r: Result<seq<IndexInfo>, string>)
    ensures DecodeArray(doc, DecodeIndex).Success? ==> r == Success(DecodeArray(doc, DecodeIndex).value)
    ensures r.Failure? ==> (r.error == "Cannot find data" ||
      (|r.error| >= |ParseErrorPrefix| && r.error[..|ParseErrorPrefix|] == ParseErrorPrefix))
  {
    CreateInfo(doc, DecodeIndex)
  }

  // ---------------------------------------------------------------------------
  // The builder

  /** `IndexInfo::builder()`: every string empty, every option `None`. */
  function Builder(): (r: IndexInfo)
    ensures r.tableSchema == r.tableName == r.indexName == r.columnName == r.nullable == r.indexType == ""
    ensures r.seqInIndex.None? && r.collation.None? && r.cardinality.None? && r.subPart.None?
    ensures r.packed.None? && r.nonUnique.None?
  {
    IndexInfo("", "", "", "", None, None, None, None, None, "", "", None)
  }

  // Each setter sets its own field and leaves every other one as it was.

  function WithTableSchema(x: IndexInfo, v: string): (r: IndexInfo)
    ensures r.tableSchema == v && r.(tableSchema := x.tableSchema) == x
  {
    x.(tableSchema := v)
  }

  function WithTableName(x: IndexInfo, v: string): (r: IndexInfo)
    ensures r.tableName == v && r.(tableName := x.tableName) == x
  {
    x.(tableName := v)
  }

  function WithIndexName(x: IndexInfo, v: string): (r: IndexInfo)
    ensures r.indexName == v && r.(indexName := x.indexName) == x
  {
    x.(indexName := v)
  }

  function WithColumnName(x: IndexInfo, v: string): (r: IndexInfo)
    ensures r.columnName == v && r.(columnName := x.columnName) == x
  {
    x.(columnName := v)
  }

  function WithSeqInIndex(x: IndexInfo, v: U32): (r: IndexInfo)
    ensures r.seqInIndex == Some(v) && r.(seqInIndex := x.seqInIndex) == x
  {
    x.(seqInIndex := Some(v))
  }

  function WithCollation(x: IndexInfo, v: string): (r: IndexInfo)
    ensures r.collation == Some(v) && r.(collation := x.collation) == x
  {
    x.(collation := Some(v))
  }

  function WithCardinality(x: IndexInfo, v: U64): (r: IndexInfo)
    ensures r.cardinality == Some(v) && r.(cardinality := x.cardinality) == x
  {
    x.(cardinality := Some(v))
  }

  function WithSubPart(x: IndexInfo, v: U64): (r: IndexInfo)
    ensures r.subPart == Some(v) && r.(subPart := x.subPart) == x
  {
    x.(subPart := Some(v))
  }

  function WithPacked(x: IndexInfo, v: string): (r: IndexInfo)
    ensures r.packed == Some(v) && r.(packed := x.packed) == x
  {
    x.(packed := Some(v))
  }

  function WithNonUnique(x: IndexInfo, v: U8): (r: IndexInfo)
    ensures r.nonUnique == Some(v) && r.(nonUnique := x.nonUnique) == x
  {
    x.(nonUnique := Some(v))
  }

  function WithNullable(x: IndexInfo, v: string): (r: IndexInfo)
    ensures r.nullable == v && r.(nullable := x.nullable) == x
  {
    x.(nullable := v)
  }

  function WithIndexType(x: IndexInfo, v: string): (r: IndexInfo)
    ensures r.indexType == v && r.(indexType := x.indexType) == x
  {
    x.(indexType := v)
  }

  /** The fields `build` requires, in the order it checks them, with their
      names. */
  function RequiredFields(x: IndexInfo): seq<(string, string)>
  {
    [("table_schema", x.tableSchema), ("table_name", x.tableName), ("index_name", x.indexName),
     ("column_name", x.columnName), ("nullable", x.nullable), ("index_type", x.indexType)]
  }

  /** Field `i` is the first required field that is empty. */
  predicate FirstEmpty(fields: seq<(string, string)>, i: int)
  {
    0 <= i < |fields| && fields[i].1 == "" && forall j :: 0 <= j < i ==> fields[j].1 != ""
  }

  /** The name of the first empty field, if any. */
  function FirstEmptyName(fields: seq<(string, string)>): (r: Option<string>)
    ensures r.None? <==> forall i :: 0 <= i < |fields| ==> fields[i].1 != ""
  {
    if |fields| == 0 then None
    else if fields[0].1 == "" then Some(fields[0].0)
    else FirstEmptyName(fields[1..])
  }

  /** `FirstEmptyName` names the field `FirstEmpty` picks out. */
  lemma {:induction false} FirstEmptyNameIsFirst(fields: seq<(string, string)>, i: int)
    requires FirstEmpty(fields, i)
    ensures FirstEmptyName(fields) == Some(fields[i].0)
  {
    if i > 0 {
      assert fields[0].1 != "";
      FirstEmptyNameIsFirst(fields[1..], i - 1);
    }
  }

  /** `build`: the record unchanged when every required field is non-empty,
      and otherwise an error naming the first one that is empty. */
  function Build(x: IndexInfo): (r: Result<IndexInfo, string>)
    ensures r == match FirstEmptyName(RequiredFields(x))
                 case None => Success(x)
                 case Some(name) => Failure(name + " is required")
  {
    RequiredInOrder(x);
    if x.tableSchema == "" then Failure("table_schema" + " is required")
    else if x.tableName == "" then Failure("table_name" + " is required")
    else if x.indexName == "" then Failure("index_name" + " is required")
    else if x.columnName == "" then Failure("column_name" + " is required")
    else if x.nullable == "" then Failure("nullable" + " is required")
    else if x.indexType == "" then Failure("index_type" + " is required")
    else Success(x)
  }

  /** `FirstEmptyName` over the required fields, one field at a time. */
  lemma RequiredInOrder(x: IndexInfo)
    ensures FirstEmptyName(RequiredFields(x)) ==
      if x.tableSchema == "" then Some("table_schema")
      else if x.tableName == "" then Some("table_name")
      else if x.indexName == "" then Some("index_name")
      else if x.columnName == "" then Some("column_name")
      else if x.nullable == "" then Some("nullable")
      else if x.indexType == "" then Some("index_type")
      else None
  {
    var f := RequiredFields(x);
    var f1 := [("table_name", x.tableName), ("index_name", x.indexName), ("column_name", x.columnName),
               ("nullable", x.nullable), ("index_type", x.indexType)];
    var f2 := [("index_name", x.indexName), ("column_name", x.columnName), ("nullable", x.nullable),
               ("index_type", x.indexType)];
    var f3 := [("column_name", x.columnName), ("nullable", x.nullable), ("index_type", x.indexType)];
    var f4 := [("nullable", x.nullable), ("index_type", x.indexType)];
    var f5 := [("index_type", x.indexType)];
    assert f[1..] == f1 && f1[1..] == f2 && f2[1..] == f3;
    assert f3[1..] == f4 && f4[1..] == f5 && f5[1..] == [];
    assert FirstEmptyName(f) == if x.tableSchema == "" then Some("table_schema") else FirstEmptyName(f1);
    assert FirstEmptyName(f1) == if x.tableName == "" then Some("table_name") else FirstEmptyName(f2);
    assert FirstEmptyName(f2) == if x.indexName == "" then Some("index_name") else FirstEmptyName(f3);
    assert FirstEmptyName(f3) == if x.columnName == "" then Some("column_name") else FirstEmptyName(f4);
    assert FirstEmptyName(f4) == if x.nullable == "" then Some("nullable") else FirstEmptyName(f5);
    assert FirstEmptyName(f5) == if x.indexType == "" then Some("index_type") else None;
  }

  /** `build` succeeds iff every required field is set, and its error names
      the first one that is not. */
  lemma BuildChecksRequiredFields(x: IndexInfo)
    ensures Build(x).Success? <==> forall i :: 0 <= i < 6 ==> RequiredFields(x)[i].1 != ""
    ensures Build(x).Success? ==> Build(x).value == x
    ensures forall i :: FirstEmpty(RequiredFields(x), i) ==>
      Build(x) == Failure(RequiredFields(x)[i].0 + " is required")
  {
    forall i | FirstEmpty(RequiredFields(x), i)
      ensures Build(x) == Failure(RequiredFields(x)[i].0 + " is required")
    {
      FirstEmptyNameIsFirst(RequiredFields(x), i);
    }
  }

  /** Building an untouched builder fails on the first required field, so
      that the fallback record of `compare_index_maps` cannot be built. */
  lemma EmptyBuilderFails()
    ensures Build(Builder()) == Failure("table_schema" + " is required")
  {
  }

  /** Setting one required field to "" makes `build` report that field
      whenever every field checked before it is set. */
  lemma EmptiedFieldIsReported(x: IndexInfo)
    requires x.tableSchema != "" && x.tableName != "" && x.indexName != ""
    ensures Build(WithColumnName(x, "")) == Failure("column_name" + " is required")
  {
  }

  /** The chain of setters of the builder test, and what `build` returns. */
  lemma BuilderChainExample()
    ensures Build(WithNonUnique(WithCardinality(WithCollation(WithSeqInIndex(WithIndexType(WithNullable(
              WithColumnName(WithIndexName(WithTableName(WithTableSchema(Builder(), "public"), "users"),
              "idx_users_email"), "email"), "YES"), "BTREE"), 1), "A"), 100), 0)) ==
      Success(IndexInfo("public", "users", "idx_users_email", "email", Some(1), Some("A"), Some(100), None, None,
                        "YES", "BTREE", Some(0)))
  {
  }
}
