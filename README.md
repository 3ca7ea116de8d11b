# database_diff — a verified model of the schema and index differ

database_diff compares two snapshots of a MariaDB/MySQL schema and writes the SQL
migration statements that turn one into the other. Each snapshot is the JSON a database
client exports from `information_schema`. This repository models its engine in two
halves, following the program's own layout:

- **Columns** (`src/lib.rs`):
  - reading the column records, including the numeric-or-string `character_maximum_length`
    and the choice between a flat array and the client's envelope array;
  - grouping the records into table key `schema.table` → column name → record;
  - classifying tables and columns as present on one side only or differing;
  - rendering column definitions, and collecting the statements under ten category keys;
  - the abort-on-first-error policy of `compare_schemas`.
- **Indexes** (`src/index.rs`):
  - the three numeric-or-string readers (`u32`, `u64`, `u8`);
  - the `IndexInfo` builder and its `build` validation;
  - grouping into table key `` `schema`.table `` → insertion-ordered index name → records;
  - the list comparison, insensitive to order except among records with the same
    `(seq_in_index, column_name)` (stable sort by that key, then field-by-field);
  - classification of indexes, and the statements under six category keys;
  - the empty-on-error policy of `compare_indexs`.

Modules:

| module | file | contents |
|---|---|---|
| `Wrappers`, `Seqs` | wrappers.dfy, seqs.dfy | `Option`, `Result`, first/last of a sequence |
| `Text` | text.dfy | `split`, `join`, decimal digits, byte-lexicographic string order |
| `NumericField` | numeric.dfy | Rust's `str::parse::<uN>` and the numeric-or-string field readers |
| `JsonValue`, `Envelope` | json.dfy, envelope.dfy | decoded JSON values, what `serde` derive reads from them (object and array forms), the envelope document |
| `Bags` | bags.dfy | the multiset union of per-key bags, the tool for stating unordered results |
| `StatementMap` | statement_map.dfy | the `get_mut`-or-`insert` accumulation of statements under a key |
| `Columns`, `ColumnDiff`, `ColumnSql` | columns.dfy, column_diff.dfy, column_sql.dfy | the column half |
| `Indexes`, `IndexGrouping`, `IndexOrder`, `IndexDiffs`, `IndexSql`, `IndexSqlExamples` | indexes.dfy … index_sql_examples.dfy | the index half |

**Unordered iteration.** The source iterates Rust `HashMap`s and `HashSet`s, and their
order is unspecified.
- Each such loop is a `method` that picks an arbitrary remaining key (`var k :| k in pending`).
- Its result is promised as a multiset: `multiset(list) == Spec(...)`, where `Spec` sums
  per-key bags.
- The promise therefore holds for every iteration order.

**Modelling choices.**
- Loops that accumulate statements or records are methods with loop invariants, proved
  against pure specification functions. Properties are lemmas about those functions.
- `compare_index_lists` keeps its in-place sort, on a Dafny `array`.
- Integers are unbounded. Each reader's range limit (`u8`, `u32`, `u64`) is stated explicitly.

## Model

| member | source | states |
|---|---|---|
| Text.Split | src/lib.rs:206-228 | `split` yields at least one piece, no piece holds the separator, and joining the pieces with the separator gives back the input |
| Text.SplitOfJoin | src/lib.rs:209 | splitting pieces that are free of the separator, after joining them with it, gives back the pieces |
| Text.SplitHasSeveralPieces | src/lib.rs:210 | the split has two or more pieces exactly when the separator occurs, which decides the `parts.len() >= 2` branch |
| Text.Join | src/lib.rs:248-252 | joining no statements gives the empty text and joining one gives that statement (the first `insert` of a key) |
| Text.JoinStartsWith | src/lib.rs:248-252 | the joined text begins with the first statement, and with the first statement and a separator when there are two or more |
| Text.LessString | src/index.rs:539-540 | the `String` order: a string is never below itself, and a proper prefix is below the longer string |
| Text.EndsWithAppend | src/lib.rs:247 | a `format!` concatenation begins with its first part and ends with its last |
| Text.LessStringTotal | src/index.rs:539-540 | the byte-lexicographic order on `String` is total (with irreflexivity and transitivity below it is a strict total order) |
| Text.LessStringTransitive | src/index.rs:539-540 | the string order used for the `column_name` tie-break is transitive |
| Text.LessStringIrreflexive | src/index.rs:539-540 | no string is below itself |
| Text.NatToString | src/lib.rs:430 | the decimal rendering of a number is a non-empty digit string whose value is that number |
| NumericField.ScanDigits | src/lib.rs:25 | scanning digits succeeds iff all are ASCII digits and the value stays within the bound; overflow is reported as positive overflow |
| NumericField.ParseUnsigned | src/lib.rs:25 | `str::parse::<uN>` succeeds iff the text is an unsigned numeral (an optional `+` and digits) within range, and gives its value; the empty text fails as "empty" |
| NumericField.ReadOptionalUnsigned | src/lib.rs:8-31 | the numeric-or-string reader: null, `""` and `"null"` give `None`; a number passes through iff in range; any other string gives `Some(value)` iff it is a numeral within range, and an error otherwise |
| NumericField.RenderedValueReadsBack | src/index.rs:8-83 | any in-range number written as a decimal string (with or without `+`) reads back as itself |
| NumericField.OnePastTheBoundIsRefused | src/index.rs:8-83 | one more than the type's maximum is refused, as a number and as a string (positive overflow) |
| NumericField.NonNumeralIsRefused | src/lib.rs:25 | a string that is not a numeral (and not `""` or `"null"`) is an error from the parse, not an untagged-variant mismatch |
| NumericField.NumeralReads | src/lib.rs:21-26 | a numeral reads as its value when within range, and as a positive-overflow error otherwise |
| NumericField.CharacterLengthExamples | tests/schema_tests.rs:202-285 | `255`, `"255"`, `4294967295` and `"4294967295"` read as those lengths into a `u64`, and null reads as `None` |
| NumericField.U32ReaderExamples | src/index.rs:8-31 | the `u32` reader accepts `"4294967295"` and refuses `"4294967296"` with positive overflow |
| NumericField.U8ReaderExamples | src/index.rs:60-83 | the `u8` reader accepts `0`, refuses the number `256` (no untagged variant matches) and refuses `"abc"` as an invalid digit |
| JsonValue.ScalarOf | src/lib.rs:19 | a null, string or number field is seen by the untagged reader as null, string or number respectively |
| JsonValue.TextValue | src/lib.rs:36-40 | a `String` value reads iff it is a JSON string, giving that string; any other value is a type error naming the field |
| JsonValue.OptionalTextValue | src/lib.rs:41 | an `Option<String>` value is `None` iff it is null and `Some(s)` iff it is the string `s`; any other value is an error |
| JsonValue.NumberValue | src/lib.rs:42-43 | a numeric-or-string value gives the reader's result, never above the bound, and the reader's error tagged with the field name |
| JsonValue.TextAt | src/lib.rs:34-44 | the first pass over an object: an absent key is "not found" and is not yet an error; a present key succeeds iff it holds a string |
| JsonValue.OptionalTextAt | src/lib.rs:41 | the same for an `Option<String>` field: a present value succeeds iff it is null or a string |
| JsonValue.NumberAt | src/lib.rs:42-43 | the same for a numeric-or-string field: a present value succeeds iff the reader accepts it, never above the bound |
| JsonValue.Required | src/lib.rs:34-44 | the second pass: a field found gives its value, and a field not found fails as "missing field" with its name |
| JsonValue.RequiredString | src/lib.rs:36-40 | a required `String` field succeeds iff the key is present and holds a string, with that string; a missing key is a "missing field" error |
| JsonValue.OptionalString | src/index.rs:93-100 | an `Option<String>` field with `default` is `None` iff absent or null, and `Some(s)` iff it holds the string `s` |
| JsonValue.NumericOrString | src/index.rs:91-104 | a numeric-or-string field: absent gives `None` with `default` and "missing field" without it; present gives the reader's result, with the field name on an error; a value never exceeds the bound |
| JsonValue.TextElement | src/lib.rs:34-44 | the array form: a `String` field reads element `i` as a string; an array too short for it is an invalid-length error carrying the field's position `i`, as serde's derived `visit_seq` reports it |
| JsonValue.OptionalTextElement | src/index.rs:93-100 | an `Option<String>` element reads as null or a string; past the end it is `None` for a `default` field and otherwise an invalid-length error carrying the field's position |
| JsonValue.NumberElement | src/index.rs:91-104 | a numeric-or-string element goes through the reader; past the end it is `None` for a `default` field and otherwise an invalid-length error carrying the field's position; never above the bound |
| JsonValue.Finished | src/lib.rs:34-44 | once every field is read, an array with more elements than the struct has fields is an error (trailing elements), and otherwise the record is the result |
| JsonValue.DecodeArray | src/lib.rs:113 | decoding `Vec<T>` succeeds iff the value is an array and every element decodes, giving the elements' values in order; a non-array is "not an array" |
| JsonValue.DecodeEach | src/lib.rs:113 | decoding a list of elements succeeds iff every element does, in order; a failure is the first failing element's error |
| Envelope.DataValue | src/lib.rs:53 | a `data` value is `None` iff it is null; otherwise it is read iff it decodes as an array of records, and then holds them |
| Envelope.DataAt | src/lib.rs:53 | an absent `data` key is "not found"; a present one is read as above |
| Envelope.DecodeEnvelopeFields | src/lib.rs:46-54 | an envelope object decodes iff every value present has its field's type and `type` is present; `type` is the object's string, `version` is set iff a string is there, `data` is `None` iff absent or null and otherwise the decoded array; with every value readable, a missing `type` is reported as such |
| Envelope.DecodeEnvelopeItems | src/lib.rs:46-54 | an envelope array decodes iff it has exactly six elements: a string, four strings-or-nulls and a readable `data`; `type`, `version` and `data` are taken by position |
| Envelope.DecodeEnvelope | src/lib.rs:46-54 | an object is read by field name, an array by position, and any other value is an error |
| Envelope.FirstDataFrom | src/lib.rs:116-119 | scanning from position `i` finds data iff some later envelope has some, and returns the first such envelope's data; otherwise "Cannot find data" |
| Envelope.SelectData | src/lib.rs:116-121 | envelope selection skips element 0 and returns the data of the first later element that has any, else fails with "Cannot find data" |
| Envelope.CreateInfo | src/lib.rs:110-125 | a flat array wins; otherwise an envelope array goes through selection; otherwise the error is "Error parsing first JSON: " followed by the envelope parse error |
| Envelope.OnlyFirstEnvelopeHasData | src/lib.rs:116 | data carried only by element 0 is never found: the result is "Cannot find data" |
| Columns.DecodeColumnFields | src/lib.rs:34-44 | a column object decodes iff every value present has its field's type and every field but `column_default` is present; the five strings are the object's, `column_default` is `Some(s)` iff the string `s` is there (absent or null give `None`), and the length is the reader's result; a mistyped value is reported (wrong type or bad number) before any missing field, and with every value readable the missing field named is one the object lacks |
| Columns.DecodeColumnItems | src/lib.rs:34-44 | a column array decodes iff it has exactly seven elements of the fields' types in declaration order, and the record holds them by position; a shorter array is an invalid-length error and a longer one a trailing-elements error |
| Columns.DecodeColumn | src/lib.rs:34-44 | an object is read by field name, an array by position, and any other value is an error |
| Columns.DecodeColumnJson | src/lib.rs:34-44 | encoding a column record as JSON and decoding it gives back the record |
| Columns.DecodeColumnRow | src/lib.rs:34-44 | a record written as the array of its values in declaration order reads back as itself |
| Columns.WrongTypeBeforeMissing | src/lib.rs:34-44 | `{"table_name": 5}` fails as a wrong type for `table_name`, not as the missing `table_schema` |
| Columns.CreateColumnInfo | src/lib.rs:110-125 | a flat array of column records is read as is; every failure is "Cannot find data" or starts with "Error parsing first JSON: " |
| Columns.FlatDocumentOfArrays | src/lib.rs:110-113 | a flat document whose one element is the array `["public","users","id","int","NO",null,null]` reads as that one column record |
| Columns.TableKey | src/lib.rs:132 | the table key joins schema and table with a dot; for dot-free names it splits back into the record's schema and table |
| Columns.SplitTableKey | src/lib.rs:206-228 | neither half has a dot; a key with a dot begins with the two halves joined by a dot; a key without one splits as `("public", key)` |
| Columns.SplitKeyStartsWith | src/lib.rs:209-210 | the key has two or more pieces iff it has a dot, and then begins with the first two joined by a dot |
| Columns.QualifiedNameSplits | src/lib.rs:206-213 | dot-free schema and table joined by a dot split back into themselves |
| Columns.TableNameOf | src/lib.rs:193 | the table name of a key is the table half of its split, and the whole key when it has no dot |
| Columns.SplitTableKeyRoundTrip | src/lib.rs:206-228 | for dot-free schema and table, splitting the key `schema.table` gives back `(schema, table)`, and the table name taken at line 193 is `table` |
| Columns.SplitDotlessKey | src/lib.rs:213 | a key without a dot splits as `("public", key)`, and its table name is the key |
| Columns.DottedNamesCollide | src/lib.rs:132 | schema `a.b` with table `c` and schema `a` with table `b.c` share the key `a.b.c`, which splits as `("a", "b")` |
| Columns.BuildSchemaMap | src/lib.rs:127-142 | the loop builds the grouping: every key comes from a record, every record is filed under `schema.table` and its column name, and the last record for a slot wins |
| Columns.GroupsColumnsStep | src/lib.rs:131-139 | inserting one more record keeps the grouping specification |
| Columns.TablesStep | src/lib.rs:136-137 | one insert adds exactly the record's table key to the map's keys |
| Columns.ColumnsStep | src/lib.rs:136-139 | one insert adds exactly the record's column name to its table's columns |
| Columns.LastStep | src/lib.rs:139 | after one insert, every slot holds the last record seen for it |
| Columns.BuiltMapIsKeyed | src/lib.rs:132-139 | every stored record sits under its own table key and its own column name |
| Columns.GroupingIsUnique | src/lib.rs:127-142 | the specification determines the map: two maps that both group the same records are equal |
| Columns.SameTable | src/lib.rs:127-142 | two groupings of the same records agree on each table |
| Columns.SameTables | src/lib.rs:127-142 | two groupings of the same records have the same table keys |
| Columns.SameColumns | src/lib.rs:127-142 | two groupings of the same records agree on each table's column names |
| Columns.SameRecord | src/lib.rs:139 | two groupings of the same records hold the same record in each slot |
| Columns.NoLaterRecord | src/lib.rs:139 | the record kept for a slot is the last one in the input for that slot |
| Columns.GroupsTwoColumns | tests/schema_tests.rs:6-54 | two columns of one table give one table key holding both columns |
| Bags.Pick | src/lib.rs:148-149 | the key a walk over an unordered `HashSet` or `HashMap` takes next is some member of the keys left |
| Bags.Sum | src/lib.rs:152-159 | what a walk over an unordered key set pushes onto a `Vec`, told as a multiset: the union of every key's contribution |
| Bags.SumPick | src/lib.rs:169 | the walk over `common_tables` may take any key first and gives the same multiset, so the unspecified `HashSet` order does not change the contents |
| Bags.SumInsert | src/lib.rs:169-203 | one more key walked adds exactly its contribution, the loop step over the shared tables |
| Bags.SumSingleton | src/lib.rs:169 | a walk over one key pushes just that key's contribution |
| Bags.SumMember | src/lib.rs:177-184 | a record is among what the walk pushed iff some walked key contributes it |
| Bags.SumOfEmpties | src/index.rs:279-334 | when no key contributes anything, as for a map compared with itself, the walk pushes nothing |
| Bags.SumCorrespond | src/lib.rs:187-203 | walks whose per-key contributions match through a renaming (first and second swapped) give sums that match the same way |
| Bags.SumCongruent | src/index.rs:337-355 | two descriptions of each key's contribution that agree give the same pushed contents |
| Bags.SumUpdate | src/index.rs:297-312 | pushing more records for one key of the walk adds as much to the whole |
| Bags.MoveOne | src/lib.rs:169 | a key leaving the pending part of the `HashSet` walk joins the done part |
| Bags.EmptyBag | src/index.rs:367-368 | a `Vec` whose contents are empty is empty, the `is_empty` test before an SQL block |
| ColumnDiff.TablesOnlyInList | src/lib.rs:152-159 | the list of tables on one side only is, as a multiset, the split key of every table key missing from the other side |
| ColumnDiff.ColumnsOnlyInTableList | src/lib.rs:177-184 | within a shared table, the columns of one side only are exactly the records under names missing from the other side |
| ColumnDiff.DifferencesInTableList | src/lib.rs:187-201 | within a shared table, one difference per shared column name whose records differ, holding both records |
| ColumnDiff.CompareCommonTables | src/lib.rs:169-203 | over all shared tables, the three pushed lists are the per-table bags summed |
| ColumnDiff.CompareSchemaMaps | src/lib.rs:144-237 | `compare_schema_maps` produces each of its five lists as the specified multiset |
| ColumnDiff.ColumnsOnlyOverStep | src/lib.rs:169-184 | one more shared table adds its own one-side columns and nothing else |
| ColumnDiff.DifferencesOverTablesStep | src/lib.rs:169-201 | one more shared table adds its own differences, named by the part of the key after the first dot |
| ColumnDiff.DifferencesStep | src/lib.rs:187-201 | one more column name adds one difference iff its two records differ |
| ColumnDiff.SameSchemaHasNoDifferences | tests/schema_tests.rs:57-90 | comparing a map with itself gives five empty lists |
| ColumnDiff.ComparisonIsSymmetric | src/lib.rs:152-201 | swapping the maps swaps the one-side lists (as multisets) and exchanges `first` and `second` in every difference |
| ColumnDiff.DifferencesInTableSwap | src/lib.rs:187-201 | per table, swapping the sides turns each difference around |
| ColumnDiff.InTablesOnlyIn | src/lib.rs:152-159 | a pair is reported iff some key of the first map is absent from the second and splits to that pair |
| ColumnDiff.InColumnsOnlyIn | src/lib.rs:169-179 | a record is reported as first-only iff it sits in a shared table under a column name the other side lacks, so tables on one side only add no column entries |
| ColumnDiff.OnlyColumnHasSource | src/lib.rs:177-179 | every reported first-only column comes from a shared table and a name the other side lacks |
| ColumnDiff.OnlyColumnIsReported | src/lib.rs:177-179 | every column of a shared table whose name the other side lacks is reported |
| ColumnDiff.InDifferences | src/lib.rs:187-201 | a difference is reported iff a shared table and shared column name hold unequal records, with the table name after the first dot |
| ColumnDiff.DifferenceHasSource | src/lib.rs:187-201 | every reported difference has such a table and column |
| ColumnDiff.DifferenceInTableHasSource | src/lib.rs:191-200 | every difference of a table names a shared column whose two records differ, and holds them |
| ColumnDiff.DifferenceIsReported | src/lib.rs:191-200 | every shared column whose records differ is reported |
| ColumnDiff.OneSharedTable | src/lib.rs:169-203 | with one shared table, nothing is table-only and the column results are that table's |
| ColumnDiff.UsersMaps | tests/schema_tests.rs:93-115 | the test records group into one `public.users` table per side |
| ColumnDiff.UsersComparisonExample | tests/schema_tests.rs:93-157 | the test's comparison: no table-only entries, `name` only in the first, `email` only in the second, and one difference for `id` (integer vs bigint) in table `users` |
| ColumnDiff.UsersColumnsExample | tests/schema_tests.rs:93-157 | per table, `name` is first-only, `email` is second-only and `id` differs |
| ColumnDiff.UsersTableName | src/lib.rs:193 | the table name of `public.users` is `users` |
| ColumnDiff.OnlyName | tests/schema_tests.rs:93-157 | only `name` is in the first table alone |
| ColumnDiff.OnlyEmail | tests/schema_tests.rs:93-157 | only `email` is in the second table alone |
| ColumnDiff.OnlyOneDifference | tests/schema_tests.rs:93-157 | only `id` differs |
| ColumnDiff.OnlyOneColumn | src/lib.rs:177-179 | a single missing name contributes exactly its record |
| ColumnSql.Escape | src/lib.rs:448 | quote doubling never shortens a value, and leaves a value without quotes unchanged |
| ColumnSql.EscapeAppend | src/lib.rs:448 | `replace("'", "''")` distributes over concatenation |
| ColumnSql.QuotedReadsBack | src/lib.rs:448 | a default quoted the engine's way reads back, under SQL's doubled-quote rule, as the original value, with the literal ending at the closing quote |
| ColumnSql.QuotingIsInjective | src/lib.rs:448 | two values with the same escaped form are equal |
| ColumnSql.ReplaceQuotes | src/lib.rs:448 | the loop that doubles quotes computes the escaping function |
| ColumnSql.TypeClause | src/lib.rs:425-432 | the type clause begins with the data type, is exactly the data type iff no length is shown, and ends with `)` when one is |
| ColumnSql.NullClause | src/lib.rs:435-439 | the nullability clause is ` NOT NULL` iff `is_nullable == "NO"`, and otherwise ` NULL` |
| ColumnSql.DefaultClause | src/lib.rs:442-450 | the default clause is empty iff there is no default, otherwise begins with ` DEFAULT `, and is ` DEFAULT NULL` for the default `NULL` |
| ColumnSql.ColumnDefinition | src/lib.rs:424-453 | the definition begins with the type clause followed by the nullability clause |
| ColumnSql.FormatColumnDefinition | src/lib.rs:424-453 | the step-by-step `push_str` construction yields the column definition |
| ColumnSql.TypeComesFirst | src/lib.rs:425-432 | the definition starts with the type, and the `(len)` suffix appears iff the type is exactly `varchar` or `char` and the length is present; that length is written in decimal and reads back |
| ColumnSql.NullabilityFollowsType | src/lib.rs:435-439 | ` NOT NULL` follows the type clause iff `is_nullable == "NO"`, and otherwise ` NULL` does |
| ColumnSql.DefaultIsFaithful | src/lib.rs:442-450 | no default adds nothing; `"NULL"` adds ` DEFAULT NULL`; an all-digit default (including `""`) is added bare; any other default is single-quoted with quotes doubled |
| ColumnSql.DropTableSql | src/lib.rs:247 | `DROP TABLE schema.table;`: 13 characters around the key, which sits between the prefix and the `;` and, for dot-free names, splits back into the pair |
| ColumnSql.CreateTableSql | src/lib.rs:260 | `-- CREATE TABLE schema.table (...);`: 24 characters around the key, which sits between the prefix and ` (...);` and, for dot-free names, splits back into the pair |
| ColumnSql.DropColumnSql | src/lib.rs:273-276 | exactly `ALTER TABLE <key> DROP COLUMN <column>;`: the prefix and the suffix, with a length that leaves nothing between them |
| ColumnSql.AddColumnSql | src/lib.rs:290-293 | exactly `ALTER TABLE <key> ADD COLUMN <column> <definition>;`: the prefix and the suffix, with a length that leaves nothing between them |
| ColumnSql.ModifyColumnSql | src/lib.rs:308-311 | exactly `ALTER TABLE <schema>.<table> MODIFY COLUMN <column> <definition>;`, with the rendered record's schema and definition and the difference's table and column: the prefix and the suffix, with a length that leaves nothing between them |
| ColumnSql.ModifyToSecondSql | src/lib.rs:305-311 | the Schema 1 modify statement takes the schema and the definition from `second` |
| ColumnSql.ModifyToFirstSql | src/lib.rs:383-389 | the Schema 2 modify statement takes the schema and the definition from `first` |
| ColumnSql.SchemaCategories | src/lib.rs:239-399 | ten categories, where each schema-1 category has as many statements as its schema-2 mirror (both come from the same list) |
| ColumnSql.SchemaLabelsDistinct | src/lib.rs:246-385 | the ten category keys are pairwise distinct |
| ColumnSql.LabelsDiffer | src/lib.rs:246-385 | the ten keys' lengths and their distinguishing characters, from which distinctness follows |
| ColumnSql.EmitAddColumns | src/lib.rs:286-300 | the add-column loop files each column's `ALTER TABLE … ADD COLUMN name definition;` under the key, in list order |
| ColumnSql.EmitModifyColumns | src/lib.rs:303-320 | the modify loop files `MODIFY COLUMN` statements rendered from `second` for Schema 1 and from `first` (src/lib.rs:381-398) for Schema 2 |
| ColumnSql.GenerateSqlDiff | src/lib.rs:239-399 | each of the ten keys is present iff its source list is non-empty, and holds that list's statements joined by newlines in list order |
| ColumnSql.EmptyDiffHasNoStatements | tests/generate_sql_diff_comprehensive_test.rs:6-18 | an empty diff gives an empty statement map |
| ColumnSql.FullDiffHasTenKeys | tests/generate_sql_diff_comprehensive_test.rs:147-221 | a diff with all five lists non-empty gives exactly ten keys |
| ColumnSql.CollidingStatementsAreKept | src/lib.rs:244-253 | two tables only in the first schema give one key whose value holds both drop statements, joined by a newline (nothing is overwritten) |
| ColumnSql.TableDifferencesExample | tests/generate_sql_diff_comprehensive_test.rs:21-51 | one table on each side gives the four table keys with the expected drop and create statements |
| ColumnSql.DropOldTable | tests/generate_sql_diff_comprehensive_test.rs:45 | the drop statement of `public.old_table` |
| ColumnSql.CreateNewTable | tests/generate_sql_diff_comprehensive_test.rs:49 | the commented create statement of `public.new_table` |
| ColumnSql.IntegerDefaultIsBare | tests/generate_sql_diff_comprehensive_test.rs:97 | `integer NOT NULL DEFAULT 0`: a digit default is not quoted |
| ColumnSql.QuotedEmptyDefault | tests/generate_sql_diff_comprehensive_test.rs:141 | a `varchar(100)` whose default is two quote characters renders them doubled inside quotes |
| ColumnSql.NullableVarchar | tests/generate_sql_diff_comprehensive_test.rs:143 | `varchar(255) NULL` |
| ColumnSql.DecimalDefaultIsQuoted | tests/generate_sql_diff_key_collision.rs:76 | the default `0.00` is not all digits and is therefore quoted |
| ColumnSql.CompareSchemas | src/lib.rs:75-108 | the first side that fails to read returns its error; otherwise the result is the comparison of the two groupings and its statements |
| StatementMap.WithStatements | src/lib.rs:248-252 | filing statements under a key leaves other keys alone, adds the key iff there is a statement, and a new key holds the statements joined by newlines |
| StatementMap.WithStatement | src/lib.rs:248-252 | one `get_mut`-or-`insert` step is filing a list of one statement |
| StatementMap.WithStatementsSnoc | src/lib.rs:248-252 | filing one more statement appends it after a newline |
| StatementMap.Rendered | src/lib.rs:245-247 | rendering keeps the list's length and order |
| StatementMap.EmitStatements | src/lib.rs:244-254 | the accumulation loop files the rendered statements under the key |
| StatementMap.EmitBlock | src/lib.rs:244-254 | an `if !list.is_empty()` block files the whole list (nothing when it is empty) |
| StatementMap.EmitStep | src/lib.rs:248-252 | one loop iteration files one more rendered statement |
| StatementMap.CategoryStep | src/lib.rs:239-399 | with distinct keys, filing the next category keeps the earlier categories' values |
| StatementMap.CategoryValue | src/lib.rs:239-399 | a non-empty category's key is present with its joined statements |
| StatementMap.EmitAllSnoc | src/lib.rs:239-399 | the blocks in sequence file the categories one after the other |
| StatementMap.EmitAllDescribes | src/lib.rs:239-399 | filing distinct categories in order gives each one's key iff it is non-empty, with its joined statements |
| StatementMap.EmitPrefixDescribes | src/lib.rs:239-399 | the same for every prefix of the categories |
| StatementMap.NoStatementsNoKeys | tests/generate_sql_diff_comprehensive_test.rs:6-18 | no statements at all give an empty map |
| StatementMap.EveryCategoryHasItsKey | src/lib.rs:239-399 | all categories non-empty gives exactly their keys, one per category |
| Indexes.DecodeIndexFields | src/index.rs:85-105 | an index object decodes only when the six required fields are present |
| Indexes.DecodeIndexFieldsSucceeds | src/index.rs:85-105 | an index object decodes iff every value present has its field's type and the six required fields are present |
| Indexes.DecodeIndexFieldsValues | src/index.rs:86-104 | on success the six strings are the object's, `collation` and `packed` are `Some(s)` iff the string `s` is there, and the four numeric fields are the readers' results, `None` when absent |
| Indexes.DecodeIndexFieldsErrors | src/index.rs:85-105 | a mistyped value is reported (wrong type or bad number) before any missing field; with every value readable, the missing field named is one the object lacks |
| Indexes.Defaulted | src/index.rs:91-103 | a `default` field not found is `None`, and a found one keeps its value |
| Indexes.DecodeIndexItems | src/index.rs:85-105 | an index array decodes iff it has 11 or 12 elements of the fields' types in declaration order (`non_unique` may be left off); the record holds them by position, with `non_unique` `None` when left off; a shorter array is an invalid-length error at the first unread field without a default (position 9, `nullable`, when the array stops among the defaulted positions 4 to 8; otherwise the array's length) and a longer one a trailing-elements error |
| Indexes.ShortArrayLacksNullable | src/index.rs:90-99 | a five-element index array, stopping after `seq_in_index`, fails with invalid length 9: the defaulted fields at positions 4 to 8 are skipped and `nullable` is the first one missing |
| Indexes.DecodeIndex | src/index.rs:85-105 | an object is read by field name, an array by position, and any other value is an error |
| Indexes.DecodeIndexJson | src/index.rs:85-105 | encoding an index record as JSON and decoding it gives back the record |
| Indexes.DecodeIndexRow | src/index.rs:85-105 | a record written as the array of its values in declaration order reads back as itself |
| Indexes.IndexJsonLookups | src/index.rs:86-104 | the JSON object of a record holds each of its twelve fields under the field's name |
| Indexes.NumberReadsBack | src/index.rs:8-83 | an in-range optional number written as JSON (null or a number) reads back through the numeric-or-string reader as itself |
| Indexes.OptionalFieldsDefault | src/index.rs:751-777 | a record carrying only the identity fields, `nullable` and `index_type` decodes with every optional field `None` |
| Indexes.SchemaIsRequired | src/index.rs:779-793 | an object without `table_schema` never decodes, and when its values are all readable it fails with "missing field table_schema" |
| Indexes.CreateIndexInfo | src/index.rs:556-571 | the same envelope selection as the columns, over index records (one generic envelope) |
| Indexes.Builder | src/index.rs:108-123 | `builder()` makes every string field empty and every optional field `None` |
| Indexes.WithTableSchema | src/index.rs:125-128 | the setter sets `table_schema` and changes nothing else |
| Indexes.WithTableName | src/index.rs:130-133 | the setter sets `table_name` and changes nothing else |
| Indexes.WithIndexName | src/index.rs:135-138 | the setter sets `index_name` and changes nothing else |
| Indexes.WithColumnName | src/index.rs:140-143 | the setter sets `column_name` and changes nothing else |
| Indexes.WithSeqInIndex | src/index.rs:145-148 | the setter sets `seq_in_index` to `Some` and changes nothing else |
| Indexes.WithCollation | src/index.rs:150-153 | the setter sets `collation` to `Some` and changes nothing else |
| Indexes.WithCardinality | src/index.rs:155-158 | the setter sets `cardinality` to `Some` and changes nothing else |
| Indexes.WithSubPart | src/index.rs:160-163 | the setter sets `sub_part` to `Some` and changes nothing else |
| Indexes.WithPacked | src/index.rs:165-168 | the setter sets `packed` to `Some` and changes nothing else |
| Indexes.WithNonUnique | src/index.rs:170-173 | the setter sets `non_unique` to `Some` and changes nothing else |
| Indexes.WithNullable | src/index.rs:175-178 | the setter sets `nullable` and changes nothing else |
| Indexes.WithIndexType | src/index.rs:180-183 | the setter sets `index_type` and changes nothing else |
| Indexes.FirstEmptyName | src/index.rs:187-204 | no field is named iff every required field is non-empty |
| Indexes.FirstEmptyNameIsFirst | src/index.rs:187-204 | the field named is the first empty one |
| Indexes.Build | src/index.rs:185-207 | `build` returns the record unchanged when no required field is empty, and otherwise "<field> is required" for the first empty one |
| Indexes.RequiredInOrder | src/index.rs:187-204 | the check order is table_schema, table_name, index_name, column_name, nullable, index_type |
| Indexes.BuildChecksRequiredFields | src/index.rs:185-207 | `build` succeeds iff all six required fields are non-empty, returns the record unchanged, and otherwise names the first empty field |
| Indexes.EmptyBuilderFails | src/index.rs:609-676 | building the bare builder fails with "table_schema is required" |
| Indexes.EmptiedFieldIsReported | src/index.rs:678-689 | setting `column_name` to empty after the earlier fields are set fails with "column_name is required" |
| Indexes.BuilderChainExample | src/index.rs:579-607 | the test's full setter chain builds successfully to the record with those fields |
| IndexGrouping.BuildIndexMap | src/index.rs:511-524 | the loop builds the grouping by table key `` `schema`.table `` and index name |
| IndexGrouping.IndexTableKey | src/index.rs:516 | the key is `` `schema`.table ``; for dot-free names it splits into the quoted schema and the table, so the table name taken from it is the record's table |
| IndexGrouping.Entry | src/index.rs:519-520 | filing a record appends it to its name's list (a new name gets a list of one and goes last in the order), leaves other names alone, and keeps a table well formed |
| IndexGrouping.Matching | src/index.rs:519-520 | an index never holds more records than the input has |
| IndexGrouping.EmptyGrouped | src/index.rs:512 | no records give the empty map |
| IndexGrouping.SeenNamesMember | src/index.rs:518 | an index name is in a table's order iff some record has that table and name |
| IndexGrouping.AbsentTable | src/index.rs:517 | a table key no record has has no table |
| IndexGrouping.TableStep | src/index.rs:517-520 | one record changes only its own table: a known name gets the record appended, a new name goes last with a list of one |
| IndexGrouping.MatchingEmpty | src/index.rs:519 | a name not in the order has no records |
| IndexGrouping.GroupedStep | src/index.rs:514-521 | one loop iteration is one insertion into the grouping |
| IndexGrouping.SeenNamesDistinct | src/index.rs:519 | each table's index names (first-seen order) are distinct |
| IndexGrouping.MatchingMember | src/index.rs:519-520 | a record is in an index's list iff it is in the input with that table and name |
| IndexGrouping.MatchingNonEmpty | src/index.rs:519-520 | every index name carries at least one record |
| IndexGrouping.GroupedIsValid | src/index.rs:511-524 | every table's names are distinct, are exactly its list keys, and no list is empty |
| IndexGrouping.GroupedMembership | src/index.rs:516-520 | a record is filed under table, name exactly when it has that table key and index name |
| IndexGrouping.TwoIndexesOneTable | tests/index_diff_test.rs:33-67 | records of two indexes of one table give one key, the names in first-seen order, and the first index's records in input order |
| IndexOrder.SameKeyNotLess | src/index.rs:539-540 | records with equal sort keys are not ordered either way |
| IndexOrder.KeyLess | src/index.rs:536-537 | the sort order: equal keys are never ordered, a smaller `seq_in_index` (with `None` first) comes first, and equal `seq_in_index` are ordered by `column_name` |
| IndexOrder.KeyLessTransitive | src/index.rs:539-540 | the `(seq_in_index, column_name)` order, with `None` first, is transitive |
| IndexOrder.KeyLessAsymmetric | src/index.rs:539-540 | the sort order is asymmetric |
| IndexOrder.KeyTrichotomy | src/index.rs:539-540 | any two keys are ordered or equal |
| IndexOrder.NotLessTransitive | src/index.rs:539-540 | "not below" is transitive |
| IndexOrder.InsertStable | src/index.rs:539-540 | stable insertion adds one element |
| IndexOrder.SortByKey | src/index.rs:539-540 | the stable sort keeps the length |
| IndexOrder.InsertPermutes | src/index.rs:539-540 | insertion adds exactly the element |
| IndexOrder.SortPermutes | src/index.rs:539-540 | the sort is a permutation |
| IndexOrder.InsertKeepsSorted | src/index.rs:539-540 | insertion into a sorted list keeps it sorted |
| IndexOrder.SortIsSorted | src/index.rs:539-540 | the sort's result is sorted by key |
| IndexOrder.InsertKeepsClasses | src/index.rs:539-540 | insertion puts the element after every equal-key element already there |
| IndexOrder.SortIsStable | src/index.rs:539-540 | the sort keeps the input order among equal keys (stability) |
| IndexOrder.InsertAt | src/index.rs:539-540 | stable insertion lands after the last element not above it |
| IndexOrder.SortIndexes | src/index.rs:539-540 | the in-place sort of an array leaves the stable sort of its old contents |
| IndexOrder.InsertNext | src/index.rs:539-540 | one pass inserts the next element into the sorted prefix and leaves the rest untouched |
| IndexOrder.ZipSame | src/index.rs:543-553 | the zip loop returns true iff every pair agrees on the eight compared fields |
| IndexOrder.SameDefinition | src/index.rs:541-548 | two records agree iff they are equal once `seq_in_index`, `cardinality`, `sub_part` and `packed` are cleared; agreeing records have the same table key and index name |
| IndexOrder.IndexListsMatch | src/index.rs:527-554 | matching lists have equal lengths, and every list matches itself |
| IndexOrder.CompareIndexLists | src/index.rs:527-554 | `compare_index_lists` is exactly the match predicate: equal lengths and pairwise agreement after the stable sort |
| IndexOrder.LengthsMustAgree | src/index.rs:528-530 | lists of different lengths never match |
| IndexOrder.MatchIsReflexive | src/index.rs:527-554 | every list matches itself |
| IndexOrder.MatchIsSymmetric | src/index.rs:527-554 | the comparison does not depend on the order of its arguments |
| IndexOrder.Restated | src/index.rs:543-551 | replacing cardinality, sub_part and packed keeps length and position |
| IndexOrder.RestatedInsert | src/index.rs:539-540 | those fields do not affect insertion |
| IndexOrder.RestatedSort | src/index.rs:539-540 | those fields do not affect the sort |
| IndexOrder.StatisticsAreIgnored | src/index.rs:543-551 | changing cardinality, sub_part and packed never changes the comparison |
| IndexOrder.SwappedPositionsDiffer | tests/index_diff_test.rs:348-433 | `email`@1, `username`@2 against `username`@1, `email`@2 do not match |
| IndexOrder.TiesKeepTheirOrder | src/index.rs:535-550 | two records with the same `(seq_in_index, column_name)` that differ in `collation` do not match when listed in the other order, although the two lists hold the same records: the stable sort keeps ties in input order |
| IndexDiffs.GroupedMapsAreSafe | src/index.rs:323-324 | maps built by `build_index_map` never reach the panicking fallback: no shared index has an empty list on exactly one side (empty on both sides is allowed) |
| IndexDiffs.NoPanic | src/index.rs:323-324 | the condition under which the fallback is never reached holds for identical maps, for maps with no shared table, and for maps whose every index has records |
| IndexDiffs.NamesOnlyInList | src/index.rs:297-312 | within a shared table, every record of a name missing from the other side is pushed |
| IndexDiffs.DifferingIndexesList | src/index.rs:315-333 | within a shared table, one difference per shared name whose lists do not match, holding element 0 of each |
| IndexDiffs.TableRecords | src/index.rs:339-343 | the records of a table, name by name in insertion order |
| IndexDiffs.WholeTablesList | src/index.rs:337-355 | every record of every table on one side only is pushed |
| IndexDiffs.SharedOnlyOverStep | src/index.rs:279-312 | one more shared table adds its own one-side records |
| IndexDiffs.DifferencesOverTablesStep | src/index.rs:279-333 | one more shared table adds its own differences, named by the part of the key after the first dot |
| IndexDiffs.CompareCommonTables | src/index.rs:279-334 | over the shared tables, the three pushed lists are the per-table bags summed |
| IndexDiffs.CompareIndexMaps | src/index.rs:263-363 | `compare_index_maps` produces each of its three lists as the specified multiset |
| IndexDiffs.SameMapHasNoDifferences | tests/index_diff_test.rs:70-104 | comparing a map with itself gives an empty diff |
| IndexDiffs.FlattenMember | src/index.rs:339-341 | a record is among a table's records iff it is in the list of one of its names |
| IndexDiffs.AllRecordsMember | src/index.rs:339-341 | the same, for a well-formed table |
| IndexDiffs.InIndexesOnlyIn | src/index.rs:297-355 | a record is first-only iff its table is missing on the other side or its index name is missing in the shared table |
| IndexDiffs.OnlyRecordHasSource | src/index.rs:297-345 | every first-only record has such a table and name |
| IndexDiffs.OnlyRecordIsReported | src/index.rs:297-345 | every record of a missing table or missing index name is reported |
| IndexDiffs.InIndexDifferences | src/index.rs:315-333 | a difference is reported iff a shared table has a shared name whose lists do not match, holding the table name after the first dot, the name and element 0 of each list |
| IndexDiffs.DifferenceHasSource | src/index.rs:315-333 | every reported difference has such a table and name |
| IndexDiffs.DifferenceInTableHasSource | src/index.rs:319-331 | every difference of a table names a shared index that differs |
| IndexDiffs.DifferenceIsReported | src/index.rs:319-331 | every shared index that differs is reported |
| IndexDiffs.ComparisonIsSymmetric | src/index.rs:279-355 | swapping the maps swaps the one-side lists and exchanges `first` and `second` in every difference |
| IndexDiffs.DifferencesInTableSwap | src/index.rs:315-333 | per table, swapping the sides turns each difference around |
| IndexDiffs.OnlyInFirstFromRecords | tests/index_diff_test.rs:106-160 | on grouped records: a record is first-only iff it is in the first input and no second-side record has its table and index name |
| IndexDiffs.FlattenIgnores | src/index.rs:339-341 | a name outside the order does not contribute |
| IndexDiffs.FlattenAppend | src/index.rs:339-341 | appending a record to one index adds exactly it to the table's records |
| IndexDiffs.EntryAddsRecord | src/index.rs:517-520 | filing a record in a table adds exactly that record to the table's records |
| IndexDiffs.GroupingKeepsEveryRecord | src/index.rs:511-524 | the records of all tables of the grouping are the input records, as a multiset (list lengths sum to the input length) |
| IndexDiffs.GroupedLast | src/index.rs:514-521 | the grouping of a list is the grouping of all but its last record, with that record inserted |
| IndexDiffs.MultisetLast | src/index.rs:514 | the last record plus the others are all the records |
| IndexDiffs.InsertedAddsRecord | src/index.rs:517-520 | inserting a record adds exactly it to the records of all tables |
| IndexDiffs.KnownTableAddsRecord | src/index.rs:517-520 | the same when its table already exists |
| IndexDiffs.NewTableAddsRecord | src/index.rs:517 | the same when its table is new |
| IndexDiffs.OneIndexChanged | tests/index_diff_test.rs:435-505 | one shared index whose lists do not match gives exactly one difference (element 0 of each list) and nothing on either one-side list |
| IndexSql.IndexLabelsDistinct | src/index.rs:370-480 | the six category keys are pairwise distinct |
| IndexSql.IndexLabelsDiffer | src/index.rs:370-480 | the six keys' lengths and distinguishing characters |
| IndexSql.IndexTarget | src/index.rs:371-373 | exactly `` `name` ON `schema`.table ``: the quoted index name and ` ON ` at the start, the quoted schema, a dot and the table at the end, and a length that leaves nothing between them |
| IndexSql.DropIndexSql | src/index.rs:370-373 | `DROP INDEX target;`: 12 characters around the target, which sits between the prefix and the `;` |
| IndexSql.CreateIndexSql | src/index.rs:388-397 | exactly `CREATE UNIQUE INDEX <target> (<column>);` when `non_unique` is `Some(0)` and `CREATE INDEX <target> (<column>);` otherwise: the verb that goes with `IsUnique`, the suffix, and a length that leaves nothing between them |
| IndexSql.ModifyInFirstSql | src/index.rs:411-428 | the Schema 1 modify pair begins with the drop of the target built from `first`'s name and schema and the difference's table, then a newline, and ends with a newline and the create of `second` |
| IndexSql.ModifyInSecondSql | src/index.rs:481-498 | the Schema 2 modify pair begins with the drop of `first` (its own table name) and a newline, and ends with a newline and the create of `first` |
| IndexSql.IndexCategories | src/index.rs:365-508 | six categories, where each schema-1 category has as many statements as its schema-2 mirror (both come from the same list) |
| IndexSql.EmitCreateIndexes | src/index.rs:384-405 | the create loop files `CREATE [UNIQUE] INDEX` statements under the key in list order |
| IndexSql.EmitModifyIndexes | src/index.rs:408-435 | the modify loop files drop-then-create pairs built from `second` in Schema 1 and from `first` (src/index.rs:478-505) in Schema 2 |
| IndexSql.GenerateSqlIndexDiff | src/index.rs:365-508 | each of the six keys is present iff its source list is non-empty, with that list's statements joined by newlines in list order |
| IndexSql.EmptyIndexDiffHasNoStatements | src/index.rs:365-508 | an empty index diff gives no statements |
| IndexSql.FullIndexDiffHasSixKeys | src/index.rs:365-508 | all three lists non-empty give exactly six keys |
| IndexSql.AtMostSixKeys | src/index.rs:365-508 | no key outside the six is ever produced |
| IndexSql.IdenticalMapsHaveNoStatements | tests/index_diff_test.rs:70-104 | comparing a map with itself produces no statements |
| IndexSql.UniqueExactlyWhenZero | src/index.rs:388-397 | a create statement starts with `CREATE UNIQUE INDEX ` iff `non_unique == Some(0)` |
| IndexSql.ModifyInFirstDropsTheIndex | src/index.rs:410-428 | for a difference produced by the comparison of dot-free names, "Modify index in Schema 1" is the drop of the first record followed by the create of the second |
| IndexSql.CompareIndexes | src/index.rs:227-261 | a side that fails to read counts as no records; the diff is the comparison of the two groupings and the statements are generated from it |
| IndexSql.IndexesOrNone | src/index.rs:229-237 | a document that reads gives its records, and one that fails gives no records |
| IndexSql.SameDocumentNoStatements | src/index.rs:227-261 | comparing a document with itself gives an empty diff and no statements |
| IndexSqlExamples.EmailTarget | tests/index_diff_test.rs:290 | the target `` `idx_users_email` ON `public`.users `` |
| IndexSqlExamples.NameTarget | tests/index_diff_test.rs:295 | the target `` `idx_users_name` ON `public`.users `` |
| IndexSqlExamples.GenerateExample | tests/index_diff_test.rs:258-296 | the test diff gives ``DROP INDEX `idx_users_email` ON `public`.users;`` and ``CREATE INDEX `idx_users_name` ON `public`.users (name);`` and no modify key |
| IndexSqlExamples.UniqueModifyExample | tests/index_diff_test.rs:299-345 | a unique index changed to non-unique is recreated in Schema 2 with `CREATE UNIQUE INDEX … (email);` |

## Left out

- JSON text parsing and `serde_json` serialisation are a foreign library. The inputs are
  already-decoded JSON values (`JsonValue.Json`); the outputs are the diff record and a
  `map<string, string>`. `serde`'s error messages are modelled as structured error values,
  not as its exact text.
- What `serde` derive reads is modelled for both forms it accepts: an object read by field
  name and an array read by position. The object form reads every present value first (a
  mistyped value fails at once) and reports missing fields only afterwards. A JSON object is
  a `map` here, so key order and duplicate keys cannot be represented. When several values
  are mistyped, the model reports the first in declaration order, while `serde` reports the
  first in the document's order. `serde`'s `duplicate_field` error is not modelled. Unknown
  keys are ignored, as `serde` does without `deny_unknown_fields`.
- ColumnSql.Escape: states only that quoting never shortens a value and leaves a value
  without quotes unchanged; that the quoted text reads back is ColumnSql.QuotedReadsBack.
- IndexSql.IndexCategories: states the count and that mirrored categories have equally many
  statements; the statements themselves are given by IndexSql.GenerateSqlIndexDiff.
- IndexSql.ModifyInFirstSql, IndexSql.ModifyInSecondSql: state the drop at the start and the
  create at the end; the exact pair for compared records is
  IndexSql.ModifyInFirstDropsTheIndex.
- The final `serde_json::json!`/`to_string` step of `compare_schemas` and `compare_indexs`,
  and its "Error serializing result" branch, are not modelled: `CompareSchemas` and
  `CompareIndexes` return the diff and the statement map.
- The `#[wasm_bindgen]` exports, the browser upload entry point and the tests that read
  sample files are host plumbing and I/O.
- The order of `HashMap`/`HashSet` iteration is unspecified. The one-side lists and the
  concatenation across tables are stated as multisets, and no order is fixed. Within one
  `Vec` (the category statements, the records of one index) the order is kept and stated.
- The commented-out code at src/lib.rs:400-422 is dead and is not modelled.
- IndexDiffs.CompareIndexMaps: the fallback `IndexInfo::builder().build().unwrap()` at
  src/index.rs:323-324 always panics, since `build` refuses an empty `table_schema`. The
  model requires that no shared index has an empty list on exactly one side (`NoPanic`;
  empty on both sides is allowed) instead of
  modelling the panic. IndexDiffs.GroupedMapsAreSafe proves this always holds for maps made
  by `build_index_map`.
- The inner `push` loops of `compare_schema_maps` and `compare_index_maps` that copy one
  list's records are modelled as appending the whole list at once.
- Tests that call a `ColumnInfo::builder`, or expect `` `public`.users `` in column SQL
  (tests/table_schema_tests.rs, tests/generate_sql_diff_key_collision.rs:20), use an API and
  a format that src/lib.rs does not have. The model follows src/lib.rs.
- The comments in tests/generate_sql_diff_key_collision.rs:83-101 say statements under one
  key overwrite each other. The code concatenates them (src/lib.rs:248-252), and
  ColumnSql.CollidingStatementsAreKept states the code's behaviour.
- Strings are sequences of characters, not UTF-8 bytes. Byte-lexicographic order and
  character-lexicographic order agree, so the sort is unaffected.
