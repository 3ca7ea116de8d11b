/** The SQL half of src/lib.rs: `format_column_definition`,
    `generate_sql_diff` and the top-level `compare_schemas`. */
module ColumnSql {
  import opened Wrappers
  import opened Text
  import opened NumericField
  import opened JsonValue
  import opened Columns
  import opened ColumnDiff
  import opened StatementMap

  // ---------------------------------------------------------------------------
  // Quoted literals

  /** What `s.replace("'", "''")` yields: every single quote doubled. */
  function Escape(s: string): (r: string)
    ensures |r| >= |s|
    ensures '\'' !in s ==> r == s
  {
    if |s| == 0 then "" else EscapeChar(s[0]) + Escape(s[1..])
  }

  function EscapeChar(c: char): string
  {
    if c == '\'' then "''" else [c]
  }

  lemma {:induction false} EscapeAppend(s: string, t: string)
    ensures Escape(s + t) == Escape(s) + Escape(t)
  {
    if |s| > 0 {
      assert (s + t)[1..] == s[1..] + t;
      EscapeAppend(s[1..], t);
    } else {
      assert s + t == t;
    }
  }

  /** How SQL reads the text after the opening quote of a literal: a doubled
      quote stands for one quote, and a single quote closes the literal. The
      result is the literal's value and the text after it, if the literal is
      closed. */
  function ReadQuoted(t: string): Option<(string, string)>
    decreases |t|
  {
    if |t| == 0 then None
    else if t[0] == '\'' then
      if |t| >= 2 && t[1] == '\'' then
        match ReadQuoted(t[2..])
        case None => None
        case Some(read) => Some(("'" + read.0, read.1))
      else Some(("", t[1..]))
    else
      match ReadQuoted(t[1..])
      case None => None
      case Some(read) => Some(([t[0]] + read.0, read.1))
  }

  /** A value quoted the way the engine quotes it reads back as that value,
      and the literal ends at the closing quote (provided what follows does
      not itself start with a quote). */
  lemma {:induction false} QuotedReadsBack(s: string, rest: string)
    requires |rest| == 0 || rest[0] != '\''
    ensures ReadQuoted(Escape(s) + "'" + rest) == Some((s, rest))
    decreases |s|
  {
    if |s| == 0 {
      assert Escape(s) + "'" + rest == "'" + rest;
      assert ("'" + rest)[1..] == rest;
    } else {
      QuotedReadsBack(s[1..], rest);
      var tail := Escape(s[1..]) + "'" + rest;
      EscapeFirst(s, rest);
      assert s == [s[0]] + s[1..];
      if s[0] == '\'' {
        ReadDoubledQuote(tail);
        assert ReadQuoted("''" + tail) == Some(("'" + s[1..], rest));
      } else {
        ReadPlainChar(s[0], tail);
        assert ReadQuoted([s[0]] + tail) == Some(([s[0]] + s[1..], rest));
      }
    }
  }

  /** Quoting a non-empty value quotes its first character, then the rest,
      before the closing quote and what follows it. */
  lemma EscapeFirst(s: string, rest: string)
    requires |s| > 0
    ensures Escape(s) + "'" + rest == EscapeChar(s[0]) + (Escape(s[1..]) + "'" + rest)
  {
    var head, tail := EscapeChar(s[0]), Escape(s[1..]);
    assert Escape(s) == head + tail;
    calc {
      Escape(s) + "'" + rest;
    ==
      (head + tail) + "'" + rest;
    == { Associative(head + tail, "'", rest); }
      (head + tail) + ("'" + rest);
    == { Associative(head, tail, "'" + rest); }
      head + (tail + ("'" + rest));
    == { Associative(tail, "'", rest); }
      head + (tail + "'" + rest);
    }
  }

  lemma ReadDoubledQuote(tail: string)
    ensures ReadQuoted("''" + tail) ==
      match ReadQuoted(tail)
      case None => None
      case Some(read) => Some(("'" + read.0, read.1))
  {
    assert ("''" + tail)[2..] == tail;
  }

  lemma ReadPlainChar(c: char, tail: string)
    requires c != '\''
    ensures ReadQuoted([c] + tail) ==
      match ReadQuoted(tail)
      case None => None
      case Some(read) => Some(([c] + read.0, read.1))
  {
    assert ([c] + tail)[1..] == tail;
  }

  /** Quoting one more character appends its quoted form. */
  lemma EscapeSnoc(s: string, i: nat)
    requires i < |s|
    ensures Escape(s[..i + 1]) == Escape(s[..i]) + EscapeChar(s[i])
  {
    assert s[..i + 1] == s[..i] + [s[i]];
    EscapeAppend(s[..i], [s[i]]);
    assert Escape([s[i]]) == EscapeChar(s[i]) by { assert [s[i]][1..] == ""; }
  }

  /** `s.replace("'", "''")`, a character at a time. */
  method ReplaceQuotes(s: string) returns (r: string)
    ensures r == Escape(s)
  {
    r := "";
    for i := 0 to |s|
      invariant r == Escape(s[..i])
    {
      EscapeSnoc(s, i);
      if s[i] == '\'' {
        r := r + "''";
      } else {
        r := r + [s[i]];
      }
    }
    assert s[..|s|] == s;
  }

  // ---------------------------------------------------------------------------
  // format_column_definition

  /** The length is shown only for the types `varchar` and `char`. */
  predicate ShowsLength(c: ColumnInfo)
  {
    c.characterMaximumLength.Some? && (c.dataType == "varchar" || c.dataType == "char")
  }

  /** The type, followed by `(len)` exactly when the length is shown. */
  function TypeClause(c: ColumnInfo): (r: string)
    ensures c.dataType <= r
    ensures r == c.dataType <==> !ShowsLength(c)
    ensures ShowsLength(c) ==> EndsWith(r, ")")
  {
    if ShowsLength(c) then c.dataType + "(" + NatToString(c.characterMaximumLength.value) + ")"
    else c.dataType
  }

  /** ` NOT NULL` exactly for `is_nullable == "NO"`, ` NULL` otherwise. */
  function NullClause(c: ColumnInfo): (r: string)
    ensures r == " NOT NULL" <==> c.isNullable == "NO"
    ensures r == " NOT NULL" || r == " NULL"
  {
    if c.isNullable == "NO" then " NOT NULL" else " NULL"
  }

  /** The default: `NULL` stays a keyword, a value of ASCII digits only
      (the empty value among them) is written bare, anything else is quoted. */
  function DefaultClause(c: ColumnInfo): (r: string)
    ensures r == "" <==> c.columnDefault.None?
    ensures c.columnDefault.Some? ==> " DEFAULT " <= r
    ensures c.columnDefault == Some("NULL") ==> r == " DEFAULT NULL"
  {
    match c.columnDefault
    case None => ""
    case Some(d) =>
      if d == "NULL" then " DEFAULT NULL"
      else if AllAsciiDigits(d) then " DEFAULT " + d
      else " DEFAULT '" + Escape(d) + "'"
  }

  /** The type clause, then the null clause, then the default clause if
      there is a default. */
  function ColumnDefinition(c: ColumnInfo): (r: string)
    ensures TypeClause(c) + NullClause(c) <= r
  {
    TypeClause(c) + NullClause(c) + DefaultClause(c)
  }

  /** `format_column_definition`: the definition is built up in place. */
  method FormatColumnDefinition(column: ColumnInfo) returns (definition: string)
    ensures definition == ColumnDefinition(column)
  {
    definition := column.dataType;
    if column.characterMaximumLength.Some? {
      var length := column.characterMaximumLength.value;
      if column.dataType == "varchar" || column.dataType == "char" {
        definition := column.dataType + "(" + NatToString(length) + ")";
      }
    }
    assert definition == TypeClause(column);
    if column.isNullable == "NO" {
      definition := definition + " NOT NULL";
    } else {
      definition := definition + " NULL";
    }
    assert definition == TypeClause(column) + NullClause(column);
    if column.columnDefault.Some? {
      var default := column.columnDefault.value;
      if default == "NULL" {
        definition := definition + " DEFAULT NULL";
      } else if AllAsciiDigits(default) {
        definition := definition + (" DEFAULT " + default);
      } else {
        var escaped := ReplaceQuotes(default);
        definition := definition + (" DEFAULT '" + escaped + "'");
      }
    }
  }

  /** The type comes first; a length follows it, in parentheses, exactly
      when the type is `varchar` or `char` and a length is known, and then
      the length's digits read back as the length. */
  lemma TypeComesFirst(c: ColumnInfo)
    ensures c.dataType <= ColumnDefinition(c)
    ensures TypeClause(c) == c.dataType <==> !ShowsLength(c)
    ensures ShowsLength(c) ==>
      TypeClause(c) == c.dataType + "(" + NatToString(c.characterMaximumLength.value) + ")" &&
      ReadOptionalUnsigned(JString(NatToString(c.characterMaximumLength.value)), U64_MAX) ==
        Success(Some(c.characterMaximumLength.value))
  {
    if ShowsLength(c) {
      assert |TypeClause(c)| > |c.dataType|;
      RenderedValueReadsBack(c.characterMaximumLength.value, U64_MAX);
    }
    assert TypeClause(c) <= ColumnDefinition(c);
  }

  /** ` NOT NULL` follows the type exactly when the column is not nullable;
      ` NULL` follows it otherwise. */
  lemma NullabilityFollowsType(c: ColumnInfo)
    ensures (TypeClause(c) + " NOT NULL" <= ColumnDefinition(c)) <==> c.isNullable == "NO"
    ensures c.isNullable != "NO" ==> TypeClause(c) + " NULL" <= ColumnDefinition(c)
  {
    var t := TypeClause(c);
    var d := ColumnDefinition(c);
    if c.isNullable != "NO" {
      assert d == t + " NULL" + DefaultClause(c);
      assert (t + " NOT NULL")[|t| + 2] == 'O';
      assert d[|t| + 2] == 'U';
    }
  }

  /** What the definition says about the default: nothing when there is
      none; `DEFAULT NULL` for the text `NULL`; the digits themselves for a
      value of ASCII digits; and otherwise a quoted literal that SQL reads
      back as the default, closing at the end of the definition. */
  lemma DefaultIsFaithful(c: ColumnInfo)
    ensures c.columnDefault.None? ==> ColumnDefinition(c) == TypeClause(c) + NullClause(c)
    ensures c.columnDefault == Some("NULL") ==>
      ColumnDefinition(c) == TypeClause(c) + NullClause(c) + " DEFAULT NULL"
    ensures c.columnDefault.Some? && c.columnDefault.value != "NULL" && AllAsciiDigits(c.columnDefault.value) ==>
      ColumnDefinition(c) == TypeClause(c) + NullClause(c) + " DEFAULT " + c.columnDefault.value
    ensures c.columnDefault.Some? && c.columnDefault.value != "NULL" && !AllAsciiDigits(c.columnDefault.value) ==>
      exists t :: ColumnDefinition(c) == TypeClause(c) + NullClause(c) + " DEFAULT '" + t &&
                  ReadQuoted(t) == Some((c.columnDefault.value, ""))
  {
    var head := TypeClause(c) + NullClause(c);
    assert ColumnDefinition(c) == head + DefaultClause(c);
    match c.columnDefault
    case None =>
    case Some(v) =>
      if v != "NULL" && !AllAsciiDigits(v) {
        var t := Escape(v) + "'";
        QuotedReadsBack(v, "");
        assert t + "" == t;
        assert DefaultClause(c) == " DEFAULT '" + t;
      }
  }

  /** Different defaults that both get quoted give different literals. */
  lemma QuotingIsInjective(a: string, b: string)
    requires Escape(a) == Escape(b)
    ensures a == b
  {
    QuotedReadsBack(a, "");
    QuotedReadsBack(b, "");
  }

  // ---------------------------------------------------------------------------
  // generate_sql_diff

  // The statements of a table that is on one side only name it as
  // `schema.table`, which for dot-free names is the table the statement was
  // made for.

  function DropTableSql(t: (string, string)): (sql: string)
    ensures |sql| == |t.0| + |t.1| + 13
    ensures "DROP TABLE " <= sql && EndsWith(sql, ";")
    ensures sql[11..|sql| - 1] == t.0 + "." + t.1
    ensures '.' !in t.0 && '.' !in t.1 ==> SplitTableKey(sql[11..|sql| - 1]) == t
  {
    EndsWithAppend("DROP TABLE " + t.0 + "." + t.1, ";");
    QualifiedNameSplits(t.0, t.1);
    assert ("DROP TABLE " + t.0 + "." + t.1 + ";")[11..|t.0| + |t.1| + 12] == t.0 + "." + t.1;
    "DROP TABLE " + t.0 + "." + t.1 + ";"
  }

  function CreateTableSql(t: (string, string)): (sql: string)
    ensures |sql| == |t.0| + |t.1| + 24
    ensures "-- CREATE TABLE " <= sql && EndsWith(sql, " (...);")
    ensures sql[16..|sql| - 7] == t.0 + "." + t.1
    ensures '.' !in t.0 && '.' !in t.1 ==> SplitTableKey(sql[16..|sql| - 7]) == t
  {
    EndsWithAppend("-- CREATE TABLE " + t.0 + "." + t.1, " (...);");
    QualifiedNameSplits(t.0, t.1);
    assert ("-- CREATE TABLE " + t.0 + "." + t.1 + " (...);")[16..|t.0| + |t.1| + 17] == t.0 + "." + t.1;
    "-- CREATE TABLE " + t.0 + "." + t.1 + " (...);"
  }

  /** Both column statements alter the table the column is filed under. In
      each statement below, the prefix, the suffix and the length together
      fix the whole text: the length leaves no room between them. */
  function DropColumnSql(c: ColumnInfo): (sql: string)
    ensures "ALTER TABLE " + TableKey(c) + " DROP COLUMN " <= sql
    ensures EndsWith(sql, c.columnName + ";")
    ensures |sql| == |TableKey(c)| + |c.columnName| + 26
  {
    var head := "ALTER TABLE " + TableKey(c) + " DROP COLUMN ";
    EndsWithAppend3(head, c.columnName, ";");
    head + c.columnName + ";"
  }

  function AddColumnSql(c: ColumnInfo): (sql: string)
    ensures "ALTER TABLE " + TableKey(c) + " ADD COLUMN " + c.columnName + " " <= sql
    ensures EndsWith(sql, ColumnDefinition(c) + ";")
    ensures |sql| == |TableKey(c)| + |c.columnName| + |ColumnDefinition(c)| + 26
  {
    var head := "ALTER TABLE " + TableKey(c) + " ADD COLUMN " + c.columnName + " ";
    EndsWithAppend3(head, ColumnDefinition(c), ";");
    head + ColumnDefinition(c) + ";"
  }

  /** The MODIFY statement that makes the column look like `target` (one
      side of the difference); the schema is the target's, the table name
      the difference's. */
  function ModifyColumnSql(d: ColumnDifference, target: ColumnInfo): (sql: string)
    ensures "ALTER TABLE " + target.tableSchema + "." + d.tableName + " MODIFY COLUMN " + d.columnName + " " <= sql
    ensures EndsWith(sql, ColumnDefinition(target) + ";")
    ensures |sql| == |target.tableSchema| + |d.tableName| + |d.columnName| + |ColumnDefinition(target)| + 30
  {
    var head := "ALTER TABLE " + target.tableSchema + "." + d.tableName + " MODIFY COLUMN " + d.columnName + " ";
    EndsWithAppend3(head, ColumnDefinition(target), ";");
    head + ColumnDefinition(target) + ";"
  }

  /** Schema 1 is altered to the second definition, in the second record's
      schema; schema 2 is altered to the first definition, in the first
      record's schema. */
  function ModifyToSecondSql(d: ColumnDifference): (sql: string)
    ensures "ALTER TABLE " + d.second.tableSchema + "." + d.tableName <= sql
    ensures EndsWith(sql, ColumnDefinition(d.second) + ";")
  {
    ModifyColumnSql(d, d.second)
  }

  function ModifyToFirstSql(d: ColumnDifference): (sql: string)
    ensures "ALTER TABLE " + d.first.tableSchema + "." + d.tableName <= sql
    ensures EndsWith(sql, ColumnDefinition(d.first) + ";")
  {
    ModifyColumnSql(d, d.first)
  }

  const DropTableInFirst := "Drop table in Schema 1 (Schema 1 only)"
  const CreateTableInFirst := "Create table in Schema 1 (Schema 2 only)"
  const DropColumnInFirst := "Drop column in Schema 1 (Schema 1 only)"
  const AddColumnInFirst := "Add column in Schema 1 (Schema 2 only)"
  const ModifyColumnInFirst := "Modify column in Schema 1"
  const DropTableInSecond := "Drop table in Schema 2 (Schema 2 only)"
  const CreateTableInSecond := "Create table in Schema 2 (Schema 1 only)"
  const AddColumnInSecond := "Add column in Schema 2 (Schema 1 only)"
  const DropColumnInSecond := "Drop column in Schema 2 (Schema 2 only)"
  const ModifyColumnInSecond := "Modify column in Schema 2"

  /** The ten categories of `generate_sql_diff`, in the order it fills them:
      first what turns schema 1 into schema 2, then the reverse. */
  function SchemaCategories(diff: SchemaDiff): (cats: seq<Category>)
    ensures |cats| == 10
    ensures |cats[0].statements| == |cats[6].statements| == |diff.tablesOnlyInFirst|
    ensures |cats[1].statements| == |cats[5].statements| == |diff.tablesOnlyInSecond|
    ensures |cats[2].statements| == |cats[7].statements| == |diff.columnsOnlyInFirst|
    ensures |cats[3].statements| == |cats[8].statements| == |diff.columnsOnlyInSecond|
    ensures |cats[4].statements| == |cats[9].statements| == |diff.columnsWithDifferentDefinitions|
  {
    [ Category(DropTableInFirst, Rendered(diff.tablesOnlyInFirst, DropTableSql)),
      Category(CreateTableInFirst, Rendered(diff.tablesOnlyInSecond, CreateTableSql)),
      Category(DropColumnInFirst, Rendered(diff.columnsOnlyInFirst, DropColumnSql)),
      Category(AddColumnInFirst, Rendered(diff.columnsOnlyInSecond, AddColumnSql)),
      Category(ModifyColumnInFirst, Rendered(diff.columnsWithDifferentDefinitions, ModifyToSecondSql)),
      Category(DropTableInSecond, Rendered(diff.tablesOnlyInSecond, DropTableSql)),
      Category(CreateTableInSecond, Rendered(diff.tablesOnlyInFirst, CreateTableSql)),
      Category(AddColumnInSecond, Rendered(diff.columnsOnlyInFirst, AddColumnSql)),
      Category(DropColumnInSecond, Rendered(diff.columnsOnlyInSecond, DropColumnSql)),
      Category(ModifyColumnInSecond, Rendered(diff.columnsWithDifferentDefinitions, ModifyToFirstSql)) ]
  }

  lemma SchemaLabelsDistinct(diff: SchemaDiff)
    ensures DistinctLabels(SchemaCategories(diff))
  {
    LabelsDiffer();
  }

  /** Labels of equal length differ in their first character or in the
      digit that names the schema. */
  lemma LabelsDiffer()
    ensures |DropTableInFirst| == |AddColumnInFirst| == |DropTableInSecond| == |AddColumnInSecond| == 38
    ensures |CreateTableInFirst| == |CreateTableInSecond| == 40
    ensures |DropColumnInFirst| == |DropColumnInSecond| == 39
    ensures |ModifyColumnInFirst| == |ModifyColumnInSecond| == 25
    ensures DropTableInFirst[0] == DropTableInSecond[0] == 'D'
    ensures AddColumnInFirst[0] == AddColumnInSecond[0] == 'A'
    ensures DropTableInFirst[21] == AddColumnInFirst[21] == '1'
    ensures DropTableInSecond[21] == AddColumnInSecond[21] == '2'
    ensures CreateTableInFirst[23] == '1' && CreateTableInSecond[23] == '2'
    ensures DropColumnInFirst[22] == '1' && DropColumnInSecond[22] == '2'
    ensures ModifyColumnInFirst[24] == '1' && ModifyColumnInSecond[24] == '2'
  {
  }

  /** The ADD COLUMN block: the definition of each column is formatted in
      turn. */
  method EmitAddColumns(sql: StatementMap, key: string, columns: seq<ColumnInfo>) returns (r: StatementMap)
    ensures r == WithStatements(sql, key, Rendered(columns, AddColumnSql))
  {
    r := sql;
    if |columns| == 0 {
      return;
    }
    for i := 0 to |columns|
      invariant r == WithStatements(sql, key, Rendered(columns[..i], AddColumnSql))
    {
      var column := columns[i];
      var columnDef := FormatColumnDefinition(column);
      var head := "ALTER TABLE " + column.tableSchema + "." + column.tableName + " ADD COLUMN " +
        column.columnName + " ";
      var value := head + columnDef + ";";
      assert head == "ALTER TABLE " + TableKey(column) + " ADD COLUMN " + column.columnName + " ";
      EmitStep(sql, key, columns, AddColumnSql, i);
      if key in r {
        r := r[key := r[key] + "\n" + value];
      } else {
        r := r[key := value];
      }
    }
    assert columns[..|columns|] == columns;
  }

  /** The MODIFY COLUMN block, towards the second side (`toSecond`) or the
      first. */
  method EmitModifyColumns(sql: StatementMap, key: string, diffs: seq<ColumnDifference>, toSecond: bool)
    returns (r: StatementMap)
    ensures r == WithStatements(sql, key, Rendered(diffs, if toSecond then ModifyToSecondSql else ModifyToFirstSql))
  {
    var render := if toSecond then ModifyToSecondSql else ModifyToFirstSql;
    r := sql;
    if |diffs| == 0 {
      return;
    }
    for i := 0 to |diffs|
      invariant r == WithStatements(sql, key, Rendered(diffs[..i], render))
    {
      var item := diffs[i];
      var target := if toSecond then item.second else item.first;
      var columnDef := FormatColumnDefinition(target);
      var value := "ALTER TABLE " + target.tableSchema + "." + item.tableName + " MODIFY COLUMN " +
        item.columnName + " " + columnDef + ";";
      EmitStep(sql, key, diffs, render, i);
      if key in r {
        r := r[key := r[key] + "\n" + value];
      } else {
        r := r[key := value];
      }
    }
    assert diffs[..|diffs|] == diffs;
  }

  /** `generate_sql_diff`: the ten blocks in order, each skipped when its
      list is empty. The ghost `cats` lists the categories emitted so far. */
  method GenerateSqlDiff(diff: SchemaDiff) returns (sql: StatementMap)
    ensures Describes(SchemaCategories(diff), sql)
  {
    sql := map[];
    ghost var cats: seq<Category> := [];
    ghost var before := sql;
    sql := EmitBlock(sql, DropTableInFirst, diff.tablesOnlyInFirst, DropTableSql);
    EmitAllSnoc(cats, Category(DropTableInFirst, Rendered(diff.tablesOnlyInFirst, DropTableSql)), before, sql);
    cats := cats + [Category(DropTableInFirst, Rendered(diff.tablesOnlyInFirst, DropTableSql))];
    before := sql;
    sql := EmitBlock(sql, CreateTableInFirst, diff.tablesOnlyInSecond, CreateTableSql);
    EmitAllSnoc(cats, Category(CreateTableInFirst, Rendered(diff.tablesOnlyInSecond, CreateTableSql)), before, sql);
    cats := cats + [Category(CreateTableInFirst, Rendered(diff.tablesOnlyInSecond, CreateTableSql))];
    before := sql;
    sql := EmitBlock(sql, DropColumnInFirst, diff.columnsOnlyInFirst, DropColumnSql);
    EmitAllSnoc(cats, Category(DropColumnInFirst, Rendered(diff.columnsOnlyInFirst, DropColumnSql)), before, sql);
    cats := cats + [Category(DropColumnInFirst, Rendered(diff.columnsOnlyInFirst, DropColumnSql))];
    before := sql;
    sql := EmitAddColumns(sql, AddColumnInFirst, diff.columnsOnlyInSecond);
    EmitAllSnoc(cats, Category(AddColumnInFirst, Rendered(diff.columnsOnlyInSecond, AddColumnSql)), before, sql);
    cats := cats + [Category(AddColumnInFirst, Rendered(diff.columnsOnlyInSecond, AddColumnSql))];
    before := sql;
    sql := EmitModifyColumns(sql, ModifyColumnInFirst, diff.columnsWithDifferentDefinitions, true);
    EmitAllSnoc(cats, Category(ModifyColumnInFirst, Rendered(diff.columnsWithDifferentDefinitions, ModifyToSecondSql)), before, sql);
    cats := cats + [Category(ModifyColumnInFirst, Rendered(diff.columnsWithDifferentDefinitions, ModifyToSecondSql))];
    before := sql;
    sql := EmitBlock(sql, DropTableInSecond, diff.tablesOnlyInSecond, DropTableSql);
    EmitAllSnoc(cats, Category(DropTableInSecond, Rendered(diff.tablesOnlyInSecond, DropTableSql)), before, sql);
    cats := cats + [Category(DropTableInSecond, Rendered(diff.tablesOnlyInSecond, DropTableSql))];
    before := sql;
    sql := EmitBlock(sql, CreateTableInSecond, diff.tablesOnlyInFirst, CreateTableSql);
    EmitAllSnoc(cats, Category(CreateTableInSecond, Rendered(diff.tablesOnlyInFirst, CreateTableSql)), before, sql);
    cats := cats + [Category(CreateTableInSecond, Rendered(diff.tablesOnlyInFirst, CreateTableSql))];
    before := sql;
    sql := EmitAddColumns(sql, AddColumnInSecond, diff.columnsOnlyInFirst);
    EmitAllSnoc(cats, Category(AddColumnInSecond, Rendered(diff.columnsOnlyInFirst, AddColumnSql)), before, sql);
    cats := cats + [Category(AddColumnInSecond, Rendered(diff.columnsOnlyInFirst, AddColumnSql))];
    before := sql;
    sql := EmitBlock(sql, DropColumnInSecond, diff.columnsOnlyInSecond, DropColumnSql);
    EmitAllSnoc(cats, Category(DropColumnInSecond, Rendered(diff.columnsOnlyInSecond, DropColumnSql)), before, sql);
    cats := cats + [Category(DropColumnInSecond, Rendered(diff.columnsOnlyInSecond, DropColumnSql))];
    before := sql;
    sql := EmitModifyColumns(sql, ModifyColumnInSecond, diff.columnsWithDifferentDefinitions, false);
    EmitAllSnoc(cats, Category(ModifyColumnInSecond, Rendered(diff.columnsWithDifferentDefinitions, ModifyToFirstSql)), before, sql);
    cats := cats + [Category(ModifyColumnInSecond, Rendered(diff.columnsWithDifferentDefinitions, ModifyToFirstSql))];
    assert cats == SchemaCategories(diff);
    SchemaLabelsDistinct(diff);
    EmitAllDescribes(cats);
  }

  /** An empty diff produces no statement at all. */
  lemma EmptyDiffHasNoStatements(sql: StatementMap)
    requires Describes(SchemaCategories(SchemaDiff([], [], [], [], [])), sql)
    ensures sql == map[]
  {
    NoStatementsNoKeys(SchemaCategories(SchemaDiff([], [], [], [], [])), sql);
  }

  /** A diff with every list non-empty produces exactly the ten keys, however
      many statements share each one. */
  lemma FullDiffHasTenKeys(diff: SchemaDiff, sql: StatementMap)
    requires |diff.tablesOnlyInFirst| > 0 && |diff.tablesOnlyInSecond| > 0
    requires |diff.columnsOnlyInFirst| > 0 && |diff.columnsOnlyInSecond| > 0
    requires |diff.columnsWithDifferentDefinitions| > 0
    requires Describes(SchemaCategories(diff), sql)
    ensures |sql.Keys| == 10
  {
    var cats := SchemaCategories(diff);
    SchemaLabelsDistinct(diff);
    forall i | 0 <= i < |cats| ensures |cats[i].statements| > 0 {
      if i < 5 {
        assert i == 0 || i == 1 || i == 2 || i == 3 || i == 4;
      } else {
        assert i == 5 || i == 6 || i == 7 || i == 8 || i == 9;
      }
    }
    EveryCategoryHasItsKey(cats, sql);
  }
  /** Statements that share a key are all kept, one per line in the order of
      the list; none overwrites another. */
  lemma CollidingStatementsAreKept(diff: SchemaDiff, sql: StatementMap)
    requires diff.tablesOnlyInFirst == [("public", "table1"), ("public", "table2")]
    requires Describes(SchemaCategories(diff), sql)
    ensures DropTableInFirst in sql && CreateTableInSecond in sql
    ensures sql[DropTableInFirst] == DropTableSql(("public", "table1")) + "\n" + DropTableSql(("public", "table2"))
    ensures sql[CreateTableInSecond] ==
      CreateTableSql(("public", "table1")) + "\n" + CreateTableSql(("public", "table2"))
  {
    var cats := SchemaCategories(diff);
    CategoryValue(cats, sql, 0);
    CategoryValue(cats, sql, 6);
    JoinOfTwo(cats[0].statements);
    JoinOfTwo(cats[6].statements);
  }

  lemma JoinOfTwo(parts: seq<string>)
    requires |parts| == 2
    ensures Join(parts, "\n") == parts[0] + "\n" + parts[1]
  {
    assert parts[1..][0] == parts[1] && |parts[1..]| == 1;
  }

  /** One table only in each schema: the four table keys, with their
      statements. */
  lemma TableDifferencesExample(sql: StatementMap)
    requires Describes(SchemaCategories(SchemaDiff([("public", "old_table")], [("public", "new_table")], [], [], [])), sql)
    ensures DropTableInFirst in sql && CreateTableInFirst in sql
    ensures DropTableInSecond in sql && CreateTableInSecond in sql
    ensures sql[DropTableInFirst] == "DROP TABLE public.old_table;"
    ensures sql[CreateTableInFirst] == "-- CREATE TABLE public.new_table (...);"
  {
    var cats := SchemaCategories(SchemaDiff([("public", "old_table")], [("public", "new_table")], [], [], []));
    CategoryValue(cats, sql, 0);
    CategoryValue(cats, sql, 1);
    CategoryValue(cats, sql, 5);
    CategoryValue(cats, sql, 6);
    DropOldTable();
    CreateNewTable();
  }

  lemma DropOldTable()
    ensures DropTableSql(("public", "old_table")) == "DROP TABLE public.old_table;"
  {
    assert "DROP TABLE " + "public" == "DROP TABLE public";
    assert "DROP TABLE public" + "." == "DROP TABLE public.";
    assert "DROP TABLE public." + "old_table" == "DROP TABLE public.old_table";
  }

  lemma CreateNewTable()
    ensures CreateTableSql(("public", "new_table")) == "-- CREATE TABLE public.new_table (...);"
  {
    assert "-- CREATE TABLE " + "public" == "-- CREATE TABLE public";
    assert "-- CREATE TABLE public" + "." == "-- CREATE TABLE public.";
    assert "-- CREATE TABLE public." + "new_table" == "-- CREATE TABLE public.new_table";
    assert "-- CREATE TABLE public.new_table" + " (...);" == "-- CREATE TABLE public.new_table (...);";
  }

  /** A column with an integer default keeps the default bare. */
  lemma IntegerDefaultIsBare()
    ensures ColumnDefinition(ColumnInfo("public", "users", "new_column", "integer", "NO", Some("0"), None)) ==
      "integer" + " NOT NULL" + " DEFAULT " + "0"
  {
    assert AllAsciiDigits("0");
  }

  /** The length of a `varchar` is shown, and a default of two quotes is
      quoted with both of them doubled. */
  lemma QuotedEmptyDefault()
    ensures ColumnDefinition(ModifiedColumn().second) == "varchar(100)" + " NOT NULL" + " DEFAULT '" + "''''" + "'"
  {
    assert NatToString(100) == "100";
    assert !AllAsciiDigits("''") by { assert !IsAsciiDigit("''"[0]); }
    assert Escape("''") == "''''" by {
      assert "''"[1..] == "'" && "'"[1..] == "";
    }
    assert "varchar" + "(" + "100" + ")" == "varchar(100)";
  }

  /** A nullable `varchar` without a default. */
  lemma NullableVarchar()
    ensures ColumnDefinition(ModifiedColumn().first) == "varchar(255)" + " NULL"
  {
    assert NatToString(255) == "255";
    assert "varchar" + "(" + "255" + ")" == "varchar(255)";
  }

  /** The difference the modification test builds. */
  function ModifiedColumn(): ColumnDifference
  {
    ColumnDifference("users", "modified_column",
      ColumnInfo("public", "users", "modified_column", "varchar", "YES", None, Some(255)),
      ColumnInfo("public", "users", "modified_column", "varchar", "NO", Some("''"), Some(100)))
  }

  /** A decimal default is not all digits, so it is quoted. */
  lemma DecimalDefaultIsQuoted()
    ensures ColumnDefinition(ColumnInfo("public", "products", "price", "decimal", "NO", Some("0.00"), None)) ==
      "decimal" + " NOT NULL" + " DEFAULT '" + "0.00" + "'"
  {
    assert !AllAsciiDigits("0.00") by { assert !IsAsciiDigit("0.00"[1]); }
    assert Escape("0.00") == "0.00" by {
      assert "0.00"[1..] == ".00" && ".00"[1..] == "00" && "00"[1..] == "0" && "0"[1..] == "";
    }
  }

  // ---------------------------------------------------------------------------
  // compare_schemas

  /** `compare_schemas` up to its final serialisation: both documents are
      read (the first failure is returned as it is), grouped and compared,
      and the statements are generated from the difference. */
  method CompareSchemas(doc1: Json, doc2: Json) returns (r: Result<(SchemaDiff, StatementMap), string>)
    ensures CreateColumnInfo(doc1).Failure? ==> r == Failure(CreateColumnInfo(doc1).error)
    ensures CreateColumnInfo(doc1).Success? && CreateColumnInfo(doc2).Failure? ==>
      r == Failure(CreateColumnInfo(doc2).error)
    ensures CreateColumnInfo(doc1).Success? && CreateColumnInfo(doc2).Success? ==>
      r.Success? &&
      (exists m1, m2 :: GroupsColumns(CreateColumnInfo(doc1).value, m1) &&
                        GroupsColumns(CreateColumnInfo(doc2).value, m2) &&
                        DescribesSchemaDiff(m1, m2, r.value.0)) &&
      Describes(SchemaCategories(r.value.0), r.value.1)
  {
    var columns1 := CreateColumnInfo(doc1);
    if columns1.Failure? {
      return Failure(columns1.error);
    }
    var columns2 := CreateColumnInfo(doc2);
    if columns2.Failure? {
      return Failure(columns2.error);
    }
    var map1 := BuildSchemaMap(columns1.value);
    var map2 := BuildSchemaMap(columns2.value);
    var diff := CompareSchemaMaps(map1, map2);
    var sqlStatements := GenerateSqlDiff(diff);
    r := Success((diff, sqlStatements));
  }
}
