/** `generate_sql_index_diff` and `compare_indexs` of src/index.rs: the DROP
    INDEX and CREATE INDEX statements that turn either schema into the
    other, grouped under six fixed keys. */
module IndexSql {
  import opened Wrappers
  import opened Text
  import opened NumericField
  import opened JsonValue
  import opened Columns
  import opened StatementMap
  import opened Indexes
  import opened IndexGrouping
  import opened IndexOrder
  import opened IndexDiffs

  // ---------------------------------------------------------------------------
  // The statements

  /** What both statements name: the index in backquotes, `ON`, and the
      table by its grouping key (the schema in backquotes, a dot and the bare
      table name). */
  function IndexTarget(name: string, schema: string, table: string): (target: string)
    ensures "`" + name + "` ON " <= target
    ensures EndsWith(target, "`" + schema + "`." + table)
    ensures |target| == |name| + |schema| + |table| + 9
  {
    EndsWithAppend("`" + name + "` ON ", "`" + schema + "`." + table);
    "`" + name + "` ON `" + schema + "`." + table
  }

  function DropIndexSql(name: string, schema: string, table: string): (sql: string)
    ensures |sql| == |IndexTarget(name, schema, table)| + 12
    ensures "DROP INDEX " <= sql && EndsWith(sql, ";")
    ensures sql[11..|sql| - 1] == IndexTarget(name, schema, table)
  {
    EndsWithAppend("DROP INDEX " + IndexTarget(name, schema, table), ";");
    assert ("DROP INDEX " + IndexTarget(name, schema, table) + ";")[11..|IndexTarget(name, schema, table)| + 11] ==
      IndexTarget(name, schema, table);
    "DROP INDEX " + IndexTarget(name, schema, table) + ";"
  }

  /** Dropping the index a record belongs to. */
  function DropIndexOf(x: IndexInfo): string
  {
    DropIndexSql(x.indexName, x.tableSchema, x.tableName)
  }

  /** `matches!(index.non_unique, Some(0))`. */
  predicate IsUnique(x: IndexInfo)
  {
    x.nonUnique == Some(0)
  }

  /** Creating the index of a record over its one column; UNIQUE exactly when
      `non_unique` is `Some(0)`. */
  function CreateIndexSql(x: IndexInfo): (sql: string)
    ensures "CREATE " <= sql
    ensures IsUnique(x) ==> "CREATE UNIQUE INDEX " <= sql
    ensures !IsUnique(x) ==> "CREATE INDEX " <= sql
    ensures EndsWith(sql, IndexTarget(x.indexName, x.tableSchema, x.tableName) + " (" + x.columnName + ");")
    ensures |sql| == (if IsUnique(x) then 20 else 13) + |IndexTarget(x.indexName, x.tableSchema, x.tableName)| +
                     |x.columnName| + 4
  {
    var verb := if IsUnique(x) then "CREATE UNIQUE INDEX " else "CREATE INDEX ";
    var tail := IndexTarget(x.indexName, x.tableSchema, x.tableName) + " (" + x.columnName + ");";
    EndsWithAppend(verb, tail);
    assert "CREATE " <= verb;
    verb + tail
  }

  /** The schema 1 side of a difference: drop the index (named by the first
      record, on the difference's table) and create it as the second record
      defines it. */
  function ModifyInFirstSql(d: IndexDifference): (sql: string)
    ensures DropIndexSql(d.first.indexName, d.first.tableSchema, d.tableName) + "\n" <= sql
    ensures EndsWith(sql, "\n" + CreateIndexSql(d.second))
  {
    var drop := DropIndexSql(d.first.indexName, d.first.tableSchema, d.tableName);
    var create := CreateIndexSql(d.second);
    EndsWithAppend3(drop, "\n", create);
    drop + "\n" + create
  }

  /** The schema 2 side: drop the first record's index and create it as
      the first record defines it. */
  function ModifyInSecondSql(d: IndexDifference): (sql: string)
    ensures DropIndexOf(d.first) + "\n" <= sql
    ensures EndsWith(sql, "\n" + CreateIndexSql(d.first))
  {
    var drop := DropIndexSql(d.first.indexName, d.first.tableSchema, d.first.tableName);
    var create := CreateIndexSql(d.first);
    EndsWithAppend3(drop, "\n", create);
    drop + "\n" + create
  }

  const DropIndexInFirst := "Drop index in Schema 1 (Schema 1 only)"
  const AddIndexInFirst := "Add index in Schema 1 (Schema 2 only)"
  const ModifyIndexInFirst := "Modify index in Schema 1"
  const AddIndexInSecond := "Add index in Schema 2 (Schema 1 only)"
  const DropIndexInSecond := "Drop index in Schema 2 (Schema 2 only)"
  const ModifyIndexInSecond := "Modify index in Schema 2"

  /** The six categories of `generate_sql_index_diff`, in the order it fills
      them: first what turns schema 1 into schema 2, then the reverse. */
  function IndexCategories(diff: IndexDiff): (cats: seq<Category>)
    ensures |cats| == 6
    ensures forall i :: 0 <= i < 3 ==> |cats[i].statements| == |cats[i + 3].statements|
  {
    [ Category(DropIndexInFirst, Rendered(diff.indexesOnlyInFirst, DropIndexOf)),
      Category(AddIndexInFirst, Rendered(diff.indexesOnlyInSecond, CreateIndexSql)),
      Category(ModifyIndexInFirst, Rendered(diff.indexesWithDifferentDefinitions, ModifyInFirstSql)),
      Category(AddIndexInSecond, Rendered(diff.indexesOnlyInFirst, CreateIndexSql)),
      Category(DropIndexInSecond, Rendered(diff.indexesOnlyInSecond, DropIndexOf)),
      Category(ModifyIndexInSecond, Rendered(diff.indexesWithDifferentDefinitions, ModifyInSecondSql)) ]
  }

  lemma IndexLabelsDistinct(diff: IndexDiff)
    ensures DistinctLabels(IndexCategories(diff))
  {
    IndexLabelsDiffer();
  }

  /** Labels of equal length differ in the digit that names the schema. */
  lemma IndexLabelsDiffer()
    ensures |DropIndexInFirst| == |DropIndexInSecond| == 38
    ensures |AddIndexInFirst| == |AddIndexInSecond| == 37
    ensures |ModifyIndexInFirst| == |ModifyIndexInSecond| == 24
    ensures DropIndexInFirst[21] == '1' && DropIndexInSecond[21] == '2'
    ensures AddIndexInFirst[20] == '1' && AddIndexInSecond[20] == '2'
    ensures ModifyIndexInFirst[23] == '1' && ModifyIndexInSecond[23] == '2'
  {
  }

  // ---------------------------------------------------------------------------
  // generate_sql_index_diff

  /** A CREATE INDEX block: each record decides its own `UNIQUE` keyword in turn. */
  method EmitCreateIndexes(sql: StatementMap, key: string, indexes: seq<IndexInfo>) returns (r: StatementMap)
    ensures r == WithStatements(sql, key, Rendered(indexes, CreateIndexSql))
  {
    r := sql;
    if |indexes| == 0 {
      return;
    }
    for i := 0 to |indexes|
      invariant r == WithStatements(sql, key, Rendered(indexes[..i], CreateIndexSql))
    {
      var index := indexes[i];
      var isUnique := index.nonUnique == Some(0);
      var verb := if isUnique then "CREATE UNIQUE INDEX " else "CREATE INDEX ";
      var value := verb + (IndexTarget(index.indexName, index.tableSchema, index.tableName) +
        " (" + index.columnName + ");");
      EmitStep(sql, key, indexes, CreateIndexSql, i);
      if key in r {
        r := r[key := r[key] + "\n" + value];
      } else {
        r := r[key := value];
      }
    }
    assert indexes[..|indexes|] == indexes;
  }

  /** A Modify block: a DROP, a newline and a CREATE per difference, towards
      the second record (`inFirst`) or the first. */
  method EmitModifyIndexes(sql: StatementMap, key: string, diffs: seq<IndexDifference>, inFirst: bool)
    returns (r: StatementMap)
    ensures r == WithStatements(sql, key, Rendered(diffs, if inFirst then ModifyInFirstSql else ModifyInSecondSql))
  {
    var render := if inFirst then ModifyInFirstSql else ModifyInSecondSql;
    r := sql;
    if |diffs| == 0 {
      return;
    }
    for i := 0 to |diffs|
      invariant r == WithStatements(sql, key, Rendered(diffs[..i], render))
    {
      var item := diffs[i];
      var dropValue := if inFirst then DropIndexSql(item.first.indexName, item.first.tableSchema, item.tableName)
                       else DropIndexSql(item.first.indexName, item.first.tableSchema, item.first.tableName);
      var target := if inFirst then item.second else item.first;
      var createValue := CreateIndexSql(target);
      var value := dropValue + "\n" + createValue;
      EmitStep(sql, key, diffs, render, i);
      if key in r {
        r := r[key := r[key] + "\n" + value];
      } else {
        r := r[key := value];
      }
    }
    assert diffs[..|diffs|] == diffs;
  }

  /** `generate_sql_index_diff`: the six blocks in order, each skipped when
      its list is empty. The ghost `cats` lists the categories emitted so
      far. */
  method GenerateSqlIndexDiff(diff: IndexDiff) returns (sql: StatementMap)
    ensures Describes(IndexCategories(diff), sql)
  {
    sql := map[];
    ghost var cats: seq<Category> := [];
    ghost var before := sql;
    sql := EmitBlock(sql, DropIndexInFirst, diff.indexesOnlyInFirst, DropIndexOf);
    EmitAllSnoc(cats, Category(DropIndexInFirst, Rendered(diff.indexesOnlyInFirst, DropIndexOf)), before, sql);
    cats := cats + [Category(DropIndexInFirst, Rendered(diff.indexesOnlyInFirst, DropIndexOf))];
    before := sql;
    sql := EmitCreateIndexes(sql, AddIndexInFirst, diff.indexesOnlyInSecond);
    EmitAllSnoc(cats, Category(AddIndexInFirst, Rendered(diff.indexesOnlyInSecond, CreateIndexSql)), before, sql);
    cats := cats + [Category(AddIndexInFirst, Rendered(diff.indexesOnlyInSecond, CreateIndexSql))];
    before := sql;
    sql := EmitModifyIndexes(sql, ModifyIndexInFirst, diff.indexesWithDifferentDefinitions, true);
    EmitAllSnoc(cats, Category(ModifyIndexInFirst, Rendered(diff.indexesWithDifferentDefinitions, ModifyInFirstSql)), before, sql);
    cats := cats + [Category(ModifyIndexInFirst, Rendered(diff.indexesWithDifferentDefinitions, ModifyInFirstSql))];
    before := sql;
    sql := EmitCreateIndexes(sql, AddIndexInSecond, diff.indexesOnlyInFirst);
    EmitAllSnoc(cats, Category(AddIndexInSecond, Rendered(diff.indexesOnlyInFirst, CreateIndexSql)), before, sql);
    cats := cats + [Category(AddIndexInSecond, Rendered(diff.indexesOnlyInFirst, CreateIndexSql))];
    before := sql;
    sql := EmitBlock(sql, DropIndexInSecond, diff.indexesOnlyInSecond, DropIndexOf);
    EmitAllSnoc(cats, Category(DropIndexInSecond, Rendered(diff.indexesOnlyInSecond, DropIndexOf)), before, sql);
    cats := cats + [Category(DropIndexInSecond, Rendered(diff.indexesOnlyInSecond, DropIndexOf))];
    before := sql;
    sql := EmitModifyIndexes(sql, ModifyIndexInSecond, diff.indexesWithDifferentDefinitions, false);
    EmitAllSnoc(cats, Category(ModifyIndexInSecond, Rendered(diff.indexesWithDifferentDefinitions, ModifyInSecondSql)), before, sql);
    cats := cats + [Category(ModifyIndexInSecond, Rendered(diff.indexesWithDifferentDefinitions, ModifyInSecondSql))];
    assert cats == IndexCategories(diff);
    IndexLabelsDistinct(diff);
    EmitAllDescribes(cats);
  }

  // ---------------------------------------------------------------------------
  // What the statements promise

  /** An empty diff produces no statement at all. */
  lemma EmptyIndexDiffHasNoStatements(sql: StatementMap)
    requires Describes(IndexCategories(IndexDiff([], [], [])), sql)
    ensures sql == map[]
  {
    NoStatementsNoKeys(IndexCategories(IndexDiff([], [], [])), sql);
  }

  /** A diff with all three lists non-empty produces exactly the six keys. */
  lemma FullIndexDiffHasSixKeys(diff: IndexDiff, sql: StatementMap)
    requires |diff.indexesOnlyInFirst| > 0 && |diff.indexesOnlyInSecond| > 0
    requires |diff.indexesWithDifferentDefinitions| > 0
    requires Describes(IndexCategories(diff), sql)
    ensures |sql.Keys| == 6
  {
    IndexLabelsDistinct(diff);
    EveryCategoryHasItsKey(IndexCategories(diff), sql);
  }

  /** Whatever the diff, no key other than the six labels appears. */
  lemma AtMostSixKeys(diff: IndexDiff, sql: StatementMap)
    requires Describes(IndexCategories(diff), sql)
    ensures sql.Keys <= {DropIndexInFirst, AddIndexInFirst, ModifyIndexInFirst,
                         AddIndexInSecond, DropIndexInSecond, ModifyIndexInSecond}
  {
    var cats := IndexCategories(diff);
    IndexCategoryKeys(diff);
    forall k | k in sql
      ensures k in {DropIndexInFirst, AddIndexInFirst, ModifyIndexInFirst,
                    AddIndexInSecond, DropIndexInSecond, ModifyIndexInSecond}
    {
      var i :| 0 <= i < |cats| && cats[i].key == k;
      assert i == 0 || i == 1 || i == 2 || i == 3 || i == 4 || i == 5;
    }
  }

  /** The key of each of the six categories. */
  lemma IndexCategoryKeys(diff: IndexDiff)
    ensures var cats := IndexCategories(diff);
      cats[0].key == DropIndexInFirst && cats[1].key == AddIndexInFirst &&
      cats[2].key == ModifyIndexInFirst && cats[3].key == AddIndexInSecond &&
      cats[4].key == DropIndexInSecond && cats[5].key == ModifyIndexInSecond
  {
  }

  /** Comparing two identical maps yields no statement. */
  lemma IdenticalMapsHaveNoStatements(m: IndexMap, d: IndexDiff, sql: StatementMap)
    requires DescribesIndexDiff(m, m, d)
    requires Describes(IndexCategories(d), sql)
    ensures sql == map[]
  {
    SameMapHasNoDifferences(m, d);
    EmptyIndexDiffHasNoStatements(sql);
  }

  /** A CREATE statement says UNIQUE exactly when `non_unique` is `Some(0)`. */
  lemma UniqueExactlyWhenZero(x: IndexInfo)
    ensures var s := CreateIndexSql(x);
      (|s| >= 20 && s[..20] == "CREATE UNIQUE INDEX ") <==> x.nonUnique == Some(0)
  {
    var s := CreateIndexSql(x);
    var rest := IndexTarget(x.indexName, x.tableSchema, x.tableName) + " (" + x.columnName + ");";
    if IsUnique(x) {
      assert s == "CREATE UNIQUE INDEX " + rest;
      assert s[..20] == "CREATE UNIQUE INDEX ";
    } else {
      assert s == "CREATE INDEX " + rest;
      assert s[7] == 'I';
      assert "CREATE UNIQUE INDEX "[7] == 'U';
    }
  }

  /** The records of an index difference come from the same table, whose key
      is `table_key`; when neither schema nor table has a dot, the table name
      the difference carries is that table's, so that dropping in schema 1
      drops the right index. */
  lemma ModifyInFirstDropsTheIndex(d: IndexDifference)
    requires d.tableName == TableNameOf(IndexTableKey(d.first))
    requires '.' !in d.first.tableSchema && '.' !in d.first.tableName
    ensures ModifyInFirstSql(d) == DropIndexOf(d.first) + "\n" + CreateIndexSql(d.second)
  {
    var quoted := "`" + d.first.tableSchema + "`";
    assert '.' !in quoted by {
      assert forall i :: 0 <= i < |quoted| ==> quoted[i] == '`' || quoted[i] in d.first.tableSchema;
    }
    assert IndexTableKey(d.first) == quoted + "." + d.first.tableName;
    SplitTableKeyRoundTrip(quoted, d.first.tableName);
  }

  // ---------------------------------------------------------------------------
  // compare_indexs

  /** The records of a document, or none when it cannot be read. */
  function IndexesOrNone(doc: Json): (indexes: seq<IndexInfo>)
    ensures CreateIndexInfo(doc).Success? ==> indexes == CreateIndexInfo(doc).value
    ensures CreateIndexInfo(doc).Failure? ==> indexes == []
  {
    match CreateIndexInfo(doc)
    case Success(indexes) => indexes
    case Failure(_) => []
  }

  /** `compare_indexs` up to its final serialisation: a document that cannot
      be read counts as one without indexes; both are grouped and compared,
      and the statements are generated from the difference. */
  method CompareIndexes(doc1: Json, doc2: Json) returns (diff: IndexDiff, sql: StatementMap)
    ensures DescribesIndexDiff(Grouped(IndexesOrNone(doc1)), Grouped(IndexesOrNone(doc2)), diff)
    ensures Describes(IndexCategories(diff), sql)
  {
    var indexes1 := IndexesOrNone(doc1);
    var indexes2 := IndexesOrNone(doc2);
    var indexMap1 := BuildIndexMap(indexes1);
    var indexMap2 := BuildIndexMap(indexes2);
    GroupedMapsAreSafe(indexes1, indexes2);
    diff := CompareIndexMaps(indexMap1, indexMap2);
    sql := GenerateSqlIndexDiff(diff);
  }

  /** A document compared with itself yields no difference and no
      statement. */
  lemma SameDocumentNoStatements(doc: Json, diff: IndexDiff, sql: StatementMap)
    requires DescribesIndexDiff(Grouped(IndexesOrNone(doc)), Grouped(IndexesOrNone(doc)), diff)
    requires Describes(IndexCategories(diff), sql)
    ensures diff == IndexDiff([], [], []) && sql == map[]
  {
    IdenticalMapsHaveNoStatements(Grouped(IndexesOrNone(doc)), diff, sql);
    SameMapHasNoDifferences(Grouped(IndexesOrNone(doc)), diff);
  }
}
