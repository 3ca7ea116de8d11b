/** `compare_schema_maps` of src/lib.rs: which tables and columns only one
    schema has, and which shared columns are defined differently.

    The source walks `HashSet` differences and intersections, so the order
    of each list it returns is unspecified. What it promises is the contents
    of each list, stated here as multisets (`Bags.Sum`). */
module ColumnDiff {
  import opened Wrappers
  import opened Bags
  import opened Columns
  import opened NumericField

  /** `ColumnDifference`: a shared column whose two records differ. */
  datatype ColumnDifference = ColumnDifference(
    tableName: string,
    columnName: string,
    first: ColumnInfo,
    second: ColumnInfo)

  /** `SchemaDiff`. */
  datatype SchemaDiff = SchemaDiff(
    tablesOnlyInFirst: seq<(string, string)>,
    tablesOnlyInSecond: seq<(string, string)>,
    columnsOnlyInFirst: seq<ColumnInfo>,
    columnsOnlyInSecond: seq<ColumnInfo>,
    columnsWithDifferentDefinitions: seq<ColumnDifference>)

  // ---------------------------------------------------------------------------
  // What each list holds

  /** What one table key that only one side has contributes: its
      `(schema, table)` pair. */
  function TableEntry(k: string): multiset<(string, string)>
  {
    multiset{SplitTableKey(k)}
  }

  ghost function TablesOver(keys: set<string>): multiset<(string, string)>
  {
    Sum(keys, TableEntry)
  }

  /** The `(schema, table)` pairs of the tables of `m1` that `m2` lacks. */
  ghost function TablesOnlyIn(m1: SchemaMap, m2: SchemaMap): multiset<(string, string)>
  {
    TablesOver(m1.Keys - m2.Keys)
  }

  /** What a column name contributes: the record `cols` holds under it. */
  function ColumnEntries(cols: map<string, ColumnInfo>): string -> multiset<ColumnInfo>
  {
    c => if c in cols then multiset{cols[c]} else multiset{}
  }

  ghost function RecordsOver(cols: map<string, ColumnInfo>, names: set<string>): multiset<ColumnInfo>
  {
    Sum(names, ColumnEntries(cols))
  }

  /** Within one shared table, the records of the columns `cols1` has and
      `cols2` lacks. */
  ghost function ColumnsOnlyInTable(cols1: map<string, ColumnInfo>, cols2: map<string, ColumnInfo>): multiset<ColumnInfo>
  {
    RecordsOver(cols1, cols1.Keys - cols2.Keys)
  }

  /** What a shared table key contributes to the columns only `m1` has. */
  ghost function OnlyColumnEntries(m1: SchemaMap, m2: SchemaMap): string -> multiset<ColumnInfo>
  {
    k => if k in m1 && k in m2 then ColumnsOnlyInTable(m1[k], m2[k]) else multiset{}
  }

  ghost function ColumnsOnlyOver(m1: SchemaMap, m2: SchemaMap, keys: set<string>): multiset<ColumnInfo>
  {
    Sum(keys, OnlyColumnEntries(m1, m2))
  }

  /** The columns of the shared tables that only `m1` has. Tables that only
      one side has contribute nothing. */
  ghost function ColumnsOnlyIn(m1: SchemaMap, m2: SchemaMap): multiset<ColumnInfo>
  {
    ColumnsOnlyOver(m1, m2, m1.Keys * m2.Keys)
  }

  /** The shared column names of one table whose records differ. */
  ghost function DifferingNames(cols1: map<string, ColumnInfo>, cols2: map<string, ColumnInfo>): set<string>
  {
    set c | c in cols1.Keys * cols2.Keys && cols1[c] != cols2[c]
  }

  /** What a shared column name contributes: the pair of its records. */
  function DifferenceEntries(tableName: string, cols1: map<string, ColumnInfo>, cols2: map<string, ColumnInfo>)
    : string -> multiset<ColumnDifference>
  {
    c => if c in cols1 && c in cols2 then multiset{ColumnDifference(tableName, c, cols1[c], cols2[c])}
         else multiset{}
  }

  ghost function DifferencesOver(tableName: string, cols1: map<string, ColumnInfo>, cols2: map<string, ColumnInfo>,
                                 names: set<string>): multiset<ColumnDifference>
  {
    Sum(names, DifferenceEntries(tableName, cols1, cols2))
  }

  ghost function DifferencesInTable(tableName: string, cols1: map<string, ColumnInfo>, cols2: map<string, ColumnInfo>)
    : multiset<ColumnDifference>
  {
    DifferencesOver(tableName, cols1, cols2, DifferingNames(cols1, cols2))
  }

  /** What a shared table key contributes to the differences. */
  ghost function TableDifferenceEntries(m1: SchemaMap, m2: SchemaMap): string -> multiset<ColumnDifference>
  {
    k => if k in m1 && k in m2 then DifferencesInTable(TableNameOf(k), m1[k], m2[k]) else multiset{}
  }

  ghost function DifferencesOverTables(m1: SchemaMap, m2: SchemaMap, keys: set<string>): multiset<ColumnDifference>
  {
    Sum(keys, TableDifferenceEntries(m1, m2))
  }

  /** One difference per shared column of a shared table whose records are
      not equal field for field. */
  ghost function Differences(m1: SchemaMap, m2: SchemaMap): multiset<ColumnDifference>
  {
    DifferencesOverTables(m1, m2, m1.Keys * m2.Keys)
  }

  /** What `compare_schema_maps(m1, m2)` returns, up to the order of each list. */
  ghost predicate DescribesSchemaDiff(m1: SchemaMap, m2: SchemaMap, d: SchemaDiff)
  {
    multiset(d.tablesOnlyInFirst) == TablesOnlyIn(m1, m2) &&
    multiset(d.tablesOnlyInSecond) == TablesOnlyIn(m2, m1) &&
    multiset(d.columnsOnlyInFirst) == ColumnsOnlyIn(m1, m2) &&
    multiset(d.columnsOnlyInSecond) == ColumnsOnlyIn(m2, m1) &&
    multiset(d.columnsWithDifferentDefinitions) == Differences(m1, m2)
  }

  // ---------------------------------------------------------------------------
  // The loops

  lemma ColumnsOnlyOverStep(m1: SchemaMap, m2: SchemaMap, done: set<string>, k: string)
    requires k in m1 && k in m2 && k !in done
    ensures ColumnsOnlyOver(m1, m2, done + {k}) == ColumnsOnlyOver(m1, m2, done) + ColumnsOnlyInTable(m1[k], m2[k])
  {
    SumInsert(done, OnlyColumnEntries(m1, m2), k);
  }

  lemma DifferencesOverTablesStep(m1: SchemaMap, m2: SchemaMap, done: set<string>, k: string)
    requires k in m1 && k in m2 && k !in done
    ensures DifferencesOverTables(m1, m2, done + {k}) ==
      DifferencesOverTables(m1, m2, done) + DifferencesInTable(TableNameOf(k), m1[k], m2[k])
  {
    SumInsert(done, TableDifferenceEntries(m1, m2), k);
  }

  /** One more shared column name: it joins the differing names seen iff its
      records differ, and then its difference joins the bag. */
  lemma DifferencesStep(tableName: string, cols1: map<string, ColumnInfo>, cols2: map<string, ColumnInfo>,
                        done: set<string>, pending: set<string>, c: string)
    requires pending <= cols1.Keys * cols2.Keys && c in pending
    requires done == DifferingNames(cols1, cols2) - pending
    ensures cols1[c] != cols2[c] ==>
      done + {c} == DifferingNames(cols1, cols2) - (pending - {c}) &&
      DifferencesOver(tableName, cols1, cols2, done + {c}) ==
        DifferencesOver(tableName, cols1, cols2, done) + multiset{ColumnDifference(tableName, c, cols1[c], cols2[c])}
    ensures cols1[c] == cols2[c] ==> done == DifferingNames(cols1, cols2) - (pending - {c})
  {
    var names := DifferingNames(cols1, cols2);
    assert c in names <==> cols1[c] != cols2[c];
    if cols1[c] != cols2[c] {
      assert c !in done;
      SumInsert(done, DifferenceEntries(tableName, cols1, cols2), c);
    }
  }

  /** The `tables_only_in_*` list: each table key of `m1` that `m2` lacks,
      split back into `(schema, table)`. */
  method TablesOnlyInList(m1: SchemaMap, m2: SchemaMap) returns (r: seq<(string, string)>)
    ensures multiset(r) == TablesOnlyIn(m1, m2)
  {
    var all := m1.Keys - m2.Keys;
    var pending := all;
    r := [];
    while pending != {}
      invariant pending <= all
      invariant multiset(r) == TablesOver(all - pending)
      decreases pending
    {
      var k :| k in pending;
      MoveOne(all, pending, k);
      SumInsert(all - pending, TableEntry, k);
      r := r + [SplitTableKey(k)];
      pending := pending - {k};
    }
    assert all - pending == all;
  }

  /** The columns of one shared table that `cols1` has and `cols2` lacks. */
  method ColumnsOnlyInTableList(cols1: map<string, ColumnInfo>, cols2: map<string, ColumnInfo>)
    returns (r: seq<ColumnInfo>)
    ensures multiset(r) == ColumnsOnlyInTable(cols1, cols2)
  {
    var all := cols1.Keys - cols2.Keys;
    var pending := all;
    r := [];
    while pending != {}
      invariant pending <= all
      invariant multiset(r) == RecordsOver(cols1, all - pending)
      decreases pending
    {
      var c :| c in pending;
      MoveOne(all, pending, c);
      SumInsert(all - pending, ColumnEntries(cols1), c);
      assert ColumnEntries(cols1)(c) == multiset{cols1[c]};
      r := r + [cols1[c]];
      pending := pending - {c};
    }
    assert all - pending == all;
  }

  /** The differing shared columns of one shared table. */
  method DifferencesInTableList(tableName: string, cols1: map<string, ColumnInfo>, cols2: map<string, ColumnInfo>)
    returns (r: seq<ColumnDifference>)
    ensures multiset(r) == DifferencesInTable(tableName, cols1, cols2)
  {
    var shared := cols1.Keys * cols2.Keys;
    var pending := shared;
    ghost var done: set<string> := {};
    r := [];
    while pending != {}
      invariant pending <= shared && done <= shared
      invariant done == DifferingNames(cols1, cols2) - pending
      invariant multiset(r) == DifferencesOver(tableName, cols1, cols2, done)
      decreases pending
    {
      var c :| c in pending;
      DifferencesStep(tableName, cols1, cols2, done, pending, c);
      if cols1[c] != cols2[c] {
        r := r + [ColumnDifference(tableName, c, cols1[c], cols2[c])];
        done := done + {c};
      }
      pending := pending - {c};
    }
    assert done == DifferingNames(cols1, cols2);
  }

  /** `compare_schema_maps`. */
  method CompareSchemaMaps(m1: SchemaMap, m2: SchemaMap) returns (d: SchemaDiff)
    ensures DescribesSchemaDiff(m1, m2, d)
  {
    var tablesOnlyInFirst := TablesOnlyInList(m1, m2);
    var tablesOnlyInSecond := TablesOnlyInList(m2, m1);
    var onlyFirst, onlySecond, different := CompareCommonTables(m1, m2);
    assert m2.Keys * m1.Keys == m1.Keys * m2.Keys;
    d := SchemaDiff(tablesOnlyInFirst, tablesOnlyInSecond, onlyFirst, onlySecond, different);
  }

  /** The loop of `compare_schema_maps` over the tables both maps have. */
  method CompareCommonTables(m1: SchemaMap, m2: SchemaMap)
    returns (onlyFirst: seq<ColumnInfo>, onlySecond: seq<ColumnInfo>, different: seq<ColumnDifference>)
    ensures multiset(onlyFirst) == ColumnsOnlyOver(m1, m2, m1.Keys * m2.Keys)
    ensures multiset(onlySecond) == ColumnsOnlyOver(m2, m1, m1.Keys * m2.Keys)
    ensures multiset(different) == DifferencesOverTables(m1, m2, m1.Keys * m2.Keys)
  {
    var common := m1.Keys * m2.Keys;
    onlyFirst, onlySecond, different := [], [], [];
    var pending := common;
    while pending != {}
      invariant pending <= common
      invariant multiset(onlyFirst) == ColumnsOnlyOver(m1, m2, common - pending)
      invariant multiset(onlySecond) == ColumnsOnlyOver(m2, m1, common - pending)
      invariant multiset(different) == DifferencesOverTables(m1, m2, common - pending)
      decreases pending
    {
      var k :| k in pending;
      MoveOne(common, pending, k);
      var done := common - pending;
      var a := ColumnsOnlyInTableList(m1[k], m2[k]);
      var b := ColumnsOnlyInTableList(m2[k], m1[k]);
      var c := DifferencesInTableList(TableNameOf(k), m1[k], m2[k]);
      ColumnsOnlyOverStep(m1, m2, done, k);
      ColumnsOnlyOverStep(m2, m1, done, k);
      DifferencesOverTablesStep(m1, m2, done, k);
      onlyFirst, onlySecond, different := onlyFirst + a, onlySecond + b, different + c;
      pending := pending - {k};
    }
    assert common - pending == common;
  }

  // ---------------------------------------------------------------------------
  // Properties of the comparison

  lemma SingletonBag<T>(s: seq<T>, x: T)
    requires multiset(s) == multiset{x}
    ensures s == [x]
  {
    assert |s| == |multiset(s)| == 1;
    assert s[0] in multiset(s);
    assert s == [s[0]];
  }

  /** Comparing a schema with itself finds nothing at all. */
  lemma SameSchemaHasNoDifferences(m: SchemaMap, d: SchemaDiff)
    requires DescribesSchemaDiff(m, m, d)
    ensures d == SchemaDiff([], [], [], [], [])
  {
    assert m.Keys - m.Keys == {};
    forall k | k in m.Keys * m.Keys ensures OnlyColumnEntries(m, m)(k) == multiset{} {
      assert m[k].Keys - m[k].Keys == {};
    }
    SumOfEmpties(m.Keys * m.Keys, OnlyColumnEntries(m, m));
    forall k | k in m.Keys * m.Keys ensures TableDifferenceEntries(m, m)(k) == multiset{} {
      assert DifferingNames(m[k], m[k]) == {};
    }
    SumOfEmpties(m.Keys * m.Keys, TableDifferenceEntries(m, m));
    EmptyBag(d.tablesOnlyInFirst);
    EmptyBag(d.tablesOnlyInSecond);
    EmptyBag(d.columnsOnlyInFirst);
    EmptyBag(d.columnsOnlyInSecond);
    EmptyBag(d.columnsWithDifferentDefinitions);
  }

  /** The same difference seen from the other schema. */
  function Swapped(x: ColumnDifference): (r: ColumnDifference)
    ensures r.tableName == x.tableName && r.columnName == x.columnName
    ensures r.first == x.second && r.second == x.first
  {
    ColumnDifference(x.tableName, x.columnName, x.second, x.first)
  }

  /** Comparing the schemas the other way round exchanges the two sides of
      every list, and turns each difference around. */
  lemma ComparisonIsSymmetric(m1: SchemaMap, m2: SchemaMap, d: SchemaDiff, e: SchemaDiff)
    requires DescribesSchemaDiff(m1, m2, d) && DescribesSchemaDiff(m2, m1, e)
    ensures multiset(e.tablesOnlyInFirst) == multiset(d.tablesOnlyInSecond)
    ensures multiset(e.tablesOnlyInSecond) == multiset(d.tablesOnlyInFirst)
    ensures multiset(e.columnsOnlyInFirst) == multiset(d.columnsOnlyInSecond)
    ensures multiset(e.columnsOnlyInSecond) == multiset(d.columnsOnlyInFirst)
    ensures forall x :: (multiset(e.columnsWithDifferentDefinitions)[x] ==
                         multiset(d.columnsWithDifferentDefinitions)[Swapped(x)])
  {
    var common := m1.Keys * m2.Keys;
    assert m2.Keys * m1.Keys == common;
    forall k, x | k in common
      ensures TableDifferenceEntries(m2, m1)(k)[x] == TableDifferenceEntries(m1, m2)(k)[Swapped(x)]
    {
      DifferencesInTableSwap(TableNameOf(k), m1[k], m2[k]);
    }
    SumCorrespond(common, TableDifferenceEntries(m1, m2), TableDifferenceEntries(m2, m1), Swapped);
  }

  lemma DifferencesInTableSwap(tableName: string, cols1: map<string, ColumnInfo>, cols2: map<string, ColumnInfo>)
    ensures forall x :: (DifferencesInTable(tableName, cols2, cols1)[x] ==
                         DifferencesInTable(tableName, cols1, cols2)[Swapped(x)])
  {
    var names := DifferingNames(cols1, cols2);
    assert DifferingNames(cols2, cols1) == names;
    forall c, x | c in names
      ensures DifferenceEntries(tableName, cols2, cols1)(c)[x] == DifferenceEntries(tableName, cols1, cols2)(c)[Swapped(x)]
    {
      var y := ColumnDifference(tableName, c, cols2[c], cols1[c]);
      assert x == y <==> Swapped(x) == Swapped(y);
    }
    SumCorrespond(names, DifferenceEntries(tableName, cols1, cols2), DifferenceEntries(tableName, cols2, cols1), Swapped);
  }

  /** A pair is among the tables only `m1` has iff it splits from a table
      key that `m1` has and `m2` lacks. */
  lemma InTablesOnlyIn(m1: SchemaMap, m2: SchemaMap, p: (string, string))
    ensures p in TablesOnlyIn(m1, m2) <==> exists k :: k in m1 && k !in m2 && SplitTableKey(k) == p
  {
    SumMember(m1.Keys - m2.Keys, TableEntry, p);
    if exists k :: k in m1 && k !in m2 && SplitTableKey(k) == p {
      var k :| k in m1 && k !in m2 && SplitTableKey(k) == p;
      assert k in m1.Keys - m2.Keys && p in TableEntry(k);
    }
  }

  /** A record is among the columns only `m1` has iff it is a column of a
      table both maps have, and that table of `m2` lacks the column's name. */
  lemma InColumnsOnlyIn(m1: SchemaMap, m2: SchemaMap, x: ColumnInfo)
    ensures x in ColumnsOnlyIn(m1, m2) <==>
      exists k, c :: k in m1 && k in m2 && c in m1[k] && c !in m2[k] && m1[k][c] == x
  {
    if x in ColumnsOnlyIn(m1, m2) {
      OnlyColumnHasSource(m1, m2, x);
    }
    if exists k, c :: k in m1 && k in m2 && c in m1[k] && c !in m2[k] && m1[k][c] == x {
      var k, c :| k in m1 && k in m2 && c in m1[k] && c !in m2[k] && m1[k][c] == x;
      OnlyColumnIsReported(m1, m2, k, c);
    }
  }

  lemma OnlyColumnHasSource(m1: SchemaMap, m2: SchemaMap, x: ColumnInfo)
    requires x in ColumnsOnlyIn(m1, m2)
    ensures exists k, c :: k in m1 && k in m2 && c in m1[k] && c !in m2[k] && m1[k][c] == x
  {
    SumMember(m1.Keys * m2.Keys, OnlyColumnEntries(m1, m2), x);
    var k :| k in m1.Keys * m2.Keys && x in OnlyColumnEntries(m1, m2)(k);
    SumMember(m1[k].Keys - m2[k].Keys, ColumnEntries(m1[k]), x);
    var c :| c in m1[k].Keys - m2[k].Keys && x in ColumnEntries(m1[k])(c);
    assert k in m1 && k in m2 && c in m1[k] && c !in m2[k] && m1[k][c] == x;
  }

  lemma OnlyColumnIsReported(m1: SchemaMap, m2: SchemaMap, k: string, c: string)
    requires k in m1 && k in m2 && c in m1[k] && c !in m2[k]
    ensures m1[k][c] in ColumnsOnlyIn(m1, m2)
  {
    var x := m1[k][c];
    SumMember(m1[k].Keys - m2[k].Keys, ColumnEntries(m1[k]), x);
    assert c in m1[k].Keys - m2[k].Keys && x in ColumnEntries(m1[k])(c);
    SumMember(m1.Keys * m2.Keys, OnlyColumnEntries(m1, m2), x);
    assert k in m1.Keys * m2.Keys && x in OnlyColumnEntries(m1, m2)(k);
  }

  /** A difference is among those of `m1` against `m2` iff it pairs the two
      records of a column both maps have in a table both maps have, when
      those records are not equal; its table name is the key's part after
      the dot. */
  lemma InDifferences(m1: SchemaMap, m2: SchemaMap, x: ColumnDifference)
    ensures x in Differences(m1, m2) <==>
      exists k, c :: k in m1 && k in m2 && c in m1[k] && c in m2[k] && m1[k][c] != m2[k][c] &&
        x == ColumnDifference(TableNameOf(k), c, m1[k][c], m2[k][c])
  {
    if x in Differences(m1, m2) {
      DifferenceHasSource(m1, m2, x);
    }
    if exists k, c :: k in m1 && k in m2 && c in m1[k] && c in m2[k] && m1[k][c] != m2[k][c] &&
        x == ColumnDifference(TableNameOf(k), c, m1[k][c], m2[k][c]) {
      var k, c :| k in m1 && k in m2 && c in m1[k] && c in m2[k] && m1[k][c] != m2[k][c] &&
        x == ColumnDifference(TableNameOf(k), c, m1[k][c], m2[k][c]);
      DifferenceIsReported(m1, m2, k, c);
    }
  }

  lemma DifferenceHasSource(m1: SchemaMap, m2: SchemaMap, x: ColumnDifference)
    requires x in Differences(m1, m2)
    ensures exists k, c :: (k in m1 && k in m2 && c in m1[k] && c in m2[k] && m1[k][c] != m2[k][c] &&
                            x == ColumnDifference(TableNameOf(k), c, m1[k][c], m2[k][c]))
  {
    SumMember(m1.Keys * m2.Keys, TableDifferenceEntries(m1, m2), x);
    var k :| k in m1.Keys * m2.Keys && x in TableDifferenceEntries(m1, m2)(k);
    var c := DifferenceInTableHasSource(TableNameOf(k), m1[k], m2[k], x);
  }

  lemma DifferenceInTableHasSource(tableName: string, cols1: map<string, ColumnInfo>, cols2: map<string, ColumnInfo>,
                                   x: ColumnDifference) returns (c: string)
    requires x in DifferencesInTable(tableName, cols1, cols2)
    ensures c in cols1 && c in cols2 && cols1[c] != cols2[c] && x == ColumnDifference(tableName, c, cols1[c], cols2[c])
  {
    var names := DifferingNames(cols1, cols2);
    SumMember(names, DifferenceEntries(tableName, cols1, cols2), x);
    c :| c in names && x in DifferenceEntries(tableName, cols1, cols2)(c);
  }

  lemma DifferenceIsReported(m1: SchemaMap, m2: SchemaMap, k: string, c: string)
    requires k in m1 && k in m2 && c in m1[k] && c in m2[k] && m1[k][c] != m2[k][c]
    ensures ColumnDifference(TableNameOf(k), c, m1[k][c], m2[k][c]) in Differences(m1, m2)
  {
    var x := ColumnDifference(TableNameOf(k), c, m1[k][c], m2[k][c]);
    var names := DifferingNames(m1[k], m2[k]);
    SumMember(names, DifferenceEntries(TableNameOf(k), m1[k], m2[k]), x);
    assert c in names && x in DifferenceEntries(TableNameOf(k), m1[k], m2[k])(c);
    SumMember(m1.Keys * m2.Keys, TableDifferenceEntries(m1, m2), x);
    assert k in m1.Keys * m2.Keys && x in TableDifferenceEntries(m1, m2)(k);
  }

  /** A column of the table `public.users` with no default. */
  function UsersColumn(name: string, dataType: string, nullable: string, length: Option<U64>): ColumnInfo
  {
    ColumnInfo("public", "users", name, dataType, nullable, None, length)
  }

  /** When both schemas have one table under the same key, the comparison is
      that of the table's columns. */
  lemma OneSharedTable(k: string, cols1: map<string, ColumnInfo>, cols2: map<string, ColumnInfo>)
    ensures TablesOnlyIn(map[k := cols1], map[k := cols2]) == multiset{}
    ensures ColumnsOnlyIn(map[k := cols1], map[k := cols2]) == ColumnsOnlyInTable(cols1, cols2)
    ensures Differences(map[k := cols1], map[k := cols2]) == DifferencesInTable(TableNameOf(k), cols1, cols2)
  {
    var m1, m2 := map[k := cols1], map[k := cols2];
    assert m1.Keys - m2.Keys == {} && m1.Keys * m2.Keys == {k};
    SumSingleton(k, OnlyColumnEntries(m1, m2));
    SumSingleton(k, TableDifferenceEntries(m1, m2));
  }

  const FirstId := UsersColumn("id", "integer", "NO", None)
  const FirstName := UsersColumn("name", "varchar", "YES", Some(255))
  const SecondId := UsersColumn("id", "bigint", "NO", None)
  const SecondEmail := UsersColumn("email", "varchar", "YES", Some(255))

  /** The maps `build_schema_map` makes of the two test schemas. */
  lemma UsersMaps(m1: SchemaMap, m2: SchemaMap)
    requires GroupsColumns([FirstId, FirstName], m1)
    requires GroupsColumns([SecondId, SecondEmail], m2)
    ensures m1 == map["public.users" := map["id" := FirstId, "name" := FirstName]]
    ensures m2 == map["public.users" := map["id" := SecondId, "email" := SecondEmail]]
  {
    assert TableKey(FirstId) == "public.users";
    GroupsTwoColumns(FirstId, FirstName);
    GroupingIsUnique([FirstId, FirstName], m1, map["public.users" := map["id" := FirstId, "name" := FirstName]]);
    GroupsTwoColumns(SecondId, SecondEmail);
    GroupingIsUnique([SecondId, SecondEmail], m2, map["public.users" := map["id" := SecondId, "email" := SecondEmail]]);
  }

  /** The worked comparison of the schema tests: `id` changes from integer to
      bigint, `name` is only in the first schema and `email` only in the
      second. */
  lemma UsersComparisonExample(m1: SchemaMap, m2: SchemaMap, d: SchemaDiff)
    requires GroupsColumns([FirstId, FirstName], m1)
    requires GroupsColumns([SecondId, SecondEmail], m2)
    requires DescribesSchemaDiff(m1, m2, d)
    ensures d.tablesOnlyInFirst == [] && d.tablesOnlyInSecond == []
    ensures d.columnsOnlyInFirst == [FirstName]
    ensures d.columnsOnlyInSecond == [SecondEmail]
    ensures d.columnsWithDifferentDefinitions == [ColumnDifference("users", "id", FirstId, SecondId)]
  {
    UsersMaps(m1, m2);
    var cols1 := map["id" := FirstId, "name" := FirstName];
    var cols2 := map["id" := SecondId, "email" := SecondEmail];
    OneSharedTable("public.users", cols1, cols2);
    OneSharedTable("public.users", cols2, cols1);
    EmptyBag(d.tablesOnlyInFirst);
    EmptyBag(d.tablesOnlyInSecond);
    UsersColumnsExample(cols1, cols2);
    SingletonBag(d.columnsOnlyInFirst, FirstName);
    SingletonBag(d.columnsOnlyInSecond, SecondEmail);
    SingletonBag(d.columnsWithDifferentDefinitions, ColumnDifference("users", "id", FirstId, SecondId));
  }

  lemma UsersColumnsExample(cols1: map<string, ColumnInfo>, cols2: map<string, ColumnInfo>)
    requires cols1 == map["id" := FirstId, "name" := FirstName]
    requires cols2 == map["id" := SecondId, "email" := SecondEmail]
    ensures ColumnsOnlyInTable(cols1, cols2) == multiset{FirstName}
    ensures ColumnsOnlyInTable(cols2, cols1) == multiset{SecondEmail}
    ensures DifferencesInTable(TableNameOf("public.users"), cols1, cols2) ==
      multiset{ColumnDifference("users", "id", FirstId, SecondId)}
  {
    OnlyName(cols1, cols2);
    OnlyEmail(cols1, cols2);
    UsersTableName();
    OnlyOneDifference(cols1, cols2);
  }

  lemma UsersTableName()
    ensures TableNameOf("public.users") == "users"
  {
    SplitTableKeyRoundTrip("public", "users");
    assert "public" + "." + "users" == "public.users";
  }

  lemma OnlyName(cols1: map<string, ColumnInfo>, cols2: map<string, ColumnInfo>)
    requires cols1 == map["id" := FirstId, "name" := FirstName]
    requires cols2 == map["id" := SecondId, "email" := SecondEmail]
    ensures ColumnsOnlyInTable(cols1, cols2) == multiset{FirstName}
  {
    assert cols1.Keys - cols2.Keys == {"name"};
    OnlyOneColumn(cols1, cols2, "name");
  }

  lemma OnlyEmail(cols1: map<string, ColumnInfo>, cols2: map<string, ColumnInfo>)
    requires cols1 == map["id" := FirstId, "name" := FirstName]
    requires cols2 == map["id" := SecondId, "email" := SecondEmail]
    ensures ColumnsOnlyInTable(cols2, cols1) == multiset{SecondEmail}
  {
    assert cols2.Keys - cols1.Keys == {"email"};
    OnlyOneColumn(cols2, cols1, "email");
  }

  lemma OnlyOneDifference(cols1: map<string, ColumnInfo>, cols2: map<string, ColumnInfo>)
    requires cols1 == map["id" := FirstId, "name" := FirstName]
    requires cols2 == map["id" := SecondId, "email" := SecondEmail]
    ensures DifferencesInTable("users", cols1, cols2) == multiset{ColumnDifference("users", "id", FirstId, SecondId)}
  {
    assert cols1.Keys * cols2.Keys == {"id"};
    assert DifferingNames(cols1, cols2) == {"id"};
    SumSingleton("id", DifferenceEntries("users", cols1, cols2));
  }

  lemma OnlyOneColumn(cols1: map<string, ColumnInfo>, cols2: map<string, ColumnInfo>, c: string)
    requires cols1.Keys - cols2.Keys == {c}
    ensures ColumnsOnlyInTable(cols1, cols2) == multiset{cols1[c]}
  {
    SumSingleton(c, ColumnEntries(cols1));
  }
}
