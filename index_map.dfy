/** `build_index_map` of src/index.rs: index records grouped by table and
    then by index name. A table's indexes live in an `IndexMap`, which keeps
    its names in the order they were first inserted; each name holds the
    records of that index in input order. */
module IndexGrouping {
  import opened Indexes
  import opened Seqs
  import opened Columns

  /** The key of a table: the schema in backquotes, a dot, the bare table
      name. When neither name has a dot, the part after the dot, which the
      comparison takes as the table name, is the bare table name. */
  function IndexTableKey(x: IndexInfo): (key: string)
    ensures '.' !in x.tableSchema && '.' !in x.tableName ==>
      SplitTableKey(key) == ("`" + x.tableSchema + "`", x.tableName) && TableNameOf(key) == x.tableName
  {
    var schema := "`" + x.tableSchema + "`";
    assert '.' !in x.tableSchema ==> '.' !in schema;
    assert schema + "." + x.tableName == "`" + x.tableSchema + "`." + x.tableName;
    QualifiedNameSplits(schema, x.tableName);
    "`" + x.tableSchema + "`." + x.tableName
  }

  /** One table's `IndexMap<String, Vec<IndexInfo>>`: its names in insertion
      order and the list under each name. */
  datatype IndexTable = IndexTable(names: seq<string>, lists: map<string, seq<IndexInfo>>)

  type IndexMap = map<string, IndexTable>

  /** `IndexMap::new()`. */
  const EmptyTable := IndexTable([], map[])

  /** What the two `entry(..).or_insert_with(..)` calls and the `push` do to
      a table: a new name goes to the end of the order with a list of one;
      a known name keeps its place and gets the record appended. */
  function Entry(t: IndexTable, x: IndexInfo): (r: IndexTable)
    ensures ValidTable(t) ==> ValidTable(r)
    ensures x.indexName in r.lists &&
      r.lists[x.indexName] == (if x.indexName in t.lists then t.lists[x.indexName] else []) + [x]
    ensures forall name :: name in t.lists && name != x.indexName ==> name in r.lists && r.lists[name] == t.lists[name]
    ensures r.lists.Keys == t.lists.Keys + {x.indexName}
    ensures r.names == if x.indexName in t.lists then t.names else t.names + [x.indexName]
  {
    if x.indexName in t.lists then t.(lists := t.lists[x.indexName := t.lists[x.indexName] + [x]])
    else IndexTable(t.names + [x.indexName], t.lists[x.indexName := [x]])
  }

  function Inserted(m: IndexMap, x: IndexInfo): IndexMap
  {
    var key := IndexTableKey(x);
    m[key := Entry(if key in m then m[key] else EmptyTable, x)]
  }

  /** `build_index_map`. */
  method BuildIndexMap(indexes: seq<IndexInfo>) returns (m: IndexMap)
    ensures m == Grouped(indexes)
  {
    m := map[];
    EmptyGrouped(indexes[..0]);
    for n := 0 to |indexes|
      invariant m == Grouped(indexes[..n])
    {
      var index := indexes[n];
      var key := IndexTableKey(index);
      var table := if key in m then m[key] else EmptyTable;
      if index.indexName in table.lists {
        table := table.(lists := table.lists[index.indexName := table.lists[index.indexName] + [index]]);
      } else {
        table := IndexTable(table.names + [index.indexName], table.lists[index.indexName := [index]]);
      }
      GroupedStep(indexes, n);
      m := m[key := table];
    }
    assert indexes[..|indexes|] == indexes;
  }

  // ---------------------------------------------------------------------------
  // The grouping, stated directly

  predicate InGroup(x: IndexInfo, key: string, name: string)
  {
    IndexTableKey(x) == key && x.indexName == name
  }

  /** The records of index `name` of table `key`, in input order. */
  function Matching(xs: seq<IndexInfo>, key: string, name: string): (r: seq<IndexInfo>)
    ensures |r| <= |xs|
  {
    if |xs| == 0 then []
    else Matching(AllButLast(xs), key, name) + (if InGroup(Last(xs), key, name) then [Last(xs)] else [])
  }

  /** The index names of table `key`, each once, in the order they first
      appear. */
  function SeenNames(xs: seq<IndexInfo>, key: string): seq<string>
  {
    if |xs| == 0 then []
    else
      var earlier := SeenNames(AllButLast(xs), key);
      if IndexTableKey(Last(xs)) == key && Last(xs).indexName !in earlier then earlier + [Last(xs).indexName]
      else earlier
  }

  function TableKeys(xs: seq<IndexInfo>): set<string>
  {
    set i | 0 <= i < |xs| :: IndexTableKey(xs[i])
  }

  function TableOf(xs: seq<IndexInfo>, key: string): IndexTable
  {
    IndexTable(SeenNames(xs, key), map name | name in SeenNames(xs, key) :: Matching(xs, key, name))
  }

  /** Every table some record names, holding its names in order of first
      appearance and, under each, its records in input order. */
  function Grouped(xs: seq<IndexInfo>): IndexMap
  {
    map key | key in TableKeys(xs) :: TableOf(xs, key)
  }

  // ---------------------------------------------------------------------------
  // The loop step

  lemma EmptyGrouped(xs: seq<IndexInfo>)
    requires |xs| == 0
    ensures Grouped(xs) == map[]
  {
    assert TableKeys(xs) == {};
  }

  lemma {:induction false} SeenNamesMember(xs: seq<IndexInfo>, key: string, name: string)
    ensures name in SeenNames(xs, key) <==> exists i :: 0 <= i < |xs| && InGroup(xs[i], key, name)
  {
    if |xs| > 0 {
      var p := AllButLast(xs);
      SeenNamesMember(p, key, name);
      if exists i :: 0 <= i < |p| && InGroup(p[i], key, name) {
        var i :| 0 <= i < |p| && InGroup(p[i], key, name);
        assert xs[i] == p[i];
      }
      if exists i :: 0 <= i < |xs| && InGroup(xs[i], key, name) {
        var i :| 0 <= i < |xs| && InGroup(xs[i], key, name);
        if i < |p| {
          assert p[i] == xs[i];
        }
      }
    }
  }

  /** A key no record has has the empty table. */
  lemma AbsentTable(xs: seq<IndexInfo>, key: string)
    requires key !in TableKeys(xs)
    ensures TableOf(xs, key) == EmptyTable
  {
    if |SeenNames(xs, key)| > 0 {
      var name := SeenNames(xs, key)[0];
      SeenNamesMember(xs, key, name);
    }
    assert TableOf(xs, key).lists == map[];
  }

  /** One more record changes its own table by `Entry` and no other. */
  lemma TableStep(xs: seq<IndexInfo>, key: string)
    requires |xs| > 0
    ensures TableOf(xs, key) ==
      if IndexTableKey(Last(xs)) == key then Entry(TableOf(AllButLast(xs), key), Last(xs))
      else TableOf(AllButLast(xs), key)
  {
    var p := AllButLast(xs);
    var x := Last(xs);
    var before := TableOf(p, key);
    if IndexTableKey(x) == key {
      var after := Entry(before, x);
      assert TableOf(xs, key).names == after.names;
      forall name | name in SeenNames(xs, key)
        ensures Matching(xs, key, name) == after.lists[name]
      {
        if name !in SeenNames(p, key) {
          MatchingEmpty(p, key, name);
        }
      }
      assert TableOf(xs, key).lists == after.lists;
    } else {
      forall name | name in SeenNames(xs, key)
        ensures Matching(xs, key, name) == Matching(p, key, name)
      {
      }
      assert TableOf(xs, key).lists == before.lists;
    }
  }

  /** A name the table does not have has no records. */
  lemma MatchingEmpty(xs: seq<IndexInfo>, key: string, name: string)
    requires name !in SeenNames(xs, key)
    ensures Matching(xs, key, name) == []
  {
    SeenNamesMember(xs, key, name);
    if |Matching(xs, key, name)| > 0 {
      var x := Matching(xs, key, name)[0];
      MatchingMember(xs, key, name, x);
    }
  }

  lemma GroupedStep(xs: seq<IndexInfo>, n: nat)
    requires n < |xs|
    ensures Grouped(xs[..n + 1]) == Inserted(Grouped(xs[..n]), xs[n])
  {
    var q := xs[..n + 1];
    var p := xs[..n];
    assert AllButLast(q) == p && Last(q) == xs[n];
    var key := IndexTableKey(xs[n]);
    assert TableKeys(q) == TableKeys(p) + {key} by {
      assert forall i :: 0 <= i < n ==> q[i] == p[i];
      assert q[n] == xs[n];
    }
    var after := Inserted(Grouped(p), xs[n]);
    forall k | k in TableKeys(q)
      ensures Grouped(q)[k] == after[k]
    {
      TableStep(q, k);
      if k == key && key !in TableKeys(p) {
        AbsentTable(p, key);
      }
    }
  }

  // ---------------------------------------------------------------------------
  // What the grouping promises

  lemma {:induction false} SeenNamesDistinct(xs: seq<IndexInfo>, key: string)
    ensures forall i, j :: 0 <= i < j < |SeenNames(xs, key)| ==> SeenNames(xs, key)[i] != SeenNames(xs, key)[j]
  {
    if |xs| > 0 {
      SeenNamesDistinct(AllButLast(xs), key);
    }
  }

  lemma {:induction false} MatchingMember(xs: seq<IndexInfo>, key: string, name: string, x: IndexInfo)
    ensures x in Matching(xs, key, name) <==> x in xs && InGroup(x, key, name)
  {
    if |xs| > 0 {
      var p := AllButLast(xs);
      MatchingMember(p, key, name, x);
      assert xs == p + [Last(xs)];
    }
  }

  /** Every index name of a table has a record, in input order. */
  lemma {:induction false} MatchingNonEmpty(xs: seq<IndexInfo>, key: string, name: string)
    requires name in SeenNames(xs, key)
    ensures |Matching(xs, key, name)| > 0
  {
    SeenNamesMember(xs, key, name);
    var i :| 0 <= i < |xs| && InGroup(xs[i], key, name);
    MatchingMember(xs, key, name, xs[i]);
  }

  /** A table's names are distinct, they are exactly the keys of its lists,
      and no list is empty. */
  ghost predicate ValidTable(t: IndexTable)
  {
    (forall i, j :: 0 <= i < j < |t.names| ==> t.names[i] != t.names[j]) &&
    (forall name :: name in t.lists <==> name in t.names) &&
    (forall name :: name in t.lists ==> |t.lists[name]| > 0)
  }

  /** Every table of the map is well formed. */
  lemma GroupedIsValid(xs: seq<IndexInfo>, key: string)
    requires key in Grouped(xs)
    ensures ValidTable(Grouped(xs)[key])
  {
    SeenNamesDistinct(xs, key);
    forall name | name in SeenNames(xs, key)
      ensures |Matching(xs, key, name)| > 0
    {
      MatchingNonEmpty(xs, key, name);
    }
  }

  /** A record is filed under its own table and index name, and the list
      under a table and name holds exactly the records with both. */
  lemma GroupedMembership(xs: seq<IndexInfo>, key: string, name: string, x: IndexInfo)
    ensures key in Grouped(xs) && name in Grouped(xs)[key].lists && x in Grouped(xs)[key].lists[name]
            <==> x in xs && InGroup(x, key, name)
  {
    MatchingMember(xs, key, name, x);
    SeenNamesMember(xs, key, name);
    if x in xs && InGroup(x, key, name) {
      var i :| 0 <= i < |xs| && xs[i] == x;
      assert key in TableKeys(xs);
    }
  }

  /** Records of two indexes of one table, in input order: the test data of
      `build_index_map`. */
  lemma TwoIndexesOneTable(a: IndexInfo, b: IndexInfo, c: IndexInfo)
    requires IndexTableKey(a) == IndexTableKey(b) == IndexTableKey(c)
    requires a.indexName == c.indexName != b.indexName
    ensures Grouped([a, b, c]).Keys == {IndexTableKey(a)}
    ensures Grouped([a, b, c])[IndexTableKey(a)].names == [a.indexName, b.indexName]
    ensures Grouped([a, b, c])[IndexTableKey(a)].lists[a.indexName] == [a, c]
  {
    var xs := [a, b, c];
    var key := IndexTableKey(a);
    assert AllButLast(xs) == [a, b] && AllButLast([a, b]) == [a] && AllButLast([a]) == [];
    assert SeenNames([a], key) == [a.indexName];
    assert SeenNames([a, b], key) == [a.indexName, b.indexName];
    assert SeenNames(xs, key) == [a.indexName, b.indexName];
    assert Matching([a], key, a.indexName) == [a];
    assert Matching([a, b], key, a.indexName) == [a];
    assert Matching(xs, key, a.indexName) == [a, c];
    assert TableKeys(xs) == {key} by {
      assert xs[0] == a && xs[1] == b && xs[2] == c;
    }
  }
}
