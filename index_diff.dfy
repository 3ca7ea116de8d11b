/** `compare_index_maps` of src/index.rs: which indexes only one schema has,
    and which shared indexes are defined differently.

    Tables and index names are walked through `HashSet`s, so the order of
    the lists is unspecified and their contents are stated as multisets
    (`Bags.Sum`). Within a table that only one side has, the records come in
    the order of the table's `IndexMap`. */
module IndexDiffs {
  import opened Bags
  import opened Seqs
  import opened Indexes
  import opened IndexGrouping
  import opened IndexOrder
  import Columns

  /** `IndexDifference`: a shared index whose two lists do not match, with
      the first record of each. */
  datatype IndexDifference = IndexDifference(
    tableName: string,
    indexName: string,
    first: IndexInfo,
    second: IndexInfo)

  /** `IndexDiff`. */
  datatype IndexDiff = IndexDiff(
    indexesOnlyInFirst: seq<IndexInfo>,
    indexesOnlyInSecond: seq<IndexInfo>,
    indexesWithDifferentDefinitions: seq<IndexDifference>)

  // ---------------------------------------------------------------------------
  // What the source relies on

  /** An `IndexMap` iterates exactly the names it has a list for. */
  ghost predicate WellFormedTable(t: IndexTable)
  {
    forall name :: name in t.lists <==> name in t.names
  }

  ghost predicate WellFormedMap(m: IndexMap)
  {
    forall k :: k in m ==> WellFormedTable(m[k])
  }

  /** The fallback `IndexInfo::builder().build().unwrap()` panics, so a
      shared index must not have an empty list on exactly one side. */
  ghost predicate NoPanic(m1: IndexMap, m2: IndexMap): (safe: bool)
    ensures m1 == m2 ==> safe
    ensures m1.Keys !! m2.Keys ==> safe
    ensures ((forall k, name :: k in m1 && name in m1[k].lists ==> |m1[k].lists[name]| > 0) &&
             (forall k, name :: k in m2 && name in m2[k].lists ==> |m2[k].lists[name]| > 0)) ==> safe
  {
    forall k, name :: k in m1 && k in m2 && name in m1[k].lists && name in m2[k].lists ==>
      (|m1[k].lists[name]| == 0 <==> |m2[k].lists[name]| == 0)
  }

  /** A map that `build_index_map` produced meets both. */
  lemma GroupedMapsAreSafe(xs1: seq<IndexInfo>, xs2: seq<IndexInfo>)
    ensures WellFormedMap(Grouped(xs1)) && WellFormedMap(Grouped(xs2))
    ensures NoPanic(Grouped(xs1), Grouped(xs2))
  {
    forall k | k in Grouped(xs1) ensures ValidTable(Grouped(xs1)[k]) {
      GroupedIsValid(xs1, k);
    }
    forall k | k in Grouped(xs2) ensures ValidTable(Grouped(xs2)[k]) {
      GroupedIsValid(xs2, k);
    }
  }

  // ---------------------------------------------------------------------------
  // What each list holds

  /** The records of a table in the order its `IndexMap` iterates them. */
  function Flatten(lists: map<string, seq<IndexInfo>>, names: seq<string>): seq<IndexInfo>
  {
    if |names| == 0 then []
    else Flatten(lists, AllButLast(names)) + (if Last(names) in lists then lists[Last(names)] else [])
  }

  function AllRecords(t: IndexTable): seq<IndexInfo>
  {
    Flatten(t.lists, t.names)
  }

  /** What an index name contributes: the records listed under it. */
  function Records(t: IndexTable): string -> multiset<IndexInfo>
  {
    name => if name in t.lists then multiset(t.lists[name]) else multiset{}
  }

  ghost function RecordsOver(t: IndexTable, names: set<string>): multiset<IndexInfo>
  {
    Sum(names, Records(t))
  }

  /** Within one shared table, the records of the indexes `t1` has and `t2`
      lacks. */
  ghost function OnlyInTable(t1: IndexTable, t2: IndexTable): multiset<IndexInfo>
  {
    RecordsOver(t1, t1.lists.Keys - t2.lists.Keys)
  }

  ghost function SharedOnlyEntries(m1: IndexMap, m2: IndexMap): string -> multiset<IndexInfo>
  {
    k => if k in m1 && k in m2 then OnlyInTable(m1[k], m2[k]) else multiset{}
  }

  ghost function SharedOnlyOver(m1: IndexMap, m2: IndexMap, keys: set<string>): multiset<IndexInfo>
  {
    Sum(keys, SharedOnlyEntries(m1, m2))
  }

  /** What a table only `m1` has contributes: all of its records. */
  function WholeTableEntries(m: IndexMap): string -> multiset<IndexInfo>
  {
    k => if k in m then multiset(AllRecords(m[k])) else multiset{}
  }

  ghost function WholeTablesOver(m: IndexMap, keys: set<string>): multiset<IndexInfo>
  {
    Sum(keys, WholeTableEntries(m))
  }

  /** The records only `m1` has: those of its indexes missing from a shared
      table of `m2`, and every record of its tables that `m2` lacks. */
  ghost function IndexesOnlyIn(m1: IndexMap, m2: IndexMap): multiset<IndexInfo>
  {
    SharedOnlyOver(m1, m2, m1.Keys * m2.Keys) + WholeTablesOver(m1, m1.Keys - m2.Keys)
  }

  /** The lists of a shared index do not match, and carry a first record
      each. */
  predicate DiffersAt(t1: IndexTable, t2: IndexTable, name: string)
  {
    name in t1.lists && name in t2.lists && |t1.lists[name]| > 0 && |t2.lists[name]| > 0 &&
    !IndexListsMatch(t1.lists[name], t2.lists[name])
  }

  /** What a shared index name contributes to the differences. */
  function DifferenceEntries(tableName: string, t1: IndexTable, t2: IndexTable): string -> multiset<IndexDifference>
  {
    name => if DiffersAt(t1, t2, name)
            then multiset{IndexDifference(tableName, name, t1.lists[name][0], t2.lists[name][0])}
            else multiset{}
  }

  ghost function DifferencesOver(tableName: string, t1: IndexTable, t2: IndexTable, names: set<string>)
    : multiset<IndexDifference>
  {
    Sum(names, DifferenceEntries(tableName, t1, t2))
  }

  ghost function DifferencesInTable(tableName: string, t1: IndexTable, t2: IndexTable): multiset<IndexDifference>
  {
    DifferencesOver(tableName, t1, t2, t1.lists.Keys * t2.lists.Keys)
  }

  ghost function TableDifferenceEntries(m1: IndexMap, m2: IndexMap): string -> multiset<IndexDifference>
  {
    k => if k in m1 && k in m2 then DifferencesInTable(Columns.TableNameOf(k), m1[k], m2[k]) else multiset{}
  }

  ghost function DifferencesOverTables(m1: IndexMap, m2: IndexMap, keys: set<string>): multiset<IndexDifference>
  {
    Sum(keys, TableDifferenceEntries(m1, m2))
  }

  /** One difference per shared index of a shared table whose lists do not
      match; its table name is the key's part after the first dot. */
  ghost function IndexDifferences(m1: IndexMap, m2: IndexMap): multiset<IndexDifference>
  {
    DifferencesOverTables(m1, m2, m1.Keys * m2.Keys)
  }

  /** What `compare_index_maps(m1, m2)` returns, up to the order of each
      list. */
  ghost predicate DescribesIndexDiff(m1: IndexMap, m2: IndexMap, d: IndexDiff)
  {
    multiset(d.indexesOnlyInFirst) == IndexesOnlyIn(m1, m2) &&
    multiset(d.indexesOnlyInSecond) == IndexesOnlyIn(m2, m1) &&
    multiset(d.indexesWithDifferentDefinitions) == IndexDifferences(m1, m2)
  }

  // ---------------------------------------------------------------------------
  // The loops

  /** The indexes of one shared table that `t1` has and `t2` lacks, each
      with all of its records. */
  method NamesOnlyInList(t1: IndexTable, t2: IndexTable) returns (r: seq<IndexInfo>)
    ensures multiset(r) == OnlyInTable(t1, t2)
  {
    var all := t1.lists.Keys - t2.lists.Keys;
    var pending := all;
    r := [];
    while pending != {}
      invariant pending <= all
      invariant multiset(r) == RecordsOver(t1, all - pending)
      decreases pending
    {
      var name :| name in pending;
      MoveOne(all, pending, name);
      SumInsert(all - pending, Records(t1), name);
      r := r + t1.lists[name];
      pending := pending - {name};
    }
    assert all - pending == all;
  }

  /** The shared indexes of one shared table whose lists do not match. */
  method DifferingIndexesList(tableName: string, t1: IndexTable, t2: IndexTable) returns (r: seq<IndexDifference>)
    requires forall name :: name in t1.lists && name in t2.lists ==>
      (|t1.lists[name]| == 0 <==> |t2.lists[name]| == 0)
    ensures multiset(r) == DifferencesInTable(tableName, t1, t2)
  {
    var all := t1.lists.Keys * t2.lists.Keys;
    var pending := all;
    r := [];
    while pending != {}
      invariant pending <= all
      invariant multiset(r) == DifferencesOver(tableName, t1, t2, all - pending)
      decreases pending
    {
      var name :| name in pending;
      MoveOne(all, pending, name);
      SumInsert(all - pending, DifferenceEntries(tableName, t1, t2), name);
      var list1, list2 := t1.lists[name], t2.lists[name];
      var same := CompareIndexLists(list1, list2);
      if !same {
        r := r + [IndexDifference(tableName, name, list1[0], list2[0])];
      }
      pending := pending - {name};
    }
    assert all - pending == all;
  }

  /** `for (_, index_list) in indexes`: the lists of a table in its order. */
  method TableRecords(t: IndexTable) returns (r: seq<IndexInfo>)
    requires WellFormedTable(t)
    ensures r == AllRecords(t)
  {
    r := [];
    for i := 0 to |t.names|
      invariant r == Flatten(t.lists, t.names[..i])
    {
      assert AllButLast(t.names[..i + 1]) == t.names[..i];
      r := r + t.lists[t.names[i]];
    }
    assert t.names[..|t.names|] == t.names;
  }

  /** Every record of the tables of `m1` that `m2` lacks. */
  method WholeTablesList(m1: IndexMap, m2: IndexMap) returns (r: seq<IndexInfo>)
    requires WellFormedMap(m1)
    ensures multiset(r) == WholeTablesOver(m1, m1.Keys - m2.Keys)
  {
    var all := m1.Keys - m2.Keys;
    var pending := all;
    r := [];
    while pending != {}
      invariant pending <= all
      invariant multiset(r) == WholeTablesOver(m1, all - pending)
      decreases pending
    {
      var k :| k in pending;
      MoveOne(all, pending, k);
      SumInsert(all - pending, WholeTableEntries(m1), k);
      var records := TableRecords(m1[k]);
      r := r + records;
      pending := pending - {k};
    }
    assert all - pending == all;
  }

  lemma SharedOnlyOverStep(m1: IndexMap, m2: IndexMap, done: set<string>, k: string)
    requires k in m1 && k in m2 && k !in done
    ensures SharedOnlyOver(m1, m2, done + {k}) == SharedOnlyOver(m1, m2, done) + OnlyInTable(m1[k], m2[k])
  {
    SumInsert(done, SharedOnlyEntries(m1, m2), k);
  }

  lemma DifferencesOverTablesStep(m1: IndexMap, m2: IndexMap, done: set<string>, k: string)
    requires k in m1 && k in m2 && k !in done
    ensures DifferencesOverTables(m1, m2, done + {k}) ==
      DifferencesOverTables(m1, m2, done) + DifferencesInTable(Columns.TableNameOf(k), m1[k], m2[k])
  {
    SumInsert(done, TableDifferenceEntries(m1, m2), k);
  }

  /** The loop of `compare_index_maps` over the tables both maps have. */
  method CompareCommonTables(m1: IndexMap, m2: IndexMap)
    returns (onlyFirst: seq<IndexInfo>, onlySecond: seq<IndexInfo>, different: seq<IndexDifference>)
    requires NoPanic(m1, m2)
    ensures multiset(onlyFirst) == SharedOnlyOver(m1, m2, m1.Keys * m2.Keys)
    ensures multiset(onlySecond) == SharedOnlyOver(m2, m1, m1.Keys * m2.Keys)
    ensures multiset(different) == DifferencesOverTables(m1, m2, m1.Keys * m2.Keys)
  {
    var common := m1.Keys * m2.Keys;
    onlyFirst, onlySecond, different := [], [], [];
    var pending := common;
    while pending != {}
      invariant pending <= common
      invariant multiset(onlyFirst) == SharedOnlyOver(m1, m2, common - pending)
      invariant multiset(onlySecond) == SharedOnlyOver(m2, m1, common - pending)
      invariant multiset(different) == DifferencesOverTables(m1, m2, common - pending)
      decreases pending
    {
      var k :| k in pending;
      MoveOne(common, pending, k);
      var done := common - pending;
      var a := NamesOnlyInList(m1[k], m2[k]);
      var b := NamesOnlyInList(m2[k], m1[k]);
      var c := DifferingIndexesList(Columns.TableNameOf(k), m1[k], m2[k]);
      SharedOnlyOverStep(m1, m2, done, k);
      SharedOnlyOverStep(m2, m1, done, k);
      DifferencesOverTablesStep(m1, m2, done, k);
      onlyFirst, onlySecond, different := onlyFirst + a, onlySecond + b, different + c;
      pending := pending - {k};
    }
    assert common - pending == common;
  }

  /** `compare_index_maps`: the shared tables first, then the tables of
      each side that the other lacks. */
  method CompareIndexMaps(m1: IndexMap, m2: IndexMap) returns (d: IndexDiff)
    requires WellFormedMap(m1) && WellFormedMap(m2) && NoPanic(m1, m2)
    ensures DescribesIndexDiff(m1, m2, d)
  {
    var onlyFirst, onlySecond, different := CompareCommonTables(m1, m2);
    var wholeFirst := WholeTablesList(m1, m2);
    var wholeSecond := WholeTablesList(m2, m1);
    assert m2.Keys * m1.Keys == m1.Keys * m2.Keys;
    d := IndexDiff(onlyFirst + wholeFirst, onlySecond + wholeSecond, different);
  }

  // ---------------------------------------------------------------------------
  // Properties of the comparison

  /** Comparing a schema's indexes with themselves finds nothing. */
  lemma SameMapHasNoDifferences(m: IndexMap, d: IndexDiff)
    requires DescribesIndexDiff(m, m, d)
    ensures d == IndexDiff([], [], [])
  {
    assert m.Keys - m.Keys == {};
    forall k | k in m.Keys * m.Keys ensures SharedOnlyEntries(m, m)(k) == multiset{} {
      assert m[k].lists.Keys - m[k].lists.Keys == {};
    }
    SumOfEmpties(m.Keys * m.Keys, SharedOnlyEntries(m, m));
    forall k | k in m.Keys * m.Keys ensures TableDifferenceEntries(m, m)(k) == multiset{} {
      forall name | name in m[k].lists.Keys
        ensures DifferenceEntries(Columns.TableNameOf(k), m[k], m[k])(name) == multiset{}
      {
        MatchIsReflexive(m[k].lists[name]);
      }
      SumOfEmpties(m[k].lists.Keys * m[k].lists.Keys, DifferenceEntries(Columns.TableNameOf(k), m[k], m[k]));
    }
    SumOfEmpties(m.Keys * m.Keys, TableDifferenceEntries(m, m));
    EmptyBag(d.indexesOnlyInFirst);
    EmptyBag(d.indexesOnlyInSecond);
    EmptyBag(d.indexesWithDifferentDefinitions);
  }

  lemma {:induction false} FlattenMember(lists: map<string, seq<IndexInfo>>, names: seq<string>, x: IndexInfo)
    ensures x in Flatten(lists, names) <==> exists i :: 0 <= i < |names| && names[i] in lists && x in lists[names[i]]
  {
    if |names| > 0 {
      var p := AllButLast(names);
      FlattenMember(lists, p, x);
      if exists i :: 0 <= i < |p| && p[i] in lists && x in lists[p[i]] {
        var i :| 0 <= i < |p| && p[i] in lists && x in lists[p[i]];
        assert names[i] == p[i];
      }
      if exists i :: 0 <= i < |names| && names[i] in lists && x in lists[names[i]] {
        var i :| 0 <= i < |names| && names[i] in lists && x in lists[names[i]];
        if i < |p| {
          assert p[i] == names[i];
        }
      }
    }
  }

  /** A table of a well-formed map holds a record iff one of its lists
      does. */
  lemma AllRecordsMember(t: IndexTable, x: IndexInfo)
    requires WellFormedTable(t)
    ensures x in AllRecords(t) <==> exists name :: name in t.lists && x in t.lists[name]
  {
    FlattenMember(t.lists, t.names, x);
    if exists name :: name in t.lists && x in t.lists[name] {
      var name :| name in t.lists && x in t.lists[name];
      var i :| 0 <= i < |t.names| && t.names[i] == name;
    }
  }

  /** A record is only in `m1` iff it is under some index of `m1` whose
      table or whose name `m2` lacks. */
  lemma InIndexesOnlyIn(m1: IndexMap, m2: IndexMap, x: IndexInfo)
    requires WellFormedMap(m1)
    ensures x in IndexesOnlyIn(m1, m2) <==>
      exists k, name :: k in m1 && name in m1[k].lists && x in m1[k].lists[name] &&
                        (k !in m2 || name !in m2[k].lists)
  {
    if x in IndexesOnlyIn(m1, m2) {
      OnlyRecordHasSource(m1, m2, x);
    }
    if exists k, name :: k in m1 && name in m1[k].lists && x in m1[k].lists[name] &&
                         (k !in m2 || name !in m2[k].lists) {
      var k, name :| k in m1 && name in m1[k].lists && x in m1[k].lists[name] &&
                     (k !in m2 || name !in m2[k].lists);
      OnlyRecordIsReported(m1, m2, k, name, x);
    }
  }

  lemma OnlyRecordHasSource(m1: IndexMap, m2: IndexMap, x: IndexInfo)
    requires WellFormedMap(m1)
    requires x in IndexesOnlyIn(m1, m2)
    ensures exists k, name :: k in m1 && name in m1[k].lists && x in m1[k].lists[name] &&
                              (k !in m2 || name !in m2[k].lists)
  {
    if x in SharedOnlyOver(m1, m2, m1.Keys * m2.Keys) {
      SumMember(m1.Keys * m2.Keys, SharedOnlyEntries(m1, m2), x);
      var k :| k in m1.Keys * m2.Keys && x in SharedOnlyEntries(m1, m2)(k);
      SumMember(m1[k].lists.Keys - m2[k].lists.Keys, Records(m1[k]), x);
      var name :| name in m1[k].lists.Keys - m2[k].lists.Keys && x in Records(m1[k])(name);
      assert k in m1 && name in m1[k].lists && x in m1[k].lists[name] && name !in m2[k].lists;
    } else {
      SumMember(m1.Keys - m2.Keys, WholeTableEntries(m1), x);
      var k :| k in m1.Keys - m2.Keys && x in WholeTableEntries(m1)(k);
      AllRecordsMember(m1[k], x);
      var name :| name in m1[k].lists && x in m1[k].lists[name];
      assert k !in m2;
    }
  }

  lemma OnlyRecordIsReported(m1: IndexMap, m2: IndexMap, k: string, name: string, x: IndexInfo)
    requires WellFormedMap(m1)
    requires k in m1 && name in m1[k].lists && x in m1[k].lists[name] && (k !in m2 || name !in m2[k].lists)
    ensures x in IndexesOnlyIn(m1, m2)
  {
    if k in m2 {
      SumMember(m1[k].lists.Keys - m2[k].lists.Keys, Records(m1[k]), x);
      assert name in m1[k].lists.Keys - m2[k].lists.Keys && x in Records(m1[k])(name);
      SumMember(m1.Keys * m2.Keys, SharedOnlyEntries(m1, m2), x);
      assert k in m1.Keys * m2.Keys && x in SharedOnlyEntries(m1, m2)(k);
    } else {
      AllRecordsMember(m1[k], x);
      SumMember(m1.Keys - m2.Keys, WholeTableEntries(m1), x);
      assert k in m1.Keys - m2.Keys && x in WholeTableEntries(m1)(k);
    }
  }

  /** A difference is reported iff it pairs the first records of an index
      that both maps have in a table both maps have, when the two lists do
      not match. */
  lemma InIndexDifferences(m1: IndexMap, m2: IndexMap, x: IndexDifference)
    ensures x in IndexDifferences(m1, m2) <==>
      exists k, name :: k in m1 && k in m2 && DiffersAt(m1[k], m2[k], name) &&
        x == IndexDifference(Columns.TableNameOf(k), name, m1[k].lists[name][0], m2[k].lists[name][0])
  {
    if x in IndexDifferences(m1, m2) {
      DifferenceHasSource(m1, m2, x);
    }
    if exists k, name :: k in m1 && k in m2 && DiffersAt(m1[k], m2[k], name) &&
        x == IndexDifference(Columns.TableNameOf(k), name, m1[k].lists[name][0], m2[k].lists[name][0]) {
      var k, name :| k in m1 && k in m2 && DiffersAt(m1[k], m2[k], name) &&
        x == IndexDifference(Columns.TableNameOf(k), name, m1[k].lists[name][0], m2[k].lists[name][0]);
      DifferenceIsReported(m1, m2, k, name);
    }
  }

  lemma DifferenceHasSource(m1: IndexMap, m2: IndexMap, x: IndexDifference)
    requires x in IndexDifferences(m1, m2)
    ensures exists k, name :: (k in m1 && k in m2 && DiffersAt(m1[k], m2[k], name) &&
      x == IndexDifference(Columns.TableNameOf(k), name, m1[k].lists[name][0], m2[k].lists[name][0]))
  {
    SumMember(m1.Keys * m2.Keys, TableDifferenceEntries(m1, m2), x);
    var k :| k in m1.Keys * m2.Keys && x in TableDifferenceEntries(m1, m2)(k);
    var name := DifferenceInTableHasSource(Columns.TableNameOf(k), m1[k], m2[k], x);
  }

  lemma DifferenceInTableHasSource(tableName: string, t1: IndexTable, t2: IndexTable, x: IndexDifference)
    returns (name: string)
    requires x in DifferencesInTable(tableName, t1, t2)
    ensures DiffersAt(t1, t2, name) && x == IndexDifference(tableName, name, t1.lists[name][0], t2.lists[name][0])
  {
    SumMember(t1.lists.Keys * t2.lists.Keys, DifferenceEntries(tableName, t1, t2), x);
    name :| name in t1.lists.Keys * t2.lists.Keys && x in DifferenceEntries(tableName, t1, t2)(name);
  }

  lemma DifferenceIsReported(m1: IndexMap, m2: IndexMap, k: string, name: string)
    requires k in m1 && k in m2 && DiffersAt(m1[k], m2[k], name)
    ensures IndexDifference(Columns.TableNameOf(k), name, m1[k].lists[name][0], m2[k].lists[name][0])
            in IndexDifferences(m1, m2)
  {
    var tn := Columns.TableNameOf(k);
    var x := IndexDifference(tn, name, m1[k].lists[name][0], m2[k].lists[name][0]);
    SumMember(m1[k].lists.Keys * m2[k].lists.Keys, DifferenceEntries(tn, m1[k], m2[k]), x);
    assert name in m1[k].lists.Keys * m2[k].lists.Keys && x in DifferenceEntries(tn, m1[k], m2[k])(name);
    SumMember(m1.Keys * m2.Keys, TableDifferenceEntries(m1, m2), x);
    assert k in m1.Keys * m2.Keys && x in TableDifferenceEntries(m1, m2)(k);
  }

  /** The same difference seen from the other schema. */
  function Swapped(x: IndexDifference): (r: IndexDifference)
    ensures r.tableName == x.tableName && r.indexName == x.indexName
    ensures r.first == x.second && r.second == x.first
  {
    IndexDifference(x.tableName, x.indexName, x.second, x.first)
  }

  /** Comparing the other way round exchanges the two only-in lists and
      turns every difference around. */
  lemma ComparisonIsSymmetric(m1: IndexMap, m2: IndexMap, d: IndexDiff, e: IndexDiff)
    requires DescribesIndexDiff(m1, m2, d) && DescribesIndexDiff(m2, m1, e)
    ensures multiset(e.indexesOnlyInFirst) == multiset(d.indexesOnlyInSecond)
    ensures multiset(e.indexesOnlyInSecond) == multiset(d.indexesOnlyInFirst)
    ensures forall x :: (multiset(e.indexesWithDifferentDefinitions)[x] ==
                         multiset(d.indexesWithDifferentDefinitions)[Swapped(x)])
  {
    var common := m1.Keys * m2.Keys;
    assert m2.Keys * m1.Keys == common;
    forall k, x | k in common
      ensures TableDifferenceEntries(m2, m1)(k)[x] == TableDifferenceEntries(m1, m2)(k)[Swapped(x)]
    {
      DifferencesInTableSwap(Columns.TableNameOf(k), m1[k], m2[k]);
    }
    SumCorrespond(common, TableDifferenceEntries(m1, m2), TableDifferenceEntries(m2, m1), Swapped);
  }

  lemma DifferencesInTableSwap(tableName: string, t1: IndexTable, t2: IndexTable)
    ensures forall x :: (DifferencesInTable(tableName, t2, t1)[x] ==
                         DifferencesInTable(tableName, t1, t2)[Swapped(x)])
  {
    var names := t1.lists.Keys * t2.lists.Keys;
    assert t2.lists.Keys * t1.lists.Keys == names;
    forall name, x | name in names
      ensures DifferenceEntries(tableName, t2, t1)(name)[x] == DifferenceEntries(tableName, t1, t2)(name)[Swapped(x)]
    {
      MatchIsSymmetric(t1.lists[name], t2.lists[name]);
      if DiffersAt(t1, t2, name) {
        var y := IndexDifference(tableName, name, t2.lists[name][0], t1.lists[name][0]);
        assert x == y <==> Swapped(x) == Swapped(y);
      }
    }
    SumCorrespond(names, DifferenceEntries(tableName, t1, t2), DifferenceEntries(tableName, t2, t1), Swapped);
  }

  /** From the records themselves: a record of the first schema is only in
      the first iff no record of the second schema belongs to the same
      index of the same table. */
  lemma OnlyInFirstFromRecords(xs1: seq<IndexInfo>, xs2: seq<IndexInfo>, x: IndexInfo)
    ensures x in IndexesOnlyIn(Grouped(xs1), Grouped(xs2)) <==>
      x in xs1 && forall y :: y in xs2 ==> !InGroup(y, IndexTableKey(x), x.indexName)
  {
    var m1, m2 := Grouped(xs1), Grouped(xs2);
    var key, name := IndexTableKey(x), x.indexName;
    GroupedMapsAreSafe(xs1, xs2);
    InIndexesOnlyIn(m1, m2, x);
    GroupedMembership(xs1, key, name, x);
    SeenNamesMember(xs2, key, name);
    if x in IndexesOnlyIn(m1, m2) {
      var k, n :| k in m1 && n in m1[k].lists && x in m1[k].lists[n] && (k !in m2 || n !in m2[k].lists);
      GroupedMembership(xs1, k, n, x);
    }
  }

  // ---------------------------------------------------------------------------
  // Grouping keeps every record

  lemma {:induction false} FlattenIgnores(lists: map<string, seq<IndexInfo>>, names: seq<string>, name: string,
                                          v: seq<IndexInfo>)
    requires name !in names
    ensures Flatten(lists[name := v], names) == Flatten(lists, names)
  {
    if |names| > 0 {
      FlattenIgnores(lists, AllButLast(names), name, v);
    }
  }

  /** Appending to the list of a name that occurs once adds one record. */
  lemma {:induction false} FlattenAppend(lists: map<string, seq<IndexInfo>>, names: seq<string>, i: nat, x: IndexInfo)
    requires i < |names| && names[i] in lists
    requires forall j :: 0 <= j < |names| && j != i ==> names[j] != names[i]
    ensures multiset(Flatten(lists[names[i] := lists[names[i]] + [x]], names)) ==
            multiset(Flatten(lists, names)) + multiset{x}
  {
    var name := names[i];
    var p := AllButLast(names);
    if i == |names| - 1 {
      assert name !in p;
      FlattenIgnores(lists, p, name, lists[name] + [x]);
    } else {
      FlattenAppend(lists, p, i, x);
    }
  }

  /** `Entry` adds its record once to the records of a table. */
  lemma EntryAddsRecord(t: IndexTable, x: IndexInfo)
    requires ValidTable(t)
    ensures multiset(AllRecords(Entry(t, x))) == multiset(AllRecords(t)) + multiset{x}
  {
    var name := x.indexName;
    if name in t.lists {
      var i :| 0 <= i < |t.names| && t.names[i] == name;
      FlattenAppend(t.lists, t.names, i, x);
    } else {
      assert AllButLast(t.names + [name]) == t.names;
      FlattenIgnores(t.lists, t.names, name, [x]);
    }
  }

  /** `build_index_map` files every record exactly once: together, the
      lists of all tables are the input, so their lengths add up to its
      length. */
  lemma {:induction false} GroupingKeepsEveryRecord(xs: seq<IndexInfo>)
    ensures WholeTablesOver(Grouped(xs), Grouped(xs).Keys) == multiset(xs)
  {
    if |xs| == 0 {
      EmptyGrouped(xs);
    } else {
      GroupingKeepsEveryRecord(AllButLast(xs));
      GroupedLast(xs);
      InsertedAddsRecord(Grouped(AllButLast(xs)), Last(xs));
      MultisetLast(xs);
    }
  }

  /** The map of all records is the map of all but the last, with the last
      inserted; its table, if any, is well formed. */
  lemma GroupedLast(xs: seq<IndexInfo>)
    requires |xs| > 0
    ensures Grouped(xs) == Inserted(Grouped(AllButLast(xs)), Last(xs))
    ensures IndexTableKey(Last(xs)) in Grouped(AllButLast(xs)) ==>
              ValidTable(Grouped(AllButLast(xs))[IndexTableKey(Last(xs))])
  {
    var n := |xs| - 1;
    assert xs[..n] == AllButLast(xs) && xs[..n + 1] == xs;
    GroupedStep(xs, n);
    if IndexTableKey(Last(xs)) in Grouped(AllButLast(xs)) {
      GroupedIsValid(AllButLast(xs), IndexTableKey(Last(xs)));
    }
  }

  lemma MultisetLast<T>(xs: seq<T>)
    requires |xs| > 0
    ensures multiset(xs) == multiset(AllButLast(xs)) + multiset{Last(xs)}
  {
    assert xs == AllButLast(xs) + [Last(xs)];
  }

  /** Inserting a record into a map adds it once to all the records. */
  lemma InsertedAddsRecord(before: IndexMap, x: IndexInfo)
    requires IndexTableKey(x) in before ==> ValidTable(before[IndexTableKey(x)])
    ensures WholeTablesOver(Inserted(before, x), Inserted(before, x).Keys) ==
            WholeTablesOver(before, before.Keys) + multiset{x}
  {
    if IndexTableKey(x) in before {
      KnownTableAddsRecord(before, x);
    } else {
      NewTableAddsRecord(before, x);
    }
  }

  lemma KnownTableAddsRecord(before: IndexMap, x: IndexInfo)
    requires IndexTableKey(x) in before && ValidTable(before[IndexTableKey(x)])
    ensures WholeTablesOver(Inserted(before, x), Inserted(before, x).Keys) ==
            WholeTablesOver(before, before.Keys) + multiset{x}
  {
    var after := Inserted(before, x);
    var key := IndexTableKey(x);
    var f, g := WholeTableEntries(before), WholeTableEntries(after);
    assert after.Keys == before.Keys;
    EntryAddsRecord(before[key], x);
    SumUpdate(before.Keys, f, g, key, multiset{x});
  }

  lemma NewTableAddsRecord(before: IndexMap, x: IndexInfo)
    requires IndexTableKey(x) !in before
    ensures WholeTablesOver(Inserted(before, x), Inserted(before, x).Keys) ==
            WholeTablesOver(before, before.Keys) + multiset{x}
  {
    var after := Inserted(before, x);
    var key := IndexTableKey(x);
    var f, g := WholeTableEntries(before), WholeTableEntries(after);
    assert after.Keys == before.Keys + {key};
    var t := IndexTable([x.indexName], map[x.indexName := [x]]);
    assert after[key] == t;
    assert AllButLast(t.names) == [] && Last(t.names) == x.indexName;
    assert Flatten(t.lists, []) == [];
    assert AllRecords(t) == [x];
    SumInsert(before.Keys, g, key);
    SumCongruent(before.Keys, f, g);
  }

  /** One table with one index on each side whose lists do not match: no
      record is only on one side, and there is exactly one difference. */
  lemma OneIndexChanged(k: string, name: string, list1: seq<IndexInfo>, list2: seq<IndexInfo>)
    requires |list1| > 0 && |list2| > 0 && !IndexListsMatch(list1, list2)
    ensures IndexesOnlyIn(map[k := IndexTable([name], map[name := list1])],
                          map[k := IndexTable([name], map[name := list2])]) == multiset{}
    ensures IndexesOnlyIn(map[k := IndexTable([name], map[name := list2])],
                          map[k := IndexTable([name], map[name := list1])]) == multiset{}
    ensures IndexDifferences(map[k := IndexTable([name], map[name := list1])],
                             map[k := IndexTable([name], map[name := list2])]) ==
      multiset{IndexDifference(Columns.TableNameOf(k), name, list1[0], list2[0])}
  {
    var t1, t2 := IndexTable([name], map[name := list1]), IndexTable([name], map[name := list2]);
    var m1, m2 := map[k := t1], map[k := t2];
    assert m1.Keys * m2.Keys == {k} && m1.Keys - m2.Keys == {} && m2.Keys - m1.Keys == {};
    assert t1.lists.Keys - t2.lists.Keys == {} && t1.lists.Keys * t2.lists.Keys == {name};
    SumSingleton(k, SharedOnlyEntries(m1, m2));
    SumSingleton(k, SharedOnlyEntries(m2, m1));
    assert m2.Keys * m1.Keys == {k};
    SumSingleton(k, TableDifferenceEntries(m1, m2));
    SumSingleton(name, DifferenceEntries(Columns.TableNameOf(k), t1, t2));
  }
}
