/** `compare_index_lists` of src/index.rs: two lists of index records are
    the same index when they have the same length and, once both are
    stable-sorted by `(seq_in_index, column_name)`, agree element by element
    on eight of their fields. */
module IndexOrder {
  import opened Wrappers
  import opened Text
  import opened NumericField
  import opened Indexes
  import opened Seqs
  import IndexGrouping

  // ---------------------------------------------------------------------------
  // The sort key

  /** `Option<u32>::cmp`: `None` before every `Some`, and `Some`s by value. */
  predicate SeqLess(a: Option<U32>, b: Option<U32>)
  {
    match a
    case None => b.Some?
    case Some(n) => b.Some? && n < b.value
  }

  /** The comparator of both sorts: `seq_in_index`, then `column_name`. */
  predicate KeyLess(x: IndexInfo, y: IndexInfo): (less: bool)
    ensures less ==> !SameKey(x, y)
    ensures SeqLess(x.seqInIndex, y.seqInIndex) ==> less
    ensures x.seqInIndex == y.seqInIndex ==> (less <==> LessString(x.columnName, y.columnName))
  {
    SeqLess(x.seqInIndex, y.seqInIndex) ||
    (x.seqInIndex == y.seqInIndex && LessString(x.columnName, y.columnName))
  }

  /** The comparator says `Equal`. */
  predicate SameKey(x: IndexInfo, y: IndexInfo)
  {
    x.seqInIndex == y.seqInIndex && x.columnName == y.columnName
  }

  lemma SameKeyNotLess(x: IndexInfo, y: IndexInfo)
    requires SameKey(x, y)
    ensures !KeyLess(x, y) && !KeyLess(y, x)
  {
    LessStringIrreflexive(x.columnName);
  }

  lemma KeyLessTransitive(x: IndexInfo, y: IndexInfo, z: IndexInfo)
    requires KeyLess(x, y) && KeyLess(y, z)
    ensures KeyLess(x, z)
  {
    if x.seqInIndex == y.seqInIndex == z.seqInIndex {
      LessStringTransitive(x.columnName, y.columnName, z.columnName);
    }
  }

  lemma KeyLessAsymmetric(x: IndexInfo, y: IndexInfo)
    requires KeyLess(x, y)
    ensures !KeyLess(y, x)
  {
    if KeyLess(y, x) {
      KeyLessTransitive(x, y, x);
      LessStringIrreflexive(x.columnName);
    }
  }

  /** The comparator is total: `Less`, `Greater` or `Equal`. */
  lemma KeyTrichotomy(x: IndexInfo, y: IndexInfo)
    ensures KeyLess(x, y) || KeyLess(y, x) || SameKey(x, y)
  {
    LessStringTotal(x.columnName, y.columnName);
  }

  /** "Not after" is transitive. */
  lemma NotLessTransitive(x: IndexInfo, y: IndexInfo, z: IndexInfo)
    requires !KeyLess(y, x) && !KeyLess(z, y)
    ensures !KeyLess(z, x)
  {
    KeyTrichotomy(x, y);
    KeyTrichotomy(y, z);
    if KeyLess(z, x) {
      if KeyLess(x, y) {
        KeyLessTransitive(z, x, y);
      } else if KeyLess(y, z) {
        KeyLessTransitive(y, z, x);
      } else {
        LessStringIrreflexive(x.columnName);
      }
    }
  }

  // ---------------------------------------------------------------------------
  // The stable sort, stated on sequences

  /** `x` inserted after every element that does not sort after it. */
  function InsertStable(s: seq<IndexInfo>, x: IndexInfo): (r: seq<IndexInfo>)
    ensures |r| == |s| + 1
  {
    if |s| == 0 || !KeyLess(x, Last(s)) then s + [x]
    else InsertStable(AllButLast(s), x) + [Last(s)]
  }

  /** Insertion sort: each element in turn inserted into the sorted prefix. */
  function SortByKey(s: seq<IndexInfo>): (r: seq<IndexInfo>)
    ensures |r| == |s|
  {
    if |s| == 0 then []
    else InsertStable(SortByKey(AllButLast(s)), Last(s))
  }

  lemma {:induction false} InsertPermutes(s: seq<IndexInfo>, x: IndexInfo)
    ensures multiset(InsertStable(s, x)) == multiset(s) + multiset{x}
  {
    if |s| > 0 && KeyLess(x, Last(s)) {
      InsertPermutes(AllButLast(s), x);
      assert s == AllButLast(s) + [Last(s)];
    }
  }

  /** The result of the sort is a permutation of its input. */
  lemma {:induction false} SortPermutes(s: seq<IndexInfo>)
    ensures multiset(SortByKey(s)) == multiset(s)
  {
    if |s| > 0 {
      SortPermutes(AllButLast(s));
      InsertPermutes(SortByKey(AllButLast(s)), Last(s));
      assert s == AllButLast(s) + [Last(s)];
    }
  }

  predicate Sorted(s: seq<IndexInfo>)
  {
    forall i, j :: 0 <= i < j < |s| ==> !KeyLess(s[j], s[i])
  }

  lemma {:induction false} InsertKeepsSorted(s: seq<IndexInfo>, x: IndexInfo)
    requires Sorted(s)
    ensures Sorted(InsertStable(s, x))
  {
    if |s| == 0 {
    } else if !KeyLess(x, Last(s)) {
      forall i | 0 <= i < |s|
        ensures !KeyLess(x, s[i])
      {
        if i < |s| - 1 {
          NotLessTransitive(s[i], Last(s), x);
        }
      }
    } else {
      var t := InsertStable(AllButLast(s), x);
      InsertKeepsSorted(AllButLast(s), x);
      InsertPermutes(AllButLast(s), x);
      forall i | 0 <= i < |t|
        ensures !KeyLess(Last(s), t[i])
      {
        assert t[i] in multiset(t);
        if t[i] == x {
          KeyLessAsymmetric(x, Last(s));
        } else {
          assert t[i] in multiset(AllButLast(s));
          var k :| 0 <= k < |s| - 1 && s[k] == t[i];
        }
      }
    }
  }

  /** The result of the sort is sorted. */
  lemma {:induction false} SortIsSorted(s: seq<IndexInfo>)
    ensures Sorted(SortByKey(s))
  {
    if |s| > 0 {
      SortIsSorted(AllButLast(s));
      InsertKeepsSorted(SortByKey(AllButLast(s)), Last(s));
    }
  }

  /** The records of `s` that compare `Equal` to `c`, in the order of `s`. */
  function KeyClass(s: seq<IndexInfo>, c: IndexInfo): seq<IndexInfo>
  {
    if |s| == 0 then []
    else KeyClass(AllButLast(s), c) + (if SameKey(Last(s), c) then [Last(s)] else [])
  }

  lemma {:induction false} InsertKeepsClasses(s: seq<IndexInfo>, x: IndexInfo, c: IndexInfo)
    ensures KeyClass(InsertStable(s, x), c) == KeyClass(s, c) + (if SameKey(x, c) then [x] else [])
  {
    if |s| == 0 || !KeyLess(x, Last(s)) {
      assert AllButLast(s + [x]) == s;
    } else {
      var t := InsertStable(AllButLast(s), x);
      InsertKeepsClasses(AllButLast(s), x, c);
      assert AllButLast(t + [Last(s)]) == t;
    }
  }

  /** The sort is stable: records that compare `Equal` keep their order. */
  lemma {:induction false} SortIsStable(s: seq<IndexInfo>, c: IndexInfo)
    ensures KeyClass(SortByKey(s), c) == KeyClass(s, c)
  {
    if |s| > 0 {
      SortIsStable(AllButLast(s), c);
      InsertKeepsClasses(SortByKey(AllButLast(s)), Last(s), c);
    }
  }

  /** Inserting where the inner loop of the insertion sort stops. */
  lemma {:induction false} InsertAt(s: seq<IndexInfo>, x: IndexInfo, j: nat)
    requires j <= |s|
    requires j == 0 || !KeyLess(x, s[j - 1])
    requires forall k :: j <= k < |s| ==> KeyLess(x, s[k])
    ensures InsertStable(s, x) == s[..j] + [x] + s[j..]
  {
    if j < |s| {
      var p := AllButLast(s);
      assert KeyLess(x, Last(s));
      InsertAt(p, x, j);
      assert InsertStable(s, x) == (p[..j] + [x] + p[j..]) + [Last(s)];
      assert p[..j] == s[..j];
      assert p[j..] + [Last(s)] == s[j..];
    } else {
      assert s[..j] == s;
    }
  }

  /** `sort_by` on a clone: insertion sort in place, shifting later elements
      right while the new one sorts before them, which keeps equal elements
      in their order. */
  method SortIndexes(a: array<IndexInfo>)
    modifies a
    ensures a[..] == SortByKey(old(a[..]))
  {
    ghost var input := a[..];
    for i := 0 to a.Length
      invariant a[..i] == SortByKey(input[..i])
      invariant a[i..] == input[i..]
    {
      assert a[i] == input[i];
      assert AllButLast(input[..i + 1]) == input[..i];
      InsertNext(a, i);
    }
    assert input[..a.Length] == input;
  }

  /** One pass of the inner loop: `a[i]` moves left past every element of
      the sorted prefix `a[..i]` that sorts after it. */
  method InsertNext(a: array<IndexInfo>, i: nat)
    requires i < a.Length
    modifies a
    ensures a[..i + 1] == InsertStable(old(a[..i]), old(a[i]))
    ensures a[i + 1..] == old(a[i + 1..])
  {
    ghost var sorted := a[..i];
    ghost var rest := a[i + 1..];
    var x := a[i];
    var j := i;
    while j > 0 && KeyLess(x, a[j - 1])
      invariant 0 <= j <= i
      invariant a[..j] == sorted[..j]
      invariant a[j + 1..i + 1] == sorted[j..]
      invariant a[i + 1..] == rest
      invariant forall k :: j <= k < i ==> KeyLess(x, sorted[k])
    {
      a[j] := a[j - 1];
      j := j - 1;
    }
    a[j] := x;
    InsertAt(sorted, x, j);
    assert a[..i + 1] == sorted[..j] + [x] + sorted[j..];
  }

  // ---------------------------------------------------------------------------
  // Comparing two lists

  /** The eight fields the element-wise comparison looks at; `seq_in_index`,
      `cardinality`, `sub_part` and `packed` are not among them. */
  predicate SameDefinition(x: IndexInfo, y: IndexInfo): (same: bool)
    ensures x == y ==> same
    ensures same ==> IndexGrouping.IndexTableKey(x) == IndexGrouping.IndexTableKey(y) && x.indexName == y.indexName
    ensures same <==> StatisticsFree(x) == StatisticsFree(y)
  {
    x.tableSchema == y.tableSchema && x.tableName == y.tableName && x.indexName == y.indexName &&
    x.columnName == y.columnName && x.collation == y.collation && x.nullable == y.nullable &&
    x.indexType == y.indexType && x.nonUnique == y.nonUnique
  }

  /** A record with the four fields the comparison ignores cleared. */
  function StatisticsFree(x: IndexInfo): IndexInfo
  {
    x.(seqInIndex := None, cardinality := None, subPart := None, packed := None)
  }

  predicate PairwiseSame(s: seq<IndexInfo>, t: seq<IndexInfo>)
    requires |s| == |t|
  {
    forall i :: 0 <= i < |s| ==> SameDefinition(s[i], t[i])
  }

  /** What `compare_index_lists` returns. */
  predicate IndexListsMatch(list1: seq<IndexInfo>, list2: seq<IndexInfo>): (matched: bool)
    ensures matched ==> |list1| == |list2|
    ensures list1 == list2 ==> matched
  {
    |list1| == |list2| && PairwiseSame(SortByKey(list1), SortByKey(list2))
  }

  /** `compare_index_lists`: the length check, two sorted clones, and the
      zipped comparison with its early return. */
  method CompareIndexLists(list1: seq<IndexInfo>, list2: seq<IndexInfo>) returns (equal: bool)
    ensures equal == IndexListsMatch(list1, list2)
  {
    if |list1| != |list2| {
      return false;
    }
    var sorted1 := new IndexInfo[|list1|](i requires 0 <= i < |list1| => list1[i]);
    var sorted2 := new IndexInfo[|list2|](i requires 0 <= i < |list2| => list2[i]);
    assert sorted1[..] == list1 && sorted2[..] == list2;
    SortIndexes(sorted1);
    SortIndexes(sorted2);
    equal := ZipSame(sorted1, sorted2);
  }

  /** The zipped comparison of two sorted lists of one length: false at the
      first pair that differs on one of the eight fields. */
  method ZipSame(sorted1: array<IndexInfo>, sorted2: array<IndexInfo>) returns (equal: bool)
    requires sorted1.Length == sorted2.Length
    ensures equal == PairwiseSame(sorted1[..], sorted2[..])
  {
    for i := 0 to sorted1.Length
      invariant forall k :: 0 <= k < i ==> SameDefinition(sorted1[k], sorted2[k])
    {
      if !SameDefinition(sorted1[i], sorted2[i]) {
        assert !SameDefinition(sorted1[..][i], sorted2[..][i]);
        return false;
      }
    }
    return true;
  }

  // ---------------------------------------------------------------------------
  // What the comparison promises

  /** Lists of different lengths never match. */
  lemma LengthsMustAgree(list1: seq<IndexInfo>, list2: seq<IndexInfo>)
    requires |list1| != |list2|
    ensures !IndexListsMatch(list1, list2)
  {
  }

  /** Every list matches itself. */
  lemma MatchIsReflexive(list: seq<IndexInfo>)
    ensures IndexListsMatch(list, list)
  {
  }

  /** The comparison is symmetric. */
  lemma MatchIsSymmetric(list1: seq<IndexInfo>, list2: seq<IndexInfo>)
    ensures IndexListsMatch(list1, list2) == IndexListsMatch(list2, list1)
  {
  }

  /** A record with its statistics (`cardinality`, `sub_part`, `packed`)
      replaced. */
  function WithStatistics(x: IndexInfo, cardinality: Option<U64>, subPart: Option<U64>, packed: Option<string>): IndexInfo
  {
    x.(cardinality := cardinality, subPart := subPart, packed := packed)
  }

  function Restated(s: seq<IndexInfo>, cardinality: Option<U64>, subPart: Option<U64>, packed: Option<string>): (r: seq<IndexInfo>)
    ensures |r| == |s|
    ensures forall i :: 0 <= i < |s| ==> r[i] == WithStatistics(s[i], cardinality, subPart, packed)
  {
    seq(|s|, i requires 0 <= i < |s| => WithStatistics(s[i], cardinality, subPart, packed))
  }

  lemma {:induction false} RestatedInsert(s: seq<IndexInfo>, x: IndexInfo, c: Option<U64>, p: Option<U64>, k: Option<string>)
    ensures Restated(InsertStable(s, x), c, p, k) == InsertStable(Restated(s, c, p, k), WithStatistics(x, c, p, k))
  {
    if |s| > 0 && KeyLess(x, Last(s)) {
      RestatedInsert(AllButLast(s), x, c, p, k);
      assert AllButLast(Restated(s, c, p, k)) == Restated(AllButLast(s), c, p, k);
    }
  }

  /** Changing statistics does not move a record in the sort. */
  lemma {:induction false} RestatedSort(s: seq<IndexInfo>, c: Option<U64>, p: Option<U64>, k: Option<string>)
    ensures Restated(SortByKey(s), c, p, k) == SortByKey(Restated(s, c, p, k))
  {
    if |s| > 0 {
      RestatedSort(AllButLast(s), c, p, k);
      RestatedInsert(SortByKey(AllButLast(s)), Last(s), c, p, k);
      assert AllButLast(Restated(s, c, p, k)) == Restated(AllButLast(s), c, p, k);
    }
  }

  /** The statistics of a list play no part in the comparison. */
  lemma StatisticsAreIgnored(list1: seq<IndexInfo>, list2: seq<IndexInfo>,
                             c: Option<U64>, p: Option<U64>, k: Option<string>)
    ensures IndexListsMatch(Restated(list1, c, p, k), list2) == IndexListsMatch(list1, list2)
  {
    RestatedSort(list1, c, p, k);
  }

  /** The same two columns of an index with their positions swapped: the
      records agree except for which column holds which `seq_in_index`, and
      the lists do not match. */
  lemma SwappedPositionsDiffer(email1: IndexInfo, name2: IndexInfo, name1: IndexInfo, email2: IndexInfo)
    requires email1.columnName == email2.columnName == "email"
    requires name1.columnName == name2.columnName == "username"
    requires email1.seqInIndex == name1.seqInIndex == Some(1)
    requires name2.seqInIndex == email2.seqInIndex == Some(2)
    ensures !IndexListsMatch([email1, name2], [name1, email2])
  {
    assert AllButLast([email1, name2]) == [email1];
    assert AllButLast([name1, email2]) == [name1];
    assert SortByKey([email1]) == [email1];
    assert SortByKey([name1]) == [name1];
    assert SortByKey([email1, name2]) == [email1, name2];
    assert SortByKey([name1, email2]) == [name1, email2];
    assert !SameDefinition(email1, name1);
  }

  /** The comparison is insensitive to order only up to ties: two records
      with the same `(seq_in_index, column_name)` keep their input order
      through the stable sort, so the same two records listed the other way
      round do not match when they differ in a compared field. */
  lemma TiesKeepTheirOrder(a: IndexInfo, b: IndexInfo)
    requires a.seqInIndex == b.seqInIndex && a.columnName == b.columnName
    requires a.collation != b.collation
    ensures multiset([a, b]) == multiset([b, a])
    ensures !IndexListsMatch([a, b], [b, a])
  {
    SameKeyNotLess(a, b);
    SameKeyNotLess(b, a);
    assert AllButLast([a, b]) == [a];
    assert AllButLast([b, a]) == [b];
    assert SortByKey([a]) == [a];
    assert SortByKey([b]) == [b];
    assert SortByKey([a, b]) == [a, b];
    assert SortByKey([b, a]) == [b, a];
    assert !SameDefinition(a, b);
  }
}
