/** The map of SQL statements both generators fill: each statement is added
    under its category's key, after a newline when the key is already there
    (`get_mut` and `format!("{}\n{}", existing, value)`), and inserted
    otherwise. */
module StatementMap {
  import opened Text

  type StatementMap = map<string, string>

  /** What emitting the statements `values` in order under `key` leaves:
      nothing changes when there are none; otherwise `key` holds whatever it
      held, a newline, and the statements joined by newlines. */
  function WithStatements(sql: StatementMap, key: string, values: seq<string>): (r: StatementMap)
    ensures |values| == 0 ==> r == sql
    ensures |values| > 0 ==> r.Keys == sql.Keys + {key}
    ensures forall k :: k in sql && k != key ==> r[k] == sql[k]
    ensures |values| > 0 && key !in sql ==> r[key] == Join(values, "\n")
  {
    if |values| == 0 then sql
    else if key in sql then sql[key := sql[key] + "\n" + Join(values, "\n")]
    else sql[key := Join(values, "\n")]
  }

  /** One statement more under `key`. */
  function WithStatement(sql: StatementMap, key: string, value: string): (r: StatementMap)
    ensures r == WithStatements(sql, key, [value])
  {
    if key in sql then sql[key := sql[key] + "\n" + value] else sql[key := value]
  }

  /** Emitting one statement after several is emitting them all. */
  lemma WithStatementsSnoc(sql: StatementMap, key: string, values: seq<string>, value: string)
    ensures WithStatements(sql, key, values + [value]) == WithStatement(WithStatements(sql, key, values), key, value)
  {
    if |values| > 0 {
      JoinSnoc(values, value, "\n");
      if key in sql {
        assert sql[key] + "\n" + (Join(values, "\n") + "\n" + value) ==
               (sql[key] + "\n" + Join(values, "\n")) + "\n" + value;
      }
    } else {
      assert values + [value] == [value];
    }
  }

  /** The statements the source would emit for `items`, in their order. */
  function Rendered<T>(items: seq<T>, render: T -> string): (r: seq<string>)
    ensures |r| == |items|
    ensures forall i :: 0 <= i < |items| ==> r[i] == render(items[i])
  {
    seq(|items|, i requires 0 <= i < |items| => render(items[i]))
  }

  /** One category block: every item is rendered and added under `key`, in
      the order of `items`. */
  method EmitStatements<T>(sql: StatementMap, key: string, items: seq<T>, render: T -> string) returns (r: StatementMap)
    ensures r == WithStatements(sql, key, Rendered(items, render))
  {
    r := sql;
    for i := 0 to |items|
      invariant r == WithStatements(sql, key, Rendered(items[..i], render))
    {
      var value := render(items[i]);
      EmitStep(sql, key, items, render, i);
      if key in r {
        r := r[key := r[key] + "\n" + value];
      } else {
        r := r[key := value];
      }
    }
    assert items[..|items|] == items;
  }

  /** A block of statements that each come from one item alone; nothing
      happens when the list is empty. */
  method EmitBlock<T>(sql: StatementMap, key: string, items: seq<T>, render: T -> string) returns (r: StatementMap)
    ensures r == WithStatements(sql, key, Rendered(items, render))
  {
    r := sql;
    if |items| > 0 {
      r := EmitStatements(sql, key, items, render);
    }
  }

  lemma EmitStep<T>(sql: StatementMap, key: string, items: seq<T>, render: T -> string, i: nat)
    requires i < |items|
    ensures WithStatements(sql, key, Rendered(items[..i + 1], render)) ==
      WithStatement(WithStatements(sql, key, Rendered(items[..i], render)), key, render(items[i]))
  {
    assert Rendered(items[..i + 1], render) == Rendered(items[..i], render) + [render(items[i])];
    WithStatementsSnoc(sql, key, Rendered(items[..i], render), render(items[i]));
  }

  // ---------------------------------------------------------------------------
  // Categories

  /** A key of the result and the statements the source emits under it. */
  datatype Category = Category(key: string, statements: seq<string>)

  predicate DistinctLabels(cats: seq<Category>)
  {
    forall i, j :: 0 <= i < j < |cats| ==> cats[i].key != cats[j].key
  }

  /** `sql` is what the first `n` categories produce: a category's key is
      there iff it has statements, and then it holds them joined by
      newlines; there is no other key. */
  ghost predicate DescribesFirst(cats: seq<Category>, n: nat, sql: StatementMap)
    requires n <= |cats|
  {
    (forall i :: 0 <= i < n ==> (cats[i].key in sql <==> |cats[i].statements| > 0)) &&
    (forall i :: 0 <= i < n && cats[i].key in sql ==> sql[cats[i].key] == Join(cats[i].statements, "\n")) &&
    (forall k :: k in sql ==> exists i :: 0 <= i < n && cats[i].key == k)
  }

  ghost predicate Describes(cats: seq<Category>, sql: StatementMap)
  {
    DescribesFirst(cats, |cats|, sql)
  }

  /** Emitting the next category keeps the description. */
  lemma CategoryStep(cats: seq<Category>, n: nat, sql: StatementMap)
    requires DistinctLabels(cats) && n < |cats|
    requires DescribesFirst(cats, n, sql)
    ensures DescribesFirst(cats, n + 1, WithStatements(sql, cats[n].key, cats[n].statements))
  {
    var r := WithStatements(sql, cats[n].key, cats[n].statements);
    assert forall i :: 0 <= i < n ==> cats[i].key != cats[n].key;
    assert cats[n].key !in sql;
    forall k | k in r ensures exists i :: 0 <= i < n + 1 && cats[i].key == k {
      if k != cats[n].key {
        var i :| 0 <= i < n && cats[i].key == k;
      }
    }
  }

  /** The statements a category with statements leaves under its key. */
  lemma CategoryValue(cats: seq<Category>, sql: StatementMap, i: nat)
    requires Describes(cats, sql) && i < |cats| && |cats[i].statements| > 0
    ensures cats[i].key in sql && sql[cats[i].key] == Join(cats[i].statements, "\n")
  {
  }

  /** What emitting the categories in order leaves in an empty map. */
  ghost function EmitAll(cats: seq<Category>): StatementMap
  {
    if |cats| == 0 then map[]
    else WithStatements(EmitAll(cats[..|cats| - 1]), cats[|cats| - 1].key, cats[|cats| - 1].statements)
  }

  /** Emitting one category more. */
  lemma EmitAllSnoc(cats: seq<Category>, c: Category, before: StatementMap, after: StatementMap)
    requires before == EmitAll(cats)
    requires after == WithStatements(before, c.key, c.statements)
    ensures after == EmitAll(cats + [c])
  {
    assert (cats + [c])[..|cats|] == cats;
  }

  /** With distinct keys, emitting the categories one after the other leaves
      exactly what they describe. */
  lemma EmitAllDescribes(cats: seq<Category>)
    requires DistinctLabels(cats)
    ensures Describes(cats, EmitAll(cats))
  {
    EmitPrefixDescribes(cats, |cats|);
    assert cats[..|cats|] == cats;
  }

  lemma {:induction false} EmitPrefixDescribes(cats: seq<Category>, n: nat)
    requires DistinctLabels(cats) && n <= |cats|
    ensures DescribesFirst(cats, n, EmitAll(cats[..n]))
  {
    if n > 0 {
      EmitPrefixDescribes(cats, n - 1);
      assert cats[..n][..n - 1] == cats[..n - 1];
      CategoryStep(cats, n - 1, EmitAll(cats[..n - 1]));
    }
  }

  /** When no category has statements, the map is empty. */
  lemma NoStatementsNoKeys(cats: seq<Category>, sql: StatementMap)
    requires Describes(cats, sql)
    requires forall i :: 0 <= i < |cats| ==> |cats[i].statements| == 0
    ensures sql == map[]
  {
    var keys := set i | 0 <= i < |cats| :: cats[i].key;
    assert sql.Keys <= keys;
    assert forall k :: k in keys ==> k !in sql;
    assert sql.Keys == {};
  }

  /** When every category has statements, the keys are exactly the labels,
      so that there are as many keys as categories. */
  lemma EveryCategoryHasItsKey(cats: seq<Category>, sql: StatementMap)
    requires DistinctLabels(cats) && Describes(cats, sql)
    requires forall i :: 0 <= i < |cats| ==> |cats[i].statements| > 0
    ensures sql.Keys == Labels(cats)
    ensures |sql.Keys| == |cats|
  {
    forall k | k in sql ensures k in Labels(cats) {
      var i :| 0 <= i < |cats| && cats[i].key == k;
      LabelsHas(cats, i);
    }
    forall k | k in Labels(cats) ensures k in sql {
      var i := LabelIndex(cats, k);
    }
    LabelsSize(cats);
  }

  function Labels(cats: seq<Category>): set<string>
  {
    if |cats| == 0 then {} else {cats[0].key} + Labels(cats[1..])
  }

  lemma {:induction false} LabelsHas(cats: seq<Category>, i: nat)
    requires i < |cats|
    ensures cats[i].key in Labels(cats)
  {
    if i > 0 {
      LabelsHas(cats[1..], i - 1);
    }
  }

  lemma {:induction false} LabelIndex(cats: seq<Category>, k: string) returns (i: nat)
    requires k in Labels(cats)
    ensures i < |cats| && cats[i].key == k
  {
    i := 0;
    if cats[0].key != k {
      var j := LabelIndex(cats[1..], k);
      i := j + 1;
    }
  }

  lemma {:induction false} LabelsSize(cats: seq<Category>)
    requires DistinctLabels(cats)
    ensures |Labels(cats)| == |cats|
  {
    if |cats| > 0 {
      LabelsSize(cats[1..]);
      LabelsLack(cats[1..], cats[0].key);
    }
  }

  lemma {:induction false} LabelsLack(cats: seq<Category>, k: string)
    requires forall i :: 0 <= i < |cats| ==> cats[i].key != k
    ensures k !in Labels(cats)
  {
    if |cats| > 0 {
      LabelsLack(cats[1..], k);
    }
  }
}
