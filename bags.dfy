/** Multisets gathered over a finite set of keys.

    The engine walks `HashMap` keys and `HashSet` differences, whose order Rust
    leaves unspecified, and pushes what it finds onto a `Vec`. The order of
    such a `Vec` is therefore not part of what the program promises; its
    contents are. `Sum(keys, f)` is those contents: the union of the multisets
    `f(k)` over the keys, whatever the order of the walk (`SumPick`). */
module Bags {

  /** Some element of a non-empty set; the same one every time. */
  ghost function Pick<K>(s: set<K>): (k: K)
    requires s != {}
    ensures k in s
  {
    var k :| k in s; k
  }

  /** The union of the multisets the keys contribute. */
  ghost function Sum<K, V>(keys: set<K>, f: K -> multiset<V>): multiset<V>
    decreases keys
  {
    if keys == {} then multiset{}
    else
      var k := Pick(keys);
      f(k) + Sum(keys - {k}, f)
  }

  /** The walk may start with any key. */
  lemma {:induction false} SumPick<K, V>(keys: set<K>, f: K -> multiset<V>, k: K)
    requires k in keys
    ensures Sum(keys, f) == f(k) + Sum(keys - {k}, f)
    decreases keys
  {
    var j := Pick(keys);
    if j != k {
      SumPick(keys - {j}, f, k);
      SumPick(keys - {k}, f, j);
      assert (keys - {j}) - {k} == (keys - {k}) - {j};
    }
  }

  /** Walking one more key adds its multiset. */
  lemma SumInsert<K, V>(keys: set<K>, f: K -> multiset<V>, k: K)
    requires k !in keys
    ensures Sum(keys + {k}, f) == Sum(keys, f) + f(k)
  {
    SumPick(keys + {k}, f, k);
    assert (keys + {k}) - {k} == keys;
  }

  /** A single key contributes all there is. */
  lemma SumSingleton<K, V>(k: K, f: K -> multiset<V>)
    ensures Sum({k}, f) == f(k)
  {
    SumPick({k}, f, k);
    assert {k} - {k} == {};
  }

  /** An element is in the sum iff some key contributes it. */
  lemma {:induction false} SumMember<K, V>(keys: set<K>, f: K -> multiset<V>, x: V)
    ensures x in Sum(keys, f) <==> exists k :: k in keys && x in f(k)
    decreases keys
  {
    if keys != {} {
      var k := Pick(keys);
      SumMember(keys - {k}, f, x);
      if x in Sum(keys, f) && x !in f(k) {
        var j :| j in keys - {k} && x in f(j);
        assert j in keys;
      }
      if exists j :: j in keys && x in f(j) {
        var j :| j in keys && x in f(j);
        if j != k {
          assert j in keys - {k};
        }
      }
    }
  }

  /** Keys that contribute nothing leave the sum empty. */
  lemma SumOfEmpties<K, V>(keys: set<K>, f: K -> multiset<V>)
    requires forall k :: k in keys ==> f(k) == multiset{}
    ensures Sum(keys, f) == multiset{}
  {
    forall x ensures x !in Sum(keys, f) {
      SumMember(keys, f, x);
    }
  }

  /** Two walks over the same keys whose contributions correspond key by key
      through `g` (the multiplicity of `x` on the right is that of `g(x)` on
      the left) have sums that correspond through `g` as well. */
  lemma {:induction false} SumCorrespond<K, V>(keys: set<K>, f1: K -> multiset<V>, f2: K -> multiset<V>, g: V -> V)
    requires forall k, x :: k in keys ==> f2(k)[x] == f1(k)[g(x)]
    ensures forall x :: Sum(keys, f2)[x] == Sum(keys, f1)[g(x)]
    decreases keys
  {
    if keys != {} {
      var k := Pick(keys);
      SumCorrespond(keys - {k}, f1, f2, g);
    }
  }

  /** Contributions that agree on the keys give the same sum. */
  lemma {:induction false} SumCongruent<K, V>(keys: set<K>, f1: K -> multiset<V>, f2: K -> multiset<V>)
    requires forall k :: k in keys ==> f1(k) == f2(k)
    ensures Sum(keys, f1) == Sum(keys, f2)
    decreases keys
  {
    if keys != {} {
      var k := Pick(keys);
      SumCongruent(keys - {k}, f1, f2);
    }
  }

  /** Adding to what one key contributes adds as much to the sum. */
  lemma SumUpdate<K, V>(keys: set<K>, f: K -> multiset<V>, g: K -> multiset<V>, k: K, extra: multiset<V>)
    requires k in keys
    requires forall j :: j in keys && j != k ==> f(j) == g(j)
    requires g(k) == f(k) + extra
    ensures Sum(keys, g) == Sum(keys, f) + extra
  {
    SumPick(keys, f, k);
    SumPick(keys, g, k);
    SumCongruent(keys - {k}, f, g);
  }

  /** Taking one more key out of the pending set moves it to the done part. */
  lemma MoveOne<K>(all: set<K>, pending: set<K>, k: K)
    requires pending <= all && k in pending
    ensures all - (pending - {k}) == (all - pending) + {k}
    ensures k !in all - pending
  {
  }

  /** A list whose contents are empty is empty. */
  lemma EmptyBag<T>(s: seq<T>)
    requires multiset(s) == multiset{}
    ensures s == []
  {
    assert |s| == |multiset(s)| == 0;
  }
}
