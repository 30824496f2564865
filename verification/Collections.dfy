/** Cardinality facts the solver does not find by itself. */
module Collections {
  lemma RemoveSize<K, V>(m: map<K, V>, k: K)
    requires k in m
    ensures |m - {k}| == |m| - 1
  {
    var m' := m - {k};
    assert m'.Keys == m.Keys - {k};
    assert |m'| == |m'.Keys| && |m| == |m.Keys|;
  }

  lemma SameKeysSize<K, V, W>(m: map<K, V>, n: map<K, W>)
    requires m.Keys == n.Keys
    ensures |m| == |n|
  {
    assert |m| == |m.Keys| && |n| == |n.Keys|;
  }

  lemma SubsetSize<T>(a: set<T>, b: set<T>)
    requires a <= b
    ensures |a| <= |b|
    ensures |a| == |b| ==> a == b
  {
    assert b == a + (b - a);
  }

  /** The sequence lists every element of the set once. */
  predicate Enumerates<T(==)>(order: seq<T>, elements: set<T>) {
    && (forall x :: x in order ==> x in elements)
    && (forall x :: x in elements ==> x in order)
    && (forall i, j :: 0 <= i < j < |order| ==> order[i] != order[j])
  }

  lemma DifferenceIsEmpty<T>(a: set<T>, b: set<T>)
    ensures a - b == {} <==> a <= b
  {
    if a - b == {} {
      forall x | x in a
        ensures x in b
      {
        assert x !in a - b;
      }
    }
  }

  lemma SomeOrder<T>(elements: set<T>) returns (order: seq<T>)
    ensures Enumerates(order, elements)
    decreases |elements|
  {
    if elements == {} {
      order := [];
    } else {
      var x :| x in elements;
      var rest := SomeOrder(elements - {x});
      order := [x] + rest;
      assert forall y :: y in order <==> y == x || y in rest;
    }
  }

  /** How many flags are set. */
  function Count(flags: seq<bool>): nat {
    if flags == [] then 0 else Count(flags[..|flags| - 1]) + if flags[|flags| - 1] then 1 else 0
  }
}
