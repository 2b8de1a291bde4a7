/** Cardinality facts about finite sets. */
module Sets {

  lemma {:induction false} SubsetCard<T>(a: set<T>, b: set<T>)
    requires a <= b
    ensures |a| <= |b|
    decreases |b|
  {
    if a != {} {
      var x :| x in a;
      SubsetCard(a - {x}, b - {x});
    }
  }

  lemma {:induction false} UnionCard<T>(a: set<T>, b: set<T>)
    ensures |a + b| <= |a| + |b|
    decreases |a|
  {
    if a != {} {
      var x :| x in a;
      UnionCard(a - {x}, b);
      if x in b {
        assert a + b == (a - {x}) + b;
      } else {
        assert a + b == ((a - {x}) + b) + {x};
      }
    }
  }

  lemma {:induction false} DisjointUnionCard<T>(a: set<T>, b: set<T>)
    requires a !! b
    ensures |a + b| == |a| + |b|
    decreases |a|
  {
    if a != {} {
      var x :| x in a;
      DisjointUnionCard(a - {x}, b);
      assert a + b == ((a - {x}) + b) + {x};
    }
  }
}
