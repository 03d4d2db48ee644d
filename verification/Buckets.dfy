/**
  A dictionary of sets whose empty entries are dropped, the shape of the three set-valued
  indexes of `ConnectionManager` (app/services/ws/manager.py).  `BucketsOf` is the one
  correct index of a relation; adding and discarding one pair keeps to it.
*/
module Buckets {
  function KeysOf<K(==), V(==)>(rel: set<(K, V)>): set<K> {
    set e | e in rel :: e.0
  }

  function ValuesAt<K(==), V(==)>(rel: set<(K, V)>, k: K): set<V> {
    set e | e in rel && e.0 == k :: e.1
  }

  function BucketsOf<K, V>(rel: set<(K, V)>): map<K, set<V>> {
    map k | k in KeysOf(rel) :: ValuesAt(rel, k)
  }

  /** `d.get(k, set())` */
  function Bucket<K, V>(d: map<K, set<V>>, k: K): set<V> {
    if k in d then d[k] else {}
  }

  /** `d[k].add(v)` on a defaultdict */
  function Added<K, V>(d: map<K, set<V>>, k: K, v: V): map<K, set<V>> {
    d[k := Bucket(d, k) + {v}]
  }

  /** `d.get(k, set()).discard(v)`, then drop the entry if nothing is left */
  function Discarded<K, V>(d: map<K, set<V>>, k: K, v: V): map<K, set<V>> {
    if Bucket(d, k) - {v} == {} then d - {k} else d[k := Bucket(d, k) - {v}]
  }

  lemma BucketIsExact<K, V>(rel: set<(K, V)>, k: K, v: V)
    ensures v in Bucket(BucketsOf(rel), k) <==> (k, v) in rel
    ensures k in BucketsOf(rel) <==> Bucket(BucketsOf(rel), k) != {}
  {
    if v in Bucket(BucketsOf(rel), k) {
      var e :| e in rel && e.0 == k && e.1 == v;
      assert e == (k, v);
    }
    if (k, v) in rel {
      assert (k, v).0 == k && (k, v).1 == v;
      assert k in KeysOf(rel);
    }
    if k in BucketsOf(rel) {
      var e :| e in rel && e.0 == k;
      assert e.1 in BucketsOf(rel)[k];
    }
  }

  lemma SameBuckets<K, V>(d: map<K, set<V>>, rel: set<(K, V)>)
    requires forall k | k in d :: d[k] != {}
    requires forall k, v :: v in Bucket(d, k) <==> (k, v) in rel
    ensures d == BucketsOf(rel)
  {
    var b := BucketsOf(rel);
    forall k
      ensures k in d <==> k in b
      ensures Bucket(d, k) == Bucket(b, k)
    {
      forall v
        ensures v in Bucket(d, k) <==> v in Bucket(b, k)
      {
        BucketIsExact(rel, k, v);
      }
      if k in d {
        var v :| v in d[k];
        BucketIsExact(rel, k, v);
      }
      if k in b {
        var e :| e in rel && e.0 == k;
        BucketIsExact(rel, k, e.1);
      }
    }
    forall k | k in d
      ensures d[k] == b[k]
    {
      assert Bucket(d, k) == Bucket(b, k);
    }
  }

  lemma AddingKeepsBuckets<K, V>(rel: set<(K, V)>, k: K, v: V)
    ensures Added(BucketsOf(rel), k, v) == BucketsOf(rel + {(k, v)})
  {
    var d := Added(BucketsOf(rel), k, v);
    forall k', v'
      ensures v' in Bucket(d, k') <==> (k', v') in rel + {(k, v)}
    {
      BucketIsExact(rel, k', v');
    }
    forall k' | k' in d
      ensures d[k'] != {}
    {
      BucketIsExact(rel, k', v);
    }
    SameBuckets(d, rel + {(k, v)});
  }

  lemma DiscardingKeepsBuckets<K, V>(rel: set<(K, V)>, k: K, v: V)
    ensures Discarded(BucketsOf(rel), k, v) == BucketsOf(rel - {(k, v)})
  {
    var d := Discarded(BucketsOf(rel), k, v);
    forall k', v'
      ensures v' in Bucket(d, k') <==> (k', v') in rel - {(k, v)}
    {
      BucketIsExact(rel, k', v');
    }
    forall k' | k' in d
      ensures d[k'] != {}
    {
      BucketIsExact(rel, k', v);
    }
    SameBuckets(d, rel - {(k, v)});
  }

  /** A pair too many shows in the buckets. */
  lemma BucketsDiffer<K, V>(rel: set<(K, V)>, k: K, v: V)
    requires (k, v) !in rel
    ensures BucketsOf(rel + {(k, v)}) != BucketsOf(rel)
  {
    BucketIsExact(rel, k, v);
    BucketIsExact(rel + {(k, v)}, k, v);
  }
}
