/** Finite sets of integers that fill an interval. */
module Counting {

  function Below(n: nat): (r: set<int>)
    ensures forall k :: k in r <==> 0 <= k < n
  {
    if n == 0 then {} else Below(n - 1) + {n - 1}
  }

  lemma {:induction false} BelowSize(n: nat)
    ensures |Below(n)| == n
  {
    if n > 0 {
      BelowSize(n - 1);
    }
  }

  lemma {:induction false} SubsetSize<T>(a: set<T>, b: set<T>)
    requires a <= b
    ensures |a| <= |b|
    ensures |a| == |b| ==> a == b
  {
    assert b == a + (b - a);
    assert |b| == |a| + |b - a|;
  }

  /** Pigeonhole: n distinct integers inside [0, n) are all of [0, n). */
  lemma {:induction false} FillsInterval(s: set<int>, n: nat)
    requires |s| == n
    requires forall k :: k in s ==> 0 <= k < n
    ensures s == Below(n)
  {
    BelowSize(n);
    SubsetSize(s, Below(n));
  }

  function Image<K, V(==)>(keys: set<K>, m: map<K, V>): set<V>
    requires keys <= m.Keys
  {
    set k | k in keys :: m[k]
  }

  /** An injective image has as many elements as its source. */
  lemma {:induction false} ImageSize<K, V>(keys: set<K>, m: map<K, V>)
    requires keys <= m.Keys
    requires forall a, b :: a in keys && b in keys && m[a] == m[b] ==> a == b
    ensures |Image(keys, m)| == |keys|
  {
    if keys == {} {
      assert Image(keys, m) == {};
    } else {
      var x :| x in keys;
      ImageSize(keys - {x}, m);
      assert Image(keys, m) == Image(keys - {x}, m) + {m[x]};
    }
  }
}
