/** Sets of integers separated by another set. */
module Separation {
  /** Between any two members of `keys` there is a member of `hs`. */
  ghost predicate Separates(hs: set<int>, keys: set<int>) {
    forall a, b :: a in keys && b in keys && a < b ==> exists h :: h in hs && a < h < b
  }

  ghost function Pick<T>(keys: set<T>): (k: T)
    requires |keys| > 0
    ensures k in keys
  {
    var k :| k in keys; k
  }

  lemma {:induction false} Greatest(keys: set<int>) returns (m: int)
    requires |keys| > 0
    ensures m in keys && forall a :: a in keys ==> a <= m
    decreases |keys|
  {
    var k := Pick(keys);
    m := k;
    assert forall a :: a in keys ==> a == k || a in keys - {k};
    assert |keys - {k}| == |keys| - 1;
    if |keys| > 1 {
      var n := Greatest(keys - {k});
      if n > m { m := n; }
    }
  }

  lemma {:induction false} Least(keys: set<int>) returns (m: int)
    requires |keys| > 0
    ensures m in keys && forall a :: a in keys ==> m <= a
    decreases |keys|
  {
    var k := Pick(keys);
    m := k;
    assert forall a :: a in keys ==> a == k || a in keys - {k};
    assert |keys - {k}| == |keys| - 1;
    if |keys| > 1 {
      var n := Least(keys - {k});
      if n < m { m := n; }
    }
  }

  /** A separated set has at most one member more than the set that separates it. */
  lemma {:induction false} SeparatedCount(keys: set<int>, hs: set<int>)
    requires Separates(hs, keys)
    ensures |keys| <= |hs| + 1
    decreases |keys|
  {
    if |keys| >= 2 {
      var a := Greatest(keys);
      var rest := keys - {a};
      assert |rest| == |keys| - 1;
      var b := Greatest(rest);
      var h :| h in hs && b < h < a;
      forall x, y | x in rest && y in rest && x < y ensures exists k :: k in hs - {h} && x < k < y {
        var k :| k in hs && x < k < y;
        assert k in hs - {h};
      }
      SeparatedCount(rest, hs - {h});
    }
  }
}
