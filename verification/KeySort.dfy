/** Sorting a set of keys by a strict total order. */
module KeySort {
  import opened Utf16

  ghost predicate StrictlySorted(ks: seq<string>, less: (string, string) -> bool) {
    forall i, j | 0 <= i < j < |ks| :: less(ks[i], ks[j])
  }

  ghost predicate Lists(ks: seq<string>, keys: set<string>) {
    forall k :: k in ks <==> k in keys
  }

  ghost predicate IsLeast(m: string, keys: set<string>, less: (string, string) -> bool) {
    m in keys && forall k | k in keys :: k == m || less(m, k)
  }

  lemma {:induction false} LeastExists(keys: set<string>, less: (string, string) -> bool) returns (m: string)
    requires StrictTotalOrder(less) && keys != {}
    ensures IsLeast(m, keys, less)
    decreases |keys|
  {
    var x :| x in keys;
    if keys == {x} {
      m := x;
    } else {
      var rest := keys - {x};
      m := LeastExists(rest, less);
      assert forall k | k in keys :: k == x || k in rest;
      assert x == m || less(x, m) || less(m, x);
      if less(x, m) { m := x; }
    }
  }

  /** The keys in increasing order. */
  ghost function Sorted(keys: set<string>, less: (string, string) -> bool): (ks: seq<string>)
    requires StrictTotalOrder(less)
    ensures StrictlySorted(ks, less) && Lists(ks, keys)
    decreases |keys|
  {
    if keys == {} then []
    else
      assert exists m :: IsLeast(m, keys, less) by { var m := LeastExists(keys, less); }
      var m :| IsLeast(m, keys, less);
      [m] + Sorted(keys - {m}, less)
  }

  /** However the keys were enumerated, sorting them gives the same list. */
  lemma {:induction false} SortedIsUnique(ks: seq<string>, keys: set<string>, less: (string, string) -> bool)
    requires StrictTotalOrder(less) && StrictlySorted(ks, less) && Lists(ks, keys)
    ensures ks == Sorted(keys, less)
    decreases |keys|
  {
    var ss := Sorted(keys, less);
    if keys == {} {
      var head := if |ks| > 0 then ks[0] else "";
      assert |ks| > 0 ==> head in ks;
    } else {
      var k0 :| k0 in keys;
      assert k0 in ks;
      var m := ss[0];
      assert m in ks && ks[0] in ss;
      assert ks[0] == m;
      forall k ensures k in ks[1..] <==> k in keys - {m} {
        if k in ks[1..] { var i :| 1 <= i < |ks| && ks[i] == k; assert less(ks[0], k); }
        if k in keys - {m} { var i :| 0 <= i < |ks| && ks[i] == k; assert ks[1..][i - 1] == k; }
      }
      SortedIsUnique(ks[1..], keys - {m}, less);
      assert ks == [ks[0]] + ks[1..];
    }
  }
}
