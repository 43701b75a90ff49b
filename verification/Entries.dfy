/**
 A map's entries in some order: what walking an unordered map yields.
 */
module Entries {

  /** The entries of a map listed in some order. */
  ghost predicate Lists<V(!new)>(m: map<string, V>, xs: seq<(string, V)>) {
    && (forall i :: 0 <= i < |xs| ==> xs[i].0 in m && m[xs[i].0] == xs[i].1)
    && (forall i, j :: 0 <= i < j < |xs| ==> xs[i].0 != xs[j].0)
    && (forall k :: k in m ==> exists i :: 0 <= i < |xs| && xs[i].0 == k)
  }

  predicate HasKey<V(!new)>(xs: seq<(string, V)>, k: string) { exists i :: 0 <= i < |xs| && xs[i].0 == k }

  lemma HasKeyGrows<V(!new)>(xs: seq<(string, V)>, x: (string, V))
    ensures forall k :: (HasKey(xs + [x], k) <==> HasKey(xs, k) || k == x.0)
  {
    var ys := xs + [x];
    forall k ensures HasKey(ys, k) <==> HasKey(xs, k) || k == x.0 {
      if HasKey(xs, k) {
        var i :| 0 <= i < |xs| && xs[i].0 == k;
        assert ys[i].0 == k;
      }
      if k == x.0 { assert ys[|xs|].0 == k; }
    }
  }

  lemma {:induction false} ListsLength<V(!new)>(m: map<string, V>, xs: seq<(string, V)>)
    requires Lists(m, xs)
    ensures |xs| == |m|
  {
    if xs == [] {
      assert m == map[];
    } else {
      var n := |xs| - 1;
      var rest := m - {xs[n].0};
      assert rest.Keys == m.Keys - {xs[n].0};
      forall k | k in rest ensures exists i :: 0 <= i < n && xs[..n][i].0 == k {
        var i :| 0 <= i < |xs| && xs[i].0 == k;
        assert xs[..n][i].0 == k;
      }
      ListsLength(rest, xs[..n]);
      assert |m.Keys| == |rest.Keys| + 1;
    }
  }

  /** Walks a map in an order of its own choosing. */
  method WalkEntries<V(!new)>(m: map<string, V>) returns (xs: seq<(string, V)>)
    ensures Lists(m, xs)
  {
    xs := [];
    var left := m.Keys;
    while left != {}
      invariant left <= m.Keys
      invariant forall i :: 0 <= i < |xs| ==> xs[i].0 in m && m[xs[i].0] == xs[i].1
      invariant forall i, j :: 0 <= i < j < |xs| ==> xs[i].0 != xs[j].0
      invariant forall k :: k in m ==> (k in left <==> !HasKey(xs, k))
      decreases |left|
    {
      var k :| k in left;
      HasKeyGrows(xs, (k, m[k]));
      forall i | 0 <= i < |xs| ensures xs[i].0 != k { assert xs[i].0 == k ==> HasKey(xs, k); }
      xs := xs + [(k, m[k])];
      left := left - {k};
    }
    assert forall k :: k in m ==> HasKey(xs, k);
  }
}
