/** Python dictionaries as association lists in insertion order.
    Python 2 iterates a dict in hash order; the model fixes insertion order,
    which is also the order of Python 3.7 and later. */
module PyDict {
  import opened Text

  type Dict<K, V> = seq<(K, V)>

  /** No key occurs twice: the invariant of every dictionary built through Set. */
  predicate DistinctKeys<K(==), V>(d: Dict<K, V>)
  {
    forall i, j :: 0 <= i < j < |d| ==> d[i].0 != d[j].0
  }

  function Keys<K, V>(d: Dict<K, V>): (ks: seq<K>)
    ensures |ks| == |d|
    ensures forall i :: 0 <= i < |d| ==> ks[i] == d[i].0
  {
    if d == [] then [] else [d[0].0] + Keys(d[1..])
  }

  /** `d.get(k)`: the value stored under `k`, if any. */
  function Lookup<K(==), V>(d: Dict<K, V>, k: K): (r: Option<V>)
    ensures r.Some? <==> k in Keys(d)
    ensures r.Some? ==> exists i :: 0 <= i < |d| && d[i] == (k, r.value)
  {
    if d == [] then None
    else if d[0].0 == k then Some(d[0].1)
    else
      var r := Lookup(d[1..], k);
      assert r.Some? ==> exists i :: 0 <= i < |d| - 1 && d[1..][i] == (k, r.value);
      r
  }

  /** `d[k] = v`: afterwards `k` maps to `v` and every other key keeps its value. */
  function Set<K(==, !new), V>(d: Dict<K, V>, k: K, v: V): (r: Dict<K, V>)
    ensures Lookup(r, k) == Some(v)
    ensures forall k' :: k' != k ==> Lookup(r, k') == Lookup(d, k')
  {
    if d == [] then [(k, v)]
    else if d[0].0 == k then [(k, v)] + d[1..]
    else
      var r := [d[0]] + Set(d[1..], k, v);
      assert r[1..] == Set(d[1..], k, v);
      r
  }

  /** An existing key keeps its place; a new key goes at the end. */
  lemma {:induction false} SetKeys<K(!new), V>(d: Dict<K, V>, k: K, v: V)
    ensures k in Keys(d) ==> Keys(Set(d, k, v)) == Keys(d)
    ensures k !in Keys(d) ==> Set(d, k, v) == d + [(k, v)]
  {
    if d != [] && d[0].0 != k {
      SetKeys(d[1..], k, v);
      assert Keys(d) == [d[0].0] + Keys(d[1..]);
      var r := Set(d, k, v);
      assert r == [d[0]] + Set(d[1..], k, v);
      assert Keys(r) == [d[0].0] + Keys(Set(d[1..], k, v));
      if k !in Keys(d) {
        assert d == [d[0]] + d[1..];
      }
    } else if d != [] {
      var r := Set(d, k, v);
      assert Keys(r) == [k] + Keys(d[1..]);
      assert Keys(d) == [d[0].0] + Keys(d[1..]);
    }
  }

  /** Setting a key keeps the keys distinct. */
  lemma SetDistinct<K(!new), V>(d: Dict<K, V>, k: K, v: V)
    requires DistinctKeys(d)
    ensures DistinctKeys(Set(d, k, v))
  {
    SetKeys(d, k, v);
    var r := Set(d, k, v);
    if k in Keys(d) {
      assert Keys(r) == Keys(d);
      forall i, j | 0 <= i < j < |r| ensures r[i].0 != r[j].0 {
        assert Keys(r)[i] == Keys(d)[i] && Keys(r)[j] == Keys(d)[j];
      }
    } else {
      forall i, j | 0 <= i < j < |r| ensures r[i].0 != r[j].0 {
        if j == |d| {
          assert Keys(d)[i] == d[i].0;
        }
      }
    }
  }

  /** The dictionary that assigning the pairs in order builds, `d[k] = v` for
      every pair. */
  function Assigned<K(==, !new), V>(ps: seq<(K, V)>): Dict<K, V>
  {
    if ps == [] then [] else Set(Assigned(ps[..|ps| - 1]), ps[|ps| - 1].0, ps[|ps| - 1].1)
  }

  lemma AssignedSnoc<K(!new), V>(ps: seq<(K, V)>, p: (K, V))
    ensures Assigned(ps + [p]) == Set(Assigned(ps), p.0, p.1)
  {
    assert (ps + [p])[..|ps|] == ps;
  }

  /** A key is present exactly when some pair assigns it. */
  lemma {:induction false} AssignedHasKey<K(!new), V>(ps: seq<(K, V)>, k: K)
    ensures Lookup(Assigned(ps), k).Some? <==> exists i :: 0 <= i < |ps| && ps[i].0 == k
  {
    if ps != [] {
      var n := |ps| - 1;
      var init := ps[..n];
      AssignedHasKey(init, k);
      if ps[n].0 != k {
        if exists i :: 0 <= i < |ps| && ps[i].0 == k {
          var i :| 0 <= i < |ps| && ps[i].0 == k;
          assert init[i] == ps[i];
        }
        if exists i :: 0 <= i < |init| && init[i].0 == k {
          var i :| 0 <= i < |init| && init[i].0 == k;
          assert init[i] == ps[i];
        }
      }
    }
  }

  /** A key holds the value of the last pair that assigns it. */
  lemma {:induction false} AssignedLastWins<K(!new), V>(ps: seq<(K, V)>, k: K, i: int)
    requires 0 <= i < |ps| && ps[i].0 == k
    requires forall j :: i < j < |ps| ==> ps[j].0 != k
    ensures Lookup(Assigned(ps), k) == Some(ps[i].1)
  {
    var n := |ps| - 1;
    if i < n {
      var init := ps[..n];
      assert init[i] == ps[i];
      forall j | i < j < |init| ensures init[j].0 != k {
        assert init[j] == ps[j];
      }
      AssignedLastWins(init, k, i);
    }
  }

  lemma {:induction false} AssignedDistinct<K(!new), V>(ps: seq<(K, V)>)
    ensures DistinctKeys(Assigned(ps))
  {
    if ps != [] {
      var n := |ps| - 1;
      AssignedDistinct(ps[..n]);
      SetDistinct(Assigned(ps[..n]), ps[n].0, ps[n].1);
    }
  }
}
