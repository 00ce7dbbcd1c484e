/** Python's insertion-ordered `dict`, as an association list: assigning to a key that
    is present replaces its value in place, assigning to a new key appends it. */
module OrderedDicts {

  predicate DistinctKeys<K(==), V>(d: seq<(K, V)>)
  {
    forall i, j :: 0 <= i < j < |d| ==> d[i].0 != d[j].0
  }

  /** The dictionary's contents, forgetting the order. */
  function AsMap<K(==), V>(d: seq<(K, V)>): map<K, V>
  {
    if d == [] then map[] else AsMap(d[..|d| - 1])[d[|d| - 1].0 := d[|d| - 1].1]
  }

  /** `d[k] = v` */
  function Assign<K(==), V>(d: seq<(K, V)>, k: K, v: V): (r: seq<(K, V)>)
    ensures |r| == |d| || |r| == |d| + 1
    ensures forall i :: 0 <= i < |d| ==> r[i].0 == d[i].0
    ensures forall i :: 0 <= i < |d| && d[i].0 != k ==> r[i] == d[i]
    ensures |r| == |d| + 1 ==> r[|d|] == (k, v) && forall i :: 0 <= i < |d| ==> d[i].0 != k
  {
    if d == [] then [(k, v)]
    else if d[0].0 == k then [(k, v)] + d[1..]
    else [d[0]] + Assign(d[1..], k, v)
  }

  lemma {:induction false} AsMapHas<K, V>(d: seq<(K, V)>, k: K)
    ensures k in AsMap(d) <==> exists i :: 0 <= i < |d| && d[i].0 == k
  {
    if d != [] {
      var p := d[..|d| - 1];
      AsMapHas(p, k);
      if k in AsMap(d) && k != d[|d| - 1].0 {
        var i :| 0 <= i < |p| && p[i].0 == k;
        assert d[i].0 == k;
      }
      if exists i :: 0 <= i < |d| && d[i].0 == k {
        var i :| 0 <= i < |d| && d[i].0 == k;
        if i < |d| - 1 {
          assert p[i].0 == k;
        }
      }
    }
  }

  /** With distinct keys, the entry at position i is what the map holds for its key. */
  lemma {:induction false} AsMapAt<K, V>(d: seq<(K, V)>, i: nat)
    requires DistinctKeys(d) && i < |d|
    ensures d[i].0 in AsMap(d) && AsMap(d)[d[i].0] == d[i].1
  {
    if i < |d| - 1 {
      assert d[..|d| - 1][i] == d[i];
      AsMapAt(d[..|d| - 1], i);
    }
  }

  /** Assignment keeps the keys distinct and updates the contents like a map does. */
  lemma {:induction false} AssignIsUpdate<K, V>(d: seq<(K, V)>, k: K, v: V)
    requires DistinctKeys(d)
    ensures DistinctKeys(Assign(d, k, v))
    ensures AsMap(Assign(d, k, v)) == AsMap(d)[k := v]
  {
    var r := Assign(d, k, v);
    if |r| == |d| + 1 {
      assert r[..|d|] == d;
    } else {
      var j :| 0 <= j < |d| && d[j].0 == k by {
        if forall j :: 0 <= j < |d| ==> d[j].0 != k {
          NotPresentAppends(d, k, v);
        }
      }
      AssignAt(d, k, v, j);
      AsMapReplace(d, j, v);
      forall a, b | 0 <= a < b < |r|
        ensures r[a].0 != r[b].0
      {
      }
    }
  }

  lemma {:induction false} AsMapReplace<K, V>(d: seq<(K, V)>, j: nat, v: V)
    requires DistinctKeys(d) && j < |d|
    ensures AsMap(d[j := (d[j].0, v)]) == AsMap(d)[d[j].0 := v]
  {
    var k := d[j].0;
    var p := d[..|d| - 1];
    var e := d[j := (k, v)];
    if j == |d| - 1 {
      assert e[..|e| - 1] == p;
    } else {
      assert e[..|e| - 1] == p[j := (k, v)];
      assert p[j].0 == k;
      AsMapReplace(p, j, v);
      assert d[|d| - 1].0 != k;
    }
  }

  lemma {:induction false} NotPresentAppends<K, V>(d: seq<(K, V)>, k: K, v: V)
    requires forall j :: 0 <= j < |d| ==> d[j].0 != k
    ensures Assign(d, k, v) == d + [(k, v)]
  {
    if d != [] {
      NotPresentAppends(d[1..], k, v);
      assert [d[0]] + (d[1..] + [(k, v)]) == d + [(k, v)];
    }
  }

  lemma {:induction false} AssignAt<K, V>(d: seq<(K, V)>, k: K, v: V, j: nat)
    requires DistinctKeys(d) && j < |d| && d[j].0 == k
    ensures Assign(d, k, v) == d[j := (k, v)]
  {
    if j > 0 {
      var t := d[1..];
      DistinctTail(d);
      AssignAt(t, k, v, j - 1);
      assert [d[0]] + t[j - 1 := (k, v)] == d[j := (k, v)];
    }
  }

  lemma DistinctTail<K, V>(d: seq<(K, V)>)
    requires DistinctKeys(d) && d != []
    ensures DistinctKeys(d[1..])
  {
    var t := d[1..];
    forall a, b | 0 <= a < b < |t|
      ensures t[a].0 != t[b].0
    {
      assert t[a] == d[a + 1] && t[b] == d[b + 1];
    }
  }
}
