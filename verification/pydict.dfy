/**
  A Python dict as an insertion-ordered association list: keys are distinct, and
  assigning to an existing key replaces its value in place, so iteration order is
  the order in which keys were first inserted.
 */
module PyDict {

  type Dict<K, V> = seq<(K, V)>

  predicate DistinctKeys<K(==), V>(d: Dict<K, V>) {
    forall i, j :: 0 <= i < j < |d| ==> d[i].0 != d[j].0
  }

  function Keys<K, V>(d: Dict<K, V>): set<K> {
    set i | 0 <= i < |d| :: d[i].0
  }

  /** The mapping a dict with distinct keys stands for. */
  function ToMap<K, V>(d: Dict<K, V>): (m: map<K, V>)
    requires DistinctKeys(d)
    ensures m.Keys == Keys(d)
    ensures forall i :: 0 <= i < |d| ==> m[d[i].0] == d[i].1
  {
    map i | 0 <= i < |d| :: d[i].0 := d[i].1
  }

  function IndexOf<K(==), V>(d: Dict<K, V>, k: K): (r: int)
    ensures -1 <= r < |d|
    ensures r >= 0 ==> d[r].0 == k
    ensures r < 0 ==> k !in Keys(d)
    decreases |d|
  {
    if |d| == 0 then -1
    else if d[|d| - 1].0 == k then |d| - 1
    else IndexOf(d[..|d| - 1], k)
  }

  /** `d[k] = v`: replace the value of an existing key in place, or append a new key. */
  function Put<K(==), V>(d: Dict<K, V>, k: K, v: V): (r: Dict<K, V>)
    requires DistinctKeys(d)
    ensures DistinctKeys(r)
    ensures Keys(r) == Keys(d) + {k}
    ensures ToMap(r) == ToMap(d)[k := v]
    ensures k in Keys(d) ==> |r| == |d| && forall i :: 0 <= i < |d| ==> r[i].0 == d[i].0
    ensures k !in Keys(d) ==> r == d + [(k, v)]
  {
    var i := IndexOf(d, k);
    if i >= 0 then
      ReplaceFacts(d, i, k, v);
      d[i := (k, v)]
    else
      AppendFacts(d, k, v);
      d + [(k, v)]
  }

  lemma ReplaceFacts<K, V>(d: Dict<K, V>, i: int, k: K, v: V)
    requires DistinctKeys(d) && 0 <= i < |d| && d[i].0 == k
    ensures DistinctKeys(d[i := (k, v)])
    ensures Keys(d[i := (k, v)]) == Keys(d) + {k}
    ensures ToMap(d[i := (k, v)]) == ToMap(d)[k := v]
    ensures |d[i := (k, v)]| == |d| && forall j :: 0 <= j < |d| ==> d[i := (k, v)][j].0 == d[j].0
  {
    var r := d[i := (k, v)];
    assert forall j :: 0 <= j < |d| ==> r[j].0 == d[j].0;
    assert k in Keys(d);
    assert Keys(r) == Keys(d);
    ReplaceMap(d, i, k, v);
  }

  lemma ReplaceMap<K, V>(d: Dict<K, V>, i: int, k: K, v: V)
    requires DistinctKeys(d) && 0 <= i < |d| && d[i].0 == k
    requires DistinctKeys(d[i := (k, v)]) && Keys(d[i := (k, v)]) == Keys(d)
    ensures ToMap(d[i := (k, v)]) == ToMap(d)[k := v]
  {
    var r := d[i := (k, v)];
    var m, m' := ToMap(d)[k := v], ToMap(r);
    assert d[i].0 in Keys(d);
    assert m.Keys == m'.Keys;
    forall x | x in m ensures m'[x] == m[x] {
      var j :| 0 <= j < |d| && d[j].0 == x;
      if j == i {
        assert m'[r[i].0] == v;
      } else {
        assert r[j] == d[j] && x != k;
        assert m'[r[j].0] == d[j].1;
      }
    }
  }

  lemma AppendFacts<K, V>(d: Dict<K, V>, k: K, v: V)
    requires DistinctKeys(d) && k !in Keys(d)
    ensures DistinctKeys(d + [(k, v)])
    ensures Keys(d + [(k, v)]) == Keys(d) + {k}
    ensures ToMap(d + [(k, v)]) == ToMap(d)[k := v]
  {
    var r := d + [(k, v)];
    forall j | 0 <= j < |d| ensures r[j] == d[j] && d[j].0 != k {
      assert d[j].0 in Keys(d);
    }
    assert r[|d|].0 == k;
    assert Keys(r) == Keys(d) + {k} by {
      forall x | x in Keys(r) ensures x in Keys(d) + {k} {
        var j :| 0 <= j < |r| && r[j].0 == x;
        if j < |d| { assert d[j].0 == x; }
      }
      forall x | x in Keys(d) ensures x in Keys(r) {
        var j :| 0 <= j < |d| && d[j].0 == x;
        assert r[j].0 == x;
      }
    }
    var m, m' := ToMap(d)[k := v], ToMap(r);
    forall x | x in m ensures x in m' && m'[x] == m[x] {
      if x != k {
        var j :| 0 <= j < |d| && d[j].0 == x;
        assert r[j].0 == x;
      }
    }
  }
}
