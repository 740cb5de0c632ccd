/** Python's `dict`, which keeps its keys in insertion order, as the sequence of its items. */
module OrderedDict {

  function Keys<K, V>(items: seq<(K, V)>): (ks: seq<K>)
    ensures |ks| == |items|
    ensures forall i :: 0 <= i < |items| ==> ks[i] == items[i].0
  {
    seq(|items|, i requires 0 <= i < |items| => items[i].0)
  }

  ghost function KeySet<K, V>(items: seq<(K, V)>): set<K> {
    set p | p in items :: p.0
  }

  ghost predicate DistinctKeys<K, V>(items: seq<(K, V)>) {
    forall i, j :: 0 <= i < j < |items| ==> items[i].0 != items[j].0
  }

  lemma KeySetConcat<K, V>(a: seq<(K, V)>, b: seq<(K, V)>)
    ensures KeySet(a + b) == KeySet(a) + KeySet(b)
  {
    assert forall p :: p in a + b <==> p in a || p in b;
  }

  /** The position of key `k` among the items. */
  function IndexOf<K(==), V>(items: seq<(K, V)>, k: K): (i: nat)
    requires k in Keys(items)
    ensures i < |items| && items[i].0 == k
  {
    if items[0].0 == k then 0
    else
      assert k in Keys(items[1..]) by {
        var j :| 0 <= j < |items| && Keys(items)[j] == k;
        assert Keys(items[1..])[j - 1] == k;
      }
      1 + IndexOf(items[1..], k)
  }

  /** `d[k] = v`: an existing key keeps its position and takes the new value; a new key goes last. */
  function Put<K(==), V>(items: seq<(K, V)>, k: K, v: V): (r: seq<(K, V)>)
    requires DistinctKeys(items)
    ensures DistinctKeys(r)
    ensures KeySet(r) == KeySet(items) + {k}
    ensures k !in Keys(items) ==> r == items + [(k, v)]
    ensures k in Keys(items) ==> |r| == |items|
    ensures forall i :: 0 <= i < |items| ==> r[i].0 == items[i].0
    ensures forall i :: 0 <= i < |items| ==> r[i].1 == if items[i].0 == k then v else items[i].1
  {
    if k in Keys(items) then
      var i := IndexOf(items, k);
      var r := items[i := (k, v)];
      assert KeySet(r) == KeySet(items) by {
        forall p | p in r ensures p.0 in KeySet(items) {
          var j :| 0 <= j < |r| && r[j] == p;
          assert items[j] in items;
        }
        forall p | p in items ensures p.0 in KeySet(r) {
          var j :| 0 <= j < |items| && items[j] == p;
          assert r[j] in r;
        }
      }
      r
    else
      KeySetConcat(items, [(k, v)]);
      assert forall j :: 0 <= j < |items| ==> items[j].0 == Keys(items)[j];
      items + [(k, v)]
  }

  /** What `dict(pairs)` and `{key: value for ...}` build: each key at the position of its first
      occurrence in `pairs`. */
  function FromPairs<K(==), V>(pairs: seq<(K, V)>): (r: seq<(K, V)>)
    ensures DistinctKeys(r)
    ensures KeySet(r) == KeySet(pairs)
    ensures |r| <= |pairs|
  {
    if pairs == [] then []
    else
      var n := |pairs| - 1;
      assert pairs == pairs[..n] + [pairs[n]];
      KeySetConcat(pairs[..n], [pairs[n]]);
      Put(FromPairs(pairs[..n]), pairs[n].0, pairs[n].1)
  }

  /** The mapping the dict holds when built from `pairs`: a later pair overrides an earlier one
      with the same key. */
  function ToMap<K, V>(pairs: seq<(K, V)>): (m: map<K, V>)
    ensures m.Keys == KeySet(pairs)
  {
    if pairs == [] then map[]
    else
      var n := |pairs| - 1;
      assert pairs == pairs[..n] + [pairs[n]];
      KeySetConcat(pairs[..n], [pairs[n]]);
      ToMap(pairs[..n])[pairs[n].0 := pairs[n].1]
  }

  /** Every item of the dict carries the value of the last pair with its key. */
  lemma {:induction false} FromPairsValues<K, V>(pairs: seq<(K, V)>)
    ensures forall i :: 0 <= i < |FromPairs(pairs)| ==>
      FromPairs(pairs)[i].0 in ToMap(pairs) && FromPairs(pairs)[i].1 == ToMap(pairs)[FromPairs(pairs)[i].0]
  {
    if pairs != [] {
      var n := |pairs| - 1;
      FromPairsValues(pairs[..n]);
      var prefix := FromPairs(pairs[..n]);
      var r := FromPairs(pairs);
      forall i | 0 <= i < |r|
        ensures r[i].0 in ToMap(pairs) && r[i].1 == ToMap(pairs)[r[i].0]
      {
        if i < |prefix| {
          assert r[i].0 == prefix[i].0;
        } else {
          assert r == prefix + [pairs[n]];
        }
      }
    }
  }

  /** When no key repeats, the dict holds the pairs exactly as given. */
  lemma {:induction false} FromDistinctPairs<K, V>(pairs: seq<(K, V)>)
    requires DistinctKeys(pairs)
    ensures FromPairs(pairs) == pairs
  {
    if pairs != [] {
      var n := |pairs| - 1;
      var prefix := pairs[..n];
      assert pairs == prefix + [pairs[n]];
      assert DistinctKeys(prefix) by {
        forall i, j | 0 <= i < j < n ensures prefix[i].0 != prefix[j].0 {
          assert prefix[i] == pairs[i] && prefix[j] == pairs[j];
        }
      }
      FromDistinctPairs(prefix);
      forall j | 0 <= j < n ensures Keys(prefix)[j] != pairs[n].0 {
        assert prefix[j] == pairs[j];
      }
      assert pairs[n].0 !in Keys(prefix);
      assert FromPairs(pairs) == Put(prefix, pairs[n].0, pairs[n].1);
    }
  }

  /** The first item of the dict has the key of the first pair. */
  lemma {:induction false} FromPairsFirstKey<K, V>(pairs: seq<(K, V)>)
    requires pairs != []
    ensures FromPairs(pairs) != [] && FromPairs(pairs)[0].0 == pairs[0].0
  {
    var n := |pairs| - 1;
    var prefix := FromPairs(pairs[..n]);
    if n > 0 {
      FromPairsFirstKey(pairs[..n]);
      assert prefix[0].0 == pairs[0].0;
    } else {
      assert Keys(prefix) == [];
    }
  }
}
