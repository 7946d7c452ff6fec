/** ECMAScript's `Map`: a finite map that iterates its keys in the order they were first
    inserted. `set` on a key already present keeps that key's position; `delete` drops it, and
    a later `set` appends it again at the end. */
module OrderedMaps {
  import opened Seqs

  datatype OrderedMap<K, V> = OrderedMap(keys: seq<K>, values: map<K, V>) {

    /** The iteration order lists every key of the map exactly once. */
    ghost predicate Valid() {
      && Distinct(keys)
      && (forall k :: k in values ==> k in keys)
      && (forall k :: k in keys ==> k in values)
    }

    /** `Map.prototype.set`. */
    function Put(k: K, v: V): (r: OrderedMap<K, V>)
      ensures Valid() ==> r.Valid()
      ensures r.values == values[k := v]
      ensures k in values ==> r.keys == keys
      ensures k !in values ==> r.keys == keys + [k]
    {
      var r := OrderedMap(if k in values then keys else keys + [k], values[k := v]);
      assert Valid() ==> r.Valid() by {
        if Valid() && k !in values {
          assert forall i :: 0 <= i < |keys| ==> r.keys[i] == keys[i];
        }
      }
      r
    }

    /** `Map.prototype.delete`; removing an absent key changes nothing. */
    function Remove(k: K): (r: OrderedMap<K, V>)
      ensures Valid() ==> r.Valid()
      ensures r.values == values - {k}
      ensures r.keys == Without(keys, {k})
      ensures Valid() && k !in values ==> r == this
    {
      var r := OrderedMap(Without(keys, {k}), values - {k});
      assert Valid() ==> r.Valid() by {
        if Valid() {
          WithoutDistinct(keys, {k});
        }
      }
      assert Valid() && k !in values ==> r == this by {
        if Valid() && k !in values {
          WithoutNothing(keys, {k});
        }
      }
      r
    }

    /** The map after `delete` of every key in `drop`, the rest keeping their order. */
    function RemoveAll(drop: set<K>): (r: OrderedMap<K, V>)
      ensures Valid() ==> r.Valid()
      ensures r.values == values - drop
      ensures r.keys == Without(keys, drop)
    {
      var r := OrderedMap(Without(keys, drop), values - drop);
      assert Valid() ==> r.Valid() by {
        if Valid() {
          WithoutDistinct(keys, drop);
        }
      }
      r
    }

    lemma RemoveAllNothing()
      requires Valid()
      ensures RemoveAll({}) == this
    {
      WithoutNothing(keys, {});
    }

    /** Deleting the keys of `ks` one at a time. */
    lemma RemoveOneMore(ks: seq<K>, j: nat)
      requires j < |ks|
      ensures RemoveAll(Elements(ks[..j])).Remove(ks[j]) == RemoveAll(Elements(ks[..j + 1]))
    {
      var a, x := Elements(ks[..j]), ks[j];
      assert Elements(ks[..j + 1]) == a + {x} by {
        assert ks[..j + 1] == ks[..j] + [x];
      }
      WithoutTwice(keys, a, {x});
      assert values - (a + {x}) == (values - a) - {x};
    }

    /** `set` of `ks[0]` to `vs[0]`, then of `ks[1]` to `vs[1]`, and so on. */
    function PutAll(ks: seq<K>, vs: seq<V>): OrderedMap<K, V>
      requires |ks| == |vs|
      decreases |ks|
    {
      if |ks| == 0 then this
      else PutAll(ks[..|ks| - 1], vs[..|vs| - 1]).Put(ks[|ks| - 1], vs[|vs| - 1])
    }

    /** Setting keys that are new and distinct appends them in order, keeps every old entry
        and maps each new key to its value. */
    lemma {:induction false} PutAllNew(ks: seq<K>, vs: seq<V>)
      requires Valid() && |ks| == |vs| && Distinct(ks)
      requires forall j :: 0 <= j < |ks| ==> ks[j] !in values
      ensures PutAll(ks, vs).Valid() && PutAll(ks, vs).keys == keys + ks
      ensures forall k :: k in values ==> k in PutAll(ks, vs).values && PutAll(ks, vs).values[k] == values[k]
      ensures forall j :: 0 <= j < |ks| ==> ks[j] in PutAll(ks, vs).values && PutAll(ks, vs).values[ks[j]] == vs[j]
      decreases |ks|
    {
      PutAllAppends(ks, vs);
      PutAllKeeps(ks, vs);
      PutAllSets(ks, vs);
    }

    lemma {:induction false} PutAllAppends(ks: seq<K>, vs: seq<V>)
      requires Valid() && |ks| == |vs| && Distinct(ks)
      requires forall j :: 0 <= j < |ks| ==> ks[j] !in values
      ensures PutAll(ks, vs).Valid() && PutAll(ks, vs).keys == keys + ks
      decreases |ks|
    {
      if |ks| > 0 {
        var n := |ks| - 1;
        var ks', vs' := ks[..n], vs[..n];
        DistinctPrefix(ks, n);
        PutAllAppends(ks', vs');
        PutAllDomain(ks', vs');
        PutAllAppendsOne(ks', vs', ks[n], vs[n]);
        assert ks' + [ks[n]] == ks && vs' + [vs[n]] == vs;
      }
    }

    /** The step of `PutAllAppends`: one more new key goes at the end. */
    lemma PutAllAppendsOne(ks: seq<K>, vs: seq<V>, k: K, v: V)
      requires |ks| == |vs| && PutAll(ks, vs).Valid() && PutAll(ks, vs).keys == keys + ks
      requires k !in PutAll(ks, vs).values
      ensures PutAll(ks + [k], vs + [v]).Valid() && PutAll(ks + [k], vs + [v]).keys == keys + (ks + [k])
    {
      PutAllSnoc(ks, vs, k, v);
      assert keys + (ks + [k]) == (keys + ks) + [k];
    }

    /** The keys of the map after setting `ks` are the old keys and those of `ks`. */
    lemma {:induction false} PutAllDomain(ks: seq<K>, vs: seq<V>)
      requires |ks| == |vs|
      ensures PutAll(ks, vs).values.Keys == values.Keys + Elements(ks)
      decreases |ks|
    {
      if |ks| > 0 {
        var n := |ks| - 1;
        PutAllDomain(ks[..n], vs[..n]);
        assert Elements(ks) == Elements(ks[..n]) + {ks[n]} by {
          assert ks == ks[..n] + [ks[n]];
        }
      }
    }

    lemma {:induction false} PutAllKeeps(ks: seq<K>, vs: seq<V>)
      requires |ks| == |vs|
      requires forall j :: 0 <= j < |ks| ==> ks[j] !in values
      ensures forall k :: k in values ==> k in PutAll(ks, vs).values && PutAll(ks, vs).values[k] == values[k]
      decreases |ks|
    {
      if |ks| > 0 {
        var n := |ks| - 1;
        PutAllKeeps(ks[..n], vs[..n]);
      }
    }

    lemma {:induction false} PutAllSets(ks: seq<K>, vs: seq<V>)
      requires |ks| == |vs| && Distinct(ks)
      ensures forall j :: 0 <= j < |ks| ==> ks[j] in PutAll(ks, vs).values && PutAll(ks, vs).values[ks[j]] == vs[j]
      decreases |ks|
    {
      if |ks| > 0 {
        var n := |ks| - 1;
        var ks', vs' := ks[..n], vs[..n];
        assert Distinct(ks') by {
          assert forall i :: 0 <= i < n ==> ks'[i] == ks[i];
        }
        PutAllSets(ks', vs');
        assert forall j :: 0 <= j < n ==> ks[j] == ks'[j] && vs[j] == vs'[j] && ks[j] != ks[n];
      }
    }

    /** One more pair set after the others. */
    lemma PutAllSnoc(ks: seq<K>, vs: seq<V>, k: K, v: V)
      requires |ks| == |vs|
      ensures PutAll(ks + [k], vs + [v]) == PutAll(ks, vs).Put(k, v)
    {
      assert (ks + [k])[..|ks|] == ks && (vs + [v])[..|vs|] == vs;
    }

    /** `Map.prototype.size` is the length of the iteration order. */
    lemma SizeIsLength()
      requires Valid()
      ensures |values| == |keys|
    {
      DistinctCardinality(keys);
      assert values.Keys == set x | x in keys;
    }
  }

  /** `new Map()`. */
  function Empty<K, V>(): (r: OrderedMap<K, V>)
    ensures r.Valid() && r.values == map[] && r.keys == []
  {
    OrderedMap([], map[])
  }
}
