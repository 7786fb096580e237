/** `new Map(list.map(x => [key(x), x])).values()`: a JavaScript `Map` keeps
    its keys in the order they were first set, and `set` on a present key
    replaces the value in place. */
module JsMap {

  datatype Entry<K, V> = Entry(key: K, value: V)

  predicate DistinctKeys<K(==), V>(entries: seq<Entry<K, V>>) {
    forall i, j :: 0 <= i < j < |entries| ==> entries[i].key != entries[j].key
  }

  predicate HasKey<K(==), V>(entries: seq<Entry<K, V>>, k: K) {
    exists i :: 0 <= i < |entries| && entries[i].key == k
  }

  /** `map.set(k, v)`. */
  function Set<K(==), V>(entries: seq<Entry<K, V>>, k: K, v: V): seq<Entry<K, V>>
  {
    if entries == [] then [Entry(k, v)]
    else if entries[0].key == k then [Entry(k, v)] + entries[1..]
    else [entries[0]] + Set(entries[1..], k, v)
  }

  /** On a map with distinct keys, `set` replaces the value of a present key
      where it stands and appends an absent one at the end. */
  lemma {:induction false} SetSpec<K, V>(entries: seq<Entry<K, V>>, k: K, v: V)
    requires DistinctKeys(entries)
    ensures HasKey(entries, k) ==> |Set(entries, k, v)| == |entries|
    ensures HasKey(entries, k) ==> forall j :: 0 <= j < |entries| ==>
      Set(entries, k, v)[j] == (if entries[j].key == k then Entry(k, v) else entries[j])
    ensures !HasKey(entries, k) ==> Set(entries, k, v) == entries + [Entry(k, v)]
  {
    if entries != [] && entries[0].key != k {
      var rest := entries[1..];
      assert DistinctKeys(rest);
      SetSpec(rest, k, v);
      if HasKey(entries, k) {
        var i :| 0 <= i < |entries| && entries[i].key == k;
        assert rest[i - 1].key == k;
      } else {
        assert !HasKey(rest, k) by {
          forall i | 0 <= i < |rest| ensures rest[i].key != k {
            assert rest[i] == entries[i + 1];
          }
        }
      }
    }
  }

  /** The map built from `list`, keyed by `key`. */
  function FromList<T, K(==)>(list: seq<T>, key: T -> K): seq<Entry<K, T>>
  {
    if list == [] then []
    else
      var last := list[|list| - 1];
      Set(FromList(list[..|list| - 1], key), key(last), last)
  }

  function Values<K, V>(entries: seq<Entry<K, V>>): (r: seq<V>)
    ensures |r| == |entries|
    ensures forall i :: 0 <= i < |r| ==> r[i] == entries[i].value
  {
    seq(|entries|, i requires 0 <= i < |entries| => entries[i].value)
  }

  /** The keys of `list` in the order of their first occurrence. */
  function FirstKeys<T, K(==)>(list: seq<T>, key: T -> K): (r: seq<K>)
    ensures forall i :: 0 <= i < |list| ==> key(list[i]) in r
    ensures forall j :: 0 <= j < |r| ==> exists i :: 0 <= i < |list| && key(list[i]) == r[j]
    ensures forall i, j :: 0 <= i < j < |r| ==> r[i] != r[j]
  {
    if list == [] then []
    else
      var init := list[..|list| - 1];
      var prev := FirstKeys(init, key);
      var k := key(list[|list| - 1]);
      assert forall i :: 0 <= i < |init| ==> init[i] == list[i];
      if k in prev then prev else prev + [k]
  }

  /** The last element of `list` with key `k`. */
  function LastWith<T, K(==)>(list: seq<T>, key: T -> K, k: K): (r: T)
    requires exists i :: 0 <= i < |list| && key(list[i]) == k
    ensures key(r) == k && r in list
  {
    var last := list[|list| - 1];
    if key(last) == k then last
    else
      var i :| 0 <= i < |list| && key(list[i]) == k;
      assert list[..|list| - 1][i] == list[i];
      LastWith(list[..|list| - 1], key, k)
  }

  /** The values of the map are one element per distinct key, in the order
      the keys first occur, each being the LAST element with that key. */
  lemma {:induction false} FromListSpec<T, K>(list: seq<T>, key: T -> K)
    ensures var m := FromList(list, key); var ks := FirstKeys(list, key);
      && DistinctKeys(m)
      && |m| == |ks|
      && (forall k :: k in ks <==> exists i :: 0 <= i < |list| && key(list[i]) == k)
      && forall i :: 0 <= i < |m| ==> m[i].key == ks[i] && m[i].value == LastWith(list, key, ks[i])
  {
    if list != [] {
      var init := list[..|list| - 1];
      var last := list[|list| - 1];
      FromListSpec(init, key);
      var prev := FromList(init, key);
      var ks0 := FirstKeys(init, key);
      var m := FromList(list, key);
      var ks := FirstKeys(list, key);
      SetSpec(prev, key(last), last);
      assert HasKey(prev, key(last)) <==> key(last) in ks0 by {
        if key(last) in ks0 {
          var i :| 0 <= i < |ks0| && ks0[i] == key(last);
          assert prev[i].key == key(last);
        }
      }
      forall k ensures k in ks <==> exists i :: 0 <= i < |list| && key(list[i]) == k {
        if exists i :: 0 <= i < |init| && key(init[i]) == k {
          var i :| 0 <= i < |init| && key(init[i]) == k;
          assert list[i] == init[i];
        }
        if exists i :: 0 <= i < |list| && key(list[i]) == k {
          var i :| 0 <= i < |list| && key(list[i]) == k;
          if i < |init| {
            assert init[i] == list[i];
          }
        }
      }
      forall i | 0 <= i < |m| ensures m[i].key == ks[i] && m[i].value == LastWith(list, key, ks[i]) {
        if i < |prev| {
          assert ks[i] == ks0[i];
        }
      }
    }
  }

  /** When no two elements share a key, the map holds every element under
      its own key, in list order, so its values are the list itself. */
  lemma {:induction false} FromListDistinct<T, K>(list: seq<T>, key: T -> K)
    requires forall i, j :: 0 <= i < j < |list| ==> key(list[i]) != key(list[j])
    ensures |FromList(list, key)| == |list|
    ensures forall i :: 0 <= i < |list| ==> FromList(list, key)[i] == Entry(key(list[i]), list[i])
    ensures Values(FromList(list, key)) == list
  {
    if list != [] {
      var init := list[..|list| - 1];
      var last := list[|list| - 1];
      assert forall i :: 0 <= i < |init| ==> init[i] == list[i];
      FromListDistinct(init, key);
      var prev := FromList(init, key);
      assert DistinctKeys(prev) by {
        forall i, j | 0 <= i < j < |prev| ensures prev[i].key != prev[j].key {
          assert prev[i].key == key(list[i]) && prev[j].key == key(list[j]);
        }
      }
      assert !HasKey(prev, key(last)) by {
        forall i | 0 <= i < |prev| ensures prev[i].key != key(last) {
          assert prev[i].key == key(list[i]);
        }
      }
      SetSpec(prev, key(last), last);
      var m := FromList(list, key);
      assert m == prev + [Entry(key(last), last)];
      assert Values(m) == Values(prev) + [last];
    }
  }
}
