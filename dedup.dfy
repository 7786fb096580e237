/** Keeping the first of several elements with the same key, as a loop
    over a `seen` set does. Only the elements a `selected` predicate picks
    take part; the others are always kept. */
module Dedup {

  /** The keys of the selected elements of `s`. */
  function Keys<T, K>(s: seq<T>, selected: T -> bool, key: T -> K): set<K>
  {
    if s == [] then {}
    else
      var last := s[|s| - 1];
      Keys(s[..|s| - 1], selected, key) + (if selected(last) then {key(last)} else {})
  }

  lemma {:induction false} KeysIff<T, K>(s: seq<T>, selected: T -> bool, key: T -> K, k: K)
    ensures k in Keys(s, selected, key) <==> exists i :: 0 <= i < |s| && selected(s[i]) && key(s[i]) == k
  {
    if s != [] {
      var init := s[..|s| - 1];
      KeysIff(init, selected, key, k);
      if k in Keys(init, selected, key) {
        var i :| 0 <= i < |init| && selected(init[i]) && key(init[i]) == k;
        assert s[i] == init[i];
      }
      if exists i :: 0 <= i < |s| && selected(s[i]) && key(s[i]) == k {
        var i :| 0 <= i < |s| && selected(s[i]) && key(s[i]) == k;
        if i < |init| {
          assert init[i] == s[i];
        }
      }
    }
  }

  /** `s` without every selected element whose key an earlier selected
      element already had. */
  function KeepFirst<T, K(==)>(s: seq<T>, selected: T -> bool, key: T -> K): seq<T>
  {
    if s == [] then []
    else
      var init := s[..|s| - 1];
      var last := s[|s| - 1];
      KeepFirst(init, selected, key)
        + (if selected(last) && key(last) in Keys(init, selected, key) then [] else [last])
  }

  /** No two selected elements share a key. */
  predicate Distinct<T, K(==)>(s: seq<T>, selected: T -> bool, key: T -> K) {
    forall i, j :: 0 <= i < j < |s| && selected(s[i]) && selected(s[j]) ==> key(s[i]) != key(s[j])
  }

  /** The elements that are not selected, in order. */
  function Unselected<T>(s: seq<T>, selected: T -> bool): seq<T>
  {
    if s == [] then []
    else Unselected(s[..|s| - 1], selected) + (if selected(s[|s| - 1]) then [] else [s[|s| - 1]])
  }

  /** After `KeepFirst` no two selected elements share a key, every key is
      still present, the unselected elements are untouched and in order, and
      nothing new appears. */
  lemma {:induction false} KeepFirstSpec<T, K>(s: seq<T>, selected: T -> bool, key: T -> K)
    ensures Distinct(KeepFirst(s, selected, key), selected, key)
    ensures Keys(KeepFirst(s, selected, key), selected, key) == Keys(s, selected, key)
    ensures Unselected(KeepFirst(s, selected, key), selected) == Unselected(s, selected)
    ensures forall x :: x in KeepFirst(s, selected, key) ==> x in s
  {
    if s != [] {
      var init := s[..|s| - 1];
      var last := s[|s| - 1];
      KeepFirstSpec(init, selected, key);
      var d := KeepFirst(init, selected, key);
      if !(selected(last) && key(last) in Keys(init, selected, key)) {
        var r := d + [last];
        assert r[..|r| - 1] == d;
        if selected(last) {
          forall i | 0 <= i < |d| && selected(r[i]) ensures key(r[i]) != key(last) {
            assert r[i] == d[i];
            KeysIff(d, selected, key, key(last));
          }
        }
      } else {
        assert KeepFirst(s, selected, key) == d;
      }
      forall x | x in KeepFirst(s, selected, key) ensures x in s {
        if x in d {
          assert x in init;
        }
      }
    }
  }

  /** A sequence whose selected elements already have distinct keys is left
      as it is. */
  lemma {:induction false} DistinctIsFixed<T, K>(s: seq<T>, selected: T -> bool, key: T -> K)
    requires Distinct(s, selected, key)
    ensures KeepFirst(s, selected, key) == s
  {
    if s != [] {
      var init := s[..|s| - 1];
      var last := s[|s| - 1];
      assert Distinct(init, selected, key);
      DistinctIsFixed(init, selected, key);
      if selected(last) {
        KeysIff(init, selected, key, key(last));
      }
      assert s == init + [last];
    }
  }

  /** Deduplicating twice removes nothing more. */
  lemma KeepFirstIdempotent<T, K>(s: seq<T>, selected: T -> bool, key: T -> K)
    ensures KeepFirst(KeepFirst(s, selected, key), selected, key) == KeepFirst(s, selected, key)
  {
    KeepFirstSpec(s, selected, key);
    DistinctIsFixed(KeepFirst(s, selected, key), selected, key);
  }
}
