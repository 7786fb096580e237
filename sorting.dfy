/** `Array.prototype.sort` with a comparator that orders by a numeric key
    list, larger first, comparing the first differing entry (the comparators
    of the MFO rating page and of the reviews list). The sort is stable, as
    ECMAScript requires, so equal keys keep their input order. */
module Sorting {

  /** `a` is at least `b` in lexicographic order; a missing entry counts as
      smaller than any present one. */
  predicate LexGe(a: seq<real>, b: seq<real>)
  {
    if b == [] then true
    else if a == [] then false
    else if a[0] != b[0] then a[0] > b[0]
    else LexGe(a[1..], b[1..])
  }

  lemma {:induction false} LexGeTotal(a: seq<real>, b: seq<real>)
    ensures LexGe(a, b) || LexGe(b, a)
  {
    if a != [] && b != [] && a[0] == b[0] {
      LexGeTotal(a[1..], b[1..]);
    }
  }

  lemma {:induction false} LexGeTransitive(a: seq<real>, b: seq<real>, c: seq<real>)
    requires LexGe(a, b) && LexGe(b, c)
    ensures LexGe(a, c)
  {
    if a != [] && b != [] && c != [] && a[0] == b[0] && b[0] == c[0] {
      LexGeTransitive(a[1..], b[1..], c[1..]);
    }
  }

  /** Keys never increase along `s`. */
  predicate SortedDesc<T>(s: seq<T>, key: T -> seq<real>) {
    forall i, j :: 0 <= i < j < |s| ==> LexGe(key(s[i]), key(s[j]))
  }

  /** Puts `x` in front of the first element whose key is not larger than its
      own. */
  function Insert<T>(x: T, s: seq<T>, key: T -> seq<real>): (r: seq<T>)
    ensures multiset(r) == multiset(s) + multiset{x}
    ensures |r| == |s| + 1
  {
    if s == [] || LexGe(key(x), key(s[0])) then [x] + s
    else
      assert s == [s[0]] + s[1..];
      [s[0]] + Insert(x, s[1..], key)
  }

  /** The sorted copy `[...s].sort(comparator)`: each element is inserted, in
      front of the equal keys that came after it, into the sorted rest. */
  function SortDesc<T>(s: seq<T>, key: T -> seq<real>): (r: seq<T>)
    ensures multiset(r) == multiset(s)
    ensures |r| == |s|
  {
    if s == [] then []
    else
      assert s == [s[0]] + s[1..];
      Insert(s[0], SortDesc(s[1..], key), key)
  }

  lemma {:induction false} InsertSorted<T>(x: T, s: seq<T>, key: T -> seq<real>)
    requires SortedDesc(s, key)
    ensures SortedDesc(Insert(x, s, key), key)
  {
    if s == [] || LexGe(key(x), key(s[0])) {
      var r := [x] + s;
      forall i, j | 0 <= i < j < |r| ensures LexGe(key(r[i]), key(r[j])) {
        if i == 0 {
          if j > 1 {
            LexGeTransitive(key(x), key(s[0]), key(s[j - 1]));
          }
        }
      }
    } else {
      LexGeTotal(key(x), key(s[0]));
      var rest := Insert(x, s[1..], key);
      InsertSorted(x, s[1..], key);
      var r := [s[0]] + rest;
      forall i, j | 0 <= i < j < |r| ensures LexGe(key(r[i]), key(r[j])) {
        if i == 0 {
          var y := rest[j - 1];
          assert y in multiset(rest);
          assert y == x || y in multiset(s[1..]);
          if y != x {
            var k :| 0 <= k < |s[1..]| && s[1..][k] == y;
            assert s[k + 1] == y;
          }
        }
      }
    }
  }

  /** The sorted copy is ordered by non-increasing key. */
  lemma {:induction false} SortDescSorted<T>(s: seq<T>, key: T -> seq<real>)
    ensures SortedDesc(SortDesc(s, key), key)
  {
    if s != [] {
      SortDescSorted(s[1..], key);
      InsertSorted(s[0], SortDesc(s[1..], key), key);
    }
  }

  lemma {:induction false} LexGeReflexive(a: seq<real>)
    ensures LexGe(a, a)
  {
    if a != [] {
      LexGeReflexive(a[1..]);
    }
  }

  /** The elements of `s` whose key is `k`, in order. */
  function WithKey<T>(s: seq<T>, key: T -> seq<real>, k: seq<real>): seq<T>
  {
    if s == [] then []
    else (if key(s[0]) == k then [s[0]] else []) + WithKey(s[1..], key, k)
  }

  lemma {:induction false} InsertStable<T>(x: T, s: seq<T>, key: T -> seq<real>, k: seq<real>)
    ensures WithKey(Insert(x, s, key), key, k) == (if key(x) == k then [x] else []) + WithKey(s, key, k)
  {
    var xs := if key(x) == k then [x] else [];
    if s == [] || LexGe(key(x), key(s[0])) {
      var r := [x] + s;
      assert Insert(x, s, key) == r;
      assert r[0] == x && r[1..] == s;
      assert WithKey(r, key, k) == xs + WithKey(s, key, k);
    } else {
      var rest := Insert(x, s[1..], key);
      var r := [s[0]] + rest;
      assert Insert(x, s, key) == r;
      InsertStable(x, s[1..], key, k);
      var hs := if key(s[0]) == k then [s[0]] else [];
      assert r[0] == s[0] && r[1..] == rest;
      assert WithKey(r, key, k) == hs + WithKey(rest, key, k);
      assert WithKey(s, key, k) == hs + WithKey(s[1..], key, k);
      if key(s[0]) == k && key(x) == k {
        LexGeReflexive(k);
        assert false;
      }
      assert hs + xs == xs + hs;
    }
  }

  /** The sort is stable: the elements with any one key come out in their
      input order. */
  lemma {:induction false} SortDescStable<T>(s: seq<T>, key: T -> seq<real>, k: seq<real>)
    ensures WithKey(SortDesc(s, key), key, k) == WithKey(s, key, k)
  {
    if s != [] {
      SortDescStable(s[1..], key, k);
      InsertStable(s[0], SortDesc(s[1..], key), key, k);
    }
  }
}
