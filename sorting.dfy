/** The order `Array.prototype.sort` produces with a comparator of the form
    `(a, b) => key(b) - key(a)`: non-increasing by key, and stable (elements
    with equal keys keep their input order; ECMAScript 2019 requires a stable
    sort).  The model is an insertion sort on values; StableSortIsUnique shows
    that every stable sort yields this same sequence. */
module Sorting {

  ghost predicate SortedDesc<T>(s: seq<T>, key: T -> real) {
    forall i, j :: 0 <= i < j < |s| ==> key(s[i]) >= key(s[j])
  }

  /** The elements of `s` whose key is `v`, in their order in `s`. */
  function WithKey<T>(s: seq<T>, key: T -> real, v: real): (r: seq<T>)
    ensures |r| <= |s|
  {
    if s == [] then []
    else (if key(s[0]) == v then [s[0]] else []) + WithKey(s[1..], key, v)
  }

  lemma {:induction false} WithKeyMember<T>(s: seq<T>, key: T -> real, v: real, x: T)
    ensures x in WithKey(s, key, v) <==> x in s && key(x) == v
    decreases |s|
  {
    if s != [] {
      WithKeyMember(s[1..], key, v, x);
      assert s == [s[0]] + s[1..];
    }
  }

  /** Puts `x` in front of the first element whose key is not above `x`'s, so
      that `x` stays ahead of the equal-keyed elements that followed it. */
  function Insert<T>(x: T, s: seq<T>, key: T -> real): (r: seq<T>)
    ensures multiset(r) == multiset(s) + multiset{x}
  {
    if s == [] then [x]
    else if key(s[0]) <= key(x) then [x] + s
    else
      assert s == [s[0]] + s[1..];
      [s[0]] + Insert(x, s[1..], key)
  }

  lemma {:induction false} InsertSorted<T>(x: T, s: seq<T>, key: T -> real)
    requires SortedDesc(s, key)
    ensures SortedDesc(Insert(x, s, key), key)
    decreases |s|
  {
    if s != [] && key(s[0]) > key(x) {
      var t := Insert(x, s[1..], key);
      InsertSorted(x, s[1..], key);
      forall j | 0 <= j < |t| ensures key(s[0]) >= key(t[j]) {
        assert t[j] in multiset(s[1..]) + multiset{x} by {
          assert t[j] in multiset(t);
        }
        if t[j] != x {
          assert t[j] in s[1..];
        }
      }
      var r := [s[0]] + t;
      forall i, j | 0 <= i < j < |r| ensures key(r[i]) >= key(r[j]) {
        if i > 0 {
          assert r[i] == t[i - 1] && r[j] == t[j - 1];
        } else {
          assert r[j] == t[j - 1];
        }
      }
    }
  }

  /** The stably sorted copy, most significant key first. */
  function SortDesc<T>(s: seq<T>, key: T -> real): (r: seq<T>)
    ensures multiset(r) == multiset(s)
    ensures SortedDesc(r, key)
  {
    if s == [] then []
    else
      assert s == [s[0]] + s[1..];
      InsertSorted(s[0], SortDesc(s[1..], key), key);
      Insert(s[0], SortDesc(s[1..], key), key)
  }

  /** In a sorted permutation of a non-empty sequence the first element has
      the highest key of the input and the last the lowest. */
  lemma SortedExtremes<T>(s: seq<T>, r: seq<T>, key: T -> real)
    requires multiset(r) == multiset(s) && SortedDesc(r, key) && |s| > 0
    ensures |r| == |s|
    ensures forall i :: 0 <= i < |s| ==> key(r[|r| - 1]) <= key(s[i]) <= key(r[0])
  {
    assert |r| == |multiset(r)| == |multiset(s)| == |s|;
    forall i | 0 <= i < |s| ensures key(r[|r| - 1]) <= key(s[i]) <= key(r[0]) {
      assert s[i] in multiset(r);
      var k :| 0 <= k < |r| && r[k] == s[i];
    }
  }

  lemma WithKeyCons<T>(y: T, t: seq<T>, key: T -> real, v: real)
    ensures WithKey([y] + t, key, v) == (if key(y) == v then [y] else []) + WithKey(t, key, v)
  {
    var r := [y] + t;
    assert r[0] == y && r[1..] == t;
  }

  /** The inductive step of WithKeyInsert: an element keyed above `x` is kept
      or dropped on both sides alike. */
  lemma WithKeyPast<T>(y: T, x: T, t: seq<T>, s: seq<T>, key: T -> real, v: real)
    requires key(y) > key(x)
    requires WithKey(t, key, v) == (if key(x) == v then [x] else []) + WithKey(s, key, v)
    ensures WithKey([y] + t, key, v) == (if key(x) == v then [x] else []) + WithKey([y] + s, key, v)
  {
    WithKeyCons(y, t, key, v);
    WithKeyCons(y, s, key, v);
    if key(y) == v {
      assert WithKey([y] + t, key, v) == [y] + WithKey(s, key, v);
    }
  }

  lemma {:induction false} WithKeyInsert<T>(x: T, s: seq<T>, key: T -> real, v: real)
    ensures WithKey(Insert(x, s, key), key, v)
         == (if key(x) == v then [x] else []) + WithKey(s, key, v)
    decreases |s|
  {
    if s == [] {
      WithKeyCons(x, [], key, v);
      assert [x] + [] == [x];
    } else if key(s[0]) <= key(x) {
      WithKeyCons(x, s, key, v);
    } else {
      WithKeyInsert(x, s[1..], key, v);
      WithKeyPast(s[0], x, Insert(x, s[1..], key), s[1..], key, v);
      assert s == [s[0]] + s[1..];
    }
  }

  /** Stability: for every key, the elements carrying it appear in the sorted
      copy exactly as, and in the order, they appear in the input. */
  lemma {:induction false} SortDescStable<T>(s: seq<T>, key: T -> real, v: real)
    ensures WithKey(SortDesc(s, key), key, v) == WithKey(s, key, v)
    decreases |s|
  {
    if s != [] {
      SortDescStable(s[1..], key, v);
      WithKeyInsert(s[0], SortDesc(s[1..], key), key, v);
    }
  }

  /** Two sequences sorted by key that agree, key by key, on which elements
      carry that key and in which order, are equal. */
  lemma {:induction false} SortedWithSameKeysEqual<T>(r1: seq<T>, r2: seq<T>, key: T -> real)
    requires SortedDesc(r1, key) && SortedDesc(r2, key)
    requires forall v :: WithKey(r1, key, v) == WithKey(r2, key, v)
    ensures r1 == r2
    decreases |r1|
  {
    if r1 == [] || r2 == [] {
      if r1 != [] {
        WithKeyMember(r1, key, key(r1[0]), r1[0]);
        WithKeyMember(r2, key, key(r1[0]), r1[0]);
      } else if r2 != [] {
        WithKeyMember(r2, key, key(r2[0]), r2[0]);
        WithKeyMember(r1, key, key(r2[0]), r2[0]);
      }
    } else {
      var k1, k2 := key(r1[0]), key(r2[0]);
      WithKeyMember(r2, key, k2, r2[0]);
      WithKeyMember(r1, key, k2, r2[0]);
      WithKeyMember(r1, key, k1, r1[0]);
      WithKeyMember(r2, key, k1, r1[0]);
      var i1 :| 0 <= i1 < |r1| && r1[i1] == r2[0];
      var i2 :| 0 <= i2 < |r2| && r2[i2] == r1[0];
      assert key(r1[0]) >= key(r1[i1]);
      assert key(r2[0]) >= key(r2[i2]);
      assert k1 == k2;
      assert WithKey(r1, key, k1) == [r1[0]] + WithKey(r1[1..], key, k1);
      assert WithKey(r2, key, k1) == [r2[0]] + WithKey(r2[1..], key, k1);
      assert r1[0] == WithKey(r1, key, k1)[0] == WithKey(r2, key, k1)[0] == r2[0];
      forall v ensures WithKey(r1[1..], key, v) == WithKey(r2[1..], key, v) {
        assert WithKey(r1, key, v) == (if k1 == v then [r1[0]] else []) + WithKey(r1[1..], key, v);
        assert WithKey(r2, key, v) == (if k1 == v then [r2[0]] else []) + WithKey(r2[1..], key, v);
        assert WithKey(r1, key, v) == WithKey(r2, key, v);
        if k1 == v {
          assert WithKey(r1[1..], key, v) == WithKey(r1, key, v)[1..];
          assert WithKey(r2[1..], key, v) == WithKey(r2, key, v)[1..];
        } else {
          assert WithKey(r1, key, v) == WithKey(r1[1..], key, v);
          assert WithKey(r2, key, v) == WithKey(r2[1..], key, v);
        }
      }
      SortedWithSameKeysEqual(r1[1..], r2[1..], key);
      assert r1 == [r1[0]] + r1[1..] && r2 == [r2[0]] + r2[1..];
    }
  }

  /** Any non-increasing arrangement of `s` that is stable is SortDesc(s):
      the model is the result of every conforming stable sort. */
  lemma StableSortIsUnique<T>(s: seq<T>, r: seq<T>, key: T -> real)
    requires SortedDesc(r, key)
    requires forall v :: WithKey(r, key, v) == WithKey(s, key, v)
    ensures r == SortDesc(s, key)
  {
    forall v ensures WithKey(r, key, v) == WithKey(SortDesc(s, key), key, v) {
      SortDescStable(s, key, v);
    }
    SortedWithSameKeysEqual(r, SortDesc(s, key), key);
  }
}
