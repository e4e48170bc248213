/**
 * The sort that block-utils.ts applies to every children list and to the
 * root list, `xs.sort((a, b) => a.positionOrder - b.positionOrder)`.
 * Since ECMAScript 2019 `Array.prototype.sort` is stable, so with this
 * comparator its result is the unique ordering that is non-decreasing in
 * the key and keeps elements with equal keys in their input order.
 * SortBy is a stable insertion sort with that result, generic over the
 * element type and the key.
 */
module StableSort {

  predicate Sorted<T>(s: seq<T>, key: T -> int) {
    forall i, j :: 0 <= i < j < |s| ==> key(s[i]) <= key(s[j])
  }

  /** The elements of `s` whose key is `k`, in their order in `s`. */
  function WithKey<T>(s: seq<T>, key: T -> int, k: int): seq<T> {
    if s == [] then []
    else (if key(s[0]) == k then [s[0]] else []) + WithKey(s[1..], key, k)
  }

  /** Places `x` before the first element of `s` whose key is not smaller. */
  function Insert<T>(x: T, s: seq<T>, key: T -> int): seq<T> {
    if s == [] || key(x) <= key(s[0]) then [x] + s
    else [s[0]] + Insert(x, s[1..], key)
  }

  /**
   * The sort: non-decreasing keys, a permutation of the input, and stable
   * (for every key the elements having it keep their relative input order).
   */
  function SortBy<T>(s: seq<T>, key: T -> int): (r: seq<T>)
    ensures Sorted(r, key)
    ensures multiset(r) == multiset(s) && |r| == |s|
    ensures forall k :: WithKey(r, key, k) == WithKey(s, key, k)
  {
    if s == [] then []
    else
      var t := SortBy(s[1..], key);
      InsertSorted(s[0], t, key);
      InsertPermutes(s[0], t, key);
      assert s == [s[0]] + s[1..];
      assert multiset(s) == multiset([s[0]]) + multiset(s[1..]);
      assert forall k :: WithKey(Insert(s[0], t, key), key, k) == WithKey(s, key, k) by {
        forall k ensures WithKey(Insert(s[0], t, key), key, k) == WithKey(s, key, k) {
          InsertStable(s[0], t, key, k);
          WithKeyCons(s[0], t, key, k);
          WithKeyCons(s[0], s[1..], key, k);
        }
      }
      Insert(s[0], t, key)
  }

  lemma SortByMember<T>(s: seq<T>, key: T -> int, x: T)
    ensures x in SortBy(s, key) <==> x in s
  {
    assert x in SortBy(s, key) <==> x in multiset(SortBy(s, key));
  }

  lemma WithKeyCons<T>(x: T, s: seq<T>, key: T -> int, k: int)
    ensures WithKey([x] + s, key, k) == (if key(x) == k then [x] else []) + WithKey(s, key, k)
  {
    assert ([x] + s)[0] == x;
    assert ([x] + s)[1..] == s;
  }

  lemma {:induction false} InsertSorted<T>(x: T, s: seq<T>, key: T -> int)
    requires Sorted(s, key)
    ensures Sorted(Insert(x, s, key), key)
    ensures |Insert(x, s, key)| == |s| + 1
    ensures Insert(x, s, key)[0] == x || Insert(x, s, key)[0] == s[0]
  {
    if s != [] && key(x) > key(s[0]) {
      InsertSorted(x, s[1..], key);
      var t := Insert(x, s[1..], key);
      assert Insert(x, s, key) == [s[0]] + t;
      assert t[0] == x || t[0] == s[1];
      forall i, j | 0 <= i < j < |t| + 1
        ensures key(([s[0]] + t)[i]) <= key(([s[0]] + t)[j])
      {
        if i > 0 {
          assert ([s[0]] + t)[i] == t[i - 1];
          assert ([s[0]] + t)[j] == t[j - 1];
        } else {
          assert ([s[0]] + t)[j] == t[j - 1];
          assert key(t[0]) <= key(t[j - 1]);
        }
      }
    }
  }

  lemma {:induction false} InsertPermutes<T>(x: T, s: seq<T>, key: T -> int)
    ensures multiset(Insert(x, s, key)) == multiset([x] + s)
  {
    if s != [] && key(x) > key(s[0]) {
      InsertPermutes(x, s[1..], key);
      assert Insert(x, s, key) == [s[0]] + Insert(x, s[1..], key);
      assert [x] + s == [x] + [s[0]] + s[1..];
    }
  }

  lemma {:induction false} InsertStable<T>(x: T, s: seq<T>, key: T -> int, k: int)
    ensures WithKey(Insert(x, s, key), key, k) == WithKey([x] + s, key, k)
  {
    if s != [] && key(x) > key(s[0]) {
      InsertStable(x, s[1..], key, k);
      var t := Insert(x, s[1..], key);
      assert Insert(x, s, key) == [s[0]] + t;
      assert s == [s[0]] + s[1..];
      WithKeyCons(s[0], t, key, k);
      WithKeyCons(x, s[1..], key, k);
      WithKeyCons(x, s, key, k);
      WithKeyCons(s[0], s[1..], key, k);
    }
  }

  /** Sorting an already sorted list changes nothing. */
  lemma {:induction false} SortSorted<T>(s: seq<T>, key: T -> int)
    requires Sorted(s, key)
    ensures SortBy(s, key) == s
  {
    if s != [] {
      SortSorted(s[1..], key);
      assert SortBy(s, key) == Insert(s[0], s[1..], key);
    }
  }

  /**
   * The stable order is unique: a sorted list that has, for every key, the
   * same elements in the same order as `s` is SortBy(s).
   */
  lemma StableSortUnique<T>(s: seq<T>, r: seq<T>, key: T -> int)
    requires Sorted(r, key)
    requires forall k :: WithKey(r, key, k) == WithKey(s, key, k)
    ensures r == SortBy(s, key)
  {
    SortedUnique(r, SortBy(s, key), key);
  }

  lemma {:induction false} WithKeyNonEmpty<T>(s: seq<T>, key: T -> int, i: int)
    requires 0 <= i < |s|
    ensures WithKey(s, key, key(s[i])) != []
  {
    if i > 0 {
      assert s[1..][i - 1] == s[i];
      WithKeyNonEmpty(s[1..], key, i - 1);
    }
  }

  lemma {:induction false} NoneBelow<T>(s: seq<T>, key: T -> int, k: int)
    requires Sorted(s, key) && s != [] && k < key(s[0])
    ensures WithKey(s, key, k) == []
  {
    if |s| > 1 {
      assert s[1..][0] == s[1];
      NoneBelow(s[1..], key, k);
    }
  }

  lemma {:induction false} SortedUnique<T>(r: seq<T>, t: seq<T>, key: T -> int)
    requires Sorted(r, key) && Sorted(t, key)
    requires forall k :: WithKey(r, key, k) == WithKey(t, key, k)
    ensures r == t
    decreases |r| + |t|
  {
    if r == [] && t == [] {
    } else if r == [] {
      WithKeyNonEmpty(t, key, 0);
      assert false;
    } else if t == [] {
      WithKeyNonEmpty(r, key, 0);
      assert false;
    } else {
      if key(r[0]) < key(t[0]) {
        NoneBelow(t, key, key(r[0]));
        assert false;
      } else if key(t[0]) < key(r[0]) {
        NoneBelow(r, key, key(t[0]));
        assert false;
      } else {
        assert WithKey(r, key, key(r[0]))[0] == r[0];
        assert WithKey(t, key, key(t[0]))[0] == t[0];
        assert r[0] == t[0];
        forall k ensures WithKey(r[1..], key, k) == WithKey(t[1..], key, k) {
          var h := if key(r[0]) == k then [r[0]] else [];
          assert WithKey(r, key, k) == h + WithKey(r[1..], key, k);
          assert WithKey(t, key, k) == h + WithKey(t[1..], key, k);
          assert WithKey(r[1..], key, k) == (h + WithKey(r[1..], key, k))[|h|..];
          assert WithKey(t[1..], key, k) == (h + WithKey(t[1..], key, k))[|h|..];
        }
        SortedUnique(r[1..], t[1..], key);
        assert r == [r[0]] + r[1..];
        assert t == [t[0]] + t[1..];
      }
    }
  }

  function MapSeq<T, U>(s: seq<T>, f: T -> U): (r: seq<U>)
    ensures |r| == |s| && forall i :: 0 <= i < |s| ==> r[i] == f(s[i])
  {
    if s == [] then [] else [f(s[0])] + MapSeq(s[1..], f)
  }

  lemma MapSeqAppend<T, U>(a: seq<T>, b: seq<T>, f: T -> U)
    ensures MapSeq(a + b, f) == MapSeq(a, f) + MapSeq(b, f)
  {
    assert forall i :: 0 <= i < |a| ==> (a + b)[i] == a[i];
    assert forall i :: |a| <= i < |a + b| ==> (a + b)[i] == b[i - |a|];
  }

  lemma {:induction false} InsertMap<T, U>(x: T, s: seq<T>, f: T -> U, key: T -> int, key': U -> int)
    requires key'(f(x)) == key(x)
    requires forall y :: y in s ==> key'(f(y)) == key(y)
    ensures Insert(f(x), MapSeq(s, f), key') == MapSeq(Insert(x, s, key), f)
  {
    if s != [] {
      assert MapSeq(s, f)[0] == f(s[0]);
      assert MapSeq(s, f)[1..] == MapSeq(s[1..], f);
      if key(x) <= key(s[0]) {
        assert MapSeq([x] + s, f) == [f(x)] + MapSeq(s, f);
      } else {
        InsertMap(x, s[1..], f, key, key');
        assert MapSeq([s[0]] + Insert(x, s[1..], key), f) == [f(s[0])] + MapSeq(Insert(x, s[1..], key), f);
      }
    } else {
      assert MapSeq([x], f) == [f(x)];
    }
  }

  /**
   * Sorting commutes with a map that keeps the keys: sorting the images is
   * the same as taking the images of the sorted list.
   */
  lemma {:induction false} SortByMap<T, U>(s: seq<T>, f: T -> U, key: T -> int, key': U -> int)
    requires forall x :: x in s ==> key'(f(x)) == key(x)
    ensures SortBy(MapSeq(s, f), key') == MapSeq(SortBy(s, key), f)
  {
    if s != [] {
      assert MapSeq(s, f) == [f(s[0])] + MapSeq(s[1..], f);
      assert MapSeq(s, f)[1..] == MapSeq(s[1..], f);
      SortByMap(s[1..], f, key, key');
      var t := SortBy(s[1..], key);
      assert forall x :: x in t ==> x in multiset(s[1..]);
      assert forall x :: x in t ==> x in s;
      InsertMap(s[0], t, f, key, key');
    }
  }
}
