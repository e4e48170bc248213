/**
 * A `Record<string, string>` of CSS properties, as an association list in
 * property insertion order (the order `Object.entries` reports for keys
 * that are not array indices, which CSS property names never are).
 * Assigning a key already present keeps its place and replaces its value;
 * a new key goes at the end. `{ ...a, ...b }` assigns b's entries onto a
 * copy of a, in b's order.
 *
 * The key type is a parameter: the records generateStylesFromData builds
 * are keyed by the `Property` enumeration, and stylesToCSS takes any
 * record keyed by strings.
 */
module StyleMap {
  import opened Options

  type Styles<K> = seq<(K, string)>

  function Keys<K(==)>(m: Styles<K>): (r: seq<K>)
    ensures |r| == |m|
  {
    if m == [] then [] else [m[0].0] + Keys(m[1..])
  }

  lemma {:induction false} KeysAt<K>(m: Styles<K>)
    ensures forall i :: 0 <= i < |m| ==> Keys(m)[i] == m[i].0
  {
    if m != [] {
      KeysAt(m[1..]);
    }
  }

  predicate Distinct<K(==)>(ks: seq<K>) {
    forall i, j :: 0 <= i < j < |ks| ==> ks[i] != ks[j]
  }

  /** The value of the (first) entry for `k`. */
  function Get<K(==)>(m: Styles<K>, k: K): (r: Option<string>)
    ensures r.Some? <==> k in Keys(m)
    ensures r.Some? ==> (k, r.value) in m
  {
    if m == [] then None
    else if m[0].0 == k then Some(m[0].1)
    else
      assert Keys(m) == [m[0].0] + Keys(m[1..]);
      Get(m[1..], k)
  }

  /** `styles[k] = v` */
  function Put<K(==)>(m: Styles<K>, k: K, v: string): Styles<K>
  {
    if m == [] then [(k, v)]
    else if m[0].0 == k then [(k, v)] + m[1..]
    else [m[0]] + Put(m[1..], k, v)
  }

  /** Assigning keeps every key in place and appends `k` when it is new. */
  lemma {:induction false} PutKeys<K>(m: Styles<K>, k: K, v: string)
    ensures Keys(Put(m, k, v)) == if k in Keys(m) then Keys(m) else Keys(m) + [k]
  {
    if m != [] {
      assert Keys(m) == [m[0].0] + Keys(m[1..]);
      if m[0].0 != k {
        PutKeys(m[1..], k, v);
        assert Keys([m[0]] + Put(m[1..], k, v)) == [m[0].0] + Keys(Put(m[1..], k, v));
      } else {
        assert Keys([(k, v)] + m[1..]) == [k] + Keys(m[1..]);
      }
    }
  }

  /** After `styles[k] = v`, `k` reads `v` and every other key reads as before. */
  lemma {:induction false} PutGet<K>(m: Styles<K>, k: K, v: string, k': K)
    ensures Get(Put(m, k, v), k') == if k' == k then Some(v) else Get(m, k')
  {
    if m != [] && m[0].0 != k {
      PutGet(m[1..], k, v, k');
    }
  }

  lemma PutDistinct<K>(m: Styles<K>, k: K, v: string)
    requires Distinct(Keys(m))
    ensures Distinct(Keys(Put(m, k, v)))
  {
    PutKeys(m, k, v);
    if k !in Keys(m) {
      var ks := Keys(m) + [k];
      forall i, j | 0 <= i < j < |ks| ensures ks[i] != ks[j] {
        if j == |ks| - 1 {
          assert ks[i] == Keys(m)[i];
        }
      }
    }
  }

  /** `{ ...a, ...b }` */
  function Spread<K(==)>(a: Styles<K>, b: Styles<K>): Styles<K>
    decreases |b|
  {
    if b == [] then a else Spread(Put(a, b[0].0, b[0].1), b[1..])
  }

  /** The keys of `ks` that `base` lacks, in order. */
  function NewKeys<K(==)>(ks: seq<K>, base: seq<K>): seq<K> {
    if ks == [] then []
    else (if ks[0] in base then [] else [ks[0]]) + NewKeys(ks[1..], base)
  }

  lemma {:induction false} NewKeysIgnore<K>(ks: seq<K>, base: seq<K>, k: K)
    requires k !in ks
    ensures NewKeys(ks, base + [k]) == NewKeys(ks, base)
  {
    if ks != [] {
      NewKeysIgnore(ks[1..], base, k);
    }
  }

  lemma DistinctTail<K>(m: Styles<K>)
    requires m != [] && Distinct(Keys(m))
    ensures Distinct(Keys(m[1..])) && m[0].0 !in Keys(m[1..])
  {
    KeysAt(m);
    KeysAt(m[1..]);
    assert forall i :: 0 <= i < |m| - 1 ==> Keys(m[1..])[i] == Keys(m)[i + 1];
  }

  /**
   * Lookup in a spread: the override's value when it has the key, the
   * base's value otherwise.
   */
  lemma {:induction false} SpreadGet<K>(a: Styles<K>, b: Styles<K>, k: K)
    requires Distinct(Keys(b))
    ensures Get(Spread(a, b), k) == if Get(b, k).Some? then Get(b, k) else Get(a, k)
    decreases |b|
  {
    if b != [] {
      DistinctTail(b);
      SpreadGet(Put(a, b[0].0, b[0].1), b[1..], k);
      PutGet(a, b[0].0, b[0].1, k);
    }
  }

  /** A spread keeps the base's keys in place and appends the override's new keys. */
  lemma {:induction false} SpreadKeys<K>(a: Styles<K>, b: Styles<K>)
    requires Distinct(Keys(b))
    ensures Keys(Spread(a, b)) == Keys(a) + NewKeys(Keys(b), Keys(a))
    decreases |b|
  {
    if b != [] {
      DistinctTail(b);
      SpreadKeys(Put(a, b[0].0, b[0].1), b[1..]);
      SpreadKeysStep(a, b);
    } else {
      assert Keys(a) + [] == Keys(a);
    }
  }

  lemma SpreadKeysStep<K>(a: Styles<K>, b: Styles<K>)
    requires b != [] && b[0].0 !in Keys(b[1..])
    requires var a' := Put(a, b[0].0, b[0].1);
      Keys(Spread(a', b[1..])) == Keys(a') + NewKeys(Keys(b[1..]), Keys(a'))
    ensures Keys(Spread(a, b)) == Keys(a) + NewKeys(Keys(b), Keys(a))
  {
    NewKeysHead(b, Keys(a));
    if b[0].0 !in Keys(a) {
      SpreadKeysNew(a, b);
    } else {
      SpreadKeysOld(a, b);
    }
  }

  lemma SpreadKeysNew<K>(a: Styles<K>, b: Styles<K>)
    requires b != [] && b[0].0 !in Keys(b[1..]) && b[0].0 !in Keys(a)
    requires Keys(Spread(Put(a, b[0].0, b[0].1), b[1..])) == Keys(Put(a, b[0].0, b[0].1)) + NewKeys(Keys(b[1..]), Keys(Put(a, b[0].0, b[0].1)))
    requires NewKeys(Keys(b), Keys(a)) == [b[0].0] + NewKeys(Keys(b[1..]), Keys(a))
    ensures Keys(Spread(a, b)) == Keys(a) + NewKeys(Keys(b), Keys(a))
  {
    var k := b[0].0;
    var rest := NewKeys(Keys(b[1..]), Keys(a));
    var a' := Put(a, k, b[0].1);
    PutKeys(a, k, b[0].1);
    NewKeysIgnore(Keys(b[1..]), Keys(a), k);
    assert NewKeys(Keys(b[1..]), Keys(a')) == rest;
    PutNewThen(a, k, b[0].1, rest);
  }

  /** Assigning a new key and then listing more keys lists the old keys, the new one, then the rest. */
  lemma PutNewThen<K>(a: Styles<K>, k: K, v: string, rest: seq<K>)
    requires k !in Keys(a)
    ensures Keys(Put(a, k, v)) + rest == Keys(a) + ([k] + rest)
  {
    PutKeys(a, k, v);
  }


  lemma SpreadKeysOld<K>(a: Styles<K>, b: Styles<K>)
    requires b != [] && b[0].0 in Keys(a)
    requires Keys(Spread(Put(a, b[0].0, b[0].1), b[1..])) == Keys(Put(a, b[0].0, b[0].1)) + NewKeys(Keys(b[1..]), Keys(Put(a, b[0].0, b[0].1)))
    requires NewKeys(Keys(b), Keys(a)) == [] + NewKeys(Keys(b[1..]), Keys(a))
    ensures Keys(Spread(a, b)) == Keys(a) + NewKeys(Keys(b), Keys(a))
  {
    var a' := Put(a, b[0].0, b[0].1);
    var rest := NewKeys(Keys(b[1..]), Keys(a));
    PutKeys(a, b[0].0, b[0].1);
    assert Keys(a') == Keys(a);
    assert [] + rest == rest;
    assert Spread(a, b) == Spread(a', b[1..]);
  }

  lemma NewKeysHead<K>(b: Styles<K>, base: seq<K>)
    requires b != []
    ensures NewKeys(Keys(b), base) == (if b[0].0 in base then [] else [b[0].0]) + NewKeys(Keys(b[1..]), base)
  {
    var ks := Keys(b);
    assert ks[1..] == Keys(b[1..]);
  }

  lemma {:induction false} SpreadDistinct<K>(a: Styles<K>, b: Styles<K>)
    requires Distinct(Keys(a))
    ensures Distinct(Keys(Spread(a, b)))
    decreases |b|
  {
    if b != [] {
      PutDistinct(a, b[0].0, b[0].1);
      SpreadDistinct(Put(a, b[0].0, b[0].1), b[1..]);
    }
  }

  /**
   * Spreading keys that `a` does not have appends them: when no key is
   * shared or repeated, the spread is `a` followed by `b`.
   */
  lemma {:induction false} SpreadFreshKeys<K>(a: Styles<K>, b: Styles<K>)
    requires Distinct(Keys(a + b))
    ensures Spread(a, b) == a + b
    decreases |b|
  {
    if b == [] {
      assert a + b == a;
    }
    if b != [] {
      var k := b[0].0;
      FirstOverrideKeyIsNew(a, b);
      PutAppends(a, k, b[0].1);
      assert Put(a, k, b[0].1) == a + [b[0]];
      assert Spread(a, b) == Spread(a + [b[0]], b[1..]);
      assert a + b == (a + [b[0]]) + b[1..];
      SpreadFreshKeys(a + [b[0]], b[1..]);
    }
  }

  lemma FirstOverrideKeyIsNew<K>(a: Styles<K>, b: Styles<K>)
    requires b != [] && Distinct(Keys(a + b))
    ensures b[0].0 !in Keys(a)
  {
    var ks := Keys(a + b);
    KeysAt(a + b);
    KeysAt(a);
    assert ks[|a|] == b[0].0;
    forall i | 0 <= i < |a| ensures Keys(a)[i] != b[0].0 {
      assert ks[i] == Keys(a)[i];
    }
  }

  lemma {:induction false} PutAppends<K>(m: Styles<K>, k: K, v: string)
    requires k !in Keys(m)
    ensures Put(m, k, v) == m + [(k, v)]
  {
    if m != [] {
      assert Keys(m) == [m[0].0] + Keys(m[1..]);
      PutAppends(m[1..], k, v);
    }
  }
}
