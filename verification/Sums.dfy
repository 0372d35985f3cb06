/** Options, and sums over sequences and over the keys of a map, with the few
    laws the accounting proofs need. */
module Sums {

  datatype Option<+T> = None | Some(value: T)

  function Max(a: int, b: int): int {
    if a < b then b else a
  }

  // -- sums over a sequence ---------------------------------------------------

  function Sum<T>(s: seq<T>, f: T -> int): int {
    if s == [] then 0 else f(s[0]) + Sum(s[1..], f)
  }

  lemma {:induction false} SumBounds<T>(s: seq<T>, f: T -> int, g: T -> int)
    requires forall x <- s :: f(x) <= g(x)
    ensures Sum(s, f) <= Sum(s, g)
  {
    if s != [] {
      assert s[0] in s;
      SumBounds(s[1..], f, g);
    }
  }

  lemma {:induction false} SumSame<T>(s: seq<T>, f: T -> int, g: T -> int)
    requires forall x <- s :: f(x) == g(x)
    ensures Sum(s, f) == Sum(s, g)
  {
    SumBounds(s, f, g);
    SumBounds(s, g, f);
  }

  lemma {:induction false} SumNonNegative<T>(s: seq<T>, f: T -> int)
    requires forall x <- s :: 0 <= f(x)
    ensures 0 <= Sum(s, f)
  {
    if s != [] {
      assert s[0] in s;
      SumNonNegative(s[1..], f);
    }
  }

  lemma {:induction false} SumConcat<T>(s: seq<T>, t: seq<T>, f: T -> int)
    ensures Sum(s + t, f) == Sum(s, f) + Sum(t, f)
  {
    if s == [] {
      assert s + t == t;
    } else {
      assert (s + t)[1..] == s[1..] + t;
      SumConcat(s[1..], t, f);
    }
  }

  lemma {:induction false} SumStrict<T>(s: seq<T>, x: T, f: T -> int, g: T -> int)
    requires x in s && f(x) < g(x) && forall y <- s :: f(y) <= g(y)
    ensures Sum(s, f) < Sum(s, g)
  {
    assert s[0] in s;
    SumBounds(s[1..], f, g);
    if x != s[0] {
      SumStrict(s[1..], x, f, g);
    }
  }

  // -- sums over a finite set ---------------------------------------------------

  ghost function SumKeys<K>(keys: set<K>, f: K -> int): int {
    if keys == {} then 0 else
    var k :| k in keys;
    f(k) + SumKeys(keys - {k}, f)
  }

  /** The order in which the keys are picked does not matter. */
  lemma {:induction false} SumKeysRemove<K>(keys: set<K>, k: K, f: K -> int)
    requires k in keys
    ensures SumKeys(keys, f) == f(k) + SumKeys(keys - {k}, f)
    decreases keys
  {
    var j :| j in keys && SumKeys(keys, f) == f(j) + SumKeys(keys - {j}, f);
    if j != k {
      SumKeysRemove(keys - {j}, k, f);
      SumKeysRemove(keys - {k}, j, f);
      assert keys - {j} - {k} == keys - {k} - {j};
    }
  }

  lemma SumKeysOne<K>(k: K, f: K -> int)
    ensures SumKeys({k}, f) == f(k)
  {
    SumKeysRemove({k}, k, f);
    assert {k} - {k} == {};
  }

  lemma {:induction false} SumKeysInsert<K>(keys: set<K>, k: K, f: K -> int)
    requires k !in keys
    ensures SumKeys(keys + {k}, f) == f(k) + SumKeys(keys, f)
  {
    SumKeysRemove(keys + {k}, k, f);
    assert keys + {k} - {k} == keys;
  }

  lemma {:induction false} SumKeysBounds<K>(keys: set<K>, f: K -> int, g: K -> int)
    requires forall k <- keys :: f(k) <= g(k)
    ensures SumKeys(keys, f) <= SumKeys(keys, g)
    decreases keys
  {
    if keys != {} {
      var k :| k in keys;
      SumKeysRemove(keys, k, f);
      SumKeysRemove(keys, k, g);
      SumKeysBounds(keys - {k}, f, g);
    }
  }

  /** A smaller sum has a smaller term. */
  lemma SumKeysLess<K>(keys: set<K>, f: K -> int, g: K -> int) returns (k: K)
    requires SumKeys(keys, f) < SumKeys(keys, g)
    ensures k in keys && f(k) < g(k)
  {
    if forall j <- keys :: g(j) <= f(j) {
      SumKeysBounds(keys, g, f);
    }
    k :| k in keys && f(k) < g(k);
  }

  lemma {:induction false} SumKeysSame<K>(keys: set<K>, f: K -> int, g: K -> int)
    requires forall k <- keys :: f(k) == g(k)
    ensures SumKeys(keys, f) == SumKeys(keys, g)
  {
    SumKeysBounds(keys, f, g);
    SumKeysBounds(keys, g, f);
  }

  /** Fewer keys with smaller terms sum to less, when no term left out is negative. */
  lemma {:induction false} SumKeysWithin<K>(small: set<K>, large: set<K>, f: K -> int, g: K -> int)
    requires small <= large
    requires forall k <- small :: f(k) <= g(k)
    requires forall k <- large :: 0 <= g(k)
    ensures SumKeys(small, f) <= SumKeys(large, g)
    decreases large
  {
    if large != {} {
      var k :| k in large;
      SumKeysRemove(large, k, g);
      if k in small {
        SumKeysRemove(small, k, f);
      } else {
        assert small - {k} == small;
      }
      SumKeysWithin(small - {k}, large - {k}, f, g);
    }
  }

  /** Only the keys with a term matter. */
  lemma {:induction false} SumKeysSupport<K>(small: set<K>, large: set<K>, f: K -> int)
    requires small <= large && forall k <- large - small :: f(k) == 0
    ensures SumKeys(small, f) == SumKeys(large, f)
    decreases large
  {
    if k :| k in large && k !in small {
      SumKeysRemove(large, k, f);
      SumKeysSupport(small, large - {k}, f);
    } else {
      assert small == large;
    }
  }

  lemma {:induction false} SumKeysZero<K>(keys: set<K>, f: K -> int)
    requires forall k <- keys :: f(k) == 0
    ensures SumKeys(keys, f) == 0
    decreases keys
  {
    if keys != {} {
      var k :| k in keys;
      SumKeysRemove(keys, k, f);
      SumKeysZero(keys - {k}, f);
    }
  }

  lemma SumKeysStrict<K>(keys: set<K>, k: K, f: K -> int, g: K -> int)
    requires k in keys && f(k) < g(k) && forall j <- keys :: f(j) <= g(j)
    ensures SumKeys(keys, f) < SumKeys(keys, g)
  {
    SumKeysRemove(keys, k, f);
    SumKeysRemove(keys, k, g);
    SumKeysBounds(keys - {k}, f, g);
  }

  lemma {:induction false} SumKeysAdd<K>(keys: set<K>, f: K -> int, g: K -> int, h: K -> int)
    requires forall k <- keys :: h(k) == f(k) + g(k)
    ensures SumKeys(keys, h) == SumKeys(keys, f) + SumKeys(keys, g)
    decreases keys
  {
    if keys != {} {
      var k :| k in keys;
      SumKeysRemove(keys, k, f);
      SumKeysRemove(keys, k, g);
      SumKeysRemove(keys, k, h);
      SumKeysAdd(keys - {k}, f, g, h);
    }
  }
}
