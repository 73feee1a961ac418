/** Python's `list.sort(key=...)` and `sorted(..., key=..., reverse=...)`:
    a stable sort under a strict order on keys (for `reverse=True` the
    order on keys is simply reversed; Python keeps such a sort stable).
    It is modelled as insertion of the elements left to right, each one
    after every element whose key is not greater than its own. */
module Sorting {
  import Seqs

  /** `lt` is irreflexive and transitive: a strict order on keys. */
  ghost predicate StrictOrder<K(!new)>(lt: (K, K) -> bool) {
    && (forall a :: !lt(a, a))
    && (forall a, b, c :: lt(a, b) && lt(b, c) ==> lt(a, c))
  }

  /** No element is strictly smaller than one before it. */
  ghost predicate SortedBy<T, K>(s: seq<T>, key: T -> K, lt: (K, K) -> bool) {
    forall i, j :: 0 <= i < j < |s| ==> !lt(key(s[j]), key(s[i]))
  }

  function InsertBy<T, K>(x: T, s: seq<T>, key: T -> K, lt: (K, K) -> bool): (r: seq<T>)
    ensures |r| == |s| + 1
    ensures multiset(r) == multiset(s) + multiset{x}
  {
    if s == [] then [x]
    else if lt(key(x), key(s[0])) then [x] + s
    else
      assert s == [s[0]] + s[1..];
      [s[0]] + InsertBy(x, s[1..], key, lt)
  }

  /** The stable sort of `s` by `key` under `lt`. */
  function SortBy<T, K>(s: seq<T>, key: T -> K, lt: (K, K) -> bool): (r: seq<T>)
    ensures |r| == |s|
    ensures multiset(r) == multiset(s)
  {
    if s == [] then []
    else
      assert s == s[..|s| - 1] + [s[|s| - 1]];
      InsertBy(s[|s| - 1], SortBy(s[..|s| - 1], key, lt), key, lt)
  }

  /** The elements of `s` whose key is `k`, in their order in `s`. */
  function WithKey<T, K(==)>(s: seq<T>, key: T -> K, k: K): seq<T> {
    if s == [] then []
    else WithKey(s[..|s| - 1], key, k) + (if key(s[|s| - 1]) == k then [s[|s| - 1]] else [])
  }

  lemma {:induction false} WithKeyAppend<T, K>(a: seq<T>, b: seq<T>, key: T -> K, k: K)
    ensures WithKey(a + b, key, k) == WithKey(a, key, k) + WithKey(b, key, k)
    decreases |b|
  {
    if b == [] {
      assert a + b == a;
    } else {
      var init := b[..|b| - 1];
      WithKeyAppend(a, init, key, k);
      assert (a + b)[..|a + b| - 1] == a + init;
    }
  }

  lemma {:induction false} WithKeyNone<T, K>(s: seq<T>, key: T -> K, k: K)
    requires forall i :: 0 <= i < |s| ==> key(s[i]) != k
    ensures WithKey(s, key, k) == []
    decreases |s|
  {
    if s != [] {
      WithKeyNone(s[..|s| - 1], key, k);
    }
  }

  lemma {:induction false} InsertBySorted<T, K(!new)>(x: T, s: seq<T>, key: T -> K, lt: (K, K) -> bool)
    requires StrictOrder(lt) && SortedBy(s, key, lt)
    ensures SortedBy(InsertBy(x, s, key, lt), key, lt)
    decreases |s|
  {
    if s != [] {
      if lt(key(x), key(s[0])) {
        forall j | 0 <= j < |s|
          ensures !lt(key(s[j]), key(x))
        {
          if j > 0 {
            assert !lt(key(s[j]), key(s[0]));
          }
        }
        ConsSorted(x, s, key, lt);
      } else {
        InsertBySorted(x, s[1..], key, lt);
        var r := InsertBy(x, s[1..], key, lt);
        forall i | 0 <= i < |r|
          ensures !lt(key(r[i]), key(s[0]))
        {
          assert r[i] in multiset(r);
        }
        ConsSorted(s[0], r, key, lt);
      }
    }
  }

  /** An element no greater than any of a sorted list can go in front. */
  lemma ConsSorted<T, K>(h: T, r: seq<T>, key: T -> K, lt: (K, K) -> bool)
    requires SortedBy(r, key, lt)
    requires forall i :: 0 <= i < |r| ==> !lt(key(r[i]), key(h))
    ensures SortedBy([h] + r, key, lt)
  {
    var whole := [h] + r;
    forall i, j | 0 <= i < j < |whole|
      ensures !lt(key(whole[j]), key(whole[i]))
    {
      if i > 0 {
        assert whole[i] == r[i - 1] && whole[j] == r[j - 1];
      }
    }
  }

  /** The result of the sort is sorted. */
  lemma {:induction false} SortBySorted<T, K(!new)>(s: seq<T>, key: T -> K, lt: (K, K) -> bool)
    requires StrictOrder(lt)
    ensures SortedBy(SortBy(s, key, lt), key, lt)
    decreases |s|
  {
    if s != [] {
      SortBySorted(s[..|s| - 1], key, lt);
      InsertBySorted(s[|s| - 1], SortBy(s[..|s| - 1], key, lt), key, lt);
    }
  }

  lemma WithKeySingle<T, K>(x: T, key: T -> K, k: K)
    ensures WithKey([x], key, k) == (if key(x) == k then [x] else [])
  {
    assert [x][..0] == [];
  }

  /** An element inserted in front of a sorted list is strictly smaller
      than every key in it, so no element there shares its key. */
  lemma InsertByStableFront<T, K>(x: T, s: seq<T>, key: T -> K, lt: (K, K) -> bool, k: K)
    requires SortedBy(s, key, lt) && !lt(key(x), key(x))
    requires s != [] && lt(key(x), key(s[0]))
    ensures WithKey([x] + s, key, k) == WithKey(s, key, k) + (if key(x) == k then [x] else [])
  {
    WithKeyAppend([x], s, key, k);
    WithKeySingle(x, key, k);
    if key(x) == k {
      FrontKeyAbsent(x, s, key, lt);
      WithKeyNone(s, key, k);
    }
  }

  lemma FrontKeyAbsent<T, K>(x: T, s: seq<T>, key: T -> K, lt: (K, K) -> bool)
    requires SortedBy(s, key, lt) && !lt(key(x), key(x))
    requires s != [] && lt(key(x), key(s[0]))
    ensures forall i :: 0 <= i < |s| ==> key(s[i]) != key(x)
  {
    forall i | 0 <= i < |s|
      ensures key(s[i]) != key(x)
    {
      if i > 0 {
        assert !lt(key(s[i]), key(s[0]));
      }
    }
  }

  lemma {:induction false} InsertByStable<T, K(!new)>(x: T, s: seq<T>, key: T -> K, lt: (K, K) -> bool, k: K)
    requires StrictOrder(lt) && SortedBy(s, key, lt)
    ensures WithKey(InsertBy(x, s, key, lt), key, k)
         == WithKey(s, key, k) + (if key(x) == k then [x] else [])
    decreases |s|
  {
    if s == [] {
      WithKeySingle(x, key, k);
    } else if lt(key(x), key(s[0])) {
      InsertByStableFront(x, s, key, lt, k);
    } else {
      InsertByStable(x, s[1..], key, lt, k);
      InsertByStableBehind(x, s, key, lt, k);
    }
  }

  /** The step of `InsertByStable` where `x` goes after the head of `s`. */
  lemma InsertByStableBehind<T, K>(x: T, s: seq<T>, key: T -> K, lt: (K, K) -> bool, k: K)
    requires s != [] && !lt(key(x), key(s[0]))
    requires WithKey(InsertBy(x, s[1..], key, lt), key, k)
          == WithKey(s[1..], key, k) + (if key(x) == k then [x] else [])
    ensures WithKey(InsertBy(x, s, key, lt), key, k)
         == WithKey(s, key, k) + (if key(x) == k then [x] else [])
  {
    var r := InsertBy(x, s[1..], key, lt);
    var head := WithKey([s[0]], key, k);
    assert InsertBy(x, s, key, lt) == [s[0]] + r;
    assert WithKey([s[0]] + r, key, k) == head + WithKey(r, key, k) by {
      WithKeyAppend([s[0]], r, key, k);
    }
    assert WithKey(s, key, k) == head + WithKey(s[1..], key, k) by {
      WithKeyAppend([s[0]], s[1..], key, k);
      assert [s[0]] + s[1..] == s;
    }
    Seqs.AppendAssoc(head, WithKey(s[1..], key, k), if key(x) == k then [x] else []);
  }

  /** The sort is stable: elements with equal keys keep their relative
      order. */
  lemma {:induction false} SortByStable<T, K(!new)>(s: seq<T>, key: T -> K, lt: (K, K) -> bool, k: K)
    requires StrictOrder(lt)
    ensures WithKey(SortBy(s, key, lt), key, k) == WithKey(s, key, k)
    decreases |s|
  {
    if s != [] {
      var init := s[..|s| - 1];
      SortByStable(init, key, lt, k);
      SortBySorted(init, key, lt);
      InsertByStable(s[|s| - 1], SortBy(init, key, lt), key, lt, k);
    }
  }

  /** Inserting an element that is not smaller than any other puts it
      at the end. */
  lemma {:induction false} InsertByLast<T, K>(x: T, s: seq<T>, key: T -> K, lt: (K, K) -> bool)
    requires forall i :: 0 <= i < |s| ==> !lt(key(x), key(s[i]))
    ensures InsertBy(x, s, key, lt) == s + [x]
    decreases |s|
  {
    if s != [] {
      InsertByLast(x, s[1..], key, lt);
      assert s == [s[0]] + s[1..];
    }
  }

  /** Sorting a list that is already sorted leaves it unchanged. */
  lemma {:induction false} SortByOfSorted<T, K>(s: seq<T>, key: T -> K, lt: (K, K) -> bool)
    requires SortedBy(s, key, lt)
    ensures SortBy(s, key, lt) == s
    decreases |s|
  {
    if s != [] {
      var init, last := s[..|s| - 1], s[|s| - 1];
      SortedByInit(s, init, last, key, lt);
      SortByOfSorted(init, key, lt);
      InsertByLast(last, init, key, lt);
    }
  }

  /** Dropping the last element of a sorted list leaves it sorted, and
      that last element is not smaller than any before it. */
  lemma SortedByInit<T, K>(s: seq<T>, init: seq<T>, last: T, key: T -> K, lt: (K, K) -> bool)
    requires s == init + [last] && SortedBy(s, key, lt)
    ensures SortedBy(init, key, lt)
    ensures forall i :: 0 <= i < |init| ==> !lt(key(last), key(init[i]))
  {
    forall i, j | 0 <= i < j < |init| ensures !lt(key(init[j]), key(init[i])) {
      assert init[i] == s[i] && init[j] == s[j];
    }
    forall i | 0 <= i < |init| ensures !lt(key(last), key(init[i])) {
      assert init[i] == s[i] && last == s[|init|];
    }
  }
}
