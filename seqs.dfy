/** De-duplication as the launcher does it: a list is extended only
    with elements it does not hold yet (`if d not in paths:
    paths.append(d)`), so what survives is each element's first
    occurrence, in order. */
module Seqs {

  predicate NoDup<T(==)>(s: seq<T>) {
    forall i, j :: 0 <= i < j < |s| ==> s[i] != s[j]
  }

  /** Each element of `s` at its first occurrence, in order of those
      occurrences: the same elements as `s`, none twice. */
  function FirstOccurrences<T(==,!new)>(s: seq<T>): (r: seq<T>)
    ensures NoDup(r)
    ensures forall x :: x in r <==> x in s
    ensures |r| <= |s|
  {
    if s == [] then []
    else
      var init := s[..|s| - 1];
      var last := s[|s| - 1];
      assert forall x :: x in s <==> x in init || x == last;
      FirstOccurrences(init) + (if last in init then [] else [last])
  }

  /** Appending an element extends the de-duplicated list by that
      element exactly when it is new. */
  lemma FirstOccurrencesSnoc<T(!new)>(s: seq<T>, x: T)
    ensures FirstOccurrences(s + [x]) == FirstOccurrences(s) + (if x in s then [] else [x])
  {
    assert (s + [x])[..|s|] == s;
  }

  /** A list without repetitions is its own de-duplication. */
  lemma {:induction false} FirstOccurrencesOfNoDup<T(!new)>(s: seq<T>)
    requires NoDup(s)
    ensures FirstOccurrences(s) == s
  {
    if s != [] {
      var init := s[..|s| - 1];
      FirstOccurrencesOfNoDup(init);
      assert s == init + [s[|s| - 1]];
    }
  }

  /** De-duplicating `a + b` when `a` has no repetitions keeps `a` as
      it is at the front and only adds new elements of `b` after it. */
  lemma {:induction false} FirstOccurrencesKeepsPrefix<T(!new)>(a: seq<T>, b: seq<T>)
    requires NoDup(a)
    ensures |FirstOccurrences(a + b)| >= |a|
    ensures FirstOccurrences(a + b)[..|a|] == a
    ensures forall i :: |a| <= i < |FirstOccurrences(a + b)| ==>
              FirstOccurrences(a + b)[i] in b && FirstOccurrences(a + b)[i] !in a
    decreases |b|
  {
    if b == [] {
      assert a + b == a;
      FirstOccurrencesOfNoDup(a);
    } else {
      var init := b[..|b| - 1];
      var last := b[|b| - 1];
      FirstOccurrencesKeepsPrefix(a, init);
      assert a + b == (a + init) + [last];
      FirstOccurrencesSnoc(a + init, last);
    }
  }

  /** Each element occurs at most once in a list without repetitions. */
  lemma {:induction false} NoDupCount<T>(s: seq<T>, x: T)
    requires NoDup(s)
    ensures multiset(s)[x] <= 1
    decreases |s|
  {
    if s != [] {
      var rest := s[1..];
      assert s == [s[0]] + rest;
      assert NoDup(rest) by {
        forall i, j | 0 <= i < j < |rest| ensures rest[i] != rest[j] {
          assert rest[i] == s[i + 1] && rest[j] == s[j + 1];
        }
      }
      NoDupCount(rest, x);
      if x == s[0] {
        assert x !in rest by {
          forall i | 0 <= i < |rest| ensures rest[i] != x {
            assert rest[i] == s[i + 1];
          }
        }
      }
    }
  }

  /** A rearrangement of a list without repetitions has none either. */
  lemma NoDupPermutation<T>(a: seq<T>, b: seq<T>)
    requires NoDup(a) && multiset(a) == multiset(b)
    ensures NoDup(b)
  {
    forall i, j | 0 <= i < j < |b| ensures b[i] != b[j] {
      if b[i] == b[j] {
        var x := b[i];
        assert b == b[..i] + [x] + b[i + 1..j] + [x] + b[j + 1..];
        assert multiset(b)[x] >= 2;
        NoDupCount(a, x);
        assert false;
      }
    }
  }

  /** Appending a new element keeps a list free of repetitions. */
  lemma NoDupSnoc<T>(s: seq<T>, x: T)
    requires NoDup(s) && x !in s
    ensures NoDup(s + [x])
  {
  }

  /** Concatenation is associative; stated once so that proofs can
      regroup without unfolding sequences element by element. */
  lemma AppendAssoc<T>(a: seq<T>, b: seq<T>, c: seq<T>)
    ensures a + (b + c) == (a + b) + c
  {
  }

  /** `f` applied to each element together with its position counted
      from `start`. */
  function MapIndexed<A, B>(start: nat, s: seq<A>, f: (nat, A) -> B): (r: seq<B>)
    ensures |r| == |s|
    ensures forall k :: 0 <= k < |s| ==> r[k] == f(start + k, s[k])
  {
    if s == [] then []
    else MapIndexed(start, s[..|s| - 1], f) + [f(start + |s| - 1, s[|s| - 1])]
  }

  /** Appending an element appends its image at the next position. */
  lemma MapIndexedSnoc<A, B>(start: nat, s: seq<A>, x: A, f: (nat, A) -> B, n: nat)
    requires n == start + |s|
    ensures MapIndexed(start, s + [x], f) == MapIndexed(start, s, f) + [f(n, x)]
  {
    assert (s + [x])[..|s|] == s;
  }

  /** The parts of a list with one element appended. */
  lemma SnocParts<T>(s: seq<T>, x: T)
    ensures (s + [x])[..|s|] == s && (s + [x])[|s|] == x
  {
  }

  /** A non-empty list is its initial part followed by its last element. */
  lemma InitLast<T>(s: seq<T>)
    requires s != []
    ensures s[..|s| - 1] + [s[|s| - 1]] == s
  {
  }

  /** Dropping the head of a list built from a head and a tail leaves
      the tail. */
  lemma DropCons<T>(x: T, rest: seq<T>)
    ensures ([x] + rest)[1..] == rest
  {
  }

  /** The suffix from `i` is the element at `i` followed by the suffix
      from `i + 1`. */
  lemma DropNext<T>(s: seq<T>, i: nat)
    requires i < |s|
    ensures s[i..][0] == s[i] && s[i..][1..] == s[i + 1..]
  {
  }

  /** Dropping the head of a concatenation with a non-empty front drops
      it from the front. */
  lemma AppendDropHead<T>(a: seq<T>, b: seq<T>)
    requires a != []
    ensures (a + b)[0] == a[0] && (a + b)[1..] == a[1..] + b
  {
  }
}
