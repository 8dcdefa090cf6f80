/** Stable sorting by a numeric key. The sort itself is library code; it is fixed here by its two laws,
    which leave only one possible result. */
module StableSort {
  predicate Sorted<T>(s: seq<T>, key: T -> real) {
    forall i, j :: 0 <= i < j < |s| ==> key(s[i]) <= key(s[j])
  }

  /** The elements with one key, in order. */
  function OfKey<T>(s: seq<T>, key: T -> real, v: real): seq<T> {
    if s == [] then []
    else
      var last := s[|s| - 1];
      OfKey(s[..|s| - 1], key, v) + if key(last) == v then [last] else []
  }

  /** Put an element behind every element with a key no larger than its own. */
  function Insert<T>(s: seq<T>, key: T -> real, x: T): seq<T> {
    if s == [] || key(s[|s| - 1]) <= key(x) then s + [x]
    else Insert(s[..|s| - 1], key, x) + [s[|s| - 1]]
  }

  function Sort<T>(s: seq<T>, key: T -> real): seq<T> {
    if s == [] then [] else Insert(Sort(s[..|s| - 1], key), key, s[|s| - 1])
  }

  lemma OfKeyAppend<T>(s: seq<T>, x: T, key: T -> real, v: real)
    ensures OfKey(s + [x], key, v) == OfKey(s, key, v) + if key(x) == v then [x] else []
  {
    assert (s + [x])[..|s|] == s;
  }

  lemma {:induction false} InsertMembers<T>(s: seq<T>, key: T -> real, x: T)
    ensures multiset(Insert(s, key, x)) == multiset(s) + multiset{x} && |Insert(s, key, x)| == |s| + 1
  {
    if s != [] && key(s[|s| - 1]) > key(x) {
      InsertMembers(s[..|s| - 1], key, x);
      assert s == s[..|s| - 1] + [s[|s| - 1]];
    }
  }

  lemma InsertBelow<T>(s: seq<T>, key: T -> real, x: T, bound: real)
    requires key(x) <= bound && forall k :: 0 <= k < |s| ==> key(s[k]) <= bound
    ensures forall k :: 0 <= k < |Insert(s, key, x)| ==> key(Insert(s, key, x)[k]) <= bound
  {
    InsertMembers(s, key, x);
    forall k | 0 <= k < |Insert(s, key, x)| ensures key(Insert(s, key, x)[k]) <= bound {
      assert Insert(s, key, x)[k] in multiset(s) + multiset{x};
    }
  }

  lemma {:induction false} InsertSorted<T>(s: seq<T>, key: T -> real, x: T)
    requires Sorted(s, key)
    ensures Sorted(Insert(s, key, x), key)
  {
    if s != [] && key(s[|s| - 1]) > key(x) {
      InsertSorted(s[..|s| - 1], key, x);
      InsertBelow(s[..|s| - 1], key, x, key(s[|s| - 1]));
    }
  }

  lemma {:induction false} InsertOfKey<T>(s: seq<T>, key: T -> real, x: T, v: real)
    requires Sorted(s, key)
    ensures OfKey(Insert(s, key, x), key, v) == OfKey(s, key, v) + if key(x) == v then [x] else []
  {
    if s == [] || key(s[|s| - 1]) <= key(x) {
      OfKeyAppend(s, x, key, v);
    } else {
      var front, last := s[..|s| - 1], s[|s| - 1];
      InsertOfKey(front, key, x, v);
      OfKeyAppend(Insert(front, key, x), last, key, v);
      if key(x) == v {
        NoneAbove(front, key, v, last);
      }
    }
  }

  lemma NoneAbove<T>(front: seq<T>, key: T -> real, v: real, last: T)
    requires key(last) > v
    ensures OfKey(front, key, v) + [] == OfKey(front, key, v)
  {
  }

  /** The result is in order, loses nothing, and keeps equal keys in their old order. */
  lemma {:induction false} SortLaws<T>(s: seq<T>, key: T -> real)
    ensures Sorted(Sort(s, key), key) && multiset(Sort(s, key)) == multiset(s) && |Sort(s, key)| == |s|
    ensures forall v :: OfKey(Sort(s, key), key, v) == OfKey(s, key, v)
  {
    if s != [] {
      var front, last := s[..|s| - 1], s[|s| - 1];
      SortLaws(front, key);
      assert s == front + [last];
      InsertMembers(Sort(front, key), key, last);
      InsertSorted(Sort(front, key), key, last);
      forall v ensures OfKey(Sort(s, key), key, v) == OfKey(s, key, v) {
        InsertOfKey(Sort(front, key), key, last, v);
      }
    }
  }

  lemma {:induction false} OfKeyMember<T>(s: seq<T>, key: T -> real, i: nat)
    requires i < |s|
    ensures s[i] in OfKey(s, key, key(s[i]))
  {
    if i < |s| - 1 {
      OfKeyMember(s[..|s| - 1], key, i);
    }
  }

  lemma {:induction false} OfKeyFrom<T>(s: seq<T>, key: T -> real, v: real)
    ensures forall x :: x in OfKey(s, key, v) ==> x in s && key(x) == v
  {
    if s != [] {
      OfKeyFrom(s[..|s| - 1], key, v);
    }
  }

  /** In a sorted list every key is at most that of an element of any list with the same elements per key. */
  lemma LastKeys<T>(a: seq<T>, b: seq<T>, key: T -> real)
    requires Sorted(b, key) && a != [] && forall v :: OfKey(a, key, v) == OfKey(b, key, v)
    ensures b != [] && key(a[|a| - 1]) <= key(b[|b| - 1])
  {
    var x := a[|a| - 1];
    OfKeyMember(a, key, |a| - 1);
    assert x in OfKey(b, key, key(x));
    OfKeyFrom(b, key, key(x));
    var i :| 0 <= i < |b| && b[i] == x;
  }

  /** Order and equal content per key determine a list. */
  lemma {:induction false} SortedUnique<T>(a: seq<T>, b: seq<T>, key: T -> real)
    requires Sorted(a, key) && Sorted(b, key)
    requires forall v :: OfKey(a, key, v) == OfKey(b, key, v)
    ensures a == b
  {
    if a == [] {
      if b != [] {
        LastKeys(b, a, key);
      }
    } else {
      LastKeys(a, b, key);
      LastKeys(b, a, key);
      var x, y, v := a[|a| - 1], b[|b| - 1], key(a[|a| - 1]);
      var a', b' := a[..|a| - 1], b[..|b| - 1];
      assert OfKey(a, key, v) == OfKey(a', key, v) + [x] && OfKey(b, key, v) == OfKey(b', key, v) + [y];
      assert x == y by {
        assert OfKey(a, key, v)[|OfKey(a, key, v)| - 1] == x && OfKey(b, key, v)[|OfKey(b, key, v)| - 1] == y;
      }
      assert a == a' + [x] && b == b' + [x];
      forall w ensures OfKey(a', key, w) == OfKey(b', key, w) {
        DropLast(a', b', x, key, w);
      }
      SortedUnique(a', b', key);
    }
  }

  lemma DropLast<T>(a: seq<T>, b: seq<T>, x: T, key: T -> real, v: real)
    requires OfKey(a + [x], key, v) == OfKey(b + [x], key, v)
    ensures OfKey(a, key, v) == OfKey(b, key, v)
  {
    OfKeyAppend(a, x, key, v);
    OfKeyAppend(b, x, key, v);
    var p, q := OfKey(a, key, v), OfKey(b, key, v);
    if key(x) == v {
      assert (p + [x])[..|p|] == p && (q + [x])[..|q|] == q;
    } else {
      assert p + [] == p && q + [] == q;
    }
  }

  // ---------------------------------------------------------- names stay distinct

  ghost predicate DistinctBy<T, K>(s: seq<T>, name: T -> K) {
    forall i, j :: 0 <= i < j < |s| ==> name(s[i]) != name(s[j])
  }

  lemma Twice<T>(s: seq<T>, i: nat, j: nat)
    requires i < j < |s| && s[i] == s[j]
    ensures multiset(s)[s[i]] >= 2
  {
    assert s == s[..j] + [s[j]] + s[j + 1..];
    assert s[i] in s[..j];
  }

  lemma Once<T, K>(s: seq<T>, name: T -> K, i: nat)
    requires i < |s| && DistinctBy(s, name)
    ensures multiset(s)[s[i]] == 1
  {
    assert s == s[..i] + [s[i]] + s[i + 1..];
    assert s[i] !in s[..i] && s[i] !in s[i + 1..];
  }

  lemma PermutedDistinct<T, K>(a: seq<T>, b: seq<T>, name: T -> K)
    requires DistinctBy(a, name) && multiset(a) == multiset(b)
    ensures DistinctBy(b, name)
  {
    forall i, j | 0 <= i < j < |b| ensures name(b[i]) != name(b[j]) {
      assert b[i] in multiset(a) && b[j] in multiset(a);
      var m :| 0 <= m < |a| && a[m] == b[i];
      var n :| 0 <= n < |a| && a[n] == b[j];
      if m == n {
        Twice(b, i, j);
        Once(a, name, m);
      }
    }
  }
}
