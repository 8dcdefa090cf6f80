/** Tables ordered by string keys, as a key-value database iterates over them. */
module OrderedTable {
  import opened Options

  type Table<V> = seq<(string, V)>

  /** Lexicographic order. */
  predicate Less(a: string, b: string) {
    b != "" && (a == "" || a[0] < b[0] || (a[0] == b[0] && Less(a[1..], b[1..])))
  }

  predicate StartsWith(k: string, p: string) {
    |p| <= |k| && k[..|p|] == p
  }

  predicate Above<V>(t: Table<V>, k: string) {
    forall i :: 0 <= i < |t| ==> Less(k, t[i].0)
  }

  predicate Ordered<V>(t: Table<V>) {
    t == [] || (Above(t[1..], t[0].0) && Ordered(t[1..]))
  }

  function Put<V>(t: Table<V>, k: string, v: V): Table<V> {
    if t == [] || Less(k, t[0].0) then [(k, v)] + t
    else if t[0].0 == k then [(k, v)] + t[1..]
    else [t[0]] + Put(t[1..], k, v)
  }

  function Del<V>(t: Table<V>, k: string): Table<V> {
    if t == [] then [] else if t[0].0 == k then t[1..] else [t[0]] + Del(t[1..], k)
  }

  function Get<V>(t: Table<V>, k: string): Option<V> {
    if t == [] then None else if t[0].0 == k then Some(t[0].1) else Get(t[1..], k)
  }

  /** The entries whose key begins with `p`, named by what follows it. */
  function Under<V>(t: Table<V>, p: string): Table<V> {
    if t == [] then []
    else if StartsWith(t[0].0, p) then [(t[0].0[|p|..], t[0].1)] + Under(t[1..], p)
    else Under(t[1..], p)
  }

  /** The entries whose value passes a test. */
  function Keep<V>(t: Table<V>, live: V -> bool): Table<V> {
    if t == [] then [] else if live(t[0].1) then [t[0]] + Keep(t[1..], live) else Keep(t[1..], live)
  }

  // ------------------------------------------------------------------- order

  lemma {:induction false} LessIrreflexive(a: string)
    ensures !Less(a, a)
  {
    if a != "" {
      LessIrreflexive(a[1..]);
    }
  }

  lemma {:induction false} LessTransitive(a: string, b: string, c: string)
    requires Less(a, b) && Less(b, c)
    ensures Less(a, c)
  {
    if a != "" && a[0] == b[0] == c[0] {
      LessTransitive(a[1..], b[1..], c[1..]);
    }
  }

  lemma {:induction false} LessTotal(a: string, b: string)
    ensures Less(a, b) || a == b || Less(b, a)
  {
    if a != "" && b != "" && a[0] == b[0] {
      LessTotal(a[1..], b[1..]);
      assert a == [a[0]] + a[1..] && b == [b[0]] + b[1..];
    }
  }

  lemma {:induction false} LessUnder(p: string, a: string, b: string)
    ensures Less(p + a, p + b) == Less(a, b)
  {
    if p == "" {
      assert p + a == a && p + b == b;
    } else {
      assert (p + a)[1..] == p[1..] + a && (p + b)[1..] == p[1..] + b;
      LessUnder(p[1..], a, b);
    }
  }

  lemma AboveLower<V>(t: Table<V>, k: string, lower: string)
    requires Above(t, k) && Less(lower, k)
    ensures Above(t, lower)
  {
    forall i | 0 <= i < |t| ensures Less(lower, t[i].0) {
      LessTransitive(lower, k, t[i].0);
    }
  }

  lemma {:induction false} AboveKeep<V>(t: Table<V>, live: V -> bool, k: string)
    requires Above(t, k)
    ensures Above(Keep(t, live), k)
  {
    if t != [] {
      AboveKeep(t[1..], live, k);
    }
  }

  lemma {:induction false} AboveUnder<V>(t: Table<V>, p: string, k: string)
    requires Above(t, p + k)
    ensures Above(Under(t, p), k)
  {
    if t != [] {
      AboveUnder(t[1..], p, k);
      if StartsWith(t[0].0, p) {
        assert t[0].0 == p + t[0].0[|p|..];
        LessUnder(p, k, t[0].0[|p|..]);
      }
    }
  }

  lemma {:induction false} AbovePut<V>(t: Table<V>, k: string, v: V, low: string)
    requires Above(t, low) && Less(low, k)
    ensures Above(Put(t, k, v), low)
  {
    if t != [] && !Less(k, t[0].0) && t[0].0 != k {
      AbovePut(t[1..], k, v, low);
    }
  }

  lemma {:induction false} AboveDel<V>(t: Table<V>, k: string, low: string)
    requires Above(t, low)
    ensures Above(Del(t, k), low)
  {
    if t != [] && t[0].0 != k {
      AboveDel(t[1..], k, low);
    }
  }

  lemma {:induction false} PutOrdered<V>(t: Table<V>, k: string, v: V)
    requires Ordered(t)
    ensures Ordered(Put(t, k, v))
  {
    if t == [] || Less(k, t[0].0) {
      if t != [] {
        AboveLower(t[1..], t[0].0, k);
      }
      assert ([(k, v)] + t)[1..] == t;
    } else if t[0].0 != k {
      LessTotal(k, t[0].0);
      PutOrdered(t[1..], k, v);
      AbovePut(t[1..], k, v, t[0].0);
    }
  }

  lemma {:induction false} DelOrdered<V>(t: Table<V>, k: string)
    requires Ordered(t)
    ensures Ordered(Del(t, k))
  {
    if t != [] && t[0].0 != k {
      DelOrdered(t[1..], k);
      AboveDel(t[1..], k, t[0].0);
    }
  }

  lemma {:induction false} KeepOrdered<V>(t: Table<V>, live: V -> bool)
    requires Ordered(t)
    ensures Ordered(Keep(t, live))
  {
    if t != [] {
      KeepOrdered(t[1..], live);
      AboveKeep(t[1..], live, t[0].0);
    }
  }

  // ------------------------------------------------------------------ lookup

  lemma {:induction false} GetAbove<V>(t: Table<V>, k: string)
    requires Above(t, k)
    ensures Get(t, k) == None && Del(t, k) == t
  {
    if t != [] {
      LessIrreflexive(k);
      GetAbove(t[1..], k);
      assert [t[0]] + t[1..] == t;
    }
  }

  /** A table is a map: a key reads back what was last put under it, and nothing once it is deleted. */
  lemma {:induction false} GetPut<V>(t: Table<V>, k: string, v: V, x: string)
    ensures Get(Put(t, k, v), x) == if x == k then Some(v) else Get(t, x)
  {
    if t == [] || Less(k, t[0].0) {
      assert ([(k, v)] + t)[1..] == t;
    } else if t[0].0 != k {
      GetPut(t[1..], k, v, x);
    }
  }

  lemma {:induction false} GetDel<V>(t: Table<V>, k: string, x: string)
    requires Ordered(t)
    ensures Get(Del(t, k), x) == if x == k then None else Get(t, x)
  {
    if t != [] {
      if t[0].0 == k {
        GetAbove(t[1..], k);
      } else {
        GetDel(t[1..], k, x);
      }
    }
  }

  lemma {:induction false} GetUnder<V>(t: Table<V>, p: string, x: string)
    ensures Get(Under(t, p), x) == Get(t, p + x)
  {
    if t != [] {
      GetUnder(t[1..], p, x);
      if StartsWith(t[0].0, p) {
        assert t[0].0 == p + t[0].0[|p|..];
        assert (p + x)[|p|..] == x;
      } else {
        assert (p + x)[..|p|] == p;
      }
    }
  }

  // ------------------------------------------------ one region of the key space

  lemma PutFirst<V>(t: Table<V>, k: string, v: V)
    requires Above(t, k)
    ensures Put(t, k, v) == [(k, v)] + t
  {
  }

  /** Writing under a prefix is writing into its region; writing elsewhere leaves it alone. */
  lemma {:induction false} UnderPut<V>(t: Table<V>, p: string, k: string, v: V)
    requires Ordered(t)
    ensures Under(Put(t, k, v), p) == if StartsWith(k, p) then Put(Under(t, p), k[|p|..], v) else Under(t, p)
  {
    if t == [] || Less(k, t[0].0) {
      assert ([(k, v)] + t)[1..] == t;
      if StartsWith(k, p) {
        assert k == p + k[|p|..];
        if t != [] {
          AboveLower(t[1..], t[0].0, k);
        }
        AboveUnder(t, p, k[|p|..]);
        PutFirst(Under(t, p), k[|p|..], v);
      }
    } else if t[0].0 == k {
      assert ([(k, v)] + t[1..])[1..] == t[1..];
      if StartsWith(k, p) {
        LessIrreflexive(k[|p|..]);
        assert Under(t, p)[1..] == Under(t[1..], p);
      }
    } else {
      UnderPut(t[1..], p, k, v);
      assert ([t[0]] + Put(t[1..], k, v))[1..] == Put(t[1..], k, v);
      if StartsWith(k, p) && StartsWith(t[0].0, p) {
        UnderPutBehind(t, p, k, v);
      }
    }
  }

  lemma UnderPutBehind<V>(t: Table<V>, p: string, k: string, v: V)
    requires t != [] && StartsWith(k, p) && StartsWith(t[0].0, p) && !Less(k, t[0].0) && t[0].0 != k
    ensures Put(Under(t, p), k[|p|..], v) == [(t[0].0[|p|..], t[0].1)] + Put(Under(t[1..], p), k[|p|..], v)
  {
    var first := t[0].0[|p|..];
    assert t[0].0 == p + first && k == p + k[|p|..];
    LessUnder(p, k[|p|..], first);
    assert Under(t, p) == [(first, t[0].1)] + Under(t[1..], p);
  }

  lemma {:induction false} UnderDel<V>(t: Table<V>, p: string, k: string)
    ensures Under(Del(t, k), p) == if StartsWith(k, p) then Del(Under(t, p), k[|p|..]) else Under(t, p)
  {
    if t != [] && t[0].0 != k {
      UnderDel(t[1..], p, k);
      assert ([t[0]] + Del(t[1..], k))[1..] == Del(t[1..], k);
      if StartsWith(k, p) && StartsWith(t[0].0, p) {
        assert t[0].0 == p + t[0].0[|p|..] && k == p + k[|p|..];
        assert Under(t, p)[1..] == Under(t[1..], p);
      }
    }
  }

  lemma {:induction false} UnderKeep<V>(t: Table<V>, p: string, live: V -> bool)
    ensures Under(Keep(t, live), p) == Keep(Under(t, p), live)
  {
    if t != [] {
      UnderKeep(t[1..], p, live);
      assert live(t[0].1) ==> ([t[0]] + Keep(t[1..], live))[1..] == Keep(t[1..], live);
      assert StartsWith(t[0].0, p) ==> Under(t, p)[1..] == Under(t[1..], p);
    }
  }

  // ---------------------------------------------------------------- filtering

  lemma {:induction false} KeepKeep<V>(t: Table<V>, wide: V -> bool, narrow: V -> bool)
    requires forall v :: narrow(v) ==> wide(v)
    ensures Keep(Keep(t, wide), narrow) == Keep(t, narrow)
  {
    if t != [] {
      KeepKeep(t[1..], wide, narrow);
      assert wide(t[0].1) ==> ([t[0]] + Keep(t[1..], wide))[1..] == Keep(t[1..], wide);
    }
  }

  lemma {:induction false} KeepPut<V>(t: Table<V>, k: string, v: V, live: V -> bool)
    requires Ordered(t)
    ensures Keep(Put(t, k, v), live) == if live(v) then Put(Keep(t, live), k, v) else Del(Keep(t, live), k)
  {
    if t == [] || Less(k, t[0].0) {
      assert ([(k, v)] + t)[1..] == t;
      if t != [] {
        AboveLower(t[1..], t[0].0, k);
      }
      AboveKeep(t, live, k);
      GetAbove(Keep(t, live), k);
    } else if t[0].0 == k {
      assert ([(k, v)] + t[1..])[1..] == t[1..];
      AboveKeep(t[1..], live, k);
      GetAbove(Keep(t[1..], live), k);
      PutFirst(Keep(t[1..], live), k, v);
      if live(t[0].1) {
        assert Keep(t, live)[1..] == Keep(t[1..], live);
        LessIrreflexive(k);
      }
    } else {
      KeepPut(t[1..], k, v, live);
      assert ([t[0]] + Put(t[1..], k, v))[1..] == Put(t[1..], k, v);
      if live(t[0].1) {
        assert Keep(t, live)[1..] == Keep(t[1..], live);
      }
    }
  }

  lemma {:induction false} KeepDel<V>(t: Table<V>, k: string, live: V -> bool)
    requires Ordered(t)
    ensures Keep(Del(t, k), live) == Del(Keep(t, live), k)
  {
    if t != [] {
      if t[0].0 == k {
        AboveKeep(t[1..], live, k);
        GetAbove(Keep(t[1..], live), k);
        assert live(t[0].1) ==> Keep(t, live)[1..] == Keep(t[1..], live);
      } else {
        KeepDel(t[1..], k, live);
        assert ([t[0]] + Del(t[1..], k))[1..] == Del(t[1..], k);
        assert live(t[0].1) ==> Keep(t, live)[1..] == Keep(t[1..], live);
      }
    }
  }
}
