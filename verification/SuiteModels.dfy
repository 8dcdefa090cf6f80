/** Primitives that meet what is assumed of cryptography, so that the assumptions do not contradict each
    other: pairs are written down in a form that can be taken apart. */
module SuiteModels {
  import opened Options
  import opened Encoding
  import Ratchet
  import RatchetSecrecy
  import RatchetAuthenticity
  import Onion

  // ------------------------------------------------------------------- pairs

  /** The length of the first part in unary, then both parts. */
  function Pair(a: Bytes, b: Bytes): Bytes {
    Ones(|a|) + [0] + a + b
  }

  function Ones(n: nat): (r: Bytes)
    ensures |r| == n && forall i :: 0 <= i < n ==> r[i] == 1
  {
    seq(n, _ => 1)
  }

  /** What stands behind a pair's first part, if that is `a`. */
  function Behind(a: Bytes, m: Bytes): Option<Bytes> {
    var front := Pair(a, []);
    if |front| <= |m| && m[..|front|] == front then Some(m[|front|..]) else None
  }

  lemma PairFront(a: Bytes, b: Bytes)
    ensures Pair(a, b) == Pair(a, []) + b && |Pair(a, [])| == 2 * |a| + 1
    ensures Pair(a, b)[|a|] == 0 && forall i :: 0 <= i < |a| ==> Pair(a, b)[i] == 1
    ensures Pair(a, b)[|a| + 1..2 * |a| + 1] == a
  {
  }

  lemma FirstZero(m: Bytes, i: nat, j: nat)
    requires i < |m| && j < |m| && m[i] == 0 && m[j] == 0
    requires (forall k :: 0 <= k < i ==> m[k] == 1) && (forall k :: 0 <= k < j ==> m[k] == 1)
    ensures i == j
  {
  }

  lemma BehindPair(a: Bytes, a': Bytes, b: Bytes)
    ensures Behind(a', Pair(a, b)) == if a == a' then Some(b) else None
  {
    var front, whole := Pair(a', []), Pair(a, b);
    PairFront(a, b);
    PairFront(a', []);
    if |front| <= |whole| && whole[..|front|] == front {
      assert forall i :: 0 <= i <= |a'| ==> whole[i] == front[i];
      FirstZero(whole, |a|, |a'|);
      assert a == whole[..|front|][|a| + 1..2 * |a| + 1] == front[|a| + 1..2 * |a| + 1] == a';
    }
  }

  lemma PairInjective(a: Bytes, b: Bytes, a': Bytes, b': Bytes)
    requires Pair(a, b) == Pair(a', b')
    ensures a == a' && b == b'
  {
    BehindPair(a, a', b);
    BehindPair(a', a', b');
  }

  // ------------------------------------------------------------- Double Ratchet

  /** A sealed text with everything it was sealed with in front. */
  function Sealed(k: Bytes, n: Bytes, ad: Bytes, p: Bytes): Bytes {
    Pair(k, Pair(n, Pair(ad, p)))
  }

  function Unsealed(k: Bytes, n: Bytes, ad: Bytes, x: Bytes): Option<Bytes> {
    match Behind(k, x)
    case None => None
    case Some(y) =>
      match Behind(n, y)
      case None => None
      case Some(z) => Behind(ad, z)
  }

  lemma BehindIs(a: Bytes, m: Bytes)
    ensures Behind(a, m).Some? ==> m == Pair(a, Behind(a, m).value)
  {
    if Behind(a, m).Some? {
      PairFront(a, Behind(a, m).value);
      assert m == m[..|Pair(a, [])|] + m[|Pair(a, [])|..];
    }
  }

  lemma UnsealedIs(k: Bytes, n: Bytes, ad: Bytes, x: Bytes)
    ensures Unsealed(k, n, ad, x).Some? ==> x == Sealed(k, n, ad, Unsealed(k, n, ad, x).value)
  {
    BehindIs(k, x);
    if Behind(k, x).Some? {
      BehindIs(n, Behind(k, x).value);
      if Behind(n, Behind(k, x).value).Some? {
        BehindIs(ad, Behind(n, Behind(k, x).value).value);
      }
    }
  }

  lemma UnsealedSealed(k: Bytes, n: Bytes, ad: Bytes, p: Bytes, k': Bytes, n': Bytes, ad': Bytes)
    ensures Unsealed(k', n', ad', Sealed(k, n, ad, p)) == if k' == k && n' == n && ad' == ad then Some(p) else None
  {
    BehindPair(k, k', Pair(n, Pair(ad, p)));
    BehindPair(n, n', Pair(ad, p));
    BehindPair(ad, ad', p);
  }

  /** Every derivation writes down its inputs behind a tag of its own. */
  const RATCHET: Ratchet.Suite := Ratchet.Suite(
    k => [0] + k, (a, b) => [], (r, d) => [1] + Pair(r, d), (r, d) => [2] + Pair(r, d), k => [3] + k, k => [4] + k,
    (k, n, ad, p) => Sealed(k, n, ad, p), (k, n, ad, x) => Unsealed(k, n, ad, x))

  lemma TagInjective(tag: Byte, x: Bytes, y: Bytes)
    requires [tag] + x == [tag] + y
    ensures x == y
  {
    assert ([tag] + x)[1..] == x && ([tag] + y)[1..] == y;
  }

  lemma RatchetAssumptionsHold(secret: Bytes)
    requires secret == [] || secret[0] != 1
    ensures Ratchet.Sound(RATCHET) && RatchetSecrecy.CollisionFree(RATCHET, secret)
    ensures RatchetAuthenticity.Authenticating(RATCHET)
  {
    var c := RATCHET;
    forall k: Bytes, n: Bytes, ad: Bytes, p: Bytes, k': Bytes, n': Bytes, ad': Bytes
      ensures c.Open(k', n', ad', c.Seal(k, n, ad, p)) == if k' == k && n' == n && ad' == ad then Some(p) else None
    {
      UnsealedSealed(k, n, ad, p, k', n', ad');
    }
    forall k: Bytes, n: Bytes, ad: Bytes, x: Bytes
      ensures c.Open(k, n, ad, x).Some? ==> x == c.Seal(k, n, ad, c.Open(k, n, ad, x).value)
    {
      UnsealedIs(k, n, ad, x);
    }
    forall r: Bytes, d: Bytes, r': Bytes, d': Bytes
      ensures c.RootStep(r, d) == c.RootStep(r', d') ==> r == r' && d == d'
      ensures c.RootChain(r, d) == c.RootChain(r', d') ==> r == r' && d == d'
    {
      if Pair(r, d) == Pair(r', d') {
        PairInjective(r, d, r', d');
      } else {
        Tagged(1, Pair(r, d), Pair(r', d'));
        Tagged(2, Pair(r, d), Pair(r', d'));
      }
    }
    forall k: Bytes, k': Bytes
      ensures c.ChainStep(k) == c.ChainStep(k') ==> k == k'
      ensures c.MessageKey(k) == c.MessageKey(k') ==> k == k'
    {
      Tagged(3, k, k');
      Tagged(4, k, k');
    }
    forall r: Bytes, d: Bytes, k: Bytes ensures c.RootChain(r, d) != c.ChainStep(k) {
      assert c.RootChain(r, d)[0] == 2 && c.ChainStep(k)[0] == 3;
    }
    forall r: Bytes, d: Bytes ensures c.RootStep(r, d) != secret {
      assert c.RootStep(r, d)[0] == 1;
    }
  }

  lemma Tagged(tag: Byte, x: Bytes, y: Bytes)
    ensures [tag] + x == [tag] + y <==> x == y
  {
    if [tag] + x == [tag] + y {
      TagInjective(tag, x, y);
    }
  }

  // ---------------------------------------------------------------- onion routing

  /** A number for each byte string, and no two the same. */
  function Value(b: Bytes): nat {
    if b == [] then 0 else Value(b[..|b| - 1]) * 257 + b[|b| - 1] + 1
  }

  lemma {:induction false} ValueInjective(a: Bytes, b: Bytes)
    requires Value(a) == Value(b)
    ensures a == b
  {
    if a != [] && b != [] {
      ValueInjective(a[..|a| - 1], b[..|b| - 1]);
      assert a == a[..|a| - 1] + [a[|a| - 1]] && b == b[..|b| - 1] + [b[|b| - 1]];
    }
  }

  function TextBytes(s: string): Bytes {
    if s == "" then [] else
      var n := s[0] as int;
      [n / 65536, n / 256 % 256, n % 256] + TextBytes(s[1..])
  }

  lemma {:induction false} TextInjective(s: string, t: string)
    requires TextBytes(s) == TextBytes(t)
    ensures s == t
  {
    if s != "" && t != "" {
      var m, n := s[0] as int, t[0] as int;
      assert TextBytes(s)[0] == m / 65536 && TextBytes(s)[1] == m / 256 % 256 && TextBytes(s)[2] == m % 256;
      assert TextBytes(t)[0] == n / 65536 && TextBytes(t)[1] == n / 256 % 256 && TextBytes(t)[2] == n % 256;
      assert TextBytes(s)[3..] == TextBytes(s[1..]) && TextBytes(t)[3..] == TextBytes(t[1..]);
      TextInjective(s[1..], t[1..]);
      assert s == [s[0]] + s[1..] && t == [t[0]] + t[1..];
    }
  }

  function PeerBytes(p: Option<string>): Bytes {
    match p
    case None => []
    case Some(id) => [0] + TextBytes(id)
  }

  function LayerBytes(l: Onion.Layer): Bytes {
    match l
    case Final(destination, message) => [0] + Pair(TextBytes(destination), TextBytes(message))
    case Hop(nextHop, peer, isExit, e) =>
      [1] + Pair(TextBytes(nextHop), Pair(PeerBytes(peer), Pair([if isExit then 1 else 0],
              Pair(TextBytes(e.ephemeralPublicKey), Pair(TextBytes(e.nonce), TextBytes(e.ciphertext))))))
    case Unknown => []
  }

  lemma PeerInjective(p: Option<string>, q: Option<string>)
    requires PeerBytes(p) == PeerBytes(q)
    ensures p == q
  {
    if p.Some? && q.Some? {
      TagInjective(0, TextBytes(p.value), TextBytes(q.value));
      TextInjective(p.value, q.value);
    }
  }

  lemma TextPairInjective(s: string, b: Bytes, s': string, b': Bytes)
    requires Pair(TextBytes(s), b) == Pair(TextBytes(s'), b')
    ensures s == s' && b == b'
  {
    PairInjective(TextBytes(s), b, TextBytes(s'), b');
    TextInjective(s, s');
  }

  lemma LayerInjective(l: Onion.Layer, m: Onion.Layer)
    requires LayerBytes(l) == LayerBytes(m)
    ensures l == m
  {
    match (l, m)
    case (Final(d, t), Final(d', t')) =>
      TagInjective(0, Pair(TextBytes(d), TextBytes(t)), Pair(TextBytes(d'), TextBytes(t')));
      TextPairInjective(d, TextBytes(t), d', TextBytes(t'));
      TextInjective(t, t');
    case (Hop(n, p, x, e), Hop(n', p', x', e')) =>
      HopInjective(n, p, x, e, n', p', x', e');
    case _ =>
      LayerTag(l);
      LayerTag(m);
  }

  lemma LayerTag(l: Onion.Layer)
    ensures match l
            case Unknown => LayerBytes(l) == []
            case Final(_, _) => LayerBytes(l) != [] && LayerBytes(l)[0] == 0
            case Hop(_, _, _, _) => LayerBytes(l) != [] && LayerBytes(l)[0] == 1
  {
  }

  lemma HopInjective(n: string, p: Option<string>, x: bool, e: Onion.Encrypted,
                     n': string, p': Option<string>, x': bool, e': Onion.Encrypted)
    requires LayerBytes(Onion.Hop(n, p, x, e)) == LayerBytes(Onion.Hop(n', p', x', e'))
    ensures n == n' && p == p' && x == x' && e == e'
  {
    var a, a' := Pair(TextBytes(e.nonce), TextBytes(e.ciphertext)), Pair(TextBytes(e'.nonce), TextBytes(e'.ciphertext));
    var b, b' := Pair(TextBytes(e.ephemeralPublicKey), a), Pair(TextBytes(e'.ephemeralPublicKey), a');
    var d, d' := Pair([if x then 1 else 0], b), Pair([if x' then 1 else 0], b');
    var f, f' := Pair(PeerBytes(p), d), Pair(PeerBytes(p'), d');
    TagInjective(1, Pair(TextBytes(n), f), Pair(TextBytes(n'), f'));
    TextPairInjective(n, f, n', f');
    PairInjective(PeerBytes(p), d, PeerBytes(p'), d');
    PeerInjective(p, p');
    PairInjective([if x then 1 else 0], b, [if x' then 1 else 0], b');
    assert [if x then 1 else 0][0] == [if x' then 1 else 0][0];
    TextPairInjective(e.ephemeralPublicKey, a, e'.ephemeralPublicKey, a');
    TextPairInjective(e.nonce, TextBytes(e.ciphertext), e'.nonce, TextBytes(e'.ciphertext));
    TextInjective(e.ciphertext, e'.ciphertext);
  }

  ghost function LayerOf(b: Bytes): Option<Onion.Layer> {
    if l: Onion.Layer :| LayerBytes(l) == b then Some(l) else None
  }

  /** A shared secret is the sum of the two keys' values, in unary; a sealed text has its key in front. */
  ghost const ONION: Onion.Suite := Onion.Suite(
    k => k, (a, b) => Ones(Value(a) + Value(b)), d => d, (k, n, p) => Pair(k, p), (k, n, m) => Behind(k, m),
    l => LayerBytes(l), b => LayerOf(b))

  lemma OnionOpens(k: Bytes, k': Bytes, n: Bytes, p: Bytes)
    ensures ONION.Open(k', n, ONION.Seal(k, n, p)) == if k == k' then Some(p) else None
  {
    BehindPair(k, k', p);
  }

  lemma OnionShares(a: Bytes, b: Bytes, e: Bytes)
    ensures ONION.Dh(a, e) == ONION.Dh(e, a) && (ONION.Dh(a, e) == ONION.Dh(b, e) ==> a == b)
  {
    if ONION.Dh(a, e) == ONION.Dh(b, e) {
      assert |Ones(Value(a) + Value(e))| == |Ones(Value(b) + Value(e))|;
      ValueInjective(a, b);
    }
  }

  lemma OnionReads(l: Onion.Layer)
    ensures ONION.Read(ONION.Write(l)) == Some(l)
  {
    LayerInjective(l, LayerOf(LayerBytes(l)).value);
  }

  lemma OnionAssumptionsHold()
    ensures Onion.Sound(ONION) && Onion.Exclusive(ONION)
  {
    forall k: Bytes, k': Bytes, n: Bytes, p: Bytes
      ensures ONION.Open(k', n, ONION.Seal(k, n, p)) == if k == k' then Some(p) else None
    {
      OnionOpens(k, k', n, p);
    }
    forall l: Onion.Layer ensures ONION.Read(ONION.Write(l)) == Some(l) {
      OnionReads(l);
    }
    forall a: Bytes, b: Bytes, e: Bytes
      ensures ONION.Dh(a, e) == ONION.Dh(e, a) && (ONION.Dh(a, e) == ONION.Dh(b, e) ==> a == b)
    {
      OnionShares(a, b, e);
    }
  }
}
