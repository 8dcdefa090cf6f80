/** Single use of message keys and forward secrecy, for key derivation without collisions. */
module RatchetSecrecy {
  import opened Encoding
  import opened Ratchet
  import opened RatchetProtocol
  import opened RatchetRuns
  import opened RatchetTheorems

  /** The derivation functions behave as free constructors: different inputs give different outputs, a
      chain never runs into the start of a chain, and the shared secret is not itself a derived root key. */
  ghost predicate CollisionFree(c: Suite, secret: Bytes) {
    && (forall r: Bytes, d: Bytes, r': Bytes, d': Bytes ::
          c.RootStep(r, d) == c.RootStep(r', d') ==> r == r' && d == d')
    && (forall r: Bytes, d: Bytes, r': Bytes, d': Bytes ::
          c.RootChain(r, d) == c.RootChain(r', d') ==> r == r' && d == d')
    && (forall k: Bytes, k': Bytes :: c.ChainStep(k) == c.ChainStep(k') ==> k == k')
    && (forall k: Bytes, k': Bytes :: c.MessageKey(k) == c.MessageKey(k') ==> k == k')
    && (forall r: Bytes, d: Bytes, k: Bytes :: c.RootChain(r, d) != c.ChainStep(k))
    && (forall r: Bytes, d: Bytes :: c.RootStep(r, d) != secret)
  }

  // ------------------------------------------------------- no two keys collide

  /** A key that some root step handed out as the start of a chain. */
  ghost predicate IsStart(c: Suite, k: Bytes) {
    exists r: Bytes, d: Bytes :: k == c.RootChain(r, d)
  }

  lemma {:induction false} ChainInjective(c: Suite, secret: Bytes, a: Bytes, m: nat, b: Bytes, n: nat)
    requires CollisionFree(c, secret) && IsStart(c, a) && IsStart(c, b)
    requires Chain(c, a, m) == Chain(c, b, n)
    ensures a == b && m == n
  {
    if m > 0 && n > 0 {
      ChainInjective(c, secret, a, m - 1, b, n - 1);
    }
  }

  lemma {:induction false} RootInjective(c: Suite, secret: Bytes, keys: seq<Bytes>, i: nat, j: nat)
    requires CollisionFree(c, secret) && i < |keys| && j < |keys|
    requires Root(c, secret, keys, i) == Root(c, secret, keys, j)
    ensures i == j
  {
    if i > 0 && j > 0 {
      RootInjective(c, secret, keys, i - 1, j - 1);
    }
  }

  lemma StartInjective(c: Suite, secret: Bytes, keys: seq<Bytes>, i: nat, j: nat)
    requires CollisionFree(c, secret) && 1 <= i < |keys| && 1 <= j < |keys|
    requires ChainStart(c, secret, keys, i) == ChainStart(c, secret, keys, j)
    ensures i == j
  {
    RootInjective(c, secret, keys, i - 1, j - 1);
  }

  /** Different messages have different keys. */
  lemma KeysDiffer(c: Suite, h: History, a: Id, b: Id)
    requires CollisionFree(c, h.secret) && 1 <= a.chain < |h.keys| && 1 <= b.chain < |h.keys|
    requires KeyOf(c, h, a) == KeyOf(c, h, b)
    ensures a == b
  {
    var s, t := ChainStart(c, h.secret, h.keys, a.chain), ChainStart(c, h.secret, h.keys, b.chain);
    assert IsStart(c, s) && IsStart(c, t);
    assert Chain(c, s, a.number) == Chain(c, t, b.number);
    ChainInjective(c, h.secret, s, a.number, t, b.number);
    StartInjective(c, h.secret, h.keys, a.chain, b.chain);
  }

  // ------------------------------------------------- the keys a run encrypts with

  /** The key that a send in this state seals with, if any. */
  function KeyNow(c: Suite, s: State): seq<Bytes> {
    if s.CKs.Some? && s.DHs.Some? then [c.MessageKey(s.CKs.value)] else []
  }

  /** The message key of every successful encrypt call, in the order of the calls. */
  ghost function KeysUsed(c: Suite, cfg: Config, events: seq<Event>): seq<Bytes> {
    if events == [] then []
    else
      var before, e := events[..|events| - 1], events[|events| - 1];
      var w := Run(c, cfg, before);
      KeysUsed(c, cfg, before) + if e.Send? then KeyNow(c, w.Party(e.byBob)) else []
  }

  ghost predicate Labelled(c: Suite, h: History, used: seq<Bytes>) {
    && |used| == |h.ids|
    && (forall i :: 0 <= i < |used| ==> IdOk(h, h.ids[i]) && used[i] == KeyOf(c, h, h.ids[i]))
  }

  lemma LabelledLonger(c: Suite, h: History, g: History, used: seq<Bytes>)
    requires Labelled(c, h, used) && h.keys <= g.keys && |h.lens| <= |g.lens| == |g.keys| && h.secret == g.secret
    requires h.ids == g.ids && forall i :: 0 <= i < |h.lens| ==> h.lens[i] <= g.lens[i]
    ensures Labelled(c, g, used)
  {
    forall i | 0 <= i < |used| ensures IdOk(g, g.ids[i]) && used[i] == KeyOf(c, g, g.ids[i]) {
      assert IdOk(h, h.ids[i]);
      KeyPrefix(c, h, g, h.ids[i]);
    }
  }

  lemma LabelledSend(c: Suite, h: History, s: State, p: nat, used: seq<Bytes>)
    requires HistoryOk(c, h) && Labelled(c, h, used) && 1 <= p < |h.keys| && ChainsOk(c, h, s, p)
    ensures Labelled(c, Sent(h, p), used + [c.MessageKey(s.CKs.value)])
  {
    var g := Sent(h, p);
    var id := Id(p, h.lens[p]);
    forall i | 0 <= i < |used| ensures IdOk(g, g.ids[i]) && used[i] == KeyOf(c, g, g.ids[i]) {
      assert IdOk(h, h.ids[i]) && g.ids[i] == h.ids[i];
      KeyPrefix(c, h, g, h.ids[i]);
    }
    KeyPrefix(c, h, g, id);
    assert g.ids[|used|] == id && c.MessageKey(s.CKs.value) == KeyOf(c, h, id);
  }

  ghost predicate ExplainsKeys(c: Suite, cfg: Config, events: seq<Event>, h: History) {
    Explains(c, cfg, events, h) && Labelled(c, h, KeysUsed(c, cfg, events))
  }

  lemma LabelledBy(c: Suite, h: History, s: State, p: nat, used: seq<Bytes>, g: History)
    requires HistoryOk(c, h) && p < |h.keys| && ChainsOk(c, h, s, p) && Labelled(c, h, used)
    requires g == if p > 0 then Sent(h, p) else h
    ensures Labelled(c, g, used + KeyNow(c, s))
  {
    if p > 0 {
      LabelledSend(c, h, s, p, used);
    } else {
      assert used + [] == used;
    }
  }

  lemma SenderChains(c: Suite, w: World, h: History, isBob: bool, p: nat)
    requires WorldOk(c, w, h) && p == Position(h, isBob)
    ensures HistoryOk(c, h) && p < |h.keys| && ChainsOk(c, h, w.Party(isBob), p)
  {
    Parities(h, isBob);
  }

  lemma LabelledStep(c: Suite, w: World, h: History, e: Event, used: seq<Bytes>)
    requires WorldOk(c, w, h) && Labelled(c, h, used)
    ensures Labelled(c, HistoryStep(c, w, h, e), used + if e.Send? then KeyNow(c, w.Party(e.byBob)) else [])
  {
    if e.Send? {
      var p := Position(h, e.byBob);
      SenderChains(c, w, h, e.byBob, p);
      LabelledBy(c, h, w.Party(e.byBob), p, used, HistoryStep(c, w, h, e));
    } else {
      assert used + [] == used;
      LabelledLonger(c, h, HistoryStep(c, w, h, e), used);
    }
  }

  lemma {:induction false} ReachableKeys(c: Suite, cfg: Config, events: seq<Event>)
    requires Sound(c) && Honest(c, cfg, events)
    ensures exists h :: ExplainsKeys(c, cfg, events, h)
  {
    if events == [] {
      StartExplains(c, cfg);
      assert ExplainsKeys(c, cfg, events, StartHistory(cfg));
    } else {
      var before, e := events[..|events| - 1], events[|events| - 1];
      HonestPrefix(c, cfg, events);
      ReachableKeys(c, cfg, before);
      var h :| ExplainsKeys(c, cfg, before, h);
      var g := HistoryStep(c, Run(c, cfg, before), h, e);
      StepExplains(c, cfg, events, h, g);
      LabelledStep(c, Run(c, cfg, before), h, e, KeysUsed(c, cfg, before));
      assert ExplainsKeys(c, cfg, events, g);
    }
  }

  /** Over any run, no two encrypt calls, by either party, use the same message key. */
  lemma SingleUse(c: Suite, cfg: Config, events: seq<Event>, i: nat, j: nat)
    requires Sound(c) && CollisionFree(c, cfg.secret) && Honest(c, cfg, events)
    requires i < j < |KeysUsed(c, cfg, events)|
    ensures KeysUsed(c, cfg, events)[i] != KeysUsed(c, cfg, events)[j]
  {
    ReachableKeys(c, cfg, events);
    var h :| ExplainsKeys(c, cfg, events, h);
    assert h.ids[i] != h.ids[j];
    if KeyOf(c, h, h.ids[i]) == KeyOf(c, h, h.ids[j]) {
      KeysDiffer(c, h, h.ids[i], h.ids[j]);
    }
  }

  /** The i-th key used is the one that seals the i-th letter. */
  lemma SealedUnder(c: Suite, cfg: Config, events: seq<Event>, i: nat)
    requires Sound(c) && Honest(c, cfg, events) && i < |Run(c, cfg, events).letters|
    ensures |KeysUsed(c, cfg, events)| == |Run(c, cfg, events).letters|
    ensures var l := Run(c, cfg, events).letters[i];
            FromBase64(l.message.ciphertext)
            == c.Seal(KeysUsed(c, cfg, events)[i], FromBase64(l.message.nonce), l.ad, l.plaintext)
  {
    ReachableKeys(c, cfg, events);
    var h :| ExplainsKeys(c, cfg, events, h);
    assert LetterOk(c, h, Run(c, cfg, events).letters[i], h.ids[i]);
  }

  // ------------------------------------------------------------ forward secrecy

  /** The root key after root steps with any Diffie-Hellman outputs. */
  function RootFrom(c: Suite, rk: Bytes, ds: seq<Bytes>): Bytes {
    if ds == [] then rk else c.RootStep(RootFrom(c, rk, ds[..|ds| - 1]), ds[|ds| - 1])
  }

  /** Keys obtained from a chain key by stepping the chain on. */
  ghost predicate ChainGives(c: Suite, ck: Bytes, key: Bytes) {
    exists n: nat :: key == c.MessageKey(Chain(c, ck, n))
  }

  /** Keys obtained from a root key by root steps with any Diffie-Hellman outputs, then a chain. */
  ghost predicate RootGives(c: Suite, rk: Bytes, key: Bytes) {
    exists ds: seq<Bytes>, d: Bytes :: ChainGives(c, c.RootChain(RootFrom(c, rk, ds), d), key)
  }

  /** Everything that forward steps reach from what a session stores. */
  ghost predicate Derivable(c: Suite, s: State, key: Bytes) {
    || key in s.MKSKIPPED.Values
    || (s.CKs.Some? && ChainGives(c, s.CKs.value, key))
    || (s.CKr.Some? && ChainGives(c, s.CKr.value, key))
    || (s.RK.Some? && RootGives(c, s.RK.value, key))
  }

  lemma {:induction false} ChainSum(c: Suite, k: Bytes, m: nat, n: nat)
    ensures Chain(c, Chain(c, k, m), n) == Chain(c, k, m + n)
  {
    if n > 0 {
      ChainSum(c, k, m, n - 1);
    }
  }

  /** Root steps never lead back. */
  lemma {:induction false} NoWayBack(c: Suite, secret: Bytes, keys: seq<Bytes>, p: nat, ds: seq<Bytes>, j: nat)
    requires CollisionFree(c, secret) && p < |keys| && j < |keys|
    requires RootFrom(c, Root(c, secret, keys, p), ds) == Root(c, secret, keys, j)
    ensures p <= j
    decreases j
  {
    if ds == [] {
      RootInjective(c, secret, keys, p, j);
    } else if j > 0 {
      NoWayBack(c, secret, keys, p, ds[..|ds| - 1], j - 1);
    }
  }

  lemma NotFromChain(c: Suite, h: History, q: nat, from: nat, id: Id)
    requires CollisionFree(c, h.secret) && 1 <= id.chain < |h.keys| && 1 <= q < |h.keys|
    requires q == id.chain ==> id.number < from
    ensures !ChainGives(c, Chain(c, ChainStart(c, h.secret, h.keys, q), from), KeyOf(c, h, id))
  {
    var start := ChainStart(c, h.secret, h.keys, q);
    forall n: nat ensures KeyOf(c, h, id) != c.MessageKey(Chain(c, Chain(c, start, from), n)) {
      ChainSum(c, start, from, n);
      if KeyOf(c, h, id) == KeyOf(c, h, Id(q, from + n)) {
        KeysDiffer(c, h, id, Id(q, from + n));
      }
    }
  }

  lemma NotFromRoot(c: Suite, h: History, p: nat, id: Id)
    requires CollisionFree(c, h.secret) && 1 <= id.chain <= p < |h.keys|
    ensures !RootGives(c, Root(c, h.secret, h.keys, p), KeyOf(c, h, id))
  {
    var rk := Root(c, h.secret, h.keys, p);
    var start := ChainStart(c, h.secret, h.keys, id.chain);
    forall ds: seq<Bytes>, d: Bytes, n: nat
      ensures KeyOf(c, h, id) != c.MessageKey(Chain(c, c.RootChain(RootFrom(c, rk, ds), d), n))
    {
      var other := c.RootChain(RootFrom(c, rk, ds), d);
      if Chain(c, start, id.number) == Chain(c, other, n) {
        assert IsStart(c, start) && IsStart(c, other);
        ChainInjective(c, h.secret, start, id.number, other, n);
        NoWayBack(c, h.secret, h.keys, p, ds, id.chain - 1);
        assert false;
      }
    }
  }

  lemma NotStoredKey(c: Suite, h: History, s: State, p: nat, id: Id)
    requires CollisionFree(c, h.secret) && HistoryOk(c, h) && p < |h.keys| && PartyOk(c, h, s, p)
    requires 1 <= id.chain < |h.keys| && id !in Pending(h, p, s.Nr)
    ensures KeyOf(c, h, id) !in s.MKSKIPPED.Values
  {
    forall k | k in s.MKSKIPPED ensures s.MKSKIPPED[k] != KeyOf(c, h, id) {
      var x :| x in Pending(h, p, s.Nr) && k == Slots(c, h)(x);
      assert s.MKSKIPPED[k] == KeyOf(c, h, x);
      if KeyOf(c, h, x) == KeyOf(c, h, id) {
        KeysDiffer(c, h, x, id);
      }
    }
  }

  lemma KeyIsGone(c: Suite, h: History, s: State, p: nat, id: Id)
    requires CollisionFree(c, h.secret) && HistoryOk(c, h) && p < |h.keys| && PartyOk(c, h, s, p)
    requires 1 <= id.chain <= p && id !in Pending(h, p, s.Nr)
    requires (id.chain == p ==> id.number < h.lens[p]) && (id.chain == p - 1 ==> id.number < s.Nr)
    ensures !Derivable(c, s, KeyOf(c, h, id))
  {
    NotStoredKey(c, h, s, p, id);
    NotFromRoot(c, h, p, id);
    NotFromChain(c, h, p, h.lens[p], id);
    if p >= 2 {
      NotFromChain(c, h, p - 1, s.Nr, id);
    }
  }

  lemma UsedIsSettled(c: Suite, w: World, h: History, isBob: bool, i: nat, s: State, p: nat, id: Id)
    requires WorldOk(c, w, h) && i < |w.letters| && (w.letters[i].toBob != isBob || w.letters[i].status == Read)
    requires s == w.Party(isBob) && p == Position(h, isBob) && id == h.ids[i]
    ensures 1 <= id.chain <= p && id !in Pending(h, p, s.Nr)
    ensures (id.chain == p ==> id.number < h.lens[p]) && (id.chain == p - 1 ==> id.number < s.Nr)
  {
    Parities(h, isBob);
    assert PartyOk(c, h, s, p) && LetterOk(c, h, w.letters[i], id) && IdOk(h, id);
    if w.letters[i].toBob != isBob {
      assert IsBobs(id.chain) == IsBobs(p);
      OtherParity(p, id.chain);
    } else {
      assert id in h.read && IsBobs(id.chain) != IsBobs(p);
    }
  }

  lemma OtherParity(p: nat, chain: nat)
    requires IsBobs(chain) == IsBobs(p)
    ensures chain != p + 1 && chain + 1 != p
  {
  }

  lemma UsedKeyIsGone(c: Suite, w: World, h: History, isBob: bool, i: nat)
    requires CollisionFree(c, h.secret) && WorldOk(c, w, h) && i < |w.letters|
    requires w.letters[i].toBob != isBob || w.letters[i].status == Read
    ensures !Derivable(c, w.Party(isBob), KeyOf(c, h, h.ids[i]))
  {
    var p := Position(h, isBob);
    assert PartyOk(c, h, w.Party(isBob), p) && p < |h.keys| by {
      Parities(h, isBob);
    }
    UsedIsSettled(c, w, h, isBob, i, w.Party(isBob), p, h.ids[i]);
    KeyIsGone(c, h, w.Party(isBob), p, h.ids[i]);
  }

  /** Once a party has encrypted or decrypted with a key, nothing it still stores leads to that key:
      the i-th letter's key is gone from its sender at once, and from its receiver when it is read. */
  lemma ForwardSecrecy(c: Suite, cfg: Config, events: seq<Event>, isBob: bool, i: nat)
    requires Sound(c) && CollisionFree(c, cfg.secret) && Honest(c, cfg, events)
    requires i < |Run(c, cfg, events).letters|
    requires Run(c, cfg, events).letters[i].toBob != isBob || Run(c, cfg, events).letters[i].status == Read
    ensures i < |KeysUsed(c, cfg, events)|
         && !Derivable(c, Run(c, cfg, events).Party(isBob), KeysUsed(c, cfg, events)[i])
  {
    ReachableKeys(c, cfg, events);
    var h :| ExplainsKeys(c, cfg, events, h);
    UsedKeyIsGone(c, Run(c, cfg, events), h, isBob, i);
  }
}
