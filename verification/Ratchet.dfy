/** Values and specification functions of the Double Ratchet. The cryptographic primitives are
    parameters: a `Suite` gives them as functions on byte strings, and what is assumed of them is
    written out in `Sound` and `CollisionFree`. */
module Ratchet {
  import opened Options
  import opened Encoding

  datatype Result<+T> = Ok(value: T) | Err(error: Error)

  datatype Error =
    | TooManySkipped      // a skip guard fired
    | NoSendingChain      // nothing to encrypt with yet
    | NoReceivingChain    // nothing to decrypt with yet
    | NotInitialised      // a ratchet step on a session without keys
    | AuthenticationFailed

  const MAX_SKIP: nat := 100

  datatype Suite = Suite(
    PublicKey: Bytes -> Bytes,                           // X25519 base point multiplication
    Dh: (Bytes, Bytes) -> Bytes,                         // X25519: private key, public key
    RootStep: (Bytes, Bytes) -> Bytes,                   // first half of kdfRK: root key, dh output
    RootChain: (Bytes, Bytes) -> Bytes,                  // second half of kdfRK
    ChainStep: Bytes -> Bytes,                           // kdfCK, the next chain key
    MessageKey: Bytes -> Bytes,                          // kdfCK, the message key
    Seal: (Bytes, Bytes, Bytes, Bytes) -> Bytes,         // AEAD: key, nonce, associated data, plaintext
    Open: (Bytes, Bytes, Bytes, Bytes) -> Option<Bytes>) // AEAD: key, nonce, associated data, ciphertext

  /** Diffie-Hellman commutes, the AEAD opens what it sealed, and derived keys are not empty. */
  ghost predicate Sound(c: Suite) {
    && (forall a: Bytes, b: Bytes {:trigger c.Dh(a, c.PublicKey(b))} ::
          c.Dh(a, c.PublicKey(b)) == c.Dh(b, c.PublicKey(a)))
    && (forall k: Bytes, n: Bytes, ad: Bytes, p: Bytes :: c.Open(k, n, ad, c.Seal(k, n, ad, p)) == Some(p))
    && (forall k: Bytes :: c.PublicKey(k) != [] && c.ChainStep(k) != [] && c.MessageKey(k) != [])
    && (forall r: Bytes, d: Bytes :: c.RootStep(r, d) != [] && c.RootChain(r, d) != [])
  }

  datatype KeyPair = KeyPair(privateKey: Bytes, publicKey: Bytes)

  datatype State = State(
    DHs: Option<KeyPair>, DHr: Option<Bytes>, RK: Option<Bytes>, CKs: Option<Bytes>, CKr: Option<Bytes>,
    Ns: nat, Nr: nat, PN: nat, MKSKIPPED: map<string, Bytes>)

  const EMPTY_STATE := State(None, None, None, None, None, 0, 0, 0, map[])

  datatype Header = Header(dhPublicKey: Bytes, previousCounter: nat, messageNumber: nat)
  datatype Message = Message(header: Header, nonce: string, ciphertext: string)

  /** What every operation of a session keeps, a failing one included: a receiving chain has a
      remote key and a sending chain has an own key. */
  predicate Coherent(s: State) {
    && (s.CKr.Some? ==> s.DHr.Some?)
    && (s.CKs.Some? ==> s.DHs.Some?)
  }

  // ------------------------------------------------------------ operations

  function SkipKey(publicKey: Bytes, n: nat): string {
    Base64(publicKey) + ":" + Decimal(n)
  }

  function InitInitiator(c: Suite, s: State, sharedSecret: Bytes, remotePublicKey: Bytes, draw: Bytes): State {
    var d := c.Dh(draw, remotePublicKey);
    State(Some(KeyPair(draw, c.PublicKey(draw))), Some(remotePublicKey), Some(c.RootStep(sharedSecret, d)),
          Some(c.RootChain(sharedSecret, d)), None, 0, 0, 0, s.MKSKIPPED)
  }

  function InitResponder(s: State, sharedSecret: Bytes, ourKeyPair: KeyPair): State {
    State(Some(ourKeyPair), None, Some(sharedSecret), None, None, 0, 0, 0, s.MKSKIPPED)
  }

  function Encrypt(c: Suite, s: State, plaintext: Bytes, ad: Bytes, nonce: Bytes): (State, Result<Message>) {
    if s.CKs.None? || s.DHs.None? then (s, Err(NoSendingChain))
    else
      var key := c.MessageKey(s.CKs.value);
      (s.(CKs := Some(c.ChainStep(s.CKs.value)), Ns := s.Ns + 1),
       Ok(Message(Header(s.DHs.value.publicKey, s.PN, s.Ns),
                  Base64(nonce), Base64(c.Seal(key, nonce, ad, plaintext)))))
  }

  /** One round of the skipping loop. */
  function SkipOne(c: Suite, s: State): State
    requires s.CKr.Some? && s.DHr.Some?
  {
    s.(CKr := Some(c.ChainStep(s.CKr.value)),
       MKSKIPPED := s.MKSKIPPED[SkipKey(s.DHr.value, s.Nr) := c.MessageKey(s.CKr.value)],
       Nr := s.Nr + 1)
  }

  function Skip(c: Suite, s: State, until: nat): State
    decreases until - s.Nr
  {
    if s.CKr.None? || s.DHr.None? || until <= s.Nr then s else Skip(c, SkipOne(c, s), until)
  }

  function SkipMessageKeys(c: Suite, s: State, until: nat): (State, Result<()>) {
    if s.Nr + MAX_SKIP < until then (s, Err(TooManySkipped)) else (Skip(c, s, until), Ok(()))
  }

  /** On a session without keys the counters and the remote key have changed before the failure. */
  function DhRatchet(c: Suite, s: State, theirs: Bytes, draw: Bytes): (State, Result<()>) {
    var t := s.(PN := s.Ns, Ns := 0, Nr := 0, DHr := Some(theirs));
    if s.DHs.None? || s.RK.None? then (t, Err(NotInitialised))
    else
      var d1 := c.Dh(s.DHs.value.privateKey, theirs);
      var rk1 := c.RootStep(s.RK.value, d1);
      var d2 := c.Dh(draw, theirs);
      (t.(CKr := Some(c.RootChain(s.RK.value, d1)), DHs := Some(KeyPair(draw, c.PublicKey(draw))),
          RK := Some(c.RootStep(rk1, d2)), CKs := Some(c.RootChain(rk1, d2))), Ok(()))
  }

  predicate NeedsRatchet(s: State, h: Header) {
    s.DHr.None? || h.dhPublicKey != s.DHr.value
  }

  function OpenWith(c: Suite, key: Bytes, m: Message, ad: Bytes): Result<Bytes> {
    match c.Open(key, FromBase64(m.nonce), ad, FromBase64(m.ciphertext))
    case Some(p) => Ok(p)
    case None => Err(AuthenticationFailed)
  }

  /** The path taken once the receiving chain is the message's own: skip, step, open. */
  function DecryptOnChain(c: Suite, s: State, m: Message, ad: Bytes): (State, Result<Bytes>) {
    var (t, skipped) := SkipMessageKeys(c, s, m.header.messageNumber);
    if skipped.Err? then (t, Err(skipped.error))
    else if t.CKr.None? then (t, Err(NoReceivingChain))
    else
      (t.(CKr := Some(c.ChainStep(t.CKr.value)), Nr := t.Nr + 1), OpenWith(c, c.MessageKey(t.CKr.value), m, ad))
  }

  function Decrypt(c: Suite, s: State, m: Message, ad: Bytes, draw: Bytes): (State, Result<Bytes>) {
    var slot := SkipKey(m.header.dhPublicKey, m.header.messageNumber);
    if slot in s.MKSKIPPED then
      (s.(MKSKIPPED := s.MKSKIPPED - {slot}), OpenWith(c, s.MKSKIPPED[slot], m, ad))
    else if !NeedsRatchet(s, m.header) then DecryptOnChain(c, s, m, ad)
    else
      var (t, skipped) := SkipMessageKeys(c, s, m.header.previousCounter);
      if skipped.Err? then (t, Err(skipped.error))
      else
        var (u, turned) := DhRatchet(c, t, m.header.dhPublicKey, draw);
        if turned.Err? then (u, Err(turned.error)) else DecryptOnChain(c, u, m, ad)
  }

  /** Read off the state and the header before the call: one of the two guards will fire. The second is
      not reached in a session without keys, which cannot turn its ratchet. */
  predicate GuardFires(s: State, h: Header) {
    && SkipKey(h.dhPublicKey, h.messageNumber) !in s.MKSKIPPED
    && if NeedsRatchet(s, h)
       then s.Nr + MAX_SKIP < h.previousCounter || (MAX_SKIP < h.messageNumber && s.DHs.Some? && s.RK.Some?)
       else s.Nr + MAX_SKIP < h.messageNumber
  }

  // ----------------------------------------------------- chains and the store

  /** The n-th key of a symmetric chain. */
  function Chain(c: Suite, start: Bytes, n: nat): Bytes {
    if n == 0 then start else c.ChainStep(Chain(c, start, n - 1))
  }

  lemma SkipKeyInjective(p: Bytes, m: nat, q: Bytes, n: nat)
    requires SkipKey(p, m) == SkipKey(q, n)
    ensures p == q && m == n
  {
    Base64NoColon(p);
    Base64NoColon(q);
    ColonSplit(Base64(p), Decimal(m), Base64(q), Decimal(n));
    Base64RoundTrip(p);
    Base64RoundTrip(q);
    DecimalRoundTrip(m);
    DecimalRoundTrip(n);
  }

  /** The store after the message keys number lo to hi-1 of a chain were put aside. */
  function Stash(c: Suite, m: map<string, Bytes>, publicKey: Bytes, start: Bytes, lo: nat, hi: nat): map<string, Bytes>
    decreases hi - lo
  {
    if hi <= lo then m
    else Stash(c, m[SkipKey(publicKey, lo) := c.MessageKey(Chain(c, start, lo))], publicKey, start, lo + 1, hi)
  }

  /** The loop's net effect, in closed form. */
  lemma {:induction false} SkipEffect(c: Suite, s: State, until: nat, start: Bytes)
    requires s.DHr.Some? && s.CKr == Some(Chain(c, start, s.Nr))
    ensures var last := if until <= s.Nr then s.Nr else until;
            Skip(c, s, until) == s.(CKr := Some(Chain(c, start, last)), Nr := last,
                                    MKSKIPPED := Stash(c, s.MKSKIPPED, s.DHr.value, start, s.Nr, until))
    decreases until - s.Nr
  {
    if s.Nr < until {
      SkipEffect(c, SkipOne(c, s), until, start);
    }
  }

  /** A skip terminates with at most `until - Nr` more entries, whatever the state. */
  lemma {:induction false} SkipGrowth(c: Suite, s: State, until: nat)
    ensures |Skip(c, s, until).MKSKIPPED| <= |s.MKSKIPPED| + (if until <= s.Nr then 0 else until - s.Nr)
    decreases until - s.Nr
  {
    if s.CKr.Some? && s.DHr.Some? && s.Nr < until {
      SkipGrowth(c, SkipOne(c, s), until);
      var k := SkipKey(s.DHr.value, s.Nr);
      assert SkipOne(c, s).MKSKIPPED.Keys == s.MKSKIPPED.Keys + {k};
    }
  }

  lemma OnChainGrowth(c: Suite, s: State, m: Message, ad: Bytes)
    ensures |DecryptOnChain(c, s, m, ad).0.MKSKIPPED| <= |s.MKSKIPPED| + MAX_SKIP
  {
    SkipGrowth(c, s, m.header.messageNumber);
  }

  /** One call of decrypt, on any state and any message, honest or not, stores at most 2 * MAX_SKIP keys. */
  lemma DecryptStoreBound(c: Suite, s: State, m: Message, ad: Bytes, draw: Bytes)
    ensures |Decrypt(c, s, m, ad, draw).0.MKSKIPPED| <= |s.MKSKIPPED| + 2 * MAX_SKIP
  {
    var slot := SkipKey(m.header.dhPublicKey, m.header.messageNumber);
    if slot in s.MKSKIPPED {
      assert (s.MKSKIPPED - {slot}).Keys == s.MKSKIPPED.Keys - {slot};
    } else {
      SkipGrowth(c, s, m.header.previousCounter);
      OnChainGrowth(c, s, m, ad);
      var t := SkipMessageKeys(c, s, m.header.previousCounter).0;
      OnChainGrowth(c, DhRatchet(c, t, m.header.dhPublicKey, draw).0, m, ad);
    }
  }

  /** In any state, decrypt refuses for skipping too far exactly when a guard is due. */
  lemma GuardExact(c: Suite, s: State, m: Message, ad: Bytes, draw: Bytes)
    ensures Decrypt(c, s, m, ad, draw).1 == Err(TooManySkipped) <==> GuardFires(s, m.header)
  {
    SkipKeepsKeys(c, s, m.header.previousCounter);
  }

  lemma {:induction false} SkipKeepsKeys(c: Suite, s: State, until: nat)
    ensures Skip(c, s, until).DHs == s.DHs && Skip(c, s, until).RK == s.RK
    decreases until - s.Nr
  {
    if s.CKr.Some? && s.DHr.Some? && s.Nr < until {
      SkipKeepsKeys(c, SkipOne(c, s), until);
    }
  }

  lemma {:induction false} SkipCoherent(c: Suite, s: State, until: nat)
    requires Coherent(s)
    ensures Coherent(Skip(c, s, until))
    decreases until - s.Nr
  {
    if s.CKr.Some? && s.DHr.Some? && s.Nr < until {
      SkipCoherent(c, SkipOne(c, s), until);
    }
  }

  lemma OnChainCoherent(c: Suite, s: State, m: Message, ad: Bytes)
    requires Coherent(s)
    ensures Coherent(DecryptOnChain(c, s, m, ad).0)
  {
    SkipCoherent(c, s, m.header.messageNumber);
  }

  lemma DecryptCoherent(c: Suite, s: State, m: Message, ad: Bytes, draw: Bytes)
    requires Coherent(s)
    ensures Coherent(Decrypt(c, s, m, ad, draw).0)
  {
    SkipCoherent(c, s, m.header.previousCounter);
    OnChainCoherent(c, s, m, ad);
    var t := SkipMessageKeys(c, s, m.header.previousCounter).0;
    OnChainCoherent(c, DhRatchet(c, t, m.header.dhPublicKey, draw).0, m, ad);
  }
}
