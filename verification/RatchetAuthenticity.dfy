/** What decrypt answers to messages that were altered, replayed or made up: which key it reads with, and that
    nothing is accepted that was not sealed under that key. */
module RatchetAuthenticity {
  import opened Options
  import opened Encoding
  import opened Ratchet
  import opened RatchetProtocol
  import opened RatchetRuns
  import opened RatchetTheorems
  import opened RatchetSecrecy

  // ---------------------------------------------------------- the key of a header

  /** The message key number `n` of a chain that has been stepped to number `at`; never an earlier one. */
  function KeyOnChain(c: Suite, chainKey: Bytes, at: nat, n: nat): Bytes {
    c.MessageKey(Chain(c, chainKey, if n <= at then 0 else n - at))
  }

  /** The key a session reads a message with this header with, whatever else is in the message: the one put
      aside for it, or the one at its number of its chain, which may be the chain that a turn opens. */
  function ReadingKey(c: Suite, s: State, h: Header): Option<Bytes> {
    var slot := SkipKey(h.dhPublicKey, h.messageNumber);
    if slot in s.MKSKIPPED then Some(s.MKSKIPPED[slot])
    else if GuardFires(s, h) then None
    else if s.DHr == Some(h.dhPublicKey) then
      if s.CKr.None? then None else Some(KeyOnChain(c, s.CKr.value, s.Nr, h.messageNumber))
    else if s.DHs.None? || s.RK.None? then None
    else
      var shared := c.Dh(s.DHs.value.privateKey, h.dhPublicKey);
      Some(KeyOnChain(c, c.RootChain(s.RK.value, shared), 0, h.messageNumber))
  }

  lemma {:induction false} ChainShift(c: Suite, k: Bytes, n: nat)
    ensures Chain(c, c.ChainStep(k), n) == Chain(c, k, n + 1)
  {
    if n > 0 {
      ChainShift(c, k, n - 1);
    }
  }

  lemma {:induction false} SkippedChain(c: Suite, s: State, until: nat)
    requires s.DHr.Some? && s.CKr.Some?
    ensures Skip(c, s, until).CKr == Some(Chain(c, s.CKr.value, if until <= s.Nr then 0 else until - s.Nr))
    decreases until - s.Nr
  {
    if s.Nr < until {
      SkippedChain(c, SkipOne(c, s), until);
      ChainShift(c, s.CKr.value, until - s.Nr - 1);
    }
  }

  lemma {:induction false} SkipNeedsChain(c: Suite, s: State, until: nat)
    requires s.CKr.None?
    ensures Skip(c, s, until) == s
    decreases until - s.Nr
  {
  }

  /** An answer that agrees with the AEAD: the plaintext if the message opens, else the failure. */
  predicate AnswersFor(c: Suite, key: Bytes, m: Message, ad: Bytes, r: Result<Bytes>) {
    match c.Open(key, FromBase64(m.nonce), ad, FromBase64(m.ciphertext))
    case Some(p) => r == Ok(p)
    case None => r == Err(AuthenticationFailed)
  }

  lemma OnChainAnswers(c: Suite, s: State, m: Message, ad: Bytes)
    requires s.DHr.Some? && m.header.messageNumber <= s.Nr + MAX_SKIP
    ensures var r := DecryptOnChain(c, s, m, ad).1;
            if s.CKr.None? then r == Err(NoReceivingChain)
            else AnswersFor(c, KeyOnChain(c, s.CKr.value, s.Nr, m.header.messageNumber), m, ad, r)
  {
    if s.CKr.Some? {
      SkippedChain(c, s, m.header.messageNumber);
    } else {
      SkipNeedsChain(c, s, m.header.messageNumber);
    }
  }

  lemma TurnAnswers(c: Suite, s: State, m: Message, ad: Bytes, draw: Bytes)
    requires SkipKey(m.header.dhPublicKey, m.header.messageNumber) !in s.MKSKIPPED
    requires NeedsRatchet(s, m.header) && !GuardFires(s, m.header)
    ensures var r := Decrypt(c, s, m, ad, draw).1;
            match ReadingKey(c, s, m.header)
            case None => r == Err(NotInitialised)
            case Some(key) => AnswersFor(c, key, m, ad, r)
  {
    var t := Skip(c, s, m.header.previousCounter);
    SkipKeepsKeys(c, s, m.header.previousCounter);
    if s.DHs.Some? && s.RK.Some? {
      OnChainAnswers(c, DhRatchet(c, t, m.header.dhPublicKey, draw).0, m, ad);
    }
  }

  /** Decrypt on any state and any message: with a key to read with, it answers a plaintext exactly if the
      AEAD opens the message to it under that key, and an authentication failure if it does not open;
      without one it answers the error that says why there is none. */
  lemma AcceptsExactly(c: Suite, s: State, m: Message, ad: Bytes, draw: Bytes)
    ensures var r := Decrypt(c, s, m, ad, draw).1;
            match ReadingKey(c, s, m.header)
            case Some(key) => AnswersFor(c, key, m, ad, r)
            case None =>
              r == Err(if GuardFires(s, m.header) then TooManySkipped
                       else if NeedsRatchet(s, m.header) then NotInitialised else NoReceivingChain)
  {
    if SkipKey(m.header.dhPublicKey, m.header.messageNumber) !in s.MKSKIPPED {
      if GuardFires(s, m.header) {
        GuardExact(c, s, m, ad, draw);
      } else if NeedsRatchet(s, m.header) {
        TurnAnswers(c, s, m, ad, draw);
      } else {
        OnChainAnswers(c, s, m, ad);
      }
    }
  }

  /** What a call does to the session depends on the header alone: a message with the same header leaves the
      same state behind, whether it opens or not. */
  lemma StateIgnoresContent(c: Suite, s: State, m: Message, ad: Bytes, m': Message, ad': Bytes, draw: Bytes)
    requires m.header == m'.header
    ensures Decrypt(c, s, m, ad, draw).0 == Decrypt(c, s, m', ad', draw).0
  {
  }

  // ------------------------------------------------- sessions without keys, new sessions

  /** A session without keys that is asked to turn fails, but takes the new public key and starts its counters
      over: the next message of that chain finds no receiving chain. */
  lemma TurnWithoutKeys(c: Suite, s: State, m: Message, ad: Bytes, draw: Bytes, next: Message)
    requires s.DHs.None? || s.RK.None?
    requires SkipKey(m.header.dhPublicKey, m.header.messageNumber) !in s.MKSKIPPED
    requires NeedsRatchet(s, m.header) && !GuardFires(s, m.header) && s.CKr.None?
    requires next.header.dhPublicKey == m.header.dhPublicKey && next.header.messageNumber <= MAX_SKIP
    requires SkipKey(next.header.dhPublicKey, next.header.messageNumber) !in s.MKSKIPPED
    ensures Decrypt(c, s, m, ad, draw).1 == Err(NotInitialised)
    ensures Decrypt(c, s, m, ad, draw).0 == s.(DHr := Some(m.header.dhPublicKey), PN := s.Ns, Ns := 0, Nr := 0)
    ensures Decrypt(c, Decrypt(c, s, m, ad, draw).0, next, ad, draw).1 == Err(NoReceivingChain)
  {
    SkipNeedsChain(c, s, m.header.previousCounter);
    var t := Decrypt(c, s, m, ad, draw).0;
    SkipNeedsChain(c, t, next.header.messageNumber);
  }

  /** Nothing else of what a session was before shows after it is started anew. */
  lemma InitStartsOver(c: Suite, s: State, secret: Bytes, theirs: Bytes, ours: KeyPair, own: Bytes)
    ensures InitInitiator(c, s, secret, theirs, own)
         == InitInitiator(c, EMPTY_STATE, secret, theirs, own).(MKSKIPPED := s.MKSKIPPED)
    ensures InitResponder(s, secret, ours) == InitResponder(EMPTY_STATE, secret, ours).(MKSKIPPED := s.MKSKIPPED)
  {
  }

  /** Starting a session anew, in either role, keeps the keys put aside: the messages passed over before are
      still read. */
  lemma InitKeepsSkipped(
    c: Suite, s: State, secret: Bytes, theirs: Bytes, ours: KeyPair, own: Bytes, m: Message, ad: Bytes, draw: Bytes)
    requires SkipKey(m.header.dhPublicKey, m.header.messageNumber) in s.MKSKIPPED
    ensures Decrypt(c, InitInitiator(c, s, secret, theirs, own), m, ad, draw).1 == Decrypt(c, s, m, ad, draw).1
    ensures Decrypt(c, InitResponder(s, secret, ours), m, ad, draw).1 == Decrypt(c, s, m, ad, draw).1
  {
  }

  // ------------------------------------------------------------- reachable states

  lemma StoredKey(c: Suite, h: History, s: State, p: nat, l: Letter, id: Id)
    requires p < |h.keys| == |h.lens| && PartyOk(c, h, s, p) && IdOk(h, id) && LetterOk(c, h, l, id)
    requires id in Pending(h, p, s.Nr)
    ensures ReadingKey(c, s, l.message.header) == Some(KeyOf(c, h, id))
  {
    assert Slots(c, h)(id) in s.MKSKIPPED && s.MKSKIPPED[Slots(c, h)(id)] == Keys(c, h)(id);
  }

  lemma CurrentKey(c: Suite, h: History, s: State, p: nat, l: Letter, id: Id)
    requires HistoryOk(c, h) && 2 <= p < |h.keys| && PartyOk(c, h, s, p) && Addressed(c, h, l, id, p)
    requires id.chain == p - 1 && s.Nr <= id.number && !GuardFires(s, l.message.header)
    ensures ReadingKey(c, s, l.message.header) == Some(KeyOf(c, h, id))
  {
    NotStored(c, h, s, p, id);
    ChainSum(c, ChainStart(c, h.secret, h.keys, p - 1), s.Nr, id.number - s.Nr);
  }

  lemma NextKey(c: Suite, h: History, s: State, p: nat, l: Letter, id: Id)
    requires Sound(c) && HistoryOk(c, h) && |h.keys| == p + 2 && PartyOk(c, h, s, p) && Addressed(c, h, l, id, p)
    requires id.chain == p + 1 && !GuardFires(s, l.message.header)
    ensures ReadingKey(c, s, l.message.header) == Some(KeyOf(c, h, id))
  {
    assert id !in Pending(h, p, s.Nr);
    NotStored(c, h, s, p, id);
    assert s.DHr != Some(l.message.header.dhPublicKey);
    assert DhAt(c, h.keys, p + 1) == c.Dh(h.keys[p], c.PublicKey(h.keys[p + 1]));
  }

  lemma LetterKey(c: Suite, h: History, s: State, p: nat, l: Letter, id: Id)
    requires Sound(c) && HistoryOk(c, h) && p < |h.keys| <= p + 2 && PartyOk(c, h, s, p) && Addressed(c, h, l, id, p)
    requires !GuardFires(s, l.message.header)
    ensures ReadingKey(c, s, l.message.header) == Some(KeyOf(c, h, id))
  {
    WhichChain(c, h, s, p, id);
    if id in Pending(h, p, s.Nr) {
      StoredKey(c, h, s, p, l, id);
    } else if id.chain == p + 1 {
      NextKey(c, h, s, p, l, id);
    } else {
      CurrentKey(c, h, s, p, l, id);
    }
  }

  /** In every reachable state a message that carries the header of a letter in flight is read, if no guard
      fires, with the key that its sender sealed that letter under, and with no other. */
  lemma ReadsWithItsKey(c: Suite, cfg: Config, events: seq<Event>, i: nat, w: World, l: Letter)
    requires Sound(c) && Honest(c, cfg, events) && w == Run(c, cfg, events) && Deliverable(w, i) && l == w.letters[i]
    requires !GuardFires(w.Party(l.toBob), l.message.header)
    ensures i < |KeysUsed(c, cfg, events)|
         && ReadingKey(c, w.Party(l.toBob), l.message.header) == Some(KeysUsed(c, cfg, events)[i])
  {
    ReachableKeys(c, cfg, events);
    var h :| ExplainsKeys(c, cfg, events, h);
    var p := Position(h, l.toBob);
    assert p < |h.keys| <= p + 2 && PartyOk(c, h, w.Party(l.toBob), p) && Addressed(c, h, l, h.ids[i], p) by {
      BeforeDelivery(c, w, h, i);
    }
    LetterKey(c, h, w.Party(l.toBob), p, l, h.ids[i]);
  }

  // --------------------------------------------------------- nothing else is accepted

  /** The AEAD opens only what was sealed under the same key and nonce with the same associated data. */
  ghost predicate Authenticating(c: Suite) {
    && (forall k: Bytes, n: Bytes, ad: Bytes, x: Bytes {:trigger c.Open(k, n, ad, x)} ::
          c.Open(k, n, ad, x).Some? ==> x == c.Seal(k, n, ad, c.Open(k, n, ad, x).value))
    && (forall k: Bytes, n: Bytes, ad: Bytes, p: Bytes, k': Bytes, n': Bytes, ad': Bytes
          {:trigger c.Open(k', n', ad', c.Seal(k, n, ad, p))} ::
          c.Open(k', n', ad', c.Seal(k, n, ad, p)).Some? ==> k' == k && n' == n && ad' == ad)
  }

  /** In every reachable state, whatever is made of a letter in flight behind its header: a plaintext is
      accepted exactly if the message is what the letter's own key seals it to, under the message's nonce and
      with the associated data at hand. Anything else is refused. */
  lemma AlteredIsRefused(
    c: Suite, cfg: Config, events: seq<Event>, i: nat, w: World, l: Letter, m: Message, ad: Bytes, draw: Bytes,
    p: Bytes)
    requires Sound(c) && Authenticating(c) && Honest(c, cfg, events) && w == Run(c, cfg, events)
    requires Deliverable(w, i) && l == w.letters[i] && m.header == l.message.header
    ensures i < |KeysUsed(c, cfg, events)|
    ensures Decrypt(c, w.Party(l.toBob), m, ad, draw).1 == Ok(p)
       <==> && !GuardFires(w.Party(l.toBob), l.message.header)
            && FromBase64(m.ciphertext) == c.Seal(KeysUsed(c, cfg, events)[i], FromBase64(m.nonce), ad, p)
  {
    SealedUnder(c, cfg, events, i);
    AcceptsExactly(c, w.Party(l.toBob), m, ad, draw);
    if GuardFires(w.Party(l.toBob), l.message.header) {
      GuardExact(c, w.Party(l.toBob), m, ad, draw);
    } else {
      ReadsWithItsKey(c, cfg, events, i, w, l);
      UnsealsSealed(c, KeysUsed(c, cfg, events)[i], m, ad, p, Decrypt(c, w.Party(l.toBob), m, ad, draw).1);
    }
  }

  lemma UnsealsSealed(c: Suite, key: Bytes, m: Message, ad: Bytes, p: Bytes, r: Result<Bytes>)
    requires Sound(c) && Authenticating(c) && AnswersFor(c, key, m, ad, r)
    ensures r == Ok(p) <==> FromBase64(m.ciphertext) == c.Seal(key, FromBase64(m.nonce), ad, p)
  {
  }

  /** A session's reading keys are among what forward steps reach from it. */
  lemma ReadingKeyIsDerivable(c: Suite, s: State, h: Header)
    ensures ReadingKey(c, s, h).Some? ==> Derivable(c, s, ReadingKey(c, s, h).value)
  {
    var slot := SkipKey(h.dhPublicKey, h.messageNumber);
    if slot !in s.MKSKIPPED && ReadingKey(c, s, h).Some? {
      var key := ReadingKey(c, s, h).value;
      if s.DHr == Some(h.dhPublicKey) {
        assert ChainGives(c, s.CKr.value, key);
      } else {
        var d := c.Dh(s.DHs.value.privateKey, h.dhPublicKey);
        assert RootFrom(c, s.RK.value, []) == s.RK.value;
        assert ChainGives(c, c.RootChain(RootFrom(c, s.RK.value, []), d), key);
        assert RootGives(c, s.RK.value, key);
      }
    }
  }

  /** No replays and no reflections: in every reachable state, the ciphertext of a letter is refused by its
      receiver once it was read, and by its sender at once, under any header, nonce and associated data. */
  lemma ReplayIsRefused(
    c: Suite, cfg: Config, events: seq<Event>, i: nat, isBob: bool, w: World, m: Message, ad: Bytes, draw: Bytes)
    requires Sound(c) && CollisionFree(c, cfg.secret) && Authenticating(c) && Honest(c, cfg, events)
    requires w == Run(c, cfg, events) && i < |w.letters|
    requires w.letters[i].toBob != isBob || w.letters[i].status == Read
    requires FromBase64(m.ciphertext) == FromBase64(w.letters[i].message.ciphertext)
    ensures Decrypt(c, w.Party(isBob), m, ad, draw).1.Err?
  {
    var s := w.Party(isBob);
    AcceptsExactly(c, s, m, ad, draw);
    ReadingKeyIsDerivable(c, s, m.header);
    ForwardSecrecy(c, cfg, events, isBob, i);
    SealedUnder(c, cfg, events, i);
    if ReadingKey(c, s, m.header).Some? {
      assert c.Open(ReadingKey(c, s, m.header).value, FromBase64(m.nonce), ad, FromBase64(m.ciphertext)).None?;
    }
  }

  /** Letters cannot be exchanged: behind the header of one letter the ciphertext of another is refused. */
  lemma SwappedIsRefused(
    c: Suite, cfg: Config, events: seq<Event>, i: nat, j: nat, w: World, m: Message, ad: Bytes, draw: Bytes)
    requires Sound(c) && CollisionFree(c, cfg.secret) && Authenticating(c) && Honest(c, cfg, events)
    requires w == Run(c, cfg, events) && Deliverable(w, i) && j < |w.letters| && i != j
    requires m.header == w.letters[i].message.header
    requires FromBase64(m.ciphertext) == FromBase64(w.letters[j].message.ciphertext)
    ensures Decrypt(c, w.Party(w.letters[i].toBob), m, ad, draw).1.Err?
  {
    var r := Decrypt(c, w.Party(w.letters[i].toBob), m, ad, draw).1;
    SealedUnder(c, cfg, events, j);
    if r.Ok? {
      AlteredIsRefused(c, cfg, events, i, w, w.letters[i], m, ad, draw, r.value);
      SingleUse(c, cfg, events, if i < j then i else j, if i < j then j else i);
    }
  }

  // ----------------------------------------------------------------- what is posted

  /** In every reachable state a party can send exactly if it is the initiator or has turned its ratchet, and
      the letter it posts carries its input: it opens, under its key and with the drawn nonce and the given
      associated data, to the plaintext. */
  lemma PostedOpens(c: Suite, cfg: Config, events: seq<Event>, e: Event, w: World, w': World)
    requires Sound(c) && Honest(c, cfg, events + [e]) && e.Send?
    requires w == Run(c, cfg, events) && w' == Run(c, cfg, events + [e])
    ensures |w'.letters| == |w.letters| + (if !e.byBob || |OwnKeys(c, cfg, events)| > 2 then 1 else 0)
    ensures |w'.letters| == |w.letters| ==> Step(c, w, e) == (w, Refused(NoSendingChain))
    ensures |w'.letters| > |w.letters| ==>
      var m, keys := w'.letters[|w.letters|].message, KeysUsed(c, cfg, events + [e]);
      && |keys| == |w'.letters| && FromBase64(m.nonce) == e.nonce
      && c.Open(keys[|w.letters|], e.nonce, e.ad, FromBase64(m.ciphertext)) == Some(e.plaintext)
  {
    HonestBefore(c, cfg, events, e);
    RunStep(c, cfg, events, e);
    CanSend(c, cfg, events, e.byBob, w);
    if |w'.letters| > |w.letters| {
      Base64RoundTrip(e.nonce);
      SealedUnder(c, cfg, events + [e], |w.letters|);
    }
  }

  lemma CanSend(c: Suite, cfg: Config, events: seq<Event>, isBob: bool, w: World)
    requires Sound(c) && Honest(c, cfg, events) && w == Run(c, cfg, events)
    ensures w.Party(isBob).CKs.Some? <==> !isBob || |OwnKeys(c, cfg, events)| > 2
    ensures w.Party(isBob).DHs.Some?
  {
    ReachableTurns(c, cfg, events);
    var h :| ExplainsTurns(c, cfg, events, h);
    Parities(h, isBob);
    assert PartyOk(c, h, w.Party(isBob), Position(h, isBob));
    FirstPosition(h, isBob);
  }

  lemma FirstPosition(h: History, isBob: bool)
    requires |h.keys| >= 2
    ensures Position(h, isBob) == 0 <==> isBob && |h.keys| == 2
  {
    assert IsBobs(1) == false && IsBobs(0);
  }
}
