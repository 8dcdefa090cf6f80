/** Every reachable state of two honest parties: the invariant over runs, and what follows from it. */
module RatchetRuns {
  import opened Encoding
  import opened Ratchet
  import opened RatchetStorage
  import opened RatchetProtocol

  // ------------------------------------------------------------- the history

  /** The call turns the receiver's ratchet, whether or not the message is opened afterwards. */
  predicate Turns(s: State, h: Header) {
    && SkipKey(h.dhPublicKey, h.messageNumber) !in s.MKSKIPPED
    && NeedsRatchet(s, h) && h.previousCounter <= s.Nr + MAX_SKIP
  }

  function Sent(h: History, p: nat): History
    requires p < |h.lens|
  {
    h.(lens := h.lens[p := h.lens[p] + 1], ids := h.ids + [Id(p, h.lens[p])])
  }

  ghost function HistoryStep(c: Suite, w: World, h: History, e: Event): History
    requires WorldOk(c, w, h)
  {
    match e
    case Send(byBob, plaintext, ad, nonce) =>
      if Encrypt(c, w.Party(byBob), plaintext, ad, nonce).1.Err? then h else Sent(h, Position(h, byBob))
    case Deliver(i, draw) =>
      if !Deliverable(w, i) then h
      else
        var l := w.letters[i];
        AfterDelivery(c, h, w.Party(l.toBob), l, h.ids[i], draw)
    case _ => h
  }

  ghost function AfterDelivery(c: Suite, h: History, s: State, l: Letter, id: Id, draw: Bytes): History {
    var g := if Turns(s, l.message.header) then Turned(h, draw) else h;
    if Decrypt(c, s, l.message, l.ad, draw).1.Ok? then MarkRead(g, id) else g
  }

  function StartHistory(cfg: Config): History {
    History(cfg.secret, [cfg.preKey, cfg.draw], [0, 0], [], {})
  }

  // --------------------------------------------------------------- one delivery

  ghost predicate Addressed(c: Suite, h: History, l: Letter, id: Id, p: nat)
  {
    IdOk(h, id) && id !in h.read && IsBobs(id.chain) != IsBobs(p) && LetterOk(c, h, l, id)
  }

  /** A message of a superseded chain, or one passed over, is pending; the next chain is one ahead. */
  lemma WhichChain(c: Suite, h: History, s: State, p: nat, id: Id)
    requires HistoryOk(c, h) && p < |h.keys| <= p + 2 && PartyOk(c, h, s, p)
    requires IdOk(h, id) && id !in h.read && IsBobs(id.chain) != IsBobs(p)
    ensures id in Pending(h, p, s.Nr)
         || (2 <= p && id.chain == p - 1 && s.Nr <= id.number)
         || (id.chain == p + 1 && |h.keys| == p + 2)
  {
  }

  lemma DeliverCurrent(c: Suite, h: History, s: State, p: nat, l: Letter, id: Id, draw: Bytes)
    requires Sound(c) && HistoryOk(c, h) && 2 <= p < |h.keys| && PartyOk(c, h, s, p)
    requires Addressed(c, h, l, id, p) && id.chain == p - 1 && s.Nr <= id.number
    ensures var (t, r) := Decrypt(c, s, l.message, l.ad, draw);
            && r == (if GuardFires(s, l.message.header) then Err(TooManySkipped) else Ok(l.plaintext))
            && !Turns(s, l.message.header)
            && PartyOk(c, AfterDelivery(c, h, s, l, id, draw), t, p)
  {
    assert id !in Pending(h, p, s.Nr);
    NotStored(c, h, s, p, id);
    PartyReadsOnChain(c, h, s, p, l.message, l.ad, id.number, l.plaintext);
  }

  /** The path through decrypt that turns the ratchet. */
  lemma DecryptTurns(c: Suite, s: State, m: Message, ad: Bytes, draw: Bytes)
    requires Turns(s, m.header)
    requires DhRatchet(c, Skip(c, s, m.header.previousCounter), m.header.dhPublicKey, draw).1.Ok?
    ensures Decrypt(c, s, m, ad, draw)
         == DecryptOnChain(c, DhRatchet(c, Skip(c, s, m.header.previousCounter), m.header.dhPublicKey, draw).0, m, ad)
  {
  }

  /** The receiver as it is between the ratchet turn and the second skip. */
  lemma TurnForNext(c: Suite, h: History, s: State, p: nat, l: Letter, id: Id, draw: Bytes)
    requires Sound(c) && HistoryOk(c, h) && |h.keys| == p + 2 && PartyOk(c, h, s, p)
    requires Addressed(c, h, l, id, p) && id.chain == p + 1 && Fresh(c, h, draw)
    requires l.message.header.previousCounter <= s.Nr + MAX_SKIP
    ensures var t := Skip(c, s, l.message.header.previousCounter);
            var (u, r) := DhRatchet(c, t, l.message.header.dhPublicKey, draw);
            r.Ok? && u.Nr == 0 && HistoryOk(c, Turned(h, draw)) && PartyOk(c, Turned(h, draw), u, p + 2)
  {
    var t := Skip(c, s, l.message.header.previousCounter);
    assert PartyOk(c, h, t, p) && (p >= 1 ==> t.Nr == h.lens[p - 1]) by {
      PartySkips(c, h, s, p, l.message.header.previousCounter);
    }
    PartyTurns(c, h, t, p, draw);
    TurnedOk(c, h, draw);
  }

  lemma ReadsAfterTurn(c: Suite, g: History, u: State, q: nat, l: Letter, id: Id, t: State, r: Result<Bytes>)
    requires Sound(c) && HistoryOk(c, g) && 2 <= q < |g.keys| && PartyOk(c, g, u, q) && u.Nr == 0
    requires id.chain == q - 1 && id.number < g.lens[q - 1] && l.message.header.messageNumber == id.number
    requires Opens(c, g, l.message, l.ad, id, l.plaintext)
    requires (t, r) == DecryptOnChain(c, u, l.message, l.ad)
    ensures if MAX_SKIP < id.number then r == Err(TooManySkipped) && PartyOk(c, g, t, q)
            else r == Ok(l.plaintext) && PartyOk(c, MarkRead(g, id), t, q)
  {
    PartyReadsOnChain(c, g, u, q, l.message, l.ad, id.number, l.plaintext);
  }

  lemma DeliverTurning(
    c: Suite, h: History, s: State, p: nat, l: Letter, id: Id, draw: Bytes, t: State, r: Result<Bytes>)
    requires Sound(c) && HistoryOk(c, h) && |h.keys| == p + 2 && PartyOk(c, h, s, p)
    requires Addressed(c, h, l, id, p) && id.chain == p + 1 && Fresh(c, h, draw)
    requires Turns(s, l.message.header) && (t, r) == Decrypt(c, s, l.message, l.ad, draw)
    ensures var g := Turned(h, draw);
            if MAX_SKIP < id.number then r == Err(TooManySkipped) && PartyOk(c, g, t, p + 2)
            else r == Ok(l.plaintext) && PartyOk(c, MarkRead(g, id), t, p + 2)
  {
    var g := Turned(h, draw);
    var (u, turned) := DhRatchet(c, Skip(c, s, l.message.header.previousCounter), l.message.header.dhPublicKey, draw);
    assert turned.Ok? && u.Nr == 0 && HistoryOk(c, g) && PartyOk(c, g, u, p + 2) by {
      TurnForNext(c, h, s, p, l, id, draw);
    }
    assert (t, r) == DecryptOnChain(c, u, l.message, l.ad) by {
      DecryptTurns(c, s, l.message, l.ad, draw);
    }
    assert Opens(c, g, l.message, l.ad, id, l.plaintext) by {
      KeyPrefix(c, h, g, id);
    }
    ReadsAfterTurn(c, g, u, p + 2, l, id, t, r);
  }

  lemma DeliverNext(c: Suite, h: History, s: State, p: nat, l: Letter, id: Id, draw: Bytes, p': nat)
    requires Sound(c) && HistoryOk(c, h) && |h.keys| == p + 2 && PartyOk(c, h, s, p)
    requires Addressed(c, h, l, id, p) && id.chain == p + 1 && Fresh(c, h, draw)
    requires p' == if Turns(s, l.message.header) then p + 2 else p
    ensures var (t, r) := Decrypt(c, s, l.message, l.ad, draw);
            && r == (if GuardFires(s, l.message.header) then Err(TooManySkipped) else Ok(l.plaintext))
            && var g := AfterDelivery(c, h, s, l, id, draw);
               p' < |g.keys| == |g.lens| && PartyOk(c, g, t, p')
  {
    assert id !in Pending(h, p, s.Nr);
    NotStored(c, h, s, p, id);
    assert NeedsRatchet(s, l.message.header);
    if Turns(s, l.message.header) {
      var (t, r) := Decrypt(c, s, l.message, l.ad, draw);
      DeliverTurning(c, h, s, p, l, id, draw, t, r);
    }
  }

  /** What one delivery does to the receiver: it yields the sender's plaintext unless a guard fires,
      and either way the receiver's state fits the history. */
  lemma PartyDelivers(c: Suite, h: History, s: State, p: nat, l: Letter, id: Id, draw: Bytes, p': nat)
    requires Sound(c) && HistoryOk(c, h) && p < |h.keys| <= p + 2 && PartyOk(c, h, s, p)
    requires Addressed(c, h, l, id, p) && Fresh(c, h, draw)
    requires p' == if Turns(s, l.message.header) then p + 2 else p
    ensures var (t, r) := Decrypt(c, s, l.message, l.ad, draw);
            && r == (if GuardFires(s, l.message.header) then Err(TooManySkipped) else Ok(l.plaintext))
            && (Turns(s, l.message.header) ==> |h.keys| == p + 2)
            && var g := AfterDelivery(c, h, s, l, id, draw);
               p' < |g.keys| == |g.lens| && PartyOk(c, g, t, p')
  {
    WhichChain(c, h, s, p, id);
    if id in Pending(h, p, s.Nr) {
      PartyReadsStored(c, h, s, p, l.message, l.ad, draw, id, l.plaintext);
      assert Slots(c, h)(id) in s.MKSKIPPED;
    } else if id.chain == p + 1 {
      DeliverNext(c, h, s, p, l, id, draw, p');
    } else {
      DeliverCurrent(c, h, s, p, l, id, draw);
    }
  }

  lemma AfterDeliveryOk(c: Suite, h: History, s: State, l: Letter, id: Id, draw: Bytes)
    requires HistoryOk(c, h) && IdOk(h, id) && Fresh(c, h, draw)
    ensures HistoryOk(c, AfterDelivery(c, h, s, l, id, draw))
  {
    TurnedOk(c, h, draw);
    var g := if Turns(s, l.message.header) then Turned(h, draw) else h;
    var k := MarkRead(g, id);
    assert IdOk(g, id);
    forall i | 0 <= i < |k.ids| ensures IdOk(k, k.ids[i]) {
      assert IdOk(g, g.ids[i]);
    }
    forall x | x in k.read ensures IdOk(k, x) {
      assert IdOk(g, x);
    }
  }

  // ------------------------------------------------------------------ one step

  lemma LetterSame(c: Suite, h: History, g: History, l: Letter, id: Id)
    requires |h.lens| == |h.keys| <= |g.lens| == |g.keys| && h.keys <= g.keys && h.secret == g.secret
    requires forall i :: 0 <= i && i + 2 < |h.lens| ==> g.lens[i] == h.lens[i]
    requires forall i :: 0 <= i < |h.lens| ==> h.lens[i] <= g.lens[i]
    requires IdOk(h, id) && LetterOk(c, h, l, id) && (id in g.read <==> id in h.read)
    ensures IdOk(g, id) && LetterOk(c, g, l, id)
  {
    KeyPrefix(c, h, g, id);
  }

  lemma SentOk(c: Suite, h: History, p: nat)
    requires HistoryOk(c, h) && 1 <= p < |h.keys|
    ensures HistoryOk(c, Sent(h, p)) && Id(p, h.lens[p]) !in h.read
  {
    var g := Sent(h, p);
    forall i | 0 <= i < |g.ids| ensures IdOk(g, g.ids[i]) {
      assert i < |h.ids| ==> IdOk(h, h.ids[i]);
    }
    forall id | id in g.read ensures IdOk(g, id) {
      assert IdOk(h, id);
    }
    forall i, j | 0 <= i < j < |g.ids| ensures g.ids[i] != g.ids[j] {
      assert IdOk(h, h.ids[i]);
    }
    assert !IdOk(h, Id(p, h.lens[p]));
  }

  lemma SentLetter(c: Suite, h: History, s: State, p: nat, e: Event)
    requires HistoryOk(c, h) && 1 <= p < |h.keys| && PartyOk(c, h, s, p) && e.Send? && e.byBob == IsBobs(p)
    ensures var (t, r) := Encrypt(c, s, e.plaintext, e.ad, e.nonce);
            r.Ok? && LetterOk(c, Sent(h, p), Letter(!e.byBob, r.value, e.ad, e.plaintext, InFlight), Id(p, h.lens[p]))
  {
    var g := Sent(h, p);
    var key := c.MessageKey(s.CKs.value);
    SentOk(c, h, p);
    StartPrefix(c, h.secret, h.keys, g.keys, p);
    assert key == KeyOf(c, g, Id(p, h.lens[p]));
    Base64RoundTrip(e.nonce);
    Base64RoundTrip(c.Seal(key, e.nonce, e.ad, e.plaintext));
  }

  lemma SenderOk(c: Suite, h: History, s: State, p: nat, e: Event)
    requires HistoryOk(c, h) && 1 <= p < |h.keys| && PartyOk(c, h, s, p) && e.Send?
    ensures PartyOk(c, Sent(h, p), Encrypt(c, s, e.plaintext, e.ad, e.nonce).0, p)
  {
    var g := Sent(h, p);
    PositionPrefix(c, h, g, p);
    assert Pending(g, p, s.Nr) == Pending(h, p, s.Nr);
    StoreLonger(c, h, g, Pending(h, p, s.Nr), s.MKSKIPPED);
  }

  lemma SendLetters(c: Suite, h: History, letters: seq<Letter>, s: State, p: nat, e: Event)
    requires HistoryOk(c, h) && LettersOk(c, h, letters)
    requires 1 <= p < |h.keys| <= p + 2 && PartyOk(c, h, s, p) && e.Send? && e.byBob == IsBobs(p)
    ensures var (t, r) := Encrypt(c, s, e.plaintext, e.ad, e.nonce);
            r.Ok? && LettersOk(c, Sent(h, p), letters + [Letter(!e.byBob, r.value, e.ad, e.plaintext, InFlight)])
  {
    var g := Sent(h, p);
    SentOk(c, h, p);
    SentLetter(c, h, s, p, e);
    var r := Encrypt(c, s, e.plaintext, e.ad, e.nonce).1;
    var more := letters + [Letter(!e.byBob, r.value, e.ad, e.plaintext, InFlight)];
    forall i | 0 <= i < |more| ensures IdOk(g, g.ids[i]) && LetterOk(c, g, more[i], g.ids[i]) {
      if i < |letters| {
        LetterSame(c, h, g, letters[i], h.ids[i]);
      }
    }
  }

  /** The invariant, from the point of view of one of the two parties. */
  lemma WorldOkFor(c: Suite, w: World, h: History, isBob: bool, s: State, other: State, p: nat, q: nat)
    requires w.Party(isBob) == s && w.Party(!isBob) == other
    requires HistoryOk(c, h) && LettersOk(c, h, w.letters)
    requires p == Position(h, isBob) && q == Position(h, !isBob)
    requires PartyOk(c, h, s, p) && PartyOk(c, h, other, q)
    ensures WorldOk(c, w, h)
  {
    forall b: bool ensures PartyOk(c, h, w.Party(b), Position(h, b)) {
      assert b == isBob || b == !isBob;
    }
  }

  lemma SendParties(c: Suite, h: History, s: State, other: State, e: Event, p: nat, q: nat)
    requires HistoryOk(c, h) && e.Send? && 1 <= p < |h.keys| && q < |h.keys| && (p == q + 1 || q == p + 1)
    requires PartyOk(c, h, s, p) && PartyOk(c, h, other, q)
    ensures var g := Sent(h, p);
            && HistoryOk(c, g)
            && PartyOk(c, g, Encrypt(c, s, e.plaintext, e.ad, e.nonce).0, p) && PartyOk(c, g, other, q)
  {
    SentOk(c, h, p);
    SenderOk(c, h, s, p, e);
    PartySame(c, h, Sent(h, p), other, q);
  }

  lemma Neighbours(h: History, isBob: bool)
    requires |h.keys| >= 2
    ensures var p, q := Position(h, isBob), Position(h, !isBob);
            p < |h.keys| <= p + 2 && q < |h.keys| <= q + 2 && (p == q + 1 || q == p + 1) && IsBobs(p) == isBob
  {
  }

  lemma SentOkFor(
    c: Suite, h: History, letters: seq<Letter>, s: State, other: State, e: Event, p: nat, q: nat,
    t: State, r: Result<Message>)
    requires HistoryOk(c, h) && LettersOk(c, h, letters)
    requires e.Send? && 1 <= p < |h.keys| <= p + 2 && q < |h.keys| && (p == q + 1 || q == p + 1) && IsBobs(p) == e.byBob
    requires PartyOk(c, h, s, p) && PartyOk(c, h, other, q)
    requires (t, r) == Encrypt(c, s, e.plaintext, e.ad, e.nonce)
    ensures HistoryOk(c, Sent(h, p)) && PartyOk(c, Sent(h, p), t, p) && PartyOk(c, Sent(h, p), other, q)
    ensures r.Ok? && LettersOk(c, Sent(h, p), letters + [Letter(!e.byBob, r.value, e.ad, e.plaintext, InFlight)])
  {
    SendParties(c, h, s, other, e, p, q);
    SendLetters(c, h, letters, s, p, e);
  }

  lemma SendWhenReady(
    c: Suite, w: World, h: History, e: Event, p: nat, q: nat, s: State, other: State,
    t: State, r: Result<Message>, w': World)
    requires HistoryOk(c, h) && LettersOk(c, h, w.letters)
    requires e.Send? && 1 <= p < |h.keys| <= p + 2 && q < |h.keys| && (p == q + 1 || q == p + 1) && IsBobs(p) == e.byBob
    requires p == Position(h, e.byBob) && q == Position(h, !e.byBob)
    requires PartyOk(c, h, s, p) && PartyOk(c, h, other, q) && (t, r) == Encrypt(c, s, e.plaintext, e.ad, e.nonce)
    requires r.Ok? ==>
      w' == w.WithParty(e.byBob, t).(letters := w.letters + [Letter(!e.byBob, r.value, e.ad, e.plaintext, InFlight)])
    requires w.Party(!e.byBob) == other
    ensures WorldOk(c, w', Sent(h, p))
  {
    SentOkFor(c, h, w.letters, s, other, e, p, q, t, r);
    WorldOkFor(c, w', Sent(h, p), e.byBob, t, other, p, q);
  }

  lemma SendStep(c: Suite, w: World, h: History, e: Event)
    requires Sound(c) && WorldOk(c, w, h) && e.Send?
    ensures WorldOk(c, Step(c, w, e).0, HistoryStep(c, w, h, e))
  {
    var p := Position(h, e.byBob);
    var s, other := w.Party(e.byBob), w.Party(!e.byBob);
    if p > 0 {
      var (t, r) := Encrypt(c, s, e.plaintext, e.ad, e.nonce);
      Neighbours(h, e.byBob);
      SendWhenReady(c, w, h, e, p, Position(h, !e.byBob), s, other, t, r, Step(c, w, e).0);
    } else {
      assert s.CKs.None?;
      assert Step(c, w, e).0 == w;
    }
  }

  lemma LettersTurned(c: Suite, h: History, letters: seq<Letter>, draw: Bytes)
    requires HistoryOk(c, h) && LettersOk(c, h, letters)
    ensures LettersOk(c, Turned(h, draw), letters)
  {
    var g := Turned(h, draw);
    forall j | 0 <= j < |letters| ensures IdOk(g, g.ids[j]) && LetterOk(c, g, letters[j], g.ids[j]) {
      LetterSame(c, h, g, letters[j], h.ids[j]);
    }
  }

  lemma LettersRead(c: Suite, h: History, letters: seq<Letter>, i: nat)
    requires HistoryOk(c, h) && LettersOk(c, h, letters) && i < |letters|
    ensures LettersOk(c, MarkRead(h, h.ids[i]), letters[i := letters[i].(status := Read)])
  {
    var g := MarkRead(h, h.ids[i]);
    forall j | 0 <= j < |letters| && j != i ensures IdOk(g, g.ids[j]) && LetterOk(c, g, letters[j], g.ids[j]) {
      assert h.ids[j] != h.ids[i] by {
        assert i < j ==> h.ids[i] != h.ids[j];
        assert j < i ==> h.ids[j] != h.ids[i];
      }
      LetterSame(c, h, g, letters[j], h.ids[j]);
    }
    KeyPrefix(c, h, g, h.ids[i]);
  }

  lemma DeliverLetters(c: Suite, h: History, letters: seq<Letter>, s: State, i: nat, draw: Bytes)
    requires HistoryOk(c, h) && LettersOk(c, h, letters) && i < |letters| && Fresh(c, h, draw)
    ensures var l := letters[i];
            LettersOk(c, AfterDelivery(c, h, s, l, h.ids[i], draw),
                      if Decrypt(c, s, l.message, l.ad, draw).1.Ok? then letters[i := l.(status := Read)] else letters)
  {
    TurnedOk(c, h, draw);
    LettersTurned(c, h, letters, draw);
    var g := if Turns(s, letters[i].message.header) then Turned(h, draw) else h;
    LettersRead(c, g, letters, i);
  }

  /** The sender of the delivered message is as it was. */
  lemma BystanderOk(c: Suite, h: History, s: State, other: State, l: Letter, id: Id, draw: Bytes, q: nat)
    requires HistoryOk(c, h) && q < |h.keys| && PartyOk(c, h, other, q) && IsBobs(id.chain) == IsBobs(q)
    ensures var g := AfterDelivery(c, h, s, l, id, draw);
            |g.lens| == |g.keys| && q < |g.keys| && PartyOk(c, g, other, q)
  {
    var g := if Turns(s, l.message.header) then Turned(h, draw) else h;
    PartySame(c, h, g, other, q);
    PartySame(c, g, MarkRead(g, id), other, q);
  }

  lemma PositionsAfter(c: Suite, h: History, s: State, l: Letter, id: Id, draw: Bytes)
    requires HistoryOk(c, h) && (Turns(s, l.message.header) ==> Position(h, l.toBob) + 2 == |h.keys|)
    ensures var g := AfterDelivery(c, h, s, l, id, draw);
            && |g.keys| >= 2 && Position(g, !l.toBob) == Position(h, !l.toBob)
            && Position(g, l.toBob) == Position(h, l.toBob) + if Turns(s, l.message.header) then 2 else 0
  {
  }

  lemma Parities(h: History, isBob: bool)
    requires |h.keys| >= 2
    ensures IsBobs(Position(h, isBob)) == isBob && Position(h, isBob) < |h.keys| <= Position(h, isBob) + 2
  {
  }

  /** Both parties fit the history after a delivery to the one at position p, now at position p'. */
  lemma DeliverParties(c: Suite, h: History, s: State, other: State, l: Letter, id: Id, draw: Bytes,
                       p: nat, q: nat, p': nat)
    requires Sound(c) && HistoryOk(c, h) && Fresh(c, h, draw)
    requires p < |h.keys| <= p + 2 && PartyOk(c, h, s, p) && Addressed(c, h, l, id, p)
    requires q < |h.keys| && PartyOk(c, h, other, q) && IsBobs(id.chain) == IsBobs(q)
    requires p' == if Turns(s, l.message.header) then p + 2 else p
    ensures var (t, r) := Decrypt(c, s, l.message, l.ad, draw);
            var g := AfterDelivery(c, h, s, l, id, draw);
            && r == (if GuardFires(s, l.message.header) then Err(TooManySkipped) else Ok(l.plaintext))
            && HistoryOk(c, g) && q < |g.keys| && p' < |g.keys|
            && PartyOk(c, g, t, p') && PartyOk(c, g, other, q)
  {
    PartyDelivers(c, h, s, p, l, id, draw, p');
    AfterDeliveryOk(c, h, s, l, id, draw);
    BystanderOk(c, h, s, other, l, id, draw, q);
  }

  lemma TurnsOnce(c: Suite, h: History, s: State, l: Letter, id: Id, draw: Bytes, p: nat)
    requires Sound(c) && HistoryOk(c, h) && Fresh(c, h, draw)
    requires p < |h.keys| <= p + 2 && PartyOk(c, h, s, p) && Addressed(c, h, l, id, p)
    ensures Turns(s, l.message.header) ==> |h.keys| == p + 2
  {
    PartyDelivers(c, h, s, p, l, id, draw, if Turns(s, l.message.header) then p + 2 else p);
  }

  lemma BeforeDelivery(c: Suite, w: World, h: History, i: nat)
    requires WorldOk(c, w, h) && Deliverable(w, i)
    ensures var l, id := w.letters[i], h.ids[i];
            var p, q := Position(h, l.toBob), Position(h, !l.toBob);
            && p < |h.keys| <= p + 2 && PartyOk(c, h, w.Party(l.toBob), p) && Addressed(c, h, l, id, p)
            && q < |h.keys| && PartyOk(c, h, w.Party(!l.toBob), q) && IsBobs(id.chain) == IsBobs(q)
  {
    var l, id := w.letters[i], h.ids[i];
    Parities(h, l.toBob);
    Parities(h, !l.toBob);
  }

  lemma DeliverParts(c: Suite, w: World, h: History, i: nat, draw: Bytes)
    requires Sound(c) && WorldOk(c, w, h) && Deliverable(w, i) && Fresh(c, h, draw)
    ensures var l := w.letters[i];
            var (t, r) := Decrypt(c, w.Party(l.toBob), l.message, l.ad, draw);
            var g := AfterDelivery(c, h, w.Party(l.toBob), l, h.ids[i], draw);
            && r == (if GuardFires(w.Party(l.toBob), l.message.header) then Err(TooManySkipped) else Ok(l.plaintext))
            && HistoryOk(c, g)
            && PartyOk(c, g, t, Position(g, l.toBob))
            && PartyOk(c, g, w.Party(!l.toBob), Position(g, !l.toBob))
  {
    var l, id := w.letters[i], h.ids[i];
    var s, other := w.Party(l.toBob), w.Party(!l.toBob);
    var p, q := Position(h, l.toBob), Position(h, !l.toBob);
    BeforeDelivery(c, w, h, i);
    TurnsOnce(c, h, s, l, id, draw, p);
    PositionsAfter(c, h, s, l, id, draw);
    DeliverParties(c, h, s, other, l, id, draw, p, q, Position(AfterDelivery(c, h, s, l, id, draw), l.toBob));
  }

  /** A delivery keeps the invariant, whether the message is read, a guard fires at once, or a guard
      fires after the ratchet has turned. */
  lemma DeliverStep(c: Suite, w: World, h: History, i: nat, draw: Bytes)
    requires Sound(c) && WorldOk(c, w, h) && Deliverable(w, i) && Fresh(c, h, draw)
    ensures WorldOk(c, Step(c, w, Deliver(i, draw)).0, HistoryStep(c, w, h, Deliver(i, draw)))
  {
    var l := w.letters[i];
    var s := w.Party(l.toBob);
    var (t, r) := Decrypt(c, s, l.message, l.ad, draw);
    var g := AfterDelivery(c, h, s, l, h.ids[i], draw);
    var letters := if r.Ok? then w.letters[i := l.(status := Read)] else w.letters;
    var w' := Step(c, w, Deliver(i, draw)).0;
    assert w' == w.WithParty(l.toBob, t).(letters := letters);
    assert LettersOk(c, g, letters) by {
      DeliverLetters(c, h, w.letters, s, i, draw);
    }
    DeliverParts(c, w, h, i, draw);
    WorldOkFor(c, w', g, l.toBob, t, w.Party(!l.toBob), Position(g, l.toBob), Position(g, !l.toBob));
  }

  lemma StepOutcome(c: Suite, w: World, i: nat, draw: Bytes)
    requires Deliverable(w, i)
    ensures var l := w.letters[i];
            var r := Decrypt(c, w.Party(l.toBob), l.message, l.ad, draw).1;
            Step(c, w, Deliver(i, draw)).1 == if r.Err? then Refused(r.error) else Received(r.value)
  {
  }

  /** The message is read unless a guard fires. */
  lemma DeliverOutcome(c: Suite, w: World, h: History, i: nat, draw: Bytes)
    requires Sound(c) && WorldOk(c, w, h) && Deliverable(w, i) && Fresh(c, h, draw)
    ensures var l := w.letters[i];
            Step(c, w, Deliver(i, draw)).1
            == if GuardFires(w.Party(l.toBob), l.message.header) then Refused(TooManySkipped) else Received(l.plaintext)
  {
    StepOutcome(c, w, i, draw);
    DeliverParts(c, w, h, i, draw);
  }

  lemma DropStep(c: Suite, w: World, h: History, i: nat)
    requires WorldOk(c, w, h)
    ensures WorldOk(c, Step(c, w, Drop(i)).0, h)
  {
    var w' := Step(c, w, Drop(i)).0;
    forall j | 0 <= j < |w'.letters| ensures LetterOk(c, h, w'.letters[j], h.ids[j]) {
      assert LetterOk(c, h, w.letters[j], h.ids[j]);
    }
  }

  lemma {:induction false} ChainNotEmpty(c: Suite, start: Bytes, n: nat)
    requires Sound(c) && start != []
    ensures Chain(c, start, n) != []
  {
  }

  /** Reachable sessions never hold a zero-length key, so saving and loading them changes nothing. */
  lemma ReloadSame(c: Suite, h: History, s: State, p: nat)
    requires Sound(c) && HistoryOk(c, h) && p < |h.keys| && PartyOk(c, h, s, p)
    ensures Reloaded(s) == s
  {
    if p >= 1 {
      ChainNotEmpty(c, ChainStart(c, h.secret, h.keys, p), h.lens[p]);
    }
    if p >= 2 {
      ChainNotEmpty(c, ChainStart(c, h.secret, h.keys, p - 1), s.Nr);
    }
    forall entries: seq<(string, Bytes)> | Lists(entries, s.MKSKIPPED) ensures Deserialize(Serialize(s, entries)) == s {
      SaveLoad(s, entries);
    }
  }

  lemma ReloadStep(c: Suite, w: World, h: History, ofBob: bool)
    requires Sound(c) && WorldOk(c, w, h)
    ensures Step(c, w, Reload(ofBob)).0 == w
  {
    ReloadSame(c, h, w.Party(ofBob), Position(h, ofBob));
  }

  lemma StepOk(c: Suite, w: World, h: History, e: Event)
    requires Sound(c) && WorldOk(c, w, h) && (e.Deliver? ==> Fresh(c, h, e.draw))
    ensures WorldOk(c, Step(c, w, e).0, HistoryStep(c, w, h, e))
  {
    match e
    case Send(_, _, _, _) => SendStep(c, w, h, e);
    case Deliver(i, draw) =>
      if Deliverable(w, i) {
        DeliverStep(c, w, h, i, draw);
      }
    case Drop(i) => DropStep(c, w, h, i);
    case Reload(ofBob) => ReloadStep(c, w, h, ofBob);
  }

  lemma StartOk(c: Suite, cfg: Config)
    requires Sound(c) && cfg.secret != [] && c.PublicKey(cfg.preKey) != c.PublicKey(cfg.draw)
    ensures WorldOk(c, Start(c, cfg), StartHistory(cfg))
  {
    var h := StartHistory(cfg);
    var w := Start(c, cfg);
    assert Root(c, h.secret, h.keys, 1) == c.RootStep(cfg.secret, DhAt(c, h.keys, 1));
    assert PartyOk(c, h, w.Party(false), 1) && PartyOk(c, h, w.Party(true), 0);
    WorldOkFor(c, w, h, true, w.bob, w.alice, 0, 1);
  }
}
