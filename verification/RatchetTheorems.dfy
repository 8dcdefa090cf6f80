/** What holds in every state two honest parties can reach, over every interleaving of sends, reordered,
    delayed and dropped deliveries, and reloads. */
module RatchetTheorems {
  import opened Options
  import opened Encoding
  import opened Ratchet
  import opened RatchetProtocol
  import opened RatchetRuns

  /** Every message number below a chain's length belongs to a posted letter. */
  ghost predicate Covered(h: History) {
    forall id: Id :: IdOk(h, id) ==> id in h.ids
  }

  /** The history h accounts for the state reached by the events. */
  ghost predicate Explains(c: Suite, cfg: Config, events: seq<Event>, h: History) {
    && WorldOk(c, Run(c, cfg, events), h)
    && h.secret == cfg.secret && [cfg.preKey, cfg.draw] <= h.keys
    && Covered(h)
    && (forall k :: k in h.keys ==> k in AllKeys(cfg, events))
  }

  lemma CoveredStep(c: Suite, w: World, h: History, e: Event)
    requires WorldOk(c, w, h) && Covered(h)
    ensures Covered(HistoryStep(c, w, h, e))
  {
    var g := HistoryStep(c, w, h, e);
    if e.Send? && g != h {
      var p := Position(h, e.byBob);
      forall id: Id | IdOk(g, id) ensures id in g.ids {
        if id == Id(p, h.lens[p]) {
          assert g.ids[|h.ids|] == id;
        } else {
          assert IdOk(h, id);
        }
      }
    } else if e.Deliver? && Deliverable(w, e.index) {
      forall id: Id | IdOk(g, id) ensures id in g.ids {
        assert IdOk(h, id);
      }
    }
  }

  lemma KeysStep(c: Suite, w: World, h: History, e: Event)
    requires WorldOk(c, w, h)
    ensures var g := HistoryStep(c, w, h, e);
            g.secret == h.secret && (g.keys == h.keys || (e.Deliver? && g.keys == h.keys + [e.draw]))
  {
  }

  lemma HonestPrefix(c: Suite, cfg: Config, events: seq<Event>)
    requires events != [] && Honest(c, cfg, events)
    ensures Honest(c, cfg, events[..|events| - 1])
    ensures AllKeys(cfg, events[..|events| - 1]) <= AllKeys(cfg, events)
    ensures events[|events| - 1].Deliver? ==>
              AllKeys(cfg, events) == AllKeys(cfg, events[..|events| - 1]) + [events[|events| - 1].draw]
  {
    var a, b := AllKeys(cfg, events[..|events| - 1]), AllKeys(cfg, events);
    assert forall i :: 0 <= i < |a| ==> b[i] == a[i];
  }

  lemma DrawIsFresh(c: Suite, keys: seq<Bytes>, draw: Bytes, h: History)
    requires DistinctPublics(c, keys + [draw]) && forall k :: k in h.keys ==> k in keys
    ensures Fresh(c, h, draw)
  {
    var all := keys + [draw];
    forall i | 0 <= i < |h.keys| ensures c.PublicKey(h.keys[i]) != c.PublicKey(draw) {
      assert h.keys[i] in keys;
      var j :| 0 <= j < |keys| && keys[j] == h.keys[i];
      assert all[j] == keys[j] && all[|keys|] == draw;
    }
  }

  /** One more event. */
  lemma StepExplains(c: Suite, cfg: Config, events: seq<Event>, h: History, g: History)
    requires Sound(c) && Honest(c, cfg, events) && events != []
    requires var before := events[..|events| - 1];
             Explains(c, cfg, before, h) && g == HistoryStep(c, Run(c, cfg, before), h, events[|events| - 1])
    ensures Honest(c, cfg, events[..|events| - 1]) && Explains(c, cfg, events, g)
  {
    var before, e := events[..|events| - 1], events[|events| - 1];
    var w := Run(c, cfg, before);
    HonestPrefix(c, cfg, events);
    if e.Deliver? {
      DrawIsFresh(c, AllKeys(cfg, before), e.draw, h);
    }
    StepOk(c, w, h, e);
    CoveredStep(c, w, h, e);
    KeysStep(c, w, h, e);
  }

  lemma StartExplains(c: Suite, cfg: Config)
    requires Sound(c) && Honest(c, cfg, [])
    ensures Explains(c, cfg, [], StartHistory(cfg))
  {
    var all := AllKeys(cfg, []);
    assert c.PublicKey(all[0]) != c.PublicKey(all[1]);
    StartOk(c, cfg);
  }

  /** The invariant over all runs. */
  lemma {:induction false} Reachable(c: Suite, cfg: Config, events: seq<Event>)
    requires Sound(c) && Honest(c, cfg, events)
    ensures exists h :: Explains(c, cfg, events, h)
  {
    if events == [] {
      StartExplains(c, cfg);
    } else {
      var before := events[..|events| - 1];
      HonestPrefix(c, cfg, events);
      Reachable(c, cfg, before);
      var h :| Explains(c, cfg, before, h);
      StepExplains(c, cfg, events, h, HistoryStep(c, Run(c, cfg, before), h, events[|events| - 1]));
    }
  }

  // --------------------------------------------------- out-of-order delivery

  /** Whatever happened before, delivering a letter in flight yields what its sender encrypted, unless
      a skip guard fires; and whether one fires can be read off the header and the receiver beforehand. */
  lemma OutOfOrder(c: Suite, cfg: Config, events: seq<Event>, i: nat, draw: Bytes)
    requires Sound(c) && Honest(c, cfg, events + [Deliver(i, draw)]) && Deliverable(Run(c, cfg, events), i)
    ensures var w := Run(c, cfg, events);
            var l := w.letters[i];
            Step(c, w, Deliver(i, draw)).1
            == if GuardFires(w.Party(l.toBob), l.message.header) then Refused(TooManySkipped) else Received(l.plaintext)
  {
    var all := events + [Deliver(i, draw)];
    assert all[..|all| - 1] == events;
    HonestPrefix(c, cfg, all);
    Reachable(c, cfg, events);
    var h :| Explains(c, cfg, events, h);
    DrawIsFresh(c, AllKeys(cfg, events), draw, h);
    DeliverOutcome(c, Run(c, cfg, events), h, i, draw);
  }

  lemma StepKeepsLetter(c: Suite, w: World, e: Event, i: nat)
    requires i < |w.letters|
    ensures var w' := Step(c, w, e).0;
            i < |w'.letters| && w'.letters[i] == w.letters[i].(status := w'.letters[i].status)
  {
  }

  lemma RunStep(c: Suite, cfg: Config, events: seq<Event>, e: Event)
    ensures Run(c, cfg, events + [e]) == Step(c, Run(c, cfg, events), e).0
  {
    var all := events + [e];
    assert all[..|all| - 1] == events;
  }

  ghost predicate Keeps(w: World, w': World, i: nat) {
    i < |w.letters| && i < |w'.letters| && w'.letters[i] == w.letters[i].(status := w'.letters[i].status)
  }

  lemma RunStepKeeps(c: Suite, cfg: Config, events: seq<Event>, e: Event, i: nat)
    requires i < |Run(c, cfg, events).letters|
    ensures Keeps(Run(c, cfg, events), Run(c, cfg, events + [e]), i)
  {
    RunStep(c, cfg, events, e);
    StepKeepsLetter(c, Run(c, cfg, events), e, i);
  }

  /** Letters are never rewritten: only their status changes. */
  lemma {:induction false} LettersKept(c: Suite, cfg: Config, events: seq<Event>, more: seq<Event>, i: nat)
    requires i < |Run(c, cfg, events).letters|
    ensures Keeps(Run(c, cfg, events), Run(c, cfg, events + more), i)
    decreases |more|
  {
    if more == [] {
      assert events + more == events;
    } else {
      var most, e := more[..|more| - 1], more[|more| - 1];
      LettersKept(c, cfg, events, most, i);
      RunStepKeeps(c, cfg, events + most, e, i);
      assert (events + most) + [e] == events + more;
    }
  }

  /** From one party's encrypt to the other party's decrypt, across anything in between. */
  lemma EndToEnd(c: Suite, cfg: Config, before: seq<Event>, e: Event, between: seq<Event>, draw: Bytes)
    requires var i := |Run(c, cfg, before).letters|;
             var events := before + [e] + between;
             && Sound(c) && Honest(c, cfg, events + [Deliver(i, draw)])
             && e.Send? && Step(c, Run(c, cfg, before), e).1 == Posted
             && Deliverable(Run(c, cfg, events), i)
    ensures var i := |Run(c, cfg, before).letters|;
            var w := Run(c, cfg, before + [e] + between);
            var receiver := w.Party(!e.byBob);
            Step(c, w, Deliver(i, draw)).1
            == if GuardFires(receiver, w.letters[i].message.header) then Refused(TooManySkipped)
               else Received(e.plaintext)
  {
    var i := |Run(c, cfg, before).letters|;
    var sent := before + [e];
    assert sent[..|sent| - 1] == before;
    LettersKept(c, cfg, sent, between, i);
    OutOfOrder(c, cfg, sent + between, i, draw);
  }

  // ------------------------------------------------------ root chain lockstep

  /** The delivery turns its receiver's ratchet. */
  ghost predicate TurnsReceiver(w: World, e: Event) {
    e.Deliver? && Deliverable(w, e.index) &&
    var l := w.letters[e.index];
    Turns(w.Party(l.toBob), l.message.header)
  }

  /** The own keys of both parties in the order in which they came into use: the pre-key, the initiator's
      first key, and then one key per ratchet turn. */
  ghost function OwnKeys(c: Suite, cfg: Config, events: seq<Event>): (keys: seq<Bytes>)
    ensures |keys| >= 2
  {
    if events == [] then [cfg.preKey, cfg.draw]
    else
      var before, e := events[..|events| - 1], events[|events| - 1];
      OwnKeys(c, cfg, before) + if TurnsReceiver(Run(c, cfg, before), e) then [e.draw] else []
  }

  /** Each party is at its own last key: one of them at the end of the sequence, the other just before it. */
  function Place(keys: seq<Bytes>, isBob: bool): nat
    requires |keys| >= 2
  {
    if IsBobs(|keys| - 1) == isBob then |keys| - 1 else |keys| - 2
  }

  ghost predicate ExplainsTurns(c: Suite, cfg: Config, events: seq<Event>, h: History) {
    Explains(c, cfg, events, h) && h.keys == OwnKeys(c, cfg, events)
  }

  lemma TurnedKeys(c: Suite, w: World, h: History, e: Event)
    requires WorldOk(c, w, h)
    ensures HistoryStep(c, w, h, e).keys == h.keys + if TurnsReceiver(w, e) then [e.draw] else []
  {
    assert h.keys + [] == h.keys;
  }

  lemma {:induction false} ReachableTurns(c: Suite, cfg: Config, events: seq<Event>)
    requires Sound(c) && Honest(c, cfg, events)
    ensures exists h :: ExplainsTurns(c, cfg, events, h)
  {
    if events == [] {
      StartExplains(c, cfg);
      assert ExplainsTurns(c, cfg, events, StartHistory(cfg));
    } else {
      var before, e := events[..|events| - 1], events[|events| - 1];
      HonestPrefix(c, cfg, events);
      ReachableTurns(c, cfg, before);
      var h :| ExplainsTurns(c, cfg, before, h);
      var g := HistoryStep(c, Run(c, cfg, before), h, e);
      StepExplains(c, cfg, events, h, g);
      TurnedKeys(c, Run(c, cfg, before), h, e);
      assert ExplainsTurns(c, cfg, events, g);
    }
  }

  /** Alice is at position pa and Bob at position pb of the root keys that `keys` give. */
  ghost predicate InLockstep(c: Suite, cfg: Config, w: World, keys: seq<Bytes>, pa: nat, pb: nat) {
    && pa < |keys| && pb < |keys|
    && (pa == pb + 1 || pb == pa + 1) && |keys| - 1 == (if pa < pb then pb else pa)
    && w.alice.RK == Some(Root(c, cfg.secret, keys, pa))
    && w.alice.DHs == Some(KeyPair(keys[pa], c.PublicKey(keys[pa])))
    && w.bob.RK == Some(Root(c, cfg.secret, keys, pb))
    && w.bob.DHs == Some(KeyPair(keys[pb], c.PublicKey(keys[pb])))
  }

  lemma LockstepIn(c: Suite, cfg: Config, w: World, h: History)
    requires WorldOk(c, w, h) && h.secret == cfg.secret
    ensures InLockstep(c, cfg, w, h.keys, Place(h.keys, false), Place(h.keys, true))
  {
    assert PartyOk(c, h, w.Party(false), Position(h, false)) && PartyOk(c, h, w.Party(true), Position(h, true));
  }

  /** After any run both parties are on the root keys that the keys of that run give, exactly one position
      apart. */
  lemma RootLockstep(c: Suite, cfg: Config, events: seq<Event>, w: World, keys: seq<Bytes>)
    requires Sound(c) && Honest(c, cfg, events) && w == Run(c, cfg, events) && keys == OwnKeys(c, cfg, events)
    ensures InLockstep(c, cfg, w, keys, Place(keys, false), Place(keys, true))
  {
    ReachableTurns(c, cfg, events);
    var h :| ExplainsTurns(c, cfg, events, h);
    LockstepIn(c, cfg, w, h);
  }

  lemma {:induction false} KeysGrow(c: Suite, cfg: Config, events: seq<Event>, all: seq<Event>)
    requires events <= all
    ensures OwnKeys(c, cfg, events) <= OwnKeys(c, cfg, all)
    decreases |all|
  {
    if |all| == |events| {
      assert all == events;
    } else {
      KeysGrow(c, cfg, events, all[..|all| - 1]);
      assert OwnKeys(c, cfg, all[..|all| - 1]) <= OwnKeys(c, cfg, all);
    }
  }

  lemma OwnKeysNext(c: Suite, cfg: Config, events: seq<Event>, e: Event)
    ensures OwnKeys(c, cfg, events + [e])
         == OwnKeys(c, cfg, events) + if TurnsReceiver(Run(c, cfg, events), e) then [e.draw] else []
  {
    assert (events + [e])[..|events|] == events;
  }

  /** It is one sequence throughout: the keys of a run only grow, and so the root key at any position of it
      stays what it was. */
  lemma OneSequence(
    c: Suite, cfg: Config, events: seq<Event>, more: seq<Event>, keys: seq<Bytes>, later: seq<Bytes>, i: nat)
    requires keys == OwnKeys(c, cfg, events) && later == OwnKeys(c, cfg, events + more)
    ensures keys <= later
    ensures i < |keys| ==> Root(c, cfg.secret, later, i) == Root(c, cfg.secret, keys, i)
  {
    KeysGrow(c, cfg, events, events + more);
    if i < |keys| {
      RootPrefix(c, cfg.secret, keys, later, i);
    }
  }

  lemma TurnIsBehind(c: Suite, w: World, h: History, e: Event)
    requires Sound(c) && WorldOk(c, w, h) && TurnsReceiver(w, e) && Fresh(c, h, e.draw)
    ensures Position(h, w.letters[e.index].toBob) + 2 == |h.keys|
  {
    var i, l := e.index, w.letters[e.index];
    BeforeDelivery(c, w, h, i);
    TurnsOnce(c, h, w.Party(l.toBob), l, h.ids[i], e.draw, Position(h, l.toBob));
  }

  lemma PlacesAfterTurn(keys: seq<Bytes>, draw: Bytes, isBob: bool)
    requires |keys| >= 2 && Place(keys, isBob) + 2 == |keys|
    ensures Place(keys + [draw], isBob) == Place(keys, isBob) + 2 && Place(keys + [draw], !isBob) == Place(keys, !isBob)
  {
  }

  lemma HonestBefore(c: Suite, cfg: Config, events: seq<Event>, e: Event)
    requires Honest(c, cfg, events + [e])
    ensures Honest(c, cfg, events) && (e.Deliver? ==> DistinctPublics(c, AllKeys(cfg, events) + [e.draw]))
  {
    var all := events + [e];
    assert all[..|all| - 1] == events;
    HonestPrefix(c, cfg, all);
  }

  lemma TurnerIn(c: Suite, w: World, h: History, e: Event, all: seq<Bytes>)
    requires Sound(c) && WorldOk(c, w, h) && TurnsReceiver(w, e)
    requires DistinctPublics(c, all + [e.draw]) && forall k :: k in h.keys ==> k in all
    ensures Position(h, w.letters[e.index].toBob) + 2 == |h.keys|
  {
    DrawIsFresh(c, all, e.draw, h);
    TurnIsBehind(c, w, h, e);
  }

  lemma TurnerPlace(c: Suite, cfg: Config, events: seq<Event>, e: Event, w: World, keys: seq<Bytes>, h: History)
    requires Sound(c) && ExplainsTurns(c, cfg, events, h) && w == Run(c, cfg, events) && keys == h.keys
    requires TurnsReceiver(w, e) && DistinctPublics(c, AllKeys(cfg, events) + [e.draw])
    ensures |keys| >= 2 && Place(keys, w.letters[e.index].toBob) + 2 == |keys|
  {
    TurnerIn(c, w, h, e, AllKeys(cfg, events));
  }

  lemma TurnerIsBehind(c: Suite, cfg: Config, events: seq<Event>, e: Event, w: World, keys: seq<Bytes>)
    requires Sound(c) && Honest(c, cfg, events) && w == Run(c, cfg, events) && keys == OwnKeys(c, cfg, events)
    requires TurnsReceiver(w, e) && DistinctPublics(c, AllKeys(cfg, events) + [e.draw])
    ensures Place(keys, w.letters[e.index].toBob) + 2 == |keys|
  {
    ReachableTurns(c, cfg, events);
    var h :| ExplainsTurns(c, cfg, events, h);
    TurnerPlace(c, cfg, events, e, w, keys, h);
  }

  /** A delivery that turns the ratchet moves its receiver on by exactly two positions and nobody else; no
      other step moves anybody. */
  lemma TurnMovesTwo(c: Suite, cfg: Config, events: seq<Event>, e: Event, w: World, keys: seq<Bytes>, later: seq<Bytes>)
    requires Sound(c) && Honest(c, cfg, events + [e]) && w == Run(c, cfg, events)
    requires keys == OwnKeys(c, cfg, events) && later == OwnKeys(c, cfg, events + [e])
    ensures if TurnsReceiver(w, e) then
              var toBob := w.letters[e.index].toBob;
              && later == keys + [e.draw]
              && Place(later, toBob) == Place(keys, toBob) + 2 && Place(later, !toBob) == Place(keys, !toBob)
            else later == keys
  {
    OwnKeysNext(c, cfg, events, e);
    if TurnsReceiver(w, e) {
      HonestBefore(c, cfg, events, e);
      TurnerIsBehind(c, cfg, events, e, w, keys);
      PlacesAfterTurn(keys, e.draw, w.letters[e.index].toBob);
    }
  }

  // ------------------------------------------------ the previous chain's length

  /** The message is on the sender's current chain and the receiver on the chain before it. */
  predicate OnCurrentChain(h: Header, sender: State, receiver: State) {
    && sender.DHs.Some? && h.dhPublicKey == sender.DHs.value.publicKey
    && h.previousCounter == sender.PN && receiver.Nr <= sender.PN
    && receiver.DHs.Some? && sender.DHr == Some(receiver.DHs.value.publicKey)
  }

  /** A letter with this number was posted on the chain that goes by this public key. */
  ghost predicate PostedOn(w: World, toBob: bool, publicKey: Bytes, n: nat) {
    exists l :: l in w.letters && l.toBob == toBob && l.message.header.dhPublicKey == publicKey
                && l.message.header.messageNumber == n
  }

  /** A new letter, the receiver's slot for it empty. */
  predicate OpensChain(s: State, l: Letter) {
    LetterSlot(l) !in s.MKSKIPPED && NeedsRatchet(s, l.message.header)
  }

  lemma NextChain(c: Suite, h: History, s: State, p: nat, sender: State, q: nat, l: Letter, id: Id)
    requires HistoryOk(c, h) && p < |h.keys| <= p + 2 && PartyOk(c, h, s, p) && Addressed(c, h, l, id, p)
    requires q < |h.keys| <= q + 2 && p != q && ChainsOk(c, h, sender, q) && OpensChain(s, l)
    ensures OnCurrentChain(l.message.header, sender, s) && id.chain == p + 1
    ensures s.DHr.Some? ==> id.chain >= 2 && s.DHr.value == c.PublicKey(h.keys[id.chain - 2])
  {
    WhichChain(c, h, s, p, id);
    assert Slots(c, h)(id) == LetterSlot(l);
    assert id !in Pending(h, p, s.Nr);
  }

  lemma BothSides(c: Suite, w: World, h: History, i: nat, l: Letter, p: nat, q: nat)
    requires WorldOk(c, w, h) && Deliverable(w, i) && l == w.letters[i]
    requires p == Position(h, l.toBob) && q == Position(h, !l.toBob)
    ensures p < |h.keys| <= p + 2 && PartyOk(c, h, w.Party(l.toBob), p) && Addressed(c, h, l, h.ids[i], p)
    ensures q < |h.keys| <= q + 2 && ChainsOk(c, h, w.Party(!l.toBob), q) && p != q
  {
    BeforeDelivery(c, w, h, i);
    Parities(h, !l.toBob);
    assert PartyOk(c, h, w.Party(!l.toBob), q);
  }

  lemma NextChainIn(c: Suite, w: World, h: History, i: nat, l: Letter, s: State)
    requires WorldOk(c, w, h) && Deliverable(w, i) && l == w.letters[i] && s == w.Party(l.toBob) && OpensChain(s, l)
    ensures OnCurrentChain(l.message.header, w.Party(!l.toBob), s) && IdOk(h, h.ids[i])
    ensures s.DHr.Some? ==> h.ids[i].chain >= 2 && s.DHr.value == c.PublicKey(h.keys[h.ids[i].chain - 2])
  {
    var p, q := Position(h, l.toBob), Position(h, !l.toBob);
    BothSides(c, w, h, i, l, p, q);
    NextChain(c, h, s, p, w.Party(!l.toBob), q, l, h.ids[i]);
  }

  lemma BelowLengthPosted(c: Suite, w: World, h: History, q: nat, n: nat)
    requires LettersOk(c, h, w.letters) && Covered(h) && IdOk(h, Id(q, n))
    ensures PostedOn(w, !IsBobs(q), c.PublicKey(h.keys[q]), n)
  {
    assert Id(q, n) in h.ids;
    var j :| 0 <= j < |h.ids| && h.ids[j] == Id(q, n);
    assert LetterOk(c, h, w.letters[j], h.ids[j]);
    assert w.letters[j] in w.letters;
  }

  lemma PostedBelowLength(c: Suite, w: World, h: History, q: nat, l: Letter)
    requires DistinctPublics(c, h.keys) && LettersOk(c, h, w.letters) && q < |h.keys| && l in w.letters
    requires l.message.header.dhPublicKey == c.PublicKey(h.keys[q])
    ensures IdOk(h, Id(q, l.message.header.messageNumber))
  {
    var j :| 0 <= j < |w.letters| && w.letters[j] == l;
    assert LetterOk(c, h, w.letters[j], h.ids[j]) && IdOk(h, h.ids[j]);
  }

  /** The letters of a chain are those with the numbers below its length. */
  lemma ChainLetters(c: Suite, w: World, h: History, q: nat, n: nat)
    requires HistoryOk(c, h) && LettersOk(c, h, w.letters) && Covered(h) && q < |h.keys|
    ensures PostedOn(w, !IsBobs(q), c.PublicKey(h.keys[q]), n) <==> n < h.lens[q]
  {
    if n < h.lens[q] {
      BelowLengthPosted(c, w, h, q, n);
    }
    if l :| l in w.letters && l.toBob == !IsBobs(q) && l.message.header.dhPublicKey == c.PublicKey(h.keys[q])
            && l.message.header.messageNumber == n {
      PostedBelowLength(c, w, h, q, l);
    }
  }

  /** The previous counter of a letter counts the letters of the chain two before its own. */
  lemma CounterCounts(c: Suite, w: World, h: History, i: nat, chain: nat, n: nat)
    requires WorldOk(c, w, h) && Covered(h) && i < |w.letters| && 2 <= chain < |h.keys|
    requires w.letters[i].message.header.dhPublicKey == c.PublicKey(h.keys[chain])
    ensures n < w.letters[i].message.header.previousCounter
       <==> PostedOn(w, w.letters[i].toBob, c.PublicKey(h.keys[chain - 2]), n)
  {
    assert LetterOk(c, h, w.letters[i], h.ids[i]) && IdOk(h, h.ids[i]);
    assert h.ids[i].chain == chain;
    assert IsBobs(chain - 2) == IsBobs(chain);
    ChainLetters(c, w, h, chain - 2, n);
  }

  lemma CounterLater(c: Suite, w: World, h: History, w': World, g: History, i: nat, n: nat)
    requires WorldOk(c, w, h) && WorldOk(c, w', g) && Covered(g) && h.keys <= g.keys && Keeps(w, w', i)
    requires h.ids[i].chain >= 2
    ensures IdOk(h, h.ids[i])
    ensures n < w.letters[i].message.header.previousCounter
       <==> PostedOn(w', w.letters[i].toBob, c.PublicKey(h.keys[h.ids[i].chain - 2]), n)
  {
    assert LetterOk(c, h, w.letters[i], h.ids[i]);
    CounterCounts(c, w', g, i, h.ids[i].chain, n);
  }

  /** A message on a new chain always meets a receiver on the immediately preceding one. Its previous
      counter is that chain's final length: now and after anything that follows, the letters of that chain
      are exactly those with smaller numbers. */
  lemma PreviousCounter(
    c: Suite, cfg: Config, events: seq<Event>, more: seq<Event>, i: nat, w: World, w': World, n: nat)
    requires Sound(c) && Honest(c, cfg, events) && Honest(c, cfg, events + more)
    requires w == Run(c, cfg, events) && w' == Run(c, cfg, events + more)
    requires Deliverable(w, i) && OpensChain(w.Party(w.letters[i].toBob), w.letters[i])
    ensures var l := w.letters[i];
            var receiver := w.Party(l.toBob);
            && OnCurrentChain(l.message.header, w.Party(!l.toBob), receiver)
            && (receiver.DHr.Some? ==>
                  (n < l.message.header.previousCounter <==> PostedOn(w', l.toBob, receiver.DHr.value, n)))
  {
    ReachableTurns(c, cfg, events);
    var h :| ExplainsTurns(c, cfg, events, h);
    NextChainIn(c, w, h, i, w.letters[i], w.Party(w.letters[i].toBob));
    if w.Party(w.letters[i].toBob).DHr.Some? {
      ReachableTurns(c, cfg, events + more);
      var g :| ExplainsTurns(c, cfg, events + more, g);
      assert h.keys <= g.keys by {
        KeysGrow(c, cfg, events, events + more);
      }
      LettersKept(c, cfg, events, more, i);
      CounterLater(c, w, h, w', g, i, n);
    }
  }

  // ------------------------------------------------------ the store is exact

  function LetterSlot(l: Letter): string {
    SkipKey(l.message.header.dhPublicKey, l.message.header.messageNumber)
  }

  /** The receiver s has gone past this message: on its current chain by counter, otherwise because the
      chain is not the one that the peer is sending on. */
  predicate PassedOver(s: State, peer: State, h: Header) {
    if s.DHr == Some(h.dhPublicKey) then h.messageNumber < s.Nr
    else !(peer.DHs.Some? && peer.DHs.value.publicKey == h.dhPublicKey)
  }

  lemma LetterStored(c: Suite, h: History, s: State, p: nat, l: Letter, id: Id)
    requires Sound(c) && HistoryOk(c, h) && p < |h.keys| && PartyOk(c, h, s, p)
    requires IdOk(h, id) && LetterOk(c, h, l, id)
    ensures LetterSlot(l) in s.MKSKIPPED <==> id in Pending(h, p, s.Nr)
    ensures LetterSlot(l) in s.MKSKIPPED ==>
              OpenWith(c, s.MKSKIPPED[LetterSlot(l)], l.message, l.ad) == Ok(l.plaintext)
  {
    assert LetterSlot(l) == Slots(c, h)(id);
    if id in Pending(h, p, s.Nr) {
      assert s.MKSKIPPED[Slots(c, h)(id)] == KeyOf(c, h, id);
    } else {
      NotStored(c, h, s, p, id);
    }
  }

  lemma LetterPending(c: Suite, w: World, h: History, isBob: bool, l: Letter)
    requires Sound(c) && WorldOk(c, w, h) && l in w.letters && l.toBob == isBob
    ensures var s, peer := w.Party(isBob), w.Party(!isBob);
            && (LetterSlot(l) in s.MKSKIPPED <==> l.status != Read && PassedOver(s, peer, l.message.header))
            && (LetterSlot(l) in s.MKSKIPPED ==>
                  OpenWith(c, s.MKSKIPPED[LetterSlot(l)], l.message, l.ad) == Ok(l.plaintext))
  {
    var i :| 0 <= i < |w.letters| && w.letters[i] == l;
    var id := h.ids[i];
    var s, p, q := w.Party(isBob), Position(h, isBob), Position(h, !isBob);
    Parities(h, isBob);
    Parities(h, !isBob);
    LetterStored(c, h, s, p, l, id);
    PassedIffPending(c, h, s, p, w.Party(!isBob), q, l, id);
  }

  lemma PassedIffPending(c: Suite, h: History, s: State, p: nat, peer: State, q: nat, l: Letter, id: Id)
    requires HistoryOk(c, h) && p < |h.keys| && q < |h.keys| && (p == q + 1 || q == p + 1)
    requires |h.keys| <= p + 2 && |h.keys| <= q + 2
    requires ChainsOk(c, h, s, p) && ChainsOk(c, h, peer, q) && ReadOk(h, p, s.Nr)
    requires IdOk(h, id) && LetterOk(c, h, l, id) && IsBobs(id.chain) != IsBobs(p)
    ensures id in Pending(h, p, s.Nr) <==> l.status != Read && PassedOver(s, peer, l.message.header)
  {
    assert IsBobs(id.chain) == IsBobs(q);
  }

  lemma IndexOf(ids: seq<Id>, id: Id) returns (i: nat)
    requires id in ids
    ensures i < |ids| && ids[i] == id
  {
    i :| 0 <= i < |ids| && ids[i] == id;
  }

  lemma StoredIsLetter(c: Suite, h: History, letters: seq<Letter>, s: State, p: nat, k: string)
    requires LettersOk(c, h, letters) && Covered(h)
    requires |h.lens| == |h.keys| && p < |h.keys| && PartyOk(c, h, s, p) && k in s.MKSKIPPED
    ensures exists l :: l in letters && l.toBob == IsBobs(p) && k == LetterSlot(l)
  {
    var id :| id in Pending(h, p, s.Nr) && k == Slots(c, h)(id);
    assert IdOk(h, id) && id in h.ids;
    var i := IndexOf(h.ids, id);
    assert LetterOk(c, h, letters[i], h.ids[i]);
    assert letters[i] in letters && k == LetterSlot(letters[i]);
  }

  /** Every entry of the map is the slot of a letter sent to this party. */
  ghost predicate OnlyLetters(m: map<string, Bytes>, letters: seq<Letter>, isBob: bool) {
    forall k :: k in m ==> exists l :: l in letters && l.toBob == isBob && k == LetterSlot(l)
  }

  /** The store of a reachable party holds a key under a letter's name exactly if the letter was passed
      over and not read, that key opens the letter, and there are no other entries. */
  lemma ExactStore(c: Suite, cfg: Config, events: seq<Event>, isBob: bool)
    requires Sound(c) && Honest(c, cfg, events)
    ensures var w := Run(c, cfg, events);
            var s, peer := w.Party(isBob), w.Party(!isBob);
            && (forall l :: l in w.letters && l.toBob == isBob ==>
                  && (LetterSlot(l) in s.MKSKIPPED <==> l.status != Read && PassedOver(s, peer, l.message.header))
                  && (LetterSlot(l) in s.MKSKIPPED ==>
                        OpenWith(c, s.MKSKIPPED[LetterSlot(l)], l.message, l.ad) == Ok(l.plaintext)))
            && OnlyLetters(s.MKSKIPPED, w.letters, isBob)
  {
    Reachable(c, cfg, events);
    var h :| Explains(c, cfg, events, h);
    var w := Run(c, cfg, events);
    var s := w.Party(isBob);
    forall l | l in w.letters && l.toBob == isBob
      ensures LetterSlot(l) in s.MKSKIPPED <==> l.status != Read && PassedOver(s, w.Party(!isBob), l.message.header)
      ensures LetterSlot(l) in s.MKSKIPPED ==>
                OpenWith(c, s.MKSKIPPED[LetterSlot(l)], l.message, l.ad) == Ok(l.plaintext)
    {
      LetterPending(c, w, h, isBob, l);
    }
    assert OnlyLetters(s.MKSKIPPED, w.letters, isBob) by {
      Parities(h, isBob);
      forall k | k in s.MKSKIPPED ensures exists l :: l in w.letters && l.toBob == isBob && k == LetterSlot(l) {
        StoredIsLetter(c, h, w.letters, s, Position(h, isBob), k);
      }
    }
  }

  // -------------------------------------------------------- save and reload

  function WithoutReloads(events: seq<Event>): seq<Event> {
    if events == [] then []
    else
      var e := events[|events| - 1];
      WithoutReloads(events[..|events| - 1]) + if e.Reload? then [] else [e]
  }

  lemma SameNext(c: Suite, cfg: Config, a: seq<Event>, b: seq<Event>, e: Event)
    requires Run(c, cfg, a) == Run(c, cfg, b)
    ensures Run(c, cfg, a + [e]) == Run(c, cfg, b + [e])
  {
    RunStep(c, cfg, a, e);
    RunStep(c, cfg, b, e);
  }

  lemma ReloadNext(c: Suite, cfg: Config, events: seq<Event>, ofBob: bool)
    requires Sound(c) && Honest(c, cfg, events)
    ensures Run(c, cfg, events + [Reload(ofBob)]) == Run(c, cfg, events)
  {
    Reachable(c, cfg, events);
    var h :| Explains(c, cfg, events, h);
    RunStep(c, cfg, events, Reload(ofBob));
    ReloadStep(c, Run(c, cfg, events), h, ofBob);
  }

  lemma SplitLast(events: seq<Event>)
    requires events != []
    ensures events[..|events| - 1] + [events[|events| - 1]] == events
  {
  }

  lemma KeptAre(events: seq<Event>, e: Event)
    ensures WithoutReloads(events + [e]) == if e.Reload? then WithoutReloads(events) else WithoutReloads(events) + [e]
  {
    assert (events + [e])[..|events|] == events;
  }

  /** Saving and loading either session anywhere in a run changes nothing that follows. */
  lemma {:induction false} ReloadsInvisible(c: Suite, cfg: Config, events: seq<Event>)
    requires Sound(c) && Honest(c, cfg, events)
    ensures Run(c, cfg, WithoutReloads(events)) == Run(c, cfg, events)
  {
    if events != [] {
      var before, e := events[..|events| - 1], events[|events| - 1];
      assert Honest(c, cfg, before) by {
        HonestPrefix(c, cfg, events);
      }
      ReloadsInvisible(c, cfg, before);
      SplitLast(events);
      KeptAre(before, e);
      if e.Reload? {
        ReloadNext(c, cfg, before, e.ofBob);
      } else {
        SameNext(c, cfg, WithoutReloads(before), before, e);
      }
    }
  }
}
