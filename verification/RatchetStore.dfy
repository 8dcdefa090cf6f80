/** How many keys a session puts aside: exactly, per delivery and over a run. The bound MAX_SKIP is one on
    each skip and not on the store, which has none. */
module RatchetStore {
  import opened Options
  import opened Encoding
  import opened Ratchet
  import opened RatchetProtocol
  import opened RatchetRuns
  import opened RatchetTheorems
  import opened KeyedStore
  import opened SuiteModels

  // --------------------------------------------------------------- one delivery

  /** The keys that a skip to `until` puts aside. */
  function PassedOverBy(s: State, until: nat): nat {
    if s.CKr.Some? && s.Nr < until then until - s.Nr else 0
  }

  /** By how much a delivery changes the number of stored keys, read off the state and the header before the
      call: one less if the key was put aside; otherwise what is skipped on the old chain before a turn, and
      what is skipped on the message's own chain, each unless its guard fires. */
  function Growth(s: State, h: Header): int {
    if SkipKey(h.dhPublicKey, h.messageNumber) in s.MKSKIPPED then -1
    else if !NeedsRatchet(s, h) then
      if s.Nr + MAX_SKIP < h.messageNumber then 0 else PassedOverBy(s, h.messageNumber)
    else if s.Nr + MAX_SKIP < h.previousCounter then 0
    else PassedOverBy(s, h.previousCounter) + if MAX_SKIP < h.messageNumber then 0 else h.messageNumber
  }

  lemma NewEntry(c: Suite, h: History, pending: iset<Id>, m: map<string, Bytes>, id: Id)
    requires DistinctPublics(c, h.keys) && StoreOk(c, h, pending, m) && id !in pending
    requires 1 <= id.chain < |h.keys| && forall x :: x in pending ==> x.chain < |h.keys|
    ensures var m' := m[Slot(c, h, id) := KeyOf(c, h, id)];
            |m'| == |m| + 1 && StoreOk(c, h, pending + iset{id}, m')
  {
    SlotsInjective(c, h, pending + iset{id});
    Absent(m, pending, Slots(c, h), Keys(c, h), id);
    Put(m, pending, Slots(c, h), Keys(c, h), id);
    assert m[Slot(c, h, id) := KeyOf(c, h, id)].Keys == m.Keys + {Slot(c, h, id)};
  }

  /** Putting aside the keys of messages not pending adds one entry each. */
  lemma {:induction false} StashCounts(
    c: Suite, h: History, p: nat, nr: nat, hi: nat, m: map<string, Bytes>, publicKey: Bytes, start: Bytes)
    requires DistinctPublics(c, h.keys) && |h.lens| == |h.keys| && 2 <= p <= |h.keys| && nr <= hi <= h.lens[p - 1]
    requires forall id :: id in h.read && id.chain == p - 1 ==> id.number < nr
    requires StoreOk(c, h, Pending(h, p, nr), m)
    requires publicKey == c.PublicKey(h.keys[p - 1]) && start == ChainStart(c, h.secret, h.keys, p - 1)
    ensures |Stash(c, m, publicKey, start, nr, hi)| == |m| + hi - nr
    decreases hi - nr
  {
    if nr < hi {
      var id := Id(p - 1, nr);
      var m' := m[Slot(c, h, id) := KeyOf(c, h, id)];
      assert |m'| == |m| + 1 && StoreOk(c, h, Pending(h, p, nr + 1), m') by {
        PendingNext(h, p, nr);
        NewEntry(c, h, Pending(h, p, nr), m, id);
      }
      StashCounts(c, h, p, nr + 1, hi, m', publicKey, start);
      assert m' == m[SkipKey(publicKey, nr) := c.MessageKey(Chain(c, start, nr))];
    }
  }

  lemma SkipCounts(c: Suite, h: History, s: State, p: nat, until: nat)
    requires HistoryOk(c, h) && p < |h.keys| && PartyOk(c, h, s, p)
    requires until <= (if p == 0 then 0 else h.lens[p - 1])
    ensures |Skip(c, s, until).MKSKIPPED| == |s.MKSKIPPED| + PassedOverBy(s, until)
  {
    if p >= 2 && s.Nr < until {
      var start := ChainStart(c, h.secret, h.keys, p - 1);
      SkipEffect(c, s, until, start);
      StashCounts(c, h, p, s.Nr, until, s.MKSKIPPED, c.PublicKey(h.keys[p - 1]), start);
    }
  }

  lemma OnChainCounts(c: Suite, h: History, s: State, p: nat, m: Message, ad: Bytes)
    requires HistoryOk(c, h) && 2 <= p < |h.keys| && PartyOk(c, h, s, p)
    requires s.Nr <= m.header.messageNumber < h.lens[p - 1]
    ensures |DecryptOnChain(c, s, m, ad).0.MKSKIPPED|
         == |s.MKSKIPPED| + if s.Nr + MAX_SKIP < m.header.messageNumber then 0 else m.header.messageNumber - s.Nr
  {
    SkipCounts(c, h, s, p, m.header.messageNumber);
  }

  lemma TurnKeepsStore(c: Suite, s: State, theirs: Bytes, draw: Bytes)
    ensures DhRatchet(c, s, theirs, draw).0.MKSKIPPED == s.MKSKIPPED
  {
  }

  /** The two parts of a turning delivery: the old chain up to its end, then the new one from its start. */
  lemma BeforeTurnCounts(c: Suite, h: History, s: State, p: nat, l: Letter, id: Id, n: nat)
    requires HistoryOk(c, h) && |h.keys| == p + 2 && PartyOk(c, h, s, p)
    requires Addressed(c, h, l, id, p) && id.chain == p + 1
    requires n == l.message.header.previousCounter
    ensures |Skip(c, s, n).MKSKIPPED| == |s.MKSKIPPED| + PassedOverBy(s, n)
  {
    assert n == PreviousLength(h, p + 1);
    SkipCounts(c, h, s, p, n);
  }

  lemma AfterTurnCounts(c: Suite, h: History, s: State, p: nat, l: Letter, id: Id, draw: Bytes, u: State)
    requires Sound(c) && HistoryOk(c, h) && |h.keys| == p + 2 && PartyOk(c, h, s, p)
    requires Addressed(c, h, l, id, p) && id.chain == p + 1 && Fresh(c, h, draw)
    requires l.message.header.previousCounter <= s.Nr + MAX_SKIP
    requires u == DhRatchet(c, Skip(c, s, l.message.header.previousCounter), l.message.header.dhPublicKey, draw).0
    ensures |DecryptOnChain(c, u, l.message, l.ad).0.MKSKIPPED|
         == |u.MKSKIPPED| + if MAX_SKIP < id.number then 0 else id.number
  {
    TurnForNext(c, h, s, p, l, id, draw);
    OnChainCounts(c, Turned(h, draw), u, p + 2, l.message, l.ad);
  }

  lemma TurnSucceeds(c: Suite, h: History, s: State, p: nat, theirs: Bytes, n: nat, draw: Bytes)
    requires p < |h.keys| == |h.lens| && PartyOk(c, h, s, p)
    ensures DhRatchet(c, Skip(c, s, n), theirs, draw).1.Ok?
  {
    SkipKeepsKeys(c, s, n);
  }

  lemma TurnCounts(c: Suite, h: History, s: State, p: nat, l: Letter, id: Id, draw: Bytes, t: State)
    requires Sound(c) && HistoryOk(c, h) && |h.keys| == p + 2 && PartyOk(c, h, s, p)
    requires Addressed(c, h, l, id, p) && id.chain == p + 1 && Fresh(c, h, draw)
    requires Turns(s, l.message.header) && t == Decrypt(c, s, l.message, l.ad, draw).0
    ensures |t.MKSKIPPED| == |s.MKSKIPPED| + Growth(s, l.message.header)
  {
    var u := DhRatchet(c, Skip(c, s, l.message.header.previousCounter), l.message.header.dhPublicKey, draw).0;
    BeforeTurnCounts(c, h, s, p, l, id, l.message.header.previousCounter);
    TurnKeepsStore(c, Skip(c, s, l.message.header.previousCounter), l.message.header.dhPublicKey, draw);
    AfterTurnCounts(c, h, s, p, l, id, draw, u);
    assert t == DecryptOnChain(c, u, l.message, l.ad).0 by {
      TurnSucceeds(c, h, s, p, l.message.header.dhPublicKey, l.message.header.previousCounter, draw);
      DecryptTurns(c, s, l.message, l.ad, draw);
    }
  }

  lemma StoredCounts(c: Suite, s: State, m: Message, ad: Bytes, draw: Bytes, t: State, slot: string)
    requires slot == SkipKey(m.header.dhPublicKey, m.header.messageNumber) && slot in s.MKSKIPPED
    requires t == Decrypt(c, s, m, ad, draw).0
    ensures |t.MKSKIPPED| == |s.MKSKIPPED| - 1
  {
    assert t.MKSKIPPED == s.MKSKIPPED - {slot};
    assert t.MKSKIPPED.Keys == s.MKSKIPPED.Keys - {slot};
  }

  lemma CurrentGrowth(c: Suite, s: State, m: Message, ad: Bytes, draw: Bytes, t: State)
    requires SkipKey(m.header.dhPublicKey, m.header.messageNumber) !in s.MKSKIPPED && !NeedsRatchet(s, m.header)
    requires s.CKr.Some? && s.Nr <= m.header.messageNumber && t == Decrypt(c, s, m, ad, draw).0
    requires |DecryptOnChain(c, s, m, ad).0.MKSKIPPED|
          == |s.MKSKIPPED| + if s.Nr + MAX_SKIP < m.header.messageNumber then 0 else m.header.messageNumber - s.Nr
    ensures |t.MKSKIPPED| == |s.MKSKIPPED| + Growth(s, m.header)
  {
  }

  lemma CurrentCounts(c: Suite, h: History, s: State, p: nat, l: Letter, id: Id, draw: Bytes, t: State)
    requires HistoryOk(c, h) && 2 <= p < |h.keys| && PartyOk(c, h, s, p) && Addressed(c, h, l, id, p)
    requires id.chain == p - 1 && s.Nr <= id.number && LetterSlot(l) !in s.MKSKIPPED
    requires t == Decrypt(c, s, l.message, l.ad, draw).0
    ensures |t.MKSKIPPED| == |s.MKSKIPPED| + Growth(s, l.message.header)
  {
    OnChainCounts(c, h, s, p, l.message, l.ad);
    CurrentGrowth(c, s, l.message, l.ad, draw, t);
  }

  lemma NextCounts(c: Suite, h: History, s: State, p: nat, l: Letter, id: Id, draw: Bytes, t: State)
    requires Sound(c) && HistoryOk(c, h) && |h.keys| == p + 2 && PartyOk(c, h, s, p)
    requires Addressed(c, h, l, id, p) && id.chain == p + 1 && Fresh(c, h, draw) && LetterSlot(l) !in s.MKSKIPPED
    requires t == Decrypt(c, s, l.message, l.ad, draw).0
    ensures |t.MKSKIPPED| == |s.MKSKIPPED| + Growth(s, l.message.header)
  {
    assert NeedsRatchet(s, l.message.header);
    if Turns(s, l.message.header) {
      TurnCounts(c, h, s, p, l, id, draw, t);
    } else {
      assert t == s;
    }
  }

  lemma PendingIsStored(c: Suite, h: History, s: State, p: nat, l: Letter, id: Id)
    requires HistoryOk(c, h) && p < |h.keys| && PartyOk(c, h, s, p) && IdOk(h, id) && LetterOk(c, h, l, id)
    requires LetterSlot(l) !in s.MKSKIPPED
    ensures id !in Pending(h, p, s.Nr)
  {
    assert LetterSlot(l) == Slots(c, h)(id);
  }

  /** What one delivery does to the number of keys a receiver stores. */
  lemma PartyCounts(c: Suite, h: History, s: State, p: nat, l: Letter, id: Id, draw: Bytes, t: State)
    requires Sound(c) && HistoryOk(c, h) && p < |h.keys| <= p + 2 && PartyOk(c, h, s, p)
    requires Addressed(c, h, l, id, p) && Fresh(c, h, draw) && t == Decrypt(c, s, l.message, l.ad, draw).0
    ensures |t.MKSKIPPED| == |s.MKSKIPPED| + Growth(s, l.message.header)
  {
    if LetterSlot(l) in s.MKSKIPPED {
      StoredCounts(c, s, l.message, l.ad, draw, t, LetterSlot(l));
    } else {
      WhichChain(c, h, s, p, id);
      PendingIsStored(c, h, s, p, l, id);
      if id.chain == p + 1 {
        NextCounts(c, h, s, p, l, id, draw, t);
      } else {
        CurrentCounts(c, h, s, p, l, id, draw, t);
      }
    }
  }

  lemma WorldCounts(c: Suite, w: World, h: History, i: nat, draw: Bytes, l: Letter, before: State, after: State)
    requires Sound(c) && WorldOk(c, w, h) && Deliverable(w, i) && Fresh(c, h, draw)
    requires l == w.letters[i] && before == w.Party(l.toBob) && after == Step(c, w, Deliver(i, draw)).0.Party(l.toBob)
    ensures |after.MKSKIPPED| == |before.MKSKIPPED| + Growth(before, l.message.header)
  {
    var p := Position(h, l.toBob);
    assert p < |h.keys| <= p + 2 && PartyOk(c, h, before, p) && Addressed(c, h, l, h.ids[i], p) by {
      BeforeDelivery(c, w, h, i);
    }
    assert after == Decrypt(c, before, l.message, l.ad, draw).0;
    PartyCounts(c, h, before, p, l, h.ids[i], draw, after);
  }

  /** In every reachable state a delivery changes the number of keys its receiver stores by exactly its
      growth. So the store stays within any limit if and only if the sum does. */
  lemma StoreGrowsExactly(
    c: Suite, cfg: Config, events: seq<Event>, i: nat, draw: Bytes, w: World, before: State, after: State, limit: nat)
    requires Sound(c) && Honest(c, cfg, events + [Deliver(i, draw)]) && w == Run(c, cfg, events) && Deliverable(w, i)
    requires before == w.Party(w.letters[i].toBob)
    requires after == Step(c, w, Deliver(i, draw)).0.Party(w.letters[i].toBob)
    ensures |after.MKSKIPPED| == |before.MKSKIPPED| + Growth(before, w.letters[i].message.header)
    ensures |after.MKSKIPPED| <= limit <==> |before.MKSKIPPED| + Growth(before, w.letters[i].message.header) <= limit
  {
    HonestBefore(c, cfg, events, Deliver(i, draw));
    Reachable(c, cfg, events);
    var h :| Explains(c, cfg, events, h);
    DrawIsFresh(c, AllKeys(cfg, events), draw, h);
    WorldCounts(c, w, h, i, draw, w.letters[i], before, after);
  }

  // ------------------------------------------------------------------- over a run

  /** What an event adds to a party's store. */
  ghost function GrowthAt(w: World, e: Event, isBob: bool): int {
    if e.Deliver? && Deliverable(w, e.index) && w.letters[e.index].toBob == isBob
    then Growth(w.Party(isBob), w.letters[e.index].message.header) else 0
  }

  ghost function TotalGrowth(c: Suite, cfg: Config, events: seq<Event>, isBob: bool): int {
    if events == [] then 0
    else
      var before := events[..|events| - 1];
      TotalGrowth(c, cfg, before, isBob) + GrowthAt(Run(c, cfg, before), events[|events| - 1], isBob)
  }

  lemma StepCounts(c: Suite, cfg: Config, before: seq<Event>, e: Event, isBob: bool, w: World, w': World)
    requires Sound(c) && Honest(c, cfg, before + [e]) && w == Run(c, cfg, before) && w' == Step(c, w, e).0
    ensures |w'.Party(isBob).MKSKIPPED| == |w.Party(isBob).MKSKIPPED| + GrowthAt(w, e, isBob)
  {
    match e
    case Send(_, _, _, _) =>
    case Drop(_) =>
    case Deliver(i, draw) =>
      if Deliverable(w, i) {
        var toBob := w.letters[i].toBob;
        StoreGrowsExactly(c, cfg, before, i, draw, w, w.Party(toBob), w'.Party(toBob), 0);
      }
    case Reload(ofBob) =>
      HonestBefore(c, cfg, before, e);
      ReloadNext(c, cfg, before, ofBob);
      RunStep(c, cfg, before, e);
  }

  /** The number of keys a party stores is the sum of the growths of the deliveries it had; it stays within
      MAX_SKIP over a run exactly as long as that sum does. */
  lemma {:induction false} StoreSize(c: Suite, cfg: Config, events: seq<Event>, isBob: bool)
    requires Sound(c) && Honest(c, cfg, events)
    ensures |Run(c, cfg, events).Party(isBob).MKSKIPPED| == TotalGrowth(c, cfg, events, isBob)
  {
    if events != [] {
      var before, e := events[..|events| - 1], events[|events| - 1];
      HonestPrefix(c, cfg, events);
      StoreSize(c, cfg, before, isBob);
      SplitLast(events);
      StepCounts(c, cfg, before, e, isBob, Run(c, cfg, before), Run(c, cfg, events));
    }
  }

  // ------------------------------------------------------------- no bound at all

  /** The initiator sends `n` messages more. */
  function SendsAfter(before: seq<Event>, n: nat): seq<Event> {
    if n == 0 then before else SendsAfter(before, n - 1) + [Send(false, [], [], [])]
  }

  function Sends(n: nat): seq<Event> {
    SendsAfter([], n)
  }

  /** Of these, every other one is delivered: numbers 1, 3, 5 and so on. */
  function EveryOther(n: nat, draws: seq<Bytes>): seq<Event> {
    if draws == [] then Sends(n)
    else EveryOther(n, draws[..|draws| - 1]) + [Deliver(2 * |draws| - 1, draws[|draws| - 1])]
  }

  /** The letters are the initiator's first chain, and those from number `from` on are in flight. */
  ghost predicate FirstChain(c: Suite, cfg: Config, letters: seq<Letter>, n: nat, from: nat) {
    && |letters| == n
    && forall k :: 0 <= k < n ==>
         && letters[k].toBob && letters[k].message.header == Header(c.PublicKey(cfg.draw), 0, k)
         && (k >= from ==> letters[k].status == InFlight)
  }

  /** The initiator has sent `n` messages more on its chain, and nothing else has happened. */
  ghost predicate SentMore(w: World, w': World, n: nat, own: Bytes) {
    && w'.bob == w.bob && w'.alice == w.alice.(CKs := w'.alice.CKs, Ns := w.alice.Ns + n) && w'.alice.CKs.Some?
    && |w'.letters| == |w.letters| + n && w.letters <= w'.letters
    && forall k :: |w.letters| <= k < |w'.letters| ==>
         && w'.letters[k].toBob && w'.letters[k].status == InFlight
         && w'.letters[k].message.header == Header(own, w.alice.PN, w.alice.Ns + k - |w.letters|)
  }

  lemma OneMoreSent(c: Suite, w: World, m: nat, n: nat, own: Bytes, u: World)
    requires w.alice.DHs.Some? && w.alice.DHs.value.publicKey == own && SentMore(w, u, m, own) && n == m + 1
    ensures SentMore(w, Step(c, u, Send(false, [], [], [])).0, n, own)
  {
    var w' := Step(c, u, Send(false, [], [], [])).0;
    var letter := w'.letters[|u.letters|];
    assert w'.letters == u.letters + [letter];
  }

  lemma {:induction false} SendsFollow(c: Suite, cfg: Config, before: seq<Event>, n: nat, w: World, own: Bytes)
    requires w == Run(c, cfg, before)
    requires w.alice.CKs.Some? && w.alice.DHs.Some? && w.alice.DHs.value.publicKey == own
    ensures SentMore(w, Run(c, cfg, SendsAfter(before, n)), n, own)
  {
    if n > 0 {
      SendsFollow(c, cfg, before, n - 1, w, own);
      OneMoreSent(c, w, n - 1, n, own, Run(c, cfg, SendsAfter(before, n - 1)));
      RunStep(c, cfg, SendsAfter(before, n - 1), Send(false, [], [], []));
    }
  }

  lemma AfterSends(c: Suite, cfg: Config, n: nat, w: World)
    requires w == Run(c, cfg, Sends(n))
    ensures FirstChain(c, cfg, w.letters, n, 0) && w.bob == Start(c, cfg).bob
    ensures w.alice == Start(c, cfg).alice.(CKs := w.alice.CKs, Ns := n) && w.alice.CKs.Some?
  {
    SendsFollow(c, cfg, [], n, Start(c, cfg), c.PublicKey(cfg.draw));
  }

  /** The receiver after `k` deliveries: on the initiator's chain just behind message 2k - 1. */
  predicate Behind(c: Suite, cfg: Config, s: State, k: nat) {
    && |s.MKSKIPPED| == k && s.Nr == 2 * k && s.DHs.Some? && s.RK.Some?
    && (k == 0 ==> s.DHr.None? && s.CKr.None?)
    && (k > 0 ==> s.DHr == Some(c.PublicKey(cfg.draw)) && s.CKr.Some?)
  }

  /** Reading a message that was not put aside leaves the receiver just behind it on its chain. */
  lemma ReadMovesOn(c: Suite, s: State, m: Message, ad: Bytes, draw: Bytes, t: State)
    requires SkipKey(m.header.dhPublicKey, m.header.messageNumber) !in s.MKSKIPPED && s.DHs.Some? && s.RK.Some?
    requires !GuardFires(s, m.header) && m.header.previousCounter <= s.Nr
    requires NeedsRatchet(s, m.header) || (s.CKr.Some? && s.Nr <= m.header.messageNumber)
    requires t == Decrypt(c, s, m, ad, draw).0
    ensures t.Nr == m.header.messageNumber + 1 && t.DHr == Some(m.header.dhPublicKey)
    ensures t.CKr.Some? && t.DHs.Some? && t.RK.Some?
  {
    var u := if NeedsRatchet(s, m.header) then DhRatchet(c, s, m.header.dhPublicKey, draw).0 else s;
    assert t == DecryptOnChain(c, u, m, ad).0;
    SkipEnds(c, u, m.header.messageNumber);
    SkipKeepsKeys(c, u, m.header.messageNumber);
  }

  lemma {:induction false} SkipEnds(c: Suite, s: State, until: nat)
    requires s.CKr.Some? && s.DHr.Some? && s.Nr <= until
    ensures var t := Skip(c, s, until);
            t.Nr == until && t.CKr.Some? && t.DHr == s.DHr
    decreases until - s.Nr
  {
    if s.Nr < until {
      SkipEnds(c, SkipOne(c, s), until);
    }
  }

  lemma NextIsNew(c: Suite, cfg: Config, events: seq<Event>, w: World, k: nat)
    requires Sound(c) && Honest(c, cfg, events) && w == Run(c, cfg, events)
    requires 2 * k + 1 < |w.letters| && FirstChain(c, cfg, w.letters, |w.letters|, 2 * k) && Behind(c, cfg, w.bob, k)
    ensures LetterSlot(w.letters[2 * k + 1]) !in w.bob.MKSKIPPED
  {
    if k == 0 {
      assert w.bob.MKSKIPPED == map[];
    } else {
      ExactStore(c, cfg, events, true);
      assert w.letters[2 * k + 1] in w.letters;
    }
  }

  lemma OneMoreSkipped(c: Suite, cfg: Config, events: seq<Event>, w: World, k: nat, draw: Bytes, w': World)
    requires Sound(c) && Honest(c, cfg, events + [Deliver(2 * k + 1, draw)]) && w == Run(c, cfg, events)
    requires 2 * k + 1 < |w.letters| && FirstChain(c, cfg, w.letters, |w.letters|, 2 * k) && Behind(c, cfg, w.bob, k)
    requires w' == Step(c, w, Deliver(2 * k + 1, draw)).0
    ensures FirstChain(c, cfg, w'.letters, |w.letters|, 2 * (k + 1)) && Behind(c, cfg, w'.bob, k + 1)
  {
    var i, l := 2 * k + 1, w.letters[2 * k + 1];
    HonestBefore(c, cfg, events, Deliver(i, draw));
    NextIsNew(c, cfg, events, w, k);
    StoreGrowsExactly(c, cfg, events, i, draw, w, w.bob, w'.bob, 0);
    ReadMovesOn(c, w.bob, l.message, l.ad, draw, Decrypt(c, w.bob, l.message, l.ad, draw).0);
  }

  /** However many messages are passed over one at a time, all their keys are kept. */
  lemma {:induction false} StoreKeepsAll(c: Suite, cfg: Config, n: nat, draws: seq<Bytes>, w: World)
    requires Sound(c) && Honest(c, cfg, EveryOther(n, draws)) && w == Run(c, cfg, EveryOther(n, draws))
    requires 2 * |draws| <= n
    ensures FirstChain(c, cfg, w.letters, n, 2 * |draws|) && Behind(c, cfg, w.bob, |draws|)
  {
    if draws == [] {
      AfterSends(c, cfg, n, w);
    } else {
      var fewer := EveryOther(n, draws[..|draws| - 1]);
      var e := Deliver(2 * |draws| - 1, draws[|draws| - 1]);
      var w0 := Run(c, cfg, fewer);
      HonestBefore(c, cfg, fewer, e);
      StoreKeepsAll(c, cfg, n, draws[..|draws| - 1], w0);
      RunStep(c, cfg, fewer, e);
      OneMoreSkipped(c, cfg, fewer, w0, |draws| - 1, draws[|draws| - 1], w);
    }
  }

  // ------------------------------------------------------- two skips in one call

  /** A chain of `a` + 1 messages of which the first is read, an answer, and a chain of `b` + 1 messages. */
  function TwoChains(a: nat, b: nat, draw: Bytes, draw': Bytes): seq<Event> {
    SendsAfter(Sends(a + 1) + [Deliver(0, draw), Send(true, [], [], []), Deliver(a + 1, draw')], b + 1)
  }

  /** The first message of a chain, with nothing to skip on the chain before it. */
  lemma FirstOfChain(c: Suite, s: State, m: Message, ad: Bytes, draw: Bytes, t: State)
    requires SkipKey(m.header.dhPublicKey, 0) !in s.MKSKIPPED && s.DHs.Some? && s.RK.Some?
    requires NeedsRatchet(s, m.header) && m.header.previousCounter <= s.Nr && m.header.messageNumber == 0
    requires t == Decrypt(c, s, m, ad, draw).0
    ensures t.DHs == Some(KeyPair(draw, c.PublicKey(draw))) && t.DHr == Some(m.header.dhPublicKey)
    ensures t.CKs.Some? && t.CKr.Some? && t.RK.Some? && t.MKSKIPPED == s.MKSKIPPED
    ensures t.Nr == 1 && t.Ns == 0 && t.PN == s.Ns
  {
  }

  lemma FirstIsRead(c: Suite, cfg: Config, a: nat, draw: Bytes, w: World, w': World)
    requires w == Run(c, cfg, Sends(a + 1)) && w' == Step(c, w, Deliver(0, draw)).0
    ensures |w'.letters| == a + 1 && w'.alice == w.alice
    ensures w'.bob.DHs == Some(KeyPair(draw, c.PublicKey(draw))) && w'.bob.DHr == Some(c.PublicKey(cfg.draw))
    ensures w'.bob.CKs.Some? && w'.bob.CKr.Some? && w'.bob.RK.Some? && w'.bob.MKSKIPPED == map[]
    ensures w'.bob.Nr == 1 && w'.bob.Ns == 0 && w'.bob.PN == 0
  {
    AfterSends(c, cfg, a + 1, w);
    var l := w.letters[0];
    FirstOfChain(c, w.bob, l.message, l.ad, draw, Decrypt(c, w.bob, l.message, l.ad, draw).0);
  }

  /** The receiver has read the first of `a` + 1 messages and stores nothing. */
  predicate ReadOne(c: Suite, cfg: Config, s: State) {
    s.DHr == Some(c.PublicKey(cfg.draw)) && s.CKr.Some? && s.Nr == 1 && s.MKSKIPPED == map[]
  }

  /** The initiator is on a new chain, the one before it having carried `a` + 1 messages. */
  predicate Answered(c: Suite, s: State, a: nat, draw: Bytes) {
    s.DHs == Some(KeyPair(draw, c.PublicKey(draw))) && s.CKs.Some? && s.Ns == 0 && s.PN == a + 1
  }

  lemma AnswerRead(c: Suite, cfg: Config, a: nat, draw: Bytes, draw': Bytes, w: World, w': World, w'': World)
    requires |w.letters| == a + 1 && ReadOne(c, cfg, w.bob) && w.bob.CKs.Some? && w.bob.Ns == w.bob.PN == 0
    requires w.bob.DHs == Some(KeyPair(draw, c.PublicKey(draw))) && c.PublicKey(cfg.preKey) != c.PublicKey(draw)
    requires w.alice == Start(c, cfg).alice.(CKs := w.alice.CKs, Ns := a + 1)
    requires w' == Step(c, w, Send(true, [], [], [])).0 && w'' == Step(c, w', Deliver(a + 1, draw')).0
    ensures |w''.letters| == a + 2 && ReadOne(c, cfg, w''.bob) && Answered(c, w''.alice, a, draw')
  {
    var l := w'.letters[a + 1];
    assert l.message.header == Header(c.PublicKey(draw), 0, 0) && !l.toBob && l.status == InFlight;
    FirstOfChain(c, w'.alice, l.message, l.ad, draw', Decrypt(c, w'.alice, l.message, l.ad, draw').0);
  }

  lemma BeforeSecondChain(c: Suite, cfg: Config, a: nat, draw: Bytes, draw': Bytes, w: World)
    requires c.PublicKey(cfg.preKey) != c.PublicKey(draw)
    requires w == Run(c, cfg, Sends(a + 1) + [Deliver(0, draw), Send(true, [], [], []), Deliver(a + 1, draw')])
    ensures |w.letters| == a + 2 && ReadOne(c, cfg, w.bob) && Answered(c, w.alice, a, draw')
  {
    var e1, e2, e3, e4 := Sends(a + 1), Deliver(0, draw), Send(true, [], [], []), Deliver(a + 1, draw');
    assert e1 + [e2, e3, e4] == e1 + [e2] + [e3] + [e4];
    var w1, w2, w3 := Run(c, cfg, e1), Run(c, cfg, e1 + [e2]), Run(c, cfg, e1 + [e2] + [e3]);
    RunStep(c, cfg, e1, e2);
    RunStep(c, cfg, e1 + [e2], e3);
    RunStep(c, cfg, e1 + [e2] + [e3], e4);
    AfterSends(c, cfg, a + 1, w1);
    FirstIsRead(c, cfg, a, draw, w1, w2);
    assert w2.alice == Start(c, cfg).alice.(CKs := w2.alice.CKs, Ns := a + 1);
    AnswerRead(c, cfg, a, draw, draw', w2, w3, w);
  }

  lemma TwoSkips(c: Suite, cfg: Config, a: nat, b: nat, draw: Bytes, w: World, w': World)
    requires |w.letters| == a + 2 && ReadOne(c, cfg, w.bob) && Answered(c, w.alice, a, draw)
    requires SentMore(w, w', b + 1, c.PublicKey(draw)) && c.PublicKey(cfg.draw) != c.PublicKey(draw)
    requires a <= MAX_SKIP && b <= MAX_SKIP
    ensures Deliverable(w', a + b + 2) && w'.letters[a + b + 2].toBob && w'.bob.MKSKIPPED == map[]
    ensures Growth(w'.bob, w'.letters[a + b + 2].message.header) == a + b
  {
    assert w'.letters[a + b + 2].message.header == Header(c.PublicKey(draw), a + 1, b);
  }

  lemma BeforeLastCall(c: Suite, cfg: Config, a: nat, b: nat, draw: Bytes, draw': Bytes, w: World)
    requires a <= MAX_SKIP && b <= MAX_SKIP && w == Run(c, cfg, TwoChains(a, b, draw, draw'))
    requires c.PublicKey(cfg.preKey) != c.PublicKey(draw) && c.PublicKey(cfg.draw) != c.PublicKey(draw')
    ensures Deliverable(w, a + b + 2) && w.letters[a + b + 2].toBob && w.bob.MKSKIPPED == map[]
    ensures Growth(w.bob, w.letters[a + b + 2].message.header) == a + b
  {
    var before := Sends(a + 1) + [Deliver(0, draw), Send(true, [], [], []), Deliver(a + 1, draw')];
    BeforeSecondChain(c, cfg, a, draw, draw', Run(c, cfg, before));
    SendsFollow(c, cfg, before, b + 1, Run(c, cfg, before), c.PublicKey(draw'));
    TwoSkips(c, cfg, a, b, draw', Run(c, cfg, before), w);
  }

  /** A delivery of the message number `b` of a chain, on top of the one before it of length `a` + 1 and read
      up to number 0, puts `a` + `b` keys aside at once. */
  lemma OneCallAdds(c: Suite, cfg: Config, a: nat, b: nat, draw: Bytes, draw': Bytes, last: Bytes, w: World, w': World)
    requires Sound(c) && a <= MAX_SKIP && b <= MAX_SKIP
    requires Honest(c, cfg, TwoChains(a, b, draw, draw') + [Deliver(a + b + 2, last)])
    requires w == Run(c, cfg, TwoChains(a, b, draw, draw')) && w' == Step(c, w, Deliver(a + b + 2, last)).0
    requires c.PublicKey(cfg.preKey) != c.PublicKey(draw) && c.PublicKey(cfg.draw) != c.PublicKey(draw')
    ensures Deliverable(w, a + b + 2) && w.bob.MKSKIPPED == map[] && |w'.bob.MKSKIPPED| == a + b
  {
    BeforeLastCall(c, cfg, a, b, draw, draw', w);
    StoreGrowsExactly(c, cfg, TwoChains(a, b, draw, draw'), a + b + 2, last, w, w.bob, w'.bob, 0);
  }

  // --------------------------------------------------------------- a concrete run

  const EXAMPLE := Config([0], [], [0])

  function Zeros(n: nat): (k: Bytes)
    ensures |k| == n
  {
    seq(n, _ => 0)
  }

  /** `n` private keys, longer and longer, none as short as the pre-key and the first key. */
  function ExampleDraws(n: nat): (draws: seq<Bytes>)
    ensures |draws| == n && forall i :: 0 <= i < n ==> |draws[i]| == i + 2
  {
    seq(n, i requires 0 <= i < n => Zeros(i + 2))
  }

  lemma ExampleHonest(events: seq<Event>)
    requires var draws := Draws(events); forall i :: 0 <= i < |draws| ==> |draws[i]| == i + 2
    ensures Sound(RATCHET) && Honest(RATCHET, EXAMPLE, events)
  {
    RatchetAssumptionsHold(EXAMPLE.secret);
    var all := AllKeys(EXAMPLE, events);
    assert all == [[], [0]] + Draws(events);
    forall i | 0 <= i < |all| ensures |RATCHET.PublicKey(all[i])| == i + 1 {
      if i >= 2 {
        assert all[i] == Draws(events)[i - 2];
      }
    }
  }

  lemma {:induction false} SendsDrawNothing(before: seq<Event>, n: nat)
    ensures Draws(SendsAfter(before, n)) == Draws(before)
  {
    if n > 0 {
      SendsDrawNothing(before, n - 1);
      assert SendsAfter(before, n)[..|SendsAfter(before, n)| - 1] == SendsAfter(before, n - 1);
    }
  }

  lemma {:induction false} DrawsOfEveryOther(n: nat, draws: seq<Bytes>)
    ensures Draws(EveryOther(n, draws)) == draws
  {
    var events := EveryOther(n, draws);
    if draws == [] {
      SendsDrawNothing([], n);
    } else {
      DrawsOfEveryOther(n, draws[..|draws| - 1]);
      assert events[..|events| - 1] == EveryOther(n, draws[..|draws| - 1]);
      assert draws == draws[..|draws| - 1] + [draws[|draws| - 1]];
    }
  }

  /** For every number there is a run of two honest parties after which that many keys are stored, so MAX_SKIP
      and any other bound is exceeded. */
  lemma NoStoreBound(n: nat)
    ensures Sound(RATCHET) && Honest(RATCHET, EXAMPLE, EveryOther(2 * n, ExampleDraws(n)))
    ensures |Run(RATCHET, EXAMPLE, EveryOther(2 * n, ExampleDraws(n))).bob.MKSKIPPED| == n
  {
    var events := EveryOther(2 * n, ExampleDraws(n));
    DrawsOfEveryOther(2 * n, ExampleDraws(n));
    ExampleHonest(events);
    StoreKeepsAll(RATCHET, EXAMPLE, 2 * n, ExampleDraws(n), Run(RATCHET, EXAMPLE, events));
  }

  lemma DrawsNext(events: seq<Event>, e: Event)
    ensures Draws(events + [e]) == Draws(events) + if e.Deliver? then [e.draw] else []
  {
    assert (events + [e])[..|events|] == events;
  }

  lemma DrawsOfTwoChains(a: nat, b: nat, draw: Bytes, draw': Bytes, last: Bytes)
    ensures Draws(TwoChains(a, b, draw, draw') + [Deliver(a + b + 2, last)]) == [draw, draw', last]
  {
    var e1, e2, e3, e4 := Sends(a + 1), Deliver(0, draw), Send(true, [], [], []), Deliver(a + 1, draw');
    assert e1 + [e2, e3, e4] == e1 + [e2] + [e3] + [e4];
    SendsDrawNothing([], a + 1);
    DrawsNext(e1, e2);
    DrawsNext(e1 + [e2], e3);
    DrawsNext(e1 + [e2] + [e3], e4);
    SendsDrawNothing(e1 + [e2, e3, e4], b + 1);
    DrawsNext(TwoChains(a, b, draw, draw'), Deliver(a + b + 2, last));
  }

  /** One delivery of an honest run stores twice MAX_SKIP keys in a store that was empty. */
  lemma TwiceTheBound()
    ensures var events := TwoChains(MAX_SKIP, MAX_SKIP, Zeros(2), Zeros(3));
            var last := Deliver(2 * MAX_SKIP + 2, Zeros(4));
            && Honest(RATCHET, EXAMPLE, events + [last]) && Deliverable(Run(RATCHET, EXAMPLE, events), last.index)
            && Run(RATCHET, EXAMPLE, events).bob.MKSKIPPED == map[]
            && |Run(RATCHET, EXAMPLE, events + [last]).bob.MKSKIPPED| == 2 * MAX_SKIP == 200
  {
    var events := TwoChains(MAX_SKIP, MAX_SKIP, Zeros(2), Zeros(3));
    var last := Deliver(2 * MAX_SKIP + 2, Zeros(4));
    DrawsOfTwoChains(MAX_SKIP, MAX_SKIP, Zeros(2), Zeros(3), Zeros(4));
    ExampleHonest(events + [last]);
    RunStep(RATCHET, EXAMPLE, events, last);
    OneCallAdds(RATCHET, EXAMPLE, MAX_SKIP, MAX_SKIP, Zeros(2), Zeros(3), Zeros(4),
                Run(RATCHET, EXAMPLE, events), Run(RATCHET, EXAMPLE, events + [last]));
  }
}
