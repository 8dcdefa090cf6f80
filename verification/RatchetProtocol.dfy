/** Two parties and an unordered network: sends, deliveries in any order, drops, and reloads from
    storage. A history records what the proof needs: the own keys both parties used, in order, how
    many messages each sending chain carried, and which were opened. */
module RatchetProtocol {
  import opened Options
  import opened Encoding
  import opened Ratchet
  import opened RatchetStorage
  import opened KeyedStore

  // -------------------------------------------------------------- the system

  datatype Status = InFlight | Read | Dropped

  /** A posted message with what its sender put in. */
  datatype Letter = Letter(toBob: bool, message: Message, ad: Bytes, plaintext: Bytes, status: Status)

  datatype World = World(alice: State, bob: State, letters: seq<Letter>) {
    function Party(isBob: bool): State {
      if isBob then bob else alice
    }

    function WithParty(isBob: bool, s: State): World {
      if isBob then this.(bob := s) else this.(alice := s)
    }
  }

  /** Random draws are arguments: the nonce of a send, the next private key of a delivery. */
  datatype Event =
    | Send(byBob: bool, plaintext: Bytes, ad: Bytes, nonce: Bytes)
    | Deliver(index: nat, draw: Bytes)
    | Drop(index: nat)
    | Reload(ofBob: bool)

  datatype Outcome = Posted | Received(plaintext: Bytes) | Refused(error: Error) | Nothing

  datatype Config = Config(secret: Bytes, preKey: Bytes, draw: Bytes)

  predicate Deliverable(w: World, i: nat) {
    i < |w.letters| && w.letters[i].status == InFlight
  }

  ghost function Step(c: Suite, w: World, e: Event): (World, Outcome) {
    match e
    case Send(byBob, plaintext, ad, nonce) =>
      var (s, r) := Encrypt(c, w.Party(byBob), plaintext, ad, nonce);
      if r.Err? then (w.WithParty(byBob, s), Refused(r.error))
      else (w.WithParty(byBob, s).(letters := w.letters + [Letter(!byBob, r.value, ad, plaintext, InFlight)]), Posted)
    case Deliver(i, draw) =>
      if !Deliverable(w, i) then (w, Nothing)
      else
        var l := w.letters[i];
        var (s, r) := Decrypt(c, w.Party(l.toBob), l.message, l.ad, draw);
        if r.Err? then (w.WithParty(l.toBob, s), Refused(r.error))
        else (w.WithParty(l.toBob, s).(letters := w.letters[i := l.(status := Read)]), Received(r.value))
    case Drop(i) =>
      if !Deliverable(w, i) then (w, Nothing)
      else (w.(letters := w.letters[i := w.letters[i].(status := Dropped)]), Nothing)
    case Reload(ofBob) =>
      (w.WithParty(ofBob, Reloaded(w.Party(ofBob))), Nothing)
  }

  function Start(c: Suite, cfg: Config): World {
    World(InitInitiator(c, EMPTY_STATE, cfg.secret, c.PublicKey(cfg.preKey), cfg.draw),
          InitResponder(EMPTY_STATE, cfg.secret, KeyPair(cfg.preKey, c.PublicKey(cfg.preKey))), [])
  }

  ghost function Run(c: Suite, cfg: Config, events: seq<Event>): World {
    if events == [] then Start(c, cfg)
    else Step(c, Run(c, cfg, events[..|events| - 1]), events[|events| - 1]).0
  }

  // ------------------------------------------------------------- assumptions

  function Draws(events: seq<Event>): seq<Bytes> {
    if events == [] then []
    else
      var e := events[|events| - 1];
      Draws(events[..|events| - 1]) + if e.Deliver? then [e.draw] else []
  }

  ghost predicate DistinctPublics(c: Suite, keys: seq<Bytes>) {
    forall i, j :: 0 <= i < j < |keys| ==> c.PublicKey(keys[i]) != c.PublicKey(keys[j])
  }

  function AllKeys(cfg: Config, events: seq<Event>): seq<Bytes> {
    [cfg.preKey, cfg.draw] + Draws(events)
  }

  /** Every private key is drawn once, and the shared secret is not empty. */
  ghost predicate Honest(c: Suite, cfg: Config, events: seq<Event>) {
    cfg.secret != [] && DistinctPublics(c, AllKeys(cfg, events))
  }

  // ----------------------------------------------------------------- history

  datatype Id = Id(chain: nat, number: nat)

  /** keys[i] is the i-th own key in the order of ratchet turns, even ones Bob's and odd ones Alice's;
      chain i is the sending chain opened with it. */
  datatype History = History(secret: Bytes, keys: seq<Bytes>, lens: seq<nat>, ids: seq<Id>, read: set<Id>)

  /** Own keys alternate: the pre-key is Bob's, the next one Alice's, and so on. */
  function IsBobs(i: nat): bool {
    if i == 0 then true else !IsBobs(i - 1)
  }

  /** The last own key of a party: one of the two is at the end of `keys`, the other one before it. */
  function Position(h: History, isBob: bool): nat
    requires |h.keys| >= 2
  {
    var top := |h.keys| - 1;
    if IsBobs(top) == isBob then top else top - 1
  }

  function DhAt(c: Suite, keys: seq<Bytes>, i: nat): Bytes
    requires 1 <= i < |keys|
  {
    c.Dh(keys[i], c.PublicKey(keys[i - 1]))
  }

  /** The common sequence of root keys; the shared secret is at position 0. */
  function Root(c: Suite, secret: Bytes, keys: seq<Bytes>, i: nat): Bytes
    requires i < |keys|
  {
    if i == 0 then secret else c.RootStep(Root(c, secret, keys, i - 1), DhAt(c, keys, i))
  }

  /** The first key of chain i. */
  function ChainStart(c: Suite, secret: Bytes, keys: seq<Bytes>, i: nat): Bytes
    requires 1 <= i < |keys|
  {
    c.RootChain(Root(c, secret, keys, i - 1), DhAt(c, keys, i))
  }

  function KeyOf(c: Suite, h: History, id: Id): Bytes
    requires 1 <= id.chain < |h.keys|
  {
    c.MessageKey(Chain(c, ChainStart(c, h.secret, h.keys, id.chain), id.number))
  }

  function Slot(c: Suite, h: History, id: Id): string
    requires id.chain < |h.keys|
  {
    SkipKey(c.PublicKey(h.keys[id.chain]), id.number)
  }

  function PreviousLength(h: History, q: nat): nat
    requires q < |h.lens|
  {
    if q < 2 then 0 else h.lens[q - 2]
  }

  // --------------------------------------------------------------- invariant

  ghost predicate HistoryOk(c: Suite, h: History) {
    && |h.keys| >= 2 && |h.lens| == |h.keys| && h.lens[0] == 0 && h.secret != []
    && DistinctPublics(c, h.keys)
    && (forall i :: 0 <= i < |h.ids| ==> IdOk(h, h.ids[i]))
    && (forall i, j :: 0 <= i < j < |h.ids| ==> h.ids[i] != h.ids[j])
    && (forall id :: id in h.read ==> IdOk(h, id))
  }

  predicate IdOk(h: History, id: Id) {
    && 1 <= id.chain < |h.keys| && |h.lens| == |h.keys| && id.number < h.lens[id.chain]
  }

  /** The messages passed over by their receiver, at position p with counter nr, and not opened. */
  ghost function Pending(h: History, p: nat, nr: nat): iset<Id> {
    iset id: Id | IdOk(h, id) && Faces(p, id.chain) && (id.chain == p - 1 ==> id.number < nr) && id !in h.read
  }

  /** Chain q is a receiving chain, current or superseded, of the party at position p. */
  predicate Faces(p: nat, q: nat) {
    q < p && IsBobs(q) != IsBobs(p)
  }

  function Slots(c: Suite, h: History): Id -> string {
    (id: Id) => if id.chain < |h.keys| then Slot(c, h, id) else ""
  }

  function Keys(c: Suite, h: History): Id -> Bytes {
    (id: Id) => if 1 <= id.chain < |h.keys| then KeyOf(c, h, id) else []
  }

  /** The map holds the right key of every message of the set, and nothing else. */
  ghost predicate StoreOk(c: Suite, h: History, pending: iset<Id>, m: map<string, Bytes>) {
    Exact(m, pending, Slots(c, h), Keys(c, h))
  }

  /** The key fields and counters of a party at position p of the common sequence. */
  ghost predicate ChainsOk(c: Suite, h: History, s: State, p: nat)
    requires |h.lens| == |h.keys| && p < |h.keys|
  {
    && s.DHs == Some(KeyPair(h.keys[p], c.PublicKey(h.keys[p])))
    && s.DHr == (if p == 0 then None else Some(c.PublicKey(h.keys[p - 1])))
    && s.RK == Some(Root(c, h.secret, h.keys, p))
    && s.CKs == (if p == 0 then None else Some(Chain(c, ChainStart(c, h.secret, h.keys, p), h.lens[p])))
    && s.CKr == (if p < 2 then None else Some(Chain(c, ChainStart(c, h.secret, h.keys, p - 1), s.Nr)))
    && s.Ns == h.lens[p]
    && s.Nr <= (if p == 0 then 0 else h.lens[p - 1])
    && s.PN == PreviousLength(h, p)
  }

  /** Only messages passed by were opened. */
  ghost predicate ReadOk(h: History, p: nat, nr: nat) {
    forall id :: id in h.read && IsBobs(id.chain) != IsBobs(p) ==>
      id.chain < p && (id.chain == p - 1 ==> id.number < nr)
  }

  ghost predicate PartyOk(c: Suite, h: History, s: State, p: nat)
    requires |h.lens| == |h.keys| && p < |h.keys|
  {
    ChainsOk(c, h, s, p) && ReadOk(h, p, s.Nr) && StoreOk(c, h, Pending(h, p, s.Nr), s.MKSKIPPED)
  }

  ghost predicate LetterOk(c: Suite, h: History, l: Letter, id: Id)
    requires IdOk(h, id)
  {
    && l.toBob == !IsBobs(id.chain)
    && l.message.header == Header(c.PublicKey(h.keys[id.chain]), PreviousLength(h, id.chain), id.number)
    && FromBase64(l.message.ciphertext)
       == c.Seal(KeyOf(c, h, id), FromBase64(l.message.nonce), l.ad, l.plaintext)
    && (l.status == Read <==> id in h.read)
  }

  ghost predicate LettersOk(c: Suite, h: History, letters: seq<Letter>) {
    && |letters| == |h.ids|
    && (forall i :: 0 <= i < |letters| ==> IdOk(h, h.ids[i]) && LetterOk(c, h, letters[i], h.ids[i]))
  }

  ghost predicate WorldOk(c: Suite, w: World, h: History) {
    && HistoryOk(c, h)
    && LettersOk(c, h, w.letters)
    && (forall isBob: bool :: PartyOk(c, h, w.Party(isBob), Position(h, isBob)))
  }

  // ---------------------------------------------------- keys only grow longer

  lemma {:induction false} RootPrefix(c: Suite, secret: Bytes, keys: seq<Bytes>, more: seq<Bytes>, i: nat)
    requires keys <= more && i < |keys|
    ensures Root(c, secret, more, i) == Root(c, secret, keys, i)
  {
    if i > 0 {
      RootPrefix(c, secret, keys, more, i - 1);
    }
  }

  lemma StartPrefix(c: Suite, secret: Bytes, keys: seq<Bytes>, more: seq<Bytes>, i: nat)
    requires keys <= more && 1 <= i < |keys|
    ensures ChainStart(c, secret, more, i) == ChainStart(c, secret, keys, i)
  {
    RootPrefix(c, secret, keys, more, i - 1);
  }

  lemma KeyPrefix(c: Suite, h: History, g: History, id: Id)
    requires h.keys <= g.keys && h.secret == g.secret && 1 <= id.chain < |h.keys|
    ensures KeyOf(c, g, id) == KeyOf(c, h, id)
  {
    StartPrefix(c, h.secret, h.keys, g.keys, id.chain);
  }

  lemma PositionPrefix(c: Suite, h: History, g: History, p: nat)
    requires h.keys <= g.keys && h.secret == g.secret && p < |h.keys|
    ensures Root(c, g.secret, g.keys, p) == Root(c, h.secret, h.keys, p)
    ensures p >= 1 ==> ChainStart(c, g.secret, g.keys, p) == ChainStart(c, h.secret, h.keys, p)
    ensures p >= 2 ==> ChainStart(c, g.secret, g.keys, p - 1) == ChainStart(c, h.secret, h.keys, p - 1)
  {
    RootPrefix(c, h.secret, h.keys, g.keys, p);
    if p >= 1 {
      StartPrefix(c, h.secret, h.keys, g.keys, p);
    }
    if p >= 2 {
      StartPrefix(c, h.secret, h.keys, g.keys, p - 1);
    }
  }

  lemma SlotsInjective(c: Suite, h: History, ids: iset<Id>)
    requires DistinctPublics(c, h.keys) && forall id :: id in ids ==> id.chain < |h.keys|
    ensures InjectiveOn(ids, Slots(c, h))
  {
    forall a, b | a in ids && b in ids && Slots(c, h)(a) == Slots(c, h)(b) ensures a == b {
      SkipKeyInjective(c.PublicKey(h.keys[a.chain]), a.number, c.PublicKey(h.keys[b.chain]), b.number);
    }
  }

  // ------------------------------------------------- how the store moves along

  lemma StoreLonger(c: Suite, h: History, g: History, pending: iset<Id>, m: map<string, Bytes>)
    requires h.keys <= g.keys && h.secret == g.secret && StoreOk(c, h, pending, m)
    requires forall id :: id in pending ==> 1 <= id.chain < |h.keys|
    ensures StoreOk(c, g, pending, m)
  {
    forall id | id in pending ensures Slots(c, g)(id) == Slots(c, h)(id) && Keys(c, g)(id) == Keys(c, h)(id) {
      KeyPrefix(c, h, g, id);
    }
    Same(m, pending, Slots(c, h), Keys(c, h), Slots(c, g), Keys(c, g));
  }

  lemma PendingNext(h: History, p: nat, nr: nat)
    requires 2 <= p && IdOk(h, Id(p - 1, nr)) && Id(p - 1, nr) !in h.read
    ensures Pending(h, p, nr + 1) == Pending(h, p, nr) + iset{Id(p - 1, nr)}
  {
  }

  /** Skipping to message hi of the current chain stores exactly the keys of the messages before it. */
  lemma {:induction false} StoreStash(c: Suite, h: History, p: nat, nr: nat, hi: nat, m: map<string, Bytes>)
    requires DistinctPublics(c, h.keys) && |h.lens| == |h.keys| && 2 <= p <= |h.keys| && nr <= hi <= h.lens[p - 1]
    requires forall id :: id in h.read && id.chain == p - 1 ==> id.number < nr
    requires StoreOk(c, h, Pending(h, p, nr), m)
    ensures StoreOk(c, h, Pending(h, p, hi),
                    Stash(c, m, c.PublicKey(h.keys[p - 1]), ChainStart(c, h.secret, h.keys, p - 1), nr, hi))
    decreases hi - nr
  {
    if nr < hi {
      var id := Id(p - 1, nr);
      PendingNext(h, p, nr);
      SlotsInjective(c, h, Pending(h, p, nr + 1));
      Put(m, Pending(h, p, nr), Slots(c, h), Keys(c, h), id);
      StoreStash(c, h, p, nr + 1, hi, m[Slot(c, h, id) := KeyOf(c, h, id)]);
    }
  }

  // ------------------------------------------------------ what a party does next

  /** The other party's sends and reads, and both parties' turns, do not concern a party at position p. */
  ghost predicate Unconcerned(h: History, g: History, p: nat) {
    && |h.lens| == |h.keys| <= |g.lens| == |g.keys| && p < |h.keys|
    && h.keys <= g.keys && h.secret == g.secret
    && (forall i :: 0 <= i <= p && i != p - 1 ==> g.lens[i] == h.lens[i])
    && (p >= 1 ==> g.lens[p - 1] >= h.lens[p - 1])
    && (forall id: Id :: IsBobs(id.chain) != IsBobs(p) ==> (id in g.read <==> id in h.read))
  }

  lemma PendingSame(h: History, g: History, p: nat, nr: nat)
    requires Unconcerned(h, g, p) && (p >= 1 ==> nr <= h.lens[p - 1])
    ensures Pending(g, p, nr) == Pending(h, p, nr)
  {
  }

  lemma PartySame(c: Suite, h: History, g: History, s: State, p: nat)
    requires Unconcerned(h, g, p) && PartyOk(c, h, s, p)
    ensures PartyOk(c, g, s, p)
  {
    assert ChainsOk(c, g, s, p) by {
      PositionPrefix(c, h, g, p);
    }
    assert ReadOk(g, p, s.Nr);
    PendingSame(h, g, p, s.Nr);
    StoreLonger(c, h, g, Pending(h, p, s.Nr), s.MKSKIPPED);
  }

  /** Skipping ahead on the receiving chain, as far as messages were sent on it. */
  lemma PartySkips(c: Suite, h: History, s: State, p: nat, until: nat)
    requires HistoryOk(c, h) && p < |h.keys| && PartyOk(c, h, s, p)
    requires until <= (if p == 0 then 0 else h.lens[p - 1])
    ensures PartyOk(c, h, Skip(c, s, until), p)
    ensures Skip(c, s, until).Nr == if until <= s.Nr then s.Nr else until
  {
    if p >= 2 && s.Nr < until {
      SkipEffect(c, s, until, ChainStart(c, h.secret, h.keys, p - 1));
      StoreStash(c, h, p, s.Nr, until, s.MKSKIPPED);
    }
  }

  ghost predicate Fresh(c: Suite, h: History, draw: Bytes) {
    forall i :: 0 <= i < |h.keys| ==> c.PublicKey(h.keys[i]) != c.PublicKey(draw)
  }

  function Turned(h: History, draw: Bytes): History {
    h.(keys := h.keys + [draw], lens := h.lens + [0])
  }

  lemma TurnedOk(c: Suite, h: History, draw: Bytes)
    requires HistoryOk(c, h) && Fresh(c, h, draw)
    ensures HistoryOk(c, Turned(h, draw))
  {
    var g := Turned(h, draw);
    forall i | 0 <= i < |g.ids| ensures IdOk(g, g.ids[i]) {
      assert IdOk(h, h.ids[i]);
    }
    forall id | id in g.read ensures IdOk(g, id) {
      assert IdOk(h, id);
    }
  }

  lemma TurnedPending(c: Suite, h: History, p: nat, nr: nat, draw: Bytes)
    requires HistoryOk(c, h) && |h.keys| == p + 2 && (p >= 1 ==> nr == h.lens[p - 1])
    requires ReadOk(h, p, nr)
    ensures Pending(Turned(h, draw), p + 2, 0) == Pending(h, p, nr)
    ensures ReadOk(Turned(h, draw), p + 2, 0)
  {
    var g := Turned(h, draw);
    assert IsBobs(p + 2) == IsBobs(p);
  }

  lemma TurnedChains(c: Suite, h: History, s: State, p: nat, draw: Bytes)
    requires Sound(c) && |h.lens| == |h.keys| == p + 2 && ChainsOk(c, h, s, p)
    ensures var (t, r) := DhRatchet(c, s, c.PublicKey(h.keys[p + 1]), draw);
            r.Ok? && ChainsOk(c, Turned(h, draw), t, p + 2) && t.Nr == 0 && t.MKSKIPPED == s.MKSKIPPED
  {
    var g := Turned(h, draw);
    PositionPrefix(c, h, g, p + 1);
    PositionPrefix(c, h, g, p);
    assert DhAt(c, g.keys, p + 1) == c.Dh(h.keys[p], c.PublicKey(h.keys[p + 1]));
    assert DhAt(c, g.keys, p + 2) == c.Dh(draw, c.PublicKey(h.keys[p + 1]));
  }

  /** A turn moves a party from position p to p + 2 of the common sequence. */
  lemma PartyTurns(c: Suite, h: History, s: State, p: nat, draw: Bytes)
    requires Sound(c) && HistoryOk(c, h) && |h.keys| == p + 2 && PartyOk(c, h, s, p)
    requires p >= 1 ==> s.Nr == h.lens[p - 1]
    ensures DhRatchet(c, s, c.PublicKey(h.keys[p + 1]), draw).1.Ok?
    ensures PartyOk(c, Turned(h, draw), DhRatchet(c, s, c.PublicKey(h.keys[p + 1]), draw).0, p + 2)
  {
    TurnedChains(c, h, s, p, draw);
    TurnedPending(c, h, p, s.Nr, draw);
    StoreLonger(c, h, Turned(h, draw), Pending(h, p, s.Nr), s.MKSKIPPED);
  }

  ghost predicate Opens(c: Suite, h: History, m: Message, ad: Bytes, id: Id, plaintext: Bytes)
    requires 1 <= id.chain < |h.keys|
  {
    FromBase64(m.ciphertext) == c.Seal(KeyOf(c, h, id), FromBase64(m.nonce), ad, plaintext)
  }

  function MarkRead(h: History, id: Id): History {
    h.(read := h.read + {id})
  }

  lemma MarkReadNext(h: History, p: nat, n: nat)
    requires 1 <= p && ReadOk(h, p, n)
    ensures Pending(MarkRead(h, Id(p - 1, n)), p, n + 1) == Pending(h, p, n)
    ensures ReadOk(MarkRead(h, Id(p - 1, n)), p, n + 1)
  {
  }

  lemma MarkReadPending(h: History, p: nat, nr: nat, id: Id)
    requires id in Pending(h, p, nr) && ReadOk(h, p, nr)
    ensures Pending(MarkRead(h, id), p, nr) == Pending(h, p, nr) - iset{id}
    ensures ReadOk(MarkRead(h, id), p, nr)
  {
  }

  /** Stepping the receiving chain over the next message. */
  lemma PartyPasses(c: Suite, h: History, s: State, p: nat)
    requires HistoryOk(c, h) && 2 <= p < |h.keys| && PartyOk(c, h, s, p) && s.Nr < h.lens[p - 1]
    ensures PartyOk(c, MarkRead(h, Id(p - 1, s.Nr)), s.(CKr := Some(c.ChainStep(s.CKr.value)), Nr := s.Nr + 1), p)
  {
    MarkReadNext(h, p, s.Nr);
    StoreLonger(c, h, MarkRead(h, Id(p - 1, s.Nr)), Pending(h, p, s.Nr), s.MKSKIPPED);
  }

  lemma OpensWithKey(c: Suite, h: History, m: Message, ad: Bytes, id: Id, plaintext: Bytes)
    requires Sound(c) && 1 <= id.chain < |h.keys| && Opens(c, h, m, ad, id, plaintext)
    ensures OpenWith(c, KeyOf(c, h, id), m, ad) == Ok(plaintext)
  {
  }

  /** Reading message n of the current receiving chain. */
  lemma PartyReadsOnChain(c: Suite, h: History, s: State, p: nat, m: Message, ad: Bytes, n: nat, plaintext: Bytes)
    requires Sound(c) && HistoryOk(c, h) && 2 <= p < |h.keys| && PartyOk(c, h, s, p)
    requires s.Nr <= n < h.lens[p - 1] && m.header.messageNumber == n
    requires Opens(c, h, m, ad, Id(p - 1, n), plaintext)
    ensures var (t, r) := DecryptOnChain(c, s, m, ad);
            if s.Nr + MAX_SKIP < n then t == s && r == Err(TooManySkipped)
            else r == Ok(plaintext) && PartyOk(c, MarkRead(h, Id(p - 1, n)), t, p)
  {
    if s.Nr + MAX_SKIP >= n {
      var t := Skip(c, s, n);
      assert PartyOk(c, h, t, p) && t.Nr == n by {
        PartySkips(c, h, s, p, n);
      }
      assert c.MessageKey(t.CKr.value) == KeyOf(c, h, Id(p - 1, n));
      assert DecryptOnChain(c, s, m, ad).1 == Ok(plaintext) by {
        OpensWithKey(c, h, m, ad, Id(p - 1, n), plaintext);
      }
      PartyPasses(c, h, t, p);
    }
  }

  /** Reading a message whose key was put aside. */
  lemma PartyReadsStored(c: Suite, h: History, s: State, p: nat, m: Message, ad: Bytes, draw: Bytes,
                         id: Id, plaintext: Bytes)
    requires Sound(c) && HistoryOk(c, h) && p < |h.keys| && PartyOk(c, h, s, p) && id in Pending(h, p, s.Nr)
    requires m.header.dhPublicKey == c.PublicKey(h.keys[id.chain]) && m.header.messageNumber == id.number
    requires Opens(c, h, m, ad, id, plaintext)
    ensures var (t, r) := Decrypt(c, s, m, ad, draw);
            !GuardFires(s, m.header) && r == Ok(plaintext) && PartyOk(c, MarkRead(h, id), t, p)
  {
    assert Slots(c, h)(id) in s.MKSKIPPED && s.MKSKIPPED[Slots(c, h)(id)] == KeyOf(c, h, id);
    SlotsInjective(c, h, Pending(h, p, s.Nr));
    Take(s.MKSKIPPED, Pending(h, p, s.Nr), Slots(c, h), Keys(c, h), id);
    MarkReadPending(h, p, s.Nr, id);
    StoreLonger(c, h, MarkRead(h, id), Pending(h, p, s.Nr) - iset{id}, s.MKSKIPPED - {Slot(c, h, id)});
  }

  /** A message that is not pending has no key in the store. */
  lemma NotStored(c: Suite, h: History, s: State, p: nat, id: Id)
    requires HistoryOk(c, h) && p < |h.keys| && PartyOk(c, h, s, p)
    requires id.chain < |h.keys| && id !in Pending(h, p, s.Nr)
    ensures Slot(c, h, id) !in s.MKSKIPPED
  {
    SlotsInjective(c, h, Pending(h, p, s.Nr) + iset{id});
    Absent(s.MKSKIPPED, Pending(h, p, s.Nr), Slots(c, h), Keys(c, h), id);
    assert Slots(c, h)(id) == Slot(c, h, id);
  }
}
