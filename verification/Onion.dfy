/** Onion packets: building the nest of encrypted layers, peeling one layer at a router, and walking a
    packet along its route. */
module Onion {
  import opened Options
  import opened Encoding
  import opened RelaySelection

  type Address = string
  type CircuitId = string

  datatype Encrypted = Encrypted(ephemeralPublicKey: string, nonce: string, ciphertext: string)

  datatype Layer =
    | Final(destination: Address, message: string)
    | Hop(nextHop: string, nextHopPeerId: Option<PeerId>, isExit: bool, payload: Encrypted)
    | Unknown

  /** The primitives are parameters; `Write` and `Read` are the JSON text of a layer and its parser. */
  datatype Suite = Suite(
    PublicKey: Bytes -> Bytes,
    Dh: (Bytes, Bytes) -> Bytes,
    Kdf: Bytes -> Bytes,
    Seal: (Bytes, Bytes, Bytes) -> Bytes,
    Open: (Bytes, Bytes, Bytes) -> Option<Bytes>,
    Write: Layer -> Bytes,
    Read: Bytes -> Option<Layer>)

  ghost predicate Sound(c: Suite) {
    && (forall a: Bytes, b: Bytes {:trigger c.Dh(a, c.PublicKey(b))} ::
          c.Dh(a, c.PublicKey(b)) == c.Dh(b, c.PublicKey(a)))
    && (forall k: Bytes, n: Bytes, p: Bytes :: c.Open(k, n, c.Seal(k, n, p)) == Some(p))
    && (forall l: Layer :: c.Read(c.Write(l)) == Some(l))
  }

  /** Only the sealing key opens, and only the holders of a public key share its secrets. */
  ghost predicate Exclusive(c: Suite) {
    && (forall k: Bytes, k': Bytes, n: Bytes, p: Bytes {:trigger c.Open(k', n, c.Seal(k, n, p))} ::
          k != k' ==> c.Open(k', n, c.Seal(k, n, p)) == None)
    && (forall d: Bytes, d': Bytes {:trigger c.Kdf(d), c.Kdf(d')} :: c.Kdf(d) == c.Kdf(d') ==> d == d')
    && (forall a: Bytes, b: Bytes, e: Bytes {:trigger c.Dh(a, c.PublicKey(e)), c.Dh(b, c.PublicKey(e))} ::
          c.Dh(a, c.PublicKey(e)) == c.Dh(b, c.PublicKey(e)) ==> c.PublicKey(a) == c.PublicKey(b))
  }

  /** The ephemeral key and the nonce drawn for one layer. */
  datatype Draw = Draw(ephemeralPrivate: Bytes, nonce: Bytes)

  function EncryptLayer(c: Suite, layer: Layer, recipientPublicKey: Bytes, draw: Draw): Encrypted {
    var key := c.Kdf(c.Dh(draw.ephemeralPrivate, recipientPublicKey));
    Encrypted(Base64(c.PublicKey(draw.ephemeralPrivate)), Base64(draw.nonce),
              Base64(c.Seal(key, draw.nonce, c.Write(layer))))
  }

  function DecryptLayer(c: Suite, e: Encrypted, privateKey: Bytes): Option<Layer> {
    var key := c.Kdf(c.Dh(privateKey, FromBase64(e.ephemeralPublicKey)));
    match c.Open(key, FromBase64(e.nonce), FromBase64(e.ciphertext))
    case None => None
    case Some(text) => c.Read(text)
  }

  datatype Packet = Packet(version: nat, encryptedPayload: Encrypted, circuitId: CircuitId, timestamp: nat)

  /** A packet without a circuit id or a timestamp gets fresh ones; an empty id and a zero time count as missing. */
  function NewPacket(e: Encrypted, circuitId: CircuitId, timestamp: nat, freshId: CircuitId, now: nat): Packet {
    Packet(1, e, if circuitId == "" then freshId else circuitId, if timestamp == 0 then now else timestamp)
  }

  // ---------------------------------------------------------------- building

  /** What the sender knows: the chosen relays, the recipient, and the draws for the layers, the
      recipient's last. */
  datatype Plan = Plan(
    relays: seq<Relay>, destination: Address, destinationKey: Bytes, message: Bytes, draws: seq<Draw>)

  predicate Complete(p: Plan) {
    |p.draws| == |p.relays| + 1
  }

  function LayerAt(p: Plan, i: nat, payload: Encrypted): Layer
    requires Complete(p) && i < |p.relays|
  {
    var isExit := i == |p.relays| - 1;
    Hop(if isExit then p.destination else p.relays[i + 1].multiaddr,
        if isExit then None else Some(p.relays[i + 1].peerId), isExit, payload)
  }

  function KeyAt(p: Plan, i: nat): Bytes
    requires i <= |p.relays|
  {
    if i == |p.relays| then p.destinationKey else p.relays[i].publicKey
  }

  /** The nest of layers as hop `i` receives it; hop `|relays|` is the recipient. */
  function Nest(c: Suite, p: Plan, i: nat): Encrypted
    requires Complete(p) && i <= |p.relays|
    decreases |p.relays| - i
  {
    if i == |p.relays| then EncryptLayer(c, Final(p.destination, Base64(p.message)), p.destinationKey, p.draws[i])
    else EncryptLayer(c, LayerAt(p, i, Nest(c, p, i + 1)), p.relays[i].publicKey, p.draws[i])
  }

  // ----------------------------------------------------------------- peeling

  datatype Circuit = Circuit(prevHop: PeerId, timestamp: nat)

  const MAX_AGE: nat := 10 * 60 * 1000

  datatype Outcome =
    | Exit(destination: Address, message: Bytes)
    | Forward(nextHop: string, nextHopPeerId: Option<PeerId>, packet: Packet, isExit: bool)
    | Failed

  /** A router's step on a packet: the circuit is recorded once the layer is open. */
  function Process(
    c: Suite, privateKey: Bytes, circuits: map<CircuitId, Circuit>, packet: Packet, from: PeerId, now: nat,
    freshId: CircuitId): (map<CircuitId, Circuit>, Outcome)
  {
    match DecryptLayer(c, packet.encryptedPayload, privateKey)
    case None => (circuits, Failed)
    case Some(layer) =>
      (circuits[packet.circuitId := Circuit(from, now)],
       match layer
       case Final(destination, message) => Exit(destination, FromBase64(message))
       case Hop(nextHop, nextHopPeerId, isExit, payload) =>
         Forward(nextHop, nextHopPeerId, NewPacket(payload, packet.circuitId, packet.timestamp, freshId, now), isExit)
       case Unknown => Failed)
  }

  function Kept(circuits: map<CircuitId, Circuit>, now: nat): map<CircuitId, Circuit> {
    map id | id in circuits && now - circuits[id].timestamp <= MAX_AGE :: circuits[id]
  }

  lemma LayerOpens(c: Suite, layer: Layer, privateKey: Bytes, draw: Draw)
    requires Sound(c)
    ensures DecryptLayer(c, EncryptLayer(c, layer, c.PublicKey(privateKey), draw), privateKey) == Some(layer)
  {
    var e := draw.ephemeralPrivate;
    assert c.Dh(privateKey, c.PublicKey(e)) == c.Dh(e, c.PublicKey(privateKey));
    Base64RoundTrip(c.PublicKey(e));
    Base64RoundTrip(draw.nonce);
    Base64RoundTrip(c.Seal(c.Kdf(c.Dh(e, c.PublicKey(privateKey))), draw.nonce, c.Write(layer)));
  }

  lemma LayerStaysShut(c: Suite, layer: Layer, privateKey: Bytes, addressee: Bytes, draw: Draw)
    requires Sound(c) && Exclusive(c) && c.PublicKey(privateKey) != c.PublicKey(addressee)
    ensures DecryptLayer(c, EncryptLayer(c, layer, c.PublicKey(addressee), draw), privateKey) == None
  {
    var e := draw.ephemeralPrivate;
    assert c.Dh(e, c.PublicKey(addressee)) == c.Dh(addressee, c.PublicKey(e));
    Base64RoundTrip(c.PublicKey(e));
    Base64RoundTrip(draw.nonce);
    Base64RoundTrip(c.Seal(c.Kdf(c.Dh(e, c.PublicKey(addressee))), draw.nonce, c.Write(layer)));
  }

  /** A layer carries the drawn nonce and the public key of the drawn ephemeral key. */
  lemma LayerCarriesDraw(c: Suite, layer: Layer, recipientPublicKey: Bytes, draw: Draw)
    ensures var e := EncryptLayer(c, layer, recipientPublicKey, draw);
            FromBase64(e.nonce) == draw.nonce && FromBase64(e.ephemeralPublicKey) == c.PublicKey(draw.ephemeralPrivate)
  {
    Base64RoundTrip(draw.nonce);
    Base64RoundTrip(c.PublicKey(draw.ephemeralPrivate));
  }

  /** What the addressee of a layer does with it, of whatever kind: the circuit is recorded with the previous
      hop and the time, also for a layer of unknown type, which then fails; a final layer gives the message;
      and a relay layer goes on under the same circuit id and time, or fresh ones if they are missing. */
  lemma PeelsExactly(
    c: Suite, layer: Layer, privateKey: Bytes, draw: Draw, circuits: map<CircuitId, Circuit>, packet: Packet,
    from: PeerId, now: nat, freshId: CircuitId)
    requires Sound(c) && packet.encryptedPayload == EncryptLayer(c, layer, c.PublicKey(privateKey), draw)
    ensures var (after, outcome) := Process(c, privateKey, circuits, packet, from, now, freshId);
            && (forall id :: id in after <==> id in circuits || id == packet.circuitId)
            && (forall id :: id in after ==>
                  after[id] == if id == packet.circuitId then Circuit(from, now) else circuits[id])
            && match layer
               case Unknown => outcome == Failed
               case Final(destination, message) => outcome == Exit(destination, FromBase64(message))
               case Hop(nextHop, nextHopPeerId, isExit, payload) =>
                 && outcome.Forward? && outcome.nextHop == nextHop && outcome.nextHopPeerId == nextHopPeerId
                 && outcome.isExit == isExit && outcome.packet.encryptedPayload == payload
                 && outcome.packet.circuitId == (if packet.circuitId != "" then packet.circuitId else freshId)
                 && outcome.packet.timestamp == (if packet.timestamp != 0 then packet.timestamp else now)
  {
    LayerOpens(c, layer, privateKey, draw);
  }

  // ----------------------------------------------------------------- walking

  datatype Node = Node(privateKey: Bytes, circuits: map<CircuitId, Circuit>)

  /** The routers by peer id, and the node at which each address is served. */
  datatype Net = Net(nodes: map<PeerId, Node>, homes: map<Address, PeerId>)

  datatype Visit = Visit(peer: PeerId, outcome: Outcome)

  /** Where a router sends a packet on: to the named peer, or from the exit to the node of the address. */
  function NextPeer(net: Net, o: Outcome): Option<PeerId> {
    if !o.Forward? then None
    else if o.nextHopPeerId.Some? then o.nextHopPeerId
    else if o.nextHop in net.homes then Some(net.homes[o.nextHop])
    else None
  }

  /** Hand a packet to a router and follow it until it stops or the given clock readings run out. */
  function Walk(c: Suite, net: Net, peer: PeerId, packet: Packet, from: PeerId, clocks: seq<nat>, freshId: CircuitId)
    : (Net, seq<Visit>)
    decreases |clocks|
  {
    if clocks == [] || peer !in net.nodes then (net, [])
    else
      var node := net.nodes[peer];
      var (circuits, outcome) := Process(c, node.privateKey, node.circuits, packet, from, clocks[0], freshId);
      var after := net.(nodes := net.nodes[peer := node.(circuits := circuits)]);
      match NextPeer(net, outcome)
      case None => (after, [Visit(peer, outcome)])
      case Some(next) =>
        var (last, visits) := Walk(c, after, next, outcome.packet, peer, clocks[1..], freshId);
        (last, [Visit(peer, outcome)] + visits)
  }

  /** Follow the recorded previous hops back. */
  function Back(net: Net, peer: PeerId, circuitId: CircuitId, steps: nat): seq<PeerId>
    decreases steps
  {
    if steps == 0 || peer !in net.nodes || circuitId !in net.nodes[peer].circuits then []
    else
      var prev := net.nodes[peer].circuits[circuitId].prevHop;
      [prev] + Back(net, prev, circuitId, steps - 1)
  }

  /** The peers on the way: the relays in order, then the recipient's node. */
  function PeerAt(p: Plan, home: PeerId, i: nat): PeerId
    requires i <= |p.relays|
  {
    if i == |p.relays| then home else p.relays[i].peerId
  }

  /** Every peer on the way is a node that holds the private key of the public key used for it. */
  ghost predicate Staffed(c: Suite, net: Net, p: Plan, home: PeerId) {
    && p.destination in net.homes && net.homes[p.destination] == home
    && forall i :: 0 <= i <= |p.relays| ==>
         PeerAt(p, home, i) in net.nodes && c.PublicKey(net.nodes[PeerAt(p, home, i)].privateKey) == KeyAt(p, i)
  }

  function PacketAt(c: Suite, p: Plan, i: nat, circuitId: CircuitId, sent: nat): Packet
    requires Complete(p) && i <= |p.relays|
  {
    Packet(1, Nest(c, p, i), circuitId, sent)
  }

  /** What hop `i` should do. */
  function Due(c: Suite, p: Plan, i: nat, circuitId: CircuitId, sent: nat): Outcome
    requires Complete(p) && i <= |p.relays|
  {
    if i == |p.relays| then Exit(p.destination, p.message)
    else
      var isExit := i == |p.relays| - 1;
      Forward(if isExit then p.destination else p.relays[i + 1].multiaddr,
              if isExit then None else Some(p.relays[i + 1].peerId),
              PacketAt(c, p, i + 1, circuitId, sent), isExit)
  }

  lemma HopDoesItsDue(
    c: Suite, p: Plan, i: nat, privateKey: Bytes, circuits: map<CircuitId, Circuit>, circuitId: CircuitId, sent: nat,
    from: PeerId, now: nat, freshId: CircuitId)
    requires Sound(c) && Complete(p) && i <= |p.relays| && c.PublicKey(privateKey) == KeyAt(p, i)
    requires circuitId != "" && sent > 0
    ensures Process(c, privateKey, circuits, PacketAt(c, p, i, circuitId, sent), from, now, freshId)
         == (circuits[circuitId := Circuit(from, now)], Due(c, p, i, circuitId, sent))
  {
    if i == |p.relays| {
      LayerOpens(c, Final(p.destination, Base64(p.message)), privateKey, p.draws[i]);
      Base64RoundTrip(p.message);
    } else {
      LayerOpens(c, LayerAt(p, i, Nest(c, p, i + 1)), privateKey, p.draws[i]);
    }
  }

  /** No node but the addressee of a layer can open it; it fails and records nothing. */
  lemma OthersFail(
    c: Suite, p: Plan, i: nat, privateKey: Bytes, addressee: Bytes, circuits: map<CircuitId, Circuit>,
    circuitId: CircuitId, sent: nat, from: PeerId, now: nat, freshId: CircuitId)
    requires Sound(c) && Exclusive(c) && Complete(p) && i <= |p.relays|
    requires c.PublicKey(addressee) == KeyAt(p, i) && c.PublicKey(privateKey) != KeyAt(p, i)
    ensures Process(c, privateKey, circuits, PacketAt(c, p, i, circuitId, sent), from, now, freshId)
         == (circuits, Failed)
  {
    if i == |p.relays| {
      LayerStaysShut(c, Final(p.destination, Base64(p.message)), privateKey, addressee, p.draws[i]);
    } else {
      LayerStaysShut(c, LayerAt(p, i, Nest(c, p, i + 1)), privateKey, addressee, p.draws[i]);
    }
  }

  function Prev(p: Plan, home: PeerId, i: nat, sender: PeerId): PeerId
    requires i <= |p.relays|
  {
    if i == 0 then sender else PeerAt(p, home, i - 1)
  }

  /** Hop `i` remembers where the packet came from, and when. */
  predicate Marked(net: Net, p: Plan, home: PeerId, i: nat, circuitId: CircuitId, sender: PeerId, time: nat)
    requires i <= |p.relays|
  {
    var peer := PeerAt(p, home, i);
    peer in net.nodes && circuitId in net.nodes[peer].circuits
    && net.nodes[peer].circuits[circuitId] == Circuit(Prev(p, home, i, sender), time)
  }

  /** The journey of one packet. */
  datatype Trip = Trip(plan: Plan, home: PeerId, circuitId: CircuitId, sent: nat, sender: PeerId, clocks: seq<nat>)

  ghost predicate Ready(c: Suite, net: Net, t: Trip) {
    && Complete(t.plan) && |t.plan.relays| > 0 && Staffed(c, net, t.plan, t.home)
    && t.circuitId != "" && t.sent > 0 && |t.clocks| == |t.plan.relays| + 1
  }

  function Arrive(net: Net, t: Trip, i: nat): Net
    requires i <= |t.plan.relays| && i < |t.clocks| && PeerAt(t.plan, t.home, i) in net.nodes
  {
    var peer := PeerAt(t.plan, t.home, i);
    var node := net.nodes[peer];
    net.(nodes := net.nodes[peer :=
      node.(circuits := node.circuits[t.circuitId := Circuit(Prev(t.plan, t.home, i, t.sender), t.clocks[i])])])
  }

  function WalkOn(c: Suite, net: Net, t: Trip, i: nat, freshId: CircuitId): (Net, seq<Visit>)
    requires Complete(t.plan) && i <= |t.plan.relays| < |t.clocks|
  {
    Walk(c, net, PeerAt(t.plan, t.home, i), PacketAt(c, t.plan, i, t.circuitId, t.sent),
         Prev(t.plan, t.home, i, t.sender), t.clocks[i..], freshId)
  }

  function DueVisit(c: Suite, t: Trip, i: nat): Visit
    requires Complete(t.plan) && i <= |t.plan.relays|
  {
    Visit(PeerAt(t.plan, t.home, i), Due(c, t.plan, i, t.circuitId, t.sent))
  }

  /** One hop of the walk. */
  lemma OneHop(c: Suite, net: Net, t: Trip, i: nat, freshId: CircuitId)
    requires Sound(c) && Ready(c, net, t) && i <= |t.plan.relays|
    ensures Ready(c, Arrive(net, t, i), t)
    ensures WalkOn(c, net, t, i, freshId)
         == if i == |t.plan.relays| then (Arrive(net, t, i), [DueVisit(c, t, i)])
            else
              var (last, visits) := WalkOn(c, Arrive(net, t, i), t, i + 1, freshId);
              (last, [DueVisit(c, t, i)] + visits)
  {
    var p, peer := t.plan, PeerAt(t.plan, t.home, i);
    assert peer in net.nodes && c.PublicKey(net.nodes[peer].privateKey) == KeyAt(p, i);
    HopDoesItsDue(c, p, i, net.nodes[peer].privateKey, net.nodes[peer].circuits, t.circuitId, t.sent,
                  Prev(p, t.home, i, t.sender), t.clocks[i], freshId);
    assert t.clocks[i..][1..] == t.clocks[i + 1..];
    var after := Arrive(net, t, i);
    forall j | 0 <= j <= |p.relays|
      ensures PeerAt(p, t.home, j) in after.nodes
      ensures c.PublicKey(after.nodes[PeerAt(p, t.home, j)].privateKey) == KeyAt(p, j)
    {
      assert PeerAt(p, t.home, j) in net.nodes;
    }
  }

  /** The visits still due from hop `i` on, and the network once they are paid. */
  function Itinerary(c: Suite, t: Trip, i: nat): seq<Visit>
    requires Complete(t.plan) && i <= |t.plan.relays|
  {
    seq(|t.plan.relays| + 1 - i, k requires 0 <= k <= |t.plan.relays| - i => DueVisit(c, t, i + k))
  }

  lemma ItineraryStep(c: Suite, t: Trip, i: nat)
    requires Complete(t.plan) && i <= |t.plan.relays|
    ensures Itinerary(c, t, i)
         == if i == |t.plan.relays| then [DueVisit(c, t, i)] else [DueVisit(c, t, i)] + Itinerary(c, t, i + 1)
  {
    if i < |t.plan.relays| {
      var whole, rest := Itinerary(c, t, i), Itinerary(c, t, i + 1);
      assert forall k :: 0 < k < |whole| ==> whole[k] == rest[k - 1];
    }
  }

  ghost predicate OnNodes(net: Net, t: Trip) {
    forall i :: 0 <= i <= |t.plan.relays| ==> PeerAt(t.plan, t.home, i) in net.nodes
  }

  function Arrived(net: Net, t: Trip, i: nat): Net
    requires i <= |t.plan.relays| < |t.clocks| && OnNodes(net, t)
    decreases |t.plan.relays| - i
  {
    assert PeerAt(t.plan, t.home, i) in net.nodes;
    if i == |t.plan.relays| then Arrive(net, t, i) else Arrived(Arrive(net, t, i), t, i + 1)
  }

  lemma ArriveOnNodes(net: Net, t: Trip, i: nat)
    requires OnNodes(net, t) && i <= |t.plan.relays| < |t.clocks| && PeerAt(t.plan, t.home, i) in net.nodes
    ensures OnNodes(Arrive(net, t, i), t)
  {
  }

  lemma {:induction false} WalkFrom(c: Suite, net: Net, t: Trip, i: nat, freshId: CircuitId)
    requires Sound(c) && Ready(c, net, t) && OnNodes(net, t) && i <= |t.plan.relays|
    ensures WalkOn(c, net, t, i, freshId) == (Arrived(net, t, i), Itinerary(c, t, i))
    decreases |t.plan.relays| - i
  {
    OneHop(c, net, t, i, freshId);
    ItineraryStep(c, t, i);
    assert PeerAt(t.plan, t.home, i) in net.nodes;
    if i < |t.plan.relays| {
      ArriveOnNodes(net, t, i);
      WalkFrom(c, Arrive(net, t, i), t, i + 1, freshId);
    }
  }

  /** The node of hop `k` does not come up again after it. */
  ghost predicate LastTime(p: Plan, home: PeerId, k: nat)
    requires k <= |p.relays|
  {
    forall m :: k < m <= |p.relays| ==> PeerAt(p, home, m) != PeerAt(p, home, k)
  }

  lemma {:induction false} ArrivedKeeps(net: Net, t: Trip, i: nat, k: nat)
    requires k < i <= |t.plan.relays| < |t.clocks| && OnNodes(net, t) && LastTime(t.plan, t.home, k)
    ensures PeerAt(t.plan, t.home, k) in net.nodes && PeerAt(t.plan, t.home, k) in Arrived(net, t, i).nodes
    ensures Arrived(net, t, i).nodes[PeerAt(t.plan, t.home, k)] == net.nodes[PeerAt(t.plan, t.home, k)]
    decreases |t.plan.relays| - i
  {
    assert PeerAt(t.plan, t.home, k) in net.nodes && PeerAt(t.plan, t.home, k) != PeerAt(t.plan, t.home, i);
    if i < |t.plan.relays| {
      ArrivedKeeps(Arrive(net, t, i), t, i + 1, k);
    }
  }

  /** Each node remembers the last time it came up. */
  lemma {:induction false} ArrivedMarks(net: Net, t: Trip, i: nat, k: nat)
    requires i <= k <= |t.plan.relays| < |t.clocks| && OnNodes(net, t) && LastTime(t.plan, t.home, k)
    ensures Marked(Arrived(net, t, i), t.plan, t.home, k, t.circuitId, t.sender, t.clocks[k])
    decreases |t.plan.relays| - i
  {
    var next := Arrive(net, t, i);
    assert Marked(next, t.plan, t.home, i, t.circuitId, t.sender, t.clocks[i]);
    if i < |t.plan.relays| {
      if i < k {
        ArrivedMarks(next, t, i + 1, k);
      } else {
        ArrivedKeeps(next, t, i + 1, k);
      }
    }
  }

  /** Every node on the way remembers the last time it came up. */
  ghost predicate Remembered(net: Net, t: Trip)
    requires |t.plan.relays| < |t.clocks|
  {
    forall k :: 0 <= k <= |t.plan.relays| && LastTime(t.plan, t.home, k) ==>
      Marked(net, t.plan, t.home, k, t.circuitId, t.sender, t.clocks[k])
  }

  /** Handed to its entry node, the packet passes exactly the relays of the route in order. Each hands it to
      the multiaddr and peer id of the next with the circuit id unchanged, only the last is marked as the
      exit, and the recipient's node gets the message. A node may come up more than once; it remembers the
      one before it from the last time. */
  lemma RouteRoundTrip(c: Suite, net: Net, t: Trip, freshId: CircuitId, last: Net, visits: seq<Visit>)
    requires Sound(c) && Ready(c, net, t)
    requires (last, visits)
          == Walk(c, net, t.plan.relays[0].peerId, PacketAt(c, t.plan, 0, t.circuitId, t.sent), t.sender,
                  t.clocks, freshId)
    ensures |visits| == |t.plan.relays| + 1
    ensures forall k :: 0 <= k < |t.plan.relays| ==> visits[k].peer == t.plan.relays[k].peerId
    ensures forall k :: 0 <= k < |t.plan.relays| ==>
      var o := visits[k].outcome;
      && o.Forward? && o.packet.circuitId == t.circuitId && o.packet.timestamp == t.sent
      && o.isExit == (k == |t.plan.relays| - 1)
      && o.nextHop == (if o.isExit then t.plan.destination else t.plan.relays[k + 1].multiaddr)
      && o.nextHopPeerId == (if o.isExit then None else Some(t.plan.relays[k + 1].peerId))
    ensures visits[|t.plan.relays|] == Visit(t.home, Exit(t.plan.destination, t.plan.message))
    ensures Remembered(last, t)
  {
    assert t.clocks[0..] == t.clocks;
    assert OnNodes(net, t);
    WalkFrom(c, net, t, 0, freshId);
    assert forall k :: 0 <= k <= |t.plan.relays| ==> visits[k] == DueVisit(c, t, k);
    forall k | 0 <= k <= |t.plan.relays| && LastTime(t.plan, t.home, k)
      ensures Marked(last, t.plan, t.home, k, t.circuitId, t.sender, t.clocks[k])
    {
      ArrivedMarks(net, t, 0, k);
    }
  }

  // ------------------------------------------------------------- the way back

  function Cleaned(net: Net, now: nat): Net {
    net.(nodes := map peer | peer in net.nodes :: net.nodes[peer].(circuits := Kept(net.nodes[peer].circuits, now)))
  }

  predicate Recent(time: nat, now: nat) {
    now - time <= 600_000
  }

  /** The last time, up to hop `j`, that the node of hop `k` comes up. */
  function LastVisit(p: Plan, home: PeerId, k: nat, j: nat): (last: nat)
    requires k <= j <= |p.relays|
    ensures k <= last <= j && PeerAt(p, home, last) == PeerAt(p, home, k)
    ensures forall m :: last < m <= j ==> PeerAt(p, home, m) != PeerAt(p, home, k)
    decreases j
  {
    if PeerAt(p, home, j) == PeerAt(p, home, k) then j else LastVisit(p, home, k, j - 1)
  }

  /** The way from hop `i` back to the sender. */
  function Retraced(t: Trip, i: nat): seq<PeerId>
    requires i <= |t.plan.relays|
  {
    [Prev(t.plan, t.home, i, t.sender)] + if i == 0 then [] else Retraced(t, i - 1)
  }

  /** The last time the node of hop `k` came up it came up after the same node. */
  predicate SamePrev(t: Trip, k: nat)
    requires k <= |t.plan.relays|
  {
    Prev(t.plan, t.home, LastVisit(t.plan, t.home, k, |t.plan.relays|), t.sender) == Prev(t.plan, t.home, k, t.sender)
  }

  predicate StillFresh(t: Trip, k: nat, now: nat)
    requires k <= |t.plan.relays| < |t.clocks|
  {
    Recent(t.clocks[LastVisit(t.plan, t.home, k, |t.plan.relays|)], now)
  }

  /** What following the records from hop `i` gives after a cleanup everywhere. */
  lemma {:induction false} TrailBack(last: Net, t: Trip, i: nat, now: nat, trail: seq<PeerId>)
    requires i <= |t.plan.relays| < |t.clocks|
    requires Remembered(last, t)
    requires trail == Back(Cleaned(last, now), PeerAt(t.plan, t.home, i), t.circuitId, i + 1)
    ensures trail == Retraced(t, i) <==> forall k :: 0 <= k <= i ==> SamePrev(t, k) && StillFresh(t, k, now)
    ensures (forall k :: 0 <= k <= i ==> SamePrev(t, k)) ==> trail <= Retraced(t, i)
  {
    var j := LastVisit(t.plan, t.home, i, |t.plan.relays|);
    assert LastTime(t.plan, t.home, j);
    assert Marked(last, t.plan, t.home, j, t.circuitId, t.sender, t.clocks[j]);
    if !StillFresh(t, i, now) {
      assert t.circuitId !in Cleaned(last, now).nodes[PeerAt(t.plan, t.home, i)].circuits;
      assert trail == [];
    } else {
      var prev := Prev(t.plan, t.home, j, t.sender);
      var rest := Back(Cleaned(last, now), prev, t.circuitId, i);
      assert trail == [prev] + rest;
      if !SamePrev(t, i) {
        assert trail[0] != Retraced(t, i)[0];
      } else if i > 0 {
        TrailBack(last, t, i - 1, now, rest);
        assert trail[1..] == rest && Retraced(t, i)[1..] == Retraced(t, i - 1);
      }
    }
  }

  lemma {:induction false} RetracedIs(t: Trip, i: nat)
    requires i <= |t.plan.relays|
    ensures |Retraced(t, i)| == i + 1
    ensures forall k :: 0 <= k <= i ==> Retraced(t, i)[k] == Prev(t.plan, t.home, i - k, t.sender)
  {
    if i > 0 {
      RetracedIs(t, i - 1);
      assert forall k :: 0 < k <= i ==> Retraced(t, i)[k] == Retraced(t, i - 1)[k - 1];
    }
  }

  /** Following the recorded previous hops from the recipient gives the relays in reverse and then the sender,
      if and only if every node that comes up more than once came up after the same node the last time, and
      no circuit on the way is older than ten minutes at a cleanup. If only circuits are missing, it gives the
      way up to the first missing one. */
  lemma WayBack(
    c: Suite, net: Net, t: Trip, freshId: CircuitId, last: Net, visits: seq<Visit>, now: nat, trail: seq<PeerId>)
    requires Sound(c) && Ready(c, net, t)
    requires (last, visits)
          == Walk(c, net, t.plan.relays[0].peerId, PacketAt(c, t.plan, 0, t.circuitId, t.sent), t.sender,
                  t.clocks, freshId)
    requires trail == Back(Cleaned(last, now), t.home, t.circuitId, |t.plan.relays| + 1)
    ensures var n := |t.plan.relays|;
            && |Retraced(t, n)| == n + 1 && Retraced(t, n)[n] == t.sender
            && (forall k :: 0 <= k < n ==> Retraced(t, n)[k] == t.plan.relays[n - 1 - k].peerId)
            && (trail == Retraced(t, n) <==> forall k :: 0 <= k <= n ==> SamePrev(t, k) && StillFresh(t, k, now))
            && ((forall k :: 0 <= k <= n ==> SamePrev(t, k)) ==> trail <= Retraced(t, n))
  {
    assert Remembered(last, t) by {
      RouteRoundTrip(c, net, t, freshId, last, visits);
    }
    TrailBack(last, t, |t.plan.relays|, now, trail);
    RetracedIs(t, |t.plan.relays|);
  }

  // ------------------------------------------------ the recipient among the relays

  /** No relay is the recipient's node; or the first is, and the last is the sender's, so that both times the
      recipient's node comes up it comes up after the sender. */
  predicate HomeApart(t: Trip)
    requires t.plan.relays != []
  {
    || (forall r :: r in t.plan.relays ==> r.peerId != t.home)
    || (t.plan.relays[0].peerId == t.home && t.plan.relays[|t.plan.relays| - 1].peerId == t.sender)
  }

  /** With pairwise different relays only the recipient's node can come up twice. */
  lemma OnlyHomeTwice(t: Trip, k: nat)
    requires Distinct(t.plan.relays) && k <= |t.plan.relays|
    ensures LastVisit(t.plan, t.home, k, |t.plan.relays|)
         == if k < |t.plan.relays| && t.plan.relays[k].peerId == t.home then |t.plan.relays| else k
  {
  }

  lemma SameWhenApart(t: Trip, k: nat)
    requires t.plan.relays != [] && Distinct(t.plan.relays) && k <= |t.plan.relays|
    ensures HomeApart(t) ==> SamePrev(t, k)
    ensures SamePrev(t, k) && k < |t.plan.relays| && t.plan.relays[k].peerId == t.home ==> HomeApart(t)
  {
    OnlyHomeTwice(t, k);
    if k < |t.plan.relays| {
      assert t.plan.relays[k] in t.plan.relays;
    }
  }

  lemma FreshWhenApart(t: Trip, k: nat, now: nat)
    requires t.plan.relays != [] && Distinct(t.plan.relays) && k <= |t.plan.relays| < |t.clocks| && HomeApart(t)
    ensures StillFresh(t, k, now)
         == Recent(t.clocks[if k == 0 && t.plan.relays[0].peerId == t.home then |t.plan.relays| else k], now)
  {
    OnlyHomeTwice(t, k);
    if k < |t.plan.relays| {
      assert t.plan.relays[k] in t.plan.relays;
    }
  }

  /** Every circuit on the way is recent; the first relay's may be older if it is the recipient's node, which
      is visited again. */
  predicate CircuitsRecent(t: Trip, now: nat)
    requires 0 < |t.plan.relays| < |t.clocks|
  {
    forall k :: 0 <= k <= |t.plan.relays| ==> Recent(t.clocks[k], now) || (k == 0 && t.plan.relays[0].peerId == t.home)
  }

  lemma RemembersExactly(t: Trip, now: nat)
    requires Distinct(t.plan.relays) && 0 < |t.plan.relays| < |t.clocks|
    ensures (forall k :: 0 <= k <= |t.plan.relays| ==> SamePrev(t, k) && StillFresh(t, k, now))
       <==> HomeApart(t) && CircuitsRecent(t, now)
  {
    var n := |t.plan.relays|;
    if HomeApart(t) {
      forall k | 0 <= k <= n
        ensures SamePrev(t, k)
        ensures CircuitsRecent(t, now) ==> StillFresh(t, k, now)
        ensures StillFresh(t, k, now) ==> Recent(t.clocks[k], now) || (k == 0 && t.plan.relays[0].peerId == t.home)
      {
        SameWhenApart(t, k);
        FreshWhenApart(t, k, now);
        assert CircuitsRecent(t, now) ==> Recent(t.clocks[n], now);
      }
    } else {
      var r :| r in t.plan.relays && r.peerId == t.home;
      var k :| 0 <= k < |t.plan.relays| && t.plan.relays[k] == r;
      SameWhenApart(t, k);
    }
  }

  /** Over relays that are pairwise different, as a selection yields them, the way back is the reversed route
      and then the sender if and only if no relay is the recipient's node, but for the first one where the
      last is the sender's, and the circuits are recent. */
  lemma WayBackExactly(
    c: Suite, net: Net, t: Trip, freshId: CircuitId, last: Net, visits: seq<Visit>, now: nat, trail: seq<PeerId>)
    requires Sound(c) && Ready(c, net, t) && Distinct(t.plan.relays)
    requires (last, visits)
          == Walk(c, net, t.plan.relays[0].peerId, PacketAt(c, t.plan, 0, t.circuitId, t.sent), t.sender,
                  t.clocks, freshId)
    requires trail == Back(Cleaned(last, now), t.home, t.circuitId, |t.plan.relays| + 1)
    ensures trail == Retraced(t, |t.plan.relays|) <==> HomeApart(t) && CircuitsRecent(t, now)
  {
    WayBack(c, net, t, freshId, last, visits, now, trail);
    RemembersExactly(t, now);
  }

  // --------------------------------------------------- from selection to exit

  /** Every relay in the sender's table is a node that holds its key. */
  ghost predicate Honest(c: Suite, net: Net, known: seq<Relay>) {
    forall r :: r in known ==> r.peerId in net.nodes && c.PublicKey(net.nodes[r.peerId].privateKey) == r.publicKey
  }

  ghost predicate Addressed(c: Suite, net: Net, t: Trip) {
    && t.plan.destination in net.homes && net.homes[t.plan.destination] == t.home
    && t.home in net.nodes && c.PublicKey(net.nodes[t.home].privateKey) == t.plan.destinationKey
  }

  lemma ChosenAreStaffed(c: Suite, net: Net, known: seq<Relay>, t: Trip)
    requires Honest(c, net, known) && Addressed(c, net, t) && forall r :: r in t.plan.relays ==> r in known
    ensures Staffed(c, net, t.plan, t.home)
  {
    forall i | 0 <= i <= |t.plan.relays|
      ensures PeerAt(t.plan, t.home, i) in net.nodes
      ensures c.PublicKey(net.nodes[PeerAt(t.plan, t.home, i)].privateKey) == KeyAt(t.plan, i)
    {
      if i < |t.plan.relays| {
        assert t.plan.relays[i] in t.plan.relays;
      }
    }
  }

  lemma ChosenTripIsReady(c: Suite, net: Net, known: seq<Relay>, exclude: seq<PeerId>, draws: seq<real>, t: Trip)
    requires Distinct(known) && Honest(c, net, known)
    requires Select(known, exclude, draws) == Ok(t.plan.relays) && Addressed(c, net, t)
    requires Complete(t.plan) && t.circuitId != "" && t.sent > 0
    requires t.plan.relays != [] && |t.clocks| == |t.plan.relays| + 1
    ensures Ready(c, net, t) && Distinct(t.plan.relays)
    ensures forall r :: r in t.plan.relays ==> r in known && r.peerId !in exclude
  {
    SelectionIsSound(known, exclude, draws);
    ChosenAreStaffed(c, net, known, t);
  }

  /** A message sent over whatever relays the selection yields passes exactly these, which are known and not
      excluded, and then reaches the recipient, even if its node is among them. */
  lemma SentMessageArrives(
    c: Suite, net: Net, known: seq<Relay>, exclude: seq<PeerId>, draws: seq<real>, t: Trip, freshId: CircuitId,
    last: Net, visits: seq<Visit>)
    requires Sound(c) && Distinct(known) && Honest(c, net, known)
    requires Select(known, exclude, draws) == Ok(t.plan.relays) && Addressed(c, net, t)
    requires Complete(t.plan) && t.circuitId != "" && t.sent > 0
    requires t.plan.relays != [] && |t.clocks| == |t.plan.relays| + 1
    requires (last, visits)
          == Walk(c, net, t.plan.relays[0].peerId, PacketAt(c, t.plan, 0, t.circuitId, t.sent), t.sender,
                  t.clocks, freshId)
    ensures var n := |t.plan.relays|;
            && |visits| == n + 1 && visits[n] == Visit(t.home, Exit(t.plan.destination, t.plan.message))
            && (Draws(draws) && |draws| <= |GoodRelays(known, exclude)| ==> n == |draws|)
    ensures forall k :: 0 <= k < |t.plan.relays| ==>
      exists r :: r in known && r.peerId !in exclude && visits[k].peer == r.peerId
  {
    SelectionIsSound(known, exclude, draws);
    ChosenTripIsReady(c, net, known, exclude, draws, t);
    RouteRoundTrip(c, net, t, freshId, last, visits);
    forall k | 0 <= k < |t.plan.relays|
      ensures exists r :: r in known && r.peerId !in exclude && visits[k].peer == r.peerId
    {
      var r := t.plan.relays[k];
      assert r in t.plan.relays && visits[k].peer == r.peerId;
    }
  }

  /** Relays chosen with the recipient's node excluded lead back, as long as the circuits are recent. */
  lemma ExcludedHomeIsApart(known: seq<Relay>, exclude: seq<PeerId>, draws: seq<real>, t: Trip)
    requires Distinct(known) && Select(known, exclude, draws) == Ok(t.plan.relays)
    requires t.plan.relays != [] && t.home in exclude
    ensures Distinct(t.plan.relays) && HomeApart(t)
    ensures |t.clocks| == |t.plan.relays| + 1 ==> forall now ::
      CircuitsRecent(t, now) <==> forall k :: 0 <= k <= |t.plan.relays| ==> Recent(t.clocks[k], now)
  {
    SelectionIsSound(known, exclude, draws);
    assert t.plan.relays[0] in t.plan.relays;
  }
}
