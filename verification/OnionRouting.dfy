/** The route builder and the router objects, proved against the specification of selection and peeling. */
module OnionRouting {
  import opened Options
  import opened Encoding
  import opened RelaySelection
  import opened Onion

  datatype Route = Route(packet: Packet, entryNode: Option<Relay>, route: seq<PeerId>)

  function Names(relays: seq<Relay>): seq<PeerId> {
    seq(|relays|, i requires 0 <= i < |relays| => relays[i].peerId)
  }

  class OnionRouteBuilder {
    const hopCount: nat
    var knownRelays: seq<Relay>

    constructor (hopCount: nat)
      ensures this.hopCount == (if hopCount == 0 then 3 else hopCount) && knownRelays == []
    {
      this.hopCount := if hopCount == 0 then DEFAULT_HOP_COUNT else hopCount;
      knownRelays := [];
    }

    /** The table is searched for the peer id; the entry is replaced there or added at the end. */
    method RegisterRelay(r: Relay)
      modifies this
      ensures knownRelays == Registered(old(knownRelays), r)
      ensures Distinct(old(knownRelays)) ==> Distinct(knownRelays)
      ensures forall peerId ::
                Entry(knownRelays, peerId) == if peerId == r.peerId then Some(r) else Entry(old(knownRelays), peerId)
    {
      var i := 0;
      while i < |knownRelays| && knownRelays[i].peerId != r.peerId
        invariant 0 <= i <= |knownRelays|
        invariant forall j :: 0 <= j < i ==> knownRelays[j].peerId != r.peerId
      {
        i := i + 1;
      }
      ghost var was := knownRelays;
      RegisteredAt(was, r, i);
      if i < |knownRelays| {
        knownRelays := knownRelays[i := r];
      } else {
        knownRelays := knownRelays + [r];
      }
      RegisteredEntry(was, r);
      if Distinct(was) {
        RegisteredDistinct(was, r);
      }
    }

    /** One round of the outer loop: walk over the remaining relays until the draw is used up. */
    method DrawOne(remaining: seq<Relay>, draw: real) returns (hit: nat)
      ensures hit == Scan(remaining, 0, Target(draw, Total(remaining)))
    {
      var random := Target(draw, Total(remaining));
      hit := 0;
      while hit < |remaining|
        invariant hit <= |remaining|
        invariant Scan(remaining, hit, random) == Scan(remaining, 0, Target(draw, Total(remaining)))
      {
        random := random - remaining[hit].score;
        if random <= 0.0 {
          break;
        }
        hit := hit + 1;
      }
    }

    method SelectRelays(count: nat, excludePeers: seq<PeerId>, draws: seq<real>) returns (r: Result<seq<Relay>>)
      requires |draws| == count
      ensures r == Select(knownRelays, excludePeers, draws)
    {
      var available := Available(knownRelays, excludePeers);
      if |available| < count {
        return NotEnoughRelays(count, |available|);
      }
      var selected, remaining := [], available;
      for i := 0 to count
        invariant selected + Drawn(remaining, draws[i..]) == Drawn(available, draws)
      {
        assert draws[i..][0] == draws[i] && draws[i..][1..] == draws[i + 1..];
        var j := DrawOne(remaining, draws[i]);
        if j < |remaining| {
          assert selected + Drawn(remaining, draws[i..])
              == selected + [remaining[j]] + Drawn(Without(remaining, j), draws[i + 1..]);
          selected := selected + [remaining[j]];
          remaining := Without(remaining, j);
        }
      }
      assert draws[count..] == [] && selected + [] == selected;
      r := Ok(selected);
    }

    /** The layers are put on from the recipient outwards. */
    static method PutOnLayers(c: Suite, plan: Plan) returns (encrypted: Encrypted)
      requires Complete(plan)
      ensures encrypted == Nest(c, plan, 0)
    {
      var relays, n := plan.relays, |plan.relays|;
      encrypted := EncryptLayer(c, Final(plan.destination, Base64(plan.message)), plan.destinationKey, plan.draws[n]);
      var i := n;
      while i > 0
        invariant 0 <= i <= n && encrypted == Nest(c, plan, i)
      {
        i := i - 1;
        var isExit := i == n - 1;
        var layer := Hop(if isExit then plan.destination else relays[i + 1].multiaddr,
                         if isExit then None else Some(relays[i + 1].peerId), isExit, encrypted);
        encrypted := EncryptLayer(c, layer, relays[i].publicKey, plan.draws[i]);
      }
    }

    method BuildRoute(
      c: Suite, message: Bytes, destination: Address, destinationKey: Bytes, excludePeers: seq<PeerId>,
      draws: seq<real>, layerDraws: seq<Draw>, freshId: CircuitId, now: nat) returns (r: Result<Route>)
      requires |draws| == hopCount && |layerDraws| == hopCount + 1 && freshId != "" && now > 0
      ensures match Select(knownRelays, excludePeers, draws)
              case NotEnoughRelays(need, have) => r == NotEnoughRelays(need, have)
              case Ok(relays) =>
                && |relays| <= hopCount
                && var plan := Plan(relays, destination, destinationKey, message, layerDraws[..|relays| + 1]);
                   r == Ok(Route(PacketAt(c, plan, 0, freshId, now),
                                 if relays == [] then None else Some(relays[0]), Names(relays)))
    {
      var selection := SelectRelays(hopCount, excludePeers, draws);
      if selection.NotEnoughRelays? {
        return NotEnoughRelays(selection.need, selection.have);
      }
      var relays := selection.value;
      DrawnAtMost(Available(knownRelays, excludePeers), draws);
      var plan := Plan(relays, destination, destinationKey, message, layerDraws[..|relays| + 1]);
      var encrypted := PutOnLayers(c, plan);
      r := Ok(Route(NewPacket(encrypted, "", 0, freshId, now),
                    if relays == [] then None else Some(relays[0]), Names(relays)));
    }
  }

  lemma {:induction false} DrawnAtMost(remaining: seq<Relay>, draws: seq<real>)
    ensures |Drawn(remaining, draws)| <= |draws|
    decreases |draws|
  {
    if draws != [] {
      var j := Scan(remaining, 0, Target(draws[0], Total(remaining)));
      DrawnAtMost(if j == |remaining| then remaining else Without(remaining, j), draws[1..]);
    }
  }

  /** The circuits half way through a cleanup, with the ids in `left` still to visit. */
  function Swept(was: map<CircuitId, Circuit>, left: set<CircuitId>, now: nat): map<CircuitId, Circuit> {
    map id | id in was && (id in left || now - was[id].timestamp <= MAX_AGE) :: was[id]
  }

  class OnionRouter {
    const privateKey: Bytes
    const peerId: PeerId
    var circuits: map<CircuitId, Circuit>

    constructor (privateKey: Bytes, peerId: PeerId)
      ensures this.privateKey == privateKey && this.peerId == peerId && circuits == map[]
    {
      this.privateKey, this.peerId := privateKey, peerId;
      circuits := map[];
    }

    method ProcessPacket(c: Suite, packet: Packet, from: PeerId, now: nat, freshId: CircuitId) returns (o: Outcome)
      modifies this
      ensures (circuits, o) == Process(c, privateKey, old(circuits), packet, from, now, freshId)
    {
      var decrypted := DecryptLayer(c, packet.encryptedPayload, privateKey);
      if decrypted.None? {
        return Failed;
      }
      var layer := decrypted.value;
      circuits := circuits[packet.circuitId := Circuit(from, now)];
      match layer
      case Final(destination, message) => o := Exit(destination, FromBase64(message));
      case Hop(nextHop, nextHopPeerId, isExit, payload) =>
        var next := NewPacket(payload, packet.circuitId, packet.timestamp, freshId, now);
        o := Forward(nextHop, nextHopPeerId, next, isExit);
      case Unknown => o := Failed;
    }

    method CleanupCircuits(now: nat)
      modifies this
      ensures circuits == Kept(old(circuits), now)
    {
      ghost var was := circuits;
      var left := circuits.Keys;
      while left != {}
        invariant left <= was.Keys && circuits == Swept(was, left, now)
        decreases |left|
      {
        var id :| id in left;
        left := left - {id};
        if now - circuits[id].timestamp > MAX_AGE {
          circuits := circuits - {id};
        }
      }
    }
  }
}
