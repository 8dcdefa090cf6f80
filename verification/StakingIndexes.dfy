/** The relay registry: its three indexes, the counting loop, and the life of a wallet. */
module StakingIndexes {
  import opened Sums
  import opened Staking

  ghost predicate NoDuplicates(s: seq<Address>) {
    forall i, j :: 0 <= i < j < |s| ==> s[i] != s[j]
  }

  /** The list names every registered wallet once, the peer ids of the records and the peer id index are
      mutual inverses, and the claimed rewards add up to what was distributed. */
  ghost predicate Indexed(s: Token) {
    && NoDuplicates(s.registered)
    && (forall w :: w in s.nodes <==> w in s.registered)
    && (forall w :: w in s.nodes ==>
          w != ZERO_ADDRESS && s.nodes[w].peerId in s.peerIdToWallet && s.peerIdToWallet[s.nodes[w].peerId] == w)
    && (forall p :: p in s.peerIdToWallet ==>
          s.peerIdToWallet[p] in s.nodes && s.nodes[s.peerIdToWallet[p]].peerId == p)
    && Sum(Claims(s.nodes)) == s.distributed
  }

  /** From an indexed state, a registration that goes through keeps the indexes exactly when the wallet had
      no record yet. */
  lemma IndexedRegister(s: Token, w: Address, peerId: PeerId, now: nat)
    requires Indexed(s) && RegisterRelayNode(s, w, peerId, now).Ok?
    ensures Indexed(RegisterRelayNode(s, w, peerId, now).value) <==> w !in s.nodes
  {
    var t := RegisterRelayNode(s, w, peerId, now).value;
    if w in s.nodes {
      ListedTwice(s.registered, w);
    } else {
      IndexedAdd(s, t, w, RelayNode(peerId, s.minStake, now, now, 0, true));
    }
  }

  lemma IndexedAdd(s: Token, t: Token, w: Address, node: RelayNode)
    requires Indexed(s) && w !in s.nodes && w != ZERO_ADDRESS && node.peerId !in s.peerIdToWallet
    requires t.nodes == s.nodes[w := node] && t.registered == s.registered + [w]
    requires t.peerIdToWallet == s.peerIdToWallet[node.peerId := w]
    requires t.distributed == s.distributed && node.totalRewardsClaimed == 0
    ensures Indexed(t)
  {
    ClaimsSet(s.nodes, w, node);
    forall x ensures x in t.nodes <==> x in t.registered {
      assert x in t.registered <==> x in s.registered || x == w;
    }
  }

  lemma ListedTwice(listed: seq<Address>, w: Address)
    requires w in listed
    ensures !NoDuplicates(listed + [w])
  {
    var i :| 0 <= i < |listed| && listed[i] == w;
    assert (listed + [w])[i] == (listed + [w])[|listed|];
  }

  /** Calls that only rewrite the caller's own record, with the same peer id. */
  lemma IndexedUpdate(s: Token, t: Token, w: Address, node: RelayNode)
    requires Indexed(s) && w in s.nodes && node.peerId == s.nodes[w].peerId
    requires t.nodes == s.nodes[w := node] && t.registered == s.registered && t.peerIdToWallet == s.peerIdToWallet
    requires t.distributed - s.distributed == node.totalRewardsClaimed - s.nodes[w].totalRewardsClaimed
    ensures Indexed(t)
  {
    ClaimsSet(s.nodes, w, node);
  }

  predicate OwnRecordCall(call: Call) {
    call.AddStake? || call.Claim? || call.Deactivate? || call.Withdraw?
  }

  lemma RewritesOwnRecord(s: Token, w: Address, call: Call, now: nat, t: Token, node: RelayNode)
    requires OwnRecordCall(call) && Apply(s, w, call, now) == Ok(t) && node == NodeOf(t.nodes, w)
    ensures w in s.nodes && node.peerId == s.nodes[w].peerId
    ensures t.nodes == s.nodes[w := node] && t.registered == s.registered && t.peerIdToWallet == s.peerIdToWallet
    ensures t.distributed - s.distributed == node.totalRewardsClaimed - s.nodes[w].totalRewardsClaimed
  {
  }

  /** A registration that goes through for a wallet that has a record already. */
  predicate Again(s: Token, tx: Tx) {
    tx.call.Register? && tx.sender in s.nodes && Apply(s, tx.sender, tx.call, tx.now).Ok?
  }

  lemma IndexedStep(s: Token, tx: Tx)
    requires Indexed(s) && !Again(s, tx)
    ensures Indexed(Step(s, tx))
  {
    var w, r := tx.sender, Apply(s, tx.sender, tx.call, tx.now);
    if r.Ok? {
      var t := r.value;
      if OwnRecordCall(tx.call) {
        RewritesOwnRecord(s, w, tx.call, tx.now, t, NodeOf(t.nodes, w));
        IndexedUpdate(s, t, w, NodeOf(t.nodes, w));
      } else if tx.call.Register? {
        IndexedRegister(s, w, tx.call.peerId, tx.now);
      } else {
        assert t.nodes == s.nodes && t.registered == s.registered && t.peerIdToWallet == s.peerIdToWallet;
      }
    }
  }

  /** Some registration in the run went through for a wallet that had a record already. */
  predicate RegistersAgain(self: Address, deployer: Address, txs: seq<Tx>) {
    txs != [] &&
    var before := txs[..|txs| - 1];
    RegistersAgain(self, deployer, before) || Again(Run(self, deployer, before), txs[|txs| - 1])
  }

  lemma ListGrows(s: Token, tx: Tx)
    requires !NoDuplicates(s.registered)
    ensures !NoDuplicates(Step(s, tx).registered)
  {
    var i, j :| 0 <= i < j < |s.registered| && s.registered[i] == s.registered[j];
    assert Step(s, tx).registered[i] == Step(s, tx).registered[j];
  }

  lemma {:induction false} ListedAgain(self: Address, deployer: Address, txs: seq<Tx>)
    requires RegistersAgain(self, deployer, txs)
    ensures !NoDuplicates(Run(self, deployer, txs).registered)
  {
    var before, tx := txs[..|txs| - 1], txs[|txs| - 1];
    var s := Run(self, deployer, before);
    if RegistersAgain(self, deployer, before) {
      ListedAgain(self, deployer, before);
      ListGrows(s, tx);
    } else {
      AlwaysListed(self, deployer, before);
      ListedTwice(s.registered, tx.sender);
    }
  }

  /** After any calls whatever, the indexes agree if and only if no registration went through for a wallet
      that had a record already. */
  lemma {:induction false} IndexedExactly(self: Address, deployer: Address, txs: seq<Tx>)
    ensures Indexed(Run(self, deployer, txs)) <==> !RegistersAgain(self, deployer, txs)
  {
    if RegistersAgain(self, deployer, txs) {
      ListedAgain(self, deployer, txs);
    } else if txs == [] {
      assert Claims(map[]) == map[];
    } else {
      IndexedExactly(self, deployer, txs[..|txs| - 1]);
      IndexedStep(Run(self, deployer, txs[..|txs| - 1]), txs[|txs| - 1]);
    }
  }

  // ------------------------------------------------------ registering once more

  ghost predicate RealWallets(s: Token) {
    s.self != ZERO_ADDRESS && forall p :: p in s.peerIdToWallet ==> s.peerIdToWallet[p] != ZERO_ADDRESS
  }

  lemma {:induction false} AlwaysRealWallets(self: Address, deployer: Address, txs: seq<Tx>)
    requires self != ZERO_ADDRESS
    ensures RealWallets(Run(self, deployer, txs))
  {
    if txs != [] {
      AlwaysRealWallets(self, deployer, txs[..|txs| - 1]);
      PeersAfter(Run(self, deployer, txs[..|txs| - 1]), txs[|txs| - 1]);
    }
  }

  lemma PeersAfter(s: Token, tx: Tx)
    ensures Step(s, tx).self == s.self
    ensures tx.call.Register? && Apply(s, tx.sender, tx.call, tx.now).Ok? ==> tx.sender != ZERO_ADDRESS
    ensures Step(s, tx).peerIdToWallet
         == if tx.call.Register? && Apply(s, tx.sender, tx.call, tx.now).Ok?
            then s.peerIdToWallet[tx.call.peerId := tx.sender] else s.peerIdToWallet
  {
  }

  /** In every reachable state a wallet with a record can register once more exactly if the record's peer id
      is zero, the new peer id is nobody's, and its balance covers the minimum stake. */
  lemma SecondRegistration(self: Address, deployer: Address, txs: seq<Tx>, w: Address, peerId: PeerId, now: nat)
    requires self != ZERO_ADDRESS && w != ZERO_ADDRESS
    ensures var s := Run(self, deployer, txs);
            Again(s, Tx(w, Register(peerId), now))
            <==> w in s.nodes && s.nodes[w].peerId == ZERO_PEER && peerId !in s.peerIdToWallet
                 && s.minStake <= Get(s.balances, w)
  {
    AlwaysRealWallets(self, deployer, txs);
  }

  predicate NonzeroPeer(call: Call) {
    call.Register? ==> call.peerId != ZERO_PEER
  }

  predicate NonzeroPeers(txs: seq<Tx>) {
    forall tx :: tx in txs ==> NonzeroPeer(tx.call)
  }

  ghost predicate NonzeroRecords(s: Token) {
    forall w :: w in s.nodes ==> s.nodes[w].peerId != ZERO_PEER
  }

  lemma NonzeroStep(s: Token, tx: Tx)
    requires NonzeroRecords(s) && NonzeroPeer(tx.call)
    ensures NonzeroRecords(Step(s, tx)) && !Again(s, tx)
  {
    var r := Apply(s, tx.sender, tx.call, tx.now);
    if r.Ok? && OwnRecordCall(tx.call) {
      RewritesOwnRecord(s, tx.sender, tx.call, tx.now, r.value, NodeOf(r.value.nodes, tx.sender));
    }
  }

  lemma {:induction false} NonzeroRegistersOnce(self: Address, deployer: Address, txs: seq<Tx>)
    requires NonzeroPeers(txs)
    ensures !RegistersAgain(self, deployer, txs) && NonzeroRecords(Run(self, deployer, txs))
  {
    if txs != [] {
      NonzeroRegistersOnce(self, deployer, txs[..|txs| - 1]);
      NonzeroStep(Run(self, deployer, txs[..|txs| - 1]), txs[|txs| - 1]);
    }
  }

  /** After any calls with nonzero peer ids the indexes agree, no record has a zero peer id, and so no wallet
      can register again. */
  lemma AlwaysIndexed(self: Address, deployer: Address, txs: seq<Tx>)
    requires NonzeroPeers(txs)
    ensures Indexed(Run(self, deployer, txs)) && NonzeroRecords(Run(self, deployer, txs))
  {
    NonzeroRegistersOnce(self, deployer, txs);
    IndexedExactly(self, deployer, txs);
  }

  /** A zero peer id defeats the registration test: the same wallet registers twice, is listed and counted
      twice, and its first stake is no longer recorded. */
  lemma ZeroPeerRegistersTwice(self: Address, deployer: Address)
    requires self != ZERO_ADDRESS && deployer != ZERO_ADDRESS && deployer != self
    ensures var txs := [Tx(deployer, Register(ZERO_PEER), 0), Tx(deployer, Register(7), 0)];
            var s := Run(self, deployer, txs);
            && s.registered == [deployer, deployer] && ActiveCount(s.nodes, s.registered) == 2
            && Get(s.balances, self) == RELAY_REWARDS_POOL + 2 * INITIAL_MIN_STAKE
            && Sum(Stakes(s.nodes)) == INITIAL_MIN_STAKE
  {
    var first, second := Tx(deployer, Register(ZERO_PEER), 0), Tx(deployer, Register(7), 0);
    var s0 := Deploy(self, deployer);
    var s1 := Step(s0, first);
    var s2 := Step(s1, second);
    assert [first][..0] == [] && [first, second][..1] == [first];
    assert Run(self, deployer, [first]) == s1;
    assert Run(self, deployer, [first, second]) == s2;
    assert s1.registered == [deployer] && s2.registered == [deployer, deployer];
    assert s2.registered[..1] == [deployer] && [deployer][..0] == [];
    assert ActiveCount(s2.nodes, [deployer]) == 1;
    StakesSet(map[], deployer, NodeOf(s2.nodes, deployer));
    assert Stakes(map[]) == map[];
    assert s2.nodes == map[deployer := NodeOf(s2.nodes, deployer)];
  }

  // ------------------------------------------------------ counting active nodes

  ghost function ActiveWallets(nodes: map<Address, RelayNode>): set<Address> {
    set w | w in nodes && nodes[w].isActive
  }

  ghost function ActiveListed(nodes: map<Address, RelayNode>, registered: seq<Address>): set<Address> {
    set w | w in registered && NodeOf(nodes, w).isActive
  }

  lemma {:induction false} CountListed(nodes: map<Address, RelayNode>, registered: seq<Address>)
    ensures |ActiveListed(nodes, registered)| <= ActiveCount(nodes, registered)
    ensures NoDuplicates(registered) ==> ActiveCount(nodes, registered) == |ActiveListed(nodes, registered)|
  {
    if registered != [] {
      var before, last := registered[..|registered| - 1], registered[|registered| - 1];
      CountListed(nodes, before);
      assert registered == before + [last];
      if NodeOf(nodes, last).isActive {
        assert ActiveListed(nodes, registered) == ActiveListed(nodes, before) + {last};
        assert NoDuplicates(registered) ==> last !in before;
      } else {
        assert ActiveListed(nodes, registered) == ActiveListed(nodes, before);
      }
    } else {
      assert ActiveListed(nodes, registered) == {};
    }
  }

  /** Where the indexes agree, the counting loop gives the number of active wallets. */
  lemma CountIsExact(s: Token)
    requires Indexed(s)
    ensures ActiveCount(s.nodes, s.registered) == |ActiveWallets(s.nodes)|
  {
    CountListed(s.nodes, s.registered);
    assert ActiveListed(s.nodes, s.registered) == ActiveWallets(s.nodes);
  }

  /** In every reachable state, zero peer ids included, every node record is listed. */
  ghost predicate Listed(s: Token) {
    forall w :: w in s.nodes ==> w in s.registered
  }

  lemma {:induction false} AlwaysListed(self: Address, deployer: Address, txs: seq<Tx>)
    ensures Listed(Run(self, deployer, txs))
  {
    if txs != [] {
      AlwaysListed(self, deployer, txs[..|txs| - 1]);
      ListedStep(Run(self, deployer, txs[..|txs| - 1]), txs[|txs| - 1]);
    }
  }

  lemma ListedStep(s: Token, tx: Tx)
    requires Listed(s)
    ensures Listed(Step(s, tx))
  {
    var t := Step(s, tx);
    forall w | w in t.nodes ensures w in t.registered {
      if w in s.nodes {
        assert w in s.registered;
      } else {
        assert tx.call.Register? && t.registered[|s.registered|] == w;
      }
    }
  }

  // ------------------------------------------------------- the life of a wallet

  datatype Phase = Unregistered | Active | Inactive | Withdrawn

  function PhaseOf(nodes: map<Address, RelayNode>, w: Address): Phase {
    if w !in nodes then Unregistered
    else if nodes[w].isActive then Active
    else if nodes[w].stakedAmount > 0 then Inactive
    else Withdrawn
  }

  function Rank(p: Phase): nat {
    match p
    case Unregistered => 0
    case Active => 1
    case Inactive => 2
    case Withdrawn => 3
  }

  /** The phase a call leads to when it goes through. */
  function After(p: Phase, call: Call, stake: nat): Phase {
    match call
    case Register(_) => Active
    case Deactivate => if stake > 0 then Inactive else Withdrawn
    case Withdraw => Withdrawn
    case _ => p
  }

  /** A call moves nobody but its caller, registers only the unregistered, deactivates only the active and
      pays out only the inactive. */
  lemma PhaseStep(s: Token, tx: Tx, w: Address)
    requires !Again(s, tx)
    ensures var before, after := PhaseOf(s.nodes, w), PhaseOf(Step(s, tx).nodes, w);
            if w == tx.sender && Apply(s, w, tx.call, tx.now).Ok?
            then
              && after == After(before, tx.call, NodeOf(s.nodes, w).stakedAmount)
              && (tx.call.Register? ==> before == Unregistered)
              && (tx.call.Deactivate? || tx.call.AddStake? || tx.call.Claim? ==> before == Active)
              && (tx.call.Withdraw? ==> before == Inactive)
            else after == before
  {
  }

  /** Over any run in which nobody registers again a wallet's phase only moves forward. */
  lemma {:induction false} PhasesMoveForward(self: Address, deployer: Address, txs: seq<Tx>, more: seq<Tx>, w: Address)
    requires !RegistersAgain(self, deployer, txs + more)
    ensures Rank(PhaseOf(Run(self, deployer, txs).nodes, w)) <= Rank(PhaseOf(Run(self, deployer, txs + more).nodes, w))
    decreases |more|
  {
    if more == [] {
      assert txs + more == txs;
    } else {
      var most, tx := more[..|more| - 1], more[|more| - 1];
      var all := txs + more;
      assert all[..|all| - 1] == txs + most && all[|all| - 1] == tx;
      PhasesMoveForward(self, deployer, txs, most, w);
      PhaseStep(Run(self, deployer, txs + most), tx, w);
    }
  }

  // --------------------------------------------------- stakes and rewards paid

  /** What a transaction took from a wallet's balance for stake, and what it gave for rewards. */
  function StakePaid(s: Token, tx: Tx, w: Address): int {
    if tx.sender == w && (tx.call.Register? || tx.call.AddStake? || tx.call.Withdraw?)
    then Get(s.balances, w) - Get(Step(s, tx).balances, w) else 0
  }

  function RewardGot(s: Token, tx: Tx, w: Address): int {
    if tx.sender == w && tx.call.Claim? then Get(Step(s, tx).balances, w) - Get(s.balances, w) else 0
  }

  function TotalStakePaid(self: Address, deployer: Address, txs: seq<Tx>, w: Address): int {
    if txs == [] then 0
    else
      var before := txs[..|txs| - 1];
      TotalStakePaid(self, deployer, before, w) + StakePaid(Run(self, deployer, before), txs[|txs| - 1], w)
  }

  function TotalRewardGot(self: Address, deployer: Address, txs: seq<Tx>, w: Address): int {
    if txs == [] then 0
    else
      var before := txs[..|txs| - 1];
      TotalRewardGot(self, deployer, before, w) + RewardGot(Run(self, deployer, before), txs[|txs| - 1], w)
  }

  /** What the wallet's own call does to its record is what it does to its balance. */
  lemma CallPays(s: Token, w: Address, call: Call, now: nat, t: Token)
    requires Apply(s, w, call, now) == Ok(t) && w != s.self && !call.SendTokens?
    ensures !call.Claim? ==>
      NodeOf(t.nodes, w).stakedAmount - (if call.Register? then 0 else NodeOf(s.nodes, w).stakedAmount)
      == Get(s.balances, w) - Get(t.balances, w)
    ensures call.Claim? ==>
      && NodeOf(t.nodes, w).stakedAmount == NodeOf(s.nodes, w).stakedAmount
      && NodeOf(t.nodes, w).totalRewardsClaimed - NodeOf(s.nodes, w).totalRewardsClaimed
         == Get(t.balances, w) - Get(s.balances, w)
    ensures !call.Claim? && !call.Register? ==>
      NodeOf(t.nodes, w).totalRewardsClaimed == NodeOf(s.nodes, w).totalRewardsClaimed
    ensures call.Register? ==> NodeOf(t.nodes, w).totalRewardsClaimed == 0
  {
  }

  lemma OthersStay(s: Token, tx: Tx, w: Address)
    requires tx.sender != w || tx.call.SendTokens?
    ensures NodeOf(Step(s, tx).nodes, w) == NodeOf(s.nodes, w)
  {
  }

  lemma StepPays(s: Token, tx: Tx, w: Address, t: Token)
    requires !Again(s, tx) && tx.sender != s.self && t == Step(s, tx)
    ensures NodeOf(t.nodes, w).stakedAmount == NodeOf(s.nodes, w).stakedAmount + StakePaid(s, tx, w)
    ensures NodeOf(t.nodes, w).totalRewardsClaimed == NodeOf(s.nodes, w).totalRewardsClaimed + RewardGot(s, tx, w)
  {
    if tx.sender != w || tx.call.SendTokens? {
      OthersStay(s, tx, w);
    } else if Apply(s, w, tx.call, tx.now).Ok? {
      CallPays(s, w, tx.call, tx.now, t);
      if tx.call.Deactivate? || tx.call.SetMinStake? {
        assert t.balances == s.balances;
      }
    }
  }

  /** As long as nobody registers again, the stake on record is exactly what the wallet has paid in and not got back,
      and its claimed rewards are exactly what its claims have paid it. */
  lemma {:induction false} RecordsMatchPayments(self: Address, deployer: Address, txs: seq<Tx>, w: Address)
    requires RealAccounts(self, deployer, txs) && !RegistersAgain(self, deployer, txs)
    ensures NodeOf(Run(self, deployer, txs).nodes, w).stakedAmount == TotalStakePaid(self, deployer, txs, w)
    ensures NodeOf(Run(self, deployer, txs).nodes, w).totalRewardsClaimed == TotalRewardGot(self, deployer, txs, w)
  {
    if txs != [] {
      var before := txs[..|txs| - 1];
      var s := Run(self, deployer, before);
      RecordsMatchPayments(self, deployer, before, w);
      AlwaysSolvent(self, deployer, before);
      StepPays(s, txs[|txs| - 1], w, Step(s, txs[|txs| - 1]));
    }
  }

  // ------------------------------------------------------------ no waiting period

  /** An active node can deactivate and withdraw at the same moment: both calls go through and the whole
      stake is paid out. */
  lemma NoUnbonding(self: Address, deployer: Address, txs: seq<Tx>, w: Address, now: nat)
    requires RealAccounts(self, deployer, txs) && w != ZERO_ADDRESS && w != self
    requires var node := NodeOf(Run(self, deployer, txs).nodes, w);
             node.isActive && node.stakedAmount > 0
    ensures var s := Run(self, deployer, txs);
            var t := Run(self, deployer, txs + [Tx(w, Deactivate, now)] + [Tx(w, Withdraw, now)]);
            && NodeOf(t.nodes, w) == NodeOf(s.nodes, w).(isActive := false, stakedAmount := 0)
            && Get(t.balances, w) == Get(s.balances, w) + NodeOf(s.nodes, w).stakedAmount
  {
    var leaving := txs + [Tx(w, Deactivate, now)];
    var both := leaving + [Tx(w, Withdraw, now)];
    assert leaving[..|leaving| - 1] == txs && both[..|both| - 1] == leaving;
    NeverLacksFunds(self, deployer, leaving, w, now);
    assert RealAccounts(self, deployer, leaving);
  }
}
