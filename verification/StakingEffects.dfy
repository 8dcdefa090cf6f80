/** What each call needs and what it moves, in every state that calls of real accounts lead to. */
module StakingEffects {
  import opened Sums
  import opened Staking
  import opened StakingIndexes

  /** Only these two balances change, by this amount. */
  ghost predicate Pays(before: map<Address, nat>, after: map<Address, nat>, from: Address, to: Address, amount: nat) {
    && Get(after, from) == Get(before, from) - amount && Get(after, to) == Get(before, to) + amount
    && forall a :: a != from && a != to ==> Get(after, a) == Get(before, a)
  }

  lemma TwoBalances(balances: map<Address, nat>, a: Address, b: Address)
    requires a != b
    ensures Get(balances, a) + Get(balances, b) <= Sum(balances)
  {
    SumSet(balances, a, 0);
    SumSet(balances[a := 0], b, 0);
  }

  /** A transfer goes through exactly if neither party is the zero address and the balance suffices; then
      nothing but the two balances changes. */
  lemma TransferExactly(s: Token, from: Address, to: Address, amount: nat)
    ensures Transfer(s, from, to, amount).Ok?
       <==> from != ZERO_ADDRESS && to != ZERO_ADDRESS && amount <= Get(s.balances, from)
    ensures Transfer(s, from, to, amount).Ok? ==>
      var t := Transfer(s, from, to, amount).value;
      && t == s.(balances := t.balances) && Sum(t.balances) == Sum(s.balances)
      && (from != to ==> Pays(s.balances, t.balances, from, to, amount))
      && (from == to ==> forall a :: Get(t.balances, a) == Get(s.balances, a))
  {
    if Transfer(s, from, to, amount).Ok? {
      MovedSum(s.balances, from, to, amount);
    }
  }

  /** A deployment gives 600 million tokens to the deployer, who owns the contract, and 400 million to the
      contract; the minimum stake is 10 thousand. */
  lemma DeployedShares(self: Address, deployer: Address)
    requires self != ZERO_ADDRESS && deployer != self
    ensures var s, unit := Deploy(self, deployer), 1_000_000_000_000_000_000;
            && Get(s.balances, deployer) == 600_000_000 * unit && Get(s.balances, self) == 400_000_000 * unit
            && Sum(s.balances) == 1_000_000_000 * unit && s.minStake == 10_000 * unit
            && s.owner == deployer && s.distributed == 0 && s.registered == []
  {
    DeploySolvent(self, deployer);
  }

  lemma StakeAndBalance(self: Address, deployer: Address, txs: seq<Tx>, w: Address, s: Token)
    requires RealAccounts(self, deployer, txs) && w != self && s == Run(self, deployer, txs)
    ensures s.self == self && NodeOf(s.nodes, w).stakedAmount + Get(s.balances, w) <= UINT_MAX
  {
    AlwaysSolvent(self, deployer, txs);
    StakesSet(s.nodes, w, NO_NODE);
    TwoBalances(s.balances, w, self);
  }

  /** The nominal rate of all nodes together, in wei per second: the pool over ten years. */
  lemma NominalRate()
    ensures RELAY_REWARDS_POOL / REWARD_DURATION == 1_268_391_679_350_583_460
  {
  }

  /** Adding stake goes through exactly if the node is active and its balance covers the amount; the amount
      moves from the balance to the contract and onto the record, and nothing else changes. */
  lemma AddStakeExactly(self: Address, deployer: Address, txs: seq<Tx>, w: Address, amount: nat, s: Token)
    requires RealAccounts(self, deployer, txs) && w != ZERO_ADDRESS && w != self && s == Run(self, deployer, txs)
    ensures IncreaseStake(s, w, amount).Ok? <==> NodeOf(s.nodes, w).isActive && amount <= Get(s.balances, w)
    ensures IncreaseStake(s, w, amount).Ok? ==>
      var t, node := IncreaseStake(s, w, amount).value, NodeOf(s.nodes, w);
      && Pays(s.balances, t.balances, w, self, amount)
      && t == s.(balances := t.balances, nodes := s.nodes[w := node.(stakedAmount := node.stakedAmount + amount)])
  {
    StakeAndBalance(self, deployer, txs, w, s);
    if amount <= Get(s.balances, w) {
      MovedSum(s.balances, w, self, amount);
    }
  }

  /** A registration goes through exactly if the wallet has no record with a peer id other than zero, the
      peer id is nobody's and the balance covers the minimum stake; that stake moves to the contract, and
      the new record holds it. */
  lemma RegisterExactly(self: Address, deployer: Address, txs: seq<Tx>, w: Address, peerId: PeerId, now: nat, s: Token)
    requires RealAccounts(self, deployer, txs) && w != ZERO_ADDRESS && w != self && s == Run(self, deployer, txs)
    ensures RegisterRelayNode(s, w, peerId, now).Ok?
       <==> && (w in s.nodes ==> s.nodes[w].peerId == ZERO_PEER) && peerId !in s.peerIdToWallet
            && s.minStake <= Get(s.balances, w)
    ensures RegisterRelayNode(s, w, peerId, now).Ok? ==>
      var t := RegisterRelayNode(s, w, peerId, now).value;
      && Pays(s.balances, t.balances, w, self, s.minStake) && t.distributed == s.distributed && t.minStake == s.minStake
      && t.nodes == s.nodes[w := RelayNode(peerId, s.minStake, now, now, 0, true)]
      && t.registered == s.registered + [w] && t.peerIdToWallet == s.peerIdToWallet[peerId := w]
  {
    AlwaysRealWallets(self, deployer, txs);
    assert s.self == self by {
      AlwaysSolvent(self, deployer, txs);
    }
    if s.minStake <= Get(s.balances, w) {
      MovedSum(s.balances, w, self, s.minStake);
    }
  }

  /** The minimum stake last set by the deployer. */
  function LastMinStake(deployer: Address, txs: seq<Tx>): nat {
    if txs == [] then INITIAL_MIN_STAKE
    else
      var last := txs[|txs| - 1];
      if last.sender == deployer && last.call.SetMinStake? then last.call.newMinStake
      else LastMinStake(deployer, txs[..|txs| - 1])
  }

  lemma OnlyMinStakeCall(s: Token, tx: Tx)
    ensures Step(s, tx).owner == s.owner
    ensures Step(s, tx).minStake
         == if tx.sender == s.owner && tx.call.SetMinStake? then tx.call.newMinStake else s.minStake
  {
  }

  /** Over any calls the minimum stake is the one the deployer set last, and nobody else's calls change it. */
  lemma {:induction false} OnlyOwnerSetsMinStake(self: Address, deployer: Address, txs: seq<Tx>)
    ensures Run(self, deployer, txs).owner == deployer
    ensures Run(self, deployer, txs).minStake == LastMinStake(deployer, txs)
  {
    if txs != [] {
      OnlyOwnerSetsMinStake(self, deployer, txs[..|txs| - 1]);
      OnlyMinStakeCall(Run(self, deployer, txs[..|txs| - 1]), txs[|txs| - 1]);
    }
  }

  /** Setting the minimum stake does nothing else, and anybody but the owner is refused. */
  lemma SetMinStakeExactly(s: Token, sender: Address, newMinStake: nat)
    ensures ChangeMinStake(s, sender, newMinStake).Ok? <==> sender == s.owner
    ensures sender == s.owner ==> ChangeMinStake(s, sender, newMinStake).value == s.(minStake := newMinStake)
    ensures sender != s.owner ==> ChangeMinStake(s, sender, newMinStake) == Revert(NotOwner)
  {
  }

  // ------------------------------------------------------------------ refusals

  /** What the first requirement that is not met makes a call revert with. */
  function Refusal(s: Token, w: Address, call: Call, now: nat): Reason {
    var node := NodeOf(s.nodes, w);
    match call
    case Register(peerId) =>
      if node.peerId != ZERO_PEER then AlreadyRegistered
      else if peerId in s.peerIdToWallet then PeerIdTaken else InsufficientForStake
    case AddStake(_) => if !node.isActive then NotRegistered else InsufficientForAmount
    case Claim =>
      if !node.isActive then NotActive
      else if CalculateRewards(s, w, now).Revert? then Panic
      else if CalculateRewards(s, w, now) == Ok(0) then NoRewards
      else if s.distributed + CalculateRewards(s, w, now).value > UINT_MAX then Panic else PoolExhausted
    case Deactivate => NotActive
    case Withdraw => if node.isActive then StillActive else NoStake
    case SetMinStake(_) => NotOwner
    case SendTokens(to, amount) => if to == ZERO_ADDRESS then InvalidParty else InsufficientBalance
  }

  /** In every reachable state a call of a real account that does not go through names the requirement that
      is not met, and leaves everything as it was. */
  lemma RefusalsNameReason(self: Address, deployer: Address, txs: seq<Tx>, w: Address, call: Call, now: nat, s: Token)
    requires RealAccounts(self, deployer, txs) && w != ZERO_ADDRESS && w != self && s == Run(self, deployer, txs)
    ensures Apply(s, w, call, now).Revert? ==> Apply(s, w, call, now) == Revert(Refusal(s, w, call, now))
    ensures Apply(s, w, call, now).Revert? ==> Run(self, deployer, txs + [Tx(w, call, now)]) == s
  {
    assert (txs + [Tx(w, call, now)])[..|txs|] == txs;
    match call
    case Register(peerId) =>
      AlwaysRealWallets(self, deployer, txs);
      RegisterExactly(self, deployer, txs, w, peerId, now, s);
    case AddStake(amount) => AddStakeExactly(self, deployer, txs, w, amount, s);
    case Claim =>
      CalculationPanics(s, w, now);
      ClaimGoesThrough(self, deployer, txs, w, now, s);
    case Withdraw => NeverLacksFunds(self, deployer, txs, w, now);
    case _ =>
  }

  lemma CalculationPanics(s: Token, w: Address, now: nat)
    ensures CalculateRewards(s, w, now).Revert? ==> CalculateRewards(s, w, now) == Revert(Panic)
  {
  }

  /** A call that goes through is carried out: the next state is what its own function says. */
  lemma CallsAreCarriedOut(
    self: Address, deployer: Address, txs: seq<Tx>, w: Address, call: Call, now: nat, s: Token, t: Token)
    requires s == Run(self, deployer, txs) && t == Run(self, deployer, txs + [Tx(w, call, now)])
    ensures call.Register? && RegisterRelayNode(s, w, call.peerId, now).Ok? ==>
      RegisterRelayNode(s, w, call.peerId, now) == Ok(t)
    ensures call.AddStake? && IncreaseStake(s, w, call.amount).Ok? ==> IncreaseStake(s, w, call.amount) == Ok(t)
    ensures call.Claim? && ClaimRewards(s, w, now).Ok? ==> ClaimRewards(s, w, now) == Ok(t)
    ensures call.Deactivate? && DeactivateNode(s, w).Ok? ==> DeactivateNode(s, w) == Ok(t)
    ensures call.Withdraw? && WithdrawStake(s, w).Ok? ==> WithdrawStake(s, w) == Ok(t)
    ensures call.SetMinStake? && ChangeMinStake(s, w, call.newMinStake).Ok? ==>
      ChangeMinStake(s, w, call.newMinStake) == Ok(t)
    ensures call.SendTokens? && Transfer(s, w, call.to, call.amount).Ok? ==>
      Transfer(s, w, call.to, call.amount) == Ok(t)
  {
    assert (txs + [Tx(w, call, now)])[..|txs|] == txs;
  }
}
