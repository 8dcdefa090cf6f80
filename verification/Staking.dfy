/** The token and relay staking contract as a state machine over calls. A revert leaves the state as it
    was. Arithmetic is checked 256-bit arithmetic where a call can reach the bound. */
module Staking {
  import opened Sums

  type Address = nat
  type PeerId = nat

  const ZERO_ADDRESS: Address := 0
  const ZERO_PEER: PeerId := 0
  const UINT_MAX: nat := 0xFFFF_FFFF_FFFF_FFFF_FFFF_FFFF_FFFF_FFFF_FFFF_FFFF_FFFF_FFFF_FFFF_FFFF_FFFF_FFFF
  const UNIT: nat := 1_000_000_000_000_000_000
  const TOTAL_SUPPLY: nat := 1_000_000_000 * UNIT
  const RELAY_REWARDS_POOL: nat := 400_000_000 * UNIT
  const REWARD_DURATION: nat := 10 * 365 * 86400
  const INITIAL_MIN_STAKE: nat := 10_000 * UNIT

  datatype Reason =
    | AlreadyRegistered
    | PeerIdTaken
    | InsufficientForStake
    | NotRegistered
    | InsufficientForAmount
    | NotActive
    | NoRewards
    | PoolExhausted
    | StillActive
    | NoStake
    | NotOwner
    | InvalidParty        // the token refuses the zero address
    | InsufficientBalance // the token refuses to overdraw
    | Panic               // checked arithmetic or division by zero

  datatype Result<+T> = Ok(value: T) | Revert(reason: Reason)

  datatype RelayNode = RelayNode(
    peerId: PeerId, stakedAmount: nat, registeredAt: nat, lastClaimTime: nat, totalRewardsClaimed: nat, isActive: bool)

  const NO_NODE := RelayNode(ZERO_PEER, 0, 0, 0, 0, false)

  datatype Token = Token(
    self: Address, owner: Address, balances: map<Address, nat>, distributed: nat,
    nodes: map<Address, RelayNode>, peerIdToWallet: map<PeerId, Address>, registered: seq<Address>, minStake: nat)

  /** Mappings read as zero where nothing was written. */
  function NodeOf(nodes: map<Address, RelayNode>, w: Address): RelayNode {
    if w in nodes then nodes[w] else NO_NODE
  }

  function WalletOf(s: Token, p: PeerId): Address {
    if p in s.peerIdToWallet then s.peerIdToWallet[p] else ZERO_ADDRESS
  }

  // ------------------------------------------------------------------ calls

  /** Callers are accounts other than the zero address and the contract itself. */
  datatype Call =
    | Register(peerId: PeerId)
    | AddStake(amount: nat)
    | Claim
    | Deactivate
    | Withdraw
    | SetMinStake(newMinStake: nat)
    | SendTokens(to: Address, amount: nat)

  function Moved(balances: map<Address, nat>, from: Address, to: Address, amount: nat): map<Address, nat>
    requires amount <= Get(balances, from)
  {
    var paid := balances[from := Get(balances, from) - amount];
    paid[to := Get(paid, to) + amount]
  }

  function Transfer(s: Token, from: Address, to: Address, amount: nat): Result<Token> {
    if from == ZERO_ADDRESS || to == ZERO_ADDRESS then Revert(InvalidParty)
    else if Get(s.balances, from) < amount then Revert(InsufficientBalance)
    else Ok(s.(balances := Moved(s.balances, from, to, amount)))
  }

  function ActiveCount(nodes: map<Address, RelayNode>, registered: seq<Address>): nat {
    if registered == [] then 0
    else
      var last := registered[|registered| - 1];
      ActiveCount(nodes, registered[..|registered| - 1]) + if NodeOf(nodes, last).isActive then 1 else 0
  }

  function Multiplier(stakedAmount: nat, minStake: nat): nat
    requires minStake > 0
  {
    var m := 100 + stakedAmount * 100 / (minStake * 10);
    if m > 200 then 200 else m
  }

  function BaseRate(activeNodes: nat): nat
    requires activeNodes > 0
  {
    RELAY_REWARDS_POOL / REWARD_DURATION / activeNodes
  }

  function Payment(rate: nat, elapsed: nat, multiplier: nat): Result<nat> {
    if rate * elapsed * multiplier > UINT_MAX then Revert(Panic) else Ok(rate * elapsed * multiplier / 100)
  }

  function CalculateRewards(s: Token, wallet: Address, now: nat): Result<nat> {
    var node := NodeOf(s.nodes, wallet);
    if !node.isActive then Ok(0)
    else if now < node.lastClaimTime then Revert(Panic)
    else
      var elapsed := now - node.lastClaimTime;
      var count := ActiveCount(s.nodes, s.registered);
      if count == 0 then Ok(0)
      else if s.minStake == 0 || s.minStake * 10 > UINT_MAX || node.stakedAmount * 100 > UINT_MAX then Revert(Panic)
      else
        Payment(BaseRate(count), elapsed, Multiplier(node.stakedAmount, s.minStake))
  }

  function RegisterRelayNode(s: Token, sender: Address, peerId: PeerId, now: nat): Result<Token> {
    if NodeOf(s.nodes, sender).peerId != ZERO_PEER then Revert(AlreadyRegistered)
    else if WalletOf(s, peerId) != ZERO_ADDRESS then Revert(PeerIdTaken)
    else if Get(s.balances, sender) < s.minStake then Revert(InsufficientForStake)
    else
      match Transfer(s, sender, s.self, s.minStake)
      case Revert(r) => Revert(r)
      case Ok(t) =>
        Ok(t.(nodes := s.nodes[sender := RelayNode(peerId, s.minStake, now, now, 0, true)],
              peerIdToWallet := s.peerIdToWallet[peerId := sender],
              registered := s.registered + [sender]))
  }

  function IncreaseStake(s: Token, sender: Address, amount: nat): Result<Token> {
    var node := NodeOf(s.nodes, sender);
    if !node.isActive then Revert(NotRegistered)
    else if Get(s.balances, sender) < amount then Revert(InsufficientForAmount)
    else
      match Transfer(s, sender, s.self, amount)
      case Revert(r) => Revert(r)
      case Ok(t) =>
        if node.stakedAmount + amount > UINT_MAX then Revert(Panic)
        else Ok(t.(nodes := s.nodes[sender := node.(stakedAmount := node.stakedAmount + amount)]))
  }

  function ClaimRewards(s: Token, sender: Address, now: nat): Result<Token> {
    var node := NodeOf(s.nodes, sender);
    if !node.isActive then Revert(NotActive)
    else
      match CalculateRewards(s, sender, now)
      case Revert(r) => Revert(r)
      case Ok(rewards) =>
        if rewards == 0 then Revert(NoRewards)
        else if s.distributed + rewards > UINT_MAX then Revert(Panic)
        else if s.distributed + rewards > RELAY_REWARDS_POOL then Revert(PoolExhausted)
        else if node.totalRewardsClaimed + rewards > UINT_MAX then Revert(Panic)
        else
          var claimed := node.(lastClaimTime := now, totalRewardsClaimed := node.totalRewardsClaimed + rewards);
          var t := s.(nodes := s.nodes[sender := claimed], distributed := s.distributed + rewards);
          Transfer(t, s.self, sender, rewards)
  }

  function DeactivateNode(s: Token, sender: Address): Result<Token> {
    var node := NodeOf(s.nodes, sender);
    if !node.isActive then Revert(NotActive)
    else Ok(s.(nodes := s.nodes[sender := node.(isActive := false)]))
  }

  function WithdrawStake(s: Token, sender: Address): Result<Token> {
    var node := NodeOf(s.nodes, sender);
    if node.isActive then Revert(StillActive)
    else if node.stakedAmount == 0 then Revert(NoStake)
    else Transfer(s.(nodes := s.nodes[sender := node.(stakedAmount := 0)]), s.self, sender, node.stakedAmount)
  }

  function ChangeMinStake(s: Token, sender: Address, newMinStake: nat): Result<Token> {
    if sender != s.owner then Revert(NotOwner) else Ok(s.(minStake := newMinStake))
  }

  function Apply(s: Token, sender: Address, call: Call, now: nat): Result<Token> {
    match call
    case Register(peerId) => RegisterRelayNode(s, sender, peerId, now)
    case AddStake(amount) => IncreaseStake(s, sender, amount)
    case Claim => ClaimRewards(s, sender, now)
    case Deactivate => DeactivateNode(s, sender)
    case Withdraw => WithdrawStake(s, sender)
    case SetMinStake(newMinStake) => ChangeMinStake(s, sender, newMinStake)
    case SendTokens(to, amount) => Transfer(s, sender, to, amount)
  }

  datatype Tx = Tx(sender: Address, call: Call, now: nat)

  /** A transaction either takes effect or reverts to the state before it. */
  function Step(s: Token, tx: Tx): Token {
    match Apply(s, tx.sender, tx.call, tx.now)
    case Ok(t) => t
    case Revert(_) => s
  }

  function Deploy(self: Address, deployer: Address): Token {
    Token(self, deployer, map[deployer := TOTAL_SUPPLY - RELAY_REWARDS_POOL, self := RELAY_REWARDS_POOL],
          0, map[], map[], [], INITIAL_MIN_STAKE)
  }

  function Run(self: Address, deployer: Address, txs: seq<Tx>): Token {
    if txs == [] then Deploy(self, deployer)
    else Step(Run(self, deployer, txs[..|txs| - 1]), txs[|txs| - 1])
  }

  predicate RealAccounts(self: Address, deployer: Address, txs: seq<Tx>) {
    && self != ZERO_ADDRESS && deployer != ZERO_ADDRESS && deployer != self
    && (forall tx :: tx in txs ==> tx.sender != ZERO_ADDRESS && tx.sender != self)
  }

  // --------------------------------------------------------------- solvency

  function Stakes(nodes: map<Address, RelayNode>): map<Address, nat> {
    map w | w in nodes :: nodes[w].stakedAmount
  }

  function Claims(nodes: map<Address, RelayNode>): map<Address, nat> {
    map w | w in nodes :: nodes[w].totalRewardsClaimed
  }

  /** What the contract owes: all stakes, and the part of the reward pool not paid out. */
  ghost function Owed(s: Token): int {
    Sum(Stakes(s.nodes)) + RELAY_REWARDS_POOL - s.distributed
  }

  ghost predicate Solvent(s: Token) {
    && s.self != ZERO_ADDRESS
    && Sum(s.balances) == TOTAL_SUPPLY
    && s.distributed <= RELAY_REWARDS_POOL
    && Owed(s) <= Get(s.balances, s.self)
  }

  lemma StakesSet(nodes: map<Address, RelayNode>, w: Address, node: RelayNode)
    ensures Sum(Stakes(nodes[w := node]))
         == Sum(Stakes(nodes)) - NodeOf(nodes, w).stakedAmount + node.stakedAmount
    ensures NodeOf(nodes, w).stakedAmount <= Sum(Stakes(nodes))
  {
    assert Stakes(nodes[w := node]) == Stakes(nodes)[w := node.stakedAmount];
    SumSet(Stakes(nodes), w, node.stakedAmount);
  }

  lemma ClaimsSet(nodes: map<Address, RelayNode>, w: Address, node: RelayNode)
    ensures Sum(Claims(nodes[w := node]))
         == Sum(Claims(nodes)) - NodeOf(nodes, w).totalRewardsClaimed + node.totalRewardsClaimed
  {
    assert Claims(nodes[w := node]) == Claims(nodes)[w := node.totalRewardsClaimed];
    SumSet(Claims(nodes), w, node.totalRewardsClaimed);
  }

  /** A transfer moves tokens and makes none. */
  lemma MovedSum(balances: map<Address, nat>, from: Address, to: Address, amount: nat)
    requires amount <= Get(balances, from)
    ensures var b := Moved(balances, from, to, amount);
            && Sum(b) == Sum(balances)
            && (from != to ==> Get(b, from) == Get(balances, from) - amount && Get(b, to) == Get(balances, to) + amount)
            && (from == to ==> Get(b, to) == Get(balances, to))
            && (forall a :: a != from && a != to ==> Get(b, a) == Get(balances, a))
  {
    var paid := balances[from := Get(balances, from) - amount];
    SumSet(balances, from, Get(balances, from) - amount);
    SumSet(paid, to, Get(paid, to) + amount);
  }

  /** Paying an amount into or out of the contract while its debts change by no more than that. */
  lemma SolventMove(s: Token, t: Token, from: Address, to: Address, amount: nat)
    requires Solvent(s) && from != to && amount <= Get(s.balances, from) && t.distributed <= RELAY_REWARDS_POOL
    requires t.self == s.self && t.balances == Moved(s.balances, from, to, amount)
    requires var debt := Owed(t) - Owed(s);
             if to == s.self then debt <= amount else if from == s.self then debt + amount <= 0 else debt <= 0
    ensures Solvent(t)
  {
    MovedSum(s.balances, from, to, amount);
  }

  lemma SolventRegister(s: Token, w: Address, peerId: PeerId, now: nat)
    requires Solvent(s) && w != ZERO_ADDRESS && w != s.self && RegisterRelayNode(s, w, peerId, now).Ok?
    ensures Solvent(RegisterRelayNode(s, w, peerId, now).value)
  {
    var node := RelayNode(peerId, s.minStake, now, now, 0, true);
    StakesSet(s.nodes, w, node);
    SolventMove(s, RegisterRelayNode(s, w, peerId, now).value, w, s.self, s.minStake);
  }

  lemma SolventAddStake(s: Token, w: Address, amount: nat)
    requires Solvent(s) && w != ZERO_ADDRESS && w != s.self && IncreaseStake(s, w, amount).Ok?
    ensures Solvent(IncreaseStake(s, w, amount).value)
  {
    var node := NodeOf(s.nodes, w).(stakedAmount := NodeOf(s.nodes, w).stakedAmount + amount);
    StakesSet(s.nodes, w, node);
    SolventMove(s, IncreaseStake(s, w, amount).value, w, s.self, amount);
  }

  lemma SolventClaim(s: Token, w: Address, now: nat)
    requires Solvent(s) && w != ZERO_ADDRESS && w != s.self && ClaimRewards(s, w, now).Ok?
    ensures Solvent(ClaimRewards(s, w, now).value)
  {
    var node, rewards := NodeOf(s.nodes, w), CalculateRewards(s, w, now).value;
    var claimed := node.(lastClaimTime := now, totalRewardsClaimed := node.totalRewardsClaimed + rewards);
    StakesSet(s.nodes, w, claimed);
    SolventMove(s, ClaimRewards(s, w, now).value, s.self, w, rewards);
  }

  lemma SolventDeactivate(s: Token, w: Address)
    requires Solvent(s) && DeactivateNode(s, w).Ok?
    ensures Solvent(DeactivateNode(s, w).value)
  {
    StakesSet(s.nodes, w, NodeOf(s.nodes, w).(isActive := false));
  }

  lemma SolventWithdraw(s: Token, w: Address)
    requires Solvent(s) && w != ZERO_ADDRESS && w != s.self && WithdrawStake(s, w).Ok?
    ensures Solvent(WithdrawStake(s, w).value)
  {
    var node := NodeOf(s.nodes, w);
    StakesSet(s.nodes, w, node.(stakedAmount := 0));
    SolventMove(s, WithdrawStake(s, w).value, s.self, w, node.stakedAmount);
  }

  lemma SolventSend(s: Token, w: Address, to: Address, amount: nat)
    requires Solvent(s) && w != s.self && Transfer(s, w, to, amount).Ok?
    ensures Solvent(Transfer(s, w, to, amount).value)
  {
    MovedSum(s.balances, w, to, amount);
  }

  lemma SolventStep(s: Token, tx: Tx)
    requires Solvent(s) && tx.sender != ZERO_ADDRESS && tx.sender != s.self
    ensures Solvent(Step(s, tx)) && Step(s, tx).self == s.self
  {
    if Apply(s, tx.sender, tx.call, tx.now).Ok? {
      match tx.call
      case Register(peerId) => SolventRegister(s, tx.sender, peerId, tx.now);
      case AddStake(amount) => SolventAddStake(s, tx.sender, amount);
      case Claim => SolventClaim(s, tx.sender, tx.now);
      case Deactivate => SolventDeactivate(s, tx.sender);
      case Withdraw => SolventWithdraw(s, tx.sender);
      case SetMinStake(_) =>
      case SendTokens(to, amount) => SolventSend(s, tx.sender, to, amount);
    }
  }

  lemma DeploySolvent(self: Address, deployer: Address)
    requires self != ZERO_ADDRESS && deployer != self
    ensures Solvent(Deploy(self, deployer))
  {
    var start: map<Address, nat> := map[];
    var one := start[deployer := TOTAL_SUPPLY - RELAY_REWARDS_POOL];
    SumSet(start, deployer, TOTAL_SUPPLY - RELAY_REWARDS_POOL);
    SumSet(one, self, RELAY_REWARDS_POOL);
    assert Deploy(self, deployer).balances == one[self := RELAY_REWARDS_POOL];
    assert Stakes(map[]) == map[];
  }

  /** After any calls, zero peer ids included: no token is made or lost, and the contract holds at least
      every stake and the unpaid rest of the pool. */
  lemma {:induction false} AlwaysSolvent(self: Address, deployer: Address, txs: seq<Tx>)
    requires RealAccounts(self, deployer, txs)
    ensures Solvent(Run(self, deployer, txs)) && Run(self, deployer, txs).self == self
  {
    if txs == [] {
      DeploySolvent(self, deployer);
    } else {
      AlwaysSolvent(self, deployer, txs[..|txs| - 1]);
      SolventStep(Run(self, deployer, txs[..|txs| - 1]), txs[|txs| - 1]);
    }
  }

  /** A withdrawal of an inactive node's stake always goes through, and no claim within the pool fails for
      lack of funds. */
  lemma NeverLacksFunds(self: Address, deployer: Address, txs: seq<Tx>, sender: Address, now: nat)
    requires RealAccounts(self, deployer, txs) && sender != ZERO_ADDRESS && sender != self
    ensures var s := Run(self, deployer, txs);
            var node := NodeOf(s.nodes, sender);
            && (WithdrawStake(s, sender).Ok? <==> !node.isActive && node.stakedAmount > 0)
            && (WithdrawStake(s, sender).Ok? ==>
                  Get(WithdrawStake(s, sender).value.balances, sender) == Get(s.balances, sender) + node.stakedAmount)
            && ClaimRewards(s, sender, now) != Revert(InsufficientBalance)
  {
    var s := Run(self, deployer, txs);
    AlwaysSolvent(self, deployer, txs);
    StakesSet(s.nodes, sender, NO_NODE);
    if WithdrawStake(s, sender).Ok? {
      MovedSum(s.balances, self, sender, NodeOf(s.nodes, sender).stakedAmount);
    }
  }

  /** No wallet's recorded rewards are more than was distributed: a second registration only forgets some. */
  ghost predicate ClaimsCovered(s: Token) {
    Sum(Claims(s.nodes)) <= s.distributed
  }

  lemma CoveredSet(s: Token, t: Token, w: Address, node: RelayNode)
    requires ClaimsCovered(s) && t.nodes == s.nodes[w := node]
    requires node.totalRewardsClaimed - NodeOf(s.nodes, w).totalRewardsClaimed <= t.distributed - s.distributed
    ensures ClaimsCovered(t)
  {
    ClaimsSet(s.nodes, w, node);
  }

  lemma CoveredStep(s: Token, tx: Tx)
    requires ClaimsCovered(s)
    ensures ClaimsCovered(Step(s, tx))
  {
    var r := Apply(s, tx.sender, tx.call, tx.now);
    if r.Ok? && !tx.call.SetMinStake? && !tx.call.SendTokens? {
      CoveredSet(s, r.value, tx.sender, NodeOf(r.value.nodes, tx.sender));
    }
  }

  lemma {:induction false} AlwaysCovered(self: Address, deployer: Address, txs: seq<Tx>)
    ensures ClaimsCovered(Run(self, deployer, txs))
  {
    if txs == [] {
      assert Claims(map[]) == map[];
    } else {
      AlwaysCovered(self, deployer, txs[..|txs| - 1]);
      CoveredStep(Run(self, deployer, txs[..|txs| - 1]), txs[|txs| - 1]);
    }
  }

  /** In every reachable state a claim goes through exactly if the node is active, its reward can be
      calculated and is positive, and the pool still covers it; and then it pays the reward. */
  lemma ClaimGoesThrough(self: Address, deployer: Address, txs: seq<Tx>, w: Address, now: nat, s: Token)
    requires RealAccounts(self, deployer, txs) && w != ZERO_ADDRESS && w != self && s == Run(self, deployer, txs)
    ensures ClaimRewards(s, w, now).Ok?
       <==> && NodeOf(s.nodes, w).isActive && CalculateRewards(s, w, now).Ok? && CalculateRewards(s, w, now).value > 0
            && s.distributed + CalculateRewards(s, w, now).value <= RELAY_REWARDS_POOL
    ensures ClaimRewards(s, w, now).Ok? ==>
      Get(ClaimRewards(s, w, now).value.balances, w) == Get(s.balances, w) + CalculateRewards(s, w, now).value
  {
    assert Solvent(s) && s.self == self by {
      AlwaysSolvent(self, deployer, txs);
    }
    assert NodeOf(s.nodes, w).totalRewardsClaimed <= RELAY_REWARDS_POOL by {
      AlwaysCovered(self, deployer, txs);
      ClaimsSet(s.nodes, w, NO_NODE);
    }
    if ClaimRewards(s, w, now).Ok? {
      MovedSum(s.balances, self, w, CalculateRewards(s, w, now).value);
    }
  }
}
