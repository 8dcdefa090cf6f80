/** The contract object: storage fields updated by calls, proved against the state machine. */
module StakingContract {
  import opened Sums
  import opened Staking

  class DMailToken {
    const self: Address
    const owner: Address
    const rewardStartTime: nat
    var balances: map<Address, nat>
    var relayRewardsDistributed: nat
    var relayNodes: map<Address, RelayNode>
    var peerIdToWallet: map<PeerId, Address>
    var registeredNodes: seq<Address>
    var minStake: nat

    ghost function Contents(): Token
      reads this
    {
      Token(self, owner, balances, relayRewardsDistributed, relayNodes, peerIdToWallet, registeredNodes, minStake)
    }

    /** The state a call leads to: its result, or the old state when it reverts. */
    ghost function Settled(before: Token, r: Result<Token>): Token {
      if r.Ok? then r.value else before
    }

    /** What the caller is told: success, or the reason of the revert. */
    ghost function Told(r: Result<Token>): Result<()> {
      match r
      case Ok(_) => Ok(())
      case Revert(reason) => Revert(reason)
    }

    constructor (self: Address, deployer: Address, now: nat)
      ensures this.self == self && owner == deployer && rewardStartTime == now
      ensures Contents() == Deploy(self, deployer)
    {
      this.self := self;
      owner := deployer;
      rewardStartTime := now;
      balances := map[deployer := TOTAL_SUPPLY - RELAY_REWARDS_POOL, self := RELAY_REWARDS_POOL];
      relayRewardsDistributed := 0;
      relayNodes, peerIdToWallet, registeredNodes := map[], map[], [];
      minStake := INITIAL_MIN_STAKE;
    }

    /** The token's internal transfer. */
    method Move(from: Address, to: Address, amount: nat) returns (r: Result<()>)
      modifies this`balances
      ensures Contents() == Settled(old(Contents()), Transfer(old(Contents()), from, to, amount))
      ensures r == Told(Transfer(old(Contents()), from, to, amount))
    {
      if from == ZERO_ADDRESS || to == ZERO_ADDRESS {
        return Revert(InvalidParty);
      }
      var fromBalance := Get(balances, from);
      if fromBalance < amount {
        return Revert(InsufficientBalance);
      }
      balances := balances[from := fromBalance - amount];
      balances := balances[to := Get(balances, to) + amount];
      r := Ok(());
    }

    method Register(sender: Address, peerId: PeerId, now: nat) returns (r: Result<()>)
      modifies this
      ensures Contents() == Settled(old(Contents()), RegisterRelayNode(old(Contents()), sender, peerId, now))
      ensures r == Told(RegisterRelayNode(old(Contents()), sender, peerId, now))
    {
      if NodeOf(relayNodes, sender).peerId != ZERO_PEER {
        return Revert(AlreadyRegistered);
      }
      if peerId in peerIdToWallet && peerIdToWallet[peerId] != ZERO_ADDRESS {
        return Revert(PeerIdTaken);
      }
      if Get(balances, sender) < minStake {
        return Revert(InsufficientForStake);
      }
      r := Move(sender, self, minStake);
      if r.Ok? {
        relayNodes := relayNodes[sender := RelayNode(peerId, minStake, now, now, 0, true)];
        peerIdToWallet := peerIdToWallet[peerId := sender];
        registeredNodes := registeredNodes + [sender];
      }
    }

    method StakeMore(sender: Address, amount: nat) returns (r: Result<()>)
      modifies this
      ensures Contents() == Settled(old(Contents()), IncreaseStake(old(Contents()), sender, amount))
      ensures r == Told(IncreaseStake(old(Contents()), sender, amount))
    {
      var node := NodeOf(relayNodes, sender);
      if !node.isActive {
        return Revert(NotRegistered);
      }
      if Get(balances, sender) < amount {
        return Revert(InsufficientForAmount);
      }
      var before := balances;
      r := Move(sender, self, amount);
      if r.Ok? {
        if node.stakedAmount + amount > UINT_MAX {
          balances := before;
          return Revert(Panic);
        }
        relayNodes := relayNodes[sender := node.(stakedAmount := node.stakedAmount + amount)];
      }
    }

    /** The counting loop over the list of registered wallets. */
    method GetActiveNodeCount() returns (count: nat)
      ensures count == ActiveCount(relayNodes, registeredNodes)
    {
      count := 0;
      var i := 0;
      while i < |registeredNodes|
        invariant 0 <= i <= |registeredNodes|
        invariant count == ActiveCount(relayNodes, registeredNodes[..i])
      {
        if NodeOf(relayNodes, registeredNodes[i]).isActive {
          count := count + 1;
        }
        i := i + 1;
        assert registeredNodes[..i][..i - 1] == registeredNodes[..i - 1];
      }
      assert registeredNodes[..i] == registeredNodes;
    }

    method PendingRewards(wallet: Address, now: nat) returns (r: Result<nat>)
      ensures r == CalculateRewards(Contents(), wallet, now)
    {
      var node := NodeOf(relayNodes, wallet);
      if !node.isActive {
        return Ok(0);
      }
      if now < node.lastClaimTime {
        return Revert(Panic);
      }
      var timeElapsed := now - node.lastClaimTime;
      var totalActiveNodes := GetActiveNodeCount();
      if totalActiveNodes == 0 {
        return Ok(0);
      }
      if minStake == 0 || minStake * 10 > UINT_MAX || node.stakedAmount * 100 > UINT_MAX {
        return Revert(Panic);
      }
      var baseRewardPerSecond := RELAY_REWARDS_POOL / REWARD_DURATION / totalActiveNodes;
      var stakeMultiplier := 100 + node.stakedAmount * 100 / (minStake * 10);
      if stakeMultiplier > 200 {
        stakeMultiplier := 200;
      }
      assert baseRewardPerSecond == BaseRate(totalActiveNodes);
      assert stakeMultiplier == Multiplier(node.stakedAmount, minStake);
      r := Payment(baseRewardPerSecond, timeElapsed, stakeMultiplier);
    }

    /** The record and the pool counter change before the transfer; a failing transfer undoes them. */
    method ClaimPending(sender: Address, now: nat) returns (r: Result<()>)
      modifies this
      ensures Contents() == Settled(old(Contents()), ClaimRewards(old(Contents()), sender, now))
      ensures r == Told(ClaimRewards(old(Contents()), sender, now))
    {
      var node := NodeOf(relayNodes, sender);
      if !node.isActive {
        return Revert(NotActive);
      }
      var calculated := PendingRewards(sender, now);
      if calculated.Revert? {
        return Revert(calculated.reason);
      }
      var rewards := calculated.value;
      if rewards == 0 {
        return Revert(NoRewards);
      }
      if relayRewardsDistributed + rewards > UINT_MAX {
        return Revert(Panic);
      }
      if relayRewardsDistributed + rewards > RELAY_REWARDS_POOL {
        return Revert(PoolExhausted);
      }
      if node.totalRewardsClaimed + rewards > UINT_MAX {
        return Revert(Panic);
      }
      var nodesBefore, distributedBefore := relayNodes, relayRewardsDistributed;
      relayNodes := relayNodes[sender := node.(lastClaimTime := now,
                                               totalRewardsClaimed := node.totalRewardsClaimed + rewards)];
      relayRewardsDistributed := relayRewardsDistributed + rewards;
      r := Move(self, sender, rewards);
      if r.Revert? {
        relayNodes, relayRewardsDistributed := nodesBefore, distributedBefore;
      }
    }

    method Leave(sender: Address) returns (r: Result<()>)
      modifies this
      ensures Contents() == Settled(old(Contents()), DeactivateNode(old(Contents()), sender))
      ensures r == Told(DeactivateNode(old(Contents()), sender))
    {
      var node := NodeOf(relayNodes, sender);
      if !node.isActive {
        return Revert(NotActive);
      }
      relayNodes := relayNodes[sender := node.(isActive := false)];
      r := Ok(());
    }

    method TakeStake(sender: Address) returns (r: Result<()>)
      modifies this
      ensures Contents() == Settled(old(Contents()), WithdrawStake(old(Contents()), sender))
      ensures r == Told(WithdrawStake(old(Contents()), sender))
    {
      var node := NodeOf(relayNodes, sender);
      if node.isActive {
        return Revert(StillActive);
      }
      if node.stakedAmount == 0 {
        return Revert(NoStake);
      }
      var nodesBefore := relayNodes;
      relayNodes := relayNodes[sender := node.(stakedAmount := 0)];
      r := Move(self, sender, node.stakedAmount);
      if r.Revert? {
        relayNodes := nodesBefore;
      }
    }

    method UpdateMinStake(sender: Address, newMinStake: nat) returns (r: Result<()>)
      modifies this`minStake
      ensures Contents() == Settled(old(Contents()), ChangeMinStake(old(Contents()), sender, newMinStake))
      ensures r == Told(ChangeMinStake(old(Contents()), sender, newMinStake))
    {
      if sender != owner {
        return Revert(NotOwner);
      }
      minStake := newMinStake;
      r := Ok(());
    }
  }
}
