/** Reward arithmetic: nested integer divisions never pay too much, and splitting a claim never gains. */
module StakingRewards {
  import opened Sums
  import opened Staking
  import opened StakingIndexes

  /** The pending rewards of every active wallet, where the calculation does not overflow. */
  ghost function Pending(s: Token, now: nat): map<Address, nat> {
    map w | w in s.nodes && s.nodes[w].isActive :: match CalculateRewards(s, w, now) case Ok(r) => r case Revert(_) => 0
  }

  lemma MulMonotone(a: nat, b: nat, x: nat, y: nat)
    requires a <= b && x <= y
    ensures a * x <= b * y
  {
    assert a * x <= b * x;
    assert b * x <= b * y;
  }

  /** floor(r / n) per node, n nodes: not more than r in all. */
  lemma ShareBound(r: nat, n: nat)
    requires n > 0
    ensures r / n * n <= r
  {
  }

  lemma RewardBound(rate: nat, elapsed: nat, multiplier: nat, t: nat)
    requires multiplier <= 200 && elapsed <= t
    ensures rate * elapsed * multiplier / 100 <= 2 * (rate * t)
  {
    MulMonotone(rate, rate, elapsed, t);
    MulMonotone(rate * elapsed, rate * t, multiplier, 200);
  }

  lemma TotalBound(n: nat, count: nat, t: nat)
    requires n <= count && count > 0
    ensures n * (2 * (BaseRate(count) * t)) <= 2 * (RELAY_REWARDS_POOL / REWARD_DURATION) * t
  {
    var r := RELAY_REWARDS_POOL / REWARD_DURATION;
    var b := BaseRate(count);
    ShareBound(r, count);
    MulMonotone(n, count, 2 * (b * t), 2 * (b * t));
    assert count * (2 * (b * t)) == 2 * (b * count) * t;
    MulMonotone(b * count, r, t, t);
  }

  lemma PendingCount(s: Token, now: nat)
    requires Listed(s)
    ensures Pending(s, now).Keys == ActiveWallets(s.nodes)
    ensures |Pending(s, now)| <= ActiveCount(s.nodes, s.registered)
  {
    CountListed(s.nodes, s.registered);
    assert ActiveListed(s.nodes, s.registered) == ActiveWallets(s.nodes);
    assert Pending(s, now).Keys == ActiveWallets(s.nodes);
    assert |Pending(s, now)| == |Pending(s, now).Keys|;
  }

  /** No active wallet's last claim is more than t ago. */
  ghost predicate ClaimedWithin(s: Token, now: nat, t: nat) {
    forall w :: w in ActiveWallets(s.nodes) ==> now - s.nodes[w].lastClaimTime <= t
  }

  lemma PendingAtMost(s: Token, now: nat, t: nat, each: nat)
    requires Listed(s) && ClaimedWithin(s, now, t) && ActiveCount(s.nodes, s.registered) > 0
    requires each == 2 * (BaseRate(ActiveCount(s.nodes, s.registered)) * t)
    ensures Sum(Pending(s, now)) <= |Pending(s, now)| * each
  {
    var pending := Pending(s, now);
    forall w | w in pending ensures pending[w] <= each {
      assert w in ActiveWallets(s.nodes);
      OnePending(s, w, now, t);
    }
    SumBound(pending, each);
  }

  /** In any one state, the pending rewards of all active wallets together are at most twice the nominal
      rate times the longest time since a claim. */
  lemma PendingBound(s: Token, now: nat, t: nat)
    requires Listed(s) && ClaimedWithin(s, now, t)
    ensures Sum(Pending(s, now)) <= 2 * (RELAY_REWARDS_POOL / REWARD_DURATION) * t
  {
    PendingCount(s, now);
    var count := ActiveCount(s.nodes, s.registered);
    if count == 0 {
      assert Pending(s, now) == map[];
    } else {
      var n, each := |Pending(s, now)|, 2 * (BaseRate(count) * t);
      assert Sum(Pending(s, now)) <= n * each by {
        PendingAtMost(s, now, t, each);
      }
      assert n * each <= 2 * (RELAY_REWARDS_POOL / REWARD_DURATION) * t by {
        TotalBound(n, count, t);
      }
    }
  }

  /** The bound in every state that any calls lead to. */
  lemma ReachablePendingBound(self: Address, deployer: Address, txs: seq<Tx>, now: nat, t: nat)
    requires ClaimedWithin(Run(self, deployer, txs), now, t)
    ensures Sum(Pending(Run(self, deployer, txs), now)) <= 2 * (RELAY_REWARDS_POOL / REWARD_DURATION) * t
  {
    AlwaysListed(self, deployer, txs);
    PendingBound(Run(self, deployer, txs), now, t);
  }

  lemma OnePending(s: Token, w: Address, now: nat, t: nat)
    requires ActiveCount(s.nodes, s.registered) > 0
    requires now - NodeOf(s.nodes, w).lastClaimTime <= t
    ensures CalculateRewards(s, w, now).Ok? ==>
              CalculateRewards(s, w, now).value <= 2 * (BaseRate(ActiveCount(s.nodes, s.registered)) * t)
  {
    var node := NodeOf(s.nodes, w);
    var rate := BaseRate(ActiveCount(s.nodes, s.registered));
    if CalculateRewards(s, w, now).Ok? && node.isActive {
      RewardBound(rate, now - node.lastClaimTime, Multiplier(node.stakedAmount, s.minStake), t);
    }
  }

  // ------------------------------------------------------- the reward, exactly

  /** The equal share of `n` nodes in the nominal rate, rounded down. */
  predicate IsShare(base: nat, n: nat) {
    n * base <= RELAY_REWARDS_POOL / REWARD_DURATION < n * (base + 1)
  }

  /** The stake's factor in hundredths: two from ten times the minimum stake on, and below that one plus a
      tenth of the ratio, rounded down. */
  predicate IsFactor(m: nat, stake: nat, minStake: nat) {
    if 10 * minStake <= stake then m == 200
    else 100 <= m && (m - 100) * (minStake * 10) <= stake * 100 < (m - 99) * (minStake * 10)
  }

  lemma QuotientUnique(x: nat, d: nat, q: nat)
    requires d > 0 && q * d <= x < (q + 1) * d
    ensures q == x / d
  {
    var r := x / d;
    if q < r {
      MulMonotone(q + 1, r, d, d);
    } else if r < q {
      MulMonotone(r + 1, q, d, d);
    }
  }

  lemma QuotientBounds(x: nat, d: nat)
    requires d > 0
    ensures x / d * d <= x < (x / d + 1) * d
  {
  }

  lemma ShareExactly(base: nat, n: nat)
    requires n > 0
    ensures IsShare(base, n) <==> base == BaseRate(n)
  {
    var r := RELAY_REWARDS_POOL / REWARD_DURATION;
    QuotientBounds(r, n);
    if IsShare(base, n) {
      QuotientUnique(r, n, base);
    }
  }

  lemma TenfoldStake(stake: nat, minStake: nat)
    requires minStake > 0
    ensures 10 * minStake <= stake <==> stake * 100 / (minStake * 10) >= 100
  {
    var d, x := minStake * 10, stake * 100;
    QuotientBounds(x, d);
    if 10 * minStake <= stake && x / d < 100 {
      MulMonotone(x / d + 1, 100, d, d);
    }
    if x / d >= 100 {
      MulMonotone(100, x / d, d, d);
    }
  }

  lemma FactorExactly(m: nat, stake: nat, minStake: nat)
    requires minStake > 0
    ensures IsFactor(m, stake, minStake) <==> m == Multiplier(stake, minStake)
  {
    TenfoldStake(stake, minStake);
    if stake < 10 * minStake {
      QuotientBounds(stake * 100, minStake * 10);
      if IsFactor(m, stake, minStake) {
        QuotientUnique(stake * 100, minStake * 10, m - 100);
      }
    }
  }

  /** In every reachable state the pending reward of an active node is its share of the nominal rate, times
      the seconds since its last claim, times its factor over one hundred, rounded down; the share and the
      factor are the only numbers that meet their bounds. It reverts only for a minimum stake that is zero
      or huge, or when the product exceeds 256 bits or the clock runs backwards. */
  lemma RewardExactly(
    self: Address, deployer: Address, txs: seq<Tx>, w: Address, now: nat, s: Token, base: nat, m: nat, r: Result<nat>)
    requires RealAccounts(self, deployer, txs) && s == Run(self, deployer, txs) && r == CalculateRewards(s, w, now)
    requires NodeOf(s.nodes, w).isActive ==>
      IsShare(base, ActiveCount(s.nodes, s.registered)) && IsFactor(m, NodeOf(s.nodes, w).stakedAmount, s.minStake)
    ensures var node := NodeOf(s.nodes, w);
            if !node.isActive then r == Ok(0)
            else if now < node.lastClaimTime || s.minStake == 0 || s.minStake * 10 > UINT_MAX then r == Revert(Panic)
            else if base * (now - node.lastClaimTime) * m > UINT_MAX then r == Revert(Panic)
            else r == Ok(base * (now - node.lastClaimTime) * m / 100)
  {
    if NodeOf(s.nodes, w).isActive {
      ActiveIsCounted(self, deployer, txs, w, s);
      StakeFits(self, deployer, txs, w, s);
      ShareExactly(base, ActiveCount(s.nodes, s.registered));
      if s.minStake > 0 {
        FactorExactly(m, NodeOf(s.nodes, w).stakedAmount, s.minStake);
      }
    }
  }

  lemma ActiveIsCounted(self: Address, deployer: Address, txs: seq<Tx>, w: Address, s: Token)
    requires s == Run(self, deployer, txs) && NodeOf(s.nodes, w).isActive
    ensures ActiveCount(s.nodes, s.registered) > 0
  {
    AlwaysListed(self, deployer, txs);
    CountListed(s.nodes, s.registered);
    assert w in ActiveListed(s.nodes, s.registered);
  }

  lemma StakeFits(self: Address, deployer: Address, txs: seq<Tx>, w: Address, s: Token)
    requires RealAccounts(self, deployer, txs) && s == Run(self, deployer, txs)
    ensures NodeOf(s.nodes, w).stakedAmount * 100 <= UINT_MAX
  {
    AlwaysSolvent(self, deployer, txs);
    StakesSet(s.nodes, w, NO_NODE);
    SumSet(s.balances, self, 0);
  }

  /** There are such a share and such a factor. */
  lemma ShareAndFactorExist(n: nat, stake: nat, minStake: nat) returns (base: nat, m: nat)
    requires n > 0 && minStake > 0
    ensures IsShare(base, n) && IsFactor(m, stake, minStake)
  {
    base, m := BaseRate(n), Multiplier(stake, minStake);
    ShareExactly(base, n);
    FactorExactly(m, stake, minStake);
  }

  /** More stake never earns less. */
  lemma MoreStakeEarnsMore(s: Token, w: Address, amount: nat, t: Token, now: nat)
    requires IncreaseStake(s, w, amount) == Ok(t) && CalculateRewards(s, w, now).Ok? && CalculateRewards(t, w, now).Ok?
    ensures CalculateRewards(s, w, now).value <= CalculateRewards(t, w, now).value
  {
    var was, node := NodeOf(s.nodes, w), NodeOf(t.nodes, w);
    CountSame(s.nodes, t.nodes, s.registered);
    if ActiveCount(s.nodes, s.registered) > 0 {
      var b, e := BaseRate(ActiveCount(s.nodes, s.registered)), now - was.lastClaimTime;
      FactorGrows(was.stakedAmount, node.stakedAmount, s.minStake);
      MulMonotone(b * e, b * e, Multiplier(was.stakedAmount, s.minStake), Multiplier(node.stakedAmount, s.minStake));
    }
  }

  lemma FactorGrows(stake: nat, more: nat, minStake: nat)
    requires minStake > 0 && stake <= more
    ensures Multiplier(stake, minStake) <= Multiplier(more, minStake)
  {
    var d := minStake * 10;
    QuotientBounds(stake * 100, d);
    QuotientBounds(more * 100, d);
    if more * 100 / d < stake * 100 / d {
      MulMonotone(more * 100 / d + 1, stake * 100 / d, d, d);
    }
  }

  // ---------------------------------------------------------- splitting claims

  /** The state after a sequence of transactions from any state. */
  function After(s: Token, txs: seq<Tx>): Token {
    if txs == [] then s else Step(After(s, txs[..|txs| - 1]), txs[|txs| - 1])
  }

  /** Payment per hundred seconds at the state's rate for w. */
  function RateOf(s: Token, w: Address): nat {
    var count := ActiveCount(s.nodes, s.registered);
    if s.minStake == 0 || count == 0 then 0
    else BaseRate(count) * Multiplier(NodeOf(s.nodes, w).stakedAmount, s.minStake)
  }

  /** What a rate pays for a time, rounded down. */
  function Paid(rate: nat, elapsed: nat): nat {
    rate * elapsed / 100
  }

  /** The transaction is a claim by w that goes through. */
  predicate Claimed(s: Token, tx: Tx, w: Address) {
    tx.sender == w && tx.call.Claim? && ClaimRewards(s, w, tx.now).Ok?
  }

  function ClaimCount(s: Token, txs: seq<Tx>, w: Address): nat {
    if txs == [] then 0
    else
      var before := txs[..|txs| - 1];
      ClaimCount(s, before, w) + if Claimed(After(s, before), txs[|txs| - 1], w) then 1 else 0
  }

  /** Every claim of w that goes through finds this rate, whatever anybody calls in between, and w does not
      register again. */
  predicate AtRate(s: Token, txs: seq<Tx>, w: Address, rate: nat) {
    txs != [] ==>
      var before, tx := txs[..|txs| - 1], txs[|txs| - 1];
      && AtRate(s, before, w, rate)
      && (Claimed(After(s, before), tx, w) ==> RateOf(After(s, before), w) == rate)
      && !(tx.sender == w && Again(After(s, before), tx))
  }

  lemma {:induction false} CountSame(
    nodes: map<Address, RelayNode>, nodes': map<Address, RelayNode>, registered: seq<Address>)
    requires forall w :: NodeOf(nodes', w).isActive == NodeOf(nodes, w).isActive
    ensures ActiveCount(nodes', registered) == ActiveCount(nodes, registered)
  {
    if registered != [] {
      CountSame(nodes, nodes', registered[..|registered| - 1]);
    }
  }

  /** What one claim pays, and what it leaves as it was. */
  lemma OneClaim(s: Token, w: Address, now: nat)
    requires ClaimRewards(s, w, now).Ok?
    ensures s.minStake > 0 && ActiveCount(s.nodes, s.registered) > 0 && NodeOf(s.nodes, w).lastClaimTime <= now
    ensures var t := ClaimRewards(s, w, now).value;
            var paid := Paid(RateOf(s, w), now - NodeOf(s.nodes, w).lastClaimTime);
            && t.distributed == s.distributed + paid
            && NodeOf(t.nodes, w).totalRewardsClaimed == NodeOf(s.nodes, w).totalRewardsClaimed + paid
            && NodeOf(t.nodes, w).lastClaimTime == now && NodeOf(t.nodes, w).isActive
            && t.minStake == s.minStake
            && ActiveCount(t.nodes, t.registered) == ActiveCount(s.nodes, s.registered)
            && RateOf(t, w) == RateOf(s, w)
  {
    var t := ClaimRewards(s, w, now).value;
    var node := NodeOf(s.nodes, w);
    var b, e, m := BaseRate(ActiveCount(s.nodes, s.registered)), now - node.lastClaimTime,
                   Multiplier(node.stakedAmount, s.minStake);
    CountSame(s.nodes, t.nodes, s.registered);
    Regroup(b, e, m);
  }

  lemma Regroup(b: nat, e: nat, m: nat)
    ensures b * e * m == b * m * e
  {
  }

  /** floor is superadditive, and two floors lose less than one more. */
  lemma FloorSplit(rate: nat, a: nat, b: nat)
    ensures rate * a / 100 + rate * b / 100 <= rate * (a + b) / 100 <= rate * a / 100 + rate * b / 100 + 1
  {
    assert rate * (a + b) == rate * a + rate * b;
  }

  lemma NotClaimed(s: Token, tx: Tx, w: Address)
    requires !Claimed(s, tx, w) && !(tx.sender == w && Again(s, tx)) && w in s.nodes
    ensures NodeOf(Step(s, tx).nodes, w).lastClaimTime == NodeOf(s.nodes, w).lastClaimTime
    ensures NodeOf(Step(s, tx).nodes, w).totalRewardsClaimed == NodeOf(s.nodes, w).totalRewardsClaimed
  {
    if tx.sender != w || tx.call.SendTokens? {
      OthersStay(s, tx, w);
    }
  }

  /** `paid` in `k` payments against the rate over the whole time. */
  predicate SplitPays(rate: nat, elapsed: nat, paid: int, k: nat) {
    if k == 0 then paid == 0 && elapsed == 0 else paid <= Paid(rate, elapsed) <= paid + k - 1
  }

  lemma OneMorePays(rate: nat, elapsed: nat, more: nat, paid: int, k: nat)
    requires SplitPays(rate, elapsed, paid, k)
    ensures SplitPays(rate, elapsed + more, paid + Paid(rate, more), k + 1)
  {
    FloorSplit(rate, elapsed, more);
  }

  lemma {:induction false} RecordKept(s: Token, txs: seq<Tx>, w: Address)
    requires w in s.nodes
    ensures w in After(s, txs).nodes
  {
    if txs != [] {
      RecordKept(s, txs[..|txs| - 1], w);
    }
  }

  /** Over any transactions of any accounts, if w's claims all find one rate: split into k successful claims
      the reward is never more than the rate pays for the whole time, rounded down, and at most k - 1 wei
      less. */
  lemma {:induction false} SplitClaims(s: Token, txs: seq<Tx>, w: Address, rate: nat)
    requires w in s.nodes && AtRate(s, txs, w, rate)
    ensures var was, now := NodeOf(s.nodes, w), NodeOf(After(s, txs).nodes, w);
            && was.lastClaimTime <= now.lastClaimTime
            && SplitPays(rate, now.lastClaimTime - was.lastClaimTime,
                         now.totalRewardsClaimed - was.totalRewardsClaimed, ClaimCount(s, txs, w))
  {
    if txs != [] {
      var before, tx := txs[..|txs| - 1], txs[|txs| - 1];
      var t := After(s, before);
      SplitClaims(s, before, w, rate);
      RecordKept(s, before, w);
      if Claimed(t, tx, w) {
        OneClaim(t, w, tx.now);
        OneMorePays(rate, NodeOf(t.nodes, w).lastClaimTime - NodeOf(s.nodes, w).lastClaimTime,
                    tx.now - NodeOf(t.nodes, w).lastClaimTime,
                    NodeOf(t.nodes, w).totalRewardsClaimed - NodeOf(s.nodes, w).totalRewardsClaimed,
                    ClaimCount(s, before, w));
      } else {
        NotClaimed(t, tx, w);
      }
    }
  }

  /** Nothing but w's own claims touches w's record, the minimum stake or the number of active nodes. */
  predicate Undisturbed(s: Token, txs: seq<Tx>, w: Address) {
    txs != [] ==>
      var before, tx := txs[..|txs| - 1], txs[|txs| - 1];
      var t := After(s, before);
      var u := Step(t, tx);
      && Undisturbed(s, before, w)
      && (Claimed(t, tx, w) || (&& NodeOf(u.nodes, w) == NodeOf(t.nodes, w) && u.minStake == t.minStake
                                && ActiveCount(u.nodes, u.registered) == ActiveCount(t.nodes, t.registered)))
  }

  /** Registering again with the same record adds to the count. */
  lemma AgainAddsOne(s: Token, tx: Tx, t: Token)
    requires Again(s, tx) && t == Step(s, tx) && NodeOf(t.nodes, tx.sender) == NodeOf(s.nodes, tx.sender)
    ensures ActiveCount(t.nodes, t.registered) == ActiveCount(s.nodes, s.registered) + 1
  {
    assert t.nodes == s.nodes;
    assert t.registered[..|t.registered| - 1] == s.registered;
  }

  lemma {:induction false} UndisturbedRate(s: Token, txs: seq<Tx>, w: Address)
    requires Undisturbed(s, txs, w)
    ensures AtRate(s, txs, w, RateOf(s, w)) && RateOf(After(s, txs), w) == RateOf(s, w)
  {
    if txs != [] {
      var before, tx := txs[..|txs| - 1], txs[|txs| - 1];
      UndisturbedRate(s, before, w);
      if Claimed(After(s, before), tx, w) {
        OneClaim(After(s, before), w, tx.now);
      } else if tx.sender == w && Again(After(s, before), tx) {
        AgainAddsOne(After(s, before), tx, After(s, txs));
      }
    }
  }

  /** The claims against one claim at the time of the last of them, with stake, minimum stake and node count
      unchanged in between: k claims never pay more and lose at most k - 1 wei. */
  lemma SplitOrSingle(s: Token, txs: seq<Tx>, w: Address, now: RelayNode, k: nat, single: Token)
    requires w in s.nodes && Undisturbed(s, txs, w) && k == ClaimCount(s, txs, w) && k > 0
    requires now == NodeOf(After(s, txs).nodes, w) && ClaimRewards(s, w, now.lastClaimTime) == Ok(single)
    ensures var least := NodeOf(single.nodes, w).totalRewardsClaimed - (k - 1);
            least <= now.totalRewardsClaimed <= NodeOf(single.nodes, w).totalRewardsClaimed
  {
    OneClaim(s, w, now.lastClaimTime);
    UndisturbedPays(s, txs, w, now, RateOf(s, w), NodeOf(single.nodes, w).totalRewardsClaimed);
  }

  lemma UndisturbedPays(s: Token, txs: seq<Tx>, w: Address, now: RelayNode, rate: nat, single: nat)
    requires w in s.nodes && Undisturbed(s, txs, w) && ClaimCount(s, txs, w) > 0 && rate == RateOf(s, w)
    requires now == NodeOf(After(s, txs).nodes, w) && NodeOf(s.nodes, w).lastClaimTime <= now.lastClaimTime
    requires single
          == NodeOf(s.nodes, w).totalRewardsClaimed + Paid(rate, now.lastClaimTime - NodeOf(s.nodes, w).lastClaimTime)
    ensures single - (ClaimCount(s, txs, w) - 1) <= now.totalRewardsClaimed <= single
  {
    assert AtRate(s, txs, w, rate) by {
      UndisturbedRate(s, txs, w);
    }
    SplitClaims(s, txs, w, rate);
    WithinSplit(rate, now.lastClaimTime - NodeOf(s.nodes, w).lastClaimTime,
                now.totalRewardsClaimed - NodeOf(s.nodes, w).totalRewardsClaimed, ClaimCount(s, txs, w));
  }

  lemma WithinSplit(rate: nat, elapsed: nat, paid: int, k: nat)
    requires SplitPays(rate, elapsed, paid, k) && k > 0
    ensures paid <= Paid(rate, elapsed) <= paid + k - 1
  {
  }

  /** A node registered just now has earned nothing, and from then on earns, per second and until the next
      call, eleven tenths of an equal share: the least stake already lifts the multiplier to 110. */
  lemma NewNodeEarns(s: Token, w: Address, peerId: PeerId, now: nat, later: nat)
    requires RegisterRelayNode(s, w, peerId, now).Ok? && s.minStake > 0 && s.minStake * 100 <= UINT_MAX && now <= later
    ensures var t := RegisterRelayNode(s, w, peerId, now).value;
            && ActiveCount(t.nodes, t.registered) > 0
            && CalculateRewards(t, w, later) == Payment(BaseRate(ActiveCount(t.nodes, t.registered)), later - now, 110)
            && CalculateRewards(t, w, now) == Ok(0)
  {
    var t := RegisterRelayNode(s, w, peerId, now).value;
    assert t.registered[..|t.registered| - 1] == s.registered;
    assert NodeOf(t.nodes, t.registered[|t.registered| - 1]).isActive;
    LeastMultiplier(s.minStake);
    assert BaseRate(ActiveCount(t.nodes, t.registered)) * 0 * 110 == 0;
  }

  lemma LeastMultiplier(minStake: nat)
    requires minStake > 0
    ensures Multiplier(minStake, minStake) == 110
  {
    TenTimes(minStake * 10);
    assert minStake * 100 == 10 * (minStake * 10);
  }

  lemma TenTimes(d: nat)
    requires d > 0
    ensures 10 * d / d == 10
  {
  }
}
