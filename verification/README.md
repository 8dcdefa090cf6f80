# dMail: verified models of the messaging core

This project models six parts of dMail and proves what they are there for: the Double Ratchet session that
encrypts messages end to end, the staking contract that pays relay nodes, the limiters that keep senders
within their allowance, the onion routes that hide who talks to whom, the outbound priority queue, and the
message store. Proof of work, which the limiters fall back on, is the seventh and smallest part.

Every part has the same two layers. A specification gives the state as a value and each operation as a
function on it, and the properties are lemmas about all runs of those operations. Where the program updates
objects in place, a class with the same fields and loops is proved, method by method, to compute exactly what
the specification says.

- **Ratchet** (`Ratchet`, `RatchetSession`, `RatchetStorage`, `RatchetProtocol`, `RatchetRuns`,
  `RatchetTheorems`, `RatchetSecrecy`, `RatchetAuthenticity`, `RatchetStore`, with `Encoding` and `KeyedStore`).
  Two parties exchange messages over a network that reorders, delays and drops; sessions are saved and loaded in
  between. One invariant over the history of a run ties both root chains, all symmetric chains, the skipped keys
  and the letters in flight together, and the theorems are read off it: what is read, which keys are used, and
  that nothing altered or replayed is accepted.
- **Staking** (`Staking`, `StakingIndexes`, `StakingEffects`, `StakingRewards`, `StakingContract`, with `Sums`). The
  token and the relay registry as a state machine over calls, with the contract's integer division and its checked
  256-bit arithmetic.
- **Limiters** (`SlidingWindow`, `RateLimiter`, `Reputation`, `ReputationLimiter`). The pruned timestamp lists
  against a history that forgets nothing, and the reputation path with its scores and daily allowance.
- **Onion routing** (`RelaySelection`, `Onion`, `OnionRouting`). Weighted choice of relays, the nest of encrypted
  layers, and the walk of a packet through a network of routers and back.
- **Queue** (`BatchQueue`, `MessageQueue`, with `StableSort`). Enqueues, timer ticks, handler completions and
  handler failures in any interleaving.
- **Store** (`MessageStore`, `DhtStorage`, `NetworkMerge`, with `OrderedTable`). One flat key space against one
  table per box, expiry and cleanup, read marks, and the merge of copies from several nodes.
- **Proof of work** (`ProofOfWork`). The byte-and-mask test against the comparison with a power of two.

Cryptography is symbolic. `Ratchet.Suite` and `Onion.Suite` are records of functions on byte strings. `Sound`
says that Diffie-Hellman commutes, that sealing can be undone with the sealing key, and that derived keys are
not empty; the secrecy results also assume `CollisionFree`, `Authenticating` or `Exclusive`, which say that
derivations do not collide and that nothing but the sealing key opens. `SuiteModels` gives primitives that meet
all of it. Random values, clocks, the calendar day and the answers of other nodes are arguments. Where a key is
missing, the JavaScript copy of the ratchet throws a type error and the TypeScript copy a named one; both are the
same error result here.

## Where the code differs from what is said about it

- `contracts/DMailToken.sol:152` and `:163` announce a seven-day unbonding period. The code has none: an active
  node deactivates and withdraws its whole stake at the same moment (`StakingIndexes.NoUnbonding`).
- A zero peer id defeats the test for an existing registration (`contracts/DMailToken.sol:70`): the wallet can
  register again, as soon as the new peer id is nobody's and its balance covers the stake
  (`StakingIndexes.SecondRegistration`). After any calls the list, the records and the peer index agree if and only
  if no wallet with a record registered again (`StakingIndexes.IndexedExactly`); a single registration with a zero
  peer id leaves them in agreement.
- `src/crypto/double-ratchet.js:28` calls `MAX_SKIP` the number of keys that may be stored. The code bounds each
  skip by it, not the store. Two honest parties can make the store as large as they like
  (`RatchetStore.NoStoreBound`) and store twice `MAX_SKIP` keys in one call (`RatchetStore.TwiceTheBound`). A
  delivery keeps the store within the limit if and only if a sum read off the state and the header before the call
  does (`RatchetStore.StoreGrowsExactly`).
- A saved session comes back as it was exactly when no key field is a zero-length key
  (`RatchetStorage.SaveLoad`); no session of two honest parties has one.
- A score of zero reads as missing, so the next success lifts it to 25.1, not to 0.1. An adjustment moves a score by
  its amount if and only if the score is not zero or the amount leads to a bound all the same
  (`Reputation.AdjustMovesScore`).
- The delay a refusal announces is measured from the oldest entry in the window. It is the first delay that frees
  the limit if and only if the entry that is `limit` from the end of the window is as old
  (`SlidingWindow.RetryIsExact`). Without bare records it always is; with them it can be too short
  (`SlidingWindow.BareRecordsOutlastDelay`), and the reputation path records that way.
- `src/network/rate-limiter.js:184` speaks of the most storage per sender and day. The first message of a day is not
  held against it, so the daily limit is kept in all runs if and only if it is at least the largest message
  (`Reputation.DailyLimitKeptExactly`); the larger of the two is always kept (`Reputation.EverySenderBounded`).
- The reputation path never looks at the limit for the whole node, and there is no configuration for which that
  limit holds all the same (`Reputation.NoOverallBound`). With a base limit of one it shuts newcomers out; with a
  larger one they get through in any number (`Reputation.NewcomerCrowd`).
- A batch handler that throws leaves the queue's flag up with no timer set. Messages are accepted from then on
  and never delivered (`BatchQueue.HealthyUntilFailure`, `NothingAfterFailure`).
- The prefix scan of the store mixes recipients exactly when one name followed by a colon begins with the other
  (`MessageStore.ScanMixesRecipients`). A cleanup deletes a record that was stored again while it ran if and only
  if the record it replaced had expired (`MessageStore.RefreshBetweenPhasesIsLost`); whatever else runs in between,
  it deletes exactly the keys that it found expired (`MessageStore.CleanupInterleaved`).
- A circuit id has one previous hop per router, so the way back is lost when the recipient's own node is one of the
  relays, which the sender at `src/network/onion-routing.js:379` does not exclude. The way back is the reversed
  route if and only if no relay is the recipient's node, but for the first one where the last is the sender's, and
  the circuits are recent (`Onion.WayBackExactly`).
- A solution of a challenge is bound to challenge, sender and nonce as long as the nonce has no colon; verification
  takes any nonce, and with a colon in it one text serves two senders (`ProofOfWork.ChallengeBinds`,
  `ColonInNonceUnbinds`).
- The mask test of proof of work accepts the hash of zeros for difficulties 257 to 263, the numeric test accepts
  nothing there (`ProofOfWork.TestsAgree`).
- A draw can miss every relay, so that a route comes out shorter than asked for. Among the relays left, best score
  first, every draw hits if and only if the best score is not negative (`RelaySelection.EveryDrawHits`), and every
  selection is complete if and only if enough of the relays in play have such a score
  (`RelaySelection.SelectionFillsExactly`). With negative scores only, a draw hits the best relay or none
  (`RelaySelection.DrawStops`).

## Model

| member | source | states |
|---|---|---|
| RatchetSession.DoubleRatchetSession.constructor | src/crypto/double-ratchet.js:190-192 | a session starts on the state it is given, and is in order if and only if that state is |
| RatchetSession.DoubleRatchetSession.InitAsInitiator | src/crypto/double-ratchet.js:199-212 | the initiator's state after the first root step, with a fresh key pair and no receiving chain |
| RatchetSession.DoubleRatchetSession.InitAsResponder | src/crypto/double-ratchet.js:219-228 | the responder's state: the shared secret as root key, the pre-key pair, no chains |
| RatchetSession.DoubleRatchetSession.EncryptMessage | src/crypto/double-ratchet.js:236-258 | header, sealed text and new state of one encryption, or an error when there is nothing to encrypt with |
| RatchetSession.DoubleRatchetSession.DecryptMessage | src/crypto/double-ratchet.js:268-297 | the result and the new state on every path: stored key, current chain, ratchet turn, and each failure with the state it leaves behind |
| RatchetSession.DoubleRatchetSession.TurnRatchet | src/crypto/double-ratchet.js:302-322 | both root steps of a ratchet turn and the counters it resets |
| RatchetSession.DoubleRatchetSession.SkipKeys | src/crypto/double-ratchet.js:327-343 | the loop stores exactly the keys of the numbers passed over, or refuses and changes nothing |
| Ratchet.SkipKeyInjective | src/crypto/double-ratchet.js:273-273 | the text that names a skipped key determines both the public key and the number |
| Ratchet.SkipEffect | src/crypto/double-ratchet.js:332-342 | closed form of the skipping loop: the chain advanced to the target and one entry per number passed over |
| Ratchet.SkipGrowth | src/crypto/double-ratchet.js:327-343 | one skip terminates and adds no more entries than numbers it passes over |
| Ratchet.DecryptStoreBound | src/crypto/double-ratchet.js:281-297 | one decrypt, on any state and any message, adds at most twice MAX_SKIP entries |
| Ratchet.GuardExact | src/crypto/double-ratchet.js:327-330 | in any state, with or without keys, decrypt refuses for skipping too far if and only if a condition on the state and the header holds before the call |
| Ratchet.DecryptCoherent | api/src/crypto/double-ratchet.service.ts:187-274 | after any decrypt, a failed one included, a receiving chain has a remote key and a sending chain has an own key |
| Encoding.Base64RoundTrip | src/crypto/double-ratchet.js:144-154 | decoding the base64 text of any bytes gives the bytes back (section 4 of RFC 4648) |
| RatchetStorage.SaveLoad | src/crypto/double-ratchet.js:141-183 | loading a saved session gives the session back if and only if no key field is a zero-length key, in whatever order the entries were listed |
| RatchetStorage.EmptyKeyIsLost | api/src/crypto/double-ratchet.service.ts:312-330 | a zero-length root key comes back as no root key |
| RatchetTheorems.Reachable | src/crypto/double-ratchet.js:199-343 | the global invariant holds after every sequence of sends, deliveries in any order, drops and reloads of two honest parties, after refused deliveries too |
| RatchetTheorems.OutOfOrder | src/crypto/double-ratchet.js:268-297 | in every reachable state, delivering any letter in flight yields exactly its plaintext, or the skip refusal if and only if a guard fires |
| RatchetTheorems.EndToEnd | src/crypto/double-ratchet.js:236-297 | from one party's encrypt to the other's decrypt, across anything in between, the plaintext arrives unless a guard fires |
| RatchetTheorems.RootLockstep | src/crypto/double-ratchet.js:302-322 | after any run each party's root key is the one at its own last key on the common sequence of the run's keys, and the two are exactly one position apart |
| RatchetTheorems.OneSequence | src/crypto/double-ratchet.js:302-322 | the common sequence is one over the whole run: it only grows, and the root key at a position never changes |
| RatchetTheorems.TurnMovesTwo | src/crypto/double-ratchet.js:302-322 | a delivery that turns the ratchet moves its receiver on by two positions and the sender not at all, and no other event moves anybody |
| RatchetTheorems.PreviousCounter | src/crypto/double-ratchet.js:281-286 | a message on a new chain meets a receiver on the chain before it, and its previous counter is that chain's final length: now and after anything that follows, the letters posted on that chain are exactly those with smaller numbers |
| RatchetTheorems.ExactStore | src/crypto/double-ratchet.js:272-297 | in every reachable state the store holds a key for a letter if and only if it was passed over and not read, the key opens it, and there is nothing else in the store |
| RatchetStore.StoreGrowsExactly | src/crypto/double-ratchet.js:268-297 | in every reachable state a delivery changes the number of stored keys by a sum read off state and header before the call, so the store stays within a limit if and only if that sum does |
| RatchetStore.StoreSize | src/crypto/double-ratchet.js:327-343 | after any run a party stores exactly as many keys as the growths of its deliveries sum to |
| RatchetStore.StoreKeepsAll | src/crypto/double-ratchet.js:327-343 | with every other message of a chain delivered, all the others' keys are kept, however many |
| RatchetStore.NoStoreBound | src/crypto/double-ratchet.js:28-28 | for every number an honest run, over primitives that meet the assumptions, after which that many keys are stored |
| RatchetStore.TwiceTheBound | src/crypto/double-ratchet.js:281-297 | an honest run whose last delivery puts twice MAX_SKIP, two hundred, keys into an empty store |
| RatchetTheorems.ReloadsInvisible | src/crypto/double-ratchet.js:141-183 | saving and loading either session anywhere in a run changes no later state |
| RatchetSecrecy.SingleUse | src/crypto/double-ratchet.js:45-50 | over any run no two encryptions, by either party, use the same message key |
| RatchetSecrecy.SealedUnder | src/crypto/double-ratchet.js:236-258 | the keys counted as used are the ones that seal the letters, one per letter |
| RatchetSecrecy.KeysDiffer | src/crypto/double-ratchet.js:33-50 | messages of different chains or numbers have different keys |
| RatchetSecrecy.ForwardSecrecy | src/crypto/double-ratchet.js:273-294 | once used, a key is neither stored by the party that used it nor reached from its state by any number of chain and root steps |
| SuiteModels.RatchetAssumptionsHold | src/crypto/double-ratchet.js:33-50 | what is assumed of the ratchet's primitives can be met, all of it at once |
| RatchetAuthenticity.AcceptsExactly | src/crypto/double-ratchet.js:268-297 | on any state and message decrypt answers a plaintext if and only if the AEAD opens the message to it under the key of its header, an authentication failure if it does not open, and otherwise the error that says why there is no key |
| RatchetAuthenticity.StateIgnoresContent | src/crypto/double-ratchet.js:273-296 | the state after decrypt depends on the header alone, whether the message opens or not |
| RatchetAuthenticity.TurnWithoutKeys | src/crypto/double-ratchet.js:302-316 | a session without keys fails to turn but has taken the new public key and reset its counters |
| RatchetAuthenticity.InitStartsOver | src/crypto/double-ratchet.js:199-228 | a session started anew shows nothing of what it was but the keys put aside |
| RatchetAuthenticity.InitKeepsSkipped | src/crypto/double-ratchet.js:199-228 | messages passed over before a session is started anew are still read |
| RatchetAuthenticity.ReadsWithItsKey | src/crypto/double-ratchet.js:268-297 | in every reachable state the header of a letter in flight is read with the key its sender sealed the letter under, unless a guard fires |
| RatchetAuthenticity.AlteredIsRefused | src/crypto/double-ratchet.js:79-84 | in every reachable state a message with the header of a letter in flight is accepted if and only if no guard fires and its ciphertext is what the letter's own key seals the plaintext to, with that nonce and associated data |
| RatchetAuthenticity.SwappedIsRefused | src/crypto/double-ratchet.js:79-84 | behind the header of one letter the ciphertext of another is refused |
| RatchetAuthenticity.ReplayIsRefused | src/crypto/double-ratchet.js:268-297 | in every reachable state the ciphertext of a letter is refused by its receiver once read, and by its sender at once, under any header |
| RatchetAuthenticity.PostedOpens | src/crypto/double-ratchet.js:236-258 | a party can send if and only if it is the initiator or has turned its ratchet, and what it posts opens with the drawn nonce and the given associated data to the plaintext |
| Staking.MovedSum | contracts/DMailToken.sol:75-75 | a transfer, also to oneself, keeps the sum of the balances and touches two accounts at most |
| Staking.AlwaysSolvent | contracts/DMailToken.sol:57-125 | after any calls the balances sum to the supply, and the contract holds at least all stakes plus the unpaid pool |
| Staking.NeverLacksFunds | contracts/DMailToken.sol:166-177 | a withdrawal succeeds if and only if the node is inactive with stake, and no claim fails for lack of funds |
| Staking.ClaimGoesThrough | contracts/DMailToken.sol:110-125 | in every reachable state a claim goes through if and only if the node is active, its reward can be calculated and is positive, and the pool covers it; it then pays that reward |
| StakingEffects.TransferExactly | contracts/DMailToken.sol:75-75 | a transfer goes through if and only if neither party is the zero address and the balance covers it, and changes nothing but the two balances |
| StakingEffects.DeployedShares | contracts/DMailToken.sol:57-63 | 600 million tokens to the deployer, 400 million to the contract, ten thousand minimum stake |
| StakingEffects.RegisterExactly | contracts/DMailToken.sol:69-90 | in every reachable state a registration goes through if and only if the wallet has no nonzero peer id, the peer id is nobody's and the balance covers the minimum stake, which moves to the contract and onto the record |
| StakingEffects.AddStakeExactly | contracts/DMailToken.sol:95-101 | in every reachable state adding stake goes through if and only if the node is active and its balance covers the amount, which moves from the balance to the contract and onto the record |
| StakingEffects.OnlyOwnerSetsMinStake | contracts/DMailToken.sol:202-204 | over any calls the minimum stake is the one the deployer set last |
| StakingEffects.SetMinStakeExactly | contracts/DMailToken.sol:202-204 | the owner sets the minimum stake and nothing else; anybody else is refused |
| StakingEffects.RefusalsNameReason | contracts/DMailToken.sol:69-204 | in every reachable state a call that does not go through names the first requirement that is not met and leaves everything as it was |
| StakingEffects.CallsAreCarriedOut | contracts/DMailToken.sol:69-204 | a call that goes through leads to the state that its own function says |
| StakingIndexes.IndexedRegister | contracts/DMailToken.sol:69-90 | a registration that goes through keeps the indexes if and only if the wallet had no record yet |
| StakingIndexes.AlwaysIndexed | contracts/DMailToken.sol:69-125 | with nonzero peer ids: no duplicates in the list, the two peer id maps are mutual inverses, the claims sum to what was distributed, and no record has a zero peer id |
| StakingIndexes.IndexedExactly | contracts/DMailToken.sol:69-90 | after any calls the list, the records and the peer index agree and the claims sum to what was distributed if and only if no registration went through for a wallet that had a record |
| StakingIndexes.SecondRegistration | contracts/DMailToken.sol:70-72 | in every reachable state a wallet with a record can register again if and only if the record's peer id is zero, the new one is nobody's, and the balance covers the stake |
| StakingIndexes.ZeroPeerRegistersTwice | contracts/DMailToken.sol:70-71 | with a zero peer id one wallet is listed and counted twice and its first stake is no longer recorded |
| StakingIndexes.CountIsExact | contracts/DMailToken.sol:182-190 | the counting loop gives the number of active wallets |
| StakingIndexes.PhaseStep | contracts/DMailToken.sol:69-177 | unless a wallet with a record registers again, a call changes only its caller's phase and is possible only in the phase it needs |
| StakingIndexes.PhasesMoveForward | contracts/DMailToken.sol:154-177 | over any run in which nobody registers again a wallet moves only from unregistered to active, inactive with stake, withdrawn |
| StakingIndexes.NoUnbonding | contracts/DMailToken.sol:150-177 | in every reachable state an active node can deactivate and withdraw at once and gets its whole stake |
| StakingIndexes.RecordsMatchPayments | contracts/DMailToken.sol:69-177 | over any calls in which nobody registers again a wallet's recorded stake is exactly what it paid in and did not get back, and its claimed rewards are exactly what claims paid it |
| StakingRewards.ReachablePendingBound | contracts/DMailToken.sol:130-148 | in every reachable state the pending rewards of all wallets together are at most twice the nominal rate times the longest time since a claim |
| StakingRewards.OneClaim | contracts/DMailToken.sol:114-122 | a claim pays the rate for the time since the last one, rounded down, and leaves rate and count as they were |
| StakingRewards.RewardExactly | contracts/DMailToken.sol:130-148 | in every reachable state the pending reward of an active node is base times seconds times factor over one hundred, rounded down, for the unique base that is its share of the nominal rate and the unique factor that its stake gives, two from ten times the minimum stake on; and exactly when it reverts |
| StakingRewards.ShareAndFactorExist | contracts/DMailToken.sol:138-143 | there are a share and a factor within those bounds for every number of nodes, stake and minimum stake above zero |
| StakingRewards.MoreStakeEarnsMore | contracts/DMailToken.sol:142-143 | adding stake never lowers the pending reward |
| StakingEffects.NominalRate | contracts/DMailToken.sol:139-139 | the nominal rate in wei per second |
| StakingRewards.SplitClaims | contracts/DMailToken.sol:139-145 | over any calls of any accounts, if a wallet's k claims find the same rate, they pay no more than that rate for the whole time, rounded down, and at most k - 1 wei less |
| StakingRewards.SplitOrSingle | contracts/DMailToken.sol:110-125 | with stake, minimum stake and node count unchanged, whatever else is called: k claims never pay more than one claim at the time of the last, and lose at most k - 1 wei |
| StakingRewards.NewNodeEarns | contracts/DMailToken.sol:77-84 | a node just registered has earned nothing, and from then on earns eleven tenths of an equal share per second |
| StakingContract.DMailToken.constructor | contracts/DMailToken.sol:57-63 | the deployed state: the pool with the contract, the rest with the deployer, and the time of deployment |
| StakingContract.DMailToken.Move | contracts/DMailToken.sol:75-75 | the inherited transfer moves the amount or reverts, for the zero address and for too small a balance |
| StakingContract.DMailToken.Register | contracts/DMailToken.sol:69-90 | the storage after a registration; after each revert its reason and unchanged storage |
| StakingContract.DMailToken.StakeMore | contracts/DMailToken.sol:95-101 | the storage after more stake; after each revert its reason and unchanged storage |
| StakingContract.DMailToken.GetActiveNodeCount | contracts/DMailToken.sol:182-190 | the loop computes the count over the list |
| StakingContract.DMailToken.PendingRewards | contracts/DMailToken.sol:130-148 | the nested integer divisions of the reward, and its checked arithmetic |
| StakingContract.DMailToken.ClaimPending | contracts/DMailToken.sol:110-125 | the storage after a claim; after each revert, the failing transfer's included, its reason and unchanged storage |
| StakingContract.DMailToken.Leave | contracts/DMailToken.sol:154-161 | deactivation clears the flag and nothing else, or reverts with its reason |
| StakingContract.DMailToken.TakeStake | contracts/DMailToken.sol:166-177 | the withdrawal pays the recorded stake and clears it, or reverts with its reason |
| StakingContract.DMailToken.UpdateMinStake | contracts/DMailToken.sol:202-204 | the owner changes the minimum stake; anybody else's call reverts as unauthorised |
| SlidingWindow.RecentOfRecent | src/network/rate-limiter.js:45-58 | pruning early loses nothing that a later cut would keep |
| SlidingWindow.PruningIsInvisible | src/network/rate-limiter.js:40-157 | every answer of every call equals that of a limiter that never forgets, wherever cleanup and lazy pruning fall |
| SlidingWindow.EveryWindowBounded | src/network/rate-limiter.js:94-100 | in every run without a bare record, resets included, every half-open window holds at most maxRequests permissions per sender since its last reset and globalMaxRequests in all |
| SlidingWindow.PermittedExactly | src/network/rate-limiter.js:44-70 | after any run a request is permitted if and only if the entries recorded in the window that ends now are below both limits, and the global limit is named first |
| SlidingWindow.RetryIsExact | src/network/rate-limiter.js:46-68 | after any run a refusal's delay is positive and at most one window; the refusing limit refuses exactly until the entry that is limit from the end of the window leaves it, so the delay is the first that frees the limit if and only if that entry is as old as the oldest |
| SlidingWindow.GuardedRetry | src/network/rate-limiter.js:46-68 | in runs without a bare record the announced delay is always the first that frees the limit |
| SlidingWindow.BareRecordsOutlastDelay | src/network/rate-limiter.js:77-87 | after two bare records under a limit of one, the same limit refuses when the announced delay is over |
| SlidingWindow.RateIsExact | src/network/rate-limiter.js:105-120 | after any run the rate query counts the entries of the present window; remaining is what is left up to the limit and zero above it; the reset time is the first delay at which the count falls |
| SlidingWindow.GuardedRate | src/network/rate-limiter.js:105-120 | in runs without a bare record count and remainder make up the limit |
| SlidingWindow.GlobalRateIsExact | src/network/rate-limiter.js:125-136 | after any run the global rate counts the entries of all senders in the present window and what remains of the limit |
| SlidingWindow.CleanupForgets | src/network/rate-limiter.js:141-157 | a cleanup leaves exactly the entries of the present window and no sender without any |
| SlidingWindow.ChecksForgetGlobally | src/network/rate-limiter.js:40-71 | a check prunes the global list and leaves the senders' lists alone but for a permitted request |
| SlidingWindow.OptionsOrDefaults | src/network/rate-limiter.js:19-29 | ten per sender and a thousand in all in a minute, unless given |
| RateLimiter.RateLimiter.constructor | src/network/rate-limiter.js:19-29 | options left out or zero take their defaults, and the lists start empty |
| RateLimiter.RateLimiter.CheckLimits | src/network/rate-limiter.js:40-71 | the decision and the pruned global list; the sender's list is left alone |
| RateLimiter.RateLimiter.RecordRequest | src/network/rate-limiter.js:77-87 | both lists grow by the present time |
| RateLimiter.RateLimiter.CheckThenRecord | src/network/rate-limiter.js:94-100 | the decision, and the lists grown only if it permits |
| RateLimiter.RateLimiter.RateOf | src/network/rate-limiter.js:105-120 | count, limit, remainder and time to reset of a sender |
| RateLimiter.RateLimiter.OverallRate | src/network/rate-limiter.js:125-136 | the global count, with the global list pruned |
| RateLimiter.RateLimiter.CleanUp | src/network/rate-limiter.js:141-157 | the loop prunes every list and drops empty ones, in any order of the senders |
| RateLimiter.RateLimiter.ResetSender | src/network/rate-limiter.js:162-164 | one sender's list is dropped and the global list kept |
| Reputation.LimitMonotone | src/network/rate-limiter.js:275-286 | a better score never lowers the limit, which is between zero and three times the base |
| Reputation.AdjustMovesScore | src/network/rate-limiter.js:343-347 | an adjustment moves a stored score by its amount, up to the bounds, if and only if the score is not zero or the amount is at most -25 or at least 100; a zero score moves from 25 |
| Reputation.ScoresStayIn | src/network/rate-limiter.js:343-367 | every score stays between 0 and 100 over any calls |
| Reputation.EverySenderBounded | src/network/rate-limiter.js:291-336 | with scores changing in any way: at most three times the base limit per sender and window, and at most the larger size limit in bytes per sender and day |
| Reputation.DailyLimitKeptExactly | src/network/rate-limiter.js:193-223 | every sender's bytes of every day of every run stay within the daily limit if and only if the largest message does |
| Reputation.AcceptedExactly | src/network/rate-limiter.js:291-312 | a request is accepted if and only if its size fits, the bytes let through today leave room or are none, and the requests let through in the window are below the adjusted limit |
| Reputation.RefusalIsExact | src/network/rate-limiter.js:291-312 | a refusal names the first test that failed and the numbers it compared: the size limit, the day's bytes and limit, or the score and its limit |
| Reputation.ScoreMoves | src/network/rate-limiter.js:317-367 | a call moves the score of its sender and of nobody else: a tenth up, 25 down, by the amount, or to the level, between 0 and 100 |
| Reputation.ScoreIsEarned | src/network/rate-limiter.js:317-325 | in a run of requests a score is 25 and a tenth per request let through, up to 100 |
| Reputation.LookingChangesNothing | src/network/rate-limiter.js:291-312 | a plain check changes nothing, the statistics prune the global list, a cleanup every list |
| Reputation.SizesOrDefaults | src/network/rate-limiter.js:181-188 | one megabyte per message and ten per day, unless given |
| Reputation.NoOverallBound | src/network/rate-limiter.js:298-309 | for every configuration some run has more requests let through in one window than the limit for the whole node |
| Reputation.NewcomerCrowd | src/network/rate-limiter.js:298-309 | newcomers get through in any number at one moment, or not at all if the base limit is below two |
| Reputation.NewcomerLimit | src/network/rate-limiter.js:276-285 | a sender without a score gets half the base limit, rounded down |
| Reputation.LimitBySteps | src/network/rate-limiter.js:263-286 | the adjusted limit by score: half, one, one and a half, two or three times the base, rounded down |
| ReputationLimiter.SizeLimiter.constructor | src/network/rate-limiter.js:181-188 | sizes left out or zero take their defaults, and no usage is on record |
| ReputationLimiter.SizeLimiter.CheckSizes | src/network/rate-limiter.js:193-223 | size first, then the daily allowance, which the first message of a day is not held against |
| ReputationLimiter.SizeLimiter.RecordStorage | src/network/rate-limiter.js:228-237 | usage adds up within a day and starts over on another |
| ReputationLimiter.ReputationRateLimiter.constructor | src/network/rate-limiter.js:255-261 | both inner limiters are new and configured, and no score is on record |
| ReputationLimiter.ReputationRateLimiter.GetAdjustedLimit | src/network/rate-limiter.js:275-286 | the threshold loop gives the multiplier of the last threshold reached |
| ReputationLimiter.ReputationRateLimiter.CheckRequest | src/network/rate-limiter.js:291-312 | the ruling of the three tests in order |
| ReputationLimiter.ReputationRateLimiter.RecordRequest | src/network/rate-limiter.js:317-325 | lists, usage and score after an accepted request |
| ReputationLimiter.ReputationRateLimiter.CheckThenRecord | src/network/rate-limiter.js:330-336 | the ruling, and lists, usage and score changed only if it accepts |
| ReputationLimiter.ReputationRateLimiter.AdjustReputation | src/network/rate-limiter.js:343-347 | the new score, with zero read as missing |
| ReputationLimiter.ReputationRateLimiter.ReportSpammer | src/network/rate-limiter.js:352-354 | a spam report takes 25 points |
| Reputation.TrustSetsLimit | src/network/rate-limiter.js:359-367 | marking a sender as trusted gives it the limit of its level whatever its score was, and leaves every other sender's limit alone |
| StableSort.SortLaws | src/network/connection-pool.js:448-448 | sorting orders, loses nothing and keeps equal keys in their old order |
| StableSort.SortedUnique | src/storage/dht-storage.js:258-258 | order and the elements per key leave only one possible result |
| RelaySelection.RegisteredDistinct | src/network/onion-routing.js:157-166 | the table keeps one entry per peer id |
| RelaySelection.RegisteredEntry | src/network/onion-routing.js:157-166 | registering a relay sets its peer's entry and no other |
| RelaySelection.RescoredKeeps | api/src/network/onion-routing.service.ts:345-350 | whatever the scores, changing one moves it by the amount, between 0 and 100, and keeps every other entry |
| RelaySelection.AvailableExactly | api/src/network/onion-routing.service.ts:113-119 | a relay is in play if and only if it is known and not excluded; the list is free of duplicates, best score first, and as long as that many |
| RelaySelection.ScanHitsShare | src/network/onion-routing.js:186-196 | the scan always hits, and hits a relay if and only if the target falls into its share of the total |
| RelaySelection.SelectionIsSound | src/network/onion-routing.js:172-200 | selection succeeds if and only if enough relays are eligible, whatever the scores, and the error has both counts; it yields different, known, not excluded ones, and as many as asked for when that many have a score that is not negative |
| RelaySelection.DrawStops | src/network/onion-routing.js:186-196 | best score first, a draw stops at a relay whose score is not negative while there is one; otherwise at the best one if the target does not exceed its score, and else at none |
| RelaySelection.EveryDrawHits | src/network/onion-routing.js:186-196 | with the best score first, every draw hits a relay if and only if the best score is not negative |
| RelaySelection.SelectionFillsExactly | src/network/onion-routing.js:172-200 | with enough relays eligible, every sequence of draws yields exactly as many as asked for if and only if that many eligible ones have a score that is not negative |
| RelaySelection.DrawHitsShare | src/network/onion-routing.js:186-196 | with scores that are not negative a draw hits exactly the relay into whose share of the total the draw, scaled to the total, falls |
| RelaySelection.ShareIsProportional | src/network/onion-routing.js:186-196 | the draws that hit a relay form an interval whose length is its score over the total |
| RelaySelection.SelectionFollowsDraws | src/network/onion-routing.js:172-200 | a selection takes for each draw the relay whose share of the scores still in play it falls into |
| RelaySelection.EachCanBeFirst | src/network/onion-routing.js:172-200 | every eligible relay with a positive score is the first hop for some draw, whatever is drawn after |
| RelaySelection.MissedDrawIsSkipped | src/network/onion-routing.js:186-196 | a draw that misses chooses none and leaves the other draws to the same relays |
| RelaySelection.NegativeScoresMissSometimes | src/network/onion-routing.js:186-196 | two relays of score -1, missed by one draw and hit by another |
| Onion.LayerOpens | src/network/onion-routing.js:65-107 | the addressee of a layer gets the layer back |
| Onion.LayerCarriesDraw | src/network/onion-routing.js:65-85 | a layer carries the drawn nonce and the public key of the drawn ephemeral key |
| Onion.PeelsExactly | src/network/onion-routing.js:278-318 | what the addressee does with a layer of each kind: the circuit recorded, also before an unknown type fails, and the packet passed on under its circuit id and time, or fresh ones |
| Onion.OthersFail | src/network/onion-routing.js:278-318 | any other node fails on the packet and records nothing |
| SuiteModels.OnionAssumptionsHold | src/network/onion-routing.js:65-107 | what is assumed of the primitives of a layer can be met, all of it at once |
| Onion.RouteRoundTrip | src/network/onion-routing.js:209-319 | over any relays, the recipient's own node among them or not, the packet visits exactly the relays in order, each forwards to the next multiaddr and peer id with the circuit id unchanged, only the last is exit, and the recipient gets the message; each node remembers where the packet came from the last time |
| Onion.WayBack | src/network/onion-routing.js:284-333 | following the recorded previous hops gives the reversed route if and only if every node came up after the same node the last time it did, and its circuit is not older than ten minutes at a cleanup |
| Onion.WayBackExactly | src/network/onion-routing.js:284-333 | over pairwise different relays, the way back is the reversed route if and only if no relay is the recipient's node, but for the first where the last is the sender's, and the circuits are recent |
| Onion.SentMessageArrives | src/network/onion-routing.js:172-319 | from selection to exit, with or without exclusions and whatever the scores: a message over any selected relays reaches the recipient through known, not excluded ones, as many as asked for when that many have a score that is not negative |
| Onion.ExcludedHomeIsApart | src/network/onion-routing.js:172-200 | a selection that excludes the recipient's node yields a route whose way back depends on the age of the circuits alone |
| OnionRouting.OnionRouteBuilder.constructor | src/network/onion-routing.js:149-152 | a hop count left out or zero is three, and no relay is known |
| OnionRouting.OnionRouteBuilder.RegisterRelay | src/network/onion-routing.js:157-166 | the search loop sets its relay's entry and no other, and no peer id gets a second entry |
| OnionRouting.OnionRouteBuilder.DrawOne | src/network/onion-routing.js:187-196 | the inner loop finds where the scan stops |
| OnionRouting.OnionRouteBuilder.SelectRelays | src/network/onion-routing.js:172-200 | the nested loops compute the selection, or the error with both counts |
| OnionRouting.OnionRouteBuilder.PutOnLayers | src/network/onion-routing.js:213-244 | the loop from exit to entry builds the nest of layers |
| OnionRouting.OnionRouteBuilder.BuildRoute | src/network/onion-routing.js:209-256 | packet, entry node and route of the selected relays |
| OnionRouting.OnionRouter.constructor | src/network/onion-routing.js:263-268 | a router holds its peer id, its key and no circuits |
| OnionRouting.OnionRouter.ProcessPacket | src/network/onion-routing.js:278-319 | the outcome of a packet, and the circuit recorded if and only if the layer opened |
| OnionRouting.OnionRouter.CleanupCircuits | src/network/onion-routing.js:324-333 | the loop drops exactly the circuits older than ten minutes |
| BatchQueue.RunInOrder | src/network/connection-pool.js:436-485 | the queue is always sorted and within its size, and per priority what came in is what was taken out followed by what is queued, in that order |
| BatchQueue.AcceptsExactly | src/network/connection-pool.js:436-452 | after any run a message is accepted, queued with all others and counted if and only if fewer than maxQueueSize are queued; otherwise nothing changes |
| BatchQueue.FillsUp | src/network/connection-pool.js:436-452 | of messages enqueued from the start the first maxQueueSize are accepted and the others refused |
| BatchQueue.ClearExactly | src/network/connection-pool.js:501-503 | clearing takes every queued message out for good and touches neither those in flight nor flag nor timer |
| BatchQueue.NoHandlerNoDelivery | src/network/connection-pool.js:475-477 | without a handler nothing is ever delivered |
| BatchQueue.OptionsOrDefaults | src/network/connection-pool.js:421-429 | a queue of a thousand and batches of ten, unless given |
| BatchQueue.BatchIsLeast | src/network/connection-pool.js:473-473 | a batch is the front of the queue and holds its least elements |
| BatchQueue.HealthyUntilFailure | src/network/connection-pool.js:457-485 | a non-empty queue has one and only one timer or running batch if and only if no handler has thrown; afterwards it has none |
| BatchQueue.NothingAfterFailure | src/network/connection-pool.js:475-484 | after a handler has thrown nothing is delivered in any continuation |
| BatchQueue.NothingLost | src/network/connection-pool.js:436-485 | with a handler that never throws and no clearing, enqueued is delivered, in flight and queued, first come first served per priority |
| BatchQueue.BatchesIsCeiling | src/network/connection-pool.js:473-481 | the number of batches is the length divided by the batch size, rounded up |
| BatchQueue.Drains | src/network/connection-pool.js:467-485 | with nothing new enqueued the queue is delivered in its order and is empty after that many batches and not before |
| MessageQueue.MessageQueue.constructor | src/network/connection-pool.js:421-429 | options left out or zero take their defaults, the batch interval's included, and nothing is queued or under way |
| MessageQueue.MessageQueue.EnqueueItem | src/network/connection-pool.js:436-452 | accepted if and only if fewer than maxQueueSize are queued; then sorted in among the others, with a timer set unless processing is under way; otherwise nothing changes |
| MessageQueue.MessageQueue.ScheduleBatchProcess | src/network/connection-pool.js:457-462 | a timer is set and the flag raised, unless it is up already |
| MessageQueue.MessageQueue.ProcessBatch | src/network/connection-pool.js:467-477 | the state when the handler is called, or when the queue was empty |
| MessageQueue.MessageQueue.BatchHandled | api/src/network/connection-pool.service.ts:462-470 | the state after the handler returns: another timer, or the flag lowered |
| MessageQueue.MessageQueue.HandlerThrew | src/network/connection-pool.js:475-477 | the state after the handler throws: the batch is gone, the flag stays up and no timer is set |
| MessageQueue.MessageQueue.ContinueProcessing | src/network/connection-pool.js:480-484 | another timer while messages are left, otherwise the flag is lowered |
| MessageQueue.MessageQueue.ClearQueue | src/network/connection-pool.js:501-503 | the queue is emptied and the flag kept |
| OrderedTable.UnderPut | src/storage/dht-storage.js:247-250 | writing a key of a prefix writes into that prefix's region of the scan, any other key leaves it alone |
| MessageStore.RegionsApart | src/storage/dht-storage.js:39-41 | a key of one inbox, sent box or mark box lies in the region of another if and only if they are the same box |
| MessageStore.ScanMixesRecipients | src/storage/dht-storage.js:247-256 | a scan can show another recipient's entries if and only if one name with a colon begins with the other |
| MessageStore.ReadsAgree | src/storage/dht-storage.js:245-276 | after any operations, scan and lookup of the flat table give what the box's own table gives, although that one never forgets |
| MessageStore.ScanIsExact | api/src/storage/dht-storage.service.ts:251-287 | the scan returns a record if and only if some id was last written with it, not deleted, and is unexpired; in timestamp order |
| MessageStore.ScanHasDistinctIds | src/storage/dht-storage.js:245-259 | in every reachable state a scan returns no id twice |
| MessageStore.StoredForSevenDays | src/storage/dht-storage.js:107-119 | a stored message is found with its own text, recipient, times and proof for exactly seven days |
| MessageStore.ReplicatedUntilExpiry | src/storage/dht-storage.js:223-238 | a replicated record is found as it was handed in, with the proof added and counted, until it expires, and always if it has no expiry time |
| MessageStore.DeletedIsGone | src/storage/dht-storage.js:283-291 | a deleted message is not found, whether it was there or not |
| MessageStore.MarksAreExact | api/src/storage/dht-storage.service.ts:315-360 | a message counts as read, by lookup and by scan, if and only if it was marked before |
| MessageStore.CleanupsAreInvisible | src/storage/dht-storage.js:331-350 | runs that differ only in their cleanups answer every read alike |
| MessageStore.CleanupDeletesTheDead | api/src/storage/dht-storage.service.ts:393-410 | the two phases leave exactly the unexpired entries |
| MessageStore.CleanupLeavesTheLiving | src/storage/dht-storage.js:331-350 | right after a cleanup the table holds no expired entry and every other one as before |
| MessageStore.RefreshBetweenPhasesIsLost | src/storage/dht-storage.js:334-343 | a record stored between the phases is gone after them if and only if its key was among the expired ones that the first phase collected |
| MessageStore.CleanupInterleaved | src/storage/dht-storage.js:331-350 | whatever operations run between the phases, afterwards exactly the keys found expired are gone and every other key reads as the operations left it |
| NetworkMerge.MergeChoosesBest | src/storage/dht-storage.js:491-519 | the merge of any lists holds one record per id: of all copies the first with the most proofs, the last local one counting for the local list |
| NetworkMerge.FetchChoosesBest | src/storage/dht-storage.js:491-519 | on every reachable store: of the stored record and the answers the first with the most proofs, one per id |
| NetworkMerge.AnswersInOrder | src/storage/dht-storage.js:497-512 | the answers count in the order in which the nodes were asked, and a node that failed adds nothing |
| DhtStorage.DHTMessageStorage.StoreMessage | src/storage/dht-storage.js:195-217 | the new record and the table with it |
| DhtStorage.DHTMessageStorage.StoreExisting | src/storage/dht-storage.js:223-238 | the table with the replicated record, and the record returned with its added proof |
| DhtStorage.DHTMessageStorage.ListMessages | src/storage/dht-storage.js:245-259 | the loop over the whole database computes the scan |
| DhtStorage.DHTMessageStorage.FindMessage | src/storage/dht-storage.js:267-276 | an expired or missing record is not found |
| DhtStorage.DHTMessageStorage.DeleteMessage | src/storage/dht-storage.js:283-291 | the table without the key, whether it was there or not |
| DhtStorage.DHTMessageStorage.MarkAsRead | api/src/storage/dht-storage.service.ts:315-322 | the mark is written under its own prefix of the same key space |
| DhtStorage.DHTMessageStorage.ReadMessageIds | api/src/storage/dht-storage.service.ts:344-360 | the loop collects the ids marked for one address |
| DhtStorage.DHTMessageStorage.CollectExpired | src/storage/dht-storage.js:332-339 | the first phase collects exactly the keys of the expired entries |
| DhtStorage.DHTMessageStorage.DeleteKeys | src/storage/dht-storage.js:341-343 | the second phase deletes the collected keys one by one |
| DhtStorage.DHTMessageStorage.CleanupExpired | src/storage/dht-storage.js:331-350 | only unexpired entries are left, and the number deleted |
| DhtStorage.DHTMessageStorage.FetchFromNetwork | src/storage/dht-storage.js:491-519 | local records first, then each node's answer, with failed nodes passed over |
| ProofOfWork.MaskIsBound | src/network/rate-limiter.js:453-458 | a byte passes the mask of its highest bits if and only if it is below the power of two |
| ProofOfWork.NumberBelow | src/crypto/pow.js:56-60 | a hash is below a power of two if and only if its leading bits are zero |
| ProofOfWork.TestsAgree | src/network/rate-limiter.js:443-460 | the two tests agree for every hash and every difficulty, except exactly for the hash of zeros at 257 to 263 |
| ProofOfWork.FirstAccepted | src/crypto/pow.js:23-42 | the counting loop returns the least accepted nonce within its limit, or none |
| ProofOfWork.ComputeProofOfWork | src/crypto/pow.js:19-43 | the search ends within two to the fortieth and returns the least nonce for which the hash of message hash, colon and nonce is below the target, or none when there is none |
| ProofOfWork.InputBinds | src/crypto/pow.js:24-24 | for message hashes without a colon the hashed texts are equal if and only if message hash and nonce are |
| ProofOfWork.ChallengeBinds | src/network/rate-limiter.js:439-439 | for challenges and nonces without a colon the hashed texts are equal if and only if challenge, sender and nonce are |
| ProofOfWork.ColonInNonceUnbinds | src/network/rate-limiter.js:439-439 | with a colon in the nonce one text serves two senders |
| ProofOfWork.VerifyProofOfWork | src/crypto/pow.js:52-61 | verification accepts if and only if the hash of message hash, colon and nonce begins with as many zero bits as the difficulty says; always at zero or less, never above 256 |
| ProofOfWork.BelowTargetIsZeroBits | src/crypto/pow.js:56-60 | the comparison with the target is the test of the leading bits, for every hash and every difficulty up to 256 |
| ProofOfWork.DifficultyEases | src/network/rate-limiter.js:404-409 | reputation never makes the work harder and at most halves the base |
| ProofOfWork.DifficultyExactly | src/network/rate-limiter.js:404-409 | the difficulty is the least number of bits that is at least eight and not below the base less half the reputation's share of it |
| ProofOfWork.CheckLeadingZeros | src/network/rate-limiter.js:447-458 | the loop with early exits decides the leading zero bits |
| ProofOfWork.VerifyProof | src/network/rate-limiter.js:432-461 | expiry first, then the work on challenge, sender and nonce at the base difficulty or eight bits; up to 256 the answer is the numeric test's |

## Left out

- What replayed or altered messages do to later deliveries: they are refused (AlteredIsRefused, ReplayIsRefused), but a refused message has changed the state before it was authenticated (StateIgnoresContent), and runs that contain such messages are not part of the model.
- Break-in recovery of the ratchet, and the inside of X25519, HKDF, ChaCha20-Poly1305 and SHA-256.
- RatchetTheorems.OutOfOrder: assumes that generated key pairs are different from each other and from the pre-key.
- The token's allowances, approvals and events, ownership transfer, and calls to other contracts.
- Staking.AlwaysSolvent: callers are accounts other than the zero address and the contract itself.
- SlidingWindow.EveryWindowBounded: does not extend to a bare `record`, which admits without a check, nor across a `reset`, which forgets on purpose; PruningIsInvisible, PermittedExactly, RetryIsExact and RateIsExact cover both.
- Reputation scores that are not numbers, and rounding of floating-point scores: scores are exact.
- Reputation.EverySenderBounded: the clock and the calendar day do not run backwards.
- Scores of relays that are not numbers, and rounding in the selection: draws and scores are exact.
- The transport between routers: a packet handed on arrives at the named peer, or from the exit at the node that serves the address.
- What an observer can learn from timing, sizes or several captured packets: only who can open a layer is stated (Onion.OthersFail).
- The text of a layer: writing and parsing JSON are parameters that undo each other.
- Priorities that are not numbers, and queue entries' own contents.
- MessageStore.ReadsAgree: each operation on the store is atomic; RefreshBetweenPhasesIsLost shows what an interleaved cleanup can do.
- Records with an empty id, which are given a random one when they are read; storage proofs' signatures and their verification; usage statistics of the store.
- Finding nodes for an address, replication to peers, and all input and output of the storage service.
- Connection scoring and the pool of connections, relay latency, the registry contract, usernames, sessions, the gateway and the user interface: mostly updates of one map at a time.
- Challenge generation and the estimate of solving time in proof of work.
- A floating-point difficulty: difficulties are integers.
