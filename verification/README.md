# gotron: a verified model

This project models the parts of the gotron Tron client where mistakes are expensive, and proves
what they are for:

- **The health-aware, tiered load balancer** (`pkg/client/health.go`). `NodeHealth` is one node's
  streaks and flag, `TierGrouping` and `Selection` are the grouping and the cyclic sweep with its
  64-bit counter, `HealthTransport` is the object as a single thread sees it. `HealthProtocol` is
  the same code interleaved: callers and one probe loop per node, each step one lock-protected or
  atomic action, the recompute scanning node by node under `publishMu` while other threads go on.
  `HealthSafety` proves the invariants of every step, `HealthRuns` and `HealthSelection` what
  follows for every run, `HealthStaleDelay` a run that shows where the wake-up ends.
- **Exact money and resource arithmetic** (`estimate_transfer.go`, `converter.go`, `units.go`):
  `Decimals`, `Sun`, `StakeConverter`, `TransferPricing`, `TokenAmounts`. Decimals are reals;
  `Div` rounds to 16 places, half away from zero; int64 wraps where the code lets it.
- **Permissions** (`account_permissions.go`): `Permissions` has the 32-byte bitmap and the
  overflow-guarded validator, `PermissionChecks` building, accepting, storing and using a permission.
- **Codecs**: `Numerals`, `Hex`, `Addresses`, `Base58Check`, `Trc20`, `Base64`, and the translation of Tron's JSON
  to protobuf JSON in `TronJson`, `TronJsonMeaning` and `TronBlocks`.

Code that changes state or loops is imperative here too (classes, arrays, loops) and is proved
against functions or predicates; the theorems are about those. Hash functions, address decoding
where only its result matters, and UTF-8 validity are parameters, so every statement holds for all of them.

`Wrappers` (Option, Result) and `Modular` (facts about division) are shared helpers.

## Where the code does less than it says

Each of these is proved, with the exact condition.

- **Block ids over HTTP.** `transformBlockJSON` and `transformBlockListJSON` hand every direct text
  field of a block to the transform under no name, so `blockID` stays hex and is then read as Base64:
  64 hex digits become 48 bytes instead of 32 (`TronBlocks.BlockIdIsMisread`, `TronBlocks.IdReadTwice`).
- **Inside an Any** the transform does not rename `blockID` and `txID`, and a field called `@type`
  overwrites the type (`TronJsonMeaning.LostName`).
- **Map order.** With two spellings of one field in an object that leave different images, the order of
  iteration decides which survives (`TronJson.OrderIsInvisibleIff`); otherwise faithful trees keep their
  meaning exactly when the two spellings say the same (`TronJsonMeaning.MeaningPreservedIff`).
- **Stake round trip.** Above a total weight of 2·10¹⁰ TRX the 16 decimal places of the division no longer
  tell stakes one SUN apart (`StakeConverter.StakeRoundTripIff`).
- **Counter wrap.** `startIdx+i` wraps at 2^64; a sweep that crosses it skips a node of every
  tier whose size does not divide 2^64 (`Selection.SweepCoversIff`, `Selection.WrapHidesHealthyNode`).
- **Tier −1.** The sentinel for "none healthy" is ambiguous exactly when a node is configured with
  tier −1, which nothing rejects (`TierGrouping.SentinelIsUnambiguousIff`).
- **Stale probe delay.** Loops are woken on a tier shift only; a flip that leaves the tier active
  leaves the loop asleep with the old delay (`HealthStaleDelay.StaleDelayIsReachable`,
  `HealthRuns.SleepingDelayIsCurrentIff`).
- **Fee total.** `Total` adds saturated int64 values with wrap-around; it is the true fee exactly when
  that fits int64, and can be negative (`TransferPricing.FeeIsExactIff`, `TransferPricing.OverflowingFeeIsNegative`).
- **Owner's share.** Division rounds before the floor, so a total a hair below an integer can give the
  owner more than the whole call; never for the integer totals the node reports
  (`TransferPricing.ShareExceedsTotalIff`, `TransferPricing.WholeShare`).
- **Empty TRC20 text.** The ABI encoding of the empty string is refused (`Trc20.AbiStringParses`).
- **balanceOf** keeps the 0x41 byte in its word, so the word is never the ABI one (`Trc20.BalanceOfWordIsNotAbi`).

## Model

| member | source | states |
|---|---|---|
| NodeHealth.WithDefaults | pkg/client/health.go:151-157 | positive thresholds are kept, others become the default, so a threshold is never below 1 |
| NodeHealth.NodeState.MarkSuccess | pkg/client/health.go:221-237 | the node's new state is the fold step for a success; a transition is reported exactly when the flag turns healthy |
| NodeHealth.NodeState.MarkFailure | pkg/client/health.go:239-255 | the same for a network failure; a transition exactly when the flag turns unhealthy |
| NodeHealth.NodeState.RecordOutcome | pkg/client/health.go:208-219 | a logical error changes nothing; other outcomes step the node, and a transition is exactly a change of the flag |
| NodeHealth.NodeState.Notify | pkg/client/health.go:282-287 | a non-blocking send on a size-1 channel leaves a token in it |
| NodeHealth.ReplayIgnoresLogicalErrors | pkg/client/health.go:208-219 | a history and the same history without its logical errors leave a node in the same state |
| NodeHealth.InsertedLogicalErrorChangesNothing | pkg/client/health.go:208-219 | inserting a logical error anywhere in a history changes nothing |
| NodeHealth.HealthyFlagIsHistory | pkg/client/health.go:208-255 | the flag equals a declarative verdict on the history: unhealthy iff a failure run reached its threshold with no success run reaching its own since |
| NodeHealth.StreaksAreTrailingRuns | pkg/client/health.go:221-255 | the two counters are the lengths of the trailing runs, so at most one is nonzero |
| NodeHealth.FlappingLedger | pkg/client/health.go:221-255 | amortised invariant: failures and successes pay for evictions, recoveries and the streak still open; a resting streak is below its threshold |
| NodeHealth.FlappingIsPaidFor | pkg/client/health.go:221-255 | evictions × FailureThreshold ≤ failures, recoveries × SuccessThreshold ≤ successes, evictions − recoveries is 0 when healthy and 1 when not |
| TierGrouping.GroupByTier | pkg/client/health.go:114-126 | keys strictly increasing, exactly the tiers in use, each group the tier's nodes in node order |
| TierGrouping.GroupingIsPartition | pkg/client/health.go:114-126 | every node stands in exactly one group, the group of its tier, and no group is empty |
| TierGrouping.ActiveTierIsUnique | pkg/client/health.go:257-276 | "lowest tier with a healthy node, or −1" determines one value |
| TierGrouping.SentinelIsUnambiguousIff | pkg/client/health.go:58-61 | −1 means "none healthy" in every state iff no node is configured with tier −1 |
| Selection.RoundRobinTransport.Next | pkg/client/transport_roundrobin.go:26-29 | the transport at the old counter modulo the size, and the counter one further, modulo 2^64 |
| Selection.SweepCoversIff | pkg/client/health.go:189-194 | n consecutive visits reach every index iff the counter does not wrap inside the sweep or n divides 2^64 |
| Selection.WrapHidesHealthyNode | pkg/client/health.go:189-194 | three nodes, only the last healthy, counter at 2^64−1: the sweep finds none |
| Selection.LoadDistribution | pkg/client/health.go:189-199 | over any n consecutive visits none of which skips a node, across the wrap too, a healthy node is picked exactly 1 + (unhealthy nodes right before it, cyclically) times, an unhealthy one never |
| Selection.NoneSkipsWhen | pkg/client/health.go:189-194 | no visit of a round skips if the round ends before the wrap or the size divides 2^64 |
| Selection.SelectIsLowestHealthyTier | pkg/client/health.go:187-203 | with health fixed and no wrap, the pick is a healthy node of the lowest tier that has one, and none iff none is healthy |
| Selection.OneHealthyTierIsRoundRobin | pkg/client/transport_roundrobin.go:26-29 | with one all-healthy tier, k picks of the balancer are the k picks of the round-robin transport, for every k and counter |
| HealthTransport.NewHealthAwareTransport | pkg/client/health.go:79-146 | refused exactly for an empty node list; otherwise all nodes fresh, tiers grouped, counters zero, and the published tier and gauges true of that state |
| HealthTransport.HealthAwareTransport.Next | pkg/client/health.go:187-203 | node and counters afterwards are those of the specification function `Select` on the current flags |
| HealthTransport.HealthAwareTransport.SweepTier | pkg/client/health.go:189-199 | one counter advanced; the first healthy index of the cyclic sweep, or none |
| HealthTransport.HealthAwareTransport.OnStateChange | pkg/client/health.go:257-290 | published tier and gauges are true afterwards; all nodes notified iff the tier shifted, otherwise no token changes |
| HealthTransport.HealthAwareTransport.ScanActiveTier | pkg/client/health.go:262-273 | the scan's result is the lowest tier holding a healthy node, or −1 |
| HealthTransport.HealthAwareTransport.PublishPoolMetrics | pkg/client/health.go:301-315 | with a collector, the gauges become (total, healthy, total − healthy) of the flags |
| HealthTransport.HealthAwareTransport.RecordOutcome | pkg/client/health.go:208-219 | one node steps, the others keep their state, and the published state stays true |
| HealthTransport.HealthAwareTransport.IntervalFor | pkg/client/health.go:385-396 | with the published tier true: healthy delay iff the node is healthy and no healthy node is in a lower tier, idle-tier delay iff it is healthy and one is, unhealthy delay iff it is not healthy |
| HealthTransport.CountHealthyIsCardinality | pkg/client/health.go:301-315 | the counted gauge is the size of the set of healthy nodes |
| HealthTransport.NextServesActiveTier | pkg/client/health.go:187-203 | with no counter about to skip, `next` serves a healthy node of the active tier and fails only when none is healthy |
| HealthSafety.InitInv | pkg/client/health.go:114-146 | the constructor's state satisfies the invariant of the protocol |
| HealthSafety.NextInv | pkg/client/health.go:187-396 | every step of every thread, in any interleaving, keeps the invariant: scan progress, published state, wake-ups, histories and call conservation |
| HealthRuns.PublishedStateIsTrue | pkg/client/health.go:257-315 | in every reachable state where no thread is between a flip and the end of its recompute, the active tier and the gauges are those of the true health |
| HealthRuns.WakeupIsNeverLost | pkg/client/health.go:278-289 | whenever a loop's delay came from another tier value than the current one, its channel holds a token or the lock holder has yet to reach it |
| HealthRuns.SleepingLoopKnowsActiveTier | pkg/client/health.go:322-343 | at rest, a sleeping loop of a healthy node with no token has read the true active tier |
| HealthRuns.SleepingDelayIsCurrentIff | pkg/client/health.go:322-396 | at rest, a sleeping loop's delay is the one it would compute now iff it read the flag the node has now |
| HealthRuns.NodeFlagIsItsHistory | pkg/client/health.go:208-255 | in every reachable state each flag is the verdict on the outcomes recorded for that node |
| HealthRuns.LedgerCountsEvents | pkg/client/health.go:187-203 | the protocol's ledger counts the events of the run: calls started, served by each tier, failed |
| HealthRuns.CallsAddUp | pkg/client/health.go:187-203 | calls started = calls that reached tier 0; each tier's counter is, modulo 2^64, the calls it served, those still in it and all that went past it |
| HealthSelection.ReturnedNodeWasHealthy | pkg/client/health.go:187-203 | a node returned by `next` was healthy at the instant it was chosen, under any interleaving |
| HealthSelection.BetterNodesWereUnhealthy | pkg/client/health.go:187-203 | unless a sweep this call gave up skipped a node at the wrap, every node of every lower tier was unhealthy at some instant of the same call, and every node at all if the call failed |
| HealthStaleDelay.StaleDelayIsReachable | pkg/client/health.go:278-289 | a run ends at rest with an unhealthy node whose loop sleeps with a healthy node's delay and no token |
| Sun.CeilToSUNIsNeverShort | pkg/units/units.go:38-55 | never short below the top of int64, less than one SUN over, saturating, monotone |
| Sun.TrxRoundTrip | pkg/units/units.go:72-100 | TRX and FromTRX undo each other, and FromTRX accepts for each SUN value only its own TRX figure |
| Sun.FromTRXRejectsIff | pkg/units/units.go:65-87 | an amount is refused iff no int64 number of SUN equals it |
| Sun.PriceIsNeverShort | pkg/units/units.go:193-211 | the price of energy or bandwidth is at least the exact product and less than one SUN over |
| StakeConverter.ResourceRoundTrip | pkg/client/converter.go:12-56 | staking for an amount e yields E' with e − L·10⁻¹⁶ ≤ E' < e + L/(10⁶·W) + L·10⁻¹⁶ |
| StakeConverter.StakeRoundTripIff | pkg/client/converter.go:12-56 | the other way round: every stake comes back as itself or one SUN more iff the total weight is at most 2·10¹⁰ TRX |
| StakeConverter.OneSunIsLost | pkg/client/converter.go:12-56 | above that weight a stake of one SUN yields nothing and comes back as nothing |
| StakeConverter.StakeRoundTripBound | pkg/client/converter.go:12-56 | for any weight, a stake comes back within 5·10⁻¹¹·weight, plus one SUN |
| StakeConverter.YieldIsMonotone | pkg/client/converter.go:12-18 | more stake never yields less |
| StakeConverter.StakeIsMonotone | pkg/client/converter.go:23-32 | more energy never needs less stake |
| TransferPricing.PriceTransfer | pkg/client/estimate_transfer.go:433-479 | charges and fee are the specified ones, and bandwidth and account creation are never charged together |
| TransferPricing.EnergySplitsThreeWaysIff | pkg/client/estimate_transfer.go:37-45 | energy = owner's part + sender's staked part + billed part iff the owner's part does not exceed it |
| TransferPricing.Trc20EnergySplitsThreeWays | pkg/client/estimate_transfer.go:328-363 | the three-way split holds for every TRC20 estimate the node's integer figures give |
| TransferPricing.OwnerPaysWithinBounds | pkg/client/estimate_transfer.go:167-195 | the owner's share is between 0 and the energy, and never above its available energy or the origin limit |
| TransferPricing.WholeShare | pkg/client/estimate_transfer.go:180-194 | on integer totals the rounded decimal division is integer division by 100, capped |
| TransferPricing.ShareExceedsTotalIff | pkg/client/estimate_transfer.go:180-194 | the share exceeds the total iff the owner pays 100%, its limit allows it and the total is within 5·10⁻¹⁷ below an integer |
| TransferPricing.FeeIsExactIff | pkg/client/estimate_transfer.go:94-97 | the int64 fee equals the unbounded sum of the rounded-up charges iff that sum fits int64 |
| TransferPricing.OverflowingFeeIsNegative | pkg/client/estimate_transfer.go:94-97 | one unit of energy at the highest fee and one byte at fee 1: the total is the most negative int64 |
| TransferPricing.FeeIsNeverShort | pkg/client/estimate_transfer.go:433-479 | the fee covers the exact price of the billed energy and of the bandwidth or the flat creation fees, and exceeds it by less than two SUN |
| TransferPricing.BandwidthBillCoversShortfall | pkg/client/estimate_transfer.go:126-134 | the bill is all or nothing and at least what both pools together leave uncovered |
| TransferPricing.MoreResourcesNeverCostMore | pkg/client/estimate_transfer.go:433-479 | the fee never rises when any of the sender's pools grows |
| TransferPricing.MoreUsageNeverCostsLess | pkg/client/estimate_transfer.go:433-479 | the fee never falls when bandwidth or energy grows and the owner pays no more |
| TransferPricing.MoreCallEnergyNeverCostsLess | pkg/client/estimate_transfer.go:328-363 | the fee never falls when the call's total energy grows, through the floored split |
| TransferPricing.RicherOwnerNeverCostsMore | pkg/client/estimate_transfer.go:328-363 | the fee never rises when the owner's energy or origin limit grows |
| Permissions.ContractOperations | pkg/client/account_permissions.go:63-72 | accepted iff every type is registered; the 32 bytes then have exactly the bits of the set |
| Permissions.BitmapAllowsExactly | pkg/client/account_permissions.go:75-113 | an active permission built from T allows a type iff it is in T |
| Permissions.CheckKeys | pkg/client/account_permissions.go:324-361 | the running int64 total never overflows and is the mathematical sum, iff keys are well formed, distinct, positive and the sum fits |
| Permissions.ValidatePermission | pkg/client/account_permissions.go:313-376 | accepts iff the declarative predicate holds: type, id, parent, threshold, keys, exact sum in int64 and at least the threshold, operations length |
| PermissionChecks.VerdictIgnoresKeyOrder | pkg/client/account_permissions.go:313-376 | permuting the keys never changes the verdict |
| PermissionChecks.NewPermission | pkg/client/account_permissions.go:132-157 | a permission that is built is valid and has the given keys in order; a bad address is reported iff some key's address does not decode |
| PermissionChecks.ValidatePermissionUpdate | pkg/client/account_permissions.go:293-311 | accepts iff owner, optional witness and one to eight actives are all valid for their kind |
| PermissionChecks.GetAccountPermission | pkg/client/account_permissions.go:159-189 | the stored permission of that id, the implied owner permission of an account without one, or the exact error |
| PermissionChecks.ValidatePermissionSigner | pkg/client/account_permissions.go:209-255 | succeeds iff the signer alone reaches the threshold and every required type is allowed; otherwise the error is the one for the first thing wrong: id, signer, missing permission, unusable permission, denial |
| PermissionChecks.GrantIsWhatTheSignerMay | pkg/client/account_permissions.go:63-255 | end to end: for the i-th active of an accepted update, stored with id 2+i, the signer check succeeds iff the signer's weight reaches the threshold and the required types are among the granted |
| PermissionChecks.AssignedIdsAreLegal | pkg/client/account_permissions.go:293-395 | the ids of an accepted update's actives are legal for transactions, distinct, and the actives are still valid with them |
| PermissionChecks.SetPermissionID | pkg/client/account_permissions.go:399-426 | on success all contracts carry the id; a refusal for the id, raw data, signatures or contracts touches none, and only a failing hash refuses after the ids are written |
| Base58Check.Base58RoundTrip | pkg/tronutils/base58.go:14-42 | Base58 with leading zeros: decoding an encoding gives the bytes, encoding a decoding the text |
| Base58Check.EncodeCheck | pkg/tronutils/base58.go:18-34 | the text of the bytes followed by the first four bytes of their double hash |
| Base58Check.DecodeCheckInvertsEncodeCheck | pkg/tronutils/base58.go:18-83 | DecodeCheck(s) = a iff a is a 21-byte address with prefix 0x41 and s is what EncodeCheck prints for it |
| Base58Check.AddressDecodeCheck | pkg/address/address.go:195-213 | the second decoder, comparing byte by byte, accepts iff the checksum matches, and drops it |
| Base58Check.Validate | pkg/address/address.go:161-181 | accepts exactly the strings DecodeCheck accepts |
| Hex.HexRoundTrip | pkg/tronutils/hexutils.go:107-115 | decoding the hex of some bytes gives them back |
| TokenAmounts.FromTokenUnitsIsUint256 | pkg/units/units.go:120-134 | accepted are exactly 0 ≤ v < 2^256, and the value is kept |
| TokenAmounts.TokenDecimalRoundTrip | pkg/units/units.go:144-170 | Decimal and FromTokenDecimal undo each other at every legal scale, and only that figure gives the amount |
| Trc20.TRC20Send | pkg/client/trc20.go:217-245 | accepted iff the arguments are, otherwise which error; the call's data are then the ABI bytes for receiver and amount |
| Trc20.TransferIsAbi | pkg/client/trc20.go:242-245 | the hex text for transfer decodes to the ABI encoding |
| Trc20.ApproveIsAbi | pkg/client/trc20.go:295-302 | the same for approve |
| Trc20.TransferFromIsAbi | pkg/client/trc20.go:256-269 | the same for transferFrom |
| Trc20.TransferDecodes | pkg/client/trc20.go:242-245 | 68 bytes: selector, 12 zeros, the 20 address bytes, the amount in 32 big-endian bytes |
| Trc20.TransferIsInjective | pkg/client/trc20.go:242-245 | equal calldata means equal receiver and amount |
| Trc20.EstimateSimulatesTheTransfer | pkg/client/estimate_transfer.go:287-289 | what the estimator packs through decimal text equals the calldata of the transfer |
| Trc20.DecimalTextRoundTrip | pkg/client/abi/abi.go:92-103 | the decimal text of a number parses back to it and is never taken for hex |
| Trc20.BalanceOfWordKeepsPrefix | pkg/client/trc20.go:196 | balanceOf's word is 11 zero bytes and all 21 address bytes |
| Trc20.BalanceOfWordIsNotAbi | pkg/client/trc20.go:196 | for no address is that word the ABI encoding of it |
| Trc20.WordParses | pkg/client/trc20.go:130-151 | every uint256 word parses back to its number, with and without 0x |
| Trc20.LengthGuardIsExact | pkg/client/trc20.go:158-172 | whatever the 256-bit length word says, the guard passes iff the text lies inside the data, and the uint64 end of the slice is then the true one |
| Trc20.AbiStringParses | pkg/client/trc20.go:153-188 | every ABI-encoded string but the empty one is recovered exactly; the empty one is refused |
| Trc20.Bytes32Parses | pkg/client/trc20.go:153-188 | every NUL-free valid UTF-8 name of 1 to 32 bytes in a padded word is recovered exactly |
| Base64.Base64RoundTrip | pkg/client/transport_http.go:124-130 | the Base64 text written for some bytes is read by protobuf JSON, which takes both alphabets, with or without padding, as those bytes |
| TronJson.TransformTronJSON | pkg/client/transport_http.go:57-105 | for every order of map iteration, the result is one the transform relation allows |
| TronJson.OrderIsInvisibleIff | pkg/client/transport_http.go:82-89 | all orders of map iteration write one tree iff, in every object, both spellings of a field leave the same image |
| TronJson.OtherResult | pkg/client/transport_http.go:82-89 | for any other tree, two different results |
| TronJson.NoClashIsOrderFree | pkg/client/transport_http.go:82-89 | in particular the order is invisible when no field is spelled twice |
| TronJson.ClashIsVisibleIff | pkg/client/transport_http.go:82-89 | with txID and txid in one object, the order is invisible iff they hold the same |
| TronJsonMeaning.TextPreservedIff | pkg/client/transport_http.go:98-103 | exactly when a text read as protobuf JSON after the conversion says what it said as Tron's, for any set of bytes fields |
| TronJsonMeaning.HexIsMisread | pkg/client/transport_http.go:98-103 | a nonempty hex text that is not converted is never read as the bytes it stands for |
| TronJsonMeaning.MeaningPreservedIff | pkg/client/transport_http.go:57-105 | for every tree: all its results read in protobuf JSON as it does in Tron's dialect iff it is faithful: texts keep their reading, two spellings of a field say the same, no field called @type, no Tron spelling inside an Any |
| TronJsonMeaning.FaithfulIsReadRight | pkg/client/transport_http.go:57-105 | every result of a faithful tree is read right |
| TronJsonMeaning.MisreadResult | pkg/client/transport_http.go:57-105 | any other tree has a result that is read wrong |
| TronJsonMeaning.LostName | pkg/client/transport_http.go:65-80 | an Any with a field called @type or in Tron's spelling is misread whatever the order |
| TronJsonMeaning.LostNames | pkg/client/transport_http.go:65-80 | a concrete value of each kind |
| TronBlocks.WrapTransactionExtention | pkg/client/transport_http.go:243-277 | transaction and id of the wrapped result |
| TronBlocks.ExtentionPreservedIff | pkg/client/transport_http.go:243-277 | every wrapped result reads as the plain transaction with its id beside it iff the transaction is faithful and its id, if any, a text that keeps its reading |
| TronBlocks.TransformBlockJSON | pkg/client/transport_http.go:211-240 | for every map order, a result the block relation allows |
| TronBlocks.BlockPreservedIff | pkg/client/transport_http.go:211-240 | every result for a block reads as it was meant iff its transactions are faithful, two spellings say the same and its direct texts keep their reading without conversion |
| TronBlocks.TransformBlockListJSON | pkg/client/transport_http.go:280-313 | for every map order, a result the list relation allows |
| TronBlocks.BlockListPreservedIff | pkg/client/transport_http.go:280-313 | the same for a list, whether a bare array or an object with a block field |
| TronBlocks.BlockIdIsMisread | pkg/client/transport_http.go:218-237 | for no block with a nonempty hex id is any result read as it was meant |
| TronBlocks.TextIsCopied | pkg/client/transport_http.go:218-237 | a text directly in a block is passed on as it is |
| TronBlocks.IdReadTwice | pkg/client/transport_http.go:218-237 | 64 hex digits are 32 bytes in Tron's reading and 48 bytes in protobuf JSON's |

## Left out

- The forwarding methods of the four transports, HTTP requests and responses, gRPC and metrics plumbing: all the same shape around `next` and `recordOutcome`.
- Real time, timers, contexts, logging and what a probe asks: a call or probe is an outcome (success, network failure, logical error), a delay a label.
- Liveness: that a woken loop, or a thread waiting for a lock, is eventually scheduled.
- Closing of already created transports when the constructor fails, `Close`, and the `Disabled` setting.
- NodeHealth.NodeState: the streak counters are unbounded; the code's int does not overflow in any realistic history.
- HealthSafety.NextInv: one step is one atomic or lock-protected action; Go's memory model below that is not modelled.
- HealthTransport.HealthAwareTransport.RecordOutcome: one thread; the interleaved form is `HealthProtocol`.
- StakeConverter.ResourceRoundTrip: assumes the stake fits int64; where it saturates (`Sun.CeilToSUNIsNeverShort`) the bound need not hold.
- Decimals are real numbers with the one rounding the code relies on (division at 16 places); exponents and representation of the decimal library are not modelled.
- Estimation as a whole (`EstimateTRXTransfer`, `EstimateTRC20Transfer`, `EstimateDeployContract`): the network calls around the arithmetic; their figures are parameters.
- PermissionChecks.GrantIsWhatTheSignerMay: that the chain stores the i-th active with id 2+i is taken from the code's comments, and `Stored` models it.
- PermissionChecks.NewPermission: the address decoder is a parameter; `Base58Check.DecodeCheck` is the one used.
- PermissionChecks.SetPermissionID: recomputing the transaction hash is a Boolean parameter.
- Base58Check: SHA-256 is any function from bytes to 32 bytes.
- Trc20.TRC20Send: decoding errors are one error, whichever address they come from.
- Trc20.ApproveIsAbi: calldata only; the argument checks of `TRC20Approve` (as `TRC20Send`, but a zero fee limit passes) and `TRC20TransferFrom` (the amount alone) are left out.
- Trc20.EstimateSimulatesTheTransfer: the JSON text that carries the two arguments, Keccak (the selectors are constants), and the general ABI packer; only address and uint256 are modelled.
- Trc20.Bytes32Parses: UTF-8 validity is a parameter.
- TronJsonMeaning.MeaningPreservedIff: which protobuf fields are bytes is a parameter; nested messages share one set of names, and unknown fields are read instead of discarded.
- TronJson.TransformTronJSON: starts from the decoded tree; the decoder has already rounded integers above 2^53 to float64.
- Key generation, mnemonics, signing, protobuf marshalling, staking, witness and plain transfer builders: argument checks around remote calls or library code.
