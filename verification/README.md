# Helix: verified models

Helix is an MEV-Boost relay. This project models the parts of it that hold state, transform bytes or
share memory between threads, and proves what each of them promises. `dafny verify dfyconfig.toml`
checks the whole of it.

The models, by component:

- **Shared collateral pool** (`Pools`, `PoolInvariant`, `PoolStates`, `PoolOrder`, `PoolClosedForm`,
  `PoolNews`, `PoolIndependence`, `PoolCollateral`, `PoolCapacity`, `PoolReplay`). Four kinds of gossip
  message build the pool state. Every run keeps the bindings, the dense indices and the per-slot
  reservations consistent. The status that a replica shows, which is bindings, promotions, reports,
  reservations and optimism, has a closed form: per report identity, the largest report no older than the
  newest promotion. For every list of messages, all orders of delivery show the same status exactly when
  the list is orderly (`Orderly`), which has four parts. No two member sets place a key in different
  pools. There is room for every pool that needs it: at most 256 pools, or no promotion or report that
  names one. Each pool's reports settle: with fewer than 1024 identities, no superseded report is worth as
  much as the current ones of its identity; with exactly 1024, the reports of an identity are all
  superseded or all current and of one value; with more, none is current. And a promotion or report for a
  key that belongs to another pool is made void by a promotion that is not of such a key. The amount a pool
  has available depends on the order as well, because a contribution that arrives before its pool has
  members is refused: over all orders a replica shows the same exactly when, besides, no positive
  contribution counts for a pool with members; over the orders that deliver members first, exactly when,
  besides, the newest contributions of one group to one pool carry one amount. Replaying one replica's
  state to another has the effect of the messages themselves on the status, and delivers the replaying
  group's own contributions.
- **Operator loop and derived view** (`LocalCaches`, `OperatorLoop`, `OperatorReads`). After every step of
  every run the view that admission reads is the pool state. At every moment of every run, between any two
  insertions, a reader that has looked up a key's pool in one shared map finds a view of that very pool in
  the other, however many updates fall between its two looks. What it computes from the two is true of no
  state between them exactly when its pool was promoted meanwhile, its key was unreported at the first
  look, and was reported whenever the pool was promoted since.
- **Batched Merkleization** (`Merkle`, `MerkleBatch`, `PayloadRoots`). Hashing many trees level by level
  in two buffers computes the recursive `hash_tree_root` of the "Merkleization" section of the Ethereum
  consensus specification `ssz/simple-serialize.md`, for any binary hash, without leaving the buffers.
- **Hydration cache** (`Hydration`, `HydrationCaches`, `HydrationRoundTrip`, `HydrationV1`,
  `HydrationHistory`, `HydrationObject`). Hydrating undoes dehydrating in both wire shapes, after every
  run in which the builder sent in full what it now sends by key and nothing else under those keys; the
  precheck is enough for hydration and stays true until the caches are cleared; hydrating fills the cache
  as feeding does.
- **Batch BLS verification** (`Bls`, `BlsDraws`, `BlsVerdicts`, with `Counting`). In the exponent model,
  at most 2 of every 2^64 choices of one weight make a bad batch pass, so at most a 2^-63 part of all
  draws gives a wrong verdict. A verdict is wrong exactly when a batch passes with an invalid entry in it.
- **SSZ containers and Gloas byte views** (`Ssz`, `Gloas`, `GloasLayout`, `GloasTransactions`,
  `GloasEnvelope`, `GloasBid`). The accepted byte strings are exactly the SSZ encodings of their
  sections, and what the relay publishes reads back to those sections exactly when its offsets fit four
  bytes.
- **Wire transformations** (`MergeOrders`, `MergeMeaning`, `MergeRefs`, `Decoder`, `SimulatorRequest`).
  Compacting merge orders keeps their meaning, for every list, exactly when bundles are contiguous, a full
  list of reverting positions covers its bundle, and no order past the first 65536 needs codes; the early
  look at a submission finds the trace that decoding finds, except exactly for one kind of body; the
  borrowed request encoders write the owned requests' SSZ.
- **Queues and counters** (`Credit`, `CreditSafety`, `QueueSizing`, `S3Records`, `S3Store`, `S3Inv`,
  `S3Runs`, `S3Retries`, `S3Objects`, `DropCounter`). No interleaving, down to single bytes, lets the
  server overwrite what the engine has not copied; every record pushed to S3 is accounted for, and an
  upload waiting for a retry is never given up to make room for another; no dropped submission is counted
  twice.

Hashes, cache keys, curve operations, point decoding and request ids are function parameters, so the
results hold for all of them; where keys must not collide, the statement says so. The clock, the random
number generator and the network's answers are parameters of the operation that uses them. Concurrent
code is a step relation, and its results are about every state of every run.

## Where code and comments differ

- Retry bodies: a comment says that past the byte limit the oldest retry is shed first
  (`crates/data-gatherer/src/s3.rs:32-33`); the code refuses the newest (`s3.rs:215-225`). No waiting
  upload is ever shed (`S3Retries.RequeueNeverSheds`, `S3Retries.NeverShed`), and `S3Retries.OldestStay`
  gives runs in which the oldest stay and the newest are lost.
- Retry delays: a comment gives the first retry half a second (`crates/data-gatherer/src/s3.rs:30-31`);
  the code counts the send before it fails, so the first retry after a send waits one second and only an
  upload refused unsent waits half of one (`s3.rs:199-226`, `S3Retries.RunBacksOff`;
  `S3Retries.FirstRetryWaitsASecond` gives such runs).
- Pool reports: comments and tests describe the state as independent of arrival order
  (`crates/operator/src/pool.rs:18-20`, `462-520`). With two timestamps for one identity the status is
  not (`PoolIndependence.TwoTimestampsDisagree`); collateral that arrives before its pool has members is
  refused and the available amount differs (`PoolCollateral.CollateralBeforeMembers`); a full pool refuses
  a larger value for an identity it holds (`PoolCapacity.FullPoolDisagrees`); past 256 pools a promotion
  or report is refused that would have shown (`PoolCapacity.PoolTooManyDisagrees`); and so is one for a key
  that a member set has placed elsewhere by then (`PoolIndependence.StrayShows`).
  `PoolIndependence.StatusIndependence`, `PoolCollateral.OrderIndependence` and
  `PoolCollateral.LedOrderIndependence` give the exact conditions.
- Reading the view: insertions are ordered so that no reader sees a binding without its pool
  (`crates/common/src/local_cache.rs:269-270`). The two lookups of a reader are not one, so it can be told
  that a key is optimistic which is so in no state (`OperatorReads.LateLookMisleads`);
  `OperatorReads.ReaderIsMisledExactly` gives the exact condition.
- Merge orders: `ALL_REVERT` is chosen by counting positions (`crates/types/src/block_merging.rs:259`),
  which a repeated position satisfies without covering the bundle
  (`MergeMeaning.RepeatedPositionWidens`); codes are filed under a 16-bit order index
  (`block_merging.rs:272`), so those of order 65536 are read as those of order 0
  (`MergeMeaning.FirstOrderChanges`).
- Early look: for a plain append-only body whose slot is 2^35 + 8 the look points eight bytes past the
  trace (`crates/common/src/decoder.rs:387-391`, `Decoder.LargeSlotIsMisread`).
- Queue sizing: a configuration is accepted with any positive capacity
  (`crates/builder/src/config.rs:138-140`), but with 16 slots or fewer no block ever leaves the control
  headroom free (`QueueSizing.NoBlockEver`).

## Model

| member | source | states |
|---|---|---|
| Pools.RaiseIsSlotMax | crates/operator/src/pool.rs:98-105 | raising a slot by one more report gives the per-slot maxima of the larger report set |
| Pools.SlotMaxExact | crates/operator/src/pool.rs:98-105 | the computed maxima are, for each slot, the largest retained value, and there is an entry exactly for slots with a report |
| Pools.SlotMaxUnique | crates/operator/src/pool.rs:98-105 | any map with that property is the computed one, so iteration order does not matter |
| PoolInvariant.BindAllInto | crates/operator/src/pool.rs:160-185 | once the set has no conflict, binding it binds every key to the pool and nothing else, so the error path inside the second loop is never taken |
| PoolInvariant.MembershipKeeps | crates/operator/src/pool.rs:160-185 | a membership message keeps the state invariant |
| PoolInvariant.PromotionKeeps | crates/operator/src/pool.rs:226-252 | a promotion keeps the state invariant: only reports no older than it stay, and reservations are recomputed |
| PoolInvariant.DemotionKeeps | crates/operator/src/pool.rs:256-282 | a demotion report keeps the state invariant, the report bound included |
| PoolInvariant.ApplyKeeps | crates/operator/src/pool.rs:160-282 | every message keeps: bindings equal member lists, indices dense and distinct, slot maxima exact, reports no older than the promotion, at most 1024 reports |
| PoolInvariant.RunKeeps | crates/operator/src/pool.rs:126-282 | the invariant holds after every list of messages |
| PoolInvariant.RejectedChangesNothing | crates/operator/src/pool.rs:160-282 | an error leaves the whole state as it was |
| PoolInvariant.UnchangedKeepsView | crates/operator/src/pool.rs:160-282 | a message that reports no change may move only the member set's timestamp, or create a pool that holds nothing yet; no binding and no pool's contents change |
| PoolInvariant.ReservationsFit | crates/operator/src/pool.rs:98-105 | the reserved amount is the sum of the per-slot maxima and is below 2^138, so the 256-bit sum is exact |
| PoolStates.FirstConflictAt | crates/operator/src/pool.rs:160-185 | the conflict named in the error is the first key of the set bound elsewhere |
| PoolStates.RecomputeReservations | crates/operator/src/pool.rs:98-105 | the loop over reports computes the per-slot maxima and their sum, in any iteration order |
| PoolStates.KeepLarger | crates/operator/src/pool.rs:84-96 | of two reports with one identity the larger value stays, the first of two equal ones; every other identity is untouched, and exact reservations stay exact |
| PoolStates.PoolState.constructor | crates/operator/src/pool.rs:127-130 | the state starts empty |
| PoolStates.PoolState.Bind | crates/operator/src/pool.rs:140-155 | afterwards the key is bound, to the named pool exactly when no conflict is reported; no key changes pool; bindings and member lists keep matching |
| PoolStates.PoolState.BindKeys | crates/operator/src/pool.rs:170-184 | binds a conflict-free set and says whether any key was new |
| PoolStates.PoolState.ApplyMembership | crates/operator/src/pool.rs:160-185 | the object after the call is the specified step, error included |
| PoolStates.PoolState.ApplyCollateral | crates/operator/src/pool.rs:199-223 | refused exactly when the pool has no members; otherwise the group's one contribution to the pool is no older than this one; other groups, other pools and everything but collateral stay, and the invariant holds |
| PoolStates.PoolState.ApplyPromotion | crates/operator/src/pool.rs:226-252 | the object after the call is the specified step |
| PoolStates.PoolState.ApplyDemotion | crates/operator/src/pool.rs:256-282 | the object after the call is the specified step |
| PoolOrder.NotRefused | crates/operator/src/pool.rs:160-282 | where member sets agree and there is room for every pool that needs it, no member set is refused, and a promotion or report is refused only for a key that belongs to another pool, leaving the state as it was |
| PoolOrder.BoundSlices | crates/operator/src/pool.rs:140-155 | binding touches no pool's promotion, reports or member-set timestamp |
| PoolOrder.StepProjects | crates/operator/src/pool.rs:160-282 | each message that is not refused for its key acts on its own pool's slice and on the bindings as specified, and on no other pool |
| PoolOrder.RunBinds | crates/operator/src/pool.rs:140-185 | where member sets agree, a run binds exactly their keys, each to its pool, also where there is no room for pools |
| PoolOrder.RunTakes | crates/operator/src/pool.rs:126-282 | where member sets agree and there is room, each pool's slice after a run, the bound on reports included, is that of running per pool a list that misses nothing but promotions and reports for keys that belong elsewhere |
| PoolOrder.RunProjects | crates/operator/src/pool.rs:126-282 | where no message is for such a key, a run's bindings and each pool's slice are those of running the messages per pool |
| PoolClosedForm.PromotionIsNewest | crates/operator/src/pool.rs:226-252 | after any run the promotion is the one with the newest timestamp |
| PoolClosedForm.MemberSetIsNewest | crates/operator/src/pool.rs:160-185 | after any run the member-set timestamp is the newest sent |
| PoolClosedForm.KeptIsReported | crates/operator/src/pool.rs:256-282 | every retained report was sent, and is no older than the promotion |
| PoolClosedForm.RunIsSound | crates/operator/src/pool.rs:226-282 | a run never keeps a report that it was not sent or that the newest promotion supersedes |
| PoolClosedForm.BestIsKept | crates/operator/src/pool.rs:84-96 | where a pool's reports settle, the best surviving report of an identity, once delivered, is never lost to another or to the bound |
| PoolClosedForm.RunReachesClosedForm | crates/operator/src/pool.rs:226-282 | where a pool's reports settle, its state after every run is the closed form: per identity, the largest report no older than the newest promotion |
| PoolClosedForm.SlicesAreStatus | crates/operator/src/pool.rs:286-316 | equal bindings, promotion timestamps and reports give equal reservations and optimistic status |
| PoolClosedForm.FirstHoldsOut | crates/operator/src/pool.rs:256-282 | with at least 1024 identities there is for every report an order in which no other report of its identity is kept |
| PoolClosedForm.CrowdedOut | crates/operator/src/pool.rs:256-282 | with more than 1024 identities there is for every identity an order in which it is not kept |
| PoolClosedForm.UnsettledOrders | crates/operator/src/pool.rs:256-282 | if some pool's reports do not settle, two orders of the same messages keep an identity in one of them, and in the other not or at another value |
| PoolNews.AsMuchClosedForm | crates/operator/src/pool.rs:226-282 | lists that say as much about a pool, which is the same newest promotion and the same best report per identity, have the same closed form of it |
| PoolIndependence.EveryOrderReaches | crates/operator/src/pool.rs:126-282 | after every order of orderly messages each pool's promotion timestamp, reports and member-set timestamp are those of running all the messages per pool, whichever of the void ones the order takes |
| PoolIndependence.StatusAgrees | crates/operator/src/pool.rs:126-316 | two replicas that received the same messages, orderly ones, in any order and with any repetition, show the same status |
| PoolIndependence.CrowdedShows | crates/operator/src/pool.rs:226-282 | with more pools than there is room for, a pool's promotions and reports show in an order that has them first and do not in one that has them last |
| PoolIndependence.FirstPlaces | crates/operator/src/pool.rs:140-185 | of member sets that place one key in different pools, the one that comes first decides |
| PoolIndependence.StrayShows | crates/operator/src/pool.rs:226-282 | a promotion or report for a key that belongs to another pool, if no other promotion makes it void, shows in an order that has it before the member sets and not in one that has it after |
| PoolIndependence.StatusDisagrees | crates/operator/src/pool.rs:84-105 | if the messages are not orderly, two orders of them, both with all contributions last, show a different status |
| PoolIndependence.StatusIndependence | crates/operator/src/pool.rs:126-316 | for every list of messages, all orders show the same status if and only if member sets agree, there is room for every pool that needs it, every pool's reports settle, below, at and past the bound of 1024, and what is said for keys that belong elsewhere is void |
| PoolIndependence.OneTimestampSettles | crates/operator/src/pool.rs:25 | one timestamp per report identity, and fewer than 1024 identities, are enough for reports to settle |
| PoolIndependence.TwoTimestampsDisagree | crates/operator/src/pool.rs:84-93 | two reports of one identity at 100 and 200 around a promotion at 150 make the order matter |
| PoolCollateral.PeopledHasMembers | crates/operator/src/pool.rs:160-185 | where member sets agree, a replica's pool has members exactly when some message gave it one |
| PoolCollateral.BackRunIs | crates/operator/src/pool.rs:199-223 | where member sets agree, after any run a group's contribution to a pool is the newest of those that arrived after a member, the first of equally new ones |
| PoolCollateral.OrderIndependence | crates/operator/src/pool.rs:199-223 | for every list of messages, all orders show the same status, gross and available amounts if and only if the messages are orderly and no positive contribution of a counted group goes to a pool that is given members |
| PoolCollateral.CollateralBeforeMembers | crates/operator/src/pool.rs:199-208 | a contribution of 10 and the pool's member set: available is 0 in one order and 10 in the other |
| PoolCollateral.LedOrderIndependence | crates/operator/src/pool.rs:199-223 | for every list of messages, all orders in which contributions follow a member set of their pool show the same if and only if the messages are orderly and the newest contributions of one counted group to one pool carry one amount |
| PoolCapacity.FullPoolDisagrees | crates/operator/src/pool.rs:256-282 | with 1024 identities held, a larger value for one of them is kept if it came first and refused if it comes last |
| PoolCapacity.FullPoolExists | crates/operator/src/pool.rs:256-282 | such reports exist: one for each of 1024 slots, and a larger value for the first |
| PoolCapacity.PoolTooManyDisagrees | crates/operator/src/pool.rs:226-282 | where 256 other pools are named, a promotion or report of one more shows if it came first and does not if it comes last |
| PoolCapacity.PoolTooManyExists | crates/operator/src/pool.rs:226-252 | such messages exist: promotions of 257 pools |
| PoolReplay.ReplayConverges | crates/operator/src/pool.rs:354-379 | for orderly messages, none for a key that belongs elsewhere, applying another replica's replay, in any order of it, shows the same status as applying that replica's messages |
| PoolReplay.ReplayDeliversCollateral | crates/operator/src/pool.rs:354-379 | where member sets agree, the replaying group's own collateral arrives with its timestamp, unless one as new is already there |
| PoolReplay.Replay | crates/operator/src/pool.rs:354-379 | the replay lists every member set, local contribution, promotion and report, sections in that order |
| LocalCaches.StatusIsPoolState | crates/common/src/local_cache.rs:359-367 | when in sync, a status exists exactly for bound keys and carries the pool's available amount and the key's optimistic status |
| LocalCaches.UpdateSyncs | crates/common/src/local_cache.rs:271-282 | writing all views then all bindings brings any older cache in sync |
| LocalCaches.SyncNeedsIndices | crates/common/src/local_cache.rs:359-367 | a cache can only be in sync if pools that have keys have different indices |
| LocalCaches.UpdateKeepsOwned | crates/common/src/local_cache.rs:267-282 | after every insertion of an update each view sits under its own pool's index, and each binding has a view and refers to its own key's pool |
| LocalCaches.InfoIsPoolState | crates/common/src/local_cache.rs:231-257 | the builder information handed to admission has the pool's available amount and the key's optimistic status, zero and false for an unbound key, and is otherwise as configured |
| LocalCaches.LocalCache.UpdatePoolState | crates/common/src/local_cache.rs:271-282 | writes views first, then bindings, and removes nothing |
| LocalCaches.LocalCache.Resolve | crates/common/src/local_cache.rs:359-367 | the answer is that of whatever pool state the maps are in sync with: pool, available amount and optimism of a bound key, nothing for another |
| LocalCaches.LocalCache.GetBuilderInfo | crates/common/src/local_cache.rs:231-257 | a configured builder's information is the configured one, with collateral and optimism of whatever pool state the maps are in sync with where that is authoritative |
| OperatorLoop.StepKeepsSync | crates/operator/src/pubsub.rs:162-303 | a local or received message keeps the view in sync, also when the update is skipped |
| OperatorLoop.RunStaysSound | crates/operator/src/pubsub.rs:160-316 | every state of every run with at most 2^32 pools is sound and in sync |
| OperatorLoop.ApplyExtends | crates/operator/src/pool.rs:140-282 | no message moves a key to another pool, renumbers a pool or removes one |
| OperatorLoop.ViewFollowsPool | crates/operator/src/pubsub.rs:160-316 | in Follow and Share, after every step, a status is present exactly for bound keys and is what the pool state says |
| OperatorReads.RunHasWrites | crates/common/src/local_cache.rs:271-282 | every run is a list of single insertions per step, so what is proved of the moments between them is proved of all runs |
| OperatorReads.NeverDangling | crates/common/src/local_cache.rs:267-282 | at every moment of every run no binding is without its view, and each refers to its own key's pool |
| OperatorReads.ReaderFindsView | crates/common/src/local_cache.rs:231-257 | a reader that looks up a binding at one moment of a run and its view at any later one, in the same update or another, finds the view of the key's own pool |
| OperatorReads.ReadsAreOf | crates/common/src/local_cache.rs:359-367 | over every run and any two moments, the binding read is that of the state before or after the step of the first look, the view that of the state before or after the step of the second, and no older |
| OperatorReads.ReaderIsMisledExactly | crates/common/src/local_cache.rs:359-367 | what the reader is told is true of no state between its looks if and only if its pool is promoted in the last, its key is unreported in the first, and the key is reported in every one in which the pool is promoted; a no is true of the first state or the last, and a yes of the first where the pool was promoted in it |
| OperatorReads.ReaderIsToldEither | crates/common/src/local_cache.rs:359-367 | a reader whose two looks fall in one step of a run is told the optimism of the state before or after that step |
| OperatorReads.LateLookMisleads | crates/common/src/local_cache.rs:359-367 | a member set, a report of its key and a promotion no newer make a run in which the key is optimistic in no state, while a reader that looks before the report and after the promotion is told that it is |
| OperatorLoop.AvailableOf | crates/operator/src/pool.rs:286-305 | the loop over contributions computes gross less reservations, never below zero |
| OperatorLoop.PoolRecords | crates/operator/src/pool.rs:319-328 | lists the view of every pool and nothing else |
| OperatorLoop.KeyRecords | crates/operator/src/pool.rs:331-337 | lists the binding of every bound key and nothing else |
| OperatorLoop.Operator.Refresh | crates/operator/src/pubsub.rs:183-185 | writes an update of the current state to the shared cache |
| OperatorLoop.Operator.DeliverEvent | crates/operator/src/pubsub.rs:261-303 | applies a message under its resolved group, or ignores one without |
| OperatorLoop.Operator.OnEvent | crates/operator/src/pubsub.rs:162-303 | one turn of the loop is one step of the relation |
| Merkle.LayerRoot | crates/types/src/execution_payload.rs:271-295 | hashing one layer of pairs keeps the root |
| Merkle.UpRoot | crates/types/src/execution_payload.rs:271-295 | hashing one layer of a padded tree, with the next zero hash as padding, keeps the root |
| Merkle.CountIsDivCeil | crates/types/src/execution_payload.rs:271-295 | the nodes left at a level are the leaves divided by its width, rounded up |
| Merkle.EmptyRoot | crates/types/src/execution_payload.rs:141-170 | a tree without leaves has the zero hash of its depth as its root |
| MerkleBatch.FlatLayer | crates/types/src/execution_payload.rs:271-295 | hashing all padded trees in one pass hashes each of them |
| MerkleBatch.LevelsShrink | crates/types/src/execution_payload.rs:271-295 | each level takes no more room than the one below, so the buffers suffice |
| MerkleBatch.UpKeepsRoots | crates/types/src/execution_payload.rs:271-295 | one level up keeps the roots of all trees |
| MerkleBatch.HashConcatMany | crates/types/src/execution_payload.rs:271-295 | writes the hash of each pair, and nothing past them |
| MerkleBatch.Compact | crates/types/src/execution_payload.rs:271-295 | copies each tree's nodes with its padding behind the previous tree's, within the buffer |
| MerkleBatch.MerkleizeTrees | crates/types/src/execution_payload.rs:271-295 | leaves the root of every tree in the node buffer |
| PayloadRoots.HashTransactions | crates/types/src/execution_payload.rs:141-170 | leaves every transaction's own root, length mixed in |
| PayloadRoots.TransactionRoot | crates/types/src/execution_payload.rs:141-170 | equals the recursive root of the list of byte lists |
| PayloadRoots.HashWithdrawals | crates/types/src/execution_payload.rs:241-264 | leaves every withdrawal's root |
| PayloadRoots.WithdrawalsRootOf | crates/types/src/execution_payload.rs:241-264 | equals the recursive root of a list of at most 16 withdrawals |
| HydrationCaches.HydrateFeeds | crates/types/src/hydration.rs:542-611 | on every outcome, hydrating leaves the cache that feeding the consumed part of the submission leaves |
| HydrationCaches.HydrateIsFeed | crates/types/src/hydration.rs:659-685 | with a ref for every full transaction and refs within the limit, that is feeding the submission itself |
| HydrationCaches.CanHydrateSucceeds | crates/types/src/hydration.rs:509-653 | a submission that passes the precheck hydrates without error or panic, with one transaction per ref, 128 proofs per blob, and a cache hit for each ref that takes no full transaction |
| HydrationCaches.RunKeepsSound | crates/types/src/hydration.rs:553-611 | after every run each cached transaction, blob and withdrawals list sits under its own key, blobs with all their proofs and withdrawals with their own root |
| HydrationCaches.PrecheckHolds | crates/types/src/hydration.rs:726-802 | once the precheck is true it stays true, and hydration succeeds, after any submissions of any builders, until a clear |
| HydrationCaches.RootIsHydrated | crates/types/src/hydration.rs:751-761 | the root looked up early is the root of the withdrawals hydrated later |
| HydrationRoundTrip.HydrateRoundTrip | crates/types/src/hydration.rs:542-653 | whatever was sent by known key, a successful hydrate gives the block's transactions, withdrawals and blobs in order |
| HydrationRoundTrip.DehydratedHydrates | crates/types/src/hydration.rs:509-653 | a dehydrated block within the limits passes the precheck and does hydrate to the block |
| HydrationV1.FromV1 | crates/types/src/hydration.rs:218-252 | the one-pass conversion computes refs and full transactions as specified |
| HydrationV1.KeyIn | crates/types/src/hydration.rs:228-229 | eight bytes are read as a little-endian key, losing nothing |
| HydrationV1.UpgradeIsFaithful | crates/types/src/hydration.rs:218-252 | the conversion reads what the builder meant if and only if no full transaction is eight bytes long |
| HydrationV1.V1RoundTrip | crates/types/src/hydration.rs:218-252 | the first wire shape round-trips |
| HydrationV1.EightBytesAreReplaced | crates/types/src/hydration.rs:228-229 | a full transaction that spells a cached key is replaced by the cached transaction |
| HydrationHistory.KnownAfterRun | crates/types/src/hydration.rs:542-685 | from an empty cache, after every run without a clear: what the builder sent in full, and nothing else of its under that key, is found under its key |
| HydrationHistory.RunRoundTrip | crates/types/src/hydration.rs:509-653 | after such a run the builder's dehydrated block passes the precheck and hydrates to the block |
| HydrationHistory.RunRoundTripV1 | crates/types/src/hydration.rs:218-252 | the same for the first wire shape |
| HydrationObject.HydrateTxs | crates/types/src/hydration.rs:567-593 | the loop over transaction refs computes the specified run, last error included |
| HydrationObject.CacheNewItems | crates/types/src/hydration.rs:597-611 | caches the complete new blobs and records the last incomplete one |
| HydrationObject.BuildSidecar | crates/types/src/hydration.rs:621-640 | collects blobs in ref order and stops at the first unknown one |
| HydrationObject.HydrateInner | crates/types/src/hydration.rs:542-653 | cache and outcome are the specified ones |
| HydrationObject.FeedInner | crates/types/src/hydration.rs:659-685 | the cache is the specified one |
| HydrationObject.HydrationCache.CanHydrate | crates/types/src/hydration.rs:726-747 | answers the precheck for the builder's cache, and a yes means hydration succeeds |
| HydrationObject.HydrationCache.WithdrawalsRoot | crates/types/src/hydration.rs:751-761 | a root that is returned is that of the withdrawals the submission would hydrate to; where a keyed submission has none, it would not hydrate |
| HydrationObject.HydrationCache.Hydrate | crates/types/src/hydration.rs:764-781 | changes only the builder's cache, as specified, and keeps every cache sound |
| HydrationObject.HydrationCache.Feed | crates/types/src/hydration.rs:785-796 | changes only the builder's cache, as specified, and keeps every cache sound |
| HydrationObject.HydrationCache.Clear | crates/types/src/hydration.rs:798-802 | empties every cache and keeps the builders |
| Bls.PrimeDivides | crates/types/src/gloas.rs:329-338 | a prime order larger than one factor of a product it divides, divides the other factor |
| Bls.ValidPasses | crates/types/src/gloas.rs:333-338 | a batch of valid items passes for every draw |
| Bls.OneInvalidFails | crates/types/src/gloas.rs:333-338 | a batch with exactly one invalid item passes for no draw |
| Bls.SameWeight | crates/types/src/gloas.rs:399-401 | with the other weights fixed, two accepting outputs for an invalid item are equal or are zero and one |
| BlsDraws.CountDraws | crates/types/src/gloas.rs:329-331 | there are m^n sequences of n outputs |
| BlsDraws.FewDrawsAccept | crates/types/src/gloas.rs:329-331 | with an invalid item at most 2 m^(n-1) of them accept |
| BlsVerdicts.AllValidMatch | crates/types/src/gloas.rs:373-420 | without an invalid item the verdicts are those of single verification |
| BlsVerdicts.OneInvalidMatch | crates/types/src/gloas.rs:373-420 | with one invalid item the verdicts are those of single verification, for every draw |
| BlsVerdicts.WrongIsRare | crates/types/src/gloas.rs:329-331 | for every batch, the draws with a wrong verdict are at most a 2^-63 part of all |
| BlsVerdicts.OutputsBelow | crates/types/src/gloas.rs:399-401 | the 2^64 outputs of the generator are a set as the counts need it |
| BlsVerdicts.WrongExactly | crates/types/src/gloas.rs:373-420 | the verdicts differ from single verification if and only if a check over several entries passes with an invalid one among them |
| BlsVerdicts.TwoInvalidCanPass | crates/types/src/gloas.rs:329-331 | two invalid entries with opposite defects and equal weights are both accepted, and singly both refused |
| BlsVerdicts.BatchIsOne | crates/types/src/gloas.rs:395-410 | the product of pairings is one exactly when the weighted defects sum to a multiple of the order |
| BlsVerdicts.VerifyEach | crates/types/src/gloas.rs:411-418 | replaces each admitted verdict by that of single verification |
| BlsVerdicts.BlsBatch.Push | crates/types/src/gloas.rs:361-365 | appends one entry |
| BlsVerdicts.BlsBatch.Admit | crates/types/src/gloas.rs:374-394 | collects the points of entries that decode with a finite key and marks exactly those |
| BlsVerdicts.BlsBatch.Verify | crates/types/src/gloas.rs:373-420 | the verdicts are the specified ones, and the result says whether a multi-item check was rejected |
| Ssz.DeserializeSerialize | crates/types/src/gloas.rs:52-81 | a serialized container is read back field by field if and only if every offset fits four bytes |
| Ssz.SerializeDeserialize | crates/types/src/gloas.rs:52-81 | what is read serializes to the bytes it was read from |
| Gloas.FromSszBytes | crates/types/src/gloas.rs:52-81 | on acceptance the slices' bounds and both inner layouts hold |
| GloasLayout.AcceptedIsEncoding | crates/types/src/gloas.rs:52-106 | accepted bytes are the encoding of the sections the slices give, within every limit, with as many commitments and proof sets as blobs |
| GloasLayout.EncodingIsAccepted | crates/types/src/gloas.rs:495-545 | every encoding of sections within the limits is accepted, and its slices are those sections |
| GloasLayout.PayloadIsEncoding | crates/types/src/gloas.rs:495-512 | a payload that passes is the encoding of its parts |
| GloasLayout.BundleIsEncoding | crates/types/src/gloas.rs:533-545 | a bundle that passes is the encoding of its parts and their counts agree |
| GloasTransactions.AcceptedIsTxList | crates/types/src/gloas.rs:514-531 | a region that passes with a nonzero first offset is the encoding of the transactions between its offsets |
| GloasTransactions.TxListIsAccepted | crates/types/src/gloas.rs:514-531 | every encoding of a list within the limits passes and counts its transactions |
| GloasTransactions.ZeroOffsetIsAccepted | crates/types/src/gloas.rs:514-531 | a region with a zero first offset passes, counts none, and encodes no list |
| GloasTransactions.AcceptedExactly | crates/types/src/gloas.rs:514-531 | a region passes if and only if it encodes a list or starts with a zero offset |
| GloasTransactions.TxListIsUnique | crates/types/src/gloas.rs:193-196 | the region determines the transactions |
| GloasEnvelope.Envelope | crates/types/src/gloas.rs:254-271 | the appended buffer is the SSZ envelope of the submission's payload and requests |
| GloasEnvelope.Signed | crates/types/src/gloas.rs:427-433 | the appended buffer is the SSZ container of message and signature |
| GloasEnvelope.EnvelopeContents | crates/types/src/gloas.rs:273-285 | the appended buffer is the SSZ container of signed envelope, proofs and blobs |
| GloasEnvelope.ContentsReadBack | crates/types/src/gloas.rs:254-285 | reading the contents, the signed envelope and the envelope gives back the submission's own sections if and only if the last offset of the contents fits four bytes |
| GloasBid.UnsignedBid | crates/types/src/gloas.rs:234-252 | the appended buffer is the SSZ bid of the submission |
| GloasBid.SetBidBuilderIndex | crates/types/src/gloas.rs:447-449 | overwriting eight bytes changes the builder index of an encoded bid and no other field |
| GloasBid.BidReads | crates/types/src/gloas.rs:234-252 | a bid of any size reads back field by field |
| MergeOrders.PackCodes | crates/types/src/block_merging.rs:261-272 | the loop that ORs codes into the buffer computes the packed codes |
| MergeOrders.FromV1 | crates/types/src/block_merging.rs:231-283 | the loop over v1 orders computes the compact data |
| MergeMeaning.CodeAfterWrites | crates/types/src/block_merging.rs:263-271 | after all writes a transaction's two bits are what they were, plus the code if it was listed: no write touches another lane |
| MergeMeaning.PackedMeans | crates/types/src/block_merging.rs:188-207 | the packed codes say of each transaction exactly whether it may revert and whether it may be dropped |
| MergeMeaning.OrderMeaning | crates/types/src/block_merging.rs:236-274 | compacting an order keeps its meaning if and only if it is contiguous and a full reverting list covers it |
| MergeMeaning.DistinctCovers | crates/types/src/block_merging.rs:259-260 | as many distinct positions as there are cover all of them |
| MergeMeaning.WellFormedIsFaithful | crates/types/src/block_merging.rs:257-260 | a contiguous bundle with distinct positions in range is faithful |
| MergeMeaning.RepeatedPositionWidens | crates/types/src/block_merging.rs:259-260 | a repeated position turns a partly reverting bundle into an all-reverting one |
| MergeMeaning.CompactMeaning | crates/types/src/block_merging.rs:231-283 | for every list, the compact orders mean what the representable orders mean, in order, if and only if each is faithful and none past the first 65536 needs codes for a position of its bundle |
| MergeMeaning.CompactFits | crates/types/src/block_merging.rs:241-274 | every start, length, index and code buffer fits the width of its field |
| MergeMeaning.CodesFound | crates/types/src/block_merging.rs:272 | the codes found for one of the first 65536 orders are its own or, if it has none, those of a later order whose index has the same lower 16 bits |
| MergeMeaning.LateCodesAreLost | crates/types/src/block_merging.rs:272 | past 65536 orders the index of the codes wraps: the order loses them, and its meaning if they mattered |
| MergeMeaning.FirstOrderChanges | crates/types/src/block_merging.rs:272 | 65536 transactions and a bundle that may revert in part, all faithful: the first transaction is told it may revert |
| MergeRefs.ReadCodes | crates/relay/src/block_merging/mod.rs:76-86 | lists the positions of either code, or fails at a position with both |
| MergeRefs.OrderToRef | crates/relay/src/block_merging/mod.rs:51-96 | forwards an order exactly when it is well formed and inside the block |
| MergeRefs.RefMeaning | crates/relay/src/block_merging/mod.rs:63-93 | what is forwarded means what the compact order means |
| MergeRefs.OrdersReachBuilder | crates/relay/src/block_merging/tile.rs:892-899 | each kept v1 order that no later order's codes are filed under reaches the merge builder with its meaning exactly when the merge builder would take it |
| Decoder.LookPointsAtTrace | crates/common/src/decoder.rs:376-407 | for every flag combination and every body that decodes, the early offset is the trace's, except exactly for a body that looks wrapped, may be plain and does not decode as wrapped |
| Decoder.PeekIsDecoded | crates/common/src/decoder.rs:350-363 | for every other body the peeked slot and builder are the decoded ones |
| Decoder.SmallSlotIsRead | crates/common/src/decoder.rs:387-391 | below slot 2^32 there is no exception |
| Decoder.LargeSlotIsMisread | crates/common/src/decoder.rs:387-391 | every plain append-only submission for slot 2^35 + 8 decodes with its trace at the start, while the early offset is eight |
| Decoder.UnreadableIsMalformed | crates/common/src/decoder.rs:338-342 | a body without a readable slot decodes for no fork |
| Decoder.SubmissionDecoder.DecodeAt | crates/common/src/decoder.rs:327-344 | decodes with the fork of the submission's own slot |
| SimulatorRequest.AppendWith | crates/common/src/simulator.rs:259-273 | appends the fixed parts with a running offset, then the variable parts |
| SimulatorRequest.AppendRequest | crates/common/src/simulator.rs:284-296 | appends byte for byte the SSZ of the owned request, of the announced length |
| SimulatorRequest.AppendMerged | crates/common/src/simulator.rs:304-316 | appends byte for byte the SSZ of the owned merged request, whose last field is fixed, of the announced length |
| SimulatorRequest.RequestReads | crates/common/src/simulator.rs:215-223 | offsets recover every field if and only if the last one fits four bytes, and the submission is the end of the encoding |
| SimulatorRequest.MergedReads | crates/common/src/simulator.rs:229-238 | the same for the merged request |
| Credit.ReserveAdvances | crates/builder/src/spine.rs:82-86 | a payload advances the ring by at most its charge, the skip at the end included |
| CreditSafety.PayloadFitsRing | crates/builder/src/server/mod.rs:103-106 | a payload that passes the checks, made against older cursor values, fits beside all that was not copied |
| CreditSafety.PlaceIsApart | crates/builder/src/spine.rs:71-75 | the place reserved for a payload does not meet that of any event that waits |
| CreditSafety.WriteByteKeeps | crates/builder/src/spine.rs:71-75 | each byte written keeps the invariant, so it touches no payload that waits |
| CreditSafety.NextKeeps | crates/builder/src/server/mod.rs:74-108 | every atomic step of either side keeps the invariant |
| CreditSafety.RunIsSafe | crates/builder/src/spine.rs:71-86 | in every state of every interleaving of single bytes the queue holds what was not copied, what is read of the next event is its beginning, and the engine has received exactly what was published, in order |
| CreditSafety.NeverLost | crates/builder/src/merge/mod.rs:449-478 | the engine never finds its next slot or payload overwritten |
| QueueSizing.RingIsConfigured | crates/builder/src/main.rs:170-177 | for every configuration that validates, the ring is sized to exactly the configured bytes |
| QueueSizing.FrameFits | crates/builder/src/config.rs:141-148 | a body of any allowed length is charged no more than an empty ring holds, headroom included |
| QueueSizing.BlockFitsEmptyQueue | crates/builder/src/server/mod.rs:57-90 | an empty queue takes a block if and only if the capacity is over 16 |
| QueueSizing.NoBlockEver | crates/builder/src/config.rs:138-140 | with a capacity of 16 or less no state of the queue takes a block |
| S3Records.ParseEncode | crates/data-gatherer/src/s3.rs:38-60 | a batch body parses back to exactly its records |
| S3Inv.HeldIsOnly | crates/data-gatherer/src/s3.rs:171-225 | an upload taken out of the queue is the only one of its object |
| S3Inv.LaunchCounts | crates/data-gatherer/src/s3.rs:199-211 | sends are counted per object and stay within five |
| S3Inv.RequeueKeeps | crates/data-gatherer/src/s3.rs:213-226 | parking or giving up an upload keeps the conservation law and the byte cap |
| S3Inv.FinishKeeps | crates/data-gatherer/src/s3.rs:264-287 | retiring a request keeps the conservation law |
| S3Runs.DuePos | crates/data-gatherer/src/s3.rs:240 | the position found is the first that is due, and none is due when none is found |
| S3Runs.PumpGood | crates/data-gatherer/src/s3.rs:236-247 | sending due retries keeps the law and the limits, with fresh request ids |
| S3Runs.RunIsGood | crates/data-gatherer/src/s3.rs:139-295 | every run keeps the invariant |
| S3Runs.RunConserves | crates/data-gatherer/src/s3.rs:139-295 | records pushed are those acknowledged, counted lost, batched, in flight and waiting; retained bytes are exact and capped; no object is sent more than five times |
| S3Runs.ObjectInOnePlace | crates/data-gatherer/src/s3.rs:171-295 | each object is acknowledged, given up, in flight or waiting, exactly one of them |
| S3Runs.BodyParses | crates/data-gatherer/src/s3.rs:187-196 | a body on the wire parses back to exactly its object's records, all of one slot |
| S3Runs.UploadPlaces | crates/data-gatherer/src/s3.rs:171-185 | a record is pushed once, as the last of a batch or an object of its own slot, and no batch stays full |
| S3Runs.SendGood | crates/data-gatherer/src/s3.rs:199-211 | sending, or putting back what the network did not take, keeps the law and the limits |
| S3Retries.RequeueNeverSheds | crates/data-gatherer/src/s3.rs:215-226 | parking drops no older retry; the upload in hand is given up if and only if it was sent five times or does not fit the byte limit |
| S3Retries.PumpSendsOrKeeps | crates/data-gatherer/src/s3.rs:238-247 | after a pump each upload that waited still waits or was sent |
| S3Retries.ParkedUntilSent | crates/data-gatherer/src/s3.rs:139-295 | over every run a parked upload leaves the queue only by being sent |
| S3Retries.NeverShed | crates/data-gatherer/src/s3.rs:139-295 | over every run an upload that was parked and is counted lost was sent in between |
| S3Retries.RunBacksOff | crates/data-gatherer/src/s3.rs:213-226 | after every run each retry waits, from the operation that parked it, half a second doubled once for each send of its object, at most eight seconds |
| S3Retries.FirstRetryWaitsASecond | crates/data-gatherer/src/s3.rs:199-226 | an upload that was sent and failed waits one second from the failure |
| S3Retries.OldestStay | crates/data-gatherer/src/s3.rs:215-225 | of uploads that the network does not take, as many of the oldest stay as fit the byte limit, and the others are lost |
| S3Objects.S3Data.Push | crates/data-gatherer/src/s3.rs:48-60 | appends one framed record |
| S3Objects.S3Data.AddRecord | crates/data-gatherer/src/s3.rs:171-185 | the record is pushed once, as the last of a batch or an object of its own slot, no batch stays full, and the law and the limits hold |
| S3Objects.S3Data.Flush | crates/data-gatherer/src/s3.rs:187-196 | what was batched is one more object with its slot, nothing stays batched, and the law and the limits hold |
| S3Objects.S3Data.Pump | crates/data-gatherer/src/s3.rs:238-247 | the loop ends; each upload that waited still waits or was sent, and the law and the limits hold |
| S3Objects.S3Data.TakeOutcomes | crates/data-gatherer/src/s3.rs:264-287 | retires every finished request and reports whether one did not reach the server |
| S3Objects.S3Data.FollowEndpoint | crates/data-gatherer/src/s3.rs:154-158 | nothing stays in flight, and the law and the limits hold |
| S3Objects.S3Data.Drive | crates/data-gatherer/src/s3.rs:255-295 | pumps, retires and follows the endpoint, in that order, and keeps the law and the limits |
| S3Objects.S3Data.TakeFailures | crates/data-gatherer/src/s3.rs:162-164 | over all calls exactly the records of the objects given up are handed over |
| DropCounter.NextKeeps | crates/database/src/handle.rs:31-45 | every atomic access keeps the invariant |
| DropCounter.NothingIsLost | crates/database/src/handle.rs:29-45 | in every state of every interleaving the reported numbers and the counter sum to the calls, and there are no more reports than seconds won |
| DropCounter.SecondsDiffer | crates/database/src/handle.rs:36-43 | no second wins the log twice |

## Left out

- Identifiers: pool ids, groups, public keys and block hashes are opaque values compared for equality; their bytes are not modelled.
- PoolReplay.ReplayConverges: for orderly messages without ones for keys that belong elsewhere, since otherwise the order of the messages themselves, or whether the receiver refuses what is replayed, shows; and about the status, since a replay carries only the replaying group's contributions, which `PoolReplay.ReplayDeliversCollateral` covers.
- PoolReplay.ReplayDeliversCollateral: where member sets agree, since the receiver refuses a member set that does not, and with it what backs the pool.
- OperatorLoop.RunStaysSound: stated for states with at most 2^32 pools, because pool indices are 32 bits wide and the code does not handle their wrap; `LocalCaches.SyncNeedsIndices` says why it must.
- OperatorLoop.ViewFollowsPool: the same, and so for the members of `OperatorReads`.
- OperatorReads.ReaderIsToldEither: for two looks within one step; `OperatorReads.ReaderIsMisledExactly` is the statement for any two.
- Gross collateral is an unbounded sum; the 256-bit width of the summed contributions is not modelled.
- libp2p, gossip configuration, dialing, the payload cache, alerts and database calls around the operator loop.
- The publication of a pool's merged member set to peers, and the observation metrics.
- Elliptic-curve arithmetic, hash-to-curve, SHA-256, FxHash and KZG: function parameters or the exponent model.
- `silver_ssz` and `silver_crypto_simd` are not part of this model: payload field offsets follow the container's field order, and the canonical check of execution requests is any predicate.
- Flux queues and the payload ring beyond the advance rule documented at `crates/builder/src/spine.rs:82-83`.
- JSON bodies, decompression, metrics and latencies of the decoder, and how fields beyond the container layout decode.
- S3: the 32-bit width of record and failure counts, the wording of log lines, object keys beyond the number that makes them unique, and address lookup.
- HydrationHistory.RunRoundTrip: requires nonzero keys that do not collide, which the 64-bit hashes cannot promise.
- HydrationRoundTrip.HydrateRoundTrip: takes the contents of the cache as given; `HydrationHistory.KnownAfterRun` derives them from runs.
- HydrationRoundTrip.DehydratedHydrates: the same; `HydrationHistory.RunRoundTrip` is the statement over runs.
- HydrationV1.V1RoundTrip: the same; `HydrationHistory.RunRoundTripV1` is the statement over runs.
- Credit: memory ordering is sequential between single accesses; a load may return any older value of a cursor.
- Validation of traces against payloads, signing roots, and field-copy conversions between payload types.
- The merge engine, auctioneer, bid sorter, simulator manager, TCP tiles, HTTP handlers, payment contracts and multisend parsing.
