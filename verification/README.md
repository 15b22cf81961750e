# The council daemon, verified

A guardian of the Lido council runs this daemon. Every few seconds it asks the Keys API for the staking
modules and their unused keys at a block, reads every deposit the deposit contract ever logged, and looks
for an unused key that somebody has already deposited with foreign withdrawal credentials. Where there is
one it signs a pause; where there is none it signs that the module may deposit. This project models that
decision from the log of the chain to the message, and, on its own, the STOMP codec and connection that
carry the messages. To verify it, run `dafny verify dfyconfig.toml`.

The two systems and what is proved about them:

1. **The deposit index** (`Chain`, `Provider`, `Cache`, `Deposits`, `DepositIndex`, `DepositRuns`).
   `Chain.Scan` is the simple thing: one scan of the chain. `Provider` is the fetch that bisects and
   retries, `Cache` the memory cell over a file, `Deposits` the class that fills the lagging cache in chunks
   and merges it with a fresh tail. `DepositRuns` runs processes that start, initialise, update, read and
   stop at any await while the head moves and is reorganised above the settled block. In every reachable
   state a read exits, throws or is the scan, and it throws when a reorganised sibling with a non-empty block n
   answers.
2. **The guardian cycle** (`OneAtTime`, `StakingRouter`, `StakingModuleGuard`, `BlockGuard`,
   `GuardianTasks`, `GuardianSystem`). The daemon is one machine whose steps are the runs between two
   awaits: ticks, refreshes, collects, the interleaved tasks of the modules, tasks a failed cycle left
   behind, pause transactions, pings, restarts. In every honest run every verdict is the one a full scan and a
   fresh list of keys give, so no deposit is signed under attack. The order of the processed blocks and the
   lock hold whatever the environment answers. `VerdictCondition` gives the exact condition for the verdicts.
3. **One cycle, exactly** (`GuardianService`, `ModuleCheck`, `Interleaving`, `CycleInterleavings`). The service
   classes are proved to do what the steps of the module tasks say, what a check comes to is given exactly for
   all answers, and every interleaving of a cycle without failures agrees with the sequence.
4. **Signatures over runs** (`Resigning`, `SignedStates`, `GuardianCycle`, `FailedCycles`, `ReorgGap`). In every
   run the signatures of a module are counted against the states remembered for it: they add up, they are
   bounded where the blocks do not fall back, and runs written out step by step show what happens otherwise.
5. **STOMP** (`Text`, `StompFrame`, `StompClient`): the round trip of the codec on exactly the frames that
   survive it, at most one reconnecting chain in every interleaving, and its time bound, which is reached.

## How the code is read

- A block hash is collision free, so a block stands for its own hash, and what contracts and the Keys API
  answer at a hash is a function of the block. The BLS verdict is a field of the deposit.
- An async method is a sequence of steps between awaits. What a request is answered, or that it is rejected,
  is a parameter of the step; `Attempts`, `Chunk`, `Write`, `Reply` and `Replies` are such scripts, and every
  theorem holds for all of them. The deployment block, the options and the wallet address are parameters.
- A class keeps the fields the TypeScript class has. Its methods are proved against functions of the
  old state, and the theorems are about these functions. The `trail` of the cache service is the state at
  each await, that is, at each point where the process may stop.
- What the environment is trusted with is written in `DepositRuns.Honest` and `GuardianSystem.Honest`: blocks
  at or below a head minus 100 stay; the fresh logs come from the chain of the block asked for, or all from one
  view that logs something in that block or agrees with its chain on the fresh range; the Keys API lists modules
  with the nonces of its own block. Runs that keep to this are called honest. Cached keys must give the verdict of
  fresh ones: that is the premise `GuardianTasks.NonceDeterminesVerdicts`.

## Where the code does not do what it says

- `initialize` promises a validated cache and has an exit for a failed deletion
  (src/contracts/deposit/deposit.service.ts:49-54), but `deleteCacheFile` swallows a rejected `unlink`
  (src/cache/cache.service.ts:70-76), so that exit is never taken and the rejected cache is read again.
  `DepositIndex.InitializeValidates` gives the exact condition.
- The comparison of block hashes says nothing when the chain that answered logs nothing in the block of the
  cycle (src/contracts/deposit/deposit.service.ts:339-345). `DepositIndex.BlockHashCheck` says exactly when one
  view is accepted, `DepositIndex.ReadOfOneViewIff` exactly when the read is right;
  `DepositIndex.EmptySiblingIsAccepted` and `DepositIndex.HeadBelowIsAccepted` are inputs accepted wrongly.
- The key cache is compared by nonce only (src/staking-router/staking-router.service.ts:57-63). The rule that
  a nonce changes with the keys (src/keys-api/interfaces/SRModule.ts:2-5) is enough on one chain and not
  across a fork, where each branch counts to the same number. `StakingRouter.KeyCacheRefinesFetch` gives the
  exact condition for the cache, `VerdictCondition.RightIffNonceDeterminesVerdicts` the one for the verdicts, and
  `ReorgGap.SignedUnderAttack` is a run that signs a deposit under attack without it.
- The bound on re-signing holds of every stretch of clean visits exactly where the buckets of ten blocks do not
  fall from a visit to the next (`Resigning.BoundedIffAscending`). A failed cycle leaves the block guard behind,
  so that they can fall, and then a module is signed any number of times while nothing changes
  (`FailedCycles.NoBoundUnderFailures`).
- The state of a module is remembered before its deposit is signed
  (src/guardian/staking-module-guard/staking-module-guard.service.ts:226-238). A rejected signature is
  therefore not made up for while root, nonce and bucket stay: `Resigning.SignaturesFollowVisits` gives the
  exact condition, `FailedCycles.RejectedIsNeverSigned` a run that records the block of a clean module
  without ever having signed it.
- The printed `content-length` counts UTF-16 units, not octets as section "Header content-length" of STOMP
  1.1 asks, and a `content-length` the caller supplies is dropped with nothing in its place
  (src/transport/stomp/stomp.frame.ts:42-52). A header with a second `:` is cut there, and the key `__proto__`
  is lost. `StompFrame.RoundTrip` and `StompFrame.ContentLengthIsOctets` give the exact conditions.
- With `reconnectAttempts` of at most 1, a socket whose creation throws leaves `connectionPromise` set for
  ever: the catch block clears it before `reconnect` assigns it (src/transport/stomp/stomp.client.ts:192-217).
  `StompClient.SingleFlightReconnect` gives the exact condition.
- `waitWsConnection` looks at the clock before the socket, so a socket that opens during the sleep that
  crosses the timeout is given up (src/transport/stomp/stomp.client.ts:251-258).

## Model

| member | source | states |
|---|---|---|
| Chain.ScanSplit | src/contracts/deposit/deposit.service.ts:216-230 | Two scans of adjacent ranges are the scan of both: nothing is lost or doubled at the seam. |
| Chain.ScanAgrees | src/contracts/deposit/deposit.service.ts:216-230 | Up to a block every chain that holds it has the same log, so a hash fixes its history. |
| Chain.ScanMembers | src/contracts/deposit/deposit.service.ts:216-230 | The scan holds exactly the events of the blocks of its range. |
| Provider.BisectionPreservesMeaning | src/provider/provider.service.ts:78-122 | For every pattern of failures after which the call returns, with answers from any nodes that have a block in common at or above the range, the result is the one scan that block fixes: events, order and bounds. |
| Provider.BisectionIsOneFetch | src/provider/provider.service.ts:86-121 | Against one chain view the result is that of one direct fetch, also beyond the head and for the empty range. |
| Provider.BisectionKeepsOrder | src/provider/provider.service.ts:106-114 | Even when the nodes that answer disagree about the chain, events are inside the range and in block order. |
| Provider.SplitsExactly | src/provider/provider.service.ts:86-120 | A failure halves the range at its middle exactly if it has three blocks or more and the failure is a timeout, a server error, a missing response or one of the four limit codes; any other failure repeats the same range. |
| Provider.TooMuchIsPartitioned | src/provider/provider.service.ts:89-96 | The errors the code partitions on are exactly these. |
| Provider.Met | src/provider/provider.service.ts:98-114 | Against a node that serves ranges of two blocks and otherwise fails with an error of these classes, the recursion terminates, whatever else fails. |
| Provider.BisectionCost | src/provider/provider.service.ts:98-114 | For len >= 2 blocks at most 2 len / 3 answered requests and 4 len / 3 - 1 calls, and calls are always twice the answers less one. |
| Provider.BisectionDepth | src/provider/provider.service.ts:98-114 | A range of at most 2^(k+1) blocks recurses at most k deep. |
| Provider.CostBoundIsTight | src/provider/provider.service.ts:98-114 | A node that fails wherever it may reaches the bound, for 3, 6, 12, ... blocks. |
| Cache.CacheService.constructor | src/cache/cache.service.ts:12-20 | A new process has nothing in memory, over the file the last one left. |
| Cache.CacheService.GetCache | src/cache/cache.service.ts:22-28 | Memory wins; an empty memory is filled from the file, or with the default when the file is missing, unreadable or unparsable; the file stays. |
| Cache.CacheService.SetCache | src/cache/cache.service.ts:30-33 | Memory changes before the file, and a write that rejects half way leaves a file that does not parse: the states at every await. |
| Cache.CacheService.DeleteCache | src/cache/cache.service.ts:35-38 | Memory is cleared before the file, and a rejected unlink leaves the file with no error. |
| Cache.SetIsRead | src/cache/cache.service.ts:22-33 | Whatever becomes of the file, a value that was set is read from then on; what the file holds after each kind of write, and that a full write passes through a torn file. |
| Cache.RestartReads | src/cache/cache.service.ts:22-60 | A new process reads what the file holds, or the default if it is missing, unreadable or unparsable. |
| Cache.DeletedIsGone | src/cache/cache.service.ts:35-76 | After a delete nothing is in memory at any await, and the file goes second, unless the unlink was rejected. |
| Deposits.DepositService.GetCachedEvents | src/contracts/deposit/deposit.service.ts:161-170 | What is cached, with both bounds raised to the deployment block. |
| Deposits.DepositService.Initialize | src/contracts/deposit/deposit.service.ts:43-55 | The states at every await are those of `Initialized`, which keeps what `InitializeKeepsTheCurrent` says and deletes any other. |
| Deposits.DepositService.UpdateChunk | src/contracts/deposit/deposit.service.ts:253-271 | One round fetches at most 10,000 blocks, appends their events, moves the end and saves. |
| Deposits.DepositService.UpdateEventsCache | src/contracts/deposit/deposit.service.ts:236-287 | The loop leaves the ranges, the outcome and the states at every await that `Updated` gives, for every stop, failed save and script of fetches. |
| Deposits.DepositService.CheckEventsBlockHash | src/contracts/deposit/deposit.service.ts:334-346 | True exactly if every event of that block number carries that hash. |
| Deposits.DepositService.GetAllDepositedEvents | src/contracts/deposit/deposit.service.ts:292-328 | Exits when the cache is ahead, throws on a foreign hash, otherwise the cached events and then the fresh ones; the cache is only loaded. |
| DepositIndex.ChunkExact | src/contracts/deposit/deposit.service.ts:256-262 | A chunk on top of an exact prefix of the log is an exact prefix of the log. |
| DepositIndex.SavedSound | src/contracts/deposit/deposit.service.ts:175-182 | Saving an exact record keeps memory and file exact at every await of the save, also when it fails. |
| DepositIndex.ExtendedSound | src/contracts/deposit/deposit.service.ts:248-272 | Every state of the loop is sound, from any round on. |
| DepositIndex.UpdateIsCrashSafe | src/contracts/deposit/deposit.service.ts:236-272 | Wherever the update stops, memory holds nothing or the exact log of (deployment, endBlock], a file of this build holds such a log, and a file of another build is not read again by this process. |
| DepositIndex.ExtendedTiles | src/contracts/deposit/deposit.service.ts:248-259 | The k-th range of the loop, also of one that fails or stops. |
| DepositIndex.ExtendedReachesEnd | src/contracts/deposit/deposit.service.ts:248-272 | A loop that finishes has saved up to its last block, in memory and file. |
| DepositIndex.UpdateTilesTheGap | src/contracts/deposit/deposit.service.ts:244-272 | A successful update fetches ceil((head - 100 - oldEnd) / 10000) ranges of at most 10,000 blocks, each beginning where the last ended, the last ending at head - 100; none if there is no gap; endBlock becomes max(oldEnd, head - 100). |
| DepositIndex.FallOverBounds | src/provider/provider.service.ts:114-119 | The group that is returned carries the bounds that were asked for. |
| DepositIndex.InitializeValidates | src/contracts/deposit/deposit.service.ts:43-71 | After initialize the cache that is served is the default, or has this version and is no newer than the block, if and only if what was loaded is kept, the unlink succeeds or the file needed none. |
| DepositIndex.InitializeKeepsTheCurrent | src/contracts/deposit/deposit.service.ts:43-71 | What was loaded stays in memory with its events exactly if it has this version and neither its end nor the deployment is above the block; otherwise memory is empty. |
| DepositIndex.InitializedReadsDoNotExit | src/contracts/deposit/deposit.service.ts:43-55 | With the unlink done or no file, what is served after initialize does not reach beyond the block, so no read at that block or above exits. |
| DepositIndex.UnreadableIsDeleted | src/contracts/deposit/deposit.service.ts:43-55 | A file that cannot be read is deleted, because the default has no version of a build. |
| DepositIndex.InitializeSound | src/contracts/deposit/deposit.service.ts:43-55 | A file of another build may hold anything; initialize leaves a sound index if and only if what was loaded is kept, the unlink succeeds, or the file is absent or of this build. |
| DepositIndex.ReadIsTheScan | src/contracts/deposit/deposit.service.ts:292-328 | From a sound cache, however stale, the read exits exactly if the cache is ahead of n, and otherwise throws or is the scan of (deployment, n] on the chain of h, with these bounds, when the tail is from chains that hold h, and then it does not throw, or from one view for which that is so at all. |
| DepositIndex.ReadOfOneView | src/contracts/deposit/deposit.service.ts:302-346 | When one view with a non-empty block n answers, the read throws if and only if there is a tail to fetch and h is not on that view, and otherwise is the scan of the chain of h. |
| DepositIndex.ReadOfOneViewIff | src/contracts/deposit/deposit.service.ts:292-346 | For any one view: the read exits, throws or is the scan of the chain of h if and only if the view logs something in block n, or each block of the tail is shared with h or empty in both. |
| DepositIndex.ScansAgree | src/contracts/deposit/deposit.service.ts:216-230 | Two chains have the same log over a range if and only if each of its blocks is shared or empty in both. |
| DepositIndex.BlockHashCheck | src/contracts/deposit/deposit.service.ts:302-346 | With one chain view, whatever its head: accepted if and only if the view logs nothing in block n or has h there; accepted with a non-empty block n, all fresh events are those of the chain of h. |
| DepositIndex.EmptySiblingIsAccepted | src/contracts/deposit/deposit.service.ts:334-346 | An input where a sibling block without deposits is accepted and the event of h is missing. |
| DepositIndex.HeadBelowIsAccepted | src/contracts/deposit/deposit.service.ts:334-346 | An input where a node whose head is below block n is accepted and the event of h is missing. |
| DepositRuns.AdvanceKeepsInv | src/contracts/deposit/deposit.service.ts:232-246 | Moving the head, or reorganising above the settled block, keeps every record exact. |
| DepositRuns.AnyAwaitMayBeTheLast | src/contracts/deposit/deposit.service.ts:43-328 | The process may stop in the state of any await of an operation, and goes on only past the last. |
| DepositRuns.StepKeepsInv | src/contracts/deposit/deposit.service.ts:43-328 | Every operation, stopped at any await, and every restart keeps the file exact, and memory too while the process serves. |
| DepositRuns.EveryStateIsSound | src/contracts/deposit/deposit.service.ts:43-328 | The same of every reachable state of every run. |
| DepositRuns.CacheRefinesTheScan | src/contracts/deposit/deposit.service.ts:292-328 | Cache refinement: after any run from a fresh machine, getAllDepositedEvents(n, h) exits, exactly when the cache is ahead of n, or throws, or returns the naive scan with the bounds deployment and n: same events, same order, no gaps, no duplicates. |
| DepositRuns.SiblingIsRejected | src/contracts/deposit/deposit.service.ts:302-346 | After any run, a tail from one view with a non-empty block n makes the read throw if and only if h is not on that view. |
| OneAtTime.OneAtTime.constructor | src/common/decorators/one-at-time.ts:8 | A decorated method starts free. |
| OneAtTime.OneAtTime.Enter | src/common/decorators/one-at-time.ts:10-15 | A call runs exactly if none was running; a dropped call changes nothing else. |
| OneAtTime.OneAtTime.Leave | src/common/decorators/one-at-time.ts:16-20 | A return or a throw frees the lock. |
| OneAtTime.LockIsExclusive | src/common/decorators/one-at-time.ts:7-21 | Under every interleaving of calls, returns and throws at most one activation lives, the flag is set exactly while one does, and live, settled and dropped calls together are the calls that were made, each as often. |
| OneAtTime.DroppedOnlyWhileBusy | src/common/decorators/one-at-time.ts:11 | After any history a call is dropped if and only if another activation is live. |
| StakingRouter.StakingRouterService.GetStakingModuleUnusedKeys | src/staking-router/staking-router.service.ts:20-44 | A hit by nonce serves the entry, a miss fetches; a rejected request or a foreign block hash throws and never changes the cache. |
| StakingRouter.TruthfulCacheIsFresh | src/staking-router/staking-router.service.ts:20-63 | From entries that were answered at blocks where nonces determine keys, every sequence of calls answers like fresh requests. |
| StakingRouter.KeyCacheRefinesFetch | src/staking-router/staking-router.service.ts:20-63 | Over every sequence of hits, misses, mismatches and errors at a set of blocks the cache answers like fresh requests if and only if nonces determine keys among these blocks. |
| StakingRouter.StaleHit | src/staking-router/staking-router.service.ts:57-63 | Wherever two blocks share a nonce but not the keys, two calls serve stale keys. |
| StakingRouter.NonceIsMonotone | src/keys-api/interfaces/SRModule.ts:2-5 | Along one chain a nonce never falls, and while it stays so do the keys. |
| StakingRouter.OneChainDeterminesKeys | src/keys-api/interfaces/SRModule.ts:2-5 | The rule of the nonce makes it determine the keys among the blocks of one chain. |
| StakingRouter.ForkDefeatsTheNonce | src/keys-api/interfaces/SRModule.ts:2-5 | Two branches that both obey the rule and share a nonce with different keys. |
| StakingModuleGuard.FiltersFindAttacks | src/guardian/staking-module-guard/staking-module-guard.service.ts:109-157 | The filters, with their early exit, leave something if and only if some event is valid, has an unused key and foreign credentials. |
| StakingModuleGuard.ComparesWhatIsSigned | src/guardian/staking-module-guard/staking-module-guard.service.ts:272-287 | Two states are the same exactly if both are there with equal nonce, equal root and block numbers in the same ten. |
| StakingModuleGuard.StakingModuleGuardService.HandleCorrectKeys | src/guardian/staking-module-guard/staking-module-guard.service.ts:210-236 | The state is remembered in any case; the deposit is signed unless nonce, root and the ten blocks of the number are those remembered before. |
| BlockGuard.IndexOf | src/contracts/security/security.service.ts:75-80 | The first index of the guardian, and -1 exactly if it is not in the list. |
| BlockGuard.BlockGuardService.IsNeedToProcess | src/guardian/block-guard/block-guard.service.ts:34-45 | A block is new if there is no last one, or it is no lower and has another hash. |
| BlockGuard.BlockGuardService.SetLastProcessedStateMeta | src/guardian/block-guard/block-guard.service.ts:47-52 | The block becomes the last processed one. |
| BlockGuard.BlockGuardService.GetCurrentBlockData | src/guardian/block-guard/block-guard.service.ts:59-90 | Root, merged events and guardian index of one block; a failed read rejects, a cache that is ahead stops the process. |
| GuardianTasks.DecideIsRight | src/guardian/staking-module-guard/staking-module-guard.service.ts:91-100 | Paused comes before attacked, attacked before clean, and each verdict is the true one. |
| GuardianTasks.HitIsTrue | src/staking-router/staking-router.service.ts:24-25 | A hit serves the keys of the block of the cycle. |
| GuardianTasks.HitGivesVerdict | src/staking-router/staking-router.service.ts:24-25 | A hit serves keys that give the verdict of the block of the cycle, where nonces determine verdicts. |
| GuardianTasks.LocalStepIsRight | src/guardian/staking-module-guard/staking-module-guard.service.ts:33-264 | Whatever a request is answered, every verdict, signature and message of a step is right, with the right root and nonce, and so is the key cache entry it leaves. |
| GuardianTasks.LocalStepRecords | src/guardian/staking-module-guard/staking-module-guard.service.ts:163-236 | A module task that has decided has its true verdict in the log, and with a clean one the remembered state; one that finished on an attack has signed the pause, called pauseDeposits and sent the pause message, if the guardian is in the list. |
| GuardianTasks.LocalStepShape | src/guardian/staking-module-guard/staking-module-guard.service.ts:33-264 | Every step brings a module task nearer to its end, and none removes an entry. |
| GuardianSystem.AwaitKeepsInv | src/guardian/guardian.service.ts:139-157 | A step of any task, also of one a failed cycle left behind, keeps the invariant of the shared state and of all tasks. |
| GuardianSystem.CollectKeepsInv | src/guardian/block-guard/block-guard.service.ts:59-90 | The tasks of a cycle start with the scan of the chain of its block; where another chain answered, the comparison of hashes ends the cycle instead. |
| GuardianSystem.PingKeepsInv | src/guardian/guardian.service.ts:159-167 | The ping and the new last processed block keep the invariant. |
| GuardianSystem.StepKeepsInv | src/guardian/guardian.service.ts:94-173 | Every step of the daemon keeps the invariant: index, key cache, lock, log, tasks, cycle, processed blocks. |
| GuardianSystem.RunKeepsInv | src/guardian/guardian.service.ts:94-173 | The same over every run. |
| GuardianSystem.EveryVerdictIsTrue | src/guardian/guardian.service.ts:94-173 | In every run, with any failures, restarts, leftover tasks, interleavings and logs of one reorganised view, every verdict, remembered state, signature and message is that of a full scan of (deployment, n] and fresh keys at h, where nonces determine verdicts. |
| VerdictCondition.StaleVerdict | src/staking-router/staking-router.service.ts:20-63 | For any two blocks of one network with one nonce of a module, an honest run that comes at the second to the verdict of the keys of the first. |
| VerdictCondition.RightIffNonceDeterminesVerdicts | src/guardian/guardian.service.ts:94-173 | Every honest run is right in everything if and only if, among the blocks the Keys API reports from the deployment on, the keys of a module at one give its verdict at any other with its nonce. |
| GuardianSystem.NoDepositIsSignedUnderAttack | src/guardian/staking-module-guard/staking-module-guard.service.ts:210-264 | A deposit signature in the log means the module was active and no event of (deployment, n] is a valid deposit of an unused key with foreign credentials. |
| GuardianSystem.StepKeepsGuard | src/guardian/guardian.service.ts:94-173 | Every step, whatever is answered, keeps the order of the processed blocks, the exclusive pause, and the data of the cycle in its tasks. |
| GuardianSystem.ProcessedBlocksAreMonotone | src/guardian/block-guard/block-guard.service.ts:34-52 | In every run at all, with stale or wrong listings, failures and same-height reorganisations: processed block numbers never decrease, consecutive hashes differ, and at most one pause transaction is in flight. |
| GuardianSystem.RecordedOnlyAfterPing | src/guardian/guardian.service.ts:139-167 | From any state at all, a block is recorded only by a ping that went out (or that a guardian outside the list does not send), when all tasks of the cycle have finished. |
| GuardianSystem.ChecksExactly | src/guardian/block-guard/block-guard.service.ts:59-90 | A cycle goes on to its modules exactly if root and guardian list are answered and the read returns, with the root and the events read; otherwise it ends with nothing done. |
| GuardianSystem.RefreshesEveryTen | src/contracts/deposit/deposit.service.ts:34-41 | The index is updated in the cycles of blocks divisible by ten and left alone in the others. |
| GuardianSystem.PingEndsExactly | src/guardian/guardian.service.ts:159-169 | The ping comes exactly when all tasks of the cycle have finished, carries their ids, and the block is recorded exactly if it went out or the guardian is not in the list. |
| GuardianSystem.PausesOnlyTheAttacked | src/guardian/staking-module-guard/staking-module-guard.service.ts:96-97 | In every honest run pauseDeposits is only ever called for attacked modules. |
| GuardianSystem.ProcessedOnlyAfterAll | src/guardian/guardian.service.ts:139-167 | When a block is recorded, every module of the cycle has its true verdict in the log, every attacked one its pause signed, pauseDeposits called (dropped or not), and its pause message sent, if the guardian is in the list, and every clean one its state remembered. |
| GuardianSystem.AlternateChainEndsCycle | src/contracts/deposit/deposit.service.ts:302-346 | Fresh logs from a view with a non-empty block n other than h end the cycle: nothing is signed, sent or recorded. |
| Interleaving.StepKeepsOwn | src/guardian/guardian.service.ts:139-157 | A step of a module task keeps what it will have done in the end. |
| Interleaving.StepFramesOthers | src/guardian/staking-module-guard/staking-module-guard.service.ts:226-234 | A step of a module task leaves the entries of other modules alone. |
| Interleaving.ScheduleKeepsOutcome | src/guardian/guardian.service.ts:139-157 | Every schedule, complete or not, keeps the outcome of each module and the effects done and to be done. |
| Interleaving.EveryScheduleAgrees | src/guardian/guardian.service.ts:139-157 | Two complete schedules of modules with distinct ids end with the same key cache, signing memory and multiset of signatures and messages. |
| GuardianService.GuardianService.HandleKeysIntersections | src/guardian/staking-module-guard/staking-module-guard.service.ts:163-204 | Signs, calls pauseDeposits without waiting and sends, as the steps of its module task do, with every failure. |
| GuardianService.GuardianService.SignDeposit | src/guardian/staking-module-guard/staking-module-guard.service.ts:238-263 | Signs and sends, as the steps of its module task do, with every failure. |
| GuardianService.GuardianService.HandleVerdict | src/guardian/staking-module-guard/staking-module-guard.service.ts:91-100 | The branch after the filters, as the steps of its module task take it. |
| GuardianService.GuardianService.GetStakingRouterModuleData | src/guardian/staking-module-guard/staking-module-guard.service.ts:33-61 | Keys from the cache or a request, then the pause flag, as the steps of the module task do, with every failure. |
| GuardianService.GuardianService.CheckKeysIntersections | src/guardian/staking-module-guard/staking-module-guard.service.ts:67-157 | The filters with their early exit, and the branch after them, as the steps of the module task do, with every failure. |
| GuardianService.GuardianService.CheckModule | src/guardian/guardian.service.ts:140-151 | One module over the service objects does what its task does when it runs alone. |
| GuardianService.GuardianService.CollectBlockData | src/guardian/guardian.service.ts:126-131 | The index is updated on blocks divisible by ten and read at the block; a rejected update does not end the cycle. |
| GuardianService.GuardianService.HandleNewBlock | src/guardian/guardian.service.ts:94-173 | An empty list of modules is rejected; a cycle skips exactly if the block is not new; its data are what the index gives; its effects are those of the modules in sequence; the last processed block changes exactly if all modules finished and the ping went out. |
| GuardianService.SequenceIsASchedule | src/guardian/guardian.service.ts:139-157 | The modules in sequence are one complete schedule of the tasks. |
| GuardianService.EveryInterleavingIsTheSequence | src/guardian/guardian.service.ts:139-157 | In a cycle without failures every complete interleaving leaves the key cache, the signing memory and the multiset of signatures and messages of the sequence that HandleNewBlock runs. |
| CycleInterleavings.EveryRunIsTheSequence | src/guardian/guardian.service.ts:139-167 | The same of runs of the daemon, with tasks of former cycles that are done, pause transactions that settle and heads that move in between, and with the ping last, which records the block. |
| ModuleCheck.PauseSteps | src/guardian/staking-module-guard/staking-module-guard.service.ts:163-204 | From an attack, exactly one pause signature follows unless it is rejected, and one pause message if that is not rejected and the guardian is in the list; no memory changes. |
| ModuleCheck.DepositSteps | src/guardian/staking-module-guard/staking-module-guard.service.ts:238-263 | From a new clean state, exactly one deposit signature follows unless it is rejected, and one deposit message if that is not rejected and the guardian is in the list. |
| ModuleCheck.AskingSteps | src/guardian/staking-module-guard/staking-module-guard.service.ts:67-157 | From true keys and logs the check ends as the true verdict says, or before it, with nothing done, exactly if a request it needs is rejected. |
| ModuleCheck.CheckSteps | src/guardian/guardian.service.ts:140-151 | For all answers, hit or miss: the check comes to a verdict exactly if what it asks for is answered; then the log grows by exactly the true verdict, the remembered state, the signature unless rejected and the message unless rejected, and the memory changes exactly if the module is clean, whether or not signing succeeds; otherwise nothing is signed, sent or remembered. |
| ModuleCheck.CycleSigns | src/guardian/guardian.service.ts:139-157 | A cycle signs the deposit of a module once if it is listed, clean and its state is new, and otherwise not at all, whatever the other modules are. |
| Resigning.LocalStepCounts | src/guardian/staking-module-guard/staking-module-guard.service.ts:210-264 | What a step adds for its module: at most one remembered state, a task to be signed exactly if that state is new, a signature or a rejection for each such task, a message or a rejection for each signature. |
| Resigning.SignaturesFollowVisits | src/guardian/staking-module-guard/staking-module-guard.service.ts:222-263 | In every run, whatever is answered or fails: signatures of a module plus signatures rejected or pending are the new states remembered for it, so each new state is signed if and only if none was rejected or is pending; and messages plus those rejected or pending are the signatures, if the guardian is in the list. |
| Resigning.AscendingIsBounded | src/guardian/staking-module-guard/staking-module-guard.service.ts:272-287 | Where the buckets of ten blocks do not fall, new states are at most 1 + changes of (depositRoot, nonce) + the tens of blocks from the first visit to the last. |
| Resigning.EveryChangeIsNew | src/guardian/staking-module-guard/staking-module-guard.service.ts:272-287 | From below: the first visit, each change of (depositRoot, nonce) and each move to another ten blocks is a new state, and there are no others. |
| Resigning.BoundedIffAscending | src/guardian/staking-module-guard/staking-module-guard.service.ts:272-287 | The bound holds of every stretch of visits if and only if the bucket never falls from a visit to the next. |
| Resigning.VisitsAscend | src/guardian/block-guard/block-guard.service.ts:34-52 | In every run in which no cycle fails the clean visits of a process come in block order. |
| Resigning.ResigningBound | src/guardian/staking-module-guard/staking-module-guard.service.ts:222-243 | In every run, with interleavings, restarts, paused and attacked cycles, the signatures of a module in the log of the process keep the bound if the buckets of its visits do not fall, which they do not where no cycle fails. |
| SignedStates.LocalStepCarriesOn | src/guardian/staking-module-guard/staking-module-guard.service.ts:222-263 | A step that remembers a state remembers the same again or carries it to be signed; what a task has open it signs, sends, or stays stuck with. |
| SignedStates.EveryStateIsSigned | src/guardian/staking-module-guard/staking-module-guard.service.ts:222-263 | In every run each remembered state has a signature with its root, nonce and bucket, or a task stuck at just that one; each signature has its message, or a task stuck at just that one, or a task at its block and root whose guardian was not in the list. |
| SignedStates.ProcessedCleanIsSigned | src/guardian/guardian.service.ts:139-167 | When an honest run records a block, each clean module has its state of that block signed or stuck, and where no task of the module is stuck at that state, holds a message of it, or met its root and bucket outside the list, a message with its root, its nonce and a block of the same bucket has been sent. |
| GuardianCycle.Boots | src/guardian/guardian.service.ts:49-72 | A run from a fresh machine to a process that serves. |
| GuardianCycle.HandleNewBlockRuns | src/guardian/guardian.service.ts:94-173 | Any call of handleNewBlock is a run of the machine: whatever a cycle is answered, over any number of modules and from any index, the run ends where HandleNewBlock ends, and it is honest if the answers are. |
| GuardianCycle.HandleAsRun | src/guardian/guardian.service.ts:94-173 | A call over the service objects keeps them in the state of the machine, and stops the process exactly when the machine does. |
| GuardianCycle.CycleRuns | src/guardian/guardian.service.ts:94-173 | The run of a cycle over one module that reads all logs from the chain of its block, for all answers of the module task. |
| GuardianCycle.HigherBlockIsTaken | src/guardian/block-guard/block-guard.service.ts:34-45 | From an idle process a block above the last recorded one always goes on to its cycle. |
| GuardianCycle.TickIsTakenExactly | src/guardian/block-guard/block-guard.service.ts:34-45 | A tick goes on exactly if no cycle runs, the list is not empty, and the block is no lower than the last recorded one and another. |
| GuardianCycle.AbortsExactly | src/guardian/guardian.service.ts:139-169 | A cycle is given up exactly when a task of it has failed, and its tasks go on. |
| GuardianCycle.RestartForgets | src/guardian/guardian.service.ts:49-72 | A restart forgets caches, memory, tasks and the last processed block, and keeps the file. |
| GuardianCycle.EveryOrderIsRecorded | src/guardian/block-guard/block-guard.service.ts:34-52 | Every sequence of blocks of one network whose numbers do not fall and whose neighbours differ is what some honest run records. |
| FailedCycles.NoBoundUnderFailures | src/guardian/guardian.service.ts:159-169 | For every k an honest run, on a chain where nothing changes, in which one process with failing pings signs one clean module k times. |
| FailedCycles.RejectedIsNeverSigned | src/guardian/staking-module-guard/staking-module-guard.service.ts:226-244 | An honest run that records the block of a clean module whose deposit was never signed, because an earlier signature of the same state was rejected. |
| ReorgGap.SignedUnderAttack | src/staking-router/staking-router.service.ts:57-63 | An honest run from a fresh machine that completes a cycle on a branch, sees it reorganised away, and signs the deposit of an attacked module on the other branch from the keys it cached. |
| ReorgGap.BothBranchesFollowTheRule | src/keys-api/interfaces/SRModule.ts:2-5 | In that run both branches obey the rule of the nonce. |
| Text.SplitJoin | src/transport/stomp/stomp.frame.ts:56-67 | Splitting undoes joining if and only if no piece has the separator. |
| Text.SplitAtSeparator | src/transport/stomp/stomp.frame.ts:67 | Splitting at a separator splits both sides on their own. |
| Text.StripTrims | src/transport/stomp/stomp.frame.ts:29-31 | What strip returns has no outer white space, and strip changes nothing exactly where there was none. |
| Text.SpacesByCodePoint | src/transport/stomp/stomp.frame.ts:29-31 | What counts as white space, by code point. |
| Text.LengthCountsUnits | src/transport/stomp/stomp.frame.ts:51 | The length is the number of UTF-16 code units. |
| Text.LengthIsOctetsForAscii | src/transport/stomp/stomp.frame.ts:51 | The length of a string is at most its octets, and equal exactly for ASCII. |
| StompFrame.ToString | src/transport/stomp/stomp.frame.ts:33-57 | The loop prints the command, the headers but content-length, a content-length unless one was supplied, a blank line and the body. |
| StompFrame.Marshall | src/transport/stomp/stomp.frame.ts:86-97 | The printed frame with its NUL. |
| StompFrame.MarshalledText | src/transport/stomp/stomp.frame.ts:33-97 | The whole text: a line for the command and each header, the length unless one was supplied, a blank line, the body, a NUL. |
| StompFrame.UnmarshallSingle | src/transport/stomp/stomp.frame.ts:59-84 | The header loop reads what the specification reads, with the empty frame and the read beyond the last line as errors. |
| StompFrame.LoopStops | src/transport/stomp/stomp.frame.ts:73-78 | With a blank line ahead the header loop stops there or before, in bounds. |
| StompFrame.LoopStopsFirst | src/transport/stomp/stomp.frame.ts:73-78 | The header loop stops at the first blank line, and reads beyond the last line exactly if there is none. |
| StompFrame.UnmarshalledExactly | src/transport/stomp/stomp.frame.ts:59-84 | A single line feed is the empty frame, and a text with no blank line before its last line is a crash; nothing else is either. |
| StompFrame.HeaderIsCut | src/transport/stomp/stomp.frame.ts:74-76 | A header reads up to its second colon, has no value without a colon, and is lost if it is `__proto__`. |
| StompFrame.MarshalledIsReadable | src/transport/stomp/stomp.frame.ts:59-97 | Whatever is marshalled, reading it back never throws. |
| StompFrame.AssignedHolds | src/transport/stomp/stomp.frame.ts:41-48 | The headers that are expected back hold every supplied pair but content-length, and nothing else. |
| StompFrame.HeadersRead | src/transport/stomp/stomp.frame.ts:71-78 | Over clean header lines the loop rebuilds the object. |
| StompFrame.PrintableReadsBack | src/transport/stomp/stomp.frame.ts:33-97 | A printable frame reads back as itself. |
| StompFrame.UnmarshalledIsClean | src/transport/stomp/stomp.frame.ts:59-84 | From any text at all: no line feed or outer space in the command, no line feed or colon in headers, no line feed in the body. |
| StompFrame.RoundTrip | src/transport/stomp/stomp.frame.ts:33-97 | For every frame, reading what was marshalled never throws, and gives back command, body and headers (which gain content-length or lose the supplied one) if and only if the frame is printable. |
| StompFrame.ContentLengthIsOctets | src/transport/stomp/stomp.frame.ts:50-52 | The printed content-length is the number of octets if and only if the body is ASCII. |
| StompClient.StompClient.constructor | src/transport/stomp/stomp.client.ts:24-57 | A client starts closed, unconnected and without a promise. |
| StompClient.StompClient.CleanUp | src/transport/stomp/stomp.client.ts:234-242 | Both flags are cleared and nothing else. |
| StompClient.StompClient.Catch | src/transport/stomp/stomp.client.ts:192-202 | After the last attempt the promise is cleared and the chain ends; otherwise it cleans up and pauses. |
| StompClient.StompClient.Attempt | src/transport/stomp/stomp.client.ts:174-175 | Creating the socket throws into the catch block, or the chain waits for it unless one is open. |
| StompClient.StompClient.Start | src/transport/stomp/stomp.client.ts:216 | The chain runs to its first await before the promise is assigned. |
| StompClient.StompClient.DoConnect | src/transport/stomp/stomp.client.ts:224-229 | A second caller joins the promise. |
| StompClient.StompClient.Reconnect | src/transport/stomp/stomp.client.ts:211-218 | Cleans up and starts a chain unless one is promised. |
| StompClient.StompClient.DoSend | src/transport/stomp/stomp.client.ts:277-287 | Reconnects first unless opened and connected. |
| StompClient.StompClient.OnClose | src/transport/stomp/stomp.client.ts:130-148 | Ignored while a promise is set; a normal close only cleans up. |
| StompClient.StompClient.OnError | src/transport/stomp/stomp.client.ts:155-163 | Ignored while a promise is set, otherwise a reconnection. |
| StompClient.StompClient.DoDisconnect | src/transport/stomp/stomp.client.ts:265-268 | Cleans up if the frame goes out. |
| StompClient.StompClient.Wake | src/transport/stomp/stomp.client.ts:169-205 | A chain goes on from each of its three awaits as the step says, whose outcomes are `ConnectsInTime`, `FailedAttemptPauses`, `LateSocketIsGivenUp` and `OpenSocketNeedsNoWait`. |
| StompClient.StompClient.DoResume | src/transport/stomp/stomp.client.ts:169-205 | The same for the client as a whole. |
| StompClient.StompClient.OnOpen | src/transport/stomp/stomp.client.ts:120-122 | The socket is open. |
| StompClient.StompClient.OnConnectedFrame | src/transport/stomp/stomp.client.ts:350-352 | The session is connected. |
| StompClient.WaitWsConnection | src/transport/stomp/stomp.client.ts:248-259 | Succeeds exactly if the socket opens during a sleep that ends by the timeout, and how long it sleeps in either case. |
| StompClient.ConnectsInTime | src/transport/stomp/stomp.client.ts:169-259 | Whichever attempt n finds the socket open after its k-th sleep within the timeout, the chain sends CONNECT and settles there, having slept exactly what the attempts before and the k sleeps take, with no promise and no chain left. |
| StompClient.LateSocketIsGivenUp | src/transport/stomp/stomp.client.ts:251-258 | A socket that opens in the sleep that crosses the timeout fails the attempt. |
| StompClient.FailedAttemptPauses | src/transport/stomp/stomp.client.ts:192-205 | A frame that does not go out, or a socket that cannot be created, clears the flags and pauses before the next attempt, or rejects after the last. |
| StompClient.OpenSocketNeedsNoWait | src/transport/stomp/stomp.client.ts:174-190 | An attempt that finds the socket open sends at once. |
| StompClient.ReconnectsExactly | src/transport/stomp/stomp.client.ts:130-229 | What starts a chain: connect and errors always, sending unless opened and connected, a close with a code other than 1000; a reconnection starts with the flags cleared. |
| StompClient.PromiseHoldsOff | src/transport/stomp/stomp.client.ts:130-229 | While a chain is promised none of these changes anything. |
| StompClient.SessionLives | src/transport/stomp/stomp.client.ts:120-122 | Once opened and connected sending needs no reconnection, until a disconnection goes out. |
| StompClient.StepSingleFlight | src/transport/stomp/stomp.client.ts:130-229 | Every event keeps at most one chain, and the promise matches it unless the event is a fatal start. |
| StompClient.StuckForever | src/transport/stomp/stomp.client.ts:192-229 | After a fatal start the promise stays set with no chain, whatever happens. |
| StompClient.SingleFlightReconnect | src/transport/stomp/stomp.client.ts:130-229 | Under every interleaving at most one chain lives; the promise is set exactly while one does if and only if no start was fatal, so always with two attempts or more. |
| StompClient.ReconnectBound | src/transport/stomp/stomp.client.ts:169-259 | With R attempts, timeout T and pause P every chain makes at most max(1, R) attempts and sleeps at most max(1, R) * 250 * (floor(T / 250) + 1) + (max(1, R) - 1) * P ms. |
| StompClient.ReconnectBoundIsTight | src/transport/stomp/stomp.client.ts:169-259 | A socket that never opens sleeps exactly that long. |

## Left out

- BLS and SSZ verification, keccak, ABI encoding and wallet signing: foreign cryptography; the verdict is a field of a deposit, and a signature is the data it covers.
- Contract bindings, addresses and message prefixes, `initCachedContracts`: thin wrappers; what a contract answers is a function of the block.
- The HTTP client of the Keys API, Kafka, the real WebSocket, and the choice between transports: an environment that answers or fails.
- Configuration, dependency injection, logging, metrics and health endpoints: the cycle does not depend on them.
- `range`, `rangePromise`, `splitPubKeys` and the `Cache` decorator: the cycle does not use them.
- The lookup of the chain id and of the deployment block: the deployment block is a parameter.
- A first `getCache` that is still reading the file while a `setCache` runs: the daemon runs the operations on the index one after another.
- A rejected `getBlockNumber` in `updateEventsCache`: it loads the cache and saves nothing, like an update with no gap, and its rejection is swallowed.
- GuardianService.GuardianService.HandleNewBlock: runs the module tasks in sequence; their interleavings, with failures and leftover tasks, are in `GuardianSystem` and `CycleInterleavings`, and `GuardianCycle.HandleAsRun` joins it to them.
- GuardianSystem.EveryVerdictIsTrue: assumes that nonces determine verdicts; `VerdictCondition.RightIffNonceDeterminesVerdicts` shows that this is the exact condition on one network.
- DepositIndex.ReadIsTheScan: several views that do not hold h are left out; for one view `DepositIndex.ReadOfOneViewIff` is the exact condition.
- StompClient.StompClient.CleanUp: does not model the closing of the socket, whose own close event is an event of the machine.
- StompClient.StompClient.DoSend: does not model the frame that is sent after the reconnection, which changes no field.
- Strings with lone surrogates, and the order in which `Object.entries` moves integer-like keys to the front: header entries come as a sequence, in the order they are printed.
- STOMP header escaping, bodies over several lines, subscriptions, receipts, ACK and NACK: the codec and the client do not implement the first two, and the rest does not touch the connection; `subscribe` reconnects like `send`.
- Events of a socket that was replaced: handlers are not bound to a socket, so nothing is claimed about whether `connected` implies `opened`.
- What the broker does with a message, and what the contract does with a pause transaction: outside the daemon.
