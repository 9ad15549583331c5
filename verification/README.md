# A verified model of the backend's stateful and financial core

This project models, in Dafny 4.11, the parts of the wealth-management backend whose
correctness cannot be read off a single function, and proves what they promise.

| file | what it models |
|---|---|
| `EventHub.dfy` | the publish/subscribe hub as interleaved steps of its threads, and its methods run alone |
| `RefreshTokens.dfy` | refresh tokens: rotation as a transaction of several statements under contention |
| `AssignmentRing.dfy` | the capacity-aware round robin over the active relationship managers |
| `AssignmentDesk.dfy`, `AssignmentLedger.dfy`, `AssignmentRepository.dfy` | who looks after whom, the append-only history, offboarding, the seed's backfill, and the repository methods over the tables |
| `AssignmentRaces.dfy` | assignments whose read of the owner and whose write are separate steps |
| `Drawdown.dfy`, `TaxLots.dfy`, `GoalProjection.dfy`, `Xirr.dfy`, `Allocation.dfy` | the financial engines |
| `PiiPatterns.dfy`, `PiiRedactor.dfy` | the four identifier patterns and the replacement passes |
| `Regex.dfy`, `PiiExpressions.dfy` | regular expressions with what they match, and the redactor's own ones |
| `MemoryKeys.dfy`, `MemoryStore.dfy` | chat-memory topic keys, the memory table, and the service calls that write it |
| `Mirror.dfy`, `AccountMirror.dfy` | replacement of mirrored accounts, loans and linked accounts |
| `SlotAllocator.dfy` | which bank accounts a connect request adds |
| `ExistenceCache.dfy` | the short-lived "does this account exist" cache under concurrent requests |
| `Rounding.dfy`, `Selections.dfy`, `Options.dfy` | the two-decimal rounding, sublists that keep the order, and optional values |

`dafny verify dfyconfig.toml` checks everything.

Code that changes tables, maps or accumulators in place is modelled twice: as a method
(of a class where the source has an object) with the source's loops and branches, and as
a function or step relation that the method is proved equal to. The theorems are about
the latter and range over every input, every run or every reachable state; the hub, the
token store, the assignment repository and the memory service also keep the invariant of
their theorems as `Valid()`. Amounts are exact reals; `round2` rounds half away from zero to
two places. Database statements and transactions are atomic steps; a fault parameter stands
for the error of a statement or commit. Clocks, hashes, generated accounts, real powers, the
Unicode tables and the outcome of a database lookup are parameters. Identifiers are integers
or strings; freshness is demanded only where a row is inserted.

## Where the code and its description differ

The model follows the code. For each difference there is a lemma with the exact condition
or with an input that shows it.

- The redactor's PAN pass runs first, so a PAN written directly before a phone number has
  no word boundary behind it and survives: `PiiRedactor.PanSurvivesExactlyWhenGlued`.
- The drawdown's comparison uses the rounded maximum. The reported percentage is still
  exact after rounding, but the trough, from which the recovery is counted, need not be the
  deepest day: `Drawdown.TroughIsDeepestExactly` says when it is, and
  `Drawdown.TroughNotAlwaysDeepest` shows a recovery that is a day short.
- Matched units can exceed the units bought when a stock lot is negative:
  `TaxLots.MatchedIsMinimum` gives the condition. The order validation
  (`internal/provider/stocks/mock.go:359`) refuses quantities that are not positive, so only a
  row written past the application has this shape.
- The bisection loses a rate of return of exactly -0.99: `Xirr.RootAtLeftEndIsLost` has the
  cash flows, `Xirr.KeepsSignChange` the condition.
- A fund without a catalog row is high risk for the simulation and medium risk for the
  allocation: `Allocation.UnlistedFundMovesBucket`. A fund whose percentages do not sum to
  100 makes the simulated total differ, by the part they do not cover:
  `Allocation.TotalsDifferByUncovered`.
- The comment at `internal/repository/user_repo.go:115-117` assigns a manager on opt-in
  only if the user has none; `syncRMAssignment` does so in any case:
  `AssignmentLedger.OptInTakesNextPick`.
- Manual assignment and removal read the owner without locking the row. The history stays a
  chain exactly when no write comes after a stale read:
  `AssignmentRaces.RaceKeepsLedgerExactly`, with `AssignmentLedger.StaleReadBreaksChain` for two.
- A memory pinned by the user may have the empty key, which the extractor's memories may
  not: `MemoryStore.LetterlessPinsShareOneRow`.
- The comment at `internal/handler/aa_handler.go:501-504` promises the same account on
  every retry; a retry connects the next slot: `SlotAllocator.ResendAddsNothingExactly`, and
  `SlotAllocator.ResendAddsNothingForRequest` in terms of the request.
- The cache's sweep can hide an entry from a call that read the clock earlier than the
  sweeper: `ExistenceCache.SweepChangesHitExactly` has the condition, and
  `ExistenceCache.SweepCanChangeAnswer` a run in which an answer changes. The comment at
  `internal/middleware/auth.go:33-40` calls caching a negative answer as safe as caching a
  positive one; a transient lookup error is cached as a negative answer too:
  `ExistenceCache.FailedLookupIsServed`.

## Model

| member | source | states |
|---|---|---|
| `EventHub.RunKeepsInv` | internal/events/hub.go:60-96 | every interleaving of subscribe, publish, cancel and receive steps keeps the hub's invariant: the lock discipline, each channel's life from subscription to close, and the delivery account |
| `EventHub.StepKeepsInv` | internal/events/hub.go:60-96 | one step of any thread (take or drop a lock, one map write, one send attempt, one close) keeps that invariant |
| `EventHub.NeverPanics` | internal/events/hub.go:70-80 | no run ever sends on a closed channel or closes one twice: in every reachable state a thread about to close finds its channel open, and a thread sending has only open channels left to send to |
| `EventHub.PossibleExactly` | internal/events/hub.go:60-96 | which steps are possible in a reachable state: the write lock waits for writer and readers, a read lock for the writer only, a send for nothing, and a call of cancel only while another one is inside the once |
| `EventHub.ReceivedIsAccepted` | internal/events/hub.go:61 | in every reachable state a buffer holds at most 16 events, and received plus buffered events are, in order, the offered ones minus those offered while the buffer held 16 |
| `EventHub.StepOnChannel` | internal/events/hub.go:60-96 | what each step does to each channel, in every reachable state: a send adds the thread's own event to a buffer of fewer than 16 and leaves a buffer of 16 as it is, and logs the attempt with that event, publication and outcome; a receive takes the first event; only the named channel changes; a channel begins empty on its topic |
| `EventHub.OfferedWasPublished` | internal/events/hub.go:87-96 | over every run, what a subscriber is offered is an event published on the subscriber's topic, under that publication's number |
| `EventHub.RunKeepsContent` | internal/events/hub.go:87-96 | in every reachable state each attempt and each publishing thread carries the topic and event with which its publication began |
| `EventHub.PublicationReachesTopic` | internal/events/hub.go:87-96 | when a publication ends it has been offered exactly once to each live channel of its topic and to those whose cancel still waits for the lock, and to no other channel |
| `EventHub.SomebodyCanGoOn` | internal/events/hub.go:60-96 | there is no deadlock: in every reachable state with an unfinished call some unfinished call can take a step, whether or not any subscriber receives |
| `EventHub.EntriesWhenUnlocked` | internal/events/hub.go:62-79 | whenever the write lock is free no topic has an empty entry, and a topic's entry holds exactly its channels that are live or whose cancel has not got the lock yet |
| `EventHub.PublishedExactlyOnce` | internal/events/hub.go:87-96 | a finished publication was offered exactly once to every subscriber its topic had, and never to any other channel |
| `EventHub.OfferedInPublishingOrder` | internal/events/hub.go:87-96 | over every run each subscriber is offered the events of one publisher in the order in which that publisher published them |
| `EventHub.RunKeepsOrder` | internal/events/hub.go:87-96 | in every reachable state a thread that is publishing is at its latest publication, and each channel's offers of one publisher are in the order of their publications |
| `EventHub.CancelTakesEffectOnce` | internal/events/hub.go:69-80 | over every run, however often and from however many threads cancel is called, at most one call has an effect, and the channel is closed once, by that call |
| `EventHub.LaterCancelIsNoStep` | internal/events/hub.go:69-71 | once one call has taken effect, a further call in any reachable state is blocked, impossible, or changes nothing |
| `EventHub.CancelledIsFinal` | internal/events/hub.go:70-79 | a cancelled channel stays closed and is offered nothing more, whatever step follows |
| `EventHub.SendOrderIrrelevant` | internal/events/hub.go:90-95 | the map's iteration order does not matter: sending to the subscribers in any order ends in the same state, the simultaneous fan-out |
| `EventHub.Hub.Subscribe` | internal/events/hub.go:60-82 | adds one fresh, empty, open channel under the topic and changes nothing else |
| `EventHub.Hub.Cancel` | internal/events/hub.go:70-80 | the first call removes and closes the channel, and removes an entry that becomes empty; any later call changes nothing |
| `EventHub.Hub.Publish` | internal/events/hub.go:87-96 | the loop over the subscribers serves each channel of the topic once: the event goes behind a buffer of fewer than 16 and is dropped for one of 16, with the attempt logged; every other channel is unchanged |
| `RefreshTokens.StepRefines` | internal/repository/user_repo.go:532-589 | every statement, commit and rollback of the interleaved system is, on the committed table, either nothing or one atomic issue, revocation or rotation |
| `RefreshTokens.TokensAreSingleUse` | internal/repository/user_repo.go:532-589 | over every interleaving each token is accepted at most once and only if it was claimed before its expiry, and each login's chain of rotations has at most one live token |
| `RefreshTokens.RevocationIsPermanent` | internal/repository/user_repo.go:514-523 | a committed revocation is never undone or changed by any later step of any run |
| `RefreshTokens.RollbackLeavesOldLive` | internal/repository/user_repo.go:532-570 | rolling back an open rotation leaves the committed table as it was: the old token live and unlocked, the new one absent |
| `RefreshTokens.CommitMovesLiveness` | internal/repository/user_repo.go:532-570 | a commit hands the live token of a login from the old hash to the new one, for the same user |
| `RefreshTokens.RunKeepsInv` | internal/repository/rm_repo.go:297-348 | the row locks, the links between open rotations and uncommitted rows, and the one-live-token property hold in every reachable state; the staff-side statements are the same ones |
| `RefreshTokens.StatementOnView` | internal/repository/user_repo.go:490-589 | in every reachable state: issuing adds a live token exactly for a hash nobody sees, revoking revokes exactly a live token, and the single claim answers ok and revokes exactly for a live token whose expiry is after the claim |
| `RefreshTokens.RotationOnView` | internal/repository/user_repo.go:532-570 | in every reachable state: a rotation goes on after its claim exactly for a live token whose expiry is after the rotation's start, and after its insert exactly for an unused hash; nobody sees anything of it before the commit, which shows both changes at once |
| `RefreshTokens.StepsWaitExactly` | internal/repository/user_repo.go:536-566 | in every reachable state a statement has to wait if and only if another open rotation has claimed the row it is about, or, for an insert, has inserted the same hash |
| `RefreshTokens.LockedRowIsLeftAlone` | internal/repository/user_repo.go:541-566 | in every reachable state a row written by an open rotation, and the rotation itself, are left unchanged by every step of another rotation and by every single statement |
| `RefreshTokens.AcceptStep` | internal/repository/user_repo.go:541-553 | a step answers ok only for a token that was live until then, and the time of the claim, which is stored as the time of the revocation, is before the expiry |
| `RefreshTokens.TokenStore.CreateRefreshToken` | internal/repository/user_repo.go:490-500 | issues a token for a new hash and fails for a known one |
| `RefreshTokens.TokenStore.RevokeRefreshToken` | internal/repository/user_repo.go:514-523 | revokes a live token, and changes nothing for a revoked or unknown one |
| `RefreshTokens.TokenStore.ConsumeRefreshToken` | internal/repository/user_repo.go:574-589 | succeeds exactly for a live, unexpired token, which it revokes |
| `RefreshTokens.TokenStore.RotateRefreshToken` | internal/repository/user_repo.go:532-570 | either the whole rotation or no change at all; it succeeds exactly when the old token can be claimed and the insert and commit succeed |
| `AssignmentRing.PickNextRM` | internal/domain/rm/ring.go:26-57 | the three loops compute the specified pick, which exists exactly for a non-empty ring: without overflow the manager has fewer clients than places and every one before on the lap has not; overflow holds exactly when every manager is full |
| `AssignmentRing.PickIsRoundRobin` | internal/domain/rm/ring.go:12-25 | the pick is the first manager with fewer clients than places after the last one assigned; only when all are full is it the least loaded one, the earliest on ties |
| `AssignmentRing.PicksSpreadEvenly` | internal/domain/rm/ring_test.go:104-129 | as long as there is room, m picks in a row on n managers give each m / n clients, and one more to the first m % n in line: the six-over-three test for every ring and every m |
| `AssignmentRing.PicksSpreadAt` | internal/domain/rm/ring_test.go:104-129 | the same written out: the manager j places along the lap has m / n more clients, and one more for j below m % n |
| `AssignmentRing.PicksStayWithinCapacity` | internal/domain/rm/ring.go:9-57 | however unevenly the free places are spread, as many picks as there are free places take nobody beyond capacity and fill one place each |
| `AssignmentDesk.ArrivalTakesSlot` | internal/repository/rm_repo.go:399-422 | a client who moves to one manager from outside the ring changes exactly that manager's count in the ring query, by one |
| `AssignmentDesk.BookMove` | internal/repository/rm_repo.go:433-436 | changing one client's owner takes one from the old owner's book and adds one to the new owner's, and leaves every other book's size |
| `AssignmentDesk.BooksPartitionAssigned` | internal/repository/rm_repo.go:399-405 | the sizes of all books add up to the number of assigned users |
| `AssignmentDesk.RingIsQuery` | internal/repository/rm_repo.go:399-422 | the ring is the list of the active managers in order of creation, each with the own capacity and the size of the own book |
| `AssignmentLedger.ApplyKeepsLedgerExactly` | internal/repository/rm_repo.go:433-448 | an update with its history row keeps every user's history a chain ending at the stored owner if and only if the row starts from the current owner |
| `AssignmentLedger.RunKeepsLedger` | internal/repository/rm_repo.go:433-605 | over every series of sign-ups, deletions, staff changes, opt-ins, automatic and manual assignments, removals, offboardings and backfills, each user's history is a chain: the first row from nobody, each next one from where the previous one went, the last one to the stored owner |
| `AssignmentLedger.StepKeepsInv` | internal/repository/rm_repo.go:450-605 | each single operation keeps that property and the schema's keys and references |
| `AssignmentLedger.AssignedUserHasRow` | internal/repository/rm_repo.go:723-727 | the lookup of the assignment date finds a row for every assigned user, and the user's last row is one |
| `AssignmentLedger.BooksAddUp` | internal/repository/rm_repo.go:399-405 | in every reachable state the book sizes add up to the number of assigned users |
| `AssignmentLedger.OffboardSucceedsExactly` | internal/repository/rm_repo.go:536-590 | offboarding goes through exactly when the book is empty, or another manager is active and the actor is known; otherwise nothing changes |
| `AssignmentLedger.OffboardMovesBook` | internal/repository/rm_repo.go:547-605 | it moves exactly the departing book: the k-th oldest client to the k-th pick on the ring without the departing manager, with one transfer row each; nobody else is touched, the count is the old book size, and the book ends empty |
| `AssignmentLedger.OffboardConservesBooks` | internal/repository/rm_repo.go:572-597 | nobody becomes assigned or unassigned, and the book sizes add up to the same total as before |
| `AssignmentLedger.OffboardSpreadsEvenly` | internal/repository/rm_repo.go:572-597 | while there is room, the departing book is spread evenly over the other managers |
| `AssignmentLedger.OffboardStaysWithinCapacity` | internal/repository/rm_repo.go:536-605 | while the other managers together have places for the departing book, however spread, none of them is taken beyond capacity |
| `AssignmentLedger.TargetRingIsQuery` | internal/repository/rm_repo.go:572-590 | the ring of an offboarding is the list of the other active managers with their capacities and book sizes |
| `AssignmentLedger.AssignNextServes` | internal/repository/rm_repo.go:450-492 | assigning an unassigned user takes the next pick of the ring and moves the rotation on by it |
| `AssignmentLedger.AssignNextStaysWithinCapacity` | internal/repository/rm_repo.go:450-492 | while any active manager has a free place the user goes to one who has, and that manager's book does not exceed the capacity |
| `AssignmentLedger.SignUpsSpreadEvenly` | internal/repository/rm_repo.go:450-492 | while there is room, any series of sign-ups is spread evenly over the active managers |
| `AssignmentLedger.OptInTakesNextPick` | internal/repository/user_repo.go:178-186 | switching the opt-in on, without a database error, gives the user the next pick even if they already have a manager |
| `AssignmentLedger.SyncKeeps` | internal/repository/user_repo.go:178-193 | opting in or out keeps the ledger, whether the assignment behind it goes through, has nobody to pick, or fails on the database |
| `AssignmentLedger.SyncExactly` | internal/repository/user_repo.go:178-193 | what a flip of the opt-in leaves, case by case: nothing for an unknown user or an unchanged flag; only the flag after a fault or with nobody to pick; else the next pick with one history row, or on opting out no owner with one |
| `AssignmentLedger.BackfillServesEveryone` | internal/rmseed/seed.go:89-130 | a complete backfill leaves nobody waiting: of the users who opted in and have no manager, oldest first, those at even places get the first manager and the others the second; nobody else is touched |
| `AssignmentLedger.BackfillRecords` | internal/rmseed/seed.go:104-130 | it writes one history row per user served, in that order, and leaves the rotation at the manager whose turn was last |
| `AssignmentLedger.BackfillKeeps` | internal/rmseed/seed.go:104-121 | a backfill stopped after any user keeps the ledger |
| `AssignmentLedger.StaleReadBreaksChain` | internal/repository/rm_repo.go:494-513 | two manual assignments that both read the owner before either writes both go through, and keep the chain only if the first one changed nothing |
| `AssignmentRaces.RaceKeepsLedgerExactly` | internal/repository/rm_repo.go:494-534 | over every interleaving of transactions that read an owner and later write it, the ledger is in order at the end if and only if every write still found the owner its transaction had read |
| `AssignmentRaces.OwnerIsAlwaysLastRow` | internal/repository/rm_repo.go:433-448 | even with stale reads the stored owner is always where the user's last row went |
| `AssignmentRepository.Repository.AssignNextRM` | internal/repository/rm_repo.go:450-492 | succeeds exactly for a known user, a non-empty ring and no fault, with the pick of the three loops as new owner and rotation mark and one row from the old owner to it; else the tables stay. While anybody has room, the new owner's book stays within the capacity. The ledger stays in order |
| `AssignmentRepository.Repository.ManualAssignRM` | internal/repository/rm_repo.go:494-513 | succeeds exactly for a known user, manager and actor and no fault; then only that user's owner changes, one row says from whom to whom, the user's history ends at the new manager, and the ledger stays in order; else the tables stay |
| `AssignmentRepository.Repository.UnassignRM` | internal/repository/rm_repo.go:515-534 | succeeds exactly for a known user and actor and no fault; then the user is in nobody's book, one row says who had them, and the ledger stays in order; else the tables stay |
| `AssignmentRepository.Repository.OffboardRM` | internal/repository/rm_repo.go:536-605 | the loop that moves on from each receiver is the offboarding step, and succeeds exactly without a fault where that step does; otherwise the tables stay. With places for the whole book nobody is taken beyond capacity. The ledger stays in order |
| `AssignmentRepository.Repository.BackfillRMs` | internal/rmseed/seed.go:104-130 | the loop of one transaction per user is the backfill step, also when it stops early, and the ledger stays in order |
| `Drawdown.ComputeRiskStats` | internal/service/rm_analytics.go:106-166 | the points are the snapshots of positive wealth; with at least three the report has the rounding of the least fall between any two of them in order, the rounded curve with its dates, and the days to recover from the trough: the last day strictly below the rounded least fall or, if there is none, the first day that rounds to it; with fewer it is empty |
| `Drawdown.KeptIsFilter` | internal/service/rm_analytics.go:106-116 | the snapshots used are those of positive wealth, each once and in order |
| `Drawdown.LeastFallOfKept` | internal/service/rm_analytics.go:106-160 | the least fall over the snapshots used is the least fall over all pairs of snapshots of positive wealth |
| `Drawdown.DrawdownPass` | internal/service/rm_analytics.go:142-160 | the single pass, though it compares with its already rounded maximum, ends with the rounding of the least fall from any earlier day |
| `Drawdown.DepthIsLeastFall` | internal/service/rm_analytics.go:147-151 | the fall from the running peak is the least of the falls from all earlier days |
| `Drawdown.RoundedComparisonIsExact` | internal/service/rm_analytics.go:154-155 | comparing the next fall with the rounded minimum gives the same rounded minimum as comparing with the exact one |
| `Drawdown.DaysToRecover` | internal/service/rm_analytics.go:161-166 | the loop finds the first later day at or above the trough's prior peak |
| `Drawdown.RecoveryMinusOne` | internal/service/rm_analytics.go:161-166 | the result is -1 exactly when wealth never regains that peak |
| `Drawdown.ReportUnique` | internal/service/rm_analytics.go:142-166 | the description determines the report: no other values fit the same snapshots |
| `Drawdown.TroughIsDeepestExactly` | internal/service/rm_analytics.go:154-158 | for every curve: if the rounding raised the least fall, the trough is a deepest day exactly when no day after the last deepest one is below the rounded value; otherwise exactly when no day before the first deepest one rounds to it |
| `Drawdown.TroughIsNearlyDeepest` | internal/service/rm_analytics.go:154-158 | the trough's fall is within 0.01 percentage points of the least one |
| `Drawdown.TroughNotAlwaysDeepest` | internal/service/rm_analytics.go:154-166 | an input where the trough is not the deepest day, and the reported recovery is one day instead of two |
| `TaxLots.ComputeLot` | internal/service/rm_analytics.go:645-684 | a holding's lot has the rounded sums over all lots of the units taken times the gain per unit: long-term from 365 days of age on, short-term below, and the value of those aged 275 to 365 days; holdings without units, price or lots are skipped |
| `TaxLots.MatchLots` | internal/service/rm_analytics.go:653-675 | the loop with its early exit computes those sums over the whole list |
| `TaxLots.TakenIsOverlap` | internal/service/rm_analytics.go:654-661 | the units taken from a lot are its overlap with the first held units of the concatenated lots |
| `TaxLots.MatchedIsMinimum` | internal/service/rm_analytics.go:653-661 | matched units are min(held, bought) if and only if no prefix of the lots covers the held units while the whole list does not |
| `TaxLots.MatchedIsMinimumWhenNonNegative` | internal/service/rm_analytics.go:653-661 | without negative lots matched units are always min(held, bought) |
| `TaxLots.NegativeLotExceedsBought` | internal/service/rm_analytics.go:724-739 | a negative stock lot makes the matched units exceed the units bought; the order validation refuses such a quantity, so only a row written past it has one |
| `TaxLots.GainIsValueMinusCost` | internal/service/rm_analytics.go:662-672 | long-term plus short-term gain is the price times the matched units minus their cost |
| `TaxLots.DisplayedGainsAgree` | internal/service/rm_analytics.go:677-678 | the displayed total gain differs from the sum of the two displayed parts by at most 0.01 |
| `TaxLots.FifoMaximisesLongTerm` | internal/service/rm_analytics.go:650-672 | with lots oldest first, no other choice of as many units has more units aged at least 365 days |
| `GoalProjection.ComputeGoalProjections` | internal/service/rm_advisory.go:511-597 | one report for every active goal, in order, with the n whole months of 30.44 days that fit before its deadline (none without one), and its required amount, share, projection after n months, shortfall and flags |
| `GoalProjection.ProjectIsIterate` | internal/service/rm_advisory.go:574-582 | the closed form is n months of x -> x*(1+r)+m from the current amount (at rate 0 where the assumed return is not positive) |
| `GoalProjection.RequiredIsLeast` | internal/service/rm_advisory.go:535-549 | the required amount reaches the target, and every smaller non-negative contribution misses it |
| `GoalProjection.SharesConserved` | internal/service/rm_advisory.go:566-572 | the unrounded shares of all active goals add up to the client's monthly investment |
| `GoalProjection.SharesAreFair` | internal/service/rm_advisory.go:566-568 | when anything is required, every goal's share is the same part of what it requires |
| `GoalProjection.SharesAreEqual` | internal/service/rm_advisory.go:569-571 | when nothing is required, all goals get the same share |
| `GoalProjection.ShortfallExactly` | internal/service/rm_advisory.go:574-590 | the projection misses the target exactly when the share is below the required amount, and adding the difference reaches it exactly |
| `GoalProjection.ShortfallForAnyShare` | internal/service/rm_advisory.go:545-590 | for any share, also a negative one, that equivalence fails if and only if the share is negative and not below the required amount before its clamp at zero |
| `GoalProjection.ShortTogether` | internal/service/rm_advisory.go:566-568 | goals with a required amount fall short all together or not at all: exactly when the investment is below the total required |
| `Xirr.BisectionFallback` | internal/service/rm_advisory.go:88-106 | gives no rate exactly when the values at -0.99 and 10 have the same strict sign; else the rate is the middle of the last of a chain of brackets from [-0.99, 10], each the left or right half of the one before by the sign at its middle: the first middle within 1e-6 of a root, or the one after 200 halvings |
| `Xirr.FallbackConverges` | internal/service/rm_advisory.go:88-106 | for a value not zero at -0.99 and no same strict sign at the ends, the rate is a root up to 1e-6 or the middle of a bracket of width 10.99/2^200 that keeps the sign change |
| `Xirr.BisectConverges` | internal/service/rm_advisory.go:94-105 | from any such bracket, k rounds end near a root or in a bracket 2^k times narrower |
| `Xirr.FallbackFindsRoot` | internal/service/rm_advisory.go:88-106 | for a value that crosses zero once, downwards, the rate is a root up to 1e-6, or lies within 10.99/2^k of the one root |
| `Xirr.ReturnIsCrossing` | internal/service/rm_advisory.go:53-60 | for payments at any dates followed by receipts at any dates, the present value is positive below the rate of return and negative above it, so there is only one |
| `Xirr.FallbackFindsReturn` | internal/service/rm_advisory.go:53-106 | for such a series, whose rate of return lies in the bracket, k rounds end at a root up to 1e-6 or within 10.99/2^k of that rate |
| `Xirr.KeepsSignChange` | internal/service/rm_advisory.go:90-104 | the bracket keeps a sign change in all rounds if and only if the value at -0.99 is not zero, or the first middle is a root or leaves a sign change on the right half |
| `Xirr.RootAtLeftEndIsLost` | internal/service/rm_advisory.go:90-104 | a payment of 100 and 1 received a year later return -0.99, yet the answer is at least 4.505, where the present value is at most -99 |
| `PiiPatterns.MatchLenSound` | internal/service/pii_redactor.go:20-31 | each matcher's result is a match of its pattern as the regular expression describes it |
| `PiiPatterns.MatchLenComplete` | internal/service/pii_redactor.go:20-31 | where a match of the pattern exists, the matcher finds it, so all matches from one position end at the same place |
| `PiiRedactor.FreeIffNoOccurrence` | internal/service/pii_redactor.go:38-44 | scanning finds no match exactly when no substring of the text matches |
| `PiiRedactor.PassClean` | internal/service/pii_redactor.go:38-44 | a replacement pass leaves no match of its own pattern, and creates none of a pattern already gone, for the pairs of passes that Redact needs |
| `PiiRedactor.RedactClean` | internal/service/pii_redactor.go:38-44 | for every input, no substring of the result is a phone, Aadhaar or account number |
| `PiiRedactor.PanSurvivesExactlyWhenGlued` | internal/service/pii_redactor.go:38-44 | a PAN is left in the result if and only if the text has a PAN directly followed by a phone number |
| `PiiRedactor.GluedPanExample` | internal/service/pii_redactor.go:20-26 | such a text, whose PAN survives |
| `PiiRedactor.CleanTextUnchanged` | internal/service/pii_redactor.go:38-44 | a text without any of the four patterns is left as it is |
| `PiiRedactor.RedactTwice` | internal/service/pii_redactor.go:38-44 | redacting twice is redacting once, if and only if no PAN is glued to a phone number |
| `PiiRedactor.AccountsAreLonger` | internal/service/pii_redactor.go:29-31 | after the Aadhaar pass only runs of 13 to 18 digits are left to the account sweep |
| `PiiRedactor.SingleIdentifierIsTagged` | internal/service/pii_redactor.go:38-44 | a text that is one identifier becomes that identifier's tag: PAN, phone, Aadhaar for twelve digits that are no phone number with country code, account for 13 to 18 |
| `PiiExpressions.OccursIsRegex` | internal/service/pii_redactor.go:20-31 | the stretches that the four patterns describe are exactly the matches of the program's regular expressions, under a semantics of classes, repetition, options, alternatives, word boundaries and the start of the text |
| `PiiExpressions.RedactReplacesAll` | internal/service/pii_redactor.go:38-44 | redaction is, for every text, the replacement of every leftmost match of the four expressions in turn by their tags, with the phone's leading group written back |
| `PiiExpressions.RedactedMatchesNothing` | internal/service/pii_redactor.go:38-44 | the phone, Aadhaar and account expressions match nowhere in a redacted text |
| `Rounding.DoubleRounding` | internal/service/dashboard.go:416 | rounding before an addition costs at most 0.01 after it, and nothing when there is nothing to round |
| `Rounding.Round2Idempotent` | internal/service/dashboard.go:416 | rounding twice is rounding once |
| `Rounding.Round2IsNearest` | internal/service/dashboard.go:416 | rounding picks the nearest whole number of hundredths, and of two equally near ones the one away from zero |
| `Allocation.ComputeAllocation` | internal/service/portfolio_analysis.go:137-205 | the three loops and the bucket loop report the rounded plain sums, shares of the rounded amounts, and the level of the unrounded high bucket; sectors are left out |
| `Allocation.ClassesWrittenOut` | internal/service/portfolio_analysis.go:137-173 | the class sums: funds by their catalog percentages, as equity without a row, stocks as equity at the last price, active deposits as other |
| `Allocation.BucketsWrittenOut` | internal/service/portfolio_analysis.go:137-173 | the bucket sums: funds by their risk level, medium without a row, stocks high, active deposits stable |
| `Allocation.AllocationWrittenOut` | internal/service/portfolio_analysis.go:175-205 | the report from those sums: which amounts are rounded, what each percentage divides, and the level's thresholds |
| `Allocation.ClassesAndBucketsAgree` | internal/service/portfolio_analysis.go:137-173 | when every fund held has percentages that sum to 100, asset classes and volatility buckets add up to the same money |
| `Allocation.SimulatePurchase` | internal/service/portfolio_analysis.go:978-1036 | the simulation reports the amounts shown so far plus the purchase; sectors and genome are left out |
| `Allocation.PurchaseWrittenOut` | internal/service/portfolio_analysis.go:980-1003 | what a purchase adds to each class and bucket, for a listed fund and for one without a row |
| `Allocation.SimulationWrittenOut` | internal/service/portfolio_analysis.go:1003-1036 | the simulation's report from those amounts: which are rounded, what each percentage divides, and the level |
| `Allocation.SimulationIsNear` | internal/service/portfolio_analysis.go:978-1039 | for a listed fund whose percentages sum to 100, the simulated total, classes and buckets are each within 0.01 of a recomputation with the new folio |
| `Allocation.SimulationIsRecomputation` | internal/service/portfolio_analysis.go:978-1039 | where rounding is the identity before and after, the simulation is the recomputation, level and shares included; the class percentages need a positive new total |
| `Allocation.TopUpIsNewFolio` | internal/service/portfolio_analysis.go:976-977 | adding the amount to a folio already held counts like a new folio of that scheme |
| `Allocation.UnlistedFundMovesBucket` | internal/service/portfolio_analysis.go:989-997 | a fund without a catalog row is simulated into the high bucket but recomputed into the medium one; everything else agrees |
| `Allocation.TotalsDifferByUncovered` | internal/service/portfolio_analysis.go:999-1003 | for every portfolio and every listed fund the simulated total exceeds the recomputed one by the part of the purchase that the fund's percentages do not cover, up to 0.02 |
| `Allocation.TotalNeedsCompleteRow` | internal/service/portfolio_analysis.go:999-1003 | for a portfolio with a whole-cent sum, the totals before their last rounding are equal if and only if the amount is zero or the fund's percentages sum to 100 |
| `MemoryKeys.KeyIsNormal` | internal/service/memory.go:259-268 | the key is the cut of the text's words joined by underscores: at most 120 characters a-z, 0-9 and _, no underscore at the ends or doubled |
| `MemoryKeys.KeyWrittenOut` | internal/service/memory.go:259-268 | the key is the whole of the joined words up to 120 characters, and of more the first 120 without underscores at their end |
| `MemoryKeys.TrimIs` | internal/service/memory.go:157 | trimming takes away characters at both ends, only white space, and all of it |
| `MemoryKeys.FixedExactlyWhenNormal` | internal/service/memory.go:259-268 | normalization leaves a string alone if and only if it has that form |
| `MemoryKeys.KeyIsIdempotent` | internal/service/memory.go:259-268 | normalizing twice is normalizing once |
| `MemoryKeys.SameKeyExactly` | internal/service/memory.go:259-268 | texts with the same words have the same key, and while neither key is cut only those do |
| `MemoryKeys.EmptyKeyExactly` | internal/service/memory.go:259-268 | the key is empty if and only if the lower-cased text has no letter a-z and no digit |
| `MemoryStore.StateIsFoldOfHistory` | internal/repository/chat_memory_repo.go:119-145 | a fact's row exists exactly when it was written since its last deletion, and has the last content, kind and date, the largest salience, and source user once any of those writes had it |
| `MemoryStore.MemoryService.FactIsFold` | internal/repository/chat_memory_repo.go:119-154 | the same of the service object: after any calls, each fact row is the fold of the writes since its last deletion |
| `MemoryStore.SummaryKeyIsReserved` | internal/repository/chat_memory_repo.go:29-30 | the reserved summary key is no normal form, so no text normalizes to it |
| `MemoryStore.RunKeepsSummaryApart` | internal/repository/chat_memory_repo.go:30-30 | in every state the rows under the reserved key are exactly the summaries, with salience 0 and source auto, and every other row has a normal key |
| `MemoryStore.FactsLeaveSummary` | internal/repository/chat_memory_repo.go:119-145 | a fact write changes no summary, and filtering by kind leaves out exactly the summary rows |
| `MemoryStore.SummaryLeavesFacts` | internal/repository/chat_memory_repo.go:171-184 | setting the summary changes no fact, and of an existing summary only text and date |
| `MemoryStore.DeleteRemovesOwnRow` | internal/repository/chat_memory_repo.go:147-154 | a deletion removes the row with that id if it is the user's own, and no other row |
| `MemoryStore.ObserveWritesAreGood` | internal/service/memory.go:157-189 | one exchange stores at most six facts, none under the empty key, each with a normal key, an own kind and a salience from 1 to 5 |
| `MemoryStore.ObserveKeepsFirstSix` | internal/service/memory.go:157-189 | an exchange stores exactly the first six of the memories that are good and whose write succeeds, in order |
| `MemoryStore.SummaryWrittenOut` | internal/service/memory.go:190-197 | the new summary is the trimmed one, cut at 600 characters, and none when it is blank or the old one |
| `MemoryStore.ServiceWritesOnlyFacts` | internal/service/memory.go:113-197 | no run of pinned texts, exchanges and deletions writes a fact over a summary |
| `MemoryStore.LetterlessPinsShareOneRow` | internal/service/memory.go:125-132 | pinned texts without a letter a-z or a digit share the empty key, so each replaces the one before |
| `MemoryStore.MemoryService.UpsertRow` | internal/repository/chat_memory_repo.go:119-145 | afterwards the topic has the new content, kind and date, a salience that is the larger one, source user if either had it, and its old id or a new one; every other row is as before. The table stays the fold of all statements so far |
| `MemoryStore.MemoryService.SetSummaryRow` | internal/repository/chat_memory_repo.go:171-184 | afterwards the user's summary has the new text and date and its old id and, as long as only the service writes, is a summary of salience 0; every other row is as before. The table stays the fold of all statements so far |
| `MemoryStore.MemoryService.ForgetRow` | internal/repository/chat_memory_repo.go:147-154 | says whether the user has a row with that id; then exactly that one row is gone, otherwise nothing changes. The table stays the fold of all statements so far |
| `MemoryStore.MemoryService.AddUserMemory` | internal/service/memory.go:113-133 | fails exactly for a blank text or a failed write, and then changes nothing; else the user has the trimmed text under its key, with the kind asked for (a fact for none or for a summary), source user and a salience of at least 5, by one statement. No other user's row changes |
| `MemoryStore.MemoryService.Observe` | internal/service/memory.go:140-197 | nothing for a blank message or without an extraction; else the loop with its limit of six and its skips executes the fact statements, and then the new summary if there is one and its write succeeds; they write no fact over a summary and touch no other user's row |
| `Mirror.Replace` | internal/repository/idbi_repo.go:140-193 | the loop of upserts and the prune are the replacement; a fault at any statement or at the commit changes nothing |
| `Mirror.ReplacedExactly` | internal/repository/idbi_repo.go:138-193 | afterwards the owner has exactly the keys of the list, each row is the left-to-right fold of the conflict rule from the stored row, and other owners' rows are untouched |
| `Mirror.ReplaceTwice` | internal/repository/idbi_repo.go:138-193 | under a rule that is associative and idempotent a second replacement with the same list changes nothing |
| `Mirror.FieldIsLastGiven` | internal/db/idbi_accounts.sql.go:162-171 | a field whose rule keeps given values ends as that of the last item of the key that has one, or as the stored one when none has |
| `AccountMirror.AccountRuleAbsorbs` | internal/db/idbi_accounts.sql.go:156-177 | the account rule is associative and idempotent |
| `AccountMirror.LoanRuleAbsorbs` | internal/db/idbi_loans.sql.go:184-208 | so is the loan rule |
| `AccountMirror.LinkedRuleAbsorbs` | internal/db/idbi_aa_linked_accounts.sql.go:73-84 | so is the rule for linked accounts |
| `AccountMirror.AccountKeys` | internal/repository/idbi_repo.go:149-151 | the user has exactly the reported account numbers afterwards, and no other user's account changes |
| `AccountMirror.AccountAfterSync` | internal/db/idbi_accounts.sql.go:162-176 | type, status, ledger, available, effective and lien balance of an account are those of its last report, and so is the currency, or INR when that is blank |
| `AccountMirror.AccountHolderAfterSync` | internal/db/idbi_accounts.sql.go:165-167 | customer and holder fields are each the last non-blank ones among the account's reports, or the stored ones when all are blank |
| `AccountMirror.AccountBranchAfterSync` | internal/db/idbi_accounts.sql.go:169-171 | so are the branch fields and the opening date |
| `AccountMirror.SyncAccountsTwice` | internal/repository/idbi_repo.go:138-193 | syncing the same accounts twice is syncing them once |
| `AccountMirror.LoanAfterSync` | internal/db/idbi_loans.sql.go:191-207 | customer, holder and opening date of a loan are each the last given ones or the stored ones; every other field is that of the last report |
| `AccountMirror.LoanKeys` | internal/repository/idbi_repo.go:247-249 | the user has exactly the reported loans afterwards, and no other user's loan changes |
| `AccountMirror.LinkedAfterSync` | internal/db/idbi_aa_linked_accounts.sql.go:73-84 | a linked account is as last reported, with the time of its first link |
| `AccountMirror.SyncLoansTwice` | internal/repository/idbi_repo.go:237-295 | syncing the same loans twice is syncing them once |
| `AccountMirror.LinkedKeys` | internal/repository/idbi_aa_repo.go:223-227 | the link references kept are exactly the input's that are not blank |
| `AccountMirror.LinkedAtIsKept` | internal/db/idbi_aa_linked_accounts.sql.go:73-84 | an account that stays linked keeps the time of its first link |
| `AccountMirror.SyncLinkedTwice` | internal/repository/idbi_aa_repo.go:211-250 | replacing the linked accounts with the same list at any later time changes nothing |
| `AccountMirror.MirrorRepository.ReplaceAccounts` | internal/repository/idbi_repo.go:140-193 | the accounts become the replacement that the lemmas above describe, or stay as they were on a fault |
| `AccountMirror.MirrorRepository.ReplaceLoans` | internal/repository/idbi_repo.go:238-295 | the loans become the replacement, or stay as they were on a fault |
| `AccountMirror.MirrorRepository.ReplaceLinkedAccounts` | internal/repository/idbi_aa_repo.go:213-250 | the handle's linked accounts become the replacement, or stay as they were on a fault |
| `SlotAllocator.ConnectAccounts` | internal/handler/aa_handler.go:443-517 | the nested loops choose the specified accounts over the pool of seventeen banks; a request for nothing is an error |
| `SlotAllocator.SelectionIsFresh` | internal/handler/aa_handler.go:471-517 | no two chosen accounts have the same bank|number key, and none has a key already linked |
| `SlotAllocator.ChosenIsWanted` | internal/handler/aa_handler.go:487-499 | only selected candidates are chosen, and every selected candidate is linked afterwards |
| `SlotAllocator.ChosenIsFilter` | internal/handler/aa_handler.go:487-499 | while candidates differ in bank and number, the chosen ones are exactly the selected candidates that are not linked, in order |
| `SlotAllocator.AddOneBank` | internal/handler/aa_handler.go:505-517 | each occurrence of a bank to add gets the lowest of its two slots whose bank|number key is free at its turn, or nothing when both are taken |
| `SlotAllocator.ResendSelectsTheRest` | internal/handler/aa_handler.go:487-499 | if the inserts stop after n of the selected accounts, sending the same ids again chooses exactly the others; after a complete insert it chooses nothing |
| `SlotAllocator.ResendAddsNothingExactly` | internal/handler/aa_handler.go:501-517 | sending a whole request again adds nothing if and only if every slot of every bank to add is linked by then |
| `SlotAllocator.ThreeTries` | internal/handler/aa_handler.go:501-517 | asking for one new bank three times connects its first slot, then its second, then nothing |
| `SlotAllocator.ResendAddsNothingForRequest` | internal/handler/aa_handler.go:501-517 | in terms of the request alone: sending it again adds nothing if and only if it names each of its banks at least as often as that bank had free slots besides the selected ones |
| `SlotAllocator.NoKeyIsInsertedTwice` | internal/handler/aa_handler.go:548-571 | over any series of requests, however each one's inserts end, no key is inserted twice while nothing is unlinked |
| `SlotAllocator.KeyAgainOnlyAfterUnlink` | internal/handler/aa_handler.go:721-724 | over every run of requests and unlinks, a key is inserted again only if every earlier row with it had been unlinked before |
| `SlotAllocator.LiveKeysAreDistinct` | internal/handler/aa_handler.go:590-606 | over every such run no two linked accounts have the same key |
| `SlotAllocator.SelectedAgainExactly` | internal/handler/aa_handler.go:590-606 | a request for selected ids inserts a key if and only if a selected candidate has it and every row with it is unlinked |
| `ExistenceCache.AnswersAreRecentLookups` | internal/middleware/auth.go:59-84 | in every interleaving each answer is the outcome of a lookup for the same user: the call's own, or one that began less than 90 seconds before the call read the clock |
| `ExistenceCache.RunKeepsInv` | internal/middleware/auth.go:59-84 | every entry and every answer keeps pointing at such a lookup through every step of every run |
| `ExistenceCache.SweepChangesHitExactly` | internal/middleware/auth.go:76-82 | a sweep changes what a call finds if and only if that call read the clock before the entry expired and the sweeper after it |
| `ExistenceCache.SweepIsInvisible` | internal/middleware/auth.go:72-82 | as long as no call checks with a clock reading older than a sweep's, the run with the eviction and the run without it make the same lookups and give the same answers |
| `ExistenceCache.SweepCanChangeAnswer` | internal/middleware/auth.go:76-82 | a run with more than 10,000 accounts in which a late call is answered from the cache without the eviction, and with it has to look the account up and can be told the opposite |
| `ExistenceCache.FailedLookupIsServed` | internal/middleware/auth.go:68-72 | in every reachable state: after a failed lookup is stored, another call for the user is answered from it that there is no such account if and only if it read the clock less than 90 seconds after the failed call did; otherwise it looks the account up itself |
| `ExistenceCache.FailedLookupRun` | internal/middleware/auth.go:59-84 | a run of seven steps in which that happens |
| `ExistenceCache.StoredLookupIsServed` | internal/middleware/auth.go:59-84 | the same for every outcome, in every reachable state: once a lookup is stored, another call for the user that read the clock less than 90 seconds after the storing one is answered with that outcome, and any other looks the account up itself |
| `ExistenceCache.CheckExactly` | internal/middleware/auth.go:60-67 | in every reachable state a check is answered exactly by an entry that expires after the call's clock reading, and changes nothing but the call |
| `ExistenceCache.StoreExactly` | internal/middleware/auth.go:70-84 | a store writes the outcome for 90 seconds from the call's clock reading, and beyond 10,000 entries removes exactly those that expired before that reading |
| `ExistenceCache.SharedCache.CheckExists` | internal/middleware/auth.go:59-84 | one undisturbed call: an entry that expires after the clock reading answers and nothing changes; a miss answers with the lookup, writes it for 90 seconds and sweeps beyond 10,000 entries |
| `ExistenceCache.Sweep` | internal/middleware/auth.go:77-81 | the eviction loop removes exactly the entries that expired before the caller's clock reading |

## Left out

- ShortfallExactly: is stated for a non-negative monthly investment; what happens for negative shares is ShortfallForAnyShare.
- FallbackFindsReturn: is for payments followed by receipts; for a series in which they alternate, which can have several rates of return, only FallbackConverges holds. Real powers are a function of which the laws are demanded.
- SimulationIsNear: bounds the amounts; the level and the percentages of a simulation agree with a recomputation only where rounding is the identity, because they are taken from differently rounded amounts.
- SweepIsInvisible: needs the clock readings of the checks to be no older than those of the sweeps before them; without it the exact effect on a hit is in SweepChangesHitExactly, and SweepCanChangeAnswer has a run.
- RunKeepsLedger: takes each assignment operation as atomic; what interleaved reads and writes do to the chain is RaceKeepsLedgerExactly. Rows are ordered by insertion, while the table orders them by the start time of their transactions.
- TokensAreSingleUse: deleting a user, which deletes the user's tokens, is not a step of the token model.
- EmptyKeyExactly: the Unicode lower-case and white-space tables are parameters of which only what the key needs is demanded.
- AddUserMemory: the cut of a pinned text at 400 bytes is a given function, since it may split a character.
- ComputeRiskStats: the volatility figure and the number of days asked for are not part of the report.
- ComputeAllocation: sector exposure is not part of the result.
- SimulatePurchase: the genome and the unchanged list of sectors are not part of the result.
- TotalNeedsCompleteRow: needs a whole-cent sum and speaks of totals before their last rounding; TotalsDifferByUncovered has neither limit.
- KeyAgainOnlyAfterUnlink: unlinking sets the mark of a stored row; revoking the feed of a bank account mirrored from the own bank, and accounts added by hand, are no steps.
- AccountAfterSync: the time of the synchronization is not part of a mirrored row.
- CheckExists: is one undisturbed call; the interleaved form is the step relation of the same module.
- Monthly returns; ELSS lock-in sums and the stock price query in `computeTaxLens`.
- Newton's iteration in `xirr`; the value function is a parameter of the fallback.
- Floating-point error: all amounts are exact reals, and a division by a zero total is an absent value.
- The per-holding breakdown and the scores in `Allocation`.
- The ordering and limit of `TopFacts`, expiry dates (the service never sets one) and the prompts and model calls around the memory service; the guard against identifiers is a parameter.
- Conversion of amounts to database numerics and parsing of the bank's date texts: the mirror starts from parsed values.
- Two connect requests of one user at the same time, and seeding of dependent demo data after the first account.
- HTTP handlers, routing, JSON, WebSocket framing, logging, configuration, JWT signing, hashing and encryption, and the clients of other services.
- SQL planning and isolation beyond atomic statements, row locks, commit and rollback.
