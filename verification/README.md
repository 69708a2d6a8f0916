# Buy an Answer: the money lifecycle, verified

An asker pays USDC into an escrow contract under a reference that stands for a database row; the
answerer answers, declines, or lets the deadline pass; the contract emits an event for each step; an
indexer folds those events into the rows, while the API and a sweep write the same rows. This project
models that lifecycle from the contract's storage to the database row, and proves it keeps money and
records straight. Three small cores stand beside it: the USDC decimal codec, the UUID/ref codec and the
fixed-window rate limiter.

## How it is laid out

- **The escrow.** `EscrowSpec` says what every entry point does, as a function from states to outcomes: it
  either reverts, leaving the state alone, or returns the next state. A state is the contract's storage,
  the token ledger, the emitted events and one history variable for donations. `EscrowContract` is the
  contract in its own form, a class whose entry points change storage step by step and undo it on revert,
  each proved equal to its function. `EscrowSafety` proves solvency over every run, `Reentrancy` proves it
  with a token that calls back in the middle of a transfer, `EscrowChange` gives a compact account of each
  transaction, `EscrowLaws` says of each entry point on its own when it succeeds, why it is refused and the
  whole state it leaves, `EscrowLedger` gives the exact per-account ledger and why no money gets stuck while
  the contract is not paused, `EscrowFlow` ties that ledger to the tokens that actually move and to the fee
  rates in force, `EscrowPause` says exactly when a pause can lock money in, `EventSourcing` that the events
  determine the records.
- **The indexer.** `Events` and `Chain` hold normalisation, order and block ranges. `MoneyFold` is one
  row's fold and its closed form, `Tables` and `Store` the tables and their atomic statements, `Reconcile`
  the pass, `Sweep` the deletion of abandoned drafts, `Api` the API's writes.
- **The whole system.** `System` interleaves any number of mints, passes, sweeps, saves and publishes,
  statement by statement, over a chain that grows and reorganises, and kills requests between any two of
  them. `SystemSafety` is the invariant, `SystemRuns` what it means for whole runs, `Races` the three races
  that the code leaves open and exactly what they cost, `SoloPass` and `SoloRequests` that a request of
  the step system that is not interrupted is the reconcile method, or the route, or the sweep.
- **The composition.** `Mining` turns blocks of escrow transactions into blocks of logs, and shows that the
  reader makes the same events of them in whatever order a node serves them; `Mirror`
  proves that such a chain has the shape the indexer relies on, and that every reachable database agrees
  with the contract at one point of the run of whatever transactions were mined; `Quiescence` says which
  point when the indexer is at rest.
- **Real runs.** `EscrowWitness` and `SystemWitness` give the transactions and the interleavings that reach
  the cases listed under Findings which a real contract and a real system can reach.
- **The cores.** `Decimal` and `Usdc`, `Ref`, `RateLimit`. `Prelude` and `Sums` are shared.

Time is a parameter of every call. The canonical chain may change in each step as long as it does not get
shorter and the blocks with enough confirmations stay; a node's head may lag behind it, and a range query is
answered in full but in any order. The database starts with no indexed row, and with no cursor row or one
that a migration has seeded at the start block. What an external call returns is chosen freely.

## Findings

- **Replay is not harmless on every log.** On a log where a ref is settled before it is asked, replaying
  the settle fires it (`MoneyFold.ReplayCanFire`). Replay is inert exactly when the ask comes first
  (`MoneyFold.ReplayInertIff`); the contract's logs always have that shape
  (`Mirror.MinedChainIsEscrowChain`).
- **An ask in the deployment block is never indexed.** `packages/shared/src/contracts/deployments.ts:51`
  asks that the start block be the exact deployment block, and the first pass begins one block later. Nothing
  is missed exactly when no ask with a row's ref lies in the blocks up to the start block
  (`Reconcile.StartBlockIff`); `EscrowWitness.DeploymentBlockAskIsLost` is an escrow whose ask is lost. The
  mirror assumes that those blocks emit no question event.
- **An answer body can change after the answer is indexed.** The save checks the status and then writes. The
  body, or its absence, is frozen in every continuation exactly when no save of another body had already
  passed its check (`Races.BodyFrozenIff`); `SystemWitness.LateSaveIsReachable` reaches the other case.
- **`revealed_at`, and the `answeredAt` shown from it, can stay null for good.** The body itself is shown as
  soon as the status is answered. An answered row's reveal time that is null can still be set exactly when
  some pass is between the update and the reveal, and there is a draft or a first save about to write one
  (`Races.RevealIsPossibleIff`). It stays null after a kill between the two statements
  (`SystemWitness.UnrevealedByKill`), and with no kill when a first save that passed its check writes after
  the reveal found no draft (`SystemWitness.UnrevealedWithoutKill`).
- **A sweep deletes a draft that is paid but not indexed yet.** `workers/indexer/src/lib/sweep.ts:42-43`
  leaves a draft paid in the meantime for the indexer, but the guard reads the row, and the row shows a
  payment only once its ask has been applied. A draft of this chain is an orphan exactly when it is old and
  its ask is not applied (`Races.OrphanIff`), and a selected draft survives the delete exactly when it is young
  or its ask is applied (`Races.SweepSparesIff`). After an indexer outage longer than the age limit a paid
  draft goes (`SystemWitness.PaidDraftIsSwept`): the question stays open in the contract, its ask matches no
  row, and no continuation brings the row back (`Races.GoneForever`).
- **A pause can outlive the owner.** `contracts/src/BuyAnAnswerEscrow.sol:45-47` bounds the window so that
  funds are never locked for an unreasonable time, but reclaiming stops while paused. An open question can
  ever be settled exactly when the contract is not paused or still has an owner who can act
  (`EscrowPause.SettleableIff`). After a pause and a renounced ownership every open amount stays for good
  (`EscrowPause.StoppedForever`, `EscrowWitness.PauseOutlivesOwner`).
- **Refs are not unique on chain.** Settle events are matched by ref, so a second question under a ref can
  settle the row of the first (`EscrowWitness.SecondAskTakesTheRow`). For every row, however often its ref
  was asked, the row carries the id, amount and deadline of the first question under it and is open exactly
  while all of them are, and it is that question's record exactly when the first settle under the ref has that
  question's outcome, or there is none and it is open (`Mirror.RecordIff`, carried by
  `Mirror.EndToEndMirror`). While the first question is open, that is when all questions under the ref are
  open (`Mirror.OpenRecordIff`); a row whose ref was asked once always is (`Mirror.AskedOnceIsExact`).

## Model

| member | source | states |
|---|---|---|
| EscrowContract.Escrow.constructor | contracts/src/BuyAnAnswerEscrow.sol:104-108 | a new contract starts unpaused, with id 1 next, no questions, no credits and the given parameters |
| EscrowContract.Deploy | contracts/src/BuyAnAnswerEscrow.sol:90-109 | construction fails on a zero owner, token or fee address, a fee above its cap or a window outside 1..30 days, and otherwise yields exactly that initial state |
| EscrowContract.Escrow.CreateQuestion | contracts/src/BuyAnAnswerEscrow.sol:150-170 | the shared private part reverts on a zero answerer or amount, or records an open question under the next id with deadline now + window, and emits the ask |
| EscrowContract.Escrow.AskQuestion | contracts/src/BuyAnAnswerEscrow.sol:116-125 | an ask either leaves everything as it was, also when the transfer fails after storage was written, or escrows exactly the amount and returns the id |
| EscrowContract.Escrow.AskQuestionWithPermit | contracts/src/BuyAnAnswerEscrow.sol:128-146 | the same when a best-effort permit may first set the allowance; a failed permit changes nothing |
| EscrowContract.Escrow.Settle | contracts/src/BuyAnAnswerEscrow.sol:186-193 | the effects of a settlement: terminal status, both credits and the event, or nothing at all if a credit overflows |
| EscrowContract.Escrow.AnswerQuestion | contracts/src/BuyAnAnswerEscrow.sol:177-194 | only the answerer, only while open: the answerer is credited less the answer fee and the fee address gets the fee |
| EscrowContract.Escrow.DeclineQuestion | contracts/src/BuyAnAnswerEscrow.sol:197-206 | only the answerer, only while open: the asker is credited in full |
| EscrowContract.Escrow.CancelQuestion | contracts/src/BuyAnAnswerEscrow.sol:209-226 | only the asker, only while open and before the deadline: the asker is credited less the cancel fee |
| EscrowContract.Escrow.ReclaimQuestion | contracts/src/BuyAnAnswerEscrow.sol:229-239 | anyone, while open and from the deadline on: the asker is credited in full |
| EscrowContract.Escrow.Withdraw | contracts/src/BuyAnAnswerEscrow.sol:248-256 | moves exactly the caller's credit out and zeroes it, paused or not, or restores it when the transfer fails |
| EscrowContract.Escrow.SetAnswerFee | contracts/src/BuyAnAnswerEscrow.sol:263-267 | only the owner, only up to the cap; nothing else changes |
| EscrowContract.Escrow.SetCancelFee | contracts/src/BuyAnAnswerEscrow.sol:270-274 | only the owner, only up to the cap; nothing else changes |
| EscrowContract.Escrow.SetAnswerWindow | contracts/src/BuyAnAnswerEscrow.sol:277-281 | only the owner, only within 1 second to 30 days; nothing else changes |
| EscrowContract.Escrow.SetFeeAddress | contracts/src/BuyAnAnswerEscrow.sol:284-288 | only the owner, never the zero address; nothing else changes |
| EscrowContract.Escrow.SetPaused | contracts/src/BuyAnAnswerEscrow.sol:291-298 | only the owner; pausing twice or unpausing twice reverts |
| EscrowContract.Escrow.TransferOwnership | contracts/src/BuyAnAnswerEscrow.sol:29 | only the owner names a candidate, and stays owner meanwhile |
| EscrowContract.Escrow.AcceptOwnership | contracts/src/BuyAnAnswerEscrow.sol:29 | only the candidate becomes owner |
| EscrowContract.Escrow.RenounceOwnership | contracts/src/BuyAnAnswerEscrow.sol:29 | only the owner, after which there is neither owner nor candidate |
| EscrowContract.Escrow.Revert | contracts/src/BuyAnAnswerEscrow.sol:124 | a revert leaves contract and token exactly as before the call |
| EscrowContract.Erc20.TransferFrom | contracts/src/BuyAnAnswerEscrow.sol:124 | succeeds exactly when allowance and balance suffice, moves the amount and consumes all but a maximal allowance |
| EscrowContract.Erc20.Transfer | contracts/src/BuyAnAnswerEscrow.sol:253 | succeeds exactly when the recipient is not zero and the balance suffices, and moves the amount |
| EscrowContract.Erc20.Permit | contracts/src/BuyAnAnswerEscrow.sol:142-144 | sets the allowance, or changes nothing |
| EscrowContract.Play | contracts/src/BuyAnAnswerEscrow.sol:116-298 | any sequence of transactions takes the contract object through the specified run, and keeps a solvent one solvent after each |
| EscrowSafety.SharesSplitAmount | contracts/src/BuyAnAnswerEscrow.sol:182-184 | payout and fee add up to the amount, and the fee is the stored rate of it over ten thousand, rounded down; an answer pays at least nine tenths, a cancel refunds at least nineteen twentieths, a decline or reclaim refunds everything |
| EscrowSafety.SettlementReduces | contracts/src/BuyAnAnswerEscrow.sol:177-239 | all four settlements are one operation on the entitlement of their outcome, and revert for anyone who may not settle |
| EscrowSafety.TransactionKeepsSolvency | contracts/src/BuyAnAnswerEscrow.sol:24-26 | every transaction by anyone, including owner activity, token transfers from outside and coinciding asker, answerer and fee address, keeps the escrow solvent |
| EscrowSafety.SolventForever | contracts/src/BuyAnAnswerEscrow.sol:24-28 | in every reachable state the token balance is the open amounts plus all credits plus direct donations, exactly |
| Reentrancy.LockHolds | contracts/src/BuyAnAnswerEscrow.sol:118-119 | while a token call is in progress every fund-moving entry point reverts and nothing that can run changes a question, a credit or the lock |
| Reentrancy.NextIsSafe | contracts/src/BuyAnAnswerEscrow.sol:116-146 | each step of a token that calls back keeps the suspended-call equation: short by the amount inside an ask, over by it inside a withdrawal |
| Reentrancy.SafeUnderReentrancy | contracts/src/BuyAnAnswerEscrow.sol:248-256 | whatever the token does in whatever order, the equation holds at every moment and full solvency when the outer call returns |
| Reentrancy.SuspendedWithdrawalIsCovered | contracts/src/BuyAnAnswerEscrow.sol:252-253 | a withdrawal suspended before its transfer always finds its money |
| Reentrancy.UninterruptedAskIsAtomic | contracts/src/BuyAnAnswerEscrow.sol:116-146 | with a token that does not call back, the suspended form of an ask is the entry point, whether it succeeds or reverts |
| Reentrancy.UninterruptedWithdrawalIsAtomic | contracts/src/BuyAnAnswerEscrow.sol:248-256 | with a token that does not call back, the suspended form of a withdrawal is the entry point, whether it succeeds or reverts |
| EscrowChange.Summary | contracts/src/BuyAnAnswerEscrow.sol:116-298 | every transaction asks one question, settles one, pays one account, or leaves records and credits alone, and emits exactly the event of that change |
| EscrowLaws.AskSucceedsIff | contracts/src/BuyAnAnswerEscrow.sol:116-170 | in a solvent state an ask succeeds exactly when the contract is not paused, answerer and amount are not zero, id and deadline fit their words, and the asker's balance and its allowance or permit suffice |
| EscrowLaws.AskRefused | contracts/src/BuyAnAnswerEscrow.sol:116-170 | which of these conditions an ask that fails is refused for |
| EscrowLaws.AskLeaves | contracts/src/BuyAnAnswerEscrow.sol:150-170 | the record, ref, event, balances and allowance after a successful ask, and that nothing else changes |
| EscrowLaws.SettlementLeaves | contracts/src/BuyAnAnswerEscrow.sol:177-239 | a settlement credits the answerer or the asker with the amount less the exact fee of the stored answer or cancel rate, and the fee address with that fee; nothing else changes |
| EscrowLaws.SettlementRefused | contracts/src/BuyAnAnswerEscrow.sol:177-239 | why a settlement is refused: pause, status, caller or deadline |
| EscrowLaws.SettlementEmits | contracts/src/BuyAnAnswerEscrow.sol:193-238 | the one event of each settlement, with its id and ref |
| EscrowLaws.CreditIsChecked | contracts/src/BuyAnAnswerEscrow.sol:188-191 | crediting adds exactly the amount to one account, and fails exactly on a 256-bit overflow |
| EscrowLaws.WithdrawalLeaves | contracts/src/BuyAnAnswerEscrow.sol:248-256 | the sender receives exactly its credit in tokens, the escrow's balance falls by as much, no other balance moves, the credit is zeroed and the event logged; without credit it is refused |
| EscrowLaws.LockedRefused | contracts/src/BuyAnAnswerEscrow.sol:116-248 | while a call is suspended, every guarded entry point is refused as reentrant, unless the pause comes first |
| EscrowLaws.AdminLeaves | contracts/src/BuyAnAnswerEscrow.sol:263-298 | each administrative call succeeds exactly for its caller and within 1000 and 500 basis points and 1 to 2592000 seconds, and then stores exactly the value asked for |
| EscrowLaws.AdminRefused | contracts/src/BuyAnAnswerEscrow.sol:263-298 | why an administrative call is refused |
| EscrowLaws.DeploymentLeaves | contracts/src/BuyAnAnswerEscrow.sol:90-109 | when a deployment fails, and that one that succeeds stores its parameters where they belong and starts empty |
| EscrowFlow.TokensFollowTheLog | contracts/src/BuyAnAnswerEscrow.sol:116-256 | over every run, the tokens an account received from the escrow are those it withdrew, and those it gave are the amounts it asked with |
| EscrowFlow.PaidWhatIsOwed | contracts/src/BuyAnAnswerEscrow.sol:177-256 | what an account can still withdraw plus the tokens it received are its shares of the settled questions |
| EscrowFlow.FeesOfTheirTime | contracts/src/BuyAnAnswerEscrow.sol:182-217 | the fee of every settlement of a run is that of the rate and fee address stored when it happened |
| EscrowLedger.SettlesAtMostOnce | contracts/src/BuyAnAnswerEscrow.sol:19-20 | in every continuation a question keeps its parties, amount and deadline, and once settled its status never changes |
| EscrowLedger.LedgerIsExact | contracts/src/BuyAnAnswerEscrow.sol:177-256 | for every account, credit plus lifetime withdrawals is the sum of its shares over settled questions; each settled question is shared out once, to its exact amount, with the exact fee of its rate and within the caps of its outcome |
| EscrowLedger.SettlementSucceedsIff | contracts/src/BuyAnAnswerEscrow.sol:177-239 | in a solvent state a settlement succeeds exactly when its caller may settle: no checked addition overflows |
| EscrowLedger.WithdrawalSucceedsIff | contracts/src/BuyAnAnswerEscrow.sol:246-256 | a withdrawal succeeds exactly when there is a credit, paused or not |
| EscrowLedger.AskerCanAlwaysLeave | contracts/src/BuyAnAnswerEscrow.sol:213-232 | while a question is open and nothing is paused, its asker can either cancel or reclaim, and never both |
| EscrowLedger.LockedAtMostThirtyDays | contracts/src/BuyAnAnswerEscrow.sol:45-47 | whatever the owner does, a question still open thirty days, 2592000 seconds, after its ask can be reclaimed in any unpaused state |
| EscrowLedger.MoneyIsNeverStuck | contracts/src/BuyAnAnswerEscrow.sol:229-256 | from every reachable unpaused state with overdue questions, reclaiming each and withdrawing each credit never reverts and leaves only donations and what was credited to the escrow's own address |
| EscrowLedger.DrainExists | contracts/src/BuyAnAnswerEscrow.sol:229-256 | such a drain exists from every reachable unpaused state in which all open deadlines have passed |
| EscrowPause.StoppedForever | contracts/src/BuyAnAnswerEscrow.sol:291-298 | a paused contract with no owner and no candidate who can act keeps every question and every open amount in every continuation |
| EscrowPause.SettleableIff | contracts/src/BuyAnAnswerEscrow.sol:45-47 | in every reachable state an open question can ever be settled exactly when the contract is not paused or has an owner who can act |
| EscrowPause.EscrowEmptiesIff | contracts/src/BuyAnAnswerEscrow.sol:229-239 | and all open amounts can ever be settled exactly when there are none or the same holds |
| EventSourcing.LogRebuildsRecords | contracts/src/BuyAnAnswerEscrow.sol:150-239 | replaying the events of any run rebuilds the questions, their refs and the next id exactly |
| EventSourcing.OneLifePerQuestion | contracts/src/BuyAnAnswerEscrow.sol:150-239 | in every run each id has exactly one ask before at most one settle, all under one ref, and is open until that settle |
| Events.StatusForEvent | workers/indexer/src/events.ts:43-48 | no event maps to the empty table entry, and each maps to the status its name tells |
| Events.NormalizedFields | workers/indexer/src/events.ts:106-147 | a log is read exactly when it is mined, is one of the five events and has its arguments, and then keeps id, ref, place, name and terms |
| Events.GetLogs | workers/indexer/src/chain.ts:45-58 | the reader's loop returns the event of every log that is one, from its own log, in order, and nothing else |
| Events.NormalizedPermutes | workers/indexer/src/chain.ts:45-58 | logs in another order read to the same events in another order |
| Events.FinalizedHead | workers/indexer/src/chain.ts:39-43 | the head less the confirmations, and zero rather than negative |
| Events.OrderIsByPlace | workers/indexer/src/events.ts:149-153 | events are ordered by block, and within a block by log index |
| Events.SortEvents | workers/indexer/src/reconcile.ts:230 | sorting returns the same events in nondecreasing block and log order |
| Events.SortIsCanonical | workers/indexer/src/events.ts:150-153 | whatever order a reply comes in, sorting it gives the one canonical order of its events |
| MoneyFold.FoldClosedForm | workers/indexer/src/reconcile.ts:109-167 | on any list of events a draft ends with the terms of the first ask for its ref and the status of the first settle after it; all else is inert |
| MoneyFold.RankNeverDrops | workers/indexer/src/reconcile.ts:120-153 | the status never goes back, a settled row never changes, and the terms are never rewritten |
| MoneyFold.ReplayInertIff | workers/indexer/src/reconcile.ts:5-13 | re-applying events of an applied prefix changes nothing exactly on logs where a ref's ask precedes its settles |
| MoneyFold.ReplayStretch | workers/indexer/src/reconcile.ts:5-13 | on such logs re-applying any stretch of an applied prefix changes nothing |
| MoneyFold.ReplayCanFire | workers/indexer/src/reconcile.ts:144-154 | a log, settle before ask, on which a replay does change the row |
| Tables.FoldIsPerRow | workers/indexer/src/reconcile.ts:87-168 | applying any list of events whose ids identify rows never fails, creates or removes no row, and folds each row by its own events only |
| Tables.CasRaisesRank | workers/indexer/src/reconcile.ts:111-156 | an applied transition raises the total status rank by exactly one, anything else by nothing |
| Tables.AppliedIsRankGained | workers/indexer/src/reconcile.ts:232-234 | the transitions a pass counts are the status ranks it gained |
| Tables.SavesCommute | workers/indexer/src/reconcile.ts:62-81 | concurrent saves of the cursor may come in any order: the furthest block wins and the cursor never moves back |
| Tables.RevealIsOnce | workers/indexer/src/reconcile.ts:159-162 | revealing again never moves a reveal time, and no other answer is touched |
| Tables.RevealSetsNow | workers/indexer/src/reconcile.ts:159-162 | a reveal sets a null reveal time to now, and keeps body and an earlier time |
| Tables.UninterruptedAnswerReveals | workers/indexer/src/reconcile.ts:156-163 | an answer event that fires without interruption leaves the draft, if there is one, revealed now, unless it was before |
| Tables.UpdateLeaves | workers/indexer/src/reconcile.ts:109-154 | the guarded update writes the terms or the status of the one row on this chain that awaits the event, and fails exactly when another row of the chain carries the id |
| Tables.UpdateKeepsIdsUnique | packages/shared/src/db/schema.ts:126 | it never leaves two rows of a chain with one id |
| Store.Database.UpdateQuestion | workers/indexer/src/reconcile.ts:111-154 | the guarded update changes exactly the matching row, reports whether one matched, and fails without effect when the unique index objects |
| Store.Database.ApplyEvent | workers/indexer/src/reconcile.ts:87-168 | one event makes at most one transition, and reveals the draft exactly when an answer event fires |
| Reconcile.ApplyAll | workers/indexer/src/reconcile.ts:232-234 | the events of a chunk are applied in order, all of them or up to the first that fails, and counted |
| Reconcile.ReconcileChunk | workers/indexer/src/reconcile.ts:228-236 | one chunk advances tables and cursor together, or stops with the cursor behind the failing event |
| Reconcile.ReconcileChunks | workers/indexer/src/reconcile.ts:220-240 | the requested ranges tile the blocks after the cursor without gap or overlap; the tables advance by the fold of those blocks, or stop at a failing event with the cursor behind it |
| Reconcile.Reconcile | workers/indexer/src/reconcile.ts:196-251 | a pass applies the fold of the blocks after the cursor up to the head or the cap and reports exactly that; if it fails, the cursor covers only what was applied |
| Reconcile.ReconcileIsPassTo | workers/indexer/src/reconcile.ts:196-251 | with ids that identify rows the reconcile method never fails, and moves rows and cursor by one fold |
| Reconcile.PassesAreOneFold | workers/indexer/src/reconcile.ts:216-240 | any number of passes to a fixed head, whatever the range, the cap and the order of replies, are one global sorted fold |
| Reconcile.HeadReachedIn | workers/indexer/src/reconcile.ts:216-218 | the head is reached after exactly ceil((head - cursor) / maxBlocksPerRun) passes |
| Reconcile.StartBlockIff | workers/indexer/src/reconcile.ts:58 | starting after the start block misses nothing exactly when no ask with a row's ref lies in the blocks up to it |
| Sweep.SweepOrphanedPendingPayments | workers/indexer/src/lib/sweep.ts:28-60 | a sweep deletes exactly min(limit, n) of the n drafts that are pending, without an id and older than the cutoff, with their answers, and nothing else |
| Sweep.DeleteSparesOthers | workers/indexer/src/lib/sweep.ts:53-57 | a selected draft whose ask was indexed before the delete survives it untouched |
| Sweep.SweepsDrain | workers/indexer/src/lib/sweep.ts:36-59 | with a fixed cutoff and no other writes, n abandoned drafts are gone after exactly ceil(n / limit) sweeps and no other row ever is |
| Api.Mint | workers/api/src/routes/questions.ts:63-74 | minting adds one unpaid private draft under a fresh id, of exactly the given chain, time, asker and answerer, and changes no other row and no rank |
| Api.DraftIsAnsweredBy | workers/api/src/routes/answers.ts:32-38 | right after a mint the answerer and nobody else can save an answer; the asker is refused by name, anyone else as if the id were unknown |
| Api.SaveAnswer | workers/api/src/routes/answers.ts:24-57 | an atomic save succeeds exactly for the answerer of a question that is not answered, looks like an unknown id to anyone but a participant, stores the body and never touches the reveal time |
| Api.Publish | workers/api/src/routes/questions.ts:148-183 | publishing succeeds exactly for the answerer of an answered question, looks like an unknown id to anyone but a participant, and makes exactly that row public |
| SystemSafety.CasExtends | workers/indexer/src/reconcile.ts:109-167 | applying the next event extends the common prefix by it, and the unique index never gets in the way |
| SystemSafety.CasReplays | workers/indexer/src/reconcile.ts:109-167 | applying an event of the prefix again matches no row |
| SystemSafety.NeverTaken | packages/shared/src/db/schema.ts:126 | the uniqueness of (chain, on-chain id) is never violated by an ask from the log |
| SystemSafety.SortedReplyInPlace | workers/indexer/src/reconcile.ts:229-233 | a reply in any order, once sorted, is the stretch of the log its range stands for |
| SystemSafety.AppliedSurvives | workers/indexer/src/chain.ts:39-43 | a reorganisation no deeper than the confirmations keeps every applied event where it was |
| SystemSafety.DoKeepsInv | workers/indexer/src/reconcile.ts:196-251 | every atomic step of every request, and every such reorganisation, keeps the system invariant |
| SystemSafety.InvForever | workers/indexer/src/reconcile.ts:196-251 | every reachable state satisfies it |
| SystemRuns.PassesLinearise | workers/indexer/src/reconcile.ts:62-81 | however passes overlap and die, the rows are the fold of one prefix of the log, the cursor is never past it, and no pass fails |
| SystemRuns.TransitionsAreCountedOnce | workers/indexer/src/reconcile.ts:231-240 | the transitions reported by completed passes never exceed the status ranks gained, and equal them when every pass ran to its end |
| SystemRuns.PaywallHolds | workers/indexer/src/reconcile.ts:144-163 | in every interleaving a reveal time implies answered, and so does being public |
| SystemRuns.ProgressForever | workers/indexer/src/reconcile.ts:62-81 | in every continuation the applied events stay canonical, the cursor never moves back, answered stays answered, a reveal time never changes, and no asked row is lost |
| SystemRuns.AskedRowSurvives | workers/indexer/src/lib/sweep.ts:36-59 | a row whose ask was applied is never swept, even if a sweep had already selected it, and keeps its asker and answerer |
| Races.BodyFrozenIff | workers/api/src/routes/answers.ts:30-52 | after the answer is indexed the body, or its absence, is frozen in every continuation exactly when no save of another body had passed its check |
| Races.RevealIsPossibleIff | workers/indexer/src/reconcile.ts:156-163 | an answered row's null reveal time can ever be set exactly when some pass is between the two statements and there is a draft or a first save about to write one |
| Races.OrphanIff | workers/indexer/src/lib/sweep.ts:36-40 | in every reachable state a draft of this chain is an orphan exactly when it is old and its ask has not been applied, whether or not it is on chain |
| Races.SweepSparesIff | workers/indexer/src/lib/sweep.ts:42-57 | the delete spares a selected draft exactly when it is young or its ask has been applied |
| Races.GoneForever | workers/indexer/src/reconcile.ts:11-13 | a row deleted while its ask is in stable blocks is in no continuation: catching up does not bring it back |
| SystemWitness.LateSaveIsReachable | workers/api/src/routes/answers.ts:30-52 | a real run after which an answered question's body can still change |
| SystemWitness.UnrevealedByKill | workers/indexer/src/reconcile.ts:156-163 | a real run, with a pass killed between the two statements, after which the draft's reveal time is null for good |
| SystemWitness.UnrevealedWithoutKill | workers/api/src/routes/answers.ts:39-52 | the same without any kill: a first save writes after the reveal found no draft |
| SystemWitness.PaidDraftIsSwept | workers/indexer/src/lib/sweep.ts:42-57 | a real run in which a sweep deletes a draft that is paid on chain, for good, while its question is open in the contract |
| SoloPass.SoloPassIsReconcile | workers/indexer/src/reconcile.ts:196-251 | from any reachable state a pass left alone completes and does what the reconcile method does |
| SoloRequests.MintAddsDraft | workers/api/src/routes/questions.ts:63-74 | a mint of the step system adds the same draft |
| SoloRequests.SoloSave | workers/api/src/routes/answers.ts:24-57 | a save that is not interrupted stores the answerer's body exactly if the question is not answered |
| SoloRequests.SoloPublish | workers/api/src/routes/questions.ts:148-183 | a publish that is not interrupted makes the one row public exactly if it is answered |
| SoloRequests.SoloSweep | workers/indexer/src/lib/sweep.ts:36-59 | a sweep that is not interrupted deletes exactly the abandoned drafts it selected |
| Mining.NewEventsAreSeen | workers/indexer/src/events.ts:106-147 | the reader sees an ask with its terms, a settle, or nothing, for each transaction of the escrow |
| Mining.MinedLog | workers/indexer/src/chain.ts:45-58 | read block by block or transaction by transaction, the log is the same |
| Mining.RepliesRead | workers/indexer/src/chain.ts:45-58 | the raw logs of a range of blocks, in whatever order, read to the events of that range |
| Mining.NodeServes | workers/indexer/src/chain.ts:45-58 | so the reader over a node that holds the escrow's chain serves the indexer exactly its blocks of events |
| Mirror.TransactionTells | contracts/src/BuyAnAnswerEscrow.sol:150-239 | each transaction keeps the log telling the contract's state, and adds at most one event |
| Mirror.MinedChainIsEscrowChain | contracts/src/BuyAnAnswerEscrow.sol:150-239 | whatever transactions it holds, the escrow's log is strictly ordered, asks each id once, and settles no ref before asking it |
| Mirror.ShallowReorgSuffices | workers/indexer/src/chain.ts:39-43 | for such chains the indexer needs nothing of a reorganisation except that it is shallow |
| Mirror.ReplayIsInertOnChain | workers/indexer/src/reconcile.ts:5-13 | on the escrow's log re-applying any stretch of an applied prefix changes no row |
| Mirror.EndToEndMirror | workers/indexer/src/reconcile.ts:87-251 | in every reachable state, whatever transactions were mined on its chain, there is one point of their run at which every row of this chain has the id, amount and deadline of the first question under its ref, is open exactly while all of them are, equals the record exactly when the first settle under the ref is that question's own, and always does if the ref was asked once; a row never asked is a draft; no event up to the cursor lies beyond that point |
| Mirror.OpenRecordIff | workers/indexer/src/reconcile.ts:144-154 | while the first question under a ref is open, its row equals the contract's record exactly when every question under the ref is open |
| Mirror.RecordIff | workers/indexer/src/reconcile.ts:144-154 | however often its ref was asked, a row equals the record of the first question exactly when the first settle under the ref has that question's outcome, or there is none and the question is open |
| Mirror.AskedOnceIsExact | workers/indexer/src/reconcile.ts:109-154 | a row whose ref was asked once equals the contract's record: status, id, amount and deadline |
| EscrowWitness.SecondAskTakesTheRow | workers/indexer/src/reconcile.ts:144-154 | two asks under one ref and a decline of the second: the row is declined while the first question is open in the contract |
| EscrowWitness.DeploymentBlockAskIsLost | workers/indexer/src/reconcile.ts:58 | an escrow asked in its start block: the question is open in the contract and its row stays pending |
| EscrowWitness.PauseOutlivesOwner | contracts/src/BuyAnAnswerEscrow.sol:291-298 | an ask, a pause and a renouncement: the question stays open with its money in every continuation |
| Quiescence.RestingMirror | workers/indexer/src/reconcile.ts:229-240 | in every reachable state where no pass is between reading a chunk and saving its end, nor was killed there with that end still beyond the cursor, the rows show the contract at the end of the cursor's block, whatever transactions were mined |
| Usdc.FormatThenParse | apps/web/app/lib/usdc.ts:26-53 | parsing the formatted form of any amount gives its canonical base units |
| Usdc.ParseThenFormat | apps/web/app/lib/usdc.ts:26-53 | formatting what an accepted display parses to gives that display's canonical form |
| Usdc.CanonicalRoundTrip | apps/web/app/lib/usdc.ts:26-53 | exactly the canonical displays survive the round trip unchanged |
| Usdc.ParsedValue | apps/web/app/lib/usdc.ts:45-53 | an accepted text stands for its decimal number times one million |
| Usdc.DisplayPattern | apps/web/app/lib/usdc.ts:47 | exactly digits, with a point and one to six digits after them or without, are accepted |
| Usdc.TrimTakesSpace | apps/web/app/lib/usdc.ts:46 | trimming takes the space at both ends, all of it and nothing else |
| Usdc.SpaceIsListed | apps/web/app/lib/usdc.ts:46 | what counts as space is exactly the 25 white space and line terminator characters |
| Usdc.MalformedIsZero | apps/web/app/lib/usdc.ts:27 | text that is not digits formats as 0 |
| Usdc.AmountsFitTheirColumn | packages/shared/src/db/schema.ts:39-40 | every 128-bit amount prints in at most 39 digits, so the column check accepts it |
| Ref.UuidRoundTrip | packages/shared/src/ref.ts:38-44 | exactly the UUIDs, in any case, encode, and decode back to their lower-case form |
| Ref.RefRoundTrip | packages/shared/src/ref.ts:53-76 | exactly the words with a zero high half decode, and encode back |
| Ref.SameUuidSameRef | packages/shared/src/ref.ts:53-63 | two refs that answer to the same row are the same word |
| Ref.SameUuidSameWord | packages/shared/src/ref.ts:53-63 | the same for 32-byte words as the contract stores them |
| Ref.UuidIsWord | packages/shared/src/ref.ts:38-63 | the word of a UUID is the number its 32 digits denote, below 2^128, and the event that carries it answers to that UUID |
| Ref.UuidPattern | packages/shared/src/ref.ts:24 | a UUID is 36 characters, dashes at four places and lower-case hex digits elsewhere |
| RateLimit.KeyInjective | packages/worker-kit/src/ratelimit.ts:58 | distinct (prefix, id, bucket) never share a key when prefixes have no colon, whatever the ids contain |
| RateLimit.CountersAreExact | packages/worker-kit/src/ratelimit.ts:60-64 | a store that may drop a key once its time has passed never loses a count that still matters |
| RateLimit.ChargeWrites | packages/worker-kit/src/ratelimit.ts:56-64 | a call writes one more than was stored under the key of its own window, to expire five seconds after a window, and touches no other key |
| RateLimit.ServeAll | packages/worker-kit/src/ratelimit.ts:48-76 | limiters called one after the other on a store that drops expired keys at will give the answers that the next row speaks of |
| RateLimit.LimiterRefinesIdealCounter | packages/worker-kit/src/ratelimit.ts:55-74 | under a clock that does not go back every answer is that of an ideal counter per id and window |
| RateLimit.AtMostTwiceTheLimit | packages/worker-kit/src/ratelimit.ts:55-74 | any span of one window's length, from whatever millisecond, admits at most twice the limit |

## Left out

- EIP-712 signatures, SIWE and ERC-1271: a permit either sets the allowance or changes nothing.
- Token behaviour beyond EIP-20, such as blacklists and upgrades; a mint stays within a 256-bit supply.
- The contract sends no transaction and approves nobody; the zero address signs nothing.
- Solidity widths: addresses are numbers; amounts, words and deadlines keep their exact bounds; wrap-around and checked-arithmetic panics are written out where they can occur.
- The four parameter events are one constructor with a name, and events of pausing and ownership are not recorded: nobody reads them.
- A transaction emits at most one question event, so its position in its block serves as the log index.
- The escrow starts from one deployment that reorganisations do not remove.
- Updated-at columns, audit logs and the outcome label of an update that matched nothing: no effect on the modelled state.
- On-chain ids too long for their column (10^39 and above), and deadlines outside the range of a JavaScript date.
- The row key of an event is computed when the log is normalised, not at the top of the event's application.
- A node that answers a range only in part: what it left out would be skipped, since the cursor moves past it. `workers/indexer/src/env.ts:84-87` asks for one consistent provider; the model takes every answer as complete up to the range's end.
- A sweep step of the whole-system model may select fewer drafts than the limit; the method selects exactly min(limit, n).
- Case folding is ASCII only: no other character folds into the alphabet of a UUID or a ref.
- Idempotency keys, minimum-price checks, list and detail routes, price validation: easy members only.
- Counter texts that the limiter did not write: `parseInt` would read a leading number, here anything but digits reads as zero.
- Concurrent calls of the rate limiter: its read and write are separate, so it is modelled for sequential calls.
- React components, the SDK, the ABI and deployment records.
