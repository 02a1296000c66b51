# Checkout saga and squad tools: a verified model

An append-only log, or a message that may be delivered twice, says what happened; the services and tools of the
repository derive from it a state that people act on. This project models the code that does so where several actors,
crashes or partial reads are involved, and proves what that code promises for all inputs, runs and interleavings. Code
that changes things in place is modelled by classes, methods and loops, each proved against a function; the promises
are lemmas about those functions and about the state machines built from them.

`dafny verify dfyconfig.toml` checks the whole project.

## What is modelled

**Inventory participant** (`StockAllocator`, `InventoryModel`, `InventoryHandler`, `InventoryConservation`,
`InventoryHistory`, `InventoryReplies`, `RowLocks`, `Quotes`). One `inventory.reserve` or `inventory.release` command
is a function on the database (stock, reservations, outbox, processed marks); the handler and the repository,
statement by statement with rollback, refine it. Over runs: stock is conserved, a release is final, replies repeat,
`noop` tells the truth, and redeliveries are harmless although the idempotency guard only words a log line.
`InventoryReplies` says from payload and tables alone what each command stores and answers. `RowLocks` splits the same
commands into steps that lock stock rows one at a time, check, debit or credit on uncommitted copies, and commit, roll
back or crash; every interleaving is serializable in commit order, the guarding throws are unreachable, and waits form
no cycle. `Quotes` is about the balances that a simulated rejection reads without a lock. Quantities are added in 32
bits, as `Integer::sum` does; which commands conserve stock all the same is characterised.

**Checkout saga** (`SagaModel`, `SagaMachine`, `SagaParticipants`, `SagaRuns`, `SagaSends`, `SagaProgress`,
`SagaStuck`, `SagaReasons`, `SagaReplies`, `SagaRoutes`, `SagaTimers`). The orchestrator's state machine in place, the
payment, shipping and order handlers, and the runs of all of them with the inventory participant above: messages are
delivered any number of times, late, in any order or never, deadlines pass at any moment. A checkout is all or
nothing, compensations go out in reverse, and no saga is stuck; what a canceled order is told is true, what payment
and shipping answer follows from their commands, and undisturbed orders take exactly the route of their kind.

**Outbox relay** (`OutboxRelay`, `RelayRuns`). One relay, concurrent writers, sends that are reported as failed and
land later, crashes that roll back marks and not sends.

**Log merge** (`LogLines`, `LogMerge`, `LogSupervisor`). Files are a heap of inodes and a path; appenders act between
any two steps of link, swap, fast-forward and re-attachment. Lines are those of Python's `splitlines`; a log may end in
the middle of one.

**Event-sourced engines.** `AlertRules`, `AlertMeaning`, `AlertKinds`, `AlertSubjects` and `AlertEngine`: alerts kept
open event by event against evaluation from scratch, and for each kind of alert which rows of the log make it open.
`Delegations`, `DelegationMeaning`, `DelegationCrashes` and `DelegationEngine`: proposals confirmed under a lock, with
foreign rows and crashes. `TestEnv`, `TestEnvMeaning`, `TestEnvRuns`, `TestEnvOrder`, `TestEnvCounts`,
`TestEnvService`: the shared test environment and `reconcile`. `ProductCodes`, `ProductForms`, `ProductLog`: task codes
by three competing rules.

**Fast forms of simple ones.** `Transcripts`, `TranscriptExactness`, `TranscriptRuns`, `TranscriptFiles`,
`TranscriptMeaning`, `TranscriptStates`: a transcript read by increments against one pass over it, and against the
parser of the whole file, and what both say of each tool. `Streaming`, `Turns`, `TurnPhases`, `ReplyBlocks`: the text
shown while a reply streams, the events that announce it, and the final one. `RecordMask`: bracket ends by one stack
equal the naive scan. `Blanks`: what Python strips.

**Image containers** (`ImageBytes`, `PngImages`, `JpegImages`, `WebpImages`, `Images`, `ImageMeaning`): stripping
metadata is printing what remains of a parse, for section 3.2 of RFC 2083, Annex B, section B.1.1 of ITU-T T.81, and
section 2 of RFC 9649.

## Where a promise needs a condition

Each of these is a promise of the code or its comments that does not hold for all inputs. For each
the exact condition is a lemma that goes both ways, so that what is outside it breaks the promise.

- Grouping keeps quantities exactly when each SKU's lines fit in 32 bits (`StockAllocator.NormalizedIsExactIffSumsFit`).
  Conservation needs less: a command is safe exactly when it debits no negative quantity, or the least integer, which
  every debit refuses (`InventoryConservation.ConservesIff`; `WrappedOrderCreatesStock` creates two units).
- The balances quoted by a simulated rejection are read without a lock and can be stale (`Quotes.QuotesCanBeStale`). The
  committed run is the serial one with fresh reads exactly when each first simulated rejection quotes the balances of
  its commit (`Quotes.LiveRunIsExactIff`).
- Alerts kept event by event are those of evaluation from scratch, after every prefix, exactly when no clarification is
  filed under another demand than the one whose open triage it answers (`AlertRules.AlwaysUpToDateIff`,
  `StrayClarificationLeavesAlert`); alerts other than triage always are (`AlertRules.OthersAreFromScratch`).
- A proposal is delegated at most once, crashes included, exactly for keys that name a target, of those a validation
  yields (`DelegationCrashes.DelegatedOnceIff`, `KeylessProposalCanRepeat`).
- The merge of `publisher.py` loses no event exactly when a log missing on disk is not shortened by the commit
  (`LogMerge.NoEventIsLostIff`, `RecreatedIsLost`), among runs whose writes start a line: an append, and the write of
  the re-attachment, is read back as written exactly then (`LogMerge.AppendIsOnTimeIff`, `UnfinishedLineLosesEvent`,
  `WriteIsOnTimeIff`, `UnfinishedWriteLosesEvent`). A write to an inode opened earlier is safe exactly when the inode is
  live or linked (`LogMerge.LateWriteIsSafeIff`). A line is one event exactly when it holds no separator that
  `splitlines` knows (`LogLines.EventIsOneLine`, `LogMerge.SeparatorBreaksEvent`).
- A transcript read by increments is one pass over it exactly when each look finds the same complete lines, if size
  and modification time are unchanged, or else the bytes already consumed still in place
  (`TranscriptExactness.OnePassIff`, `RewriteInPlaceIsMissed`). It gives the run of the whole-file parser exactly when
  the file decodes, has no JSON value that is no object, on which `parse_run` fails while `_line` goes on, and no row
  after its last newline, which only `parse_run` reads (`TranscriptFiles.SameAsWholeFile`, `UnfinishedRowIsMissed`);
  this is for files without returns inside lines, at which only `read_jsonl` splits (`SameForAllIff`). `current`
  agrees with the whole activity exactly under the conditions of `TranscriptRuns.CurrentIff` and `CurrentToolIff`.
- The derived test environment is coherent exactly when no publication occupies it with nobody (`TestEnv.CoherentIff`,
  `NamelessPublicationOccupies`). `reconcile` run again does nothing exactly when a pending republication has an open
  review or a closed demand (`TestEnvOrder.SecondRunIsIdleIff`).
- A checkout can end without the help of other orders exactly for orders whose reserve is safe in the sense above
  (`SagaProgress.NeverStuck`, `SagaStuck.EndsAloneIff`).
- A client that follows a turn holds what was sent exactly until the turn is done; from then on it holds the final
  message, and one that connects later nothing else (`Turns.ReconnectRebuilds`, `LateClientHoldsFinal`).
- Stripping twice is stripping once exactly when something of the image is left
  (`Images.StrippingTwiceIsStrippingOnce`); a size survives stripping in every file with a given header exactly when
  the header is long enough (`HeaderHoldsSizeIff` of `PngImages` and `WebpImages`, `JpegImages.FrameHoldsSizeIff`).

Where code and documentation differ the code is followed: the inventory accepts only the simulation modes OUT_OF_STOCK
and TIMEOUT, so that the TIMEOUT_ONCE branch of `ReplyPolicy` is never taken by it.

## Hypotheses

- Inventory: at most one transaction in flight per order, since the order id is the partition key; stock rows are
  never deleted; reserved is 0 at first; the database's SKU order is the order of the `TreeMap`. Row locks, transaction
  atomicity and the commit order of same-key outbox rows are taken as given.
- Log merge: git's check of the working file and its replacement are one step; an append is one open-and-write, or a
  write to an inode opened before the swap that ends before the re-attachment; every write starts a line, that of the
  re-attachment too, as the conditions above say.
- Saga: message ids that the saga draws are new; one saga for each order; the order row exists before its saga begins.
  Where a saga is claimed to end, its commands and those of other orders conserve stock as above.
- Alerts and codes: event ids are unique.

## Model

| member | source | states |
|---|---|---|
| StockAllocator.Wrap32 | services/inventory-service/src/main/java/com/checkout/inventory/domain/StockAllocator.java:27 | the sum a Java `int` holds: always a 32-bit integer, congruent to the exact sum, and equal to it exactly when the sum fits |
| StockAllocator.Normalize | services/inventory-service/src/main/java/com/checkout/inventory/domain/StockAllocator.java:18-30 | the `TreeMap` loop yields the grouped map, or refuses when the list is null or empty or some line is invalid |
| StockAllocator.NormalizedMeaning | services/inventory-service/src/main/java/com/checkout/inventory/domain/StockAllocator.java:18-30 | the grouped map is in SKU order with one entry for each SKU asked for, holding the 32-bit wrap of the exact sum of its lines |
| StockAllocator.NormalizedIsExactIffSumsFit | services/inventory-service/src/main/java/com/checkout/inventory/domain/StockAllocator.java:27 | grouping keeps every quantity if and only if no SKU's lines add up to more than a 32-bit integer, and then every quantity is positive |
| StockAllocator.WrappedOrder | services/inventory-service/src/main/java/com/checkout/inventory/domain/StockAllocator.java:27 | two lines of 2147483647 units become an order for minus two |
| InventoryReplies.MalformedOrders | services/inventory-service/src/main/java/com/checkout/inventory/domain/StockAllocator.java:18-30 | a payload is refused if and only if it has no lines, or a line is null, asks for less than one, or has no SKU or one of white space only |
| StockAllocator.Check | services/inventory-service/src/main/java/com/checkout/inventory/domain/StockAllocator.java:43-61 | the loop over the requested map yields the verdict: unknown SKUs first, then short ones, each with its details |
| StockAllocator.VerdictMeaning | services/inventory-service/src/main/java/com/checkout/inventory/domain/StockAllocator.java:43-61 | a command passes if and only if every requested SKU exists and covers its quantity; UNKNOWN_SKU is the reason if and only if some SKU does not exist |
| InventoryReplies.UnknownLists | services/inventory-service/src/main/java/com/checkout/inventory/domain/StockAllocator.java:43-57 | the details of an unknown-SKU rejection are exactly the requested SKUs without a balance, in SKU order, each with its quantity and zero |
| InventoryReplies.ShortLists | services/inventory-service/src/main/java/com/checkout/inventory/domain/StockAllocator.java:43-60 | the details of an out-of-stock rejection are exactly the requested SKUs that ask for more than their balance, in SKU order, with quantity and balance |
| InventoryHandler.InventoryRepository.QueryAvailable | services/inventory-service/src/main/java/com/checkout/inventory/domain/InventoryRepository.java:54-63 | the map of balances has exactly the requested SKUs that exist, with their committed balances |
| InventoryHandler.InventoryRepository.ReserveStock | services/inventory-service/src/main/java/com/checkout/inventory/domain/InventoryRepository.java:66-73 | the conditional debit moves the quantity from available to reserved, or updates no row when the SKU is missing or short, or fails on a column constraint; other rows stay |
| InventoryHandler.InventoryRepository.ReleaseStock | services/inventory-service/src/main/java/com/checkout/inventory/domain/InventoryRepository.java:76-86 | the return to available with the clamp of reserved at zero; throws without a row; other rows stay |
| InventoryHandler.InventoryRepository.InsertReservation | services/inventory-service/src/main/java/com/checkout/inventory/domain/InventoryRepository.java:101-118 | exactly the order's row is added |
| InventoryHandler.InventoryRepository.MarkReleased | services/inventory-service/src/main/java/com/checkout/inventory/domain/InventoryRepository.java:120-123 | status RELEASED and `noop` false on the order's row, everything else kept |
| InventoryHandler.InventoryRepository.IncrementAttempts | services/inventory-service/src/main/java/com/checkout/inventory/domain/InventoryRepository.java:126-132 | the counter in the row grows by one and its new value is returned |
| InventoryHandler.OutboxWriter.Publish | services/common/src/main/java/com/checkout/common/outbox/OutboxWriter.java:25-38 | one row is appended to the outbox, inside the caller's transaction |
| InventoryHandler.IdempotencyGuard.TryMarkProcessed | services/common/src/main/java/com/checkout/common/idempotency/IdempotencyGuard.java:29-37 | the message is marked, and the answer is true exactly the first time |
| InventoryHandler.InventoryCommandHandler.Handle | services/inventory-service/src/main/java/com/checkout/inventory/messaging/InventoryCommandHandler.java:56-66 | the statements of the transaction, with rollback on an exception, leave exactly what the command does as a function on the whole database, or leave it as it was |
| InventoryHandler.InventoryCommandHandler.Reserve | services/inventory-service/src/main/java/com/checkout/inventory/messaging/InventoryCommandHandler.java:70-103 | `reserve` step by step refines its specification; `first` changes nothing that is stored |
| InventoryHandler.InventoryCommandHandler.DebitEach | services/inventory-service/src/main/java/com/checkout/inventory/messaging/InventoryCommandHandler.java:132-137 | the debit loop in place equals the debits made one after the other on the transaction's own copy, or stops with its first failure |
| InventoryHandler.InventoryCommandHandler.CreditEach | services/inventory-service/src/main/java/com/checkout/inventory/messaging/InventoryCommandHandler.java:163-165 | the credit loop in place equals the credits made one after the other, or stops with its first failure |
| InventoryHandler.InventoryCommandHandler.Execute | services/inventory-service/src/main/java/com/checkout/inventory/messaging/InventoryCommandHandler.java:106-143 | `execute` step by step refines its specification: stock rows, reservation row and faults |
| InventoryHandler.InventoryCommandHandler.Release | services/inventory-service/src/main/java/com/checkout/inventory/messaging/InventoryCommandHandler.java:148-179 | `release` step by step refines its specification in each of its four cases |
| InventoryReplies.FirstReserve | services/inventory-service/src/main/java/com/checkout/inventory/messaging/InventoryCommandHandler.java:106-143 | a first reserve that commits: with all SKUs there and sufficient every row gives exactly what is asked and the order is RESERVED with the new id; otherwise no row changes and the order is REJECTED, a simulation before missing SKUs before short ones, with the details; one attempt is counted |
| InventoryReplies.ReserveReplies | services/inventory-service/src/main/java/com/checkout/inventory/messaging/InventoryCommandHandler.java:70-103 | a committed reserve is answered once, with its own order and message id, by what the order's row is then: RESERVED with id and items, REJECTED with its rejection, or RELEASED with ALREADY_COMPENSATED; it is silent exactly for a simulated TIMEOUT of an order that is not released |
| InventoryReplies.ReleaseReplies | services/inventory-service/src/main/java/com/checkout/inventory/messaging/InventoryCommandHandler.java:148-179 | in a balanced database a release commits and is answered once, with its own ids; an order that held stock gives all of it back, one without a row becomes a tombstone, any other stays as it is |
| InventoryReplies.EveryCommandIsAnswered | services/inventory-service/src/main/java/com/checkout/inventory/messaging/InventoryCommandHandler.java:56-103 | over every run: each committed command has its answer in the outbox for good, at the place it was written, simulated timeouts aside |
| InventoryReplies.AttemptsAreCounted | services/inventory-service/src/main/java/com/checkout/inventory/messaging/InventoryCommandHandler.java:93 | over every run, the counter of a row is the number of committed reserves of its order that came before a release |
| InventoryConservation.DebitMoves | services/inventory-service/src/main/java/com/checkout/inventory/messaging/InventoryCommandHandler.java:132-137 | a covered debit after which every row is legal never fails and moves exactly the requested quantities from available to reserved |
| InventoryConservation.CoveredDebit | services/inventory-service/src/main/java/com/checkout/inventory/messaging/InventoryCommandHandler.java:132-137 | a covered debit finds every row with enough on offer, whatever the quantities: only a column constraint can stop it, so the throw after the lock is never reached |
| InventoryConservation.OverflowFails | services/inventory-service/src/main/java/com/checkout/inventory/domain/InventoryRepository.java:66-73 | a debit of the least 32-bit integer always ends in an SQL error |
| InventoryConservation.CreditMoves | services/inventory-service/src/main/java/com/checkout/inventory/domain/InventoryRepository.java:76-86 | a credit of held items finds every row, is never clamped and moves exactly the held quantities back |
| InventoryConservation.ExecutionDebits | services/inventory-service/src/main/java/com/checkout/inventory/messaging/InventoryCommandHandler.java:123-137 | in a balanced database a command without negative quantities that passes the check is debited in full |
| InventoryConservation.ReleaseCredits | services/inventory-service/src/main/java/com/checkout/inventory/messaging/InventoryCommandHandler.java:162-165 | in a balanced database releasing an order returns exactly what it holds: no missing SKU, no clamp, no constraint violation |
| InventoryConservation.StepKeepsBalance | services/inventory-service/src/main/java/com/checkout/inventory/messaging/InventoryCommandHandler.java:70-179 | a command with no negative quantity, or with the least integer as one, keeps the books balanced; it commits if and only if it is no malformed first reserve and no first reserve that passes the check and debits the least integer, and the exception of the others is named |
| InventoryConservation.RunKeepsBalance | services/inventory-service/src/main/java/com/checkout/inventory/domain/InventoryRepository.java:65-86 | in every run of such commands, for each SKU: reserved is the sum over RESERVED orders, available plus reserved is the initial stock, available is not negative |
| InventoryConservation.ReleasedRunRestoresStock | services/inventory-service/src/main/java/com/checkout/inventory/domain/InventoryRepository.java:75-86 | once no order of such a run is RESERVED any more, the stock is the initial stock |
| InventoryConservation.NegativeBreaksBooks | services/inventory-service/src/main/java/com/checkout/inventory/domain/StockAllocator.java:27 | for every command that debits a negative quantity and not the least integer: a run of two commands from stock without reservations after which the books are broken |
| InventoryConservation.ConservesIff | services/inventory-service/src/main/java/com/checkout/inventory/domain/StockAllocator.java:27 | for every command: all runs of it with conserving commands keep the books if and only if it debits no negative quantity, or the least integer as one |
| InventoryModel.ConservesMeaning | services/inventory-service/src/main/java/com/checkout/inventory/domain/StockAllocator.java:27 | that condition on the lines asked for: the 32-bit wrap of no SKU's exact sum is negative, or one is the least integer |
| InventoryConservation.WrappedOrderCreatesStock | services/inventory-service/src/main/java/com/checkout/inventory/domain/StockAllocator.java:27 | a run of three commands, one of which wraps to minus two units, that creates two units |
| InventoryHistory.EffectMovesForward | services/inventory-service/src/main/java/com/checkout/inventory/domain/Reservation.java:10-45 | a transaction moves its reservation forward only (RESERVED to RELEASED; RELEASED is final) and replies from the row it leaves |
| InventoryHistory.StepMovesForward | services/inventory-service/src/main/java/com/checkout/inventory/messaging/InventoryCommandHandler.java:70-179 | rows only move forward, the outbox only grows, and a new row has an id exactly when it holds stock |
| InventoryHistory.RunHistory | services/inventory-service/src/main/java/com/checkout/inventory/messaging/InventoryCommandHandler.java:70-179 | in every run every reply ever written is explained by the reservation row as it is now |
| InventoryHistory.IdRemembersHolding | services/inventory-service/src/main/java/com/checkout/inventory/domain/Reservation.java:17-28 | over every run, an order has held stock at some moment if and only if its row has a reservation id |
| InventoryHistory.ReleasedIsFinal | services/inventory-service/src/main/java/com/checkout/inventory/messaging/InventoryCommandHandler.java:75-82 | once a RELEASED reply is written for an order, it holds no stock in any later state and no RESERVED reply follows |
| InventoryHistory.RepliesRepeat | services/inventory-service/src/main/java/com/checkout/inventory/messaging/InventoryCommandHandler.java:98-102 | all RESERVED replies of an order are equal, and so are all its RELEASED replies |
| InventoryHistory.NoopMeansNeverHeld | services/inventory-service/src/main/java/com/checkout/inventory/messaging/InventoryCommandHandler.java:153-176 | `noop` in a RELEASED reply is true if and only if the order never held stock |
| InventoryHistory.StepKeepsSameCore | services/inventory-service/src/main/java/com/checkout/inventory/messaging/InventoryCommandHandler.java:93-97 | attempts, quoted balances, replies and processed marks never steer what a command does to stock and reservations |
| InventoryHistory.DuplicateChangesNothing | services/inventory-service/src/main/java/com/checkout/inventory/messaging/InventoryCommandHandler.java:75-90 | a redelivery after a handled command of the same kind for its order changes neither stock nor any reservation's status, items or id |
| InventoryHistory.DroppingDuplicates | services/inventory-service/src/main/java/com/checkout/inventory/messaging/InventoryCommandHandler.java:70-179 | dropping any set of such redeliveries from any schedule over any number of orders leaves the same stock and reservations |
| RowLocks.EffectIsLocal | services/inventory-service/src/main/java/com/checkout/inventory/messaging/InventoryCommandHandler.java:106-143 | what a command does depends only on its own reservation row and on the stock rows it locks |
| RowLocks.CommitIsStep | services/inventory-service/src/main/java/com/checkout/inventory/messaging/InventoryCommandHandler.java:56-66 | a commit is the serial step of its command at that moment |
| RowLocks.NextKeepsSerial | services/inventory-service/src/main/java/com/checkout/inventory/messaging/InventoryCommandHandler.java:70-179 | every step of every transaction, also commits, rollbacks and crashes, keeps the agreement with a serial run |
| RowLocks.InterleavingsAreSerial | services/inventory-service/src/main/java/com/checkout/inventory/messaging/InventoryCommandHandler.java:106-143 | under every interleaving the committed database is the one a serial run of the committed commands leaves, in commit order; what did not commit leaves nothing |
| RowLocks.ThrowsAreUnreachable | services/inventory-service/src/main/java/com/checkout/inventory/messaging/InventoryCommandHandler.java:132-137 | under every interleaving of any commands, the throw "insufficient despite the lock" and the missing SKU on release are unreachable |
| RowLocks.FailuresComeFromInput | services/inventory-service/src/main/java/com/checkout/inventory/messaging/InventoryCommandHandler.java:56-66 | under every interleaving of conserving commands, a transaction fails only over its own malformed payload or over the least integer among its quantities |
| RowLocks.InterleavingsConserveStock | services/inventory-service/src/main/java/com/checkout/inventory/domain/InventoryRepository.java:66-86 | the books balance in the committed database at every moment of every interleaving of conserving commands |
| RowLocks.NoWaitCycle | services/inventory-service/src/main/java/com/checkout/inventory/domain/InventoryRepository.java:46-52 | no reachable set of transactions has a cycle of waits for row locks |
| RowLocks.SomeoneCanStep | services/inventory-service/src/main/java/com/checkout/inventory/messaging/InventoryCommandHandler.java:163-165 | while any transaction is in flight, some transaction can take a step |
| RowLocks.WaitsAboveItsLocks | services/inventory-service/src/main/java/com/checkout/inventory/domain/InventoryRepository.java:46-52 | a transaction waits only for a row above, in SKU order, every row it holds |
| RowLocks.LocksAreRows | services/inventory-service/src/main/java/com/checkout/inventory/domain/InventoryRepository.java:46-52 | in every reachable state only rows that exist are locked, so that a SKU without a row blocks nobody |
| Quotes.InterleavingsMatchLiveRun | services/inventory-service/src/main/java/com/checkout/inventory/messaging/InventoryCommandHandler.java:114-121 | against a serial run in which each simulated rejection reads the balances of its own moment, stock and reservations are equal, quoted balances aside |
| Quotes.LiveRunIsExactIff | services/inventory-service/src/main/java/com/checkout/inventory/messaging/InventoryCommandHandler.java:114-121 | a serial run equals that one in everything, replies and attempts included, if and only if each simulated first rejection quotes, for its own SKUs, the balances of the moment of its commit |
| Quotes.InterleavingsQuoteThePast | services/inventory-service/src/main/java/com/checkout/inventory/domain/InventoryRepository.java:41-44 | under every interleaving, what a simulated rejection quotes is the balances of some moment of the committed history |
| Quotes.QuotesCanBeStale | services/inventory-service/src/main/java/com/checkout/inventory/domain/InventoryRepository.java:41-44 | an interleaving in which the unlocked read comes before another order's commit: the rejection quotes a balance that the serial run in commit order would not quote |
| SagaRuns.AllOrNothing | services/saga-orchestrator/src/main/java/com/checkout/saga/domain/SagaStateMachine.java:43-109 | in every run of a saga with its participants, with duplicated, late, reordered and lost messages, timeouts and restarts at any moment, and other orders at the inventory: a completed saga holds the stock, has taken the payment and made the shipment, and the order records their ids; a canceled one holds no stock, and no payment or shipment stands |
| SagaRuns.NextKeepsInv | services/saga-orchestrator/src/main/java/com/checkout/saga/app/SagaService.java:58-134 | every step (begin, reply, tick, restart, delivery, other orders) keeps what each state relies on: which actions stand, which are undone for good, and which commands may be out |
| SagaRuns.RepliesStayTrue | services/payment-service/src/main/java/com/checkout/payment/messaging/PaymentCommandHandler.java:71-147 | a reply still says something true of its participant's row however late it is read |
| SagaRuns.PaymentMoves | services/payment-service/src/main/java/com/checkout/payment/messaging/PaymentCommandHandler.java:71-147 | a payment keeps its id and moves from AUTHORIZED to REFUNDED only, a refund leaves none authorized, and each reply is true of the row it leaves |
| SagaRuns.ShipmentMoves | services/shipping-service/src/main/java/com/checkout/shipping/messaging/ShippingCommandHandler.java:68-139 | the same for a shipment, its tracking code and its cancelation |
| SagaRuns.TerminalStays | services/saga-orchestrator/src/main/java/com/checkout/saga/domain/SagaStateMachine.java:43-50 | a terminal saga neither changes nor sends anything, whatever still arrives |
| SagaSends.CommandsGoInOrder | services/saga-orchestrator/src/main/java/com/checkout/saga/domain/SagaStateMachine.java:203-228 | in every run: forward actions go out first and then compensations in reverse, no kind of command is sent with two ids or two contents, an action is sent at most once and for each allowed retry, the attempt counter is the number of sends, and a command in flight has a deadline or a retry to come but never both |
| SagaSends.ConfirmingIsFinal | services/saga-orchestrator/src/main/java/com/checkout/saga/domain/SagaStateMachine.java:66-84 | once a saga confirms its order it never sends a compensation or a cancelation, in any continuation |
| SagaSends.AcceptedOnce | services/saga-orchestrator/src/main/java/com/checkout/saga/domain/SagaStateMachine.java:45-51 | a reply that was accepted is not accepted again, also without the guard of processed messages |
| SagaReasons.DigitalNeverShips | services/saga-orchestrator/src/main/java/com/checkout/saga/domain/SagaStateMachine.java:70-74 | in every run of a digital order nothing is asked of the carrier, neither to ship nor to cancel, and there is no shipment |
| SagaReasons.FailuresAreExplained | services/saga-orchestrator/src/main/java/com/checkout/saga/domain/SagaStateMachine.java:57-94 | in every run: a saga that goes forward has no reason; one that goes back, and the order it cancels, has the step that failed, which is the last one tried, and why: the inventory's own rejection, a declined payment, a refused shipment, or a timeout, and that only after the command was sent as often as allowed |
| SagaReasons.RejectionRecords | services/saga-orchestrator/src/main/java/com/checkout/saga/domain/SagaStateMachine.java:57-94 | what a rejection is recorded as: the inventory's reason as it came, a declined payment under its own name, any shipment failure but ALREADY_COMPENSATED as SHIPMENT_FAILED |
| SagaTimers.BackoffMeaning | services/saga-orchestrator/src/main/java/com/checkout/saga/domain/SagaStateMachine.java:312-317 | the wait doubles with each attempt up to the twenty-first and never exceeds its limit |
| SagaTimers.RetrySchedule | services/saga-orchestrator/src/main/java/com/checkout/saga/domain/SagaStateMachine.java:114-172 | nothing happens before a deadline; at it an action that has used its retries is compensated at its own step, and any other command waits exactly its backoff and is then sent again, the same, with a new deadline |
| SagaTimers.RestartRearms | services/saga-orchestrator/src/main/java/com/checkout/saga/domain/SagaStateMachine.java:182-199 | a restart moves a deadline to a whole timeout from now unless it is later, and changes nothing else |
| SagaRoutes.CompletedCheckout | services/saga-orchestrator/src/main/java/com/checkout/saga/domain/SagaStateMachine.java:52-104 | an order whose stock suffices, that is not declined and, if physical, can be shipped: a run of one delivery for each command ends COMPLETED, having sent exactly reserve, authorize, create for a physical order, and confirm with the ids of payment and shipment |
| SagaRoutes.RejectedCheckout | services/saga-orchestrator/src/main/java/com/checkout/saga/domain/SagaStateMachine.java:57-63 | an order that the inventory rejects: the run ends CANCELED, having sent reserve and cancel with the reason; nothing is taken or paid |
| SagaRoutes.DeclinedCheckout | services/saga-orchestrator/src/main/java/com/checkout/saga/domain/SagaStateMachine.java:76-81 | an order whose payment is declined: reserve, authorize, release, cancel; the stock is what it was |
| SagaRoutes.UnshippedCheckout | services/saga-orchestrator/src/main/java/com/checkout/saga/domain/SagaStateMachine.java:88-103 | a physical order that cannot be shipped: reserve, authorize, create, refund, release, cancel; stock and payment are returned |
| SagaProgress.NeverStuck | services/saga-orchestrator/src/main/java/com/checkout/saga/domain/SagaStateMachine.java:114-172 | from every state that a run of conserving commands reaches, some further deadlines, deliveries and replies of the order itself end the saga |
| SagaStuck.EndsAloneIff | services/inventory-service/src/main/java/com/checkout/inventory/messaging/InventoryCommandHandler.java:162-165 | for every order: all its checkouts can end without help from other orders if and only if it debits no negative quantity, or the least integer as one; for each other order a checkout whose release is refused at every delivery |
| SagaMachine.SagaStateMachine.Enter | services/saga-orchestrator/src/main/java/com/checkout/saga/domain/SagaStateMachine.java:203-228 | the instance changed in place and the command collected are those of the specification |
| SagaMachine.SagaStateMachine.Finish | services/saga-orchestrator/src/main/java/com/checkout/saga/domain/SagaStateMachine.java:230-236 | a terminal state without deadline or retry |
| SagaMachine.SagaStateMachine.Failed | services/saga-orchestrator/src/main/java/com/checkout/saga/domain/SagaStateMachine.java:243-250 | the reason and the failed step are recorded |
| SagaMachine.SagaStateMachine.Start | services/saga-orchestrator/src/main/java/com/checkout/saga/domain/SagaStateMachine.java:34-39 | a new instance in its first state, with its first command |
| SagaMachine.SagaStateMachine.OnReply | services/saga-orchestrator/src/main/java/com/checkout/saga/domain/SagaStateMachine.java:43-51 | a reply that is not expected changes nothing and is not accepted; another one makes the specified transition |
| SagaMachine.SagaStateMachine.React | services/saga-orchestrator/src/main/java/com/checkout/saga/domain/SagaStateMachine.java:52-109 | each of the eleven replies makes its transition in place |
| SagaMachine.SagaStateMachine.OnTick | services/saga-orchestrator/src/main/java/com/checkout/saga/domain/SagaStateMachine.java:114-172 | a due retry before a due deadline; the same command again, a wait, or the compensation of the step |
| SagaMachine.SagaStateMachine.ResumeAfterRestart | services/saga-orchestrator/src/main/java/com/checkout/saga/domain/SagaStateMachine.java:182-199 | a later deadline at most: no attempt is used and nothing is sent |
| SagaParticipants.PaymentCommandHandler.Authorize | services/payment-service/src/main/java/com/checkout/payment/messaging/PaymentCommandHandler.java:71-111 | the handler's statements refine the function of the payment row, with the reply published, delayed or suppressed; other orders' rows stay |
| SagaParticipants.PaymentCommandHandler.Refund | services/payment-service/src/main/java/com/checkout/payment/messaging/PaymentCommandHandler.java:116-146 | the same for the refund and its tombstone |
| SagaParticipants.ShippingCommandHandler.Create | services/shipping-service/src/main/java/com/checkout/shipping/messaging/ShippingCommandHandler.java:68-105 | the handler's statements refine the function of the shipment row |
| SagaParticipants.ShippingCommandHandler.Cancel | services/shipping-service/src/main/java/com/checkout/shipping/messaging/ShippingCommandHandler.java:110-138 | the same for the cancelation and its tombstone |
| SagaParticipants.OrderService.Confirm | services/order-service/src/main/java/com/checkout/order/domain/OrderService.java:129-151 | only a pending order changes; the answer is the order's status, whichever command asks |
| SagaParticipants.OrderService.Cancel | services/order-service/src/main/java/com/checkout/order/domain/OrderService.java:154-176 | the same for the cancelation |
| SagaReplies.FirstCommandDecides | services/order-service/src/main/java/com/checkout/order/domain/OrderService.java:129-176 | of any confirmations and cancellations of a pending order the first one decides what it stays, and every one is answered by that status |
| SagaReplies.PaymentHistory | services/payment-service/src/main/java/com/checkout/payment/messaging/PaymentCommandHandler.java:71-147 | after any commands of an order its payment is what the first one made it: a tombstone, a refusal for good, or a payment with that command's id, refunded exactly if a refund came; attempts are counted up to the refund |
| SagaReplies.PaymentReplies | services/payment-service/src/main/java/com/checkout/payment/messaging/PaymentCommandHandler.java:94-111 | a refund is always answered; an authorization after one is refused with ALREADY_COMPENSATED; TIMEOUT is always silent, TIMEOUT_ONCE exactly at the first command; any other is answered by what the first command made |
| SagaReplies.ShipmentHistory | services/shipping-service/src/main/java/com/checkout/shipping/messaging/ShippingCommandHandler.java:68-139 | the same of a shipment, refused by simulation or for its address, with the carrier's id and tracking code |
| SagaReplies.ShippingReplies | services/shipping-service/src/main/java/com/checkout/shipping/messaging/ShippingCommandHandler.java:92-105 | the same of the answers of shipping |
| OutboxRelay.NextKeepsInv | services/common/src/main/java/com/checkout/common/outbox/OutboxRelay.java:53-79 | every step (insert, select, send with each outcome, late landing, commit, crash) keeps: marked rows are in the topic, and no message enters the topic before an earlier one of its key |
| OutboxRelay.ExecKeepsInv | services/common/src/main/java/com/checkout/common/outbox/OutboxRelay.java:41-79 | so does every run from any state that has it |
| OutboxRelay.FirstsArePrefix | services/common/src/main/java/com/checkout/common/outbox/OutboxRelay.java:54-57 | the first occurrences of a key's messages in any prefix of the topic are a prefix of the key's rows in id order |
| OutboxRelay.PublishedInOrder | services/common/src/main/java/com/checkout/common/outbox/OutboxRelay.java:41-79 | in every run with failed sends that land later and crashes that roll back marks: every row marked published is in the topic, and first occurrences of each key are a prefix of its rows |
| RelayRuns.CrashSendsTwice | services/common/src/main/java/com/checkout/common/outbox/OutboxRelay.java:50-82 | at least once is not once: a run in which a crash between send and commit takes the mark back and the row is sent again |
| RelayRuns.LateSendLandsOnce | services/common/src/main/java/com/checkout/common/outbox/OutboxRelay.java:69-75 | a send reported as failed that lands later: the row is sent again, counted twice, and the late one lands once |
| OutboxRelay.MarkedArePending | services/common/src/main/java/com/checkout/common/outbox/OutboxRelay.java:54-57 | marking the first selected rows leaves exactly the others pending, in order |
| OutboxRelay.Relay.Send | services/common/src/main/java/com/checkout/common/outbox/OutboxRelay.java:81-99 | a send reports success exactly when it was delivered; a reported failure may be lost, already landed, or land later |
| OutboxRelay.Relay.PublishBatch | services/common/src/main/java/com/checkout/common/outbox/OutboxRelay.java:53-79 | one transaction: the first pending rows, at most a batch, are sent in id order up to the first failure; the delivered ones are published, these and the failed one have one more attempt, and nothing else changes; a run of the relay, with the count or -1 |
| OutboxRelay.Relay.Run | services/common/src/main/java/com/checkout/common/outbox/OutboxRelay.java:42-51 | the do/while ends for a positive batch size; it leaves nothing pending unless a send failed |
| LogLines.LinesAppend | tools/squad/publisher.py:779-801 | appending after an ended last line adds exactly the lines of what is appended |
| LogLines.AppendNeedsLineEnd | tools/squad/publisher.py:790-792 | and only then: an unfinished last line is glued to the first appended one |
| LogLines.EventIsOneLine | tools/squad/publisher.py:784-789 | a text written as one line is read back as one line if and only if it holds no line break that `splitlines` knows and is not blank |
| LogLines.MissingCovers | tools/squad/publisher.py:785-789 | the missing lines have exactly the keys the log lacked, and come from the copies |
| LogLines.MissingIsDistinct | tools/squad/publisher.py:787-788 | each key is added once |
| LogLines.AddedAtFirst | tools/squad/publisher.py:784-791 | a line of the copies is added exactly at the first appearance of its event, known by its id or, without one, by its text, if the log does not have it |
| LogLines.AddedAreNew | tools/squad/publisher.py:784-791 | no added line is an event the log has, no two are the same event, and every event of the copies is then there |
| LogLines.AdditionLines | tools/squad/publisher.py:790-793 | after the write the log holds its own lines, whoever appended meanwhile, and then the missing ones |
| LogLines.AdditionMeaning | tools/squad/publisher.py:790-792 | what is appended is nothing, or the missing lines with their line ends, after a line break exactly when the log that was read ends in an unfinished line |
| LogLines.ReattachIsAppendOnlyMerge | tools/squad/publisher.py:775-799 | `reattach` only appends, adds each new key once, ends with all keys of log and copies, and a second run changes nothing |
| LogMerge.NextKeeps | tools/squad/publisher.py:724-773 | every step of supervisor, git or an appender that starts a line keeps each logged key in the live log or in a copy |
| LogMerge.NoEventIsLost | tools/squad/publisher.py:724-773 | whatever appenders interleave, and whether git accepts an attempt or all five fail, every key logged is in the live log once the re-attachment has written; copies go only then; logs, heads and appends may end in the middle of a line |
| LogMerge.EventsAreKept | tools/squad/publisher.py:724-804 | once the re-attachment has written: for every line that was in the log or has been written to it, the live log has a line with its id, and a line without an id word for word |
| LogMerge.NoEventIsLostIff | tools/squad/publisher.py:724-734 | every run in which each write starts a line keeps every logged key if and only if, when the log is missing on disk, the commit drops none of its committed keys |
| LogMerge.AppendIsOnTimeIff | tools/squad/publisher.py:790-792 | an append to the live log adds exactly its own lines if and only if it starts a line there |
| LogMerge.UnfinishedLineLosesEvent | tools/squad/publisher.py:790-792 | a run in which an append continues an unfinished line: the event appended is in no line of the log afterwards |
| LogMerge.WriteIsOnTimeIff | tools/squad/publisher.py:790-795 | the write of `reattach` adds exactly the missing lines if and only if there are none, the live log ends its last line, or the log that was read needed a break |
| LogMerge.UnfinishedWriteLosesEvent | tools/squad/publisher.py:779-795 | a run in which all writes before it start a line, but that of `reattach` is glued to a line left unfinished after the log was read: an event of the copies is in no line afterwards |
| LogMerge.RecreatedIsLost | tools/squad/publisher.py:726-728 | the run that loses otherwise: a writer recreates exactly the committed version of a log that was missing and so not linked |
| LogMerge.LateWriteIsSafeIff | tools/squad/publisher.py:758 | a write to an inode opened earlier is safe if and only if the inode is live or linked |
| LogMerge.MergeKeeps | tools/squad/publisher.py:746-752 | a fast-forward git accepts replaces only text that is in a copy or in the new commit |
| LogMerge.CopiesStay | tools/squad/publisher.py:729-737 | after the swap no append to the path reaches a copy |
| LogMerge.SeparatorBreaksEvent | tools/squad/publisher.py:786-788 | an event whose line holds another separator (U+2028) is re-attached in pieces, and its key is lost |
| LogSupervisor.CollectMissing | tools/squad/publisher.py:784-789 | the loops over copies and lines collect exactly the missing lines |
| LogSupervisor.Supervisor.AppendFile | tools/squad/publisher.py:792-793 | one open-and-write in append mode, creating the file if it is not there |
| LogSupervisor.Supervisor.Others | tools/squad/publisher.py:724-758 | other writers' appends are steps of the merge, and after the swap leave the copies as they are; writes that would continue an unfinished line are passed over |
| LogSupervisor.Supervisor.PutFile | tools/squad/publisher.py:735-737 | the path gets a new inode with the given version, or goes away |
| LogSupervisor.Supervisor.LinkAndSwap | tools/squad/publisher.py:725-737 | linking the live inode and replacing the path, with writers in between, is a run of the merge |
| LogSupervisor.Supervisor.TryMerge | tools/squad/publisher.py:749-756 | git advances exactly when it is willing and the working file would lose nothing: the log is absent, holds a committed version or does not change; the path then holds the new version; a refusal changes no file and counts an attempt, five at most |
| LogSupervisor.Supervisor.WriteMissing | tools/squad/publisher.py:790-795 | the single write brings every key of the copies into the live log |
| LogSupervisor.Supervisor.DropCopies | tools/squad/publisher.py:797-802 | the copies are unlinked if and only if the live log, read again, has every line of theirs, by id or, without one, by text |
| LogSupervisor.Supervisor.Reattach | tools/squad/publisher.py:775-804 | `reattach` is a run of the merge that ends with the copies gone |
| LogSupervisor.Supervisor.FastForward | tools/squad/publisher.py:711-773 | the whole method, with writers at every point, ends with every logged line in the live log and no copies left; the head advances exactly when it reports success, which is within five attempts, and failure means that all five were refused |
| AlertRules.EvalDemandOwned | tools/squad/alerts.py:265-339 | every alert of a demand is about an event filed under that demand |
| AlertRules.OthersAreUntouched | tools/squad/alerts.py:342-384 | an event changes what is called for in no demand but the one that is re-evaluated, and the one whose open triage a stray clarification answers: that loses exactly this alert |
| AlertRules.OpenIsExact | tools/squad/alerts.py:373-394 | after every log with unique ids, the open alerts of a demand are those that evaluating it from scratch gives, plus the one triage that a stray clarification answered since its last evaluation |
| AlertRules.UpToDateIff | tools/squad/alerts.py:379-389 | they are exactly those of evaluation from scratch if and only if no demand has such a triage |
| AlertRules.AlwaysUpToDateIff | tools/squad/alerts.py:279-281 | they are so after every prefix if and only if no row is a clarification filed under another demand than the one whose open triage it answers |
| AlertRules.OthersAreFromScratch | tools/squad/alerts.py:373-394 | alerts of all kinds but triage are exactly those of evaluation from scratch after every log with unique ids |
| AlertRules.IncrementalIsFromScratch | tools/squad/alerts.py:373-394 | after every log with unique ids and matching clarifications, the alerts kept event by event are exactly those that evaluating every demand from scratch gives, with the same kinds |
| AlertRules.ClosingAddsOneEntry | tools/squad/alerts.py:386-389 | each alert that leaves the open ones adds exactly one history entry that names the closing event |
| AlertRules.HistoryIsClosings | tools/squad/alerts.py:386-389 | over a whole log: one entry for each alert and each event at which it left, and no other |
| AlertRules.StrayClarificationLeavesAlert | tools/squad/alerts.py:352-353 | the shortest such log: a clarification filed under another demand leaves an alert open that nothing calls for |
| AlertMeaning.GateTableHolds | tools/squad/alerts.py:342-349 | the engine's dictionaries of verdicts and decisions hold exactly the rows of each gate, with their positions, after every log |
| AlertMeaning.EndTableHolds | tools/squad/alerts.py:179-182 | a demand counts as closed if and only if its rows say canceled, delivered, or approved at G3 without any review |
| AlertMeaning.ReturnsMeans | tools/squad/alerts.py:197-202 | counting RETURN verdicts from the index of the last decision equals counting back to that decision in the log |
| AlertMeaning.OpenIffCalled | tools/squad/alerts.py:191-228 | after every log with unique ids, a gate alert of each kind is open about a verdict if and only if the rows call for it: latest verdict, demand not over, and the kind's own condition on decisions, returns, confidence and risk |
| AlertMeaning.GateAlertIsExact | tools/squad/alerts.py:191-228 | an open alert of a gate carries all kinds that the rows call for, in the order of precedence, is filed under the first of them, and has the demand and the number of returns since the last decision |
| AlertMeaning.DecisionIsEnough | tools/squad/alerts.py:199-214 | once a human has decided a gate after its last verdict, no open alert asks for a decision on it |
| AlertMeaning.CanceledIsQuiet | tools/squad/alerts.py:356-357 | a canceled demand has no open alert, whatever happens before or after |
| AlertKinds.WaitingIff | tools/squad/alerts.py:291-305 | a review is shown as waiting if and only if its pull request is neither delivered nor rejected and its demand not canceled |
| AlertKinds.ConflictIff | tools/squad/alerts.py:306-319 | a conflict is shown if and only if it is the last word on a pull request that was under review, is not closed, and whose demand is not canceled |
| AlertKinds.RequestIff | tools/squad/alerts.py:320-338 | a change request is shown if and only if it is addressed, undecided, and its demand is neither over nor finished |
| AlertKinds.TriageIff | tools/squad/alerts.py:276-290 | questions of triage are shown if and only if they are the last validation's, unanswered and not overridden in a demand that goes on, or were answered by a clarification filed elsewhere since the demand was last evaluated |
| AlertSubjects.AlertsAreAbout | tools/squad/alerts.py:220-339 | every open alert, stale ones included, stands for a row of its own demand that can raise its kind: a verdict, a review, a conflict in force, a change request, questions; outside the gates it has that one kind |
| AlertEngine.Rules.constructor | tools/squad/alerts.py:139-167 | making the engine replays the whole log |
| AlertEngine.Rules.ApplyVerdict | tools/squad/alerts.py:344-347 | the dictionaries after a gate verdict are those of the specification |
| AlertEngine.Rules.ApplyHuman | tools/squad/alerts.py:348-349 | the same for a human decision |
| AlertEngine.Rules.ApplyDemand | tools/squad/alerts.py:350-357 | the same for validations, starts and cancellations |
| AlertEngine.Rules.ApplyPr | tools/squad/alerts.py:358-367 | the same for a pull request's events |
| AlertEngine.Rules.ApplyReference | tools/squad/alerts.py:352-371 | the same for clarifications, change requests and decisions |
| AlertEngine.Rules.Apply | tools/squad/alerts.py:342-371 | `_apply` leaves open alerts and history alone |
| AlertEngine.Rules.EvalGates | tools/squad/alerts.py:269-275 | the loop over the gates gives the gate alerts of the demand |
| AlertEngine.Rules.EvalReviews | tools/squad/alerts.py:291-319 | the loop over the reviews gives the review and conflict alerts |
| AlertEngine.Rules.EvalRequests | tools/squad/alerts.py:320-338 | the loop over the change requests gives those still open |
| AlertEngine.Rules.EvalDemand | tools/squad/alerts.py:265-339 | `_eval_demand` computes what the demand calls for |
| AlertEngine.Rules.CloseAlerts | tools/squad/alerts.py:386-389 | exactly the given alerts move from the open ones to the history, each once |
| AlertEngine.Rules.Row | tools/squad/alerts.py:374-394 | one round of `_run` is one step of the specification |
| Delegations.ItemsSnoc | tools/squad/alerts.py:809-852 | only a delegation of the demand adds an item, and no other row makes one active again |
| Delegations.PriorSnoc | tools/squad/conversa.py:641-651 | only a delegation of the key uses an attempt; other rows never raise the count |
| Delegations.ValidateMeaning | tools/squad/conversa.py:723-867 | a proposal is valid only when no delegation of the demand is active and attempts are left; its attempt is the next one |
| DelegationMeaning.AcceptedIff | tools/squad/conversa.py:677-870 | a proposal is accepted if and only if nothing was wrong early, its demand has no delegation without result, its precondition holds, attempts are left of those counted on the log, and no delegation brought a stopped agent there; owner, risk, target, key and attempt are those of its category; a rejection has the first reason that applies |
| Delegations.NextKeepsInv | tools/squad/conversa.py:1807-1850 | propose, confirm, write, finish, discard, crash and foreign rows keep the invariant of log, conversation records and lock |
| Delegations.DelegationsAreBounded | tools/squad/conversa.py:723-867 | in every reachable log: at most one active delegation per demand, at most the maximum of attempts per key, each proposal decided at most once, and one delegation per confirmation, crashes aside |
| DelegationMeaning.PriorMeaning | tools/squad/conversa.py:641-651 | the attempts used are the number of delegations of the key in the log; for a key without target, of those that no later `ok` of one of its delegations follows |
| DelegationMeaning.UndecidedMeaning | tools/squad/conversa.py:1764-1772 | a proposal can be decided if and only if it is in the conversation and no record there has decided it; it is the first one of its id |
| DelegationMeaning.IdsAreDistinct | tools/squad/conversa.py:1831-1837 | in every run the ids of the delegations in the log are distinct |
| DelegationMeaning.AttemptsAreBounded | tools/squad/conversa.py:836-860 | in every reachable log a stopped agent's key has used one attempt at most and any other two |
| DelegationMeaning.ItemsMeaning | tools/squad/alerts.py:809-852 | one item for each delegation of the demand, oldest first; each has the result reported first and its state, whatever comes later; before that it waits for a gate since the last handoff that no start and no verdict follows, or runs, or is only asked for |
| DelegationMeaning.DelegationsAreConfirmed | tools/squad/conversa.py:1807-1843 | in every run, each delegation of the log comes from a confirmation of a proposal then undecided, with the demand, category, target, owner, key and attempt that were shown, the task confirmed, and a high risk only where it was acknowledged |
| DelegationCrashes.KeyedAttemptsAreDistinct | tools/squad/conversa.py:1831-1837 | two delegations of a key with a target carry ascending attempts, even across crashes |
| DelegationCrashes.KeyedIsOnce | tools/squad/conversa.py:1831-1842 | in every run with crashes between the two writes, no two delegations of a key with a target come from the same proposal |
| DelegationCrashes.KeylessProposalCanRepeat | tools/squad/conversa.py:1840-1842 | for every key without a target that a validation yields: a run that delegates one proposal twice, by a crash between the two writes and an `ok` result in between |
| DelegationCrashes.DelegatedOnceIff | tools/squad/conversa.py:1831-1842 | every proposal of a key is delegated at most once in every run if and only if the key names a target or is none that a validation yields |
| DelegationCrashes.ValidatedIsShaped | tools/squad/conversa.py:723-867 | the keys of accepted proposals that can repeat are those of small fixes, and of broken tests without a target |
| DelegationEngine.DelegationsOf | tools/squad/alerts.py:809-852 | the loop that updates items in place, found by id, gives the items of the specification |
| DelegationEngine.PriorDelegations | tools/squad/conversa.py:641-651 | the attempts counted by positions are those of the specification |
| DelegationEngine.Engine.Lookup | tools/squad/conversa.py:1764-1772 | an undecided proposal, or the error that tells a missing one from a decided one |
| DelegationEngine.Engine.Discard | tools/squad/conversa.py:1845-1850 | a discard is one step of the protocol and succeeds exactly for an undecided proposal |
| DelegationEngine.Engine.ConfirmDelegation | tools/squad/conversa.py:1807-1843 | a confirmation with foreign rows before and after its write is a run of the protocol; which answer it gives, the first reason that applies or the event: high risk without acknowledgement is refused exactly when everything else holds; the one row written has what was shown, the task, and a risk that was acknowledged if it is high |
| Transcripts.LinesConcat | tools/squad/transcripts.py:125-129 | text after an ended line starts new lines |
| Transcripts.ChunkContinues | tools/squad/transcripts.py:122-129 | reading from the offset continues the single pass over the whole content |
| Transcripts.RefreshKeeps | tools/squad/transcripts.py:110-131 | one refresh keeps the state equal to one pass over what was read |
| Transcripts.IncrementalIsOnePass | tools/squad/transcripts.py:110-131 | for any appends, refresh moments, partial last lines that change, cuts below or above the offset that leave what was consumed, and new inodes, the incremental state is that of one pass over the newline-terminated content |
| TranscriptExactness.RefreshIsOnePassIff | tools/squad/transcripts.py:116-131 | a refresh leaves one pass over the file, for every parser, if and only if the complete lines are unchanged when it does not read and the consumed bytes are still in place when it reads on |
| TranscriptExactness.OnePassIff | tools/squad/transcripts.py:110-131 | every refresh of a run leaves one pass over the file, for every parser, if and only if the file always follows what was seen in that sense |
| TranscriptExactness.RewriteInPlaceIsMissed | tools/squad/transcripts.py:116-125 | a file rewritten in place to the length consumed is not read again: the data stay, and for some parser they differ from one pass |
| TranscriptExactness.RefreshMeaning | tools/squad/transcripts.py:110-131 | one look: not read exactly when missing or of the same size and time; read from the start, with nothing kept, exactly when the inode is another or the file shrank below the offset; the new offset is after the last newline |
| TranscriptRuns.RowsAgree | tools/squad/server.py:260-302 | row by row, the incremental state and the loop of `parse_run` agree |
| TranscriptRuns.SameAsEndedLines | tools/squad/transcripts.py:110-222 | the last 80 entries, counts, files, first prompt, start and ended-turn flag are those of the rows of the ended lines |
| TranscriptFiles.SameAsWholeFile | tools/squad/server.py:191-330 | whatever the refreshes of a file without returns inside its lines: the incremental state and the whole-file parser give the same run if and only if the file decodes, holds no JSON value that is no object, and has no row after its last newline |
| TranscriptFiles.SameForAllIff | tools/squad/server.py:191-202 | they do so for every meaning of the values of the lines if and only if no line has a return between things that are not blank and only blanks follow the last newline |
| TranscriptFiles.UnfinishedRowIsMissed | tools/squad/server.py:191-202 | a row without its newline yet is in the run of the whole file and not in the incremental state |
| TranscriptFiles.UnfilteredRun | tools/squad/server.py:272-288 | `parse_run` without `delegations_only` runs all blocks of all rows |
| TranscriptMeaning.StripMeaning | tools/squad/transcripts.py:133-135 | a line without its blanks is the part from the first to the last byte that is no tab, return or space |
| TranscriptMeaning.ParseMeaning | tools/squad/server.py:191-202 | `parse_run` fails if and only if the bytes do not decode or a line holds a value that is no object; there is no run if and only if they decode and no line holds a value |
| TranscriptRuns.CurrentIff | tools/squad/transcripts.py:225-227 | `current` finds what the whole activity would give if and only if nothing runs or the latest running tool is among the last 80 entries |
| TranscriptRuns.CurrentToolIff | tools/squad/transcripts.py:225-227 | for `tools_only`: if and only if nothing runs or at most 80 tools were called from the latest running one on |
| TranscriptMeaning.ActivityMeaning | tools/squad/transcripts.py:176-215 | the activity of both parsers, on the rows alone: an entry for each tool use and each text that is not blank, in order; a tool runs until the first result for its id before the id is used again, and then has the time and the flag of that result |
| TranscriptMeaning.CurrentMeaning | tools/squad/server.py:302 | the tool shown as running is the last use that has not been answered |
| TranscriptMeaning.CountsMeaning | tools/squad/transcripts.py:176-200 | tools are counted once for each use, and `files` has every file that a use writes, once |
| TranscriptMeaning.PromptMeaning | tools/squad/server.py:262-263 | the first prompt is the first text of the user that is not empty |
| TranscriptMeaning.TurnMeaning | tools/squad/server.py:295-300 | the turn has ended if and only if the last row of user or assistant is the assistant's, in blocks none of which uses a tool |
| TranscriptMeaning.DelegationsOnlyMeaning | tools/squad/server.py:268-286 | with `delegations_only` the activity has no entry but uses of `Agent` |
| TranscriptStates.FindLast | tools/squad/transcripts.py:125 | the position of the last newline, or -1 |
| TranscriptStates.TranscriptState.Refresh | tools/squad/transcripts.py:110-131 | `refresh` in place is the specification, and tells whether it read |
| TranscriptStates.TranscriptState.ReadChunk | tools/squad/transcripts.py:122-129 | the offset moves to the last newline and the fields take in the lines before it |
| TranscriptStates.TranscriptState.ReadLines | tools/squad/transcripts.py:127-128 | the loop over the lines of a chunk |
| TranscriptStates.TranscriptState.Line | tools/squad/transcripts.py:133-222 | one line changes the fields as the specification says |
| TranscriptStates.TranscriptState.Block | tools/squad/transcripts.py:176-215 | one block of a message, with the running tool's item updated in place |
| TranscriptStates.TranscriptState.Current | tools/squad/transcripts.py:225-227 | the latest running tool of the bounded activity, or of the bounded tools |
| TranscriptStates.ReadJsonl | tools/squad/server.py:191-202 | the values of the text lines that are JSON, the last one also when it is unfinished |
| TranscriptStates.ParseRun | tools/squad/server.py:250-302 | the whole-file loop fails, finds nothing, or gives the run of the chosen blocks and the ended-turn flag of the specification |
| TestEnv.DeriveIsCoherent | tools/squad/testenv.py:268-339 | in every log without a publication that occupies the environment with nobody: free if and only if there is no occupant, a queue without duplicates in request order and without the occupant, a pending republication is the occupant's and the environment is occupied or failed |
| TestEnv.CoherentIff | tools/squad/testenv.py:305-317 | the state is coherent after every prefix of a log if and only if no row is a `test-env-publishing` without a demand, nor a `test-env-published` without one while the environment is free |
| TestEnv.NamelessPublicationOccupies | tools/squad/testenv.py:305-312 | the shortest log that is not coherent |
| TestEnvMeaning.OccupantMeaning | tools/squad/testenv.py:268-335 | for every log without nameless publications: the occupant is the demand of the last publication, if it was not released since; it is OCUPADO, FALHOU or PUBLICANDO by what was reported since; its commit is the last one reported; it is stopped exactly if a human stopped it after that |
| TestEnvMeaning.QueueMeaning | tools/squad/testenv.py:288-300 | a demand waits if and only if a human asked for it while it was not the occupant and nothing published, released or canceled it since; it stands at its first such request |
| TestEnvMeaning.RepublishMeaning | tools/squad/testenv.py:291-303 | a republication is pending if and only if the occupant's own request came after its publication had ended and nothing was begun, canceled or released since |
| TestEnvMeaning.ResetMeaning | tools/squad/testenv.py:304-305 | an erasure is pending if and only if a human's confirmed request is followed by none; the last such request counts |
| TestEnvMeaning.OpenReviewMeaning | tools/squad/testenv.py:244-252 | the open review is the last one of the demand, unless some row of the log delivers or rejects the same pull request or address |
| TestEnvMeaning.PublishMeaning | tools/squad/testenv.py:617-701 | when `publish` deploys, with which commit, and which one row it leaves in each other case |
| TestEnvMeaning.ReleaseMeaning | tools/squad/testenv.py:713-725 | a release is recorded exactly for the occupant or someone who waits; afterwards that demand neither has the environment nor waits, and the others wait as before |
| TestEnvMeaning.ErasureMeaning | tools/squad/testenv.py:728-748 | `do_reset`: one failure with the request still pending, or the erasure for the occupant, who is then published again at the same commit when it can be |
| TestEnvRuns.Started | tools/squad/testenv.py:617-701 | a publication that starts takes the environment, leaves the queue and serves the republication |
| TestEnvRuns.ObsoleteReleased | tools/squad/testenv.py:777-783 | releasing the obsolete entries keeps exactly the live ones, in order |
| TestEnvRuns.RoundShrinks | tools/squad/testenv.py:765-800 | a round that goes on leaves strictly less to do when resets succeed |
| TestEnvRuns.ReconcileSettles | tools/squad/testenv.py:759-801 | so `reconcile` ends before its limit when there is less to do than rounds |
| TestEnvMeaning.SettledIsClean | tools/squad/testenv.py:759-801 | `reconcile` that ends before its limit leaves no publication under way, no occupant that was delivered, rejected or canceled, nobody waiting without an open review, and no erasure pending |
| TestEnvOrder.SecondRunIsIdle | tools/squad/testenv.py:759-801 | with reachable open pull requests, after a run that ended before its limit another run does nothing |
| TestEnvOrder.SecondRunIsIdleIff | tools/squad/testenv.py:788-791 | another run does nothing if and only if a pending republication's demand has an open review or is closed |
| TestEnvOrder.EarliestLiveIsServed | tools/squad/testenv.py:792-799 | a free environment goes to the earliest request whose demand is open and under review; the others keep their order |
| TestEnvCounts.PublicationsArePaid | tools/squad/testenv.py:617-653 | over every run, publications of a demand are at most its human requests plus the data resets made for it, whatever is appended in between |
| TestEnvCounts.PublishIsCovered | tools/squad/testenv.py:617-701 | `publish` for a request keeps every publication paid |
| TestEnvCounts.ResetIsCovered | tools/squad/testenv.py:745-747 | `do_reset` pays for the republication it makes |
| TestEnvService.DeriveState | tools/squad/testenv.py:268-339 | the fold over the log |
| TestEnvService.OneRow | tools/squad/testenv.py:282-335 | one row of that fold |
| TestEnvService.DropFromQueue | tools/squad/testenv.py:279-280 | the queue without a demand's entries |
| TestEnvService.Service.RequestPublish | tools/squad/testenv.py:436-453 | refused without an open review, recorded only when not pending already, and then pending |
| TestEnvService.Service.Publish | tools/squad/testenv.py:617-701 | the log after `publish`, and true exactly when it started and was deployed |
| TestEnvService.Service.DoRelease | tools/squad/testenv.py:713-725 | the log after `do_release` |
| TestEnvService.Service.DoReset | tools/squad/testenv.py:728-748 | the log after `do_reset`, and true exactly when the data were erased |
| TestEnvService.Service.DropObsolete | tools/squad/testenv.py:777-783 | the obsolete entries are released in queue order |
| TestEnvService.Service.OneRound | tools/squad/testenv.py:766-800 | one round of `reconcile` |
| TestEnvService.Service.Reconcile | tools/squad/testenv.py:759-801 | at most twelve rounds, as specified |
| ProductCodes.DecReadsBack | tools/squad/product.py:261-263 | a number printed in decimal reads back, without a leading zero |
| ProductCodes.CodeReadsBack | tools/squad/product.py:261-268 | a code of prefix and positive number is valid and gives its number back |
| ProductForms.ValidMeaning | tools/squad/product.py:28 | the valid codes of a prefix are its letter and a positive decimal number, with or without a final newline, and that number is theirs |
| ProductCodes.Gap | tools/squad/product.py:300-303 | the inner loop ends, with the first free number from its start |
| ProductCodes.CodesAreDistinct | tools/squad/product.py:271-307 | with distinct ids and an injective frozen table, every task has a code and no two the same |
| ProductCodes.RulesInOrder | tools/squad/product.py:275-303 | the three rules in their order: a frozen code always counts; a recorded valid one if and only if no frozen task of the log has it and no earlier task recorded it; every other task is numbered |
| ProductCodes.UnrecordedIsNumberedAbove | tools/squad/product.py:299-306 | a task without a frozen or accepted code is numbered above every earlier one |
| ProductCodes.AppendChangesNothing | tools/squad/product.py:370-376 | a row written with the next number gets that code and changes no earlier one |
| ProductCodes.FreezeChangesNothing | tools/squad/product.py:464-471 | freezing a log without codes at any task changes no code: they stay the positions |
| ProductLog.ListTasks | tools/squad/product.py:230-231 | the human's tasks in log order |
| ProductForms.TasksMeaning | tools/squad/product.py:230-231 | the tasks are those of the human's rows, in log order |
| ProductLog.CollectClaims | tools/squad/product.py:275-289 | who holds which code after the frozen and the recorded ones |
| ProductLog.FirstFree | tools/squad/product.py:300-302 | the first free number |
| ProductLog.ComputeCodes | tools/squad/product.py:271-307 | the dictionary-filling loops give the codes of the specification |
| ProductLog.TopNumber | tools/squad/product.py:371 | a number of the prefix that no assigned code exceeds, reached unless there is none |
| ProductLog.Log.AppendTask | tools/squad/product.py:359-380 | one row is appended, its code is valid and above every code of the prefix; under the usual conditions no earlier task changes its code |
| Streaming.DisplayMeaning | tools/squad/conversa.py:969-978 | what is shown is the text up to the first place where an action block is open or may be opening |
| Streaming.DisplayGrows | tools/squad/conversa.py:969-978 | the shown text only grows as the reply grows, for all texts |
| Streaming.BlocksAreNeverShown | tools/squad/conversa.py:969-978 | in every continuation, every block mark comes after the shown text |
| Turns.ShownBeginsFinal | tools/squad/conversa.py:939-951 | what was shown, blanks at its ends aside, begins the final text without blocks |
| ReplyBlocks.BlocksAreRemoved | tools/squad/conversa.py:939-951 | the final text of a reply is its plain text, without any of its blocks, closed or cut, blanks at the ends aside |
| ReplyBlocks.EveryReplyIsProper | tools/squad/conversa.py:943-951 | every text is plain parts without marks between blocks that end at their first fence, the last of which may be cut |
| Turns.DeltasMakeUpSent | tools/squad/conversa.py:1337-1349 | the deltas always concatenate to `sent`, which is what is shown of the text last pushed unless that is only blanks |
| Turns.ReconnectRebuilds | tools/squad/server.py:1444-1463 | a client that takes its snapshot before the turn is done and follows the later events holds exactly `sent`, and once the turn is done what had been sent until then with the final message, whose text goes on from it |
| Turns.LateClientHoldsFinal | tools/squad/server.py:1447-1449 | a client that connects once the turn is done holds the final message alone, whose text goes on from all that had been sent before that end |
| Turns.EndKeepsSent | tools/squad/conversa.py:1716-1761 | the text a turn is recorded with, however it ends, begins with what was sent, blanks at the ends aside |
| TurnPhases.EventsTellTheTurn | tools/squad/conversa.py:1330-1361 | in every turn phase and tool are the last announced, and the final message the last given; a phase is announced only when it changes, and no piece of text is empty, begins the text with blanks only, or comes in another phase than that of answering |
| TurnPhases.ActionsMean | tools/squad/conversa.py:1337-1361 | what one more action does to any turn: a reply ends it with the final text of everything received, pushed or not, a break with what was sent; a push sends all that may be shown of everything received |
| Turns.Turn.ChangePhase | tools/squad/conversa.py:1330-1335 | a phase event exactly when the phase or the tool changes |
| Turns.Turn.PushText | tools/squad/conversa.py:1337-1349 | a delta, the phase and `sent` change together, or nothing does |
| Turns.Turn.FinishTurn | tools/squad/conversa.py:1351-1361 | one ending event with the final message, and the turn is done |
| Turns.ChatStream | tools/squad/server.py:1444-1463 | the final message of a turn that is done; otherwise the snapshot and then every new event once, until the first end of the turn |
| RecordMask.BracketEnds | tools/squad/evidence_rules.py:293-311 | the one-pass stack gives, for every opening bracket of every text, the end the naive depth-counting scan of the line gives, and nothing else |
| RecordMask.FindEquals | tools/squad/evidence_rules.py:324 | the ascending positions of all `=` |
| RecordMask.BisectRight | tools/squad/evidence_rules.py:328 | the number of elements not above the given one |
| RecordMask.HasEquals | tools/squad/evidence_rules.py:328-329 | the bisect test is true if and only if the span holds an `=` |
| RecordMask.MaskRecords | tools/squad/evidence_rules.py:314-336 | the result is the text with disjoint spans replaced, each the whole block of a recorded address, and no recorded address starts outside one |
| PngImages.ChunksReadBack | tools/squad/evidence_rules.py:443-459 | printing a chunk list and parsing it gives the list back (section 3.2 of RFC 2083) |
| PngImages.StripIsIdempotent | tools/squad/evidence_rules.py:443-459 | a stripped PNG reads as the kept chunks in order with their bytes; a second strip removes nothing |
| PngImages.StripKeepsSize | tools/squad/evidence_rules.py:539-542 | a defined size is kept when the header chunk has at least four bytes of data |
| PngImages.HeaderHoldsSizeIff | tools/squad/evidence_rules.py:539-542 | for each header chunk: every file that begins with it keeps its size if and only if the chunk has at least four bytes of data |
| PngImages.StripPng | tools/squad/evidence_rules.py:443-459 | the loop over positions gives that result, and refuses a cut file or one without IEND |
| JpegImages.PiecesReadBack | tools/squad/evidence_rules.py:462-488 | printing segments and parsing them gives them back (Annex B, section B.1.1 of ITU-T T.81) |
| JpegImages.StripIsIdempotent | tools/squad/evidence_rules.py:462-488 | a stripped JPEG reads as the kept segments in order with their bytes; a second strip removes nothing |
| JpegImages.StartsLikeJpegIff | tools/squad/evidence_rules.py:74-75 | the result still starts like a JPEG if and only if some segment survives |
| JpegImages.SizeOfPieces | tools/squad/evidence_rules.py:543-563 | the size read by position is that of the first frame header among the segments |
| JpegImages.StripKeepsSize | tools/squad/evidence_rules.py:543-563 | a defined size is kept when the first frame header is long enough to hold it |
| JpegImages.FrameHoldsSizeIff | tools/squad/evidence_rules.py:558-560 | for each start of a file up to its first frame header: every file that begins so keeps its size if and only if the header has at least nine bytes |
| JpegImages.StripJpeg | tools/squad/evidence_rules.py:462-488 | the loop over positions gives that result, and refuses a malformed file |
| WebpImages.ChunksReadBack | tools/squad/evidence_rules.py:491-499 | printing a chunk list and parsing it gives the list back (section 2 of RFC 9649) |
| WebpImages.StripHeader | tools/squad/evidence_rules.py:503-506 | the result has the container's marks and its true length in the RIFF field |
| WebpImages.StripIsIdempotent | tools/squad/evidence_rules.py:491-506 | a stripped WebP reads as the kept chunks in order, flags cleared; a second strip changes nothing |
| WebpImages.StripKeepsSize | tools/squad/evidence_rules.py:564-576 | a defined size is kept when the first chunk holds it, or is the only one |
| WebpImages.HeaderHoldsSizeIff | tools/squad/evidence_rules.py:564-576 | for each first chunk of a file with a size: every file that begins with it keeps its size if and only if the chunk holds the bytes the size is read from, or is a lossy one of at most two bytes of data |
| WebpImages.StripWebp | tools/squad/evidence_rules.py:491-506 | the loops over positions and flags give that result |
| Images.StrippingTwiceIsStrippingOnce | tools/squad/evidence_rules.py:509-520 | the kind is kept, and a second strip removes nothing and changes no byte, if and only if the image is no JPEG of metadata alone; a stripped WebP has the length its header declares |
| Images.StrippingKeepsSize | tools/squad/evidence_rules.py:531-579 | a defined size is kept whenever the header holds it |
| ImageMeaning.KindMeaning | tools/squad/evidence_rules.py:71-78 | which first bytes make a PNG, a JPEG or a WebP; size and removal go by that kind, and any other file is refused |
| ImageMeaning.PngStripMeaning | tools/squad/evidence_rules.py:440-459 | a stripped PNG has every chunk of the file but those named tEXt, iTXt, zTXt, eXIf and tIME, each as often as it was, and none of these; the count is that of what went |
| ImageMeaning.JpegStripMeaning | tools/squad/evidence_rules.py:479-487 | the same for a JPEG, without the application segments 1 to 15 and comments |
| ImageMeaning.WebpStripMeaning | tools/squad/evidence_rules.py:491-506 | the same for a WebP, without EXIF and XMP; in an extended header these two flags are off and every other bit is as it was |
| ImageMeaning.PngSizeReadsBack | tools/squad/evidence_rules.py:539-542 | the size of a PNG is the two numbers that its header holds |
| ImageMeaning.JpegSizeReadsBack | tools/squad/evidence_rules.py:544-563 | the size of a JPEG is that of its first frame header, where the height stands first; which markers are frames |
| ImageMeaning.JpegWithoutSize | tools/squad/evidence_rules.py:544-564 | without a frame header before the scan or the end there is no size |
| ImageMeaning.JpegSizeStops | tools/squad/evidence_rules.py:544-564 | bytes that are no marker, or too few for one with a length, end the search without a size, whatever segments come before |
| ImageMeaning.JpegSegmentsReadBack | tools/squad/evidence_rules.py:465-487 | segments written one after the other are read back as they were: which markers stand alone, which end the file, and how far a length reaches |
| ImageMeaning.ExtendedSizeReadsBack | tools/squad/evidence_rules.py:566-569 | 24 bits each, less one, for an extended WebP |
| ImageMeaning.LossySizeReadsBack | tools/squad/evidence_rules.py:570-574 | 14 bits each, whatever the scale bits, for a lossy one |
| ImageMeaning.LosslessSizeReadsBack | tools/squad/evidence_rules.py:575-579 | 14 bits each, less one, packed into one word, for a lossless one |
| Images.StripImage | tools/squad/evidence_rules.py:509-520 | the dispatch by kind, with the refusal of other data |

## Left out

- Creating orders over HTTP, and validation of requests: the saga begins with a pending order.
- SagaMachine.SagaStateMachine.Enter: step log, `saga.step-changed` events, metrics, and the fields that follow from the state (`currentStep`, `lastCommandType`) or only feed them (`stepStartedAt`) are not modelled; nor is 64-bit wrap-around of a backoff.
- SagaRuns.AllOrNothing: the optimistic lock and the row lock of `saga_instance` are taken as making each transaction one step; amounts, carriers and codes are not compared.
- SagaProgress.NeverStuck: says that a saga can always end, not that it does: fairness of the scheduler and of Kafka is not modelled.
- Kafka, PostgreSQL, git, Docker, GitHub and the file system themselves: their answers are parameters or nondeterministic steps.
- JSON, Jackson and request decoding: values arrive parsed; `idOf` and `parse` are parameters of the log and transcript modules.
- Message texts, titles, labels, owners, severities, timestamps, MDC and tracing, in all modules.
- InventoryHandler.InventoryCommandHandler.Handle: random reservation ids and message ids are inputs and their uniqueness is not used; wrap-around of the attempts counter and VARCHAR lengths are not modelled.
- RowLocks.InterleavingsAreSerial: the locks of the reservation row and of the processed-message row are never contended, since one transaction per order is in flight; they are not modelled.
- RowLocks.NoWaitCycle: SKUs are compared by Dafny's character order; a database collation that orders them otherwise is outside the hypothesis.
- OutboxRelay.Relay.Run: one relay; SKIP LOCKED between several relays is not modelled.
- LogSupervisor.Supervisor.Others: a writer that would continue an unfinished line is passed over; LogMerge.UnfinishedLineLosesEvent shows what it would lose.
- LogSupervisor.Supervisor.FastForward: one append-only log; the `same` files, their saved copies and the restart of a crashed supervisor are not modelled.
- LogLines.ReattachIsAppendOnlyMerge: universal-newline translation when a file is read as text is not modelled; ids are strings.
- `Supervisor.memory_block`: which files may be merged is a decision over git's output, which is not modelled.
- AlertRules.IncrementalIsFromScratch: is the case of matching clarifications; the exact statement is AlertRules.OpenIsExact.
- AlertRules.OpenIsExact: the gate file of a verdict is a parameter; `cycle`, `owner` and texts of an alert are not compared, since `handoff` events re-evaluate nothing.
- AlertRules.HistoryIsClosings: the order of entries closed by the same event is not modelled; the history is a multiset.
- Wall-clock alerts, environment alerts and executor alerts of `alerts.py`.
- Delegations.ValidateMeaning: the precondition of each category (which alert or run makes it hold, with its target, owner and risk floor) is a parameter of the validation; the checks common to all categories are modelled.
- Delegations.DelegationsAreBounded: attempt keys are structured values, not strings joined with colons; only the confirmation writes delegations, as the log's writer enforces.
- DelegationCrashes.DelegatedOnceIff: which single runs repeat a proposal of a keyless key is not characterised; the lemma speaks of all runs of a key.
- Transcripts.IncrementalIsOnePass: models, calls, notifications, commands, agent launches and masked details of `TranscriptState` are not modelled; items are shared by position instead of by reference.
- TranscriptStates.TranscriptState.Line: models, completed and notified task ids, the second first prompt and the last timestamp are left out.
- TranscriptStates.TranscriptState.Block: calls, commands, agent launches and details are left out.
- TranscriptFiles.SameAsWholeFile: decoding and the values of JSON are parameters; the status, the dates and the `.meta.json` of a run are left out.
- TestEnv.DeriveIsCoherent: ports, addresses, smoke results, warnings and the last error are not part of the state.
- TestEnvOrder.SecondRunIsIdle: no other process appends rows while the two runs go on; the counting theorems of TestEnvCounts allow it.
- TestEnvRuns.ReconcileSettles: is stated for resets that succeed, since a reset that fails is tried again in every round.
- ProductCodes.CodesAreDistinct: the list of conflicts, the cache of the frozen table and file locking are not modelled; the prefix is one capital letter.
- Turns.ShownBeginsFinal: the masking of a reply, applied by one of the runners to pieces and once more to the whole, is not modelled.
- Turns.ChatStream: pings, the SSE framing and answers for turns of an earlier process are not modelled; the JSON inside an action block is not read.
- RecordMask.MaskRecords: the candidates found by the regular expression are a parameter; other masking of secrets and personal data is about regular expressions.
- Images.StrippingKeepsSize: is stated one way, for a whole file; the exact conditions are the lemmas for each format, which speak of all files with a given header.
- Pixel data and decoding of images; `image_complete` of PNG and JPEG; refusal texts and status codes.
