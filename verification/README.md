# Verified model of the paper-trading bot

A Dafny model of the parts of the bot on which its records and its figures depend: the durable
protocols by which processes share work, and the accounting recomputed in several places that
must agree. `dafny verify dfyconfig.toml` checks everything.

Each protocol is modelled twice. A specification gives the effect of one operation as a function
of rows and memory. The operations the program performs step by step are methods over mutable
fields, with loops, proved to have exactly that effect. The properties are then proved about the
specification, for every step and every run, with any number of processes in any interleaving.
Where an operation decides or computes, a lemma states the outcome outright, with the constants
written out, independently of the specification's own definitions.

| modules | what they hold |
|---|---|
| `EventClaims`, `ClaimProtocol`, `ClaimRetry`, `ClaimStore` | the event claim protocol: rows of status, token, attempts and last attempt; ambiguous commits, stale claims, crashes, retries |
| `ProcessedFrontier`, `CheckpointLoss`, `StreamCheckpoints` | the processed prefix, exactly when it is lost, and the durable and state checkpoints of each protocol |
| `StageWorker` | the bounded queue, its coalescing worker and the pending list |
| `Outbox`, `OutboxWorkers`, `OutboxStore` | message delivery with leases, fencing tokens and operator reconciliation; the delivery loops of several workers |
| `Clustering`, `ClusterShares`, `StringOrder` | union-find with path halving as graph connectivity, and the shares of the clusters |
| `Ledger`, `LedgerOrders`, `LedgerReports`, `Reports` | the in-memory ledger, repeated orders, the figures recomputed from its fills, the report as of a past moment |
| `TradeFigures` | what each operation moves in ledger and account, and the cash as the sum of these flows over a run |
| `PaperAccount`, `BrokerMirror`, `BookSplits`, `WriteOffs`, `Recovery`, `Restarts`, `BrokerStore` | the database account, its agreement with the ledger, where that ends, restoring a ledger after a restart |
| `Admission`, `RunRules`, `EntryRules`, `Exposure`, `LostCommits`, `OperationalCosts` | when a run is started or taken over, when an entry is written, halts and pauses over runs; runtime ownership and the entry limits over every interleaving of processes and every outcome of commits; exactly when, and by how much, the exposure limit is passed; exactly when cash goes negative |
| `Candidates`, `CandidateRules` | the candidate state machine over runs of evaluations, and exactly when it moves |
| `Features`, `Snapshots`, `SnapshotFields`, `Concentration` | ordered event lists, snapshots of a pool at a moment, every field in terms of the accepted events, concentration figures |
| `StateBatch`, `EventEffects` | coalesced upserts against sequential ones; the state tables against the PROCESSED events |
| `Acceptance`, `AcceptanceRules` | the statistical evaluator and its independent verifier; every figure and criterion in terms of the trades |
| `Exits`, `PositionHistory`, `Drawdown` | exit decisions under partial closes; a position's extremes and profit targets over a run; one-pass drawdown |
| `Options`, `Sums` | helpers |

Conventions. Money and amounts are `real`; every accounting equality is meant in exact arithmetic.
Times are integers, days are abstract. A transaction is one atomic step: a raise rolls it back,
and only a commit can have an unknown outcome, landed or not. Fresh identifiers are inputs
required to be unused. Quotes, sends and the results of handlers are inputs too.

Where the code differs from what one might expect:

- `resume_owned` accepts again an event already PROCESSING under this process's own token
  (`src/sniper_bot/database.py:1389-1396`), so an event may be accepted twice by one process; what
  is proved unique is its entry into PROCESSED.
- With several ingest writers a sequence number drawn early can be committed late, and the stream
  checkpoint is then lost (`CheckpointLoss.SecondWriterMovesCheckpointBack`);
  `CheckpointHoldsOverRunIff` says which claims do that.
- An entry answered by the open position of its token leaves its order id unrecorded
  (`src/sniper_bot/ledger.py:359-361`), so the same id can open a second position later
  (`LedgerOrders.AnsweredEntryOpensLater`). Exits and entries that opened a position are
  answered once and for all.
- A partial exit without a quote marks the database row UNRECOVERABLE while the ledger keeps the
  position open (`src/sniper_bot/database.py:3531`). The amounts still agree, but until the process
  restarts the remainder can be neither sold nor bought again (`WriteOffs.StrandedForGood`,
  `StrandedBlocksToken`). After a restart the token can be bought again, and the locked capital
  keeps the remainder's cost (`Recovery.RestartKeepsStrandedCapital`); the conservation laws of the
  ledger survive exactly the other restarts (`Restarts.ConservationOverLifeIff`).
- An operational cost, which can be recorded only between two runs, lowers the equity of the ledger
  restored next, but not its realized gains (`src/sniper_bot/database.py:2878-2880`). The ledger then
  balances to the starting equity less the costs (`Restarts.CostBetween`); against the starting
  equity itself the balance holds exactly without any (`PlainConservationOverLifeIff`).
- An exit that lands although its commit is reported as failed leaves the position in the ledger. A
  later turn without a failure reopens the entry gate (`src/sniper_bot/runtime.py:826-836`), also one
  that skips marks and exits for want of a quote. The next entry is then checked without its fee
  against the ledger (`src/sniper_bot/risk.py:65`) and with it against the database
  (`src/sniper_bot/database.py:3272`), and the next marking stores the ledger's locked capital
  (`src/sniper_bot/database.py:3059`), which can exceed the exposure limit
  (`LostCommits.LostExitOverexposes`). `Exposure.ExposureOverRunIff` says exactly when,
  `ExposureWithinFee` by how much at most, and `SettledOverRunIff` exactly how long the ledger in use
  agrees with the database.
- The database commits a negative quote that the ledger then refuses;
  `BookSplits.EntryAgreementIff` and `ExitAgreementIff` say exactly when the books agree. The
  quote client in the repository refuses non-positive amounts
  (`src/sniper_bot/jupiter.py:176-184`), so only another quote provider can produce this input.
- A retry after a commit of unknown outcome asks for a new quote and repeats that one on the
  ledger, although the database keeps the first; the books agree again only if both give the
  same (`BookSplits.EntryRetryHealsIff`, `ExitRetryHealsIff`). An exit retried without a quote
  loses its reason too, so even the same amount and value can leave a profit target taken in one
  book only (`BookSplits.LostReasonSplits`).
- With a retry interval of zero and a positive timeout, closing a position asks for a quote for as
  long as requests fail (`BrokerStore.LoopEndsIff`).
- Operational costs need no ownership, only that no run is active, and can make cash negative
  (`OperationalCosts.FencedCostOverdraws`; `CashOverRunIff` says exactly when).
- A run whose start is committed with an unknown outcome stays active without an owner
  (`LostCommits.LostStartBlocksAccount`), and blocks the account until it is taken over or stopped
  (`Admission.UnownedOverRunIff`).
- The one-pass drawdown loops miss falls into negative equity from a low start
  (`Drawdown.OnePassIsPairwiseIff` is the exact condition).
- Keeping only the last staged write of a row would lose columns if that write set fewer than its
  predecessors (`StateBatch.FlushIsExactIff`). No caller does this: each names a fixed set of
  columns per table (`StateBatch.FixedColumnsCover`).
- Evaluating a rejected candidate past its expiry raises (`Candidates.RaisesIff`).
- The daily-halt fields assigned just before a raise in the entry transaction
  (`src/sniper_bot/database.py:3313-3315`) are rolled back with it.
- `min(300, ...)` in the outbox delay never applies, since the power is at most 256
  (`Outbox.BackoffDoubles`).

## Model

| member | source | states |
|---|---|---|
| Clustering.SumHeld | src/sniper_bot/clustering.py:111-128 | the sum of what some wallets hold |
| Clustering.BuildClusters | src/sniper_bot/clustering.py:80-134 | refuses exactly when some eligible relation names a wallet outside the set; otherwise returns the connected components of the eligible relations, every wallet in one group, groups and members in order, each identified by its least wallet, with its members' parts of all holdings and volumes |
| Clustering.DisjointSets.Find | src/sniper_bot/clustering.py:89-93 | terminates, returns the root of the start wallet, and path halving changes no wallet's root |
| Clustering.DisjointSets.Union | src/sniper_bot/clustering.py:95-101 | relabels exactly the two trees to the smaller root |
| Clustering.PlaceWallets | src/sniper_bot/clustering.py:108-110 | groups every wallet under its root, in sorted order |
| Clustering.GroupClusters | src/sniper_bot/clustering.py:108-134 | the emitted list is the clustering of the relations, whatever the forest's shape |
| Clustering.HalvingKeepsLabels | src/sniper_bot/clustering.py:91 | one halving assignment moves no root, and parents stay smaller in string order |
| Clustering.LinkMergesLabels | src/sniper_bot/clustering.py:98-101 | hanging the larger root under the smaller merges exactly two trees |
| Clustering.UnionKeepsMatch | src/sniper_bot/clustering.py:103-107 | after each eligible relation, equal roots still mean connected by the relations seen so far |
| Clustering.SameRootIffConnected | src/sniper_bot/clustering.py:89-107 | two wallets have one root if and only if a path of eligible relations joins them |
| Clustering.GroupsAreClusters | src/sniper_bot/clustering.py:111-134 | groups by root are well formed, ordered, and partition the wallets |
| Clustering.ClustersAreDisjoint | src/sniper_bot/clustering.py:108-134 | no wallet is in two clusters |
| Clustering.IdIsLeast | src/sniper_bot/clustering.py:111-134 | a cluster identifier is at most every wallet connected to it |
| Clustering.ClusteringIndependentOfOrder | src/sniper_bot/clustering.py:80-134 | reordering or repeating relations, or changing ineligible ones, changes no identifier and no group |
| Clustering.ExplanationsAre | src/sniper_bot/clustering.py:116-122 | a relation explains a cluster exactly as often as it was given, if it is eligible and the cluster has both its wallets, and otherwise not at all |
| Clustering.ExplanationsKeepOrder | src/sniper_bot/clustering.py:116-122 | explanations come in the order of the relations |
| Clustering.OneExplanation | src/sniper_bot/clustering.py:103-122 | every eligible relation explains exactly one cluster, the one with its wallets; an ineligible one explains none |
| ClusterShares.ClustersHoldAll | src/sniper_bot/clustering.py:111-134 | together the clusters hold exactly what the wallets hold |
| ClusterShares.SharesAddUp | src/sniper_bot/clustering.py:111-132 | the holdings shares of all clusters, and likewise the buy shares, add up to the wallets' part of everything held or bought; to one when every holder, or buyer, is among the wallets |
| ClusterShares.SharesAre | src/sniper_bot/clustering.py:123-132 | each share is the fraction of everything held, or bought, that belongs to members with an entry; zero if nothing is held, or bought |
| ClaimProtocol.StepKeepsInv | src/sniper_bot/database.py:577-748 | every step of any process (claim, processed, failed, batch flush, release, crash) keeps: a token is stored exactly in PROCESSING, tokens belong to one process and event, sequence numbers are distinct |
| ClaimProtocol.RunKeepsInv | src/sniper_bot/database.py:577-748 | the same over every run from the empty table, any number of processes |
| ClaimProtocol.OneHolder | src/sniper_bot/database.py:1558-1729 | at most one process holds the claim of an event |
| ClaimProtocol.RowChangeIsFenced | src/sniper_bot/database.py:1387-1419 | an existing row changes only by a claim of a failed row, of one never attempted or last attempted two minutes ago or more, or of any unprocessed one when told to reclaim; or by the process holding its current token; the new row is stated in full |
| ClaimProtocol.NewRowIsClaimed | src/sniper_bot/database.py:1285-1300 | a new row appears PROCESSING with one attempt, by a claim |
| ClaimProtocol.SupersededBatchWritesNothing | src/sniper_bot/database.py:698-736 | a flush holding one claim now held by another process writes nothing at all |
| ClaimProtocol.BatchCompletesIff | src/sniper_bot/database.py:698-748 | a flush completes all staged events exactly when every row is still PROCESSING under its staged token and the commit lands, and otherwise none; each row stated in full |
| ClaimProtocol.MarkRule | src/sniper_bot/database.py:1606-1729 | marking completes, or fails, all named events or none; the rows, and the tokens that are forgotten, stated in full |
| ClaimProtocol.ClaimIsPossible | src/sniper_bot/database.py:1044-1087 | any process may make any call with new tokens and numbers |
| ClaimProtocol.ProcessedIsFinal | src/sniper_bot/database.py:1402-1413 | over every run a PROCESSED row is never written again |
| ClaimProtocol.ProcessedOnceByItsHolder | src/sniper_bot/database.py:698-736 | over every run an event enters PROCESSED at most once, by the only process holding its current claim |
| ClaimProtocol.WhoClaimed | src/sniper_bot/database.py:1414-1419 | over every run the last attempt stored in a PROCESSING row is the time of the claim that wrote it |
| ClaimProtocol.ClaimStamps | src/sniper_bot/database.py:1414-1419 | a step that makes a row PROCESSING, or takes it over, is a claim and stores its own time |
| ClaimProtocol.TakeOverWaits | src/sniper_bot/database.py:1397-1406 | over every run a claim that takes a PROCESSING row over without being told to reclaim comes at least 120,000,000 microseconds after the claim that wrote it |
| ClaimProtocol.ClaimKeepsSequences | src/sniper_bot/database.py:1421-1519 | a claim transaction leaves sequence numbers distinct, covers every accepted event, and only appends |
| ClaimProtocol.ClaimWrites | src/sniper_bot/database.py:1044-1552 | whatever its outcome, a call changes only rows of its batch, each as the claim rules allow |
| ClaimProtocol.UniqueIsDistinct | src/sniper_bot/database.py:1061-1066 | deduplication keeps exactly the batch ids, once each |
| ClaimProtocol.NumberGives | src/sniper_bot/database.py:1217-1257 | numbering keeps stored numbers and gives the new ids the numbers the call drew, in batch order |
| ClaimRetry.ReturnedTokensMatchRows | src/sniper_bot/database.py:1383-1419 | after a call that returns, the process holds a token for a batch id if and only if the row is PROCESSING under it; other tokens and rows are unchanged |
| ClaimRetry.ReconciledTokensMatchRows | src/sniper_bot/database.py:981-1042 | the same agreement after a failed body, with the rows untouched |
| ClaimRetry.AcceptedIff | src/sniper_bot/database.py:1384-1419 | a committed call accepts exactly the first occurrences of events that are unknown or failed, or PROCESSING and reclaimed, never attempted, last attempted two minutes ago or more, or, when resuming, under its own token; an accepted event is numbered and held |
| ClaimRetry.RaisesIff | src/sniper_bot/database.py:1052-1080 | a call raises exactly when it has over 1024 events, its body fails or its commit is ambiguous; only a landed commit changes the rows |
| ClaimRetry.RetryEqualsCleanCall | src/sniper_bot/database.py:1044-1552 | after an unknown commit outcome, a resuming retry ends with the rows, tokens, attempts and results of one clean call, whether or not the first commit landed |
| ClaimRetry.RetryOfLanded | src/sniper_bot/database.py:1388-1396 | retrying a landed call resumes its own claims and changes nothing |
| ClaimRetry.RetryOfLost | src/sniper_bot/database.py:1068-1074 | retrying a lost call reuses the remembered tokens and is a first call |
| ClaimStore.Database.RecordEvents | src/sniper_bot/database.py:1044-1552 | the step-by-step method equals the specification of rows, memory and reply for every transaction outcome |
| ClaimStore.Database.ReconcileTokens | src/sniper_bot/database.py:981-1017 | forgets exactly the call's tokens not durably owned |
| ClaimStore.Database.ReleaseUnclaimed | src/sniper_bot/database.py:1521-1527 | forgets exactly the tokens neither obtained nor already owned |
| ClaimStore.Database.MarkEvents | src/sniper_bot/database.py:1606-1729 | succeeds exactly when every event has a remembered token that still owns its row; then all rows are finished and the tokens forgotten, otherwise nothing changes |
| ClaimStore.MarkingIs | src/sniper_bot/database.py:1606-1690 | when events can be marked and what the marked rows are, in full |
| ClaimStore.CaptureClaims | src/sniper_bot/database.py:1616-1620 | collects the remembered tokens, or fails if one is missing |
| ClaimStore.FinishRows | src/sniper_bot/database.py:698-736 | finishes all rows, or reports one superseded claim |
| ClaimStore.Dedupe | src/sniper_bot/database.py:1061-1066 | the first occurrences, in order |
| ClaimStore.DrawTokens | src/sniper_bot/database.py:1068-1073 | reuses a remembered token, otherwise takes a fresh one |
| ClaimStore.ClaimRows | src/sniper_bot/database.py:1383-1419 | inserts and claims exactly the rows the decision rule names, and reports the accepted, the already owned and the inserted ids |
| ClaimStore.ClaimExisting | src/sniper_bot/database.py:1387-1419 | the branches for one stored row: resumed, kept or reclaimed |
| ClaimStore.InsertNew | src/sniper_bot/database.py:1285-1300 | inserts the unknown ids and leaves stored rows alone |
| ClaimStore.NumberRows | src/sniper_bot/database.py:1426-1451 | numbers exactly the inserted events, in batch order |
| ClaimStore.ListResults | src/sniper_bot/database.py:1528-1552 | one result per position; a repeated id is accepted at its first occurrence only |
| ProcessedFrontier.NothingUnprocessedBelow | src/sniper_bot/database.py:278-288 | every stored event numbered at or below the loaded checkpoint is PROCESSED |
| ProcessedFrontier.CheckpointExists | src/sniper_bot/database.py:1892-1906 | if any event qualifies a checkpoint is found at or above it |
| ProcessedFrontier.StepAppends | src/sniper_bot/database.py:1427-1436 | with one ingest writer every step only adds larger sequence numbers |
| ProcessedFrontier.PrefixStays | src/sniper_bot/database.py:278-288 | a processed prefix survives any appending step |
| ProcessedFrontier.PrefixStaysOverRun | src/sniper_bot/database.py:278-288 | a processed prefix survives any run with one ingest writer |
| ProcessedFrontier.CheckpointNeverMovesBack | src/sniper_bot/database.py:1892-1939 | over any such run a checkpoint never disappears and never gets smaller, for the stream and per protocol |
| CheckpointLoss.PrefixSurvivesIff | src/sniper_bot/database.py:278-288 | one step of any process leaves an event in the processed prefix exactly when it is not a committing claim of unknown events, or the first number it drew is above that of the event |
| CheckpointLoss.CheckpointSurvivesIff | src/sniper_bot/database.py:1892-1907 | after one step some checkpoint is at or above the old one exactly under that condition |
| CheckpointLoss.CheckpointHoldsOverRunIff | src/sniper_bot/database.py:1892-1939 | over any run, with any number of writers whose draws may interleave, the checkpoint is at or above where it was at every moment exactly when every claim in between meets that condition |
| CheckpointLoss.NewNumbers | src/sniper_bot/database.py:1421-1451 | a committing claim of unknown events stores the first number of its call for an event that was not stored; any other step stores no number |
| CheckpointLoss.SecondWriterMovesCheckpointBack | src/sniper_bot/database.py:1421-1451 | a run of two processes after which, by a late commit of an early number, no checkpoint is left |
| StreamCheckpoints.CheckpointTable.Save | src/sniper_bot/database.py:1941-2014 | refuses a batch with an unnumbered event before writing; otherwise every protocol's column of the stage becomes the maximum of old and new |
| StreamCheckpoints.CollectLatest | src/sniper_bot/database.py:1950-1964 | the newest sequence of every protocol in the batch |
| StreamCheckpoints.LatestIsMaximum | src/sniper_bot/database.py:1950-1964 | that map holds, per protocol, a maximum that occurs in the batch |
| StreamCheckpoints.SavedIsOldOrNewest | src/sniper_bot/database.py:1998-2013 | after a save each checkpoint of the stage is the old one, or the sequence, signature and slot of the first newest event of the batch, above it, and covers every event of the batch; the other stage is untouched |
| StreamCheckpoints.LatestIsFirst | src/sniper_bot/database.py:1951-1963 | of several events with the largest sequence of a protocol the first is kept |
| StreamCheckpoints.SavedGrows | src/sniper_bot/database.py:1990-2014 | a save lowers no column of any protocol |
| StreamCheckpoints.StepKeepsInv | src/sniper_bot/pipeline.py:442-480 | every worker step keeps: whatever waits for the state worker is durably covered, and state is at most durable |
| StreamCheckpoints.StateNeverAhead | src/sniper_bot/pipeline.py:700-704 | over every run no protocol's state sequence exceeds its durable sequence |
| StreamCheckpoints.CheckpointsNeverMoveBack | src/sniper_bot/database.py:2000-2013 | over every run no checkpoint gets smaller |
| StageWorker.Stage.Run | src/sniper_bot/pipeline.py:392-433 | it returns only once a stop was put and everything put before it, cancelled puts aside, has been completed in order; it waits only with the script used up and, with nothing in hand, an empty queue; it raises only on a failing handler or a cancellation; on every exit nothing taken is left unmarked or pending; handler inputs flatten to exactly the completed batches and those in hand; only a batch carried past a failure is released unseen |
| StageWorker.Stage.Turn | src/sniper_bot/pipeline.py:398-433 | one turn releases the batches it gave to the handler, failed or not |
| StageWorker.Stage.Collect | src/sniper_bot/pipeline.py:366-390 | coalesces in order up to 1024 events, carries the first batch that does not fit, otherwise empties the queue |
| StageWorker.Stage.CompleteStage | src/sniper_bot/pipeline.py:338-349 | pops its head, or removes the batch and reports lost order |
| StageWorker.Stage.Complete | src/sniper_bot/pipeline.py:423-433 | one task_done and one pop for the batch in front, which is always the head |
| StageWorker.Stage.CompleteAll | src/sniper_bot/pipeline.py:423-433 | all batches given to the handler are completed in order |
| StageWorker.Stage.Produce | src/sniper_bot/pipeline.py:318-336 | any producer move keeps pending = in hand, carried, queued, blocked put |
| StageWorker.Stage.Offer | src/sniper_bot/pipeline.py:318-336 | a put enters the queue or waits, never past the capacity |
| StageWorker.Stage.CancelWaiting | src/sniper_bot/pipeline.py:330-336 | a failed put removes its own batch from the end of pending |
| StageWorker.Stage.Get | src/sniper_bot/pipeline.py:392-433 | taking an item moves it from the queue into the hand |
| StageWorker.Stage.GetNowait | src/sniper_bot/pipeline.py:366-390 | the same for the item that joins or ends a batch |
| StageWorker.Stage.AwaitHandler | src/sniper_bot/pipeline.py:392-433 | while the handler runs producers may move; the handler input is recorded and holds at most 1024 events |
| StageWorker.RemoveLastIff | src/sniper_bot/pipeline.py:333-336 | removing a cancelled batch by value removes that very batch exactly when no earlier pending batch has the same value |
| Outbox.StepKeepsInv | src/sniper_bot/database.py:2429-2598 | every step keeps: a claim token exactly in SENDING, tokens never reused, attempts equal to claims and within the bound |
| Outbox.RunKeepsInv | src/sniper_bot/database.py:2429-2598 | the same over every run of any number of workers and operators |
| Outbox.StepOnMessage | src/sniper_bot/database.py:2429-2598 | what one step may do to one message: terminal rows stay, FAILED is entered only by a rejected send or an operator retry, a new token only by a claim |
| Outbox.TerminalIsFinal | src/sniper_bot/database.py:2551-2557 | DELIVERED and DEAD rows are never written again |
| Outbox.ReclaimNeedsReopening | src/sniper_bot/database.py:2515-2572 | between two claims of a message its own holder recorded a failed send or an operator chose retry |
| Outbox.LeaseExpiryFences | src/sniper_bot/database.py:2432-2443 | once a lease is over, the next poll moves the message to UNCERTAIN without a token and does not claim it |
| Outbox.LateTokenStaysDead | src/sniper_bot/database.py:2551-2557 | a token that left its message never comes back |
| Outbox.LateReportIsRejected | src/sniper_bot/database.py:2551-2557 | a late worker's report changes nothing |
| Outbox.SendsAreBounded | src/sniper_bot/database.py:2429-2598 | the tokens a message was sent under are at most its claims, and those at most 10 plus the operator retries |
| OutboxWorkers.MovesAreSteps | src/sniper_bot/outbox.py:71-136 | every move of any number of interleaved delivery loops (poll, send, report, stop) is a step of the protocol or leaves it as it is; no loop sends twice under one token |
| OutboxWorkers.MoveKeepsInv | src/sniper_bot/outbox.py:71-136 | every move keeps: a token is in at most one loop at one place, and has been sent under only when it is the head just handed over |
| OutboxWorkers.SendsAreBounded | src/sniper_bot/outbox.py:71-136 | over every run of the loops, stops and operators, sends of a message are at most its claims, and those at most 10 plus the operator retries; nothing is sent twice under one claim |
| OutboxWorkers.UnknownWaitsForOperator | src/sniper_bot/outbox.py:120-130 | the same over every interleaving of delivery loops, stops and operators |
| Outbox.BackoffIsWaited | src/sniper_bot/database.py:2571-2572 | after a rejected send no worker claims the message again before the back-off for its attempts has passed |
| Outbox.IssueAddsOne | src/sniper_bot/database.py:2458-2463 | a claim adds exactly one token to each claimed message |
| Outbox.BackoffDoubles | src/sniper_bot/database.py:2571 | the delay doubles up to 256 seconds, so the cap of 300 is never reached |
| Outbox.PollOutcome | src/sniper_bot/database.py:2429-2466 | what a poll leaves of each message: one sent for thirty seconds becomes UNCERTAIN, a claimed one was PENDING or FAILED, undelivered and due, and is SENDING under its token with one attempt more; every other is as it was |
| Outbox.PollIsPossible | src/sniper_bot/database.py:2444-2463 | any due messages can be claimed under new tokens |
| Outbox.ReportOutcome | src/sniper_bot/outbox.py:77-135 | what a report leaves of a message held by its token, per outcome of the send: accepted, DELIVERED; RuntimeError, FAILED with its wait, or DEAD at the tenth attempt; any other exception, UNCERTAIN; policy, empty text or permission, DEAD; without that token it changes nothing |
| Outbox.OperatorOutcome | src/sniper_bot/database.py:2526-2548 | an operator changes only UNCERTAIN messages: to FAILED and due now, DELIVERED now, or DEAD |
| Outbox.UnclaimableStep | src/sniper_bot/database.py:2444-2456 | no step but an operator's retry makes an uncertain, delivered or dead message claimable |
| Outbox.UnknownWaitsForOperator | src/sniper_bot/outbox.py:120-130 | over every run a message whose send had an unknown outcome is not claimed again before an operator chose to retry it |
| OutboxStore.OutboxTable.ExpireLeases | src/sniper_bot/database.py:2432-2443 | every over-age SENDING row and no other becomes UNCERTAIN |
| OutboxStore.OutboxTable.PendingOutbox | src/sniper_bot/database.py:2429-2466 | claims exactly the oldest due messages up to the limit, each under its own token |
| OutboxStore.OutboxTable.ClaimEach | src/sniper_bot/database.py:2457-2463 | claims the selected rows and leaves the others alone |
| OutboxStore.OutboxTable.Conclude | src/sniper_bot/database.py:2468-2598 | a report succeeds exactly when the row is SENDING under the token, and then changes that row only |
| OutboxStore.OutboxTable.ReportEach | src/sniper_bot/outbox.py:77-135 | reports every claimed message by the outcome of its own send, for each outcome the state it ends in, and counts the deliveries |
| OutboxStore.OutboxTable.DeliverOnce | src/sniper_bot/outbox.py:71-136 | claims the oldest due messages up to 100; each ends DELIVERED, FAILED with its wait, DEAD or UNCERTAIN by the outcome of its own send, without a token; all others only lose a lease of thirty seconds; returns how many were accepted |
| OutboxStore.SelectDue | src/sniper_bot/database.py:2444-2456 | the due messages in creation order, cut at the limit |
| OutboxStore.DueIsClaimable | src/sniper_bot/database.py:2446-2450 | due means PENDING or FAILED with its time reached |
| OutboxStore.DueKeepsOrder | src/sniper_bot/database.py:2451-2452 | if a due message is taken, so is every due one created before it |
| OutboxStore.TakesOldest | src/sniper_bot/database.py:2444-2456 | the taken messages are due, distinct, as many as there are or the limit, and no due one left is older |
| OutboxStore.AttemptEnds | src/sniper_bot/outbox.py:77-135 | a due message that is claimed and reported is in the state of its outcome, with one attempt more and no token |
| OutboxStore.DeliveredAre | src/sniper_bot/outbox.py:131-135 | the count returned is that of the accepted sends |
| Ledger.OpenKeepsInv | src/sniper_bot/ledger.py:326-411 | opening keeps the balance equation, the indexes and the recount from fills |
| Ledger.CloseKeepsInv | src/sniper_bot/ledger.py:443-513 | closing, whole or in part, keeps them too |
| Ledger.CloseReleasesCost | src/sniper_bot/ledger.py:472-497 | locked capital drops by the proportional cost |
| Ledger.MarkKeepsInv | src/sniper_bot/ledger.py:215-255 | marking keeps them too |
| Ledger.StepKeepsInv | src/sniper_bot/ledger.py:215-513 | every operation keeps them, and the peak becomes the maximum of old peak and new equity |
| Ledger.RunKeepsInv | src/sniper_bot/ledger.py:215-513 | over every run: equity less unrealized is starting equity plus realized; locked capital is the sum of open costs; realized PnL, daily totals and every position's amount and cost equal the recount from fills |
| Ledger.PeakIsMaximum | src/sniper_bot/ledger.py:253 | the recorded peak is the largest equity reached, and was reached |
| LedgerOrders.EntryIsAnsweredIff | src/sniper_bot/ledger.py:357-361 | a priced entry changes nothing exactly when its order id is recorded or its token is open |
| LedgerOrders.EntryIsRecordedIff | src/sniper_bot/ledger.py:357-408 | an answered entry leaves its order id recorded exactly when it opened a position, then or earlier |
| LedgerOrders.OpenedEntryIsIdempotent | src/sniper_bot/ledger.py:357-358 | once an entry id has opened a position, any entry under it changes nothing and gets that position, for the rest of every run |
| LedgerOrders.ExitIsIdempotent | src/sniper_bot/ledger.py:436-438 | once an exit has been answered at all, any exit under its id changes nothing and gets the same answer, for the rest of every run |
| LedgerOrders.RecordedStays | src/sniper_bot/ledger.py:405-511 | over every run a recorded order id stays, with its position |
| LedgerOrders.AnsweredEntryOpensLater | src/sniper_bot/ledger.py:359-361 | a run in which an entry id, first answered by the open token, opens a second position after that one was sold |
| LedgerReports.UnrealizedIsSumOverRun | src/sniper_bot/ledger.py:475-496 | over every run whose marks price all open positions above zero, the unrealized total is the sum of the open positions' marked gains |
| LedgerReports.CloseScalesGain | src/sniper_bot/ledger.py:472-489 | a partial close leaves the kept share of the marked gain |
| LedgerReports.ReportMatchesPast | src/sniper_bot/reports.py:328-338 | the amount left by the fills before a moment is positive exactly for the positions then open, and amount and cost are those they then had |
| LedgerReports.FillsBefore | src/sniper_bot/reports.py:312-327 | the fills before a moment are those of the state at that moment |
| LedgerReports.RunsReconcile | src/sniper_bot/ledger.py:553-579 | after any run the realized PnL is the recount over exit fills and the sum over days |
| LedgerReports.PaperLedger.Open | src/sniper_bot/ledger.py:326-411 | the method in place equals the specification, repeats and refusals included |
| LedgerReports.PaperLedger.Close | src/sniper_bot/ledger.py:413-513 | the same for closing |
| LedgerReports.PaperLedger.CloseOpen | src/sniper_bot/ledger.py:448-513 | the effect of a close once its checks have passed |
| LedgerReports.PaperLedger.MarkToMarket | src/sniper_bot/ledger.py:215-255 | the same for marking, with the two figures it returns |
| LedgerReports.PaperLedger.Reconcile | src/sniper_bot/ledger.py:553-579 | reports reconciled exactly when the recount equals the stored figure |
| LedgerReports.MarkEach | src/sniper_bot/ledger.py:227-248 | one pass updates every position and accumulates the sum of the marked gains |
| LedgerReports.ReducePosition | src/sniper_bot/ledger.py:472-503 | the updates of one position by a close |
| Reports.OpenPositionsAsOf | src/sniper_bot/reports.py:304-349 | the loop over the present positions gives, ordered by identifier, one row for each that was opened before, has an entry fill before, and has an amount left |
| Reports.SumFills | src/sniper_bot/reports.py:312-338 | the sums over the fills of one position before the moment |
| Reports.ReportListsPast | src/sniper_bot/reports.py:304-349 | made at any later point of a run, the report has exactly one row for every position open at the moment, with its token, opening time, amount and cost of then |
| BrokerMirror.EntryEffect | src/sniper_bot/broker.py:91-196 | an entry changes the books exactly when its guards hold, and then writes the database and repeats the entry on the ledger |
| BrokerMirror.ExitEffect | src/sniper_bot/broker.py:228-331 | the same for an exit, which hits the row of the position the ledger holds |
| BrokerMirror.KnownIffStored | src/sniper_bot/ledger.py:309-314 | in agreeing books the ledger knows by its fills exactly the orders the database has stored, on the same side |
| BrokerMirror.OpenKeepsAgreement | src/sniper_bot/broker.py:91-196 | an entry, new or repeated, leaves database and ledger in agreement |
| BrokerMirror.CloseKeepsAgreement | src/sniper_bot/broker.py:228-331 | the same for an exit, with or without a quote |
| BrokerMirror.OneRowAgrees | src/sniper_bot/database.py:3467-3477 | cost per token times amount and cost times closed fraction release the same cost, book the same gain and write the same fill |
| BrokerMirror.RevalueKeepsAgreement | src/sniper_bot/database.py:3042-3080 | a revaluation keeps the agreement, also when the database refuses the second half to a process that does not own the account |
| BrokerMirror.BooksAgree | src/sniper_bot/broker.py:78-331 | over every run, repeated orders and refusals included, the two books agree on remaining tokens and cost, realized PnL, targets taken, locked capital, cash, equity less unrealized, orders and fills |
| BrokerMirror.MirrorKeepsLedgerInv | src/sniper_bot/broker.py:160-185 | what the broker does to the ledger keeps every invariant of ledger runs |
| BookSplits.EntryAgreementIff | src/sniper_bot/ledger.py:351-354 | an entry leaves the books in agreement exactly when one of its guards refuses it or the quoted amount is positive |
| BookSplits.ExitAgreementIff | src/sniper_bot/ledger.py:430-431 | an exit does exactly when one of its guards refuses it, it has no quote, or its value is not negative |
| BookSplits.NegativeQuotesSplit | src/sniper_bot/broker.py:113-170 | books, reached from the start, that a negative quote splits: one entry and one exit |
| BookSplits.EntryRetryHealsIff | src/sniper_bot/broker.py:91-185 | after an entry that was committed although the commit was reported failed, a retry under the same order makes the books agree again exactly when the risk check lets it through and it gives the stored amount of the stored token at the stored cost |
| BookSplits.ExitRetryHealsIff | src/sniper_bot/broker.py:228-321 | the same for an exit: exactly when the retry sells the stored amount of the stored token for the stored net value and takes the stored profit targets |
| BookSplits.LostReasonSplits | src/sniper_bot/broker.py:281 | a retry with the same amount and value that leaves the books split, because it has lost its quote and with it its reason |
| WriteOffs.LiveUnlessWrittenOff | src/sniper_bot/database.py:3531 | over every run the row of a position the ledger holds open is live exactly when no exit without a quote has sold part of it |
| WriteOffs.StrandedForGood | src/sniper_bot/database.py:3453-3463 | the remainder of such a position keeps its tokens, its cost and its part of the locked capital for the rest of the run |
| WriteOffs.StrandedBlocksToken | src/sniper_bot/database.py:3453-3460 | meanwhile no entry and no exit of its token changes either book |
| WriteOffs.PartialWriteOffStrands | src/sniper_bot/database.py:3531 | a run that reaches this state |
| Recovery.RestoredIsSound | src/sniper_bot/ledger.py:585-695 | a ledger restored from the database agrees with it |
| Recovery.RestoreMatchesLost | src/sniper_bot/ledger.py:585-695 | it has the fills, orders, daily and realized gains, locked capital, equity less unrealized and amounts of the ledger that was lost; statuses and open tokens are the same exactly when no position is stranded |
| Recovery.RestartAfterRun | src/sniper_bot/runtime.py:221-231 | so after every run of the broker |
| Recovery.RestartKeepsStrandedCapital | src/sniper_bot/ledger.py:619-623 | after a restart locked capital exceeds the open costs by exactly the costs of the stranded remainders, whose tokens can be bought again |
| Recovery.DailyFromFills | src/sniper_bot/ledger.py:684-690 | over every ledger run each day's total equals the one recomputed from that day's exit fills |
| Restarts.RestoredInvIff | src/sniper_bot/ledger.py:585-695 | everything the ledger keeps over its runs survives a restart exactly when no position is stranded at that moment |
| Restarts.LifeIsHealthy | src/sniper_bot/runtime.py:216-231 | over every run with any number of restarts, and any operational costs recorded before each, the two books agree, the database can be restored from, and daily totals are the recount |
| Restarts.ConservationOverLifeIff | src/sniper_bot/ledger.py:585-695 | over every such run balance, recount from fills and indexes hold at every moment, counted from the starting equity less the costs recorded so far, exactly when no restart happens while a position is stranded |
| Restarts.CrashMidwayRecovers | src/sniper_bot/broker.py:119-196 | a process that dies after the database's half of an operation and before the ledger's recovers by the restart; the conservation laws then hold exactly when the whole operation would have left no position stranded |
| Restarts.PlainConservationOverLifeIff | src/sniper_bot/database.py:2878-2880 | counted from the starting equity itself they hold at every moment exactly when, besides, no cost is ever recorded |
| Restarts.CostBetween | src/sniper_bot/database.py:2878-2880 | with no position stranded, one cost before a restart leaves a ledger that balances to the starting equity less that cost, and not to the starting equity |
| Restarts.CostAlone | src/sniper_bot/database.py:2830-2892 | a run in which a cost recorded before the first trade does that |
| Restarts.RestartAfterWriteOff | src/sniper_bot/ledger.py:619-623 | a run in which a restart after a partial write-off ends the conservation laws |
| Admission.EntryStaysWithin | src/sniper_bot/database.py:3239-3325 | an admitted entry leaves exposure, cash, position count, entries per day and one position per token within limits, and cash balanced if it was |
| Admission.ExitStaysWithin | src/sniper_bot/database.py:3437-3550 | an exit keeps every limit, and locks no more capital |
| Admission.MarksStayWithin | src/sniper_bot/database.py:3042-3080 | marks of any ledger keep cash, position count, entries per day and one position per token within limits; the exposure afterwards is within its limit exactly if the ledger's is |
| Admission.StepKeepsInv | src/sniper_bot/database.py:854-946 | every step keeps at most one active run and the limits on cash, positions, entries per day and positions per token: runs started, taken over and stopped, heartbeats, ledgers loaded, entries, exits, marks, risk state and costs, each with a commit of known or unknown outcome, and crashes |
| Admission.LimitsHold | src/sniper_bot/database.py:3239-3325 | so in every reachable state; cash plus the recorded operational costs is not negative |
| Admission.StepOnDb | src/sniper_bot/database.py:936-946 | the five ways the account changes, each by a commit that lands; all but a cost come from a process that owns it |
| Admission.UnownedRunBlocksAccount | src/sniper_bot/database.py:873-909 | while the active run belongs to nobody no step changes the account, and it goes on belonging to nobody unless another run is started or it is stopped, by a commit that lands |
| Admission.UnownedOverRunIff | src/sniper_bot/database.py:936-946 | over every run the account so stays as it is exactly until such a start or stop |
| Admission.OnlyOwnerWrites | src/sniper_bot/database.py:936-946 | while a run is active any account write comes from its one owner |
| Admission.FencedOwnerCannotWrite | src/sniper_bot/database.py:926-946 | a process whose run was taken over writes nothing through it, and that run stays stopped |
| RunRules.StartRule | src/sniper_bot/database.py:854-911 | a start by a process without a run, when the lease fences or every active run was last heard of longer ago than the bound, ends those runs and begins the new one; any other changes nothing |
| RunRules.HeartbeatRule | src/sniper_bot/database.py:913-924 | a heartbeat renews only the active run its process owns |
| RunRules.StopRule | src/sniper_bot/database.py:926-934 | a stop ends the run it names; its owner, when told, has none after it; a crash ends none |
| RunRules.OthersKeepRuns | src/sniper_bot/database.py:936-946 | no other step changes runs or ownership |
| RunRules.WhoBeat | src/sniper_bot/database.py:903-922 | over every run of the processes the heartbeat of an active run is the time of its start or of a heartbeat of its owner |
| RunRules.TakeOverWaits | src/sniper_bot/database.py:889-902 | over every run of the processes, a start that ends another active run without the lease comes later than the bound after that run was started or last beat |
| Exposure.ExposureStaysIff | src/sniper_bot/database.py:3042-3060 | locked capital within the exposure limit stays so through a step of any process exactly when the step is no marking, by a process that owns the account and under a commit that lands, whose ledger shows more |
| Exposure.ExposureOverRunIff | src/sniper_bot/database.py:3042-3060 | over every run, whatever the outcomes of commits, it is within the limit at every moment exactly when no such marking is made |
| Exposure.BalanceStaysIff | src/sniper_bot/database.py:3056-3059 | a database a ledger can be restored from stays one exactly when the step is no such marking of a ledger that shows other cash |
| Exposure.BalanceOverRunIff | src/sniper_bot/database.py:3056-3059 | the same over every run |
| Exposure.ExposureWithinFee | src/sniper_bot/risk.py:65-66 | over every run, whatever the outcomes of commits, locked capital in the database and in every ledger exceeds the limit by at most the largest network fee of an entry |
| Exposure.LedgerAfter | src/sniper_bot/database.py:936-946 | a step leaves every ledger in use that does not itself enter, exit or mark in agreement with the database |
| Exposure.LostIff | src/sniper_bot/broker.py:119-196 | without the ledger's half an operation leaves the books in agreement exactly when one of its guards refuses it |
| Exposure.SettledStaysIff | src/sniper_bot/broker.py:119-196 | while the exposure limit holds, the database can be restored from and the ledger in use agrees with it, a step ends that exactly when it is an entry or exit of the process in charge that passes its guards and lands under a commit reported as failed |
| Exposure.SettledOverRunIff | src/sniper_bot/broker.py:119-196 | over every run all three hold at every moment exactly when no such step is made |
| LostCommits.LostExitOverexposes | src/sniper_bot/risk.py:65-66 | a run from the start in which one exit lands unreported, the next entry passes the check on the ledger and the one in the transaction, and the next marking stores a locked capital one fee above the limit |
| LostCommits.LostStartBlocksAccount | src/sniper_bot/database.py:873-909 | a run from the start in which a start lands unreported, and an entry that every limit allows is refused |
| OperationalCosts.CashStaysIff | src/sniper_bot/database.py:2830-2892 | cash that is not negative stays so through a step of any process exactly when the step is not a cost above it |
| OperationalCosts.CashOverRunIff | src/sniper_bot/database.py:2830-2892 | over every run cash is never negative exactly when no such cost is recorded |
| OperationalCosts.FencedCostOverdraws | src/sniper_bot/database.py:2830-2892 | a run in which a process whose run was stopped, and which does not own the account, records a cost that makes cash negative |
| BrokerStore.PaperDatabase.CommitEntry | src/sniper_bot/database.py:3206-3418 | the transaction in place equals the specification, whose outcomes `EntryRules.EntryIsWrittenIff` and whose figures `TradeFigures.EntryMoves` state outright; a raise writes nothing |
| EntryRules.EntryIsWrittenIff | src/sniper_bot/database.py:3239-3325 | a new entry is written exactly when: the owner asks, no halt but a daily one of an earlier day, no pause past the entry time, equity above the baseline less the daily loss limit, size, exposure with the fee, open positions and entries of the day within limits, no live position of the token, enough cash, a fill of some tokens; a known order is answered by its record |
| EntryRules.WrittenLifts | src/sniper_bot/database.py:3259-3264 | a written entry lifts an expired halt and pause |
| EntryRules.StepOnControls | src/sniper_bot/database.py:3239-3325 | no step but an entry or the risk manager's changes halt and pause, and a barred entry changes nothing |
| EntryRules.BarredUntilLifted | src/sniper_bot/database.py:3259-3268 | over every run, as long as the risk manager stores nothing new, halt and pause stay and no entry for a day and time they bar changes the account |
| EntryRules.HaltHolds | src/sniper_bot/database.py:3265-3266 | over every run a halt that is not a daily one bars every entry until the risk manager stores something new |
| EntryRules.RiskIsStored | src/sniper_bot/database.py:3196-3203 | what the risk manager of the owner stores is what the account then holds; anyone else stores nothing |
| BrokerStore.PaperDatabase.CommitExit | src/sniper_bot/database.py:3420-3565 | the same for the exit |
| BrokerStore.PaperDatabase.FindLive | src/sniper_bot/database.py:3316-3323 | finds the live row of a token, if and only if there is one |
| BrokerStore.PaperDatabase.WriteExit | src/sniper_bot/database.py:3520-3550 | the writes of an admitted exit |
| BrokerStore.Broker.Open | src/sniper_bot/broker.py:91-196 | known order, risk check, commit, mirror: the effect on both books is that of the specification |
| BrokerStore.Broker.Knows | src/sniper_bot/ledger.py:309-314 | the newest fill under the order decides |
| BrokerStore.AwaitQuote | src/sniper_bot/broker.py:255-270 | the loop returns the first quote, or gives up exactly when a request fails with the timeout used up, or is still asking |
| BrokerStore.LoopEndsIff | src/sniper_bot/broker.py:65-66 | however long requests fail, the loop gives up exactly when the interval is positive or the timeout is zero |
| BrokerStore.Broker.CloseAtMarket | src/sniper_bot/broker.py:255-331 | the exit is valued at the quote the loop got, or written off when it gave up |
| BrokerStore.Broker.Close | src/sniper_bot/broker.py:228-331 | the same for closing |
| TradeFigures.OpeningMoves | src/sniper_bot/ledger.py:351-411 | an entry locks amount plus fee, and opens a position of that cost, with its fill and indexes; every other figure and position stays |
| TradeFigures.ClosingMoves | src/sniper_bot/ledger.py:448-505 | a close books what is received less the fee, not below zero, less the closed part of the cost; equity, locked capital, unrealized gain, day, peak, fill and indexes move accordingly; other positions stay |
| TradeFigures.ClosingLeaves | src/sniper_bot/ledger.py:472-503 | the position keeps the other part of cost, amount, value, high, low and peak gain; the reason takes its target; it is closed when nothing is left |
| TradeFigures.MarkingMoves | src/sniper_bot/ledger.py:222-255 | the unrealized gain becomes the sum of value less cost over the open positions that have a price; equity, peak and the day's baseline follow |
| TradeFigures.MarkingOfPosition | src/sniper_bot/ledger.py:227-248 | a marked position takes price times amount as its last value and extends high, low, peak gain and excursions by it; every other stays |
| TradeFigures.RevaluationMoves | src/sniper_bot/database.py:3056-3080 | a revaluation stores four figures of the ledger, and for each revalued position its gain, extremes, targets and time of its high; nothing else moves |
| TradeFigures.EntryMoves | src/sniper_bot/database.py:3269-3404 | a written entry moves amount plus fee from cash to locked capital and stores its order, fill and row |
| TradeFigures.ExitMoves | src/sniper_bot/database.py:3465-3560 | a written exit adds what is received to the cash, releases the part of the cost, books the gain and stores order and fill |
| TradeFigures.ExitLeaves | src/sniper_bot/database.py:3476-3545 | the row keeps the other part of its amounts; without a quote it is UNRECOVERABLE, otherwise CLOSED when nothing is left, or PARTIAL |
| TradeFigures.StepMovesCash | src/sniper_bot/broker.py:91-331 | one operation of the broker changes the cash by its flow |
| TradeFigures.CashIsFlow | src/sniper_bot/broker.py:91-331 | over every run of the broker the cash, of the account and of the ledger alike, is the starting cash less amount and fee of each entry made, plus amount less fee of each quoted exit made |
| Candidates.StepFollowsEdge | src/sniper_bot/candidates.py:98-118 | an evaluation stays put or follows one allowed edge, one stage up or into rejection |
| Candidates.RankNeverFalls | src/sniper_bot/candidates.py:32-50 | over every run no candidate moves back |
| Candidates.EnteredOnce | src/sniper_bot/candidates.py:32-50 | no state is entered twice, the entry signal included |
| Candidates.RecordedIsBacked | src/sniper_bot/candidates.py:217-236 | one more score keeps the confirmations backed by evaluations with good scores one window apart and no low score in between |
| Candidates.HistoryBacks | src/sniper_bot/candidates.py:175-186 | up to arming, a candidate's confirmations are so backed by its own history |
| Candidates.EntrySignalIsEarned | src/sniper_bot/candidates.py:120-215 | a run entering ENTRY_PENDING does so at an age between collection and expiry, after a clean security result with no veto since, after arming with the required backed confirmations, and emits one signal |
| Candidates.EntryPriceBreaksOut | src/sniper_bot/candidates.py:198-213 | the entry price breaks the high seen at arming, or crosses the average from below since an earlier evaluation of the run |
| Candidates.StampedOnEntry | src/sniper_bot/candidates.py:110-118 | over every run the stored eligible, armed and rejected times are those of the steps that entered the states, and every such step stored one |
| Candidates.ArmedKeepsHigh | src/sniper_bot/candidates.py:198-214 | while armed the stored high is kept |
| Candidates.RememberedFrom | src/sniper_bot/candidates.py:238-246 | remembered price and average come from one earlier evaluation that stayed put |
| Candidates.RaisesIff | src/sniper_bot/candidates.py:132-155 | an evaluation raises exactly for a rejected candidate past expiry or a veto without a reason |
| CandidateRules.RejectionRule | src/sniper_bot/candidates.py:130-155 | a candidate past its time is rejected for that, or raises if it already was; a veto between eligibility and entry, or at the check, rejects for its first reason, or raises without one; nothing else does, but for a sale by the developer |
| CandidateRules.EarlyRule | src/sniper_bot/candidates.py:156-174 | exactly when each state up to the pullback is left, and for which |
| CandidateRules.ConfirmationRule | src/sniper_bot/candidates.py:217-236 | what is confirmed after a score, in microseconds since the last confirmation |
| CandidateRules.WaitingRule | src/sniper_bot/candidates.py:175-197 | exactly when a waiting candidate is rejected, armed with the local high, or waits on |
| CandidateRules.ArmedRule | src/sniper_bot/candidates.py:198-214 | an armed candidate enters exactly when no signal was sent and the price crosses the average or breaks the high |
| CandidateRules.NoSignalYet | src/sniper_bot/candidates.py:211-213 | over every run no signal has been sent before the entry |
| CandidateRules.RemembersLast | src/sniper_bot/candidates.py:238-246 | an evaluation after which the candidate collects, waits or is armed as before is the one remembered |
| CandidateRules.SignalIff | src/sniper_bot/candidates.py:198-214 | over every run, an armed candidate evaluated in time and without a veto enters at that very evaluation exactly when the price is above the high seen at arming, or above the average while the evaluation before was not |
| Features.InsertionPoint | src/sniper_bot/features.py:296-312 | append or binary search: everything before the slot is at or before the event, everything after is later |
| Features.InsertKeepsOrder | src/sniper_bot/features.py:296-312 | a new id keeps the list strictly ordered and adds just that event |
| Features.OrderedIsUnique | src/sniper_bot/features.py:296-312 | a strictly ordered list is determined by its events |
| Features.FeatureEngine.Ingest | src/sniper_bot/features.py:135-168 | a known id changes nothing; a new one is accepted into its pool's list |
| Features.FeatureEngine.RegisterPool | src/sniper_bot/features.py:127-133 | keeps the earliest time a pool was registered with |
| Features.IngestKeeps | src/sniper_bot/features.py:135-168 | the lists represent exactly the accepted events, in order |
| Features.RegistrationOrderIsIrrelevant | src/sniper_bot/features.py:127-133 | any two orders of the same registrations leave the same creation times |
| Features.ArrivalOrderIsIrrelevant | src/sniper_bot/features.py:135-168 | any two arrival orders of the same events leave identical lists and seen sets |
| Features.LateInsertIsInvisible | src/sniper_bot/features.py:175-177 | a later event leaves the view at an earlier time unchanged |
| Snapshots.NoLookAhead | src/sniper_bot/features.py:170-287 | hence no field of any pool's snapshot at that time changes |
| Snapshots.SnapshotsIgnoreOrder | src/sniper_bot/features.py:127-287 | two engines given the same events and registrations, each in its own order, give the same snapshot of every pool at every moment |
| Snapshots.SnapshotsAreConsistent | src/sniper_bot/features.py:170-287 | for any engine state and any moment: counts, wallets and volumes of shorter windows are within those of longer ones; new buyers are among the buyers; 1/unique buyers <= HHI <= top-1 <= top-5 <= 1; the cluster share is within 0 and 1; price and weighted prices stay within the high and drawdown within 0 and 1 |
| Snapshots.FlowsGrow | src/sniper_bot/features.py:179-185 | the window part of it, for either side and any two lengths |
| Snapshots.SpreadInOrder | src/sniper_bot/features.py:193-198 | the concentration part, with the distinct wallets of the window as the number of buyers |
| Snapshots.NewBuyersNest | src/sniper_bot/features.py:201-205 | the new-buyer part |
| Snapshots.VwapBelowHigh | src/sniper_bot/features.py:318-322 | the weighted price of any window is at most the local high |
| Snapshots.BuyersAreWallets | src/sniper_bot/features.py:193-195 | the wallets that are given a volume are the distinct buyers of the window |
| SnapshotFields.FlowFields | src/sniper_bot/features.py:174-252 | buys and sells of the last 15, 30 and 60 seconds: their number, wallets and volume are those of the accepted trades of that side in the window; net flow is buying less selling; ratio and age |
| SnapshotFields.SpreadFields | src/sniper_bot/features.py:193-259 | largest part, five largest parts, sum of squares and funding-cluster part of the volume bought in the last minute, per wallet |
| SnapshotFields.PaceFields | src/sniper_bot/features.py:185-262 | new buyers are the wallets whose first buy is in the window; external sellers, trades per trader, buyer ratio and acceleration in terms of the accepted trades |
| SnapshotFields.DepthFields | src/sniper_bot/features.py:206-270 | liquidity figures in terms of the latest observation, the first, and the last one 10 and 30 seconds before |
| SnapshotFields.PriceFields | src/sniper_bot/features.py:211-280 | price figures in terms of the latest trade, the first, those 15, 30 and 60 seconds before, the highest price and the weighted one |
| SnapshotFields.HolderFields | src/sniper_bot/features.py:216-286 | holder figures in terms of the latest count and those 30 and 60 seconds before |
| Features.CountNewBuyers | src/sniper_bot/features.py:201-205 | dating each wallet's first buy counts the wallets whose first buy is in the window |
| Concentration.Aggregate | src/sniper_bot/features.py:193-195 | the accumulation loop gives the per-wallet totals |
| Concentration.AggregationConserves | src/sniper_bot/features.py:193-195 | totals add up to the volume and name exactly the buyers |
| Concentration.RankedIsOrdered | src/sniper_bot/features.py:196 | the ranking is the wallet totals in descending order |
| Concentration.RankedNames | src/sniper_bot/features.py:193-196 | the ranking lists the total of every wallet once |
| Concentration.ConcentrationBounds | src/sniper_bot/features.py:253-255 | 1/n <= HHI <= top-1 share <= top-5 share <= 1 for n buyers and positive volume |
| Concentration.ShareBounds | src/sniper_bot/features.py:253-255 | the same for any shares that add up to one, the largest first |
| Concentration.SquaresAtMost | src/sniper_bot/features.py:255 | the index is at most the largest share times the sum of shares |
| Concentration.TurnoverBounds | src/sniper_bot/features.py:318-322 | turnover lies between lowest and highest price times volume |
| Concentration.VwapWithinPrices | src/sniper_bot/features.py:318-322 | the weighted price lies between the lowest and the highest price of its window |
| StateBatch.EventStateBatch.StageUpsert | src/sniper_bot/database.py:401-417 | staging keeps the last write of every key |
| StateBatch.EventStateBatch.FlushList | src/sniper_bot/database.py:419-575 | the flush writes the last write of every staged row once, parents first |
| StateBatch.EventStateBatch.GroupRows | src/sniper_bot/database.py:401-417 | the staged rows of one table, each the last write of its key |
| StateBatch.FlushEqualsSequential | src/sniper_bot/database.py:375-399 | the flush leaves the same tables as applying every upsert in call order |
| StateBatch.FlushSucceeds | src/sniper_bot/database.py:96-105 | no prefix of the flush writes a child before its parent |
| StateBatch.FlushIsExactIff | src/sniper_bot/database.py:411-417 | whatever the tables hold to begin with, the flush leaves what the upserts in call order leave; this is so exactly when each row's last write sets every column its earlier writes set |
| StateBatch.FixedColumnsCover | src/sniper_bot/database.py:2152-2312 | which holds whenever all writes to a table set the same columns, as every caller does |
| StateBatch.CoveredMerge | src/sniper_bot/database.py:411-417 | the if part of it, row by row |
| StateBatch.AppliedRows | src/sniper_bot/database.py:3907-3956 | a sequence of upserts leaves in each row the merge of its writes over what was there |
| StateBatch.ChunkSize | src/sniper_bot/database.py:229 | at least one row; within the parameter budget whenever one row fits |
| StateBatch.Chunks | src/sniper_bot/database.py:223-233 | chunks are non-empty and bounded |
| StateBatch.StatementsFit | src/sniper_bot/database.py:223-233 | no statement binds more parameters than the budget, provided one row does not |
| StateBatch.ChunksJoin | src/sniper_bot/database.py:223-233 | chunking drops, repeats and reorders nothing |
| EventEffects.BatchIsAtomic | src/sniper_bot/database.py:375-399 | a batch leaves its upserts in the tables and every claim of it PROCESSED, or leaves tables and claims as they were |
| EventEffects.SupersededBatchLeavesState | src/sniper_bot/database.py:411-575 | a batch with one claim that another process now holds leaves tables and claims as they were |
| EventEffects.ProtocolCompletesNothing | src/sniper_bot/database.py:1044-1552 | claims, failures, releases and crashes complete no event and reopen no completed one |
| EventEffects.EventsLandOnce | src/sniper_bot/pipeline.py:682-699 | over every run of any number of processes, with take-overs, crashes and commits of unknown outcome, the events whose work has landed are exactly the PROCESSED ones, and the work of none has landed twice |
| EventEffects.TablesHoldProcessedEvents | src/sniper_bot/pipeline.py:875-899 | so over every run in which no batch drops a column, each row of the state tables is what it was to begin with, merged with the writes of the PROCESSED events and the single writes, each once and in the order in which they landed |
| Acceptance.CrossChecksIff | src/sniper_bot/acceptance.py:1310-1358 | for every report the evaluator produces, the verifier's arithmetic holds exactly when the receipts add up to the recorded cost |
| Acceptance.CostWithoutReceiptFails | src/sniper_bot/acceptance.py:1313-1317 | such a report that the cross-checks refuse: a recorded cost without a receipt |
| Acceptance.VerifierAgrees | src/sniper_bot/acceptance.py:1393-1405 | the verifier accepts a report of the evaluator exactly when the evaluator passed it |
| Acceptance.AllocationConserves | src/sniper_bot/acceptance.py:868-871 | allocated costs add up to the operational cost |
| Acceptance.GainsLessLosses | src/sniper_bot/acceptance.py:872-873 | net PnL is gross profit less gross loss |
| Acceptance.NetPnlIsSumOfDays | src/sniper_bot/acceptance.py:883-888 | net PnL is the sum of the day totals |
| Acceptance.BucketsConserve | src/sniper_bot/acceptance.py:883-892 | bucket totals add up to the whole when every trade has a bucket |
| Acceptance.TotalsByBucket | src/sniper_bot/acceptance.py:886-892 | the loop gives the day totals, the cluster totals and the number of trades without a cluster |
| Acceptance.TradesSplit | src/sniper_bot/acceptance.py:843-844 | in-sample and out-of-sample trades add up to all trades |
| Acceptance.PassedIsIndependent | src/sniper_bot/acceptance.py:893-898 | a passed report stays profitable without the trades of any one day or any one developer cluster |
| Acceptance.PassedIsDiversified | src/sniper_bot/acceptance.py:880-881 | in a passed report no trade earns over a fifth of the gross profit, so at least five earn |
| AcceptanceRules.ReportIsProducedIff | src/sniper_bot/acceptance.py:836-842 | a report is produced exactly when every trade was entered and closed, in this order, in the collection interval, and the report is a valid one (lines 572 and 616-623): receipts are distinct and from the out-of-sample interval, and the recorded cost is not negative |
| AcceptanceRules.ReportFigures | src/sniper_bot/acceptance.py:843-928 | counts, net, gross profit and loss, expectancy and largest share of a report, as sums over the trades entered out of sample, each after an equal share of the larger of planned and recorded cost |
| AcceptanceRules.ReportRatios | src/sniper_bot/acceptance.py:876-898 | profit factor, and the net without the best day and without the best cluster over the earnings by day and by cluster |
| AcceptanceRules.BucketsByDay | src/sniper_bot/acceptance.py:883-892 | the totals of a day, and of a cluster, are the sum over its trades |
| AcceptanceRules.WithoutBestIs | src/sniper_bot/acceptance.py:893-898 | the net less the largest total, or zero with fewer than two |
| AcceptanceRules.QuantizeRounds | src/sniper_bot/acceptance.py:855-857 | rounding goes to the nearest millionth, from the middle to the even one |
| AcceptanceRules.ReconciledIff | src/sniper_bot/acceptance.py:858-867 | costs are reconciled exactly when there are receipts, which add up to the recorded cost, and this covers the planned one |
| AcceptanceRules.PassedIff | src/sniper_bot/acceptance.py:702-727 | a report passes exactly when it meets the 21 criteria, each stated with its bound |
| AcceptanceRules.PassesIff | src/sniper_bot/acceptance.py:702-727 | the same criteria for the metrics the verifier reads |
| AcceptanceRules.AcceptedIff | src/sniper_bot/acceptance.py:1310-1405 | the verifier accepts a report exactly when it claims to pass, its metrics pass, and cost, net, expectancy, profit factor and counts follow from one another |
| Exits.PartialCloseScales | src/sniper_bot/ledger.py:472-489 | a partial close that is no profit target scales cost, amount, high and peak by one factor |
| Exits.ScaledVerdict | src/sniper_bot/exit_engine.py:43-122 | a scaled position gets the same verdict and return |
| Exits.PartialCloseKeepsVerdict | src/sniper_bot/exit_engine.py:59-122 | so after such a close the same price, time and flags give the same reason and return |
| Exits.Tp2SellsIntendedShare | src/sniper_bot/exit_engine.py:78-92 | TP2 sells exactly the smaller of the remainder and its share of the entry amount |
| Exits.Tp2Amount | src/sniper_bot/exit_engine.py:79-91 | the same for the fraction alone |
| Exits.VerdictByValue | src/sniper_bot/exit_engine.py:59-122 | the verdict on an open position is the first that applies: emergency, stop loss, first target, second target, trailing stop, momentum, holding time, time without a new high; each by the value against cost; sizes, gain and return |
| Exits.TrailingIs | src/sniper_bot/exit_engine.py:94-106 | the trailing stop is hit exactly when there was a high and the value is at most the cost or the high less its part |
| Exits.OverdueIs | src/sniper_bot/exit_engine.py:108-120 | a time limit has passed, in whole seconds |
| Exits.GainIs | src/sniper_bot/exit_engine.py:59-61 | return and value against a target say the same |
| Exits.NothingToExit | src/sniper_bot/exit_engine.py:53-57 | a closed position and one without cost are left alone |
| PositionHistory.ExtremesBoundValue | src/sniper_bot/ledger.py:233-244 | over every run a position's last value lies between its lowest and highest, its last return between its adverse and favourable excursion, and its peak gain is at least its marked gain, through partial closes (lines 485-489) too |
| PositionHistory.CloseKeepsBounds | src/sniper_bot/ledger.py:485-489 | a close scales the extremes without breaking their order |
| PositionHistory.BaselineIsFirstMark | src/sniper_bot/ledger.py:252 | over every run a day's opening equity is the equity after its first revaluation |
| PositionHistory.TargetsFireOnceInOrder | src/sniper_bot/exit_engine.py:69-107 | over every run a profit target sold for is never decided again, and a second target or a trailing stop only after a sale for the first |
| PositionHistory.TargetWasSold | src/sniper_bot/ledger.py:490-493 | the first target is taken only by a sale for it |
| Drawdown.RunningPeak | src/sniper_bot/reports.py:196-203 | the loop returns the largest fall from a running peak, on every path |
| Drawdown.EvaluatorDrawdown | src/sniper_bot/acceptance.py:691-699 | on every non-empty path the same figure in percent, except that a path starting without equity counts as at least a total loss |
| Drawdown.DrawdownGrows | src/sniper_bot/database.py:3179-3184 | one step extends the figure by the newest moment |
| Drawdown.HigherStartFallsFurther | src/sniper_bot/reports.py:200-202 | from a higher start the relative fall to a non-negative equity is at least as large |
| Drawdown.OnePassIsPairwiseIff | src/sniper_bot/database.py:3169-3185 | the one-pass figure never exceeds the maximum over all pairs, and equals it exactly when no fall from a positive to a negative equity is deeper than every fall from a peak |
| Drawdown.OnePassIsPairwise | src/sniper_bot/reports.py:196-203 | on every non-negative path it is the maximum over all pairs |
| Drawdown.NegativeEquityBreaksIt | src/sniper_bot/reports.py:196-203 | counterexample with negative equity |

## Left out

- Input and output: HTTP, WebSocket, Telegram, metrics, logging, configuration, migrations, report texts.
- SQL text, dialect differences, COPY staging and chunked reads: a transaction is one step on maps, and chunk boundaries inside it cannot be observed. Rows a query returns without an order are taken in a fixed one.
- `Decimal` rounding: amounts are `real`, so equalities that survive only up to the context precision in the program are exact here.
- Hashes and UUIDs: identifiers are abstract and fresh where the program draws them.
- Time zones and daylight saving: the day of a trade or order is an input.
- Wallet relation scoring: one product over a list of evidence.
- Event payload columns of the claim transaction, and the raw archive: one sequence number stands for the raw row.
- ProcessedFrontier.CheckpointNeverMovesBack: the retention job, which deletes raw rows older than at least ninety days (`src/sniper_bot/database.py:2693-2698`), is no step of the run.
- CheckpointLoss.CheckpointHoldsOverRunIff: the same retention job is no step of the run.
- EventEffects.TablesHoldProcessedEvents: an event is completed only in the transaction that holds its writes, as the pipeline does (`src/sniper_bot/pipeline.py:875-899`); updates of a raw row's context in the same transaction and the stage checkpoint saved with it are not modelled, and a single write stands for any write outside event handling.
- The batch transaction's context variables and nesting checks: a flush is one step of the process that staged it.
- StreamCheckpoints.CheckpointTable.Save: the update time stored beside each checkpoint is not modelled.
- StageWorker.Stage.Run: one producer feeds a stage, and its clock tells batches with the same events apart; what happens otherwise is the subject of `StageWorker.RemoveLastIff`.
- OutboxStore.OutboxTable.DeliverOnce: states its result when no other worker acts in between; interleaved delivery loops are the subject of `OutboxWorkers`.
- OutboxStore.OutboxTable.Conclude: the daily report row a delivery also updates is not modelled.
- Ledger persistence to a file. Halts and pauses of the ledger.
- PositionHistory.BaselineIsFirstMark: a day's opening equity can also be set by the loss check and at start-up; these writers are not steps of the run.
- LedgerReports.PaperLedger.MarkToMarket: positions are visited in the order in which they were opened.
- BrokerStore.PaperDatabase.CommitEntry: quote, risk event and equity mark rows, simulated costs and the drawdown column of the account are not modelled.
- BrokerStore.PaperDatabase.CommitExit: the same rows and columns, and the closing time and reason of the position.
- BrokerMirror.BooksAgree: an order identifier never serves both an entry and an exit, quotes have a market's sign, and commits are unambiguous; `BookSplits` says what happens without the last two.
- Restarts.ConservationOverLifeIff: a commit with an unknown outcome is an event of the life only where the process restarts next, which `Restarts.CrashMidwayRecovers` covers; a process that goes on after one is the subject of `Exposure`.
- Recovery.RestoreMatchesLost: says nothing of a position's last value, extremes and peak gain, which the restored ledger takes from the stored row or starts anew, nor of the day's opening equity.
- Risk checks before the entry transaction: one boolean input; the checks inside the transaction are modelled one by one, its equity baseline being an input.
- Admission.LimitsHold: limits are fixed over the run; a process has a ledger only between starting its run and ending it, or losing it by a crash; the quote and the risk manager give positive amounts and fees that are not negative.
- Exposure.ExposureWithinFee: an operation of the broker is one step, so two entries of one process never overlap between the check on the ledger and the commit; the candidate loop awaits each entry.
- OperationalCosts.CashStaysIff: a recorded cost is a new one; the program answers a repeated record without changing the account.
- Concurrent opens inside one process between the risk check and the commit: an operation of the broker is one step.
- Later life of a candidate after the entry signal, which other code drives through `transition`.
- Snapshot fields that only repeat an input: the pool address, the time and the feature version.
- StateBatch.FlushEqualsSequential: groups are identified by table, rows of one statement name the same columns, and update timestamps are columns like any other.
- Acceptance.VerifierAgrees: the verifier's file, signature, receipt-content and recency checks, and the display strings of criteria, are not modelled.
- Security thresholds, entry rules and score components: long conjunctions and clamped sums, each settled by reading one branch.
