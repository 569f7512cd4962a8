# Verification of the payment gateway, the finance ledger and the text services

A Dafny project beside the repository. It models four parts of it and proves what they promise.

**The order payment protocol** (`api-gateway`). `Protocol.dfy` is one state machine: the orders database
with its outbox, the request queue, the payments database with accounts, inbox and outbox, the result queue,
and the notifications sent to browsers. Every database statement or transaction that another thread can
interleave with is a step. Crashes, rollbacks, exceptions, failed publications and messages lost by the
no-acknowledgement consumers are steps too. `ProtocolSafety.dfy` holds the inductive invariant,
`ProtocolTheorems.dfy` what it means, `ProtocolClients.dfy` exact conditions with the runs that show they are
needed, `ProtocolStandalone.dfy` what a debit on its own connection costs over every run,
`ProtocolDelivery.dfy` where every copy of a message went, and `ProtocolProgress.dfy` a measure that bounds the
work left. `Outbox.dfy` and `OutboxProgress.dfy` do the same for one outbox and its queue, used by
both services. `OutboxProcessor.dfy`, `PaymentsService.dfy` and `OrderService.dfy` are the services' methods
as imperative code over tables, each proved against a function of the tables it starts from, and
`CodeRefinesProtocol.dfy` shows that those functions are runs of the state machine, so that what is proved of
its reachable states holds of what the code commits.

**The WebSocket fan-out**. `WritePump.dfy` is the write queue of a session as a value machine that refines a
FIFO; `SubscriptionIndex.dfy` is the subscription index with the sessions in it, over any interleaving;
`WebSocketService.dfy` is the session, manager and server classes, whose methods are proved on the heap to make
the moves of the two machines, and the consumer of payment results.

**The finance ledger**. `FinanceLedger.dfy` is the books as a value and the ledger laws over all runs of
commands; `FinanceService.dfy` is the repositories, facades and analytics as classes that compute it.

**Text and hash loops**. `TextNormalization.dfy` and `FileHash.dfy`: the in-place normalization with the
similarity score, and chunked hashing with its hexadecimal output. A whitespace run is collapsed to its first
byte, so two texts are similar exactly if they agree up to case and whitespace and corresponding runs begin with
the same byte.

## Assumptions

- *Nested transactions.* `handle_payment_request` holds a transaction open while `process_payment` opens
  another on the same `Database`. What the database client does then is the parameter `Client`: `Joins` (the
  debit is a savepoint of the handler's transaction, the evident intent), `Standalone` (the debit commits on a
  connection of its own) or `Refuses` (the inner call throws, which is what one pqxx connection does, and
  `process_payment` answers false). Every theorem says for which clients it holds, and the main ones are
  exact: at-most-once charging, conservation and truthful notifications hold if and only if the client is not
  `Standalone`, and an order can be paid at all if and only if the client is not `Refuses`.
- *Rollback.* An exception rolls back the transaction it leaves open, including that of
  `handle_payment_request`, which has no rollback call of its own; so does a crash.
- *Database.* Read committed: an UPDATE or an INSERT waits for the transaction that holds the row or the key,
  a plain SELECT sees committed rows. A transaction in which a statement failed cannot commit. Each statement
  or transaction is a step; data races on a shared client object are not modelled.
- *Parameters.* Identifiers, clock readings, which rows the locking SELECT returned among those it may return,
  and what the broker, the database or the digest library answered are parameters of the methods or of the
  steps. The primary keys refuse reused identifiers.
- *Money* is a whole number of cents with the bound of `DECIMAL(10,2)`, 9,999,999,999; versions have the bound
  of `INTEGER`. JSON carries the fields of `models.hpp` unchanged.
- *Broker.* Durable and first-in first-out until a message is handed to a consumer, which may then lose it.
- *Strands.* A session's posted functions and completions run one at a time, posted functions in order.

## Where the code and its words differ

- As written, with one connection, no payment can succeed (`ProtocolClients.PayableExactly`). The ledger and
  exactly-once results therefore name the client behaviour they need.
- The test `FinanceAccountingSystem/.vscode/tests/test_core.cpp` expects the factory to reject an empty name
  and a negative opening balance. The factory does neither, and the model follows it. Only negative operation
  amounts are refused.
- An empty `order_id` in a subscription is accepted but never unsubscribed, so a session can stand under two
  orders; `SubscriptionIndex.OneOrderExactly` says that this is the only way.
- A read error in `calculate_file_hash` is taken for the end of the file: the hash of what could be read is returned
  as if it were that of the file. It is wrong whenever something was left unread, unless the two texts collide
  (`FileHash.WholeFileExactly`, with an input in `FileHash.ReadErrorHashesPrefix`).

## Model

| member | source | states |
|---|---|---|
| `ProtocolTheorems.ChargedExactlyOnce` | api-gateway/payments-service/src/inbox_processor.cpp:32-88 | in every run, with duplicates, losses, racing handlers and crashes, an order has exactly one debit if its committed inbox row is PROCESSED and none otherwise (debit joined or refused) |
| `ProtocolClients.AtMostOnceExactly` | api-gateway/payments-service/src/inbox_processor.cpp:46-84 | no order is ever debited twice, in all reachable states, if and only if the debit does not commit on a connection of its own |
| `ProtocolClients.ConservationExactly` | api-gateway/payments-service/src/payment_service.cpp:42-102 | balances and versions agree with deposits and PROCESSED inbox rows in all reachable states if and only if the debit does not commit on a connection of its own |
| `ProtocolClients.TruthExactly` | api-gateway/websocket-service/src/main.cpp:47-64 | every notification tells the truth about its order's charge in all reachable states if and only if the debit does not commit on a connection of its own |
| `ProtocolClients.StandaloneChargesTwice` | api-gateway/payments-service/src/payment_service.cpp:96-98 | a run in which a debit committed on its own outlives a crash of its handler and the duplicate request is charged again |
| `ProtocolClients.StandaloneLeaks` | api-gateway/payments-service/src/payment_service.cpp:96-98 | a run after which money has left an account without any inbox row |
| `ProtocolClients.StandaloneMisinforms` | api-gateway/payments-service/src/inbox_processor.cpp:46-84 | a run in which an order is charged and its user is told CANCELLED |
| `ProtocolStandalone.ChargeStepExactly` | api-gateway/payments-service/src/inbox_processor.cpp:46-87 | for a debit on its own connection, the debits of an order exceed those due (one if it is paid or an open handler has charged it) by one more exactly after a step that abandons a handler whose debit for it succeeded; no other step changes the excess |
| `ProtocolStandalone.StandaloneChargesOnce` | api-gateway/payments-service/src/inbox_processor.cpp:32-88 | a run of a client with a connection of its own ends with every order debited once if it is PROCESSED or being charged, and not at all otherwise, if and only if it abandoned no charge |
| `ProtocolStandalone.ChargesCounted` | api-gateway/payments-service/src/inbox_processor.cpp:32-88 | in every run of such a client an order has one debit if it is due and one for each charge of it the run abandoned |
| `ProtocolStandalone.MoneyStepExactly` | api-gateway/payments-service/src/payment_service.cpp:42-102 | for such a client, money and versions come loose from deposits, inbox and open handlers exactly in a step that abandons a charge, and by exactly that charge |
| `ProtocolStandalone.StandaloneConservation` | api-gateway/payments-service/src/payment_service.cpp:42-102 | in every run of such a client a balance is the deposits less the PROCESSED amounts, the charges still open and the charges abandoned, and the version counts all four; with no handler open, conservation holds if and only if no charge of the account was abandoned |
| `ProtocolStandalone.StandaloneTruthExactly` | api-gateway/websocket-service/src/main.cpp:47-64 | in every run of such a client a notification tells the truth if and only if no charge of its order was abandoned |
| `ProtocolClients.PayableExactly` | api-gateway/payments-service/src/payment_service.cpp:78-101 | some order can be paid in some run if and only if the client does not refuse a second transaction |
| `ProtocolTheorems.NoticesAgree` | api-gateway/websocket-service/src/main.cpp:47-64 | all notifications ever produced for one order are equal, status included |
| `ProtocolTheorems.NoticesTellTheTruth` | api-gateway/websocket-service/src/main.cpp:47-64 | FINISHED implies that the order was created and that exactly one debit exists for it, of exactly its amount from exactly its user; CANCELLED implies that none does (debit joined or refused) |
| `ProtocolTheorems.Conservation` | api-gateway/payments-service/src/payment_service.cpp:42-102 | every balance is its committed deposits less the amounts of its PROCESSED inbox rows, and its version counts both (debit joined or refused) |
| `ProtocolTheorems.SequentialLedger` | api-gateway/payments-service/src/payment_service.cpp:42-102 | for every client the balances and versions are those of one sequential history, every prefix of which stays within the column bounds |
| `Protocol.ColumnBounds` | api-gateway/payments-service/src/database.cpp:46-51 | the money bound admits exactly the amounts of at most ten decimal digits of cents, and the version bound is that of 31 bits |
| `ProtocolTheorems.NoLostUpdate` | api-gateway/payments-service/src/payment_service.cpp:73-102 | with read and conditional update as separate steps, every step of every run is one valid ledger operation applied to the current account, or moves no money |
| `ProtocolTheorems.DebitDecision` | api-gateway/payments-service/src/payment_service.cpp:83-98 | the conditional update succeeds if and only if the account is exactly the one that was read, covers the amount and has version room; a refusal changes nothing |
| `ProtocolTheorems.RefusalReasons` | api-gateway/payments-service/src/payment_service.cpp:73-102 | without an exception a false answer means amount not positive, account missing, funds short or version exhausted at the update, or version moved since the read, and money is untouched |
| `ProtocolTheorems.OrdersAndEventsTogether` | api-gateway/orders-service/src/order_service.cpp:14-46 | in every reachable state orders and request events are in bijection with equal id, user and amount, whatever the worker did to the events |
| `ProtocolTheorems.InboxAndResultsTogether` | api-gateway/payments-service/src/inbox_processor.cpp:48-84 | a committed inbox row is never PENDING, answers a committed order, and has exactly one result event, whose success flag is "the row is PROCESSED" |
| `ProtocolTheorems.DecisionsAreFinal` | api-gateway/payments-service/src/inbox_processor.cpp:39-46 | no later step of any run changes or removes a committed inbox row |
| `ProtocolTheorems.OutboxesSafe` | api-gateway/payments-service/src/outbox_processor.cpp:28-59 | for both outboxes: a PROCESSED routed row was published, only committed rows ever were, every queued message is the payload of a published row, and open batches share no row |
| `ProtocolSafety.StepKeepsInv` | api-gateway/payments-service/src/inbox_processor.cpp:32-88 | the inductive step: no enabled step of any part, faulty or not, breaks the protocol invariant |
| `ProtocolSafety.ReachableInv` | api-gateway/payments-service/src/inbox_processor.cpp:32-88 | the invariant holds in every state that any run reaches |
| `ProtocolSafety.StepPosts` | api-gateway/payments-service/src/payment_service.cpp:42-102 | which steps post which ledger entry, each valid at the moment it is applied, and that all others leave accounts and ledger alone |
| `ProtocolSafety.CommitsAreFirst` | api-gateway/payments-service/src/database.cpp:57-58 | the primary key, not the existence check, makes each committing handler the first for its order |
| `ProtocolSafety.PendingDebitKept` | api-gateway/payments-service/src/inbox_processor.cpp:55-59 | a debit waiting for its handler's commit can still be applied after any step |
| `ProtocolSafety.GenuineKept` | api-gateway/payments-service/src/inbox_processor.cpp:34-37 | a request held by a handler or an inbox row stays the published request of a committed order |
| `ProtocolClients.HandlerDecides` | api-gateway/payments-service/src/payment_service.cpp:73-102 | an uninterrupted handler reaches the decision: amount positive, account present, funds and version room |
| `ProtocolClients.ReachPublished` | api-gateway/orders-service/src/outbox_processor.cpp:42-57 | publishing before the commit lets one event be queued any number of times |
| `ProtocolClients.OrderCanBeLost` | api-gateway/payments-service/src/message_queue.cpp:83-101 | for every client a run after which everything is drained and a committed order is undecided, because its only message was lost: delivery cannot be promised of faulty runs |
| `ProtocolDelivery.StepKeepsDelivery` | api-gateway/payments-service/src/message_queue.cpp:83-101 | every step keeps the accounting: each copy taken off a queue is held, lost, dropped as a duplicate, or decided its order; each result copy was notified or lost |
| `ProtocolDelivery.ReachableDelivery` | api-gateway/payments-service/src/message_queue.cpp:83-101 | the accounting holds in every reachable state |
| `ProtocolDelivery.DecidedUnlessLost` | api-gateway/payments-service/src/inbox_processor.cpp:32-88 | once drained, whatever faults came before, an order is decided if and only if fewer copies of its request were lost than were published, and at least one was |
| `ProtocolDelivery.NotifiedPerCopy` | api-gateway/websocket-service/src/main.cpp:47-64 | once drained, an order was notified once per published copy of its result that was not lost |
| `ProtocolProgress.WorkShrinks` | api-gateway/payments-service/src/outbox_processor.cpp:28-59 | every working step of a worker, handler or consumer lowers the load measure |
| `ProtocolProgress.WorkAvailable` | api-gateway/payments-service/src/inbox_processor.cpp:18-26 | no deadlock: unless everything is drained some working step is enabled, although handlers wait for keys and accounts |
| `ProtocolProgress.WorkIsBounded` | api-gateway/payments-service/src/outbox_processor.cpp:28-59 | from any state at most `Load` working steps can follow, in any order and however many deposits and new accounts come between them |
| `ProtocolProgress.Drains` | api-gateway/payments-service/src/outbox_processor.cpp:12-22 | from any state some run of working steps alone drains every stage |
| `ProtocolProgress.Settles` | api-gateway/payments-service/src/outbox_processor.cpp:12-22 | after any faulty run, once faults stop, working steps in any order and among any deposits, until none is left, stay within the bound, drain every stage and have decided every order except those all of whose requests were lost |
| `ProtocolProgress.RunStaysClean` | api-gateway/orders-service/src/outbox_processor.cpp:28-58 | in a run without faults no event is published twice and nothing is lost |
| `ProtocolProgress.FaultFreeDelivery` | api-gateway/websocket-service/src/main.cpp:45-66 | in a run without faults, once drained, inbox rows and orders are the same ids and each order has exactly one notification |
| `ProtocolProgress.FaultFreeRunsComplete` | api-gateway/websocket-service/src/main.cpp:45-66 | every run without faults can go on without faults until inbox rows and orders are the same ids and each order has exactly one notification |
| `Outbox.BatchExists` | api-gateway/payments-service/src/outbox_processor.cpp:31-36 | the locking query always has an answer: distinct unlocked PENDING rows, oldest first, ten or all there are, none older left out |
| `Outbox.OlderRowsGoFirst` | api-gateway/payments-service/src/outbox_processor.cpp:31-36 | a batch holds only PENDING rows no other worker holds, and passes such a row over only for ten rows that are at least as old |
| `Outbox.BoxStepKeepsInv` | api-gateway/orders-service/src/outbox_processor.cpp:28-58 | every step of a worker or fault keeps batches disjoint and PENDING, marked rows published, queued messages traced to published rows |
| `Outbox.InsertKeepsInv` | api-gateway/orders-service/src/order_service.cpp:40-46 | inserting an event keeps the outbox invariant and every earlier row |
| `Outbox.TakeKeepsInv` | api-gateway/payments-service/src/message_queue.cpp:95-101 | a delivery keeps the invariant, and what is delivered was published |
| `Outbox.MirrorsInsert` | api-gateway/orders-service/src/order_service.cpp:26-46 | a table row and its announcing event inserted together keep the two tables in bijection |
| `OutboxProgress.BoxWorkShrinks` | api-gateway/payments-service/src/outbox_processor.cpp:38-58 | every working step of one outbox lowers its load and queues at most one message |
| `OutboxProgress.BoxCanWork` | api-gateway/payments-service/src/outbox_processor.cpp:12-22 | an outbox with an open batch or a PENDING row has an enabled working step |
| `OutboxProgress.CleanStepKeepsClean` | api-gateway/payments-service/src/outbox_processor.cpp:38-58 | without faults an event is published at most once |
| `OutboxProcessing.OutboxProcessor.ProcessEvent` | api-gateway/payments-service/src/outbox_processor.cpp:43-54 | one row: published only if routed, then marked; a refused publish skips the update, a failed update spoils the transaction |
| `OutboxProcessing.OutboxProcessor.ProcessBatch` | api-gateway/payments-service/src/outbox_processor.cpp:38-55 | the loop appends exactly the published payloads, in batch order, and collects exactly the rows to mark |
| `OutboxProcessing.OutboxProcessor.ProcessPendingEvents` | api-gateway/payments-service/src/outbox_processor.cpp:28-59 | whatever fails: the pass commits unless the commit or an attempted update failed; then exactly the batch rows not refused by the broker become PROCESSED and no other row changes; and each routed row not refused is published once, no other event at all |
| `OutboxProcessing.PassIsRun` | api-gateway/payments-service/src/outbox_processor.cpp:28-59 | a pass, with any failures, is a run of the outbox state machine |
| `OutboxProcessing.Published` | api-gateway/orders-service/src/outbox_processor.cpp:42-45 | an event of the batch reaches the broker if and only if it is routed and the broker accepted it |
| `OutboxProcessing.PublishesOldestFirst` | api-gateway/payments-service/src/outbox_processor.cpp:31-46 | a pass over a batch the query may return publishes in nondecreasing created_at order, failures notwithstanding |
| `OutboxProcessing.RefusedStayPending` | api-gateway/payments-service/src/outbox_processor.cpp:43-58 | after a committed pass exactly the batch rows the broker did not refuse are PROCESSED and all others are as before |
| `OutboxProcessing.PassExactly` | api-gateway/payments-service/src/outbox_processor.cpp:38-58 | when a pass commits, which rows it marks and how often it publishes each event |
| `OutboxProcessing.PassesDrain` | api-gateway/payments-service/src/outbox_processor.cpp:31-58 | n PENDING rows lose ten per clean pass and are gone after exactly ceil(n/10) passes |
| `OutboxProcessing.CleanPassMarksBatch` | api-gateway/payments-service/src/outbox_processor.cpp:38-58 | a pass in which nothing fails marks its whole batch and no other row |
| `PaymentsDatabase.Database.Query` | api-gateway/payments-service/include/database.hpp:39-43 | refused exactly while a transaction is open on the one connection; otherwise it sees what a joined transaction wrote so far, or with a connection of its own only what was committed |
| `PaymentsDatabase.Database.BeginTransaction` | api-gateway/payments-service/src/database.cpp:21-24 | a transaction opens unless one is open on a client that refuses to nest |
| `PaymentsDatabase.Database.Execute` | api-gateway/payments-service/include/database.hpp:57-60 | a write goes to the innermost open transaction and not to the tables, and that transaction's statements see it |
| `PaymentsDatabase.Database.Commit` | api-gateway/payments-service/include/database.hpp:19-24 | an outermost or standalone commit applies its writes in order; a joined one hands them to the outer transaction |
| `PaymentsDatabase.Database.Rollback` | api-gateway/payments-service/include/database.hpp:26-31 | the innermost transaction's writes disappear and nothing else |
| `PaymentsService.PaymentService.GetAccount` | api-gateway/payments-service/src/payment_service.cpp:24-40 | the visible account, or an error exactly if it is missing or the query is refused |
| `PaymentsService.PaymentService.CreateAccount` | api-gateway/payments-service/src/payment_service.cpp:6-22 | a new account at zero, or an error and no change if the user has one |
| `PaymentsService.PaymentService.Deposit` | api-gateway/payments-service/src/payment_service.cpp:42-71 | succeeds exactly for a positive amount on an existing account within the column bounds, adds it and bumps the version; otherwise nothing changes |
| `PaymentsService.PaymentService.ProcessPayment` | api-gateway/payments-service/src/payment_service.cpp:73-102 | true exactly if the debit was made, where it then is (tables or outer transaction) for each client, and that false leaves tables and open transactions alone |
| `PaymentsService.InboxProcessor.RecordDecision` | api-gateway/payments-service/src/inbox_processor.cpp:61-84 | final status and result row are committed together with the outer writes, or nothing is |
| `PaymentsService.InboxProcessor.InsertAndPay` | api-gateway/payments-service/src/inbox_processor.cpp:46-59 | refused exactly for a used key or a failing insert, and then nothing changed; otherwise whether the payment was made, and where its debit and the pending row stand, for each client |
| `PaymentsService.InboxProcessor.HandlePaymentRequest` | api-gateway/payments-service/src/inbox_processor.cpp:32-88 | an unreadable message or a handled order changes nothing; a new request is recorded PROCESSED exactly if the amount is positive, the account has funds and version room, the client does not refuse and nothing threw, else FAILED, with exactly one PENDING result event carrying that flag and its message, all other rows kept, and the account debited exactly when PROCESSED; where a statement outside the payment throws nothing is recorded, and at most a debit on its own connection remains |
| `OrdersService.OrderService.CreateOrder` | api-gateway/orders-service/src/order_service.cpp:11-49 | accepted exactly if no statement fails, both ids are unused and the amount is within the column bound; then the order row NEW and its PENDING request event are both committed with equal id, user and amount, otherwise neither |
| `CodeRefinesProtocol.HandlerReaches` | api-gateway/payments-service/src/inbox_processor.cpp:32-88 | for every client and fault, and with any other handlers open that hold neither the key nor the account, what the handler commits is what some run of the protocol commits, in which the message decides its order, is dropped as a duplicate, or is lost, the last exactly if a statement outside the payment throws |
| `CodeRefinesProtocol.PaymentReaches` | api-gateway/payments-service/src/payment_service.cpp:73-102 | the state after `process_payment` is reached by protocol steps, with or without an exception in it, beside any such other handlers |
| `CodeRefinesProtocol.RequestPassReaches` | api-gateway/orders-service/src/outbox_processor.cpp:28-58 | a pass of the orders worker is a run of the protocol |
| `CodeRefinesProtocol.ResultPassReaches` | api-gateway/payments-service/src/outbox_processor.cpp:28-59 | a pass of the payments worker is a run of the protocol |
| `CodeRefinesProtocol.OrderReaches` | api-gateway/orders-service/src/order_service.cpp:14-46 | whatever fails in `create_order`, some run of the protocol leads to exactly the state in which the two tables are as it leaves them and nothing else changed |
| `CodeRefinesProtocol.OrderAcceptedExactly` | api-gateway/orders-service/src/order_service.cpp:26-46 | an order is accepted, and its row new, exactly if nothing fails and the protocol can create it, in every state with these tables |
| `CodeRefinesProtocol.DepositReaches` | api-gateway/payments-service/src/payment_service.cpp:42-71 | an accepted deposit is a protocol step when no uncommitted debit holds the account |
| `CodeRefinesProtocol.AccountReaches` | api-gateway/payments-service/src/payment_service.cpp:6-22 | opening an account is a protocol step with exactly that row |
| `WritePump.PumpIsFifo` | api-gateway/websocket-service/src/websocket_server.cpp:82-118 | over any interleaving, written + queued + posted is what was sent, in order; the writes started and not completed are the queue front alone, or none if the queue is empty, and `writing_` holds exactly when it is not |
| `WritePump.StartsAlone` | api-gateway/websocket-service/src/websocket_server.cpp:82-106 | no step leaves two writes outstanding, and while one is, only its completion starts another |
| `WritePump.FailedIsFinal` | api-gateway/websocket-service/src/websocket_server.cpp:108-114 | after a write error what was written stays a fixed prefix and no write starts, whatever is sent |
| `WritePump.IdleMeansDelivered` | api-gateway/websocket-service/src/websocket_server.cpp:89-106 | with nothing posted, in flight or failed, everything ever sent has been written |
| `SubscriptionIndex.RunAgrees` | api-gateway/websocket-service/src/websocket_server.cpp:50-80 | in every reachable state a live session is stored under a nonempty order if and only if that is its current order and it has not left; no stored set is empty |
| `SubscriptionIndex.StepAgrees` | api-gateway/websocket-service/src/notification_manager.cpp:4-39 | every manager call, connection or expiry keeps that agreement |
| `SubscriptionIndex.NotifyIsExact` | api-gateway/websocket-service/src/notification_manager.cpp:20-39 | a notification reaches every live session joined to its order once and no other, removes exactly the expired entries of that order and leaves other orders untouched |
| `SubscriptionIndex.OneOrderExactly` | api-gateway/websocket-service/src/websocket_server.cpp:64-70 | for sessions and frames of any value type, live sessions stand under at most one order in all reachable states if and only if no client names the empty order |
| `SubscriptionIndex.OneOrder` | api-gateway/websocket-service/src/websocket_server.cpp:64-70 | for sessions and frames of any type, objects included: in every run that never names the empty order live sessions stand under at most one order |
| `SubscriptionIndex.OnlyTheEmptyOrderIsExtra` | api-gateway/websocket-service/src/websocket_server.cpp:64-70 | in a state where sessions and index agree, they do so if and only if no live session joined to an order is left under the empty one |
| `SubscriptionIndex.EmptyOrderSticks` | api-gateway/websocket-service/src/websocket_server.cpp:65-67 | for sessions of any type, a run in which a subscription to the empty order survives the next subscription |
| `SubscriptionIndex.MembersAfter` | api-gateway/websocket-service/src/notification_manager.cpp:4-18 | subscribing and unsubscribing change the members of one order by one session, and store no empty set |
| `SubscriptionIndex.PrunedMembers` | api-gateway/websocket-service/src/notification_manager.cpp:27-38 | pruning keeps exactly the live members of one order, and stores no empty set |
| `WebSocketService.NotificationManager.SubscribeTo` | api-gateway/websocket-service/src/notification_manager.cpp:4-7 | the index is that of the subscription step |
| `WebSocketService.NotificationManager.Unsubscribe` | api-gateway/websocket-service/src/notification_manager.cpp:9-18 | the index is that of the leaving step, an emptied set being dropped |
| `WebSocketService.NotificationManager.Notify` | api-gateway/websocket-service/src/notification_manager.cpp:20-39 | the erase-while-iterating loop posts the frame once to each live member, to no one else, and leaves the pruned index |
| `WebSocketService.WebSocketSession.Send` | api-gateway/websocket-service/src/websocket_server.cpp:24-31 | a move of the write pump: the frame is posted to the strand |
| `WebSocketService.WebSocketSession.RunNext` | api-gateway/websocket-service/src/websocket_server.cpp:24-31 | a move of the write pump: the oldest posted frame is enqueued, and the one-write invariant is kept |
| `WebSocketService.WebSocketSession.EnqueueWrite` | api-gateway/websocket-service/src/websocket_server.cpp:82-87 | the pump's enqueue; a write is started only if none is outstanding, and the one-write invariant is kept |
| `WebSocketService.WebSocketSession.DoWrite` | api-gateway/websocket-service/src/websocket_server.cpp:89-106 | may be called only when no write is outstanding; the queue front is then the one outstanding write, or writing stops |
| `WebSocketService.WebSocketSession.OnWrite` | api-gateway/websocket-service/src/websocket_server.cpp:108-118 | the pump's completion, which never pops an empty queue and keeps the one-write invariant; on an error the session leaves its order in the index |
| `WebSocketService.WebSocketSession.OnRead` | api-gateway/websocket-service/src/websocket_server.cpp:50-80 | order, index and confirmation after a close, an error, a frame that is no subscription, one whose order id throws after unsubscribing, and a subscription |
| `WebSocketService.WebSocketServer.OnRead` | api-gateway/websocket-service/src/websocket_server.cpp:50-80 | on the live heap: a close and a subscription, also a malformed one, take the session out of its current nonempty order, and a subscription then puts it under the new one; no other member of any order changes, and the steps are those of the index machine |
| `WebSocketService.WebSocketServer.OnWrite` | api-gateway/websocket-service/src/websocket_server.cpp:108-118 | on the live heap: a failed write takes the session out of its order and a completed one changes no member; the session's pump moves by a completion, and all invariants are kept |
| `WebSocketService.WebSocketServer.RunPosted` | api-gateway/websocket-service/src/websocket_server.cpp:24-31 | on the live heap: a strand running its oldest posted frame moves that session's pump, leaves the index machine alone and keeps all invariants |
| `WebSocketService.WebSocketServer.OnAccept` | api-gateway/websocket-service/src/websocket_server.cpp:141-145 | an accepted session joins the machine unsubscribed |
| `WebSocketService.WebSocketServer.Release` | api-gateway/websocket-service/src/notification_manager.cpp:28-33 | a session whose last reference goes expires in place: its index entry stays until a notification prunes it |
| `WebSocketService.WebSocketServer.Announce` | api-gateway/websocket-service/src/notification_manager.cpp:20-39 | on the live heap: the frame is posted once to exactly the live sessions whose current subscription is that order |
| `WebSocketService.WebSocketServer.OneOrderEach` | api-gateway/websocket-service/src/websocket_server.cpp:64-70 | on the live heap: sessions stand under at most one order if and only if none that is joined to an order is still stored under the empty one |
| `WebSocketService.ReadKeepsAgreement` | api-gateway/websocket-service/src/websocket_server.cpp:58-76 | the steps of a read, malformed subscriptions included, are enabled in turn and keep sessions and index in agreement |
| `WebSocketService.ConsumerTellsTheResult` | api-gateway/websocket-service/src/main.cpp:50-59 | what the payments service sends is announced with the status and message of the protocol's notice |
| `WebSocketService.FrameExactly` | api-gateway/websocket-service/src/main.cpp:50-59 | which messages are announced at all, that only an explicit success is FINISHED, and the defaults of missing fields |
| `WebSocketService.ConsumeResult` | api-gateway/websocket-service/src/main.cpp:48-64 | a queued message notifies exactly the members of its order, or nobody where reading it throws |
| `FinanceLedger.RunsStayBalanced` | FinanceAccountingSystem/.vscode/src/facades.cpp:4-47 | over any sequence of commands, rejected ones included, each balance is its opening balance, adjusted by `updateBalance`, plus the signed sum of the stored operations naming it |
| `FinanceLedger.CommandKeepsBalance` | FinanceAccountingSystem/.vscode/src/facades.cpp:4-47 | no command unbalances the books |
| `FinanceLedger.RemoveUndoesCreate` | FinanceAccountingSystem/.vscode/src/facades.cpp:23-47 | removing the operation just created restores accounts, operations and baselines |
| `FinanceLedger.SumByAccount` | FinanceAccountingSystem/.vscode/src/facades.cpp:23-47 | the signed total of all operations is the total over accounts plus that of operations whose account is gone |
| `FinanceLedger.TotalsAgree` | FinanceAccountingSystem/.vscode/src/facades.cpp:4-47 | in every run the operations total what the accounts gained plus the operations of removed accounts |
| `FinanceLedger.TotalIsGain` | FinanceAccountingSystem/.vscode/src/facades.cpp:4-47 | while no account is removed the operations total exactly what the accounts gained |
| `FinanceLedger.NoOrphans` | FinanceAccountingSystem/.vscode/src/facades.cpp:23-33 | while no account is removed every stored operation names a stored account |
| `FinanceLedger.BaselineIsOpening` | FinanceAccountingSystem/.vscode/src/facades.cpp:4-15 | in every run the baseline of an account is the amount it was created with plus what `updateBalance` moved it by |
| `FinanceLedger.BalanceIsHistory` | FinanceAccountingSystem/.vscode/src/facades.cpp:4-47 | in every run each balance is the opening amount, plus adjustments, plus the income and less the expense amounts of the stored operations naming the account |
| `FinanceLedger.PostedIsIncomeLessExpense` | FinanceAccountingSystem/.vscode/src/facades.cpp:29-32 | what is posted to an account is the sum of its Income amounts less the sum of its Expense amounts |
| `FinanceLedger.TotalIsBalanceLessOpening` | FinanceAccountingSystem/.vscode/src/facades.cpp:4-47 | with no account removed and no balance overwritten, the operations total the sum over accounts of balance minus opening amount |
| `FinanceService.FullRangeIsGain` | FinanceAccountingSystem/.vscode/src/analytics.cpp:2-11 | over a range covering all stored dates, income minus expense is the sum over accounts of balance less baseline |
| `FinanceService.FullRangeIsBalanceLessOpening` | FinanceAccountingSystem/.vscode/src/analytics.cpp:2-11 | with no account removed and no `updateBalance`, income minus expense over all stored dates is the sum over accounts of balance minus opening amount |
| `FinanceService.DatesAreOrdered` | FinanceAccountingSystem/.vscode/src/analytics.cpp:5 | the comparison of dates is a total order in which a string follows its prefixes |
| `FinanceService.NotAfterExactly` | FinanceAccountingSystem/.vscode/src/analytics.cpp:5 | one date is not after another exactly if it is a prefix or has the smaller character at the first difference |
| `FinanceService.DateOrderIsChronological` | FinanceAccountingSystem/.vscode/src/analytics.cpp:5 | for dates written YYYY-MM-DD the comparison is the numeric order of year, month and day |
| `FinanceService.InRangeIsChronological` | FinanceAccountingSystem/.vscode/src/analytics.cpp:5-15 | for such dates an operation is in range exactly from the first day to the last, both included |
| `FinanceService.LeftOutExactly` | FinanceAccountingSystem/.vscode/src/analytics.cpp:5-16 | for any texts an operation is left out exactly if its date is strictly before the first or strictly after the last, and counts for its own category only |
| `FinanceRepository.ListingSum` | FinanceAccountingSystem/.vscode/src/repository.cpp:30-36 | a sum over the listing is the sum over the storage, whatever the hash order |
| `FinanceRepository.ListingComplete` | FinanceAccountingSystem/.vscode/src/repository.cpp:30-36 | the listing misses no stored item |
| `FinanceRepository.SortedIsListing` | FinanceAccountingSystem/.vscode/src/repository.cpp:33-34 | any sorted permutation of the stored items is strictly increasing by id and lists each once |
| `FinanceRepository.Sorted` | FinanceAccountingSystem/.vscode/src/repository.cpp:34 | the result is ascending by id and a permutation |
| `FinanceRepository.InMemoryRepository.GetAll` | FinanceAccountingSystem/.vscode/src/repository.cpp:30-36 | every stored item once, strictly increasing by id |
| `FinanceRepository.InMemoryRepository.Collected` | FinanceAccountingSystem/.vscode/src/repository.cpp:31-33 | the loop over the hash table takes each stored item once |
| `FinanceRepository.InMemoryRepository.Add` | FinanceAccountingSystem/.vscode/src/repository.cpp:11-14 | the item is stored under its id, replacing an earlier one |
| `FinanceRepository.InMemoryRepository.Update` | FinanceAccountingSystem/.vscode/src/repository.cpp:16-18 | the item is stored under its id, present or not |
| `FinanceRepository.InMemoryRepository.Remove` | FinanceAccountingSystem/.vscode/src/repository.cpp:20-22 | the id is gone and nothing else |
| `FinanceRepository.InMemoryRepository.Get` | FinanceAccountingSystem/.vscode/src/repository.cpp:24-28 | an item exactly if the id is stored; it carries that id, and writing it back changes nothing |
| `FinanceService.AccountFacade.Create` | FinanceAccountingSystem/.vscode/src/facades.cpp:4-8 | a new account under the next id with the opening balance |
| `FinanceService.AccountFacade.UpdateBalance` | FinanceAccountingSystem/.vscode/src/facades.cpp:10-15 | only the balance of an existing account changes; a missing one is an error and no change |
| `FinanceService.OperationFacade.Create` | FinanceAccountingSystem/.vscode/src/facades.cpp:23-33 | accepted exactly for an existing account and a non-negative amount; the operation is stored, an Income raises and an Expense lowers that balance by exactly the amount and no other changes; or nothing changes |
| `FinanceService.OperationFacade.Remove` | FinanceAccountingSystem/.vscode/src/facades.cpp:35-47 | the operation is gone, the balance lowered by an Income and raised by an Expense, or no account touched if its own is gone; a missing operation is an error and no change |
| `FinanceService.FinanceApp.Execute` | FinanceAccountingSystem/.vscode/src/commands.cpp:17-47 | each command stores or removes exactly what it names, field by field, and the wired objects move exactly as the books do, so the ledger laws hold of them |
| `FinanceService.AnalyticsFacade.IncomeMinusExpense` | FinanceAccountingSystem/.vscode/src/analytics.cpp:2-11 | the Income amounts less the Expense amounts of the stored operations in the range |
| `FinanceService.AnalyticsFacade.SumByCategory` | FinanceAccountingSystem/.vscode/src/analytics.cpp:12-20 | an entry exactly for each category with an operation in range, each the Income less the Expense amounts of those operations, all together totalling income minus expense |
| `TextNormalization.NormalizeText` | AntiplagiatSystem/analysis-service/src/analyzer.cpp:246-257 | the in-place transform and compaction compute the recursive normal form |
| `TextNormalization.LowerInPlace` | AntiplagiatSystem/analysis-service/src/analyzer.cpp:249-250 | every byte of the array is lowered |
| `TextNormalization.CaseIsIgnored` | AntiplagiatSystem/analysis-service/src/analyzer.cpp:249-250 | anywhere in a text each of the 26 capitals may be exchanged for its small letter |
| `TextNormalization.WordsSimilarExactly` | AntiplagiatSystem/analysis-service/src/analyzer.cpp:210-257 | texts of one length without whitespace are similar exactly if at each place the bytes are equal or the two cases of one letter |
| `TextNormalization.UniqueInPlace` | AntiplagiatSystem/analysis-service/src/analyzer.cpp:252-254 | comparing with the last byte kept, in place, drops exactly the whitespace bytes that follow whitespace in the text |
| `TextNormalization.WhitespaceExactly` | AntiplagiatSystem/analysis-service/src/analyzer.cpp:252-254 | of two neighbouring bytes the second is dropped exactly if both are a blank or one of the bytes from tab to carriage return |
| `TextNormalization.NormalizedIsNormal` | AntiplagiatSystem/analysis-service/src/analyzer.cpp:246-257 | the result has no capitals and no adjacent whitespace, and normalizing again changes nothing |
| `TextNormalization.NormalExactly` | AntiplagiatSystem/analysis-service/src/analyzer.cpp:246-257 | a text is its own normal form if and only if it has no capitals and no whitespace run |
| `TextNormalization.LongerRunSameForm` | AntiplagiatSystem/analysis-service/src/analyzer.cpp:252-254 | lengthening a whitespace run anywhere leaves the collapsed text the same |
| `TextNormalization.CalculateSimilarity` | AntiplagiatSystem/analysis-service/src/analyzer.cpp:210-233 | 100 exactly if both files open, are nonempty and have equal normal forms, else 0 |
| `TextNormalization.SimilarityIsEquivalence` | AntiplagiatSystem/analysis-service/src/analyzer.cpp:210-233 | score 100 is an equivalence relation on the nonempty readable texts, and each is equivalent to its normal form |
| `TextNormalization.SimilarExactly` | AntiplagiatSystem/analysis-service/src/analyzer.cpp:210-257 | two nonempty texts score 100 if and only if they agree up to case and to the kind and length of whitespace runs, and corresponding runs begin with the same byte |
| `TextNormalization.RestOfRunIsIgnored` | AntiplagiatSystem/analysis-service/src/analyzer.cpp:252-254 | texts that differ only in the kind of a whitespace byte inside a run are similar |
| `TextNormalization.TabIsNotBlank` | AntiplagiatSystem/analysis-service/src/analyzer.cpp:252-254 | a witness: two texts whose runs begin with different whitespace and which are not similar |
| `FileHash.CalculateFileHash` | AntiplagiatSystem/file-service/src/file_handler.cpp:300-347 | succeeds exactly if the file opens and all library calls do, also for a file not wholly read, and is then the hexadecimal one-shot digest of everything that could be read, for every length; this is the hash of the whole file if and only if all of it was read or the part read collides with it |
| `FileHash.WholeFileExactly` | AntiplagiatSystem/file-service/src/file_handler.cpp:316-335 | for every digest, the hash of what could be read is the hash of the whole file if and only if no read failed or these two texts have the same digest |
| `FileHash.ReadErrorHashesPrefix` | AntiplagiatSystem/file-service/src/file_handler.cpp:316-335 | an input: a file of one byte whose read fails at once gets the hash of the empty file, under a digest of fixed length |
| `FileHash.DigestStream` | AntiplagiatSystem/file-service/src/file_handler.cpp:316-329 | the read loop over the reused buffer absorbs exactly the file's bytes in order, in ceil(n/4096) updates |
| `FileHash.InputStream.Read` | AntiplagiatSystem/file-service/src/file_handler.cpp:317 | a read fills the buffer as far as the data go and fails the stream exactly if they end before it is full |
| `FileHash.AbsorbedInPieces` | AntiplagiatSystem/file-service/src/file_handler.cpp:316-329 | absorbing a text in pieces is absorbing it at once |
| `FileHash.CollectorCollects` | AntiplagiatSystem/file-service/src/file_handler.cpp:316-335 | absorbing visits every byte of the data once, in order |
| `FileHash.ToHex` | AntiplagiatSystem/file-service/src/file_handler.cpp:341-346 | the loop writes the hexadecimal form |
| `FileHash.HexRoundTrip` | AntiplagiatSystem/file-service/src/file_handler.cpp:341-346 | two digits a byte, and reading them back gives the bytes |
| `FileHash.HexDigits` | AntiplagiatSystem/file-service/src/file_handler.cpp:341-346 | each byte is written as two lower-case hexadecimal digits, the high one first |
| `FileHash.HexInjective` | AntiplagiatSystem/file-service/src/file_handler.cpp:341-346 | different digests are written differently |

## Left out

- ProtocolTheorems.Conservation: not claimed for a debit that commits on its own connection, where `ProtocolClients.ConservationExactly` shows it false; `ProtocolStandalone.StandaloneConservation` states what holds instead.
- ProtocolProgress.FaultFreeDelivery: liveness is for runs without faults, and `Settles` for runs whose faults stop; the no-acknowledgement consumers lose messages otherwise. Progress is of working steps, not of wall-clock time or a fair scheduler.
- CodeRefinesProtocol.HandlerReaches: a handler that another one makes wait, for the key or the account, is covered by the state machine, whose steps are the handler's statements, and not by the class method, which runs without interruption.
- CodeRefinesProtocol.DepositReaches: a deposit that waits for an uncommitted debit is the same step taken later.
- WebSocketService.WebSocketServer.OnRead: the leave and the join of a subscription are one method call here; what may come between them is covered by the index machine, where they are two steps. The lifetime of a session is the flag `live` instead of reference counts, and accepting or handshake errors are not modelled.
- FileHash.CalculateFileHash: the digest is any fold over bytes; SHA-256 itself is not modelled.
- TextNormalization.NormalizeText: `tolower` and `isspace` of the C locale; `isspace` of a negative `char` is undefined in the original and taken here to be false.
- FinanceService.FinanceApp.Execute: ids are unbounded integers, where `IdGenerator` counts in `int`.
- Floating point: the finance amounts are whole cents instead of `double`, so rounding is not modelled.
- HTTP handlers, routing, CORS, configuration, the React client: plumbing and user interface.
- The libraries pqxx, AMQP, Boost.Asio, nlohmann JSON and OpenSSL beyond the behaviour assumed above; data races on a shared client object.
- Column length limits of text columns; timestamps of accounts and inbox rows; retry counters, which nothing reads.
- `get_user_orders`, `get_order` and `get_balance`: plain reads. `update_order_status`: nothing calls it, so stored orders stay NEW and final statuses are claimed of notifications only.
- `SimpleCachedRepository`: the same operations and the same `getAll` as `InMemoryRepository`.
- `CategoryFacade`, importers, exporters, the timing decorator and the console menu: easy members or presentation.
- Plagiarism report storage and lookup, and file upload: database plumbing around the modelled functions.
