# Verified model of the warehouse ERP's core

A Dafny 4.11 model of the parts of the ERP where a mistake costs stock, money or
a conversation: the inventory transaction lifecycle with its reservations and
ledger, concurrent completions, document review and product matching, the agent
runtime's session registry, the matching stream reader and the restock planners.
`dafny verify dfyconfig.toml` checks everything.

## How it is built

**Inventory.** `DatabaseClient.Database` is the database as an object whose table
fields the services reassign; `Snapshot()` is its contents as a value
(`InventoryTables.Tables`). A database transaction is a snapshot taken first and
restored when the call throws. Every service method (`CreateTransaction`,
`CompleteTransaction`, `CancelTransaction`, `UpdateTransaction`, `Reservations`,
`StockMovements`, `DocumentApproval`) is imperative and proved to succeed exactly
when its stated condition holds and then to leave exactly the stated tables. Those
tables are functions of the old ones, and the theorems are about these functions:

- `Sound` collects the rules of every committed state: distinct products per
  transaction, legs apart on a transfer, every purchase item priced; one ACTIVE
  reservation per item of a PENDING sale or transfer at its source and none
  otherwise; each COMPLETED transaction in the ledger once and no other; stock equal
  to the ledger replayed; reviews in one of their three shapes.
- `CreateOutcomes`, `UpdateOutcomes`, `SettlingOutcomes` and `ApprovalOutcomes` say the
  same of each call without those functions: the values every row ends with, what is
  left alone, and exactly when the call goes through, all in terms of the request and
  the old rows; `Refusals` says which exception a refused call throws.
- `Covered` says no stock row promises more than it holds.
- `InventoryRuns` runs any sequence of calls; `TransactionHistory` and
  `StockConservation` say what such runs do and do not change.
- `ConcurrentCalls` interleaves any number of completions, cancellations, updates,
  sales, transfers and approvals: claim, then one stock row at a time, locked and read
  in one step and checked in a later one, with private writes, then commit.
  `CallerTouches` says which rows each call takes and what it asks of them; `LockOrder`
  shows that the waits cannot form a circle, and `LoneCallers` when a caller gets through.

**Everything else.** `SessionRegistry` has the registry with its session objects on
the heap, `Sessions` the same as a value, `SessionRuns` all interleavings of
invocations, `StreamResponses` the calls of those runs on the heap registry,
`SessionIds` the id format. `SseReader` is the chunked stream reader
against a one-pass parser. `MatchResults`, `FuzzyMatching` and `MatchingAgent` hold
the result contract, the fallback and the two validators, `FuzzyScores` what the
fallback's scores and answers are in words counted. `RestockPlanner`,
`DeadStockPlanner`, `NameClassifier` and `DueDates` are the deterministic tools.
`StockOrder`, `StockLedger`, `ReservationRows`, `PostingFacts`, `BackingFacts`,
`StatePreservation`, `CompletionSteps`, `RankOrder`, `Text` and `Wrappers` carry the
shared notions and the lemmas the rest is built from.

## Where the code does not do what one would expect

- A manual adjustment looks at physical stock only, so it can write off stock that
  is promised: available stock then is negative and a PENDING order can no longer
  be completed. `InventoryRuns.AdjustmentCondition` says exactly when an adjustment
  is harmless, `InventoryRuns.WriteOffStrands` when it strands an order, and
  `InventoryRuns.AdjustmentCanStrand` is a run from the empty database that ends there.
- The stream reader's description says it throws when the stream closes without a
  done event. It throws only when no text was collected either
  (`SseReader.ClosedWithoutDone`, and `SseReader.OneDeltaWithoutDone` for a stream that
  gives a result instead).
- The two validators of a match verdict differ in one thing, what they call white
  space: a text made of a byte order mark survives the agent's check and fails the
  backend's (`MatchingAgent.SurvivorsAccepted`, `MatchingAgent.ByteOrderMarkParts`).
  The caller still gets a valid answer, from the fallback.
- The donor search's second result is described as every candidate with a positive
  safe surplus. `RestockPlanner.ScoredAsDescribed` says exactly when that is so; with
  a surplus of one unit or no room at the destination it is not, and the reason
  given for a purchase then speaks of the donors even when the room is missing
  (`RestockPlanner.DescriptionFails` has one input of each kind).

## Model

| member | source | states |
|---|---|---|
| StockMovements.RecordMovement | backend/src/stock-movements/stock-movements.service.ts:264-306 | succeeds exactly for a valid quantity, existing rows and a result that is not negative; then one ledger row and one stock row change, nothing else |
| StockMovements.AdjustInventory | backend/src/stock-movements/stock-movements.service.ts:157-187 | an administrator's correction with a reason, all or nothing, bounded by physical stock only; each refusal's exception class is the first failing check's |
| SettlingOutcomes.AdjustmentWrites | backend/src/stock-movements/stock-movements.service.ts:157-187 | an adjustment goes through exactly for an ADMIN, a reason, known rows, a quantity other than zero and stock that stays non-negative; it adds one ADJUSTMENT row and changes one stock row by its quantity |
| StockMovements.NothingToReconcile | backend/src/stock-movements/stock-movements.service.ts:200-240 | in every state whose stock is its replayed ledger the reconciliation finds nothing, every row equals its signed ledger sum and none is negative |
| StockMovements.RebuildStock | backend/prisma/seed.ts:2335-2360 | the seed's fold over the movements is the replay of the ledger, and gives up exactly when some prefix would go negative |
| StockLedger.ReplayIsSignedSum | backend/prisma/seed.ts:2339-2360 | replaying movements leaves each row at its old quantity plus the signed sum of its rows, with no row invented or lost |
| StockLedger.ReplayOfDistinct | backend/src/stock-movements/stock-movements.service.ts:282-293 | movements on different rows go through together exactly when each fits its own row |
| StockLedger.OrderIsIrrelevant | backend/src/inventory-transactions/inventory-transactions.service.ts:693-700 | movements on different rows can be posted in any order with the same success and the same stock |
| StockOrder.SortAscends | backend/src/inventory-transactions/inventory-transactions.service.ts:693-700 | the services' sort puts rows with different keys into strictly ascending (warehouse, product) order |
| Reservations.Reserve | backend/src/reservations/reservations.service.ts:109-150 | adds one ACTIVE row exactly when the positive quantity is within what is available |
| Reservations.Release | backend/src/reservations/reservations.service.ts:152-166 | turns an ACTIVE row into CANCELLED, touches nothing else, and says why when it cannot |
| Reservations.Fulfill | backend/src/reservations/reservations.service.ts:168-215 | success means the outgoing movement of the row was posted and the row is FULFILLED; failure leaves all but an empty stock row as it was |
| CreateTransaction.ValidateItems | backend/src/inventory-transactions/inventory-transactions.service.ts:1160-1207 | accepts exactly the non-empty lists of positive ids and quantities with distinct products, valid prices and, for purchases, all prices |
| CreateTransaction.CreateIncoming | backend/src/inventory-transactions/inventory-transactions.service.ts:220-234 | creates the PENDING purchase exactly when supplier, warehouse, products and items are acceptable, all or nothing; else throws the exception of the first check that fails |
| CreateTransaction.CreateOutgoing | backend/src/inventory-transactions/inventory-transactions.service.ts:244-257 | creates the PENDING sale with one reservation per item exactly when every item fits what is available, all or nothing; else throws the exception of the first check that fails |
| CreateTransaction.CreateTransfer | backend/src/inventory-transactions/inventory-transactions.service.ts:265-283 | the same for a transfer between two different warehouses |
| CreateTransaction.AssertProductsExist | backend/src/inventory-transactions/inventory-transactions.service.ts:1258-1276 | accepts exactly the lists whose products all exist and are active, and reports the first that is not, as missing or as inactive |
| CreateTransaction.ReserveAll | backend/src/inventory-transactions/inventory-transactions.service.ts:1288-1310 | reservations on different rows all go through exactly when each fits the row as it was before the first |
| CreateOutcomes.PurchaseMade | backend/src/inventory-transactions/inventory-transactions.service.ts:1029-1056 | a purchase goes through exactly for a live supplier and warehouse and a list of different, priced, active products; the last row of the table is then PENDING with those legs and that date, and item by item the input's product, quantity and price; nothing is set aside and nothing else changes |
| CreateOutcomes.SaleMade | backend/src/inventory-transactions/inventory-transactions.service.ts:1058-1098 | a sale goes through exactly for a live warehouse where every product is active and has what is asked left over; row and items as above, and one ACTIVE reservation per item at the source, no other |
| CreateOutcomes.TransferMade | backend/src/inventory-transactions/inventory-transactions.service.ts:1100-1140 | a transfer: the same at its source, with a different live destination |
| Refusals.PurchaseRefused | backend/src/inventory-transactions/inventory-transactions.service.ts:1029-1056 | the exception of a refused purchase: items, supplier, warehouse, first missing (NotFound) or inactive (BadRequest) product |
| Refusals.SaleRefused | backend/src/inventory-transactions/inventory-transactions.service.ts:1058-1098 | the exception of a refused sale, a Conflict when only stock is short |
| Refusals.TransferRefused | backend/src/inventory-transactions/inventory-transactions.service.ts:1100-1140 | the exception of a refused transfer |
| CompleteTransaction.Complete | backend/src/inventory-transactions/inventory-transactions.service.ts:302-312 | succeeds exactly for a PENDING transaction whose outgoing legs are physically there; then status, ledger, stock and reservations are those of the full posting, else nothing has changed |
| CompleteTransaction.CompleteIncoming | backend/src/inventory-transactions/inventory-transactions.service.ts:621-637 | makes the postings of a purchase in stock-row order, or fails exactly when they cannot all be made |
| CompleteTransaction.CompleteOutgoing | backend/src/inventory-transactions/inventory-transactions.service.ts:639-651 | makes the postings of a sale through its reservations, or fails exactly when they cannot all be made |
| CompleteTransaction.CompleteTransfer | backend/src/inventory-transactions/inventory-transactions.service.ts:653-700 | merges the operations on both warehouses into ascending stock-row order and makes them, each source leg through its reservation |
| SettlingOutcomes.CompletionPosts | backend/src/inventory-transactions/inventory-transactions.service.ts:621-700 | a completion appends to the ledger, for each item, exactly one IncomingMove at the destination (purchase), one OutgoingMove at the source (sale), or one TransferOut at the source and one TransferIn at the destination (transfer), each with the item's product and quantity and the transaction's id, and no other row |
| SettlingOutcomes.CompletionStocks | backend/src/inventory-transactions/inventory-transactions.service.ts:621-700 | each item's quantity leaves its source row and arrives on its destination row |
| SettlingOutcomes.CompletionSparesStock | backend/src/inventory-transactions/inventory-transactions.service.ts:621-700 | every other stock row keeps its quantity |
| SettlingOutcomes.CompletionSettles | backend/src/inventory-transactions/inventory-transactions.service.ts:583-619 | every ACTIVE reservation of the transaction becomes FULFILLED, the row COMPLETED, and nothing else changes but ledger and stock |
| SettlingOutcomes.CompletionGoesThrough | backend/src/inventory-transactions/inventory-transactions.service.ts:583-700 | complete goes through exactly for a PENDING row whose outgoing quantities are on hand |
| CompletionSteps.OpsInOrder | backend/src/inventory-transactions/inventory-transactions.service.ts:693-700 | the sorted list of a transfer's operations makes exactly the transaction's postings in stock-row order |
| CompletionSteps.ItemsInOrder | backend/src/inventory-transactions/inventory-transactions.service.ts:1209-1211 | within one warehouse, going through the items by product is going through the stock rows in order |
| PostingFacts.PostingOrderAscends | backend/src/inventory-transactions/inventory-transactions.service.ts:621-700 | every completion takes its stock rows in strictly ascending (warehouse, product) order, each once |
| PostingFacts.CompletionCondition | backend/src/inventory-transactions/inventory-transactions.service.ts:621-700 | in a state whose stock is its ledger, the postings go through exactly when each outgoing leg's quantity is on hand |
| PostingFacts.CompletionNet | backend/src/inventory-transactions/inventory-transactions.service.ts:621-700 | completion takes each item's quantity off the source row and adds it to the destination row |
| CancelTransaction.Cancel | backend/src/inventory-transactions/inventory-transactions.service.ts:323-333 | succeeds exactly for a PENDING transaction and releases exactly its reservations; a failure changes nothing |
| SettlingOutcomes.CancelSettles | backend/src/inventory-transactions/inventory-transactions.service.ts:702-726 | cancel goes through exactly for a PENDING row; its ACTIVE reservations become CANCELLED, the row CANCELLED, and nothing else changes |
| UpdateTransaction.Update | backend/src/inventory-transactions/inventory-transactions.service.ts:363-376 | succeeds exactly when the transaction is PENDING, the input is allowed and the new reservations fit once the old ones are released; then it leaves the re-planned transaction, else nothing has changed and the exception is that of the first check that fails |
| UpdateOutcomes.UpdateWritesChange | backend/src/inventory-transactions/inventory-transactions.service.ts:887-931 | an item that a change names has the change's product, quantity and price where given and its old ones where not |
| UpdateOutcomes.UpdateKeepsItem | backend/src/inventory-transactions/inventory-transactions.service.ts:887-931 | an item that no change names is unchanged |
| UpdateOutcomes.UpdateWritesHeader | backend/src/inventory-transactions/inventory-transactions.service.ts:932-960 | source, destination, supplier and date are the given ones where given, else the old; kind, status and every other row stay |
| UpdateOutcomes.UpdateReserves | backend/src/inventory-transactions/inventory-transactions.service.ts:874-909 | after an update the ACTIVE reservations of the order are exactly one per item, for the new product and quantity at the new source |
| UpdateOutcomes.UpdateSparesOthers | backend/src/inventory-transactions/inventory-transactions.service.ts:874-909 | reservations of other orders and settled ones stay; the order's own are kept or released, and only ACTIVE rows of the order are added |
| UpdateOutcomes.UpdateGoesThrough | backend/src/inventory-transactions/inventory-transactions.service.ts:728-960 | update goes through exactly for a PENDING row, an admissible request, products that end apart, and room for every replaced item: on hand, less all that is set aside, plus what the order itself gives back on that row |
| Refusals.UpdateRefusedEarly | backend/src/inventory-transactions/inventory-transactions.service.ts:728-831 | the exception of a refused update: values, row, status, fields, the rows they name, the items they name, equal products |
| Refusals.ShortageRefused | backend/src/inventory-transactions/inventory-transactions.service.ts:887-892 | with all else in order a refused update is a Conflict for want of stock |
| UpdateTransaction.Resync | backend/src/inventory-transactions/inventory-transactions.service.ts:833-909 | releases the whole old set before any replacement, and ends with each changed item reserved anew |
| UpdateTransaction.LookUp | backend/src/inventory-transactions/inventory-transactions.service.ts:854-880 | finds for each plan the one ACTIVE row of its item's old product, and fails exactly when a new product is missing or inactive |
| UpdateTransaction.ItemsEnd | backend/src/inventory-transactions/inventory-transactions.service.ts:892-908 | carrying out the plans one by one gives every item exactly its change |
| BackingFacts.UpdateBacks | backend/src/inventory-transactions/inventory-transactions.service.ts:833-909 | one reservation per item survives an update, whatever items exchange products or leave the source |
| BackingFacts.ExactlyOneReservation | backend/src/inventory-transactions/inventory-transactions.service.ts:993-1011 | an item of a transaction that holds stock has one ACTIVE reservation with its product, quantity and source, and no second |
| StatePreservation.UpdatedTransactionOk | backend/src/inventory-transactions/inventory-transactions.service.ts:814-826 | distinct products, priced purchases and legs apart survive every allowed update |
| StatePreservation.CoveredCompletes | backend/src/inventory-transactions/inventory-transactions.service.ts:639-700 | where no row promises more than it holds, a PENDING transaction's outgoing legs are all there, whoever else reserves the rows |
| InventoryRuns.Serve | backend/src/inventory-transactions/inventory-transactions.service.ts:220-381 | the service methods do on the database exactly what the step function of the runs says, success included |
| InventoryRuns.StepSound | backend/src/inventory-transactions/inventory-transactions.service.ts:583-960 | every call, of any kind, takes a state that keeps all the rules to one that does |
| InventoryRuns.RunSound | backend/src/inventory-transactions/inventory-transactions.service.ts:583-960 | all the rules hold in every state any sequence of calls reaches |
| InventoryRuns.RunCovered | ai-agent/sql/database_context.py:83-108 | along every run without a write-off of reserved stock, no stock row promises more than it holds |
| InventoryRuns.PendingAlwaysCompletes | backend/src/inventory-transactions/inventory-transactions.service.ts:639-700 | in every state such a run reaches, availability is not negative and completing succeeds exactly for the PENDING transactions |
| InventoryRuns.AdjustmentCondition | backend/src/stock-movements/stock-movements.service.ts:157-187 | an adjustment keeps every row able to honour its reservations exactly when the new quantity still covers what that row has reserved |
| InventoryRuns.WriteOffStrands | backend/src/stock-movements/stock-movements.service.ts:282-293 | writing off more than a row can spare succeeds and leaves a PENDING order on it that cannot be completed |
| InventoryRuns.AdjustmentCanStrand | backend/src/stock-movements/stock-movements.service.ts:157-187 | for any row, quantity and loss: four calls lead from the empty database to a state in which every rule holds and the one order can be completed; writing off any promised unit then succeeds and leaves it PENDING and impossible to complete |
| TransactionHistory.SettledOnce | backend/src/inventory-transactions/inventory-transactions.service.ts:583-726 | over a whole run exactly one complete or cancel of a transaction goes through if it leaves PENDING and none otherwise, and a settled row never changes again |
| TransactionHistory.LedgerAppendOnly | backend/src/stock-movements/stock-movements.service.ts:300-303 | no call ever changes or removes a ledger row |
| TransactionHistory.MovementsOnce | backend/src/inventory-transactions/inventory-transactions.service.ts:621-700 | in every reachable state a COMPLETED transaction has its n (transfer: 2n) movements in the ledger exactly once, any other none |
| TransactionHistory.ReservationsMatchItems | backend/src/inventory-transactions/inventory-transactions.service.ts:728-960 | in every reachable state the ACTIVE reservations of a PENDING sale or transfer are, as a bag, its items at its source; all others have none |
| TransactionHistory.ReviewHistory | backend/src/document-review/document-review.service.ts:941-1134 | in every reachable state reviews are in one of their three shapes with transactions of their own type and no sharing, and a decided review never changes |
| TransactionHistory.NamesStayUnique | backend/src/document-review/document-review.service.ts:1052-1110 | approvals one after another keep active product names unique ignoring case if they were so before |
| StockConservation.CompletionMovesTotal | backend/src/inventory-transactions/inventory-transactions.service.ts:621-700 | completing a transfer keeps each product's total over all warehouses; a purchase or sale changes it by exactly the item quantities |
| StockConservation.StockUntouched | backend/src/inventory-transactions/inventory-transactions.service.ts:702-960 | create, update, cancel, approve and reject change neither stock nor ledger |
| StockConservation.StockIsAccountedFor | backend/prisma/seed.ts:2335-2360 | in every reachable state a product's total is what COMPLETED purchases brought less what COMPLETED sales took plus the movements outside transactions |
| StockConservation.CreateThenCancel | backend/src/inventory-transactions/inventory-transactions.service.ts:702-726 | creating and then cancelling leaves the available quantity of every row as it was |
| StockConservation.NoMoreThanBeforeFits | backend/src/inventory-transactions/inventory-transactions.service.ts:833-909 | an update that stays at its source and asks for no more of any product than before always succeeds, even when items exchange products |
| StockConservation.AnyPostingOrder | backend/src/inventory-transactions/inventory-transactions.service.ts:653-700 | a completion's postings in any other order end in the same stock or fail alike |
| StockConservation.CalculateCost | backend/src/inventory-transactions/inventory-transactions.service.ts:463-484 | the total is the sum of quantity times price over the items that have a price, absent exactly when none has; the counts are those of the priced lines and of all, and the cost is reported complete exactly for a non-empty list with all prices |
| StockConservation.PurchasesArePriced | backend/src/inventory-transactions/inventory-transactions.service.ts:463-484 | in every reachable state the cost of a purchase is complete |
| CallerTouches.TouchesAscend | backend/src/inventory-transactions/inventory-transactions.service.ts:837-841 | every completion, update, sale, transfer and approval takes its stock rows in strictly ascending (warehouse, product) order |
| CallerTouches.CommitSpares | backend/src/reservations/reservations.service.ts:109-151 | a commit sets nothing more aside on any row its caller has not locked, and leaves every other transaction's share as it is |
| ConcurrentCalls.CommitIsSerial | backend/src/inventory-transactions/inventory-transactions.service.ts:583-960 | what a caller commits once its rows are taken and checked, from private quantities and without looking at status, stock or catalogue again, is exactly the guarded serial call on the committed state |
| ConcurrentCalls.InterleavingsAreSerial | backend/src/inventory-transactions/inventory-transactions.service.ts:583-960 | in every interleaving of completions, cancellations, updates, sales, transfers and approvals the committed state is that of the committed calls run one after another in commit order, each succeeding, and at most one complete or cancel of a transaction commits |
| ConcurrentCalls.NoOverselling | backend/src/reservations/reservations.service.ts:109-151 | in every interleaving without a write-off into promised stock, no row ever promises more than it holds, though the sum of reservations is read in a later step than the lock |
| ConcurrentCalls.CheckedStaysAvailable | backend/src/reservations/reservations.service.ts:109-151 | what a reserving caller has checked on a row stays available to it, on top of all that is promised to others, until it ends, whatever commits meanwhile |
| ConcurrentCalls.CompletionNeverShort | backend/src/inventory-transactions/inventory-transactions.service.ts:621-700 | while no row promises more than it holds, a claimed completion never fails a check, so it never rolls back for want of stock |
| LoneCallers.CheckIsExact | backend/src/reservations/reservations.service.ts:119-140 | in any world, whoever else is at work, a reserving caller passes a check exactly when what it asks is at most what is on hand less all that is set aside, plus what its own update gives back there |
| LoneCallers.CompletionCheckIsExact | backend/src/stock-movements/stock-movements.service.ts:264-306 | a completing caller passes a check exactly when the row does not go below zero |
| LoneCallers.AloneIsServed | backend/src/inventory-transactions/inventory-transactions.service.ts:583-960 | a caller alone in the world, taken through its claim, every lock and check and its commit, ends Committed exactly when the call made at once goes through, and leaves what that call leaves |
| ConcurrentCalls.InterleavedMovementsOnce | backend/src/inventory-transactions/inventory-transactions.service.ts:621-700 | in every interleaving a transaction's movements are in the ledger exactly once if it is COMPLETED and never otherwise |
| LockOrder.WaitsForOneAhead | backend/src/stock-movements/stock-movements.service.ts:76-88 | whoever waits for a row is strictly behind its holder in the one order all rows are taken in |
| LockOrder.NoWaitCycle | backend/src/inventory-transactions/inventory-transactions.service.ts:621-700 | in every interleaving no chain of waiting completions, cancellations, updates, sales, transfers and approvals closes into a circle |
| LockOrder.NoDeadlock | backend/src/inventory-transactions/inventory-transactions.service.ts:621-700 | in every interleaving, while a caller is unfinished some caller can take its next step |
| DocumentApproval.Approve | backend/src/document-review/document-review.service.ts:941-1029 | succeeds exactly for a PENDING_REVIEW row whose lines, ids and items are acceptable; then products, transaction, reservations and link are in place, else nothing has changed and the exception is that of the first check that fails |
| ApprovalOutcomes.ApprovalMakes | backend/src/document-review/document-review.service.ts:941-1110 | the linked transaction has the reviewer's supplier, legs and date and one item per line, in order, with the line's quantity and price; its product is the line's, or an active one new to the catalogue with the line's trimmed name |
| ApprovalOutcomes.ApprovalLeaves | backend/src/document-review/document-review.service.ts:941-1029 | the review is APPROVED by that reviewer and linked; old products stay, a new one belongs to a line, ledger and stock stay |
| ApprovalOutcomes.ApprovalReserves | backend/src/document-review/document-review.service.ts:941-1029 | an approved sale sets aside each item at its source, one row each, an approved purchase nothing |
| ApprovalOutcomes.ApprovalGoesThrough | backend/src/document-review/document-review.service.ts:941-1110 | approve goes through exactly for a PENDING_REVIEW row whose new names are free and whose create call, on the catalogue with the new products, goes through |
| Refusals.LineRefused | backend/src/document-review/document-review.service.ts:1052-1110 | a line that defines nothing usable is a BadRequest, one whose name or id is taken a Conflict |
| DocumentApproval.ResolveApprovalItems | backend/src/document-review/document-review.service.ts:1052-1110 | accepts exactly the lines that name a product by id or define one new to the catalogue and to the earlier lines, and creates exactly those |
| DocumentApproval.ApprovalKeepsNamesUnique | backend/src/document-review/document-review.service.ts:1083-1098 | an approval keeps active names unique ignoring case and leaves existing products alone |
| DocumentApproval.NewProductsNamed | backend/src/document-review/document-review.service.ts:1077-1100 | every product an approval adds is active and has a trimmed, non-empty name |
| DocumentApproval.Reject | backend/src/document-review/document-review.service.ts:1112-1134 | needs a non-blank reason and a PENDING_REVIEW row, records both and changes nothing else |
| ApprovalOutcomes.RejectionWrites | backend/src/document-review/document-review.service.ts:1112-1137 | reject goes through exactly for a PENDING_REVIEW row and a reason that is not blank, and writes status, reason and reviewer, nothing else |
| DocumentApproval.ApproveSound | backend/src/document-review/document-review.service.ts:941-1029 | an approved review has exactly one transaction, its own and of its own type, and all inventory rules go on holding |
| SessionIds.Build | ai-agent/agentcore_session.py:15-25 | an id is built exactly for positive-integer users of at most 58 digits, follows the format and fits the length limits |
| SessionIds.ParsesThePattern | ai-agent/agentcore_session.py:28-38 | the parser accepts exactly the ids of the format up to 100 characters and returns their owner |
| SessionIds.BuildThenParse | ai-agent/agentcore_session.py:15-38 | parsing a built session id gives back the user |
| SessionRegistry.Registry.Cleanup | ai-agent/agentcore_entrypoint.py:141-150 | drops exactly the idle entries past their lifetime |
| SessionRegistry.EvictOldest | ai-agent/agentcore_entrypoint.py:158-169 | deletes idle entries only, none younger than an idle one left, and no more than needed |
| SessionRegistry.Registry.Acquire | ai-agent/agentcore_entrypoint.py:172-190 | cleans up, then refuses exactly a session of another user or counts the caller on the entry found or made, with the object of every other entry untouched |
| SessionRegistry.Registry.Release | ai-agent/agentcore_entrypoint.py:193-196 | takes the caller off the object it holds, registered or not |
| Sessions.IdleLifetime | ai-agent/agentcore_entrypoint.py:141-150 | a released session stays cached exactly while it is in use or its idle lifetime, counted from the release, has not passed |
| Sessions.CleanUpDrops | ai-agent/agentcore_entrypoint.py:141-150 | a clean-up drops exactly the entries that nobody uses and nobody has used for 3600 seconds |
| Sessions.EvictsOnlyForRoom | ai-agent/agentcore_entrypoint.py:153-169 | nothing is evicted with fewer than 256 entries or for a session that is found, and never more than the new session needs |
| Sessions.AcquireWrites | ai-agent/agentcore_entrypoint.py:172-190 | an acquisition adds one to the count of the entry found, or of a new unlocked one of the user's, notes the time, and touches no other object |
| Sessions.RoomAfterInsertion | ai-agent/agentcore_entrypoint.py:153-184 | after every insertion at most 256 entries are registered or every entry is busy |
| Sessions.BusySurvives | ai-agent/agentcore_entrypoint.py:141-169 | an entry in use survives every acquisition under the same object |
| Sessions.DropsOldest | ai-agent/agentcore_entrypoint.py:141-169 | whatever an acquisition drops was idle, and either stale or no younger than every idle entry it leaves |
| SessionRuns.OnePastTheLock | ai-agent/agentcore_entrypoint.py:511-579 | in every run, with failures, cancellations, clean-up and eviction in any order, at most one invocation per session id is past the lock |
| SessionRuns.BusyEntriesStay | ai-agent/agentcore_entrypoint.py:172-196 | in every run an invocation in flight holds the registered object, whose count is the real number of users and whose owner is the one its id names, and no next event drops or replaces it |
| SessionRuns.NeverClamps | ai-agent/agentcore_entrypoint.py:193-196 | a release never meets a zero count |
| SessionRuns.NoLockLeaks | ai-agent/agentcore_entrypoint.py:199-202 | in every run a waiting invocation gets the lock at its next poll unless another one of that object is past it |
| SessionRuns.NoCountLeaks | ai-agent/agentcore_entrypoint.py:575-579 | once everybody has left, every count is zero |
| SessionRuns.OwnersAreAdmitted | ai-agent/agentcore_entrypoint.py:131-138 | a user whose id the session id names is never refused over another owner |
| StreamResponses.Entrypoint.Start | ai-agent/agentcore_entrypoint.py:511-512 | on the heap, one start is one event of a run: refused exactly for an id that is not the user's or is registered to another, else one new call waits with the registered object |
| StreamResponses.Entrypoint.TryLock | ai-agent/agentcore_entrypoint.py:199-202 | a poll takes the lock exactly when it is free, and is the poll event of the run |
| StreamResponses.Entrypoint.Leave | ai-agent/agentcore_entrypoint.py:570-578 | the lock goes back exactly when it was acquired, and that is the finish or cancel event of the run |
| StreamResponses.Entrypoint.Release | ai-agent/agentcore_entrypoint.py:575-579 | the finally block's release is the release event of the run |
| StreamResponses.Entrypoint.OneInside | ai-agent/agentcore_entrypoint.py:511-579 | at most one call per session id is past the lock of the heap objects, after any sequence of these calls |
| StreamResponses.Entrypoint.HoldsTheRegistered | ai-agent/agentcore_entrypoint.py:172-196 | a call that has not returned holds the very object registered for its session id, counted at least once |
| SseReader.CollectText | backend/src/document-review/ai-semantic-match.provider.ts:170-213 | the chunked reader's outcome is that of parsing the complete lines of the whole text once, however it is cut |
| SseReader.SplitIncrementally | backend/src/document-review/ai-semantic-match.provider.ts:182-184 | splitting the kept rest with the next chunk gives the lines of the whole text |
| SseReader.RoundTrip | backend/src/document-review/ai-semantic-match.provider.ts:185-204 | any texts sent as text_delta events and then done come back as their concatenation, whatever follows |
| SseReader.ClosedWithoutDone | backend/src/document-review/ai-semantic-match.provider.ts:209-212 | a stream that ends without done is an error exactly when it carried no text |
| SseReader.ErrorReported | backend/src/document-review/ai-semantic-match.provider.ts:185-204 | an error event after any text_delta and other events is an error, whatever follows |
| SseReader.OthersIgnored | backend/src/document-review/ai-semantic-match.provider.ts:185-204 | events of other types between the deltas change nothing |
| SseReader.OnlyDataLines | backend/src/document-review/ai-semantic-match.provider.ts:185-192 | a line counts exactly when it starts with "data:" once trimmed and something follows; then its trimmed rest is decoded |
| SseReader.LineSkipped | backend/src/document-review/ai-semantic-match.provider.ts:185-192 | a line that is no data line or does not parse might as well not be there |
| SseReader.OneDeltaWithoutDone | backend/src/document-review/ai-semantic-match.provider.ts:209-212 | one text_delta and no done gives that text as the result |
| SseReader.UnfinishedLineIgnored | backend/src/document-review/ai-semantic-match.provider.ts:182-184 | a line cut off by the end of the stream is not read |
| MatchResults.Validate | backend/src/document-review/document-review.service.ts:776-877 | accepts a value of any JSON shape exactly when it reads as a result and meets the contract |
| FuzzyMatching.PiecesFacts | backend/src/document-review/document-review.service.ts:1192-1194 | tokenising keeps every letter and digit in order and cuts at every other character and nowhere else |
| FuzzyMatching.NumbersFacts | backend/src/document-review/document-review.service.ts:1196-1198 | each extracted text is a number and together they hold every digit of the text in order |
| FuzzyScores.TokensOfBoth | backend/src/document-review/document-review.service.ts:1192-1194 | a text cut at a character that is neither a lower-case letter nor a digit has the tokens of both sides |
| FuzzyScores.OneToken | backend/src/document-review/document-review.service.ts:1192-1194 | a text of letters and digits alone is one token |
| FuzzyScores.NumbersFromLeft | backend/src/document-review/document-review.service.ts:1196-1198 | the numbers of a text are found from the left, each as long as it can be |
| FuzzyMatching.JaccardScore | backend/src/document-review/document-review.service.ts:1200-1210 | the counting loop computes shared tokens over all tokens |
| FuzzyMatching.ScoreIsSymmetric | backend/src/document-review/document-review.service.ts:1163-1190 | the score does not depend on which of the two names was scanned |
| FuzzyMatching.ConflictIsNoMatch | backend/src/document-review/document-review.service.ts:1180-1189 | names whose numbers disagree never score above 0.4 |
| FuzzyScores.ScoreCounts | backend/src/document-review/document-review.service.ts:1163-1190 | two different names score the number of shared tokens over the number of all tokens, 0.25 more up to 1 when one name is part of the other, and at most 0.4 when both have numbers and share none |
| FuzzyScores.SameTokensScoreOne | backend/src/document-review/document-review.service.ts:1163-1190 | the same words in another order score 1 |
| FuzzyScores.NothingSharedScoresZero | backend/src/document-review/document-review.service.ts:1163-1190 | no common word and no containment scores 0 |
| FuzzyMatching.FuzzyMeetsContract | backend/src/document-review/document-review.service.ts:893-939 | the fallback's answer meets the contract for every non-blank query and every catalogue |
| FuzzyMatching.FuzzyResolves | backend/src/document-review/document-review.service.ts:911-921 | the fallback resolves exactly when one candidate alone has the query's name ignoring case and outer space |
| FuzzyMatching.FuzzyNoMatch | backend/src/document-review/document-review.service.ts:923-931 | the fallback reports no match exactly when no candidate reaches the floor of 0.2 |
| FuzzyMatching.FuzzyShowsBest | backend/src/document-review/document-review.service.ts:908-938 | a candidate that is not suggested scores no higher than any that is, and below the floor when there was room for it |
| FuzzyScores.FallbackFindsNothing | backend/src/document-review/document-review.service.ts:893-939 | the fallback reports no match exactly when for every candidate neither name is part of the other and less than a fifth of the tokens are shared; a product then gets the trimmed query as its recommended name |
| FuzzyScores.FallbackResolves | backend/src/document-review/document-review.service.ts:893-939 | a resolved answer names the candidate that reads as the query, with confidence 1 |
| FuzzyScores.FallbackSuggests | backend/src/document-review/document-review.service.ts:893-939 | an unresolved answer shows one to three candidates with their own scores, all at least 0.2, best first |
| MatchingAgent.Verdict.Check | ai-agent/agents/document_agent/matching_agent.py:256-347 | a verdict survives exactly when its ids, reasons, status and new-product suggestion are in order; only a misplaced recommendation is dropped |
| MatchingAgent.VerdictReadBack | ai-agent/agentcore_entrypoint.py:483-494 | the backend reads back exactly the verdict that was sent |
| MatchingAgent.SurvivorsAccepted | ai-agent/agents/document_agent/matching_agent.py:256-347 | a surviving verdict with copied names meets the backend's contract exactly when its texts are not blank to the backend |
| MatchingAgent.AcceptedSurvive | ai-agent/agents/document_agent/matching_agent.py:256-330 | the other way round: a verdict within the backend's contract whose texts are not blank for the AI side survives its check unchanged |
| MatchingAgent.PlainTextsAccepted | backend/src/document-review/document-review.service.ts:776-877 | without a byte order mark in its texts every surviving verdict with copied names is accepted |
| MatchingAgent.ByteOrderMarkParts | backend/src/document-review/document-review.service.ts:824-828 | a concrete verdict that survives the agent's check and is rejected by the backend |
| MatchingAgent.Resolve | backend/src/document-review/document-review.service.ts:617-683 | every non-blank query gets an answer that meets the contract, whatever the matching service returns or throws: its own if usable, the fallback's otherwise |
| RestockPlanner.SelectDonor | ai-agent/agents/insights_agent/tools.py:1349-1420 | there is a winner exactly when a single donor can cover the whole need; it has the largest safe surplus, lowest id on ties, gives exactly the need into the room there is, and stays above its own threshold by at least as much again |
| RestockPlanner.BestIsUnique | ai-agent/agents/insights_agent/tools.py:1415-1420 | the choice does not depend on the order of the candidates |
| RestockPlanner.ScoredIsLargest | ai-agent/agents/insights_agent/tools.py:1386-1413 | a scored quantity is the largest that is at most half the surplus, the need and the room |
| RestockPlanner.ScoredAsDescribed | ai-agent/agents/insights_agent/tools.py:1386-1413 | when the list of scored candidates is the described one, exactly |
| RestockPlanner.DescriptionFails | ai-agent/agents/insights_agent/tools.py:1386-1413 | a donor with a surplus of one unit, and a donor with a surplus of twenty for a full destination, give an empty list of scored candidates |
| RestockPlanner.RecommendRestock | ai-agent/agents/insights_agent/tools.py:1584-1615 | transfer plus purchase always equals the need, one of them is zero, and the action and reason are the ones the situation calls for |
| DeadStockPlanner.QualifyingByRecency | ai-agent/agents/insights_agent/tools.py:1023-1046 | exactly the other warehouses that sold the product, each once, latest seller first |
| DeadStockPlanner.ComputeTransfers | ai-agent/agents/insights_agent/tools.py:1049-1080 | half the stock is given out in full, in positive shares along the list that differ by at most one, none larger than an earlier one |
| DeadStockPlanner.PlanDeadStock | ai-agent/agents/insights_agent/tools.py:1123-1230 | distinct destinations, never the source, most recent seller first; half the stock moves exactly when somebody else sells the product and there are two units, no two moves differ by more than one, and the earlier is not the smaller |
| NameClassifier.MatchedMeans | ai-agent/agents/document_agent/tools.py:378-413 | a candidate that stands out by the thresholds is the one matched |
| NameClassifier.MatchedOnlyIf | ai-agent/agents/insights_agent/tools.py:69-106 | a match is a candidate that stands out, nothing is found exactly when all score below the floor, and an ambiguous answer reports the top score |
| NameClassifier.MatchIsStrictBest | ai-agent/agents/document_agent/tools.py:378-413 | a matched candidate has the strictly best score |
| NameClassifier.ThresholdsAre | ai-agent/agents/document_agent/tools.py:59-61 | a match scores at least 80 and at least 8 more than any other candidate of 80 or more; below 60 nothing is found |
| NameClassifier.AmbiguousShows | ai-agent/agents/document_agent/tools.py:407-413 | an ambiguous answer shows the three best candidates, best first |
| NameClassifier.CopiesAgree | ai-agent/agents/insights_agent/tools.py:45-57 | the document and the insights tools classify every catalogue alike, and two copies of the rule do so exactly as long as all three constants agree |
| NameClassifier.OrderDoesNotMatter | ai-agent/agents/document_agent/tools.py:378-413 | every ordering of the catalogue gives the same status, id, name and confidence |
| DueDates.DatedSplitThreeWays | backend/src/inventory-transactions/inventory-transactions.service.ts:519-581 | PENDING dated transactions split into overdue, upcoming (due from today to today plus the window, in whole UTC days) and later |
| DueDates.OverdueRulesAgree | ai-agent/agents/insights_agent/tools.py:957-967 | the Python calendar-day rule and the backend's overdue list agree on every transaction |

## Left out

- Row ids: a row's id is its position in its table; the gaps a rolled-back insert leaves in a sequence are not modelled. Item ids count up; a new product's id is an input.
- Numbers that are not integers or not finite, which the validators reject, cannot be written in the model's types. Prices and scores are reals, without rounding.
- Time stamps, documents, party and delivery columns, authentication, logging and the wording of messages; an exception is its class. Reviewers and requesters are plain ids.
- PostgreSQL and Prisma themselves: a claim is one atomic conditional update, a row lock is held to commit or rollback. S3, Textract, Cognito, notifications and HTTP are not part of the model.
- Removal of warehouses and suppliers; the catalogue's own screens appear in runs as one write each.
- ConcurrentCalls.InterleavingsAreSerial: calls that take no stock row (purchases created or approved, uploads, rejections) and adjustments, which take one row, are one step. A catalogue write is taken to wait for the calls that rely on the catalogue; in the source one can land between such a call's checks and its commit. A stock row that does not exist yet is locked like any other; the source has none to lock there, and the check fails.
- DocumentApproval.ApprovalKeepsNamesUnique: two approvals racing on one new name take no common lock; the statement is for approvals one after another. The database's case-insensitive comparison is any symmetric relation.
- SessionIds.Build: the white space Python strips from the user id beforehand and the random conversation id are inputs.
- SessionRuns.OnePastTheLock: what an invocation does between lock and release (gate, agent, streaming) is one phase that can end at any time.
- SessionRegistry.EvictOldest: entries with equal last access may go in any order; the source has the order of insertion.
- SseReader.CollectText: bytes are decoded to text before, and JSON by a function that is a parameter; cancelling the reader is not modelled.
- MatchingAgent.Resolve: the agent's cleaned-up name for an empty catalogue is any text; the prompt, the hints and the model call are not modelled.
- FuzzyMatching.FuzzyMeetsContract: lower-casing is any function of the text.
- NameClassifier.MatchedMeans: a candidate's score is any number. The branches of the document and the insights tools are the same and written once; the constants are kept apart.
- DeadStockPlanner.QualifyingByRecency: time stamps are numbers, and warehouses with equal ones may come in either order; the source keeps the order of first appearance.
- RestockPlanner.RecommendRestock: the supplier ranking behind a purchase is one input, and the reason is a label instead of a sentence.
- The order tools (merging order lines, choosing a fulfilment warehouse, comparing an invoice with its purchase order) add easier properties of the same kind and are not modelled.
- Warehouse capacity, analytics, the SQL query service, controllers, front ends and narration.
