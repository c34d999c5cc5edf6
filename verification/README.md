# Verification of the POS inventory system

A Dafny model of the inventory ledger engine and the document services that drive it, of the
offline sale protocol, of the customer merge forest, and of the consent gate; with proofs of what
they keep over every run.

## How it is laid out

* `Tables`, `Fifo`, `Serials`, `Ledger`, `Database`: the rows, the cost layers, the serial
  lifecycle, one movement (`Post`), and what a service does inside one transaction: a list of
  operations (`Exec`, `ExecAll`) and the documents it leaves (`Plan`, `Transact`). A call that
  raises leaves the database as it was.
* `LedgerWriter`, `SerialService`, `Transfers`, `Counts`, `Purchasing`, `Returns`, `Rmas`,
  `Intake`: the services. Each has its loop-by-loop method on the tables of a `Session`, proved to
  do exactly what its plan says, errors and rollback included.
* `Runs`: runs that mix every service in any order. `Conservation`, `Transit`, `Reconciliation`,
  `Cardinality` and `OrderHistory` prove what holds after all of them.
* `Effects`, `SerialEffects`, `Provenance`: what each accepted call leaves, told from the request and
  the documents alone: the stock of every pair, the serial rows, the ledger rows. `Acceptance`,
  `DocumentCalls`: when each call is accepted, and the documents it leaves.
* `VendorSerials` and `SerialRuns` carry the serial count through vendor RMAs and over whole runs.
* `Scenarios`, `SerialScenarios`: short runs from an empty database, one for each thing the
  services do not keep.
* `Locking`: movement transactions interleaved step by step under row locks. `Approvals`: approvals
  of counts, which read the session without a lock, interleaved step by step.
* `SaleRecord`, `Batches`, `OfflineSales`, `Register`: the intake endpoint, requests with several
  envelopes, the network and the register.
* `Customers`, `Consent`: the other two state machines, each with the class that runs it.

Quantities are integers in thousandths and unit costs integers in ten-thousandths, the scales of
the ledger, balance and layer columns; division is exact and rounded once, half to even. Dates, drawn identifiers and the
order in which the scope query returns its rows are parameters.

## What the code does not keep

Each of these is a proved statement, with the exact condition where there is one.

* On-hand after an approved count is not always the counted quantity, as success criterion SC-004
  of the inventory feature has it. Movements dated against their posting order shift it
  (`Reconciliation.CountExactlyWhen`, `Scenarios.LateSaleShiftsCount`).
* `specs/001-inventory-management/quickstart.md:192` says that replaying an envelope returns 409
  already_processed. It does so only while the first line could be sold again; once the stock has
  run out the drain stops at that envelope (`OfflineSales.RepeatedAnswer`,
  `Scenarios.DrainStopsAtApplied`).
* A duplicate in a batch of several envelopes undoes the envelopes accepted before it
  (`Batches.AcceptedCommittedExactly`, `Scenarios.BatchLosesAccepted`).
* The first touch of a balance row can lose an update (`Locking.SerializableExactlyWhenPresent`,
  `Locking.LostUpdate`).
* A serialised receipt line with a fraction receives fewer units than it states
  (`Conservation.WholeUnitsExactly`, `Scenarios.FractionLost`).
* A receipt that names a line twice can complete an order and leave it open
  (`OrderHistory.ClosesExactly`, `Scenarios.CompleteButOpen`).
* A receipt can fill a line of another order, which may be a draft or cancelled
  (`OrderHistory.GoodsKeptExactly`, `Scenarios.CancelledWithGoods`).
* Two approvals of a count at once can post the same variance twice
  (`Approvals.ApprovedOnceExactly`, `Scenarios.ApprovedTwice`).
* A serial returned while it is in stock is counted twice (`Cardinality.ReturnKeepsExactly`,
  `SerialScenarios.StockReturnCountsTwice`).
* A raw serial transition can leave the location wrong (`Serials.PlacedKeptExactly`,
  `SerialScenarios.RawSaleKeepsLocation`).
* From the shipping of a serial on an RMA to its closing there are more serials than stock
  (`VendorSerials.ShipBreaksStepExactly`, `VendorSerials.CloseAccountsExactly`,
  `SerialScenarios.ShippedAwaits`).
* A merge can close a cycle (`Customers.MergeKeepsAcyclicExactly`), after a lifecycle call on a
  merged customer (`Customers.LifecycleOpensCycleExactly`, `Customers.CycleRunGoes`).
* A retry does not ask for consent (`Consent.RetryConsentedExactly`, `Consent.RetryAfterWithdrawal`).
* Other users of the in-transit location can make a shipped transfer impossible to receive
  (`Transit.ReceiveGoesExactly`, `Scenarios.CountedAwayStuck`).

Where documents and code differ the model follows the code: research note R7
(`specs/001-inventory-management/research.md:68`) adds the movements of the session window to
counted minus opening, the code subtracts them; research note R4
(`specs/002-customer-view/research.md:54`) caps resolution at depth 5, and the code raises when the
root is five pointers away.

## Model

| member | source | states |
|---|---|---|
| `Fifo.RoundHalfEven` | backend/src/pos_inventory/domain/inventory/ledger.py:118 | The unit cost is the integer number of ten-thousandths nearest to the exact quotient; a tie goes to the even one. |
| `Fifo.Insert` | backend/src/pos_inventory/domain/inventory/ledger.py:224-241 | A new layer takes its place by date and identifier: no layer is lost or duplicated, quantity and value grow by its own, and an ordered index stays ordered. |
| `Fifo.ConsumeIsDequeue` | backend/src/pos_inventory/domain/inventory/ledger.py:88-118 | The layer loop refines a flat queue of unit costs: it succeeds exactly when the queue holds the quantity, then leaves the queue with that many entries dropped from the front and has totalled exactly their cost; otherwise it has emptied the queue and falls short by what is missing. |
| `Fifo.ConsumeSplits` | backend/src/pos_inventory/domain/inventory/ledger.py:102-118 | Taking a + b at once leaves the same layers, shortage and total cost as taking a and then b. |
| `Fifo.ConsumeAccounts` | backend/src/pos_inventory/domain/inventory/ledger.py:102-113 | The loop changes nothing of a layer but its remaining quantity, keeps the order, and takes off the smaller of the request and what is there. |
| `Fifo.ConsumeValue` | backend/src/pos_inventory/domain/inventory/ledger.py:107-113 | The value it takes off the layers is exactly the cost it totals. |
| `Fifo.UnitCostWithin` | backend/src/pos_inventory/domain/inventory/ledger.py:102-118 | The unit cost of an outbound movement lies between the cheapest and the dearest unit consumed, rounding included. |
| `LedgerWriter.EnsureBalanceLocked` | backend/src/pos_inventory/domain/inventory/ledger.py:52-76 | Returns the stored balance, or zero after inserting a zero row. |
| `LedgerWriter.TakeLayers` | backend/src/pos_inventory/domain/inventory/ledger.py:88-115 | The loop over the layer rows, updating them one by one, is the specification of consumption, also when it ends short with the layers already changed. |
| `LedgerWriter.TakeLayer` | backend/src/pos_inventory/domain/inventory/ledger.py:104-113 | One row gives what it holds or what is still wanted, whichever is less, and keeps the rest. |
| `LedgerWriter.ConsumeFifo` | backend/src/pos_inventory/domain/inventory/ledger.py:79-118 | Raises exactly on a shortage; otherwise returns the rounded unit cost of what it took. |
| `LedgerWriter.MoveSerial` | backend/src/pos_inventory/domain/inventory/ledger.py:146-218 | The serial row after a movement: cost and location on the way in, location kept or cleared by the state after on the way out. |
| `LedgerWriter.MoveLoose` | backend/src/pos_inventory/domain/inventory/ledger.py:219-249 | An inbound movement needs a unit cost and adds one layer; an outbound one consumes layers. |
| `LedgerWriter.ResolveMovement` | backend/src/pos_inventory/domain/inventory/ledger.py:144-249 | The serial branch when the movement names a serial, the layer branch otherwise. |
| `LedgerWriter.PostMovement` | backend/src/pos_inventory/domain/inventory/ledger.py:121-295 | One movement, table by table, is the transition `Post`; when it raises it has appended no ledger row and has changed exactly `Residue`: an empty balance row, the layers or the serial of its cost step, or all but the ledger row. |
| `Ledger.LedgerGrows` | backend/src/pos_inventory/domain/inventory/ledger.py:266-294 | The ledger is append-only through any list of operations. |
| `Ledger.PostAgrees` | backend/src/pos_inventory/domain/inventory/ledger.py:251-294 | A movement keeps balances and layers equal to the sums of the ledger rows of every pair, on-hand non-negative and the layers in order. |
| `Ledger.PostValue` | backend/src/pos_inventory/domain/inventory/ledger.py:219-249 | The ledger value of a movement differs from the value its layers gain or lose by nothing on the way in, and by at most half a ten-thousandth per unit on the way out. |
| `Ledger.ExecAllConcat` | backend/src/pos_inventory/core/db.py:30-39 | A transaction is the composition of its parts: the first part that raises ends it. |
| `Database.Session.Rollback` | backend/src/pos_inventory/core/db.py:30-39 | A raising call restores every table. |
| `Runs.ProjectionsAgree` | backend/src/pos_inventory/domain/inventory/ledger.py:142-294 | After any run mixing every service: on-hand is the sum of the ledger rows of the pair and not negative, the layers hold the sum of the rows without a serial, in FIFO order. |
| `Runs.ValuationDriftBounded` | backend/src/pos_inventory/domain/inventory/ledger.py:102-118 | After any run the ledger value of a pair and its layer value differ by at most 0.00005 times the quantity that ever left it. |
| `Runs.LayersByDate` | backend/src/pos_inventory/domain/inventory/ledger.py:91-98 | After any run the layers of a pair stand by date of receipt, and by identifier within a date, written out. |
| `Runs.OldestFirst` | backend/src/pos_inventory/domain/inventory/ledger.py:88-113 | After any run a movement takes nothing from a layer while one of an earlier date, or of the same date and a smaller identifier, still holds anything. |
| `Ledger.SerialPosted` | backend/src/pos_inventory/domain/inventory/ledger.py:146-218 | A movement of a serial, written out: ledger and serial row carry the stated cost on the way in and the stored cost otherwise; the location is that of the movement or none; the state is the one after, if given. |
| `Ledger.BalancePosted` | backend/src/pos_inventory/domain/inventory/ledger.py:251-264 | Any movement changes the on-hand of its own pair by its quantity, what is reserved there by nothing, and no other balance row. |
| `Ledger.LooseArrives` | backend/src/pos_inventory/domain/inventory/ledger.py:219-241 | An inbound loose movement adds one layer of its date, quantity and cost, and one ledger row at that cost. |
| `Effects.CallChanges` | backend/src/pos_inventory/domain/inventory/ledger.py:251-264 | After any run an accepted call changes the stock of every pair by exactly what its request or document says, and any other call by nothing. |
| `Effects.StockIsWhatCallsSay` | backend/src/pos_inventory/domain/inventory/ledger.py:251-264 | After any run the stock of every pair is the sum of what the accepted calls of the run say of that pair. |
| `SerialEffects.SerialsFollowCalls` | backend/src/pos_inventory/domain/inventory/ledger.py:146-218 | An accepted call leaves exactly the serial rows its request or document says, written out call by call: new, moved, taken back, scrapped, closed, or untouched. |
| `Provenance.RowsTellTheirCall` | backend/src/pos_inventory/domain/inventory/ledger.py:266-294 | Every ledger row an accepted call appends carries its kind, document and date, is for one of its lines, and costs what the document states on the way in. |
| `Provenance.EveryRowTold` | backend/src/pos_inventory/domain/inventory/ledger.py:266-294 | Every row of the ledger of any run was appended by one accepted call of the run, and tells it. |
| `Locking.PostDepends` | backend/src/pos_inventory/domain/inventory/ledger.py:142-264 | What a movement does depends only on the balance row, layers, serial row and index entry it uses. |
| `Locking.ProgramDepends` | backend/src/pos_inventory/domain/inventory/ledger.py:53-64 | A whole transaction depends only on what it locks and leaves everything else alone. |
| `Locking.LocksSerialize` | backend/src/pos_inventory/domain/inventory/ledger.py:53-64 | With the balance rows present, every interleaving of movement transactions leaves the balances, layers, serials and ledger of its committed transactions run one at a time in commit order, each at most once. |
| `Locking.InterleavingAgrees` | backend/src/pos_inventory/domain/inventory/ledger.py:251-294 | So no interleaving makes a balance or a layer disagree with the ledger. |
| `Locking.LostUpdate` | backend/src/pos_inventory/domain/inventory/ledger.py:64-75 | Without the row: two receipts that both miss it commit, and leave only the second quantity on hand, where each of the two serial orders leaves the sum. |
| `Locking.SerializableExactlyWhenPresent` | backend/src/pos_inventory/domain/inventory/ledger.py:64-75 | Every interleaving of two receipts of one pair leaves what some serial order of the committed ones leaves, if and only if the balance row exists beforehand. |
| `Intake.CheckLines` | backend/src/pos_inventory/api/v1/pos_intake.py:70-75 | An unknown or serialised sku refuses the envelope before anything is posted. |
| `Intake.SellLine` | backend/src/pos_inventory/api/v1/pos_intake.py:84-106 | The sale guard, then the movement; only the first line carries the client intake id. |
| `Intake.SellLines` | backend/src/pos_inventory/api/v1/pos_intake.py:82-106 | The loop over the lines sells all of them, or raises at the first that cannot be sold. |
| `Intake.LineExec` | backend/src/pos_inventory/domain/inventory/sale_guard.py:14-36 | A line is refused without a balance row or with too little unreserved stock, before the movement and the unique index are reached. |
| `Acceptance.SaleLineGoes` | backend/src/pos_inventory/domain/inventory/sale_guard.py:14-36 | In any database: a line is sold if and only if its pair has a balance row with enough that is not reserved, there is enough on hand and in layers, and the id of a first line is not recorded. |
| `Acceptance.SaleGoesExactly` | backend/src/pos_inventory/api/v1/pos_intake.py:64-107 | After any run an envelope is accepted if and only if its lines are for known skus, lot tracked or untracked, with enough for all lines of each sku together, and its id is new. |
| `Acceptance.AnsweredIsCovered` | backend/src/pos_inventory/api/v1/pos_intake.py:65-75 | A request that is answered has no line for an unknown or a serialised sku in any envelope. |
| `Intake.PostSales` | backend/src/pos_inventory/api/v1/pos_intake.py:64-115 | The nested loops with their savepoint and rollbacks compute `Batch`, and change nothing when they raise. |
| `Intake.BatchCommits` | backend/src/pos_inventory/api/v1/pos_intake.py:108-115 | Given its answer, what a batch of several envelopes commits: exactly the envelopes accepted after its last duplicate. |
| `Batches.AcceptedCommittedExactly` | backend/src/pos_inventory/api/v1/pos_intake.py:64-115 | Before the call: a request that is answered commits exactly the rows of the envelopes it answers "accepted" if and only if no envelope that is new to the ledger is followed by one that is recorded already or repeats it. Otherwise an accepted envelope is undone by a later duplicate. |
| `Batches.NoDuplicateExactly` | backend/src/pos_inventory/api/v1/pos_intake.py:107-115 | A batch that is answered meets no duplicate if and only if every envelope with lines is new to the ledger and no two of them share an id. |
| `Scenarios.BatchLosesAccepted` | backend/src/pos_inventory/api/v1/pos_intake.py:107-115 | A run and a batch whose first envelope is answered accepted and leaves no row, because the second is a duplicate. |
| `SaleRecord.SaleRecorded` | backend/src/pos_inventory/api/v1/pos_intake.py:82-107 | A sale that goes through was not recorded before; it adds one row per line, all of one document, and one index entry. |
| `SaleRecord.DuplicateMeansRecorded` | backend/src/pos_inventory/api/v1/pos_intake.py:108-114 | The unique index raises only for an envelope with lines whose id is already in the ledger. |
| `SaleRecord.OthersRecordNothing` | backend/src/pos_inventory/api/v1/pos_intake.py:84-106 | No other service writes a sale row or a client intake id. |
| `OfflineSales.EndpointMeans` | backend/src/pos_inventory/api/v1/pos_intake.py:64-115 | A request with one envelope commits the whole envelope or nothing, and turns the index violation into already_processed. |
| `OfflineSales.AppliedWholeAtMostOnce` | backend/alembic/versions/0003_inventory_ledger_balance_costlayer.py:111-119 | Over every run with concurrent drains, lost, late and repeated messages and crashes: the sale rows of the ledger are the whole blocks of the accepted envelopes, and no envelope with lines is accepted twice. |
| `OfflineSales.LeftTheQueueAppliedOnce` | frontend/pos/src/lib/offline-queue.ts:78-98 | An envelope with lines that was queued is still in the queue or was applied exactly once. |
| `OfflineSales.RepeatedAnswer` | backend/src/pos_inventory/api/v1/pos_intake.py:84-114 | A repeated request is answered already_processed if and only if its first line could be sold again; otherwise business_rule_conflict, and the drain stops there. |
| `Scenarios.DrainStopsAtApplied` | frontend/pos/src/lib/offline-queue.ts:82-96 | A run in which the last unit is sold, the answer is lost, and the next drain stops at the envelope: it stays queued, applied once. |
| `OfflineSales.EmptyAlwaysAccepted` | backend/src/pos_inventory/api/v1/pos_intake.py:92-107 | An envelope without lines is accepted every time and posts nothing. |
| `Register.Client.Enqueue` | frontend/pos/src/lib/offline-queue.ts:57-64 | An envelope with a line that carries a serial value is refused and changes nothing; any other is stored under its client intake id and replaces one of the same id. |
| `Register.Client.Drain` | frontend/pos/src/lib/offline-queue.ts:78-98 | The loop deletes exactly the envelopes answered accepted or already_processed, counts them apart, and stops at the first other answer. |
| `Register.PassGoesOn` | frontend/pos/src/lib/offline-queue.ts:82-96 | A pass deletes and counts an envelope answered accepted or already_processed, and goes on with the next. |
| `Register.PassStops` | frontend/pos/src/lib/offline-queue.ts:88-94 | Any other answer, or none, stops the pass with the envelope still stored. |
| `Register.PassIsRun` | frontend/pos/src/lib/offline-queue.ts:78-98 | One pass of the loop is a run of the protocol, so what holds of every run holds of it. |
| `Counts.CreateSession` | backend/src/pos_inventory/domain/counts/service.py:53-109 | A session stores one snapshot row per balance row in scope, with its on-hand. |
| `DocumentCalls.OpenTakesScope` | backend/src/pos_inventory/domain/counts/service.py:33-109 | An opened session has a snapshot of a pair if and only if the pair has a balance row, is at one of the locations, and is of one of the skus if any are named; each once, with its on-hand. |
| `DocumentCalls.SubmitGoesExactly` | backend/src/pos_inventory/domain/counts/service.py:126-170 | A submission is accepted if and only if the session is open or submitted and every entry is non-negative and of a known sku; it is appended. |
| `Counts.SubmitEntries` | backend/src/pos_inventory/domain/counts/service.py:126-170 | Entries accumulate while the session is open or submitted; the first negative one, or the first of an unknown sku, rejects them all. |
| `Counts.ComputeVariance` | backend/src/pos_inventory/domain/counts/variance.py:47-109 | The loop reports, per snapshot row, counted minus (opening plus every movement dated since the opening). |
| `Counts.PostAdjustments` | backend/src/pos_inventory/domain/counts/approve.py:38-75 | One adjustment and one movement per non-zero variance, in the order of the report. |
| `Counts.ApproveSession` | backend/src/pos_inventory/domain/counts/approve.py:26-90 | Posts the adjustments and closes the session, or changes nothing. |
| `DocumentCalls.ApproveGoesExactly` | backend/src/pos_inventory/domain/counts/approve.py:26-90 | After any run an approval is accepted if and only if the session is open or submitted and every pair can give up what is missing, on hand and in layers, with entries and rows summed out. |
| `Reconciliation.VarianceCorrects` | backend/src/pos_inventory/domain/counts/variance.py:47-79 | On-hand plus variance is the counted quantity plus the rows posted late with early dates minus the rows posted early with late dates. |
| `Reconciliation.CountReconciles` | backend/src/pos_inventory/domain/counts/approve.py:36-75 | After any run, an approval leaves each pair at counted, plus what was posted after the snapshot but dated before the opening, minus what was posted before it but dated at or after the opening. |
| `Reconciliation.CountEndsAtEntries` | backend/src/pos_inventory/domain/counts/variance.py:47-79 | The same without the counting function: on-hand is the sum of the entries of all the submissions of the run accepted for the session, plus and minus the misdated rows, each summed by their dates; the session was open or submitted and is approved. |
| `Reconciliation.CountExactlyWhen` | backend/src/pos_inventory/domain/counts/variance.py:57-79 | It leaves the pair at the counted quantity if and only if those two totals are equal; so it does when dates follow the posting order. |
| `Scenarios.LateSaleShiftsCount` | backend/src/pos_inventory/domain/counts/variance.py:49-79 | A run in which an offline sale dated before the opening arrives during the count: nine units are counted and the approval leaves eight. |
| `Reconciliation.ApprovalGoesExactly` | backend/src/pos_inventory/domain/counts/approve.py:32-80 | An approval of an open session goes through if and only if every pair can absorb its variance. |
| `Reconciliation.ApproveNeverStuck` | backend/src/pos_inventory/domain/counts/approve.py:32-80 | With dates in posting order and no serialised movement on the pairs, approval never raises. |
| `Reconciliation.OverlappingCounts` | backend/src/pos_inventory/domain/counts/approve.py:32-80 | Two sessions on one pair, approved in turn with any calls in between: the pair ends at the later count, and the later adjustment does not repeat the earlier one. |
| `Approvals.TurnsPostOnce` | backend/src/pos_inventory/domain/counts/approve.py:26-80 | Over any run of any number of approvals, step by step, and any other calls: if an approval of a session reads its state only while no other one of it is under way, at most one of them posts. |
| `Approvals.ApprovedOnceExactly` | backend/src/pos_inventory/domain/counts/approve.py:26-80 | Two or more approvals of a session leave, in every interleaving, what one of them alone leaves, or nothing, if and only if no pair differs, or some pair cannot absorb its variance, or the first pair that differs cannot absorb it twice. |
| `Approvals.PostedTwice` | backend/src/pos_inventory/domain/counts/approve.py:26-75 | Where it fails: an interleaving in which the second approval adjusts the first differing pair again, so that it ends at on-hand plus twice its variance. |
| `Scenarios.ApprovedTwice` | backend/src/pos_inventory/domain/counts/approve.py:26-75 | A run and two overlapping approvals that count nine units where nine are on hand and leave seven. |
| `Transfers.CreateTransfer` | backend/src/pos_inventory/domain/transfers/service.py:43-122 | Validates and stores a draft, or raises the same error at the same line and stores nothing. |
| `Transfers.MovePair` | backend/src/pos_inventory/domain/transfers/service.py:166-217 | The outbound movement, then the inbound one if the first went through. |
| `Transfers.MoveLine` | backend/src/pos_inventory/domain/transfers/service.py:163-217 | A line moves each of its serials, or its quantity at cost zero, out of one location and into the other. |
| `Transfers.MoveLines` | backend/src/pos_inventory/domain/transfers/service.py:163-217 | The loop over the lines of a transfer moves all of them, or raises at the first that cannot move. |
| `Transfers.Ship` | backend/src/pos_inventory/domain/transfers/service.py:155-239 | Only a draft ships; all its lines move into transit or nothing does. |
| `Transfers.Receive` | backend/src/pos_inventory/domain/transfers/service.py:242-320 | Only a shipped transfer is received; all its lines leave transit or nothing does. |
| `Effects.ReceivedAtDestination` | backend/src/pos_inventory/domain/transfers/service.py:242-300 | Receiving adds what the lines moved to the stock at the destination, takes it from in transit, and changes no other pair. |
| `Effects.ShippedFromSource` | backend/src/pos_inventory/domain/transfers/service.py:155-217 | Shipping takes what the lines move from the source, adds it in transit, and changes no other pair. |
| `SerialEffects.ReceivedSellable` | backend/src/pos_inventory/domain/transfers/service.py:252-277 | Each serial of a received transfer is sellable at the destination, at the cost it had. |
| `DocumentCalls.CreateTransferGoesExactly` | backend/src/pos_inventory/domain/transfers/service.py:43-122 | A transfer is stored as a draft if and only if it has lines, its ends differ, and each line has a positive quantity of a known sku and existing, distinct serials, one per unit. |
| `DocumentCalls.ShipGoesExactly` | backend/src/pos_inventory/domain/transfers/service.py:155-217 | After any run a transfer ships if and only if it is a draft and its source has enough stock and layers for all its lines. |
| `DocumentCalls.ReceiveGoesExactly` | backend/src/pos_inventory/domain/transfers/service.py:242-300 | After any run it is received if and only if it was shipped and in transit has enough. |
| `Transit.InTransitExact` | backend/src/pos_inventory/domain/transfers/service.py:163-222 | When only transfers use the in-transit location, its on-hand of a sku is always the total of the lines shipped and not received, and its layers hold the loose part. |
| `Transit.ReceiveNeverStuck` | backend/src/pos_inventory/domain/transfers/service.py:250-307 | In every such run, receiving a shipped transfer succeeds. |
| `Transit.ReceiveGoesExactly` | backend/src/pos_inventory/domain/transfers/service.py:242-307 | After any run, whoever else used the in-transit location, receiving a shipped transfer succeeds if and only if the on-hand and the layers there cover its lines. |
| `Scenarios.CountedAwayStuck` | backend/src/pos_inventory/domain/transfers/service.py:242-307 | A run in which a count that takes in the in-transit location is approved with nothing found there: the transfer stays shipped and can no longer be received. |
| `Purchasing.CreatePo` | backend/src/pos_inventory/domain/purchase_orders/service.py:72-137 | An order starts as a draft whose lines are fully backordered. |
| `DocumentCalls.CreatePoGoesExactly` | backend/src/pos_inventory/domain/purchase_orders/service.py:26-91 | An order is stored as a draft if and only if its quantities are positive, its costs not negative and its skus known; one line per input, nothing received, all backordered. |
| `Purchasing.Transition` | backend/src/pos_inventory/domain/purchase_orders/service.py:112-149 | A transition succeeds exactly along the table, and changes the state alone. |
| `DocumentCalls.MovePoGoesExactly` | backend/src/pos_inventory/domain/purchase_orders/state.py:12-20 | A transition is accepted if and only if it goes to the next state of the order's life, or cancels it before receiving. |
| `Purchasing.PostSerials` | backend/src/pos_inventory/domain/purchase_orders/receiving.py:189-227 | One new serial row and one movement of a unit per serial value, in order. |
| `Purchasing.PostLine` | backend/src/pos_inventory/domain/purchase_orders/receiving.py:158-241 | A serialised entry needs serial values unknown so far; any other entry is one movement of its quantity. |
| `Purchasing.ReceiveLine` | backend/src/pos_inventory/domain/purchase_orders/receiving.py:141-256 | One entry: its checks in order, its serials and movements, then the order line. |
| `Purchasing.PostReceipt` | backend/src/pos_inventory/domain/purchase_orders/receiving.py:103-300 | A receipt posts all its entries and closes the order if nothing is outstanding, or changes nothing. |
| `Acceptance.ReceiptGoesExactly` | backend/src/pos_inventory/domain/purchase_orders/receiving.py:113-163 | After any run a receipt is accepted if and only if the order is approved, sent or receiving, every entry fits its line (quantity, tolerance over all entries so far, tracking), and every serial is new. |
| `Acceptance.LooseReceiptGoesExactly` | backend/src/pos_inventory/domain/purchase_orders/receiving.py:113-163 | For goods without serials, each order line named once: if and only if each line has a positive quantity, stays within its sku's own tolerance or else the default, and has a lot code where lots are tracked. |
| `OrderHistory.ReceiptRecords` | backend/src/pos_inventory/domain/purchase_orders/receiving.py:124-186 | An accepted receipt adds its row and one receipt line per entry: quantity, what is beyond the order by then, and serials. |
| `OrderHistory.OrdersMoveForward` | backend/src/pos_inventory/domain/purchase_orders/state.py:10-18 | Over any run, through the table and the direct step into receiving, an order moves only strictly forward, and is cancelled only from before receiving. |
| `OrderHistory.EndsAreFinal` | backend/src/pos_inventory/domain/purchase_orders/state.py:10-18 | Closed and cancelled are absorbing. |
| `OrderHistory.ReceivedNeverCancelled` | backend/src/pos_inventory/domain/purchase_orders/receiving.py:113-122 | An order with a posted receipt is receiving or closed, after every run. |
| `OrderHistory.GoodsKeptExactly` | backend/src/pos_inventory/domain/purchase_orders/receiving.py:49-66 | After any run: an accepted receipt keeps received quantities on the lines of receiving or closed orders only, if and only if each entry names a line of its own order or of such an order; the line is looked up without its order. |
| `OrderHistory.GoodsNeverCancelled` | backend/src/pos_inventory/domain/purchase_orders/receiving.py:141-177 | Over every run whose accepted receipts name such lines, a line with goods belongs to a receiving or closed order. |
| `Scenarios.CancelledWithGoods` | backend/src/pos_inventory/domain/purchase_orders/receiving.py:49-66 | A run in which a receipt for one order fills the line of a draft, which is then cancelled with its goods in stock. |
| `OrderHistory.ReceivingAccumulates` | backend/src/pos_inventory/domain/purchase_orders/receiving.py:147-156 | After every run each order line has received the sum of its receipt lines, is backordered by what is missing, and is within its tolerance. |
| `OrderHistory.ClosesExactly` | backend/src/pos_inventory/domain/purchase_orders/receiving.py:255-278 | A receipt closes its order if and only if every line of the order is complete and no entry left the line it names short when it was posted. |
| `OrderHistory.ClosedWhenComplete` | backend/src/pos_inventory/domain/purchase_orders/receiving.py:255-278 | When the entries name lines of the order only, each once, the order is closed exactly when every line is complete. |
| `Scenarios.CompleteButOpen` | backend/src/pos_inventory/domain/purchase_orders/receiving.py:255-278 | A run from an empty database that names a line twice completes its order and leaves it open. |
| `Returns.FindSerial` | backend/src/pos_inventory/domain/returns/service.py:132-136 | A returned serial must exist, belong to the sku and, without a receipt, have a sale in the ledger. |
| `Returns.StockLine` | backend/src/pos_inventory/domain/returns/service.py:161-203 | Scrap takes the serial back and scraps it without a movement; every other disposition posts an inbound movement at cost zero; vendor returns mark the serial. |
| `Returns.ScrapSerial` | backend/src/pos_inventory/domain/returns/service.py:166-170 | A scrapped return is taken back first, so that scrapping it is legal. |
| `Returns.ReturnLines` | backend/src/pos_inventory/domain/returns/service.py:124-203 | The loop over the lines takes all of them, or raises at the first invalid or impossible one, or at the first of an unknown sku. |
| `Returns.PostReturn` | backend/src/pos_inventory/domain/returns/service.py:79-220 | All lines or none, in order. |
| `DocumentCalls.ReturnGoesExactly` | backend/src/pos_inventory/domain/returns/service.py:79-203 | After any run a return is accepted if and only if it has a receipt or a manager, has lines, and each line is valid and names a serial, if any, that exists, is of the sku, was sold if there is no receipt, and is sold if it is scrapped. |
| `Rmas.CreateRma` | backend/src/pos_inventory/domain/rmas/service.py:36-94 | Stores an open RMA whose skus exist, whether or not its serials do, or raises the same error and stores nothing. |
| `Rmas.PostOutbound` | backend/src/pos_inventory/domain/rmas/service.py:119-132 | One outbound movement per line, with no state after, so that a serial keeps its state and location. |
| `Rmas.ShipRma` | backend/src/pos_inventory/domain/rmas/service.py:114-147 | An open RMA posts one outbound movement per line, or changes nothing. |
| `Rmas.CloseLine` | backend/src/pos_inventory/domain/rmas/service.py:155-166 | One line: the stored cost of its serial or the stated cost, times the quantity; a serial is closed. |
| `Rmas.CloseRma` | backend/src/pos_inventory/domain/rmas/service.py:150-187 | The credit is the stored cost of each serial and the stated cost of loose lines, times quantity; the serials are closed. |
| `DocumentCalls.CreateRmaGoesExactly` | backend/src/pos_inventory/domain/rmas/service.py:36-94 | An RMA is stored open if and only if it has lines, each of a positive quantity and a known sku. |
| `DocumentCalls.ShipRmaGoesExactly` | backend/src/pos_inventory/domain/rmas/service.py:114-136 | After any run an RMA ships if and only if it is open, its serials exist, and its location has enough stock and layers. |
| `DocumentCalls.CloseRmaGoesExactly` | backend/src/pos_inventory/domain/rmas/service.py:150-170 | It closes if and only if it was shipped and each named serial is pending and named once; the credit is the sum over its lines of stored cost, or stated cost without a serial, times quantity. |
| `Conservation.SkuConservation` | backend/src/pos_inventory/domain/transfers/service.py:163-217 | After any run the stock of a sku over all locations is received, less the fractions of serialised lines, less the line quantities of the accepted sales, plus returned and not scrapped, less RMA-shipped, plus count adjustments; transfers contribute nothing. |
| `Conservation.RunSells` | backend/src/pos_inventory/api/v1/pos_intake.py:84-106 | The sale rows of the ledger add up to the line quantities of the sales of the run that were accepted, and to nothing else. |
| `Conservation.RunMatches` | backend/src/pos_inventory/domain/returns/service.py:164-203 | The ledger rows of each kind add up to what the documents of that kind say. |
| `Conservation.WholeUnitsExactly` | backend/src/pos_inventory/domain/purchase_orders/receiving.py:158-160 | Nothing received is lost if and only if every serialised receipt line is for whole units. |
| `Scenarios.FractionLost` | backend/src/pos_inventory/domain/purchase_orders/receiving.py:158-227 | A run that orders, receives and records one and a half serialised units, with one unit in stock. |
| `SerialService.SetState` | backend/src/pos_inventory/domain/serials/service.py:43-65 | The three forms of the row update. |
| `SerialService.Transition` | backend/src/pos_inventory/domain/serials/service.py:68-73 | A raw transition follows the table and leaves the location alone. |
| `SerialService.Reserve` | backend/src/pos_inventory/domain/serials/service.py:76-77 | The raw transition into reserved. |
| `SerialService.MarkRmaPending` | backend/src/pos_inventory/domain/serials/service.py:96-97 | The raw transition into rma_pending. |
| `SerialService.Sell` | backend/src/pos_inventory/domain/serials/service.py:80-85 | Sells from sellable or reserved, and clears the location. |
| `SerialService.TakeBack` | backend/src/pos_inventory/domain/serials/service.py:88-93 | Takes back only what is sold, into the target location. |
| `SerialService.MarkRmaClosed` | backend/src/pos_inventory/domain/serials/service.py:100-105 | Closes only what is pending, and clears the location. |
| `SerialService.MarkScrapped` | backend/src/pos_inventory/domain/serials/service.py:108-113 | Scraps where the table allows it, and clears the location. |
| `DocumentCalls.SerialCallGoesExactly` | backend/src/pos_inventory/domain/serials/service.py:19-30 | A lifecycle call is accepted if and only if the serial is in a state it starts from: the table read from the target state. |
| `Serials.NoDoubleSell` | backend/src/pos_inventory/domain/serials/service.py:80-93 | Over any run of calls on a serial, sales minus returns is one while it is sold and zero otherwise. |
| `Serials.TerminalAbsorbs` | backend/src/pos_inventory/domain/serials/service.py:27-29 | No run changes a scrapped or rma_closed serial. |
| `Serials.PlacedKeptExactly` | backend/src/pos_inventory/domain/serials/service.py:68-113 | A call keeps "no location exactly when sold, scrapped or closed" if and only if it is not a raw transition into sold, returned, scrapped or rma_closed. |
| `Serials.RunKeepsPlaced` | backend/src/pos_inventory/domain/serials/service.py:80-113 | So it holds over every run of the named operations. |
| `Cardinality.MoveKeepsExactly` | backend/src/pos_inventory/domain/transfers/service.py:165-193 | Moving one serial keeps stock equal to the number of serials at every location if and only if the serial starts where the document takes it from. |
| `Cardinality.SaleKeepsExactly` | backend/src/pos_inventory/domain/inventory/ledger.py:201-218 | Selling one serial keeps stock equal to the number of serials if and only if the serial was where it is sold from. |
| `Cardinality.ReturnKeepsExactly` | backend/src/pos_inventory/domain/returns/service.py:161-187 | Returning one unit of a serial, whatever the disposition, keeps them equal if and only if the serial was nowhere before; returned from stock it is counted twice. |
| `VendorSerials.ShipBreaksStepExactly` | backend/src/pos_inventory/domain/rmas/service.py:114-136 | From stock equal to the number of serials everywhere, shipping an RMA keeps them equal if and only if it has no line of a serialised sku and names no serial that stands elsewhere: a serial shipped to a vendor leaves the stock and keeps a location, wherever it was. |
| `VendorSerials.ShipAccountsExactly` | backend/src/pos_inventory/domain/rmas/service.py:114-136 | Shipping keeps stock, with what shipped and unclosed RMAs took, equal to the number of serials if and only if every serial it names is at the location it ships from. |
| `VendorSerials.CloseAccountsExactly` | backend/src/pos_inventory/domain/rmas/service.py:150-170 | Closing an RMA of one-unit serial lines keeps that account, and so puts stock and serials back in step, if and only if every serial is still at the location it was shipped from. |
| `SerialRuns.CallAccountsExactly` | backend/src/pos_inventory/domain/serials/service.py:43-113 | A lifecycle call keeps the account if and only if it does not change where a serial of a serialised sku is. |
| `SerialRuns.ApprovalAccountsExactly` | backend/src/pos_inventory/domain/counts/approve.py:36-75 | After any run of the services: an approval keeps the account if and only if the count found no serialised pair to differ; an adjustment moves stock and no serial. |
| `SerialRuns.SerialCardinality` | backend/src/pos_inventory/domain/inventory/ledger.py:146-218 | In every run of every service in which each call finds its serials where its document says: the stock of a serialised sku at a location, with what shipped and unclosed RMAs took from there, is the number of its serials there. |
| `SerialScenarios.SerialReturned` | backend/src/pos_inventory/domain/returns/service.py:172-187 | Such a run exists: a serial is received, sold and returned elsewhere, and is the one unit in stock there. |
| `SerialScenarios.StockReturnCountsTwice` | backend/src/pos_inventory/domain/returns/service.py:124-187 | A run of service calls that returns a serial from stock: one serial row, and one unit at each of two locations. |
| `SerialScenarios.RawSaleKeepsLocation` | backend/src/pos_inventory/domain/serials/service.py:68-73 | A run whose raw transition to sold leaves the serial at its location and its unit in stock. |
| `SerialScenarios.ShippedAwaits` | backend/src/pos_inventory/domain/rmas/service.py:114-136 | A run of service calls that ships a serial to a vendor: it stands where nothing is in stock, and the RMA accounts for the unit. |
| `SerialScenarios.ClosedInStep` | backend/src/pos_inventory/domain/rmas/service.py:150-170 | Closing that RMA: the serial is nowhere, the stock is zero, and the credit is its stored cost. |
| `Customers.Registry.MergeCustomers` | backend/src/pos_inventory/domain/customers/write_service.py:447-530 | The checks in order, the log row, the rewriting of each linked table and the tombstone, or the error and no change. |
| `Customers.Registry.SetState` | backend/src/pos_inventory/domain/customers/write_service.py:333-386 | Overwrites the state of any customer that exists, merged or not. |
| `Customers.Registry.AnonymizeCustomer` | backend/src/pos_inventory/domain/customers/write_service.py:389-434 | Sets the state to anonymized for any customer that exists. |
| `Customers.LifecycleSets` | backend/src/pos_inventory/domain/customers/write_service.py:389-434 | A lifecycle call is accepted for every customer that exists; it sets the state asked for, or anonymized, and nothing else. |
| `Customers.Registry.ResolveCustomerId` | backend/src/pos_inventory/domain/customers/write_service.py:533-548 | The bounded loop is the walk along the pointers. |
| `Customers.ResolvesExactly` | backend/src/pos_inventory/domain/customers/write_service.py:533-548 | On a forest the walk returns the root if and only if it is fewer than max_depth pointers away, and raises otherwise. |
| `Customers.SameRootExactly` | backend/src/pos_inventory/domain/customers/write_service.py:504-520 | Two customers share a root if and only if a path of merges connects them. |
| `Customers.MergeForest` | backend/src/pos_inventory/domain/customers/write_service.py:456-466 | All of this after any run of merges with lifecycle calls on un-merged customers only, and no customer ever reaches itself. |
| `Customers.MergeGoesExactly` | backend/src/pos_inventory/domain/customers/write_service.py:456-500 | On a forest a merge is accepted if and only if its customers differ, exist, and were never merged away. |
| `Customers.RootAfterMerge` | backend/src/pos_inventory/domain/customers/write_service.py:504-520 | A merge sends every customer whose root was merged away to the survivor, and moves no other. |
| `Customers.RowsFollowTheirCustomer` | backend/src/pos_inventory/domain/customers/write_service.py:487-520 | After any such run no linked row is lost, none names a merged-away customer, and each names the root of the customer it was first recorded for. |
| `Customers.MergeKeepsAcyclicExactly` | backend/src/pos_inventory/domain/customers/write_service.py:456-466 | Whatever the state column says: an accepted merge keeps the pointers acyclic if and only if resolving its survivor beforehand does not end at the customer merged away. |
| `Customers.AcyclicExactlyWhenSafe` | backend/src/pos_inventory/domain/customers/write_service.py:456-520 | Over every run of every call the pointers are acyclic if and only if each accepted merge was safe in that sense when it was made. |
| `Customers.LifecycleMovesNothing` | backend/src/pos_inventory/domain/customers/write_service.py:343-356 | A lifecycle call changes the answer of no resolution. |
| `Customers.LifecycleOpensCycleExactly` | backend/src/pos_inventory/domain/customers/write_service.py:343-356 | On a forest, a lifecycle call makes acceptable some merge that closes a cycle if and only if its target was merged away. |
| `Customers.ReactivatedMakesCycle` | backend/src/pos_inventory/domain/customers/write_service.py:459-466 | Giving any merged customer any other state lets its own root be merged into it; after that it never resolves, at any depth. |
| `Customers.CycleRunGoes` | backend/src/pos_inventory/domain/customers/write_service.py:459-466 | The shortest such run: merge, reactivate, merge back. |
| `Consent.Desk.RecordEvent` | backend/src/pos_inventory/domain/consent/service.py:32-70 | Appends the event and overwrites the stored state, or raises on an unknown kind. |
| `Consent.RecordGoesExactly` | backend/src/pos_inventory/domain/consent/service.py:32-70 | An event is recorded if and only if its kind is opt-in, opt-out, withdrawal or unsubscription, and only an opt-in opts in. |
| `Consent.Desk.AssertAllowed` | backend/src/pos_inventory/domain/consent/gate.py:44-52 | Raises exactly when the stored state does not allow the purpose. |
| `Consent.Desk.SendMessage` | backend/src/pos_inventory/domain/messaging/service.py:72-155 | A known client request answers with its message before any check; otherwise template, body, consent and merge fields are checked in order and one message is inserted. |
| `Consent.Desk.RetryMessage` | backend/src/pos_inventory/domain/messaging/service.py:158-197 | Only failed or bounced messages are retried. |
| `Consent.StoredStateIsLastEvent` | backend/src/pos_inventory/domain/consent/service.py:38-69 | After any run the stored state of each subject is the image of its last event, and exists exactly when there is one. |
| `Consent.GateFollowsEvents` | backend/src/pos_inventory/domain/consent/gate.py:44-52 | The gate lets through exactly what the event log consents to. |
| `Consent.EveryMessageConsented` | backend/src/pos_inventory/domain/messaging/service.py:90-129 | Every message ever inserted was inserted by a call that found consent in the log: for marketing, the last event was an opt-in. |
| `Consent.SendGoesExactly` | backend/src/pos_inventory/domain/messaging/service.py:72-129 | After any run a new request inserts one queued message if and only if its template is known, enabled and has a body, or it has a body of its own, there is consent for the template's channel and purpose, or its own, and it renders. |
| `Consent.EveryMessageTold` | backend/src/pos_inventory/domain/messaging/service.py:76-129 | Every message has the channel and purpose its template had when it was inserted, or without one those of its request. |
| `Consent.MarketingTemplateConsented` | backend/src/pos_inventory/domain/messaging/service.py:83-90 | Every message from a marketing template was inserted while the last event about its customer, the template's channel and marketing was an opt-in. |
| `Consent.OneMessagePerRequest` | backend/src/pos_inventory/domain/messaging/service.py:73-74 | Over any run each client request inserts at most one message. |
| `Consent.ResendAnswersTheSame` | backend/src/pos_inventory/domain/messaging/service.py:73-74 | Sending a request again after any calls, an opt-out included, answers with its first message and changes nothing. |
| `Consent.RetryConsentedExactly` | backend/src/pos_inventory/domain/messaging/service.py:158-197 | A retry at one call of a message inserted at an earlier one is made with consent if and only if the last event about its subject between the two is an opt-in, or there is none. |
| `Consent.RetryAfterWithdrawal` | backend/src/pos_inventory/domain/messaging/service.py:158-197 | A run in which a message fails, consent is withdrawn, and the message is queued again. |

## Left out

- Tenancy, row-level security, roles, HTTP routing, audit and outbox rows, background workers and provider adapters: one tenant, and no state the proved properties read.
- Lot identifiers, actor and cashier identifiers, refund amounts and methods, and the serial's received_at: stored and never read by the modelled logic.
- Foreign keys to locations, vendors and customers, PO number uniqueness, and the in-transit location's own creation: locations and customers are identifiers, and the in-transit location is a constant of the configuration.
- Variance value at current layer cost: one multiplication by a looked-up cost, and its query names a column that does not exist.
- Value over loose transfers and returns: their inbound legs post at cost 0, so no value conservation across locations is claimed; the drift bound is per pair.
- Purchasing.Transition: does not model the role gate of the transition check, because roles are left out throughout.
- Which error a refused call raises: stated by the contract of each service method; the results on when a call is accepted say only that it is refused.
- Counts.ComputeVariance: does not compute the value of a variance, which no adjustment uses.
- Customers.Registry.AnonymizeCustomer: does not clear the personal fields, because no modelled check reads them.
- Quantities of transfers, snapshots and count entries are stored with four decimals; the model keeps them in thousandths, the scale of the movements they lead to.
- SerialRuns.SerialCardinality: asks that each call find its serials where its document says; for RMAs, lifecycle calls, approvals and single returns that condition is exact, for a whole transfer or return document it is sufficient. The sale of a serial is a movement given to the ledger writer directly, because no service posts one.
- VendorSerials.CloseAccountsExactly: asks that a line of a serialised sku name one serial of that sku for one unit, which `create_rma` does not check.
- Approvals.ApprovedOnceExactly: reads the sums of one snapshot row at one instant and posts in one step, as the row locks held to commit allow; the times of the approvals are not before the opening of the session.
- Consent.Desk.SendMessage: whether a template renders with the given fields is a flag of the request, and the rendered text is left out, because no check after it reads the text.
- Transit.InTransitExact: asks that no other call name the in-transit location, which a count of a whole site may do; `Transit.ReceiveGoesExactly` needs no such condition.
- Locking.LocksSerialize: interleaves movements (lock or insert, then write) and not the reads of the document services before them; transactions that wait for each other's locks stay waiting, so it says nothing of deadlock detection.
- OfflineSales.LeftTheQueueAppliedOnce: one client intake id names one envelope for good; the register sends one envelope per request, with the 409 already_processed reply the conflict class defines; the heartbeat and the online flag only decide when a drain starts, which any moment may.
- Customers.RowsFollowTheirCustomer: new transaction rows name customers that were not merged away; the code that would write them is not part of this model.
- Layer, serial and intake identifiers drawn by uuid4: a layer's identifier is any number, drawn in advance; documents are named by their index in their table.
- Sizes of the decimal columns and the 28-digit decimal context: integers are unbounded.
- bulk_assert_sellable, count assignments, template rendering, address, profile and search functions: single reads or single-row updates.
- The screens, the seed and integrity scripts and the migrations: only the unique indexes, the row locks and the rollback rule are modelled.
