/** Short runs from an empty database, one for each thing the services do not keep. Those of single
    serials are in SerialScenarios. */
module Scenarios {
  import opened Tables
  import opened Ledger
  import opened Database
  import opened Runs
  import Approvals
  import Counts
  import Fifo
  import Intake
  import OfflineSales
  import OrderHistory
  import Purchasing
  import Reconciliation
  import Sums
  import Transfers
  import Transit

  // ---------- one call more ----------

  lemma SnocStep(start: Db, actions: seq<Action>, a: Action, mid: Db)
    requires Run(start, actions) == mid
    ensures Run(start, actions + [a]) == Step(mid, a)
  {
    RunSnoc(start, actions, a);
  }

  lemma TwoMore(start: Db, actions: seq<Action>, a: Action, b: Action, db0: Db, db1: Db, db2: Db)
    requires Run(start, actions) == db0 && Step(db0, a) == db1 && Step(db1, b) == db2
    ensures Run(start, actions + [a] + [b]) == db2
  {
    SnocStep(start, actions, a, db0);
    SnocStep(start, actions + [a], b, db1);
  }

  // ---------- an approved order, and stock ----------

  /** One sku, number 0; location 9 is in transit; nothing may be over-received. */
  function Begin(tracking: Tracking): Db {
    EmptyDb(Config(map[0 := SkuRow(tracking, None)], 9, 0), [])
  }

  /** One order of one line, up to its approval. */
  function OrderRun(qty: int): seq<Action> {
    [CreatePo([Purchasing.PoLineInput(0, qty, 5)])] + [MovePo(0, Submitted)] + [MovePo(0, Approved)]
  }

  function Ordered(tracking: Tracking, qty: int): Db {
    var db := Begin(tracking);
    db.(docs := db.docs.(orders := [Approved], poLines := [PoLine(0, 0, qty, 0, qty, 5)]))
  }

  lemma OrderGoes(tracking: Tracking, qty: int)
    requires qty > 0
    ensures Run(Begin(tracking), OrderRun(qty)) == Ordered(tracking, qty)
  {
    var create := CreatePo([Purchasing.PoLineInput(0, qty, 5)]);
    RunSnoc(Begin(tracking), [], create);
    assert [] + [create] == [create];
    CreateGoes(tracking, qty);
    RunSnoc(Begin(tracking), [create], MovePo(0, Submitted));
    RunSnoc(Begin(tracking), [create] + [MovePo(0, Submitted)], MovePo(0, Approved));
  }

  lemma CreateGoes(tracking: Tracking, qty: int)
    requires qty > 0
    ensures Step(Begin(tracking), CreatePo([Purchasing.PoLineInput(0, qty, 5)]))
         == Ordered(tracking, qty).(docs := Ordered(tracking, qty).docs.(orders := [Draft]))
  {
    assert Purchasing.NewLines(0, [Purchasing.PoLineInput(0, qty, 5)]) == [PoLine(0, 0, qty, 0, qty, 5)];
  }

  /** Delivery of the entries to location 1 on day 0. */
  function Delivery(entries: seq<Purchasing.ReceiptInput>): Action {
    PostReceipt(0, 1, 0, entries)
  }

  /** The movement of one loose entry. */
  function Inward(qty: int): Movement {
    Loose(Key(0, 1), qty, PoReceipt, 0, Some(5), 0)
  }

  function Entry(qty: int): Purchasing.ReceiptInput {
    Purchasing.ReceiptInput(0, qty, [], "")
  }

  function Stock(qty: nat): Inventory {
    Inventory(map[Key(0, 1) := Balance(qty, 0)], map[Key(0, 1) := [Layer(0, 0, qty, 5)]], map[],
              [Row(0, Key(0, 1), qty, 5, PoReceipt, 0, None, None)], [])
  }

  /** The documents once the whole order was received in one entry. */
  function StockDocs(qty: int): Docs {
    Ordered(NonSerialized, qty).docs.(
      orders := [Closed], poLines := [PoLine(0, 0, qty, qty, 0, 5)], receipts := [Receipt(0, 1, 0)],
      receiptLines := [ReceiptLine(0, 0, 0, qty, 0, [])])
  }

  function StockRun(qty: int): seq<Action> {
    OrderRun(qty) + [Delivery([Entry(qty)])]
  }

  lemma StockPosts(qty: nat)
    requires qty > 0
    ensures ExecAll(Begin(NonSerialized).inv, [Move(Inward(qty))]) == Ok(Stock(qty))
  {
    var inv, m := Begin(NonSerialized).inv, Inward(qty);
    assert [Move(m)] == [Move(m)] + [];
    HeadMoved(inv, m, []);
    assert Fifo.Insert([], Layer(0, 0, qty, 5)) == [Layer(0, 0, qty, 5)];
    assert Resolve(inv.layers, inv.serials, m, 0).value.layers == Stock(qty).layers;
    var posted := Post(inv, m, 0).value;
    assert posted.balances == Stock(qty).balances && posted.ledger == Stock(qty).ledger;
  }

  lemma StockPlan(qty: nat)
    requires qty > 0
    ensures Purchasing.PlanReceipt(Ordered(NonSerialized, qty).docs, 0, 1, 0, [Entry(qty)])
         == Ok(Plan([Move(Inward(qty))], StockDocs(qty)))
  {
    var begun := Purchasing.OpenReceipt(Ordered(NonSerialized, qty).docs, 0, 1, 0);
    var d := Purchasing.Delivery(0, 1, 0);
    var after := Purchasing.AfterLine(begun, d, Entry(qty));
    assert Purchasing.ReceiptError(begun, Entry(qty)).None?;
    assert [Entry(qty)][1..] == [];
    assert Purchasing.ReceiveLines(after, d, []) == Purchasing.Delivered([], after, true);
    assert Purchasing.LineOps(begun, d, Entry(qty)) + [] == [Move(Inward(qty))];
    var r := Purchasing.ReceiveLines(begun, d, [Entry(qty)]);
    assert r == Purchasing.Delivered([Move(Inward(qty))], after, true);
    assert after.poLines == [PoLine(0, 0, qty, qty, 0, 5)];
    assert Purchasing.CloseIfComplete(r, 0) == StockDocs(qty);
  }

  lemma StockGoes(qty: nat)
    requires qty > 0
    ensures Run(Begin(NonSerialized), StockRun(qty)) == Db(Stock(qty), StockDocs(qty))
  {
    OrderGoes(NonSerialized, qty);
    RunSnoc(Begin(NonSerialized), OrderRun(qty), Delivery([Entry(qty)]));
    StockPlan(qty);
    StockPosts(qty);
  }

  // ---------- a sale of one unit ----------

  function OneSold(id: IntakeId, at: int): Intake.Envelope {
    Intake.Envelope(id, 1, at, [Intake.SaleLine(0, UNIT)])
  }

  function StockLess(qty: nat, id: IntakeId, at: int, doc: DocId): Inventory
    requires qty >= UNIT
  {
    Inventory(map[Key(0, 1) := Balance(qty - UNIT, 0)], map[Key(0, 1) := [Layer(0, 0, qty - UNIT, 5)]], map[],
              Stock(qty).ledger + [Row(at, Key(0, 1), -UNIT, 5, Sale, doc, None, Some(id))], [])
  }

  lemma OneConsumed(qty: nat)
    requires qty >= UNIT
    ensures Fifo.Consume([Layer(0, 0, qty, 5)], UNIT) == Fifo.Taken([Layer(0, 0, qty - UNIT, 5)], 0, UNIT * 5)
    ensures Fifo.RoundHalfEven(UNIT * 5, UNIT) == 5
  {
    var l := Layer(0, 0, qty, 5);
    assert [l][1..] == [];
    assert Fifo.Consume([], 0) == Fifo.Taken([], 0, 0);
    assert [l.(qty := qty - UNIT)] + [] == [l.(qty := qty - UNIT)];
  }

  lemma SalePosts(qty: nat, id: IntakeId, at: int, doc: DocId)
    requires qty >= UNIT
    ensures ExecAll(Stock(qty), Intake.SaleOps(OneSold(id, at), doc)) == Ok(StockLess(qty, id, at, doc))
  {
    var inv, env := Stock(qty), OneSold(id, at);
    var m := Intake.SaleMovement(env, doc, 0);
    assert Intake.SaleOps(env, doc) == Intake.LineOps(env, doc, 0) + Intake.SaleOpsFrom(env, doc, 1);
    assert Intake.LineOps(env, doc, 0) + [] == Intake.LineOps(env, doc, 0);
    Intake.LineExec(inv, env, doc, 0);
    OneConsumed(qty);
    assert !UsesIntake(inv.ledger, id);
    var posted := Post(inv, m, 0).value;
    assert posted.balances == StockLess(qty, id, at, doc).balances;
    assert posted.layers == StockLess(qty, id, at, doc).layers;
  }

  lemma SaleGoes(qty: nat, docs: Docs, id: IntakeId, at: int, doc: DocId)
    requires qty >= UNIT && docs.config == Begin(NonSerialized).docs.config
    ensures Step(Db(Stock(qty), docs), PostSale(OneSold(id, at), doc)) == Db(StockLess(qty, id, at, doc), docs)
  {
    SalePosts(qty, id, at, doc);
    assert Intake.Refusal(docs.config, [Intake.SaleLine(0, UNIT)]).None?;
  }

  // ---------- a count that does not end at its count ----------

  /** Ten units; a count is opened on day 10; a sale made offline on day 5 arrives; nine units are
      counted. */
  function LateRun(): seq<Action> {
    StockRun(10 * UNIT) + [OpenCount(Counts.Scope({1}, None), [Key(0, 1)], 10)] + [PostSale(OneSold(1, 5), 0)]
    + [SubmitCount(0, [CountEntry(Key(0, 1), 9 * UNIT)])]
  }

  function LateCount(): CountSession {
    CountSession(CountSubmitted, 10, 1, [Snapshot(Key(0, 1), 10 * UNIT)], [CountEntry(Key(0, 1), 9 * UNIT)])
  }

  /** Opening a count of the one pair stocked at a location. */
  lemma CountOpens(inv: Inventory, docs: Docs, k: Key, at: int)
    requires k in inv.balances && forall other :: other in inv.balances && other.loc == k.loc ==> other == k
    ensures Step(Db(inv, docs), OpenCount(Counts.Scope({k.loc}, None), [k], at))
         == Db(inv, docs.(counts := docs.counts
                          + [CountSession(CountOpen, at, |inv.ledger|, [Snapshot(k, OnHand(inv, k))], [])]))
  {
    assert [k][0] == k && k in [k];
    assert Counts.IsScopeResult(inv.balances, Counts.Scope({k.loc}, None), [k]);
    assert Counts.Snapshots(inv, [k]) == [Snapshot(k, OnHand(inv, k))];
  }

  lemma LateCountOpens()
    ensures var docs := StockDocs(10 * UNIT);
            Step(Db(Stock(10 * UNIT), docs), OpenCount(Counts.Scope({1}, None), [Key(0, 1)], 10))
              == Db(Stock(10 * UNIT), docs.(counts := [LateCount().(state := CountOpen, entries := [])]))
  {
    CountOpens(Stock(10 * UNIT), StockDocs(10 * UNIT), Key(0, 1), 10);
  }

  lemma LateRunGoes()
    ensures Run(Begin(NonSerialized), LateRun())
         == Db(StockLess(10 * UNIT, 1, 5, 0), StockDocs(10 * UNIT).(counts := [LateCount()]))
  {
    var start, docs := Begin(NonSerialized), StockDocs(10 * UNIT);
    var open, sale := OpenCount(Counts.Scope({1}, None), [Key(0, 1)], 10), PostSale(OneSold(1, 5), 0);
    var begun := docs.(counts := [LateCount().(state := CountOpen, entries := [])]);
    StockGoes(10 * UNIT);
    LateCountOpens();
    RunSnoc(start, StockRun(10 * UNIT), open);
    SaleGoes(10 * UNIT, begun, 1, 5, 0);
    RunSnoc(start, StockRun(10 * UNIT) + [open], sale);
    LateCountSubmits(StockLess(10 * UNIT, 1, 5, 0), begun);
    RunSnoc(start, StockRun(10 * UNIT) + [open] + [sale], SubmitCount(0, [CountEntry(Key(0, 1), 9 * UNIT)]));
  }

  lemma LateCountSubmits(inv: Inventory, docs: Docs)
    requires docs == StockDocs(10 * UNIT).(counts := [LateCount().(state := CountOpen, entries := [])])
    ensures Step(Db(inv, docs), SubmitCount(0, [CountEntry(Key(0, 1), 9 * UNIT)]))
         == Db(inv, StockDocs(10 * UNIT).(counts := [LateCount()]))
  {
    assert Counts.EntriesError(docs.config, [CountEntry(Key(0, 1), 9 * UNIT)]).None?;
    assert [] + [CountEntry(Key(0, 1), 9 * UNIT)] == [CountEntry(Key(0, 1), 9 * UNIT)];
  }

  lemma TotalOne(f: Measure, a: Row)
    ensures Total(f, [a]) == Weight(f, a)
  {
    assert [a][..0] == [];
  }

  lemma TotalTwo(f: Measure, a: Row, b: Row)
    ensures Total(f, [a] + [b]) == Weight(f, a) + Weight(f, b)
  {
    TotalAppend(f, [a], b);
    TotalOne(f, a);
  }

  lemma LateTotals()
    ensures var ledger := StockLess(10 * UNIT, 1, 5, 0).ledger;
            && Total(QtyDatedFrom(Key(0, 1), 10), ledger) == 0
            && Total(QtyDatedBefore(Key(0, 1), 10), ledger[1..]) == -UNIT
            && Total(QtyDatedFrom(Key(0, 1), 10), ledger[..1]) == 0
  {
    var received := Row(0, Key(0, 1), 10 * UNIT, 5, PoReceipt, 0, None, None);
    var sold := Row(5, Key(0, 1), -UNIT, 5, Sale, 0, None, Some(1));
    TotalTwo(QtyDatedFrom(Key(0, 1), 10), received, sold);
    TotalOne(QtyDatedFrom(Key(0, 1), 10), received);
    TotalOne(QtyDatedBefore(Key(0, 1), 10), sold);
    assert ([received] + [sold])[1..] == [sold] && ([received] + [sold])[..1] == [received];
  }

  function LateDb(): Db {
    Db(StockLess(10 * UNIT, 1, 5, 0), StockDocs(10 * UNIT).(counts := [LateCount()]))
  }

  lemma LateVariance()
    ensures Counts.Counted(LateCount().entries, Key(0, 1)) == 9 * UNIT
    ensures Counts.Variance(LateDb().inv.ledger, LateCount(), LateCount().snapshots[0]) == -UNIT
    ensures Reconciliation.Absorbs(LateDb().inv, Key(0, 1), -UNIT)
  {
    LateTotals();
    assert [CountEntry(Key(0, 1), 9 * UNIT)][1..] == [];
    assert [Layer(0, 0, 9 * UNIT, 5)][1..] == [];
    assert Fifo.Quantity([Layer(0, 0, 9 * UNIT, 5)]) == 9 * UNIT;
  }

  /** The approval takes the sale off a second time: eight units are left where nine were counted. */
  lemma LateSaleShiftsCount()
    ensures var db := Run(Begin(NonSerialized), LateRun());
            && Accepted(db, ApproveCount(0, 20)) && db.docs.counts == [LateCount()]
            && Counts.Counted(LateCount().entries, Key(0, 1)) == 9 * UNIT
            && OnHand(Step(db, ApproveCount(0, 20)).inv, Key(0, 1)) == 8 * UNIT
  {
    LateRunGoes();
    assert LateDb() == Run(EmptyDb(Begin(NonSerialized).docs.config, []), LateRun());
    assert Reachable(LateDb());
    LateVariance();
    LateTotals();
    Reconciliation.ApprovalGoesExactly(LateDb(), 0, 20);
    Reconciliation.CountReconciles(LateDb(), 0, 20, 0);
  }

  // ---------- a count approved twice at once ----------

  lemma LateTwice(db: Db, first: int, second: int)
    requires first >= 10 && second >= 10 && Reachable(db) && db == LateDb()
    ensures OnHand(Approvals.Run(Approvals.Start(db, 0, [first, second]), Approvals.Overlap(1, 0)).db.inv, Key(0, 1))
         == OnHand(db.inv, Key(0, 1)) - 2 * UNIT
  {
    LateVariance();
    LateDoubles(db);
    Approvals.PostedTwice(db, 0, [first, second]);
  }

  /** Ten units were there, a sale took one off, and nine are counted: two approvals of the late count
      that overlap take the sale off twice more. Seven units are left. */
  lemma ApprovedTwice(first: int, second: int)
    requires first >= 10 && second >= 10
    ensures Run(Begin(NonSerialized), LateRun()) == LateDb() && OnHand(LateDb().inv, Key(0, 1)) == 9 * UNIT
    ensures OnHand(Approvals.Run(Approvals.Start(LateDb(), 0, [first, second]), Approvals.Overlap(1, 0)).db.inv,
                   Key(0, 1))
         == 7 * UNIT
  {
    LateRunGoes();
    RunReachable(NonSerialized, LateRun());
    LateTwice(LateDb(), first, second);
  }

  lemma LateDoubles(db: Db)
    requires db == LateDb() && Counts.Variance(db.inv.ledger, LateCount(), LateCount().snapshots[0]) == -UNIT
    ensures Approvals.CanDouble(db, 0) && |Approvals.Differences(db, 0)| == 1
    ensures Approvals.FirstOff(Approvals.Differences(db, 0)) == 0
    ensures Approvals.Differences(db, 0)[0].key == Key(0, 1) && Approvals.Differences(db, 0)[0].varianceQty == -UNIT
  {
    var rows := Approvals.Differences(db, 0);
    assert [Snapshot(Key(0, 1), 10 * UNIT)][1..] == [];
    Reconciliation.ReportRows(db.inv.ledger, LateCount(), LateCount().snapshots);
    NineLayered();
    assert Reconciliation.AllAbsorb(db.inv, rows[1..]);
  }

  lemma NineLayered()
    ensures Fifo.Quantity([Layer(0, 0, 9 * UNIT, 5)]) == 9 * UNIT
  {
    assert [Layer(0, 0, 9 * UNIT, 5)][1..] == [];
  }

  // ---------- a batch that loses an accepted envelope ----------

  /** Envelope 1 was accepted earlier. A request with envelope 2 and envelope 1 again is answered
      "accepted" and "already processed", and leaves nothing of envelope 2. */
  lemma BatchLosesAccepted()
    ensures var db := Run(Begin(NonSerialized), StockRun(10 * UNIT) + [PostSale(OneSold(1, 5), 0)]);
            && Intake.Batch(db.docs.config, db.inv, db.inv, [OneSold(2, 6), OneSold(1, 5)], [1, 2], false)
                 == Ok((db.inv, [Intake.Accepted, Intake.AlreadyProcessed]))
            && !UsesIntake(db.inv.ledger, 2)
  {
    StockGoes(10 * UNIT);
    RunSnoc(Begin(NonSerialized), StockRun(10 * UNIT), PostSale(OneSold(1, 5), 0));
    SaleGoes(10 * UNIT, StockDocs(10 * UNIT), 1, 5, 0);
    SecondSale();
    var config, inv := Begin(NonSerialized).docs.config, StockLess(10 * UNIT, 1, 5, 0);
    DuplicateLast(config, inv, ExecAll(inv, Intake.SaleOps(OneSold(2, 6), 1)).value);
    assert [OneSold(2, 6), OneSold(1, 5)][1..] == [OneSold(1, 5)] && [1, 2][1..] == [2];
    assert [Intake.Accepted] + [Intake.AlreadyProcessed] == [Intake.Accepted, Intake.AlreadyProcessed];
  }

  lemma SecondSale()
    ensures var inv := StockLess(10 * UNIT, 1, 5, 0);
            var next := ExecAll(inv, Intake.SaleOps(OneSold(2, 6), 1));
            && next.Ok? && !UsesIntake(inv.ledger, 2)
            && ExecAll(next.value, Intake.SaleOps(OneSold(1, 5), 2)) == Raise(IntegrityError)
  {
    var inv, env := StockLess(10 * UNIT, 1, 5, 0), OneSold(2, 6);
    assert Intake.SaleOps(env, 1) == Intake.LineOps(env, 1, 0);
    Intake.LineExec(inv, env, 1, 0);
    OneConsumed(9 * UNIT);
    var next := Post(inv, Intake.SaleMovement(env, 1, 0), 0).value;
    assert next.ledger[1].intake == Some(1);
    assert next.layers[Key(0, 1)] == [Layer(0, 0, 8 * UNIT, 5)];
    assert [Layer(0, 0, 8 * UNIT, 5)][1..] == [];
    assert Fifo.Quantity([Layer(0, 0, 8 * UNIT, 5)]) == 8 * UNIT;
    assert Intake.SaleOps(OneSold(1, 5), 2) == Intake.LineOps(OneSold(1, 5), 2, 0);
    OfflineSales.FirstLineAgain(next, OneSold(1, 5), 2);
  }

  lemma DuplicateLast(config: Config, start: Inventory, now: Inventory)
    requires config == Begin(NonSerialized).docs.config
    requires ExecAll(now, Intake.SaleOps(OneSold(1, 5), 2)) == Raise(IntegrityError)
    ensures Intake.Batch(config, start, now, [OneSold(1, 5)], [2], false) == Ok((start, [Intake.AlreadyProcessed]))
  {
    assert [OneSold(1, 5)][1..] == [] && [2][1..] == [];
    assert Intake.Batch(config, start, start, [], [], false) == Ok((start, []));
    assert [Intake.AlreadyProcessed] + [] == [Intake.AlreadyProcessed];
  }

  // ---------- a receipt that names a line twice ----------

  function TwiceDocs(): Docs {
    Ordered(NonSerialized, 2 * UNIT).docs.(
      orders := [Receiving], poLines := [PoLine(0, 0, 2 * UNIT, 2 * UNIT, 0, 5)], receipts := [Receipt(0, 1, 0)],
      receiptLines := [ReceiptLine(0, 0, 0, UNIT, 0, []), ReceiptLine(0, 0, 0, UNIT, 0, [])])
  }

  lemma TwicePlan()
    ensures Purchasing.PlanReceipt(Ordered(NonSerialized, 2 * UNIT).docs, 0, 1, 0, [Entry(UNIT), Entry(UNIT)])
         == Ok(Plan([Move(Inward(UNIT)), Move(Inward(UNIT))], TwiceDocs()))
  {
    var begun, d := Purchasing.OpenReceipt(Ordered(NonSerialized, 2 * UNIT).docs, 0, 1, 0),
        Purchasing.Delivery(0, 1, 0);
    var first := Purchasing.AfterLine(begun, d, Entry(UNIT));
    assert Purchasing.ReceiptError(begun, Entry(UNIT)).None?;
    assert first.poLines == [PoLine(0, 0, 2 * UNIT, UNIT, UNIT, 5)];
    assert Purchasing.ReceiptError(first, Entry(UNIT)).None?;
    assert [Entry(UNIT), Entry(UNIT)][1..] == [Entry(UNIT)] && [Entry(UNIT)][1..] == [];
    var second := Purchasing.AfterLine(first, d, Entry(UNIT));
    assert Purchasing.ReceiveLines(second, d, []) == Purchasing.Delivered([], second, true);
    assert Purchasing.LineOps(first, d, Entry(UNIT)) + [] == [Move(Inward(UNIT))];
    var tail := Purchasing.ReceiveLines(first, d, [Entry(UNIT)]);
    assert tail == Purchasing.Delivered([Move(Inward(UNIT))], second, true);
    assert second == TwiceDocs();
    var r := Purchasing.ReceiveLines(begun, d, [Entry(UNIT), Entry(UNIT)]);
    assert r.ops == [Move(Inward(UNIT))] + tail.ops && !r.allComplete && r.docs == second;
    assert r.ops == [Move(Inward(UNIT)), Move(Inward(UNIT))];
    assert Purchasing.CloseIfComplete(r, 0) == TwiceDocs();
    assert Purchasing.Receivable(Approved);
  }

  lemma TwicePosts()
    ensures ExecAll(Begin(NonSerialized).inv, [Move(Inward(UNIT)), Move(Inward(UNIT))]).Ok?
  {
    var inv, m := Begin(NonSerialized).inv, Inward(UNIT);
    assert [Move(m), Move(m)] == [Move(m)] + [Move(m)] && [Move(m)] == [Move(m)] + [];
    HeadMoved(inv, m, [Move(m)]);
    HeadMoved(Post(inv, m, 0).value, m, []);
  }

  /** Two entries for the same line complete the order and leave it open. */
  lemma CompleteButOpen()
    ensures var docs := Run(Begin(NonSerialized), OrderRun(2 * UNIT) + [Delivery([Entry(UNIT), Entry(UNIT)])]).docs;
            docs.orders == [Receiving] && OrderHistory.Complete(docs, 0)
  {
    OrderGoes(NonSerialized, 2 * UNIT);
    RunSnoc(Begin(NonSerialized), OrderRun(2 * UNIT), Delivery([Entry(UNIT), Entry(UNIT)]));
    TwicePlan();
    TwicePosts();
  }

  // ---------- goods on a line of a cancelled order ----------

  /** A receipt for order 0 names the line of order 1, which is a draft and is then cancelled. */
  function StrayRun(): seq<Action> {
    OrderRun(UNIT) + [CreatePo([Purchasing.PoLineInput(0, UNIT, 5)])] + [Delivery([StrayEntry()])]
    + [MovePo(1, Cancelled)]
  }

  function StrayEntry(): Purchasing.ReceiptInput {
    Purchasing.ReceiptInput(1, UNIT, [], "")
  }

  function TwoOrders(): Docs {
    Ordered(NonSerialized, UNIT).docs.(
      orders := [Approved, Draft], poLines := [PoLine(0, 0, UNIT, 0, UNIT, 5), PoLine(1, 0, UNIT, 0, UNIT, 5)])
  }

  function StrayDocs(): Docs {
    TwoOrders().(
      orders := [Receiving, Draft], poLines := [PoLine(0, 0, UNIT, 0, UNIT, 5), PoLine(1, 0, UNIT, UNIT, 0, 5)],
      receipts := [Receipt(0, 1, 0)], receiptLines := [ReceiptLine(0, 1, 0, UNIT, 0, [])])
  }

  lemma SecondOrder()
    ensures Step(Ordered(NonSerialized, UNIT), CreatePo([Purchasing.PoLineInput(0, UNIT, 5)]))
         == Ordered(NonSerialized, UNIT).(docs := TwoOrders())
  {
    assert Purchasing.NewLines(1, [Purchasing.PoLineInput(0, UNIT, 5)]) == [PoLine(1, 0, UNIT, 0, UNIT, 5)];
  }

  lemma StrayPlan()
    ensures Purchasing.PlanReceipt(TwoOrders(), 0, 1, 0, [StrayEntry()]) == Ok(Plan([Move(Inward(UNIT))], StrayDocs()))
  {
    var begun, d := Purchasing.OpenReceipt(TwoOrders(), 0, 1, 0), Purchasing.Delivery(0, 1, 0);
    var after := Purchasing.AfterLine(begun, d, StrayEntry());
    assert Purchasing.ReceiptError(begun, StrayEntry()).None?;
    assert [StrayEntry()][1..] == [];
    assert Purchasing.ReceiveLines(after, d, []) == Purchasing.Delivered([], after, true);
    assert Purchasing.LineOps(begun, d, StrayEntry()) + [] == [Move(Inward(UNIT))];
    assert after == StrayDocs();
    var r := Purchasing.ReceiveLines(begun, d, [StrayEntry()]);
    assert r == Purchasing.Delivered([Move(Inward(UNIT))], after, true);
    assert after.poLines[0].backordered == UNIT;
    assert Purchasing.CloseIfComplete(r, 0) == StrayDocs();
  }

  lemma StrayReceived()
    ensures Step(Ordered(NonSerialized, UNIT).(docs := TwoOrders()), Delivery([StrayEntry()]))
         == Db(Stock(UNIT), StrayDocs())
  {
    StrayPlan();
    StockPosts(UNIT);
  }

  lemma StrayCancelled()
    ensures Step(Db(Stock(UNIT), StrayDocs()), MovePo(1, Cancelled))
         == Db(Stock(UNIT), StrayDocs().(orders := [Receiving, Cancelled]))
  {
  }

  /** The cancelled order's line is received in full, and the goods are in stock. */
  lemma CancelledWithGoods()
    ensures var db := Run(Begin(NonSerialized), StrayRun());
            && db.docs.orders == [Receiving, Cancelled]
            && db.docs.poLines == [PoLine(0, 0, UNIT, 0, UNIT, 5), PoLine(1, 0, UNIT, UNIT, 0, 5)]
            && OnHand(db.inv, Key(0, 1)) == UNIT
  {
    var start, create := Begin(NonSerialized), CreatePo([Purchasing.PoLineInput(0, UNIT, 5)]);
    var both, stray := Ordered(NonSerialized, UNIT).(docs := TwoOrders()), Db(Stock(UNIT), StrayDocs());
    OrderGoes(NonSerialized, UNIT);
    SecondOrder();
    SnocStep(start, OrderRun(UNIT), create, Ordered(NonSerialized, UNIT));
    StrayReceived();
    StrayCancelled();
    TwoMore(start, OrderRun(UNIT) + [create], Delivery([StrayEntry()]), MovePo(1, Cancelled), both, stray,
            Db(Stock(UNIT), StrayDocs().(orders := [Receiving, Cancelled])));
  }

  // ---------- a serialised receipt ----------

  /** An entry for serial 7, which need not be for a whole unit. */
  function SerialEntry(qty: int): Purchasing.ReceiptInput {
    Purchasing.ReceiptInput(0, qty, [7], "")
  }

  function SerialStock(): Inventory {
    Inventory(map[Key(0, 1) := Balance(UNIT, 0)], map[], map[7 := Serial(0, Sellable, Some(1), 5)],
              [Row(0, Key(0, 1), UNIT, 5, PoReceipt, 0, Some(7), None)], [])
  }

  function SerialDocs(qty: int): Docs {
    Ordered(Serialized, qty).docs.(
      orders := [Closed], poLines := [PoLine(0, 0, qty, qty, 0, 5)], receipts := [Receipt(0, 1, 0)],
      receiptLines := [ReceiptLine(0, 0, 0, qty, 0, [7])])
  }

  function SerialOps(): seq<Op> {
    [AssertUnknown([7])] + Purchasing.NewSerialOps(Purchasing.Delivery(0, 1, 0), 0, 5, [7])
  }

  lemma SerialPosts()
    ensures ExecAll(Begin(Serialized).inv, SerialOps()) == Ok(SerialStock())
  {
    var inv, d := Begin(Serialized).inv, Purchasing.Delivery(0, 1, 0);
    HeadOp(inv, AssertUnknown([7]), Purchasing.NewSerialOps(d, 0, 5, [7]));
    var row := Serial(0, Received, Some(1), 5);
    var m := OfSerial(Key(0, 1), UNIT, PoReceipt, 0, 7, Some(5), 0, Some(Sellable));
    assert [7][1..] == [];
    assert Purchasing.NewSerialOps(d, 0, 5, []) == [];
    assert Purchasing.NewSerialOps(d, 0, 5, [7]) == [NewSerial(7, row), Move(m)] + [];
    Purchasing.SerialHead(inv, 7, row, m, []);
    var mid := inv.(serials := inv.serials[7 := row]);
    var posted := Post(mid, m, 0).value;
    assert posted.serials == SerialStock().serials && posted.balances == SerialStock().balances;
    assert posted.ledger == SerialStock().ledger;
  }

  lemma SerialPlan(qty: int)
    requires UNIT <= qty < 2 * UNIT
    ensures Purchasing.PlanReceipt(Ordered(Serialized, qty).docs, 0, 1, 0, [SerialEntry(qty)])
        == Ok(Plan(SerialOps(), SerialDocs(qty)))
  {
    var begun, d := Purchasing.OpenReceipt(Ordered(Serialized, qty).docs, 0, 1, 0), Purchasing.Delivery(0, 1, 0);
    var after := Purchasing.AfterLine(begun, d, SerialEntry(qty));
    assert Purchasing.ReceiptError(begun, SerialEntry(qty)).None?;
    assert [SerialEntry(qty)][1..] == [];
    assert Purchasing.ReceiveLines(after, d, []) == Purchasing.Delivered([], after, true);
    assert Purchasing.LineOps(begun, d, SerialEntry(qty)) + [] == SerialOps();
    var r := Purchasing.ReceiveLines(begun, d, [SerialEntry(qty)]);
    assert after.poLines == [PoLine(0, 0, qty, qty, 0, 5)];
    assert Purchasing.CloseIfComplete(r, 0) == SerialDocs(qty);
  }

  lemma SerialGoes(qty: int)
    requires UNIT <= qty < 2 * UNIT
    ensures Run(Begin(Serialized), OrderRun(qty) + [Delivery([SerialEntry(qty)])]) == Db(SerialStock(), SerialDocs(qty))
  {
    OrderGoes(Serialized, qty);
    RunSnoc(Begin(Serialized), OrderRun(qty), Delivery([SerialEntry(qty)]));
    SerialPlan(qty);
    SerialPosts();
  }

  /** A unit and a half is ordered, received and recorded as received; one unit is in stock. */
  lemma FractionLost()
    ensures var db := Run(Begin(Serialized), OrderRun(1500) + [Delivery([SerialEntry(1500)])]);
            && db.docs.orders == [Closed] && db.docs.receiptLines == [ReceiptLine(0, 0, 0, 1500, 0, [7])]
            && db.inv.balances == map[Key(0, 1) := Balance(1000, 0)]
  {
    SerialGoes(1500);
  }

  // ---------- a transfer that can no longer be received ----------

  /** One unit is shipped from location 1 to location 2; a count that takes in the in-transit location
      is opened, finds nothing there, and is approved. */
  function ShippedRun(): seq<Action> {
    StockRun(UNIT) + [CreateTransfer(1, 2, [OneLine()])] + [ShipTransfer(0, 1)]
  }

  function OneLine(): TransferLine {
    TransferLine(0, UNIT, [])
  }

  function CountedAway(): seq<Action> {
    ShippedRun() + [OpenCount(Counts.Scope({9}, None), [Key(0, 9)], 5)]
  }

  /** What shipping the unit leaves. */
  function Shipped(): Inventory {
    Inventory(map[Key(0, 1) := Balance(0, 0), Key(0, 9) := Balance(UNIT, 0)],
              map[Key(0, 1) := [Layer(0, 0, 0, 5)], Key(0, 9) := [Layer(1, 0, UNIT, 0)]], map[],
              Stock(UNIT).ledger + [Row(1, Key(0, 1), -UNIT, 5, TransferShip, 0, None, None)]
              + [Row(1, Key(0, 9), UNIT, 0, TransferShip, 0, None, None)], [])
  }

  function TransferDocs(state: TransferState): Docs {
    StockDocs(UNIT).(transfers := [Transfer(state, 1, 2, [OneLine()])])
  }

  function EmptyCount(): CountSession {
    CountSession(CountOpen, 5, 3, [Snapshot(Key(0, 9), UNIT)], [])
  }

  function ShipLeg(): Transfers.Leg {
    Transfers.Leg(TransferShip, 1, 9, 0, 1, InTransit)
  }

  function HalfWay(): Inventory {
    Inventory(map[Key(0, 1) := Balance(0, 0)], map[Key(0, 1) := [Layer(0, 0, 0, 5)]], map[],
              Stock(UNIT).ledger + [Row(1, Key(0, 1), -UNIT, 5, TransferShip, 0, None, None)], [])
  }

  lemma ShipsOut()
    ensures Post(Stock(UNIT), Loose(Key(0, 1), -UNIT, TransferShip, 0, None, 1), 0) == Ok(HalfWay())
  {
    OneConsumed(UNIT);
    var mid := Post(Stock(UNIT), Loose(Key(0, 1), -UNIT, TransferShip, 0, None, 1), 0).value;
    assert mid.balances == HalfWay().balances && mid.layers == HalfWay().layers && mid.ledger == HalfWay().ledger;
  }

  lemma ShipsIn()
    ensures Post(HalfWay(), Loose(Key(0, 9), UNIT, TransferShip, 0, Some(0), 1), 0) == Ok(Shipped())
  {
    assert Fifo.Insert([], Layer(1, 0, UNIT, 0)) == [Layer(1, 0, UNIT, 0)];
    var end := Post(HalfWay(), Loose(Key(0, 9), UNIT, TransferShip, 0, Some(0), 1), 0).value;
    assert end.balances == Shipped().balances && end.layers == Shipped().layers && end.ledger == Shipped().ledger;
  }

  lemma ShipPosts()
    ensures ExecAll(Stock(UNIT), Transfers.LineOps(ShipLeg(), OneLine())) == Ok(Shipped())
  {
    var out := Loose(Key(0, 1), -UNIT, TransferShip, 0, None, 1);
    var into := Loose(Key(0, 9), UNIT, TransferShip, 0, Some(0), 1);
    assert Transfers.LineOps(ShipLeg(), OneLine()) == [Move(out)] + [Move(into)] && [Move(into)] == [Move(into)] + [];
    HeadMoved(Stock(UNIT), out, [Move(into)]);
    ShipsOut();
    HeadMoved(HalfWay(), into, []);
    ShipsIn();
  }

  lemma ShipPlan()
    ensures Transfers.PlanShip(TransferDocs(TransferDraft), 0, 1)
         == Ok(Plan(Transfers.LineOps(ShipLeg(), OneLine()), TransferDocs(TransferShipped)))
  {
    assert [OneLine()][1..] == [] && Transfers.LinesOps(ShipLeg(), []) == [];
    assert Transfers.LinesOps(ShipLeg(), [OneLine()]) == Transfers.LineOps(ShipLeg(), OneLine());
    assert Transfers.Advance(TransferDocs(TransferDraft), 0, TransferShipped) == TransferDocs(TransferShipped);
  }

  lemma ShippedGoes()
    ensures Run(Begin(NonSerialized), ShippedRun()) == Db(Shipped(), TransferDocs(TransferShipped))
  {
    var start, create := Begin(NonSerialized), CreateTransfer(1, 2, [OneLine()]);
    StockGoes(UNIT);
    RunSnoc(start, StockRun(UNIT), create);
    assert [OneLine()][1..] == [];
    assert Transfers.LinesError(StockDocs(UNIT), map[], [OneLine()]).None?;
    assert Step(Db(Stock(UNIT), StockDocs(UNIT)), create) == Db(Stock(UNIT), TransferDocs(TransferDraft));
    RunSnoc(start, StockRun(UNIT) + [create], ShipTransfer(0, 1));
    ShipGoes();
  }

  lemma StepShip(db: Db, t: nat, at: int, p: Plan, inv: Inventory)
    requires Transfers.PlanShip(db.docs, t, at) == Ok(p) && ExecAll(db.inv, p.ops) == Ok(inv)
    ensures Step(db, ShipTransfer(t, at)) == Db(inv, p.docs)
  {
  }

  lemma ShipGoes()
    ensures Step(Db(Stock(UNIT), TransferDocs(TransferDraft)), ShipTransfer(0, 1))
         == Db(Shipped(), TransferDocs(TransferShipped))
  {
    ShipPlan();
    ShipPosts();
    StepShip(Db(Stock(UNIT), TransferDocs(TransferDraft)), 0, 1,
             Plan(Transfers.LineOps(ShipLeg(), OneLine()), TransferDocs(TransferShipped)), Shipped());
  }

  lemma CountedAwayGoes()
    ensures Run(Begin(NonSerialized), CountedAway()) == Counted()
  {
    ShippedGoes();
    RunSnoc(Begin(NonSerialized), ShippedRun(), OpenCount(Counts.Scope({9}, None), [Key(0, 9)], 5));
    EmptyCountOpens(Shipped(), TransferDocs(TransferShipped));
  }

  lemma EmptyCountOpens(inv: Inventory, docs: Docs)
    requires inv.balances.Keys == {Key(0, 1), Key(0, 9)} && OnHand(inv, Key(0, 9)) == UNIT && |inv.ledger| == 3
    requires docs.counts == []
    ensures Step(Db(inv, docs), OpenCount(Counts.Scope({9}, None), [Key(0, 9)], 5))
        == Db(inv, docs.(counts := [EmptyCount()]))
  {
    CountOpens(inv, docs, Key(0, 9), 5);
  }

  function Counted(): Db {
    Db(Shipped(), TransferDocs(TransferShipped).(counts := [EmptyCount()]))
  }

  lemma ApprovedAway(db: Db)
    requires Reachable(db) && db.docs.counts == [EmptyCount()] && db.inv.ledger == Shipped().ledger
    ensures Accepted(db, ApproveCount(0, 6)) && OnHand(Step(db, ApproveCount(0, 6)).inv, Key(0, 9)) == 0
  {
    EmptyCountInOrder();
    Reconciliation.ApproveNeverStuck(db, 0, 6);
    Reconciliation.CountExactlyWhen(db, 0, 6, 0);
  }

  lemma ApprovalKeeps(db: Db, c: nat, at: int)
    ensures Step(db, ApproveCount(c, at)).docs.transfers == db.docs.transfers
    ensures Step(db, ApproveCount(c, at)).docs.config == db.docs.config
  {
  }

  lemma NotReceivable(db: Db)
    requires Reachable(db) && db.docs.transfers == TransferDocs(TransferShipped).transfers
        && db.docs.config.transit == 9
    requires OnHand(db.inv, Key(0, 9)) == 0
    ensures !Accepted(db, ReceiveTransfer(0, 7))
  {
    Transit.ReceiveGoesExactly(db, 0, 7);
    OneLineMoves();
    assert !Transit.CoversAt(db.inv, 9, [OneLine()], 0);
  }

  /** After the approval the transfer is still shipped and can no longer be received. */
  lemma CountedAwayStuck()
    ensures var db := Run(Begin(NonSerialized), CountedAway() + [ApproveCount(0, 6)]);
            && db.docs.transfers == [Transfer(TransferShipped, 1, 2, [OneLine()])]
            && OnHand(db.inv, Key(0, 9)) == 0 && !Accepted(db, ReceiveTransfer(0, 7))
  {
    CountedAwayGoes();
    RunReachable(NonSerialized, CountedAway());
    ApprovedAway(Counted());
    ApprovalKeeps(Counted(), 0, 6);
    RunSnoc(Begin(NonSerialized), CountedAway(), ApproveCount(0, 6));
    RunReachable(NonSerialized, CountedAway() + [ApproveCount(0, 6)]);
    NotReceivable(Run(Begin(NonSerialized), CountedAway() + [ApproveCount(0, 6)]));
  }

  lemma RunReachable(tracking: Tracking, actions: seq<Action>)
    ensures Reachable(Run(Begin(tracking), actions))
  {
    assert Run(Begin(tracking), actions) == Run(EmptyDb(Begin(tracking).docs.config, []), actions);
  }

  lemma EmptyCountInOrder()
    ensures Reconciliation.DatesInOrder(Shipped().ledger, EmptyCount(), Key(0, 9))
    ensures Reconciliation.AllLoose(Shipped().ledger, Key(0, 9))
  {
  }

  lemma OneLineMoves()
    ensures Sums.SumOf([OneLine()], Transit.Moved(0)) == UNIT
  {
    Sums.SumOfOne(OneLine(), Transit.Moved(0));
  }

  // ---------- a drain that stops at an envelope applied long ago ----------

  function OneInStock(): seq<OfflineSales.Event> {
    Elsewhere(StockRun(UNIT))
  }

  function Elsewhere(actions: seq<Action>): seq<OfflineSales.Event> {
    if actions == [] then [] else [OfflineSales.Other(actions[0])] + Elsewhere(actions[1..])
  }

  lemma {:induction false} ElsewhereRun(book: map<IntakeId, Intake.Envelope>, s: OfflineSales.System,
                                        actions: seq<Action>)
    requires forall i :: 0 <= i < |actions| ==> !actions[i].PostSale?
    ensures OfflineSales.Run(book, s, Elsewhere(actions)) == s.(db := Run(s.db, actions))
    decreases |actions|
  {
    if actions != [] {
      assert Elsewhere(actions)[0] == OfflineSales.Other(actions[0])
          && Elsewhere(actions)[1..] == Elsewhere(actions[1..]);
      ElsewhereRun(book, s.(db := Step(s.db, actions[0])), actions[1..]);
    }
  }

  function Book(): map<IntakeId, Intake.Envelope> {
    map[1 := OneSold(1, 5)]
  }

  /** The envelope is sent and applied, and its answer is lost. */
  function LostAnswer(): seq<OfflineSales.Event> {
    [OfflineSales.Enqueue(1)] + [OfflineSales.StartDrain([OneSold(1, 5)])] + [OfflineSales.Send(0)]
        + [OfflineSales.Serve(0, 0)]
    + [OfflineSales.GiveUp(0)]
  }

  /** A later drain sends it again and gets an answer. */
  function SentAgain(): seq<OfflineSales.Event> {
    [OfflineSales.StartDrain([OneSold(1, 5)])] + [OfflineSales.Send(1)] + [OfflineSales.Serve(1, 0)]
        + [OfflineSales.Deliver(1, 1)]
  }

  lemma ClientSnoc(book: map<IntakeId, Intake.Envelope>, s: OfflineSales.System, events: seq<OfflineSales.Event>,
                   e: OfflineSales.Event)
    ensures OfflineSales.Run(book, s, events + [e]) == OfflineSales.Next(book, OfflineSales.Run(book, s, events), e)
  {
    OfflineSales.RunConcat(book, s, events, [e]);
    var mid := OfflineSales.Run(book, s, events);
    assert [e][1..] == [];
    assert OfflineSales.Run(book, mid, [e]) == OfflineSales.Run(book, OfflineSales.Next(book, mid, e), []);
  }

  lemma ClientTwo(book: map<IntakeId, Intake.Envelope>, s: OfflineSales.System, events: seq<OfflineSales.Event>,
                  a: OfflineSales.Event, b: OfflineSales.Event)
    ensures OfflineSales.Run(book, s, events + [a] + [b])
         == OfflineSales.Next(book, OfflineSales.Next(book, OfflineSales.Run(book, s, events), a), b)
  {
    ClientSnoc(book, s, events, a);
    ClientSnoc(book, s, events + [a], b);
  }

  /** The system with envelope 1 queued. */
  function Queued(inv: Inventory, drains: seq<OfflineSales.Drain>, sent: nat, replies: seq<OfflineSales.Reply>,
                  accepted: seq<OfflineSales.Posted>): OfflineSales.System {
    OfflineSales.System(Db(inv, StockDocs(UNIT)), Book(), drains, seq(sent, _ => OneSold(1, 5)), replies, {1}, accepted)
  }

  function Draining(phase: OfflineSales.Phase): OfflineSales.Drain {
    OfflineSales.Drain([OneSold(1, 5)], 0, phase)
  }

  function Yes(): OfflineSales.Reply {
    OfflineSales.Reply(0, Ok([Intake.Accepted]))
  }

  function No(): OfflineSales.Reply {
    OfflineSales.Reply(1, Raise(BusinessRuleConflict))
  }

  function Gone(): Inventory {
    StockLess(UNIT, 1, 5, 0)
  }

  lemma FirstEvents(s: OfflineSales.System)
    requires s == OfflineSales.Start(Begin(NonSerialized).docs.config, []).(db := Db(Stock(UNIT), StockDocs(UNIT)))
    ensures OfflineSales.Run(Book(), s,
                             [OfflineSales.Enqueue(1)] + [OfflineSales.StartDrain([OneSold(1, 5)])]
                                 + [OfflineSales.Send(0)])
         == Queued(Stock(UNIT), [Draining(OfflineSales.Waiting(0))], 1, [], [])
  {
    var enqueue, start := OfflineSales.Enqueue(1), OfflineSales.StartDrain([OneSold(1, 5)]);
    ClientSnoc(Book(), s, [], enqueue);
    assert [] + [enqueue] == [enqueue];
    var s1 := OfflineSales.Next(Book(), s, enqueue);
    assert s1 == Queued(Stock(UNIT), [], 0, [], []);
    ClientSnoc(Book(), s, [enqueue], start);
    ListsBook();
    var s2 := OfflineSales.Next(Book(), s1, start);
    assert s2 == Queued(Stock(UNIT), [Draining(OfflineSales.Ready)], 0, [], []);
    ClientSnoc(Book(), s, [enqueue] + [start], OfflineSales.Send(0));
  }

  lemma ListsBook()
    ensures OfflineSales.Lists(Book(), [OneSold(1, 5)])
  {
    assert [OneSold(1, 5)][0] in [OneSold(1, 5)];
  }

  lemma ServedOnce()
    ensures OfflineSales.Endpoint(Db(Stock(UNIT), StockDocs(UNIT)), OneSold(1, 5), 0)
        == (Db(Gone(), StockDocs(UNIT)), Ok([Intake.Accepted]))
    ensures OfflineSales.Endpoint(Db(Gone(), StockDocs(UNIT)), OneSold(1, 5), 0)
         == (Db(Gone(), StockDocs(UNIT)), Raise(BusinessRuleConflict))
  {
    var env := OneSold(1, 5);
    assert Intake.Refusal(StockDocs(UNIT).config, env.lines).None?;
    SalePosts(UNIT, 1, 5, 0);
    OfflineSales.EndpointMeans(Db(Stock(UNIT), StockDocs(UNIT)), env, 0);
    assert Gone().ledger[1].intake == Some(1);
    OfflineSales.RepeatedAnswer(Db(Gone(), StockDocs(UNIT)), env, 0);
  }

  function Applied(drains: seq<OfflineSales.Drain>, sent: nat, replies: seq<OfflineSales.Reply>): OfflineSales.System {
    Queued(Gone(), drains, sent, replies, [OfflineSales.Posted(OneSold(1, 5), 0)])
  }

  lemma ServesFirst(drains: seq<OfflineSales.Drain>)
    ensures OfflineSales.Next(Book(), Queued(Stock(UNIT), drains, 1, [], []), OfflineSales.Serve(0, 0))
        == Applied(drains, 1, [Yes()])
  {
    ServedOnce();
  }

  lemma ServesAgain(drains: seq<OfflineSales.Drain>)
    ensures OfflineSales.Next(Book(), Applied(drains, 2, [Yes()]), OfflineSales.Serve(1, 0))
        == Applied(drains, 2, [Yes(), No()])
  {
    ServedOnce();
  }

  lemma GivesUp()
    ensures OfflineSales.Next(Book(), Applied([Draining(OfflineSales.Waiting(0))], 1, [Yes()]), OfflineSales.GiveUp(0))
         == Applied([Draining(OfflineSales.Stopped)], 1, [Yes()])
  {
  }

  lemma StopsAgain()
    ensures OfflineSales.Next(Book(),
                              Applied([Draining(OfflineSales.Stopped), Draining(OfflineSales.Waiting(1))], 2,
                                      [Yes(), No()]),
                              OfflineSales.Deliver(1, 1))
         == Applied([Draining(OfflineSales.Stopped), Draining(OfflineSales.Stopped)], 2, [Yes(), No()])
  {
  }

  lemma LostGoes(s: OfflineSales.System)
    requires s == OfflineSales.Start(Begin(NonSerialized).docs.config, []).(db := Db(Stock(UNIT), StockDocs(UNIT)))
    ensures OfflineSales.Run(Book(), s, LostAnswer()) == Applied([Draining(OfflineSales.Stopped)], 1, [Yes()])
  {
    var before := [OfflineSales.Enqueue(1)] + [OfflineSales.StartDrain([OneSold(1, 5)])] + [OfflineSales.Send(0)];
    FirstEvents(s);
    ServesFirst([Draining(OfflineSales.Waiting(0))]);
    ClientTwo(Book(), s, before, OfflineSales.Serve(0, 0), OfflineSales.GiveUp(0));
    GivesUp();
  }

  lemma SendsAgain(s: OfflineSales.System)
    requires s == Applied([Draining(OfflineSales.Stopped)], 1, [Yes()])
    ensures OfflineSales.Run(Book(), s, [OfflineSales.StartDrain([OneSold(1, 5)])] + [OfflineSales.Send(1)])
         == Applied([Draining(OfflineSales.Stopped), Draining(OfflineSales.Waiting(1))], 2, [Yes()])
  {
    var start := OfflineSales.StartDrain([OneSold(1, 5)]);
    ClientSnoc(Book(), s, [], start);
    assert [] + [start] == [start];
    ListsBook();
    var s1 := OfflineSales.Next(Book(), s, start);
    assert s1 == Applied([Draining(OfflineSales.Stopped), Draining(OfflineSales.Ready)], 1, [Yes()]);
    ClientSnoc(Book(), s, [start], OfflineSales.Send(1));
  }

  lemma AgainGoes(s: OfflineSales.System)
    requires s == Applied([Draining(OfflineSales.Stopped)], 1, [Yes()])
    ensures OfflineSales.Run(Book(), s, SentAgain())
         == Applied([Draining(OfflineSales.Stopped), Draining(OfflineSales.Stopped)], 2, [Yes(), No()])
  {
    var before := [OfflineSales.StartDrain([OneSold(1, 5)])] + [OfflineSales.Send(1)];
    SendsAgain(s);
    ServesAgain([Draining(OfflineSales.Stopped), Draining(OfflineSales.Waiting(1))]);
    ClientTwo(Book(), s, before, OfflineSales.Serve(1, 0), OfflineSales.Deliver(1, 1));
    StopsAgain();
  }

  /** One unit in stock, one envelope for it: applied, its answer lost, and answered
      business_rule_conflict ever after. It stays in the queue, applied once, and the drain stops. */
  lemma DrainStopsAtApplied()
    ensures var s := OfflineSales.Run(Book(), OfflineSales.Start(Begin(NonSerialized).docs.config, []),
                                      OneInStock() + LostAnswer() + SentAgain());
            && 1 in s.queue && OfflineSales.Times(s.accepted, 1) == 1 && UsesIntake(s.db.inv.ledger, 1)
            && s.replies == [Yes(), No()]
                 && s.drains == [Draining(OfflineSales.Stopped), Draining(OfflineSales.Stopped)]
  {
    var begin := OfflineSales.Start(Begin(NonSerialized).docs.config, []);
    StockGoes(UNIT);
    ElsewhereRun(Book(), begin, StockRun(UNIT));
    var s := begin.(db := Db(Stock(UNIT), StockDocs(UNIT)));
    LostGoes(s);
    var lost := OfflineSales.Run(Book(), s, LostAnswer());
    AgainGoes(lost);
    OfflineSales.RunConcat(Book(), begin, OneInStock(), LostAnswer());
    OfflineSales.RunConcat(Book(), begin, OneInStock() + LostAnswer(), SentAgain());
    assert Gone().ledger[1].intake == Some(1);
    var once := [OfflineSales.Posted(OneSold(1, 5), 0)];
    assert once[..0] == [];
    assert OfflineSales.Times(once, 1) == 1;
  }
}
