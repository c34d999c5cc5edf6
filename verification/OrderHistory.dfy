/** Purchase orders over whole runs: the combined state machine moves strictly forward, receiving
    accumulates on the order lines, and an order closes itself exactly when it is complete. */
module OrderHistory {
  import opened Tables
  import opened Ledger
  import opened Database
  import opened Sums
  import opened Runs
  import opened Purchasing

  // ---------- the combined state machine ----------

  function Rank(s: PoState): nat {
    match s
    case Draft => 0
    case Submitted => 1
    case Approved => 2
    case Sent => 3
    case Receiving => 4
    case Closed => 5
    case Cancelled => 5
  }

  /** The order stayed where it was or moved strictly forward, and it was cancelled only from
      before receiving. */
  predicate Onward(s: PoState, t: PoState) {
    s == t || (Rank(s) < Rank(t) && (t == Cancelled ==> Rank(s) < Rank(Receiving)))
  }

  ghost predicate HasReceipt(docs: Docs, po: nat) {
    exists i :: 0 <= i < |docs.receipts| && docs.receipts[i].po == po
  }

  predicate ReceiptsInRange(docs: Docs) {
    forall i :: 0 <= i < |docs.receipts| ==> docs.receipts[i].po < |docs.orders|
  }

  /** Orders with a receipt are in receiving or closed. */
  ghost predicate ReceiptsFollowed(docs: Docs) {
    && ReceiptsInRange(docs)
    && (forall i :: 0 <= i < |docs.receipts| ==> docs.orders[docs.receipts[i].po] in {Receiving, Closed})
  }

  /** The parts of the documents orders are made of. */
  predicate SameOrders(docs: Docs, docs': Docs) {
    && docs'.orders == docs.orders && docs'.receipts == docs.receipts && docs'.config == docs.config
    && docs'.poLines == docs.poLines && docs'.receiptLines == docs.receiptLines
  }

  lemma OtherCallsKeepOrders(db: Db, a: Action)
    requires !a.CreatePo? && !a.MovePo? && !a.PostReceipt?
    ensures SameOrders(db.docs, Step(db, a).docs)
  {
  }

  /** The document tables after an accepted receipt. */
  function Received(docs: Docs, po: nat, loc: LocId, at: int, lines: seq<ReceiptInput>): Delivered
    requires po < |docs.orders|
  {
    ReceiveLines(OpenReceipt(docs, po, loc, at), Delivery(|docs.receipts|, loc, at), lines)
  }

  lemma ReceiptDocs(db: Db, po: nat, loc: LocId, at: int, lines: seq<ReceiptInput>)
    requires Accepted(db, PostReceipt(po, loc, at, lines))
    ensures po < |db.docs.orders| && Receivable(db.docs.orders[po])
    ensures var docs' := Step(db, PostReceipt(po, loc, at, lines)).docs;
            var r := Received(db.docs, po, loc, at, lines);
            && |r.docs.orders| == |db.docs.orders|
            && docs' == CloseIfComplete(r, po)
            && docs'.receipts == db.docs.receipts + [Receipt(po, loc, at)]
            && docs'.config == db.docs.config
            && docs'.orders == db.docs.orders[po := docs'.orders[po]]
            && docs'.orders[po] in {Receiving, Closed}
  {
    ReceiveLinesKeeps(OpenReceipt(db.docs, po, loc, at), Delivery(|db.docs.receipts|, loc, at), lines);
  }

  lemma StepOnward(db: Db, a: Action, po: nat)
    requires po < |db.docs.orders|
    ensures po < |Step(db, a).docs.orders| && Onward(db.docs.orders[po], Step(db, a).docs.orders[po])
  {
    if a.PostReceipt? {
      ReceivedOnward(db, a, po);
    } else if a.MovePo? {
      MovedOnward(db, a.po, a.to, po);
    } else if a.CreatePo? {
      CreatedOnward(db, a.poLines, po);
    } else {
      OtherCallsKeepOrders(db, a);
    }
  }

  lemma ReceivedOnward(db: Db, a: Action, po: nat)
    requires po < |db.docs.orders| && a.PostReceipt?
    ensures po < |Step(db, a).docs.orders| && Onward(db.docs.orders[po], Step(db, a).docs.orders[po])
  {
    if Accepted(db, a) {
      ReceiptDocs(db, a.receiptPo, a.loc, a.at, a.deliveries);
    }
  }

  lemma CreatedOnward(db: Db, lines: seq<PoLineInput>, po: nat)
    requires po < |db.docs.orders|
    ensures var orders := Step(db, CreatePo(lines)).docs.orders;
            po < |orders| && orders[po] == db.docs.orders[po]
  {
  }

  lemma MovedOnward(db: Db, moved: nat, to: PoState, po: nat)
    requires po < |db.docs.orders|
    ensures var orders := Step(db, MovePo(moved, to)).docs.orders;
            po < |orders| && Onward(db.docs.orders[po], orders[po])
  {
  }

  lemma StepFollowsReceipts(db: Db, a: Action)
    requires ReceiptsFollowed(db.docs)
    ensures ReceiptsFollowed(Step(db, a).docs)
  {
    if a.PostReceipt? {
      if Accepted(db, a) {
        ReceiptDocs(db, a.receiptPo, a.loc, a.at, a.deliveries);
      }
    } else if !a.CreatePo? && !a.MovePo? {
      OtherCallsKeepOrders(db, a);
    }
  }

  /** Over any run of any calls an order only moves strictly forward. */
  lemma {:induction false} OrdersMoveForward(db: Db, actions: seq<Action>, po: nat)
    requires po < |db.docs.orders|
    ensures po < |Run(db, actions).docs.orders|
    ensures Onward(db.docs.orders[po], Run(db, actions).docs.orders[po])
    decreases |actions|
  {
    if actions != [] {
      StepOnward(db, actions[0], po);
      OrdersMoveForward(Step(db, actions[0]), actions[1..], po);
    }
  }

  /** Closed and cancelled are absorbing. */
  lemma EndsAreFinal(db: Db, actions: seq<Action>, po: nat)
    requires po < |db.docs.orders| && db.docs.orders[po] in {Closed, Cancelled}
    ensures po < |Run(db, actions).docs.orders| && Run(db, actions).docs.orders[po] == db.docs.orders[po]
  {
    OrdersMoveForward(db, actions, po);
  }

  lemma {:induction false} RunFollowsReceipts(db: Db, actions: seq<Action>)
    requires ReceiptsFollowed(db.docs)
    ensures ReceiptsFollowed(Run(db, actions).docs)
    decreases |actions|
  {
    if actions != [] {
      StepFollowsReceipts(db, actions[0]);
      RunFollowsReceipts(Step(db, actions[0]), actions[1..]);
    }
  }

  /** An order with a posted receipt is never cancelled, whatever was called before or after. */
  lemma ReceivedNeverCancelled(config: Config, draws: seq<int>, actions: seq<Action>, po: nat)
    requires HasReceipt(Run(EmptyDb(config, draws), actions).docs, po)
    ensures var docs := Run(EmptyDb(config, draws), actions).docs;
            po < |docs.orders| && docs.orders[po] in {Receiving, Closed}
  {
    RunFollowsReceipts(EmptyDb(config, draws), actions);
  }

  // ---------- receiving accumulates ----------

  function QtyFor(j: nat): ReceiptLine -> int {
    (r: ReceiptLine) => if r.poLine == j then r.qty else 0
  }

  predicate LinesInRange(docs: Docs) {
    forall i :: 0 <= i < |docs.receiptLines| ==> docs.receiptLines[i].poLine < |docs.poLines|
  }

  /** The over-receive tolerance of a sku, in percent: its own, or the default. */
  function PercentOver(config: Config, sku: SkuId): int
    requires sku in config.skus
  {
    match config.skus[sku].tolerancePct
    case Some(pct) => pct
    case None => config.defaultTolerancePct
  }

  /** A line received what its receipt lines say, is backordered by what is missing, and was not
      received beyond its tolerance. */
  ghost predicate LineSound(docs: Docs, j: nat)
    requires j < |docs.poLines|
  {
    var l := docs.poLines[j];
    && l.received == SumOf(docs.receiptLines, QtyFor(j)) >= 0
    && l.backordered == Max(0, l.ordered - l.received)
    && l.ordered > 0 && l.sku in docs.config.skus
    && (l.received > 0 ==> l.received * 100 <= l.ordered * (100 + PercentOver(docs.config, l.sku)))
  }

  ghost predicate Sound(docs: Docs) {
    LinesInRange(docs) && forall j :: 0 <= j < |docs.poLines| ==> LineSound(docs, j)
  }

  lemma AfterLineSound(docs: Docs, d: Delivery, line: ReceiptInput)
    requires Sound(docs)
    ensures Sound(AfterLine(docs, d, line))
  {
    if ReceiptError(docs, line).None? {
      var docs' := AfterLine(docs, d, line);
      var row := docs'.receiptLines[|docs.receiptLines|];
      forall j | 0 <= j < |docs'.poLines| ensures LineSound(docs', j) {
        assert LineSound(docs, j);
        SumOfConcat(docs.receiptLines, [row], QtyFor(j));
        SumOfOne(row, QtyFor(j));
      }
    }
  }

  lemma {:induction false} ReceiveLinesSound(docs: Docs, d: Delivery, lines: seq<ReceiptInput>)
    requires Sound(docs)
    ensures Sound(ReceiveLines(docs, d, lines).docs)
    decreases |lines|
  {
    if lines != [] {
      AfterLineSound(docs, d, lines[0]);
      ReceiveLinesSound(AfterLine(docs, d, lines[0]), d, lines[1..]);
    }
  }

  lemma SameLinesSound(docs: Docs, docs': Docs)
    requires Sound(docs)
    requires docs'.poLines == docs.poLines && docs'.receiptLines == docs.receiptLines && docs'.config == docs.config
    ensures Sound(docs')
  {
    forall j | 0 <= j < |docs'.poLines| ensures LineSound(docs', j) {
      assert LineSound(docs, j);
    }
  }

  lemma {:induction false} NothingReceived(rows: seq<ReceiptLine>, j: nat)
    requires forall i :: 0 <= i < |rows| ==> rows[i].poLine < j
    ensures SumOf(rows, QtyFor(j)) == 0
  {
    if rows != [] {
      NothingReceived(rows[1..], j);
    }
  }

  lemma CreateSound(docs: Docs, lines: seq<PoLineInput>)
    requires Sound(docs) && PlanCreate(docs, lines).Ok?
    ensures Sound(PlanCreate(docs, lines).value.docs)
  {
    var docs' := PlanCreate(docs, lines).value.docs;
    forall j | 0 <= j < |docs'.poLines| ensures LineSound(docs', j) {
      if j < |docs.poLines| {
        assert LineSound(docs, j);
      } else {
        var line := lines[j - |docs.poLines|];
        assert docs'.poLines[j] == NewLines(|docs.orders|, lines)[j - |docs.poLines|];
        NothingReceived(docs.receiptLines, j);
      }
    }
  }

  lemma StepSound(db: Db, a: Action)
    requires Sound(db.docs)
    ensures Sound(Step(db, a).docs)
  {
    if Accepted(db, a) {
      match a
      case CreatePo(lines) => CreateSound(db.docs, lines);
      case PostReceipt(p, loc, at, lines) =>
        ReceiptDocs(db, p, loc, at, lines);
        SameLinesSound(db.docs, OpenReceipt(db.docs, p, loc, at));
        ReceiveLinesSound(OpenReceipt(db.docs, p, loc, at), Delivery(|db.docs.receipts|, loc, at), lines);
        SameLinesSound(Received(db.docs, p, loc, at, lines).docs, Step(db, a).docs);
      case MovePo(_, _) => SameLinesSound(db.docs, Step(db, a).docs);
      case _ =>
        OtherCallsKeepOrders(db, a);
        SameLinesSound(db.docs, Step(db, a).docs);
    }
  }

  lemma {:induction false} RunSound(db: Db, actions: seq<Action>)
    requires Sound(db.docs)
    ensures Sound(Run(db, actions).docs)
    decreases |actions|
  {
    if actions != [] {
      StepSound(db, actions[0]);
      RunSound(Step(db, actions[0]), actions[1..]);
    }
  }

  /** After any run, for every order line: received is the sum of its receipt lines, backordered
      is what is still missing, and receiving stayed within the tolerance. */
  lemma ReceivingAccumulates(config: Config, draws: seq<int>, actions: seq<Action>, j: nat)
    requires j < |Run(EmptyDb(config, draws), actions).docs.poLines|
    ensures LineSound(Run(EmptyDb(config, draws), actions).docs, j)
  {
    var start := EmptyDb(config, draws);
    RunSound(start, actions);
  }

  lemma ReachableSound(db: Db)
    requires Reachable(db)
    ensures Sound(db.docs)
  {
    var config, draws, actions :| db == Run(EmptyDb(config, draws), actions);
    RunSound(EmptyDb(config, draws), actions);
  }

  // ---------- automatic closing ----------

  /** The quantity the entries of a receipt name for one order line. */
  function Named(entries: seq<ReceiptInput>, j: nat): int {
    if entries == [] then 0 else (if entries[0].poLine == j then entries[0].qty else 0) + Named(entries[1..], j)
  }

  lemma NamedOne(entry: ReceiptInput)
    ensures Named([entry], entry.poLine) == entry.qty
  {
    assert [entry][1..] == [];
  }

  predicate EntriesInRange(docs: Docs, entries: seq<ReceiptInput>) {
    forall i :: 0 <= i < |entries| ==> entries[i].poLine < |docs.poLines|
  }

  /** Once the i-th entry was posted, its order line was complete. */
  predicate CompleteAfter(docs: Docs, entries: seq<ReceiptInput>, i: nat)
    requires EntriesInRange(docs, entries) && i < |entries|
  {
    var l := docs.poLines[entries[i].poLine];
    l.received + Named(entries[..i + 1], entries[i].poLine) >= l.ordered
  }

  predicate NoErrors(docs: Docs, d: Delivery, entries: seq<ReceiptInput>)
    decreases |entries|
  {
    entries == [] || (ReceiptError(docs, entries[0]).None? && NoErrors(AfterLine(docs, d, entries[0]), d, entries[1..]))
  }

  lemma {:induction false} PostedWithoutErrors(inv: Inventory, docs: Docs, d: Delivery, entries: seq<ReceiptInput>)
    requires ExecAll(inv, ReceiveLines(docs, d, entries).ops).Ok?
    ensures NoErrors(docs, d, entries)
    decreases |entries|
  {
    if entries != [] {
      var next := AfterLine(docs, d, entries[0]);
      var head, tail := LineOps(docs, d, entries[0]), ReceiveLines(next, d, entries[1..]).ops;
      ExecAllConcat(inv, head, tail);
      PostedLineValid(inv, docs, d, entries[0]);
      PostedWithoutErrors(ExecAll(inv, head).value, next, d, entries[1..]);
    }
  }

  lemma PostedLineValid(inv: Inventory, docs: Docs, d: Delivery, entry: ReceiptInput)
    requires ExecAll(inv, LineOps(docs, d, entry)).Ok?
    ensures ReceiptError(docs, entry).None?
  {
  }

  /** What the entries leave on one order line. */
  lemma {:induction false} LineAfter(docs: Docs, d: Delivery, entries: seq<ReceiptInput>, j: nat)
    requires NoErrors(docs, d, entries) && j < |docs.poLines|
    requires docs.poLines[j].backordered == Max(0, docs.poLines[j].ordered - docs.poLines[j].received)
    ensures var docs' := ReceiveLines(docs, d, entries).docs;
            && |docs'.poLines| == |docs.poLines|
            && docs'.poLines[j].po == docs.poLines[j].po
            && docs'.poLines[j].ordered == docs.poLines[j].ordered
            && docs'.poLines[j].received == docs.poLines[j].received + Named(entries, j)
            && docs'.poLines[j].backordered == Max(0, docs'.poLines[j].ordered - docs'.poLines[j].received)
    decreases |entries|
  {
    if entries != [] {
      LineAfter(AfterLine(docs, d, entries[0]), d, entries[1..], j);
    }
  }

  lemma {:induction false} EntriesNamed(docs: Docs, d: Delivery, entries: seq<ReceiptInput>)
    requires NoErrors(docs, d, entries)
    ensures EntriesInRange(docs, entries)
    decreases |entries|
  {
    if entries != [] {
      EntriesNamed(AfterLine(docs, d, entries[0]), d, entries[1..]);
      assert forall i :: 0 < i < |entries| ==> entries[i] == entries[1..][i - 1];
    }
  }

  lemma CompleteLater(docs: Docs, d: Delivery, entries: seq<ReceiptInput>, i: nat)
    requires NoErrors(docs, d, entries) && EntriesInRange(docs, entries) && i + 1 < |entries|
    requires EntriesInRange(AfterLine(docs, d, entries[0]), entries[1..])
    ensures CompleteAfter(docs, entries, i + 1) <==> CompleteAfter(AfterLine(docs, d, entries[0]), entries[1..], i)
  {
    assert entries[..i + 2][1..] == entries[1..][..i + 1];
    assert entries[..i + 2][0] == entries[0];
  }

  /** The loop's running flag: no entry left its own line short. */
  lemma {:induction false} FlagMeans(docs: Docs, d: Delivery, entries: seq<ReceiptInput>)
    requires NoErrors(docs, d, entries) && EntriesInRange(docs, entries)
    ensures ReceiveLines(docs, d, entries).allComplete
        <==> forall i :: 0 <= i < |entries| ==> CompleteAfter(docs, entries, i)
    decreases |entries|
  {
    if entries != [] {
      var next, tail := AfterLine(docs, d, entries[0]), entries[1..];
      assert forall i :: 0 <= i < |tail| ==> tail[i] == entries[i + 1];
      FlagMeans(next, d, tail);
      assert entries[..0 + 1] == [entries[0]];
      NamedOne(entries[0]);
      assert CompleteAfter(docs, entries, 0) <==> !LeavesShort(docs, entries[0]);
      forall i | 0 <= i < |tail| ensures CompleteAfter(docs, entries, i + 1) <==> CompleteAfter(next, tail, i) {
        CompleteLater(docs, d, entries, i);
      }
      assert forall i :: 0 < i < |entries| ==> (CompleteAfter(docs, entries, i) <==> CompleteAfter(next, tail, i - 1));
    }
  }

  predicate Complete(docs: Docs, po: nat) {
    forall j :: 0 <= j < |docs.poLines| && docs.poLines[j].po == po ==>
        docs.poLines[j].received >= docs.poLines[j].ordered
  }

  /** Over the order lines after the entries, nothing backordered means complete. */
  lemma OutstandingMeans(docs: Docs, d: Delivery, entries: seq<ReceiptInput>, po: nat)
    requires Sound(docs) && NoErrors(docs, d, entries)
    ensures var docs' := ReceiveLines(docs, d, entries).docs;
            NoneOutstanding(docs', po) <==> Complete(docs', po)
  {
    ReceiveLinesSound(docs, d, entries);
    var docs' := ReceiveLines(docs, d, entries).docs;
    forall j | 0 <= j < |docs'.poLines|
      ensures docs'.poLines[j].backordered <= 0 <==> docs'.poLines[j].received >= docs'.poLines[j].ordered
    {
      assert LineSound(docs', j);
    }
  }

  lemma ClosesDocs(docs: Docs, d: Delivery, entries: seq<ReceiptInput>, po: nat)
    requires Sound(docs) && NoErrors(docs, d, entries) && EntriesInRange(docs, entries)
    requires po < |docs.orders| == |ReceiveLines(docs, d, entries).docs.orders| && docs.orders[po] == Receiving
    ensures var docs' := CloseIfComplete(ReceiveLines(docs, d, entries), po);
            && |docs'.orders| == |docs.orders|
            && (docs'.orders[po] == Closed <==>
                Complete(docs', po) && forall i :: 0 <= i < |entries| ==> CompleteAfter(docs, entries, i))
  {
    ReceiveLinesKeeps(docs, d, entries);
    FlagMeans(docs, d, entries);
    OutstandingMeans(docs, d, entries, po);
  }

  /** An accepted receipt closes its order exactly when every line of the order is complete and
      no entry left the line it names short at the moment it was posted. */
  lemma ClosesExactly(db: Db, po: nat, loc: LocId, at: int, entries: seq<ReceiptInput>)
    requires Reachable(db) && Accepted(db, PostReceipt(po, loc, at, entries))
    ensures EntriesInRange(db.docs, entries)
    ensures var docs' := Step(db, PostReceipt(po, loc, at, entries)).docs;
            && po < |docs'.orders|
            && (docs'.orders[po] == Closed <==>
                Complete(docs', po) && forall i :: 0 <= i < |entries| ==> CompleteAfter(db.docs, entries, i))
  {
    ReachableSound(db);
    ReceiptDocs(db, po, loc, at, entries);
    var begun, d := OpenReceipt(db.docs, po, loc, at), Delivery(|db.docs.receipts|, loc, at);
    SameLinesSound(db.docs, begun);
    PostedWithoutErrors(db.inv, begun, d, entries);
    EntriesNamed(begun, d, entries);
    ReceiveLinesKeeps(begun, d, entries);
    ClosesDocs(begun, d, entries, po);
    assert forall i :: 0 <= i < |entries| ==>
        (CompleteAfter(begun, entries, i) <==> CompleteAfter(db.docs, entries, i));
  }

  lemma {:induction false} NamedSplit(entries: seq<ReceiptInput>, i: nat, j: nat)
    requires i <= |entries|
    ensures Named(entries, j) == Named(entries[..i], j) + Named(entries[i..], j)
  {
    if i > 0 {
      assert entries[..i][1..] == entries[1..][..i - 1] && entries[i..] == entries[1..][i - 1..];
      NamedSplit(entries[1..], i - 1, j);
    } else {
      assert entries[0..] == entries;
    }
  }

  lemma {:induction false} NamedNowhere(entries: seq<ReceiptInput>, j: nat)
    requires forall i :: 0 <= i < |entries| ==> entries[i].poLine != j
    ensures Named(entries, j) == 0
  {
    if entries != [] {
      NamedNowhere(entries[1..], j);
    }
  }

  /** The entries name lines of the order only, each at most once. */
  predicate OnePerLine(docs: Docs, po: nat, entries: seq<ReceiptInput>) {
    && (forall i :: 0 <= i < |entries| ==> entries[i].poLine < |docs.poLines| ==>
        docs.poLines[entries[i].poLine].po == po)
    && (forall i, k :: 0 <= i < k < |entries| ==> entries[i].poLine != entries[k].poLine)
  }

  /** For such a receipt the order is closed afterwards exactly when every line is complete. */
  lemma ClosedWhenComplete(db: Db, po: nat, loc: LocId, at: int, entries: seq<ReceiptInput>)
    requires Reachable(db) && Accepted(db, PostReceipt(po, loc, at, entries))
    requires OnePerLine(db.docs, po, entries)
    ensures var docs' := Step(db, PostReceipt(po, loc, at, entries)).docs;
            po < |docs'.orders| && (docs'.orders[po] == Closed <==> Complete(docs', po))
  {
    ClosesExactly(db, po, loc, at, entries);
    ReceiptDocs(db, po, loc, at, entries);
    var begun, d := OpenReceipt(db.docs, po, loc, at), Delivery(|db.docs.receipts|, loc, at);
    PostedWithoutErrors(db.inv, begun, d, entries);
    ReachableSound(db);
    SameLinesSound(db.docs, begun);
    var after := ReceiveLines(begun, d, entries).docs;
    assert after.poLines == Step(db, PostReceipt(po, loc, at, entries)).docs.poLines;
    if Complete(after, po) {
      forall i | 0 <= i < |entries| ensures CompleteAfter(db.docs, entries, i) {
        NotShort(begun, d, entries, po, i);
      }
    }
  }

  /** An entry that is the only one for its line leaves it as complete as the whole receipt does. */
  lemma NotShort(docs: Docs, d: Delivery, entries: seq<ReceiptInput>, po: nat, i: nat)
    requires Sound(docs) && NoErrors(docs, d, entries) && EntriesInRange(docs, entries)
    requires OnePerLine(docs, po, entries) && i < |entries| && Complete(ReceiveLines(docs, d, entries).docs, po)
    ensures CompleteAfter(docs, entries, i)
  {
    var j := entries[i].poLine;
    assert LineSound(docs, j);
    LineAfter(docs, d, entries, j);
    NamedSplit(entries, i + 1, j);
    NamedNowhere(entries[i + 1..], j);
  }

  // ---------- goods on a line of another order ----------

  /** An order whose goods may have come. */
  predicate MayHaveGoods(docs: Docs, po: nat) {
    po < |docs.orders| && docs.orders[po] in {Receiving, Closed}
  }

  /** Goods were received only on lines of orders that are being received, or closed. */
  predicate GoodsFollow(docs: Docs) {
    forall j :: 0 <= j < |docs.poLines| && docs.poLines[j].received > 0 ==> MayHaveGoods(docs, docs.poLines[j].po)
  }

  /** The entries name lines of the order, or of orders that are being received, or closed. */
  predicate NamesReceived(docs: Docs, po: nat, entries: seq<ReceiptInput>) {
    forall i :: 0 <= i < |entries| && entries[i].poLine < |docs.poLines| ==>
        docs.poLines[entries[i].poLine].po == po || MayHaveGoods(docs, docs.poLines[entries[i].poLine].po)
  }

  lemma {:induction false} NamedPositive(docs: Docs, d: Delivery, entries: seq<ReceiptInput>, j: nat)
    requires NoErrors(docs, d, entries)
    ensures Named(entries, j) >= 0
    ensures Named(entries, j) > 0 <==> exists i :: 0 <= i < |entries| && entries[i].poLine == j
    decreases |entries|
  {
    if entries != [] {
      NamedPositive(AfterLine(docs, d, entries[0]), d, entries[1..], j);
      assert forall i :: 0 < i < |entries| ==> entries[i] == entries[1..][i - 1];
      assert forall i :: 0 <= i < |entries[1..]| ==> entries[1..][i] == entries[i + 1];
    }
  }

  /** What an accepted receipt leaves on every order line, its own order's or not. */
  lemma ReceiptLeaves(db: Db, po: nat, loc: LocId, at: int, entries: seq<ReceiptInput>, j: nat)
    requires Reachable(db) && Accepted(db, PostReceipt(po, loc, at, entries)) && j < |db.docs.poLines|
    ensures var docs' := Step(db, PostReceipt(po, loc, at, entries)).docs;
            && |docs'.poLines| == |db.docs.poLines| && docs'.poLines[j].po == db.docs.poLines[j].po
            && docs'.poLines[j].received >= db.docs.poLines[j].received >= 0
            && ((docs'.poLines[j].received > db.docs.poLines[j].received)
                  <==> exists i :: 0 <= i < |entries| && entries[i].poLine == j)
  {
    ReachableSound(db);
    ReceiptDocs(db, po, loc, at, entries);
    var begun, d := OpenReceipt(db.docs, po, loc, at), Delivery(|db.docs.receipts|, loc, at);
    PostedWithoutErrors(db.inv, begun, d, entries);
    assert LineSound(db.docs, j);
    LineAfter(begun, d, entries, j);
    NamedPositive(begun, d, entries, j);
  }

  /** An accepted receipt keeps goods on the lines of received orders exactly when its entries name
      such lines: the code looks at the state of the order of the receipt, not of the lines. */
  lemma GoodsKeptExactly(db: Db, po: nat, loc: LocId, at: int, entries: seq<ReceiptInput>)
    requires Reachable(db) && GoodsFollow(db.docs) && Accepted(db, PostReceipt(po, loc, at, entries))
    ensures GoodsFollow(Step(db, PostReceipt(po, loc, at, entries)).docs) <==> NamesReceived(db.docs, po, entries)
  {
    var docs' := Step(db, PostReceipt(po, loc, at, entries)).docs;
    ReceiptDocs(db, po, loc, at, entries);
    ReceiptSize(db, po, loc, at, entries);
    if NamesReceived(db.docs, po, entries) {
      forall j | 0 <= j < |docs'.poLines| && docs'.poLines[j].received > 0
        ensures MayHaveGoods(docs', docs'.poLines[j].po)
      {
        ReceiptLeaves(db, po, loc, at, entries, j);
      }
    } else {
      var i :| 0 <= i < |entries| && entries[i].poLine < |db.docs.poLines|
          && db.docs.poLines[entries[i].poLine].po != po
          && !MayHaveGoods(db.docs, db.docs.poLines[entries[i].poLine].po);
      ReceiptLeaves(db, po, loc, at, entries, entries[i].poLine);
      assert !MayHaveGoods(docs', docs'.poLines[entries[i].poLine].po);
    }
  }

  lemma ReceiptSize(db: Db, po: nat, loc: LocId, at: int, entries: seq<ReceiptInput>)
    requires Reachable(db) && Accepted(db, PostReceipt(po, loc, at, entries))
    ensures |Step(db, PostReceipt(po, loc, at, entries)).docs.poLines| == |db.docs.poLines|
  {
    ReceiptDocs(db, po, loc, at, entries);
    SameSize(OpenReceipt(db.docs, po, loc, at), Delivery(|db.docs.receipts|, loc, at), entries);
  }

  lemma {:induction false} SameSize(docs: Docs, d: Delivery, entries: seq<ReceiptInput>)
    ensures |ReceiveLines(docs, d, entries).docs.poLines| == |docs.poLines|
    decreases |entries|
  {
    if entries != [] {
      SameSize(AfterLine(docs, d, entries[0]), d, entries[1..]);
    }
  }

  /** Every accepted receipt of the run names such lines. */
  predicate RunNames(db: Db, actions: seq<Action>)
    decreases |actions|
  {
    actions == []
    || ((actions[0].PostReceipt? && Accepted(db, actions[0]) ==>
           NamesReceived(db.docs, actions[0].receiptPo, actions[0].deliveries))
        && RunNames(Step(db, actions[0]), actions[1..]))
  }

  lemma StepKeepsGoods(db: Db, a: Action)
    requires Reachable(db) && GoodsFollow(db.docs)
    requires a.PostReceipt? && Accepted(db, a) ==> NamesReceived(db.docs, a.receiptPo, a.deliveries)
    ensures GoodsFollow(Step(db, a).docs)
  {
    if a.PostReceipt? {
      if Accepted(db, a) {
        GoodsKeptExactly(db, a.receiptPo, a.loc, a.at, a.deliveries);
      }
    } else if !a.CreatePo? && !a.MovePo? {
      OtherCallsKeepOrders(db, a);
    }
  }

  lemma StepReachable(db: Db, a: Action)
    requires Reachable(db)
    ensures Reachable(Step(db, a))
  {
    var config, draws, actions :| db == Run(EmptyDb(config, draws), actions);
    RunSnoc(EmptyDb(config, draws), actions, a);
    assert Step(db, a) == Run(EmptyDb(config, draws), actions + [a]);
  }

  lemma {:induction false} RunKeepsGoods(db: Db, actions: seq<Action>)
    requires Reachable(db) && GoodsFollow(db.docs) && RunNames(db, actions)
    ensures GoodsFollow(Run(db, actions).docs)
    decreases |actions|
  {
    if actions != [] {
      StepKeepsGoods(db, actions[0]);
      StepReachable(db, actions[0]);
      RunKeepsGoods(Step(db, actions[0]), actions[1..]);
    }
  }

  /** So over every run whose receipts name such lines: a line with goods belongs to an order that is
      being received or closed, and was never cancelled. */
  lemma GoodsNeverCancelled(config: Config, draws: seq<int>, actions: seq<Action>, j: nat)
    requires RunNames(EmptyDb(config, draws), actions)
    requires j < |Run(EmptyDb(config, draws), actions).docs.poLines|
    requires Run(EmptyDb(config, draws), actions).docs.poLines[j].received > 0
    ensures var docs := Run(EmptyDb(config, draws), actions).docs;
            docs.poLines[j].po < |docs.orders| && docs.orders[docs.poLines[j].po] in {Receiving, Closed}
  {
    assert EmptyDb(config, draws) == Run(EmptyDb(config, draws), []);
    RunKeepsGoods(EmptyDb(config, draws), actions);
    assert MayHaveGoods(Run(EmptyDb(config, draws), actions).docs,
                        Run(EmptyDb(config, draws), actions).docs.poLines[j].po);
  }

  // ---------- the rows of a receipt ----------

  function EntryNamed(j: nat): ReceiptInput -> int {
    (e: ReceiptInput) => if e.poLine == j then e.qty else 0
  }

  /** The receipt line of the i-th entry: its quantity, what of it is beyond the order, and the serials
      of a serialised sku. */
  predicate RecordsEntry(docs: Docs, receipt: nat, entries: seq<ReceiptInput>, i: nat, row: ReceiptLine)
    requires i < |entries| && entries[i].poLine < |docs.poLines|
  {
    var e, line := entries[i], docs.poLines[entries[i].poLine];
    var over := line.received + SumOf(entries[..i + 1], EntryNamed(e.poLine)) - line.ordered;
    row == ReceiptLine(receipt, e.poLine, line.sku, e.qty, if over > 0 then over else 0,
                       if IsSerialized(docs.config, line.sku) then e.serials else [])
  }

  /** The order lines after an entry: its own has received its quantity. */
  predicate Follows(docs: Docs, next: Docs, e: ReceiptInput) {
    && next.config == docs.config && |next.poLines| == |docs.poLines|
    && (forall j :: 0 <= j < |docs.poLines| ==>
          && next.poLines[j].sku == docs.poLines[j].sku && next.poLines[j].ordered == docs.poLines[j].ordered
          && next.poLines[j].received == docs.poLines[j].received + (if e.poLine == j then e.qty else 0))
  }

  lemma OneRecorded(docs: Docs, d: Delivery, entries: seq<ReceiptInput>)
    requires entries != [] && ReceiptError(docs, entries[0]).None?
    ensures Follows(docs, AfterLine(docs, d, entries[0]), entries[0])
    ensures var rows := AfterLine(docs, d, entries[0]).receiptLines;
            && |rows| == |docs.receiptLines| + 1 && rows[..|docs.receiptLines|] == docs.receiptLines
            && RecordsEntry(docs, d.receipt, entries, 0, rows[|docs.receiptLines|])
  {
    assert entries[..1] == [entries[0]];
    SumOfOne(entries[0], EntryNamed(entries[0].poLine));
  }

  lemma LaterRecorded(docs: Docs, next: Docs, receipt: nat, entries: seq<ReceiptInput>, i: nat, row: ReceiptLine)
    requires 0 < i < |entries| && Follows(docs, next, entries[0]) && entries[i].poLine < |docs.poLines|
    ensures RecordsEntry(docs, receipt, entries, i, row) <==> RecordsEntry(next, receipt, entries[1..], i - 1, row)
  {
    var f := EntryNamed(entries[i].poLine);
    SumOfOne(entries[0], f);
    assert entries[..i + 1] == [entries[0]] + entries[1..][..i];
    SumOfConcat([entries[0]], entries[1..][..i], f);
  }

  /** A receipt's rows are those of the documents after its first entry, and then the others. */
  lemma RowsFromSecond(docs: Docs, d: Delivery, entries: seq<ReceiptInput>)
    requires entries != [] && NoErrors(docs, d, entries)
    ensures ReceiptError(docs, entries[0]).None? && NoErrors(AfterLine(docs, d, entries[0]), d, entries[1..])
    ensures ReceiveLines(docs, d, entries).docs == ReceiveLines(AfterLine(docs, d, entries[0]), d, entries[1..]).docs
  {
  }

  /** The rows of all entries, from what the first adds and what the others do. */
  lemma RowsJoin(docs: Docs, next: Docs, receipt: nat, entries: seq<ReceiptInput>, rows: seq<ReceiptLine>, i: nat)
    requires i < |entries| && Follows(docs, next, entries[0])
    requires entries[0].poLine < |docs.poLines| && entries[i].poLine < |docs.poLines|
    requires |next.receiptLines| == |docs.receiptLines| + 1 && |rows| == |docs.receiptLines| + |entries|
    requires rows[..|next.receiptLines|] == next.receiptLines
    requires RecordsEntry(docs, receipt, entries, 0, next.receiptLines[|docs.receiptLines|])
    requires i > 0 ==> RecordsEntry(next, receipt, entries[1..], i - 1, rows[|docs.receiptLines| + i])
    ensures RecordsEntry(docs, receipt, entries, i, rows[|docs.receiptLines| + i])
  {
    if i > 0 {
      LaterRecorded(docs, next, receipt, entries, i, rows[|docs.receiptLines| + i]);
    } else {
      assert rows[|docs.receiptLines|] == rows[..|next.receiptLines|][|docs.receiptLines|];
    }
  }

  lemma {:induction false} EntriesRecorded(docs: Docs, d: Delivery, entries: seq<ReceiptInput>, i: nat)
    requires NoErrors(docs, d, entries) && i < |entries|
    ensures entries[i].poLine < |docs.poLines|
    ensures |ReceiveLines(docs, d, entries).docs.receiptLines| == |docs.receiptLines| + |entries|
    ensures RecordsEntry(docs, d.receipt, entries, i,
                         ReceiveLines(docs, d, entries).docs.receiptLines[|docs.receiptLines| + i])
    decreases |entries|
  {
    var next := AfterLine(docs, d, entries[0]);
    RowsFromSecond(docs, d, entries);
    RowsGrow(next, d, entries[1..]);
    OneRecorded(docs, d, entries);
    if i > 0 {
      EntriesRecorded(next, d, entries[1..], i - 1);
    }
    RowsJoin(docs, next, d.receipt, entries, ReceiveLines(docs, d, entries).docs.receiptLines, i);
  }

  lemma {:induction false} RowsGrow(docs: Docs, d: Delivery, entries: seq<ReceiptInput>)
    requires NoErrors(docs, d, entries)
    ensures var rows := ReceiveLines(docs, d, entries).docs.receiptLines;
            |rows| == |docs.receiptLines| + |entries| && rows[..|docs.receiptLines|] == docs.receiptLines
    decreases |entries|
  {
    if entries != [] {
      RowsGrow(AfterLine(docs, d, entries[0]), d, entries[1..]);
    }
  }

  /** It touches no documents but those of orders. */
  lemma ReceiptFrame(db: Db, po: nat, loc: LocId, at: int, entries: seq<ReceiptInput>)
    requires Accepted(db, PostReceipt(po, loc, at, entries))
    ensures po < |db.docs.orders|
    ensures var docs := Step(db, PostReceipt(po, loc, at, entries)).docs;
            && docs == db.docs.(orders := docs.orders, poLines := docs.poLines, receipts := docs.receipts,
                                receiptLines := docs.receiptLines)
            && docs.receipts == db.docs.receipts + [Receipt(po, loc, at)]
            && docs.receiptLines == Received(db.docs, po, loc, at, entries).docs.receiptLines
  {
    ReceiptDocs(db, po, loc, at, entries);
    ReceiveLinesKeeps(OpenReceipt(db.docs, po, loc, at), Delivery(|db.docs.receipts|, loc, at), entries);
  }

  lemma ReceivedRows(db: Db, po: nat, loc: LocId, at: int, entries: seq<ReceiptInput>, i: nat)
    requires Accepted(db, PostReceipt(po, loc, at, entries)) && i < |entries| && po < |db.docs.orders|
    ensures entries[i].poLine < |db.docs.poLines|
    ensures var rows := Received(db.docs, po, loc, at, entries).docs.receiptLines;
            && |rows| == |db.docs.receiptLines| + |entries| && rows[..|db.docs.receiptLines|] == db.docs.receiptLines
            && RecordsEntry(db.docs, |db.docs.receipts|, entries, i, rows[|db.docs.receiptLines| + i])
  {
    AcceptedWithoutErrors(db, po, loc, at, entries);
    OpenedRows(db.docs, po, loc, at, entries, i);
  }

  lemma AcceptedWithoutErrors(db: Db, po: nat, loc: LocId, at: int, entries: seq<ReceiptInput>)
    requires Accepted(db, PostReceipt(po, loc, at, entries)) && po < |db.docs.orders|
    ensures NoErrors(OpenReceipt(db.docs, po, loc, at), Delivery(|db.docs.receipts|, loc, at), entries)
  {
    PostedWithoutErrors(db.inv, OpenReceipt(db.docs, po, loc, at), Delivery(|db.docs.receipts|, loc, at), entries);
  }

  lemma OpenedRows(docs: Docs, po: nat, loc: LocId, at: int, entries: seq<ReceiptInput>, i: nat)
    requires po < |docs.orders| && i < |entries|
    requires NoErrors(OpenReceipt(docs, po, loc, at), Delivery(|docs.receipts|, loc, at), entries)
    ensures entries[i].poLine < |docs.poLines|
    ensures var rows := Received(docs, po, loc, at, entries).docs.receiptLines;
            && |rows| == |docs.receiptLines| + |entries| && rows[..|docs.receiptLines|] == docs.receiptLines
            && RecordsEntry(docs, |docs.receipts|, entries, i, rows[|docs.receiptLines| + i])
  {
    var begun, d := OpenReceipt(docs, po, loc, at), Delivery(|docs.receipts|, loc, at);
    AllRecorded(begun, d, entries, i);
    SameRecord(docs, begun, d.receipt, entries, i,
               ReceiveLines(begun, d, entries).docs.receiptLines[|docs.receiptLines| + i]);
  }

  lemma AllRecorded(docs: Docs, d: Delivery, entries: seq<ReceiptInput>, i: nat)
    requires NoErrors(docs, d, entries) && i < |entries|
    ensures entries[i].poLine < |docs.poLines|
    ensures var rows := ReceiveLines(docs, d, entries).docs.receiptLines;
            && |rows| == |docs.receiptLines| + |entries| && rows[..|docs.receiptLines|] == docs.receiptLines
            && RecordsEntry(docs, d.receipt, entries, i, rows[|docs.receiptLines| + i])
  {
    RowsGrow(docs, d, entries);
    EntriesRecorded(docs, d, entries, i);
  }

  lemma SameRecord(a: Docs, b: Docs, receipt: nat, entries: seq<ReceiptInput>, i: nat, row: ReceiptLine)
    requires a.poLines == b.poLines && a.config == b.config && i < |entries| && entries[i].poLine < |a.poLines|
    ensures RecordsEntry(a, receipt, entries, i, row) <==> RecordsEntry(b, receipt, entries, i, row)
  {
  }

  /** An accepted receipt adds its own row and one receipt line per entry, and touches no documents but
      those of orders. */
  lemma ReceiptRecords(db: Db, po: nat, loc: LocId, at: int, entries: seq<ReceiptInput>, i: nat)
    requires Accepted(db, PostReceipt(po, loc, at, entries)) && i < |entries|
    ensures entries[i].poLine < |db.docs.poLines|
    ensures var docs := Step(db, PostReceipt(po, loc, at, entries)).docs;
            && docs == db.docs.(orders := docs.orders, poLines := docs.poLines, receipts := docs.receipts,
                                receiptLines := docs.receiptLines)
            && docs.receipts == db.docs.receipts + [Receipt(po, loc, at)]
            && |docs.receiptLines| == |db.docs.receiptLines| + |entries|
            && docs.receiptLines[..|db.docs.receiptLines|] == db.docs.receiptLines
            && RecordsEntry(db.docs, |db.docs.receipts|, entries, i, docs.receiptLines[|db.docs.receiptLines| + i])
  {
    ReceiptFrame(db, po, loc, at, entries);
    ReceivedRows(db, po, loc, at, entries, i);
  }
}
