/** Conservation: the stock of a sku, over all locations, is what the documents say went in and
    out of it. */
module Conservation {
  import opened Tables
  import opened Ledger
  import opened Database
  import opened Sums
  import opened Runs
  import SaleRecord
  import Purchasing
  import Intake
  import Returns
  import Rmas
  import Transfers
  import Counts

  // ---------- what the documents say ----------

  /** What receiving a line puts into stock: one unit per serial value, or the stated quantity. */
  function ReceivedQty(config: Config, sku: SkuId): ReceiptLine -> int {
    (r: ReceiptLine) => if r.sku != sku then 0 else if IsSerialized(config, sku) then |r.serials| * UNIT else r.qty
  }

  function StatedQty(sku: SkuId): ReceiptLine -> int {
    (r: ReceiptLine) => if r.sku == sku then r.qty else 0
  }

  /** The part of a serialised line that is not a whole unit: it has no serial value. */
  function LostFraction(config: Config, sku: SkuId): ReceiptLine -> int {
    (r: ReceiptLine) => if r.sku == sku && IsSerialized(config, sku) then r.qty % UNIT else 0
  }

  function RestockedQty(sku: SkuId): ReturnLine -> int {
    (r: ReturnLine) => if r.sku == sku && r.disposition != ScrapIt then r.qty else 0
  }

  function RmaLineQty(sku: SkuId): RmaLine -> int {
    (l: RmaLine) => if l.sku == sku then l.qty else 0
  }

  function RmaShippedQty(sku: SkuId): Rma -> int {
    (r: Rma) => if r.state == RmaOpen then 0 else SumOf(r.lines, RmaLineQty(sku))
  }

  function AdjustedQty(sku: SkuId): Adjustment -> int {
    (a: Adjustment) => if a.key.sku == sku then a.qty else 0
  }

  /** What the documents say the ledger rows of one kind add up to. Sales have no document table;
      `SoldQty` says what they add up to. */
  function Documented(docs: Docs, sku: SkuId, kind: SourceKind): int {
    match kind
    case PoReceipt => SumOf(docs.receiptLines, ReceivedQty(docs.config, sku))
    case CustomerReturn => SumOf(docs.returnLines, RestockedQty(sku))
    case RmaShip => -SumOf(docs.rmas, RmaShippedQty(sku))
    case CountAdjustment => SumOf(docs.adjustments, AdjustedQty(sku))
    case _ => 0
  }

  ghost predicate LedgerMatchesDocuments(db: Db) {
    forall sku: SkuId, kind: SourceKind :: kind != Sale ==>
      Total(QtyOfKind(sku, kind), db.inv.ledger) == Documented(db.docs, sku, kind)
  }

  // ---------- each plan moves the ledger and the documents together ----------

  /** The operations of a plan add to the ledger what the plan adds to the documents. */
  ghost predicate BalancedAt(docs: Docs, p: Plan, sku: SkuId, kind: SourceKind) {
    OpsTotal(QtyOfKind(sku, kind), p.ops) == Documented(p.docs, sku, kind) - Documented(docs, sku, kind)
  }

  lemma {:induction false} SerialReceiptTotal(d: Purchasing.Delivery, sku: SkuId, unitCost: int, ids: seq<SerialId>,
                                              f: Measure)
    requires f.QtyOfKind?
    ensures OpsTotal(f, Purchasing.NewSerialOps(d, sku, unitCost, ids))
         == if f.sku == sku && f.kind == PoReceipt then |ids| * UNIT else 0
  {
    if ids != [] {
      var tail := Purchasing.NewSerialOps(d, sku, unitCost, ids[1..]);
      SerialReceiptTotal(d, sku, unitCost, ids[1..], f);
      var head := Purchasing.NewSerialOps(d, sku, unitCost, ids)[..2];
      OpsTotalConcat(f, head, tail);
      TwoOps(f, head[0], head[1]);
      assert Purchasing.NewSerialOps(d, sku, unitCost, ids) == head + tail;
    }
  }

  lemma TwoOps(f: Measure, a: Op, b: Op)
    ensures OpsTotal(f, [a, b]) == OpsTotal(f, [a]) + OpsTotal(f, [b])
  {
    assert [a, b] == [a] + [b];
    OpsTotalConcat(f, [a], [b]);
  }

  lemma ReceiptLineTotal(docs: Docs, d: Purchasing.Delivery, line: Purchasing.ReceiptInput, sku: SkuId,
                         kind: SourceKind)
    requires kind != Sale
    ensures BalancedAt(docs, Plan(Purchasing.LineOps(docs, d, line), Purchasing.AfterLine(docs, d, line)), sku, kind)
  {
    if Purchasing.ReceiptError(docs, line).None? {
      var f := QtyOfKind(sku, kind);
      var po := docs.poLines[line.poLine];
      var row := Purchasing.AfterLine(docs, d, line).receiptLines[|docs.receiptLines|];
      SumOfConcat(docs.receiptLines, [row], ReceivedQty(docs.config, sku));
      SumOfOne(row, ReceivedQty(docs.config, sku));
      if IsSerialized(docs.config, po.sku) {
        var tail := Purchasing.NewSerialOps(d, po.sku, po.unitCost, line.serials);
        SerialReceiptTotal(d, po.sku, po.unitCost, line.serials, f);
        assert ([AssertUnknown(line.serials)] + tail)[1..] == tail;
      }
    }
  }

  lemma {:induction false} ReceiptTotal(docs: Docs, d: Purchasing.Delivery, lines: seq<Purchasing.ReceiptInput>,
                                        sku: SkuId, kind: SourceKind)
    requires kind != Sale
    ensures var r := Purchasing.ReceiveLines(docs, d, lines);
            BalancedAt(docs, Plan(r.ops, r.docs), sku, kind)
    decreases |lines|
  {
    if lines != [] {
      var next := Purchasing.AfterLine(docs, d, lines[0]);
      ReceiptLineTotal(docs, d, lines[0], sku, kind);
      ReceiptTotal(next, d, lines[1..], sku, kind);
      OpsTotalConcat(QtyOfKind(sku, kind), Purchasing.LineOps(docs, d, lines[0]),
                     Purchasing.ReceiveLines(next, d, lines[1..]).ops);
    }
  }

  lemma {:induction false} SaleTotal(env: Intake.Envelope, doc: DocId, i: nat, f: Measure)
    requires i <= |env.lines|
    requires f.QtyOfKind? && f.kind != Sale
    ensures OpsTotal(f, Intake.SaleOpsFrom(env, doc, i)) == 0
    decreases |env.lines| - i
  {
    if i < |env.lines| {
      SaleTotal(env, doc, i + 1, f);
      var line := Intake.LineOps(env, doc, i);
      TwoOps(f, line[0], line[1]);
      OpsTotalConcat(f, line, Intake.SaleOpsFrom(env, doc, i + 1));
    }
  }

  lemma ReturnLineTotal(config: Config, doc: DocId, input: Returns.ReturnInput, line: Returns.LineInput, sku: SkuId,
                        kind: SourceKind)
    requires Returns.Postable(config, line)
    ensures OpsTotal(QtyOfKind(sku, kind), Returns.LineOps(config, doc, input, line))
         == if kind == CustomerReturn then RestockedQty(sku)(Returns.NewRow(line)) else 0
  {
    var f := QtyOfKind(sku, kind);
    OpsTotalConcat(f, Returns.LookUpOps(input, line), Returns.StockOps(doc, input.at, line));
    StillOps(f, Returns.LookUpOps(input, line));
    var stock := Returns.StockOps(doc, input.at, line);
    if line.disposition == ScrapIt {
      StillOps(f, stock);
    } else {
      OpsTotalConcat(f, stock[..1], stock[1..]);
      StillOps(f, stock[1..]);
      assert stock == stock[..1] + stock[1..];
    }
  }

  lemma {:induction false} StillOps(f: Measure, ops: seq<Op>)
    requires forall i :: 0 <= i < |ops| ==> !ops[i].Move?
    ensures OpsTotal(f, ops) == 0
  {
    if ops != [] {
      StillOps(f, ops[1..]);
    }
  }

  lemma {:induction false} ReturnTotal(config: Config, doc: DocId, input: Returns.ReturnInput,
                                       lines: seq<Returns.LineInput>, sku: SkuId, kind: SourceKind)
    requires forall i :: 0 <= i < |lines| ==> Returns.Postable(config, lines[i])
    ensures OpsTotal(QtyOfKind(sku, kind), Returns.LinesOps(config, doc, input, lines))
         == if kind == CustomerReturn then SumOf(Returns.NewRows(lines), RestockedQty(sku)) else 0
  {
    if lines != [] {
      ReturnLineTotal(config, doc, input, lines[0], sku, kind);
      ReturnTotal(config, doc, input, lines[1..], sku, kind);
      assert Returns.NewRows(lines)[1..] == Returns.NewRows(lines[1..]);
      OpsTotalConcat(QtyOfKind(sku, kind), Returns.LineOps(config, doc, input, lines[0]),
                     Returns.LinesOps(config, doc, input, lines[1..]));
    }
  }

  /** A return whose operations all succeed has no invalid line. */
  lemma {:induction false} ReturnLinesValid(config: Config, inv: Inventory, doc: DocId, input: Returns.ReturnInput,
                                            lines: seq<Returns.LineInput>)
    requires ExecAll(inv, Returns.LinesOps(config, doc, input, lines)).Ok?
    ensures forall i :: 0 <= i < |lines| ==> Returns.Postable(config, lines[i])
    decreases |lines|
  {
    if lines != [] {
      ExecAllConcat(inv, Returns.LineOps(config, doc, input, lines[0]),
                    Returns.LinesOps(config, doc, input, lines[1..]));
      PostedLineValid(config, inv, doc, input, lines[0]);
      ReturnLinesValid(config, ExecAll(inv, Returns.LineOps(config, doc, input, lines[0])).value, doc, input,
                       lines[1..]);
    }
  }

  lemma PostedLineValid(config: Config, inv: Inventory, doc: DocId, input: Returns.ReturnInput, line: Returns.LineInput)
    requires ExecAll(inv, Returns.LineOps(config, doc, input, line)).Ok?
    ensures Returns.Postable(config, line)
  {
    if Returns.LineError(line).None? {
      ExecAllConcat(inv, Returns.LookUpOps(input, line), Returns.GoodsOps(config, doc, input.at, line));
    }
  }

  lemma {:induction false} RmaTotal(doc: DocId, holding: LocId, at: int, lines: seq<RmaLine>, sku: SkuId,
                                    kind: SourceKind)
    ensures OpsTotal(QtyOfKind(sku, kind), Rmas.ShipOps(doc, holding, at, lines))
         == if kind == RmaShip then -SumOf(lines, RmaLineQty(sku)) else 0
  {
    if lines != [] {
      RmaTotal(doc, holding, at, lines[1..], sku, kind);
      OpsTotalConcat(QtyOfKind(sku, kind), [Move(Rmas.Outbound(doc, holding, at, lines[0]))],
                     Rmas.ShipOps(doc, holding, at, lines[1..]));
    }
  }

  lemma {:induction false} CloseTotal(lines: seq<RmaLine>, f: Measure)
    ensures OpsTotal(f, Rmas.CloseOps(lines)) == 0
  {
    if lines != [] {
      CloseTotal(lines[1..], f);
      StillOps(f, Rmas.CloseLineOps(lines[0]));
      OpsTotalConcat(f, Rmas.CloseLineOps(lines[0]), Rmas.CloseOps(lines[1..]));
    }
  }

  lemma {:induction false} SerialLegTotal(leg: Transfers.Leg, sku: SkuId, ids: seq<SerialId>, f: Measure)
    requires f.QtyOfKind?
    ensures OpsTotal(f, Transfers.SerialOps(leg, sku, ids)) == 0
  {
    if ids != [] {
      SerialLegTotal(leg, sku, ids[1..], f);
      var all := Transfers.SerialOps(leg, sku, ids);
      TwoOps(f, all[0], all[1]);
      OpsTotalConcat(f, [all[0], all[1]], Transfers.SerialOps(leg, sku, ids[1..]));
    }
  }

  /** A leg of a transfer takes out of one location exactly what it puts into another. */
  lemma {:induction false} LegTotal(leg: Transfers.Leg, lines: seq<TransferLine>, f: Measure)
    requires f.QtyOfKind?
    ensures OpsTotal(f, Transfers.LinesOps(leg, lines)) == 0
  {
    if lines != [] {
      LegTotal(leg, lines[1..], f);
      var line := Transfers.LineOps(leg, lines[0]);
      if lines[0].serials != [] {
        SerialLegTotal(leg, lines[0].sku, lines[0].serials, f);
      } else {
        TwoOps(f, line[0], line[1]);
      }
      OpsTotalConcat(f, line, Transfers.LinesOps(leg, lines[1..]));
    }
  }

  lemma {:induction false} ApproveTotal(rows: seq<Counts.VarianceRow>, doc: DocId, at: int, c: nat, sku: SkuId,
                                        kind: SourceKind)
    ensures OpsTotal(QtyOfKind(sku, kind), Counts.ApproveOps(rows, doc, at))
         == if kind == CountAdjustment then SumOf(Counts.Adjustments(rows, c), AdjustedQty(sku)) else 0
  {
    if rows != [] {
      if rows[0].varianceQty == 0 {
        ApproveTotal(rows[1..], doc, at, c, sku, kind);
      } else {
        ApproveTotal(rows[1..], doc + 1, at, c, sku, kind);
        OpsTotalConcat(QtyOfKind(sku, kind), [Move(Counts.Adjust(rows[0], doc, at))],
                       Counts.ApproveOps(rows[1..], doc + 1, at));
      }
    }
  }

  lemma ReceiptBalanced(docs: Docs, po: nat, loc: LocId, at: int, lines: seq<Purchasing.ReceiptInput>, sku: SkuId,
                        kind: SourceKind)
    requires kind != Sale && Purchasing.PlanReceipt(docs, po, loc, at, lines).Ok?
    ensures BalancedAt(docs, Purchasing.PlanReceipt(docs, po, loc, at, lines).value, sku, kind)
  {
    var begun, d := Purchasing.OpenReceipt(docs, po, loc, at), Purchasing.Delivery(|docs.receipts|, loc, at);
    ReceiptTotal(begun, d, lines, sku, kind);
    Purchasing.ReceiveLinesKeeps(begun, d, lines);
  }

  lemma ReturnBalanced(inv: Inventory, docs: Docs, input: Returns.ReturnInput, sku: SkuId, kind: SourceKind)
    requires kind != Sale && Transact(Db(inv, docs), Returns.PlanReturn(docs, input)).Ok?
    ensures BalancedAt(docs, Returns.PlanReturn(docs, input).value, sku, kind)
  {
    ReturnLinesValid(docs.config, inv, docs.returnDocs, input, input.lines);
    ReturnTotal(docs.config, docs.returnDocs, input, input.lines, sku, kind);
    SumOfConcat(docs.returnLines, Returns.NewRows(input.lines), RestockedQty(sku));
  }

  lemma RmaCreateBalanced(db: Db, holding: LocId, lines: seq<RmaLine>, sku: SkuId, kind: SourceKind)
    requires kind != Sale && Rmas.PlanCreate(db.docs, holding, lines).Ok?
    ensures BalancedAt(db.docs, Rmas.PlanCreate(db.docs, holding, lines).value, sku, kind)
  {
    var row := Rma(RmaOpen, holding, lines, 0);
    SumOfConcat(db.docs.rmas, [row], RmaShippedQty(sku));
    SumOfOne(row, RmaShippedQty(sku));
  }

  lemma RmaShipBalanced(docs: Docs, r: nat, at: int, sku: SkuId, kind: SourceKind)
    requires kind != Sale && Rmas.PlanShip(docs, r, at).Ok?
    ensures BalancedAt(docs, Rmas.PlanShip(docs, r, at).value, sku, kind)
  {
    var rma := docs.rmas[r];
    RmaTotal(r, rma.holding, at, rma.lines, sku, kind);
    SumOfUpdate(docs.rmas, r, rma.(state := RmaShipped), RmaShippedQty(sku));
  }

  lemma RmaCloseBalanced(db: Db, r: nat, sku: SkuId, kind: SourceKind)
    requires kind != Sale && Rmas.PlanClose(db, r).Ok?
    ensures BalancedAt(db.docs, Rmas.PlanClose(db, r).value, sku, kind)
  {
    var rma := db.docs.rmas[r];
    CloseTotal(rma.lines, QtyOfKind(sku, kind));
    SumOfUpdate(db.docs.rmas, r, rma.(state := RmaDone, credit := Rmas.Credit(db.inv.serials, rma.lines)),
                RmaShippedQty(sku));
  }

  lemma ApproveBalanced(db: Db, c: nat, at: int, sku: SkuId, kind: SourceKind)
    requires kind != Sale && Counts.PlanApprove(db, c, at).Ok?
    ensures BalancedAt(db.docs, Counts.PlanApprove(db, c, at).value, sku, kind)
  {
    var rows := Counts.Report(db.inv.ledger, db.docs.counts[c], db.docs.counts[c].snapshots);
    ApproveTotal(rows, |db.docs.adjustments|, at, c, sku, kind);
    SumOfConcat(db.docs.adjustments, Counts.Adjustments(rows, c), AdjustedQty(sku));
  }

  lemma PlanBalanced(db: Db, a: Action, sku: SkuId, kind: SourceKind)
    requires Accepted(db, a) && kind != Sale
    ensures BalancedAt(db.docs, PlanOf(db, a).value, sku, kind)
  {
    var f := QtyOfKind(sku, kind);
    match a
    case PostReceipt(po, loc, at, lines) => ReceiptBalanced(db.docs, po, loc, at, lines, sku, kind);
    case PostSale(env, doc) => SaleTotal(env, doc, 0, f);
    case PostReturn(input) => ReturnBalanced(db.inv, db.docs, input, sku, kind);
    case CreateRma(holding, lines) => RmaCreateBalanced(db, holding, lines, sku, kind);
    case ShipRma(r, at) => RmaShipBalanced(db.docs, r, at, sku, kind);
    case CloseRma(r) => RmaCloseBalanced(db, r, sku, kind);
    case ShipTransfer(t, at) => LegTotal(Transfers.ShipLeg(db.docs, t, at), db.docs.transfers[t].lines, f);
    case ReceiveTransfer(t, at) => LegTotal(Transfers.ReceiveLeg(db.docs, t, at), db.docs.transfers[t].lines, f);
    case ApproveCount(c, at) => ApproveBalanced(db, c, at, sku, kind);
    case SerialCall(id, call) => StillOps(f, [CallSerial(id, call)]);
    case _ =>
  }

  lemma StepMatches(db: Db, a: Action)
    requires LedgerMatchesDocuments(db)
    ensures LedgerMatchesDocuments(Step(db, a))
  {
    if Accepted(db, a) {
      var p := PlanOf(db, a).value;
      forall sku: SkuId, kind: SourceKind | kind != Sale
        ensures Total(QtyOfKind(sku, kind), Step(db, a).inv.ledger) == Documented(p.docs, sku, kind)
      {
        PlanBalanced(db, a, sku, kind);
        ExecAllTotal(QtyOfKind(sku, kind), db.inv, p.ops);
      }
    }
  }

  lemma {:induction false} RunMatches(db: Db, actions: seq<Action>)
    requires LedgerMatchesDocuments(db)
    ensures LedgerMatchesDocuments(Run(db, actions))
    decreases |actions|
  {
    if actions != [] {
      StepMatches(db, actions[0]);
      RunMatches(Step(db, actions[0]), actions[1..]);
    }
  }

  // ---------- sales ----------

  function SaleLineQty(sku: SkuId): Intake.SaleLine -> int {
    (l: Intake.SaleLine) => if l.sku == sku then l.qty else 0
  }

  /** What the sales of a run that were accepted sold. */
  function SoldQty(db: Db, actions: seq<Action>, sku: SkuId): int
    decreases |actions|
  {
    if actions == [] then 0
    else
      var a := actions[0];
      (if a.PostSale? && Accepted(db, a) then SumOf(a.env.lines, SaleLineQty(sku)) else 0)
      + SoldQty(Step(db, a), actions[1..], sku)
  }

  lemma {:induction false} SaleSells(env: Intake.Envelope, doc: DocId, i: nat, sku: SkuId)
    requires i <= |env.lines|
    ensures OpsTotal(QtyOfKind(sku, Sale), Intake.SaleOpsFrom(env, doc, i)) == -SumOf(env.lines[i..], SaleLineQty(sku))
    decreases |env.lines| - i
  {
    if i < |env.lines| {
      SaleSells(env, doc, i + 1, sku);
      assert env.lines[i..][1..] == env.lines[i + 1..];
      var line := Intake.LineOps(env, doc, i);
      TwoOps(QtyOfKind(sku, Sale), line[0], line[1]);
      OpsTotalConcat(QtyOfKind(sku, Sale), line, Intake.SaleOpsFrom(env, doc, i + 1));
    }
  }

  lemma {:induction false} QuietSellsNothing(ops: seq<Op>, sku: SkuId)
    requires SaleRecord.AllQuiet(ops)
    ensures OpsTotal(QtyOfKind(sku, Sale), ops) == 0
  {
    if ops != [] {
      assert SaleRecord.Quiet(ops[0]);
      QuietSellsNothing(ops[1..], sku);
    }
  }

  lemma StepSells(db: Db, a: Action, sku: SkuId)
    ensures Total(QtyOfKind(sku, Sale), Step(db, a).inv.ledger)
         == Total(QtyOfKind(sku, Sale), db.inv.ledger)
          - (if a.PostSale? && Accepted(db, a) then SumOf(a.env.lines, SaleLineQty(sku)) else 0)
  {
    if Accepted(db, a) {
      var ops := PlanOf(db, a).value.ops;
      ExecAllTotal(QtyOfKind(sku, Sale), db.inv, ops);
      if a.PostSale? {
        SaleSells(a.env, a.doc, 0, sku);
        assert a.env.lines[0..] == a.env.lines;
      } else {
        SaleRecord.PlansQuiet(db, a);
        QuietSellsNothing(ops, sku);
      }
    }
  }

  lemma {:induction false} RunSells(db: Db, actions: seq<Action>, sku: SkuId)
    ensures Total(QtyOfKind(sku, Sale), Run(db, actions).inv.ledger)
         == Total(QtyOfKind(sku, Sale), db.inv.ledger) - SoldQty(db, actions, sku)
    decreases |actions|
  {
    if actions != [] {
      StepSells(db, actions[0], sku);
      RunSells(Step(db, actions[0]), actions[1..], sku);
    }
  }

  // ---------- whole units ----------

  /** Every posted receipt line has a positive quantity and, if its sku is serialised, one serial
      value per whole unit of it. */
  predicate LinesPosted(docs: Docs) {
    forall i :: 0 <= i < |docs.receiptLines| ==>
      var r := docs.receiptLines[i];
      r.qty > 0 && (IsSerialized(docs.config, r.sku) ==> |r.serials| == r.qty / UNIT)
  }

  lemma {:induction false} ReceiveKeepsPosted(docs: Docs, d: Purchasing.Delivery, lines: seq<Purchasing.ReceiptInput>)
    requires LinesPosted(docs)
    ensures LinesPosted(Purchasing.ReceiveLines(docs, d, lines).docs)
    decreases |lines|
  {
    if lines != [] {
      ReceiveKeepsPosted(Purchasing.AfterLine(docs, d, lines[0]), d, lines[1..]);
    }
  }

  lemma StepKeepsPosted(db: Db, a: Action)
    requires LinesPosted(db.docs)
    ensures LinesPosted(Step(db, a).docs)
  {
    if a.PostReceipt? && a.receiptPo < |db.docs.orders| {
      ReceiveKeepsPosted(Purchasing.OpenReceipt(db.docs, a.receiptPo, a.loc, a.at),
                         Purchasing.Delivery(|db.docs.receipts|, a.loc, a.at), a.deliveries);
    }
  }

  lemma {:induction false} RunKeepsPosted(db: Db, actions: seq<Action>)
    requires LinesPosted(db.docs)
    ensures LinesPosted(Run(db, actions).docs)
    decreases |actions|
  {
    if actions != [] {
      StepKeepsPosted(db, actions[0]);
      RunKeepsPosted(Step(db, actions[0]), actions[1..]);
    }
  }

  lemma {:induction false} ReceivedIsStated(config: Config, rows: seq<ReceiptLine>, sku: SkuId)
    requires forall i :: 0 <= i < |rows| ==> IsSerialized(config, rows[i].sku) ==>
        |rows[i].serials| == rows[i].qty / UNIT
    ensures SumOf(rows, ReceivedQty(config, sku))
        == SumOf(rows, StatedQty(sku)) - SumOf(rows, LostFraction(config, sku))
  {
    if rows != [] {
      ReceivedIsStated(config, rows[1..], sku);
    }
  }

  // ---------- the stock of a sku over all locations ----------

  function Share(sku: SkuId, k: Key, b: Balance): int {
    if k.sku == sku then b.onHand else 0
  }

  ghost function StockOf(sku: SkuId, balances: map<Key, Balance>): int
    decreases |balances|
  {
    if balances == map[] then 0
    else
      var k :| k in balances;
      Share(sku, k, balances[k]) + StockOf(sku, balances - {k})
  }

  /** The order in which the balances are added up does not matter. */
  lemma {:induction false} StockSplit(sku: SkuId, balances: map<Key, Balance>, k: Key)
    requires k in balances
    ensures StockOf(sku, balances) == Share(sku, k, balances[k]) + StockOf(sku, balances - {k})
    decreases |balances|
  {
    var first :| first in balances
        && StockOf(sku, balances) == Share(sku, first, balances[first]) + StockOf(sku, balances - {first});
    if first != k {
      StockSplit(sku, balances - {first}, k);
      StockSplit(sku, balances - {k}, first);
      assert balances - {first} - {k} == balances - {k} - {first};
    }
  }

  lemma StockUpdate(sku: SkuId, balances: map<Key, Balance>, k: Key, b: Balance)
    ensures StockOf(sku, balances[k := b])
         == StockOf(sku, balances) - (if k in balances then Share(sku, k, balances[k]) else 0) + Share(sku, k, b)
  {
    StockSplit(sku, balances[k := b], k);
    if k in balances {
      StockSplit(sku, balances, k);
      assert balances[k := b] - {k} == balances - {k};
    } else {
      assert balances[k := b] - {k} == balances;
    }
  }

  lemma ExecStock(inv: Inventory, op: Op, sku: SkuId)
    requires Exec(inv, op).Ok?
    requires StockOf(sku, inv.balances) == Total(QtyOfSku(sku), inv.ledger)
    ensures StockOf(sku, Exec(inv, op).value.balances) == Total(QtyOfSku(sku), Exec(inv, op).value.ledger)
  {
    ExecTotal(QtyOfSku(sku), inv, op);
    if op.Move? {
      var b := BalanceAt(inv, op.m.key);
      StockUpdate(sku, inv.balances, op.m.key, b.(onHand := b.onHand + op.m.qty));
    } else {
      ExecAppends(inv, op);
    }
  }

  lemma {:induction false} ExecAllStock(inv: Inventory, ops: seq<Op>, sku: SkuId)
    requires ExecAll(inv, ops).Ok?
    requires StockOf(sku, inv.balances) == Total(QtyOfSku(sku), inv.ledger)
    ensures StockOf(sku, ExecAll(inv, ops).value.balances) == Total(QtyOfSku(sku), ExecAll(inv, ops).value.ledger)
    decreases |ops|
  {
    if ops != [] {
      ExecStock(inv, ops[0], sku);
      ExecAllStock(Exec(inv, ops[0]).value, ops[1..], sku);
    }
  }

  lemma {:induction false} RunStock(db: Db, actions: seq<Action>, sku: SkuId)
    requires StockOf(sku, db.inv.balances) == Total(QtyOfSku(sku), db.inv.ledger)
    ensures StockOf(sku, Run(db, actions).inv.balances) == Total(QtyOfSku(sku), Run(db, actions).inv.ledger)
    decreases |actions|
  {
    if actions != [] {
      if Accepted(db, actions[0]) {
        ExecAllStock(db.inv, PlanOf(db, actions[0]).value.ops, sku);
      }
      RunStock(Step(db, actions[0]), actions[1..], sku);
    }
  }

  lemma {:induction false} SkuByKind(sku: SkuId, rows: seq<Row>)
    ensures Total(QtyOfSku(sku), rows)
         == Total(QtyOfKind(sku, PoReceipt), rows) + Total(QtyOfKind(sku, Sale), rows)
          + Total(QtyOfKind(sku, CustomerReturn), rows) + Total(QtyOfKind(sku, RmaShip), rows)
          + Total(QtyOfKind(sku, TransferShip), rows) + Total(QtyOfKind(sku, TransferReceive), rows)
          + Total(QtyOfKind(sku, CountAdjustment), rows) + Total(QtyOfKind(sku, Scrap), rows)
  {
    if rows != [] {
      SkuByKind(sku, rows[..|rows| - 1]);
    }
  }

  // ---------- the main results ----------

  /** What the documents and the sales say the stock of a sku is. */
  ghost function Expected(docs: Docs, sku: SkuId, sold: int): int {
    SumOf(docs.receiptLines, StatedQty(sku))                    // received
    - SumOf(docs.receiptLines, LostFraction(docs.config, sku))  // fractions of serialised lines
    - sold
    + SumOf(docs.returnLines, RestockedQty(sku))                // returned, not scrapped
    - SumOf(docs.rmas, RmaShippedQty(sku))
    + SumOf(docs.adjustments, AdjustedQty(sku))
  }

  lemma StockAddsUp(db: Db, sku: SkuId, sold: int)
    requires StockOf(sku, db.inv.balances) == Total(QtyOfSku(sku), db.inv.ledger)
    requires LedgerMatchesDocuments(db) && LinesPosted(db.docs)
    requires Total(QtyOfKind(sku, Sale), db.inv.ledger) == -sold
    ensures StockOf(sku, db.inv.balances) == Expected(db.docs, sku, sold)
  {
    SkuByKind(sku, db.inv.ledger);
    ReceivedIsStated(db.docs.config, db.docs.receiptLines, sku);
    assert forall kind: SourceKind :: kind != Sale ==>
      Total(QtyOfKind(sku, kind), db.inv.ledger) == Documented(db.docs, sku, kind);
  }

  /** After any run of any services, the stock of a sku over all locations is what was received
      (less the fractions of serialised lines), less what the accepted sales sold, plus what was
      returned and not scrapped, less what was shipped on RMAs, plus the count adjustments.
      Transfers, in whatever state, contribute nothing. */
  lemma SkuConservation(config: Config, draws: seq<int>, actions: seq<Action>, sku: SkuId)
    ensures var db := Run(EmptyDb(config, draws), actions);
            StockOf(sku, db.inv.balances) == Expected(db.docs, sku, SoldQty(EmptyDb(config, draws), actions, sku))
  {
    var start := EmptyDb(config, draws);
    RunStock(start, actions, sku);
    RunMatches(start, actions);
    RunSells(start, actions, sku);
    RunKeepsPosted(start, actions);
    StockAddsUp(Run(start, actions), sku, SoldQty(start, actions, sku));
  }

  predicate WholeUnits(rows: seq<ReceiptLine>, sku: SkuId) {
    forall i :: 0 <= i < |rows| && rows[i].sku == sku ==> rows[i].qty % UNIT == 0
  }

  /** Nothing that was received is lost exactly when every serialised receipt line of the sku is
      for whole units. */
  lemma WholeUnitsExactly(config: Config, draws: seq<int>, actions: seq<Action>, sku: SkuId)
    ensures var docs := Run(EmptyDb(config, draws), actions).docs;
            SumOf(docs.receiptLines, ReceivedQty(docs.config, sku)) == SumOf(docs.receiptLines, StatedQty(sku))
            <==> (IsSerialized(docs.config, sku) ==> WholeUnits(docs.receiptLines, sku))
  {
    var docs := Run(EmptyDb(config, draws), actions).docs;
    RunKeepsPosted(EmptyDb(config, draws), actions);
    ReceivedIsStated(docs.config, docs.receiptLines, sku);
    SumZero(docs.receiptLines, LostFraction(docs.config, sku));
    assert forall j :: 0 <= j < |docs.receiptLines| ==>
      LostFraction(docs.config, sku)(docs.receiptLines[j])
        == (if docs.receiptLines[j].sku == sku && IsSerialized(docs.config, sku)
            then docs.receiptLines[j].qty % UNIT else 0);
  }
}
