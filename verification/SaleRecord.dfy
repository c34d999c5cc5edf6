/** What offline sales leave in the ledger: whole blocks of sale rows, one block per accepted
    envelope, and an entry of the unique index per envelope that has lines. */
module SaleRecord {
  import opened Tables
  import opened Ledger
  import opened Database
  import opened Intake
  import Runs
  import Purchasing
  import Returns
  import Rmas
  import Transfers
  import Counts

  /** The sale rows of the ledger, without their costs. */
  function SalesIn(rows: seq<Row>): seq<Row> {
    if rows == [] then []
    else
      var last := rows[|rows| - 1];
      SalesIn(rows[..|rows| - 1]) + (if last.kind == Sale then [last.(unitCost := 0)] else [])
  }

  lemma SalesAppend(rows: seq<Row>, r: Row)
    ensures SalesIn(rows + [r]) == SalesIn(rows) + (if r.kind == Sale then [r.(unitCost := 0)] else [])
  {
    assert (rows + [r])[..|rows|] == rows;
  }

  function SaleRow(env: Envelope, doc: DocId, i: nat): Row
    requires i < |env.lines|
  {
    Row(env.at, Key(env.lines[i].sku, env.loc), -env.lines[i].qty, 0, Sale, doc, None, if i == 0 then Some(env.id)
        else None)
  }

  /** The rows of an envelope: one per line, all of one document, the first one with its id. */
  function BlockFrom(env: Envelope, doc: DocId, i: nat): seq<Row>
    requires i <= |env.lines|
    decreases |env.lines| - i
  {
    if i == |env.lines| then [] else [SaleRow(env, doc, i)] + BlockFrom(env, doc, i + 1)
  }

  function Block(env: Envelope, doc: DocId): seq<Row> {
    BlockFrom(env, doc, 0)
  }

  lemma LineRecorded(inv: Inventory, env: Envelope, doc: DocId, i: nat, id: IntakeId)
    requires i < |env.lines| && ExecAll(inv, LineOps(env, doc, i)).Ok?
    ensures var inv' := ExecAll(inv, LineOps(env, doc, i)).value;
            && SalesIn(inv'.ledger) == SalesIn(inv.ledger) + [SaleRow(env, doc, i)]
            && (UsesIntake(inv'.ledger, id) <==> UsesIntake(inv.ledger, id) || (i == 0 && id == env.id))
    ensures i == 0 ==> !UsesIntake(inv.ledger, env.id)
  {
    LineExec(inv, env, doc, i);
    var inv' := ExecAll(inv, LineOps(env, doc, i)).value;
    SalesAppend(inv.ledger, inv'.ledger[|inv.ledger|]);
    IntakeAppend(inv.ledger, inv'.ledger[|inv.ledger|], id);
  }

  lemma {:induction false} LinesSell(inv: Inventory, env: Envelope, doc: DocId, i: nat)
    requires i <= |env.lines| && ExecAll(inv, SaleOpsFrom(env, doc, i)).Ok?
    ensures SalesIn(ExecAll(inv, SaleOpsFrom(env, doc, i)).value.ledger) == SalesIn(inv.ledger) + BlockFrom(env, doc, i)
    decreases |env.lines| - i
  {
    if i < |env.lines| {
      ExecAllConcat(inv, LineOps(env, doc, i), SaleOpsFrom(env, doc, i + 1));
      LineRecorded(inv, env, doc, i, env.id);
      LinesSell(ExecAll(inv, LineOps(env, doc, i)).value, env, doc, i + 1);
      Regroup(SalesIn(inv.ledger), SaleRow(env, doc, i), BlockFrom(env, doc, i + 1));
    }
  }

  lemma Regroup(a: seq<Row>, r: Row, b: seq<Row>)
    ensures (a + [r]) + b == a + ([r] + b)
  {
  }

  lemma {:induction false} LinesIndexed(inv: Inventory, env: Envelope, doc: DocId, i: nat, id: IntakeId)
    requires i <= |env.lines| && ExecAll(inv, SaleOpsFrom(env, doc, i)).Ok?
    ensures UsesIntake(ExecAll(inv, SaleOpsFrom(env, doc, i)).value.ledger, id)
       <==> UsesIntake(inv.ledger, id) || (i == 0 && env.lines != [] && id == env.id)
    ensures i == 0 && env.lines != [] ==> !UsesIntake(inv.ledger, env.id)
    decreases |env.lines| - i
  {
    if i < |env.lines| {
      ExecAllConcat(inv, LineOps(env, doc, i), SaleOpsFrom(env, doc, i + 1));
      LineRecorded(inv, env, doc, i, id);
      LinesIndexed(ExecAll(inv, LineOps(env, doc, i)).value, env, doc, i + 1, id);
    }
  }

  /** A sale that goes through was not recorded before, and is recorded whole. */
  lemma SaleRecorded(inv: Inventory, env: Envelope, doc: DocId, id: IntakeId)
    requires ExecAll(inv, SaleOps(env, doc)).Ok?
    ensures var inv' := ExecAll(inv, SaleOps(env, doc)).value;
            && SalesIn(inv'.ledger) == SalesIn(inv.ledger) + Block(env, doc)
            && (UsesIntake(inv'.ledger, id) <==> UsesIntake(inv.ledger, id) || (env.lines != [] && id == env.id))
    ensures env.lines != [] ==> !UsesIntake(inv.ledger, env.id)
  {
    LinesSell(inv, env, doc, 0);
    LinesIndexed(inv, env, doc, 0, id);
  }

  lemma {:induction false} LinesRaise(inv: Inventory, env: Envelope, doc: DocId, i: nat)
    requires i <= |env.lines| && ExecAll(inv, SaleOpsFrom(env, doc, i)) == Raise(IntegrityError)
    ensures i == 0 && env.lines != [] && UsesIntake(inv.ledger, env.id)
    decreases |env.lines| - i
  {
    if i < |env.lines| {
      ExecAllConcat(inv, LineOps(env, doc, i), SaleOpsFrom(env, doc, i + 1));
      LineExec(inv, env, doc, i);
      var line := ExecAll(inv, LineOps(env, doc, i));
      if line.Ok? {
        LinesRaise(line.value, env, doc, i + 1);
      }
    }
  }

  /** The unique index answers only for an envelope that was recorded before. */
  lemma DuplicateMeansRecorded(inv: Inventory, env: Envelope, doc: DocId)
    requires ExecAll(inv, SaleOps(env, doc)) == Raise(IntegrityError)
    ensures env.lines != [] && UsesIntake(inv.ledger, env.id)
  {
    LinesRaise(inv, env, doc, 0);
  }

  // ---------- the other services record no sales ----------

  /** Not a movement that sells or carries a client intake id. */
  predicate Quiet(op: Op) {
    op.Move? ==> op.m.kind != Sale && op.m.intake.None?
  }

  predicate AllQuiet(ops: seq<Op>) {
    forall i :: 0 <= i < |ops| ==> Quiet(ops[i])
  }

  lemma QuietStep(inv: Inventory, op: Op, id: IntakeId)
    requires Quiet(op) && Exec(inv, op).Ok?
    ensures SalesIn(Exec(inv, op).value.ledger) == SalesIn(inv.ledger)
    ensures UsesIntake(Exec(inv, op).value.ledger, id) <==> UsesIntake(inv.ledger, id)
  {
    ExecAppends(inv, op);
    if op.Move? {
      var ledger := Exec(inv, op).value.ledger;
      SalesAppend(inv.ledger, ledger[|inv.ledger|]);
      IntakeAppend(inv.ledger, ledger[|inv.ledger|], id);
    }
  }

  lemma {:induction false} QuietKeeps(inv: Inventory, ops: seq<Op>, id: IntakeId)
    requires AllQuiet(ops) && ExecAll(inv, ops).Ok?
    ensures SalesIn(ExecAll(inv, ops).value.ledger) == SalesIn(inv.ledger)
    ensures UsesIntake(ExecAll(inv, ops).value.ledger, id) <==> UsesIntake(inv.ledger, id)
    decreases |ops|
  {
    if ops != [] {
      QuietStep(inv, ops[0], id);
      QuietKeeps(Exec(inv, ops[0]).value, ops[1..], id);
    }
  }

  lemma {:induction false} SerialsQuiet(d: Purchasing.Delivery, sku: SkuId, unitCost: int, ids: seq<SerialId>)
    ensures AllQuiet(Purchasing.NewSerialOps(d, sku, unitCost, ids))
  {
    if ids != [] {
      SerialsQuiet(d, sku, unitCost, ids[1..]);
    }
  }

  lemma {:induction false} ReceiptQuiet(docs: Docs, d: Purchasing.Delivery, lines: seq<Purchasing.ReceiptInput>)
    ensures AllQuiet(Purchasing.ReceiveLines(docs, d, lines).ops)
    decreases |lines|
  {
    if lines != [] {
      ReceiptLineQuiet(docs, d, lines[0]);
      ReceiptQuiet(Purchasing.AfterLine(docs, d, lines[0]), d, lines[1..]);
    }
  }

  lemma ReceiptLineQuiet(docs: Docs, d: Purchasing.Delivery, line: Purchasing.ReceiptInput)
    ensures AllQuiet(Purchasing.LineOps(docs, d, line))
  {
    if Purchasing.ReceiptError(docs, line).None? {
      SerialsQuiet(d, docs.poLines[line.poLine].sku, docs.poLines[line.poLine].unitCost, line.serials);
    }
  }

  lemma {:induction false} ReturnQuiet(config: Config, doc: DocId, input: Returns.ReturnInput,
                                       lines: seq<Returns.LineInput>)
    ensures AllQuiet(Returns.LinesOps(config, doc, input, lines))
  {
    if lines != [] {
      ReturnQuiet(config, doc, input, lines[1..]);
      assert AllQuiet(Returns.LineOps(config, doc, input, lines[0]));
    }
  }

  lemma {:induction false} RmaQuiet(doc: DocId, holding: LocId, at: int, lines: seq<RmaLine>)
    ensures AllQuiet(Rmas.ShipOps(doc, holding, at, lines)) && AllQuiet(Rmas.CloseOps(lines))
  {
    if lines != [] {
      RmaQuiet(doc, holding, at, lines[1..]);
    }
  }

  lemma {:induction false} SerialLegQuiet(leg: Transfers.Leg, sku: SkuId, ids: seq<SerialId>)
    requires leg.kind != Sale
    ensures AllQuiet(Transfers.SerialOps(leg, sku, ids))
  {
    if ids != [] {
      SerialLegQuiet(leg, sku, ids[1..]);
    }
  }

  lemma {:induction false} LegQuiet(leg: Transfers.Leg, lines: seq<TransferLine>)
    requires leg.kind != Sale
    ensures AllQuiet(Transfers.LinesOps(leg, lines))
  {
    if lines != [] {
      SerialLegQuiet(leg, lines[0].sku, lines[0].serials);
      LegQuiet(leg, lines[1..]);
    }
  }

  lemma {:induction false} ApproveQuiet(rows: seq<Counts.VarianceRow>, doc: DocId, at: int)
    ensures AllQuiet(Counts.ApproveOps(rows, doc, at))
  {
    if rows != [] {
      ApproveQuiet(rows[1..], doc, at);
      ApproveQuiet(rows[1..], doc + 1, at);
    }
  }

  lemma PlansQuiet(db: Db, a: Runs.Action)
    requires !a.PostSale? && Runs.PlanOf(db, a).Ok?
    ensures AllQuiet(Runs.PlanOf(db, a).value.ops)
  {
    match a
    case PostReceipt(po, loc, at, lines) =>
      ReceiptQuiet(Purchasing.OpenReceipt(db.docs, po, loc, at), Purchasing.Delivery(|db.docs.receipts|, loc, at),
                   lines);
    case PostReturn(input) => ReturnQuiet(db.docs.config, db.docs.returnDocs, input, input.lines);
    case ShipRma(r, at) => RmaQuiet(r, db.docs.rmas[r].holding, at, db.docs.rmas[r].lines);
    case CloseRma(r) => RmaQuiet(r, db.docs.rmas[r].holding, 0, db.docs.rmas[r].lines);
    case ShipTransfer(t, at) => LegQuiet(Transfers.ShipLeg(db.docs, t, at), db.docs.transfers[t].lines);
    case ReceiveTransfer(t, at) => LegQuiet(Transfers.ReceiveLeg(db.docs, t, at), db.docs.transfers[t].lines);
    case ApproveCount(c, at) =>
      ApproveQuiet(Counts.Report(db.inv.ledger, db.docs.counts[c], db.docs.counts[c].snapshots),
                   |db.docs.adjustments|, at);
    case _ =>
  }

  /** No other service sells anything or uses a client intake id. */
  lemma OthersRecordNothing(db: Db, a: Runs.Action, id: IntakeId)
    requires !a.PostSale?
    ensures SalesIn(Runs.Step(db, a).inv.ledger) == SalesIn(db.inv.ledger)
    ensures UsesIntake(Runs.Step(db, a).inv.ledger, id) <==> UsesIntake(db.inv.ledger, id)
  {
    if Runs.Accepted(db, a) {
      PlansQuiet(db, a);
      QuietKeeps(db.inv, Runs.PlanOf(db, a).value.ops, id);
    }
  }
}
