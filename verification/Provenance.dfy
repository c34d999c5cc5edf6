/** Every ledger row says which call posted it: the rows a call appends carry its kind, document and
    date, name its goods, and cost what it states. */
module Provenance {
  import opened Tables
  import opened Ledger
  import opened Database
  import opened Runs
  import Counts
  import Intake
  import Purchasing
  import Reconciliation
  import Returns
  import Rmas
  import Transfers

  // ---------- what a row of each call looks like ----------

  predicate Dated(r: Row, kind: SourceKind, doc: DocId, at: int) {
    r.kind == kind && r.doc == doc && r.occurredAt == at
  }

  /** A row for an entry of a receipt: at the cost of the order line, one unit of a serial of the entry
      or the whole quantity. */
  predicate ForEntry(docs: Docs, loc: LocId, e: Purchasing.ReceiptInput, r: Row) {
    && e.poLine < |docs.poLines| && r.key == Key(docs.poLines[e.poLine].sku, loc) && r.intake.None?
    && r.unitCost == docs.poLines[e.poLine].unitCost
    && (if IsSerialized(docs.config, r.key.sku) then r.qty == UNIT && r.serial.Some? && r.serial.value in e.serials
        else r.qty == e.qty && r.serial.None?)
  }

  predicate ForReturnLine(l: Returns.LineInput, r: Row) {
    && l.disposition != ScrapIt && r.key == Key(l.sku, l.target) && r.qty == l.qty && r.serial == l.serial
    && (r.qty > 0 ==> r.unitCost == 0)
  }

  predicate ForRmaLine(holding: LocId, l: RmaLine, r: Row) {
    r.key == Key(l.sku, holding) && r.qty == -l.qty && r.serial == l.serial
  }

  /** A row for a transfer line: out of one location or into the other, a unit per serial or the whole
      quantity; loose goods come in at no cost. */
  predicate ForTransferLine(from: LocId, to: LocId, l: TransferLine, r: Row) {
    && r.key.sku == l.sku
    && (if l.serials != [] then r.serial.Some? && r.serial.value in l.serials && r.qty in {UNIT, -UNIT}
        else r.serial.None? && r.qty in {l.qty, -l.qty})
    && ((r.key.loc == from && (r.qty == -UNIT || r.qty == -l.qty))
        || (r.key.loc == to && (r.qty == UNIT || r.qty == l.qty) && (r.serial.None? && r.qty > 0 ==> r.unitCost == 0)))
  }

  predicate ForSaleLine(env: Intake.Envelope, i: nat, r: Row) {
    && i < |env.lines| && r.key == Key(env.lines[i].sku, env.loc) && r.qty == -env.lines[i].qty && r.serial.None?
    && r.intake == if i == 0 then Some(env.id) else None
  }

  /** A row an accepted call may append, told from the call and the documents before it. */
  ghost predicate Stamped(db: Db, a: Action, r: Row) {
    var docs := db.docs;
    match a
    case PostReceipt(_, loc, at, entries) =>
      Dated(r, PoReceipt, |docs.receipts|, at) && exists e :: e in entries && ForEntry(docs, loc, e, r)
    case PostSale(env, doc) => Dated(r, Sale, doc, env.at) && exists i: nat :: ForSaleLine(env, i, r)
    case PostReturn(input) =>
      Dated(r, CustomerReturn, docs.returnDocs, input.at) && r.intake.None?
      && exists l :: l in input.lines && ForReturnLine(l, r)
    case ShipRma(i, at) =>
      i < |docs.rmas| && Dated(r, RmaShip, i, at) && r.intake.None?
      && exists l :: l in docs.rmas[i].lines && ForRmaLine(docs.rmas[i].holding, l, r)
    case ShipTransfer(t, at) =>
      t < |docs.transfers| && Dated(r, TransferShip, t, at) && r.intake.None?
      && exists l :: l in docs.transfers[t].lines
                     && ForTransferLine(docs.transfers[t].source, docs.config.transit, l, r)
    case ReceiveTransfer(t, at) =>
      t < |docs.transfers| && Dated(r, TransferReceive, t, at) && r.intake.None?
      && exists l :: l in docs.transfers[t].lines
                     && ForTransferLine(docs.config.transit, docs.transfers[t].destination, l, r)
    case ApproveCount(c, at) =>
      && r.kind == CountAdjustment && r.occurredAt == at && r.intake.None? && r.serial.None?
      && (r.qty > 0 ==> r.unitCost == 0)
      && |docs.adjustments| <= r.doc < |Step(db, a).docs.adjustments|
      && Step(db, a).docs.adjustments[r.doc] == Adjustment(r.key, r.qty, c)
    case _ => false
  }

  // ---------- from operations to rows ----------

  /** Whatever cost the movement resolves to, its row is one of the call. */
  ghost predicate OpStamped(db: Db, a: Action, op: Op) {
    op.Move? ==>
      forall cost :: (op.m.qty > 0 && op.m.unitCost.Some? ==> cost == op.m.unitCost.value) ==>
        Stamped(db, a, RowOf(op.m, cost))
  }

  ghost predicate AllStamped(db: Db, a: Action, ops: seq<Op>) {
    forall i :: 0 <= i < |ops| ==> OpStamped(db, a, ops[i])
  }

  lemma AllStampedConcat(db: Db, a: Action, x: seq<Op>, y: seq<Op>)
    requires AllStamped(db, a, x) && AllStamped(db, a, y)
    ensures AllStamped(db, a, x + y)
  {
  }

  /** An inbound movement that states a cost is posted at that cost. */
  lemma CostPosted(inv: Inventory, m: Movement, layerId: int)
    requires Post(inv, m, layerId).Ok?
    ensures var ledger := Post(inv, m, layerId).value.ledger;
            && |ledger| == |inv.ledger| + 1 && ledger[..|inv.ledger|] == inv.ledger
            && ledger[|inv.ledger|] == RowOf(m, ledger[|inv.ledger|].unitCost)
            && (m.qty > 0 && m.unitCost.Some? ==> ledger[|inv.ledger|].unitCost == m.unitCost.value)
  {
  }

  lemma {:induction false} RowsStamped(db: Db, a: Action, inv: Inventory, ops: seq<Op>)
    requires AllStamped(db, a, ops) && ExecAll(inv, ops).Ok?
    ensures var ledger := ExecAll(inv, ops).value.ledger;
            && |inv.ledger| <= |ledger|
            && forall i :: |inv.ledger| <= i < |ledger| ==> Stamped(db, a, ledger[i])
    decreases |ops|
  {
    if ops != [] {
      var next := Exec(inv, ops[0]).value;
      assert OpStamped(db, a, ops[0]);
      RowsStamped(db, a, next, ops[1..]);
      LedgerGrows(next, ops[1..]);
      if ops[0].Move? {
        CostPosted(inv, ops[0].m, NextId(inv));
        assert ExecAll(inv, ops).value.ledger[|inv.ledger|] == next.ledger[|inv.ledger|];
      } else {
        ExecAppends(inv, ops[0]);
      }
    }
  }

  // ---------- the plans ----------

  lemma {:induction false} NewSerialsStamped(db: Db, a: Action, d: Purchasing.Delivery, e: Purchasing.ReceiptInput,
                                             ids: seq<SerialId>)
    requires a.PostReceipt? && d == Purchasing.Delivery(|db.docs.receipts|, a.loc, a.at)
    requires e in a.deliveries && e.poLine < |db.docs.poLines|
    requires IsSerialized(db.docs.config, db.docs.poLines[e.poLine].sku)
    requires forall i :: 0 <= i < |ids| ==> ids[i] in e.serials
    ensures AllStamped(db, a, Purchasing.NewSerialOps(d, db.docs.poLines[e.poLine].sku,
                                                      db.docs.poLines[e.poLine].unitCost, ids))
  {
    if ids != [] {
      var po := db.docs.poLines[e.poLine];
      NewSerialsStamped(db, a, d, e, ids[1..]);
      var m := OfSerial(Key(po.sku, d.loc), UNIT, PoReceipt, d.receipt, ids[0], Some(po.unitCost), d.at,
                        Some(Sellable));
      assert ForEntry(db.docs, a.loc, e, RowOf(m, po.unitCost));
    }
  }

  lemma EntryStamped(db: Db, a: Action, docs: Docs, d: Purchasing.Delivery, e: Purchasing.ReceiptInput)
    requires a.PostReceipt? && d == Purchasing.Delivery(|db.docs.receipts|, a.loc, a.at) && e in a.deliveries
    requires SameGoods(db.docs, docs)
    ensures AllStamped(db, a, Purchasing.LineOps(docs, d, e))
  {
    if Purchasing.ReceiptError(docs, e).None? {
      var po := docs.poLines[e.poLine];
      if IsSerialized(docs.config, po.sku) {
        NewSerialsStamped(db, a, d, e, e.serials);
      } else {
        var m := Loose(Key(po.sku, d.loc), e.qty, PoReceipt, d.receipt, Some(po.unitCost), d.at);
        assert ForEntry(db.docs, a.loc, e, RowOf(m, po.unitCost));
      }
    }
  }

  /** Order lines for the same goods at the same cost. */
  predicate SameGoods(a: Docs, b: Docs) {
    && a.config == b.config && |a.poLines| == |b.poLines|
    && (forall j :: 0 <= j < |a.poLines| ==>
          a.poLines[j].sku == b.poLines[j].sku && a.poLines[j].unitCost == b.poLines[j].unitCost)
  }

  lemma {:induction false} ReceiptStamped(db: Db, a: Action, docs: Docs, d: Purchasing.Delivery,
                                          entries: seq<Purchasing.ReceiptInput>)
    requires a.PostReceipt? && d == Purchasing.Delivery(|db.docs.receipts|, a.loc, a.at)
    requires SameGoods(db.docs, docs) && forall i :: 0 <= i < |entries| ==> entries[i] in a.deliveries
    ensures AllStamped(db, a, Purchasing.ReceiveLines(docs, d, entries).ops)
    decreases |entries|
  {
    if entries != [] {
      var next := Purchasing.AfterLine(docs, d, entries[0]);
      EntryStamped(db, a, docs, d, entries[0]);
      ReceiptStamped(db, a, next, d, entries[1..]);
      AllStampedConcat(db, a, Purchasing.LineOps(docs, d, entries[0]),
                       Purchasing.ReceiveLines(next, d, entries[1..]).ops);
    }
  }

  lemma {:induction false} SaleStamped(db: Db, a: Action, i: nat)
    requires a.PostSale? && i <= |a.env.lines|
    ensures AllStamped(db, a, Intake.SaleOpsFrom(a.env, a.doc, i))
    decreases |a.env.lines| - i
  {
    if i < |a.env.lines| {
      SaleStamped(db, a, i + 1);
      forall cost ensures Stamped(db, a, RowOf(Intake.SaleMovement(a.env, a.doc, i), cost)) {
        assert ForSaleLine(a.env, i, RowOf(Intake.SaleMovement(a.env, a.doc, i), cost));
      }
      AllStampedConcat(db, a, Intake.LineOps(a.env, a.doc, i), Intake.SaleOpsFrom(a.env, a.doc, i + 1));
    }
  }

  lemma ReturnLineStamped(db: Db, a: Action, l: Returns.LineInput)
    requires a.PostReturn? && l in a.input.lines
    ensures AllStamped(db, a, Returns.StockOps(db.docs.returnDocs, a.input.at, l))
  {
    var m := Returns.Restock(db.docs.returnDocs, a.input.at, l);
    if l.disposition != ScrapIt {
      forall cost | m.qty > 0 ==> cost == 0 ensures Stamped(db, a, RowOf(m, cost)) {
        assert ForReturnLine(l, RowOf(m, cost));
      }
    }
  }

  lemma {:induction false} ReturnStamped(db: Db, a: Action, lines: seq<Returns.LineInput>)
    requires a.PostReturn? && forall i :: 0 <= i < |lines| ==> lines[i] in a.input.lines
    ensures AllStamped(db, a, Returns.LinesOps(db.docs.config, db.docs.returnDocs, a.input, lines))
  {
    if lines != [] {
      ReturnLineStamped(db, a, lines[0]);
      ReturnStamped(db, a, lines[1..]);
      AllStampedConcat(db, a, Returns.LineOps(db.docs.config, db.docs.returnDocs, a.input, lines[0]),
                       Returns.LinesOps(db.docs.config, db.docs.returnDocs, a.input, lines[1..]));
    }
  }

  lemma {:induction false} RmaStamped(db: Db, a: Action, lines: seq<RmaLine>)
    requires a.ShipRma? && a.rma < |db.docs.rmas|
    requires forall i :: 0 <= i < |lines| ==> lines[i] in db.docs.rmas[a.rma].lines
    ensures AllStamped(db, a, Rmas.ShipOps(a.rma, db.docs.rmas[a.rma].holding, a.at, lines))
  {
    if lines != [] {
      RmaStamped(db, a, lines[1..]);
      var m := Rmas.Outbound(a.rma, db.docs.rmas[a.rma].holding, a.at, lines[0]);
      forall cost ensures Stamped(db, a, RowOf(m, cost)) {
        assert ForRmaLine(db.docs.rmas[a.rma].holding, lines[0], RowOf(m, cost));
      }
    }
  }

  /** The leg of an accepted shipping or receiving, told from the call. */
  predicate IsLeg(db: Db, a: Action, leg: Transfers.Leg) {
    || (a.ShipTransfer? && a.transfer < |db.docs.transfers|
        && leg.kind == TransferShip && leg.from == db.docs.transfers[a.transfer].source
        && leg.to == db.docs.config.transit && leg.doc == a.transfer && leg.at == a.at)
    || (a.ReceiveTransfer? && a.transfer < |db.docs.transfers|
        && leg.kind == TransferReceive && leg.from == db.docs.config.transit
        && leg.to == db.docs.transfers[a.transfer].destination && leg.doc == a.transfer && leg.at == a.at)
  }

  lemma LegRow(db: Db, a: Action, leg: Transfers.Leg, l: TransferLine, r: Row)
    requires IsLeg(db, a, leg) && l in db.docs.transfers[a.transfer].lines
    requires Dated(r, leg.kind, leg.doc, leg.at) && r.intake.None? && ForTransferLine(leg.from, leg.to, l, r)
    ensures Stamped(db, a, r)
  {
  }

  lemma {:induction false} SerialLegStamped(db: Db, a: Action, leg: Transfers.Leg, l: TransferLine, ids: seq<SerialId>)
    requires IsLeg(db, a, leg) && l in db.docs.transfers[a.transfer].lines && l.serials != []
    requires forall i :: 0 <= i < |ids| ==> ids[i] in l.serials
    ensures AllStamped(db, a, Transfers.SerialOps(leg, l.sku, ids))
  {
    if ids != [] {
      SerialLegStamped(db, a, leg, l, ids[1..]);
      var out := OfSerial(Key(l.sku, leg.from), -UNIT, leg.kind, leg.doc, ids[0], None, leg.at, None);
      var into := OfSerial(Key(l.sku, leg.to), UNIT, leg.kind, leg.doc, ids[0], None, leg.at, Some(leg.stateAfter));
      forall cost ensures Stamped(db, a, RowOf(out, cost)) && Stamped(db, a, RowOf(into, cost)) {
        LegRow(db, a, leg, l, RowOf(out, cost));
        LegRow(db, a, leg, l, RowOf(into, cost));
      }
    }
  }

  lemma LegLineStamped(db: Db, a: Action, leg: Transfers.Leg, l: TransferLine)
    requires IsLeg(db, a, leg) && l in db.docs.transfers[a.transfer].lines
    ensures AllStamped(db, a, Transfers.LineOps(leg, l))
  {
    if l.serials != [] {
      SerialLegStamped(db, a, leg, l, l.serials);
    } else {
      var out := Loose(Key(l.sku, leg.from), -l.qty, leg.kind, leg.doc, None, leg.at);
      var into := Loose(Key(l.sku, leg.to), l.qty, leg.kind, leg.doc, Some(0), leg.at);
      forall cost ensures Stamped(db, a, RowOf(out, cost)) {
        LegRow(db, a, leg, l, RowOf(out, cost));
      }
      forall cost | into.qty > 0 ==> cost == 0 ensures Stamped(db, a, RowOf(into, cost)) {
        LegRow(db, a, leg, l, RowOf(into, cost));
      }
    }
  }

  lemma {:induction false} LegStamped(db: Db, a: Action, leg: Transfers.Leg, lines: seq<TransferLine>)
    requires IsLeg(db, a, leg) && forall i :: 0 <= i < |lines| ==> lines[i] in db.docs.transfers[a.transfer].lines
    ensures AllStamped(db, a, Transfers.LinesOps(leg, lines))
  {
    if lines != [] {
      LegLineStamped(db, a, leg, lines[0]);
      LegStamped(db, a, leg, lines[1..]);
      AllStampedConcat(db, a, Transfers.LineOps(leg, lines[0]), Transfers.LinesOps(leg, lines[1..]));
    }
  }

  lemma {:induction false} ApprovalStamped(db: Db, a: Action, adjustments: seq<Adjustment>,
                                           rows: seq<Counts.VarianceRow>)
    requires a.ApproveCount? && |db.docs.adjustments| <= |adjustments|
    requires adjustments + Counts.Adjustments(rows, a.count) == Step(db, a).docs.adjustments
    ensures AllStamped(db, a, Counts.ApproveOps(rows, |adjustments|, a.at))
    decreases |rows|
  {
    if rows != [] {
      if rows[0].varianceQty == 0 {
        ApprovalStamped(db, a, adjustments, rows[1..]);
      } else {
        var one := Adjustment(rows[0].key, rows[0].varianceQty, a.count);
        assert adjustments + ([one] + Counts.Adjustments(rows[1..], a.count))
            == (adjustments + [one]) + Counts.Adjustments(rows[1..], a.count);
        assert Step(db, a).docs.adjustments[|adjustments|] == one;
        ApprovalStamped(db, a, adjustments + [one], rows[1..]);
      }
    }
  }

  lemma PlanStamped(db: Db, a: Action)
    requires Accepted(db, a)
    ensures AllStamped(db, a, PlanOf(db, a).value.ops)
  {
    match a
    case PostReceipt(po, loc, at, entries) =>
      ReceiptStamped(db, a, Purchasing.OpenReceipt(db.docs, po, loc, at),
                     Purchasing.Delivery(|db.docs.receipts|, loc, at), entries);
    case PostSale(env, doc) => SaleStamped(db, a, 0);
    case PostReturn(input) => ReturnStamped(db, a, input.lines);
    case ShipRma(r, at) => RmaStamped(db, a, db.docs.rmas[r].lines);
    case CloseRma(r) => ClosingStamped(db, a, db.docs.rmas[r].lines);
    case ShipTransfer(t, at) => LegStamped(db, a, Transfers.ShipLeg(db.docs, t, at), db.docs.transfers[t].lines);
    case ReceiveTransfer(t, at) =>
      LegStamped(db, a, Transfers.ReceiveLeg(db.docs, t, at), db.docs.transfers[t].lines);
    case ApproveCount(c, at) =>
      ApprovalStamped(db, a, db.docs.adjustments,
                      Counts.Report(db.inv.ledger, db.docs.counts[c], db.docs.counts[c].snapshots));
    case _ =>
  }

  lemma {:induction false} ClosingStamped(db: Db, a: Action, lines: seq<RmaLine>)
    ensures AllStamped(db, a, Rmas.CloseOps(lines))
  {
    if lines != [] {
      ClosingStamped(db, a, lines[1..]);
    }
  }

  // ---------- the main results ----------

  /** Every row an accepted call appends is one of its own. */
  lemma RowsTellTheirCall(db: Db, a: Action, i: nat)
    requires |db.inv.ledger| <= i < |Step(db, a).inv.ledger|
    ensures Accepted(db, a) && Stamped(db, a, Step(db, a).inv.ledger[i])
  {
    PlanStamped(db, a);
    RowsStamped(db, a, db.inv, PlanOf(db, a).value.ops);
  }

  /** Every row of the ledger of any run was appended by one accepted call of the run, and tells it. */
  lemma {:induction false} EveryRowTold(db: Db, actions: seq<Action>, i: nat) returns (n: nat)
    requires |db.inv.ledger| <= i < |Run(db, actions).inv.ledger|
    ensures n < |actions|
    ensures Accepted(Run(db, actions[..n]), actions[n])
    ensures Stamped(Run(db, actions[..n]), actions[n], Run(db, actions).inv.ledger[i])
    decreases |actions|
  {
    var next := Step(db, actions[0]);
    if i < |next.inv.ledger| {
      n := 0;
      RowsTellTheirCall(db, actions[0], i);
      Reconciliation.RunLedgerGrows(next, actions[1..]);
      assert Run(db, actions[..0]) == db;
    } else {
      var m := EveryRowTold(next, actions[1..], i);
      n := m + 1;
      assert actions[..n][1..] == actions[1..][..m];
    }
  }
}
