/** What each accepted call does to the stock of every pair, and what a whole run leaves of it. */
module Effects {
  import opened Tables
  import opened Ledger
  import opened Database
  import opened Sums
  import opened Runs
  import Conservation
  import Counts
  import Intake
  import OrderHistory
  import Purchasing
  import Reconciliation
  import Returns
  import Rmas
  import Transfers
  import Transit

  // ---------- what the calls say ----------

  /** What a receipt entry brings in of a sku: one unit per serial, or the stated quantity. */
  function EntryUnits(config: Config, poLines: seq<PoLine>, sku: SkuId): Purchasing.ReceiptInput -> int {
    (e: Purchasing.ReceiptInput) =>
      if e.poLine < |poLines| && poLines[e.poLine].sku == sku
        then (if IsSerialized(config, sku) then |e.serials| * UNIT else e.qty) else 0
  }

  /** What a return line puts back at the pair: nothing if it is scrapped. */
  function PutBack(k: Key): Returns.LineInput -> int {
    (l: Returns.LineInput) => if l.sku == k.sku && l.target == k.loc && l.disposition != ScrapIt then l.qty else 0
  }

  /** Counted, minus the snapshot, minus every row dated at or after the opening. */
  function Missing(c: CountSession, ledger: seq<Row>, k: Key): Snapshot -> int {
    (s: Snapshot) =>
      if s.key == k
        then SumOf(c.entries, Reconciliation.EntryQty(k)) - s.onHand
            - SumOf(ledger, Reconciliation.MovedFrom(k, c.openedAt))
      else 0
  }

  /** What an accepted call adds to the stock of a pair. */
  function Change(db: Db, a: Action, k: Key): int {
    var docs := db.docs;
    match a
    case PostReceipt(_, loc, _, entries) =>
      if k.loc == loc then SumOf(entries, EntryUnits(docs.config, docs.poLines, k.sku)) else 0
    case PostSale(env, _) => if k.loc == env.loc then -SumOf(env.lines, Conservation.SaleLineQty(k.sku)) else 0
    case PostReturn(input) => SumOf(input.lines, PutBack(k))
    case ShipRma(r, _) =>
      if r < |docs.rmas| && k.loc == docs.rmas[r].holding
        then -SumOf(docs.rmas[r].lines, Conservation.RmaLineQty(k.sku)) else 0
    case ShipTransfer(t, _) =>
      if t >= |docs.transfers| then 0
      else Shifted(docs.transfers[t].lines, docs.transfers[t].source, docs.config.transit, k)
    case ReceiveTransfer(t, _) =>
      if t >= |docs.transfers| then 0
      else Shifted(docs.transfers[t].lines, docs.config.transit, docs.transfers[t].destination, k)
    case ApproveCount(c, _) =>
      if c >= |docs.counts| then 0
      else SumOf(docs.counts[c].snapshots, Missing(docs.counts[c], db.inv.ledger, k))
    case _ => 0
  }

  /** What lines carried from one location to another change at a pair. */
  function Shifted(lines: seq<TransferLine>, from: LocId, to: LocId, k: Key): int {
    var moved := SumOf(lines, Transit.Moved(k.sku));
    (if k.loc == to then moved else 0) - (if k.loc == from then moved else 0)
  }

  // ---------- what the operations of each plan add up to ----------

  lemma {:induction false} NewSerialsAt(d: Purchasing.Delivery, sku: SkuId, unitCost: int, ids: seq<SerialId>, k: Key)
    ensures OpsTotal(QtyAt(k), Purchasing.NewSerialOps(d, sku, unitCost, ids))
         == if k == Key(sku, d.loc) then |ids| * UNIT else 0
  {
    if ids != [] {
      var all, tail := Purchasing.NewSerialOps(d, sku, unitCost, ids),
          Purchasing.NewSerialOps(d, sku, unitCost, ids[1..]);
      NewSerialsAt(d, sku, unitCost, ids[1..], k);
      Transit.PairThenRest(QtyAt(k), all[0], all[1], tail);
      assert all == [all[0], all[1]] + tail;
    }
  }

  lemma EntryAt(docs: Docs, d: Purchasing.Delivery, e: Purchasing.ReceiptInput, k: Key)
    requires Purchasing.ReceiptError(docs, e).None?
    ensures OpsTotal(QtyAt(k), Purchasing.LineOps(docs, d, e))
         == if k.loc == d.loc then EntryUnits(docs.config, docs.poLines, k.sku)(e) else 0
  {
    var po := docs.poLines[e.poLine];
    if IsSerialized(docs.config, po.sku) {
      var tail := Purchasing.NewSerialOps(d, po.sku, po.unitCost, e.serials);
      NewSerialsAt(d, po.sku, po.unitCost, e.serials, k);
      assert ([AssertUnknown(e.serials)] + tail)[1..] == tail;
    }
  }

  lemma {:induction false} SameUnits(config: Config, a: seq<PoLine>, b: seq<PoLine>, sku: SkuId,
                                     entries: seq<Purchasing.ReceiptInput>)
    requires |a| == |b| && forall j :: 0 <= j < |a| ==> a[j].sku == b[j].sku
    ensures SumOf(entries, EntryUnits(config, a, sku)) == SumOf(entries, EntryUnits(config, b, sku))
  {
    if entries != [] {
      SameUnits(config, a, b, sku, entries[1..]);
    }
  }

  lemma {:induction false} ReceiptAt(docs: Docs, d: Purchasing.Delivery, entries: seq<Purchasing.ReceiptInput>, k: Key)
    requires OrderHistory.NoErrors(docs, d, entries)
    ensures OpsTotal(QtyAt(k), Purchasing.ReceiveLines(docs, d, entries).ops)
         == if k.loc == d.loc then SumOf(entries, EntryUnits(docs.config, docs.poLines, k.sku)) else 0
    decreases |entries|
  {
    if entries != [] {
      var next := Purchasing.AfterLine(docs, d, entries[0]);
      EntryAt(docs, d, entries[0], k);
      ReceiptAt(next, d, entries[1..], k);
      SameUnits(docs.config, docs.poLines, next.poLines, k.sku, entries[1..]);
      OpsTotalConcat(QtyAt(k), Purchasing.LineOps(docs, d, entries[0]),
                     Purchasing.ReceiveLines(next, d, entries[1..]).ops);
    }
  }

  lemma {:induction false} SaleAt(env: Intake.Envelope, doc: DocId, i: nat, k: Key)
    requires i <= |env.lines|
    ensures OpsTotal(QtyAt(k), Intake.SaleOpsFrom(env, doc, i))
         == if k.loc == env.loc then -SumOf(env.lines[i..], Conservation.SaleLineQty(k.sku)) else 0
    decreases |env.lines| - i
  {
    if i < |env.lines| {
      SaleAt(env, doc, i + 1, k);
      assert env.lines[i..][1..] == env.lines[i + 1..];
      var line := Intake.LineOps(env, doc, i);
      Transit.PairThenRest(QtyAt(k), line[0], line[1], Intake.SaleOpsFrom(env, doc, i + 1));
      assert line == [line[0], line[1]];
    }
  }

  lemma ReturnLineAt(config: Config, doc: DocId, input: Returns.ReturnInput, l: Returns.LineInput, k: Key)
    requires Returns.Postable(config, l)
    ensures OpsTotal(QtyAt(k), Returns.LineOps(config, doc, input, l)) == PutBack(k)(l)
  {
    var f, stock := QtyAt(k), Returns.StockOps(doc, input.at, l);
    OpsTotalConcat(f, Returns.LookUpOps(input, l), stock);
    Conservation.StillOps(f, Returns.LookUpOps(input, l));
    if l.disposition == ScrapIt {
      Conservation.StillOps(f, stock);
    } else {
      OpsTotalConcat(f, stock[..1], stock[1..]);
      Conservation.StillOps(f, stock[1..]);
      assert stock == stock[..1] + stock[1..];
    }
  }

  lemma {:induction false} ReturnAt(config: Config, doc: DocId, input: Returns.ReturnInput,
                                    lines: seq<Returns.LineInput>, k: Key)
    requires forall i :: 0 <= i < |lines| ==> Returns.Postable(config, lines[i])
    ensures OpsTotal(QtyAt(k), Returns.LinesOps(config, doc, input, lines)) == SumOf(lines, PutBack(k))
  {
    if lines != [] {
      ReturnLineAt(config, doc, input, lines[0], k);
      ReturnAt(config, doc, input, lines[1..], k);
      OpsTotalConcat(QtyAt(k), Returns.LineOps(config, doc, input, lines[0]),
                     Returns.LinesOps(config, doc, input, lines[1..]));
    }
  }

  lemma {:induction false} RmaAt(doc: DocId, holding: LocId, at: int, lines: seq<RmaLine>, k: Key)
    ensures OpsTotal(QtyAt(k), Rmas.ShipOps(doc, holding, at, lines))
         == if k.loc == holding then -SumOf(lines, Conservation.RmaLineQty(k.sku)) else 0
  {
    if lines != [] {
      RmaAt(doc, holding, at, lines[1..], k);
      OpsTotalConcat(QtyAt(k), [Move(Rmas.Outbound(doc, holding, at, lines[0]))],
                     Rmas.ShipOps(doc, holding, at, lines[1..]));
    }
  }

  lemma {:induction false} CloseAt(lines: seq<RmaLine>, k: Key)
    ensures OpsTotal(QtyAt(k), Rmas.CloseOps(lines)) == 0
  {
    if lines != [] {
      CloseAt(lines[1..], k);
      OpsTotalConcat(QtyAt(k), Rmas.CloseLineOps(lines[0]), Rmas.CloseOps(lines[1..]));
    }
  }

  lemma {:induction false} SerialLegAt(leg: Transfers.Leg, sku: SkuId, ids: seq<SerialId>, k: Key)
    ensures OpsTotal(QtyAt(k), Transfers.SerialOps(leg, sku, ids))
         == (if k == Key(sku, leg.to) then |ids| * UNIT else 0) - (if k == Key(sku, leg.from) then |ids| * UNIT else 0)
  {
    if ids != [] {
      var all, tail := Transfers.SerialOps(leg, sku, ids), Transfers.SerialOps(leg, sku, ids[1..]);
      SerialLegAt(leg, sku, ids[1..], k);
      Transit.PairThenRest(QtyAt(k), all[0], all[1], tail);
      assert all == [all[0], all[1]] + tail;
    }
  }

  lemma LegLineAt(leg: Transfers.Leg, l: TransferLine, k: Key)
    ensures OpsTotal(QtyAt(k), Transfers.LineOps(leg, l))
         == (if k.loc == leg.to then Transit.Moved(k.sku)(l) else 0)
          - (if k.loc == leg.from then Transit.Moved(k.sku)(l) else 0)
  {
    if l.serials != [] {
      SerialLegAt(leg, l.sku, l.serials, k);
    } else {
      var ops := Transfers.LineOps(leg, l);
      assert ops == [ops[0], ops[1]] + [];
      Transit.PairThenRest(QtyAt(k), ops[0], ops[1], []);
    }
  }

  lemma {:induction false} LegAt(leg: Transfers.Leg, lines: seq<TransferLine>, k: Key)
    ensures OpsTotal(QtyAt(k), Transfers.LinesOps(leg, lines)) == Shifted(lines, leg.from, leg.to, k)
  {
    if lines != [] {
      LegLineAt(leg, lines[0], k);
      LegAt(leg, lines[1..], k);
      OpsTotalConcat(QtyAt(k), Transfers.LineOps(leg, lines[0]), Transfers.LinesOps(leg, lines[1..]));
    }
  }

  lemma {:induction false} ApprovalAt(ledger: seq<Row>, c: CountSession, snaps: seq<Snapshot>, doc: DocId, at: int,
                                      k: Key)
    ensures OpsTotal(QtyAt(k), Counts.ApproveOps(Counts.Report(ledger, c, snaps), doc, at))
         == SumOf(snaps, Missing(c, ledger, k))
  {
    if snaps != [] {
      var rows := Counts.Report(ledger, c, snaps);
      assert rows[1..] == Counts.Report(ledger, c, snaps[1..]);
      SnapshotMissing(ledger, c, snaps[0], k);
      if rows[0].varianceQty == 0 {
        ApprovalAt(ledger, c, snaps[1..], doc, at, k);
      } else {
        ApprovalAt(ledger, c, snaps[1..], doc + 1, at, k);
        OpsTotalConcat(QtyAt(k), [Move(Counts.Adjust(rows[0], doc, at))], Counts.ApproveOps(rows[1..], doc + 1, at));
      }
    }
  }

  lemma SnapshotMissing(ledger: seq<Row>, c: CountSession, s: Snapshot, k: Key)
    ensures Missing(c, ledger, k)(s) == if s.key == k then Counts.Variance(ledger, c, s) else 0
  {
    Reconciliation.CountedIsSum(c.entries, k);
    Reconciliation.TotalsAreSums(ledger, k, c.openedAt);
  }

  lemma PlanChanges(db: Db, a: Action, k: Key)
    requires Accepted(db, a)
    ensures OpsTotal(QtyAt(k), PlanOf(db, a).value.ops) == Change(db, a, k)
  {
    match a
    case PostReceipt(po, loc, at, entries) =>
      var begun, d := Purchasing.OpenReceipt(db.docs, po, loc, at), Purchasing.Delivery(|db.docs.receipts|, loc, at);
      OrderHistory.PostedWithoutErrors(db.inv, begun, d, entries);
      ReceiptAt(begun, d, entries, k);
    case PostSale(env, doc) =>
      SaleAt(env, doc, 0, k);
      assert env.lines[0..] == env.lines;
    case PostReturn(input) =>
      Conservation.ReturnLinesValid(db.docs.config, db.inv, db.docs.returnDocs, input, input.lines);
      ReturnAt(db.docs.config, db.docs.returnDocs, input, input.lines, k);
    case ShipRma(r, at) => RmaAt(r, db.docs.rmas[r].holding, at, db.docs.rmas[r].lines, k);
    case CloseRma(r) => CloseAt(db.docs.rmas[r].lines, k);
    case ShipTransfer(t, at) => LegAt(Transfers.ShipLeg(db.docs, t, at), db.docs.transfers[t].lines, k);
    case ReceiveTransfer(t, at) => LegAt(Transfers.ReceiveLeg(db.docs, t, at), db.docs.transfers[t].lines, k);
    case ApproveCount(c, at) =>
      ApprovalAt(db.inv.ledger, db.docs.counts[c], db.docs.counts[c].snapshots, |db.docs.adjustments|, at, k);
    case SerialCall(id, call) => Conservation.StillOps(QtyAt(k), [CallSerial(id, call)]);
    case _ =>
  }

  // ---------- the main results ----------

  /** After any run: an accepted call changes the stock of every pair by exactly what it says, and a
      call that raises changes nothing. */
  lemma CallChanges(db: Db, a: Action, k: Key)
    requires Reachable(db)
    ensures OnHand(Step(db, a).inv, k) == OnHand(db.inv, k) + (if Accepted(db, a) then Change(db, a, k) else 0)
  {
    if Accepted(db, a) {
      Reconciliation.ReachableSound(db);
      PlanChanges(db, a, k);
      Transit.OnHandAfter(db.inv, PlanOf(db, a).value.ops, k);
    }
  }

  /** What the accepted calls of a run add to the stock of a pair. */
  function RunChange(db: Db, actions: seq<Action>, k: Key): int
    decreases |actions|
  {
    if actions == [] then 0
    else
      (if Accepted(db, actions[0]) then Change(db, actions[0], k) else 0)
      + RunChange(Step(db, actions[0]), actions[1..], k)
  }

  lemma {:induction false} RunChanges(db: Db, actions: seq<Action>, k: Key)
    requires Reachable(db)
    ensures OnHand(Run(db, actions).inv, k) == OnHand(db.inv, k) + RunChange(db, actions, k)
    decreases |actions|
  {
    if actions != [] {
      CallChanges(db, actions[0], k);
      OrderHistory.StepReachable(db, actions[0]);
      RunChanges(Step(db, actions[0]), actions[1..], k);
    }
  }

  /** The stock of every pair, at every location, after every run is what its accepted calls say. */
  lemma StockIsWhatCallsSay(config: Config, draws: seq<int>, actions: seq<Action>, k: Key)
    ensures OnHand(Run(EmptyDb(config, draws), actions).inv, k) == RunChange(EmptyDb(config, draws), actions, k)
  {
    assert EmptyDb(config, draws) == Run(EmptyDb(config, draws), []);
    RunChanges(EmptyDb(config, draws), actions, k);
  }

  /** Receiving a transfer puts its goods at its destination and takes them from in transit. */
  lemma ReceivedAtDestination(db: Db, t: nat, at: int, k: Key)
    requires Reachable(db) && Accepted(db, ReceiveTransfer(t, at))
    requires db.docs.transfers[t].destination != db.docs.config.transit
    ensures t < |db.docs.transfers|
    ensures var transfer, after := db.docs.transfers[t], Step(db, ReceiveTransfer(t, at));
            var moved := SumOf(transfer.lines, Transit.Moved(k.sku));
            OnHand(after.inv, k)
              == OnHand(db.inv, k) + (if k.loc == transfer.destination then moved
                                      else if k.loc == db.docs.config.transit then -moved else 0)
  {
    CallChanges(db, ReceiveTransfer(t, at), k);
  }

  /** Shipping takes them from its source and puts them in transit. */
  lemma ShippedFromSource(db: Db, t: nat, at: int, k: Key)
    requires Reachable(db) && Accepted(db, ShipTransfer(t, at))
    requires db.docs.transfers[t].source != db.docs.config.transit
    ensures t < |db.docs.transfers|
    ensures var transfer, after := db.docs.transfers[t], Step(db, ShipTransfer(t, at));
            var moved := SumOf(transfer.lines, Transit.Moved(k.sku));
            OnHand(after.inv, k)
              == OnHand(db.inv, k) + (if k.loc == transfer.source then -moved
                                      else if k.loc == db.docs.config.transit then moved else 0)
  {
    CallChanges(db, ShipTransfer(t, at), k);
  }
}
