/** The in-transit pivot: what is parked there is exactly what is shipped and not yet received, so
    a shipped transfer can always be received. */
module Transit {
  import opened Tables
  import opened Ledger
  import opened Database
  import opened Sums
  import opened Runs
  import Fifo
  import Purchasing
  import Intake
  import Returns
  import Rmas
  import Transfers
  import Counts

  // ---------- what should be parked ----------

  /** The quantity a transfer line moves: one unit per serial, or the stated quantity. */
  function Moved(sku: SkuId): TransferLine -> int {
    (l: TransferLine) => if l.sku != sku then 0 else if l.serials != [] then |l.serials| * UNIT else l.qty
  }

  function MovedLoose(sku: SkuId): TransferLine -> int {
    (l: TransferLine) => if l.sku == sku && l.serials == [] then l.qty else 0
  }

  function Parked(sku: SkuId): Transfer -> int {
    (t: Transfer) => if t.state == TransferShipped then SumOf(t.lines, Moved(sku)) else 0
  }

  function ParkedLoose(sku: SkuId): Transfer -> int {
    (t: Transfer) => if t.state == TransferShipped then SumOf(t.lines, MovedLoose(sku)) else 0
  }

  ghost predicate ParkedExactly(db: Db) {
    forall sku: SkuId :: ParkedExactlyAt(db, sku)
  }

  ghost predicate ParkedExactlyAt(db: Db, sku: SkuId) {
    var k := Key(sku, db.docs.config.transit);
    && Total(QtyAt(k), db.inv.ledger) == SumOf(db.docs.transfers, Parked(sku))
    && Total(LayeredQtyAt(k), db.inv.ledger) == SumOf(db.docs.transfers, ParkedLoose(sku))
  }

  // ---------- only transfers use the location ----------

  /** The call names the in-transit location nowhere. */
  predicate Avoids(transit: LocId, a: Action) {
    match a
    case PostReceipt(_, loc, _, _) => loc != transit
    case PostSale(env, _) => env.loc != transit
    case PostReturn(input) => forall i :: 0 <= i < |input.lines| ==> input.lines[i].target != transit
    case CreateRma(holding, _) => holding != transit
    case CreateTransfer(source, destination, _) => source != transit && destination != transit
    case OpenCount(_, rows, _) => forall i :: 0 <= i < |rows| ==> rows[i].loc != transit
    case _ => true
  }

  /** No stored document names it either. */
  predicate DocsAvoid(docs: Docs) {
    var transit := docs.config.transit;
    && (forall i :: 0 <= i < |docs.rmas| ==> docs.rmas[i].holding != transit)
    && (forall i :: 0 <= i < |docs.transfers| ==>
          docs.transfers[i].source != transit && docs.transfers[i].destination != transit)
    && (forall i, j :: 0 <= i < |docs.counts| && 0 <= j < |docs.counts[i].snapshots| ==>
          docs.counts[i].snapshots[j].key.loc != transit)
  }

  /** Every stored transfer line passed the checks of `create_transfer`, and its serials exist. */
  predicate TransfersSound(db: Db) {
    forall i :: 0 <= i < |db.docs.transfers| ==> LinesSound(db.inv.serials, db.docs.transfers[i].lines)
  }

  predicate LinesSound(serials: map<SerialId, Serial>, lines: seq<TransferLine>) {
    forall i :: 0 <= i < |lines| ==> LineSound(serials, lines[i])
  }

  predicate LineSound(serials: map<SerialId, Serial>, l: TransferLine) {
    && l.qty > 0
    && (l.serials != [] ==> |l.serials| * UNIT == l.qty)
    && (forall j :: 0 <= j < |l.serials| ==> l.serials[j] in serials)
  }

  predicate OpsAvoid(ops: seq<Op>, loc: LocId) {
    forall i :: 0 <= i < |ops| && ops[i].Move? ==> ops[i].m.key.loc != loc
  }

  lemma {:induction false} AvoidedTotal(ops: seq<Op>, f: Measure, loc: LocId)
    requires OpsAvoid(ops, loc)
    requires (f.QtyAt? || f.LayeredQtyAt?) && f.key.loc == loc
    ensures OpsTotal(f, ops) == 0
  {
    if ops != [] {
      assert OpsAvoid(ops[1..], loc);
      AvoidedTotal(ops[1..], f, loc);
    }
  }

  // ---------- what a leg of a transfer adds at the in-transit location ----------

  /** A leg that ends (sign +1) or starts (sign -1) at `loc`, and whose other end is elsewhere. */
  predicate Touches(leg: Transfers.Leg, loc: LocId, sign: int) {
    (sign == 1 && leg.to == loc && leg.from != loc) || (sign == -1 && leg.from == loc && leg.to != loc)
  }

  lemma {:induction false} SerialLegAt(leg: Transfers.Leg, sku: SkuId, ids: seq<SerialId>, loc: LocId, sign: int,
                                       k: Key)
    requires Touches(leg, loc, sign) && k.loc == loc
    ensures OpsTotal(QtyAt(k), Transfers.SerialOps(leg, sku, ids)) == if k.sku == sku then sign * |ids| * UNIT else 0
    ensures OpsTotal(LayeredQtyAt(k), Transfers.SerialOps(leg, sku, ids)) == 0
  {
    if ids != [] {
      SerialLegAt(leg, sku, ids[1..], loc, sign, k);
      var all, tail := Transfers.SerialOps(leg, sku, ids), Transfers.SerialOps(leg, sku, ids[1..]);
      PairThenRest(QtyAt(k), all[0], all[1], tail);
      PairThenRest(LayeredQtyAt(k), all[0], all[1], tail);
    }
  }

  lemma PairThenRest(f: Measure, a: Op, b: Op, tail: seq<Op>)
    ensures OpsTotal(f, [a, b] + tail) == OpsTotal(f, [a]) + OpsTotal(f, [b]) + OpsTotal(f, tail)
  {
    assert [a, b] + tail == [a] + ([b] + tail);
    OpsTotalConcat(f, [a], [b] + tail);
    OpsTotalConcat(f, [b], tail);
  }

  lemma LineLegAt(leg: Transfers.Leg, l: TransferLine, loc: LocId, sign: int, k: Key)
    requires Touches(leg, loc, sign) && k.loc == loc
    ensures OpsTotal(QtyAt(k), Transfers.LineOps(leg, l)) == sign * Moved(k.sku)(l)
    ensures OpsTotal(LayeredQtyAt(k), Transfers.LineOps(leg, l)) == sign * MovedLoose(k.sku)(l)
  {
    if l.serials != [] {
      SerialLegAt(leg, l.sku, l.serials, loc, sign, k);
    } else {
      var ops := Transfers.LineOps(leg, l);
      assert ops == [ops[0], ops[1]] + [];
      PairThenRest(QtyAt(k), ops[0], ops[1], []);
      PairThenRest(LayeredQtyAt(k), ops[0], ops[1], []);
    }
  }

  lemma {:induction false} LegAt(leg: Transfers.Leg, lines: seq<TransferLine>, loc: LocId, sign: int, k: Key)
    requires Touches(leg, loc, sign) && k.loc == loc
    ensures OpsTotal(QtyAt(k), Transfers.LinesOps(leg, lines)) == sign * SumOf(lines, Moved(k.sku))
    ensures OpsTotal(LayeredQtyAt(k), Transfers.LinesOps(leg, lines)) == sign * SumOf(lines, MovedLoose(k.sku))
  {
    if lines != [] {
      LineLegAt(leg, lines[0], loc, sign, k);
      LegAt(leg, lines[1..], loc, sign, k);
      var head, tail := Transfers.LineOps(leg, lines[0]), Transfers.LinesOps(leg, lines[1..]);
      OpsTotalConcat(QtyAt(k), head, tail);
      OpsTotalConcat(LayeredQtyAt(k), head, tail);
    }
  }

  // ---------- every plan keeps the pivot exact ----------

  lemma {:induction false} ReceiptAvoids(docs: Docs, d: Purchasing.Delivery, lines: seq<Purchasing.ReceiptInput>,
                                         loc: LocId)
    requires d.loc != loc
    ensures OpsAvoid(Purchasing.ReceiveLines(docs, d, lines).ops, loc)
    decreases |lines|
  {
    if lines != [] {
      ReceiptAvoids(Purchasing.AfterLine(docs, d, lines[0]), d, lines[1..], loc);
      if Purchasing.ReceiptError(docs, lines[0]).None? {
        var po := docs.poLines[lines[0].poLine];
        NewSerialsAvoid(d, po.sku, po.unitCost, lines[0].serials, loc);
      }
    }
  }

  lemma {:induction false} NewSerialsAvoid(d: Purchasing.Delivery, sku: SkuId, unitCost: int, ids: seq<SerialId>,
                                           loc: LocId)
    requires d.loc != loc
    ensures OpsAvoid(Purchasing.NewSerialOps(d, sku, unitCost, ids), loc)
  {
    if ids != [] {
      NewSerialsAvoid(d, sku, unitCost, ids[1..], loc);
    }
  }

  lemma {:induction false} SaleAvoids(env: Intake.Envelope, doc: DocId, i: nat, loc: LocId)
    requires i <= |env.lines| && env.loc != loc
    ensures OpsAvoid(Intake.SaleOpsFrom(env, doc, i), loc)
    decreases |env.lines| - i
  {
    if i < |env.lines| {
      SaleAvoids(env, doc, i + 1, loc);
    }
  }

  lemma {:induction false} ReturnAvoids(config: Config, doc: DocId, input: Returns.ReturnInput,
                                        lines: seq<Returns.LineInput>, loc: LocId)
    requires forall i :: 0 <= i < |lines| ==> lines[i].target != loc
    ensures OpsAvoid(Returns.LinesOps(config, doc, input, lines), loc)
  {
    if lines != [] {
      ReturnAvoids(config, doc, input, lines[1..], loc);
      assert OpsAvoid(Returns.LookUpOps(input, lines[0]), loc);
      assert OpsAvoid(Returns.StockOps(doc, input.at, lines[0]), loc);
    }
  }

  lemma {:induction false} RmaAvoids(doc: DocId, holding: LocId, at: int, lines: seq<RmaLine>, loc: LocId)
    requires holding != loc
    ensures OpsAvoid(Rmas.ShipOps(doc, holding, at, lines), loc)
    ensures OpsAvoid(Rmas.CloseOps(lines), loc)
  {
    if lines != [] {
      RmaAvoids(doc, holding, at, lines[1..], loc);
    }
  }

  lemma {:induction false} ApproveAvoids(ledger: seq<Row>, c: CountSession, snaps: seq<Snapshot>, doc: DocId, at: int,
                                         loc: LocId)
    requires forall j :: 0 <= j < |snaps| ==> snaps[j].key.loc != loc
    ensures OpsAvoid(Counts.ApproveOps(Counts.Report(ledger, c, snaps), doc, at), loc)
  {
    if snaps != [] {
      var rows := Counts.Report(ledger, c, snaps);
      assert rows[1..] == Counts.Report(ledger, c, snaps[1..]);
      ApproveAvoids(ledger, c, snaps[1..], doc, at, loc);
      ApproveAvoids(ledger, c, snaps[1..], doc + 1, at, loc);
    }
  }

  /** The plan is one of the transfer service, or it neither moves anything at the in-transit
      location nor touches a transfer. */
  lemma OthersAvoid(db: Db, a: Action)
    requires PlanOf(db, a).Ok? && Avoids(db.docs.config.transit, a) && DocsAvoid(db.docs)
    requires !a.CreateTransfer? && !a.ShipTransfer? && !a.ReceiveTransfer?
    ensures OpsAvoid(PlanOf(db, a).value.ops, db.docs.config.transit)
    ensures PlanOf(db, a).value.docs.transfers == db.docs.transfers
  {
    var loc := db.docs.config.transit;
    match a
    case PostReceipt(po, where, at, lines) =>
      var begun, d := Purchasing.OpenReceipt(db.docs, po, where, at),
          Purchasing.Delivery(|db.docs.receipts|, where, at);
      ReceiptAvoids(begun, d, lines, loc);
      Purchasing.ReceiveLinesKeeps(begun, d, lines);
    case PostSale(env, doc) => SaleAvoids(env, doc, 0, loc);
    case PostReturn(input) => ReturnAvoids(db.docs.config, db.docs.returnDocs, input, input.lines, loc);
    case ShipRma(r, at) => RmaAvoids(r, db.docs.rmas[r].holding, at, db.docs.rmas[r].lines, loc);
    case CloseRma(r) => RmaAvoids(r, db.docs.rmas[r].holding, 0, db.docs.rmas[r].lines, loc);
    case ApproveCount(c, at) =>
      ApproveAvoids(db.inv.ledger, db.docs.counts[c], db.docs.counts[c].snapshots, |db.docs.adjustments|, at, loc);
    case _ =>
  }

  lemma PlanParks(db: Db, a: Action, sku: SkuId)
    requires PlanOf(db, a).Ok? && Avoids(db.docs.config.transit, a) && DocsAvoid(db.docs)
    ensures var p, k := PlanOf(db, a).value, Key(sku, db.docs.config.transit);
            && OpsTotal(QtyAt(k), p.ops) == SumOf(p.docs.transfers, Parked(sku)) - SumOf(db.docs.transfers, Parked(sku))
            && OpsTotal(LayeredQtyAt(k), p.ops)
                 == SumOf(p.docs.transfers, ParkedLoose(sku)) - SumOf(db.docs.transfers, ParkedLoose(sku))
  {
    var transit := db.docs.config.transit;
    var k := Key(sku, transit);
    match a
    case CreateTransfer(source, destination, lines) =>
      var t := Transfer(TransferDraft, source, destination, lines);
      SumOfConcat(db.docs.transfers, [t], Parked(sku));
      SumOfConcat(db.docs.transfers, [t], ParkedLoose(sku));
    case ShipTransfer(t, at) =>
      LegAt(Transfers.ShipLeg(db.docs, t, at), db.docs.transfers[t].lines, transit, 1, k);
      ParkedUpdate(db.docs, t, TransferShipped, sku);
    case ReceiveTransfer(t, at) =>
      LegAt(Transfers.ReceiveLeg(db.docs, t, at), db.docs.transfers[t].lines, transit, -1, k);
      ParkedUpdate(db.docs, t, TransferReceived, sku);
    case _ =>
      OthersAvoid(db, a);
      AvoidedTotal(PlanOf(db, a).value.ops, QtyAt(k), transit);
      AvoidedTotal(PlanOf(db, a).value.ops, LayeredQtyAt(k), transit);
  }

  lemma ParkedUpdate(docs: Docs, t: nat, state: TransferState, sku: SkuId)
    requires t < |docs.transfers|
    ensures var row, after := docs.transfers[t].(state := state), Transfers.Advance(docs, t, state).transfers;
            && SumOf(after, Parked(sku))
                 == SumOf(docs.transfers, Parked(sku)) - Parked(sku)(docs.transfers[t]) + Parked(sku)(row)
            && SumOf(after, ParkedLoose(sku))
                 == SumOf(docs.transfers, ParkedLoose(sku)) - ParkedLoose(sku)(docs.transfers[t])
                     + ParkedLoose(sku)(row)
  {
    SumOfUpdate(docs.transfers, t, docs.transfers[t].(state := state), Parked(sku));
    SumOfUpdate(docs.transfers, t, docs.transfers[t].(state := state), ParkedLoose(sku));
  }

  // ---------- invariants over runs ----------

  lemma {:induction false} SerialsStay(inv: Inventory, ops: seq<Op>)
    requires ExecAll(inv, ops).Ok?
    ensures inv.serials.Keys <= ExecAll(inv, ops).value.serials.Keys
    decreases |ops|
  {
    if ops != [] {
      SerialStays(inv, ops[0]);
      SerialsStay(Exec(inv, ops[0]).value, ops[1..]);
    }
  }

  lemma SerialStays(inv: Inventory, op: Op)
    requires Exec(inv, op).Ok?
    ensures inv.serials.Keys <= Exec(inv, op).value.serials.Keys
  {
  }

  lemma {:induction false} CheckedLinesSound(docs: Docs, serials: map<SerialId, Serial>, lines: seq<TransferLine>)
    requires Transfers.LinesError(docs, serials, lines).None?
    ensures LinesSound(serials, lines)
  {
    if lines != [] {
      CheckedLinesSound(docs, serials, lines[1..]);
      assert forall i :: 0 < i < |lines| ==> lines[i] == lines[1..][i - 1];
    }
  }

  lemma StepKeepsSound(db: Db, a: Action)
    requires TransfersSound(db) && Accepted(db, a)
    ensures TransfersSound(Step(db, a))
  {
    var p := PlanOf(db, a).value;
    SerialsStay(db.inv, p.ops);
    if a.CreateTransfer? {
      CheckedLinesSound(db.docs, db.inv.serials, a.transferLines);
    } else if a.PostReceipt? {
      Purchasing.ReceiveLinesKeeps(Purchasing.OpenReceipt(db.docs, a.receiptPo, a.loc, a.at),
                                   Purchasing.Delivery(|db.docs.receipts|, a.loc, a.at), a.deliveries);
    }
  }

  lemma StepKeepsAvoid(db: Db, a: Action)
    requires DocsAvoid(db.docs) && Avoids(db.docs.config.transit, a) && Accepted(db, a)
    ensures DocsAvoid(Step(db, a).docs) && Step(db, a).docs.config == db.docs.config
  {
    if a.PostReceipt? {
      Purchasing.ReceiveLinesKeeps(Purchasing.OpenReceipt(db.docs, a.receiptPo, a.loc, a.at),
                                   Purchasing.Delivery(|db.docs.receipts|, a.loc, a.at), a.deliveries);
    }
  }

  ghost predicate PivotInvariant(db: Db) {
    Agrees(db.inv) && DriftBounded(db.inv) && DocsAvoid(db.docs) && TransfersSound(db) && ParkedExactly(db)
  }

  lemma StepKeepsPivot(db: Db, a: Action)
    requires PivotInvariant(db) && Avoids(db.docs.config.transit, a)
    ensures PivotInvariant(Step(db, a)) && Step(db, a).docs.config == db.docs.config
  {
    if Accepted(db, a) {
      var p := PlanOf(db, a).value;
      StepKeepsProjections(db, a);
      StepKeepsSound(db, a);
      StepKeepsAvoid(db, a);
      forall sku: SkuId ensures ParkedExactlyAt(Step(db, a), sku) {
        assert ParkedExactlyAt(db, sku);
        PlanParks(db, a, sku);
        ExecAllTotal(QtyAt(Key(sku, db.docs.config.transit)), db.inv, p.ops);
        ExecAllTotal(LayeredQtyAt(Key(sku, db.docs.config.transit)), db.inv, p.ops);
      }
    }
  }

  lemma {:induction false} RunKeepsPivot(db: Db, actions: seq<Action>)
    requires PivotInvariant(db)
    requires forall i :: 0 <= i < |actions| ==> Avoids(db.docs.config.transit, actions[i])
    ensures PivotInvariant(Run(db, actions)) && Run(db, actions).docs.config == db.docs.config
    decreases |actions|
  {
    if actions != [] {
      StepKeepsPivot(db, actions[0]);
      RunKeepsPivot(Step(db, actions[0]), actions[1..]);
    }
  }

  lemma EmptyPivot(config: Config, draws: seq<int>)
    ensures PivotInvariant(EmptyDb(config, draws))
  {
    EmptyAgrees(config, draws);
    forall sku: SkuId ensures ParkedExactlyAt(EmptyDb(config, draws), sku) {
    }
  }

  // ---------- progress ----------

  /** Enough is parked at `from` for all of `lines`. */
  ghost predicate Covers(inv: Inventory, from: LocId, lines: seq<TransferLine>) {
    forall sku: SkuId :: CoversAt(inv, from, lines, sku)
  }

  ghost predicate CoversAt(inv: Inventory, from: LocId, lines: seq<TransferLine>, sku: SkuId) {
    && OnHand(inv, Key(sku, from)) >= SumOf(lines, Moved(sku))
    && Fifo.Quantity(LayersAt(inv, Key(sku, from))) >= SumOf(lines, MovedLoose(sku))
  }

  /** An outbound movement and the inbound one that follows it go through exactly when there is
      enough to take out. */
  lemma PairGoesExactly(inv: Inventory, out: Movement, into: Movement)
    requires Agrees(inv)
    requires out.qty < 0 < into.qty && out.intake.None? && into.intake.None?
    requires if out.serial.Some? then out.serial == into.serial && out.serial.value in inv.serials
             else into.serial.None? && into.unitCost.Some?
    ensures ExecAll(inv, [Move(out), Move(into)]).Ok? <==>
            && OnHand(inv, out.key) + out.qty >= 0
            && (out.serial.None? ==> Fifo.Quantity(LayersAt(inv, out.key)) + out.qty >= 0)
  {
    assert AgreesAt(inv, out.key) && AgreesAt(inv, into.key);
    if out.serial.None? {
      Fifo.ConsumeAccounts(LayersAt(inv, out.key), -out.qty);
    }
    assert [Move(out), Move(into)] == [Move(out)] + [Move(into)] && [Move(into)] == [Move(into)] + [];
    HeadMoved(inv, out, [Move(into)]);
    var posted := Post(inv, out, NextId(inv));
    if posted.Ok? {
      HeadMoved(posted.value, into, []);
      InboundGoes(posted.value, into);
    }
  }

  lemma InboundGoes(inv: Inventory, m: Movement)
    requires m.qty > 0 && m.intake.None? && OnHand(inv, m.key) >= 0
    requires if m.serial.Some? then m.serial.value in inv.serials else m.unitCost.Some?
    ensures Post(inv, m, NextId(inv)).Ok?
  {
  }

  lemma {:induction false} SerialsGo(inv: Inventory, leg: Transfers.Leg, sku: SkuId, ids: seq<SerialId>)
    requires Agrees(inv) && DriftBounded(inv) && leg.from != leg.to
    requires OnHand(inv, Key(sku, leg.from)) >= |ids| * UNIT
    requires forall j :: 0 <= j < |ids| ==> ids[j] in inv.serials
    ensures ExecAll(inv, Transfers.SerialOps(leg, sku, ids)).Ok?
    decreases |ids|
  {
    if ids != [] {
      var all, tail := Transfers.SerialOps(leg, sku, ids), Transfers.SerialOps(leg, sku, ids[1..]);
      var pair := [all[0], all[1]];
      PairGoesExactly(inv, all[0].m, all[1].m);
      var next := ExecAll(inv, pair).value;
      ExecAllKeeps(inv, pair);
      SerialsStay(inv, pair);
      OnHandAfter(inv, pair, Key(sku, leg.from));
      assert pair == [all[0]] + [all[1]];
      OpsTotalConcat(QtyAt(Key(sku, leg.from)), [all[0]], [all[1]]);
      ExecAllConcat(inv, pair, tail);
      SerialsGo(next, leg, sku, ids[1..]);
    }
  }

  /** A transaction changes each projection by what it adds to the ledger. */
  lemma OnHandAfter(inv: Inventory, ops: seq<Op>, k: Key)
    requires Agrees(inv) && DriftBounded(inv) && ExecAll(inv, ops).Ok?
    ensures OnHand(ExecAll(inv, ops).value, k) == OnHand(inv, k) + OpsTotal(QtyAt(k), ops)
    ensures Fifo.Quantity(LayersAt(ExecAll(inv, ops).value, k))
         == Fifo.Quantity(LayersAt(inv, k)) + OpsTotal(LayeredQtyAt(k), ops)
  {
    ExecAllKeeps(inv, ops);
    assert AgreesAt(inv, k) && AgreesAt(ExecAll(inv, ops).value, k);
    ExecAllTotal(QtyAt(k), inv, ops);
    ExecAllTotal(LayeredQtyAt(k), inv, ops);
  }

  lemma {:induction false} LinesGo(inv: Inventory, leg: Transfers.Leg, lines: seq<TransferLine>)
    requires Agrees(inv) && DriftBounded(inv) && leg.from != leg.to
    requires LinesSound(inv.serials, lines) && Covers(inv, leg.from, lines)
    ensures ExecAll(inv, Transfers.LinesOps(leg, lines)).Ok?
    decreases |lines|
  {
    if lines != [] {
      var l, head := lines[0], Transfers.LineOps(leg, lines[0]);
      assert LineSound(inv.serials, l);
      assert CoversAt(inv, leg.from, lines, l.sku);
      SoundSums(inv.serials, lines[1..], l.sku);
      if l.serials != [] {
        SerialsGo(inv, leg, l.sku, l.serials);
      } else {
        PairGoesExactly(inv, head[0].m, head[1].m);
      }
      var next := ExecAll(inv, head).value;
      ExecAllKeeps(inv, head);
      SerialsStay(inv, head);
      forall sku: SkuId ensures CoversAt(next, leg.from, lines[1..], sku) {
        assert CoversAt(inv, leg.from, lines, sku);
        LineLegAt(leg, l, leg.from, -1, Key(sku, leg.from));
        OnHandAfter(inv, head, Key(sku, leg.from));
      }
      ExecAllConcat(inv, head, Transfers.LinesOps(leg, lines[1..]));
      LinesGo(next, leg, lines[1..]);
    }
  }

  lemma SoundSums(serials: map<SerialId, Serial>, lines: seq<TransferLine>, sku: SkuId)
    requires LinesSound(serials, lines)
    ensures SumOf(lines, Moved(sku)) >= 0 && SumOf(lines, MovedLoose(sku)) >= 0
  {
    forall i | 0 <= i < |lines| ensures Moved(sku)(lines[i]) >= 0 && MovedLoose(sku)(lines[i]) >= 0 {
      assert LineSound(serials, lines[i]);
    }
    SumNonNegative(lines, Moved(sku));
    SumNonNegative(lines, MovedLoose(sku));
  }

  lemma ShippedCovered(db: Db, t: nat)
    requires PivotInvariant(db) && t < |db.docs.transfers| && db.docs.transfers[t].state == TransferShipped
    ensures Covers(db.inv, db.docs.config.transit, db.docs.transfers[t].lines)
  {
    var transit := db.docs.config.transit;
    forall sku: SkuId ensures CoversAt(db.inv, transit, db.docs.transfers[t].lines, sku) {
      assert ParkedExactlyAt(db, sku) && AgreesAt(db.inv, Key(sku, transit));
      forall i | 0 <= i < |db.docs.transfers|
        ensures Parked(sku)(db.docs.transfers[i]) >= 0 && ParkedLoose(sku)(db.docs.transfers[i]) >= 0
      {
        SoundSums(db.inv.serials, db.docs.transfers[i].lines, sku);
      }
      TermAtMostSum(db.docs.transfers, t, Parked(sku));
      TermAtMostSum(db.docs.transfers, t, ParkedLoose(sku));
    }
  }

  // ---------- receiving in any run ----------

  /** A line that is received where it is: there is enough for it, one serial at a time. */
  predicate Fits(inv: Inventory, loc: LocId, l: TransferLine) {
    if l.serials != [] then OnHand(inv, Key(l.sku, loc)) >= UNIT
    else OnHand(inv, Key(l.sku, loc)) >= l.qty && Fifo.Quantity(LayersAt(inv, Key(l.sku, loc))) >= l.qty
  }

  /** Moving something to where it is changes no total of the pair. */
  lemma InPlace(a: Movement, b: Movement, k: Key)
    requires a.key == b.key && a.qty == -b.qty && (a.serial.None? <==> b.serial.None?)
    ensures OpsTotal(QtyAt(k), [Move(a), Move(b)]) == 0 && OpsTotal(LayeredQtyAt(k), [Move(a), Move(b)]) == 0
  {
    assert [Move(a), Move(b)] == [Move(a), Move(b)] + [];
    PairThenRest(QtyAt(k), Move(a), Move(b), []);
    PairThenRest(LayeredQtyAt(k), Move(a), Move(b), []);
  }

  ghost predicate SameStock(a: Inventory, b: Inventory) {
    forall k: Key :: OnHand(a, k) == OnHand(b, k) && Fifo.Quantity(LayersAt(a, k)) == Fifo.Quantity(LayersAt(b, k))
  }

  lemma PairInPlace(inv: Inventory, a: Movement, b: Movement)
    requires Agrees(inv) && DriftBounded(inv) && ExecAll(inv, [Move(a), Move(b)]).Ok?
    requires a.key == b.key && a.qty == -b.qty && (a.serial.None? <==> b.serial.None?)
    ensures var next := ExecAll(inv, [Move(a), Move(b)]).value;
            && Agrees(next) && DriftBounded(next) && SameStock(inv, next) && inv.serials.Keys <= next.serials.Keys
  {
    ExecAllKeeps(inv, [Move(a), Move(b)]);
    SerialsStay(inv, [Move(a), Move(b)]);
    forall k: Key
      ensures var next := ExecAll(inv, [Move(a), Move(b)]).value;
              OnHand(inv, k) == OnHand(next, k) && Fifo.Quantity(LayersAt(inv, k)) == Fifo.Quantity(LayersAt(next, k))
    {
      InPlace(a, b, k);
      OnHandAfter(inv, [Move(a), Move(b)], k);
    }
  }

  lemma {:induction false} SerialsInPlace(inv: Inventory, leg: Transfers.Leg, sku: SkuId, ids: seq<SerialId>)
    requires Agrees(inv) && DriftBounded(inv) && leg.from == leg.to
    requires forall j :: 0 <= j < |ids| ==> ids[j] in inv.serials
    ensures ExecAll(inv, Transfers.SerialOps(leg, sku, ids)).Ok?
        <==> ids == [] || OnHand(inv, Key(sku, leg.from)) >= UNIT
    ensures ExecAll(inv, Transfers.SerialOps(leg, sku, ids)).Ok? ==>
              var next := ExecAll(inv, Transfers.SerialOps(leg, sku, ids)).value;
              Agrees(next) && DriftBounded(next) && SameStock(inv, next) && inv.serials.Keys <= next.serials.Keys
    decreases |ids|
  {
    if ids != [] {
      var all, tail := Transfers.SerialOps(leg, sku, ids), Transfers.SerialOps(leg, sku, ids[1..]);
      var pair := [all[0], all[1]];
      assert all == pair + tail;
      ExecAllConcat(inv, pair, tail);
      PairGoesExactly(inv, all[0].m, all[1].m);
      if ExecAll(inv, pair).Ok? {
        PairInPlace(inv, all[0].m, all[1].m);
        SerialsInPlace(ExecAll(inv, pair).value, leg, sku, ids[1..]);
      }
    }
  }

  lemma LineInPlace(inv: Inventory, leg: Transfers.Leg, l: TransferLine)
    requires Agrees(inv) && DriftBounded(inv) && leg.from == leg.to && LineSound(inv.serials, l)
    ensures ExecAll(inv, Transfers.LineOps(leg, l)).Ok? <==> Fits(inv, leg.from, l)
    ensures ExecAll(inv, Transfers.LineOps(leg, l)).Ok? ==>
              var next := ExecAll(inv, Transfers.LineOps(leg, l)).value;
              Agrees(next) && DriftBounded(next) && SameStock(inv, next) && inv.serials.Keys <= next.serials.Keys
  {
    if l.serials != [] {
      SerialsInPlace(inv, leg, l.sku, l.serials);
    } else {
      var ops := Transfers.LineOps(leg, l);
      PairGoesExactly(inv, ops[0].m, ops[1].m);
      if ExecAll(inv, ops).Ok? {
        PairInPlace(inv, ops[0].m, ops[1].m);
      }
    }
  }

  predicate AllFit(inv: Inventory, loc: LocId, lines: seq<TransferLine>) {
    lines == [] || (Fits(inv, loc, lines[0]) && AllFit(inv, loc, lines[1..]))
  }

  lemma {:induction false} SameFits(a: Inventory, b: Inventory, loc: LocId, lines: seq<TransferLine>)
    requires SameStock(a, b)
    ensures AllFit(a, loc, lines) <==> AllFit(b, loc, lines)
  {
    if lines != [] {
      assert OnHand(a, Key(lines[0].sku, loc)) == OnHand(b, Key(lines[0].sku, loc));
      SameFits(a, b, loc, lines[1..]);
    }
  }

  lemma {:induction false} LinesInPlace(inv: Inventory, leg: Transfers.Leg, lines: seq<TransferLine>)
    requires Agrees(inv) && DriftBounded(inv) && leg.from == leg.to && LinesSound(inv.serials, lines)
    ensures ExecAll(inv, Transfers.LinesOps(leg, lines)).Ok? <==> AllFit(inv, leg.from, lines)
    decreases |lines|
  {
    if lines != [] {
      var head := Transfers.LineOps(leg, lines[0]);
      ExecAllConcat(inv, head, Transfers.LinesOps(leg, lines[1..]));
      assert LineSound(inv.serials, lines[0]);
      LineInPlace(inv, leg, lines[0]);
      if ExecAll(inv, head).Ok? {
        var next := ExecAll(inv, head).value;
        LinesInPlace(next, leg, lines[1..]);
        SameFits(inv, next, leg.from, lines[1..]);
      }
    }
  }

  /** A leg between two locations goes through exactly when its lines are covered where it starts. */
  lemma LegGoesExactly(inv: Inventory, leg: Transfers.Leg, lines: seq<TransferLine>)
    requires Agrees(inv) && DriftBounded(inv) && leg.from != leg.to && LinesSound(inv.serials, lines)
    ensures ExecAll(inv, Transfers.LinesOps(leg, lines)).Ok? <==> Covers(inv, leg.from, lines)
  {
    var ops := Transfers.LinesOps(leg, lines);
    if ExecAll(inv, ops).Ok? {
      ExecAllKeeps(inv, ops);
      forall sku: SkuId ensures CoversAt(inv, leg.from, lines, sku) {
        LegAt(leg, lines, leg.from, -1, Key(sku, leg.from));
        OnHandAfter(inv, ops, Key(sku, leg.from));
        assert AgreesAt(ExecAll(inv, ops).value, Key(sku, leg.from));
      }
    } else if Covers(inv, leg.from, lines) {
      LinesGo(inv, leg, lines);
    }
  }

  lemma {:induction false} RunKeepsTransfers(db: Db, actions: seq<Action>)
    requires TransfersSound(db)
    ensures TransfersSound(Run(db, actions))
    decreases |actions|
  {
    if actions != [] {
      if Accepted(db, actions[0]) {
        StepKeepsSound(db, actions[0]);
      }
      RunKeepsTransfers(Step(db, actions[0]), actions[1..]);
    }
  }

  lemma ReachableTransfers(db: Db)
    requires Reachable(db)
    ensures Agrees(db.inv) && DriftBounded(db.inv) && TransfersSound(db)
  {
    var config, draws, actions :| db == Run(EmptyDb(config, draws), actions);
    EmptyAgrees(config, draws);
    RunKeepsProjections(EmptyDb(config, draws), actions);
    RunKeepsTransfers(EmptyDb(config, draws), actions);
  }

  /** There is enough in transit to receive the transfer; one that goes to the in-transit location
      itself takes each line out and puts it back. */
  ghost predicate CanReceive(db: Db, t: nat)
    requires t < |db.docs.transfers|
  {
    var transit, lines := db.docs.config.transit, db.docs.transfers[t].lines;
    if db.docs.transfers[t].destination != transit then Covers(db.inv, transit, lines)
    else AllFit(db.inv, transit, lines)
  }

  /** After any run, whoever else used the in-transit location: receiving a shipped transfer is
      accepted exactly when there is enough there. */
  lemma ReceiveGoesExactly(db: Db, t: nat, at: int)
    requires Reachable(db) && t < |db.docs.transfers| && db.docs.transfers[t].state == TransferShipped
    ensures Accepted(db, ReceiveTransfer(t, at)) <==> CanReceive(db, t)
  {
    ReachableTransfers(db);
    var leg := Transfers.ReceiveLeg(db.docs, t, at);
    if leg.from != leg.to {
      LegGoesExactly(db.inv, leg, db.docs.transfers[t].lines);
    } else {
      LinesInPlace(db.inv, leg, db.docs.transfers[t].lines);
    }
  }

  lemma ReceiveGoes(db: Db, t: nat, at: int)
    requires PivotInvariant(db) && t < |db.docs.transfers| && db.docs.transfers[t].state == TransferShipped
    ensures Transact(db, Transfers.PlanReceive(db.docs, t, at)).Ok?
  {
    ShippedCovered(db, t);
    LinesGo(db.inv, Transfers.ReceiveLeg(db.docs, t, at), db.docs.transfers[t].lines);
  }

  // ---------- the main results ----------

  /** In every run in which only transfers use the in-transit location, its on-hand quantity of a
      sku is exactly the total of the lines shipped and not yet received, and its layers hold
      exactly the loose part of it. */
  lemma InTransitExact(config: Config, draws: seq<int>, actions: seq<Action>, sku: SkuId)
    requires forall i :: 0 <= i < |actions| ==> Avoids(config.transit, actions[i])
    ensures var db := Run(EmptyDb(config, draws), actions);
            && OnHand(db.inv, Key(sku, config.transit)) == SumOf(db.docs.transfers, Parked(sku))
            && Fifo.Quantity(LayersAt(db.inv, Key(sku, config.transit))) == SumOf(db.docs.transfers, ParkedLoose(sku))
  {
    var start := EmptyDb(config, draws);
    EmptyPivot(config, draws);
    RunKeepsPivot(start, actions);
    var db := Run(start, actions);
    assert ParkedExactlyAt(db, sku) && AgreesAt(db.inv, Key(sku, config.transit));
  }

  /** In every such run, receiving a shipped transfer never fails. */
  lemma ReceiveNeverStuck(config: Config, draws: seq<int>, actions: seq<Action>, t: nat, at: int)
    requires forall i :: 0 <= i < |actions| ==> Avoids(config.transit, actions[i])
    requires var docs := Run(EmptyDb(config, draws), actions).docs;
             t < |docs.transfers| && docs.transfers[t].state == TransferShipped
    ensures Accepted(Run(EmptyDb(config, draws), actions), ReceiveTransfer(t, at))
  {
    var start := EmptyDb(config, draws);
    EmptyPivot(config, draws);
    RunKeepsPivot(start, actions);
    ReceiveGoes(Run(start, actions), t, at);
  }
}
