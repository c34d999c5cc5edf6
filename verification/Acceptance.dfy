/** When each call is accepted, told from the database before it, after any run. */
module Acceptance {
  import opened Tables
  import opened Ledger
  import opened Database
  import opened Sums
  import opened Runs
  import Conservation
  import Fifo
  import Intake
  import OrderHistory
  import Purchasing
  import Reconciliation
  import SerialEffects
  import Transit

  // ---------- movements out ----------

  /** Movements that take something out, and carry no client intake id. */
  predicate Outbound(op: Op) {
    op.Move? && op.m.qty < 0 && op.m.intake.None?
  }

  predicate AllOutbound(ops: seq<Op>) {
    forall i :: 0 <= i < |ops| ==> Outbound(ops[i])
  }

  /** There is enough for all of them together. */
  predicate CoversOps(inv: Inventory, ops: seq<Op>, k: Key) {
    && OnHand(inv, k) + OpsTotal(QtyAt(k), ops) >= 0
    && Fifo.Quantity(LayersAt(inv, k)) + OpsTotal(LayeredQtyAt(k), ops) >= 0
  }

  ghost predicate AllCovered(inv: Inventory, ops: seq<Op>) {
    forall k: Key :: CoversOps(inv, ops, k)
  }

  predicate KnownSerials(inv: Inventory, ops: seq<Op>) {
    forall i :: 0 <= i < |ops| && ops[i].Move? && ops[i].m.serial.Some? ==> ops[i].m.serial.value in inv.serials
  }

  lemma {:induction false} OutboundTotals(ops: seq<Op>, k: Key)
    requires AllOutbound(ops)
    ensures OpsTotal(QtyAt(k), ops) <= 0 && OpsTotal(LayeredQtyAt(k), ops) <= 0
  {
    if ops != [] {
      assert Outbound(ops[0]);
      OutboundTotals(ops[1..], k);
    }
  }

  /** One movement out goes exactly when there is enough and its serial exists. */
  lemma OneOutGoes(inv: Inventory, m: Movement)
    requires Agrees(inv) && m.qty < 0 && m.intake.None?
    ensures Post(inv, m, NextId(inv)).Ok? <==>
            && (m.serial.Some? ==> m.serial.value in inv.serials)
            && OnHand(inv, m.key) + m.qty >= 0
            && (m.serial.None? ==> Fifo.Quantity(LayersAt(inv, m.key)) + m.qty >= 0)
  {
    if m.serial.None? {
      Fifo.ConsumeAccounts(LayersAt(inv, m.key), -m.qty);
    }
  }

  lemma OneOutLeaves(inv: Inventory, m: Movement, k: Key)
    requires Post(inv, m, NextId(inv)).Ok?
    ensures var next := Post(inv, m, NextId(inv)).value;
            && OnHand(next, k) == OnHand(inv, k) + (if k == m.key then m.qty else 0)
            && Fifo.Quantity(LayersAt(next, k))
                 == Fifo.Quantity(LayersAt(inv, k)) + (if k == m.key && m.serial.None? then m.qty else 0)
            && next.serials.Keys == inv.serials.Keys
  {
    PostLayers(inv, m, NextId(inv));
  }

  /** A list of movements out goes exactly when there is enough for all of them and their serials
      exist. */
  lemma {:induction false} OutboundGoes(inv: Inventory, ops: seq<Op>)
    requires Agrees(inv) && AllOutbound(ops)
    ensures ExecAll(inv, ops).Ok? <==> KnownSerials(inv, ops) && AllCovered(inv, ops)
    decreases |ops|
  {
    if ops == [] {
      forall k: Key ensures CoversOps(inv, ops, k) {
        assert AgreesAt(inv, k);
      }
    } else {
      var m, tail := ops[0].m, ops[1..];
      assert Outbound(ops[0]);
      OneOutGoes(inv, m);
      assert KnownSerials(inv, ops)
        <==> (m.serial.Some? ==> m.serial.value in inv.serials) && KnownSerials(inv, tail) by {
        assert forall i :: 0 < i < |ops| ==> ops[i] == tail[i - 1];
        assert forall i :: 0 <= i < |tail| ==> tail[i] == ops[i + 1];
      }
      OutboundTotals(tail, m.key);
      if Post(inv, m, NextId(inv)).Ok? {
        var next := Post(inv, m, NextId(inv)).value;
        PostAgrees(inv, m, NextId(inv));
        OutboundGoes(next, tail);
        forall k: Key ensures CoversOps(inv, ops, k) <==> CoversOps(next, tail, k) {
          OneOutLeaves(inv, m, k);
        }
        OneOutLeaves(inv, m, m.key);
      } else {
        assert !KnownSerials(inv, ops) || !CoversOps(inv, ops, m.key);
      }
    }
  }

  // ---------- offline sales ----------

  /** A line goes exactly when its pair has a balance row with enough that is not reserved, there is
      enough on hand and in layers, and the first line's id is not recorded. */
  lemma SaleLineGoes(inv: Inventory, env: Intake.Envelope, doc: DocId, i: nat)
    requires i < |env.lines| && env.lines[i].qty > 0
    ensures var k, qty := Key(env.lines[i].sku, env.loc), env.lines[i].qty;
            ExecAll(inv, Intake.LineOps(env, doc, i)).Ok? <==>
              && k in inv.balances && inv.balances[k].onHand - inv.balances[k].reserved >= qty
              && inv.balances[k].onHand >= qty && Fifo.Quantity(LayersAt(inv, k)) >= qty
              && (i == 0 ==> forall j :: 0 <= j < |inv.ledger| ==> inv.ledger[j].intake != Some(env.id))
  {
    Intake.LineExec(inv, env, doc, i);
    Fifo.ConsumeAccounts(LayersAt(inv, Key(env.lines[i].sku, env.loc)), env.lines[i].qty);
  }

  /** No service reserves stock. */
  predicate Unreserved(inv: Inventory) {
    forall k :: k in inv.balances ==> inv.balances[k].reserved == 0
  }

  lemma {:induction false} StaysUnreserved(inv: Inventory, ops: seq<Op>)
    requires Unreserved(inv) && ExecAll(inv, ops).Ok?
    ensures Unreserved(ExecAll(inv, ops).value)
    decreases |ops|
  {
    if ops != [] {
      OpUnreserved(inv, ops[0]);
      StaysUnreserved(Exec(inv, ops[0]).value, ops[1..]);
    }
  }

  lemma OpUnreserved(inv: Inventory, op: Op)
    requires Unreserved(inv) && Exec(inv, op).Ok?
    ensures Unreserved(Exec(inv, op).value)
  {
  }

  lemma {:induction false} RunUnreserved(db: Db, actions: seq<Action>)
    requires Unreserved(db.inv)
    ensures Unreserved(Run(db, actions).inv)
    decreases |actions|
  {
    if actions != [] {
      if Accepted(db, actions[0]) {
        StaysUnreserved(db.inv, PlanOf(db, actions[0]).value.ops);
      }
      RunUnreserved(Step(db, actions[0]), actions[1..]);
    }
  }

  lemma ReachableUnreserved(db: Db)
    requires Reachable(db)
    ensures Unreserved(db.inv)
  {
    var config, draws, actions :| db == Run(EmptyDb(config, draws), actions);
    RunUnreserved(EmptyDb(config, draws), actions);
  }

  /** There is enough at the location for all the lines of a sku together. */
  predicate Sells(inv: Inventory, loc: LocId, lines: seq<Intake.SaleLine>, sku: SkuId) {
    && SumOf(lines, Conservation.SaleLineQty(sku)) <= OnHand(inv, Key(sku, loc))
    && SumOf(lines, Conservation.SaleLineQty(sku)) <= Fifo.Quantity(LayersAt(inv, Key(sku, loc)))
  }

  ghost predicate AllSell(inv: Inventory, loc: LocId, lines: seq<Intake.SaleLine>) {
    forall sku: SkuId :: Sells(inv, loc, lines, sku)
  }

  lemma AllSellSame(a: Inventory, b: Inventory, loc: LocId, x: seq<Intake.SaleLine>, y: seq<Intake.SaleLine>)
    requires forall sku: SkuId :: Sells(a, loc, x, sku) <==> Sells(b, loc, y, sku)
    ensures AllSell(a, loc, x) <==> AllSell(b, loc, y)
  {
    if AllSell(a, loc, x) {
      forall sku: SkuId ensures Sells(b, loc, y, sku) {
        assert Sells(a, loc, x, sku);
      }
    }
    if AllSell(b, loc, y) {
      forall sku: SkuId ensures Sells(a, loc, x, sku) {
        assert Sells(b, loc, y, sku);
      }
    }
  }

  lemma LineLeaves(inv: Inventory, env: Intake.Envelope, doc: DocId, i: nat, k: Key)
    requires i < |env.lines| && Agrees(inv) && Unreserved(inv) && ExecAll(inv, Intake.LineOps(env, doc, i)).Ok?
    ensures var next, line := ExecAll(inv, Intake.LineOps(env, doc, i)).value, env.lines[i];
            && Agrees(next) && Unreserved(next)
            && OnHand(next, k) == OnHand(inv, k) - (if k == Key(line.sku, env.loc) then line.qty else 0)
            && Fifo.Quantity(LayersAt(next, k))
                 == Fifo.Quantity(LayersAt(inv, k)) - (if k == Key(line.sku, env.loc) then line.qty else 0)
  {
    var m := Intake.SaleMovement(env, doc, i);
    Intake.LineExec(inv, env, doc, i);
    OneOutLeaves(inv, m, k);
    PostAgrees(inv, m, NextId(inv));
    OpUnreserved(inv, Move(m));
  }

  lemma SoldNonNegative(lines: seq<Intake.SaleLine>, sku: SkuId)
    requires forall j :: 0 <= j < |lines| ==> lines[j].qty > 0
    ensures SumOf(lines, Conservation.SaleLineQty(sku)) >= 0
  {
    SumNonNegative(lines, Conservation.SaleLineQty(sku));
  }

  lemma {:induction false} SaleGoes(inv: Inventory, env: Intake.Envelope, doc: DocId, i: nat)
    requires Agrees(inv) && Unreserved(inv) && i <= |env.lines|
    requires forall j :: 0 <= j < |env.lines| ==> env.lines[j].qty > 0
    ensures ExecAll(inv, Intake.SaleOpsFrom(env, doc, i)).Ok? <==>
              && (i == 0 && env.lines != [] ==> !UsesIntake(inv.ledger, env.id))
              && AllSell(inv, env.loc, env.lines[i..])
    decreases |env.lines| - i
  {
    var rest := env.lines[i..];
    if i == |env.lines| {
      forall sku: SkuId ensures Sells(inv, env.loc, rest, sku) {
        assert AgreesAt(inv, Key(sku, env.loc));
      }
    } else {
      var line, k := env.lines[i], Key(env.lines[i].sku, env.loc);
      assert rest[1..] == env.lines[i + 1..] && rest[0] == line;
      ExecAllConcat(inv, Intake.LineOps(env, doc, i), Intake.SaleOpsFrom(env, doc, i + 1));
      SaleLineGoes(inv, env, doc, i);
      SoldNonNegative(env.lines[i + 1..], line.sku);
      if ExecAll(inv, Intake.LineOps(env, doc, i)).Ok? {
        var next := ExecAll(inv, Intake.LineOps(env, doc, i)).value;
        LineLeaves(inv, env, doc, i, k);
        SaleGoes(next, env, doc, i + 1);
        forall sku: SkuId ensures Sells(inv, env.loc, rest, sku) <==> Sells(next, env.loc, env.lines[i + 1..], sku) {
          LineLeaves(inv, env, doc, i, Key(sku, env.loc));
        }
        AllSellSame(inv, next, env.loc, rest, env.lines[i + 1..]);
      } else {
        assert (i == 0 && UsesIntake(inv.ledger, env.id)) || !Sells(inv, env.loc, rest, line.sku);
      }
    }
  }

  lemma {:induction false} NotRefused(config: Config, lines: seq<Intake.SaleLine>)
    ensures Intake.Refusal(config, lines).None? <==> forall i :: 0 <= i < |lines| ==>
              && lines[i].qty > 0 && lines[i].sku in config.skus
              && config.skus[lines[i].sku].tracking in {NonSerialized, LotTracked}
  {
    if lines != [] {
      NotRefused(config, lines[1..]);
      assert forall i :: 0 < i < |lines| ==> lines[i] == lines[1..][i - 1];
      assert forall i :: 0 <= i < |lines[1..]| ==> lines[1..][i] == lines[i + 1];
    }
  }

  /** After any run an envelope is accepted exactly when its lines are for known skus that are not
      serialised, lot tracked or not, there is enough for each of them, and, if it has lines, its id
      was not recorded before. */
  lemma SaleGoesExactly(db: Db, env: Intake.Envelope, doc: DocId)
    requires Reachable(db)
    ensures Accepted(db, PostSale(env, doc)) <==>
              && (forall i :: 0 <= i < |env.lines| ==>
                    && env.lines[i].qty > 0 && env.lines[i].sku in db.docs.config.skus
                    && db.docs.config.skus[env.lines[i].sku].tracking in {NonSerialized, LotTracked})
              && (env.lines != [] ==>
                    forall j :: 0 <= j < |db.inv.ledger| ==> db.inv.ledger[j].intake != Some(env.id))
              && AllSell(db.inv, env.loc, env.lines)
  {
    NotRefused(db.docs.config, env.lines);
    if Intake.Refusal(db.docs.config, env.lines).None? {
      Reconciliation.ReachableSound(db);
      ReachableUnreserved(db);
      SaleGoes(db.inv, env, doc, 0);
      assert env.lines[0..] == env.lines;
    }
  }

  /** A request that is answered has no line for a serialised or an unknown sku. */
  lemma {:induction false} AnsweredIsCovered(config: Config, start: Inventory, now: Inventory,
                                             items: seq<Intake.Envelope>, sales: seq<DocId>, single: bool, i: nat)
    requires |items| == |sales| && i < |items| && Intake.Batch(config, start, now, items, sales, single).Ok?
    ensures forall j :: 0 <= j < |items[i].lines| ==>
              && items[i].lines[j].qty > 0 && items[i].lines[j].sku in config.skus
              && config.skus[items[i].lines[j].sku].tracking in {NonSerialized, LotTracked}
    decreases |items|
  {
    NotRefused(config, items[0].lines);
    if i > 0 {
      match ExecAll(now, Intake.SaleOps(items[0], sales[0])) {
        case Ok(next) => AnsweredIsCovered(config, start, next, items[1..], sales[1..], single, i - 1);
        case Raise(e) => AnsweredIsCovered(config, start, start, items[1..], sales[1..], single, i - 1);
      }
    }
  }

  // ---------- receipts ----------

  /** The i-th entry is for a known order line, within its tolerance together with the entries before
      it, and fits the tracking of its sku. */
  predicate EntryFits(docs: Docs, entries: seq<Purchasing.ReceiptInput>, i: nat)
    requires i < |entries|
  {
    var e := entries[i];
    && e.qty > 0 && e.poLine < |docs.poLines| && docs.poLines[e.poLine].sku in docs.config.skus
    && var line := docs.poLines[e.poLine];
       var tracking := docs.config.skus[line.sku].tracking;
       && (line.received + SumOf(entries[..i + 1], OrderHistory.EntryNamed(e.poLine))) * 100
            <= line.ordered * (100 + OrderHistory.PercentOver(docs.config, line.sku))
       && (tracking == Serialized ==>
             |e.serials| == e.qty / UNIT
             && forall x, y :: 0 <= x < y < |e.serials| ==> e.serials[x] != e.serials[y])
       && (tracking == LotTracked ==> e.lotCode != "")
  }

  predicate AllFit(docs: Docs, entries: seq<Purchasing.ReceiptInput>) {
    forall i :: 0 <= i < |entries| ==> EntryFits(docs, entries, i)
  }

  lemma FirstFits(docs: Docs, entries: seq<Purchasing.ReceiptInput>)
    requires entries != []
    ensures EntryFits(docs, entries, 0) <==> Purchasing.ReceiptError(docs, entries[0]).None?
  {
    assert entries[..1] == [entries[0]];
    SumOfOne(entries[0], OrderHistory.EntryNamed(entries[0].poLine));
  }

  lemma LaterFits(docs: Docs, d: Purchasing.Delivery, entries: seq<Purchasing.ReceiptInput>, i: nat)
    requires i + 1 < |entries| && Purchasing.ReceiptError(docs, entries[0]).None?
    ensures EntryFits(docs, entries, i + 1) <==> EntryFits(Purchasing.AfterLine(docs, d, entries[0]), entries[1..], i)
  {
    var f := OrderHistory.EntryNamed(entries[i + 1].poLine);
    assert entries[..i + 2] == [entries[0]] + entries[1..][..i + 1];
    SumOfConcat([entries[0]], entries[1..][..i + 1], f);
    SumOfOne(entries[0], f);
  }

  lemma {:induction false} NoErrorsFit(docs: Docs, d: Purchasing.Delivery, entries: seq<Purchasing.ReceiptInput>)
    ensures OrderHistory.NoErrors(docs, d, entries) <==> AllFit(docs, entries)
    decreases |entries|
  {
    if entries != [] {
      FirstFits(docs, entries);
      if Purchasing.ReceiptError(docs, entries[0]).None? {
        var next := Purchasing.AfterLine(docs, d, entries[0]);
        NoErrorsFit(next, d, entries[1..]);
        forall i | 0 <= i < |entries[1..]| ensures EntryFits(docs, entries, i + 1)
            <==> EntryFits(next, entries[1..], i) {
          LaterFits(docs, d, entries, i);
        }
        ShiftFits(docs, next, entries);
      }
    }
  }

  lemma ShiftFits(docs: Docs, next: Docs, entries: seq<Purchasing.ReceiptInput>)
    requires entries != [] && EntryFits(docs, entries, 0)
    requires forall i {:trigger EntryFits(next, entries[1..], i)} :: 0 <= i < |entries[1..]| ==>
               (EntryFits(docs, entries, i + 1) <==> EntryFits(next, entries[1..], i))
    ensures AllFit(docs, entries) <==> AllFit(next, entries[1..])
  {
    if AllFit(next, entries[1..]) {
      forall i | 0 <= i < |entries| ensures EntryFits(docs, entries, i) {
        if i > 0 {
          assert EntryFits(next, entries[1..], i - 1);
        }
      }
    }
    if AllFit(docs, entries) {
      forall i | 0 <= i < |entries[1..]| ensures EntryFits(next, entries[1..], i) {
        assert EntryFits(docs, entries, i + 1);
      }
    }
  }

  /** The serials an entry brings in: those of an entry for a serialised line. */
  function SerialsOf(docs: Docs, e: Purchasing.ReceiptInput): set<SerialId> {
    if e.poLine < |docs.poLines| && IsSerialized(docs.config, docs.poLines[e.poLine].sku) then set id | id in e.serials
    else {}
  }

  /** No serial of an entry is known before the receipt, or named by an earlier entry. */
  predicate SerialsNew(docs: Docs, known: set<SerialId>, entries: seq<Purchasing.ReceiptInput>)
    decreases |entries|
  {
    entries == []
    || (SerialsOf(docs, entries[0]) !! known && SerialsNew(docs, known + SerialsOf(docs, entries[0]), entries[1..]))
  }

  lemma {:induction false} SameSerialsNew(a: Docs, b: Docs, known: set<SerialId>, entries: seq<Purchasing.ReceiptInput>)
    requires a.config == b.config && |a.poLines| == |b.poLines|
    requires forall j :: 0 <= j < |a.poLines| ==> a.poLines[j].sku == b.poLines[j].sku
    ensures SerialsNew(a, known, entries) <==> SerialsNew(b, known, entries)
    decreases |entries|
  {
    if entries != [] {
      SameSerialsNew(a, b, known + SerialsOf(a, entries[0]), entries[1..]);
    }
  }

  lemma {:induction false} NewSerialsGo(inv: Inventory, d: Purchasing.Delivery, sku: SkuId, unitCost: int,
                                        ids: seq<SerialId>)
    requires Agrees(inv) && forall x, y :: 0 <= x < y < |ids| ==> ids[x] != ids[y]
    requires forall x :: 0 <= x < |ids| ==> ids[x] !in inv.serials
    ensures ExecAll(inv, Purchasing.NewSerialOps(d, sku, unitCost, ids)).Ok?
    decreases |ids|
  {
    if ids != [] {
      var row := Serial(sku, Received, Some(d.loc), unitCost);
      var m := OfSerial(Key(sku, d.loc), UNIT, PoReceipt, d.receipt, ids[0], Some(unitCost), d.at, Some(Sellable));
      var tail := Purchasing.NewSerialOps(d, sku, unitCost, ids[1..]);
      Purchasing.SerialHead(inv, ids[0], row, m, tail);
      var mid := inv.(serials := inv.serials[ids[0] := row]);
      assert Agrees(mid) by {
        forall k: Key ensures AgreesAt(mid, k) {
          assert AgreesAt(inv, k);
        }
      }
      assert AgreesAt(mid, m.key);
      Transit.InboundGoes(mid, m);
      PostAgrees(mid, m, NextId(mid));
      NewSerialsGo(Post(mid, m, NextId(mid)).value, d, sku, unitCost, ids[1..]);
    }
  }

  /** An entry without an error goes exactly when its serials are new. */
  lemma EntryGoes(inv: Inventory, docs: Docs, d: Purchasing.Delivery, e: Purchasing.ReceiptInput)
    requires Agrees(inv) && Purchasing.ReceiptError(docs, e).None?
    ensures ExecAll(inv, Purchasing.LineOps(docs, d, e)).Ok? <==> SerialsOf(docs, e) !! inv.serials.Keys
  {
    var po := docs.poLines[e.poLine];
    if IsSerialized(docs.config, po.sku) {
      var tail := Purchasing.NewSerialOps(d, po.sku, po.unitCost, e.serials);
      HeadOp(inv, AssertUnknown(e.serials), tail);
      if x :| 0 <= x < |e.serials| && e.serials[x] in inv.serials {
        assert e.serials[x] in SerialsOf(docs, e) && e.serials[x] in inv.serials.Keys;
      } else {
        NewSerialsGo(inv, d, po.sku, po.unitCost, e.serials);
      }
    } else {
      var m := Loose(Key(po.sku, d.loc), e.qty, PoReceipt, d.receipt, Some(po.unitCost), d.at);
      assert Purchasing.LineOps(docs, d, e) == [Move(m)] + [];
      HeadMoved(inv, m, []);
      assert AgreesAt(inv, m.key);
      Transit.InboundGoes(inv, m);
    }
  }

  lemma {:induction false} OpsAgree(inv: Inventory, ops: seq<Op>)
    requires Agrees(inv) && ExecAll(inv, ops).Ok?
    ensures Agrees(ExecAll(inv, ops).value)
    decreases |ops|
  {
    if ops != [] {
      var next := Exec(inv, ops[0]).value;
      if ops[0].Move? {
        PostAgrees(inv, ops[0].m, NextId(inv));
      } else {
        forall k: Key ensures AgreesAt(next, k) {
          assert AgreesAt(inv, k);
        }
      }
      OpsAgree(next, ops[1..]);
    }
  }

  lemma EntryLeaves(inv: Inventory, docs: Docs, d: Purchasing.Delivery, e: Purchasing.ReceiptInput)
    requires Agrees(inv) && ExecAll(inv, Purchasing.LineOps(docs, d, e)).Ok?
    ensures var inv' := ExecAll(inv, Purchasing.LineOps(docs, d, e)).value;
            Agrees(inv') && inv'.serials.Keys == inv.serials.Keys + SerialsOf(docs, e)
  {
    OpsAgree(inv, Purchasing.LineOps(docs, d, e));
    SerialEffects.EntryBrings(inv, docs, d, e);
  }

  /** The entries after the first, once the first was posted. */
  lemma {:induction false} RestGoes(inv: Inventory, docs: Docs, d: Purchasing.Delivery,
                                    entries: seq<Purchasing.ReceiptInput>)
    requires Agrees(inv) && entries != [] && ExecAll(inv, Purchasing.LineOps(docs, d, entries[0])).Ok?
    ensures var inv' := ExecAll(inv, Purchasing.LineOps(docs, d, entries[0])).value;
            var next := Purchasing.AfterLine(docs, d, entries[0]);
            ExecAll(inv', Purchasing.ReceiveLines(next, d, entries[1..]).ops).Ok?
            <==> OrderHistory.NoErrors(next, d, entries[1..])
                 && SerialsNew(docs, inv.serials.Keys + SerialsOf(docs, entries[0]), entries[1..])
    decreases |entries|, 0
  {
    var inv' := ExecAll(inv, Purchasing.LineOps(docs, d, entries[0])).value;
    var next := Purchasing.AfterLine(docs, d, entries[0]);
    EntryLeaves(inv, docs, d, entries[0]);
    ReceiptGoes(inv', next, d, entries[1..]);
    SameSerialsNew(docs, next, inv'.serials.Keys, entries[1..]);
  }

  /** A receipt is its first entry, then the others. */
  lemma ReceiptSplits(inv: Inventory, docs: Docs, d: Purchasing.Delivery, entries: seq<Purchasing.ReceiptInput>)
    requires entries != []
    ensures var head := ExecAll(inv, Purchasing.LineOps(docs, d, entries[0]));
            var next := Purchasing.AfterLine(docs, d, entries[0]);
            ExecAll(inv, Purchasing.ReceiveLines(docs, d, entries).ops)
              == if head.Ok? then ExecAll(head.value, Purchasing.ReceiveLines(next, d, entries[1..]).ops) else head
  {
    var next := Purchasing.AfterLine(docs, d, entries[0]);
    ExecAllConcat(inv, Purchasing.LineOps(docs, d, entries[0]), Purchasing.ReceiveLines(next, d, entries[1..]).ops);
  }

  lemma HeadGoes(inv: Inventory, docs: Docs, d: Purchasing.Delivery, e: Purchasing.ReceiptInput)
    requires Agrees(inv)
    ensures ExecAll(inv, Purchasing.LineOps(docs, d, e)).Ok?
       <==> Purchasing.ReceiptError(docs, e).None? && SerialsOf(docs, e) !! inv.serials.Keys
  {
    if Purchasing.ReceiptError(docs, e).None? {
      EntryGoes(inv, docs, d, e);
    }
  }

  lemma {:induction false} ReceiptGoes(inv: Inventory, docs: Docs, d: Purchasing.Delivery,
                                       entries: seq<Purchasing.ReceiptInput>)
    requires Agrees(inv)
    ensures ExecAll(inv, Purchasing.ReceiveLines(docs, d, entries).ops).Ok?
       <==> OrderHistory.NoErrors(docs, d, entries) && SerialsNew(docs, inv.serials.Keys, entries)
    decreases |entries|, 1
  {
    if entries != [] {
      ReceiptSplits(inv, docs, d, entries);
      HeadGoes(inv, docs, d, entries[0]);
      if ExecAll(inv, Purchasing.LineOps(docs, d, entries[0])).Ok? {
        RestGoes(inv, docs, d, entries);
      }
    }
  }

  /** After any run a receipt is accepted exactly when its order is approved, sent or being received,
      every entry fits, and every serial is new. */
  lemma ReceiptGoesExactly(db: Db, po: nat, loc: LocId, at: int, entries: seq<Purchasing.ReceiptInput>)
    requires Reachable(db)
    ensures Accepted(db, PostReceipt(po, loc, at, entries)) <==>
              && po < |db.docs.orders| && db.docs.orders[po] in {Approved, Sent, Receiving}
              && AllFit(db.docs, entries) && SerialsNew(db.docs, db.inv.serials.Keys, entries)
  {
    if po < |db.docs.orders| && Purchasing.Receivable(db.docs.orders[po]) {
      var begun, d := Purchasing.OpenReceipt(db.docs, po, loc, at), Purchasing.Delivery(|db.docs.receipts|, loc, at);
      Reconciliation.ReachableSound(db);
      ReceiptGoes(db.inv, begun, d, entries);
      NoErrorsFit(begun, d, entries);
      SameFits(db.docs, begun, entries);
      SameSerialsNew(db.docs, begun, db.inv.serials.Keys, entries);
    }
  }

  lemma SameFits(a: Docs, b: Docs, entries: seq<Purchasing.ReceiptInput>)
    requires a.config == b.config && a.poLines == b.poLines
    ensures AllFit(a, entries) <==> AllFit(b, entries)
  {
    assert forall i :: 0 <= i < |entries| ==> (EntryFits(a, entries, i) <==> EntryFits(b, entries, i));
  }

  /** For goods that are not serialised, with each order line named once: each line by itself. */
  lemma LooseReceiptGoesExactly(db: Db, po: nat, loc: LocId, at: int, entries: seq<Purchasing.ReceiptInput>)
    requires Reachable(db)
    requires forall i, j :: 0 <= i < j < |entries| ==> entries[i].poLine != entries[j].poLine
    requires forall i :: 0 <= i < |entries| && entries[i].poLine < |db.docs.poLines| ==>
               !IsSerialized(db.docs.config, db.docs.poLines[entries[i].poLine].sku)
    ensures Accepted(db, PostReceipt(po, loc, at, entries)) <==>
              && po < |db.docs.orders| && db.docs.orders[po] in {Approved, Sent, Receiving}
              && forall i :: 0 <= i < |entries| ==> AloneFits(db.docs, entries[i])
  {
    ReceiptGoesExactly(db, po, loc, at, entries);
    LooseNew(db.docs, db.inv.serials.Keys, entries);
    AloneIsEnough(db.docs, entries);
  }

  lemma AloneIsEnough(docs: Docs, entries: seq<Purchasing.ReceiptInput>)
    requires forall i, j :: 0 <= i < j < |entries| ==> entries[i].poLine != entries[j].poLine
    requires forall i :: 0 <= i < |entries| && entries[i].poLine < |docs.poLines| ==>
               !IsSerialized(docs.config, docs.poLines[entries[i].poLine].sku)
    ensures AllFit(docs, entries) <==> forall i :: 0 <= i < |entries| ==> AloneFits(docs, entries[i])
  {
    forall i | 0 <= i < |entries| ensures EntryFits(docs, entries, i) <==> AloneFits(docs, entries[i]) {
      OnlyOne(entries, i);
    }
  }

  /** A positive quantity of a known order line, within its tolerance, with a lot code if the sku is
      lot tracked. */
  predicate AloneFits(docs: Docs, e: Purchasing.ReceiptInput) {
    && e.qty > 0 && e.poLine < |docs.poLines|
    && var line := docs.poLines[e.poLine];
       && line.sku in docs.config.skus
       && (line.received + e.qty) * 100 <= line.ordered * (100 + OrderHistory.PercentOver(docs.config, line.sku))
       && (docs.config.skus[line.sku].tracking == LotTracked ==> e.lotCode != "")
  }

  lemma {:induction false} LooseNew(docs: Docs, known: set<SerialId>, entries: seq<Purchasing.ReceiptInput>)
    requires forall i :: 0 <= i < |entries| && entries[i].poLine < |docs.poLines| ==>
               !IsSerialized(docs.config, docs.poLines[entries[i].poLine].sku)
    ensures SerialsNew(docs, known, entries)
    decreases |entries|
  {
    if entries != [] {
      LooseNew(docs, known + SerialsOf(docs, entries[0]), entries[1..]);
    }
  }

  lemma OnlyOne(entries: seq<Purchasing.ReceiptInput>, i: nat)
    requires i < |entries|
    requires forall x, y :: 0 <= x < y < |entries| ==> entries[x].poLine != entries[y].poLine
    ensures SumOf(entries[..i + 1], OrderHistory.EntryNamed(entries[i].poLine)) == entries[i].qty
  {
    var f := OrderHistory.EntryNamed(entries[i].poLine);
    assert entries[..i + 1] == entries[..i] + [entries[i]];
    SumOfConcat(entries[..i], [entries[i]], f);
    SumOfOne(entries[i], f);
    SumsToNothing(entries[..i], f);
  }

  lemma {:induction false} SumsToNothing<T>(rows: seq<T>, f: T -> int)
    requires forall i :: 0 <= i < |rows| ==> f(rows[i]) == 0
    ensures SumOf(rows, f) == 0
  {
    if rows != [] {
      SumsToNothing(rows[1..], f);
    }
  }
}
