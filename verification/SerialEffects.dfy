/** What each accepted call does to the serial rows. */
module SerialEffects {
  import opened Tables
  import opened Ledger
  import opened Database
  import opened Runs
  import opened Cardinality
  import opened VendorSerials
  import Counts
  import Intake
  import OrderHistory
  import Purchasing
  import Returns
  import SerialRuns
  import Serials
  import Transfers

  // ---------- what the calls say ----------

  /** The named serials are at a location, in a state; nothing else of them changed. */
  function Stationed(serials: map<SerialId, Serial>, ids: set<SerialId>, loc: LocId, state: SerialState)
    : map<SerialId, Serial>
  {
    map id | id in serials :: if id in ids then serials[id].(location := Some(loc), state := state) else serials[id]
  }

  /** The rows of the serials an entry brings in: sellable, at the location, at the cost of the line. */
  function BroughtBy(config: Config, poLines: seq<PoLine>, loc: LocId, e: Purchasing.ReceiptInput)
    : map<SerialId, Serial>
  {
    if e.poLine >= |poLines| || !IsSerialized(config, poLines[e.poLine].sku) then map[]
    else AllAs(e.serials, Serial(poLines[e.poLine].sku, Sellable, Some(loc), poLines[e.poLine].unitCost))
  }

  /** One row for every serial of a list. */
  function AllAs(ids: seq<SerialId>, row: Serial): map<SerialId, Serial> {
    map id | id in ids :: row
  }

  function Brought(config: Config, poLines: seq<PoLine>, loc: LocId, entries: seq<Purchasing.ReceiptInput>)
    : map<SerialId, Serial>
  {
    if entries == [] then map[]
    else BroughtBy(config, poLines, loc, entries[0]) + Brought(config, poLines, loc, entries[1..])
  }

  /** The row of a returned serial: scrapped and nowhere, or at the target, at no cost, and pending for
      the vendor if that is the disposition. */
  function TakenBack(row: Serial, l: Returns.LineInput): Serial {
    if l.disposition == ScrapIt then row.(state := Scrapped, location := None)
    else Serial(row.sku, if l.disposition == VendorRma then SerialState.RmaPending else Returned, Some(l.target), 0)
  }

  function AfterReturn(serials: map<SerialId, Serial>, lines: seq<Returns.LineInput>): map<SerialId, Serial>
    decreases |lines|
  {
    if lines == [] then serials
    else
      var l := lines[0];
      AfterReturn(if l.serial.Some? && l.serial.value in serials
                  then serials[l.serial.value := TakenBack(serials[l.serial.value], l)] else serials, lines[1..])
  }

  /** The row after a lifecycle call that is accepted. */
  function Called(row: Serial, call: Serials.Call): Serial {
    match call
    case Reserve => row.(state := Reserved)
    case Sell => row.(state := Sold, location := None)
    case TakeBack(target) => row.(state := Returned, location := Some(target))
    case MarkRmaPending => row.(state := SerialState.RmaPending)
    case MarkRmaClosed => row.(state := SerialState.RmaClosed, location := None)
    case MarkScrapped => row.(state := Scrapped, location := None)
    case Move(to) => row.(state := to)
  }

  /** The serial rows after an accepted call. */
  function SerialsAfter(db: Db, a: Action): map<SerialId, Serial> {
    var serials, docs := db.inv.serials, db.docs;
    match a
    case PostReceipt(_, loc, _, entries) => serials + Brought(docs.config, docs.poLines, loc, entries)
    case PostReturn(input) => AfterReturn(serials, input.lines)
    case ShipRma(r, _) =>
      if r >= |docs.rmas| then serials else Relocated(serials, Named(docs.rmas[r].lines), docs.rmas[r].holding)
    case CloseRma(r) => if r >= |docs.rmas| then serials else ClosedRows(serials, Named(docs.rmas[r].lines))
    case ShipTransfer(t, _) =>
      if t >= |docs.transfers| then serials
      else Stationed(serials, Ids(docs.transfers[t].lines), docs.config.transit, SerialState.InTransit)
    case ReceiveTransfer(t, _) =>
      if t >= |docs.transfers| then serials
      else Stationed(serials, Ids(docs.transfers[t].lines), docs.transfers[t].destination, Sellable)
    case SerialCall(id, call) => if id in serials then serials[id := Called(serials[id], call)] else serials
    case _ => serials
  }

  // ---------- transfers ----------

  lemma StationedAgain(serials: map<SerialId, Serial>, id: SerialId, ids: set<SerialId>, loc: LocId, state: SerialState)
    requires id in serials
    ensures Stationed(serials[id := serials[id].(location := Some(loc), state := state)], ids, loc, state)
         == Stationed(serials, {id} + ids, loc, state)
  {
  }

  lemma StationedTwice(serials: map<SerialId, Serial>, a: set<SerialId>, b: set<SerialId>, loc: LocId,
                       state: SerialState)
    ensures Stationed(Stationed(serials, a, loc, state), b, loc, state) == Stationed(serials, a + b, loc, state)
  {
  }

  function IdSet(ids: seq<SerialId>): set<SerialId> {
    set id | id in ids
  }

  lemma {:induction false} SerialsStationed(inv: Inventory, leg: Transfers.Leg, sku: SkuId, ids: seq<SerialId>)
    requires ExecAll(inv, Transfers.SerialOps(leg, sku, ids)).Ok?
    ensures ExecAll(inv, Transfers.SerialOps(leg, sku, ids)).value.serials
         == Stationed(inv.serials, IdSet(ids), leg.to, leg.stateAfter)
    decreases |ids|
  {
    if ids == [] {
      assert Stationed(inv.serials, IdSet([]), leg.to, leg.stateAfter) == inv.serials;
    } else {
      var pair, tail := PairOps(leg, sku, ids[0]), Transfers.SerialOps(leg, sku, ids[1..]);
      assert Transfers.SerialOps(leg, sku, ids) == pair + tail;
      ExecAllConcat(inv, pair, tail);
      PairEffect(inv, leg, sku, ids[0], Key(sku, leg.from));
      SerialsStationed(ExecAll(inv, pair).value, leg, sku, ids[1..]);
      StationedAgain(inv.serials, ids[0], IdSet(ids[1..]), leg.to, leg.stateAfter);
      assert {ids[0]} + IdSet(ids[1..]) == IdSet(ids);
    }
  }

  lemma LoosePairSerials(inv: Inventory, a: Movement, b: Movement)
    requires a.serial.None? && b.serial.None? && ExecAll(inv, [Move(a), Move(b)]).Ok?
    ensures ExecAll(inv, [Move(a), Move(b)]).value.serials == inv.serials
  {
    assert [Move(a), Move(b)] == [Move(a)] + [Move(b)] && [Move(b)] == [Move(b)] + [];
    HeadMoved(inv, a, [Move(b)]);
    HeadMoved(Post(inv, a, NextId(inv)).value, b, []);
  }

  lemma {:induction false} LegStations(inv: Inventory, leg: Transfers.Leg, lines: seq<TransferLine>)
    requires ExecAll(inv, Transfers.LinesOps(leg, lines)).Ok?
    ensures ExecAll(inv, Transfers.LinesOps(leg, lines)).value.serials
         == Stationed(inv.serials, Ids(lines), leg.to, leg.stateAfter)
    decreases |lines|
  {
    if lines == [] {
      assert Stationed(inv.serials, {}, leg.to, leg.stateAfter) == inv.serials;
    } else {
      var l, head := lines[0], Transfers.LineOps(leg, lines[0]);
      ExecAllConcat(inv, head, Transfers.LinesOps(leg, lines[1..]));
      if l.serials != [] {
        SerialsStationed(inv, leg, l.sku, l.serials);
      } else {
        LoosePairSerials(inv, head[0].m, head[1].m);
        assert Stationed(inv.serials, IdSet([]), leg.to, leg.stateAfter) == inv.serials;
      }
      LegStations(ExecAll(inv, head).value, leg, lines[1..]);
      StationedTwice(inv.serials, IdSet(l.serials), Ids(lines[1..]), leg.to, leg.stateAfter);
    }
  }

  // ---------- receipts ----------

  lemma OneMore(serials: map<SerialId, Serial>, ids: seq<SerialId>, first: Serial, row: Serial)
    requires ids != []
    ensures serials[ids[0] := first][ids[0] := row] + AllAs(ids[1..], row) == serials + AllAs(ids, row)
  {
  }

  lemma Join(a: map<SerialId, Serial>, b: map<SerialId, Serial>, c: map<SerialId, Serial>)
    ensures (a + b) + c == a + (b + c)
  {
  }

  lemma {:induction false} NewSerialsBrought(inv: Inventory, d: Purchasing.Delivery, sku: SkuId, unitCost: int,
                                             ids: seq<SerialId>)
    requires ExecAll(inv, Purchasing.NewSerialOps(d, sku, unitCost, ids)).Ok?
    ensures ExecAll(inv, Purchasing.NewSerialOps(d, sku, unitCost, ids)).value.serials
         == inv.serials + AllAs(ids, Serial(sku, Sellable, Some(d.loc), unitCost))
    decreases |ids|
  {
    if ids == [] {
      assert AllAs(ids, Serial(sku, Sellable, Some(d.loc), unitCost)) == map[];
    } else {
      var row := Serial(sku, Received, Some(d.loc), unitCost);
      var m := OfSerial(Key(sku, d.loc), UNIT, PoReceipt, d.receipt, ids[0], Some(unitCost), d.at, Some(Sellable));
      Purchasing.SerialHead(inv, ids[0], row, m, Purchasing.NewSerialOps(d, sku, unitCost, ids[1..]));
      var mid := inv.(serials := inv.serials[ids[0] := row]);
      var next := Post(mid, m, NextId(mid)).value;
      NewSerialsBrought(next, d, sku, unitCost, ids[1..]);
      SerialPosted(mid, m, NextId(mid));
      OneMore(inv.serials, ids, row, Serial(sku, Sellable, Some(d.loc), unitCost));
    }
  }

  lemma EntryBrings(inv: Inventory, docs: Docs, d: Purchasing.Delivery, e: Purchasing.ReceiptInput)
    requires ExecAll(inv, Purchasing.LineOps(docs, d, e)).Ok?
    ensures Purchasing.ReceiptError(docs, e).None?
    ensures ExecAll(inv, Purchasing.LineOps(docs, d, e)).value.serials
         == inv.serials + BroughtBy(docs.config, docs.poLines, d.loc, e)
  {
    OrderHistory.PostedLineValid(inv, docs, d, e);
    var po := docs.poLines[e.poLine];
    if IsSerialized(docs.config, po.sku) {
      HeadOp(inv, AssertUnknown(e.serials), Purchasing.NewSerialOps(d, po.sku, po.unitCost, e.serials));
      NewSerialsBrought(inv, d, po.sku, po.unitCost, e.serials);
    } else {
      var ops := Purchasing.LineOps(docs, d, e);
      assert ops == [ops[0]] + [];
      HeadOp(inv, ops[0], []);
    }
  }

  lemma {:induction false} SameBrought(config: Config, a: seq<PoLine>, b: seq<PoLine>, loc: LocId,
                                       entries: seq<Purchasing.ReceiptInput>)
    requires |a| == |b| && forall j :: 0 <= j < |a| ==> a[j].sku == b[j].sku && a[j].unitCost == b[j].unitCost
    ensures Brought(config, a, loc, entries) == Brought(config, b, loc, entries)
  {
    if entries != [] {
      SameBrought(config, a, b, loc, entries[1..]);
    }
  }

  lemma {:induction false} ReceiptBrings(inv: Inventory, docs: Docs, d: Purchasing.Delivery,
                                         entries: seq<Purchasing.ReceiptInput>)
    requires ExecAll(inv, Purchasing.ReceiveLines(docs, d, entries).ops).Ok?
    ensures ExecAll(inv, Purchasing.ReceiveLines(docs, d, entries).ops).value.serials
         == inv.serials + Brought(docs.config, docs.poLines, d.loc, entries)
    decreases |entries|
  {
    if entries != [] {
      var head, next := Purchasing.LineOps(docs, d, entries[0]), Purchasing.AfterLine(docs, d, entries[0]);
      ExecAllConcat(inv, head, Purchasing.ReceiveLines(next, d, entries[1..]).ops);
      EntryBrings(inv, docs, d, entries[0]);
      ReceiptBrings(ExecAll(inv, head).value, next, d, entries[1..]);
      SameBrought(docs.config, docs.poLines, next.poLines, d.loc, entries[1..]);
      Join(inv.serials, BroughtBy(docs.config, docs.poLines, d.loc, entries[0]),
           Brought(docs.config, docs.poLines, d.loc, entries[1..]));
    }
  }

  // ---------- returns ----------

  lemma ScrapTakes(inv: Inventory, id: SerialId, target: LocId)
    requires ExecAll(inv, [CallSerial(id, Serials.TakeBack(target)), CallSerial(id, Serials.MarkScrapped)]).Ok?
    ensures id in inv.serials
    ensures ExecAll(inv, [CallSerial(id, Serials.TakeBack(target)), CallSerial(id, Serials.MarkScrapped)]).value.serials
         == inv.serials[id := inv.serials[id].(state := Scrapped, location := None)]
  {
    var a, b := CallSerial(id, Serials.TakeBack(target)), CallSerial(id, Serials.MarkScrapped);
    assert [a, b] == [a] + [b] && [b] == [b] + [];
    HeadOp(inv, a, [b]);
    HeadOp(Exec(inv, a).value, b, []);
  }

  lemma RestockTakes(inv: Inventory, doc: DocId, at: int, l: Returns.LineInput)
    requires l.serial.Some? && l.disposition != ScrapIt && l.qty > 0 && ExecAll(inv, Returns.StockOps(doc, at, l)).Ok?
    ensures l.serial.value in inv.serials
    ensures ExecAll(inv, Returns.StockOps(doc, at, l)).value.serials
         == inv.serials[l.serial.value := TakenBack(inv.serials[l.serial.value], l)]
  {
    var m, id := Returns.Restock(doc, at, l), l.serial.value;
    var tail := if l.disposition == VendorRma then [CallSerial(id, Serials.MarkRmaPending)] else [];
    HeadMoved(inv, m, tail);
    SerialPosted(inv, m, NextId(inv));
    var row, next := inv.serials[id], Post(inv, m, NextId(inv)).value;
    assert next.serials == inv.serials[id := Serial(row.sku, Returned, Some(l.target), 0)];
    assert Returns.StockOps(doc, at, l) == [Move(m)] + tail;
    if l.disposition == VendorRma {
      assert tail == tail + [];
      HeadOp(next, tail[0], []);
      assert inv.serials[id := Serial(row.sku, Returned, Some(l.target), 0)][id := TakenBack(row, l)]
          == inv.serials[id := TakenBack(row, l)];
    }
  }

  lemma StockTakes(inv: Inventory, doc: DocId, at: int, l: Returns.LineInput)
    requires l.qty > 0 && ExecAll(inv, Returns.StockOps(doc, at, l)).Ok?
    ensures l.serial.Some? ==> l.serial.value in inv.serials
    ensures l.serial.None? ==> ExecAll(inv, Returns.StockOps(doc, at, l)).value.serials == inv.serials
    ensures l.serial.Some? ==>
              ExecAll(inv, Returns.StockOps(doc, at, l)).value.serials
                == inv.serials[l.serial.value := TakenBack(inv.serials[l.serial.value], l)]
  {
    if l.serial.None? {
      LooseTakesNone(inv, doc, at, l);
    } else if l.disposition == ScrapIt {
      ScrapTakes(inv, l.serial.value, l.target);
    } else {
      RestockTakes(inv, doc, at, l);
    }
  }

  lemma LooseTakesNone(inv: Inventory, doc: DocId, at: int, l: Returns.LineInput)
    requires l.serial.None? && ExecAll(inv, Returns.StockOps(doc, at, l)).Ok?
    ensures ExecAll(inv, Returns.StockOps(doc, at, l)).value.serials == inv.serials
  {
    if l.disposition != ScrapIt {
      var m := Returns.Restock(doc, at, l);
      assert Returns.StockOps(doc, at, l) == [Move(m)] + [];
      HeadMoved(inv, m, []);
    }
  }

  lemma {:induction false} ReturnTakes(inv: Inventory, config: Config, doc: DocId, input: Returns.ReturnInput,
                                       lines: seq<Returns.LineInput>)
    requires ExecAll(inv, Returns.LinesOps(config, doc, input, lines)).Ok?
    ensures ExecAll(inv, Returns.LinesOps(config, doc, input, lines)).value.serials == AfterReturn(inv.serials, lines)
    decreases |lines|
  {
    if lines != [] {
      var l, head := lines[0], Returns.LineOps(config, doc, input, lines[0]);
      ExecAllConcat(inv, head, Returns.LinesOps(config, doc, input, lines[1..]));
      assert Returns.LineError(l).None?;
      ExecAllConcat(inv, Returns.LookUpOps(input, l), Returns.GoodsOps(config, doc, input.at, l));
      LookUpKeeps(inv, input, l);
      assert l.sku in config.skus;
      StockTakes(inv, doc, input.at, l);
      ReturnTakes(ExecAll(inv, head).value, config, doc, input, lines[1..]);
    }
  }

  // ---------- sales ----------

  lemma {:induction false} SaleTakesNone(inv: Inventory, env: Intake.Envelope, doc: DocId, i: nat)
    requires i <= |env.lines| && ExecAll(inv, Intake.SaleOpsFrom(env, doc, i)).Ok?
    ensures ExecAll(inv, Intake.SaleOpsFrom(env, doc, i)).value.serials == inv.serials
    decreases |env.lines| - i
  {
    if i < |env.lines| {
      ExecAllConcat(inv, Intake.LineOps(env, doc, i), Intake.SaleOpsFrom(env, doc, i + 1));
      Intake.LineExec(inv, env, doc, i);
      SaleTakesNone(ExecAll(inv, Intake.LineOps(env, doc, i)).value, env, doc, i + 1);
    }
  }

  // ---------- the main results ----------

  /** The calls that move stock by their documents. */
  lemma StockCallSerials(db: Db, a: Action)
    requires Accepted(db, a)
        && (a.PostReceipt? || a.PostSale? || a.PostReturn? || a.ShipTransfer? || a.ReceiveTransfer?)
    ensures Step(db, a).inv.serials == SerialsAfter(db, a)
  {
    if a.PostReceipt? {
      ReceiptBrings(db.inv, Purchasing.OpenReceipt(db.docs, a.receiptPo, a.loc, a.at),
                    Purchasing.Delivery(|db.docs.receipts|, a.loc, a.at), a.deliveries);
    } else if a.PostSale? {
      SaleTakesNone(db.inv, a.env, a.doc, 0);
    } else if a.PostReturn? {
      ReturnTakes(db.inv, db.docs.config, db.docs.returnDocs, a.input, a.input.lines);
    } else {
      LegCallSerials(db, a);
    }
  }

  lemma LegCallSerials(db: Db, a: Action)
    requires Accepted(db, a) && (a.ShipTransfer? || a.ReceiveTransfer?)
    ensures Step(db, a).inv.serials == SerialsAfter(db, a)
  {
    var leg := if a.ShipTransfer? then Transfers.ShipLeg(db.docs, a.transfer, a.at)
      else Transfers.ReceiveLeg(db.docs, a.transfer, a.at);
    LegStations(db.inv, leg, db.docs.transfers[a.transfer].lines);
  }

  /** An accepted call leaves exactly these serial rows. */
  lemma SerialsFollowCalls(db: Db, a: Action)
    requires Accepted(db, a)
    ensures Step(db, a).inv.serials == SerialsAfter(db, a)
  {
    if a.PostReceipt? || a.PostSale? || a.PostReturn? || a.ShipTransfer? || a.ReceiveTransfer? {
      StockCallSerials(db, a);
    } else if a.ShipRma? {
      ShipEffect(db.inv, a.rma, db.docs.rmas[a.rma].holding, a.at, db.docs.rmas[a.rma].lines, Key(0, 0));
    } else if a.CloseRma? {
      CloseEffect(db.inv, db.docs.rmas[a.rma].lines);
    } else if a.ApproveCount? {
      var session := db.docs.counts[a.count];
      SerialRuns.ApproveKeepsSerials(db.inv, Counts.Report(db.inv.ledger, session, session.snapshots),
                                     |db.docs.adjustments|, a.at);
    } else if a.SerialCall? {
      assert [CallSerial(a.id, a.call)] == [CallSerial(a.id, a.call)] + [];
      HeadOp(db.inv, CallSerial(a.id, a.call), []);
    }
  }

  /** The serials of a received transfer are sellable at its destination, at the cost they had. */
  lemma ReceivedSellable(db: Db, t: nat, at: int, i: nat, id: SerialId)
    requires Accepted(db, ReceiveTransfer(t, at))
    requires i < |db.docs.transfers[t].lines| && id in db.docs.transfers[t].lines[i].serials && id in db.inv.serials
    ensures t < |db.docs.transfers|
    ensures var row, serials := db.inv.serials[id], Step(db, ReceiveTransfer(t, at)).inv.serials;
            id in serials
            && serials[id] == Serial(row.sku, Sellable, Some(db.docs.transfers[t].destination), row.unitCost)
  {
    SerialsFollowCalls(db, ReceiveTransfer(t, at));
    NamedInIds(db.docs.transfers[t].lines, i, id);
  }

  lemma {:induction false} NamedInIds(lines: seq<TransferLine>, i: nat, id: SerialId)
    requires i < |lines| && id in lines[i].serials
    ensures id in Ids(lines)
  {
    if i > 0 {
      NamedInIds(lines[1..], i - 1, id);
    }
  }
}
