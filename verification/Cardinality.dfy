/** One serial, one place: the stock of a serialised sku at a location is the number of its
    serials whose current location that is. */
module Cardinality {
  import opened Tables
  import opened Ledger
  import opened Database
  import Serials
  import Purchasing
  import Returns
  import Transfers

  predicate Here(row: Serial, k: Key) {
    row.sku == k.sku && row.location == Some(k.loc)
  }

  function SerialsAt(serials: map<SerialId, Serial>, k: Key): set<SerialId> {
    set id | id in serials && Here(serials[id], k)
  }

  /** The stock of the pair beyond its serials; zero when the two are in step. */
  function Gap(inv: Inventory, k: Key): int {
    OnHand(inv, k) - |SerialsAt(inv.serials, k)| * UNIT
  }

  predicate CardinalAt(inv: Inventory, k: Key) {
    Gap(inv, k) == 0
  }

  /** For every pair of a serialised sku the gap is what it was. */
  ghost predicate SameGaps(config: Config, inv: Inventory, inv': Inventory) {
    forall k: Key :: IsSerialized(config, k.sku) ==> Gap(inv', k) == Gap(inv, k)
  }

  lemma CountAfter(serials: map<SerialId, Serial>, id: SerialId, row: Serial, k: Key)
    ensures |SerialsAt(serials[id := row], k)|
         == |SerialsAt(serials, k)| - Indicator(id in serials && Here(serials[id], k)) + Indicator(Here(row, k))
  {
    var before, after := SerialsAt(serials, k), SerialsAt(serials[id := row], k);
    if Here(row, k) {
      assert after == (before - {id}) + {id};
    } else {
      assert after == before - {id};
    }
  }

  lemma PostOnHand(inv: Inventory, m: Movement, k: Key)
    requires Post(inv, m, NextId(inv)).Ok?
    ensures OnHand(Post(inv, m, NextId(inv)).value, k) == OnHand(inv, k) + (if k == m.key then m.qty else 0)
  {
  }

  // ---------- moving one serial ----------

  /** The two movements by which a transfer takes a serial from one location to another. */
  function Out(leg: Transfers.Leg, sku: SkuId, id: SerialId): Movement {
    OfSerial(Key(sku, leg.from), -UNIT, leg.kind, leg.doc, id, None, leg.at, None)
  }

  function Into(leg: Transfers.Leg, sku: SkuId, id: SerialId): Movement {
    OfSerial(Key(sku, leg.to), UNIT, leg.kind, leg.doc, id, None, leg.at, Some(leg.stateAfter))
  }

  function PairOps(leg: Transfers.Leg, sku: SkuId, id: SerialId): seq<Op> {
    [Move(Out(leg, sku, id)), Move(Into(leg, sku, id))]
  }

  /** What the pair leaves: one serial row rewritten, one unit moved. */
  lemma PairEffect(inv: Inventory, leg: Transfers.Leg, sku: SkuId, id: SerialId, k: Key)
    requires ExecAll(inv, PairOps(leg, sku, id)).Ok?
    ensures id in inv.serials
    ensures var inv' := ExecAll(inv, PairOps(leg, sku, id)).value;
            && inv'.serials == inv.serials[id := inv.serials[id].(location := Some(leg.to), state := leg.stateAfter)]
            && OnHand(inv', k) == OnHand(inv, k) - (if k == Key(sku, leg.from) then UNIT else 0)
                                                 + (if k == Key(sku, leg.to) then UNIT else 0)
  {
    var out, into := Out(leg, sku, id), Into(leg, sku, id);
    assert PairOps(leg, sku, id) == [Move(out)] + [Move(into)] && [Move(into)] == [Move(into)] + [];
    HeadMoved(inv, out, [Move(into)]);
    var mid := Post(inv, out, NextId(inv)).value;
    HeadMoved(mid, into, []);
    PostOnHand(inv, out, k);
    PostOnHand(mid, into, k);
  }

  /** Moving a serial keeps stock and serials in step exactly when the serial starts at the
      location the document takes it from. */
  lemma MoveKeepsExactly(inv: Inventory, leg: Transfers.Leg, sku: SkuId, id: SerialId)
    requires leg.from != leg.to && ExecAll(inv, PairOps(leg, sku, id)).Ok?
    requires id in inv.serials && inv.serials[id].sku == sku
    requires forall k: Key :: k.sku == sku ==> CardinalAt(inv, k)
    ensures (forall k: Key :: k.sku == sku ==> CardinalAt(ExecAll(inv, PairOps(leg, sku, id)).value, k))
       <==> inv.serials[id].location == Some(leg.from)
  {
    var inv' := ExecAll(inv, PairOps(leg, sku, id)).value;
    var row := inv.serials[id].(location := Some(leg.to), state := leg.stateAfter);
    forall k: Key | k.sku == sku
      ensures Gap(inv', k)
           == UNIT * (Indicator(Here(inv.serials[id], k)) - Indicator(k.loc == leg.from))
    {
      PairEffect(inv, leg, sku, id, k);
      CountAfter(inv.serials, id, row, k);
      assert CardinalAt(inv, k);
    }
    if inv.serials[id].location != Some(leg.from) {
      assert !CardinalAt(inv', Key(sku, leg.from));
    }
  }

  lemma PairKeeps(config: Config, inv: Inventory, leg: Transfers.Leg, sku: SkuId, id: SerialId)
    requires leg.from != leg.to && ExecAll(inv, PairOps(leg, sku, id)).Ok?
    requires id in inv.serials && inv.serials[id].sku == sku && inv.serials[id].location == Some(leg.from)
    ensures SameGaps(config, inv, ExecAll(inv, PairOps(leg, sku, id)).value)
  {
    var inv' := ExecAll(inv, PairOps(leg, sku, id)).value;
    forall k: Key | IsSerialized(config, k.sku) ensures Gap(inv', k) == Gap(inv, k) {
      PairEffect(inv, leg, sku, id, k);
      CountAfter(inv.serials, id, inv.serials[id].(location := Some(leg.to), state := leg.stateAfter), k);
    }
  }

  // ---------- the other blocks of operations ----------

  /** Operations that touch neither a pair of a serialised sku nor the location of a serial. */
  predicate Neutral(config: Config, op: Op) {
    match op
    case Move(m) => m.serial.None? && !IsSerialized(config, m.key.sku)
    case NewSerial(_, _) => false
    case CallSerial(_, call) => KeepsLocation(call)
    case _ => true
  }

  predicate AllNeutral(config: Config, ops: seq<Op>) {
    forall i :: 0 <= i < |ops| ==> Neutral(config, ops[i])
  }

  predicate KeepsLocation(c: Serials.Call) {
    c.Reserve? || c.MarkRmaPending? || c.Move?
  }

  lemma NeutralKeeps(config: Config, inv: Inventory, op: Op)
    requires Neutral(config, op) && Exec(inv, op).Ok?
    ensures SameGaps(config, inv, Exec(inv, op).value)
    ensures SamePlaces(inv, Exec(inv, op).value)
  {
    var inv' := Exec(inv, op).value;
    forall k: Key | IsSerialized(config, k.sku) ensures Gap(inv', k) == Gap(inv, k) {
      if op.Move? {
        PostOnHand(inv, op.m, k);
      }
      assert SerialsAt(inv'.serials, k) == SerialsAt(inv.serials, k);
    }
  }

  /** No serial was added, moved or given to another sku. */
  predicate SamePlaces(inv: Inventory, inv': Inventory) {
    && inv'.serials.Keys == inv.serials.Keys
    && (forall id :: id in inv.serials ==>
          inv'.serials[id].sku == inv.serials[id].sku && inv'.serials[id].location == inv.serials[id].location)
  }

  lemma {:induction false} NeutralAllKeeps(config: Config, inv: Inventory, ops: seq<Op>)
    requires ExecAll(inv, ops).Ok?
    requires AllNeutral(config, ops)
    ensures SameGaps(config, inv, ExecAll(inv, ops).value)
    decreases |ops|
  {
    if ops != [] {
      NeutralKeeps(config, inv, ops[0]);
      NeutralAllKeeps(config, Exec(inv, ops[0]).value, ops[1..]);
    }
  }

  /** A new serial row and its receipt movement. */
  lemma ReceiptKeeps(config: Config, inv: Inventory, id: SerialId, row: Serial, m: Movement)
    requires ExecAll(inv, [NewSerial(id, row), Move(m)]).Ok?
    requires m.serial == Some(id) && m.qty == UNIT && Here(row, m.key)
    ensures SameGaps(config, inv, ExecAll(inv, [NewSerial(id, row), Move(m)]).value)
  {
    assert [NewSerial(id, row), Move(m)] == [NewSerial(id, row), Move(m)] + [];
    Purchasing.SerialHead(inv, id, row, m, []);
    var mid := inv.(serials := inv.serials[id := row]);
    var inv' := Post(mid, m, NextId(mid)).value;
    forall k: Key | IsSerialized(config, k.sku) ensures Gap(inv', k) == Gap(inv, k) {
      PostOnHand(mid, m, k);
      CountAfter(inv.serials, id, row, k);
      CountAfter(mid.serials, id, Arrive(row, m), k);
    }
  }

  // ---------- a leg of a transfer ----------

  /** Every serial of the list is there, of the sku, at the location, and listed once. */
  predicate IdsStart(serials: map<SerialId, Serial>, k: Key, ids: seq<SerialId>) {
    ids == [] || (ids[0] in serials && Here(serials[ids[0]], k) && ids[0] !in ids[1..]
                  && IdsStart(serials, k, ids[1..]))
  }

  function Ids(lines: seq<TransferLine>): set<SerialId> {
    if lines == [] then {} else (set id | id in lines[0].serials) + Ids(lines[1..])
  }

  /** Every moved serial starts where the document says, and no serial is moved twice; loose
      lines are not for serialised skus. */
  predicate Starts(config: Config, serials: map<SerialId, Serial>, from: LocId, lines: seq<TransferLine>) {
    lines != [] ==>
      && (if lines[0].serials == [] then !IsSerialized(config, lines[0].sku)
          else IdsStart(serials, Key(lines[0].sku, from), lines[0].serials))
      && (forall i :: 0 <= i < |lines[0].serials| ==> lines[0].serials[i] !in Ids(lines[1..]))
      && Starts(config, serials, from, lines[1..])
  }

  predicate SameRows(serials: map<SerialId, Serial>, serials': map<SerialId, Serial>, ids: set<SerialId>) {
    forall id :: id in ids && id in serials ==> id in serials' && serials'[id] == serials[id]
  }

  lemma {:induction false} IdsStartFrame(serials: map<SerialId, Serial>, serials': map<SerialId, Serial>, k: Key,
                                         ids: seq<SerialId>)
    requires IdsStart(serials, k, ids)
    requires forall i :: 0 <= i < |ids| && ids[i] in serials ==>
        ids[i] in serials' && serials'[ids[i]] == serials[ids[i]]
    ensures IdsStart(serials', k, ids)
  {
    if ids != [] {
      IdsStartFrame(serials, serials', k, ids[1..]);
    }
  }

  lemma {:induction false} StartsFrame(config: Config, serials: map<SerialId, Serial>,
                                       serials': map<SerialId, Serial>, from: LocId,
                                       lines: seq<TransferLine>)
    requires Starts(config, serials, from, lines) && SameRows(serials, serials', Ids(lines))
    ensures Starts(config, serials', from, lines)
  {
    if lines != [] {
      if lines[0].serials != [] {
        var ids := lines[0].serials;
        forall i | 0 <= i < |ids| && ids[i] in serials
            ensures ids[i] in serials' && serials'[ids[i]] == serials[ids[i]] {
          var id: int := ids[i];
          assert id in Ids(lines) && id in serials;
          assert id in serials' && serials'[id] == serials[id];
        }
        IdsStartFrame(serials, serials', Key(lines[0].sku, from), lines[0].serials);
      }
      StartsFrame(config, serials, serials', from, lines[1..]);
    }
  }

  lemma {:induction false} SerialOpsKeep(config: Config, inv: Inventory, leg: Transfers.Leg, sku: SkuId,
                                         ids: seq<SerialId>)
    requires leg.from != leg.to && ExecAll(inv, Transfers.SerialOps(leg, sku, ids)).Ok?
    requires IdsStart(inv.serials, Key(sku, leg.from), ids)
    ensures var inv' := ExecAll(inv, Transfers.SerialOps(leg, sku, ids)).value;
            && SameGaps(config, inv, inv')
            && (forall id :: id in inv.serials && id !in ids ==>
                id in inv'.serials && inv'.serials[id] == inv.serials[id])
    decreases |ids|
  {
    if ids != [] {
      var pair, tail := PairOps(leg, sku, ids[0]), Transfers.SerialOps(leg, sku, ids[1..]);
      assert Transfers.SerialOps(leg, sku, ids) == pair + tail;
      ExecAllConcat(inv, pair, tail);
      PairKeeps(config, inv, leg, sku, ids[0]);
      PairEffect(inv, leg, sku, ids[0], Key(sku, leg.from));
      var next := ExecAll(inv, pair).value;
      IdsStartFrame(inv.serials, next.serials, Key(sku, leg.from), ids[1..]);
      SerialOpsKeep(config, next, leg, sku, ids[1..]);
    }
  }

  lemma {:induction false} LegKeeps(config: Config, inv: Inventory, leg: Transfers.Leg, lines: seq<TransferLine>)
    requires leg.from != leg.to && ExecAll(inv, Transfers.LinesOps(leg, lines)).Ok?
    requires Starts(config, inv.serials, leg.from, lines)
    ensures SameGaps(config, inv, ExecAll(inv, Transfers.LinesOps(leg, lines)).value)
    decreases |lines|
  {
    if lines != [] {
      var l, head := lines[0], Transfers.LineOps(leg, lines[0]);
      ExecAllConcat(inv, head, Transfers.LinesOps(leg, lines[1..]));
      var next := ExecAll(inv, head).value;
      if l.serials != [] {
        SerialOpsKeep(config, inv, leg, l.sku, l.serials);
      } else {
        LoosePairKeeps(config, inv, head[0], head[1]);
      }
      assert SameRows(inv.serials, next.serials, Ids(lines[1..]));
      StartsFrame(config, inv.serials, next.serials, leg.from, lines[1..]);
      LegKeeps(config, next, leg, lines[1..]);
    }
  }

  lemma LoosePairKeeps(config: Config, inv: Inventory, a: Op, b: Op)
    requires ExecAll(inv, [a, b]).Ok?
    requires a.Move? && b.Move? && Neutral(config, a) && Neutral(config, b)
    ensures SameGaps(config, inv, ExecAll(inv, [a, b]).value) && ExecAll(inv, [a, b]).value.serials == inv.serials
  {
    NeutralAllKeeps(config, inv, [a, b]);
    assert [a, b] == [a] + [b] && [b] == [b] + [];
    HeadOp(inv, a, [b]);
    HeadOp(Exec(inv, a).value, b, []);
  }

  // ---------- receipts ----------

  lemma {:induction false} NewSerialsKeep(config: Config, inv: Inventory, d: Purchasing.Delivery, sku: SkuId,
                                          unitCost: int, ids: seq<SerialId>)
    requires ExecAll(inv, Purchasing.NewSerialOps(d, sku, unitCost, ids)).Ok?
    ensures SameGaps(config, inv, ExecAll(inv, Purchasing.NewSerialOps(d, sku, unitCost, ids)).value)
    decreases |ids|
  {
    if ids != [] {
      var all, tail := Purchasing.NewSerialOps(d, sku, unitCost, ids),
          Purchasing.NewSerialOps(d, sku, unitCost, ids[1..]);
      var pair := [all[0], all[1]];
      assert all == pair + tail;
      ExecAllConcat(inv, pair, tail);
      ReceiptKeeps(config, inv, ids[0], all[0].row, all[1].m);
      NewSerialsKeep(config, ExecAll(inv, pair).value, d, sku, unitCost, ids[1..]);
    }
  }

  lemma ReceiptLineKeeps(docs: Docs, inv: Inventory, d: Purchasing.Delivery, line: Purchasing.ReceiptInput)
    requires ExecAll(inv, Purchasing.LineOps(docs, d, line)).Ok?
    ensures SameGaps(docs.config, inv, ExecAll(inv, Purchasing.LineOps(docs, d, line)).value)
  {
    if Purchasing.ReceiptError(docs, line).None? {
      var po := docs.poLines[line.poLine];
      if IsSerialized(docs.config, po.sku) {
        var tail := Purchasing.NewSerialOps(d, po.sku, po.unitCost, line.serials);
        HeadOp(inv, AssertUnknown(line.serials), tail);
        NewSerialsKeep(docs.config, inv, d, po.sku, po.unitCost, line.serials);
      } else {
        NeutralAllKeeps(docs.config, inv, Purchasing.LineOps(docs, d, line));
      }
    }
  }

  lemma {:induction false} ReceiptLinesKeep(docs: Docs, inv: Inventory, d: Purchasing.Delivery,
                                            lines: seq<Purchasing.ReceiptInput>)
    requires ExecAll(inv, Purchasing.ReceiveLines(docs, d, lines).ops).Ok?
    ensures SameGaps(docs.config, inv, ExecAll(inv, Purchasing.ReceiveLines(docs, d, lines).ops).value)
    decreases |lines|
  {
    if lines != [] {
      var next := Purchasing.AfterLine(docs, d, lines[0]);
      ExecAllConcat(inv, Purchasing.LineOps(docs, d, lines[0]), Purchasing.ReceiveLines(next, d, lines[1..]).ops);
      ReceiptLineKeeps(docs, inv, d, lines[0]);
      ReceiptLinesKeep(next, ExecAll(inv, Purchasing.LineOps(docs, d, lines[0])).value, d, lines[1..]);
    }
  }

  // ---------- returns ----------

  /** A returned serial is nowhere before the return, comes back as one unit, and is named once;
      other lines are not for serialised skus. */
  predicate Returnable(config: Config, serials: map<SerialId, Serial>, lines: seq<Returns.LineInput>) {
    lines != [] ==>
      && (if lines[0].serial.None? then !IsSerialized(config, lines[0].sku)
          else
            && (lines[0].serial.value in serials ==> serials[lines[0].serial.value].location == None)
            && lines[0].qty == UNIT
            && (forall i :: 0 < i < |lines| ==> lines[i].serial != lines[0].serial))
      && Returnable(config, serials, lines[1..])
  }

  predicate SameBut(serials: map<SerialId, Serial>, serials': map<SerialId, Serial>, but: Option<SerialId>) {
    && serials'.Keys == serials.Keys
    && (forall id :: id in serials && Some(id) != but ==> serials'[id] == serials[id])
  }

  lemma {:induction false} ReturnableFrame(config: Config, serials: map<SerialId, Serial>,
                                           serials': map<SerialId, Serial>,
                                           but: Option<SerialId>, lines: seq<Returns.LineInput>)
    requires Returnable(config, serials, lines) && SameBut(serials, serials', but)
    requires forall i :: 0 <= i < |lines| && lines[i].serial.Some? ==> lines[i].serial != but
    ensures Returnable(config, serials', lines)
  {
    if lines != [] {
      if lines[0].serial.Some? {
        var id := lines[0].serial.value;
        assert lines[0].serial == Some(id) && Some(id) != but;
        assert id in serials' ==> id in serials.Keys;
      }
      ReturnableFrame(config, serials, serials', but, lines[1..]);
    }
  }

  lemma LookUpKeeps(inv: Inventory, input: Returns.ReturnInput, line: Returns.LineInput)
    requires ExecAll(inv, Returns.LookUpOps(input, line)).Ok?
    ensures ExecAll(inv, Returns.LookUpOps(input, line)).value == inv
    ensures line.serial.Some? ==> line.serial.value in inv.serials && inv.serials[line.serial.value].sku == line.sku
  {
    if line.serial.Some? {
      var id := line.serial.value;
      var prior := if input.noReceipt then [PriorSale(id)] else [];
      HeadOp(inv, LookUp(id, line.sku), prior);
      HeadOp(inv, PriorSale(id), []);
      assert input.noReceipt ==> prior == [PriorSale(id)] + [];
    }
  }

  /** What a return of one serial leaves, put back or scrapped: one unit more where it is put back,
      and the serial there, or no movement and the serial nowhere. */
  lemma ReturnEffect(inv: Inventory, doc: DocId, at: int, line: Returns.LineInput, k: Key)
    requires line.serial.Some? && ExecAll(inv, Returns.StockOps(doc, at, line)).Ok?
    requires line.serial.value in inv.serials
    ensures var id, inv' := line.serial.value, ExecAll(inv, Returns.StockOps(doc, at, line)).value;
            && id in inv'.serials && inv'.serials == inv.serials[id := inv'.serials[id]]
            && inv'.serials[id].sku == inv.serials[id].sku
            && inv'.serials[id].location == (if line.disposition == ScrapIt then None else Some(line.target))
            && OnHand(inv', k) == OnHand(inv, k)
                 + (if line.disposition != ScrapIt && k == Key(line.sku, line.target) then line.qty else 0)
  {
    var id, ops := line.serial.value, Returns.StockOps(doc, at, line);
    HeadOp(inv, ops[0], ops[1..]);
    assert ops == [ops[0]] + ops[1..];
    var next := Exec(inv, ops[0]).value;
    if line.disposition != ScrapIt {
      PostOnHand(inv, Returns.Restock(doc, at, line), k);
    }
    if |ops| > 1 {
      assert ops[1..] == [ops[1]] + [];
      HeadOp(next, ops[1], []);
    }
  }

  lemma SerialReturnKeeps(config: Config, inv: Inventory, doc: DocId, at: int, line: Returns.LineInput)
    requires ExecAll(inv, Returns.StockOps(doc, at, line)).Ok?
    requires line.serial.Some? && line.serial.value in inv.serials && inv.serials[line.serial.value].sku == line.sku
    requires inv.serials[line.serial.value].location == None && line.qty == UNIT
    ensures var inv' := ExecAll(inv, Returns.StockOps(doc, at, line)).value;
            SameGaps(config, inv, inv') && SameBut(inv.serials, inv'.serials, line.serial)
  {
    var id, inv' := line.serial.value, ExecAll(inv, Returns.StockOps(doc, at, line)).value;
    ReturnEffect(inv, doc, at, line, Key(line.sku, line.target));
    forall k: Key | IsSerialized(config, k.sku) ensures Gap(inv', k) == Gap(inv, k) {
      ReturnEffect(inv, doc, at, line, k);
      CountAfter(inv.serials, id, inv'.serials[id], k);
    }
  }

  lemma StockKeeps(config: Config, inv: Inventory, doc: DocId, at: int, line: Returns.LineInput)
    requires ExecAll(inv, Returns.StockOps(doc, at, line)).Ok?
    requires if line.serial.None? then !IsSerialized(config, line.sku)
             else line.serial.value in inv.serials && inv.serials[line.serial.value].sku == line.sku
                  && inv.serials[line.serial.value].location == None && line.qty == UNIT
    ensures var inv' := ExecAll(inv, Returns.StockOps(doc, at, line)).value;
            SameGaps(config, inv, inv') && SameBut(inv.serials, inv'.serials, line.serial)
  {
    if line.serial.Some? {
      SerialReturnKeeps(config, inv, doc, at, line);
    } else {
      var ops := Returns.StockOps(doc, at, line);
      NeutralAllKeeps(config, inv, ops);
      if ops != [] {
        assert ops == [ops[0]] + [];
        HeadOp(inv, ops[0], []);
      }
    }
  }

  lemma {:induction false} ReturnsKeep(config: Config, inv: Inventory, doc: DocId, input: Returns.ReturnInput,
                                       lines: seq<Returns.LineInput>)
    requires ExecAll(inv, Returns.LinesOps(config, doc, input, lines)).Ok?
    requires Returnable(config, inv.serials, lines)
    ensures SameGaps(config, inv, ExecAll(inv, Returns.LinesOps(config, doc, input, lines)).value)
    decreases |lines|
  {
    if lines != [] {
      var l, head := lines[0], Returns.LineOps(config, doc, input, lines[0]);
      ExecAllConcat(inv, head, Returns.LinesOps(config, doc, input, lines[1..]));
      assert Returns.LineError(l).None?;
      ExecAllConcat(inv, Returns.LookUpOps(input, l), Returns.GoodsOps(config, doc, input.at, l));
      LookUpKeeps(inv, input, l);
      StockKeeps(config, inv, doc, input.at, l);
      var next := ExecAll(inv, head).value;
      ReturnableFrame(config, inv.serials, next.serials, l.serial, lines[1..]);
      ReturnsKeep(config, next, doc, input, lines[1..]);
    }
  }

  // ---------- a sale and a return of one serial ----------

  /** The movement by which the ledger writer sells a serial: one unit out, state after sold. */
  function SaleOfSerial(k: Key, doc: DocId, id: SerialId, at: int): Movement {
    OfSerial(k, -UNIT, Sale, doc, id, None, at, Some(Sold))
  }

  /** Stock and serials of a sku are in step at every location. */
  ghost predicate InStep(inv: Inventory, sku: SkuId) {
    forall k: Key :: k.sku == sku ==> CardinalAt(inv, k)
  }

  /** Selling one serial keeps stock and serials in step exactly when the serial was where it is
      sold from. */
  lemma SaleKeepsExactly(inv: Inventory, k: Key, doc: DocId, id: SerialId, at: int)
    requires InStep(inv, k.sku) && id in inv.serials && inv.serials[id].sku == k.sku
    requires Post(inv, SaleOfSerial(k, doc, id, at), NextId(inv)).Ok?
    ensures InStep(Post(inv, SaleOfSerial(k, doc, id, at), NextId(inv)).value, k.sku)
       <==> inv.serials[id].location == Some(k.loc)
  {
    var m := SaleOfSerial(k, doc, id, at);
    var inv' := Post(inv, m, NextId(inv)).value;
    forall p: Key | p.sku == k.sku
      ensures Gap(inv', p)
           == UNIT * (Indicator(Here(inv.serials[id], p)) - Indicator(p == k))
    {
      assert CardinalAt(inv, p);
      PostOnHand(inv, m, p);
      CountAfter(inv.serials, id, Depart(inv.serials[id], m), p);
    }
    if inv.serials[id].location != Some(k.loc) {
      assert !CardinalAt(inv', k);
    }
  }

  /** Returning one unit of a serial keeps stock and serials in step exactly when the serial was
      nowhere; the code does not ask. Returned from stock, it is counted twice. */
  lemma ReturnKeepsExactly(inv: Inventory, doc: DocId, at: int, line: Returns.LineInput)
    requires line.serial.Some? && line.qty == UNIT && ExecAll(inv, Returns.StockOps(doc, at, line)).Ok?
    requires line.serial.value in inv.serials && inv.serials[line.serial.value].sku == line.sku
    requires InStep(inv, line.sku)
    ensures InStep(ExecAll(inv, Returns.StockOps(doc, at, line)).value, line.sku)
       <==> inv.serials[line.serial.value].location == None
  {
    var id, inv' := line.serial.value, ExecAll(inv, Returns.StockOps(doc, at, line)).value;
    forall k: Key | k.sku == line.sku
      ensures Gap(inv', k) == UNIT * Indicator(Here(inv.serials[id], k))
    {
      assert CardinalAt(inv, k);
      ReturnEffect(inv, doc, at, line, k);
      CountAfter(inv.serials, id, inv'.serials[id], k);
    }
    if inv.serials[id].location.Some? {
      assert !CardinalAt(inv', Key(line.sku, inv.serials[id].location.value));
    }
  }
}
