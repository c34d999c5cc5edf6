/** When the calls on orders, transfers, RMAs, returns, counts and serials are accepted. */
module DocumentCalls {
  import opened Tables
  import opened Ledger
  import opened Database
  import opened Sums
  import opened Runs
  import opened Acceptance
  import Cardinality
  import Conservation
  import Counts
  import Effects
  import Fifo
  import OrderHistory
  import Purchasing
  import Reconciliation
  import Returns
  import Rmas
  import SerialEffects
  import Serials
  import Transfers
  import Transit
  import VendorSerials

  // ---------- orders ----------

  lemma CreatePoGoesExactly(db: Db, lines: seq<Purchasing.PoLineInput>)
    ensures Accepted(db, CreatePo(lines)) <==> forall i :: 0 <= i < |lines| ==>
              lines[i].ordered > 0 && lines[i].unitCost >= 0 && lines[i].sku in db.docs.config.skus
    ensures Accepted(db, CreatePo(lines)) ==>
              var docs := Step(db, CreatePo(lines)).docs;
              && docs == db.docs.(orders := db.docs.orders + [Draft], poLines := docs.poLines)
              && |docs.poLines| == |db.docs.poLines| + |lines| && docs.poLines[..|db.docs.poLines|] == db.docs.poLines
              && forall i :: 0 <= i < |lines| ==>
                   docs.poLines[|db.docs.poLines| + i]
                     == PoLine(|db.docs.orders|, lines[i].sku, lines[i].ordered, 0, lines[i].ordered, lines[i].unitCost)
  {
  }

  /** An order moves to the next state of its life, or, before it is being received, is cancelled. */
  lemma MovePoGoesExactly(db: Db, po: nat, to: PoState)
    ensures Accepted(db, MovePo(po, to)) <==>
              && po < |db.docs.orders|
              && (if to == Cancelled then OrderHistory.Rank(db.docs.orders[po]) < OrderHistory.Rank(Receiving)
                  else db.docs.orders[po] != Cancelled
                       && OrderHistory.Rank(to) == OrderHistory.Rank(db.docs.orders[po]) + 1)
    ensures Accepted(db, MovePo(po, to)) ==>
        Step(db, MovePo(po, to)).docs == db.docs.(orders := db.docs.orders[po := to])
  {
  }

  // ---------- transfers ----------

  predicate Transferable(db: Db, l: TransferLine) {
    && l.qty > 0 && l.sku in db.docs.config.skus && (l.serials != [] ==> |l.serials| * UNIT == l.qty)
    && (forall x :: 0 <= x < |l.serials| ==> l.serials[x] in db.inv.serials)
    && (forall x, y :: 0 <= x < y < |l.serials| ==> l.serials[x] != l.serials[y])
  }

  lemma {:induction false} NoLineError(db: Db, lines: seq<TransferLine>)
    ensures Transfers.LinesError(db.docs, db.inv.serials, lines).None?
       <==> forall i :: 0 <= i < |lines| ==> Transferable(db, lines[i])
  {
    if lines != [] {
      NoLineError(db, lines[1..]);
      assert forall i :: 0 < i < |lines| ==> lines[i] == lines[1..][i - 1];
      assert forall i :: 0 <= i < |lines[1..]| ==> lines[1..][i] == lines[i + 1];
      assert Transfers.LineError(db.docs, db.inv.serials, lines[0]).None? <==> Transferable(db, lines[0]);
    }
  }

  lemma CreateTransferGoesExactly(db: Db, source: LocId, destination: LocId, lines: seq<TransferLine>)
    ensures Accepted(db, CreateTransfer(source, destination, lines)) <==>
              && lines != [] && source != destination
              && forall i :: 0 <= i < |lines| ==> Transferable(db, lines[i])
    ensures Accepted(db, CreateTransfer(source, destination, lines)) ==>
              Step(db, CreateTransfer(source, destination, lines)).docs
                == db.docs.(transfers := db.docs.transfers + [Transfer(TransferDraft, source, destination, lines)])
  {
    NoLineError(db, lines);
  }

  /** There is enough at a location for all the lines; lines that go to where they are each need to fit. */
  ghost predicate Leaves(db: Db, from: LocId, to: LocId, lines: seq<TransferLine>) {
    if from == to then Transit.AllFit(db.inv, from, lines)
    else
      forall sku: SkuId ::
        && SumOf(lines, Transit.Moved(sku)) <= OnHand(db.inv, Key(sku, from))
        && SumOf(lines, Transit.MovedLoose(sku)) <= Fifo.Quantity(LayersAt(db.inv, Key(sku, from)))
  }

  lemma CoversIsLeaves(db: Db, from: LocId, to: LocId, lines: seq<TransferLine>)
    requires from != to
    ensures Transit.Covers(db.inv, from, lines) <==> Leaves(db, from, to, lines)
  {
    assert forall sku: SkuId :: Transit.CoversAt(db.inv, from, lines, sku) <==>
      && SumOf(lines, Transit.Moved(sku)) <= OnHand(db.inv, Key(sku, from))
      && SumOf(lines, Transit.MovedLoose(sku)) <= Fifo.Quantity(LayersAt(db.inv, Key(sku, from)));
  }

  lemma LegGoes(db: Db, leg: Transfers.Leg, lines: seq<TransferLine>)
    requires Reachable(db) && Transit.LinesSound(db.inv.serials, lines)
    ensures ExecAll(db.inv, Transfers.LinesOps(leg, lines)).Ok? <==> Leaves(db, leg.from, leg.to, lines)
  {
    Transit.ReachableTransfers(db);
    if leg.from == leg.to {
      Transit.LinesInPlace(db.inv, leg, lines);
    } else {
      Transit.LegGoesExactly(db.inv, leg, lines);
      CoversIsLeaves(db, leg.from, leg.to, lines);
    }
  }

  /** After any run: a transfer ships exactly when it is a draft and its source has enough. */
  lemma ShipGoesExactly(db: Db, t: nat, at: int)
    requires Reachable(db)
    ensures Accepted(db, ShipTransfer(t, at)) <==>
              && t < |db.docs.transfers| && db.docs.transfers[t].state == TransferDraft
              && Leaves(db, db.docs.transfers[t].source, db.docs.config.transit, db.docs.transfers[t].lines)
    ensures Accepted(db, ShipTransfer(t, at)) ==>
              Step(db, ShipTransfer(t, at)).docs
                == db.docs.(transfers := db.docs.transfers[t := db.docs.transfers[t].(state := TransferShipped)])
  {
    if t < |db.docs.transfers| {
      Transit.ReachableTransfers(db);
      LegGoes(db, Transfers.ShipLeg(db.docs, t, at), db.docs.transfers[t].lines);
    }
  }

  /** It is received exactly when it was shipped and there is enough in transit. */
  lemma ReceiveGoesExactly(db: Db, t: nat, at: int)
    requires Reachable(db)
    ensures Accepted(db, ReceiveTransfer(t, at)) <==>
              && t < |db.docs.transfers| && db.docs.transfers[t].state == TransferShipped
              && Leaves(db, db.docs.config.transit, db.docs.transfers[t].destination, db.docs.transfers[t].lines)
    ensures Accepted(db, ReceiveTransfer(t, at)) ==>
              Step(db, ReceiveTransfer(t, at)).docs
                == db.docs.(transfers := db.docs.transfers[t := db.docs.transfers[t].(state := TransferReceived)])
  {
    if t < |db.docs.transfers| {
      Transit.ReachableTransfers(db);
      LegGoes(db, Transfers.ReceiveLeg(db.docs, t, at), db.docs.transfers[t].lines);
    }
  }

  // ---------- counts ----------

  lemma {:induction false} NoEntryError(config: Config, entries: seq<CountEntry>)
    ensures Counts.EntriesError(config, entries).None?
       <==> forall i :: 0 <= i < |entries| ==> entries[i].qty >= 0 && entries[i].key.sku in config.skus
  {
    if entries != [] {
      NoEntryError(config, entries[1..]);
      assert forall i :: 0 < i < |entries| ==> entries[i] == entries[1..][i - 1];
      assert forall i :: 0 <= i < |entries[1..]| ==> entries[1..][i] == entries[i + 1];
    }
  }

  lemma SubmitGoesExactly(db: Db, c: nat, entries: seq<CountEntry>)
    ensures Accepted(db, SubmitCount(c, entries)) <==>
              && c < |db.docs.counts| && db.docs.counts[c].state in {CountOpen, CountSubmitted}
              && forall i :: 0 <= i < |entries| ==> entries[i].qty >= 0 && entries[i].key.sku in db.docs.config.skus
    ensures Accepted(db, SubmitCount(c, entries)) ==>
              Step(db, SubmitCount(c, entries)).docs
                == db.docs.(counts := db.docs.counts[c := db.docs.counts[c].(
                     state := CountSubmitted, entries := db.docs.counts[c].entries + entries)])
  {
    NoEntryError(db.docs.config, entries);
  }

  /** A session that is opened has a snapshot of exactly the balance rows in its scope: those at its
      locations, and of its skus if it names any. */
  lemma OpenTakesScope(db: Db, scope: Counts.Scope, rows: seq<Key>, at: int, k: Key)
    requires Accepted(db, OpenCount(scope, rows, at))
    ensures |Step(db, OpenCount(scope, rows, at)).docs.counts| == |db.docs.counts| + 1
    ensures var session := Step(db, OpenCount(scope, rows, at)).docs.counts[|db.docs.counts|];
            && session.state == CountOpen && session.openedAt == at && session.entries == []
            && ((exists i :: 0 <= i < |session.snapshots| && session.snapshots[i] == Snapshot(k, OnHand(db.inv, k)))
                  <==> k in db.inv.balances && k.loc in scope.locations
                       && (scope.skus == None || k.sku in scope.skus.value))
            && (forall i, j :: 0 <= i < j < |session.snapshots| ==>
                  session.snapshots[i].key != session.snapshots[j].key)
  {
    if k in rows {
      var i :| 0 <= i < |rows| && rows[i] == k;
      assert Counts.Snapshots(db.inv, rows)[i] == Snapshot(k, OnHand(db.inv, k));
    }
  }

  // ---------- RMAs ----------

  predicate Returnable(config: Config, l: RmaLine) {
    l.qty > 0 && l.sku in config.skus
  }

  lemma {:induction false} NoRmaError(config: Config, lines: seq<RmaLine>)
    ensures Rmas.LinesError(config, lines).None? <==> forall i :: 0 <= i < |lines| ==> Returnable(config, lines[i])
  {
    if lines != [] {
      NoRmaError(config, lines[1..]);
      assert forall i :: 0 < i < |lines| ==> lines[i] == lines[1..][i - 1];
      assert forall i :: 0 <= i < |lines[1..]| ==> lines[1..][i] == lines[i + 1];
    }
  }

  lemma CreateRmaGoesExactly(db: Db, holding: LocId, lines: seq<RmaLine>)
    ensures Accepted(db, CreateRma(holding, lines)) <==>
              lines != [] && forall i :: 0 <= i < |lines| ==> Returnable(db.docs.config, lines[i])
    ensures Accepted(db, CreateRma(holding, lines)) ==>
              Step(db, CreateRma(holding, lines)).docs
                == db.docs.(rmas := db.docs.rmas + [Rma(RmaOpen, holding, lines, 0)])
  {
    NoRmaError(db.docs.config, lines);
  }

  /** Every line of every RMA is for a positive quantity. */
  predicate RmasSound(docs: Docs) {
    forall r, i :: 0 <= r < |docs.rmas| && 0 <= i < |docs.rmas[r].lines| ==> docs.rmas[r].lines[i].qty > 0
  }

  lemma StepRmasSound(db: Db, a: Action)
    requires RmasSound(db.docs)
    ensures RmasSound(Step(db, a).docs)
  {
    if a.CreateRma? {
      NoRmaError(db.docs.config, a.rmaLines);
    } else if a.PostReceipt? && a.receiptPo < |db.docs.orders| {
      Purchasing.ReceiveLinesKeeps(Purchasing.OpenReceipt(db.docs, a.receiptPo, a.loc, a.at),
                                   Purchasing.Delivery(|db.docs.receipts|, a.loc, a.at), a.deliveries);
    }
  }

  lemma {:induction false} RunRmasSound(db: Db, actions: seq<Action>)
    requires RmasSound(db.docs)
    ensures RmasSound(Run(db, actions).docs)
    decreases |actions|
  {
    if actions != [] {
      StepRmasSound(db, actions[0]);
      RunRmasSound(Step(db, actions[0]), actions[1..]);
    }
  }

  lemma ReachableRmas(db: Db)
    requires Reachable(db)
    ensures RmasSound(db.docs)
  {
    var config, draws, actions :| db == Run(EmptyDb(config, draws), actions);
    RunRmasSound(EmptyDb(config, draws), actions);
  }

  /** What an RMA line takes of loose stock. */
  function LooseRmaQty(sku: SkuId): RmaLine -> int {
    (l: RmaLine) => if l.sku == sku && l.serial.None? then l.qty else 0
  }

  predicate RmaCovered(inv: Inventory, holding: LocId, lines: seq<RmaLine>, sku: SkuId) {
    && SumOf(lines, Conservation.RmaLineQty(sku)) <= OnHand(inv, Key(sku, holding))
    && SumOf(lines, LooseRmaQty(sku)) <= Fifo.Quantity(LayersAt(inv, Key(sku, holding)))
  }

  lemma {:induction false} ShipOpsOut(doc: DocId, holding: LocId, at: int, lines: seq<RmaLine>, k: Key)
    requires forall i :: 0 <= i < |lines| ==> lines[i].qty > 0
    ensures var ops := Rmas.ShipOps(doc, holding, at, lines);
            && AllOutbound(ops) && |ops| == |lines|
            && (forall i :: 0 <= i < |lines| ==> ops[i].m.serial == lines[i].serial)
            && OpsTotal(QtyAt(k), ops)
                 == (if k.loc == holding then -SumOf(lines, Conservation.RmaLineQty(k.sku)) else 0)
            && OpsTotal(LayeredQtyAt(k), ops) == (if k.loc == holding then -SumOf(lines, LooseRmaQty(k.sku)) else 0)
  {
    if lines != [] {
      ShipOpsOut(doc, holding, at, lines[1..], k);
    }
  }

  /** After any run: an RMA ships exactly when it is open, its serials exist, and there is enough at
      the location it ships from. */
  lemma ShipRmaGoesExactly(db: Db, r: nat, at: int)
    requires Reachable(db)
    ensures Accepted(db, ShipRma(r, at)) <==>
              && r < |db.docs.rmas| && db.docs.rmas[r].state == RmaOpen
              && (forall i :: 0 <= i < |db.docs.rmas[r].lines| && db.docs.rmas[r].lines[i].serial.Some? ==>
                    db.docs.rmas[r].lines[i].serial.value in db.inv.serials)
              && RmaAllCovered(db.inv, db.docs.rmas[r].holding, db.docs.rmas[r].lines)
    ensures Accepted(db, ShipRma(r, at)) ==>
              Step(db, ShipRma(r, at)).docs
                == db.docs.(rmas := db.docs.rmas[r := db.docs.rmas[r].(state := RmaShipped)])
  {
    if r < |db.docs.rmas| {
      var rma := db.docs.rmas[r];
      var ops := Rmas.ShipOps(r, rma.holding, at, rma.lines);
      ReachableRmas(db);
      Reconciliation.ReachableSound(db);
      ShipOpsOut(r, rma.holding, at, rma.lines, Key(0, 0));
      OutboundGoes(db.inv, ops);
      KnownByLine(db.inv, ops, rma.lines);
      CoveredByLine(db.inv, r, rma.holding, at, rma.lines);
    }
  }

  lemma KnownByLine(inv: Inventory, ops: seq<Op>, lines: seq<RmaLine>)
    requires |ops| == |lines| && forall i :: 0 <= i < |lines| ==> ops[i].Move? && ops[i].m.serial == lines[i].serial
    ensures KnownSerials(inv, ops)
       <==> forall i :: 0 <= i < |lines| && lines[i].serial.Some? ==> lines[i].serial.value in inv.serials
  {
  }

  lemma CoveredByLine(inv: Inventory, doc: DocId, holding: LocId, at: int, lines: seq<RmaLine>)
    requires Agrees(inv) && forall i :: 0 <= i < |lines| ==> lines[i].qty > 0
    ensures AllCovered(inv, Rmas.ShipOps(doc, holding, at, lines)) <==> RmaAllCovered(inv, holding, lines)
  {
    var ops := Rmas.ShipOps(doc, holding, at, lines);
    if AllCovered(inv, ops) {
      forall sku: SkuId ensures RmaCovered(inv, holding, lines, sku) {
        assert CoversOps(inv, ops, Key(sku, holding));
        ShipOpsOut(doc, holding, at, lines, Key(sku, holding));
      }
    }
    if RmaAllCovered(inv, holding, lines) {
      forall k: Key ensures CoversOps(inv, ops, k) {
        assert RmaCovered(inv, holding, lines, k.sku) && AgreesAt(inv, k);
        ShipOpsOut(doc, holding, at, lines, k);
      }
    }
  }

  ghost predicate RmaAllCovered(inv: Inventory, holding: LocId, lines: seq<RmaLine>) {
    forall sku: SkuId :: RmaCovered(inv, holding, lines, sku)
  }

  lemma {:induction false} CloseGoes(inv: Inventory, lines: seq<RmaLine>)
    requires VendorSerials.NamedOnce(lines)
    requires forall id :: id in VendorSerials.Named(lines) ==>
               id in inv.serials && inv.serials[id].state == SerialState.RmaPending
    ensures ExecAll(inv, Rmas.CloseOps(lines)).Ok?
    decreases |lines|
  {
    if lines != [] {
      var head := Rmas.CloseLineOps(lines[0]);
      ExecAllConcat(inv, head, Rmas.CloseOps(lines[1..]));
      if lines[0].serial.None? {
        CloseGoes(inv, lines[1..]);
      } else {
        var id := lines[0].serial.value;
        assert id in VendorSerials.Named(lines);
        assert head == [CallSerial(id, Serials.MarkRmaClosed)] + [];
        HeadOp(inv, CallSerial(id, Serials.MarkRmaClosed), []);
        CloseGoes(ExecAll(inv, head).value, lines[1..]);
      }
    }
  }

  /** What a closed line is credited: the cost stored with its serial, or the stated cost. */
  function CreditOf(serials: map<SerialId, Serial>): RmaLine -> int {
    (l: RmaLine) =>
      if l.serial.Some? && l.serial.value in serials then serials[l.serial.value].unitCost * l.qty
        else l.unitCost * l.qty
  }

  lemma {:induction false} CreditIsSum(serials: map<SerialId, Serial>, lines: seq<RmaLine>)
    ensures Rmas.Credit(serials, lines) == SumOf(lines, CreditOf(serials))
  {
    if lines != [] {
      CreditIsSum(serials, lines[1..]);
    }
  }

  /** An RMA closes exactly when it was shipped and each serial it names is pending and named once; the
      credit is that of its lines. */
  lemma CloseRmaGoesExactly(db: Db, r: nat)
    ensures Accepted(db, CloseRma(r)) <==>
              && r < |db.docs.rmas| && db.docs.rmas[r].state == RmaShipped
              && VendorSerials.NamedOnce(db.docs.rmas[r].lines)
              && (forall id :: id in VendorSerials.Named(db.docs.rmas[r].lines) ==>
                    id in db.inv.serials && db.inv.serials[id].state == SerialState.RmaPending)
    ensures Accepted(db, CloseRma(r)) ==>
              Step(db, CloseRma(r)).docs
                == db.docs.(rmas := db.docs.rmas[r := db.docs.rmas[r].(
                     state := RmaDone, credit := SumOf(db.docs.rmas[r].lines, CreditOf(db.inv.serials)))])
  {
    if r < |db.docs.rmas| {
      var lines := db.docs.rmas[r].lines;
      CreditIsSum(db.inv.serials, lines);
      if ExecAll(db.inv, Rmas.CloseOps(lines)).Ok? {
        VendorSerials.CloseEffect(db.inv, lines);
      } else if VendorSerials.NamedOnce(lines)
                && forall id :: id in VendorSerials.Named(lines) ==>
                     id in db.inv.serials && db.inv.serials[id].state == SerialState.RmaPending {
        CloseGoes(db.inv, lines);
      }
    }
  }

  // ---------- returns ----------

  /** The ledger has a sale of the serial. */
  predicate HasSale(ledger: seq<Row>, id: Option<SerialId>) {
    exists i :: 0 <= i < |ledger| && ledger[i].serial == id && ledger[i].kind == Sale
  }

  /** The line is valid, and its serial, if it names one, exists, is of the sku, was sold if there is no
      receipt, and is sold if it is to be scrapped. */
  predicate LineReturns(config: Config, serials: map<SerialId, Serial>, ledger: seq<Row>, noReceipt: bool,
                        l: Returns.LineInput)
  {
    && l.qty > 0 && l.disposition in {ToSellable, Hold, ScrapIt, VendorRma} && l.reason != "" && l.sku in config.skus
    && (l.serial.Some? ==>
          && l.serial.value in serials && serials[l.serial.value].sku == l.sku
          && (noReceipt ==> HasSale(ledger, l.serial))
          && (l.disposition == ScrapIt ==> serials[l.serial.value].state == Sold))
  }

  /** Each line, with the serials as the lines before it left them. */
  predicate LinesReturn(config: Config, serials: map<SerialId, Serial>, ledger: seq<Row>, noReceipt: bool,
                        lines: seq<Returns.LineInput>)
    decreases |lines|
  {
    lines == []
    || (LineReturns(config, serials, ledger, noReceipt, lines[0])
        && LinesReturn(config, SerialEffects.AfterReturn(serials, [lines[0]]), ledger, noReceipt, lines[1..]))
  }

  lemma AfterOne(serials: map<SerialId, Serial>, l: Returns.LineInput)
    ensures SerialEffects.AfterReturn(serials, [l])
         == if l.serial.Some? && l.serial.value in serials
            then serials[l.serial.value := SerialEffects.TakenBack(serials[l.serial.value], l)] else serials
  {
    assert [l][1..] == [];
    var after := if l.serial.Some? && l.serial.value in serials
      then serials[l.serial.value := SerialEffects.TakenBack(serials[l.serial.value], l)] else serials;
    assert SerialEffects.AfterReturn(after, []) == after;
  }

  lemma LookUpGoes(inv: Inventory, input: Returns.ReturnInput, l: Returns.LineInput)
    ensures ExecAll(inv, Returns.LookUpOps(input, l)).Ok? <==> (l.serial.Some? ==>
              && l.serial.value in inv.serials && inv.serials[l.serial.value].sku == l.sku
              && (input.noReceipt ==> HasSale(inv.ledger, l.serial)))
  {
    if l.serial.Some? {
      var id := l.serial.value;
      var prior := if input.noReceipt then [PriorSale(id)] else [];
      HeadOp(inv, LookUp(id, l.sku), prior);
      HeadOp(inv, PriorSale(id), []);
      assert input.noReceipt ==> prior == [PriorSale(id)] + [];
    }
  }

  lemma ScrapGoes(inv: Inventory, id: SerialId, target: LocId)
    requires id in inv.serials
    ensures ExecAll(inv, [CallSerial(id, Serials.TakeBack(target)), CallSerial(id, Serials.MarkScrapped)]).Ok?
       <==> inv.serials[id].state == Sold
  {
    var a, b := CallSerial(id, Serials.TakeBack(target)), CallSerial(id, Serials.MarkScrapped);
    assert [a, b] == [a] + [b] && [b] == [b] + [];
    HeadOp(inv, a, [b]);
    if Exec(inv, a).Ok? {
      HeadOp(Exec(inv, a).value, b, []);
    }
  }

  lemma RestockGoes(inv: Inventory, doc: DocId, at: int, l: Returns.LineInput)
    requires Agrees(inv) && l.qty > 0 && l.disposition != ScrapIt
    requires l.serial.Some? ==> l.serial.value in inv.serials
    ensures ExecAll(inv, Returns.StockOps(doc, at, l)).Ok?
  {
    var m := Returns.Restock(doc, at, l);
    var tail := if l.serial.Some? && l.disposition == VendorRma
        then [CallSerial(l.serial.value, Serials.MarkRmaPending)]
      else [];
    assert AgreesAt(inv, m.key);
    Transit.InboundGoes(inv, m);
    HeadMoved(inv, m, tail);
    if tail != [] {
      SerialPosted(inv, m, NextId(inv));
      assert tail == tail + [];
      HeadOp(Post(inv, m, NextId(inv)).value, tail[0], []);
    }
  }

  lemma StockGoes(inv: Inventory, doc: DocId, at: int, l: Returns.LineInput)
    requires Agrees(inv) && l.qty > 0 && (l.serial.Some? ==> l.serial.value in inv.serials)
    ensures ExecAll(inv, Returns.StockOps(doc, at, l)).Ok?
       <==> (l.disposition == ScrapIt && l.serial.Some? ==> inv.serials[l.serial.value].state == Sold)
  {
    if l.disposition != ScrapIt {
      RestockGoes(inv, doc, at, l);
    } else if l.serial.Some? {
      ScrapGoes(inv, l.serial.value, l.target);
    }
  }

  /** Returns append no sale. */
  lemma StockSellsNone(inv: Inventory, doc: DocId, at: int, l: Returns.LineInput, id: Option<SerialId>)
    requires ExecAll(inv, Returns.StockOps(doc, at, l)).Ok?
    ensures var ledger := ExecAll(inv, Returns.StockOps(doc, at, l)).value.ledger;
            HasSale(ledger, id) <==> HasSale(inv.ledger, id)
  {
    var ops := Returns.StockOps(doc, at, l);
    LedgerGrows(inv, ops);
    var ledger := ExecAll(inv, ops).value.ledger;
    StockAppends(inv, doc, at, l);
    if i :| 0 <= i < |inv.ledger| && inv.ledger[i].serial == id && inv.ledger[i].kind == Sale {
      assert ledger[i] == inv.ledger[i];
    }
  }

  lemma StockAppends(inv: Inventory, doc: DocId, at: int, l: Returns.LineInput)
    requires ExecAll(inv, Returns.StockOps(doc, at, l)).Ok?
    ensures var ledger := ExecAll(inv, Returns.StockOps(doc, at, l)).value.ledger;
            && |inv.ledger| <= |ledger| && ledger[..|inv.ledger|] == inv.ledger
            && forall i :: |inv.ledger| <= i < |ledger| ==> ledger[i].kind == CustomerReturn
  {
    if l.disposition == ScrapIt {
      if l.serial.Some? {
        var a, b := CallSerial(l.serial.value, Serials.TakeBack(l.target)),
            CallSerial(l.serial.value, Serials.MarkScrapped);
        assert [a, b] == [a] + [b] && [b] == [b] + [];
        HeadOp(inv, a, [b]);
        HeadOp(Exec(inv, a).value, b, []);
      }
    } else {
      var m := Returns.Restock(doc, at, l);
      var tail := if l.serial.Some? && l.disposition == VendorRma
        then [CallSerial(l.serial.value, Serials.MarkRmaPending)] else [];
      HeadMoved(inv, m, tail);
      ExecAppends(inv, Move(m));
      if tail != [] {
        assert tail == tail + [];
        HeadOp(Post(inv, m, NextId(inv)).value, tail[0], []);
      }
    }
  }

  lemma GoodsGo(inv: Inventory, config: Config, doc: DocId, at: int, l: Returns.LineInput)
    requires Agrees(inv) && l.qty > 0 && (l.serial.Some? ==> l.serial.value in inv.serials)
    ensures ExecAll(inv, Returns.GoodsOps(config, doc, at, l)).Ok?
       <==> l.sku in config.skus
            && (l.disposition == ScrapIt && l.serial.Some? ==> inv.serials[l.serial.value].state == Sold)
  {
    if l.sku in config.skus {
      StockGoes(inv, doc, at, l);
    }
  }

  lemma ReturnLineGoes(inv: Inventory, config: Config, doc: DocId, input: Returns.ReturnInput, l: Returns.LineInput)
    requires Agrees(inv)
    ensures ExecAll(inv, Returns.LineOps(config, doc, input, l)).Ok?
       <==> LineReturns(config, inv.serials, inv.ledger, input.noReceipt, l)
  {
    if Returns.LineError(l).None? {
      ExecAllConcat(inv, Returns.LookUpOps(input, l), Returns.GoodsOps(config, doc, input.at, l));
      LookUpGoes(inv, input, l);
      if ExecAll(inv, Returns.LookUpOps(input, l)).Ok? {
        Cardinality.LookUpKeeps(inv, input, l);
        GoodsGo(inv, config, doc, input.at, l);
      }
    }
  }

  lemma ReturnLineLeaves(inv: Inventory, config: Config, doc: DocId, input: Returns.ReturnInput, l: Returns.LineInput,
                         id: Option<SerialId>)
    requires Agrees(inv) && ExecAll(inv, Returns.LineOps(config, doc, input, l)).Ok?
    ensures var next := ExecAll(inv, Returns.LineOps(config, doc, input, l)).value;
            && Agrees(next) && next.serials == SerialEffects.AfterReturn(inv.serials, [l])
            && (HasSale(next.ledger, id) <==> HasSale(inv.ledger, id))
  {
    OpsAgree(inv, Returns.LineOps(config, doc, input, l));
    assert Returns.LineError(l).None?;
    ExecAllConcat(inv, Returns.LookUpOps(input, l), Returns.GoodsOps(config, doc, input.at, l));
    Cardinality.LookUpKeeps(inv, input, l);
    StockSellsNone(inv, doc, input.at, l, id);
    SerialEffects.StockTakes(inv, doc, input.at, l);
    AfterOne(inv.serials, l);
  }

  lemma {:induction false} SameSales(config: Config, serials: map<SerialId, Serial>, a: seq<Row>, b: seq<Row>,
                                     noReceipt: bool, lines: seq<Returns.LineInput>)
    requires forall id: Option<SerialId> :: HasSale(a, id) <==> HasSale(b, id)
    ensures LinesReturn(config, serials, a, noReceipt, lines) <==> LinesReturn(config, serials, b, noReceipt, lines)
    decreases |lines|
  {
    if lines != [] {
      SameSales(config, SerialEffects.AfterReturn(serials, [lines[0]]), a, b, noReceipt, lines[1..]);
    }
  }

  lemma {:induction false} ReturnLinesGo(inv: Inventory, config: Config, doc: DocId, input: Returns.ReturnInput,
                                         lines: seq<Returns.LineInput>)
    requires Agrees(inv)
    ensures ExecAll(inv, Returns.LinesOps(config, doc, input, lines)).Ok?
       <==> LinesReturn(config, inv.serials, inv.ledger, input.noReceipt, lines)
    decreases |lines|
  {
    if lines != [] {
      var l, head := lines[0], Returns.LineOps(config, doc, input, lines[0]);
      ExecAllConcat(inv, head, Returns.LinesOps(config, doc, input, lines[1..]));
      ReturnLineGoes(inv, config, doc, input, l);
      if ExecAll(inv, head).Ok? {
        var next := ExecAll(inv, head).value;
        forall id: Option<SerialId> ensures HasSale(next.ledger, id) <==> HasSale(inv.ledger, id) {
          ReturnLineLeaves(inv, config, doc, input, l, id);
        }
        ReturnLineLeaves(inv, config, doc, input, l, None);
        ReturnLinesGo(next, config, doc, input, lines[1..]);
        SameSales(config, next.serials, next.ledger, inv.ledger, input.noReceipt, lines[1..]);
      }
    }
  }

  /** After any run: a return is accepted exactly when it has a receipt or a manager, it has lines, and
      each line returns. */
  lemma ReturnGoesExactly(db: Db, input: Returns.ReturnInput)
    requires Reachable(db)
    ensures Accepted(db, PostReturn(input)) <==>
              && (input.noReceipt ==> input.managerApproved) && input.lines != []
              && LinesReturn(db.docs.config, db.inv.serials, db.inv.ledger, input.noReceipt, input.lines)
    ensures Accepted(db, PostReturn(input)) ==>
              var docs := Step(db, PostReturn(input)).docs;
              && docs == db.docs.(returnDocs := db.docs.returnDocs + 1, returnLines := docs.returnLines)
              && |docs.returnLines| == |db.docs.returnLines| + |input.lines|
              && docs.returnLines[..|db.docs.returnLines|] == db.docs.returnLines
              && forall i :: 0 <= i < |input.lines| ==>
                   docs.returnLines[|db.docs.returnLines| + i]
                     == ReturnLine(input.lines[i].sku, input.lines[i].qty, input.lines[i].disposition,
                                   input.lines[i].serial)
  {
    Reconciliation.ReachableSound(db);
    ReturnLinesGo(db.inv, db.docs.config, db.docs.returnDocs, input, input.lines);
  }

  // ---------- serials ----------

  /** A lifecycle call is accepted exactly when the serial exists and is in a state it starts from. */
  lemma SerialCallGoesExactly(db: Db, id: SerialId, call: Serials.Call)
    ensures Accepted(db, SerialCall(id, call)) <==>
              id in db.inv.serials && db.inv.serials[id].state in Serials.StartsFrom(call)
  {
    assert [CallSerial(id, call)] == [CallSerial(id, call)] + [];
    HeadOp(db.inv, CallSerial(id, call), []);
    if id in db.inv.serials {
      Serials.AppliesExactly(db.inv.serials[id], call);
    }
  }

  /** After any run: an approval is accepted exactly when the session is open or submitted and every
      pair that is short can give up what is missing, on hand and in layers. */
  lemma ApproveGoesExactly(db: Db, c: nat, at: int)
    requires Reachable(db)
    ensures Accepted(db, ApproveCount(c, at)) <==>
              && c < |db.docs.counts| && db.docs.counts[c].state in {CountOpen, CountSubmitted}
              && forall i :: 0 <= i < |db.docs.counts[c].snapshots| ==>
                   CanAdjust(db.inv, db.docs.counts[c], db.docs.counts[c].snapshots[i])
    ensures Accepted(db, ApproveCount(c, at)) ==>
              var docs := Step(db, ApproveCount(c, at)).docs;
              docs == db.docs.(counts := db.docs.counts[c := db.docs.counts[c].(state := CountApproved)],
                               adjustments := docs.adjustments)
  {
    if c < |db.docs.counts| && Counts.Countable(db.docs.counts[c]) {
      var session := db.docs.counts[c];
      Reconciliation.ApprovalGoesExactly(db, c, at);
      forall i | 0 <= i < |session.snapshots|
        ensures CanAdjust(db.inv, session, session.snapshots[i]) <==>
                  Reconciliation.Absorbs(db.inv, session.snapshots[i].key,
                                         Counts.Variance(db.inv.ledger, session, session.snapshots[i]))
      {
        Effects.SnapshotMissing(db.inv.ledger, session, session.snapshots[i], session.snapshots[i].key);
      }
    }
  }

  /** What the pair of a snapshot row must give up, if it must, is there. */
  predicate CanAdjust(inv: Inventory, c: CountSession, s: Snapshot) {
    var missing := SumOf(c.entries, Reconciliation.EntryQty(s.key)) - s.onHand
                   - SumOf(inv.ledger, Reconciliation.MovedFrom(s.key, c.openedAt));
    missing < 0 ==> OnHand(inv, s.key) + missing >= 0 && Fifo.Quantity(LayersAt(inv, s.key)) + missing >= 0
  }
}
