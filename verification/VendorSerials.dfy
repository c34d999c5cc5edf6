/** Serials on vendor RMAs: shipping takes the stock and leaves the serials where they are;
    closing takes the serials. In between the RMA accounts for the difference. */
module VendorSerials {
  import opened Tables
  import opened Ledger
  import opened Database
  import opened Sums
  import opened Runs
  import opened Cardinality
  import Conservation
  import Rmas
  import Serials

  // ---------- what is on its way to a vendor ----------

  /** What an RMA took from the pair and has not been closed for. */
  function AwaitedQty(k: Key): Rma -> int {
    (r: Rma) => if r.state == RmaShipped && r.holding == k.loc then SumOf(r.lines, Conservation.RmaLineQty(k.sku))
        else 0
  }

  function Awaiting(docs: Docs, k: Key): int {
    SumOf(docs.rmas, AwaitedQty(k))
  }

  /** Stock, with what shipped and unclosed RMAs took from it, is the number of serials. */
  predicate AccountedAt(db: Db, k: Key) {
    OnHand(db.inv, k) + Awaiting(db.docs, k) == |SerialsAt(db.inv.serials, k)| * UNIT
  }

  ghost predicate Accounted(db: Db) {
    forall k: Key :: IsSerialized(db.docs.config, k.sku) ==> AccountedAt(db, k)
  }

  /** The serials the lines name. */
  function Named(lines: seq<RmaLine>): set<SerialId> {
    if lines == [] then {}
    else (if lines[0].serial.Some? then {lines[0].serial.value} else {}) + Named(lines[1..])
  }

  /** Every named serial of a serialised sku is at the location the RMA ships from. */
  predicate AtHolding(config: Config, serials: map<SerialId, Serial>, ids: set<SerialId>, holding: LocId) {
    forall id :: id in ids && id in serials && IsSerialized(config, serials[id].sku) ==>
        serials[id].location == Some(holding)
  }

  // ---------- shipping ----------

  function Relocated(serials: map<SerialId, Serial>, ids: set<SerialId>, loc: LocId): map<SerialId, Serial> {
    map id | id in serials :: if id in ids then serials[id].(location := Some(loc)) else serials[id]
  }

  lemma RelocatedAgain(serials: map<SerialId, Serial>, id: SerialId, ids: set<SerialId>, loc: LocId)
    requires id in serials
    ensures Relocated(serials[id := serials[id].(location := Some(loc))], ids, loc)
         == Relocated(serials, {id} + ids, loc)
  {
  }

  lemma OutboundEffect(inv: Inventory, doc: DocId, holding: LocId, at: int, line: RmaLine, k: Key)
    requires Post(inv, Rmas.Outbound(doc, holding, at, line), NextId(inv)).Ok?
    ensures var inv' := Post(inv, Rmas.Outbound(doc, holding, at, line), NextId(inv)).value;
            && OnHand(inv', k) == OnHand(inv, k) - (if k == Key(line.sku, holding) then line.qty else 0)
            && (line.serial.None? ==> inv'.serials == inv.serials)
            && (line.serial.Some? ==>
                  && line.serial.value in inv.serials
                  && inv'.serials == inv.serials[line.serial.value :=
                                                   inv.serials[line.serial.value].(location := Some(holding))])
  {
    PostOnHand(inv, Rmas.Outbound(doc, holding, at, line), k);
  }

  /** What shipping leaves: the stock is gone, and the named serials are where it was. */
  lemma {:induction false} ShipEffect(inv: Inventory, doc: DocId, holding: LocId, at: int, lines: seq<RmaLine>, k: Key)
    requires ExecAll(inv, Rmas.ShipOps(doc, holding, at, lines)).Ok?
    ensures Named(lines) <= inv.serials.Keys
    ensures var inv' := ExecAll(inv, Rmas.ShipOps(doc, holding, at, lines)).value;
            && inv'.serials == Relocated(inv.serials, Named(lines), holding)
            && OnHand(inv', k)
                 == OnHand(inv, k)
                  - (if k.loc == holding then SumOf(lines, Conservation.RmaLineQty(k.sku)) else 0)
    decreases |lines|
  {
    if lines == [] {
      assert Relocated(inv.serials, {}, holding) == inv.serials;
    } else {
      var m, tail := Rmas.Outbound(doc, holding, at, lines[0]), Rmas.ShipOps(doc, holding, at, lines[1..]);
      HeadMoved(inv, m, tail);
      OutboundEffect(inv, doc, holding, at, lines[0], k);
      var next := Post(inv, m, NextId(inv)).value;
      ShipEffect(next, doc, holding, at, lines[1..], k);
      if lines[0].serial.Some? {
        RelocatedAgain(inv.serials, lines[0].serial.value, Named(lines[1..]), holding);
      }
    }
  }

  lemma Grown<T>(a: set<T>, b: set<T>)
    requires a <= b
    ensures |a| <= |b| && (a != b ==> |a| < |b|)
  {
    assert b == a + (b - a);
    assert b - a == {} ==> a == b;
  }

  /** Serials that are there already stay; any other joins them. */
  lemma RelocatedCount(config: Config, serials: map<SerialId, Serial>, ids: set<SerialId>, loc: LocId, k: Key)
    requires IsSerialized(config, k.sku)
    ensures AtHolding(config, serials, ids, loc) ==> SerialsAt(Relocated(serials, ids, loc), k) == SerialsAt(serials, k)
    ensures k.loc == loc ==> |SerialsAt(serials, k)| <= |SerialsAt(Relocated(serials, ids, loc), k)|
    ensures forall id :: id in ids && id in serials && k == Key(serials[id].sku, loc)
                         && serials[id].location != Some(loc) ==>
              |SerialsAt(serials, k)| < |SerialsAt(Relocated(serials, ids, loc), k)|
  {
    var before, after := SerialsAt(serials, k), SerialsAt(Relocated(serials, ids, loc), k);
    RelocatedSet(serials, ids, loc, k);
    if k.loc == loc {
      Grown(before, after);
      forall id: SerialId | id in ids && id in serials && k == Key(serials[id].sku, loc) ensures id in after {
        assert id in OfSku(serials, k.sku);
      }
    }
    if AtHolding(config, serials, ids, loc) {
      if k.loc == loc {
        forall id: SerialId | id in OfSku(serials, k.sku) * ids ensures id in before {
          assert id in serials && IsSerialized(config, serials[id].sku);
        }
      } else {
        forall id: SerialId | id in before ensures id !in ids {
          assert id in serials && IsSerialized(config, serials[id].sku);
        }
      }
    }
  }

  /** The serials of a sku. */
  function OfSku(serials: map<SerialId, Serial>, sku: SkuId): set<SerialId> {
    set id | id in serials && serials[id].sku == sku
  }

  lemma RelocatedSet(serials: map<SerialId, Serial>, ids: set<SerialId>, loc: LocId, k: Key)
    ensures SerialsAt(Relocated(serials, ids, loc), k)
         == if k.loc == loc then SerialsAt(serials, k) + OfSku(serials, k.sku) * ids else SerialsAt(serials, k) - ids
  {
    var rows := Relocated(serials, ids, loc);
    var expected := if k.loc == loc then SerialsAt(serials, k) + OfSku(serials, k.sku) * ids
      else SerialsAt(serials, k) - ids;
    forall id: SerialId | id in serials ensures id in SerialsAt(rows, k) <==> id in expected {
      assert rows[id].sku == serials[id].sku;
    }
  }

  lemma ShipAwaits(docs: Docs, r: nat, at: int, k: Key)
    requires Rmas.PlanShip(docs, r, at).Ok?
    ensures Awaiting(Rmas.PlanShip(docs, r, at).value.docs, k)
         == Awaiting(docs, k)
          + (if k.loc == docs.rmas[r].holding then SumOf(docs.rmas[r].lines, Conservation.RmaLineQty(k.sku)) else 0)
  {
    SumOfUpdate(docs.rmas, r, docs.rmas[r].(state := RmaShipped), AwaitedQty(k));
  }

  /** Shipping keeps the account exactly when every serial it names is where it ships from. */
  lemma ShipAccountsExactly(db: Db, r: nat, at: int)
    requires Accounted(db) && Accepted(db, ShipRma(r, at))
    ensures Accounted(Step(db, ShipRma(r, at)))
       <==> AtHolding(db.docs.config, db.inv.serials, Named(db.docs.rmas[r].lines), db.docs.rmas[r].holding)
  {
    var config, serials, rma, after := db.docs.config, db.inv.serials, db.docs.rmas[r], Step(db, ShipRma(r, at));
    forall k: Key | IsSerialized(config, k.sku)
      ensures OnHand(after.inv, k) + Awaiting(after.docs, k) == |SerialsAt(serials, k)| * UNIT
      ensures after.inv.serials == Relocated(serials, Named(rma.lines), rma.holding)
    {
      assert AccountedAt(db, k);
      ShipEffect(db.inv, r, rma.holding, at, rma.lines, k);
      ShipAwaits(db.docs, r, at, k);
    }
    if AtHolding(config, serials, Named(rma.lines), rma.holding) {
      forall k: Key | IsSerialized(config, k.sku) ensures AccountedAt(after, k) {
        RelocatedCount(config, serials, Named(rma.lines), rma.holding, k);
      }
    } else {
      var id :| id in Named(rma.lines) && id in serials && IsSerialized(config, serials[id].sku)
          && serials[id].location != Some(rma.holding);
      RelocatedCount(config, serials, Named(rma.lines), rma.holding, Key(serials[id].sku, rma.holding));
      assert !AccountedAt(after, Key(serials[id].sku, rma.holding));
    }
  }

  /** Stock and serials are in step at every pair of a serialised sku. */
  ghost predicate AllInStep(config: Config, inv: Inventory) {
    forall k: Key :: IsSerialized(config, k.sku) ==> CardinalAt(inv, k)
  }

  predicate Names(lines: seq<RmaLine>, sku: SkuId) {
    exists i :: 0 <= i < |lines| && lines[i].sku == sku
  }

  lemma ShipGap(inv: Inventory, doc: DocId, holding: LocId, at: int, lines: seq<RmaLine>, config: Config, k: Key)
    requires ExecAll(inv, Rmas.ShipOps(doc, holding, at, lines)).Ok? && IsSerialized(config, k.sku)
    requires forall i :: 0 <= i < |lines| ==> lines[i].qty > 0
    ensures var inv' := ExecAll(inv, Rmas.ShipOps(doc, holding, at, lines)).value;
            && (k.loc == holding ==> Gap(inv', k) <= Gap(inv, k))
            && (k.loc == holding && Names(lines, k.sku) ==> Gap(inv', k) < Gap(inv, k))
            && (!Names(lines, k.sku) && AtHolding(config, inv.serials, Named(lines), holding) ==>
                  Gap(inv', k) == Gap(inv, k))
            && (forall id :: id in Named(lines) && id in inv.serials && k == Key(inv.serials[id].sku, holding)
                             && inv.serials[id].location != Some(holding) ==>
                  Gap(inv', k) < Gap(inv, k))
  {
    var f := Conservation.RmaLineQty(k.sku);
    ShipEffect(inv, doc, holding, at, lines, k);
    RelocatedCount(config, inv.serials, Named(lines), holding, k);
    SumNonNegative(lines, f);
    SumZero(lines, f);
    assert forall i :: 0 <= i < |lines| && lines[i].sku == k.sku ==> f(lines[i]) != 0;
  }

  /** Shipping keeps stock and serials in step exactly when it ships nothing serialised: a line of a
      serialised sku always leaves more serials than stock, wherever its serial was. */
  lemma ShipBreaksStepExactly(db: Db, r: nat, at: int)
    requires AllInStep(db.docs.config, db.inv) && Accepted(db, ShipRma(r, at))
    requires forall i :: 0 <= i < |db.docs.rmas[r].lines| ==> db.docs.rmas[r].lines[i].qty > 0
    ensures AllInStep(db.docs.config, Step(db, ShipRma(r, at)).inv)
       <==> (forall i :: 0 <= i < |db.docs.rmas[r].lines| ==>
               !IsSerialized(db.docs.config, db.docs.rmas[r].lines[i].sku))
            && AtHolding(db.docs.config, db.inv.serials, Named(db.docs.rmas[r].lines), db.docs.rmas[r].holding)
  {
    var config, serials, rma, inv' := db.docs.config, db.inv.serials, db.docs.rmas[r], Step(db, ShipRma(r, at)).inv;
    if i :| 0 <= i < |rma.lines| && IsSerialized(config, rma.lines[i].sku) {
      var k := Key(rma.lines[i].sku, rma.holding);
      ShipGap(db.inv, r, rma.holding, at, rma.lines, config, k);
      assert CardinalAt(db.inv, k) && !CardinalAt(inv', k);
    } else if AtHolding(config, serials, Named(rma.lines), rma.holding) {
      forall k: Key | IsSerialized(config, k.sku) ensures CardinalAt(inv', k) {
        assert CardinalAt(db.inv, k);
        ShipGap(db.inv, r, rma.holding, at, rma.lines, config, k);
      }
    } else {
      var id :| id in Named(rma.lines) && id in serials && IsSerialized(config, serials[id].sku)
          && serials[id].location != Some(rma.holding);
      var k := Key(serials[id].sku, rma.holding);
      ShipGap(db.inv, r, rma.holding, at, rma.lines, config, k);
      assert CardinalAt(db.inv, k) && !CardinalAt(inv', k);
    }
  }

  // ---------- closing ----------

  function ClosedRows(serials: map<SerialId, Serial>, ids: set<SerialId>): map<SerialId, Serial> {
    map id | id in serials ::
      if id in ids then serials[id].(state := SerialState.RmaClosed, location := None) else serials[id]
  }

  lemma ClosedAgain(serials: map<SerialId, Serial>, id: SerialId, ids: set<SerialId>)
    requires id in serials
    ensures ClosedRows(serials[id := serials[id].(state := SerialState.RmaClosed, location := None)], ids)
         == ClosedRows(serials, {id} + ids)
  {
  }

  /** No serial is named twice. */
  predicate NamedOnce(lines: seq<RmaLine>) {
    lines == [] || ((lines[0].serial.Some? ==> lines[0].serial.value !in Named(lines[1..])) && NamedOnce(lines[1..]))
  }

  lemma SerialClosed(inv: Inventory, line: RmaLine)
    requires line.serial.Some? && ExecAll(inv, Rmas.CloseLineOps(line)).Ok?
    ensures var id := line.serial.value;
            && id in inv.serials && inv.serials[id].state == SerialState.RmaPending
            && ExecAll(inv, Rmas.CloseLineOps(line)).value
                 == inv.(serials := inv.serials[id := inv.serials[id].(state := SerialState.RmaClosed,
                                                                       location := None)])
  {
    var op := CallSerial(line.serial.value, Serials.MarkRmaClosed);
    assert Rmas.CloseLineOps(line) == [op] + [];
    HeadOp(inv, op, []);
  }

  /** Closing goes through only for serials that are pending and named once; it closes them. */
  lemma {:induction false} CloseEffect(inv: Inventory, lines: seq<RmaLine>)
    requires ExecAll(inv, Rmas.CloseOps(lines)).Ok?
    ensures Named(lines) <= inv.serials.Keys && NamedOnce(lines)
    ensures forall id :: id in Named(lines) ==> inv.serials[id].state == SerialState.RmaPending
    ensures ExecAll(inv, Rmas.CloseOps(lines)).value == inv.(serials := ClosedRows(inv.serials, Named(lines)))
    decreases |lines|
  {
    if lines == [] {
      assert ClosedRows(inv.serials, {}) == inv.serials;
    } else {
      var head, tail := Rmas.CloseLineOps(lines[0]), Rmas.CloseOps(lines[1..]);
      ExecAllConcat(inv, head, tail);
      if lines[0].serial.None? {
        CloseEffect(inv, lines[1..]);
      } else {
        var id := lines[0].serial.value;
        SerialClosed(inv, lines[0]);
        CloseEffect(ExecAll(inv, head).value, lines[1..]);
        ClosedAgain(inv.serials, id, Named(lines[1..]));
      }
    }
  }

  /** A line of a serialised sku names one serial of that sku for one unit; other lines name none. */
  predicate UnitLine(config: Config, serials: map<SerialId, Serial>, l: RmaLine) {
    if IsSerialized(config, l.sku)
    then l.serial.Some? && l.qty == UNIT && (l.serial.value in serials ==> serials[l.serial.value].sku == l.sku)
    else l.serial.Some? && l.serial.value in serials ==> !IsSerialized(config, serials[l.serial.value].sku)
  }

  predicate UnitLines(config: Config, serials: map<SerialId, Serial>, lines: seq<RmaLine>) {
    forall i :: 0 <= i < |lines| ==> UnitLine(config, serials, lines[i])
  }

  function NamedOf(serials: map<SerialId, Serial>, lines: seq<RmaLine>, sku: SkuId): set<SerialId> {
    set id | id in Named(lines) && id in serials && serials[id].sku == sku
  }

  /** Such lines take one unit per serial. */
  lemma {:induction false} UnitsNamed(config: Config, serials: map<SerialId, Serial>, lines: seq<RmaLine>, sku: SkuId)
    requires UnitLines(config, serials, lines) && NamedOnce(lines) && Named(lines) <= serials.Keys
    requires IsSerialized(config, sku)
    ensures SumOf(lines, Conservation.RmaLineQty(sku)) == |NamedOf(serials, lines, sku)| * UNIT
  {
    if lines == [] {
      assert NamedOf(serials, lines, sku) == {};
    } else {
      assert UnitLine(config, serials, lines[0]);
      UnitsNamed(config, serials, lines[1..], sku);
      var rest := NamedOf(serials, lines[1..], sku);
      if lines[0].sku == sku {
        assert NamedOf(serials, lines, sku) == {lines[0].serial.value} + rest;
      } else {
        assert NamedOf(serials, lines, sku) == rest;
      }
    }
  }

  lemma ClosedHere(serials: map<SerialId, Serial>, lines: seq<RmaLine>, k: Key)
    ensures SerialsAt(ClosedRows(serials, Named(lines)), k) == SerialsAt(serials, k) - NamedOf(serials, lines, k.sku)
  {
    var rows := ClosedRows(serials, Named(lines));
    forall id: SerialId | id in serials
      ensures id in SerialsAt(rows, k) <==> id in SerialsAt(serials, k) - NamedOf(serials, lines, k.sku)
    {
      assert rows[id].sku == serials[id].sku;
    }
  }

  /** Closing takes the named serials away from where they are. */
  lemma ClosedCount(config: Config, serials: map<SerialId, Serial>, lines: seq<RmaLine>, holding: LocId, k: Key)
    requires IsSerialized(config, k.sku)
    ensures AtHolding(config, serials, Named(lines), holding) ==>
              |SerialsAt(ClosedRows(serials, Named(lines)), k)|
                == |SerialsAt(serials, k)| - (if k.loc == holding then |NamedOf(serials, lines, k.sku)| else 0)
    ensures forall id :: id in NamedOf(serials, lines, k.sku) && !Here(serials[id], k) ==>
              |SerialsAt(ClosedRows(serials, Named(lines)), k)|
                > |SerialsAt(serials, k)| - |NamedOf(serials, lines, k.sku)|
  {
    var before, gone := SerialsAt(serials, k), NamedOf(serials, lines, k.sku);
    ClosedHere(serials, lines, k);
    assert before == (before - gone) + before * gone;
    Grown(before * gone, gone);
    if AtHolding(config, serials, Named(lines), holding) {
      forall id: SerialId | id in gone ensures id in before * gone <==> k.loc == holding {
      }
      assert if k.loc == holding then before * gone == gone else before * gone == {};
    }
  }

  lemma CloseAwaits(db: Db, r: nat, k: Key)
    requires Rmas.PlanClose(db, r).Ok?
    ensures var rma := db.docs.rmas[r];
            Awaiting(Rmas.PlanClose(db, r).value.docs, k)
              == Awaiting(db.docs, k)
               - (if k.loc == rma.holding then SumOf(rma.lines, Conservation.RmaLineQty(k.sku)) else 0)
  {
    var rma := db.docs.rmas[r];
    var closed := rma.(state := RmaDone, credit := Rmas.Credit(db.inv.serials, rma.lines));
    SumOfUpdate(db.docs.rmas, r, closed, AwaitedQty(k));
  }

  /** Closing keeps the account, and so puts stock and serials back in step, exactly when every
      serial it names is still where it was shipped from. */
  lemma CloseAccountsExactly(db: Db, r: nat)
    requires Accounted(db) && Accepted(db, CloseRma(r))
    requires UnitLines(db.docs.config, db.inv.serials, db.docs.rmas[r].lines)
    ensures Accounted(Step(db, CloseRma(r)))
       <==> AtHolding(db.docs.config, db.inv.serials, Named(db.docs.rmas[r].lines), db.docs.rmas[r].holding)
  {
    var config, serials, rma, after := db.docs.config, db.inv.serials, db.docs.rmas[r], Step(db, CloseRma(r));
    CloseEffect(db.inv, rma.lines);
    forall k: Key | IsSerialized(config, k.sku)
      ensures OnHand(after.inv, k) + Awaiting(after.docs, k)
           == (|SerialsAt(serials, k)|
               - (if k.loc == rma.holding then |NamedOf(serials, rma.lines, k.sku)| else 0)) * UNIT
    {
      assert AccountedAt(db, k);
      CloseAwaits(db, r, k);
      UnitsNamed(config, serials, rma.lines, k.sku);
    }
    if AtHolding(config, serials, Named(rma.lines), rma.holding) {
      forall k: Key | IsSerialized(config, k.sku) ensures AccountedAt(after, k) {
        ClosedCount(config, serials, rma.lines, rma.holding, k);
      }
    } else {
      var id :| id in Named(rma.lines) && id in serials && IsSerialized(config, serials[id].sku)
          && serials[id].location != Some(rma.holding);
      ClosedCount(config, serials, rma.lines, rma.holding, Key(serials[id].sku, rma.holding));
      assert id in NamedOf(serials, rma.lines, serials[id].sku);
      assert !AccountedAt(after, Key(serials[id].sku, rma.holding));
    }
  }
}
