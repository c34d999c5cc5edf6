/** The ledger writer: one movement, and the runs of movements and serial operations that the
    document services make inside one transaction. */
module Ledger {
  import opened Tables
  import opened Fifo
  import Serials

  /** The arguments of `post_movement`. */
  datatype Movement = Movement(
    key: Key, qty: int, kind: SourceKind, doc: DocId, serial: Option<SerialId>,
    unitCost: Option<int>, intake: Option<IntakeId>, at: int, stateAfter: Option<SerialState>)

  /** A movement of loose stock (no serial), without a client intake id. */
  function Loose(key: Key, qty: int, kind: SourceKind, doc: DocId, unitCost: Option<int>, at: int): Movement {
    Movement(key, qty, kind, doc, None, unitCost, None, at, None)
  }

  /** A movement of one serial. */
  function OfSerial(key: Key, qty: int, kind: SourceKind, doc: DocId, id: SerialId, unitCost: Option<int>, at: int,
                    stateAfter: Option<SerialState>): Movement {
    Movement(key, qty, kind, doc, Some(id), unitCost, None, at, stateAfter)
  }

  function RowOf(m: Movement, unitCost: int): Row {
    Row(m.at, m.key, m.qty, unitCost, m.kind, m.doc, m.serial, m.intake)
  }

  // ---------- one movement ----------

  /** The serial row after an inbound movement. */
  function Arrive(row: Serial, m: Movement): Serial {
    row.(unitCost := m.unitCost.GetOr(row.unitCost), location := Some(m.key.loc),
         state := m.stateAfter.GetOr(row.state))
  }

  /** The serial row after an outbound movement. The location survives unless the state after
      is one of those for which the writer passes NULL. */
  function Depart(row: Serial, m: Movement): Serial {
    var keeps := m.stateAfter.None? || m.stateAfter.value in {InTransit, Received, Returned, RmaPending};
    row.(location := if keeps then Some(m.key.loc) else None, state := m.stateAfter.GetOr(row.state))
  }

  /** What the cost step of a movement decides: the unit cost of the ledger row, and the layer
      and serial rows it leaves. */
  datatype Resolved = Resolved(unitCost: int, layers: map<Key, seq<Layer>>, serials: map<SerialId, Serial>)

  function ResolveSerial(layers: map<Key, seq<Layer>>, serials: map<SerialId, Serial>, m: Movement): Outcome<Resolved>
    requires m.serial.Some?
  {
    var id := m.serial.value;
    if id !in serials then Raise(ValidationFailed)
    else
      var row := serials[id];
      var row' := if m.qty > 0 then Arrive(row, m) else Depart(row, m);
      var unitCost := if m.qty > 0 then row'.unitCost else row.unitCost;
      Ok(Resolved(unitCost, layers, serials[id := row']))
  }

  function ResolveLoose(layers: seq<Layer>, m: Movement, layerId: int): Outcome<(int, seq<Layer>)>
    requires m.qty != 0
  {
    if m.qty > 0 then
      if m.unitCost.None? then Raise(ValidationFailed)
      else Ok((m.unitCost.value, Insert(layers, Layer(m.at, layerId, m.qty, m.unitCost.value))))
    else
      var t := Consume(layers, -m.qty);
      if t.short > 0 then Raise(BusinessRuleConflict) else Ok((RoundHalfEven(t.cost, -m.qty), t.layers))
  }

  function Resolve(layers: map<Key, seq<Layer>>, serials: map<SerialId, Serial>, m: Movement,
                   layerId: int): Outcome<Resolved>
    requires m.qty != 0
  {
    if m.serial.Some? then ResolveSerial(layers, serials, m)
    else
      var r :- ResolveLoose(if m.key in layers then layers[m.key] else [], m, layerId);
      Ok(Resolved(r.0, layers[m.key := r.1], serials))
  }

  function Post(inv: Inventory, m: Movement, layerId: int): Outcome<Inventory> {
    if m.qty == 0 then Raise(ValidationFailed)
    else
      var r :- Resolve(inv.layers, inv.serials, m, layerId);
      var balance := BalanceAt(inv, m.key);
      if balance.onHand + m.qty < 0 then Raise(BusinessRuleConflict)
      else if m.intake.Some? && UsesIntake(inv.ledger, m.intake.value) then Raise(IntegrityError)
      else Ok(inv.(balances := inv.balances[m.key := balance.(onHand := balance.onHand + m.qty)],
                   layers := r.layers,
                   serials := r.serials,
                   ledger := inv.ledger + [RowOf(m, r.unitCost)]))
  }

  // ---------- what a service does inside one transaction ----------

  datatype Op =
    | Move(m: Movement)
    | CanSell(key: Key, qty: int)                  // the sale guard
    | AssertUnknown(ids: seq<SerialId>)            // serial values must be new
    | NewSerial(id: SerialId, row: Serial)         // INSERT INTO inv.serial
    | LookUp(id: SerialId, sku: SkuId)             // the serial exists and belongs to the sku
    | PriorSale(id: SerialId)                      // the ledger has a sale of the serial
    | CallSerial(id: SerialId, call: Serials.Call) // the serial lifecycle service
    | Fail(error: Error)                           // a validation that raises

  /** The sale guard: the pair has a balance row, and enough of it is not reserved. */
  predicate StockAvailable(balances: map<Key, Balance>, k: Key, qty: int) {
    k in balances && balances[k].onHand - balances[k].reserved >= qty
  }

  predicate SoldBefore(ledger: seq<Row>, id: SerialId) {
    exists i :: 0 <= i < |ledger| && ledger[i].serial == Some(id) && ledger[i].kind == Sale
  }

  function Exec(inv: Inventory, op: Op): Outcome<Inventory> {
    match op
    case Move(m) => Post(inv, m, NextId(inv))
    case CanSell(k, qty) =>
      if StockAvailable(inv.balances, k, qty) then Ok(inv) else Raise(BusinessRuleConflict)
    case AssertUnknown(ids) =>
      if exists i :: 0 <= i < |ids| && ids[i] in inv.serials then Raise(BusinessRuleConflict) else Ok(inv)
    case NewSerial(id, row) =>
      if id in inv.serials then Raise(IntegrityError) else Ok(inv.(serials := inv.serials[id := row]))
    case LookUp(id, sku) =>
      if id !in inv.serials then Raise(NotFound)
      else if inv.serials[id].sku != sku then Raise(BusinessRuleConflict) else Ok(inv)
    case PriorSale(id) =>
      if SoldBefore(inv.ledger, id) then Ok(inv) else Raise(BusinessRuleConflict)
    case CallSerial(id, call) =>
      if id !in inv.serials then Raise(NotFound)
      else
        var row :- Serials.Apply(inv.serials[id], call);
        Ok(inv.(serials := inv.serials[id := row]))
    case Fail(e) => Raise(e)
  }

  /** The operations of a transaction in order; the first that raises ends it. */
  function ExecAll(inv: Inventory, ops: seq<Op>): Outcome<Inventory>
    decreases |ops|
  {
    if ops == [] then Ok(inv)
    else
      var next :- Exec(inv, ops[0]);
      ExecAll(next, ops[1..])
  }

  lemma {:induction false} ExecAllConcat(inv: Inventory, a: seq<Op>, b: seq<Op>)
    ensures ExecAll(inv, a + b) == (var mid := ExecAll(inv, a); if mid.Ok? then ExecAll(mid.value, b) else mid)
    decreases |a|
  {
    if a == [] {
      assert a + b == b;
    } else {
      assert (a + b)[1..] == a[1..] + b;
      var next := Exec(inv, a[0]);
      if next.Ok? {
        ExecAllConcat(next.value, a[1..], b);
      }
    }
  }

  /** A list is its first operation, then the rest. */
  lemma HeadOp(inv: Inventory, op: Op, tail: seq<Op>)
    ensures ExecAll(inv, [op] + tail)
        == (var next := Exec(inv, op); if next.Ok? then ExecAll(next.value, tail) else next)
  {
    assert ([op] + tail)[1..] == tail;
  }

  /** A list that starts with a movement: the movement, then the rest of the list. */
  lemma HeadMoved(inv: Inventory, m: Movement, tail: seq<Op>)
    ensures ExecAll(inv, [Move(m)] + tail)
         == (var next := Post(inv, m, NextId(inv)); if next.Ok? then ExecAll(next.value, tail) else next)
  {
    assert ([Move(m)] + tail)[1..] == tail;
  }

  /** A movement appends its own row to the ledger; nothing else touches ledger, balances or layers. */
  lemma ExecAppends(inv: Inventory, op: Op)
    requires Exec(inv, op).Ok?
    ensures var inv' := Exec(inv, op).value;
            if op.Move? then
              |inv'.ledger| > 0 && inv'.ledger == inv.ledger + [RowOf(op.m, inv'.ledger[|inv'.ledger| - 1].unitCost)]
            else
              inv' == inv.(serials := inv'.serials)
  {
  }

  /** The ledger is append-only. */
  lemma {:induction false} LedgerGrows(inv: Inventory, ops: seq<Op>)
    requires ExecAll(inv, ops).Ok?
    ensures inv.ledger <= ExecAll(inv, ops).value.ledger
    decreases |ops|
  {
    if ops != [] {
      ExecAppends(inv, ops[0]);
      LedgerGrows(Exec(inv, ops[0]).value, ops[1..]);
    }
  }

  // ---------- the projections agree with the ledger ----------

  /** Balances and cost layers are projections of the ledger, no balance is negative, and the
      layers of every pair are in FIFO order. */
  ghost predicate Agrees(inv: Inventory) {
    forall k: Key :: AgreesAt(inv, k)
  }

  ghost predicate AgreesAt(inv: Inventory, k: Key) {
    && OnHand(inv, k) == Total(QtyAt(k), inv.ledger) >= 0
    && Quantity(LayersAt(inv, k)) == Total(LayeredQtyAt(k), inv.ledger)
    && FifoOrdered(LayersAt(inv, k))
  }

  /** What the ledger says the layered stock of a pair is worth, minus what its layers say. */
  ghost function Drift(inv: Inventory, k: Key): int {
    Total(ValueAt(k), inv.ledger) - Value(LayersAt(inv, k))
  }

  /** The drift is at most half a cost unit per unit of quantity that ever left the pair. */
  ghost predicate DriftBounded(inv: Inventory) {
    forall k: Key :: DriftBoundedAt(inv, k)
  }

  ghost predicate DriftBoundedAt(inv: Inventory, k: Key) {
    var moved := Total(OutboundAt(k), inv.ledger);
    -moved <= 2 * Drift(inv, k) <= moved
  }

  lemma PostAgrees(inv: Inventory, m: Movement, layerId: int)
    requires Agrees(inv) && Post(inv, m, layerId).Ok?
    ensures Agrees(Post(inv, m, layerId).value)
  {
    var inv' := Post(inv, m, layerId).value;
    forall k: Key ensures AgreesAt(inv', k) {
      assert AgreesAt(inv, k);
      var row := inv'.ledger[|inv.ledger|];
      TotalAppend(QtyAt(k), inv.ledger, row);
      TotalAppend(LayeredQtyAt(k), inv.ledger, row);
      if k == m.key {
        PostLayers(inv, m, layerId);
      }
    }
  }

  /** A movement changes the layers of its own pair by its own quantity, if it names no serial. */
  lemma PostLayers(inv: Inventory, m: Movement, layerId: int)
    requires Post(inv, m, layerId).Ok?
    ensures var before, after := LayersAt(inv, m.key), LayersAt(Post(inv, m, layerId).value, m.key);
            && Quantity(after) == Quantity(before) + (if m.serial.None? then m.qty else 0)
            && (FifoOrdered(before) ==> FifoOrdered(after))
  {
    if m.serial.None? && m.qty < 0 {
      ConsumeAccounts(LayersAt(inv, m.key), -m.qty);
    }
  }

  /** The exact drift of one movement is the rounding error of its unit cost. */
  lemma PostDrift(inv: Inventory, m: Movement, layerId: int)
    requires DriftBounded(inv) && Post(inv, m, layerId).Ok?
    ensures DriftBounded(Post(inv, m, layerId).value)
  {
    var inv' := Post(inv, m, layerId).value;
    forall k: Key ensures DriftBoundedAt(inv', k) {
      assert DriftBoundedAt(inv, k);
      var row := inv'.ledger[|inv.ledger|];
      TotalAppend(ValueAt(k), inv.ledger, row);
      TotalAppend(OutboundAt(k), inv.ledger, row);
      if k == m.key && m.serial.None? {
        PostValue(inv, m, layerId);
      }
    }
  }

  /** An inbound movement adds its value to the layers exactly; an outbound one takes its value
      off up to the rounding of its unit cost. */
  lemma PostValue(inv: Inventory, m: Movement, layerId: int)
    requires m.serial.None? && Post(inv, m, layerId).Ok?
    ensures var inv' := Post(inv, m, layerId).value;
            var row := inv'.ledger[|inv.ledger|];
            var off := row.qty * row.unitCost - (Value(LayersAt(inv', m.key)) - Value(LayersAt(inv, m.key)));
            if m.qty > 0 then off == 0 else m.qty <= 2 * off <= -m.qty
  {
    if m.qty < 0 {
      var t := Consume(LayersAt(inv, m.key), -m.qty);
      ConsumeValue(LayersAt(inv, m.key), -m.qty);
      RoundingError(t.cost, -m.qty);
    }
  }

  lemma RoundingError(cost: int, qty: int)
    requires qty > 0
    ensures -qty <= 2 * (cost + (-qty) * RoundHalfEven(cost, qty)) <= qty
  {
    var r := RoundHalfEven(cost, qty);
    assert (-qty) * r == -(r * qty);
  }

  lemma ExecKeeps(inv: Inventory, op: Op)
    requires Agrees(inv) && DriftBounded(inv) && Exec(inv, op).Ok?
    ensures Agrees(Exec(inv, op).value) && DriftBounded(Exec(inv, op).value)
  {
    var inv' := Exec(inv, op).value;
    if op.Move? {
      PostAgrees(inv, op.m, NextId(inv));
      PostDrift(inv, op.m, NextId(inv));
    } else {
      forall k: Key ensures AgreesAt(inv', k) && DriftBoundedAt(inv', k) {
        assert AgreesAt(inv, k) && DriftBoundedAt(inv, k);
      }
    }
  }

  lemma {:induction false} ExecAllKeeps(inv: Inventory, ops: seq<Op>)
    requires Agrees(inv) && DriftBounded(inv) && ExecAll(inv, ops).Ok?
    ensures Agrees(ExecAll(inv, ops).value) && DriftBounded(ExecAll(inv, ops).value)
    decreases |ops|
  {
    if ops != [] {
      ExecKeeps(inv, ops[0]);
      ExecAllKeeps(Exec(inv, ops[0]).value, ops[1..]);
    }
  }

  // ---------- quantities a transaction adds to the ledger ----------

  /** What a list of operations adds to a measure that does not look at unit costs. */
  function OpsTotal(f: Measure, ops: seq<Op>): int {
    if ops == [] then 0
    else (if ops[0].Move? then Weight(f, RowOf(ops[0].m, 0)) else 0) + OpsTotal(f, ops[1..])
  }

  lemma {:induction false} OpsTotalConcat(f: Measure, a: seq<Op>, b: seq<Op>)
    ensures OpsTotal(f, a + b) == OpsTotal(f, a) + OpsTotal(f, b)
  {
    if a == [] {
      assert a + b == b;
    } else {
      assert (a + b)[1..] == a[1..] + b;
      OpsTotalConcat(f, a[1..], b);
    }
  }

  lemma ExecTotal(f: Measure, inv: Inventory, op: Op)
    requires Exec(inv, op).Ok? && !f.ValueAt?
    ensures Total(f, Exec(inv, op).value.ledger)
         == Total(f, inv.ledger) + (if op.Move? then Weight(f, RowOf(op.m, 0)) else 0)
  {
    ExecAppends(inv, op);
    if op.Move? {
      var ledger := Exec(inv, op).value.ledger;
      TotalAppend(f, inv.ledger, ledger[|ledger| - 1]);
    }
  }

  lemma {:induction false} ExecAllTotal(f: Measure, inv: Inventory, ops: seq<Op>)
    requires ExecAll(inv, ops).Ok? && !f.ValueAt?
    ensures Total(f, ExecAll(inv, ops).value.ledger) == Total(f, inv.ledger) + OpsTotal(f, ops)
    decreases |ops|
  {
    if ops != [] {
      var next := Exec(inv, ops[0]).value;
      ExecTotal(f, inv, ops[0]);
      ExecAllTotal(f, next, ops[1..]);
    }
  }

  // ---------- one movement, written out ----------

  /** A movement of a serial: its cost is the one it states on the way in, and the one stored on the
      serial row otherwise; ledger and serial row carry it, and the row follows the goods. */
  lemma SerialPosted(inv: Inventory, m: Movement, layerId: int)
    requires m.serial.Some? && Post(inv, m, layerId).Ok?
    ensures m.serial.value in inv.serials
    ensures var inv', id, row := Post(inv, m, layerId).value, m.serial.value, inv.serials[m.serial.value];
            var cost := if m.qty > 0 && m.unitCost.Some? then m.unitCost.value else row.unitCost;
            var bound := m.qty > 0
                         || m.stateAfter in {None, Some(InTransit), Some(Received), Some(Returned), Some(RmaPending)};
            && inv'.ledger == inv.ledger + [Row(m.at, m.key, m.qty, cost, m.kind, m.doc, m.serial, m.intake)]
            && inv'.layers == inv.layers
            && inv'.serials == inv.serials[id := Serial(row.sku, m.stateAfter.GetOr(row.state),
                                                        if bound then Some(m.key.loc) else None, cost)]
  {
  }

  /** An inbound movement of loose stock adds one layer, of its date, quantity and cost. */
  lemma LooseArrives(inv: Inventory, m: Movement, layerId: int)
    requires m.serial.None? && m.qty > 0 && Post(inv, m, layerId).Ok?
    ensures m.unitCost.Some?
    ensures var inv' := Post(inv, m, layerId).value;
            && multiset(LayersAt(inv', m.key))
                 == multiset(LayersAt(inv, m.key)) + multiset{Layer(m.at, layerId, m.qty, m.unitCost.value)}
            && inv'.ledger
                 == inv.ledger + [Row(m.at, m.key, m.qty, m.unitCost.value, m.kind, m.doc, None, m.intake)]
            && inv'.serials == inv.serials
  {
  }

  /** A layer dated earlier than another, or of the same date and a smaller identifier. */
  predicate Before(a: Layer, b: Layer) {
    a.receivedAt < b.receivedAt || (a.receivedAt == b.receivedAt && a.id < b.id)
  }

  lemma EarlierFirst(layers: seq<Layer>, qty: nat, i: nat, j: nat)
    requires FifoOrdered(layers) && i < |layers| && j < |layers| && Before(layers[i], layers[j])
    ensures var after := Consume(layers, qty).layers;
            && |after| == |layers|
            && after[i] == layers[i].(qty := after[i].qty) && after[j] == layers[j].(qty := after[j].qty)
            && (after[j].qty < layers[j].qty ==> after[i].qty == 0)
  {
    ConsumeInOrder(layers, qty);
    ConsumeAccounts(layers, qty);
  }

  /** An outbound movement of loose stock takes nothing from a layer while an earlier one of the pair
      still holds anything. */
  lemma LooseLeavesOldestFirst(inv: Inventory, m: Movement, layerId: int, i: nat, j: nat)
    requires Agrees(inv) && m.serial.None? && m.qty < 0 && Post(inv, m, layerId).Ok?
    requires i < |LayersAt(inv, m.key)| && j < |LayersAt(inv, m.key)|
    requires Before(LayersAt(inv, m.key)[i], LayersAt(inv, m.key)[j])
    ensures var before, after := LayersAt(inv, m.key), LayersAt(Post(inv, m, layerId).value, m.key);
            && |after| == |before|
            && after[i] == before[i].(qty := after[i].qty) && after[j] == before[j].(qty := after[j].qty)
            && (after[j].qty < before[j].qty ==> after[i].qty == 0)
  {
    assert AgreesAt(inv, m.key);
    EarlierFirst(LayersAt(inv, m.key), -m.qty, i, j);
  }

  /** Any movement changes the on-hand of its own pair by its quantity, what is reserved there by
      nothing, and no other balance row. */
  lemma BalancePosted(inv: Inventory, m: Movement, layerId: int)
    requires Post(inv, m, layerId).Ok?
    ensures var before := if m.key in inv.balances then inv.balances[m.key] else Balance(0, 0);
            Post(inv, m, layerId).value.balances
              == inv.balances[m.key := Balance(before.onHand + m.qty, before.reserved)]
    ensures m.key in inv.balances ==> inv.balances[m.key].onHand + m.qty >= 0
  {
  }
}
