/** The rows of the inventory tables, and the sums the proofs take over the ledger.

    Quantities are integers in thousandths of a unit (Numeric(18,3)); unit costs are
    integers in ten-thousandths of a currency unit (Numeric(18,4)). */
module Tables {

  datatype Option<+T> = None | Some(value: T) {
    function GetOr(default: T): T {
      match this
      case Some(v) => v
      case None => default
    }
  }

  /** The domain errors, plus the database's own integrity error. */
  datatype Error =
    | ValidationFailed
    | BusinessRuleConflict
    | NotFound
    | IntegrityError
    | IdempotencyConflict
    | ConsentRequired
    | ValueError

  /** What a call leaves behind: a value, or the exception it raised. */
  datatype Outcome<+T> = Ok(value: T) | Raise(error: Error) {
    predicate IsFailure() {
      Raise?
    }

    function PropagateFailure<U>(): Outcome<U>
      requires Raise?
    {
      Raise(error)
    }

    function Extract(): T
      requires Ok?
    {
      value
    }
  }

  /** A transaction that raises leaves the database as it was before the call. */
  function Committed<T>(before: T, outcome: Outcome<T>): T {
    if outcome.Ok? then outcome.value else before
  }

  type SkuId = int
  type LocId = int
  type SerialId = int
  type DocId = int
  type IntakeId = int

  /** One whole unit, in thousandths. */
  const UNIT := 1000

  datatype SerialState =
    | Received | Sellable | Reserved | Sold | Returned
    | RmaPending | RmaClosed | InTransit | Scrapped

  datatype SourceKind =
    | PoReceipt | Sale | CustomerReturn | RmaShip
    | TransferShip | TransferReceive | CountAdjustment | Scrap

  /** The (sku, location) pair that keys balances and cost layers. */
  datatype Key = Key(sku: SkuId, loc: LocId)

  datatype Balance = Balance(onHand: int, reserved: int)

  datatype Layer = Layer(receivedAt: int, id: int, qty: nat, unitCost: int)

  datatype Serial = Serial(sku: SkuId, state: SerialState, location: Option<LocId>, unitCost: int)

  datatype Row = Row(
    occurredAt: int, key: Key, qty: int, unitCost: int, kind: SourceKind, doc: DocId,
    serial: Option<SerialId>, intake: Option<IntakeId>)

  /** The four tables `post_movement` writes. `layers[k]` holds the cost layers of pair `k` in
      the order of the FIFO index. `draws` are the identifiers that `uuid4` will draw for new
      layers; they may be any numbers. */
  datatype Inventory = Inventory(
    balances: map<Key, Balance>,
    layers: map<Key, seq<Layer>>,
    serials: map<SerialId, Serial>,
    ledger: seq<Row>,
    draws: seq<int>)

  /** The identifier of a layer created now. A run that posts n movements uses n draws, so a long
      enough `draws` stands for any run. */
  function NextId(inv: Inventory): int {
    if |inv.ledger| < |inv.draws| then inv.draws[|inv.ledger|] else 0
  }

  function BalanceAt(inv: Inventory, k: Key): Balance {
    if k in inv.balances then inv.balances[k] else Balance(0, 0)
  }

  function OnHand(inv: Inventory, k: Key): int {
    BalanceAt(inv, k).onHand
  }

  function LayersAt(inv: Inventory, k: Key): seq<Layer> {
    if k in inv.layers then inv.layers[k] else []
  }

  function Indicator(b: bool): int {
    if b then 1 else 0
  }

  /** True iff some ledger row already carries this client intake id
      (the partial unique index on the ledger). */
  predicate UsesIntake(ledger: seq<Row>, id: IntakeId) {
    exists i :: 0 <= i < |ledger| && ledger[i].intake == Some(id)
  }

  lemma IntakeAppend(ledger: seq<Row>, r: Row, id: IntakeId)
    ensures UsesIntake(ledger + [r], id) <==> UsesIntake(ledger, id) || r.intake == Some(id)
  {
    var all := ledger + [r];
    if UsesIntake(ledger, id) {
      var i :| 0 <= i < |ledger| && ledger[i].intake == Some(id);
      assert all[i].intake == Some(id);
    }
    assert all[|ledger|] == r;
  }

  // ---------- sums over the ledger ----------

  /** What a sum over the ledger adds up. */
  datatype Measure =
    | QtyAt(key: Key)                            // every movement of the pair
    | LayeredQtyAt(key: Key)                     // movements of the pair that name no serial
    | QtyDatedFrom(key: Key, ts: int)            // movements of the pair dated at or after ts
    | QtyDatedBefore(key: Key, ts: int)          // movements of the pair dated before ts
    | QtyOfKind(sku: SkuId, kind: SourceKind)    // movements of the sku, one source kind
    | QtyOfSku(sku: SkuId)                       // movements of the sku, anywhere
    | OutboundAt(key: Key)                       // layered quantity that left the pair
    | ValueAt(key: Key)                          // layered quantity times unit cost

  function Weight(f: Measure, r: Row): int {
    match f
    case QtyAt(k) => if r.key == k then r.qty else 0
    case LayeredQtyAt(k) => if r.key == k && r.serial.None? then r.qty else 0
    case QtyDatedFrom(k, ts) => if r.key == k && r.occurredAt >= ts then r.qty else 0
    case QtyDatedBefore(k, ts) => if r.key == k && r.occurredAt < ts then r.qty else 0
    case QtyOfKind(sku, kind) => if r.key.sku == sku && r.kind == kind then r.qty else 0
    case QtyOfSku(sku) => if r.key.sku == sku then r.qty else 0
    case OutboundAt(k) => if r.key == k && r.serial.None? && r.qty < 0 then -r.qty else 0
    case ValueAt(k) => if r.key == k && r.serial.None? then r.qty * r.unitCost else 0
  }

  function Total(f: Measure, rows: seq<Row>): int {
    if rows == [] then 0 else Total(f, rows[..|rows| - 1]) + Weight(f, rows[|rows| - 1])
  }

  lemma TotalAppend(f: Measure, rows: seq<Row>, r: Row)
    ensures Total(f, rows + [r]) == Total(f, rows) + Weight(f, r)
  {
    assert (rows + [r])[..|rows|] == rows;
  }

  lemma {:induction false} TotalConcat(f: Measure, a: seq<Row>, b: seq<Row>)
    ensures Total(f, a + b) == Total(f, a) + Total(f, b)
  {
    if b == [] {
      assert a + b == a;
    } else {
      TotalConcat(f, a, b[..|b| - 1]);
      assert (a + b)[..|a + b| - 1] == a + b[..|b| - 1];
    }
  }

  /** Splitting a pair's movements by date loses nothing. */
  lemma {:induction false} TotalByDate(k: Key, ts: int, rows: seq<Row>)
    ensures Total(QtyAt(k), rows) == Total(QtyDatedFrom(k, ts), rows) + Total(QtyDatedBefore(k, ts), rows)
  {
    if rows != [] {
      TotalByDate(k, ts, rows[..|rows| - 1]);
    }
  }

  /** A sum over rows that all weigh nothing is zero. */
  lemma {:induction false} TotalZero(f: Measure, rows: seq<Row>)
    requires forall i :: 0 <= i < |rows| ==> Weight(f, rows[i]) == 0
    ensures Total(f, rows) == 0
  {
    if rows != [] {
      TotalZero(f, rows[..|rows| - 1]);
    }
  }
}
