/** The document tables, the whole database state, and the session the services work through. */
module Database {
  import opened Tables
  import opened Ledger

  // ---------- configuration ----------

  datatype Tracking = NonSerialized | Serialized | LotTracked

  datatype SkuRow = SkuRow(tracking: Tracking, tolerancePct: Option<int>)

  /** Reference data no service changes: the SKUs, the virtual in-transit location and the
      default over-receive tolerance. */
  datatype Config = Config(skus: map<SkuId, SkuRow>, transit: LocId, defaultTolerancePct: int)

  predicate IsSerialized(config: Config, sku: SkuId) {
    sku in config.skus && config.skus[sku].tracking == Serialized
  }

  // ---------- documents; a document's identifier is its index in its table ----------

  datatype PoState = Draft | Submitted | Approved | Sent | Receiving | Closed | Cancelled

  datatype PoLine = PoLine(po: nat, sku: SkuId, ordered: int, received: int, backordered: int, unitCost: int)

  datatype Receipt = Receipt(po: nat, loc: LocId, at: int)

  /** `sku` is that of the PO line; `serials` are the receipt_serial rows of the line. */
  datatype ReceiptLine = ReceiptLine(
    receipt: nat, poLine: nat, sku: SkuId, qty: int, overage: int, serials: seq<SerialId>)

  datatype Disposition = ToSellable | Hold | ScrapIt | VendorRma | OtherDisposition

  datatype ReturnLine = ReturnLine(sku: SkuId, qty: int, disposition: Disposition, serial: Option<SerialId>)

  datatype RmaState = RmaOpen | RmaShipped | RmaDone

  datatype RmaLine = RmaLine(sku: SkuId, qty: int, serial: Option<SerialId>, unitCost: int)

  datatype Rma = Rma(state: RmaState, holding: LocId, lines: seq<RmaLine>, credit: int)

  datatype TransferState = TransferDraft | TransferShipped | TransferReceived

  datatype TransferLine = TransferLine(sku: SkuId, qty: int, serials: seq<SerialId>)

  datatype Transfer = Transfer(state: TransferState, source: LocId, destination: LocId, lines: seq<TransferLine>)

  datatype CountState = CountOpen | CountSubmitted | CountApproved

  datatype Snapshot = Snapshot(key: Key, onHand: int)

  datatype CountEntry = CountEntry(key: Key, qty: int)

  /** `openedAfter` is the number of ledger rows that had been posted when the snapshot was taken.
      The table has no such column; no service reads it. */
  datatype CountSession = CountSession(
    state: CountState, openedAt: int, openedAfter: nat, snapshots: seq<Snapshot>, entries: seq<CountEntry>)

  datatype Adjustment = Adjustment(key: Key, qty: int, count: nat)

  datatype Docs = Docs(
    config: Config,
    orders: seq<PoState>,
    poLines: seq<PoLine>,
    receipts: seq<Receipt>,
    receiptLines: seq<ReceiptLine>,
    returnLines: seq<ReturnLine>,
    returnDocs: nat,
    rmas: seq<Rma>,
    transfers: seq<Transfer>,
    counts: seq<CountSession>,
    adjustments: seq<Adjustment>)

  datatype Db = Db(inv: Inventory, docs: Docs)

  function EmptyDb(config: Config, draws: seq<int>): Db {
    Db(Inventory(map[], map[], map[], [], draws), Docs(config, [], [], [], [], [], 0, [], [], [], []))
  }

  // ---------- transactions ----------

  /** A service call: what it does to the inventory tables, in order, and the document tables
      it leaves if none of that raises. */
  datatype Plan = Plan(ops: seq<Op>, docs: Docs)

  function Transact(db: Db, plan: Outcome<Plan>): Outcome<Db> {
    var p :- plan;
    var inv :- ExecAll(db.inv, p.ops);
    Ok(Db(inv, p.docs))
  }

  // ---------- the session ----------

  class Session {
    var balances: map<Key, Balance>
    var layers: map<Key, seq<Layer>>
    var serials: map<SerialId, Serial>
    var ledger: seq<Row>
    const draws: seq<int>
    var docs: Docs

    constructor (db: Db)
      ensures State() == db
    {
      balances, layers, serials, ledger := db.inv.balances, db.inv.layers, db.inv.serials, db.inv.ledger;
      draws := db.inv.draws;
      docs := db.docs;
    }

    function Inv(): Inventory
      reads this
    {
      Inventory(balances, layers, serials, ledger, draws)
    }

    function State(): Db
      reads this
    {
      Db(Inv(), docs)
    }

    /** ROLLBACK. */
    method Rollback(saved: Db)
      requires saved.inv.draws == draws
      modifies this
      ensures State() == saved
    {
      balances, layers, serials, ledger := saved.inv.balances, saved.inv.layers, saved.inv.serials, saved.inv.ledger;
      docs := saved.docs;
    }
  }
}
