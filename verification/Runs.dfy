/** Runs that mix all the services, one call after another, from an empty database. */
module Runs {
  import opened Tables
  import opened Ledger
  import opened Database
  import Fifo
  import Serials
  import Purchasing
  import Intake
  import Returns
  import Rmas
  import Transfers
  import Counts

  datatype Action =
    | CreatePo(poLines: seq<Purchasing.PoLineInput>)
    | MovePo(po: nat, to: PoState)
    | PostReceipt(receiptPo: nat, loc: LocId, at: int, deliveries: seq<Purchasing.ReceiptInput>)
    | PostSale(env: Intake.Envelope, doc: DocId)
    | PostReturn(input: Returns.ReturnInput)
    | CreateRma(holding: LocId, rmaLines: seq<RmaLine>)
    | ShipRma(rma: nat, at: int)
    | CloseRma(rma: nat)
    | CreateTransfer(source: LocId, destination: LocId, transferLines: seq<TransferLine>)
    | ShipTransfer(transfer: nat, at: int)
    | ReceiveTransfer(transfer: nat, at: int)
    | OpenCount(scope: Counts.Scope, rows: seq<Key>, at: int)
    | SubmitCount(count: nat, entries: seq<CountEntry>)
    | ApproveCount(count: nat, at: int)
    | SerialCall(id: SerialId, call: Serials.Call)

  function PlanOf(db: Db, a: Action): Outcome<Plan> {
    match a
    case CreatePo(lines) => Purchasing.PlanCreate(db.docs, lines)
    case MovePo(po, to) => Purchasing.PlanTransition(db.docs, po, to)
    case PostReceipt(po, loc, at, lines) => Purchasing.PlanReceipt(db.docs, po, loc, at, lines)
    case PostSale(env, doc) => Intake.PlanSale(db.docs, env, doc)
    case PostReturn(input) => Returns.PlanReturn(db.docs, input)
    case CreateRma(holding, lines) => Rmas.PlanCreate(db.docs, holding, lines)
    case ShipRma(r, at) => Rmas.PlanShip(db.docs, r, at)
    case CloseRma(r) => Rmas.PlanClose(db, r)
    case CreateTransfer(source, destination, lines) => Transfers.PlanCreate(db, source, destination, lines)
    case ShipTransfer(t, at) => Transfers.PlanShip(db.docs, t, at)
    case ReceiveTransfer(t, at) => Transfers.PlanReceive(db.docs, t, at)
    case OpenCount(scope, rows, at) => Counts.PlanOpen(db, scope, rows, at)
    case SubmitCount(c, entries) => Counts.PlanSubmit(db.docs, c, entries)
    case ApproveCount(c, at) => Counts.PlanApprove(db, c, at)
    case SerialCall(id, call) => Ok(Plan([CallSerial(id, call)], db.docs))
  }

  /** One call. If it raises, nothing changes. */
  function Step(db: Db, a: Action): Db {
    Committed(db, Transact(db, PlanOf(db, a)))
  }

  function Run(db: Db, actions: seq<Action>): Db
    decreases |actions|
  {
    if actions == [] then db else Run(Step(db, actions[0]), actions[1..])
  }

  lemma {:induction false} RunSnoc(db: Db, actions: seq<Action>, a: Action)
    ensures Run(db, actions + [a]) == Step(Run(db, actions), a)
    decreases |actions|
  {
    if actions == [] {
      assert [] + [a] == [a];
      assert Run(db, [a]) == Run(Step(db, a), [a][1..]);
    } else {
      assert (actions + [a])[1..] == actions[1..] + [a];
      RunSnoc(Step(db, actions[0]), actions[1..], a);
    }
  }

  /** Some run of calls leads to it from an empty database. */
  ghost predicate Reachable(db: Db) {
    exists config, draws, actions :: db == Run(EmptyDb(config, draws), actions)
  }

  /** A call that changes anything ran its whole plan. */
  predicate Accepted(db: Db, a: Action) {
    Transact(db, PlanOf(db, a)).Ok?
  }

  lemma StepKeepsProjections(db: Db, a: Action)
    requires Agrees(db.inv) && DriftBounded(db.inv)
    ensures Agrees(Step(db, a).inv) && DriftBounded(Step(db, a).inv)
  {
    if Accepted(db, a) {
      ExecAllKeeps(db.inv, PlanOf(db, a).value.ops);
    }
  }

  lemma {:induction false} RunKeepsProjections(db: Db, actions: seq<Action>)
    requires Agrees(db.inv) && DriftBounded(db.inv)
    ensures Agrees(Run(db, actions).inv) && DriftBounded(Run(db, actions).inv)
    decreases |actions|
  {
    if actions != [] {
      StepKeepsProjections(db, actions[0]);
      RunKeepsProjections(Step(db, actions[0]), actions[1..]);
    }
  }

  lemma EmptyAgrees(config: Config, draws: seq<int>)
    ensures Agrees(EmptyDb(config, draws).inv) && DriftBounded(EmptyDb(config, draws).inv)
  {
    var inv := EmptyDb(config, draws).inv;
    forall k: Key ensures AgreesAt(inv, k) && DriftBoundedAt(inv, k) {
    }
  }

  /** After any run of any services: every balance is the sum of its ledger rows and is not
      negative, the layers of every pair add up to the ledger rows without a serial and stand in
      FIFO order. */
  lemma ProjectionsAgree(config: Config, draws: seq<int>, actions: seq<Action>, k: Key)
    ensures var inv := Run(EmptyDb(config, draws), actions).inv;
            && OnHand(inv, k) == Total(QtyAt(k), inv.ledger) >= 0
            && Fifo.Quantity(LayersAt(inv, k)) == Total(LayeredQtyAt(k), inv.ledger)
            && Fifo.FifoOrdered(LayersAt(inv, k))
  {
    EmptyAgrees(config, draws);
    RunKeepsProjections(EmptyDb(config, draws), actions);
    assert AgreesAt(Run(EmptyDb(config, draws), actions).inv, k);
  }

  /** After any run: what the ledger says the layered stock of a pair is worth and what its
      layers say differ by at most half a ten-thousandth per unit that ever left the pair. */
  lemma ValuationDriftBounded(config: Config, draws: seq<int>, actions: seq<Action>, k: Key)
    ensures var inv := Run(EmptyDb(config, draws), actions).inv;
            var drift := Total(ValueAt(k), inv.ledger) - Fifo.Value(LayersAt(inv, k));
            var moved := Total(OutboundAt(k), inv.ledger);
            -moved <= 2 * drift <= moved
  {
    EmptyAgrees(config, draws);
    RunKeepsProjections(EmptyDb(config, draws), actions);
    assert DriftBoundedAt(Run(EmptyDb(config, draws), actions).inv, k);
  }

  /** After any run the layers of a pair stand by date, and by identifier within a date. */
  lemma LayersByDate(config: Config, draws: seq<int>, actions: seq<Action>, k: Key, i: nat, j: nat)
    requires i < j < |LayersAt(Run(EmptyDb(config, draws), actions).inv, k)|
    ensures var layers := LayersAt(Run(EmptyDb(config, draws), actions).inv, k);
            layers[i].receivedAt < layers[j].receivedAt
            || (layers[i].receivedAt == layers[j].receivedAt && layers[i].id <= layers[j].id)
  {
    ProjectionsAgree(config, draws, actions, k);
    var layers := LayersAt(Run(EmptyDb(config, draws), actions).inv, k);
    assert Fifo.NotAfter(layers[i], layers[j]);
  }

  /** After any run, a movement takes nothing from a layer while an earlier one holds anything. */
  lemma OldestFirst(config: Config, draws: seq<int>, actions: seq<Action>, m: Movement, i: nat, j: nat)
    requires var inv := Run(EmptyDb(config, draws), actions).inv;
             && m.serial.None? && m.qty < 0 && Post(inv, m, NextId(inv)).Ok?
             && i < |LayersAt(inv, m.key)| && j < |LayersAt(inv, m.key)|
             && Before(LayersAt(inv, m.key)[i], LayersAt(inv, m.key)[j])
    ensures var inv := Run(EmptyDb(config, draws), actions).inv;
            var before, after := LayersAt(inv, m.key), LayersAt(Post(inv, m, NextId(inv)).value, m.key);
            && |after| == |before| && (after[j].qty < before[j].qty ==> after[i].qty == 0)
  {
    var inv := Run(EmptyDb(config, draws), actions).inv;
    EmptyAgrees(config, draws);
    RunKeepsProjections(EmptyDb(config, draws), actions);
    LooseLeavesOldestFirst(inv, m, NextId(inv), i, j);
  }
}
