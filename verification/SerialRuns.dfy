/** Serial stock over whole runs of every service: stock, with what shipped RMAs took, is the
    number of serials. */
module SerialRuns {
  import opened Tables
  import opened Ledger
  import opened Database
  import opened Sums
  import opened Runs
  import opened Cardinality
  import opened VendorSerials
  import Serials
  import Purchasing
  import Intake
  import Transfers
  import Counts
  import Reconciliation

  // ---------- runs ----------

  /** A call of a service, or a sale of one serial through the ledger writer. No service posts such
      a sale; the writer takes it. */
  datatype Event = Call(a: Action) | SellSerial(key: Key, doc: DocId, id: SerialId, at: int)

  function PlanOfEvent(db: Db, e: Event): Outcome<Plan> {
    match e
    case Call(a) => PlanOf(db, a)
    case SellSerial(k, doc, id, at) => Ok(Plan([Move(SaleOfSerial(k, doc, id, at))], db.docs))
  }

  predicate Goes(db: Db, e: Event) {
    Transact(db, PlanOfEvent(db, e)).Ok?
  }

  function Next(db: Db, e: Event): Db {
    Committed(db, Transact(db, PlanOfEvent(db, e)))
  }

  function RunEvents(db: Db, events: seq<Event>): Db
    decreases |events|
  {
    if events == [] then db else RunEvents(Next(db, events[0]), events[1..])
  }

  /** Calls for which the documents and the serial rows agree on where each serial starts. */
  predicate Placed(db: Db, a: Action) {
    var config, serials, docs := db.docs.config, db.inv.serials, db.docs;
    match a
    case PostReturn(input) => Returnable(config, serials, input.lines)
    case ShipTransfer(t, _) =>
      t < |docs.transfers| ==>
        && docs.transfers[t].source != config.transit
        && Starts(config, serials, docs.transfers[t].source, docs.transfers[t].lines)
    case ReceiveTransfer(t, _) =>
      t < |docs.transfers| ==>
        && docs.transfers[t].destination != config.transit
        && Starts(config, serials, config.transit, docs.transfers[t].lines)
    case ShipRma(r, _) =>
      r < |docs.rmas| ==> AtHolding(config, serials, Named(docs.rmas[r].lines), docs.rmas[r].holding)
    case CloseRma(r) =>
      r < |docs.rmas| ==>
        && UnitLines(config, serials, docs.rmas[r].lines)
        && AtHolding(config, serials, Named(docs.rmas[r].lines), docs.rmas[r].holding)
    case ApproveCount(c, _) => c < |docs.counts| ==> SerialsCounted(config, db.inv.ledger, docs.counts[c])
    case SerialCall(id, call) => id in serials ==> StaysPut(config, serials[id], call)
    case _ => true
  }

  /** The count found no serialised pair to differ. */
  predicate SerialsCounted(config: Config, ledger: seq<Row>, c: CountSession) {
    forall i :: 0 <= i < |c.snapshots| && IsSerialized(config, c.snapshots[i].key.sku) ==>
        Counts.Variance(ledger, c, c.snapshots[i]) == 0
  }

  /** The call does not change where a serial of a serialised sku is. */
  predicate StaysPut(config: Config, row: Serial, call: Serials.Call) {
    var o := Serials.Apply(row, call);
    o.Ok? && IsSerialized(config, row.sku) ==> o.value.location == row.location
  }

  lemma {:induction false} SaleNeutral(config: Config, env: Intake.Envelope, doc: DocId, i: nat)
    requires i <= |env.lines|
    requires forall j :: i <= j < |env.lines| ==> !IsSerialized(config, env.lines[j].sku)
    ensures AllNeutral(config, Intake.SaleOpsFrom(env, doc, i))
    decreases |env.lines| - i
  {
    if i < |env.lines| {
      SaleNeutral(config, env, doc, i + 1);
    }
  }

  lemma {:induction false} SaleRefusesSerials(config: Config, lines: seq<Intake.SaleLine>)
    requires Intake.Refusal(config, lines).None?
    ensures forall j :: 0 <= j < |lines| ==> !IsSerialized(config, lines[j].sku)
  {
    if lines != [] {
      SaleRefusesSerials(config, lines[1..]);
      assert forall j :: 0 < j < |lines| ==> lines[j] == lines[1..][j - 1];
    }
  }

  lemma {:induction false} ApproveNeutral(config: Config, ledger: seq<Row>, c: CountSession, snaps: seq<Snapshot>,
                                          doc: DocId, at: int)
    requires forall i :: 0 <= i < |snaps| && IsSerialized(config, snaps[i].key.sku) ==>
        Counts.Variance(ledger, c, snaps[i]) == 0
    ensures AllNeutral(config, Counts.ApproveOps(Counts.Report(ledger, c, snaps), doc, at))
  {
    if snaps != [] {
      var rows := Counts.Report(ledger, c, snaps);
      assert rows[0].key == snaps[0].key && rows[1..] == Counts.Report(ledger, c, snaps[1..]);
      assert rows[0].varianceQty == Counts.Variance(ledger, c, snaps[0]);
      ApproveNeutral(config, ledger, c, snaps[1..], doc, at);
      ApproveNeutral(config, ledger, c, snaps[1..], doc + 1, at);
    }
  }

  // ---------- every call keeps the account ----------

  /** Neither an RMA nor one serial by name. */
  predicate OfStock(a: Action) {
    !a.CreateRma? && !a.ShipRma? && !a.CloseRma? && !a.SerialCall?
  }

  /** The plans that move nothing serialised. */
  lemma NeutralPlans(db: Db, a: Action)
    requires Placed(db, a) && PlanOf(db, a).Ok? && OfStock(a)
    requires !a.PostReceipt? && !a.PostReturn? && !a.ShipTransfer? && !a.ReceiveTransfer?
    ensures AllNeutral(db.docs.config, PlanOf(db, a).value.ops)
  {
    var config := db.docs.config;
    match a
    case PostSale(env, doc) =>
      SaleRefusesSerials(config, env.lines);
      SaleNeutral(config, env, doc, 0);
    case ApproveCount(c, at) =>
      ApproveNeutral(config, db.inv.ledger, db.docs.counts[c], db.docs.counts[c].snapshots, |db.docs.adjustments|, at);
    case _ =>
  }

  lemma StockKeepsGaps(db: Db, a: Action)
    requires Placed(db, a) && Accepted(db, a) && OfStock(a)
    ensures SameGaps(db.docs.config, db.inv, Step(db, a).inv)
  {
    var config := db.docs.config;
    if a.PostReceipt? {
      ReceiptLinesKeep(Purchasing.OpenReceipt(db.docs, a.receiptPo, a.loc, a.at), db.inv,
                       Purchasing.Delivery(|db.docs.receipts|, a.loc, a.at), a.deliveries);
    } else if a.PostReturn? {
      ReturnsKeep(config, db.inv, db.docs.returnDocs, a.input, a.input.lines);
    } else if a.ShipTransfer? {
      LegKeeps(config, db.inv, Transfers.ShipLeg(db.docs, a.transfer, a.at), db.docs.transfers[a.transfer].lines);
    } else if a.ReceiveTransfer? {
      LegKeeps(config, db.inv, Transfers.ReceiveLeg(db.docs, a.transfer, a.at), db.docs.transfers[a.transfer].lines);
    } else {
      NeutralPlans(db, a);
      NeutralAllKeeps(config, db.inv, PlanOf(db, a).value.ops);
    }
  }

  lemma ConfigStays(db: Db, a: Action)
    ensures Step(db, a).docs.config == db.docs.config
    ensures OfStock(a) || a.SerialCall? ==> Step(db, a).docs.rmas == db.docs.rmas
  {
    if a.PostReceipt? && a.receiptPo < |db.docs.orders| {
      Purchasing.ReceiveLinesKeeps(Purchasing.OpenReceipt(db.docs, a.receiptPo, a.loc, a.at),
                                   Purchasing.Delivery(|db.docs.receipts|, a.loc, a.at), a.deliveries);
    }
  }

  lemma SameGapsAccount(db: Db, after: Db)
    requires Accounted(db) && SameGaps(db.docs.config, db.inv, after.inv)
    requires after.docs.rmas == db.docs.rmas && after.docs.config == db.docs.config
    ensures Accounted(after)
  {
    forall k: Key | IsSerialized(db.docs.config, k.sku) ensures AccountedAt(after, k) {
      assert AccountedAt(db, k) && Gap(after.inv, k) == Gap(db.inv, k);
    }
  }

  lemma CreateRmaAccounts(db: Db, holding: LocId, lines: seq<RmaLine>)
    requires Accounted(db) && Accepted(db, CreateRma(holding, lines))
    ensures Accounted(Step(db, CreateRma(holding, lines)))
  {
    forall k: Key | IsSerialized(db.docs.config, k.sku)
      ensures AccountedAt(Step(db, CreateRma(holding, lines)), k)
    {
      assert AccountedAt(db, k);
      SumOfConcat(db.docs.rmas, [Rma(RmaOpen, holding, lines, 0)], AwaitedQty(k));
    }
  }

  /** A lifecycle call on one serial keeps the account exactly when it does not change where a
      serial of a serialised sku is. */
  lemma CallAccountsExactly(db: Db, id: SerialId, call: Serials.Call)
    requires Accounted(db) && Accepted(db, SerialCall(id, call))
    ensures id in db.inv.serials
    ensures Accounted(Step(db, SerialCall(id, call))) <==> StaysPut(db.docs.config, db.inv.serials[id], call)
  {
    var config, after := db.docs.config, Step(db, SerialCall(id, call));
    assert [CallSerial(id, call)] == [CallSerial(id, call)] + [];
    HeadOp(db.inv, CallSerial(id, call), []);
    var row, row' := db.inv.serials[id], Serials.Apply(db.inv.serials[id], call).value;
    forall k: Key | IsSerialized(config, k.sku)
      ensures AccountedAt(after, k) <==> Here(row, k) == Here(row', k)
    {
      assert AccountedAt(db, k);
      CountAfter(db.inv.serials, id, row', k);
    }
    if !StaysPut(config, row, call) {
      var k := Key(row.sku, if row.location.Some? then row.location.value else row'.location.value);
      assert Here(row, k) != Here(row', k) && !AccountedAt(after, k);
    }
  }

  /** An approval keeps the account exactly when the count found no serialised pair to differ: an
      adjustment moves stock and no serial. */
  lemma ApprovalAccountsExactly(db: Db, c: nat, at: int)
    requires Accounted(db) && Reachable(db) && Accepted(db, ApproveCount(c, at))
    ensures Accounted(Step(db, ApproveCount(c, at)))
       <==> SerialsCounted(db.docs.config, db.inv.ledger, db.docs.counts[c])
  {
    if SerialsCounted(db.docs.config, db.inv.ledger, db.docs.counts[c]) {
      StockKeepsGaps(db, ApproveCount(c, at));
      SameGapsAccount(db, Step(db, ApproveCount(c, at)));
    } else {
      var config, session, after := db.docs.config, db.docs.counts[c], Step(db, ApproveCount(c, at));
      var i :| 0 <= i < |session.snapshots| && IsSerialized(config, session.snapshots[i].key.sku)
          && Counts.Variance(db.inv.ledger, session, session.snapshots[i]) != 0;
      var k := session.snapshots[i].key;
      Reconciliation.CountReconciles(db, c, at, i);
      Reconciliation.ReachableSound(db);
      Reconciliation.VarianceCorrects(db.inv, session, i);
      var rows := Counts.Report(db.inv.ledger, session, session.snapshots);
      ApproveKeepsSerials(db.inv, rows, |db.docs.adjustments|, at);
      assert AccountedAt(db, k) && !AccountedAt(after, k);
    }
  }

  lemma {:induction false} ApproveKeepsSerials(inv: Inventory, rows: seq<Counts.VarianceRow>, doc: DocId, at: int)
    requires ExecAll(inv, Counts.ApproveOps(rows, doc, at)).Ok?
    ensures ExecAll(inv, Counts.ApproveOps(rows, doc, at)).value.serials == inv.serials
    decreases |rows|
  {
    if rows != [] {
      if rows[0].varianceQty == 0 {
        ApproveKeepsSerials(inv, rows[1..], doc, at);
      } else {
        var m := Counts.Adjust(rows[0], doc, at);
        HeadMoved(inv, m, Counts.ApproveOps(rows[1..], doc + 1, at));
        ApproveKeepsSerials(Post(inv, m, NextId(inv)).value, rows[1..], doc + 1, at);
      }
    }
  }

  lemma CallKeepsAccount(db: Db, a: Action)
    requires Accounted(db) && Placed(db, a) && Accepted(db, a)
    ensures Accounted(Step(db, a))
  {
    match a
    case CreateRma(holding, lines) => CreateRmaAccounts(db, holding, lines);
    case ShipRma(r, at) => ShipAccountsExactly(db, r, at);
    case CloseRma(r) => CloseAccountsExactly(db, r);
    case SerialCall(id, call) => CallAccountsExactly(db, id, call);
    case _ =>
      StockKeepsGaps(db, a);
      ConfigStays(db, a);
      SameGapsAccount(db, Step(db, a));
  }

  // ---------- runs keep it ----------

  /** The event finds the serials it moves where its document says. */
  predicate EventPlaced(db: Db, e: Event) {
    match e
    case Call(a) => Placed(db, a)
    case SellSerial(k, _, id, _) => id in db.inv.serials ==> Here(db.inv.serials[id], k)
  }

  predicate RunPlaced(db: Db, events: seq<Event>)
    decreases |events|
  {
    events == [] || (EventPlaced(db, events[0]) && RunPlaced(Next(db, events[0]), events[1..]))
  }

  lemma SaleKeeps(config: Config, inv: Inventory, k: Key, doc: DocId, id: SerialId, at: int)
    requires id in inv.serials && Here(inv.serials[id], k)
    requires Post(inv, SaleOfSerial(k, doc, id, at), NextId(inv)).Ok?
    ensures SameGaps(config, inv, Post(inv, SaleOfSerial(k, doc, id, at), NextId(inv)).value)
  {
    var m := SaleOfSerial(k, doc, id, at);
    forall p: Key | IsSerialized(config, p.sku) ensures Gap(Post(inv, m, NextId(inv)).value, p) == Gap(inv, p) {
      PostOnHand(inv, m, p);
      CountAfter(inv.serials, id, Depart(inv.serials[id], m), p);
    }
  }

  lemma EventKeepsAccount(db: Db, e: Event)
    requires Accounted(db) && EventPlaced(db, e)
    ensures Next(db, e).docs.config == db.docs.config && Accounted(Next(db, e))
  {
    match e
    case Call(a) =>
      ConfigStays(db, a);
      assert Next(db, e) == Step(db, a);
      if Accepted(db, a) {
        CallKeepsAccount(db, a);
      }
    case SellSerial(k, doc, id, at) =>
      var m := SaleOfSerial(k, doc, id, at);
      assert [Move(m)] == [Move(m)] + [];
      HeadMoved(db.inv, m, []);
      if Goes(db, e) {
        SaleKeeps(db.docs.config, db.inv, k, doc, id, at);
        SameGapsAccount(db, Next(db, e));
      }
  }

  lemma {:induction false} RunKeepsAccount(db: Db, events: seq<Event>)
    requires Accounted(db) && RunPlaced(db, events)
    ensures RunEvents(db, events).docs.config == db.docs.config && Accounted(RunEvents(db, events))
    decreases |events|
  {
    if events != [] {
      EventKeepsAccount(db, events[0]);
      RunKeepsAccount(Next(db, events[0]), events[1..]);
    }
  }

  /** In every run of receipts, transfers, sales and returns of serials, RMAs that ship and close
      them, counts, and everything else, in which each call finds its serials where its document
      says: the stock of a serialised sku at a location, with what shipped and unclosed RMAs took
      from there, is the number of its serials there. */
  lemma SerialCardinality(config: Config, draws: seq<int>, events: seq<Event>, k: Key)
    requires IsSerialized(config, k.sku) && RunPlaced(EmptyDb(config, draws), events)
    ensures var db := RunEvents(EmptyDb(config, draws), events);
            OnHand(db.inv, k) + Awaiting(db.docs, k) == |SerialsAt(db.inv.serials, k)| * UNIT
  {
    var start := EmptyDb(config, draws);
    forall other: Key | IsSerialized(config, other.sku) ensures AccountedAt(start, other) {
      assert SerialsAt(start.inv.serials, other) == {};
    }
    RunKeepsAccount(start, events);
    assert AccountedAt(RunEvents(start, events), k);
  }
}
