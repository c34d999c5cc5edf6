/** Purchase orders: creation, the state machine, and receiving. */
module Purchasing {
  import opened Tables
  import opened Ledger
  import opened Database
  import opened LedgerWriter

  // ---------- create_po ----------

  datatype PoLineInput = PoLineInput(sku: SkuId, ordered: int, unitCost: int)

  /** The request schema asks for a positive quantity and a non-negative cost; the sku of a line
      is a foreign key. */
  function OrderError(config: Config, lines: seq<PoLineInput>): Option<Error> {
    if exists i :: 0 <= i < |lines| && (lines[i].ordered <= 0 || lines[i].unitCost < 0) then Some(ValidationFailed)
    else if exists i :: 0 <= i < |lines| && lines[i].sku !in config.skus then Some(IntegrityError)
    else None
  }

  function NewLines(po: nat, lines: seq<PoLineInput>): (r: seq<PoLine>)
    ensures |r| == |lines|
  {
    seq(|lines|, i requires 0 <= i < |lines| =>
      PoLine(po, lines[i].sku, lines[i].ordered, 0, lines[i].ordered, lines[i].unitCost))
  }

  function PlanCreate(docs: Docs, lines: seq<PoLineInput>): Outcome<Plan> {
    var error := OrderError(docs.config, lines);
    if error.Some? then Raise(error.value)
    else
      Ok(Plan([], docs.(orders := docs.orders + [Draft], poLines := docs.poLines + NewLines(|docs.orders|, lines))))
  }

  // ---------- the state machine ----------

  function Transitions(s: PoState): set<PoState> {
    match s
    case Draft => {Submitted, Cancelled}
    case Submitted => {Approved, Cancelled}
    case Approved => {Sent, Cancelled}
    case Sent => {Receiving, Cancelled}
    case Receiving => {Closed}
    case Closed => {}
    case Cancelled => {}
  }

  function PlanTransition(docs: Docs, po: nat, to: PoState): Outcome<Plan> {
    if po >= |docs.orders| then Raise(NotFound)
    else if to !in Transitions(docs.orders[po]) then Raise(BusinessRuleConflict)
    else Ok(Plan([], docs.(orders := docs.orders[po := to])))
  }

  // ---------- post_receipt ----------

  datatype ReceiptInput = ReceiptInput(poLine: nat, qty: int, serials: seq<SerialId>, lotCode: string)

  function Max(a: int, b: int): int {
    if a > b then a else b
  }

  function Tolerance(config: Config, sku: SkuId): int
    requires sku in config.skus
  {
    config.skus[sku].tolerancePct.GetOr(config.defaultTolerancePct)
  }

  /** The checks made on a line before anything is posted for it, in order. */
  function ReceiptError(docs: Docs, line: ReceiptInput): Option<Error> {
    if line.qty <= 0 then Some(ValidationFailed)
    else if line.poLine >= |docs.poLines| || docs.poLines[line.poLine].sku !in docs.config.skus then Some(NotFound)
    else
      var po := docs.poLines[line.poLine];
      var tracking := docs.config.skus[po.sku].tracking;
      if (po.received + line.qty) * 100 > po.ordered * (100 + Tolerance(docs.config, po.sku))
        then Some(BusinessRuleConflict)
      else if tracking == Serialized && |line.serials| != line.qty / UNIT then Some(ValidationFailed)
      else if tracking == Serialized && exists i, j :: 0 <= i < j < |line.serials| && line.serials[i] == line.serials[j]
      then Some(ValidationFailed)
      else if tracking == LotTracked && line.lotCode == "" then Some(ValidationFailed)
      else None
  }

  /** The delivery a receipt line belongs to. */
  datatype Delivery = Delivery(receipt: nat, loc: LocId, at: int)

  function NewSerialOps(d: Delivery, sku: SkuId, unitCost: int, ids: seq<SerialId>): seq<Op> {
    if ids == [] then []
    else
      [NewSerial(ids[0], Serial(sku, Received, Some(d.loc), unitCost)),
       Move(OfSerial(Key(sku, d.loc), UNIT, PoReceipt, d.receipt, ids[0], Some(unitCost), d.at, Some(Sellable)))]
      + NewSerialOps(d, sku, unitCost, ids[1..])
  }

  function PostLineOps(docs: Docs, d: Delivery, line: ReceiptInput): seq<Op>
    requires line.poLine < |docs.poLines|
  {
    var po := docs.poLines[line.poLine];
    if IsSerialized(docs.config, po.sku) then
      [AssertUnknown(line.serials)] + NewSerialOps(d, po.sku, po.unitCost, line.serials)
    else
      [Move(Loose(Key(po.sku, d.loc), line.qty, PoReceipt, d.receipt, Some(po.unitCost), d.at))]
  }

  function LineOps(docs: Docs, d: Delivery, line: ReceiptInput): seq<Op> {
    var error := ReceiptError(docs, line);
    if error.Some? then [Fail(error.value)] else PostLineOps(docs, d, line)
  }

  function Receive(po: PoLine, qty: int): PoLine {
    var total := po.received + qty;
    po.(received := total, backordered := Max(0, po.ordered - total))
  }

  /** The document tables after one receipt line. */
  function AfterLine(docs: Docs, d: Delivery, line: ReceiptInput): Docs {
    if ReceiptError(docs, line).Some? then docs
    else
      var po := docs.poLines[line.poLine];
      var posted := if IsSerialized(docs.config, po.sku) then line.serials else [];
      var row := ReceiptLine(d.receipt, line.poLine, po.sku, line.qty, Max(0, po.received + line.qty - po.ordered),
                             posted);
      docs.(poLines := docs.poLines[line.poLine := Receive(po, line.qty)], receiptLines := docs.receiptLines + [row])
  }

  /** Whether the line leaves its PO line short at the moment it is posted. */
  predicate LeavesShort(docs: Docs, line: ReceiptInput) {
    ReceiptError(docs, line).None? && docs.poLines[line.poLine].received + line.qty < docs.poLines[line.poLine].ordered
  }

  datatype Delivered = Delivered(ops: seq<Op>, docs: Docs, allComplete: bool)

  function ReceiveLines(docs: Docs, d: Delivery, lines: seq<ReceiptInput>): Delivered
    decreases |lines|
  {
    if lines == [] then Delivered([], docs, true)
    else
      var rest := ReceiveLines(AfterLine(docs, d, lines[0]), d, lines[1..]);
      Delivered(LineOps(docs, d, lines[0]) + rest.ops, rest.docs, !LeavesShort(docs, lines[0]) && rest.allComplete)
  }

  /** Whether no line of the order is backordered. */
  predicate NoneOutstanding(docs: Docs, po: nat) {
    forall i :: 0 <= i < |docs.poLines| && docs.poLines[i].po == po ==> docs.poLines[i].backordered <= 0
  }

  predicate Receivable(s: PoState) {
    s in {Approved, Sent, Receiving}
  }

  /** The order moves into receiving and gets a receipt row before its lines are looked at. */
  function OpenReceipt(docs: Docs, po: nat, loc: LocId, at: int): Docs
    requires po < |docs.orders|
  {
    docs.(orders := docs.orders[po := Receiving], receipts := docs.receipts + [Receipt(po, loc, at)])
  }

  function CloseIfComplete(r: Delivered, po: nat): Docs
    requires po < |r.docs.orders|
  {
    if r.allComplete && NoneOutstanding(r.docs, po) then r.docs.(orders := r.docs.orders[po := Closed]) else r.docs
  }

  lemma {:induction false} ReceiveLinesKeeps(docs: Docs, d: Delivery, lines: seq<ReceiptInput>)
    ensures var after := ReceiveLines(docs, d, lines).docs;
            after == docs.(poLines := after.poLines, receiptLines := after.receiptLines)
    decreases |lines|
  {
    if lines != [] {
      ReceiveLinesKeeps(AfterLine(docs, d, lines[0]), d, lines[1..]);
    }
  }

  function PlanReceipt(docs: Docs, po: nat, loc: LocId, at: int, lines: seq<ReceiptInput>): Outcome<Plan> {
    if po >= |docs.orders| then Raise(NotFound)
    else if !Receivable(docs.orders[po]) then Raise(BusinessRuleConflict)
    else
      var begun := OpenReceipt(docs, po, loc, at);
      var r := ReceiveLines(begun, Delivery(|docs.receipts|, loc, at), lines);
      ReceiveLinesKeeps(begun, Delivery(|docs.receipts|, loc, at), lines);
      Ok(Plan(r.ops, CloseIfComplete(r, po)))
  }

  // ---------- the service methods ----------

  method CreatePo(sess: Session, lines: seq<PoLineInput>) returns (r: Outcome<nat>)
    modifies sess`docs
    ensures var after := Transact(old(sess.State()), PlanCreate(old(sess.docs), lines));
            && sess.State() == Committed(old(sess.State()), after)
            && r == (if after.Ok? then Ok(|old(sess.docs).orders|) else Raise(after.error))
  {
    var error := OrderError(sess.docs.config, lines);
    if error.Some? {
      return Raise(error.value);
    }
    var po := |sess.docs.orders|;
    var rows := sess.docs.poLines;
    var i := 0;
    while i < |lines|
      invariant 0 <= i <= |lines|
      invariant rows == sess.docs.poLines + NewLines(po, lines)[..i]
    {
      rows := rows + [PoLine(po, lines[i].sku, lines[i].ordered, 0, lines[i].ordered, lines[i].unitCost)];
      i := i + 1;
    }
    assert NewLines(po, lines)[..i] == NewLines(po, lines);
    sess.docs := sess.docs.(orders := sess.docs.orders + [Draft], poLines := rows);
    return Ok(po);
  }

  method Transition(sess: Session, po: nat, to: PoState) returns (r: Outcome<PoState>)
    modifies sess`docs
    ensures var after := Transact(old(sess.State()), PlanTransition(old(sess.docs), po, to));
            && sess.State() == Committed(old(sess.State()), after)
            && r == (if after.Ok? then Ok(to) else Raise(after.error))
  {
    if po >= |sess.docs.orders| {
      return Raise(NotFound);
    }
    if to !in Transitions(sess.docs.orders[po]) {
      return Raise(BusinessRuleConflict);
    }
    sess.docs := sess.docs.(orders := sess.docs.orders[po := to]);
    return Ok(to);
  }

  /** One serial row and its movement per serial value. */
  method PostSerials(sess: Session, d: Delivery, sku: SkuId, unitCost: int, ids: seq<SerialId>)
    returns (r: Outcome<int>)
    modifies sess`balances, sess`layers, sess`serials, sess`ledger
    ensures match ExecAll(old(sess.Inv()), NewSerialOps(d, sku, unitCost, ids))
            case Ok(inv') => r.Ok? && sess.Inv() == inv'
            case Raise(e) => r == Raise(e)
  {
    r := Ok(0);
    var i := 0;
    ghost var result := ExecAll(sess.Inv(), NewSerialOps(d, sku, unitCost, ids));
    assert ids[0..] == ids;
    while i < |ids|
      invariant 0 <= i <= |ids| && r.Ok?
      invariant result == ExecAll(sess.Inv(), NewSerialOps(d, sku, unitCost, ids[i..]))
    {
      var row := Serial(sku, Received, Some(d.loc), unitCost);
      var m := OfSerial(Key(sku, d.loc), UNIT, PoReceipt, d.receipt, ids[i], Some(unitCost), d.at, Some(Sellable));
      assert ids[i..][1..] == ids[i + 1..];
      SerialHead(sess.Inv(), ids[i], row, m, NewSerialOps(d, sku, unitCost, ids[i + 1..]));
      if ids[i] in sess.serials {
        return Raise(IntegrityError);
      }
      sess.serials := sess.serials[ids[i] := row];
      r := PostMovement(sess, m);
      if r.Raise? {
        return;
      }
      i := i + 1;
    }
  }

  lemma SerialHead(inv: Inventory, id: SerialId, row: Serial, m: Movement, tail: seq<Op>)
    ensures var inserted := inv.(serials := inv.serials[id := row]);
            ExecAll(inv, [NewSerial(id, row), Move(m)] + tail) ==
              if id in inv.serials then Raise(IntegrityError)
              else (var next := Post(inserted, m, NextId(inserted)); if next.Ok? then ExecAll(next.value, tail)
                    else next)
  {
    assert ([NewSerial(id, row), Move(m)] + tail)[1..] == [Move(m)] + tail;
    HeadMoved(inv.(serials := inv.serials[id := row]), m, tail);
  }

  method PostLine(sess: Session, d: Delivery, line: ReceiptInput) returns (r: Outcome<int>)
    requires line.poLine < |sess.docs.poLines|
    modifies sess`balances, sess`layers, sess`serials, sess`ledger
    ensures match ExecAll(old(sess.Inv()), PostLineOps(sess.docs, d, line))
            case Ok(inv') => r.Ok? && sess.Inv() == inv'
            case Raise(e) => r == Raise(e)
  {
    var po := sess.docs.poLines[line.poLine];
    if IsSerialized(sess.docs.config, po.sku) {
      var tail := NewSerialOps(d, po.sku, po.unitCost, line.serials);
      assert ([AssertUnknown(line.serials)] + tail)[1..] == tail;
      if exists i :: 0 <= i < |line.serials| && line.serials[i] in sess.serials {
        return Raise(BusinessRuleConflict);
      }
      r := PostSerials(sess, d, po.sku, po.unitCost, line.serials);
    } else {
      var m := Loose(Key(po.sku, d.loc), line.qty, PoReceipt, d.receipt, Some(po.unitCost), d.at);
      HeadMoved(sess.Inv(), m, []);
      assert [Move(m)] + [] == [Move(m)];
      r := PostMovement(sess, m);
    }
  }

  /** One line of a receipt: its checks, its movements, then the document rows. */
  method ReceiveLine(sess: Session, d: Delivery, line: ReceiptInput) returns (r: Outcome<int>)
    modifies sess
    ensures match ExecAll(old(sess.Inv()), LineOps(old(sess.docs), d, line))
            case Ok(inv') => r.Ok? && sess.State() == Db(inv', AfterLine(old(sess.docs), d, line))
            case Raise(e) => r == Raise(e)
  {
    var error := ReceiptError(sess.docs, line);
    if error.Some? {
      return Raise(error.value);
    }
    r := PostLine(sess, d, line);
    if r.Ok? {
      sess.docs := AfterLine(sess.docs, d, line);
    }
  }

  method PostReceipt(sess: Session, po: nat, loc: LocId, at: int, lines: seq<ReceiptInput>) returns (r: Outcome<nat>)
    modifies sess
    ensures var after := Transact(old(sess.State()), PlanReceipt(old(sess.docs), po, loc, at, lines));
            && sess.State() == Committed(old(sess.State()), after)
            && r == (if after.Ok? then Ok(|old(sess.docs).receipts|) else Raise(after.error))
  {
    if po >= |sess.docs.orders| {
      return Raise(NotFound);
    }
    if !Receivable(sess.docs.orders[po]) {
      return Raise(BusinessRuleConflict);
    }
    var saved := sess.State();
    var d := Delivery(|sess.docs.receipts|, loc, at);
    sess.docs := OpenReceipt(sess.docs, po, loc, at);
    ghost var plan := ReceiveLines(sess.docs, d, lines);
    ghost var result := ExecAll(sess.Inv(), plan.ops);
    ReceiveLinesKeeps(sess.docs, d, lines);
    var allComplete := true;
    var i := 0;
    assert lines[0..] == lines;
    while i < |lines|
      invariant 0 <= i <= |lines|
      invariant var rest := ReceiveLines(sess.docs, d, lines[i..]);
                && result == ExecAll(sess.Inv(), rest.ops)
                && plan.docs == rest.docs
                && plan.allComplete == (allComplete && rest.allComplete)
    {
      assert lines[i..][1..] == lines[i + 1..];
      ghost var rest := ReceiveLines(AfterLine(sess.docs, d, lines[i]), d, lines[i + 1..]);
      ExecAllConcat(sess.Inv(), LineOps(sess.docs, d, lines[i]), rest.ops);
      var short := LeavesShort(sess.docs, lines[i]);
      var received := ReceiveLine(sess, d, lines[i]);
      if received.Raise? {
        sess.Rollback(saved);
        return Raise(received.error);
      }
      allComplete := allComplete && !short;
      i := i + 1;
    }
    if allComplete && NoneOutstanding(sess.docs, po) {
      sess.docs := sess.docs.(orders := sess.docs.orders[po := Closed]);
    }
    return Ok(|saved.docs.receipts|);
  }
}
