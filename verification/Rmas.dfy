/** Vendor RMAs: open, shipped, closed. */
module Rmas {
  import opened Tables
  import opened Ledger
  import opened Database
  import opened LedgerWriter
  import Serials
  import SerialService

  /** The sku of a line is a foreign key; its serial is not. */
  function LinesError(config: Config, lines: seq<RmaLine>): Option<Error> {
    if lines == [] then None
    else if lines[0].qty <= 0 then Some(ValidationFailed)
    else if lines[0].sku !in config.skus then Some(IntegrityError)
    else LinesError(config, lines[1..])
  }

  function PlanCreate(docs: Docs, holding: LocId, lines: seq<RmaLine>): Outcome<Plan> {
    if lines == [] then Raise(ValidationFailed)
    else
      var error := LinesError(docs.config, lines);
      if error.Some? then Raise(error.value)
      else Ok(Plan([], docs.(rmas := docs.rmas + [Rma(RmaOpen, holding, lines, 0)])))
  }

  /** The state after is not given, so the serial keeps its state and its location. */
  function Outbound(doc: DocId, holding: LocId, at: int, line: RmaLine): Movement {
    Movement(Key(line.sku, holding), -line.qty, RmaShip, doc, line.serial, None, None, at, None)
  }

  function ShipOps(doc: DocId, holding: LocId, at: int, lines: seq<RmaLine>): seq<Op> {
    if lines == [] then [] else [Move(Outbound(doc, holding, at, lines[0]))] + ShipOps(doc, holding, at, lines[1..])
  }

  function PlanShip(docs: Docs, r: nat, at: int): Outcome<Plan> {
    if r >= |docs.rmas| then Raise(NotFound)
    else if docs.rmas[r].state != RmaOpen then Raise(BusinessRuleConflict)
    else
      var rma := docs.rmas[r];
      Ok(Plan(ShipOps(r, rma.holding, at, rma.lines), docs.(rmas := docs.rmas[r := rma.(state := RmaShipped)])))
  }

  function LineCredit(serials: map<SerialId, Serial>, line: RmaLine): int {
    (if line.serial.Some? && line.serial.value in serials then serials[line.serial.value].unitCost
     else line.unitCost) * line.qty
  }

  /** The credit is the stored cost of each serial, and the stated cost of loose stock. */
  function Credit(serials: map<SerialId, Serial>, lines: seq<RmaLine>): int {
    if lines == [] then 0 else LineCredit(serials, lines[0]) + Credit(serials, lines[1..])
  }

  function CloseLineOps(line: RmaLine): seq<Op> {
    if line.serial.Some? then [CallSerial(line.serial.value, Serials.MarkRmaClosed)] else []
  }

  function CloseOps(lines: seq<RmaLine>): seq<Op> {
    if lines == [] then [] else CloseLineOps(lines[0]) + CloseOps(lines[1..])
  }

  function PlanClose(db: Db, r: nat): Outcome<Plan> {
    if r >= |db.docs.rmas| then Raise(NotFound)
    else if db.docs.rmas[r].state != RmaShipped then Raise(BusinessRuleConflict)
    else
      var rma := db.docs.rmas[r];
      var closed := rma.(state := RmaDone, credit := Credit(db.inv.serials, rma.lines));
      Ok(Plan(CloseOps(rma.lines), db.docs.(rmas := db.docs.rmas[r := closed])))
  }

  // ---------- the service methods ----------

  method CreateRma(sess: Session, holding: LocId, lines: seq<RmaLine>) returns (r: Outcome<nat>)
    modifies sess`docs
    ensures var after := Transact(old(sess.State()), PlanCreate(old(sess.docs), holding, lines));
            && sess.State() == Committed(old(sess.State()), after)
            && r == (if after.Ok? then Ok(|old(sess.docs).rmas|) else Raise(after.error))
  {
    if lines == [] {
      return Raise(ValidationFailed);
    }
    var i := 0;
    while i < |lines|
      invariant 0 <= i <= |lines|
      invariant LinesError(sess.docs.config, lines) == LinesError(sess.docs.config, lines[i..])
    {
      assert lines[i..][1..] == lines[i + 1..];
      if lines[i].qty <= 0 {
        return Raise(ValidationFailed);
      }
      if lines[i].sku !in sess.docs.config.skus {
        return Raise(IntegrityError);
      }
      i := i + 1;
    }
    var id := |sess.docs.rmas|;
    sess.docs := sess.docs.(rmas := sess.docs.rmas + [Rma(RmaOpen, holding, lines, 0)]);
    return Ok(id);
  }

  method PostOutbound(sess: Session, doc: DocId, holding: LocId, at: int, lines: seq<RmaLine>) returns (r: Outcome<int>)
    modifies sess`balances, sess`layers, sess`serials, sess`ledger
    ensures match ExecAll(old(sess.Inv()), ShipOps(doc, holding, at, lines))
            case Ok(inv') => r.Ok? && sess.Inv() == inv'
            case Raise(e) => r == Raise(e)
  {
    r := Ok(0);
    ghost var result := ExecAll(sess.Inv(), ShipOps(doc, holding, at, lines));
    var i := 0;
    assert lines[0..] == lines;
    while i < |lines|
      invariant 0 <= i <= |lines| && r.Ok?
      invariant result == ExecAll(sess.Inv(), ShipOps(doc, holding, at, lines[i..]))
    {
      assert lines[i..][1..] == lines[i + 1..];
      HeadMoved(sess.Inv(), Outbound(doc, holding, at, lines[i]), ShipOps(doc, holding, at, lines[i + 1..]));
      r := PostMovement(sess, Outbound(doc, holding, at, lines[i]));
      if r.Raise? {
        return;
      }
      i := i + 1;
    }
  }

  method ShipRma(sess: Session, r: nat, at: int) returns (o: Outcome<RmaState>)
    modifies sess
    ensures var after := Transact(old(sess.State()), PlanShip(old(sess.docs), r, at));
            && sess.State() == Committed(old(sess.State()), after)
            && o == (if after.Ok? then Ok(RmaShipped) else Raise(after.error))
  {
    if r >= |sess.docs.rmas| {
      return Raise(NotFound);
    }
    var rma := sess.docs.rmas[r];
    if rma.state != RmaOpen {
      return Raise(BusinessRuleConflict);
    }
    var saved := sess.State();
    var posted := PostOutbound(sess, r, rma.holding, at, rma.lines);
    if posted.Raise? {
      sess.Rollback(saved);
      return Raise(posted.error);
    }
    sess.docs := sess.docs.(rmas := sess.docs.rmas[r := rma.(state := RmaShipped)]);
    return Ok(RmaShipped);
  }

  /** Closing a serial does not touch any unit cost, so the credit can be read off as it goes. */
  lemma {:induction false} CreditKept(inv: Inventory, line: RmaLine, lines: seq<RmaLine>)
    requires ExecAll(inv, CloseLineOps(line)).Ok?
    ensures Credit(ExecAll(inv, CloseLineOps(line)).value.serials, lines) == Credit(inv.serials, lines)
  {
    if line.serial.Some? {
      HeadOp(inv, CallSerial(line.serial.value, Serials.MarkRmaClosed), []);
      assert CloseLineOps(line) == [CallSerial(line.serial.value, Serials.MarkRmaClosed)] + [];
    }
    if lines != [] {
      CreditKept(inv, line, lines[1..]);
    }
  }

  /** The credit of one line; its serial is closed. */
  method CloseLine(sess: Session, line: RmaLine) returns (o: Outcome<int>)
    modifies sess`serials
    ensures match ExecAll(old(sess.Inv()), CloseLineOps(line))
            case Ok(inv') => o == Ok(LineCredit(old(sess.serials), line)) && sess.Inv() == inv'
            case Raise(e) => o == Raise(e)
  {
    var cost := line.unitCost;
    if line.serial.Some? {
      var id := line.serial.value;
      if id in sess.serials {
        cost := sess.serials[id].unitCost;
      }
      HeadOp(sess.Inv(), CallSerial(id, Serials.MarkRmaClosed), []);
      assert CloseLineOps(line) == [CallSerial(id, Serials.MarkRmaClosed)] + [];
      var closed := SerialService.MarkRmaClosed(sess, id);
      if closed.Raise? {
        return Raise(closed.error);
      }
    }
    return Ok(cost * line.qty);
  }

  /** Returns the credit total. */
  method CloseRma(sess: Session, r: nat) returns (o: Outcome<int>)
    modifies sess
    ensures var after := Transact(old(sess.State()), PlanClose(old(sess.State()), r));
            && sess.State() == Committed(old(sess.State()), after)
            && o == (if after.Ok? then Ok(Credit(old(sess.serials), old(sess.docs).rmas[r].lines))
                     else Raise(after.error))
  {
    if r >= |sess.docs.rmas| {
      return Raise(NotFound);
    }
    var rma := sess.docs.rmas[r];
    if rma.state != RmaShipped {
      return Raise(BusinessRuleConflict);
    }
    var saved := sess.State();
    ghost var result := ExecAll(sess.Inv(), CloseOps(rma.lines));
    var credit := 0;
    var i := 0;
    assert rma.lines[0..] == rma.lines;
    while i < |rma.lines|
      invariant 0 <= i <= |rma.lines|
      invariant sess.docs == saved.docs
      invariant result == ExecAll(sess.Inv(), CloseOps(rma.lines[i..]))
      invariant Credit(saved.inv.serials, rma.lines) == credit + Credit(sess.serials, rma.lines[i..])
    {
      ghost var inv := sess.Inv();
      assert rma.lines[i..][1..] == rma.lines[i + 1..];
      ExecAllConcat(inv, CloseLineOps(rma.lines[i]), CloseOps(rma.lines[i + 1..]));
      var closed := CloseLine(sess, rma.lines[i]);
      if closed.Raise? {
        sess.Rollback(saved);
        return Raise(closed.error);
      }
      CreditKept(inv, rma.lines[i], rma.lines[i + 1..]);
      credit := credit + closed.value;
      i := i + 1;
    }
    sess.docs := sess.docs.(rmas := sess.docs.rmas[r := rma.(state := RmaDone, credit := credit)]);
    return Ok(credit);
  }
}
