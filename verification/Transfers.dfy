/** Transfers: draft, shipped, received, with every shipped line parked at the virtual in-transit
    location until it is received. */
module Transfers {
  import opened Tables
  import opened Ledger
  import opened Database
  import opened LedgerWriter

  // ---------- create_transfer ----------

  /** The first line that cannot be inserted, in the order the lines are tried. */
  function LinesError(docs: Docs, serials: map<SerialId, Serial>, lines: seq<TransferLine>): Option<Error> {
    if lines == [] then None
    else
      var first := LineError(docs, serials, lines[0]);
      if first.Some? then first else LinesError(docs, serials, lines[1..])
  }

  function LineError(docs: Docs, serials: map<SerialId, Serial>, line: TransferLine): Option<Error> {
    if line.qty <= 0 then Some(ValidationFailed)
    else if line.sku !in docs.config.skus then Some(IntegrityError)
    else if line.serials != [] && |line.serials| * UNIT != line.qty then Some(ValidationFailed)
    else if !SerialsInsertable(serials, line.serials) then Some(IntegrityError)
    else None
  }

  /** The foreign key and the unique constraint of the transfer_serial rows of a line. */
  predicate SerialsInsertable(serials: map<SerialId, Serial>, ids: seq<SerialId>) {
    && (forall i :: 0 <= i < |ids| ==> ids[i] in serials)
    && (forall i, j :: 0 <= i < j < |ids| ==> ids[i] != ids[j])
  }

  function PlanCreate(db: Db, source: LocId, destination: LocId, lines: seq<TransferLine>): Outcome<Plan> {
    if lines == [] || source == destination then Raise(ValidationFailed)
    else
      var error := LinesError(db.docs, db.inv.serials, lines);
      if error.Some? then Raise(error.value)
      else
        var t := Transfer(TransferDraft, source, destination, lines);
        Ok(Plan([], db.docs.(transfers := db.docs.transfers + [t])))
  }

  // ---------- ship and receive ----------

  /** One half of a transfer: everything moves from one location to another. */
  datatype Leg = Leg(kind: SourceKind, from: LocId, to: LocId, doc: DocId, at: int, stateAfter: SerialState)

  function SerialOps(leg: Leg, sku: SkuId, ids: seq<SerialId>): seq<Op> {
    if ids == [] then []
    else
      [Move(OfSerial(Key(sku, leg.from), -UNIT, leg.kind, leg.doc, ids[0], None, leg.at, None)),
       Move(OfSerial(Key(sku, leg.to), UNIT, leg.kind, leg.doc, ids[0], None, leg.at, Some(leg.stateAfter)))]
      + SerialOps(leg, sku, ids[1..])
  }

  function LineOps(leg: Leg, line: TransferLine): seq<Op> {
    if line.serials != [] then SerialOps(leg, line.sku, line.serials)
    else
      [Move(Loose(Key(line.sku, leg.from), -line.qty, leg.kind, leg.doc, None, leg.at)),
       Move(Loose(Key(line.sku, leg.to), line.qty, leg.kind, leg.doc, Some(0), leg.at))]
  }

  function LinesOps(leg: Leg, lines: seq<TransferLine>): seq<Op> {
    if lines == [] then [] else LineOps(leg, lines[0]) + LinesOps(leg, lines[1..])
  }

  function ShipLeg(docs: Docs, t: nat, at: int): Leg
    requires t < |docs.transfers|
  {
    Leg(TransferShip, docs.transfers[t].source, docs.config.transit, t, at, InTransit)
  }

  function ReceiveLeg(docs: Docs, t: nat, at: int): Leg
    requires t < |docs.transfers|
  {
    Leg(TransferReceive, docs.config.transit, docs.transfers[t].destination, t, at, Sellable)
  }

  function Advance(docs: Docs, t: nat, state: TransferState): Docs
    requires t < |docs.transfers|
  {
    docs.(transfers := docs.transfers[t := docs.transfers[t].(state := state)])
  }

  function PlanShip(docs: Docs, t: nat, at: int): Outcome<Plan> {
    if t >= |docs.transfers| then Raise(NotFound)
    else if docs.transfers[t].state != TransferDraft then Raise(BusinessRuleConflict)
    else Ok(Plan(LinesOps(ShipLeg(docs, t, at), docs.transfers[t].lines), Advance(docs, t, TransferShipped)))
  }

  function PlanReceive(docs: Docs, t: nat, at: int): Outcome<Plan> {
    if t >= |docs.transfers| then Raise(NotFound)
    else if docs.transfers[t].state != TransferShipped then Raise(BusinessRuleConflict)
    else Ok(Plan(LinesOps(ReceiveLeg(docs, t, at), docs.transfers[t].lines), Advance(docs, t, TransferReceived)))
  }

  // ---------- the service methods ----------

  /** Moves one serial, or one loose quantity, out of one location and into another. */
  method MovePair(sess: Session, out: Movement, into: Movement) returns (r: Outcome<int>)
    modifies sess`balances, sess`layers, sess`serials, sess`ledger
    ensures match ExecAll(old(sess.Inv()), [Move(out), Move(into)])
            case Ok(inv') => r.Ok? && sess.Inv() == inv'
            case Raise(e) => r == Raise(e)
  {
    ghost var inv := sess.Inv();
    HeadMoved(inv, out, [Move(into)]);
    assert [Move(out)] + [Move(into)] == [Move(out), Move(into)];
    r := PostMovement(sess, out);
    if r.Raise? {
      return;
    }
    HeadMoved(sess.Inv(), into, []);
    r := PostMovement(sess, into);
  }

  method MoveLine(sess: Session, leg: Leg, line: TransferLine) returns (r: Outcome<int>)
    modifies sess`balances, sess`layers, sess`serials, sess`ledger
    ensures match ExecAll(old(sess.Inv()), LineOps(leg, line))
            case Ok(inv') => r.Ok? && sess.Inv() == inv'
            case Raise(e) => r == Raise(e)
  {
    r := Ok(0);
    if line.serials != [] {
      var i := 0;
      while i < |line.serials|
        invariant 0 <= i <= |line.serials| && r.Ok?
        invariant ExecAll(old(sess.Inv()), SerialOps(leg, line.sku, line.serials))
               == ExecAll(sess.Inv(), SerialOps(leg, line.sku, line.serials[i..]))
      {
        var id := line.serials[i];
        var out := OfSerial(Key(line.sku, leg.from), -UNIT, leg.kind, leg.doc, id, None, leg.at, None);
        var into := OfSerial(Key(line.sku, leg.to), UNIT, leg.kind, leg.doc, id, None, leg.at, Some(leg.stateAfter));
        assert line.serials[i..][1..] == line.serials[i + 1..];
        ExecAllConcat(sess.Inv(), [Move(out), Move(into)], SerialOps(leg, line.sku, line.serials[i + 1..]));
        r := MovePair(sess, out, into);
        if r.Raise? {
          return;
        }
        i := i + 1;
      }
    } else {
      r := MovePair(sess, Loose(Key(line.sku, leg.from), -line.qty, leg.kind, leg.doc, None, leg.at),
                    Loose(Key(line.sku, leg.to), line.qty, leg.kind, leg.doc, Some(0), leg.at));
    }
  }

  method MoveLines(sess: Session, leg: Leg, lines: seq<TransferLine>) returns (r: Outcome<int>)
    modifies sess`balances, sess`layers, sess`serials, sess`ledger
    ensures match ExecAll(old(sess.Inv()), LinesOps(leg, lines))
            case Ok(inv') => r.Ok? && sess.Inv() == inv'
            case Raise(e) => r == Raise(e)
  {
    r := Ok(0);
    var i := 0;
    while i < |lines|
      invariant 0 <= i <= |lines| && r.Ok?
      invariant ExecAll(old(sess.Inv()), LinesOps(leg, lines)) == ExecAll(sess.Inv(), LinesOps(leg, lines[i..]))
    {
      assert lines[i..][1..] == lines[i + 1..];
      ExecAllConcat(sess.Inv(), LineOps(leg, lines[i]), LinesOps(leg, lines[i + 1..]));
      r := MoveLine(sess, leg, lines[i]);
      if r.Raise? {
        return;
      }
      i := i + 1;
    }
  }

  method CreateTransfer(sess: Session, source: LocId, destination: LocId, lines: seq<TransferLine>)
    returns (r: Outcome<nat>)
    modifies sess`docs
    ensures var after := Transact(old(sess.State()), PlanCreate(old(sess.State()), source, destination, lines));
            && sess.State() == Committed(old(sess.State()), after)
            && r == (if after.Ok? then Ok(|old(sess.docs).transfers|) else Raise(after.error))
  {
    if lines == [] || source == destination {
      return Raise(ValidationFailed);
    }
    var i := 0;
    while i < |lines|
      invariant 0 <= i <= |lines|
      invariant LinesError(sess.docs, sess.serials, lines) == LinesError(sess.docs, sess.serials, lines[i..])
    {
      assert lines[i..][1..] == lines[i + 1..];
      var error := LineError(sess.docs, sess.serials, lines[i]);
      if error.Some? {
        return Raise(error.value);
      }
      i := i + 1;
    }
    var t := |sess.docs.transfers|;
    sess.docs := sess.docs.(transfers := sess.docs.transfers + [Transfer(TransferDraft, source, destination, lines)]);
    return Ok(t);
  }

  method Ship(sess: Session, t: nat, at: int) returns (r: Outcome<TransferState>)
    modifies sess
    ensures var after := Transact(old(sess.State()), PlanShip(old(sess.docs), t, at));
            && sess.State() == Committed(old(sess.State()), after)
            && r == (if after.Ok? then Ok(TransferShipped) else Raise(after.error))
  {
    if t >= |sess.docs.transfers| {
      return Raise(NotFound);
    }
    if sess.docs.transfers[t].state != TransferDraft {
      return Raise(BusinessRuleConflict);
    }
    var saved := sess.State();
    var moved := MoveLines(sess, ShipLeg(sess.docs, t, at), sess.docs.transfers[t].lines);
    if moved.Raise? {
      sess.Rollback(saved);
      return Raise(moved.error);
    }
    sess.docs := Advance(sess.docs, t, TransferShipped);
    return Ok(TransferShipped);
  }

  method Receive(sess: Session, t: nat, at: int) returns (r: Outcome<TransferState>)
    modifies sess
    ensures var after := Transact(old(sess.State()), PlanReceive(old(sess.docs), t, at));
            && sess.State() == Committed(old(sess.State()), after)
            && r == (if after.Ok? then Ok(TransferReceived) else Raise(after.error))
  {
    if t >= |sess.docs.transfers| {
      return Raise(NotFound);
    }
    if sess.docs.transfers[t].state != TransferShipped {
      return Raise(BusinessRuleConflict);
    }
    var saved := sess.State();
    var moved := MoveLines(sess, ReceiveLeg(sess.docs, t, at), sess.docs.transfers[t].lines);
    if moved.Raise? {
      sess.Rollback(saved);
      return Raise(moved.error);
    }
    sess.docs := Advance(sess.docs, t, TransferReceived);
    return Ok(TransferReceived);
  }
}
