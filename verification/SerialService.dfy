/** The serial lifecycle service on the serial table of a session: each call locks the row,
    checks its state and overwrites it. */
module SerialService {
  import opened Tables
  import opened Ledger
  import opened Database
  import Serials

  /** `_set_state`: a location is cleared, replaced, or left as it is. */
  method SetState(sess: Session, id: SerialId, to: SerialState, newLocation: Option<LocId>, clear: bool)
    requires id in sess.serials
    modifies sess`serials
    ensures var row := old(sess.serials)[id];
            var loc := if clear then None else if newLocation.Some? then newLocation else row.location;
            sess.serials == old(sess.serials)[id := row.(state := to, location := loc)]
  {
    var row := sess.serials[id];
    if clear {
      sess.serials := sess.serials[id := row.(state := to, location := None)];
    } else if newLocation.Some? {
      sess.serials := sess.serials[id := row.(state := to, location := newLocation)];
    } else {
      sess.serials := sess.serials[id := row.(state := to)];
    }
  }

  method Transition(sess: Session, id: SerialId, to: SerialState) returns (r: Outcome<int>)
    modifies sess`serials
    ensures Did(old(sess.Inv()), sess.Inv(), id, Serials.Move(to), r)
  {
    if id !in sess.serials {
      return Raise(NotFound);
    }
    if to !in Serials.Transitions(sess.serials[id].state) {
      return Raise(BusinessRuleConflict);
    }
    SetState(sess, id, to, None, false);
    return Ok(0);
  }

  method Reserve(sess: Session, id: SerialId) returns (r: Outcome<int>)
    modifies sess`serials
    ensures Did(old(sess.Inv()), sess.Inv(), id, Serials.Reserve, r)
  {
    r := Transition(sess, id, Reserved);
  }

  method Sell(sess: Session, id: SerialId) returns (r: Outcome<int>)
    modifies sess`serials
    ensures Did(old(sess.Inv()), sess.Inv(), id, Serials.Sell, r)
  {
    if id !in sess.serials {
      return Raise(NotFound);
    }
    if sess.serials[id].state !in {Sellable, Reserved} {
      return Raise(BusinessRuleConflict);
    }
    SetState(sess, id, Sold, None, true);
    return Ok(0);
  }

  method TakeBack(sess: Session, id: SerialId, target: LocId) returns (r: Outcome<int>)
    modifies sess`serials
    ensures Did(old(sess.Inv()), sess.Inv(), id, Serials.TakeBack(target), r)
  {
    if id !in sess.serials {
      return Raise(NotFound);
    }
    if sess.serials[id].state != Sold {
      return Raise(BusinessRuleConflict);
    }
    SetState(sess, id, Returned, Some(target), false);
    return Ok(0);
  }

  method MarkRmaPending(sess: Session, id: SerialId) returns (r: Outcome<int>)
    modifies sess`serials
    ensures Did(old(sess.Inv()), sess.Inv(), id, Serials.MarkRmaPending, r)
  {
    r := Transition(sess, id, RmaPending);
  }

  method MarkRmaClosed(sess: Session, id: SerialId) returns (r: Outcome<int>)
    modifies sess`serials
    ensures Did(old(sess.Inv()), sess.Inv(), id, Serials.MarkRmaClosed, r)
  {
    if id !in sess.serials {
      return Raise(NotFound);
    }
    if sess.serials[id].state != RmaPending {
      return Raise(BusinessRuleConflict);
    }
    SetState(sess, id, RmaClosed, None, true);
    return Ok(0);
  }

  method MarkScrapped(sess: Session, id: SerialId) returns (r: Outcome<int>)
    modifies sess`serials
    ensures Did(old(sess.Inv()), sess.Inv(), id, Serials.MarkScrapped, r)
  {
    if id !in sess.serials {
      return Raise(NotFound);
    }
    if Scrapped !in Serials.Transitions(sess.serials[id].state) {
      return Raise(BusinessRuleConflict);
    }
    SetState(sess, id, Scrapped, None, true);
    return Ok(0);
  }

  /** The call did what the lifecycle says: the row it reports, or the error and no change. */
  ghost predicate Did(before: Inventory, after: Inventory, id: SerialId, c: Serials.Call, r: Outcome<int>) {
    match Exec(before, CallSerial(id, c))
    case Ok(inv) => after == inv && r.Ok?
    case Raise(e) => after == before && r == Raise(e)
  }
}
