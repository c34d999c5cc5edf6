/** The ledger writer as the code runs it: row by row, on the tables of one session. */
module LedgerWriter {
  import opened Tables
  import opened Fifo
  import opened Ledger
  import opened Database

  method EnsureBalanceLocked(sess: Session, k: Key) returns (b: Balance)
    modifies sess`balances
    ensures b == BalanceAt(old(sess.Inv()), k)
    ensures sess.balances == old(sess.balances)[k := b]
  {
    if k in sess.balances {
      b := sess.balances[k];
    } else {
      b := Balance(0, 0);
      sess.balances := sess.balances[k := b];
    }
  }

  /** The loop over the layer rows of the pair, oldest first. When the layers do not suffice it
      has already emptied them. */
  method TakeLayers(sess: Session, k: Key, qty: nat) returns (short: nat, cost: int)
    modifies sess`layers
    ensures var t := Consume(LayersAt(old(sess.Inv()), k), qty);
            && short == t.short
            && cost == t.cost
            && sess.layers == if k in old(sess.layers) then old(sess.layers)[k := t.layers] else old(sess.layers)
  {
    var rows := if k in sess.layers then sess.layers[k] else [];
    short, cost := qty, 0;
    var i := 0;
    ghost var done: seq<Layer>, rest: Taken, table := [], Consume(rows, qty), rows;
    ghost var all := rest;
    assert rows[0..] == rows && done + rows == rows && SoFar(done, cost, rest) == all;
    while i < |rows| && short > 0
      invariant 0 <= i <= |rows| && |done| == i
      invariant table == done + rows[i..]
      invariant if k in old(sess.layers) then sess.layers == old(sess.layers)[k := table]
                else sess.layers == old(sess.layers) && rows == []
      invariant rest == Consume(rows[i..], short)
      invariant all == SoFar(done, cost, rest)
    {
      ghost var left := Drawn(rows[i], short);
      ghost var next := ConsumeHead(rows, i, short, done, cost, rest);
      ReplaceNext(done, rows, i, left);
      var take := TakeLayer(sess, k, i, short);
      cost := cost + take * rows[i].unitCost;
      short := short - take;
      done, rest, table := done + [left], next, table[i := left];
      i := i + 1;
    }
    ConsumeEnd(rows[i..], short, done, cost);
  }

  /** A layer row after as much of `short` as it holds was taken. */
  function Drawn(row: Layer, short: nat): Layer {
    row.(qty := row.qty - Least(row.qty, short))
  }

  /** One row: what it takes, and the UPDATE. Rows with nothing left are not among those selected. */
  method TakeLayer(sess: Session, k: Key, i: nat, short: nat) returns (take: nat)
    requires k in sess.layers && i < |sess.layers[k]|
    modifies sess`layers
    ensures take == Least(old(sess.layers)[k][i].qty, short)
    ensures sess.layers == old(sess.layers)[k := old(sess.layers)[k][i := Drawn(old(sess.layers)[k][i], short)]]
  {
    var row := sess.layers[k][i];
    take := 0;
    if row.qty > 0 {
      take := Least(row.qty, short);
    }
    sess.layers := sess.layers[k := sess.layers[k][i := row.(qty := row.qty - take)]];
  }

  /** One turn of the loop moves one row from the rest to the part that is done. */
  lemma ConsumeHead(rows: seq<Layer>, i: nat, short: nat, done: seq<Layer>, cost: int, rest: Taken)
    returns (next: Taken)
    requires i < |rows| && rest == Consume(rows[i..], short)
    ensures next == Consume(rows[i + 1..], short - Least(rows[i].qty, short))
    ensures SoFar(done + [Drawn(rows[i], short)], cost + Least(rows[i].qty, short) * rows[i].unitCost, next)
         == SoFar(done, cost, rest)
  {
    next := Consume(rows[i + 1..], short - Least(rows[i].qty, short));
    assert rows[i..][1..] == rows[i + 1..];
    assert done + ([Drawn(rows[i], short)] + next.layers) == (done + [Drawn(rows[i], short)]) + next.layers;
  }

  /** When the loop ends, what it has done is all there is to do. */
  lemma ConsumeEnd(rest: seq<Layer>, short: nat, done: seq<Layer>, cost: int)
    requires rest == [] || short == 0
    ensures SoFar(done, cost, Consume(rest, short)) == Taken(done + rest, short, cost)
  {
    if short == 0 {
      ConsumeNothing(rest);
    }
  }

  /** What the loop will have taken, from what it has done and what it has yet to do. */
  ghost function SoFar(done: seq<Layer>, cost: int, rest: Taken): Taken {
    Taken(done + rest.layers, rest.short, cost + rest.cost)
  }

  lemma ReplaceNext(done: seq<Layer>, rows: seq<Layer>, i: nat, left: Layer)
    requires |done| == i < |rows|
    ensures (done + rows[i..])[i := left] == (done + [left]) + rows[i + 1..]
  {
  }

  /** Takes `qty` off the layers of the pair and returns the rounded unit cost. */
  method ConsumeFifo(sess: Session, k: Key, qty: nat) returns (r: Outcome<int>)
    requires qty > 0
    modifies sess`layers
    ensures var t := Consume(LayersAt(old(sess.Inv()), k), qty);
            && r == (if t.short > 0 then Raise(BusinessRuleConflict) else Ok(RoundHalfEven(t.cost, qty)))
            && sess.layers == if k in old(sess.layers) then old(sess.layers)[k := t.layers] else old(sess.layers)
  {
    var short, cost := TakeLayers(sess, k, qty);
    if short > 0 {
      return Raise(BusinessRuleConflict);
    }
    return Ok(RoundHalfEven(cost, qty));
  }

  /** The serial branch of a movement: the serial row carries the cost and follows the goods. */
  method MoveSerial(sess: Session, m: Movement) returns (r: Outcome<int>)
    requires m.serial.Some?
    modifies sess`serials
    ensures match ResolveSerial(sess.layers, old(sess.serials), m)
            case Ok(res) => r == Ok(res.unitCost) && sess.serials == res.serials
            case Raise(e) => r == Raise(e) && sess.serials == old(sess.serials)
  {
    var id := m.serial.value;
    if id !in sess.serials {
      return Raise(ValidationFailed);
    }
    var row := sess.serials[id];
    var unitCost := row.unitCost;
    if m.qty > 0 {
      if m.unitCost.Some? {
        unitCost := m.unitCost.value;
      }
      row := row.(unitCost := unitCost, location := Some(m.key.loc));
    } else {
      var nullLocation := m.stateAfter in {Some(Sold), Some(Scrapped), Some(RmaClosed)};
      var bound := if m.stateAfter in {None, Some(InTransit), Some(Received), Some(Returned), Some(RmaPending)}
                   then Some(m.key.loc) else None;
      row := row.(location := if nullLocation then None else bound);
    }
    if m.stateAfter.Some? {
      row := row.(state := m.stateAfter.value);
    }
    sess.serials := sess.serials[id := row];
    return Ok(unitCost);
  }

  /** The layers a movement leaves whose cost step raises: a shortage has emptied those of its pair. */
  function Emptied(layers: map<Key, seq<Layer>>, m: Movement): map<Key, seq<Layer>> {
    if m.serial.None? && m.qty < 0 && m.key in layers then layers[m.key := Consume(layers[m.key], -m.qty).layers]
    else layers
  }

  /** What a movement that raises has changed by then, for its caller to roll back: perhaps an empty
      balance row, the layers or the serial it touched, and even the balance when the index on client
      intake ids refuses the ledger row. */
  function Residue(inv: Inventory, m: Movement): Inventory {
    if m.qty == 0 then inv
    else
      var balance := BalanceAt(inv, m.key);
      match Resolve(inv.layers, inv.serials, m, NextId(inv))
      case Raise(_) => inv.(balances := inv.balances[m.key := balance], layers := Emptied(inv.layers, m))
      case Ok(res) =>
        var left := if balance.onHand + m.qty < 0 then balance else balance.(onHand := balance.onHand + m.qty);
        inv.(balances := inv.balances[m.key := left], layers := res.layers, serials := res.serials)
  }

  /** The branch without a serial: a new cost layer, or FIFO consumption. */
  method MoveLoose(sess: Session, m: Movement) returns (r: Outcome<int>)
    requires m.serial.None? && m.qty != 0
    modifies sess`layers
    ensures match ResolveLoose(LayersAt(old(sess.Inv()), m.key), m, old(NextId(sess.Inv())))
            case Ok(res) => r == Ok(res.0) && sess.layers == old(sess.layers)[m.key := res.1]
            case Raise(e) => r == Raise(e) && sess.layers == Emptied(old(sess.layers), m)
  {
    if m.qty > 0 {
      if m.unitCost.None? {
        return Raise(ValidationFailed);
      }
      var rows := if m.key in sess.layers then sess.layers[m.key] else [];
      sess.layers := sess.layers[m.key := Insert(rows, Layer(m.at, NextId(sess.Inv()), m.qty, m.unitCost.value))];
      return Ok(m.unitCost.value);
    }
    r := ConsumeFifo(sess, m.key, -m.qty);
    if r.Ok? {
      CoveredHasLayers(old(sess.Inv()), m.key, -m.qty);
    }
  }

  /** What was found in layers was found in rows that exist. */
  lemma CoveredHasLayers(inv: Inventory, k: Key, qty: nat)
    requires qty > 0 && Consume(LayersAt(inv, k), qty).short == 0
    ensures k in inv.layers
  {
    ConsumeAccounts(LayersAt(inv, k), qty);
  }

  /** The cost step of a movement. */
  method ResolveMovement(sess: Session, m: Movement) returns (r: Outcome<int>)
    requires m.qty != 0
    modifies sess`layers, sess`serials
    ensures match Resolve(old(sess.layers), old(sess.serials), m, old(NextId(sess.Inv())))
            case Ok(res) => r == Ok(res.unitCost) && sess.layers == res.layers && sess.serials == res.serials
            case Raise(e) => (r == Raise(e) && sess.layers == Emptied(old(sess.layers), m)
                              && sess.serials == old(sess.serials))
  {
    if m.serial.Some? {
      r := MoveSerial(sess, m);
    } else {
      r := MoveLoose(sess, m);
    }
  }

  /** One movement. Callers roll the session back when it raises. */
  method PostMovement(sess: Session, m: Movement) returns (r: Outcome<int>)
    modifies sess`balances, sess`layers, sess`serials, sess`ledger
    ensures var inv := old(sess.Inv());
            match Post(inv, m, NextId(inv))
            case Ok(inv') => sess.Inv() == inv' && r == Ok(inv'.ledger[|inv.ledger|].unitCost)
            case Raise(e) => r == Raise(e) && sess.Inv() == Residue(inv, m)
  {
    if m.qty == 0 {
      return Raise(ValidationFailed);
    }
    var balance := EnsureBalanceLocked(sess, m.key);
    r := ResolveMovement(sess, m);
    if r.Raise? {
      return;
    }
    var newOnHand := balance.onHand + m.qty;
    if newOnHand < 0 {
      return Raise(BusinessRuleConflict);
    }
    sess.balances := sess.balances[m.key := balance.(onHand := newOnHand)];
    if m.intake.Some? && UsesIntake(sess.ledger, m.intake.value) {
      return Raise(IntegrityError);
    }
    sess.ledger := sess.ledger + [RowOf(m, r.value)];
  }
}
