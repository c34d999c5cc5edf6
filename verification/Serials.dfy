/** The serial lifecycle: the transition table and the named operations on one serial row. */
module Serials {
  import opened Tables

  function Transitions(s: SerialState): set<SerialState> {
    match s
    case Received => {Sellable, Scrapped}
    case Sellable => {Reserved, Sold, InTransit, Scrapped}
    case Reserved => {Sellable, Sold}
    case Sold => {Returned}
    case Returned => {Sellable, RmaPending, Scrapped}
    case RmaPending => {RmaClosed, Sellable}
    case RmaClosed => {}
    case InTransit => {Sellable, Scrapped}
    case Scrapped => {}
  }

  /** The operations of the service. `Move(to)` is the general `transition` call. */
  datatype Call =
    | Reserve
    | Sell
    | TakeBack(target: LocId)
    | MarkRmaPending
    | MarkRmaClosed
    | MarkScrapped
    | Move(to: SerialState)

  function Apply(row: Serial, c: Call): Outcome<Serial> {
    match c
    case Reserve => Transition(row, Reserved)
    case Sell =>
      if row.state != Sellable && row.state != Reserved then Raise(BusinessRuleConflict)
      else Ok(row.(state := Sold, location := None))
    case TakeBack(target) =>
      if row.state != Sold then Raise(BusinessRuleConflict)
      else Ok(row.(state := Returned, location := Some(target)))
    case MarkRmaPending => Transition(row, RmaPending)
    case MarkRmaClosed =>
      if row.state != RmaPending then Raise(BusinessRuleConflict)
      else Ok(row.(state := RmaClosed, location := None))
    case MarkScrapped =>
      if Scrapped !in Transitions(row.state) then Raise(BusinessRuleConflict)
      else Ok(row.(state := Scrapped, location := None))
    case Move(to) => Transition(row, to)
  }

  function Transition(row: Serial, to: SerialState): Outcome<Serial> {
    if to !in Transitions(row.state) then Raise(BusinessRuleConflict) else Ok(row.(state := to))
  }

  /** The row after a whole run of calls; a call that raises changes nothing. */
  function After(row: Serial, calls: seq<Call>): Serial
    decreases |calls|
  {
    if calls == [] then row else After(Committed(row, Apply(row, calls[0])), calls[1..])
  }

  /** How many calls of the run took the serial into state `s`. */
  function Entered(s: SerialState, row: Serial, calls: seq<Call>): nat
    decreases |calls|
  {
    if calls == [] then 0
    else
      var o := Apply(row, calls[0]);
      (if o.Ok? && o.value.state == s then 1 else 0) + Entered(s, Committed(row, o), calls[1..])
  }

  /** Between two sales of the same serial there is always a return: over any run, sales minus
      returns is one while the serial is sold and zero otherwise. */
  lemma {:induction false} NoDoubleSell(row: Serial, calls: seq<Call>)
    ensures Entered(Sold, row, calls) - Entered(Returned, row, calls)
         == Indicator(After(row, calls).state == Sold) - Indicator(row.state == Sold)
    decreases |calls|
  {
    if calls != [] {
      NoDoubleSell(Committed(row, Apply(row, calls[0])), calls[1..]);
    }
  }

  /** Scrapped and rma_closed are absorbing: no run changes the row again. */
  lemma {:induction false} TerminalAbsorbs(row: Serial, calls: seq<Call>)
    requires row.state == Scrapped || row.state == RmaClosed
    ensures After(row, calls) == row
    decreases |calls|
  {
    if calls != [] {
      TerminalAbsorbs(row, calls[1..]);
    }
  }

  /** A serial has no location exactly while it is sold, scrapped or closed by an RMA. */
  predicate Placed(row: Serial) {
    row.location == None <==> row.state in {Sold, Scrapped, RmaClosed}
  }

  /** The targets for which the general `transition` leaves the location column wrong. */
  predicate BypassesLocation(c: Call) {
    c.Move? && c.to in {Sold, Returned, Scrapped, RmaClosed}
  }

  /** An accepted call keeps `Placed` exactly when it is not a raw transition into sold,
      returned, scrapped or rma_closed. */
  lemma PlacedKeptExactly(row: Serial, c: Call)
    requires Placed(row) && Apply(row, c).Ok?
    ensures Placed(Apply(row, c).value) <==> !BypassesLocation(c)
  {
    assert row.state !in Transitions(row.state);
  }

  lemma {:induction false} RunKeepsPlaced(row: Serial, calls: seq<Call>)
    requires Placed(row)
    requires forall i :: 0 <= i < |calls| ==> !BypassesLocation(calls[i])
    ensures Placed(After(row, calls))
    decreases |calls|
  {
    if calls != [] {
      var o := Apply(row, calls[0]);
      if o.Ok? {
        PlacedKeptExactly(row, calls[0]);
      }
      RunKeepsPlaced(Committed(row, o), calls[1..]);
    }
  }

  /** The states a serial may come from into a state: the transition table read the other way. */
  function ComesFrom(to: SerialState): set<SerialState> {
    match to
    case Received => {}
    case Sellable => {Received, Reserved, Returned, RmaPending, InTransit}
    case Reserved => {Sellable}
    case Sold => {Sellable, Reserved}
    case Returned => {Sold}
    case RmaPending => {Returned}
    case RmaClosed => {RmaPending}
    case InTransit => {Sellable}
    case Scrapped => {Received, Sellable, Returned, InTransit}
  }

  /** The states a call starts from. */
  function StartsFrom(c: Call): set<SerialState> {
    match c
    case Reserve => {Sellable}
    case Sell => {Sellable, Reserved}
    case TakeBack(_) => {Sold}
    case MarkRmaPending => {Returned}
    case MarkRmaClosed => {SerialState.RmaPending}
    case MarkScrapped => {Received, Sellable, Returned, SerialState.InTransit}
    case Move(to) => ComesFrom(to)
  }

  lemma AppliesExactly(row: Serial, c: Call)
    ensures Apply(row, c).Ok? <==> row.state in StartsFrom(c)
  {
  }
}
