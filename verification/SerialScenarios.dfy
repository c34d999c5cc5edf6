/** Short runs with one serial: what a return, a raw transition and an RMA do to it. */
module SerialScenarios {
  import opened Tables
  import opened Ledger
  import opened Database
  import opened Runs
  import opened Scenarios
  import Cardinality
  import Conservation
  import Returns
  import Rmas
  import Serials
  import SerialRuns
  import Sums
  import VendorSerials

  // ---------- a serial is sold and comes back ----------

  function Calls(actions: seq<Action>): seq<SerialRuns.Event> {
    if actions == [] then [] else [SerialRuns.Call(actions[0])] + Calls(actions[1..])
  }

  /** Calls that create, move and receive orders move no serial that is already there. */
  lemma {:induction false} CallsRun(db: Db, actions: seq<Action>)
    requires forall i :: 0 <= i < |actions| ==> actions[i].CreatePo? || actions[i].MovePo? || actions[i].PostReceipt?
    ensures SerialRuns.RunEvents(db, Calls(actions)) == Run(db, actions) && SerialRuns.RunPlaced(db, Calls(actions))
    decreases |actions|
  {
    if actions != [] {
      assert Calls(actions)[0] == SerialRuns.Call(actions[0]) && Calls(actions)[1..] == Calls(actions[1..]);
      assert SerialRuns.Next(db, Calls(actions)[0]) == Step(db, actions[0]);
      CallsRun(Step(db, actions[0]), actions[1..]);
    }
  }

  /** Serial 7 is received at location 1, sold from there, and returned to location 2. */
  function ThereAndBack(): seq<SerialRuns.Event> {
    SoldRun() + [SerialRuns.Call(PostReturn(BroughtBack()))]
  }

  function SoldRun(): seq<SerialRuns.Event> {
    Calls(OrderRun(UNIT) + [Delivery([SerialEntry(UNIT)])]) + [SerialRuns.SellSerial(Key(0, 1), 0, 7, 1)]
  }

  function BroughtBack(): Returns.ReturnInput {
    Returns.ReturnInput(2, [Returns.LineInput(0, UNIT, "faulty", ToSellable, 2, Some(7))], false, false)
  }

  lemma {:induction false} EventsSnoc(db: Db, events: seq<SerialRuns.Event>, e: SerialRuns.Event)
    ensures SerialRuns.RunEvents(db, events + [e]) == SerialRuns.Next(SerialRuns.RunEvents(db, events), e)
    ensures SerialRuns.RunPlaced(db, events + [e])
       <==> SerialRuns.RunPlaced(db, events) && SerialRuns.EventPlaced(SerialRuns.RunEvents(db, events), e)
    decreases |events|
  {
    if events == [] {
      assert [] + [e] == [e] && [e][1..] == [];
      assert SerialRuns.RunEvents(SerialRuns.Next(db, e), []) == SerialRuns.Next(db, e);
      assert SerialRuns.RunPlaced(SerialRuns.Next(db, e), []);
    } else {
      assert (events + [e])[1..] == events[1..] + [e];
      EventsSnoc(SerialRuns.Next(db, events[0]), events[1..], e);
    }
  }

  function SerialSold(): Inventory {
    Inventory(map[Key(0, 1) := Balance(0, 0)], map[], map[7 := Serial(0, Sold, None, 5)],
              SerialStock().ledger + [Row(1, Key(0, 1), -UNIT, 5, Sale, 0, Some(7), None)], [])
  }

  lemma SoldGoes()
    ensures SerialRuns.RunEvents(Begin(Serialized), SoldRun()) == Db(SerialSold(), SerialDocs(UNIT))
    ensures SerialRuns.RunPlaced(Begin(Serialized), SoldRun())
  {
    var received, sell := OrderRun(UNIT) + [Delivery([SerialEntry(UNIT)])], SerialRuns.SellSerial(Key(0, 1), 0, 7, 1);
    SerialGoes(UNIT);
    CallsRun(Begin(Serialized), received);
    EventsSnoc(Begin(Serialized), Calls(received), sell);
    SellPosts();
  }

  lemma SellPosts()
    ensures ExecAll(SerialStock(), [Move(Cardinality.SaleOfSerial(Key(0, 1), 0, 7, 1))]) == Ok(SerialSold())
  {
    var m := Cardinality.SaleOfSerial(Key(0, 1), 0, 7, 1);
    assert [Move(m)] == [Move(m)] + [];
    HeadMoved(SerialStock(), m, []);
    var posted := Post(SerialStock(), m, 0).value;
    assert posted.serials == SerialSold().serials && posted.balances == SerialSold().balances;
  }

  lemma OneLineReturn(config: Config, line: Returns.LineInput, m: Movement)
    requires config == Begin(Serialized).docs.config && line == BroughtBack().lines[0]
        && m == Returns.Restock(0, 2, line)
    ensures Returns.LinesOps(config, 0, BroughtBack(), BroughtBack().lines) == [LookUp(7, 0)] + [Move(m)]
  {
    assert BroughtBack().lines[1..] == [];
    assert Returns.LinesOps(config, 0, BroughtBack(), []) == [];
    assert Returns.LineOps(config, 0, BroughtBack(), line) + [] == [LookUp(7, 0)] + ([Move(m)] + []);
  }

  lemma ReturnPosts()
    ensures var ops := Returns.LinesOps(Begin(Serialized).docs.config, 0, BroughtBack(), BroughtBack().lines);
            && ExecAll(SerialSold(), ops).Ok?
            && ExecAll(SerialSold(), ops).value.serials == map[7 := Serial(0, Returned, Some(2), 0)]
            && OnHand(ExecAll(SerialSold(), ops).value, Key(0, 2)) == UNIT
  {
    var config, line := Begin(Serialized).docs.config, BroughtBack().lines[0];
    var m := Returns.Restock(0, 2, line);
    OneLineReturn(config, line, m);
    HeadOp(SerialSold(), LookUp(7, 0), [Move(m)]);
    HeadMoved(SerialSold(), m, []);
    assert [Move(m)] + [] == [Move(m)];
    var posted := Post(SerialSold(), m, 0).value;
    assert posted.serials == map[7 := Serial(0, Returned, Some(2), 0)];
  }

  /** The runs in which stock equals serials include one that returns a serial: it is accepted, and
      the serial is the one unit in stock, at the location it was returned to. */
  lemma SerialReturned()
    ensures SerialRuns.RunPlaced(Begin(Serialized), ThereAndBack())
    ensures SerialRuns.Goes(SerialRuns.RunEvents(Begin(Serialized), SoldRun()),
                             SerialRuns.Call(PostReturn(BroughtBack())))
    ensures var inv := SerialRuns.RunEvents(Begin(Serialized), ThereAndBack()).inv;
            && OnHand(inv, Key(0, 2)) == UNIT && inv.serials == map[7 := Serial(0, Returned, Some(2), 0)]
  {
    SoldGoes();
    ReturnPosts();
    EventsSnoc(Begin(Serialized), SoldRun(), SerialRuns.Call(PostReturn(BroughtBack())));
    ReturnFindsItNowhere();
  }

  lemma ReturnFindsItNowhere()
    ensures Cardinality.Returnable(Begin(Serialized).docs.config, SerialSold().serials, BroughtBack().lines)
  {
    assert BroughtBack().lines[1..] == [];
    assert Cardinality.Returnable(Begin(Serialized).docs.config, SerialSold().serials, []);
  }

  // ---------- a serial is returned while it is in stock ----------

  /** Serial 7 is received at location 1 and never leaves it. */
  function ReceivedRun(): seq<Action> {
    OrderRun(UNIT) + [Delivery([SerialEntry(UNIT)])]
  }

  lemma StockReturnPosts()
    ensures var ops := Returns.LinesOps(Begin(Serialized).docs.config, 0, BroughtBack(), BroughtBack().lines);
            && ExecAll(SerialStock(), ops).Ok?
            && ExecAll(SerialStock(), ops).value.serials == map[7 := Serial(0, Returned, Some(2), 0)]
            && ExecAll(SerialStock(), ops).value.balances
                 == map[Key(0, 1) := Balance(UNIT, 0), Key(0, 2) := Balance(UNIT, 0)]
  {
    var config, line := Begin(Serialized).docs.config, BroughtBack().lines[0];
    var m := Returns.Restock(0, 2, line);
    OneLineReturn(config, line, m);
    HeadOp(SerialStock(), LookUp(7, 0), [Move(m)]);
    HeadMoved(SerialStock(), m, []);
    assert [Move(m)] + [] == [Move(m)];
    var posted := Post(SerialStock(), m, 0).value;
    assert posted.serials == map[7 := Serial(0, Returned, Some(2), 0)];
    assert posted.balances == map[Key(0, 1) := Balance(UNIT, 0), Key(0, 2) := Balance(UNIT, 0)];
  }

  lemma ReturnStep(inv: Inventory, docs: Docs, inv': Inventory)
    requires docs.config == Begin(Serialized).docs.config && docs.returnDocs == 0
    requires ExecAll(inv, Returns.LinesOps(docs.config, 0, BroughtBack(), BroughtBack().lines)) == Ok(inv')
    ensures Step(Db(inv, docs), PostReturn(BroughtBack())).inv == inv'
  {
    assert Returns.HeaderError(BroughtBack()).None?;
  }

  /** The return is accepted without asking where the serial is: one serial, one unit at each of two
      locations. */
  lemma StockReturnCountsTwice()
    ensures var inv := Run(Begin(Serialized), ReceivedRun() + [PostReturn(BroughtBack())]).inv;
            && inv.balances == map[Key(0, 1) := Balance(UNIT, 0), Key(0, 2) := Balance(UNIT, 0)]
            && inv.serials == map[7 := Serial(0, Returned, Some(2), 0)]
            && !Cardinality.CardinalAt(inv, Key(0, 1))
  {
    SerialGoes(UNIT);
    SnocStep(Begin(Serialized), ReceivedRun(), PostReturn(BroughtBack()), Db(SerialStock(), SerialDocs(UNIT)));
    StockReturnPosts();
    var ops := Returns.LinesOps(Begin(Serialized).docs.config, 0, BroughtBack(), BroughtBack().lines);
    ReturnStep(SerialStock(), SerialDocs(UNIT), ExecAll(SerialStock(), ops).value);
    NoneAtOne();
  }

  lemma NoneAtOne()
    ensures Cardinality.SerialsAt(map[7 := Serial(0, Returned, Some(2), 0)], Key(0, 1)) == {}
  {
  }

  // ---------- a raw transition, and an RMA ----------

  lemma CallGoes(db: Db, id: SerialId, call: Serials.Call, row: Serial)
    requires id in db.inv.serials && Serials.Apply(db.inv.serials[id], call) == Ok(row)
    ensures Step(db, SerialCall(id, call)) == db.(inv := db.inv.(serials := db.inv.serials[id := row]))
  {
    assert [CallSerial(id, call)] == [CallSerial(id, call)] + [];
    HeadOp(db.inv, CallSerial(id, call), []);
  }

  /** The database with serial 7 in the given state. */
  function InState(state: SerialState): Db {
    Db(SerialStock().(serials := map[7 := Serial(0, state, Some(1), 5)]), SerialDocs(UNIT))
  }

  function SoldRaw(): seq<Action> {
    ReceivedRun() + [SerialCall(7, Serials.Move(Sold))]
  }

  /** The general transition takes the serial to sold and leaves it where it was, and in stock. */
  lemma RawSaleKeepsLocation()
    ensures var db := Run(Begin(Serialized), SoldRaw());
            && db.inv.serials == map[7 := Serial(0, Sold, Some(1), 5)] && !Serials.Placed(db.inv.serials[7])
            && OnHand(db.inv, Key(0, 1)) == UNIT
            && db == InState(Sold)
  {
    SerialGoes(UNIT);
    Turns(Sellable, Serials.Move(Sold), Sold);
    SnocStep(Begin(Serialized), ReceivedRun(), SerialCall(7, Serials.Move(Sold)), InState(Sellable));
  }

  /** Two more raw transitions make it pending for a vendor; an RMA ships it. */
  function PendingRun(): seq<Action> {
    SoldRaw() + [SerialCall(7, Serials.Move(Returned))] + [SerialCall(7, Serials.MarkRmaPending)]
  }

  function ShippedBack(): seq<Action> {
    PendingRun() + [CreateRma(1, [VendorLine()])] + [ShipRma(0, 3)]
  }

  function VendorLine(): RmaLine {
    RmaLine(0, UNIT, Some(7), 7)
  }

  /** Serial 7 goes from one state to another. */
  lemma Turns(from: SerialState, call: Serials.Call, to: SerialState)
    requires Serials.Apply(Serial(0, from, Some(1), 5), call) == Ok(Serial(0, to, Some(1), 5))
    ensures Step(InState(from), SerialCall(7, call)) == InState(to)
  {
    CallGoes(InState(from), 7, call, Serial(0, to, Some(1), 5));
    assert InState(from).inv.serials[7 := Serial(0, to, Some(1), 5)] == InState(to).inv.serials;
  }

  lemma PendingGoes()
    ensures Run(Begin(Serialized), PendingRun()) == InState(SerialState.RmaPending)
  {
    RawSaleKeepsLocation();
    Pends(Begin(Serialized), SoldRaw());
  }

  lemma Pends(start: Db, actions: seq<Action>)
    requires Run(start, actions) == InState(Sold)
    ensures Run(start, actions + [SerialCall(7, Serials.Move(Returned))] + [SerialCall(7, Serials.MarkRmaPending)])
         == InState(SerialState.RmaPending)
  {
    var back, pend := SerialCall(7, Serials.Move(Returned)), SerialCall(7, Serials.MarkRmaPending);
    Turns(Sold, Serials.Move(Returned), Returned);
    Turns(Returned, Serials.MarkRmaPending, SerialState.RmaPending);
    TwoMore(start, actions, back, pend, InState(Sold), InState(Returned), InState(SerialState.RmaPending));
  }

  function RmaDocs(state: RmaState, credit: int): Docs {
    SerialDocs(UNIT).(rmas := [Rma(state, 1, [VendorLine()], credit)])
  }

  function SentBack(): Inventory {
    Inventory(map[Key(0, 1) := Balance(0, 0)], map[], map[7 := Serial(0, SerialState.RmaPending, Some(1), 5)],
              SerialStock().ledger + [Row(3, Key(0, 1), -UNIT, 5, RmaShip, 0, Some(7), None)], [])
  }

  lemma SentBackPosts()
    ensures ExecAll(InState(SerialState.RmaPending).inv, Rmas.ShipOps(0, 1, 3, [VendorLine()])) == Ok(SentBack())
  {
    var m := Rmas.Outbound(0, 1, 3, VendorLine());
    var inv := InState(SerialState.RmaPending).inv;
    assert [VendorLine()][1..] == [] && Rmas.ShipOps(0, 1, 3, []) == [];
    assert Rmas.ShipOps(0, 1, 3, [VendorLine()]) == [Move(m)] + [];
    HeadMoved(inv, m, []);
    var posted := Post(inv, m, 0).value;
    assert posted.serials == SentBack().serials && posted.balances == SentBack().balances;
    assert posted.ledger == SentBack().ledger;
  }

  lemma OpensRma()
    ensures Step(InState(SerialState.RmaPending), CreateRma(1, [VendorLine()]))
         == Db(InState(SerialState.RmaPending).inv, RmaDocs(RmaOpen, 0))
  {
    assert [VendorLine()][1..] == [];
    assert Rmas.LinesError(SerialDocs(UNIT).config, [VendorLine()]).None?;
  }

  lemma ShipsRma()
    ensures Step(Db(InState(SerialState.RmaPending).inv, RmaDocs(RmaOpen, 0)), ShipRma(0, 3))
         == Db(SentBack(), RmaDocs(RmaShipped, 0))
  {
    SentBackPosts();
    assert RmaDocs(RmaOpen, 0).rmas[0 := Rma(RmaShipped, 1, [VendorLine()], 0)] == RmaDocs(RmaShipped, 0).rmas;
  }

  lemma SentBackGoes()
    ensures Run(Begin(Serialized), ShippedBack()) == Db(SentBack(), RmaDocs(RmaShipped, 0))
  {
    PendingGoes();
    OpensRma();
    ShipsRma();
    TwoMore(Begin(Serialized), PendingRun(), CreateRma(1, [VendorLine()]), ShipRma(0, 3),
            InState(SerialState.RmaPending), Db(InState(SerialState.RmaPending).inv, RmaDocs(RmaOpen, 0)),
            Db(SentBack(), RmaDocs(RmaShipped, 0)));
  }

  lemma ClosesRma()
    ensures Step(Db(SentBack(), RmaDocs(RmaShipped, 0)), CloseRma(0))
         == Db(SentBack().(serials := map[7 := Serial(0, SerialState.RmaClosed, None, 5)]), RmaDocs(RmaDone, 5 * UNIT))
  {
    ClosePosts();
    assert RmaDocs(RmaShipped, 0).rmas[0 := Rma(RmaDone, 1, [VendorLine()], 5 * UNIT)]
        == RmaDocs(RmaDone, 5 * UNIT).rmas;
  }

  /** Once shipped, the serial stands at location 1 and nothing is in stock there: the RMA accounts
      for the unit. */
  lemma ShippedAwaits()
    ensures var db := Run(Begin(Serialized), ShippedBack());
            && OnHand(db.inv, Key(0, 1)) == 0
                 && db.inv.serials == map[7 := Serial(0, SerialState.RmaPending, Some(1), 5)]
            && VendorSerials.Awaiting(db.docs, Key(0, 1)) == UNIT
  {
    SentBackGoes();
    Sums.SumOfOne(RmaDocs(RmaShipped, 0).rmas[0], VendorSerials.AwaitedQty(Key(0, 1)));
    VendorLineQty();
  }

  /** Once closed, the serial is nowhere, and stock and serials are in step again. */
  lemma ClosedInStep()
    ensures var db := Run(Begin(Serialized), ShippedBack() + [CloseRma(0)]);
            && OnHand(db.inv, Key(0, 1)) == 0 && db.inv.serials == map[7 := Serial(0, SerialState.RmaClosed, None, 5)]
            && db.docs.rmas == [Rma(RmaDone, 1, [VendorLine()], 5 * UNIT)]
  {
    SentBackGoes();
    ClosesRma();
    SnocStep(Begin(Serialized), ShippedBack(), CloseRma(0), Db(SentBack(), RmaDocs(RmaShipped, 0)));
  }

  lemma VendorLineQty()
    ensures VendorSerials.AwaitedQty(Key(0, 1))(RmaDocs(RmaShipped, 0).rmas[0]) == UNIT
  {
    Sums.SumOfOne(VendorLine(), Conservation.RmaLineQty(0));
  }

  lemma ClosePosts()
    ensures ExecAll(SentBack(), Rmas.CloseOps([VendorLine()]))
         == Ok(SentBack().(serials := map[7 := Serial(0, SerialState.RmaClosed, None, 5)]))
    ensures Rmas.Credit(SentBack().serials, [VendorLine()]) == 5 * UNIT
  {
    assert [VendorLine()][1..] == [] && Rmas.CloseOps([]) == [];
    assert Rmas.CloseOps([VendorLine()]) == [CallSerial(7, Serials.MarkRmaClosed)] + [];
    HeadOp(SentBack(), CallSerial(7, Serials.MarkRmaClosed), []);
    assert SentBack().serials[7 := Serial(0, SerialState.RmaClosed, None, 5)]
        == map[7 := Serial(0, SerialState.RmaClosed, None, 5)];
    assert Rmas.Credit(SentBack().serials, []) == 0;
  }
}
