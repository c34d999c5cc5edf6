/** Concurrent transactions of movements under row locks held to commit: every interleaving
    leaves what running the committed transactions one after another leaves. */
module Locking {
  import opened Tables
  import opened Ledger

  // ---------- transactions, locks and pending rows ----------

  /** A movement together with the identifier drawn for its cost layer. */
  datatype Planned = Planned(m: Movement, layerId: int)

  /** What one transaction at a time may hold: a balance row with its cost layers, a serial row,
      an entry of the unique index on client intake ids. */
  datatype Resource = Cell(key: Key) | SerialRow(id: SerialId) | IntakeSlot(intake: IntakeId)

  function Uses(m: Movement): set<Resource> {
    {Cell(m.key)} + (if m.serial.Some? then {SerialRow(m.serial.value)} else {})
                  + (if m.intake.Some? then {IntakeSlot(m.intake.value)} else {})
  }

  /** The rows a transaction has written and not yet committed. */
  datatype Pending = Pending(
    balances: map<Key, Balance>, layers: map<Key, seq<Layer>>, serials: map<SerialId, Serial>, rows: seq<Row>)

  /** Where a transaction stands within its current movement: before reading the balance, after
      finding no balance row, or with the on-hand it read. */
  datatype Phase = Ready | Missed | Holding(onHand: int) | Finished

  datatype Txn = Txn(program: seq<Planned>, pc: nat, phase: Phase, held: set<Resource>, pending: Pending)

  /** `order` records which transactions committed, in commit order. */
  datatype State = State(store: Inventory, txns: seq<Txn>, order: seq<nat>)

  datatype Event = Select(t: nat) | Insert(t: nat) | Write(t: nat) | Commit(t: nat) | Abort(t: nat)

  /** What a transaction sees: the committed rows under its own. */
  function View(store: Inventory, p: Pending): Inventory {
    Inventory(store.balances + p.balances, store.layers + p.layers, store.serials + p.serials, store.ledger + p.rows,
              store.draws)
  }

  predicate Free(s: State, t: nat, needs: set<Resource>) {
    forall u :: 0 <= u < |s.txns| && u != t ==> s.txns[u].held !! needs
  }

  function NoRows(): Pending {
    Pending(map[], map[], map[], [])
  }

  function Finish(x: Txn): Txn {
    x.(phase := Finished, held := {}, pending := NoRows())
  }

  /** The transaction's view with the on-hand it read earlier, which the UPDATE will build on. */
  function Seen(view: Inventory, k: Key, onHand: int): Inventory {
    view.(balances := view.balances[k := BalanceAt(view, k).(onHand := onHand)])
  }

  /** The rows a movement wrote, added to those already pending. */
  function Capture(p: Pending, m: Movement, after: Inventory): Pending {
    Pending(
      if m.key in after.balances then p.balances[m.key := after.balances[m.key]] else p.balances,
      if m.serial.None? && m.key in after.layers then p.layers[m.key := after.layers[m.key]] else p.layers,
      if m.serial.Some? && m.serial.value in after.serials
        then p.serials[m.serial.value := after.serials[m.serial.value]] else p.serials,
      if after.ledger == [] then p.rows else p.rows + [after.ledger[|after.ledger| - 1]])
  }

  function Written(x: Txn, m: Movement, after: Inventory): Txn {
    x.(pc := x.pc + 1, phase := Ready, held := x.held + Uses(m), pending := Capture(x.pending, m, after))
  }

  // ---------- steps ----------

  /** SELECT ... FOR UPDATE on the balance row: it waits for the lock, or finds no row. */
  function SelectStep(s: State, t: nat): Txn
    requires t < |s.txns| && s.txns[t].pc < |s.txns[t].program|
  {
    var x := s.txns[t];
    var k := x.program[x.pc].m.key;
    var view := View(s.store, x.pending);
    if k !in view.balances then x.(phase := Missed)
    else if !Free(s, t, {Cell(k)}) then x
    else x.(phase := Holding(view.balances[k].onHand), held := x.held + {Cell(k)})
  }

  /** INSERT ... ON CONFLICT DO NOTHING: it waits for another insert of the same row; if that one
      committed, nothing is inserted, nothing is locked and nothing is read again. */
  function InsertStep(s: State, t: nat): Txn
    requires t < |s.txns| && s.txns[t].pc < |s.txns[t].program|
  {
    var x := s.txns[t];
    var k := x.program[x.pc].m.key;
    if !Free(s, t, {Cell(k)}) then x
    else if k in View(s.store, x.pending).balances then x.(phase := Holding(0))
    else x.(phase := Holding(0), held := x.held + {Cell(k)},
            pending := x.pending.(balances := x.pending.balances[k := Balance(0, 0)]))
  }

  /** The cost step, the UPDATE of the balance row and the INSERT into the ledger. */
  function WriteStep(s: State, t: nat): Txn
    requires t < |s.txns| && s.txns[t].pc < |s.txns[t].program| && s.txns[t].phase.Holding?
  {
    var x := s.txns[t];
    var p := x.program[x.pc];
    if !Free(s, t, Uses(p.m)) then x
    else
      match Post(Seen(View(s.store, x.pending), p.m.key, x.phase.onHand), p.m, p.layerId)
      case Ok(after) => Written(x, p.m, after)
      case Raise(_) => Finish(x)
  }

  /** One step of one transaction. A step that is not its turn, or must wait, changes nothing. */
  function Next(s: State, e: Event): State {
    if e.t >= |s.txns| then s
    else
      var x := s.txns[e.t];
      var working := x.pc < |x.program|;
      match e
      case Select(t) => if working && x.phase == Ready then s.(txns := s.txns[t := SelectStep(s, t)]) else s
      case Insert(t) => if working && x.phase == Missed then s.(txns := s.txns[t := InsertStep(s, t)]) else s
      case Write(t) => if working && x.phase.Holding? then s.(txns := s.txns[t := WriteStep(s, t)]) else s
      case Commit(t) =>
        if working || x.phase != Ready then s
        else State(View(s.store, x.pending), s.txns[t := Finish(x)], s.order + [t])
      case Abort(t) => s.(txns := s.txns[t := Finish(x)])
  }

  function Run(s: State, events: seq<Event>): State
    decreases |events|
  {
    if events == [] then s else Run(Next(s, events[0]), events[1..])
  }

  function Start(store: Inventory, programs: seq<seq<Planned>>): State {
    State(store, seq(|programs|, i requires 0 <= i < |programs| => Txn(programs[i], 0, Ready, {}, NoRows())), [])
  }

  // ---------- one transaction after another ----------

  function PostAll(inv: Inventory, program: seq<Planned>): Outcome<Inventory>
    decreases |program|
  {
    if program == [] then Ok(inv)
    else
      var last := program[|program| - 1];
      var before :- PostAll(inv, program[..|program| - 1]);
      Post(before, last.m, last.layerId)
  }

  function Serially(inv: Inventory, programs: seq<seq<Planned>>, order: seq<nat>): Outcome<Inventory>
    decreases |order|
  {
    if order == [] then Ok(inv)
    else
      var t := order[|order| - 1];
      var before :- Serially(inv, programs, order[..|order| - 1]);
      if t < |programs| then PostAll(before, programs[t]) else Ok(before)
  }

  // ---------- what a movement reads and writes ----------

  function Get<K, V>(m: map<K, V>, k: K): Option<V> {
    if k in m then Some(m[k]) else None
  }

  predicate SameAt(a: Inventory, b: Inventory, r: Resource) {
    match r
    case Cell(k) => Get(a.balances, k) == Get(b.balances, k) && Get(a.layers, k) == Get(b.layers, k)
    case SerialRow(id) => Get(a.serials, id) == Get(b.serials, id)
    case IntakeSlot(id) => UsesIntake(a.ledger, id) == UsesIntake(b.ledger, id)
  }

  ghost predicate Agree(a: Inventory, b: Inventory, on: set<Resource>) {
    forall r :: r in on ==> SameAt(a, b, r)
  }

  ghost predicate Unchanged(a: Inventory, b: Inventory, but: set<Resource>) {
    forall r :: r !in but ==> SameAt(a, b, r)
  }

  /** A movement leaves everything alone that it does not use. */
  lemma PostTouches(a: Inventory, p: Planned)
    requires Post(a, p.m, p.layerId).Ok?
    ensures Unchanged(a, Post(a, p.m, p.layerId).value, Uses(p.m))
  {
    var a' := Post(a, p.m, p.layerId).value;
    forall r | r !in Uses(p.m) ensures SameAt(a, a', r) {
      if r.IntakeSlot? {
        IntakeAppend(a.ledger, a'.ledger[|a.ledger|], r.intake);
      }
    }
  }

  lemma ResolveDepends(a: Inventory, b: Inventory, p: Planned)
    requires Agree(a, b, Uses(p.m)) && p.m.qty != 0
    requires Resolve(a.layers, a.serials, p.m, p.layerId).Ok?
    ensures Resolve(b.layers, b.serials, p.m, p.layerId).Ok?
    ensures var ra, rb := Resolve(a.layers, a.serials, p.m, p.layerId).value,
        Resolve(b.layers, b.serials, p.m, p.layerId).value;
            && ra.unitCost == rb.unitCost
            && Get(ra.layers, p.m.key) == Get(rb.layers, p.m.key)
            && (p.m.serial.Some? ==> Get(ra.serials, p.m.serial.value) == Get(rb.serials, p.m.serial.value))
  {
    assert SameAt(a, b, Cell(p.m.key));
    assert p.m.serial.Some? ==> SameAt(a, b, SerialRow(p.m.serial.value));
  }

  /** What it does depends only on what it uses. */
  lemma PostDepends(a: Inventory, b: Inventory, p: Planned)
    requires Agree(a, b, Uses(p.m)) && Post(a, p.m, p.layerId).Ok?
    ensures Post(b, p.m, p.layerId).Ok?
    ensures var a', b' := Post(a, p.m, p.layerId).value, Post(b, p.m, p.layerId).value;
            && a'.ledger == a.ledger + [a'.ledger[|a.ledger|]] && b'.ledger == b.ledger + [a'.ledger[|a.ledger|]]
            && a'.draws == a.draws && b'.draws == b.draws
  {
    ResolveDepends(a, b, p);
    assert SameAt(a, b, Cell(p.m.key));
    assert p.m.intake.Some? ==> SameAt(a, b, IntakeSlot(p.m.intake.value));
  }

  lemma PostKeepsAgreement(a: Inventory, b: Inventory, p: Planned)
    requires Agree(a, b, Uses(p.m)) && Post(a, p.m, p.layerId).Ok? && Post(b, p.m, p.layerId).Ok?
    ensures Agree(Post(a, p.m, p.layerId).value, Post(b, p.m, p.layerId).value, Uses(p.m))
  {
    var a', b' := Post(a, p.m, p.layerId).value, Post(b, p.m, p.layerId).value;
    PostDepends(a, b, p);
    ResolveDepends(a, b, p);
    forall r | r in Uses(p.m) ensures SameAt(a', b', r) {
      assert SameAt(a, b, r);
      if r.IntakeSlot? {
        IntakeAppend(a.ledger, a'.ledger[|a.ledger|], r.intake);
        IntakeAppend(b.ledger, a'.ledger[|a.ledger|], r.intake);
      }
    }
  }

  function AllUses(program: seq<Planned>): set<Resource>
    decreases |program|
  {
    if program == [] then {} else AllUses(program[..|program| - 1]) + Uses(program[|program| - 1].m)
  }

  /** A whole program depends only on what it uses, and leaves the rest alone. */
  lemma {:induction false} ProgramDepends(a: Inventory, b: Inventory, program: seq<Planned>, on: set<Resource>)
    requires AllUses(program) <= on && Agree(a, b, on) && PostAll(a, program).Ok?
    ensures PostAll(b, program).Ok?
    ensures var a', b' := PostAll(a, program).value, PostAll(b, program).value;
            && Agree(a', b', on) && Unchanged(a, a', on) && Unchanged(b, b', on)
            && |a.ledger| <= |a'.ledger| && a'.ledger[..|a.ledger|] == a.ledger
            && b'.ledger == b.ledger + a'.ledger[|a.ledger|..]
            && a'.draws == a.draws && b'.draws == b.draws
    decreases |program|
  {
    if program != [] {
      var p, front := program[|program| - 1], program[..|program| - 1];
      ProgramDepends(a, b, front, on);
      var a1, b1 := PostAll(a, front).value, PostAll(b, front).value;
      PostDepends(a1, b1, p);
      PostKeepsAgreement(a1, b1, p);
      PostTouches(a1, p);
      PostTouches(b1, p);
      var a2, b2 := Post(a1, p.m, p.layerId).value, Post(b1, p.m, p.layerId).value;
      forall r | r in on ensures SameAt(a2, b2, r) {
        if r !in Uses(p.m) {
          assert SameAt(a1, b1, r) && SameAt(a1, a2, r) && SameAt(b1, b2, r);
        }
      }
      forall r | r !in on ensures SameAt(a, a2, r) && SameAt(b, b2, r) {
        assert SameAt(a, a1, r) && SameAt(a1, a2, r) && SameAt(b, b1, r) && SameAt(b1, b2, r);
      }
    }
  }

  // ---------- the invariant ----------

  /** Whatever a transaction has written, it holds. */
  ghost predicate Owned(p: Pending, held: set<Resource>) {
    && (forall k :: k in p.balances || k in p.layers ==> Cell(k) in held)
    && (forall id :: id in p.serials ==> SerialRow(id) in held)
    && (forall i :: 0 <= i < |p.rows| && p.rows[i].intake.Some? ==> IntakeSlot(p.rows[i].intake.value) in held)
  }

  /** What an active transaction sees is what its movements so far would have left had they run
      alone on the rows committed by now. */
  ghost predicate TxnSound(store: Inventory, program: seq<Planned>, x: Txn) {
    && x.program == program && x.pc <= |program| && x.phase != Missed
    && Owned(x.pending, x.held)
    && (x.phase == Finished ==> x.held == {})
    && (x.phase != Finished ==>
          AllUses(program[..x.pc]) <= x.held && PostAll(store, program[..x.pc]) == Ok(View(store, x.pending)))
    && (x.phase.Holding? ==>
          && x.pc < |program| && Cell(program[x.pc].m.key) in x.held
          && program[x.pc].m.key in store.balances
          && BalanceAt(View(store, x.pending), program[x.pc].m.key).onHand == x.phase.onHand)
  }

  /** Every balance row a program will touch exists. */
  ghost predicate RowsPresent(store: Inventory, programs: seq<seq<Planned>>) {
    forall t, i :: 0 <= t < |programs| && 0 <= i < |programs[t]| ==> programs[t][i].m.key in store.balances
  }

  ghost predicate Sound(start: Inventory, programs: seq<seq<Planned>>, s: State) {
    && |s.txns| == |programs| && RowsPresent(s.store, programs)
    && (forall t :: 0 <= t < |s.txns| ==> TxnSound(s.store, programs[t], s.txns[t]))
    && Disjoint(s.txns)
    && Serially(start, programs, s.order) == Ok(s.store)
    && OrderSound(s.order, s.txns)
  }

  /** No two transactions hold the same thing. */
  ghost predicate Disjoint(txns: seq<Txn>) {
    forall t, u :: 0 <= t < u < |txns| ==> txns[t].held !! txns[u].held
  }

  /** A transaction commits at most once. */
  ghost predicate OrderSound(order: seq<nat>, txns: seq<Txn>) {
    && (forall i :: 0 <= i < |order| ==> order[i] < |txns| && txns[order[i]].phase == Finished)
    && (forall i, j :: 0 <= i < j < |order| ==> order[i] != order[j])
  }

  lemma MapsEqual<K, V>(m: map<K, V>, n: map<K, V>)
    requires forall k :: Get(m, k) == Get(n, k)
    ensures m == n
  {
    forall k ensures k in m <==> k in n {
      assert Get(m, k) == Get(n, k);
    }
    forall k | k in m ensures m[k] == n[k] {
      assert Get(m, k) == Get(n, k);
    }
  }

  lemma Overlay<K, V>(m: map<K, V>, n: map<K, V>, k: K, v: V)
    ensures (m + n)[k := v] == m + n[k := v]
  {
  }

  /** What a movement writes: one balance, the layers of the pair or one serial row, one ledger row. */
  lemma PostWrites(a: Inventory, p: Planned)
    requires Post(a, p.m, p.layerId).Ok?
    ensures var a' := Post(a, p.m, p.layerId).value;
            && p.m.key in a'.balances && a'.balances == a.balances[p.m.key := a'.balances[p.m.key]]
            && (if p.m.serial.None? then
                  p.m.key in a'.layers && a'.layers == a.layers[p.m.key := a'.layers[p.m.key]]
                      && a'.serials == a.serials
                else
                  var id := p.m.serial.value;
                  id in a'.serials && a'.serials == a.serials[id := a'.serials[id]] && a'.layers == a.layers)
            && a'.ledger != [] && a'.ledger == a.ledger + [a'.ledger[|a'.ledger| - 1]]
            && a'.ledger[|a'.ledger| - 1].intake == p.m.intake && a'.draws == a.draws
  {
  }

  /** The rows of a movement go on top of the transaction's own. */
  lemma CaptureIsView(store: Inventory, x: Pending, m: Movement, after: Inventory)
    requires var view := View(store, x);
             && m.key in after.balances && after.balances == view.balances[m.key := after.balances[m.key]]
             && (if m.serial.None? then
                   m.key in after.layers && after.layers == view.layers[m.key := after.layers[m.key]]
                       && after.serials == view.serials
                 else
                   var id := m.serial.value;
                   id in after.serials && after.serials == view.serials[id := after.serials[id]]
                       && after.layers == view.layers)
             && after.ledger != [] && after.ledger == view.ledger + [after.ledger[|after.ledger| - 1]]
             && after.draws == store.draws
    ensures View(store, Capture(x, m, after)) == after
  {
    Overlay(store.balances, x.balances, m.key, after.balances[m.key]);
    if m.serial.None? {
      Overlay(store.layers, x.layers, m.key, after.layers[m.key]);
    } else {
      Overlay(store.serials, x.serials, m.serial.value, after.serials[m.serial.value]);
    }
    assert store.ledger + (x.rows + [after.ledger[|after.ledger| - 1]]) == after.ledger;
  }

  lemma CapturePosted(store: Inventory, x: Pending, p: Planned, after: Inventory)
    requires Post(View(store, x), p.m, p.layerId) == Ok(after)
    ensures View(store, Capture(x, p.m, after)) == after
    ensures after.ledger != [] && after.ledger[|after.ledger| - 1].intake == p.m.intake
  {
    PostWrites(View(store, x), p);
    CaptureIsView(store, x, p.m, after);
  }

  lemma CaptureOwned(x: Pending, held: set<Resource>, p: Planned, after: Inventory)
    requires Owned(x, held)
    requires after.ledger != [] && after.ledger[|after.ledger| - 1].intake == p.m.intake
    ensures Owned(Capture(x, p.m, after), held + Uses(p.m))
  {
  }

  lemma WriteSound(store: Inventory, program: seq<Planned>, x: Txn, after: Inventory)
    requires TxnSound(store, program, x) && x.phase.Holding?
    requires Post(View(store, x.pending), program[x.pc].m, program[x.pc].layerId) == Ok(after)
    ensures TxnSound(store, program, Written(x, program[x.pc].m, after))
  {
    var p := program[x.pc];
    CapturePosted(store, x.pending, p, after);
    CaptureOwned(x.pending, x.held, p, after);
    PrefixPosted(store, program, x.pc);
  }

  lemma PrefixPosted(store: Inventory, program: seq<Planned>, pc: nat)
    requires pc < |program| && PostAll(store, program[..pc]).Ok?
    ensures PostAll(store, program[..pc + 1])
        == Post(PostAll(store, program[..pc]).value, program[pc].m, program[pc].layerId)
    ensures AllUses(program[..pc + 1]) == AllUses(program[..pc]) + Uses(program[pc].m)
  {
    assert program[..pc + 1][..pc] == program[..pc];
  }

  /** A transaction that holds nothing in common with one that commits does not notice. */
  lemma ViewAgrees(store: Inventory, y: Pending, held: set<Resource>, on: set<Resource>)
    requires Owned(y, held) && held !! on
    ensures Agree(store, View(store, y), on)
  {
    forall r | r in on ensures SameAt(store, View(store, y), r) {
      assert r !in held;
      if r.IntakeSlot? {
        assert forall i :: 0 <= i < |y.rows| ==> y.rows[i].intake != Some(r.intake);
        UsesIntakePrefix(store.ledger, y.rows, r.intake);
      }
    }
  }

  lemma UsesIntakePrefix(ledger: seq<Row>, rows: seq<Row>, id: IntakeId)
    requires forall i :: 0 <= i < |rows| ==> rows[i].intake != Some(id)
    ensures UsesIntake(ledger + rows, id) <==> UsesIntake(ledger, id)
  {
    if UsesIntake(ledger, id) {
      var i :| 0 <= i < |ledger| && ledger[i].intake == Some(id);
      assert (ledger + rows)[i].intake == Some(id);
    }
  }

  lemma OthersUnaware(store: Inventory, y: Pending, held: set<Resource>, program: seq<Planned>, x: Txn)
    requires TxnSound(store, program, x) && Owned(y, held) && held !! x.held
    ensures TxnSound(View(store, y), program, x)
  {
    var store' := View(store, y);
    ViewAgrees(store, y, held, x.held);
    if x.phase != Finished {
      ProgramDepends(store, store', program[..x.pc], x.held);
      var b' := PostAll(store', program[..x.pc]).value;
      assert View(store, x.pending).ledger[|store.ledger|..] == x.pending.rows;
      SameView(store, store', x.pending, x.held, b');
    }
    if x.phase.Holding? {
      assert SameAt(store, store', Cell(program[x.pc].m.key));
    }
  }

  lemma SameWhereHeld(a: Inventory, b: Inventory, p: Pending, b': Inventory, r: Resource)
    requires !r.IntakeSlot? && SameAt(View(a, p), b', r) && SameAt(a, b, r)
    ensures SameAt(b', View(b, p), r)
  {
  }

  lemma SameElsewhere(b: Inventory, p: Pending, b': Inventory, held: set<Resource>, r: Resource)
    requires !r.IntakeSlot? && SameAt(b, b', r) && Owned(p, held) && r !in held
    ensures SameAt(b', View(b, p), r)
  {
  }

  lemma SameView(a: Inventory, b: Inventory, p: Pending, held: set<Resource>, b': Inventory)
    requires Owned(p, held) && Agree(a, b, held)
    requires Agree(View(a, p), b', held) && Unchanged(b, b', held)
    requires b'.ledger == b.ledger + p.rows && b'.draws == b.draws
    ensures b' == View(b, p)
  {
    forall r: Resource | !r.IntakeSlot? ensures SameAt(b', View(b, p), r) {
      if r in held {
        SameWhereHeld(a, b, p, b', r);
      } else {
        SameElsewhere(b, p, b', held, r);
      }
    }
    SameRows(b', View(b, p));
  }

  lemma SameRows(a: Inventory, b: Inventory)
    requires forall r: Resource | !r.IntakeSlot? :: SameAt(a, b, r)
    ensures a.balances == b.balances && a.layers == b.layers && a.serials == b.serials
  {
    forall k: Key ensures Get(a.balances, k) == Get(b.balances, k) && Get(a.layers, k) == Get(b.layers, k) {
      assert SameAt(a, b, Cell(k));
    }
    forall id: SerialId ensures Get(a.serials, id) == Get(b.serials, id) {
      assert SameAt(a, b, SerialRow(id));
    }
    MapsEqual(a.balances, b.balances);
    MapsEqual(a.layers, b.layers);
    MapsEqual(a.serials, b.serials);
  }

  // ---------- every step keeps the invariant ----------

  lemma OneTxnLocks(s: State, t: nat, needs: set<Resource>, x': Txn)
    requires Disjoint(s.txns) && t < |s.txns|
    requires x'.held <= s.txns[t].held + needs && Free(s, t, needs)
    ensures Disjoint(s.txns[t := x'])
  {
    var txns := s.txns[t := x'];
    forall u, v | 0 <= u < v < |txns| ensures txns[u].held !! txns[v].held {
      assert s.txns[u].held !! s.txns[v].held;
    }
  }

  lemma OneTxnMoves(start: Inventory, programs: seq<seq<Planned>>, s: State, t: nat, x': Txn, needs: set<Resource>)
    requires Sound(start, programs, s) && t < |s.txns|
    requires TxnSound(s.store, programs[t], x')
    requires x'.held <= s.txns[t].held + needs && Free(s, t, needs)
    requires s.txns[t].phase == Finished ==> x'.phase == Finished
    ensures Sound(start, programs, s.(txns := s.txns[t := x']))
  {
    OneTxnLocks(s, t, needs, x');
  }

  lemma SelectSound(start: Inventory, programs: seq<seq<Planned>>, s: State, t: nat)
    requires Sound(start, programs, s) && t < |s.txns|
    requires s.txns[t].pc < |s.txns[t].program| && s.txns[t].phase == Ready
    ensures Sound(start, programs, s.(txns := s.txns[t := SelectStep(s, t)]))
  {
    var x, x' := s.txns[t], SelectStep(s, t);
    var k := x.program[x.pc].m.key;
    assert programs[t][x.pc].m.key in s.store.balances;
    if x' == x {
      assert s.txns[t := x'] == s.txns;
    } else {
      OneTxnMoves(start, programs, s, t, x', {Cell(k)});
    }
  }

  lemma WriteStepSound(start: Inventory, programs: seq<seq<Planned>>, s: State, t: nat)
    requires Sound(start, programs, s) && t < |s.txns|
    requires s.txns[t].pc < |s.txns[t].program| && s.txns[t].phase.Holding?
    ensures Sound(start, programs, s.(txns := s.txns[t := WriteStep(s, t)]))
  {
    var x, p := s.txns[t], s.txns[t].program[s.txns[t].pc];
    var view := View(s.store, x.pending);
    if !Free(s, t, Uses(p.m)) {
      assert s.txns[t := x] == s.txns;
    } else {
      assert Seen(view, p.m.key, x.phase.onHand) == view;
      match Post(view, p.m, p.layerId)
      case Ok(after) =>
        WriteSound(s.store, programs[t], x, after);
        OneTxnMoves(start, programs, s, t, Written(x, p.m, after), Uses(p.m));
      case Raise(_) => AbortSound(start, programs, s, t);
    }
  }

  lemma AbortSound(start: Inventory, programs: seq<seq<Planned>>, s: State, t: nat)
    requires Sound(start, programs, s) && t < |s.txns|
    ensures Sound(start, programs, s.(txns := s.txns[t := Finish(s.txns[t])]))
  {
    OneTxnMoves(start, programs, s, t, Finish(s.txns[t]), {});
  }

  /** The other transactions do not notice that `t` commits. */
  lemma CommitTxns(programs: seq<seq<Planned>>, s: State, t: nat)
    requires |s.txns| == |programs| && t < |s.txns| && Disjoint(s.txns)
    requires forall u :: 0 <= u < |s.txns| ==> TxnSound(s.store, programs[u], s.txns[u])
    ensures var store, txns := View(s.store, s.txns[t].pending), s.txns[t := Finish(s.txns[t])];
            forall u :: 0 <= u < |txns| ==> TxnSound(store, programs[u], txns[u])
  {
    var x := s.txns[t];
    forall u | 0 <= u < |s.txns| && u != t ensures TxnSound(View(s.store, x.pending), programs[u], s.txns[u]) {
      assert if u < t then s.txns[u].held !! s.txns[t].held else s.txns[t].held !! s.txns[u].held;
      OthersUnaware(s.store, x.pending, x.held, programs[u], s.txns[u]);
    }
  }

  lemma CommitOrder(start: Inventory, programs: seq<seq<Planned>>, s: State, t: nat)
    requires Serially(start, programs, s.order) == Ok(s.store) && t < |s.txns| == |programs|
    requires TxnSound(s.store, programs[t], s.txns[t]) && s.txns[t].pc == |programs[t]| && s.txns[t].phase == Ready
    ensures Serially(start, programs, s.order + [t]) == Ok(View(s.store, s.txns[t].pending))
  {
    assert programs[t][..s.txns[t].pc] == programs[t];
    assert (s.order + [t])[..|s.order|] == s.order;
  }

  lemma CommitOnce(order: seq<nat>, txns: seq<Txn>, t: nat)
    requires OrderSound(order, txns) && t < |txns| && txns[t].phase == Ready
    ensures OrderSound(order + [t], txns[t := Finish(txns[t])])
  {
  }

  lemma CommitSound(start: Inventory, programs: seq<seq<Planned>>, s: State, t: nat)
    requires Sound(start, programs, s) && t < |s.txns|
    requires s.txns[t].pc == |s.txns[t].program| && s.txns[t].phase == Ready
    ensures Sound(start, programs, Next(s, Commit(t)))
  {
    OneTxnLocks(s, t, {}, Finish(s.txns[t]));
    CommitTxns(programs, s, t);
    CommitOrder(start, programs, s, t);
    CommitOnce(s.order, s.txns, t);
  }

  lemma NextSound(start: Inventory, programs: seq<seq<Planned>>, s: State, e: Event)
    requires Sound(start, programs, s)
    ensures Sound(start, programs, Next(s, e))
  {
    if e.t < |s.txns| {
      var x := s.txns[e.t];
      match e
      case Select(t) =>
        if x.pc < |x.program| && x.phase == Ready {
          SelectSound(start, programs, s, t);
        }
      case Insert(t) =>
      case Write(t) =>
        if x.pc < |x.program| && x.phase.Holding? {
          WriteStepSound(start, programs, s, t);
        }
      case Commit(t) =>
        if x.pc >= |x.program| && x.phase == Ready {
          CommitSound(start, programs, s, t);
        }
      case Abort(t) => AbortSound(start, programs, s, t);
    }
  }

  lemma {:induction false} RunSound(start: Inventory, programs: seq<seq<Planned>>, s: State, events: seq<Event>)
    requires Sound(start, programs, s)
    ensures Sound(start, programs, Run(s, events))
    decreases |events|
  {
    if events != [] {
      NextSound(start, programs, s, events[0]);
      RunSound(start, programs, Next(s, events[0]), events[1..]);
    }
  }

  lemma NothingPending(store: Inventory)
    ensures View(store, NoRows()) == store
  {
    assert store.balances + map[] == store.balances;
    assert store.layers + map[] == store.layers;
    assert store.serials + map[] == store.serials;
    assert store.ledger + [] == store.ledger;
  }

  lemma StartSound(store: Inventory, programs: seq<seq<Planned>>)
    requires RowsPresent(store, programs)
    ensures Sound(store, programs, Start(store, programs))
  {
    forall t | 0 <= t < |programs| ensures TxnSound(store, programs[t], Start(store, programs).txns[t]) {
      var x := Start(store, programs).txns[t];
      assert x.program[..0] == [];
      NothingPending(store);
    }
  }

  /** With the balance rows present, whatever the interleaving, the committed balances, layers,
      serials and ledger are those of the committed transactions run one at a time in commit
      order, each at most once. */
  lemma LocksSerialize(store: Inventory, programs: seq<seq<Planned>>, events: seq<Event>)
    requires RowsPresent(store, programs)
    ensures var s := Run(Start(store, programs), events);
            && Serially(store, programs, s.order) == Ok(s.store)
            && (forall i, j :: 0 <= i < j < |s.order| ==> s.order[i] != s.order[j])
            && (forall i :: 0 <= i < |s.order| ==> s.order[i] < |programs|)
  {
    StartSound(store, programs);
    RunSound(store, programs, Start(store, programs), events);
  }

  lemma {:induction false} PostAllAgrees(inv: Inventory, program: seq<Planned>)
    requires Agrees(inv) && PostAll(inv, program).Ok?
    ensures Agrees(PostAll(inv, program).value)
    decreases |program|
  {
    if program != [] {
      var last, front := program[|program| - 1], program[..|program| - 1];
      PostAllAgrees(inv, front);
      PostAgrees(PostAll(inv, front).value, last.m, last.layerId);
    }
  }

  lemma {:induction false} SeriallyAgrees(inv: Inventory, programs: seq<seq<Planned>>, order: seq<nat>)
    requires Agrees(inv) && Serially(inv, programs, order).Ok?
    ensures Agrees(Serially(inv, programs, order).value)
    decreases |order|
  {
    if order != [] {
      var t, front := order[|order| - 1], order[..|order| - 1];
      SeriallyAgrees(inv, programs, front);
      if t < |programs| {
        PostAllAgrees(Serially(inv, programs, front).value, programs[t]);
      }
    }
  }

  /** So interleaving never makes a balance or a cost layer disagree with the ledger. */
  lemma InterleavingAgrees(store: Inventory, programs: seq<seq<Planned>>, events: seq<Event>)
    requires RowsPresent(store, programs) && Agrees(store)
    ensures Agrees(Run(Start(store, programs), events).store)
  {
    LocksSerialize(store, programs, events);
    SeriallyAgrees(store, programs, Run(Start(store, programs), events).order);
  }

  // ---------- first touch of a balance row ----------

  /** A movement that brings loose stock in. */
  predicate Inbound(p: Planned) {
    p.m.qty > 0 && p.m.serial.None? && p.m.unitCost.Some? && p.m.intake.None?
  }

  /** The committed state is that of the committed transactions run one after another, in some
      order. */
  ghost predicate SerialOutcome(store: Inventory, programs: seq<seq<Planned>>, events: seq<Event>) {
    var s := Run(Start(store, programs), events);
    exists order: seq<nat> :: multiset(order) == multiset(s.order) && Serially(store, programs, order) == Ok(s.store)
  }

  ghost predicate Serializable(store: Inventory, programs: seq<seq<Planned>>) {
    forall events: seq<Event> :: SerialOutcome(store, programs, events)
  }

  lemma InboundPosts(inv: Inventory, p: Planned)
    requires Inbound(p) && OnHand(inv, p.m.key) >= 0
    ensures Post(inv, p.m, p.layerId).Ok?
    ensures OnHand(Post(inv, p.m, p.layerId).value, p.m.key) == OnHand(inv, p.m.key) + p.m.qty
  {
  }

  lemma RunCons(s: State, e: Event, events: seq<Event>)
    ensures Run(s, [e] + events) == Run(Next(s, e), events)
  {
    assert ([e] + events)[1..] == events;
  }

  /** Both transactions look for the row before either has inserted it. */
  function Lookups(): seq<Event> {
    [Select(0)] + ([Select(1)] + Inserts())
  }

  function Inserts(): seq<Event> {
    [Insert(0)] + ([Write(0)] + ([Commit(0)] + Late()))
  }

  function Late(): seq<Event> {
    [Insert(1)] + ([Write(1)] + ([Commit(1)] + []))
  }

  lemma BothMiss(store: Inventory, a: Planned, b: Planned)
    requires a.m.key == b.m.key && a.m.key !in store.balances
    ensures Run(Start(store, [[a], [b]]), Lookups())
         == Run(State(store, [Txn([a], 0, Missed, {}, NoRows()), Txn([b], 0, Missed, {}, NoRows())], []), Inserts())
  {
    var s0 := Start(store, [[a], [b]]);
    NothingPending(store);
    RunCons(s0, Select(0), [Select(1)] + Inserts());
    var s1 := Next(s0, Select(0));
    assert s1.txns == [Txn([a], 0, Missed, {}, NoRows()), Txn([b], 0, Ready, {}, NoRows())];
    RunCons(s1, Select(1), Inserts());
    var s2 := Next(s1, Select(1));
    assert s2.txns == [Txn([a], 0, Missed, {}, NoRows()), Txn([b], 0, Missed, {}, NoRows())];
  }

  /** A transaction that has inserted an empty balance row and holds it. */
  function Inserted(a: Planned): Txn {
    Txn([a], 0, Holding(0), {Cell(a.m.key)}, Pending(map[a.m.key := Balance(0, 0)], map[], map[], []))
  }

  lemma FirstInserts(store: Inventory, a: Planned, x: Txn, events: seq<Event>)
    requires a.m.key !in store.balances && x.held == {}
    ensures Run(State(store, [Txn([a], 0, Missed, {}, NoRows()), x], []), [Insert(0)] + events)
         == Run(State(store, [Inserted(a), x], []), events)
  {
    var s0 := State(store, [Txn([a], 0, Missed, {}, NoRows()), x], []);
    NothingPending(store);
    RunCons(s0, Insert(0), events);
    var empty: map<Key, Balance> := map[];
    assert empty[a.m.key := Balance(0, 0)] == map[a.m.key := Balance(0, 0)];
    assert InsertStep(s0, 0) == Inserted(a);
    assert Next(s0, Insert(0)).txns == [Inserted(a), x];
  }

  lemma FirstWrites(store: Inventory, a: Planned, x: Txn, events: seq<Event>) returns (t: Txn)
    requires Inbound(a) && a.m.key !in store.balances && x.held == {}
    ensures t == Txn([a], 1, Ready, t.held, t.pending) && a.m.key in t.pending.balances
    ensures Run(State(store, [Inserted(a), x], []), [Write(0)] + events) == Run(State(store, [t, x], []), events)
  {
    var k, s1 := a.m.key, State(store, [Inserted(a), x], []);
    RunCons(s1, Write(0), events);
    var seen := Seen(View(store, Inserted(a).pending), k, 0);
    InboundPosts(seen, a);
    t := Written(Inserted(a), a.m, Post(seen, a.m, a.layerId).value);
    assert WriteStep(s1, 0) == t;
    assert Next(s1, Write(0)).txns == [t, x];
  }

  lemma FirstPublishes(store: Inventory, a: Planned, t: Txn, x: Txn, events: seq<Event>)
    requires t == Txn([a], 1, Ready, t.held, t.pending)
    ensures Run(State(store, [t, x], []), [Commit(0)] + events)
         == Run(State(View(store, t.pending), [Txn([a], 1, Finished, {}, NoRows()), x], [0]), events)
  {
    var s := State(store, [t, x], []);
    RunCons(s, Commit(0), events);
    assert s.txns[0 := Finish(t)] == [Txn([a], 1, Finished, {}, NoRows()), x];
    assert s.order + [0] == [0];
  }

  /** The first transaction inserts the row, posts and commits. */
  lemma FirstCommits(store: Inventory, a: Planned, x: Txn, late: seq<Event>) returns (store': Inventory)
    requires Inbound(a) && a.m.key !in store.balances && x.held == {}
    ensures a.m.key in store'.balances
    ensures Run(State(store, [Txn([a], 0, Missed, {}, NoRows()), x], []),
                [Insert(0)] + ([Write(0)] + ([Commit(0)] + late)))
         == Run(State(store', [Txn([a], 1, Finished, {}, NoRows()), x], [0]), late)
  {
    FirstInserts(store, a, x, [Write(0)] + ([Commit(0)] + late));
    var t := FirstWrites(store, a, x, [Commit(0)] + late);
    FirstPublishes(store, a, t, x, late);
    store' := View(store, t.pending);
  }

  /** The second one inserts nothing, and posts on top of the zero it never read again. */
  lemma SecondOverwrites(store: Inventory, b: Planned, done: Txn)
    requires Inbound(b) && b.m.key in store.balances && done.held == {}
    ensures var s := Run(State(store, [done, Txn([b], 0, Missed, {}, NoRows())], [0]), Late());
            s.order == [0, 1] && OnHand(s.store, b.m.key) == b.m.qty
  {
    var k, s0 := b.m.key, State(store, [done, Txn([b], 0, Missed, {}, NoRows())], [0]);
    NothingPending(store);
    RunCons(s0, Insert(1), [Write(1)] + ([Commit(1)] + []));
    var s1 := Next(s0, Insert(1));
    var t1 := Txn([b], 0, Holding(0), {}, NoRows());
    assert s1.txns == [done, t1];
    RunCons(s1, Write(1), [Commit(1)] + []);
    var s2 := Next(s1, Write(1));
    var seen := Seen(store, k, 0);
    InboundPosts(seen, b);
    var t2 := Written(t1, b.m, Post(seen, b.m, b.layerId).value);
    assert s2.txns == [done, t2];
    RunCons(s2, Commit(1), []);
    assert Next(s2, Commit(1)).order == [0, 1];
  }

  /** A lost update: two receipts that both find no balance row leave only the second one's
      quantity on hand, though both commit and either serial order leaves the sum. */
  lemma LostUpdate(store: Inventory, a: Planned, b: Planned)
    requires Inbound(a) && Inbound(b) && a.m.key == b.m.key && a.m.key !in store.balances
    ensures var s := Run(Start(store, [[a], [b]]), Lookups());
            s.order == [0, 1] && OnHand(s.store, a.m.key) == b.m.qty
    ensures forall order | order == [0, 1] || order == [1, 0] ::
              && Serially(store, [[a], [b]], order).Ok?
              && OnHand(Serially(store, [[a], [b]], order).value, a.m.key) == a.m.qty + b.m.qty
  {
    BothMiss(store, a, b);
    var store' := FirstCommits(store, a, Txn([b], 0, Missed, {}, NoRows()), Late());
    SecondOverwrites(store', b, Txn([a], 1, Finished, {}, NoRows()));
    SeriallyTwo(store, [[a], [b]], 0, 1, a, b);
    SeriallyTwo(store, [[a], [b]], 1, 0, b, a);
  }

  lemma SeriallyTwo(store: Inventory, programs: seq<seq<Planned>>, i: nat, j: nat, a: Planned, b: Planned)
    requires i < |programs| && j < |programs| && programs[i] == [a] && programs[j] == [b]
    requires Inbound(a) && Inbound(b) && a.m.key == b.m.key && OnHand(store, a.m.key) == 0
    ensures Serially(store, programs, [i, j]).Ok?
    ensures OnHand(Serially(store, programs, [i, j]).value, a.m.key) == a.m.qty + b.m.qty
  {
    InboundPosts(store, a);
    var mid := Post(store, a.m, a.layerId).value;
    InboundPosts(mid, b);
    assert [a][..0] == [] && [b][..0] == [];
    assert PostAll(store, [a]) == Ok(mid);
    assert [i, j][..1] == [i] && [i][..0] == [];
    assert Serially(store, programs, [i]) == Ok(mid);
    assert PostAll(mid, [b]) == Post(mid, b.m, b.layerId);
  }

  lemma OrdersOfTwo(order: seq<nat>)
    requires multiset(order) == multiset([0, 1])
    ensures order == [0, 1] || order == [1, 0]
  {
    assert |order| == |multiset(order)| == 2;
    assert order == [order[0], order[1]];
    assert order[0] in multiset(order) && order[1] in multiset(order);
    assert multiset(order)[order[0]] == 1 + Indicator(order[0] == order[1]);
  }

  /** Two receipts of the same pair are serialisable, in whatever order, exactly when the balance
      row exists. */
  lemma SerializableExactlyWhenPresent(store: Inventory, a: Planned, b: Planned)
    requires Inbound(a) && Inbound(b) && a.m.key == b.m.key
    ensures Serializable(store, [[a], [b]]) <==> a.m.key in store.balances
  {
    if a.m.key in store.balances {
      forall events: seq<Event> ensures SerialOutcome(store, [[a], [b]], events) {
        LocksSerialize(store, [[a], [b]], events);
      }
    } else {
      LostUpdate(store, a, b);
      if SerialOutcome(store, [[a], [b]], Lookups()) {
        var s := Run(Start(store, [[a], [b]]), Lookups());
        var order: seq<nat> :| multiset(order) == multiset(s.order)
            && Serially(store, [[a], [b]], order) == Ok(s.store);
        OrdersOfTwo(order);
      }
    }
  }
}
