/** The offline sale protocol: the register's queue, any number of concurrent drains, a network
    that loses, delays and repeats messages, and the intake endpoint. */
module OfflineSales {
  import opened Tables
  import opened Ledger
  import opened Database
  import opened Intake
  import opened SaleRecord
  import Fifo
  import Runs

  // ---------- one request ----------

  /** A request that carries one envelope, as the drain sends it. */
  function Endpoint(db: Db, env: Envelope, doc: DocId): (Db, Outcome<seq<Status>>) {
    match Batch(db.docs.config, db.inv, db.inv, [env], [doc], true)
    case Ok(res) => (Db(res.0, db.docs), Ok(res.1))
    case Raise(e) => (db, Raise(e))
  }

  /** The drain removes an envelope on these answers, and stops on any other. */
  predicate Settles(answer: Outcome<seq<Status>>) {
    answer.Ok? || answer == Raise(IdempotencyConflict)
  }

  lemma EndpointMeans(db: Db, env: Envelope, doc: DocId)
    ensures Endpoint(db, env, doc) ==
            if Refusal(db.docs.config, env.lines).Some? then (db, Raise(Refusal(db.docs.config, env.lines).value))
            else match ExecAll(db.inv, SaleOps(env, doc))
                 case Ok(inv) => (Db(inv, db.docs), Ok([Accepted]))
                 case Raise(e) => (db, Raise(if e == IntegrityError then IdempotencyConflict else e))
  {
    if Refusal(db.docs.config, env.lines).None? {
      BatchOfOne(db.docs.config, db.inv, env, doc);
    }
  }

  lemma BatchOfOne(config: Config, inv: Inventory, env: Envelope, doc: DocId)
    requires Refusal(config, env.lines).None?
    ensures Batch(config, inv, inv, [env], [doc], true) ==
            match ExecAll(inv, SaleOps(env, doc))
            case Ok(next) => Ok((next, [Accepted]))
            case Raise(e) => Raise(if e == IntegrityError then IdempotencyConflict else e)
  {
    var sale := ExecAll(inv, SaleOps(env, doc));
    if sale.Ok? {
      assert [env][1..] == [] && [doc][1..] == [];
      BatchOfNone(config, inv, sale.value);
      assert [Accepted] + [] == [Accepted];
    }
  }

  lemma BatchOfNone(config: Config, start: Inventory, now: Inventory)
    ensures Batch(config, start, now, [], [], true) == Ok((now, []))
  {
  }

  /** A refusal is never "already processed". */
  lemma {:induction false} RefusalIsFinal(config: Config, lines: seq<SaleLine>)
    requires Refusal(config, lines).Some?
    ensures Refusal(config, lines).value in {ValidationFailed, BusinessRuleConflict}
  {
    if !(lines[0].qty <= 0 || lines[0].sku !in config.skus) && config.skus[lines[0].sku].tracking != Serialized {
      RefusalIsFinal(config, lines[1..]);
    }
  }

  // ---------- the system ----------

  datatype Reply = Reply(request: nat, answer: Outcome<seq<Status>>)

  datatype Phase = Ready | Waiting(request: nat) | Settled | Stopped

  datatype Drain = Drain(items: seq<Envelope>, pos: nat, phase: Phase)

  datatype Posted = Posted(env: Envelope, doc: DocId)

  /** `sent` and `replies` are everything ever put on the network. `enqueued` and `accepted` record
      the history: what the register queued, and which requests the server committed, in order. */
  datatype System = System(
    db: Db, queue: map<IntakeId, Envelope>, drains: seq<Drain>, sent: seq<Envelope>, replies: seq<Reply>,
    enqueued: set<IntakeId>, accepted: seq<Posted>)

  datatype Event =
    | Enqueue(id: IntakeId)
    | StartDrain(items: seq<Envelope>)
    | Send(d: nat)
    | Serve(r: nat, doc: DocId)         // the server handles a request, perhaps again
    | Deliver(d: nat, k: nat)           // a reply reaches the drain that waits for it
    | GiveUp(d: nat)                    // the network fails: the drain stops
    | Delete(d: nat)
    | Crash                             // the register goes down; its store survives
    | Arrive(id: IntakeId)              // the same envelope, posted by anything else
    | Other(a: Runs.Action)             // any other service call

  /** A client intake id names one envelope, for good. */
  predicate IsBook(book: map<IntakeId, Envelope>) {
    forall id :: id in book ==> book[id].id == id
  }

  predicate InBook(book: map<IntakeId, Envelope>, env: Envelope) {
    env.id in book && book[env.id] == env
  }

  /** What getAll may return: the stored envelopes, each once. */
  predicate Lists(queue: map<IntakeId, Envelope>, items: seq<Envelope>) {
    && (forall i :: 0 <= i < |items| ==> items[i].id in queue && queue[items[i].id] == items[i])
    && (forall id :: id in queue ==> queue[id] in items)
    && (forall i, j :: 0 <= i < j < |items| ==> items[i].id != items[j].id)
  }

  function Received(s: System, d: nat, k: nat): Drain
    requires d < |s.drains| && k < |s.replies|
  {
    var x := s.drains[d];
    if x.phase != Waiting(s.replies[k].request) then x
    else x.(phase := if Settles(s.replies[k].answer) then Settled else Stopped)
  }

  function Served(s: System, r: nat, doc: DocId): System
    requires r < |s.sent|
  {
    var (db, answer) := Endpoint(s.db, s.sent[r], doc);
    s.(db := db, replies := s.replies + [Reply(r, answer)],
       accepted := if answer.Ok? then s.accepted + [Posted(s.sent[r], doc)] else s.accepted)
  }

  function Next(book: map<IntakeId, Envelope>, s: System, e: Event): System {
    match e
    case Enqueue(id) =>
      if id in book then s.(queue := s.queue[id := book[id]], enqueued := s.enqueued + {id}) else s
    case StartDrain(items) =>
      if Lists(s.queue, items) then s.(drains := s.drains + [Drain(items, 0, Ready)]) else s
    case Send(d) =>
      if d < |s.drains| && s.drains[d].phase == Ready && s.drains[d].pos < |s.drains[d].items| then
        s.(sent := s.sent + [s.drains[d].items[s.drains[d].pos]],
           drains := s.drains[d := s.drains[d].(phase := Waiting(|s.sent|))])
      else s
    case Serve(r, doc) => if r < |s.sent| then Served(s, r, doc) else s
    case Deliver(d, k) =>
      if d < |s.drains| && k < |s.replies| then s.(drains := s.drains[d := Received(s, d, k)]) else s
    case GiveUp(d) =>
      if d < |s.drains| && s.drains[d].phase.Waiting? then s.(drains := s.drains[d := s.drains[d].(phase := Stopped)])
        else s
    case Delete(d) =>
      if d < |s.drains| && s.drains[d].phase == Settled && s.drains[d].pos < |s.drains[d].items| then
        var x := s.drains[d];
        s.(queue := s.queue - {x.items[x.pos].id}, drains := s.drains[d := x.(pos := x.pos + 1, phase := Ready)])
      else s
    case Crash => s.(drains := [])
    case Arrive(id) => if id in book then s.(sent := s.sent + [book[id]]) else s
    case Other(a) => if a.PostSale? then s else s.(db := Runs.Step(s.db, a))
  }

  function Run(book: map<IntakeId, Envelope>, s: System, events: seq<Event>): System
    decreases |events|
  {
    if events == [] then s else Run(book, Next(book, s, events[0]), events[1..])
  }

  lemma {:induction false} RunConcat(book: map<IntakeId, Envelope>, s: System, a: seq<Event>, b: seq<Event>)
    ensures Run(book, s, a + b) == Run(book, Run(book, s, a), b)
    decreases |a|
  {
    if a == [] {
      assert a + b == b;
    } else {
      assert (a + b)[1..] == a[1..] + b;
      RunConcat(book, Next(book, s, a[0]), a[1..], b);
    }
  }

  function Start(config: Config, draws: seq<int>): System {
    System(EmptyDb(config, draws), map[], [], [], [], {}, [])
  }

  // ---------- the invariant ----------

  function Blocks(accepted: seq<Posted>): seq<Row> {
    if accepted == [] then []
    else
      var last := accepted[|accepted| - 1];
      Blocks(accepted[..|accepted| - 1]) + Block(last.env, last.doc)
  }

  /** How many committed requests carried the envelope of this id. */
  function Times(accepted: seq<Posted>, id: IntakeId): nat {
    if accepted == [] then 0
    else Times(accepted[..|accepted| - 1], id) + (if accepted[|accepted| - 1].env.id == id then 1 else 0)
  }

  predicate Applied(accepted: seq<Posted>, env: Envelope) {
    env.lines == [] || Times(accepted, env.id) == 1
  }

  /** The ledger holds the blocks of the accepted envelopes and nothing else that is a sale; the
      unique index holds their ids, each accepted once. */
  ghost predicate Recorded(book: map<IntakeId, Envelope>, s: System) {
    && SalesIn(s.db.inv.ledger) == Blocks(s.accepted)
    && (forall id :: id in book && book[id].lines != [] ==>
          Times(s.accepted, id) == if UsesIntake(s.db.inv.ledger, id) then 1 else 0)
  }

  ghost predicate NetworkSound(book: map<IntakeId, Envelope>, s: System) {
    && (forall r :: 0 <= r < |s.sent| ==> InBook(book, s.sent[r]))
    && (forall k :: 0 <= k < |s.replies| ==>
          s.replies[k].request < |s.sent|
              && (Settles(s.replies[k].answer) ==> Applied(s.accepted, s.sent[s.replies[k].request])))
  }

  ghost predicate DrainSound(book: map<IntakeId, Envelope>, s: System, x: Drain) {
    && (forall i :: 0 <= i < |x.items| ==> InBook(book, x.items[i]))
    && (x.phase.Waiting? ==>
          x.pos < |x.items| && x.phase.request < |s.sent| && s.sent[x.phase.request] == x.items[x.pos])
    && (x.phase.Settled? ==> x.pos < |x.items| && Applied(s.accepted, x.items[x.pos]))
  }

  ghost predicate QueueSound(book: map<IntakeId, Envelope>, s: System) {
    && (forall id :: id in s.queue ==> id in book && s.queue[id] == book[id])
    && (forall id :: id in s.enqueued ==> id in book && (id in s.queue || Applied(s.accepted, book[id])))
  }

  ghost predicate Sound(book: map<IntakeId, Envelope>, s: System) {
    && Recorded(book, s) && NetworkSound(book, s) && QueueSound(book, s)
    && (forall d :: 0 <= d < |s.drains| ==> DrainSound(book, s, s.drains[d]))
  }

  // ---------- every event keeps it ----------

  lemma BlocksAppend(accepted: seq<Posted>, p: Posted, id: IntakeId)
    ensures Blocks(accepted + [p]) == Blocks(accepted) + Block(p.env, p.doc)
    ensures Times(accepted + [p], id) == Times(accepted, id) + (if p.env.id == id then 1 else 0)
  {
    assert (accepted + [p])[..|accepted|] == accepted;
  }

  /** What the server does to the record, and what its answer then means. */
  lemma ServeRecorded(book: map<IntakeId, Envelope>, s: System, r: nat, doc: DocId)
    requires IsBook(book) && Recorded(book, s) && r < |s.sent| && InBook(book, s.sent[r])
    ensures var s' := Served(s, r, doc);
            && Recorded(book, s')
            && (Settles(s'.replies[|s.replies|].answer) ==> Applied(s'.accepted, s.sent[r]))
  {
    var env, s' := s.sent[r], Served(s, r, doc);
    EndpointMeans(s.db, env, doc);
    var sale := ExecAll(s.db.inv, SaleOps(env, doc));
    if Refusal(s.db.docs.config, env.lines).Some? {
      RefusalIsFinal(s.db.docs.config, env.lines);
    } else if sale.Ok? {
      SaleRecorded(s.db.inv, env, doc, env.id);
      BlocksAppend(s.accepted, Posted(env, doc), env.id);
      forall id | id in book && book[id].lines != []
        ensures Times(s'.accepted, id) == if UsesIntake(s'.db.inv.ledger, id) then 1 else 0
      {
        SaleRecorded(s.db.inv, env, doc, id);
        BlocksAppend(s.accepted, Posted(env, doc), id);
      }
    } else if sale.error == IntegrityError {
      DuplicateMeansRecorded(s.db.inv, env, doc);
    } else {
      SaleErrors(s.db.inv, env, doc, 0);
    }
  }

  /** The endpoint's own answer cannot be mistaken for an error of a sale. */
  lemma {:induction false} SaleErrors(inv: Inventory, env: Envelope, doc: DocId, i: nat)
    requires i <= |env.lines| && ExecAll(inv, SaleOpsFrom(env, doc, i)).Raise?
    ensures ExecAll(inv, SaleOpsFrom(env, doc, i)).error != IdempotencyConflict
    decreases |env.lines| - i
  {
    if i < |env.lines| {
      ExecAllConcat(inv, LineOps(env, doc, i), SaleOpsFrom(env, doc, i + 1));
      LineExec(inv, env, doc, i);
      var line := ExecAll(inv, LineOps(env, doc, i));
      if line.Ok? {
        SaleErrors(line.value, env, doc, i + 1);
      }
    }
  }

  /** Once applied, always applied exactly once: committed requests are never taken back. */
  lemma StaysApplied(book: map<IntakeId, Envelope>, s: System, s': System, env: Envelope)
    requires Recorded(book, s') && InBook(book, env) && Applied(s.accepted, env)
    requires Times(s.accepted, env.id) <= Times(s'.accepted, env.id)
    ensures Applied(s'.accepted, env)
  {
  }

  lemma ServeSound(book: map<IntakeId, Envelope>, s: System, r: nat, doc: DocId)
    requires IsBook(book) && Sound(book, s) && r < |s.sent|
    ensures Sound(book, Served(s, r, doc))
  {
    var s' := Served(s, r, doc);
    ServeRecorded(book, s, r, doc);
    forall env | InBook(book, env) && Applied(s.accepted, env) ensures Applied(s'.accepted, env) {
      BlocksAppend(s.accepted, Posted(s.sent[r], doc), env.id);
      StaysApplied(book, s, s', env);
    }
    assert NetworkSound(book, s');
    assert QueueSound(book, s');
    forall d | 0 <= d < |s'.drains| ensures DrainSound(book, s', s'.drains[d]) {
      assert DrainSound(book, s, s.drains[d]);
    }
  }

  /** A drain may move as long as what it claims about its envelope holds. */
  lemma OneDrainMoves(book: map<IntakeId, Envelope>, s: System, d: nat, x': Drain)
    requires Sound(book, s) && d < |s.drains| && DrainSound(book, s, x')
    ensures Sound(book, s.(drains := s.drains[d := x']))
  {
    var s' := s.(drains := s.drains[d := x']);
    assert NetworkSound(book, s') && QueueSound(book, s');
    forall c | 0 <= c < |s'.drains| ensures DrainSound(book, s', s'.drains[c]) {
      assert DrainSound(book, s, if c == d then x' else s.drains[c]);
    }
  }

  lemma RequestSound(book: map<IntakeId, Envelope>, s: System, env: Envelope)
    requires Sound(book, s) && InBook(book, env)
    ensures Sound(book, s.(sent := s.sent + [env]))
  {
    var s' := s.(sent := s.sent + [env]);
    assert NetworkSound(book, s') && QueueSound(book, s');
    forall d | 0 <= d < |s'.drains| ensures DrainSound(book, s', s'.drains[d]) {
      assert DrainSound(book, s, s.drains[d]);
    }
  }

  lemma SendSound(book: map<IntakeId, Envelope>, s: System, d: nat)
    requires Sound(book, s) && d < |s.drains| && s.drains[d].phase == Ready && s.drains[d].pos < |s.drains[d].items|
    ensures Sound(book, Next(book, s, Send(d)))
  {
    var x := s.drains[d];
    assert DrainSound(book, s, x);
    var sent := s.(sent := s.sent + [x.items[x.pos]]);
    RequestSound(book, s, x.items[x.pos]);
    assert sent.drains[d] == x && DrainSound(book, sent, x);
    OneDrainMoves(book, sent, d, x.(phase := Waiting(|s.sent|)));
  }

  lemma DeliverSound(book: map<IntakeId, Envelope>, s: System, d: nat, k: nat)
    requires Sound(book, s) && d < |s.drains| && k < |s.replies|
    ensures Sound(book, Next(book, s, Deliver(d, k)))
  {
    assert DrainSound(book, s, s.drains[d]);
    OneDrainMoves(book, s, d, Received(s, d, k));
  }

  /** Only an envelope that was applied is deleted. */
  lemma DeleteSound(book: map<IntakeId, Envelope>, s: System, d: nat)
    requires IsBook(book) && Sound(book, s)
    requires d < |s.drains| && s.drains[d].phase == Settled && s.drains[d].pos < |s.drains[d].items|
    ensures Sound(book, Next(book, s, Delete(d)))
  {
    var x := s.drains[d];
    assert DrainSound(book, s, x);
    OneDrainMoves(book, s, d, x.(pos := x.pos + 1, phase := Ready));
    var moved, s' := s.(drains := s.drains[d := x.(pos := x.pos + 1, phase := Ready)]), Next(book, s, Delete(d));
    QueueChanges(book, moved, s'.queue, moved.enqueued);
  }

  lemma QueueChanges(book: map<IntakeId, Envelope>, s: System, queue: map<IntakeId, Envelope>, enqueued: set<IntakeId>)
    requires Sound(book, s)
    requires QueueSound(book, s.(queue := queue, enqueued := enqueued))
    ensures Sound(book, s.(queue := queue, enqueued := enqueued))
  {
    var s' := s.(queue := queue, enqueued := enqueued);
    assert NetworkSound(book, s');
    forall d | 0 <= d < |s'.drains| ensures DrainSound(book, s', s'.drains[d]) {
      assert DrainSound(book, s, s.drains[d]);
    }
  }

  lemma StartDrainSound(book: map<IntakeId, Envelope>, s: System, items: seq<Envelope>)
    requires IsBook(book) && Sound(book, s) && Lists(s.queue, items)
    ensures Sound(book, s.(drains := s.drains + [Drain(items, 0, Ready)]))
  {
    var s' := s.(drains := s.drains + [Drain(items, 0, Ready)]);
    assert NetworkSound(book, s') && QueueSound(book, s');
    forall d | 0 <= d < |s'.drains| ensures DrainSound(book, s', s'.drains[d]) {
      if d < |s.drains| {
        assert DrainSound(book, s, s.drains[d]);
      }
    }
  }

  lemma OtherSound(book: map<IntakeId, Envelope>, s: System, a: Runs.Action)
    requires Sound(book, s) && !a.PostSale?
    ensures Sound(book, s.(db := Runs.Step(s.db, a)))
  {
    var s' := s.(db := Runs.Step(s.db, a));
    OthersRecordNothing(s.db, a, 0);
    forall id ensures UsesIntake(s'.db.inv.ledger, id) <==> UsesIntake(s.db.inv.ledger, id) {
      OthersRecordNothing(s.db, a, id);
    }
    assert NetworkSound(book, s') && QueueSound(book, s');
    forall d | 0 <= d < |s'.drains| ensures DrainSound(book, s', s'.drains[d]) {
      assert DrainSound(book, s, s.drains[d]);
    }
  }

  lemma NextSound(book: map<IntakeId, Envelope>, s: System, e: Event)
    requires IsBook(book) && Sound(book, s)
    ensures Sound(book, Next(book, s, e))
  {
    match e
    case Enqueue(id) =>
      if id in book {
        QueueChanges(book, s, s.queue[id := book[id]], s.enqueued + {id});
      }
    case StartDrain(items) =>
      if Lists(s.queue, items) {
        StartDrainSound(book, s, items);
      }
    case Send(d) =>
      if d < |s.drains| && s.drains[d].phase == Ready && s.drains[d].pos < |s.drains[d].items| {
        SendSound(book, s, d);
      }
    case Serve(r, doc) =>
      if r < |s.sent| {
        ServeSound(book, s, r, doc);
      }
    case Deliver(d, k) =>
      if d < |s.drains| && k < |s.replies| {
        DeliverSound(book, s, d, k);
      }
    case GiveUp(d) =>
      if d < |s.drains| && s.drains[d].phase.Waiting? {
        OneDrainMoves(book, s, d, s.drains[d].(phase := Stopped));
      }
    case Delete(d) =>
      if d < |s.drains| && s.drains[d].phase == Settled && s.drains[d].pos < |s.drains[d].items| {
        DeleteSound(book, s, d);
      }
    case Crash => CrashSound(book, s);
    case Arrive(id) =>
      if id in book {
        RequestSound(book, s, book[id]);
      }
    case Other(a) =>
      if !a.PostSale? {
        OtherSound(book, s, a);
      }
  }

  lemma CrashSound(book: map<IntakeId, Envelope>, s: System)
    requires Sound(book, s)
    ensures Sound(book, s.(drains := []))
  {
    assert NetworkSound(book, s.(drains := [])) && QueueSound(book, s.(drains := []));
  }

  lemma {:induction false} RunSound(book: map<IntakeId, Envelope>, s: System, events: seq<Event>)
    requires IsBook(book) && Sound(book, s)
    ensures Sound(book, Run(book, s, events))
    decreases |events|
  {
    if events != [] {
      NextSound(book, s, events[0]);
      RunSound(book, Next(book, s, events[0]), events[1..]);
    }
  }

  lemma StartSound(book: map<IntakeId, Envelope>, config: Config, draws: seq<int>)
    ensures Sound(book, Start(config, draws))
  {
    var s := Start(config, draws);
    assert NetworkSound(book, s) && QueueSound(book, s);
  }

  // ---------- the results ----------

  /** Whatever is lost, repeated, late or interleaved: the sale rows of the ledger are the whole
      blocks of the accepted envelopes, one after another, and no envelope with lines is accepted
      twice. */
  lemma AppliedWholeAtMostOnce(book: map<IntakeId, Envelope>, config: Config, draws: seq<int>, events: seq<Event>,
                               id: IntakeId)
    requires IsBook(book) && id in book && book[id].lines != []
    ensures var s := Run(book, Start(config, draws), events);
            SalesIn(s.db.inv.ledger) == Blocks(s.accepted) && Times(s.accepted, id) <= 1
  {
    StartSound(book, config, draws);
    RunSound(book, Start(config, draws), events);
  }

  /** An envelope with lines that the register queued is still in the queue or was applied exactly
      once: none is lost, and none is deleted before it was applied. */
  lemma LeftTheQueueAppliedOnce(book: map<IntakeId, Envelope>, config: Config, draws: seq<int>, events: seq<Event>,
                                id: IntakeId)
    requires IsBook(book) && id in book && book[id].lines != []
    requires id in Run(book, Start(config, draws), events).enqueued
    ensures var s := Run(book, Start(config, draws), events);
            id in s.queue || (Times(s.accepted, id) == 1 && UsesIntake(s.db.inv.ledger, id))
  {
    StartSound(book, config, draws);
    RunSound(book, Start(config, draws), events);
  }

  /** An envelope without lines has no row to carry its id: every request with it is accepted, and
      posts nothing. */
  lemma EmptyAlwaysAccepted(db: Db, env: Envelope, doc: DocId)
    requires env.lines == []
    ensures Endpoint(db, env, doc) == (db, Ok([Accepted]))
  {
    EndpointMeans(db, env, doc);
  }

  /** How a repeated request is answered. The sale guard and the cost step come before the unique
      index, so "already processed" is answered only while the first line could be sold again;
      otherwise the drain stops at an envelope that was applied long ago. */
  lemma RepeatedAnswer(db: Db, env: Envelope, doc: DocId)
    requires env.lines != [] && Refusal(db.docs.config, env.lines).None? && UsesIntake(db.inv.ledger, env.id)
    ensures var k, qty := Key(env.lines[0].sku, env.loc), env.lines[0].qty;
            var sellable := qty > 0 && StockAvailable(db.inv.balances, k, qty)
                && Fifo.Quantity(LayersAt(db.inv, k)) >= qty
                            && OnHand(db.inv, k) >= qty;
            Endpoint(db, env, doc) == (db, Raise(if sellable then IdempotencyConflict else BusinessRuleConflict))
  {
    EndpointMeans(db, env, doc);
    ExecAllConcat(db.inv, LineOps(env, doc, 0), SaleOpsFrom(env, doc, 1));
    FirstLineAgain(db.inv, env, doc);
  }

  lemma FirstLineAgain(inv: Inventory, env: Envelope, doc: DocId)
    requires env.lines != [] && env.lines[0].qty > 0 && UsesIntake(inv.ledger, env.id)
    ensures var k, qty := Key(env.lines[0].sku, env.loc), env.lines[0].qty;
            var sellable := StockAvailable(inv.balances, k, qty) && Fifo.Quantity(LayersAt(inv, k)) >= qty
                && OnHand(inv, k) >= qty;
            ExecAll(inv, LineOps(env, doc, 0)) == Raise(if sellable then IntegrityError else BusinessRuleConflict)
  {
    LineExec(inv, env, doc, 0);
    Fifo.ConsumeAccounts(LayersAt(inv, Key(env.lines[0].sku, env.loc)), env.lines[0].qty);
  }
}
