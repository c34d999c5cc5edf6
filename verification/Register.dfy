/** The register's side of the protocol as it runs: one pass over the stored envelopes. */
module Register {
  import opened Tables
  import opened Database
  import opened Intake
  import opened OfflineSales

  /** What the network does to one request. */
  datatype Fate = Answered | ReplyLost | RequestLost

  datatype Drained = Drained(store: map<IntakeId, Envelope>, db: Db, posted: nat, conflicts: nat)

  /** One pass: it deletes each envelope that is answered "accepted" or "already processed", and
      stops at the first that is not. `docs` are the document ids the server will draw. */
  function Pass(store: map<IntakeId, Envelope>, db: Db, items: seq<Envelope>, fates: seq<Fate>,
                docs: seq<DocId>): Drained
    requires |items| == |fates| == |docs|
    decreases |items|
  {
    if items == [] || fates[0] == RequestLost then Drained(store, db, 0, 0)
    else
      var (db', answer) := Endpoint(db, items[0], docs[0]);
      if fates[0] == ReplyLost || !Settles(answer) then Drained(store, db', 0, 0)
      else
        var rest := Pass(store - {items[0].id}, db', items[1..], fates[1..], docs[1..]);
        if answer.Ok? then rest.(posted := rest.posted + 1) else rest.(conflicts := rest.conflicts + 1)
  }

  /** The pass from the i-th envelope on. */
  lemma PassFrom(store: map<IntakeId, Envelope>, db: Db, items: seq<Envelope>, fates: seq<Fate>, docs: seq<DocId>,
                 i: nat)
    requires |items| == |fates| == |docs| && i < |items|
    ensures Pass(store, db, items[i..], fates[i..], docs[i..]) ==
            if fates[i] == RequestLost then Drained(store, db, 0, 0)
            else
              var (db', answer) := Endpoint(db, items[i], docs[i]);
              if fates[i] == ReplyLost || !Settles(answer) then Drained(store, db', 0, 0)
              else
                var rest := Pass(store - {items[i].id}, db', items[i + 1..], fates[i + 1..], docs[i + 1..]);
                if answer.Ok? then rest.(posted := rest.posted + 1) else rest.(conflicts := rest.conflicts + 1)
  {
    assert items[i..][1..] == items[i + 1..] && fates[i..][1..] == fates[i + 1..] && docs[i..][1..] == docs[i + 1..];
  }

  /** `api.post` with one envelope, as the server handles it. */
  method Request(sess: Session, env: Envelope, doc: DocId) returns (answer: Outcome<seq<Status>>)
    modifies sess
    ensures (sess.State(), answer) == Endpoint(old(sess.State()), env, doc)
  {
    answer := PostSales(sess, [env], [doc]);
  }

  class Client {
    var store: map<IntakeId, Envelope>

    constructor ()
      ensures store == map[]
    {
      store := map[];
    }

    /** `serialValues[i]` is the serial value of the i-th line; an empty one counts as none. A line
        with a serial value is refused; otherwise `s.put`, whose key path is the client intake id. */
    method Enqueue(env: Envelope, serialValues: seq<string>) returns (r: Outcome<IntakeId>)
      requires |serialValues| == |env.lines|
      modifies this
      ensures if exists i :: 0 <= i < |serialValues| && serialValues[i] != ""
              then r == Raise(ValueError) && store == old(store)
              else r == Ok(env.id) && store == old(store)[env.id := env]
    {
      var i := 0;
      while i < |serialValues|
        invariant 0 <= i <= |serialValues|
        invariant forall j :: 0 <= j < i ==> serialValues[j] == ""
      {
        if serialValues[i] != "" {
          return Raise(ValueError);
        }
        i := i + 1;
      }
      store := store[env.id := env];
      return Ok(env.id);
    }

    method Drain(sess: Session, items: seq<Envelope>, fates: seq<Fate>, docs: seq<DocId>)
      returns (posted: nat, conflicts: nat)
      requires |items| == |fates| == |docs| && Lists(store, items)
      modifies this, sess
      ensures var after := Pass(old(store), old(sess.State()), items, fates, docs);
              && store == after.store && sess.State() == after.db
              && posted == after.posted && conflicts == after.conflicts
    {
      posted, conflicts := 0, 0;
      ghost var whole := Pass(store, sess.State(), items, fates, docs);
      var i := 0;
      assert items[0..] == items && fates[0..] == fates && docs[0..] == docs;
      while i < |items|
        invariant 0 <= i <= |items|
        invariant var rest := Pass(store, sess.State(), items[i..], fates[i..], docs[i..]);
                  whole == rest.(posted := posted + rest.posted, conflicts := conflicts + rest.conflicts)
      {
        PassFrom(store, sess.State(), items, fates, docs, i);
        if fates[i] == RequestLost {
          break;
        }
        var answer := Request(sess, items[i], docs[i]);
        if fates[i] == ReplyLost {
          break;
        }
        if answer.Ok? {
          posted := posted + 1;
        } else if answer == Raise(IdempotencyConflict) {
          conflicts := conflicts + 1;
        } else {
          break;
        }
        store := store - {items[i].id};
        i := i + 1;
      }
    }
  }

  // ---------- one pass is a run of the protocol ----------

  /** The register's state after a run, with drain `d` about to send its next envelope. */
  predicate AtTurn(s: System, d: nat) {
    d < |s.drains| && s.drains[d].phase == Ready && s.drains[d].pos <= |s.drains[d].items|
  }

  lemma Two(book: map<IntakeId, Envelope>, s: System, a: Event, b: Event)
    ensures Run(book, s, [a, b]) == Next(book, Next(book, s, a), b)
  {
    assert [a, b][1..] == [b] && [b][1..] == [];
    assert Run(book, Next(book, s, a), [b]) == Run(book, Next(book, Next(book, s, a), b), []);
  }

  /** The request goes out and the server handles it. */
  lemma Exchanged(book: map<IntakeId, Envelope>, s: System, d: nat, doc: DocId)
    requires AtTurn(s, d) && s.drains[d].pos < |s.drains[d].items|
    ensures var x := s.drains[d];
            var (db, answer) := Endpoint(s.db, x.items[x.pos], doc);
            var s' := Run(book, s, [Send(d), Serve(|s.sent|, doc)]);
            && s'.db == db && s'.queue == s.queue && s'.enqueued == s.enqueued
            && s'.drains == s.drains[d := x.(phase := Waiting(|s.sent|))]
            && |s'.replies| == |s.replies| + 1 && s'.replies[|s.replies|] == Reply(|s.sent|, answer)
  {
    Two(book, s, Send(d), Serve(|s.sent|, doc));
  }

  /** The reply arrives and the envelope is deleted. */
  lemma Concluded(book: map<IntakeId, Envelope>, s: System, d: nat, k: nat)
    requires d < |s.drains| && k < |s.replies| && s.drains[d].phase == Waiting(s.replies[k].request)
    requires Settles(s.replies[k].answer) && s.drains[d].pos < |s.drains[d].items|
    ensures var x, s' := s.drains[d], Run(book, s, [Deliver(d, k), Delete(d)]);
            && s'.db == s.db && s'.enqueued == s.enqueued && s'.queue == s.queue - {x.items[x.pos].id}
            && s'.drains == s.drains[d := x.(pos := x.pos + 1, phase := Ready)]
  {
    Two(book, s, Deliver(d, k), Delete(d));
  }

  /** What a pass does to the store and to the server is what a run of the protocol does: so the
      guarantees over every run hold for it. */
  lemma {:induction false} PassIsRun(book: map<IntakeId, Envelope>, s: System, d: nat, fates: seq<Fate>,
                                     docs: seq<DocId>)
    returns (events: seq<Event>)
    requires AtTurn(s, d) && |fates| == |docs| == |s.drains[d].items| - s.drains[d].pos
    ensures var after := Pass(s.queue, s.db, s.drains[d].items[s.drains[d].pos..], fates, docs);
            var s' := Run(book, s, events);
            s'.db == after.db && s'.queue == after.store && s'.enqueued == s.enqueued
    decreases |fates|
  {
    var x := s.drains[d];
    var items := x.items[x.pos..];
    events := [];
    if items != [] && fates[0] != RequestLost {
      var exchange := [Send(d), Serve(|s.sent|, docs[0])];
      Exchanged(book, s, d, docs[0]);
      var mid := Run(book, s, exchange);
      events := exchange;
      if fates[0] != ReplyLost && Settles(mid.replies[|s.replies|].answer) {
        var end := [Deliver(d, |s.replies|), Delete(d)];
        Concluded(book, mid, d, |s.replies|);
        var next := Run(book, mid, end);
        assert x.items[x.pos + 1..] == items[1..];
        var rest := PassIsRun(book, next, d, fates[1..], docs[1..]);
        RunConcat(book, mid, end, rest);
        RunConcat(book, s, exchange, end + rest);
        events := exchange + (end + rest);
      }
    }
  }

  // ---------- what a pass deletes ----------

  /** The answers on which the register deletes an envelope: accepted, or already processed. */
  predicate Done(answer: Outcome<seq<Status>>) {
    answer == Ok([Accepted]) || answer == Raise(IdempotencyConflict)
  }

  lemma SettledIsDone(db: Db, env: Envelope, doc: DocId)
    ensures Settles(Endpoint(db, env, doc).1) <==> Done(Endpoint(db, env, doc).1)
  {
    EndpointMeans(db, env, doc);
  }

  /** A pass whose first envelope gets such an answer deletes it, counts it, and goes on with the next. */
  lemma PassGoesOn(store: map<IntakeId, Envelope>, db: Db, items: seq<Envelope>, fates: seq<Fate>, docs: seq<DocId>)
    requires |items| == |fates| == |docs| && items != [] && fates[0] == Answered
    requires Done(Endpoint(db, items[0], docs[0]).1)
    ensures var (db', answer) := Endpoint(db, items[0], docs[0]);
            var after := Pass(store, db, items, fates, docs);
            var rest := Pass(store - {items[0].id}, db', items[1..], fates[1..], docs[1..]);
            after == Drained(rest.store, rest.db, rest.posted + (if answer.Ok? then 1 else 0),
                             rest.conflicts + (if answer.Raise? then 1 else 0))
  {
  }

  /** Any other answer, and no answer, stops it with the store as it was. */
  lemma PassStops(store: map<IntakeId, Envelope>, db: Db, items: seq<Envelope>, fates: seq<Fate>, docs: seq<DocId>)
    requires |items| == |fates| == |docs| && items != []
    requires fates[0] != Answered || !Done(Endpoint(db, items[0], docs[0]).1)
    ensures Pass(store, db, items, fates, docs)
         == Drained(store, if fates[0] == RequestLost then db else Endpoint(db, items[0], docs[0]).0, 0, 0)
  {
    SettledIsDone(db, items[0], docs[0]);
  }
}
