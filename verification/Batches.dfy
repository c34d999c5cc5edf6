/** A request with several envelopes: when it loses an envelope it answered "accepted". */
module Batches {
  import opened Tables
  import opened Ledger
  import opened Database
  import opened Intake
  import opened SaleRecord

  // ---------- when a batch meets a duplicate ----------

  /** Every envelope with lines is new to the ledger, and no two of them share an id. */
  predicate AllNew(ledger: seq<Row>, items: seq<Envelope>) {
    items == [] ||
      ((items[0].lines != [] ==> !UsesIntake(ledger, items[0].id) && NotAgain(items[0].id, items[1..]))
       && AllNew(ledger, items[1..]))
  }

  /** No later envelope with lines has this id. */
  predicate NotAgain(id: IntakeId, items: seq<Envelope>) {
    forall j :: 0 <= j < |items| && items[j].lines != [] ==> items[j].id != id
  }

  /** The ledger after an envelope of this id was sold. */
  lemma {:induction false} AllNewAfter(ledger: seq<Row>, after: seq<Row>, env: Envelope, items: seq<Envelope>)
    requires forall id :: UsesIntake(after, id) <==> UsesIntake(ledger, id) || (env.lines != [] && id == env.id)
    ensures AllNew(after, items) <==> AllNew(ledger, items) && (env.lines != [] ==> NotAgain(env.id, items))
  {
    if items != [] {
      AllNewAfter(ledger, after, env, items[1..]);
      assert forall j :: 0 < j < |items| ==> items[j] == items[1..][j - 1];
      assert NotAgain(env.id, items)
        <==> NotAgain(env.id, items[1..]) && (items[0].lines != [] ==> items[0].id != env.id);
    }
  }

  lemma SaleIndexed(inv: Inventory, env: Envelope, doc: DocId)
    requires ExecAll(inv, SaleOps(env, doc)).Ok?
    ensures var after := ExecAll(inv, SaleOps(env, doc)).value.ledger;
            forall id :: UsesIntake(after, id) <==> UsesIntake(inv.ledger, id) || (env.lines != [] && id == env.id)
    ensures env.lines != [] ==> !UsesIntake(inv.ledger, env.id)
  {
    SaleRecorded(inv, env, doc, env.id);
    forall id
      ensures UsesIntake(ExecAll(inv, SaleOps(env, doc)).value.ledger, id)
         <==> UsesIntake(inv.ledger, id) || (env.lines != [] && id == env.id)
    {
      SaleRecorded(inv, env, doc, id);
    }
  }

  /** The unique index answers for no envelope of the batch exactly when all are new. */
  lemma {:induction false} NoDuplicateExactly(config: Config, start: Inventory, now: Inventory, items: seq<Envelope>,
                                              sales: seq<DocId>)
    requires |items| == |sales| && Batch(config, start, now, items, sales, false).Ok?
    ensures |Batch(config, start, now, items, sales, false).value.1| == |items|
    ensures AlreadyProcessed !in Batch(config, start, now, items, sales, false).value.1 <==> AllNew(now.ledger, items)
    decreases |items|
  {
    if items != [] {
      match ExecAll(now, SaleOps(items[0], sales[0])) {
        case Ok(next) =>
          NoDuplicateExactly(config, start, next, items[1..], sales[1..]);
          SaleIndexed(now, items[0], sales[0]);
          AllNewAfter(now.ledger, next.ledger, items[0], items[1..]);
        case Raise(e) =>
          NoDuplicateExactly(config, start, start, items[1..], sales[1..]);
          DuplicateMeansRecorded(now, items[0], sales[0]);
      }
    }
  }

  // ---------- when it loses something ----------

  /** No envelope that is new to the ledger is followed by one that is recorded already, or that
      repeats it. */
  predicate Lossless(ledger: seq<Row>, items: seq<Envelope>) {
    forall i, j :: 0 <= i < j < |items| && items[i].lines != [] && items[j].lines != []
                   && !UsesIntake(ledger, items[i].id) ==>
        !UsesIntake(ledger, items[j].id) && items[j].id != items[i].id
  }

  /** An envelope with lines is answered "accepted", and a later one "already processed". */
  predicate Loses(items: seq<Envelope>, out: seq<Status>)
    requires |items| == |out|
  {
    exists i, j :: 0 <= i < j < |items| && items[i].lines != [] && out[i] == Accepted && out[j] == AlreadyProcessed
  }

  lemma LosesStep(items: seq<Envelope>, out: seq<Status>)
    requires |items| == |out| && items != []
    ensures Loses(items, out)
       <==> (items[0].lines != [] && out[0] == Accepted && AlreadyProcessed in out[1..]) || Loses(items[1..], out[1..])
  {
    if items[0].lines != [] && out[0] == Accepted && AlreadyProcessed in out[1..] {
      var j :| 0 <= j < |out[1..]| && out[1..][j] == AlreadyProcessed;
      assert out[j + 1] == AlreadyProcessed;
    }
    if Loses(items[1..], out[1..]) {
      var i, j :| 0 <= i < j < |items[1..]| && items[1..][i].lines != [] && out[1..][i] == Accepted
          && out[1..][j] == AlreadyProcessed;
      assert items[i + 1].lines != [] && out[i + 1] == Accepted && out[j + 1] == AlreadyProcessed;
    }
    if Loses(items, out) {
      var i, j :| 0 <= i < j < |items| && items[i].lines != [] && out[i] == Accepted && out[j] == AlreadyProcessed;
      assert out[1..][j - 1] == AlreadyProcessed;
      if i > 0 {
        assert items[1..][i - 1].lines != [] && out[1..][i - 1] == Accepted;
      }
    }
  }

  /** None of the envelopes with lines is recorded. */
  predicate NoneRecorded(ledger: seq<Row>, items: seq<Envelope>) {
    forall j :: 0 <= j < |items| && items[j].lines != [] ==> !UsesIntake(ledger, items[j].id)
  }

  lemma LosslessStep(ledger: seq<Row>, items: seq<Envelope>)
    requires items != []
    ensures Lossless(ledger, items)
       <==> Lossless(ledger, items[1..])
            && (items[0].lines != [] && !UsesIntake(ledger, items[0].id) ==>
                  NoneRecorded(ledger, items[1..]) && NotAgain(items[0].id, items[1..]))
  {
    assert forall j :: 0 < j < |items| ==> items[j] == items[1..][j - 1];
    assert forall j :: 0 <= j < |items[1..]| ==> items[1..][j] == items[j + 1];
  }

  lemma {:induction false} AllNewMeans(ledger: seq<Row>, items: seq<Envelope>)
    ensures AllNew(ledger, items) <==> NoneRecorded(ledger, items) && Lossless(ledger, items)
  {
    if items != [] {
      AllNewMeans(ledger, items[1..]);
      LosslessStep(ledger, items);
      assert forall j :: 0 < j < |items| ==> items[j] == items[1..][j - 1];
      assert NoneRecorded(ledger, items)
        <==> NoneRecorded(ledger, items[1..]) && (items[0].lines != [] ==> !UsesIntake(ledger, items[0].id));
    }
  }

  /** Once an envelope with lines was accepted, the next duplicate is the loss. */
  lemma LostAfterAccepted(items: seq<Envelope>, out: seq<Status>)
    requires |items| == |out| && items != [] && items[0].lines != [] && out[0] == Accepted
    ensures Loses(items, out) <==> AlreadyProcessed in out[1..]
  {
    LosesStep(items, out);
  }

  lemma {:induction false} LosesExactly(config: Config, start: Inventory, items: seq<Envelope>, sales: seq<DocId>)
    requires |items| == |sales| && Batch(config, start, start, items, sales, false).Ok?
    ensures |Batch(config, start, start, items, sales, false).value.1| == |items|
    ensures Loses(items, Batch(config, start, start, items, sales, false).value.1) <==> !Lossless(start.ledger, items)
    decreases |items|
  {
    if items != [] {
      var out := Batch(config, start, start, items, sales, false).value.1;
      LosslessStep(start.ledger, items);
      match ExecAll(start, SaleOps(items[0], sales[0])) {
        case Ok(next) =>
          NoDuplicateExactly(config, start, next, items[1..], sales[1..]);
          assert out[1..] == Batch(config, start, next, items[1..], sales[1..], false).value.1;
          if items[0].lines == [] {
            LosesExactly(config, start, items[1..], sales[1..]);
            LosesStep(items, out);
          } else {
            LostAfterAccepted(items, out);
            SaleIndexed(start, items[0], sales[0]);
            AllNewAfter(start.ledger, next.ledger, items[0], items[1..]);
            AllNewMeans(start.ledger, items[1..]);
          }
        case Raise(e) =>
          DuplicateMeansRecorded(start, items[0], sales[0]);
          LosesExactly(config, start, items[1..], sales[1..]);
          assert out[1..] == Batch(config, start, start, items[1..], sales[1..], false).value.1;
          LosesStep(items, out);
      }
    }
  }

  // ---------- what is in the ledger afterwards ----------

  /** The rows of the envelopes that were answered "accepted". */
  function AcceptedRows(items: seq<Envelope>, sales: seq<DocId>, out: seq<Status>): seq<Row>
    requires |items| == |sales| == |out|
  {
    if items == [] then []
    else (if out[0] == Accepted then Block(items[0], sales[0]) else []) + AcceptedRows(items[1..], sales[1..], out[1..])
  }

  /** The rows of those that survive the last duplicate. */
  function SurvivingRows(items: seq<Envelope>, sales: seq<DocId>, out: seq<Status>): seq<Row>
    requires |items| == |sales| == |out|
  {
    if items == [] then []
    else
      (if AlreadyProcessed in out[1..] || out[0] == AlreadyProcessed then [] else Block(items[0], sales[0]))
      + SurvivingRows(items[1..], sales[1..], out[1..])
  }

  lemma {:induction false} SurvivorsSell(inv: Inventory, items: seq<Envelope>, sales: seq<DocId>, out: seq<Status>)
    requires |items| == |sales| == |out| && ExecAll(inv, Surviving(items, sales, out)).Ok?
    ensures SalesIn(ExecAll(inv, Surviving(items, sales, out)).value.ledger)
         == SalesIn(inv.ledger) + SurvivingRows(items, sales, out)
    decreases |items|
  {
    if items != [] {
      if AlreadyProcessed in out[1..] || out[0] == AlreadyProcessed {
        SurvivorsSell(inv, items[1..], sales[1..], out[1..]);
      } else {
        ExecAllConcat(inv, SaleOps(items[0], sales[0]), Surviving(items[1..], sales[1..], out[1..]));
        SaleRecorded(inv, items[0], sales[0], 0);
        SurvivorsSell(ExecAll(inv, SaleOps(items[0], sales[0])).value, items[1..], sales[1..], out[1..]);
      }
    }
  }

  lemma {:induction false} BlockSize(env: Envelope, doc: DocId, i: nat)
    requires i <= |env.lines|
    ensures |BlockFrom(env, doc, i)| == |env.lines| - i
    decreases |env.lines| - i
  {
    if i < |env.lines| {
      BlockSize(env, doc, i + 1);
    }
  }

  /** Fewer rows survive than were accepted exactly when something is lost. */
  lemma {:induction false} SurvivingExactly(items: seq<Envelope>, sales: seq<DocId>, out: seq<Status>)
    requires |items| == |sales| == |out|
    ensures |SurvivingRows(items, sales, out)| <= |AcceptedRows(items, sales, out)|
    ensures SurvivingRows(items, sales, out) == AcceptedRows(items, sales, out) <==> !Loses(items, out)
    ensures Loses(items, out) ==> |SurvivingRows(items, sales, out)| < |AcceptedRows(items, sales, out)|
  {
    if items != [] {
      SurvivingExactly(items[1..], sales[1..], out[1..]);
      LosesStep(items, out);
      BlockSize(items[0], sales[0], 0);
    }
  }

  lemma BatchOfOneSame(config: Config, start: Inventory, items: seq<Envelope>, sales: seq<DocId>)
    requires |items| == |sales| && Batch(config, start, start, items, sales, |items| == 1).Ok?
    ensures Batch(config, start, start, items, sales, |items| == 1) == Batch(config, start, start, items, sales, false)
  {
    if |items| == 1 {
      assert items[1..] == [] && sales[1..] == [];
    }
  }

  /** A request that is answered leaves in the ledger exactly the rows of the envelopes it accepted
      if and only if no envelope that is new to the ledger is followed by a recorded or a repeated
      one. Otherwise it answers "accepted" for an envelope of which nothing is left. */
  lemma AcceptedCommittedExactly(config: Config, start: Inventory, items: seq<Envelope>, sales: seq<DocId>)
    requires |items| == |sales| && Batch(config, start, start, items, sales, |items| == 1).Ok?
    ensures var res := Batch(config, start, start, items, sales, |items| == 1).value;
            && |res.1| == |items|
            && ((SalesIn(res.0.ledger) == SalesIn(start.ledger) + AcceptedRows(items, sales, res.1))
                  <==> Lossless(start.ledger, items))
            && (Loses(items, res.1) <==> !Lossless(start.ledger, items))
  {
    BatchOfOneSame(config, start, items, sales);
    var res := Batch(config, start, start, items, sales, false).value;
    BatchCommits(config, start, start, items, sales);
    SurvivorsSell(start, items, sales, res.1);
    SurvivingExactly(items, sales, res.1);
    LosesExactly(config, start, items, sales);
    var before, accepted, surviving := SalesIn(start.ledger), AcceptedRows(items, sales, res.1),
        SurvivingRows(items, sales, res.1);
    assert |before + accepted| == |before + surviving| ==> |accepted| == |surviving|;
  }
}
