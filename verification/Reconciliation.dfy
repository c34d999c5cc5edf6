/** What approving a count does to the stock it counted. */
module Reconciliation {
  import opened Tables
  import opened Ledger
  import opened Database
  import opened Counts
  import opened Runs
  import opened Sums
  import Fifo
  import Purchasing

  // ---------- what holds of every session in every run ----------

  /** A session's snapshot is what the ledger said when it was opened, one row per pair, and no
      counted quantity is negative. */
  predicate SessionSound(ledger: seq<Row>, c: CountSession) {
    && c.openedAfter <= |ledger|
    && DistinctKeys(c.snapshots)
    && (forall i :: 0 <= i < |c.snapshots| ==>
          c.snapshots[i].onHand == Total(QtyAt(c.snapshots[i].key), ledger[..c.openedAfter]))
    && (forall i :: 0 <= i < |c.entries| ==> c.entries[i].qty >= 0)
  }

  predicate DistinctKeys(snaps: seq<Snapshot>) {
    forall i, j :: 0 <= i < j < |snaps| ==> snaps[i].key != snaps[j].key
  }

  predicate SessionsSound(db: Db) {
    forall c :: 0 <= c < |db.docs.counts| ==> SessionSound(db.inv.ledger, db.docs.counts[c])
  }

  lemma SoundStays(ledger: seq<Row>, longer: seq<Row>, c: CountSession)
    requires SessionSound(ledger, c) && ledger <= longer
    ensures SessionSound(longer, c)
  {
    assert longer[..c.openedAfter] == ledger[..c.openedAfter];
  }

  lemma OpenedSound(db: Db, scope: Scope, rows: seq<Key>, at: int)
    requires Agrees(db.inv) && IsScopeResult(db.inv.balances, scope, rows)
    ensures SessionSound(db.inv.ledger, CountSession(CountOpen, at, |db.inv.ledger|, Snapshots(db.inv, rows), []))
  {
    assert db.inv.ledger[..|db.inv.ledger|] == db.inv.ledger;
    forall i | 0 <= i < |rows| ensures OnHand(db.inv, rows[i]) == Total(QtyAt(rows[i]), db.inv.ledger) {
      assert AgreesAt(db.inv, rows[i]);
    }
  }

  /** The sessions a plan leaves are sound, if they were sound before it. */
  lemma PlanKeepsSessions(db: Db, a: Action)
    requires Agrees(db.inv) && SessionsSound(db) && PlanOf(db, a).Ok?
    ensures SessionsSound(Db(db.inv, PlanOf(db, a).value.docs))
  {
    if a.OpenCount? {
      OpenedSound(db, a.scope, a.rows, a.at);
    } else if a.SubmitCount? || a.ApproveCount? {
      SessionMoves(db, a);
    } else if a.PostReceipt? {
      Purchasing.ReceiveLinesKeeps(Purchasing.OpenReceipt(db.docs, a.receiptPo, a.loc, a.at),
                                   Purchasing.Delivery(|db.docs.receipts|, a.loc, a.at), a.deliveries);
    }
  }

  lemma SessionMoves(db: Db, a: Action)
    requires SessionsSound(db) && PlanOf(db, a).Ok? && (a.SubmitCount? || a.ApproveCount?)
    ensures SessionsSound(Db(db.inv, PlanOf(db, a).value.docs))
  {
    assert SessionSound(db.inv.ledger, db.docs.counts[a.count]);
  }

  lemma StepKeepsSessions(db: Db, a: Action)
    requires Agrees(db.inv) && SessionsSound(db)
    ensures SessionsSound(Step(db, a))
  {
    if Accepted(db, a) {
      var p := PlanOf(db, a).value;
      PlanKeepsSessions(db, a);
      LedgerGrows(db.inv, p.ops);
      forall c | 0 <= c < |p.docs.counts| ensures SessionSound(Step(db, a).inv.ledger, p.docs.counts[c]) {
        SoundStays(db.inv.ledger, Step(db, a).inv.ledger, p.docs.counts[c]);
      }
    }
  }

  lemma {:induction false} RunKeepsSessions(db: Db, actions: seq<Action>)
    requires Agrees(db.inv) && DriftBounded(db.inv) && SessionsSound(db)
    ensures SessionsSound(Run(db, actions))
    decreases |actions|
  {
    if actions != [] {
      StepKeepsSessions(db, actions[0]);
      StepKeepsProjections(db, actions[0]);
      RunKeepsSessions(Step(db, actions[0]), actions[1..]);
    }
  }

  /** What every run establishes. */
  lemma RunSound(config: Config, draws: seq<int>, actions: seq<Action>)
    ensures var db := Run(EmptyDb(config, draws), actions);
            Agrees(db.inv) && DriftBounded(db.inv) && SessionsSound(db)
  {
    EmptyAgrees(config, draws);
    RunKeepsProjections(EmptyDb(config, draws), actions);
    RunKeepsSessions(EmptyDb(config, draws), actions);
  }

  // ---------- the adjustments of one approval ----------

  predicate DistinctRows(rows: seq<VarianceRow>) {
    forall i, j :: 0 <= i < j < |rows| ==> rows[i].key != rows[j].key
  }

  lemma {:induction false} ReportRows(ledger: seq<Row>, c: CountSession, snaps: seq<Snapshot>)
    ensures var rows := Report(ledger, c, snaps);
            && |rows| == |snaps|
            && (forall i :: 0 <= i < |snaps| ==>
                  rows[i].key == snaps[i].key && rows[i].varianceQty == Variance(ledger, c, snaps[i]))
  {
    if snaps != [] {
      ReportRows(ledger, c, snaps[1..]);
    }
  }

  /** The adjustments of an approval move each pair of the report by its variance. */
  lemma {:induction false} ApproveMoves(rows: seq<VarianceRow>, doc: DocId, at: int, k: Key)
    requires DistinctRows(rows)
    ensures (forall i :: 0 <= i < |rows| ==> rows[i].key != k) ==> OpsTotal(QtyAt(k), ApproveOps(rows, doc, at)) == 0
    ensures forall i :: 0 <= i < |rows| && rows[i].key == k ==>
              OpsTotal(QtyAt(k), ApproveOps(rows, doc, at)) == rows[i].varianceQty
  {
    if rows != [] {
      ApproveMoves(rows[1..], doc, at, k);
      ApproveMoves(rows[1..], doc + 1, at, k);
      assert forall i :: 0 < i < |rows| ==> rows[i] == rows[1..][i - 1];
      if rows[0].varianceQty != 0 {
        OpsTotalConcat(QtyAt(k), [Move(Adjust(rows[0], doc, at))], ApproveOps(rows[1..], doc + 1, at));
      }
    }
  }

  /** A pair can absorb an adjustment of v. */
  predicate Absorbs(inv: Inventory, k: Key, v: int) {
    v < 0 ==> Fifo.Quantity(LayersAt(inv, k)) + v >= 0 && OnHand(inv, k) + v >= 0
  }

  lemma TakenAbsorbed(inv: Inventory, r: VarianceRow, doc: DocId, at: int)
    requires r.varianceQty < 0
    ensures Post(inv, Adjust(r, doc, at), NextId(inv)).Ok? <==> Absorbs(inv, r.key, r.varianceQty)
  {
    Fifo.ConsumeAccounts(LayersAt(inv, r.key), -r.varianceQty);
  }

  lemma PostAbsorbed(inv: Inventory, r: VarianceRow, doc: DocId, at: int)
    requires Agrees(inv) && r.varianceQty != 0
    ensures Post(inv, Adjust(r, doc, at), NextId(inv)).Ok? <==> Absorbs(inv, r.key, r.varianceQty)
  {
    assert AgreesAt(inv, r.key);
    if r.varianceQty < 0 {
      TakenAbsorbed(inv, r, doc, at);
    }
  }

  predicate AllAbsorb(inv: Inventory, rows: seq<VarianceRow>) {
    rows == [] || (Absorbs(inv, rows[0].key, rows[0].varianceQty) && AllAbsorb(inv, rows[1..]))
  }

  /** A movement changes nothing for the other pairs. */
  lemma {:induction false} PostElsewhere(inv: Inventory, m: Movement, rows: seq<VarianceRow>)
    requires Post(inv, m, NextId(inv)).Ok?
    requires forall i :: 0 <= i < |rows| ==> rows[i].key != m.key
    ensures AllAbsorb(Post(inv, m, NextId(inv)).value, rows) <==> AllAbsorb(inv, rows)
  {
    if rows != [] {
      PostElsewhere(inv, m, rows[1..]);
    }
  }

  /** An approval raises exactly when some pair cannot absorb its variance. */
  lemma {:induction false} ApproveGoesExactly(inv: Inventory, rows: seq<VarianceRow>, doc: DocId, at: int)
    requires Agrees(inv) && DistinctRows(rows)
    ensures ExecAll(inv, ApproveOps(rows, doc, at)).Ok? <==> AllAbsorb(inv, rows)
    decreases |rows|
  {
    if rows != [] {
      assert forall i :: 0 < i < |rows| ==> rows[i] == rows[1..][i - 1];
      if rows[0].varianceQty == 0 {
        ApproveGoesExactly(inv, rows[1..], doc, at);
      } else {
        var m := Adjust(rows[0], doc, at);
        PostAbsorbed(inv, rows[0], doc, at);
        HeadMoved(inv, m, ApproveOps(rows[1..], doc + 1, at));
        var posted := Post(inv, m, NextId(inv));
        if posted.Ok? {
          PostAgrees(inv, m, NextId(inv));
          PostElsewhere(inv, m, rows[1..]);
          ApproveGoesExactly(posted.value, rows[1..], doc + 1, at);
        }
      }
    }
  }

  lemma {:induction false} AllAbsorbIsEach(inv: Inventory, rows: seq<VarianceRow>)
    ensures AllAbsorb(inv, rows) <==> forall i :: 0 <= i < |rows| ==> Absorbs(inv, rows[i].key, rows[i].varianceQty)
  {
    if rows != [] {
      assert forall i :: 0 < i < |rows| ==> rows[i] == rows[1..][i - 1];
      AllAbsorbIsEach(inv, rows[1..]);
    }
  }

  // ---------- dates ----------

  /** Posted after the snapshot, but dated before the opening. */
  function Late(ledger: seq<Row>, c: CountSession, k: Key): int
    requires c.openedAfter <= |ledger|
  {
    Total(QtyDatedBefore(k, c.openedAt), ledger[c.openedAfter..])
  }

  /** Posted before the snapshot, but dated at or after the opening. */
  function Early(ledger: seq<Row>, c: CountSession, k: Key): int
    requires c.openedAfter <= |ledger|
  {
    Total(QtyDatedFrom(k, c.openedAt), ledger[..c.openedAfter])
  }

  /** On-hand plus variance, for one snapshot row of a session. */
  lemma VarianceCorrects(inv: Inventory, c: CountSession, i: nat)
    requires Agrees(inv) && SessionSound(inv.ledger, c) && i < |c.snapshots|
    ensures var k := c.snapshots[i].key;
            && OnHand(inv, k) + Variance(inv.ledger, c, c.snapshots[i])
                 == Counted(c.entries, k) + Late(inv.ledger, c, k) - Early(inv.ledger, c, k)
  {
    var k, n, ts := c.snapshots[i].key, c.openedAfter, c.openedAt;
    var before, after := inv.ledger[..n], inv.ledger[n..];
    assert inv.ledger == before + after;
    assert AgreesAt(inv, k);
    TotalConcat(QtyAt(k), before, after);
    TotalConcat(QtyDatedFrom(k, ts), before, after);
    TotalByDate(k, ts, after);
  }

  /** The dates of the pair's rows follow the order in which the rows were posted. */
  predicate DatesInOrder(ledger: seq<Row>, c: CountSession, k: Key)
    requires c.openedAfter <= |ledger|
  {
    && (forall i :: 0 <= i < c.openedAfter && ledger[i].key == k ==> ledger[i].occurredAt < c.openedAt)
    && (forall i :: c.openedAfter <= i < |ledger| && ledger[i].key == k ==> ledger[i].occurredAt >= c.openedAt)
  }

  lemma InOrderNoError(ledger: seq<Row>, c: CountSession, k: Key)
    requires c.openedAfter <= |ledger| && DatesInOrder(ledger, c, k)
    ensures Late(ledger, c, k) == 0 && Early(ledger, c, k) == 0
  {
    TotalZero(QtyDatedBefore(k, c.openedAt), ledger[c.openedAfter..]);
    TotalZero(QtyDatedFrom(k, c.openedAt), ledger[..c.openedAfter]);
  }

  /** No movement of the pair names a serial. */
  predicate AllLoose(ledger: seq<Row>, k: Key) {
    forall i :: 0 <= i < |ledger| && ledger[i].key == k ==> ledger[i].serial.None?
  }

  lemma {:induction false} LooseTotals(ledger: seq<Row>, k: Key)
    requires AllLoose(ledger, k)
    ensures Total(LayeredQtyAt(k), ledger) == Total(QtyAt(k), ledger)
  {
    if ledger != [] {
      LooseTotals(ledger[..|ledger| - 1], k);
    }
  }

  lemma {:induction false} CountedNonNegative(entries: seq<CountEntry>, k: Key)
    requires forall i :: 0 <= i < |entries| ==> entries[i].qty >= 0
    ensures Counted(entries, k) >= 0
  {
    if entries != [] {
      CountedNonNegative(entries[1..], k);
    }
  }

  // ---------- one approval ----------

  lemma ApprovalLeaves(db: Db, c: nat, at: int, i: nat)
    requires Agrees(db.inv) && DriftBounded(db.inv) && SessionsSound(db)
    requires Transact(db, PlanApprove(db, c, at)).Ok? && i < |db.docs.counts[c].snapshots|
    ensures var session, after := db.docs.counts[c], Transact(db, PlanApprove(db, c, at)).value;
            var k := session.snapshots[i].key;
            && OnHand(after.inv, k)
                 == Counted(session.entries, k) + Late(db.inv.ledger, session, k) - Early(db.inv.ledger, session, k)
  {
    var session, p := db.docs.counts[c], PlanApprove(db, c, at).value;
    var k := session.snapshots[i].key;
    assert SessionSound(db.inv.ledger, session);
    ReportRows(db.inv.ledger, session, session.snapshots);
    var rows := Report(db.inv.ledger, session, session.snapshots);
    ApproveMoves(rows, |db.docs.adjustments|, at, k);
    assert rows[i].key == k;
    ExecAllTotal(QtyAt(k), db.inv, p.ops);
    ExecAllKeeps(db.inv, p.ops);
    assert AgreesAt(db.inv, k) && AgreesAt(ExecAll(db.inv, p.ops).value, k);
    VarianceCorrects(db.inv, session, i);
  }

  lemma ApprovalGoes(db: Db, c: nat, at: int)
    requires Agrees(db.inv) && SessionsSound(db) && c < |db.docs.counts| && Countable(db.docs.counts[c])
    ensures var session := db.docs.counts[c];
            && (Transact(db, PlanApprove(db, c, at)).Ok? <==>
                  forall i :: 0 <= i < |session.snapshots| ==>
                    Absorbs(db.inv, session.snapshots[i].key, Variance(db.inv.ledger, session, session.snapshots[i])))
  {
    var session := db.docs.counts[c];
    assert SessionSound(db.inv.ledger, session);
    var rows := Report(db.inv.ledger, session, session.snapshots);
    ReportRows(db.inv.ledger, session, session.snapshots);
    ApproveGoesExactly(db.inv, rows, |db.docs.adjustments|, at);
    AllAbsorbIsEach(db.inv, rows);
  }

  lemma LooseAbsorbs(inv: Inventory, c: CountSession, i: nat)
    requires Agrees(inv) && SessionSound(inv.ledger, c) && i < |c.snapshots|
    requires DatesInOrder(inv.ledger, c, c.snapshots[i].key) && AllLoose(inv.ledger, c.snapshots[i].key)
    ensures Absorbs(inv, c.snapshots[i].key, Variance(inv.ledger, c, c.snapshots[i]))
  {
    var k := c.snapshots[i].key;
    assert AgreesAt(inv, k);
    VarianceCorrects(inv, c, i);
    InOrderNoError(inv.ledger, c, k);
    LooseTotals(inv.ledger, k);
    CountedNonNegative(c.entries, k);
  }

  // ---------- the main results ----------

  lemma ReachableSound(db: Db)
    requires Reachable(db)
    ensures Agrees(db.inv) && DriftBounded(db.inv) && SessionsSound(db)
  {
    var config, draws, actions :| db == Run(EmptyDb(config, draws), actions);
    RunSound(config, draws, actions);
  }

  /** After any run, an approval of an open or submitted session goes through exactly when every
      pair of its snapshot can absorb its variance: there are enough layers and enough on hand to
      take a shortage off. */
  lemma ApprovalGoesExactly(db: Db, c: nat, at: int)
    requires Reachable(db) && c < |db.docs.counts| && Countable(db.docs.counts[c])
    ensures var session := db.docs.counts[c];
            && (Accepted(db, ApproveCount(c, at)) <==>
                  forall i :: 0 <= i < |session.snapshots| ==>
                    Absorbs(db.inv, session.snapshots[i].key, Variance(db.inv.ledger, session, session.snapshots[i])))
  {
    ReachableSound(db);
    ApprovalGoes(db, c, at);
  }

  /** After any run, an approval that returns leaves each pair of its snapshot at the counted
      quantity, plus what was posted after the snapshot but dated before the opening, minus what
      was posted before the snapshot but dated at or after the opening. */
  lemma CountReconciles(db: Db, c: nat, at: int, i: nat)
    requires Reachable(db) && Accepted(db, ApproveCount(c, at)) && i < |db.docs.counts[c].snapshots|
    ensures var session, after := db.docs.counts[c], Step(db, ApproveCount(c, at));
            var k := session.snapshots[i].key;
            && session.openedAfter <= |db.inv.ledger|
            && OnHand(after.inv, k)
                 == Counted(session.entries, k) + Late(db.inv.ledger, session, k) - Early(db.inv.ledger, session, k)
  {
    ReachableSound(db);
    assert SessionSound(db.inv.ledger, db.docs.counts[c]);
    ApprovalLeaves(db, c, at, i);
  }

  /** It leaves the pair at the counted quantity exactly when the two misdated totals cancel. */
  lemma CountExactlyWhen(db: Db, c: nat, at: int, i: nat)
    requires Reachable(db) && Accepted(db, ApproveCount(c, at)) && i < |db.docs.counts[c].snapshots|
    ensures var session, after := db.docs.counts[c], Step(db, ApproveCount(c, at));
            var k := session.snapshots[i].key;
            && session.openedAfter <= |db.inv.ledger|
            && ((OnHand(after.inv, k) == Counted(session.entries, k))
                  <==> (Late(db.inv.ledger, session, k) == Early(db.inv.ledger, session, k)))
            && (DatesInOrder(db.inv.ledger, session, k) ==> OnHand(after.inv, k) == Counted(session.entries, k))
  {
    CountReconciles(db, c, at, i);
    var k := db.docs.counts[c].snapshots[i].key;
    if DatesInOrder(db.inv.ledger, db.docs.counts[c], k) {
      InOrderNoError(db.inv.ledger, db.docs.counts[c], k);
    }
  }

  /** After any run, approving an open or submitted session never raises when the pairs it covers
      are not serialised and their dates follow the posting order. */
  lemma ApproveNeverStuck(db: Db, c: nat, at: int)
    requires Reachable(db) && c < |db.docs.counts| && Countable(db.docs.counts[c])
    requires db.docs.counts[c].openedAfter <= |db.inv.ledger|
    requires forall i :: 0 <= i < |db.docs.counts[c].snapshots| ==>
               && DatesInOrder(db.inv.ledger, db.docs.counts[c], db.docs.counts[c].snapshots[i].key)
               && AllLoose(db.inv.ledger, db.docs.counts[c].snapshots[i].key)
    ensures Accepted(db, ApproveCount(c, at))
  {
    ReachableSound(db);
    var session := db.docs.counts[c];
    forall i | 0 <= i < |session.snapshots|
      ensures Absorbs(db.inv, session.snapshots[i].key, Variance(db.inv.ledger, session, session.snapshots[i]))
    {
      LooseAbsorbs(db.inv, session, i);
    }
    ApprovalGoes(db, c, at);
  }

  lemma {:induction false} RunLedgerGrows(db: Db, actions: seq<Action>)
    ensures db.inv.ledger <= Run(db, actions).inv.ledger
    decreases |actions|
  {
    if actions != [] {
      if Accepted(db, actions[0]) {
        LedgerGrows(db.inv, PlanOf(db, actions[0]).value.ops);
      }
      RunLedgerGrows(Step(db, actions[0]), actions[1..]);
    }
  }

  /** Two sessions that cover the same pair, approved one after the other with any calls in
      between: the later approval leaves the pair at its own count, and adjusts it only by what
      its count differs from the earlier count plus the movements made in between. The earlier
      adjustment is not made twice. */
  lemma OverlappingCounts(db0: Db, between: seq<Action>, a: nat, atA: int, i: nat, b: nat, atB: int, j: nat)
    requires Reachable(db0) && Accepted(db0, ApproveCount(a, atA)) && i < |db0.docs.counts[a].snapshots|
    requires db0.docs.counts[a].openedAfter <= |db0.inv.ledger|
    requires DatesInOrder(db0.inv.ledger, db0.docs.counts[a], db0.docs.counts[a].snapshots[i].key)
    requires var db2 := Run(Step(db0, ApproveCount(a, atA)), between);
             && Accepted(db2, ApproveCount(b, atB)) && j < |db2.docs.counts[b].snapshots|
             && db2.docs.counts[b].openedAfter <= |db2.inv.ledger|
             && db0.docs.counts[a].snapshots[i].key == db2.docs.counts[b].snapshots[j].key
             && DatesInOrder(db2.inv.ledger, db2.docs.counts[b], db2.docs.counts[b].snapshots[j].key)
    ensures var db1 := Step(db0, ApproveCount(a, atA));
            var db2 := Run(db1, between);
            var first, second := db0.docs.counts[a], db2.docs.counts[b];
            var k := first.snapshots[i].key;
            && db1.inv.ledger <= db2.inv.ledger
            && OnHand(Step(db2, ApproveCount(b, atB)).inv, k) == Counted(second.entries, k)
            && Variance(db2.inv.ledger, second, second.snapshots[j])
                 == Counted(second.entries, k) - Counted(first.entries, k)
                  - Total(QtyAt(k), db2.inv.ledger[|db1.inv.ledger|..])
  {
    var db1 := Step(db0, ApproveCount(a, atA));
    var db2 := Run(db1, between);
    var k := db0.docs.counts[a].snapshots[i].key;
    ReachableSound(db0);
    StepKeepsProjections(db0, ApproveCount(a, atA));
    StepKeepsSessions(db0, ApproveCount(a, atA));
    RunKeepsProjections(db1, between);
    RunKeepsSessions(db1, between);
    RunLedgerGrows(db1, between);
    ApprovalLeaves(db0, a, atA, i);
    ApprovalLeaves(db2, b, atB, j);
    InOrderNoError(db0.inv.ledger, db0.docs.counts[a], k);
    InOrderNoError(db2.inv.ledger, db2.docs.counts[b], k);
    assert SessionSound(db2.inv.ledger, db2.docs.counts[b]);
    VarianceCorrects(db2.inv, db2.docs.counts[b], j);
    MovedBetween(db1.inv, db2.inv, k);
  }

  lemma MovedBetween(before: Inventory, after: Inventory, k: Key)
    requires Agrees(before) && Agrees(after) && before.ledger <= after.ledger
    ensures OnHand(after, k) == OnHand(before, k) + Total(QtyAt(k), after.ledger[|before.ledger|..])
  {
    assert after.ledger == before.ledger + after.ledger[|before.ledger|..];
    TotalConcat(QtyAt(k), before.ledger, after.ledger[|before.ledger|..]);
    assert AgreesAt(before, k) && AgreesAt(after, k);
  }

  // ---------- the entries of a run ----------

  /** What an entry counts of a pair. */
  function EntryQty(k: Key): CountEntry -> int {
    (e: CountEntry) => if e.key == k then e.qty else 0
  }

  /** What a ledger row moves of a pair, if it is dated before `ts`, and if it is not. */
  function MovedBefore(k: Key, ts: int): Row -> int {
    (r: Row) => if r.key == k && r.occurredAt < ts then r.qty else 0
  }

  function MovedFrom(k: Key, ts: int): Row -> int {
    (r: Row) => if r.key == k && r.occurredAt >= ts then r.qty else 0
  }

  lemma {:induction false} CountedIsSum(entries: seq<CountEntry>, k: Key)
    ensures Counted(entries, k) == SumOf(entries, EntryQty(k))
  {
    if entries != [] {
      CountedIsSum(entries[1..], k);
    }
  }

  lemma {:induction false} TotalsAreSums(rows: seq<Row>, k: Key, ts: int)
    ensures Total(QtyDatedBefore(k, ts), rows) == SumOf(rows, MovedBefore(k, ts))
    ensures Total(QtyDatedFrom(k, ts), rows) == SumOf(rows, MovedFrom(k, ts))
  {
    if rows != [] {
      var front, last := rows[..|rows| - 1], rows[|rows| - 1];
      TotalsAreSums(front, k, ts);
      assert rows == front + [last];
      SumOfConcat(front, [last], MovedBefore(k, ts));
      SumOfConcat(front, [last], MovedFrom(k, ts));
      SumOfOne(last, MovedBefore(k, ts));
      SumOfOne(last, MovedFrom(k, ts));
    }
  }

  /** The entries of the calls of a run that were accepted for session `c`, in order. */
  function Submitted(db: Db, actions: seq<Action>, c: nat): seq<CountEntry>
    decreases |actions|
  {
    if actions == [] then []
    else
      var a := actions[0];
      (if a.SubmitCount? && a.count == c && Accepted(db, a) then a.entries else [])
      + Submitted(Step(db, a), actions[1..], c)
  }

  function EntriesOf(docs: Docs, c: nat): seq<CountEntry> {
    if c < |docs.counts| then docs.counts[c].entries else []
  }

  lemma StepSubmits(db: Db, a: Action, c: nat)
    ensures EntriesOf(Step(db, a).docs, c)
         == EntriesOf(db.docs, c) + (if a.SubmitCount? && a.count == c && Accepted(db, a) then a.entries else [])
  {
    if a.PostReceipt? && a.receiptPo < |db.docs.orders| {
      Purchasing.ReceiveLinesKeeps(Purchasing.OpenReceipt(db.docs, a.receiptPo, a.loc, a.at),
                                   Purchasing.Delivery(|db.docs.receipts|, a.loc, a.at), a.deliveries);
    }
  }

  lemma Regroup<T>(a: seq<T>, b: seq<T>, c: seq<T>)
    ensures (a + b) + c == a + (b + c)
  {
  }

  lemma {:induction false} RunSubmits(db: Db, actions: seq<Action>, c: nat)
    ensures EntriesOf(Run(db, actions).docs, c) == EntriesOf(db.docs, c) + Submitted(db, actions, c)
    decreases |actions|
  {
    if actions != [] {
      var a := actions[0];
      var now := if a.SubmitCount? && a.count == c && Accepted(db, a) then a.entries else [];
      StepSubmits(db, a, c);
      RunSubmits(Step(db, a), actions[1..], c);
      Regroup(EntriesOf(db.docs, c), now, Submitted(Step(db, a), actions[1..], c));
    }
  }

  lemma ApprovalEnds(db: Db, c: nat, at: int, i: nat, entries: seq<CountEntry>)
    requires Reachable(db) && Accepted(db, ApproveCount(c, at)) && i < |db.docs.counts[c].snapshots|
    requires EntriesOf(db.docs, c) == entries
    ensures var session, ledger, after := db.docs.counts[c], db.inv.ledger, Step(db, ApproveCount(c, at));
            var k, ts := session.snapshots[i].key, session.openedAt;
            && session.state in {CountOpen, CountSubmitted} && after.docs.counts[c].state == CountApproved
            && session.openedAfter <= |ledger|
            && OnHand(after.inv, k)
                 == SumOf(entries, EntryQty(k)) + SumOf(ledger[session.openedAfter..], MovedBefore(k, ts))
                  - SumOf(ledger[..session.openedAfter], MovedFrom(k, ts))
  {
    var session := db.docs.counts[c];
    var k := session.snapshots[i].key;
    ApprovalMoves(db, c, at);
    CountReconciles(db, c, at, i);
    CountedIsSum(session.entries, k);
    MisdatedSums(db.inv.ledger, session, k);
  }

  /** An approval takes an open or submitted session to approved. */
  lemma ApprovalMoves(db: Db, c: nat, at: int)
    requires Accepted(db, ApproveCount(c, at))
    ensures c < |db.docs.counts| && db.docs.counts[c].state in {CountOpen, CountSubmitted}
    ensures c < |Step(db, ApproveCount(c, at)).docs.counts|
    ensures Step(db, ApproveCount(c, at)).docs.counts[c] == db.docs.counts[c].(state := CountApproved)
  {
  }

  lemma MisdatedSums(ledger: seq<Row>, c: CountSession, k: Key)
    requires c.openedAfter <= |ledger|
    ensures Late(ledger, c, k) == SumOf(ledger[c.openedAfter..], MovedBefore(k, c.openedAt))
    ensures Early(ledger, c, k) == SumOf(ledger[..c.openedAfter], MovedFrom(k, c.openedAt))
  {
    TotalsAreSums(ledger[c.openedAfter..], k, c.openedAt);
    TotalsAreSums(ledger[..c.openedAfter], k, c.openedAt);
  }

  /** After any run: an approval that is accepted is of an open or submitted session, and leaves each
      pair of its snapshot at the sum of what all the calls accepted for the session counted, plus the
      rows posted after the snapshot but dated before the opening, minus the rows posted before the
      snapshot but dated at or after the opening. */
  lemma CountEndsAtEntries(config: Config, draws: seq<int>, actions: seq<Action>, c: nat, at: int, i: nat)
    requires var db := Run(EmptyDb(config, draws), actions);
             Accepted(db, ApproveCount(c, at)) && i < |db.docs.counts[c].snapshots|
    ensures var db := Run(EmptyDb(config, draws), actions);
            var session, ledger, after := db.docs.counts[c], db.inv.ledger, Step(db, ApproveCount(c, at));
            var k, ts := session.snapshots[i].key, session.openedAt;
            && session.state in {CountOpen, CountSubmitted} && after.docs.counts[c].state == CountApproved
            && session.openedAfter <= |ledger|
            && OnHand(after.inv, k)
                 == SumOf(Submitted(EmptyDb(config, draws), actions, c), EntryQty(k))
                  + SumOf(ledger[session.openedAfter..], MovedBefore(k, ts))
                  - SumOf(ledger[..session.openedAfter], MovedFrom(k, ts))
  {
    var db := Run(EmptyDb(config, draws), actions);
    RunSubmits(EmptyDb(config, draws), actions, c);
    ApprovalEnds(db, c, at, i, Submitted(EmptyDb(config, draws), actions, c));
  }
}
