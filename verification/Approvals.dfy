/** Approving a count reads the session without locking it, row by row, and posts at the end. What
    happens when the same session is approved twice at once. */
module Approvals {
  import opened Tables
  import opened Ledger
  import opened Database
  import opened Counts
  import opened Runs
  import Fifo
  import Purchasing
  import Reconciliation
  import Transit

  // ---------- the steps of an approval ----------

  /** Before the state of the session is read; with the variances computed so far; or over. */
  datatype Phase = Begun | Computing(rows: seq<VarianceRow>) | Finished(posted: bool)

  /** `at` is the time of the approval, which dates its movements. */
  datatype Approval = Approval(count: nat, at: int, phase: Phase)

  datatype System = System(db: Db, approvals: seq<Approval>)

  datatype Event =
    | Check(t: nat)       // reads the state of the session
    | Compute(t: nat)     // the sums for one more snapshot row
    | Post(t: nat)        // the movements, the update of the session and the commit
    | Other(a: Action)    // any other call of any service

  function Checked(db: Db, x: Approval): Approval {
    x.(phase := if x.count < |db.docs.counts| && Countable(db.docs.counts[x.count]) then Computing([])
                else Finished(false))
  }

  /** The snapshot rows are read once and never change; everything else is read as it stands. */
  function Computed(db: Db, x: Approval): Approval
    requires x.phase.Computing? && x.count < |db.docs.counts|
    requires |x.phase.rows| < |db.docs.counts[x.count].snapshots|
  {
    var session := db.docs.counts[x.count];
    x.(phase := Computing(x.phase.rows + Report(db.inv.ledger, session, [session.snapshots[|x.phase.rows|]])))
  }

  /** The movements hold their balance rows to the commit (see Locking), so posting is one step. */
  function Posting(db: Db, x: Approval): Outcome<Db>
    requires x.phase.Computing? && x.count < |db.docs.counts|
  {
    var session := db.docs.counts[x.count];
    Transact(db, Ok(Plan(ApproveOps(x.phase.rows, |db.docs.adjustments|, x.at),
                         db.docs.(counts := db.docs.counts[x.count := session.(state := CountApproved)],
                                  adjustments := db.docs.adjustments + Adjustments(x.phase.rows, x.count)))))
  }

  function Posted(s: System, t: nat): System
    requires t < |s.approvals| && s.approvals[t].phase.Computing? && s.approvals[t].count < |s.db.docs.counts|
  {
    var o := Posting(s.db, s.approvals[t]);
    System(Committed(s.db, o), s.approvals[t := s.approvals[t].(phase := Finished(o.Ok?))])
  }

  /** A step that is not its turn changes nothing. Approvals go by their steps and never by `Other`. */
  function Next(s: System, e: Event): System {
    if e.Other? then (if e.a.ApproveCount? then s else s.(db := Step(s.db, e.a)))
    else if e.t >= |s.approvals| then s
    else
      var x := s.approvals[e.t];
      if e.Check? then (if x.phase.Begun? then s.(approvals := s.approvals[e.t := Checked(s.db, x)]) else s)
      else if !x.phase.Computing? || x.count >= |s.db.docs.counts| then s
      else
        var size := |s.db.docs.counts[x.count].snapshots|;
        if e.Compute? then
          if |x.phase.rows| < size then s.(approvals := s.approvals[e.t := Computed(s.db, x)]) else s
        else if |x.phase.rows| == size then Posted(s, e.t) else s
  }

  function Run(s: System, events: seq<Event>): System
    decreases |events|
  {
    if events == [] then s else Run(Next(s, events[0]), events[1..])
  }

  lemma {:induction false} RunConcat(s: System, a: seq<Event>, b: seq<Event>)
    ensures Run(s, a + b) == Run(Run(s, a), b)
    decreases |a|
  {
    if a == [] {
      assert a + b == b;
    } else {
      assert (a + b)[1..] == a[1..] + b;
      RunConcat(Next(s, a[0]), a[1..], b);
    }
  }

  // ---------- one approval at a time ----------

  /** An approval of the session reads its state only while no other one is computing. */
  predicate TakesTurns(s: System, events: seq<Event>, c: nat)
    decreases |events|
  {
    events != [] ==>
      && (events[0].Check? && events[0].t < |s.approvals| && s.approvals[events[0].t].count == c ==>
            forall u :: 0 <= u < |s.approvals| && s.approvals[u].count == c ==> !s.approvals[u].phase.Computing?)
      && TakesTurns(Next(s, events[0]), events[1..], c)
  }

  predicate HasPosted(x: Approval, c: nat) {
    x.count == c && x.phase == Finished(true)
  }

  predicate IsComputing(x: Approval, c: nat) {
    x.count == c && x.phase.Computing?
  }

  /** Whoever posted did so alone, and the session is approved; whoever computes does so alone. */
  predicate Alone(s: System, c: nat) {
    && (forall t, u :: 0 <= t < u < |s.approvals| ==> !(HasPosted(s.approvals[t], c) && HasPosted(s.approvals[u], c)))
    && (forall t, u :: 0 <= t < u < |s.approvals| ==>
          !(IsComputing(s.approvals[t], c) && IsComputing(s.approvals[u], c)))
    && (forall t :: 0 <= t < |s.approvals| && HasPosted(s.approvals[t], c) ==>
          && c < |s.db.docs.counts| && s.db.docs.counts[c].state == CountApproved
          && (forall u :: 0 <= u < |s.approvals| ==> !IsComputing(s.approvals[u], c)))
  }

  /** An approved session stays approved. */
  lemma ApprovedStays(db: Db, a: Action, c: nat)
    requires c < |db.docs.counts| && db.docs.counts[c].state == CountApproved
    ensures c < |Step(db, a).docs.counts| && Step(db, a).docs.counts[c].state == CountApproved
  {
    if a.PostReceipt? && a.receiptPo < |db.docs.orders| {
      Purchasing.ReceiveLinesKeeps(Purchasing.OpenReceipt(db.docs, a.receiptPo, a.loc, a.at),
                                   Purchasing.Delivery(|db.docs.receipts|, a.loc, a.at), a.deliveries);
    }
  }

  lemma OtherAlone(s: System, a: Action, c: nat)
    requires Alone(s, c)
    ensures Alone(Next(s, Other(a)), c)
  {
    if c < |s.db.docs.counts| && s.db.docs.counts[c].state == CountApproved {
      ApprovedStays(s.db, a, c);
    }
  }

  lemma PostAlone(s: System, t: nat, c: nat)
    requires Alone(s, c) && t < |s.approvals| && s.approvals[t].phase.Computing?
    requires s.approvals[t].count < |s.db.docs.counts|
    ensures Alone(Posted(s, t), c)
  {
  }

  lemma NextAlone(s: System, e: Event, c: nat)
    requires Alone(s, c) && TakesTurns(s, [e], c)
    ensures Alone(Next(s, e), c)
  {
    match e
    case Other(a) => OtherAlone(s, a, c);
    case Post(t) =>
      if Next(s, e) != s {
        PostAlone(s, t, c);
      }
    case Check(_) =>
    case Compute(_) =>
  }

  lemma {:induction false} RunAlone(s: System, events: seq<Event>, c: nat)
    requires Alone(s, c) && TakesTurns(s, events, c)
    ensures Alone(Run(s, events), c)
    decreases |events|
  {
    if events != [] {
      assert [events[0]][1..] == [];
      NextAlone(s, events[0], c);
      RunAlone(Next(s, events[0]), events[1..], c);
    }
  }

  /** Over any run of any number of approvals and any other calls: if the approvals of a session take
      turns, at most one of them posts. */
  lemma TurnsPostOnce(s: System, events: seq<Event>, c: nat)
    requires forall t :: 0 <= t < |s.approvals| ==> s.approvals[t].phase.Begun?
    requires TakesTurns(s, events, c)
    ensures var s' := Run(s, events);
            forall t, u :: 0 <= t < u < |s'.approvals| ==>
                !(HasPosted(s'.approvals[t], c) && HasPosted(s'.approvals[u], c))
  {
    RunAlone(s, events, c);
  }

  // ---------- approvals that overlap ----------

  function Differences(db: Db, c: nat): seq<VarianceRow>
    requires c < |db.docs.counts|
  {
    Report(db.inv.ledger, db.docs.counts[c], db.docs.counts[c].snapshots)
  }

  /** The first row that differs, or the number of rows. */
  function FirstOff(rows: seq<VarianceRow>): (f: nat)
    ensures f <= |rows|
    ensures forall i :: 0 <= i < f ==> rows[i].varianceQty == 0
    ensures f < |rows| ==> rows[f].varianceQty != 0
  {
    if rows == [] || rows[0].varianceQty != 0 then 0
    else
      var rest := FirstOff(rows[1..]);
      assert forall i :: 0 < i < |rows| ==> rows[i] == rows[1..][i - 1];
      1 + rest
  }

  /** Some pair differs, every pair can absorb its variance, and the first that differs can absorb
      it twice. */
  predicate CanDouble(db: Db, c: nat) {
    && c < |db.docs.counts| && Countable(db.docs.counts[c])
    && Reconciliation.AllAbsorb(db.inv, Differences(db, c))
    && var rows := Differences(db, c);
       var f := FirstOff(rows);
       f < |rows| && Reconciliation.Absorbs(db.inv, rows[f].key, 2 * rows[f].varianceQty)
  }

  function Start(db: Db, c: nat, times: seq<int>): System {
    System(db, seq(|times|, i requires 0 <= i < |times| => Approval(c, times[i], Begun)))
  }

  /** What one approval leaves, or none. */
  ghost predicate AsOnce(db: Db, c: nat, times: seq<int>, after: Db) {
    after == db
    || (exists t :: 0 <= t < |times| && Accepted(db, ApproveCount(c, times[t]))
                    && after == Step(db, ApproveCount(c, times[t])))
  }

  predicate AllZero(rows: seq<VarianceRow>) {
    forall i :: 0 <= i < |rows| ==> rows[i].varianceQty == 0
  }

  /** Rows of which the first that differs, if any does, is the first of `base` that does. */
  predicate Trailing(base: seq<VarianceRow>, rows: seq<VarianceRow>) {
    && |rows| <= |base|
    && (AllZero(rows)
        || var f := FirstOff(base);
           f < |rows| && rows[f] == base[f] && forall i :: 0 <= i < f ==> rows[i].varianceQty == 0)
  }

  lemma {:induction false} ReportAt(ledger: seq<Row>, c: CountSession, snaps: seq<Snapshot>, i: nat)
    requires i < |snaps|
    ensures |Report(ledger, c, snaps)| == |snaps| && Report(ledger, c, [snaps[i]]) == [Report(ledger, c, snaps)[i]]
  {
    Reconciliation.ReportRows(ledger, c, snaps);
    assert [snaps[i]][1..] == [];
    if i > 0 {
      ReportAt(ledger, c, snaps[1..], i - 1);
      assert snaps[i] == snaps[1..][i - 1];
    }
  }

  /** A movement at or after the opening counts fully in every sum of the pair. */
  lemma {:induction false} AdjustmentsDated(rows: seq<VarianceRow>, doc: DocId, at: int, k: Key, ts: int)
    requires at >= ts
    ensures OpsTotal(QtyDatedFrom(k, ts), ApproveOps(rows, doc, at)) == OpsTotal(QtyAt(k), ApproveOps(rows, doc, at))
    ensures OpsTotal(LayeredQtyAt(k), ApproveOps(rows, doc, at)) == OpsTotal(QtyAt(k), ApproveOps(rows, doc, at))
  {
    if rows != [] {
      if rows[0].varianceQty == 0 {
        AdjustmentsDated(rows[1..], doc, at, k, ts);
      } else {
        AdjustmentsDated(rows[1..], doc + 1, at, k, ts);
        var head, tail := [Move(Adjust(rows[0], doc, at))], ApproveOps(rows[1..], doc + 1, at);
        OpsTotalConcat(QtyDatedFrom(k, ts), head, tail);
        OpsTotalConcat(LayeredQtyAt(k), head, tail);
        OpsTotalConcat(QtyAt(k), head, tail);
      }
    }
  }

  /** After an approval dated at or after the opening: each pair has moved by its variance, and
      computing the variance again gives zero. */
  lemma OneApprovalLeaves(db: Db, c: nat, at: int, i: nat)
    requires Reachable(db) && Accepted(db, ApproveCount(c, at)) && i < |db.docs.counts[c].snapshots|
    requires at >= db.docs.counts[c].openedAt
    ensures |Differences(db, c)| == |db.docs.counts[c].snapshots|
    ensures var session, after, k := db.docs.counts[c], Step(db, ApproveCount(c, at)),
        db.docs.counts[c].snapshots[i].key;
            var v := Differences(db, c)[i].varianceQty;
            && Differences(db, c)[i].key == k
            && OnHand(after.inv, k) == OnHand(db.inv, k) + v
            && Fifo.Quantity(LayersAt(after.inv, k)) == Fifo.Quantity(LayersAt(db.inv, k)) + v
            && Variance(after.inv.ledger, session, session.snapshots[i]) == 0
  {
    var session := db.docs.counts[c];
    var k, ts, rows, doc := session.snapshots[i].key, session.openedAt, Differences(db, c), |db.docs.adjustments|;
    var ops := ApproveOps(rows, doc, at);
    Reconciliation.ReachableSound(db);
    assert Reconciliation.SessionSound(db.inv.ledger, session);
    Reconciliation.ReportRows(db.inv.ledger, session, session.snapshots);
    Reconciliation.ApproveMoves(rows, doc, at, k);
    AdjustmentsDated(rows, doc, at, k, ts);
    Transit.OnHandAfter(db.inv, ops, k);
    ExecAllTotal(QtyDatedFrom(k, ts), db.inv, ops);
  }

  // ---------- every interleaving ----------

  /** The approvals are of this session, at these times. */
  predicate Of(s: System, c: nat, times: seq<int>) {
    && |s.approvals| == |times|
    && (forall t :: 0 <= t < |times| ==> s.approvals[t].count == c && s.approvals[t].at == times[t])
  }

  /** None has posted: what they computed is what one approval would. */
  predicate BeforeAny(db: Db, c: nat, times: seq<int>, s: System) {
    && s.db == db && Of(s, c, times)
    && (forall t :: 0 <= t < |times| && s.approvals[t].phase.Computing? ==>
          && c < |db.docs.counts| && Countable(db.docs.counts[c])
          && s.approvals[t].phase.rows <= Differences(db, c))
  }

  /** The database is as one approval leaves it. */
  ghost predicate AfterOne(db: Db, c: nat, times: seq<int>, s: System) {
    && c < |db.docs.counts| && Of(s, c, times) && AllAfter(times, db.docs.counts[c].openedAt)
    && (exists u :: 0 <= u < |times| && OneApproval(db, c, times[u], s.db))
    && (forall t :: 0 <= t < |times| && s.approvals[t].phase.Computing? ==>
          Trailing(Differences(db, c), s.approvals[t].phase.rows))
  }

  predicate AllAfter(times: seq<int>, ts: int) {
    forall t :: 0 <= t < |times| ==> times[t] >= ts
  }

  predicate OneApproval(db: Db, c: nat, at: int, after: Db) {
    Accepted(db, ApproveCount(c, at)) && after == Step(db, ApproveCount(c, at))
  }

  lemma PrefixTrails(base: seq<VarianceRow>, rows: seq<VarianceRow>)
    requires rows <= base
    ensures Trailing(base, rows)
  {
    var f := FirstOff(base);
    assert forall i :: 0 <= i < |rows| ==> rows[i] == base[i];
    if f < |rows| {
      assert rows[f] == base[f];
    }
  }

  lemma ZeroTrails(base: seq<VarianceRow>, rows: seq<VarianceRow>, row: VarianceRow)
    requires Trailing(base, rows) && row.varianceQty == 0 && |rows| < |base|
    ensures Trailing(base, rows + [row])
  {
  }

  lemma PostBefore(db: Db, c: nat, times: seq<int>, s: System, t: nat)
    requires BeforeAny(db, c, times, s) && t < |times| && s.approvals[t].phase.Computing?
    requires AllAfter(times, db.docs.counts[c].openedAt)
    requires |s.approvals[t].phase.rows| == |db.docs.counts[c].snapshots|
    ensures BeforeAny(db, c, times, Posted(s, t)) || AfterOne(db, c, times, Posted(s, t))
  {
    Reconciliation.ReportRows(db.inv.ledger, db.docs.counts[c], db.docs.counts[c].snapshots);
    assert s.approvals[t].phase.rows == Differences(db, c);
    assert Posting(db, s.approvals[t]) == Transact(db, PlanApprove(db, c, times[t]));
    if Posting(db, s.approvals[t]).Ok? {
      assert OneApproval(db, c, times[t], Posted(s, t).db);
      forall u | 0 <= u < |times| && Posted(s, t).approvals[u].phase.Computing?
        ensures Trailing(Differences(db, c), Posted(s, t).approvals[u].phase.rows)
      {
        PrefixTrails(Differences(db, c), s.approvals[u].phase.rows);
      }
    }
  }

  lemma ComputeBefore(db: Db, c: nat, times: seq<int>, s: System, t: nat)
    requires BeforeAny(db, c, times, s) && t < |times| && s.approvals[t].phase.Computing?
    requires |s.approvals[t].phase.rows| < |db.docs.counts[c].snapshots|
    ensures BeforeAny(db, c, times, s.(approvals := s.approvals[t := Computed(db, s.approvals[t])]))
  {
    var rows, session := s.approvals[t].phase.rows, db.docs.counts[c];
    ReportAt(db.inv.ledger, session, session.snapshots, |rows|);
    assert rows + [Differences(db, c)[|rows|]] <= Differences(db, c);
  }

  lemma NextBefore(db: Db, c: nat, times: seq<int>, s: System, e: Event)
    requires BeforeAny(db, c, times, s) && !e.Other?
    requires c < |db.docs.counts| ==> AllAfter(times, db.docs.counts[c].openedAt)
    ensures BeforeAny(db, c, times, Next(s, e)) || AfterOne(db, c, times, Next(s, e))
  {
    if e.t < |times| && s.approvals[e.t].phase.Computing? {
      if e.Compute? && |s.approvals[e.t].phase.rows| < |db.docs.counts[c].snapshots| {
        ComputeBefore(db, c, times, s, e.t);
      } else if e.Post? && |s.approvals[e.t].phase.rows| == |db.docs.counts[c].snapshots| {
        PostBefore(db, c, times, s, e.t);
      }
    }
  }

  /** Rows that are all zero post nothing. */
  lemma {:induction false} NothingToPost(rows: seq<VarianceRow>, doc: DocId, at: int, c: nat)
    requires AllZero(rows)
    ensures ApproveOps(rows, doc, at) == [] && Adjustments(rows, c) == []
  {
    if rows != [] {
      NothingToPost(rows[1..], doc, at, c);
    }
  }

  /** The first adjustment is for the first row that differs. */
  lemma {:induction false} FirstPosts(rows: seq<VarianceRow>, doc: DocId, at: int, c: nat, f: nat)
    requires f < |rows| && rows[f].varianceQty != 0 && forall i :: 0 <= i < f ==> rows[i].varianceQty == 0
    ensures ApproveOps(rows, doc, at) == [Move(Adjust(rows[f], doc, at))] + ApproveOps(rows[f + 1..], doc + 1, at)
    ensures Adjustments(rows, c) == [Adjustment(rows[f].key, rows[f].varianceQty, c)] + Adjustments(rows[f + 1..], c)
  {
    if f > 0 {
      assert rows[1..][f - 1] == rows[f] && rows[1..][f..] == rows[f + 1..];
      assert forall i :: 0 <= i < f - 1 ==> rows[1..][i] == rows[i + 1];
      FirstPosts(rows[1..], doc, at, c, f - 1);
    }
  }

  /** After one approval, the first pair that differed can take its adjustment again exactly when it
      could absorb it twice before. */
  lemma AgainExactly(db: Db, c: nat, at: int, again: int, after: Db)
    requires Reachable(db) && OneApproval(db, c, at, after) && at >= db.docs.counts[c].openedAt
    requires FirstOff(Differences(db, c)) < |Differences(db, c)|
    ensures var row := Differences(db, c)[FirstOff(Differences(db, c))];
            && Agrees(after.inv)
            && ((Ledger.Post(after.inv, Adjust(row, |after.docs.adjustments|, again), NextId(after.inv)).Ok?)
                  <==> Reconciliation.Absorbs(db.inv, row.key, 2 * row.varianceQty))
  {
    var f := FirstOff(Differences(db, c));
    Reconciliation.ReportRows(db.inv.ledger, db.docs.counts[c], db.docs.counts[c].snapshots);
    OneApprovalLeaves(db, c, at, f);
    Reconciliation.ReachableSound(db);
    StepKeepsProjections(db, ApproveCount(c, at));
    Reconciliation.PostAbsorbed(after.inv, Differences(db, c)[f], |after.docs.adjustments|, again);
  }

  lemma OneApprovalDocs(db: Db, c: nat, at: int, after: Db)
    requires OneApproval(db, c, at, after)
    ensures c < |db.docs.counts| && Countable(db.docs.counts[c])
    ensures after.docs == db.docs.(counts := db.docs.counts[c := db.docs.counts[c].(state := CountApproved)],
                                   adjustments := db.docs.adjustments + Adjustments(Differences(db, c), c))
    ensures ExecAll(db.inv, ApproveOps(Differences(db, c), |db.docs.adjustments|, at)) == Ok(after.inv)
  {
  }

  /** Once one has posted, another leaves the database alone unless the session can be doubled. */
  lemma PostAfter(db: Db, c: nat, at: int, x: Approval, after: Db)
    requires Reachable(db) && OneApproval(db, c, at, after) && !CanDouble(db, c)
    requires at >= db.docs.counts[c].openedAt
    requires x.count == c && x.phase.Computing? && Trailing(Differences(db, c), x.phase.rows)
    ensures c < |after.docs.counts| && Committed(after, Posting(after, x)) == after
  {
    var base, rows, doc := Differences(db, c), x.phase.rows, |after.docs.adjustments|;
    OneApprovalDocs(db, c, at, after);
    if AllZero(rows) {
      NothingToPost(rows, doc, x.at, c);
      assert after.docs.counts[c := after.docs.counts[c].(state := CountApproved)] == after.docs.counts;
      assert after.docs.adjustments + [] == after.docs.adjustments;
    } else {
      var f := FirstOff(base);
      AgainExactly(db, c, at, x.at, after);
      GoesExactly(db, c, at);
      FirstPosts(rows, doc, x.at, c, f);
      HeadMoved(after.inv, Adjust(rows[f], doc, x.at), ApproveOps(rows[f + 1..], doc + 1, x.at));
    }
  }

  lemma GoesExactly(db: Db, c: nat, at: int)
    requires Reachable(db) && c < |db.docs.counts|
    ensures ExecAll(db.inv, ApproveOps(Differences(db, c), |db.docs.adjustments|, at)).Ok?
       <==> Reconciliation.AllAbsorb(db.inv, Differences(db, c))
  {
    Reconciliation.ReachableSound(db);
    assert Reconciliation.SessionSound(db.inv.ledger, db.docs.counts[c]);
    Reconciliation.ReportRows(db.inv.ledger, db.docs.counts[c], db.docs.counts[c].snapshots);
    Reconciliation.ApproveGoesExactly(db.inv, Differences(db, c), |db.docs.adjustments|, at);
  }

  lemma ComputeAfter(db: Db, c: nat, at: int, x: Approval, after: Db)
    requires Reachable(db) && OneApproval(db, c, at, after) && at >= db.docs.counts[c].openedAt
    requires x.count == c && x.phase.Computing? && Trailing(Differences(db, c), x.phase.rows)
    requires c < |after.docs.counts| && |x.phase.rows| < |after.docs.counts[c].snapshots|
    ensures Computed(after, x).phase.Computing? && Trailing(Differences(db, c), Computed(after, x).phase.rows)
  {
    OneApprovalDocs(db, c, at, after);
    var n, session := |x.phase.rows|, after.docs.counts[c];
    OneApprovalLeaves(db, c, at, n);
    ReportAt(after.inv.ledger, session, session.snapshots, n);
    Reconciliation.ReportRows(after.inv.ledger, session, session.snapshots);
    ZeroTrails(Differences(db, c), x.phase.rows, Report(after.inv.ledger, session, session.snapshots)[n]);
  }

  /** One approval moves on, the database stays. */
  lemma StaysAfter(db: Db, c: nat, times: seq<int>, s: System, t: nat, x: Approval)
    requires AfterOne(db, c, times, s) && t < |times| && x.count == c && x.at == times[t]
    requires x.phase.Computing? ==> Trailing(Differences(db, c), x.phase.rows)
    ensures AfterOne(db, c, times, s.(approvals := s.approvals[t := x]))
  {
    var u :| 0 <= u < |times| && OneApproval(db, c, times[u], s.db);
    assert OneApproval(db, c, times[u], s.(approvals := s.approvals[t := x]).db);
  }

  lemma NextAfter(db: Db, c: nat, times: seq<int>, s: System, e: Event)
    requires Reachable(db) && AfterOne(db, c, times, s) && !CanDouble(db, c) && !e.Other?
    ensures AfterOne(db, c, times, Next(s, e))
  {
    var u :| 0 <= u < |times| && OneApproval(db, c, times[u], s.db);
    OneApprovalDocs(db, c, times[u], s.db);
    if e.t < |times| && (s.approvals[e.t].phase.Computing? || s.approvals[e.t].phase.Begun?) {
      var x := s.approvals[e.t];
      if e.Check? && x.phase.Begun? {
        StaysAfter(db, c, times, s, e.t, Checked(s.db, x));
      } else if e.Compute? && x.phase.Computing? && |x.phase.rows| < |s.db.docs.counts[c].snapshots| {
        ComputeAfter(db, c, times[u], x, s.db);
        StaysAfter(db, c, times, s, e.t, Computed(s.db, x));
      } else if e.Post? && x.phase.Computing? {
        PostAfter(db, c, times[u], x, s.db);
        StaysAfter(db, c, times, s, e.t, x.(phase := Finished(Posting(s.db, x).Ok?)));
      }
    }
  }

  /** Only the approvals run. */
  predicate Undisturbed(events: seq<Event>) {
    forall i :: 0 <= i < |events| ==> !events[i].Other?
  }

  lemma {:induction false} RunAsOnce(db: Db, c: nat, times: seq<int>, s: System, events: seq<Event>)
    requires Reachable(db) && !CanDouble(db, c) && Undisturbed(events)
    requires c < |db.docs.counts| ==> AllAfter(times, db.docs.counts[c].openedAt)
    requires BeforeAny(db, c, times, s) || AfterOne(db, c, times, s)
    ensures BeforeAny(db, c, times, Run(s, events)) || AfterOne(db, c, times, Run(s, events))
    decreases |events|
  {
    if events != [] {
      if BeforeAny(db, c, times, s) {
        NextBefore(db, c, times, s, events[0]);
      } else {
        NextAfter(db, c, times, s, events[0]);
      }
      RunAsOnce(db, c, times, Next(s, events[0]), events[1..]);
    }
  }

  // ---------- the interleaving that posts twice ----------

  function Rows(t: nat, n: nat): seq<Event> {
    if n == 0 then [] else [Compute(t)] + Rows(t, n - 1)
  }

  /** The system once approval `t` has computed these rows. */
  function With(s: System, t: nat, rows: seq<VarianceRow>): System
    requires t < |s.approvals|
  {
    s.(approvals := s.approvals[t := s.approvals[t].(phase := Computing(rows))])
  }

  lemma RowComputed(s: System, t: nat, rows: seq<VarianceRow>)
    requires t < |s.approvals| && s.approvals[t].phase == Computing(rows) && s.approvals[t].count < |s.db.docs.counts|
    requires |rows| < |s.db.docs.counts[s.approvals[t].count].snapshots|
    ensures |Differences(s.db, s.approvals[t].count)| == |s.db.docs.counts[s.approvals[t].count].snapshots|
    ensures Next(s, Compute(t)) == With(s, t, rows + [Differences(s.db, s.approvals[t].count)[|rows|]])
  {
    var session := s.db.docs.counts[s.approvals[t].count];
    ReportAt(s.db.inv.ledger, session, session.snapshots, |rows|);
  }

  lemma RunRows(s: System, t: nat, n: nat)
    ensures Run(s, Rows(t, n + 1)) == Run(Next(s, Compute(t)), Rows(t, n))
  {
    assert Rows(t, n + 1)[1..] == Rows(t, n);
  }

  lemma NextSlice<T>(rows: seq<T>, base: seq<T>, n: nat)
    requires n > 0 && |rows| + n <= |base|
    ensures (rows + [base[|rows|]]) + base[|rows| + 1..|rows| + n] == rows + base[|rows|..|rows| + n]
  {
  }

  lemma {:induction false} RowsRun(s: System, t: nat, n: nat, rows: seq<VarianceRow>)
    requires t < |s.approvals| && s.approvals[t].phase == Computing(rows) && s.approvals[t].count < |s.db.docs.counts|
    requires |rows| + n <= |s.db.docs.counts[s.approvals[t].count].snapshots|
    ensures |Differences(s.db, s.approvals[t].count)| == |s.db.docs.counts[s.approvals[t].count].snapshots|
    ensures Run(s, Rows(t, n))
         == With(s, t, rows + Differences(s.db, s.approvals[t].count)[|rows|..|rows| + n])
    decreases n
  {
    var session, base := s.db.docs.counts[s.approvals[t].count], Differences(s.db, s.approvals[t].count);
    Reconciliation.ReportRows(s.db.inv.ledger, session, session.snapshots);
    if n == 0 {
      assert rows + base[|rows|..|rows|] == rows;
      assert s.approvals[t := s.approvals[t]] == s.approvals;
    } else {
      RowComputed(s, t, rows);
      RunRows(s, t, n - 1);
      RowsRun(With(s, t, rows + [base[|rows|]]), t, n - 1, rows + [base[|rows|]]);
      NextSlice(rows, base, n);
    }
  }

  /** The first two approvals stand where they stand; no other has begun. */
  function Two(db: Db, c: nat, times: seq<int>, p: Phase, q: Phase): System
    requires |times| >= 2
  {
    System(db, Start(db, c, times).approvals[0 := Approval(c, times[0], p)][1 := Approval(c, times[1], q)])
  }

  lemma FirstRows(db: Db, c: nat, times: seq<int>, q: Phase, n: nat)
    requires |times| >= 2 && c < |db.docs.counts| && n == |db.docs.counts[c].snapshots|
    ensures Run(Two(db, c, times, Computing([]), q), Rows(0, n)) == Two(db, c, times, Computing(Differences(db, c)), q)
  {
    RowsRun(Two(db, c, times, Computing([]), q), 0, n, []);
    assert [] + Differences(db, c)[0..n] == Differences(db, c);
  }

  lemma SecondRows(db: Db, c: nat, times: seq<int>, p: Phase, rows: seq<VarianceRow>, n: nat, all: seq<VarianceRow>)
    requires |times| >= 2 && c < |db.docs.counts| && |rows| + n <= |db.docs.counts[c].snapshots|
    requires |Differences(db, c)| == |db.docs.counts[c].snapshots|
    requires all == rows + Differences(db, c)[|rows|..|rows| + n]
    ensures Run(Two(db, c, times, p, Computing(rows)), Rows(1, n)) == Two(db, c, times, p, Computing(all))
  {
    RowsRun(Two(db, c, times, p, Computing(rows)), 1, n, rows);
  }

  lemma One(s: System, e: Event)
    ensures Run(s, [e]) == Next(s, e)
  {
    assert [e][1..] == [];
    assert Run(Next(s, e), []) == Next(s, e);
  }

  lemma BothCheck(db: Db, c: nat, times: seq<int>)
    requires |times| >= 2 && c < |db.docs.counts| && Countable(db.docs.counts[c])
    ensures Run(Start(db, c, times), [Check(0)] + [Check(1)]) == Two(db, c, times, Computing([]), Computing([]))
  {
    RunConcat(Start(db, c, times), [Check(0)], [Check(1)]);
    One(Start(db, c, times), Check(0));
    One(Next(Start(db, c, times), Check(0)), Check(1));
  }

  lemma FreshPosts(db: Db, c: nat, x: Approval, after: Db)
    requires OneApproval(db, c, x.at, after) && x.count == c && x.phase == Computing(Differences(db, c))
    ensures c < |db.docs.counts| && Posting(db, x) == Ok(after)
  {
    OneApprovalDocs(db, c, x.at, after);
  }

  lemma PostedSystem(s: System, t: nat, after: Db)
    requires t < |s.approvals| && s.approvals[t].phase.Computing? && s.approvals[t].count < |s.db.docs.counts|
    requires |s.approvals[t].phase.rows| == |s.db.docs.counts[s.approvals[t].count].snapshots|
    requires Posting(s.db, s.approvals[t]) == Ok(after)
    ensures Run(s, [Post(t)])
         == System(after, s.approvals[t := s.approvals[t].(phase := Finished(true))])
  {
    One(s, Post(t));
  }

  lemma FirstPost(db: Db, c: nat, times: seq<int>, q: Phase, after: Db)
    requires |times| >= 2 && OneApproval(db, c, times[0], after)
    ensures c < |db.docs.counts|
    ensures Run(Two(db, c, times, Computing(Differences(db, c)), q), [Post(0)])
         == Two(after, c, times, Finished(true), q)
  {
    FreshPosts(db, c, Approval(c, times[0], Computing(Differences(db, c))), after);
    Reconciliation.ReportRows(db.inv.ledger, db.docs.counts[c], db.docs.counts[c].snapshots);
    PostedSystem(Two(db, c, times, Computing(Differences(db, c)), q), 0, after);
  }

  /** The second one's rows: those up to the first that differs from before the first post, the rest
      from after it. */
  function Stale(db: Db, after: Db, c: nat): seq<VarianceRow>
    requires c < |db.docs.counts| && c < |after.docs.counts|
    requires FirstOff(Differences(db, c)) < |Differences(db, c)| == |Differences(after, c)|
  {
    var f := FirstOff(Differences(db, c));
    Differences(db, c)[..f + 1] + Differences(after, c)[f + 1..]
  }

  lemma ZeroAfter(db: Db, c: nat, at: int, after: Db)
    requires Reachable(db) && OneApproval(db, c, at, after) && at >= db.docs.counts[c].openedAt
    ensures c < |after.docs.counts| && |Differences(after, c)| == |Differences(db, c)| && AllZero(Differences(after, c))
  {
    OneApprovalDocs(db, c, at, after);
    Reconciliation.ReportRows(db.inv.ledger, db.docs.counts[c], db.docs.counts[c].snapshots);
    Reconciliation.ReportRows(after.inv.ledger, after.docs.counts[c], after.docs.counts[c].snapshots);
    forall i | 0 <= i < |Differences(after, c)| ensures Differences(after, c)[i].varianceQty == 0 {
      OneApprovalLeaves(db, c, at, i);
    }
  }

  /** The stale rows come to one adjustment: that of the first pair that differs, once more. */
  lemma StaleOps(db: Db, c: nat, at: int, after: Db, doc: DocId, again: int)
    requires Reachable(db) && OneApproval(db, c, at, after) && at >= db.docs.counts[c].openedAt
    requires c < |after.docs.counts| && FirstOff(Differences(db, c)) < |Differences(db, c)| == |Differences(after, c)|
    ensures var row := Differences(db, c)[FirstOff(Differences(db, c))];
            && ApproveOps(Stale(db, after, c), doc, again) == [Move(Adjust(row, doc, again))]
            && Adjustments(Stale(db, after, c), c) == [Adjustment(row.key, row.varianceQty, c)]
  {
    var rows, f := Stale(db, after, c), FirstOff(Differences(db, c));
    FirstPosts(rows, doc, again, c, f);
    ZeroAfter(db, c, at, after);
    assert rows[f + 1..] == Differences(after, c)[f + 1..];
    NothingToPost(rows[f + 1..], doc + 1, again, c);
    assert [Move(Adjust(rows[f], doc, again))] + [] == [Move(Adjust(rows[f], doc, again))];
  }

  lemma StalePosts(db: Db, c: nat, at: int, x: Approval, after: Db)
    requires Reachable(db) && OneApproval(db, c, at, after) && CanDouble(db, c) && at >= db.docs.counts[c].openedAt
    requires c < |after.docs.counts| && |Differences(db, c)| == |Differences(after, c)|
    requires x.count == c && x.phase == Computing(Stale(db, after, c))
    ensures var row := Differences(db, c)[FirstOff(Differences(db, c))];
            && Posting(after, x).Ok?
            && Posting(after, x).value.docs.adjustments
                 == after.docs.adjustments + [Adjustment(row.key, row.varianceQty, c)]
            && OnHand(Posting(after, x).value.inv, row.key) == OnHand(after.inv, row.key) + row.varianceQty
  {
    var doc := |after.docs.adjustments|;
    var m := Adjust(Differences(db, c)[FirstOff(Differences(db, c))], doc, x.at);
    AgainExactly(db, c, at, x.at, after);
    StaleOps(db, c, at, after, doc, x.at);
    assert [Move(m)] == [Move(m)] + [];
    HeadMoved(after.inv, m, []);
  }

  /** Both read the state; the first computes everything and the second up to the first pair that
      differs; the first posts; the second computes the rest and posts. */
  function Overlap(n: nat, f: nat): seq<Event>
    requires f < n
  {
    [Check(0)] + [Check(1)] + Rows(0, n) + Rows(1, f + 1) + [Post(0)] + Rows(1, n - f - 1) + [Post(1)]
  }

  lemma Then(s0: System, a: seq<Event>, s1: System, b: seq<Event>, s2: System)
    requires Run(s0, a) == s1 && Run(s1, b) == s2
    ensures Run(s0, a + b) == s2
  {
    RunConcat(s0, a, b);
  }

  lemma BothCompute(db: Db, c: nat, times: seq<int>, n: nat, f: nat)
    requires |times| >= 2 && c < |db.docs.counts| && Countable(db.docs.counts[c])
    requires n == |db.docs.counts[c].snapshots| == |Differences(db, c)| && f < n
    ensures Run(Start(db, c, times), [Check(0)] + [Check(1)] + Rows(0, n) + Rows(1, f + 1))
         == Two(db, c, times, Computing(Differences(db, c)), Computing(Differences(db, c)[..f + 1]))
  {
    var s0, check, base := Start(db, c, times), [Check(0)] + [Check(1)], Differences(db, c);
    BothCheck(db, c, times);
    FirstRows(db, c, times, Computing([]), n);
    Then(s0, check, Two(db, c, times, Computing([]), Computing([])), Rows(0, n),
         Two(db, c, times, Computing(base), Computing([])));
    assert [] + base[0..f + 1] == base[..f + 1];
    SecondRows(db, c, times, Computing(base), [], f + 1, base[..f + 1]);
    Then(s0, check + Rows(0, n), Two(db, c, times, Computing(base), Computing([])), Rows(1, f + 1),
         Two(db, c, times, Computing(base), Computing(base[..f + 1])));
  }

  /** The second approval may go on after the first one's post, and the first pair that differs is
      known. */
  predicate Overlapping(db: Db, c: nat, after: Db) {
    && c < |db.docs.counts| && c < |after.docs.counts| && Countable(db.docs.counts[c])
    && |db.docs.counts[c].snapshots| == |after.docs.counts[c].snapshots|
    && |db.docs.counts[c].snapshots| == |Differences(db, c)| == |Differences(after, c)|
    && FirstOff(Differences(db, c)) < |Differences(db, c)|
  }

  lemma StaleTail(db: Db, c: nat, after: Db)
    requires Overlapping(db, c, after)
    ensures var n, f := |Differences(db, c)|, FirstOff(Differences(db, c));
            Stale(db, after, c)
              == Differences(db, c)[..f + 1] + Differences(after, c)[f + 1..f + 1 + (n - f - 1)]
  {
  }

  lemma LastPost(s0: System, events: seq<Event>, s: System)
    requires Run(s0, events) == s
    ensures Run(s0, events + [Post(1)]) == Next(s, Post(1))
  {
    One(s, Post(1));
    Then(s0, events, s, [Post(1)], Next(s, Post(1)));
  }

  lemma OverlapParts(s0: System, mid: System, posted: System, end: System, n: nat, f: nat)
    requires f < n && Run(s0, [Check(0)] + [Check(1)] + Rows(0, n) + Rows(1, f + 1)) == mid
    requires Run(mid, [Post(0)]) == posted && Run(posted, Rows(1, n - f - 1)) == end
    ensures Run(s0, Overlap(n, f)) == Next(end, Post(1))
  {
    var first := [Check(0)] + [Check(1)] + Rows(0, n) + Rows(1, f + 1);
    Then(s0, first, mid, [Post(0)], posted);
    Then(s0, first + [Post(0)], posted, Rows(1, n - f - 1), end);
    LastPost(s0, first + [Post(0)] + Rows(1, n - f - 1), end);
  }

  /** The whole run, given what its first post leaves. */
  lemma OverlapChain(db: Db, c: nat, times: seq<int>, after: Db, rows: seq<VarianceRow>, mid: System, posted: System)
    requires |times| >= 2 && Overlapping(db, c, after)
    requires rows == Differences(db, c)[..FirstOff(Differences(db, c)) + 1]
    requires mid == Two(db, c, times, Computing(Differences(db, c)), Computing(rows))
    requires posted == Two(after, c, times, Finished(true), Computing(rows)) == Run(mid, [Post(0)])
    ensures Run(Start(db, c, times), Overlap(|Differences(db, c)|, FirstOff(Differences(db, c))))
         == Next(Two(after, c, times, Finished(true), Computing(Stale(db, after, c))), Post(1))
  {
    var n, f := |Differences(db, c)|, FirstOff(Differences(db, c));
    var end := Two(after, c, times, Finished(true), Computing(Stale(db, after, c)));
    BothCompute(db, c, times, n, f);
    StaleTail(db, c, after);
    SecondRows(after, c, times, Finished(true), rows, n - f - 1, Stale(db, after, c));
    OverlapParts(Start(db, c, times), mid, posted, end, n, f);
  }

  lemma OverlapsAfter(db: Db, c: nat, at: int, after: Db)
    requires Reachable(db) && OneApproval(db, c, at, after) && at >= db.docs.counts[c].openedAt
    requires FirstOff(Differences(db, c)) < |Differences(db, c)|
    ensures Overlapping(db, c, after)
  {
    OneApprovalDocs(db, c, at, after);
    Reconciliation.ReportRows(db.inv.ledger, db.docs.counts[c], db.docs.counts[c].snapshots);
    ZeroAfter(db, c, at, after);
  }

  lemma OverlapGoes(db: Db, c: nat, times: seq<int>, after: Db)
    requires |times| >= 2 && Reachable(db) && OneApproval(db, c, times[0], after)
    requires AllAfter(times, db.docs.counts[c].openedAt) && FirstOff(Differences(db, c)) < |Differences(db, c)|
    ensures Overlapping(db, c, after)
    ensures Run(Start(db, c, times), Overlap(|Differences(db, c)|, FirstOff(Differences(db, c))))
         == Next(Two(after, c, times, Finished(true), Computing(Stale(db, after, c))), Post(1))
  {
    OverlapsAfter(db, c, times[0], after);
    var rows := Differences(db, c)[..FirstOff(Differences(db, c)) + 1];
    FirstPost(db, c, times, Computing(rows), after);
    OverlapChain(db, c, times, after, rows, Two(db, c, times, Computing(Differences(db, c)), Computing(rows)),
                 Two(after, c, times, Finished(true), Computing(rows)));
  }

  lemma AcceptedMeans(db: Db, c: nat, at: int)
    requires c < |db.docs.counts| && Countable(db.docs.counts[c])
    ensures Accepted(db, ApproveCount(c, at))
       <==> ExecAll(db.inv, ApproveOps(Differences(db, c), |db.docs.adjustments|, at)).Ok?
  {
  }

  lemma GoesOnce(db: Db, c: nat, at: int)
    requires Reachable(db) && CanDouble(db, c)
    ensures Accepted(db, ApproveCount(c, at))
  {
    AcceptedMeans(db, c, at);
    GoesExactly(db, c, at);
  }

  lemma OverlapRun(db: Db, c: nat, times: seq<int>)
    requires Reachable(db) && CanDouble(db, c) && |times| >= 2 && AllAfter(times, db.docs.counts[c].openedAt)
    ensures Accepted(db, ApproveCount(c, times[0]))
    ensures var base, after := Differences(db, c), Step(db, ApproveCount(c, times[0]));
            && c < |after.docs.counts| && |Differences(after, c)| == |base|
            && Run(Start(db, c, times), Overlap(|base|, FirstOff(base))).db
                 == Committed(after, Posting(after, Approval(c, times[1], Computing(Stale(db, after, c)))))
  {
    GoesOnce(db, c, times[0]);
    var after := Step(db, ApproveCount(c, times[0]));
    OverlapGoes(db, c, times, after);
    Reconciliation.ReportRows(after.inv.ledger, after.docs.counts[c], after.docs.counts[c].snapshots);
  }

  lemma AdjustmentsGrow(rows: seq<VarianceRow>, c: nat)
    requires FirstOff(rows) < |rows|
    ensures |Adjustments(rows, c)| > 0
  {
    FirstPosts(rows, 0, 0, c, FirstOff(rows));
  }

  lemma NotOnce(db: Db, c: nat, times: seq<int>, after: Db, row: Adjustment)
    requires c < |db.docs.counts| && FirstOff(Differences(db, c)) < |Differences(db, c)|
    requires after.docs.adjustments == db.docs.adjustments + Adjustments(Differences(db, c), c) + [row]
    ensures !AsOnce(db, c, times, after)
  {
    AdjustmentsGrow(Differences(db, c), c);
    forall t | 0 <= t < |times| && Accepted(db, ApproveCount(c, times[t]))
      ensures after != Step(db, ApproveCount(c, times[t]))
    {
      OneApprovalDocs(db, c, times[t], Step(db, ApproveCount(c, times[t])));
    }
  }

  /** The second approval adjusts the pair again, from a sum it took before the first one posted: the
      pair ends at twice its variance, and the adjustment is recorded twice. */
  lemma PostedTwice(db: Db, c: nat, times: seq<int>)
    requires Reachable(db) && CanDouble(db, c) && |times| >= 2 && AllAfter(times, db.docs.counts[c].openedAt)
    ensures var base := Differences(db, c);
            var row := base[FirstOff(base)];
            var after := Run(Start(db, c, times), Overlap(|base|, FirstOff(base))).db;
            && after.docs.adjustments
                 == db.docs.adjustments + Adjustments(base, c) + [Adjustment(row.key, row.varianceQty, c)]
            && OnHand(after.inv, row.key) == OnHand(db.inv, row.key) + 2 * row.varianceQty
            && row.varianceQty != 0 && !AsOnce(db, c, times, after)
  {
    OverlapRun(db, c, times);
    var base, once := Differences(db, c), Step(db, ApproveCount(c, times[0]));
    var row := base[FirstOff(base)];
    OneApprovalDocs(db, c, times[0], once);
    Reconciliation.ReportRows(db.inv.ledger, db.docs.counts[c], db.docs.counts[c].snapshots);
    StalePosts(db, c, times[0], Approval(c, times[1], Computing(Stale(db, once, c))), once);
    OneApprovalLeaves(db, c, times[0], FirstOff(base));
    NotOnce(db, c, times, Run(Start(db, c, times), Overlap(|base|, FirstOff(base))).db,
            Adjustment(row.key, row.varianceQty, c));
  }

  lemma {:induction false} RowsUndisturbed(t: nat, n: nat)
    ensures Undisturbed(Rows(t, n))
  {
    if n > 0 {
      RowsUndisturbed(t, n - 1);
    }
  }

  lemma OverlapUndisturbed(n: nat, f: nat)
    requires f < n
    ensures Undisturbed(Overlap(n, f))
  {
    RowsUndisturbed(0, n);
    RowsUndisturbed(1, f + 1);
    RowsUndisturbed(1, n - f - 1);
  }

  lemma AloneAsOnce(db: Db, c: nat, times: seq<int>, events: seq<Event>)
    requires Reachable(db) && !CanDouble(db, c) && Undisturbed(events)
    requires c < |db.docs.counts| ==> AllAfter(times, db.docs.counts[c].openedAt)
    ensures AsOnce(db, c, times, Run(Start(db, c, times), events).db)
  {
    RunAsOnce(db, c, times, Start(db, c, times), events);
    var s := Run(Start(db, c, times), events);
    if !BeforeAny(db, c, times, s) {
      var u :| 0 <= u < |times| && OneApproval(db, c, times[u], s.db);
    }
  }

  /** However two or more approvals of a session interleave, they leave what one of them alone would
      leave, or nothing: if and only if no pair differs, or some pair cannot absorb its variance, or
      the first that differs cannot absorb it twice. */
  lemma ApprovedOnceExactly(db: Db, c: nat, times: seq<int>)
    requires Reachable(db) && |times| >= 2
    requires c < |db.docs.counts| ==> AllAfter(times, db.docs.counts[c].openedAt)
    ensures (forall events :: Undisturbed(events) ==> AsOnce(db, c, times, Run(Start(db, c, times), events).db))
       <==> !CanDouble(db, c)
  {
    if CanDouble(db, c) {
      PostedTwice(db, c, times);
      Reconciliation.ReportRows(db.inv.ledger, db.docs.counts[c], db.docs.counts[c].snapshots);
      OverlapUndisturbed(|Differences(db, c)|, FirstOff(Differences(db, c)));
    } else {
      forall events | Undisturbed(events) ensures AsOnce(db, c, times, Run(Start(db, c, times), events).db) {
        AloneAsOnce(db, c, times, events);
      }
    }
  }
}
