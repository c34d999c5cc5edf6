/** Count sessions: snapshot, entries, variance and approval. */
module Counts {
  import opened Tables
  import opened Ledger
  import opened Database
  import opened LedgerWriter

  // ---------- create_session ----------

  /** `locations` are the locations asked for, or all those of the site. */
  datatype Scope = Scope(locations: set<LocId>, skus: Option<set<SkuId>>)

  predicate InScope(scope: Scope, k: Key) {
    k.loc in scope.locations && (scope.skus.Some? ==> k.sku in scope.skus.value)
  }

  /** The result of the scope query, in whatever order the database returns it. */
  predicate IsScopeResult(balances: map<Key, Balance>, scope: Scope, rows: seq<Key>) {
    && (forall i, j :: 0 <= i < j < |rows| ==> rows[i] != rows[j])
    && (forall i :: 0 <= i < |rows| ==> rows[i] in balances && InScope(scope, rows[i]))
    && (forall k :: k in balances && InScope(scope, k) ==> k in rows)
  }

  function Snapshots(inv: Inventory, rows: seq<Key>): (r: seq<Snapshot>)
    ensures |r| == |rows|
    ensures forall i :: 0 <= i < |rows| ==> r[i] == Snapshot(rows[i], OnHand(inv, rows[i]))
  {
    seq(|rows|, i requires 0 <= i < |rows| => Snapshot(rows[i], OnHand(inv, rows[i])))
  }

  function PlanOpen(db: Db, scope: Scope, rows: seq<Key>, at: int): Outcome<Plan> {
    if !IsScopeResult(db.inv.balances, scope, rows) then Raise(NotFound)
    else
      var c := CountSession(CountOpen, at, |db.inv.ledger|, Snapshots(db.inv, rows), []);
      Ok(Plan([], db.docs.(counts := db.docs.counts + [c])))
  }

  // ---------- submit_entries ----------

  predicate Countable(c: CountSession) {
    c.state == CountOpen || c.state == CountSubmitted
  }

  /** The first entry that cannot be inserted; its sku is a foreign key. */
  function EntriesError(config: Config, entries: seq<CountEntry>): (r: Option<Error>)
    ensures r.None? ==> forall i :: 0 <= i < |entries| ==> entries[i].qty >= 0
  {
    if entries == [] then None
    else if entries[0].qty < 0 then Some(ValidationFailed)
    else if entries[0].key.sku !in config.skus then Some(IntegrityError)
    else EntriesError(config, entries[1..])
  }

  function PlanSubmit(docs: Docs, c: nat, entries: seq<CountEntry>): Outcome<Plan> {
    if c >= |docs.counts| then Raise(NotFound)
    else if !Countable(docs.counts[c]) then Raise(BusinessRuleConflict)
    else if EntriesError(docs.config, entries).Some? then Raise(EntriesError(docs.config, entries).value)
    else
      var session := docs.counts[c].(state := CountSubmitted, entries := docs.counts[c].entries + entries);
      Ok(Plan([], docs.(counts := docs.counts[c := session])))
  }

  // ---------- compute_variance ----------

  function Counted(entries: seq<CountEntry>, k: Key): int {
    if entries == [] then 0 else (if entries[0].key == k then entries[0].qty else 0) + Counted(entries[1..], k)
  }

  /** Opening quantity plus every movement dated since the opening, against what was counted. */
  function Variance(ledger: seq<Row>, c: CountSession, s: Snapshot): int {
    Counted(c.entries, s.key) - (s.onHand + Total(QtyDatedFrom(s.key, c.openedAt), ledger))
  }

  datatype VarianceRow = VarianceRow(key: Key, systemAtOpen: int, deltaMovements: int, countedQty: int,
                                     varianceQty: int)

  function Report(ledger: seq<Row>, c: CountSession, snaps: seq<Snapshot>): seq<VarianceRow> {
    if snaps == [] then []
    else
      var s := snaps[0];
      [VarianceRow(s.key, s.onHand, Total(QtyDatedFrom(s.key, c.openedAt), ledger), Counted(c.entries, s.key),
                   Variance(ledger, c, s))]
      + Report(ledger, c, snaps[1..])
  }

  // ---------- approve_session ----------

  function Adjust(r: VarianceRow, doc: DocId, at: int): Movement {
    Loose(r.key, r.varianceQty, CountAdjustment, doc, Some(0), at)
  }

  /** One movement per non-zero variance; `doc` is the next adjustment document. */
  function ApproveOps(rows: seq<VarianceRow>, doc: DocId, at: int): seq<Op> {
    if rows == [] then []
    else if rows[0].varianceQty == 0 then ApproveOps(rows[1..], doc, at)
    else [Move(Adjust(rows[0], doc, at))] + ApproveOps(rows[1..], doc + 1, at)
  }

  function Adjustments(rows: seq<VarianceRow>, c: nat): seq<Adjustment> {
    if rows == [] then []
    else if rows[0].varianceQty == 0 then Adjustments(rows[1..], c)
    else [Adjustment(rows[0].key, rows[0].varianceQty, c)] + Adjustments(rows[1..], c)
  }

  function PlanApprove(db: Db, c: nat, at: int): Outcome<Plan> {
    if c >= |db.docs.counts| then Raise(NotFound)
    else if !Countable(db.docs.counts[c]) then Raise(BusinessRuleConflict)
    else
      var session := db.docs.counts[c];
      var rows := Report(db.inv.ledger, session, session.snapshots);
      Ok(Plan(ApproveOps(rows, |db.docs.adjustments|, at),
              db.docs.(counts := db.docs.counts[c := session.(state := CountApproved)],
                       adjustments := db.docs.adjustments + Adjustments(rows, c))))
  }

  // ---------- the service methods ----------

  method CreateSession(sess: Session, scope: Scope, rows: seq<Key>, at: int) returns (c: nat)
    requires IsScopeResult(sess.balances, scope, rows)
    modifies sess`docs
    ensures Transact(old(sess.State()), PlanOpen(old(sess.State()), scope, rows, at)) == Ok(sess.State())
    ensures c == |old(sess.docs).counts|
  {
    var snaps: seq<Snapshot> := [];
    var i := 0;
    while i < |rows|
      invariant 0 <= i <= |rows| == |Snapshots(sess.Inv(), rows)|
      invariant snaps == Snapshots(sess.Inv(), rows)[..i]
    {
      snaps := snaps + [Snapshot(rows[i], sess.balances[rows[i]].onHand)];
      i := i + 1;
    }
    assert snaps == Snapshots(sess.Inv(), rows);
    c := |sess.docs.counts|;
    var session := CountSession(CountOpen, at, |sess.ledger|, snaps, []);
    sess.docs := sess.docs.(counts := sess.docs.counts + [session]);
  }

  method SubmitEntries(sess: Session, c: nat, entries: seq<CountEntry>) returns (r: Outcome<nat>)
    modifies sess`docs
    ensures var after := Transact(old(sess.State()), PlanSubmit(old(sess.docs), c, entries));
            && sess.State() == Committed(old(sess.State()), after)
            && r == (if after.Ok? then Ok(|entries|) else Raise(after.error))
  {
    if c >= |sess.docs.counts| {
      return Raise(NotFound);
    }
    var session := sess.docs.counts[c];
    if session.state != CountOpen && session.state != CountSubmitted {
      return Raise(BusinessRuleConflict);
    }
    var inserted := session.entries;
    var i := 0;
    while i < |entries|
      invariant 0 <= i <= |entries|
      invariant EntriesError(sess.docs.config, entries) == EntriesError(sess.docs.config, entries[i..])
      invariant inserted == session.entries + entries[..i]
    {
      assert entries[i..][1..] == entries[i + 1..];
      if entries[i].qty < 0 {
        return Raise(ValidationFailed);
      }
      if entries[i].key.sku !in sess.docs.config.skus {
        return Raise(IntegrityError);
      }
      inserted := inserted + [entries[i]];
      i := i + 1;
    }
    assert entries[..i] == entries;
    sess.docs := sess.docs.(counts := sess.docs.counts[c := session.(state := CountSubmitted, entries := inserted)]);
    return Ok(|entries|);
  }

  method ComputeVariance(sess: Session, c: nat) returns (out: seq<VarianceRow>)
    requires c < |sess.docs.counts|
    ensures var session := sess.docs.counts[c];
            out == Report(sess.ledger, session, session.snapshots)
  {
    var session := sess.docs.counts[c];
    out := [];
    var i := 0;
    while i < |session.snapshots|
      invariant 0 <= i <= |session.snapshots|
      invariant Report(sess.ledger, session, session.snapshots)
          == out + Report(sess.ledger, session, session.snapshots[i..])
    {
      var snap := session.snapshots[i];
      assert session.snapshots[i..][1..] == session.snapshots[i + 1..];
      var delta := Total(QtyDatedFrom(snap.key, session.openedAt), sess.ledger);
      var counted := Counted(session.entries, snap.key);
      out := out + [VarianceRow(snap.key, snap.onHand, delta, counted, counted - (snap.onHand + delta))];
      i := i + 1;
    }
  }

  /** Posts one adjustment per non-zero variance, in the order of the report. */
  method PostAdjustments(sess: Session, rows: seq<VarianceRow>, c: nat, at: int) returns (r: Outcome<seq<Adjustment>>)
    modifies sess`balances, sess`layers, sess`serials, sess`ledger
    ensures match ExecAll(old(sess.Inv()), ApproveOps(rows, |sess.docs.adjustments|, at))
            case Ok(inv') => r == Ok(Adjustments(rows, c)) && sess.Inv() == inv'
            case Raise(e) => r == Raise(e)
  {
    var posted: seq<Adjustment> := [];
    var i := 0;
    var doc := |sess.docs.adjustments|;
    ghost var result := ExecAll(sess.Inv(), ApproveOps(rows, doc, at));
    assert rows[0..] == rows;
    while i < |rows|
      invariant 0 <= i <= |rows|
      invariant Adjustments(rows, c) == posted + Adjustments(rows[i..], c)
      invariant result == ExecAll(sess.Inv(), ApproveOps(rows[i..], doc, at))
    {
      assert rows[i..][1..] == rows[i + 1..];
      if rows[i].varianceQty != 0 {
        HeadMoved(sess.Inv(), Adjust(rows[i], doc, at), ApproveOps(rows[i + 1..], doc + 1, at));
        var moved := PostMovement(sess, Adjust(rows[i], doc, at));
        if moved.Raise? {
          return Raise(moved.error);
        }
        posted := posted + [Adjustment(rows[i].key, rows[i].varianceQty, c)];
        doc := doc + 1;
      }
      i := i + 1;
    }
    assert posted + [] == posted;
    return Ok(posted);
  }

  /** Returns the number of adjustments posted. */
  method ApproveSession(sess: Session, c: nat, at: int) returns (r: Outcome<nat>)
    modifies sess
    ensures var after := Transact(old(sess.State()), PlanApprove(old(sess.State()), c, at));
            && sess.State() == Committed(old(sess.State()), after)
            && r == (if after.Ok? then Ok(|sess.docs.adjustments| - |old(sess.docs).adjustments|)
                     else Raise(after.error))
  {
    if c >= |sess.docs.counts| {
      return Raise(NotFound);
    }
    var session := sess.docs.counts[c];
    if session.state != CountOpen && session.state != CountSubmitted {
      return Raise(BusinessRuleConflict);
    }
    var saved := sess.State();
    var rows := ComputeVariance(sess, c);
    var posted := PostAdjustments(sess, rows, c, at);
    if posted.Raise? {
      sess.Rollback(saved);
      return Raise(posted.error);
    }
    sess.docs := sess.docs.(counts := sess.docs.counts[c := session.(state := CountApproved)],
                            adjustments := sess.docs.adjustments + posted.value);
    return Ok(|posted.value|);
  }
}
