/** The offline sale intake endpoint: idempotent per client intake id. */
module Intake {
  import opened Tables
  import opened Ledger
  import opened Database
  import opened LedgerWriter

  datatype SaleLine = SaleLine(sku: SkuId, qty: int)

  datatype Envelope = Envelope(id: IntakeId, loc: LocId, at: int, lines: seq<SaleLine>)

  datatype Status = Accepted | AlreadyProcessed

  // ---------- one envelope ----------

  /** Envelopes with an unknown or a serialised sku are refused before anything is posted; a
      quantity that is not positive never gets past the request schema. */
  function Refusal(config: Config, lines: seq<SaleLine>): Option<Error> {
    if lines == [] then None
    else if lines[0].qty <= 0 || lines[0].sku !in config.skus then Some(ValidationFailed)
    else if config.skus[lines[0].sku].tracking == Serialized then Some(BusinessRuleConflict)
    else Refusal(config, lines[1..])
  }

  /** Only the first line of an envelope carries the client intake id. */
  function SaleMovement(env: Envelope, doc: DocId, i: nat): Movement
    requires i < |env.lines|
  {
    Loose(Key(env.lines[i].sku, env.loc), -env.lines[i].qty, Sale, doc, None, env.at)
      .(intake := if i == 0 then Some(env.id) else None)
  }

  function LineOps(env: Envelope, doc: DocId, i: nat): seq<Op>
    requires i < |env.lines|
  {
    [CanSell(Key(env.lines[i].sku, env.loc), env.lines[i].qty), Move(SaleMovement(env, doc, i))]
  }

  function SaleOpsFrom(env: Envelope, doc: DocId, i: nat): seq<Op>
    requires i <= |env.lines|
    decreases |env.lines| - i
  {
    if i == |env.lines| then [] else LineOps(env, doc, i) + SaleOpsFrom(env, doc, i + 1)
  }

  function SaleOps(env: Envelope, doc: DocId): seq<Op> {
    SaleOpsFrom(env, doc, 0)
  }

  function PlanSale(docs: Docs, env: Envelope, doc: DocId): Outcome<Plan> {
    var refusal := Refusal(docs.config, env.lines);
    if refusal.Some? then Raise(refusal.value) else Ok(Plan(SaleOps(env, doc), docs))
  }

  // ---------- a batch ----------

  /** The loop over the envelopes of one request. `start` is what the transaction began with:
      a duplicate rolls the whole session back to it, earlier envelopes of the batch included. */
  function Batch(config: Config, start: Inventory, now: Inventory, items: seq<Envelope>, sales: seq<DocId>,
                 single: bool)
    : Outcome<(Inventory, seq<Status>)>
    requires |items| == |sales|
    decreases |items|
  {
    if items == [] then Ok((now, []))
    else
      var refusal := Refusal(config, items[0].lines);
      if refusal.Some? then Raise(refusal.value)
      else
        match ExecAll(now, SaleOps(items[0], sales[0]))
        case Ok(next) =>
          var rest :- Batch(config, start, next, items[1..], sales[1..], single);
          Ok((rest.0, [Accepted] + rest.1))
        case Raise(IntegrityError) =>
          if single then Raise(IdempotencyConflict)
          else
            var rest :- Batch(config, start, start, items[1..], sales[1..], single);
            Ok((rest.0, [AlreadyProcessed] + rest.1))
        case Raise(e) => Raise(e)
  }

  // ---------- the endpoint ----------

  /** One line: the sale guard, which only reads, then the movement. */
  method SellLine(sess: Session, env: Envelope, doc: DocId, i: nat) returns (r: Outcome<int>)
    requires i < |env.lines|
    modifies sess`balances, sess`layers, sess`serials, sess`ledger
    ensures match ExecAll(old(sess.Inv()), LineOps(env, doc, i))
            case Ok(inv') => r.Ok? && sess.Inv() == inv'
            case Raise(e) => r == Raise(e)
  {
    ghost var inv := sess.Inv();
    LineExec(inv, env, doc, i);
    if !StockAvailable(sess.balances, Key(env.lines[i].sku, env.loc), env.lines[i].qty) {
      return Raise(BusinessRuleConflict);
    }
    r := PostMovement(sess, SaleMovement(env, doc, i));
    assert r.Ok? ==> ExecAll(inv, LineOps(env, doc, i)) == Ok(sess.Inv());
  }

  lemma LineExec(inv: Inventory, env: Envelope, doc: DocId, i: nat)
    requires i < |env.lines|
    ensures ExecAll(inv, LineOps(env, doc, i)) ==
            if !StockAvailable(inv.balances, Key(env.lines[i].sku, env.loc), env.lines[i].qty)
              then Raise(BusinessRuleConflict)
            else Post(inv, SaleMovement(env, doc, i), NextId(inv))
  {
    var guard, move := LineOps(env, doc, i)[0], LineOps(env, doc, i)[1];
    assert [guard, move][1..] == [move] && [move] + [] == [move];
    HeadMoved(inv, SaleMovement(env, doc, i), []);
  }

  method SellLines(sess: Session, env: Envelope, doc: DocId) returns (r: Outcome<int>)
    modifies sess`balances, sess`layers, sess`serials, sess`ledger
    ensures match ExecAll(old(sess.Inv()), SaleOps(env, doc))
            case Ok(inv') => r.Ok? && sess.Inv() == inv'
            case Raise(e) => r == Raise(e)
  {
    r := Ok(0);
    var i := 0;
    ghost var result := ExecAll(sess.Inv(), SaleOps(env, doc));
    while i < |env.lines|
      invariant 0 <= i <= |env.lines| && r.Ok?
      invariant result == ExecAll(sess.Inv(), SaleOpsFrom(env, doc, i))
    {
      ExecAllConcat(sess.Inv(), LineOps(env, doc, i), SaleOpsFrom(env, doc, i + 1));
      r := SellLine(sess, env, doc, i);
      if r.Raise? {
        return;
      }
      i := i + 1;
    }
  }

  method CheckLines(sess: Session, lines: seq<SaleLine>) returns (r: Option<Error>)
    ensures r == Refusal(sess.docs.config, lines)
  {
    r := None;
    var i := 0;
    while i < |lines|
      invariant 0 <= i <= |lines| && r == None
      invariant Refusal(sess.docs.config, lines) == Refusal(sess.docs.config, lines[i..])
    {
      assert lines[i..][1..] == lines[i + 1..];
      if lines[i].qty <= 0 || lines[i].sku !in sess.docs.config.skus {
        return Some(ValidationFailed);
      }
      if sess.docs.config.skus[lines[i].sku].tracking == Serialized {
        return Some(BusinessRuleConflict);
      }
      i := i + 1;
    }
  }

  /** `sales[i]` is the document id drawn for the i-th envelope. */
  method PostSales(sess: Session, items: seq<Envelope>, sales: seq<DocId>) returns (r: Outcome<seq<Status>>)
    requires |items| == |sales|
    modifies sess
    ensures match Batch(old(sess.docs).config, old(sess.Inv()), old(sess.Inv()), items, sales, |items| == 1)
            case Ok(res) => r == Ok(res.1) && sess.State() == Db(res.0, old(sess.docs))
            case Raise(e) => r == Raise(e) && sess.State() == old(sess.State())
  {
    var saved := sess.State();
    var config, single := sess.docs.config, |items| == 1;
    var out: seq<Status> := [];
    var i := 0;
    assert items[0..] == items && sales[0..] == sales;
    PrefixedNothing(Batch(config, saved.inv, saved.inv, items, sales, single));
    while i < |items|
      invariant 0 <= i <= |items|
      invariant sess.docs == saved.docs
      invariant Batch(config, saved.inv, saved.inv, items, sales, single)
             == Prefixed(out, Batch(config, saved.inv, sess.Inv(), items[i..], sales[i..], single))
    {
      assert items[i..][1..] == items[i + 1..] && sales[i..][1..] == sales[i + 1..];
      var refusal := CheckLines(sess, items[i].lines);
      if refusal.Some? {
        sess.Rollback(saved);
        return Raise(refusal.value);
      }
      var savepoint := sess.State();
      var sold := SellLines(sess, items[i], sales[i]);
      if sold.Ok? {
        PrefixedStep(out, Accepted, Batch(config, saved.inv, sess.Inv(), items[i + 1..], sales[i + 1..], single));
        out := out + [Accepted];
      } else {
        sess.Rollback(savepoint);
        if sold.error != IntegrityError {
          sess.Rollback(saved);
          return Raise(sold.error);
        }
        sess.Rollback(saved);
        if single {
          return Raise(IdempotencyConflict);
        }
        PrefixedStep(out, AlreadyProcessed,
                     Batch(config, saved.inv, saved.inv, items[i + 1..], sales[i + 1..], single));
        out := out + [AlreadyProcessed];
      }
      i := i + 1;
    }
    assert out + [] == out;
    return Ok(out);
  }

  lemma PrefixedNothing(o: Outcome<(Inventory, seq<Status>)>)
    ensures Prefixed([], o) == o
  {
    if o.Ok? {
      assert [] + o.value.1 == o.value.1;
    }
  }

  ghost function Prefixed(out: seq<Status>, o: Outcome<(Inventory, seq<Status>)>): Outcome<(Inventory, seq<Status>)> {
    match o
    case Ok(res) => Ok((res.0, out + res.1))
    case Raise(e) => o
  }

  lemma PrefixedStep(out: seq<Status>, s: Status, o: Outcome<(Inventory, seq<Status>)>)
    ensures Prefixed(out, Prefixed([s], o)) == Prefixed(out + [s], o)
  {
    if o.Ok? {
      assert out + ([s] + o.value.1) == (out + [s]) + o.value.1;
    }
  }

  // ---------- what a batch leaves behind ----------

  /** The operations of the envelopes that survive: those after the last duplicate. */
  function Surviving(items: seq<Envelope>, sales: seq<DocId>, out: seq<Status>): seq<Op>
    requires |items| == |sales| == |out|
  {
    if items == [] then []
    else if AlreadyProcessed in out[1..] || out[0] == AlreadyProcessed
    then Surviving(items[1..], sales[1..], out[1..])
    else SaleOps(items[0], sales[0]) + Surviving(items[1..], sales[1..], out[1..])
  }

  /** Exactly what a batch of two or more envelopes commits: the envelopes it accepted after its
      last duplicate, on top of what was there before the request. Envelopes it accepted
      before a duplicate are answered "accepted" and lost. */
  lemma {:induction false} BatchCommits(config: Config, start: Inventory, now: Inventory, items: seq<Envelope>,
                                        sales: seq<DocId>)
    requires |items| == |sales|
    requires Batch(config, start, now, items, sales, false).Ok?
    ensures var res := Batch(config, start, now, items, sales, false).value;
            && |res.1| == |items|
            && ExecAll(if AlreadyProcessed in res.1 then start else now, Surviving(items, sales, res.1)) == Ok(res.0)
    decreases |items|
  {
    if items != [] {
      var res := Batch(config, start, now, items, sales, false).value;
      match ExecAll(now, SaleOps(items[0], sales[0])) {
        case Ok(next) =>
          BatchCommits(config, start, next, items[1..], sales[1..]);
          var rest := Batch(config, start, next, items[1..], sales[1..], false).value;
          assert res.1[1..] == rest.1 && res.1 == [Accepted] + rest.1;
          ExecAllConcat(now, SaleOps(items[0], sales[0]), Surviving(items[1..], sales[1..], rest.1));
        case Raise(e) =>
          BatchCommits(config, start, start, items[1..], sales[1..]);
          var rest := Batch(config, start, start, items[1..], sales[1..], false).value;
          assert res.1[1..] == rest.1 && res.1 == [AlreadyProcessed] + rest.1;
      }
    }
  }
}
