/** Customer returns: what each disposition puts back. */
module Returns {
  import opened Tables
  import opened Ledger
  import opened Database
  import opened LedgerWriter
  import Serials
  import SerialService

  datatype LineInput = LineInput(
    sku: SkuId, qty: int, reason: string, disposition: Disposition, target: LocId, serial: Option<SerialId>)

  datatype ReturnInput = ReturnInput(at: int, lines: seq<LineInput>, noReceipt: bool, managerApproved: bool)

  function HeaderError(input: ReturnInput): Option<Error> {
    if input.noReceipt && !input.managerApproved then Some(BusinessRuleConflict)
    else if input.lines == [] then Some(ValidationFailed)
    else None
  }

  function LineError(line: LineInput): Option<Error> {
    if line.qty <= 0 || line.disposition == OtherDisposition || line.reason == "" then Some(ValidationFailed) else None
  }

  /** Finding the serial a line names, and its prior sale when there is no receipt. */
  function LookUpOps(input: ReturnInput, line: LineInput): seq<Op> {
    if line.serial.None? then []
    else [LookUp(line.serial.value, line.sku)] + (if input.noReceipt then [PriorSale(line.serial.value)] else [])
  }

  function Restock(doc: DocId, at: int, line: LineInput): Movement {
    Movement(Key(line.sku, line.target), line.qty, CustomerReturn, doc, line.serial, Some(0), None, at,
             if line.serial.Some? then Some(Returned) else None)
  }

  /** Scrapped goods are not put back; a scrapped serial passes through returned. */
  function StockOps(doc: DocId, at: int, line: LineInput): seq<Op> {
    if line.disposition == ScrapIt then
      if line.serial.None? then []
      else [CallSerial(line.serial.value, Serials.TakeBack(line.target)),
            CallSerial(line.serial.value, Serials.MarkScrapped)]
    else
      [Move(Restock(doc, at, line))]
      + (if line.serial.Some? && line.disposition == VendorRma
         then [CallSerial(line.serial.value, Serials.MarkRmaPending)] else [])
  }

  /** A line that raises nothing of its own. */
  predicate Postable(config: Config, line: LineInput) {
    LineError(line).None? && line.sku in config.skus
  }

  /** The goods of a line, once its row is in: the sku of the row is a foreign key. */
  function GoodsOps(config: Config, doc: DocId, at: int, line: LineInput): seq<Op> {
    if line.sku !in config.skus then [Fail(IntegrityError)] else StockOps(doc, at, line)
  }

  function LineOps(config: Config, doc: DocId, input: ReturnInput, line: LineInput): seq<Op> {
    if LineError(line).Some? then [Fail(LineError(line).value)]
    else LookUpOps(input, line) + GoodsOps(config, doc, input.at, line)
  }

  function LinesOps(config: Config, doc: DocId, input: ReturnInput, lines: seq<LineInput>): seq<Op> {
    if lines == [] then [] else LineOps(config, doc, input, lines[0]) + LinesOps(config, doc, input, lines[1..])
  }

  function NewRow(line: LineInput): ReturnLine {
    ReturnLine(line.sku, line.qty, line.disposition, line.serial)
  }

  function NewRows(lines: seq<LineInput>): (r: seq<ReturnLine>)
    ensures |r| == |lines|
    ensures forall i :: 0 <= i < |lines| ==> r[i] == NewRow(lines[i])
  {
    seq(|lines|, i requires 0 <= i < |lines| => NewRow(lines[i]))
  }

  function PlanReturn(docs: Docs, input: ReturnInput): Outcome<Plan> {
    if HeaderError(input).Some? then Raise(HeaderError(input).value)
    else
      Ok(Plan(LinesOps(docs.config, docs.returnDocs, input, input.lines),
              docs.(returnDocs := docs.returnDocs + 1, returnLines := docs.returnLines + NewRows(input.lines))))
  }

  // ---------- the service methods ----------

  /** Only reads. */
  method FindSerial(sess: Session, input: ReturnInput, line: LineInput) returns (r: Outcome<int>)
    ensures match ExecAll(sess.Inv(), LookUpOps(input, line))
            case Ok(inv') => r.Ok? && inv' == sess.Inv()
            case Raise(e) => r == Raise(e)
  {
    if line.serial.None? {
      return Ok(0);
    }
    var id := line.serial.value;
    ghost var prior := if input.noReceipt then [PriorSale(id)] else [];
    HeadOp(sess.Inv(), LookUp(id, line.sku), prior);
    HeadOp(sess.Inv(), PriorSale(id), []);
    assert input.noReceipt ==> prior == [PriorSale(id)] + [];
    if id !in sess.serials {
      return Raise(NotFound);
    }
    if sess.serials[id].sku != line.sku {
      return Raise(BusinessRuleConflict);
    }
    if input.noReceipt && !SoldBefore(sess.ledger, id) {
      return Raise(BusinessRuleConflict);
    }
    return Ok(0);
  }

  method StockLine(sess: Session, doc: DocId, at: int, line: LineInput) returns (r: Outcome<int>)
    modifies sess`balances, sess`layers, sess`serials, sess`ledger
    ensures match ExecAll(old(sess.Inv()), StockOps(doc, at, line))
            case Ok(inv') => r.Ok? && sess.Inv() == inv'
            case Raise(e) => r == Raise(e)
  {
    if line.disposition == ScrapIt {
      r := Ok(0);
      if line.serial.Some? {
        r := ScrapSerial(sess, line.serial.value, line.target);
      }
      return;
    }
    ghost var inv := sess.Inv();
    ghost var tail := if line.serial.Some? && line.disposition == VendorRma
      then [CallSerial(line.serial.value, Serials.MarkRmaPending)] else [];
    HeadMoved(inv, Restock(doc, at, line), tail);
    r := PostMovement(sess, Restock(doc, at, line));
    if r.Ok? && line.serial.Some? && line.disposition == VendorRma {
      SingleCall(sess.Inv(), line.serial.value, Serials.MarkRmaPending);
      r := SerialService.MarkRmaPending(sess, line.serial.value);
    }
  }

  method ScrapSerial(sess: Session, id: SerialId, target: LocId) returns (r: Outcome<int>)
    modifies sess`serials
    ensures match ExecAll(old(sess.Inv()),
                          [CallSerial(id, Serials.TakeBack(target)), CallSerial(id, Serials.MarkScrapped)])
            case Ok(inv') => r.Ok? && sess.Inv() == inv'
            case Raise(e) => r == Raise(e)
  {
    var first, second := CallSerial(id, Serials.TakeBack(target)), CallSerial(id, Serials.MarkScrapped);
    ExecAllConcat(sess.Inv(), [first], [second]);
    assert [first] + [second] == [first, second];
    SingleCall(sess.Inv(), id, Serials.TakeBack(target));
    r := SerialService.TakeBack(sess, id, target);
    if r.Ok? {
      SingleCall(sess.Inv(), id, Serials.MarkScrapped);
      r := SerialService.MarkScrapped(sess, id);
    }
  }

  lemma SingleCall(inv: Inventory, id: SerialId, c: Serials.Call)
    ensures ExecAll(inv, [CallSerial(id, c)]) == Exec(inv, CallSerial(id, c))
  {
  }

  method ReturnLineGoods(sess: Session, doc: DocId, input: ReturnInput, line: LineInput) returns (r: Outcome<int>)
    modifies sess`balances, sess`layers, sess`serials, sess`ledger
    ensures match ExecAll(old(sess.Inv()), LineOps(sess.docs.config, doc, input, line))
            case Ok(inv') => r.Ok? && sess.Inv() == inv'
            case Raise(e) => r == Raise(e)
  {
    if LineError(line).Some? {
      return Raise(LineError(line).value);
    }
    ExecAllConcat(sess.Inv(), LookUpOps(input, line), GoodsOps(sess.docs.config, doc, input.at, line));
    r := FindSerial(sess, input, line);
    if r.Raise? {
      return;
    }
    if line.sku !in sess.docs.config.skus {
      return Raise(IntegrityError);
    }
    r := StockLine(sess, doc, input.at, line);
  }

  method ReturnLines(sess: Session, doc: DocId, input: ReturnInput) returns (r: Outcome<int>)
    modifies sess`balances, sess`layers, sess`serials, sess`ledger
    ensures match ExecAll(old(sess.Inv()), LinesOps(sess.docs.config, doc, input, input.lines))
            case Ok(inv') => r.Ok? && sess.Inv() == inv'
            case Raise(e) => r == Raise(e)
  {
    ghost var config := sess.docs.config;
    r := Ok(0);
    ghost var result := ExecAll(sess.Inv(), LinesOps(config, doc, input, input.lines));
    var i := 0;
    assert input.lines[0..] == input.lines;
    while i < |input.lines|
      invariant 0 <= i <= |input.lines| && r.Ok?
      invariant result == ExecAll(sess.Inv(), LinesOps(config, doc, input, input.lines[i..]))
    {
      assert input.lines[i..][1..] == input.lines[i + 1..];
      ExecAllConcat(sess.Inv(), LineOps(config, doc, input, input.lines[i]),
                    LinesOps(config, doc, input, input.lines[i + 1..]));
      r := ReturnLineGoods(sess, doc, input, input.lines[i]);
      if r.Raise? {
        return;
      }
      i := i + 1;
    }
  }

  method PostReturn(sess: Session, input: ReturnInput) returns (r: Outcome<nat>)
    modifies sess
    ensures var after := Transact(old(sess.State()), PlanReturn(old(sess.docs), input));
            && sess.State() == Committed(old(sess.State()), after)
            && r == (if after.Ok? then Ok(old(sess.docs).returnDocs) else Raise(after.error))
  {
    if HeaderError(input).Some? {
      return Raise(HeaderError(input).value);
    }
    var saved := sess.State();
    var doc := sess.docs.returnDocs;
    var posted := ReturnLines(sess, doc, input);
    if posted.Raise? {
      sess.Rollback(saved);
      return Raise(posted.error);
    }
    sess.docs := sess.docs.(returnDocs := doc + 1, returnLines := sess.docs.returnLines + NewRows(input.lines));
    return Ok(doc);
  }
}
