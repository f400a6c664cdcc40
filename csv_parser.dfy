/**
 * The record scanner of water.parser.CSVParserKV over one in-memory byte array
 * (the byte[] constructor: one chunk, no next chunk, no skipped first record).
 *
 * `HasNext` runs a state machine over the bytes until a record ends, storing
 * each completed field in the record: integer fields through parseInt,
 * decimal fields through parseFloat, string fields as an offset and a length
 * into the bytes.  The functions below define one step of that machine and
 * the whole scan; the class Parser carries the same state in fields and is
 * proved to follow them.
 */
module CsvParser {
  import opened Wrappers
  import opened CsvFields

  // ---------------------------------------------------------------------------
  // Configuration

  /** The partialRecordPolicy values. */
  const FillPartialRecords: int := 100
  const DropPartialRecords: int := 101
  const ErrorOnPartialRecords: int := 102

  datatype ColumnType = TypeNull | TypeInt | TypeFloat | TypeDouble | TypeString

  /** The ParserSetup settings the byte-array scanner reads. */
  datatype Setup = Setup(policy: int, separator: char, whiteSpaceSeparator: bool, defaultInt: int)

  /**
   * What a scan depends on: the bytes, the type of each column (ncols() is
   * their number), the setup and the capacity of parseFloat's digit buffer.
   */
  datatype Config = Config(data: seq<Byte>, columnTypes: seq<ColumnType>, setup: Setup, cap: nat)

  /** isSeparator. */
  predicate IsSeparator(setup: Setup, c: char) {
    c == setup.separator || (setup.whiteSpaceSeparator && IsWhitespace(c))
  }

  // ---------------------------------------------------------------------------
  // Records

  /** A decimal as parseFloat records it: sign, digits and decimal exponent. */
  datatype Decimal = Decimal(negative: bool, digits: seq<char>, decExp: int)

  /**
   * A stored field: an int (parsed or the default), a decimal (None for the
   * NaN default), or a string as offset and length in the bytes.  Unset is a
   * field no record has written yet.
   */
  datatype Cell = Unset | IntCell(value: int) | DecimalCell(decimal: Option<Decimal>) | StringCell(offset: int, length: int)

  /** The decimal a field holds, from the corrected parseFloat. */
  function DecimalOf(s: seq<char>, cap: nat): Option<Decimal> {
    match FloatField(s, cap)
    case Done(true, last) => Some(Decimal(last.negative, last.digits, last.decExp))
    case _ => None
  }

  /** The int stored for a field: parseInt's value, or defaultInt when it fails. */
  function IntOf(s: seq<char>, defaultInt: int): int {
    match IntField(s, 10)
    case Some(v) => v
    case None => defaultInt
  }

  /** Whether a stored cell is of its column's type. */
  predicate Fits(t: ColumnType, c: Cell) {
    match t
    case TypeNull => true
    case TypeInt => c.IntCell?
    case TypeFloat | TypeDouble => c.DecimalCell?
    case TypeString => c.StringCell?
  }

  // ---------------------------------------------------------------------------
  // The scanner state

  /** The values of _state. */
  datatype ParseState = Initial | Quoted | EndQuote | AfterQuoted | NonQuoted | EndLine

  /** The parser's fields that hasNext updates, and the record being filled. */
  datatype Scanner = Scanner(dataPtr: int, state: ParseState, column: int, fieldStart: int, fieldEnd: int,
                             recordStart: int, maxColumn: int, stringIdx: int, record: seq<Cell>)

  /** The bounds the scan keeps: field ends never pass the data pointer. */
  predicate Scanning(cfg: Config, sc: Scanner) {
    0 <= sc.dataPtr <= |cfg.data| && 0 <= sc.fieldStart && sc.fieldEnd <= sc.dataPtr &&
    0 <= sc.column && |sc.record| == |cfg.columnTypes|
  }

  /** The first m cells of the record are of their columns' types. */
  predicate TypedUpTo(cfg: Config, sc: Scanner, m: int)
    requires Scanning(cfg, sc)
  {
    forall k :: 0 <= k < m && k < |cfg.columnTypes| ==> Fits(cfg.columnTypes[k], sc.record[k])
  }

  /** The characters of the current field. */
  function FieldChars(cfg: Config, sc: Scanner): seq<char>
    requires Scanning(cfg, sc)
  {
    Chars(cfg.data, sc.fieldStart, sc.fieldEnd)
  }

  /** The cell endField stores for the current field in a column of type t. */
  function FieldCell(cfg: Config, sc: Scanner, t: ColumnType): Cell
    requires Scanning(cfg, sc)
  {
    match t
    case TypeNull => Unset
    case TypeInt => IntCell(IntOf(FieldChars(cfg, sc), cfg.setup.defaultInt))
    case TypeFloat | TypeDouble => DecimalCell(DecimalOf(FieldChars(cfg, sc), cfg.cap))
    case TypeString => StringCell(sc.fieldStart, sc.fieldEnd - sc.fieldStart)
  }

  /**
   * endField: stores the current field when its column is one of the ncols()
   * columns, otherwise raises maxColumn to the column; then moves to the next
   * column and back to the initial state.
   */
  function EndFieldF(cfg: Config, sc: Scanner): (r: Scanner)
    requires Scanning(cfg, sc)
    ensures Scanning(cfg, r)
    ensures r.column == sc.column + 1 && r.state == Initial && r.fieldStart == sc.dataPtr + 1
    ensures r.dataPtr == sc.dataPtr && r.fieldEnd == sc.fieldEnd && r.recordStart == sc.recordStart
    ensures forall k :: 0 <= k < |r.record| && k != sc.column ==> r.record[k] == sc.record[k]
    ensures sc.column < |cfg.columnTypes| ==>
      r.maxColumn == sc.maxColumn && Fits(cfg.columnTypes[sc.column], r.record[sc.column])
    ensures sc.column < |cfg.columnTypes| && cfg.columnTypes[sc.column] != TypeNull ==>
      r.record[sc.column] == FieldCell(cfg, sc, cfg.columnTypes[sc.column])
    ensures sc.column >= |cfg.columnTypes| ==>
      (r.record == sc.record && r.stringIdx == sc.stringIdx &&
       r.maxColumn == if sc.column > sc.maxColumn then sc.column else sc.maxColumn)
  {
    var n := |cfg.columnTypes|;
    var stored :=
      if sc.column < n then
        match cfg.columnTypes[sc.column]
        case TypeNull => sc
        case TypeString =>
          sc.(record := sc.record[sc.column := FieldCell(cfg, sc, TypeString)], stringIdx := sc.stringIdx + 1)
        case t => sc.(record := sc.record[sc.column := FieldCell(cfg, sc, t)])
      else if sc.column > sc.maxColumn then sc.(maxColumn := sc.column)
      else sc;
    stored.(column := sc.column + 1, fieldStart := sc.dataPtr + 1, state := Initial)
  }

  /** endRecord's loop under FILL: endField for each remaining column. */
  function FillF(cfg: Config, sc: Scanner): (r: Scanner)
    requires Scanning(cfg, sc)
    ensures Scanning(cfg, r)
    ensures r.dataPtr == sc.dataPtr && r.fieldEnd == sc.fieldEnd && r.recordStart == sc.recordStart
    ensures r.column == if sc.column < |cfg.columnTypes| then |cfg.columnTypes| else sc.column
    ensures forall k :: 0 <= k < sc.column && k < |r.record| ==> r.record[k] == sc.record[k]
    ensures TypedUpTo(cfg, sc, sc.column) ==> TypedUpTo(cfg, r, |cfg.columnTypes|)
    decreases |cfg.columnTypes| - sc.column
  {
    if sc.column < |cfg.columnTypes| then FillF(cfg, EndFieldF(cfg, sc)) else sc
  }

  /**
   * endRecord: a record with fewer than ncols() fields is filled with the
   * defaults (FILL, keeping the column count), rejected (DROP, resetting the
   * column count) or an error (ERROR and any other policy).  The answer says
   * whether the record is taken.
   */
  function EndRecordF(cfg: Config, sc: Scanner): (r: Result<(bool, Scanner)>)
    requires Scanning(cfg, sc)
    ensures r.Err? <==>
      (sc.column < |cfg.columnTypes| && cfg.setup.policy != FillPartialRecords && cfg.setup.policy != DropPartialRecords)
    ensures r.Ok? ==> Scanning(cfg, r.value.1) && r.value.1.dataPtr == sc.dataPtr
    ensures r.Ok? ==> (r.value.0 <==> sc.column >= |cfg.columnTypes| || cfg.setup.policy == FillPartialRecords)
    ensures r.Ok? ==> r.value.1.column == (if r.value.0 then sc.column else 0)
    ensures r.Ok? ==>
      (r.value.1.stringIdx == 0 && r.value.1.recordStart == sc.dataPtr + 1 && r.value.1.fieldStart == sc.dataPtr + 1)
    ensures r.Ok? && !r.value.0 ==> r.value.1.record == sc.record
    ensures r.Ok? && r.value.0 && TypedUpTo(cfg, sc, sc.column) ==> TypedUpTo(cfg, r.value.1, |cfg.columnTypes|)
  {
    var n := |cfg.columnTypes|;
    if sc.column < n && cfg.setup.policy != FillPartialRecords && cfg.setup.policy != DropPartialRecords then
      Err(if cfg.setup.policy == ErrorOnPartialRecords then "partial record" else "illegal _partialRecordPolicy value")
    else
      var res := sc.column >= n || cfg.setup.policy == FillPartialRecords;
      var filled :=
        if sc.column < n && res then FillF(cfg, sc.(fieldStart := sc.dataPtr, fieldEnd := sc.dataPtr - 1)).(column := sc.column)
        else sc;
      var ended := filled.(recordStart := sc.dataPtr + 1, fieldStart := sc.dataPtr + 1, stringIdx := 0);
      Ok((res, if res then ended else ended.(column := 0)))
  }

  // ---------------------------------------------------------------------------
  // One character of hasNext

  /**
   * One pass of hasNext's loop: Failed for an exception (an ERROR record),
   * otherwise whether the record is finished and the new state.
   */
  datatype StepOutcome = Failed(message: string) | Stepped(finished: bool, next: Scanner)

  /** The state moves on without ending a record; the pointer moves past the character. */
  function Advance(sc: Scanner): StepOutcome {
    Stepped(false, sc.(dataPtr := sc.dataPtr + 1))
  }

  /** The record ends at a '\n'; the pointer moves past it. */
  function EndRecordStep(cfg: Config, sc: Scanner): StepOutcome
    requires Scanning(cfg, sc)
  {
    match EndRecordF(cfg, sc)
    case Err(m) => Failed(m)
    case Ok((res, ended)) => Stepped(res, ended.(dataPtr := sc.dataPtr + 1))
  }

  /** STATE_INITIAL: the start of a field, or only whitespace read. */
  function InitialStep(cfg: Config, sc: Scanner, c: char): StepOutcome
    requires Scanning(cfg, sc)
  {
    if c == '\r' then Advance(sc.(state := EndLine, fieldEnd := sc.dataPtr))
    else if c == '\n' then EndRecordStep(cfg, sc)
    else if c == '"' then Advance(sc.(state := Quoted, fieldStart := sc.dataPtr + 1))
    else
      var marked := sc.(fieldEnd := sc.dataPtr);
      if IsSeparator(cfg.setup, c) then Advance(EndFieldF(cfg, marked))
      else if !IsWhitespace(c) then Advance(marked.(state := NonQuoted))
      else Advance(marked)
  }

  /** STATE_QUOTED: a '"' may close the field. */
  function QuotedStep(sc: Scanner, c: char): StepOutcome {
    if c == '"' then Advance(sc.(state := EndQuote, fieldEnd := sc.dataPtr)) else Advance(sc)
  }

  /** STATE_AFTER_QUOTED: the character after a closing quote. */
  function AfterQuotedStep(cfg: Config, sc: Scanner, c: char): StepOutcome
    requires Scanning(cfg, sc)
  {
    if c == '\r' then Advance(EndFieldF(cfg, sc.(state := EndLine)))
    else if c == '\n' then EndRecordStep(cfg, EndFieldF(cfg, sc))
    else if IsSeparator(cfg.setup, c) then Advance(EndFieldF(cfg, sc))
    else if !IsWhitespace(c) then Advance(sc.(state := NonQuoted))
    else Advance(sc)
  }

  /** STATE_ENDQUOTE: a second '"' is an escaped quote, anything else falls through to AFTER_QUOTED. */
  function EndQuoteStep(cfg: Config, sc: Scanner, c: char): StepOutcome
    requires Scanning(cfg, sc)
  {
    if c == '"' then Advance(sc.(state := Quoted))
    else AfterQuotedStep(cfg, sc.(state := AfterQuoted), c)
  }

  /** STATE_NONQUOTEDFIELD: a line end or a separator ends the field there. */
  function NonQuotedStep(cfg: Config, sc: Scanner, c: char): StepOutcome
    requires Scanning(cfg, sc)
  {
    var marked := sc.(fieldEnd := sc.dataPtr);
    if c == '\r' then Advance(EndFieldF(cfg, marked.(state := EndLine)))
    else if c == '\n' then EndRecordStep(cfg, EndFieldF(cfg, marked))
    else if IsSeparator(cfg.setup, c) then Advance(EndFieldF(cfg, marked))
    else Advance(sc)
  }

  /**
   * STATE_ENDLINE: the record ends, and the pointer moves only past a '\n'.
   * `asWritten` selects the code as it stands, where the state stays
   * STATE_ENDLINE when endRecord rejects the record; otherwise a rejected
   * record restarts the scan at the pointer in STATE_INITIAL, as hasNext does
   * at the start of a record.
   */
  function EndLineStep(cfg: Config, sc: Scanner, c: char, asWritten: bool): StepOutcome
    requires Scanning(cfg, sc)
  {
    match EndRecordF(cfg, sc)
    case Err(m) => Failed(m)
    case Ok((res, ended)) =>
      var moved := if c == '\n' then ended.(dataPtr := sc.dataPtr + 1) else ended;
      Stepped(res, if asWritten || res then moved else StartRecord(moved))
  }

  /** The state hasNext sets up for a record starting at the pointer. */
  function StartRecord(sc: Scanner): Scanner {
    sc.(state := Initial, column := 0, fieldStart := sc.dataPtr, recordStart := sc.dataPtr)
  }

  /** One pass of hasNext's loop on the character at the data pointer. */
  function Step(cfg: Config, sc: Scanner, asWritten: bool): StepOutcome
    requires Scanning(cfg, sc) && sc.dataPtr < |cfg.data|
  {
    var c := CharOf(cfg.data[sc.dataPtr]);
    match sc.state
    case Initial => InitialStep(cfg, sc, c)
    case Quoted => QuotedStep(sc, c)
    case EndQuote => EndQuoteStep(cfg, sc, c)
    case AfterQuoted => AfterQuotedStep(cfg, sc, c)
    case NonQuoted => NonQuotedStep(cfg, sc, c)
    case EndLine => EndLineStep(cfg, sc, c, asWritten)
  }

  /**
   * What one pass guarantees: the bounds hold, the pointer moves at most one
   * character on, and in the corrected loop a pass that neither finishes the
   * record nor moves the pointer leaves STATE_ENDLINE for STATE_INITIAL.
   */
  ghost predicate Progress(cfg: Config, sc: Scanner, out: StepOutcome, asWritten: bool) {
    out.Stepped? ==>
      Scanning(cfg, out.next) &&
      (out.next.dataPtr == sc.dataPtr + 1 || out.next.dataPtr == sc.dataPtr) &&
      (!asWritten && !out.finished && out.next.dataPtr == sc.dataPtr ==>
         sc.state == EndLine && out.next.state == Initial)
  }

  lemma InitialProgress(cfg: Config, sc: Scanner, c: char)
    requires Scanning(cfg, sc) && sc.dataPtr < |cfg.data| && sc.state == Initial
    ensures Progress(cfg, sc, InitialStep(cfg, sc, c), false)
  {
  }

  lemma NonQuotedProgress(cfg: Config, sc: Scanner, c: char)
    requires Scanning(cfg, sc) && sc.dataPtr < |cfg.data| && sc.state == NonQuoted
    ensures Progress(cfg, sc, NonQuotedStep(cfg, sc, c), false)
  {
  }

  lemma AfterQuotedProgress(cfg: Config, sc: Scanner, c: char)
    requires Scanning(cfg, sc) && sc.dataPtr < |cfg.data| && sc.state != EndLine
    ensures Progress(cfg, sc, AfterQuotedStep(cfg, sc, c), false)
  {
  }

  lemma EndLineProgress(cfg: Config, sc: Scanner, c: char, asWritten: bool)
    requires Scanning(cfg, sc) && sc.dataPtr < |cfg.data| && sc.state == EndLine
    ensures Progress(cfg, sc, EndLineStep(cfg, sc, c, asWritten), asWritten)
  {
  }

  /** Each pass keeps the bounds; the corrected one also makes progress. */
  lemma StepProgress(cfg: Config, sc: Scanner, asWritten: bool)
    requires Scanning(cfg, sc) && sc.dataPtr < |cfg.data|
    ensures Progress(cfg, sc, Step(cfg, sc, asWritten), asWritten)
  {
    var c := CharOf(cfg.data[sc.dataPtr]);
    match sc.state
    case Initial =>
      InitialProgress(cfg, sc, c);
    case Quoted =>
    case EndQuote =>
      if c != '"' {
        AfterQuotedProgress(cfg, sc.(state := AfterQuoted), c);
      }
    case AfterQuoted =>
      AfterQuotedProgress(cfg, sc, c);
    case NonQuoted =>
      NonQuotedProgress(cfg, sc, c);
    case EndLine =>
      EndLineProgress(cfg, sc, c, asWritten);
  }

  // ---------------------------------------------------------------------------
  // hasNext

  /**
   * hasNext's loop (corrected): Ok(true, _) when a record is finished,
   * Ok(false, _) at the end of the data, Err for an exception.
   */
  function Run(cfg: Config, sc: Scanner): Result<(bool, Scanner)>
    requires Scanning(cfg, sc)
    decreases |cfg.data| - sc.dataPtr, if sc.state == EndLine then 1 else 0
  {
    if sc.dataPtr == |cfg.data| then Ok((false, sc))
    else
      StepProgress(cfg, sc, false);
      match Step(cfg, sc, false)
      case Failed(m) => Err(m)
      case Stepped(true, next) => Ok((true, next))
      case Stepped(false, next) => Run(cfg, next)
  }

  /** Run after one pass. */
  lemma RunStep(cfg: Config, sc: Scanner)
    requires Scanning(cfg, sc) && sc.dataPtr < |cfg.data|
    ensures Step(cfg, sc, false).Failed? ==> Run(cfg, sc) == Err(Step(cfg, sc, false).message)
    ensures Step(cfg, sc, false).Stepped? ==> Scanning(cfg, Step(cfg, sc, false).next)
    ensures Step(cfg, sc, false).Stepped? && Step(cfg, sc, false).finished ==>
      Run(cfg, sc) == Ok((true, Step(cfg, sc, false).next))
    ensures Step(cfg, sc, false).Stepped? && !Step(cfg, sc, false).finished ==>
      Run(cfg, sc) == Run(cfg, Step(cfg, sc, false).next)
  {
    StepProgress(cfg, sc, false);
  }

  /** hasNext when no record is pending. */
  function HasNextF(cfg: Config, sc: Scanner): Result<(bool, Scanner)>
    requires Scanning(cfg, sc)
  {
    if sc.dataPtr >= |cfg.data| then Ok((false, sc)) else Run(cfg, StartRecord(sc))
  }

  /**
   * The loop of hasNext for at most `fuel` passes: Pending when it has not
   * returned yet.  It exists so that the code as written, whose loop need not
   * end, can be stated at all.
   */
  datatype Bounded = Pending(scanner: Scanner) | Ended(result: Result<(bool, Scanner)>)

  function RunFor(cfg: Config, sc: Scanner, fuel: nat, asWritten: bool): Bounded
    requires Scanning(cfg, sc)
    decreases fuel
  {
    if fuel == 0 then Pending(sc)
    else if sc.dataPtr == |cfg.data| then Ended(Ok((false, sc)))
    else
      StepProgress(cfg, sc, asWritten);
      match Step(cfg, sc, asWritten)
      case Failed(m) => Ended(Err(m))
      case Stepped(true, next) => Ended(Ok((true, next)))
      case Stepped(false, next) => RunFor(cfg, next, fuel - 1, asWritten)
  }

  /**
   * The corrected loop returns within two passes per remaining byte (one
   * more from STATE_ENDLINE), with Run's answer.
   */
  lemma {:induction false} RunForEnds(cfg: Config, sc: Scanner, fuel: nat)
    requires Scanning(cfg, sc)
    requires fuel > 2 * (|cfg.data| - sc.dataPtr) + (if sc.state == EndLine then 1 else 0)
    ensures RunFor(cfg, sc, fuel, false) == Ended(Run(cfg, sc))
    decreases fuel
  {
    if sc.dataPtr < |cfg.data| {
      StepProgress(cfg, sc, false);
      match Step(cfg, sc, false)
      case Failed(_) =>
      case Stepped(finished, next) =>
        if !finished {
          RunForEnds(cfg, next, fuel - 1);
        }
    }
  }

  // ---------------------------------------------------------------------------
  // Properties of the scan

  /** A record whose every column holds a value of its type, with ncols() fields unless FILL filled it. */
  ghost predicate Complete(cfg: Config, sc: Scanner) {
    Scanning(cfg, sc) && TypedUpTo(cfg, sc, |cfg.columnTypes|) &&
    (sc.column >= |cfg.columnTypes| || cfg.setup.policy == FillPartialRecords)
  }

  /** The fields written so far in the current record are of their columns' types. */
  ghost predicate Typed(cfg: Config, sc: Scanner) {
    Scanning(cfg, sc) && TypedUpTo(cfg, sc, sc.column)
  }

  /** What a pass keeps: the record stays typed, and a finished record is complete. */
  ghost predicate KeepsTyped(cfg: Config, out: StepOutcome) {
    out.Stepped? ==> Typed(cfg, out.next) && (out.finished ==> Complete(cfg, out.next))
  }

  lemma EndFieldTyped(cfg: Config, sc: Scanner)
    requires Typed(cfg, sc)
    ensures Typed(cfg, EndFieldF(cfg, sc))
  {
  }

  lemma EndRecordTyped(cfg: Config, sc: Scanner)
    requires Typed(cfg, sc) && sc.dataPtr < |cfg.data|
    ensures KeepsTyped(cfg, EndRecordStep(cfg, sc))
  {
  }

  lemma InitialTyped(cfg: Config, sc: Scanner, c: char)
    requires Typed(cfg, sc) && sc.dataPtr < |cfg.data|
    ensures KeepsTyped(cfg, InitialStep(cfg, sc, c))
  {
    if c == '\n' {
      EndRecordTyped(cfg, sc);
    } else if c != '\r' && c != '"' && IsSeparator(cfg.setup, c) {
      EndFieldTyped(cfg, sc.(fieldEnd := sc.dataPtr));
    }
  }

  lemma AfterQuotedTyped(cfg: Config, sc: Scanner, c: char)
    requires Typed(cfg, sc) && sc.dataPtr < |cfg.data|
    ensures KeepsTyped(cfg, AfterQuotedStep(cfg, sc, c))
  {
    if c == '\r' {
      EndFieldTyped(cfg, sc.(state := EndLine));
    } else if c == '\n' {
      EndFieldTyped(cfg, sc);
      EndRecordTyped(cfg, EndFieldF(cfg, sc));
    } else if IsSeparator(cfg.setup, c) {
      EndFieldTyped(cfg, sc);
    }
  }

  lemma NonQuotedTyped(cfg: Config, sc: Scanner, c: char)
    requires Typed(cfg, sc) && sc.dataPtr < |cfg.data|
    ensures KeepsTyped(cfg, NonQuotedStep(cfg, sc, c))
  {
    var marked := sc.(fieldEnd := sc.dataPtr);
    if c == '\r' {
      EndFieldTyped(cfg, marked.(state := EndLine));
    } else if c == '\n' {
      EndFieldTyped(cfg, marked);
      EndRecordTyped(cfg, EndFieldF(cfg, marked));
    } else if IsSeparator(cfg.setup, c) {
      EndFieldTyped(cfg, marked);
    }
  }

  lemma EndLineTyped(cfg: Config, sc: Scanner, c: char)
    requires Typed(cfg, sc) && sc.dataPtr < |cfg.data|
    ensures KeepsTyped(cfg, EndLineStep(cfg, sc, c, false))
  {
  }

  lemma StepTyped(cfg: Config, sc: Scanner)
    requires Typed(cfg, sc) && sc.dataPtr < |cfg.data|
    ensures KeepsTyped(cfg, Step(cfg, sc, false))
  {
    var c := CharOf(cfg.data[sc.dataPtr]);
    match sc.state
    case Initial =>
      InitialTyped(cfg, sc, c);
    case Quoted =>
    case EndQuote =>
      AfterQuotedTyped(cfg, sc.(state := AfterQuoted), c);
    case AfterQuoted =>
      AfterQuotedTyped(cfg, sc, c);
    case NonQuoted =>
      NonQuotedTyped(cfg, sc, c);
    case EndLine =>
      EndLineTyped(cfg, sc, c);
  }

  lemma {:induction false} RunTyped(cfg: Config, sc: Scanner)
    requires Typed(cfg, sc)
    ensures Run(cfg, sc).Ok? && Run(cfg, sc).value.0 ==> Complete(cfg, Run(cfg, sc).value.1)
    decreases |cfg.data| - sc.dataPtr, if sc.state == EndLine then 1 else 0
  {
    if sc.dataPtr < |cfg.data| {
      StepProgress(cfg, sc, false);
      StepTyped(cfg, sc);
      match Step(cfg, sc, false)
      case Failed(_) =>
      case Stepped(finished, next) =>
        if !finished {
          RunTyped(cfg, next);
        }
    }
  }

  /**
   * A record hasNext yields holds a value of its column's type in every
   * column, and has ncols() fields unless the FILL policy completed it.
   */
  lemma HasNextComplete(cfg: Config, sc: Scanner)
    requires Scanning(cfg, sc)
    ensures HasNextF(cfg, sc).Ok? && HasNextF(cfg, sc).value.0 ==> Complete(cfg, HasNextF(cfg, sc).value.1)
  {
    if sc.dataPtr < |cfg.data| {
      RunTyped(cfg, StartRecord(sc));
    }
  }

  /** No '\n' and no '\r' from `from` on. */
  ghost predicate NoLineEnd(cfg: Config, from: int) {
    forall k :: 0 <= from <= k < |cfg.data| ==> CharOf(cfg.data[k]) != '\n' && CharOf(cfg.data[k]) != '\r'
  }

  lemma AfterQuotedNoLineEnd(cfg: Config, sc: Scanner, c: char)
    requires Scanning(cfg, sc) && sc.dataPtr < |cfg.data| && sc.state != EndLine && c != '\n' && c != '\r'
    ensures AfterQuotedStep(cfg, sc, c) == Stepped(false, AfterQuotedStep(cfg, sc, c).next)
    ensures AfterQuotedStep(cfg, sc, c).next.state != EndLine
  {
  }

  /** Away from line ends a pass never finishes a record nor enters STATE_ENDLINE. */
  lemma StepNoLineEnd(cfg: Config, sc: Scanner)
    requires Scanning(cfg, sc) && sc.dataPtr < |cfg.data| && sc.state != EndLine && NoLineEnd(cfg, sc.dataPtr)
    ensures Step(cfg, sc, false).Stepped? && !Step(cfg, sc, false).finished
    ensures Step(cfg, sc, false).next.state != EndLine
  {
    var c := CharOf(cfg.data[sc.dataPtr]);
    if sc.state == EndQuote && c != '"' {
      AfterQuotedNoLineEnd(cfg, sc.(state := AfterQuoted), c);
    } else if sc.state == AfterQuoted {
      AfterQuotedNoLineEnd(cfg, sc, c);
    }
  }

  lemma {:induction false} RunNoLineEnd(cfg: Config, sc: Scanner)
    requires Scanning(cfg, sc) && sc.state != EndLine && NoLineEnd(cfg, sc.dataPtr)
    ensures Run(cfg, sc).Ok? && !Run(cfg, sc).value.0
    decreases |cfg.data| - sc.dataPtr
  {
    if sc.dataPtr < |cfg.data| {
      StepProgress(cfg, sc, false);
      StepNoLineEnd(cfg, sc);
      RunNoLineEnd(cfg, Step(cfg, sc, false).next);
    }
  }

  /**
   * Data that ends without a line end after the pointer yields no record:
   * hasNext reaches the end of the data mid-record and answers false.
   */
  lemma HasNextNoLineEnd(cfg: Config, sc: Scanner)
    requires Scanning(cfg, sc) && NoLineEnd(cfg, sc.dataPtr)
    ensures HasNextF(cfg, sc).Ok? && !HasNextF(cfg, sc).value.0
  {
    if sc.dataPtr < |cfg.data| {
      RunNoLineEnd(cfg, StartRecord(sc));
    }
  }

  /**
   * A doubled quote inside a quoted field is an escaped quote: after the two
   * characters the scan is back in STATE_QUOTED with the same field start.
   */
  lemma QuoteEscape(cfg: Config, sc: Scanner)
    requires Scanning(cfg, sc) && sc.state == Quoted && sc.dataPtr + 1 < |cfg.data|
    requires CharOf(cfg.data[sc.dataPtr]) == '"' && CharOf(cfg.data[sc.dataPtr + 1]) == '"'
    ensures Step(cfg, sc, false).Stepped? && !Step(cfg, sc, false).finished
    ensures Step(cfg, sc, false).next.state == EndQuote
    ensures Step(cfg, Step(cfg, sc, false).next, false) ==
      Stepped(false, sc.(dataPtr := sc.dataPtr + 2, fieldEnd := sc.dataPtr))
  {
  }

  /**
   * A line end in STATE_ENDLINE: the record ends (under a policy that does not
   * throw) and the pointer moves past the character exactly when it is '\n'.
   */
  lemma EndLineConsumesNewline(cfg: Config, sc: Scanner)
    requires Scanning(cfg, sc) && sc.dataPtr < |cfg.data| && sc.state == EndLine
    requires cfg.setup.policy == FillPartialRecords || cfg.setup.policy == DropPartialRecords
    ensures Step(cfg, sc, false).Stepped?
    ensures Step(cfg, sc, false).next.dataPtr ==
      if CharOf(cfg.data[sc.dataPtr]) == '\n' then sc.dataPtr + 1 else sc.dataPtr
    ensures Step(cfg, sc, false).finished <==>
      sc.column >= |cfg.columnTypes| || cfg.setup.policy == FillPartialRecords
  {
  }

  /**
   * The cell FILL stores in a column of type t that the record did not
   * reach: parseInt on the empty range gives 0 (not defaultInt), parseFloat
   * finds no digit (the NaN default), and a string gets the range
   * [p, p - 1) in the first filled column and [p + 1, p - 1) after it.
   */
  function FillCell(t: ColumnType, first: bool, p: int, prior: Cell): Cell {
    match t
    case TypeNull => prior
    case TypeInt => IntCell(0)
    case TypeFloat | TypeDouble => DecimalCell(None)
    case TypeString => if first then StringCell(p, -1) else StringCell(p + 1, -2)
  }

  lemma FloatFieldEmpty(s: seq<char>, cap: nat)
    requires |s| == 0
    ensures FloatField(s, cap) == Done(false, FloatStart)
  {
  }

  /** An empty range is stored as FILL's defaults. */
  lemma EmptyFieldCell(cfg: Config, sc: Scanner, t: ColumnType, first: bool)
    requires Scanning(cfg, sc) && sc.fieldEnd == sc.dataPtr - 1 && t != TypeNull
    requires sc.fieldStart == if first then sc.dataPtr else sc.dataPtr + 1
    ensures FieldCell(cfg, sc, t) == FillCell(t, first, sc.dataPtr, Unset)
  {
    var s := FieldChars(cfg, sc);
    IntFieldEmpty(s, 10);
    FloatFieldEmpty(s, cfg.cap);
  }

  lemma {:induction false} FillFrom(cfg: Config, sc: Scanner, c0: int)
    requires Scanning(cfg, sc) && 0 <= c0 <= sc.column && sc.fieldEnd == sc.dataPtr - 1
    requires sc.fieldStart == if sc.column == c0 then sc.dataPtr else sc.dataPtr + 1
    ensures forall k :: sc.column <= k < |cfg.columnTypes| ==>
      FillF(cfg, sc).record[k] == FillCell(cfg.columnTypes[k], k == c0, sc.dataPtr, sc.record[k])
    decreases |cfg.columnTypes| - sc.column
  {
    if sc.column < |cfg.columnTypes| {
      var t := cfg.columnTypes[sc.column];
      var next := EndFieldF(cfg, sc);
      if t != TypeNull {
        EmptyFieldCell(cfg, sc, t, sc.column == c0);
      }
      FillFrom(cfg, next, c0);
    }
  }

  /**
   * Under FILL a partial record is taken: the columns it reached keep their
   * fields, the rest get FillCell's defaults, and the column count stays.
   */
  lemma FillDefaults(cfg: Config, sc: Scanner)
    requires Scanning(cfg, sc) && sc.column < |cfg.columnTypes| && cfg.setup.policy == FillPartialRecords
    ensures EndRecordF(cfg, sc).Ok? && EndRecordF(cfg, sc).value.0
    ensures EndRecordF(cfg, sc).value.1.column == sc.column
    ensures forall k :: 0 <= k < sc.column ==> EndRecordF(cfg, sc).value.1.record[k] == sc.record[k]
    ensures forall k :: sc.column <= k < |cfg.columnTypes| ==>
      EndRecordF(cfg, sc).value.1.record[k] ==
        FillCell(cfg.columnTypes[k], k == sc.column, sc.dataPtr, sc.record[k])
  {
    FillFrom(cfg, sc.(fieldStart := sc.dataPtr, fieldEnd := sc.dataPtr - 1), sc.column);
  }

  // ---------------------------------------------------------------------------
  // A record rejected in STATE_ENDLINE

  /**
   * As written, a record rejected by DROP in STATE_ENDLINE leaves the state
   * there; before a character other than '\n' the pointer does not move, so
   * the next pass rejects the (now empty) record again and reaches the same
   * state: a fixed point of hasNext's loop.
   */
  lemma EndLineStuckAsWritten(cfg: Config, sc: Scanner)
    requires Scanning(cfg, sc) && sc.dataPtr < |cfg.data| && sc.state == EndLine
    requires cfg.setup.policy == DropPartialRecords && sc.column < |cfg.columnTypes|
    requires CharOf(cfg.data[sc.dataPtr]) != '\n'
    ensures var t := sc.(column := 0, recordStart := sc.dataPtr + 1, fieldStart := sc.dataPtr + 1, stringIdx := 0);
      Step(cfg, sc, true) == Stepped(false, t) && Step(cfg, t, true) == Stepped(false, t)
  {
  }

  /** The bytes "\r\n7\n" with one int column under DROP: a blank CRLF line, then a record. */
  function CrLfConfig(): Config {
    Config([13, 10, 55, 10], [TypeInt], Setup(DropPartialRecords, ',', true, MaxInt), 1)
  }

  /** A parser at the start of its data, with nothing stored yet. */
  function Fresh(cfg: Config): Scanner {
    Scanner(0, Initial, 0, 0, 0, 0, 0, 0, seq(|cfg.columnTypes|, _ => Unset))
  }

  lemma {:induction false} PendingForever(cfg: Config, t: Scanner, fuel: nat)
    requires Scanning(cfg, t) && t.dataPtr < |cfg.data| && Step(cfg, t, true) == Stepped(false, t)
    ensures RunFor(cfg, t, fuel, true) == Pending(t)
    decreases fuel
  {
    if fuel > 0 {
      PendingForever(cfg, t, fuel - 1);
    }
  }

  /**
   * As written, hasNext on "\r\n7\n" never returns: after the blank line
   * is rejected at the '\n', the loop is stuck before the '7'.
   */
  lemma CrLfHangsAsWritten(fuel: nat)
    ensures RunFor(CrLfConfig(), StartRecord(Fresh(CrLfConfig())), fuel, true).Pending?
  {
    var cfg := CrLfConfig();
    var s0 := StartRecord(Fresh(cfg));
    assert CharOf(cfg.data[0]) == '\r' && CharOf(cfg.data[1]) == '\n' && CharOf(cfg.data[2]) == '7';
    var s1 := s0.(state := EndLine, fieldEnd := 0, dataPtr := 1);
    assert Step(cfg, s0, true) == Stepped(false, s1);
    var s2 := s1.(recordStart := 2, fieldStart := 2, stringIdx := 0, dataPtr := 2);
    assert Step(cfg, s1, true) == Stepped(false, s2);
    EndLineStuckAsWritten(cfg, s2);
    var t := s2.(recordStart := 3, fieldStart := 3);
    if fuel >= 3 {
      PendingForever(cfg, t, fuel - 3);
      assert RunFor(cfg, s0, fuel, true) == RunFor(cfg, s1, fuel - 1, true);
      assert RunFor(cfg, s1, fuel - 1, true) == RunFor(cfg, s2, fuel - 2, true);
      assert RunFor(cfg, s2, fuel - 2, true) == RunFor(cfg, t, fuel - 3, true);
    }
  }

  /** The first three passes of the corrected loop on "\r\n7\n". */
  lemma CrLfPasses(cfg: Config, s0: Scanner) returns (s3: Scanner)
    requires cfg == CrLfConfig() && s0 == StartRecord(Fresh(cfg))
    ensures Scanning(cfg, s3) && s3.dataPtr == 3 && s3.state == NonQuoted && s3.column == 0
    ensures s3.fieldStart == 2 && s3.record == [Unset]
    ensures Run(cfg, s0) == Run(cfg, s3)
  {
    assert CharOf(cfg.data[0]) == '\r' && CharOf(cfg.data[1]) == '\n' && CharOf(cfg.data[2]) == '7';
    var s1 := s0.(state := EndLine, fieldEnd := 0, dataPtr := 1);
    assert Step(cfg, s0, false) == Stepped(false, s1);
    var s2 := s1.(recordStart := 2, fieldStart := 2, stringIdx := 0, dataPtr := 2, state := Initial);
    assert Step(cfg, s1, false) == Stepped(false, s2);
    s3 := s2.(fieldEnd := 2, state := NonQuoted, dataPtr := 3);
    assert Step(cfg, s2, false) == Stepped(false, s3);
    assert Run(cfg, s0) == Run(cfg, s1) == Run(cfg, s2) == Run(cfg, s3);
  }

  /** The field "7" stored in the int column. */
  lemma CrLfField(cfg: Config, s3: Scanner)
    requires cfg == CrLfConfig() && Scanning(cfg, s3) && s3.dataPtr == 3 && s3.column == 0
    requires s3.fieldStart == 2 && s3.record == [Unset]
    ensures EndFieldF(cfg, s3.(fieldEnd := 3)).record == [IntCell(7)]
  {
    var marked := s3.(fieldEnd := 3);
    CharsAt(cfg.data, 2, 3, 2);
    assert CharOf(cfg.data[2]) == '7';
    assert FieldChars(cfg, marked) == ['7'];
    IntFieldDecimal(['7']);
    DigitsValueSingle('7');
    assert IntOf(FieldChars(cfg, marked), MaxInt) == 7;
  }

  /**
   * Corrected, hasNext on "\r\n7\n" rejects the blank line and yields the
   * record holding 7.
   */
  lemma CrLfRecordCorrected()
    ensures HasNextF(CrLfConfig(), Fresh(CrLfConfig())).Ok?
    ensures HasNextF(CrLfConfig(), Fresh(CrLfConfig())).value.0
    ensures HasNextF(CrLfConfig(), Fresh(CrLfConfig())).value.1.record == [IntCell(7)]
  {
    var cfg := CrLfConfig();
    var s3 := CrLfPasses(cfg, StartRecord(Fresh(cfg)));
    CrLfField(cfg, s3);
    assert CharOf(cfg.data[3]) == '\n';
    var ended := EndFieldF(cfg, s3.(fieldEnd := 3));
    assert EndRecordF(cfg, ended).Ok? && EndRecordF(cfg, ended).value.0;
    assert Step(cfg, s3, false) == EndRecordStep(cfg, ended);
  }

  // ---------------------------------------------------------------------------
  // The parser object

  /**
   * CSVParserKV over a byte array: the fields hasNext and next update, the
   * record the fields are stored into, and parseFloat's digit buffer.
   */
  class Parser {
    const data: seq<Byte>
    const columnTypes: seq<ColumnType>
    const setup: Setup
    const fd: FloatingDecimal
    var next: bool
    var isFresh: bool
    var dataPtr: int
    var state: ParseState
    var column: int
    var fieldStart: int
    var fieldEnd: int
    var recordStart: int
    var maxColumn: int
    var stringIdx: int
    var record: seq<Cell>

    ghost function Cfg(): Config {
      Config(data, columnTypes, setup, fd.digits.Length)
    }

    /** The scanning fields as a value. */
    ghost function Snapshot(): Scanner
      reads this
    {
      Scanner(dataPtr, state, column, fieldStart, fieldEnd, recordStart, maxColumn, stringIdx, record)
    }

    ghost predicate Valid()
      reads this
    {
      Scanning(Cfg(), Snapshot()) && fd.digits.Length >= 1
    }

    /** The parser is in the state `out` describes, and `r` is its answer. */
    ghost predicate Matches(out: StepOutcome, r: Result<bool>)
      reads this
    {
      match out
      case Failed(m) => r == Err(m)
      case Stepped(finished, sc) => r == Ok(finished) && Snapshot() == sc
    }

    /** The byte[] constructor, with the column types initialize derives from the record. */
    constructor (data: seq<Byte>, columnTypes: seq<ColumnType>, setup: Setup, cap: nat)
      requires cap >= 1
      ensures Valid() && Cfg() == Config(data, columnTypes, setup, cap)
      ensures Snapshot() == Fresh(Cfg()) && !next && isFresh
    {
      this.data := data;
      this.columnTypes := columnTypes;
      this.setup := setup;
      fd := new FloatingDecimal(cap);
      next := false;
      isFresh := true;
      dataPtr, state, column := 0, Initial, 0;
      fieldStart, fieldEnd, recordStart := 0, 0, 0;
      maxColumn, stringIdx := 0, 0;
      record := seq(|columnTypes|, _ => Unset);
    }

    /** The value endField stores for the current field, through parseInt or parseFloat. */
    method FieldValue(t: ColumnType) returns (cell: Cell)
      requires Valid()
      modifies fd, fd.digits
      ensures cell == FieldCell(Cfg(), Snapshot(), t)
    {
      match t
      case TypeInt =>
        var v := ParseInt(data, fieldStart, fieldEnd, 10);
        cell := IntCell(if v.Some? then v.value else setup.defaultInt);
      case TypeFloat | TypeDouble =>
        var ok;
        ghost var endState, endZeros;
        ok, endState, endZeros := ParseFloat(fd, data, fieldStart, fieldEnd);
        cell := DecimalCell(if ok then Some(Decimal(fd.isNegative, fd.digits[..fd.nDigits], fd.decExponent)) else None);
      case TypeString =>
        cell := StringCell(fieldStart, fieldEnd - fieldStart);
      case TypeNull =>
        cell := Unset;
    }

    method EndField()
      requires Valid()
      modifies this, fd, fd.digits
      ensures Valid() && Snapshot() == EndFieldF(Cfg(), old(Snapshot()))
      ensures next == old(next) && isFresh == old(isFresh)
    {
      if column < |columnTypes| {
        var t := columnTypes[column];
        if t != TypeNull {
          var cell := FieldValue(t);
          record := record[column := cell];
          if t == TypeString {
            stringIdx := stringIdx + 1;
          }
        }
      } else if column > maxColumn {
        maxColumn := column;
      }
      column := column + 1;
      fieldStart := dataPtr + 1;
      state := Initial;
    }

    /** endRecord's loop under FILL: endField for each column the record did not reach. */
    method FillRemaining()
      requires Valid()
      modifies this, fd, fd.digits
      ensures Valid() && Snapshot() == FillF(Cfg(), old(Snapshot()))
      ensures next == old(next) && isFresh == old(isFresh)
    {
      var i := column;
      while i < |columnTypes|
        invariant Valid() && column == i
        invariant FillF(Cfg(), Snapshot()) == FillF(Cfg(), old(Snapshot()))
        invariant next == old(next) && isFresh == old(isFresh)
        decreases |columnTypes| - i
      {
        EndField();
        i := i + 1;
      }
    }

    /** endRecord under FILL: the defaults for the remaining columns, keeping the column count. */
    method FillRecord()
      requires Valid()
      modifies this, fd, fd.digits
      ensures Valid()
      ensures Snapshot() ==
        FillF(Cfg(), old(Snapshot()).(fieldStart := old(dataPtr), fieldEnd := old(dataPtr) - 1)).(column := old(column))
      ensures next == old(next) && isFresh == old(isFresh)
    {
      var col := column;
      fieldStart := dataPtr;
      fieldEnd := dataPtr - 1;
      FillRemaining();
      column := col;
    }

    method EndRecord() returns (r: Result<bool>)
      requires Valid()
      modifies this, fd, fd.digits
      ensures match EndRecordF(Cfg(), old(Snapshot()))
        case Err(m) => r == Err(m)
        case Ok((res, sc)) => r == Ok(res) && Valid() && Snapshot() == sc
      ensures next == old(next) && isFresh == old(isFresh)
    {
      var res := true;
      if column < |columnTypes| {
        if setup.policy == FillPartialRecords {
          FillRecord();
        } else if setup.policy == DropPartialRecords {
          res := false;
        } else if setup.policy == ErrorOnPartialRecords {
          return Err("partial record");
        } else {
          return Err("illegal _partialRecordPolicy value");
        }
      }
      recordStart := dataPtr + 1;
      fieldStart := dataPtr + 1;
      stringIdx := 0;
      if !res {
        column := 0;
      }
      r := Ok(res);
    }

    /** A '\n' ends the record; the pointer moves past it. */
    method EndRecordChar() returns (r: Result<bool>)
      requires Valid() && dataPtr < |data|
      modifies this, fd, fd.digits
      ensures Matches(EndRecordStep(Cfg(), old(Snapshot())), r)
      ensures next == old(next) && isFresh == old(isFresh)
    {
      r := EndRecord();
      if r.Ok? {
        dataPtr := dataPtr + 1;
      }
    }

    method InitialChar(c: char) returns (r: Result<bool>)
      requires Valid() && dataPtr < |data|
      modifies this, fd, fd.digits
      ensures Matches(InitialStep(Cfg(), old(Snapshot()), c), r)
      ensures next == old(next) && isFresh == old(isFresh)
    {
      if c == '\r' {
        state := EndLine;
        fieldEnd := dataPtr;
      } else if c == '\n' {
        r := EndRecordChar();
        return;
      } else if c == '"' {
        state := Quoted;
        fieldStart := dataPtr + 1;
      } else {
        fieldEnd := dataPtr;
        if IsSeparator(setup, c) {
          EndField();
        } else if !IsWhitespace(c) {
          state := NonQuoted;
        }
      }
      dataPtr := dataPtr + 1;
      r := Ok(false);
    }

    method AfterQuotedChar(c: char) returns (r: Result<bool>)
      requires Valid() && dataPtr < |data|
      modifies this, fd, fd.digits
      ensures Matches(AfterQuotedStep(Cfg(), old(Snapshot()), c), r)
      ensures next == old(next) && isFresh == old(isFresh)
    {
      if c == '\r' {
        state := EndLine;
        EndField();
      } else if c == '\n' {
        EndField();
        r := EndRecordChar();
        return;
      } else if IsSeparator(setup, c) {
        EndField();
      } else if !IsWhitespace(c) {
        state := NonQuoted;
      }
      dataPtr := dataPtr + 1;
      r := Ok(false);
    }

    method NonQuotedChar(c: char) returns (r: Result<bool>)
      requires Valid() && dataPtr < |data|
      modifies this, fd, fd.digits
      ensures Matches(NonQuotedStep(Cfg(), old(Snapshot()), c), r)
      ensures next == old(next) && isFresh == old(isFresh)
    {
      if c == '\r' {
        state := EndLine;
        fieldEnd := dataPtr;
        EndField();
      } else if c == '\n' {
        fieldEnd := dataPtr;
        EndField();
        r := EndRecordChar();
        return;
      } else if IsSeparator(setup, c) {
        fieldEnd := dataPtr;
        EndField();
      }
      dataPtr := dataPtr + 1;
      r := Ok(false);
    }

    /** STATE_ENDLINE, corrected: a rejected record restarts the scan in STATE_INITIAL. */
    method EndLineChar(c: char) returns (r: Result<bool>)
      requires Valid() && dataPtr < |data|
      modifies this, fd, fd.digits
      ensures Matches(EndLineStep(Cfg(), old(Snapshot()), c, false), r)
      ensures next == old(next) && isFresh == old(isFresh)
    {
      r := EndRecord();
      if r.Err? {
        return;
      }
      if c == '\n' {
        dataPtr := dataPtr + 1;
      }
      if !r.value {
        state, column, fieldStart, recordStart := Initial, 0, dataPtr, dataPtr;
      }
    }

    /** One pass of hasNext's loop. */
    method StepChar() returns (r: Result<bool>)
      requires Valid() && dataPtr < |data|
      modifies this, fd, fd.digits
      ensures Matches(Step(Cfg(), old(Snapshot()), false), r)
      ensures next == old(next) && isFresh == old(isFresh)
    {
      var c := CharOf(data[dataPtr]);
      match state
      case Initial =>
        r := InitialChar(c);
      case Quoted =>
        if c == '"' {
          state := EndQuote;
          fieldEnd := dataPtr;
        }
        dataPtr := dataPtr + 1;
        r := Ok(false);
      case EndQuote =>
        if c == '"' {
          state := Quoted;
          dataPtr := dataPtr + 1;
          r := Ok(false);
        } else {
          state := AfterQuoted;
          r := AfterQuotedChar(c);
        }
      case AfterQuoted =>
        r := AfterQuotedChar(c);
      case NonQuoted =>
        r := NonQuotedChar(c);
      case EndLine =>
        r := EndLineChar(c);
    }

    /**
     * hasNext: true at once while a record is pending; otherwise scans the
     * next record from the pointer (corrected STATE_ENDLINE).  Err stands for
     * the Error it throws.
     */
    method HasNext() returns (r: Result<bool>)
      requires Valid()
      modifies this, fd, fd.digits
      ensures isFresh == old(isFresh)
      ensures old(next) ==> r == Ok(true) && next && Snapshot() == old(Snapshot())
      ensures !old(next) ==>
        match HasNextF(Cfg(), old(Snapshot()))
        case Err(m) => r == Err(m) && !next
        case Ok((found, sc)) => r == Ok(found) && next == found && Valid() && Snapshot() == sc
    {
      if next {
        return Ok(true);
      }
      if dataPtr >= |data| {
        return Ok(false);
      }
      state, column, fieldStart, recordStart := Initial, 0, dataPtr, dataPtr;
      ghost var target := Run(Cfg(), Snapshot());
      while true
        invariant Valid() && !next && isFresh == old(isFresh)
        invariant Run(Cfg(), Snapshot()) == target
        decreases |data| - dataPtr, if state == EndLine then 1 else 0
      {
        if dataPtr == |data| {
          return Ok(false);
        }
        ghost var before := Snapshot();
        StepProgress(Cfg(), before, false);
        r := StepChar();
        RunStep(Cfg(), before);
        if r.Err? {
          return;
        }
        if r.value {
          next := true;
          return;
        }
      }
    }

    /** next: the record hasNext found, or NoSuchElementException. */
    method Next() returns (r: Result<seq<Cell>>)
      requires Valid()
      modifies this, fd, fd.digits
      ensures old(next) ==> r == Ok(old(record)) && Snapshot() == old(Snapshot())
      ensures !old(next) ==>
        match HasNextF(Cfg(), old(Snapshot()))
        case Err(m) => r == Err(m)
        case Ok((found, sc)) => r == (if found then Ok(sc.record) else Err("NoSuchElementException"))
      ensures r.Ok? ==> Valid() && !next && !isFresh
    {
      var found := HasNext();
      if found.Err? {
        return Err(found.message);
      }
      if !found.value {
        return Err("NoSuchElementException");
      }
      isFresh := false;
      next := false;
      r := Ok(record);
    }
  }
}
