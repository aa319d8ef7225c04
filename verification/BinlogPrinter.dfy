/** One call of `process_event`, and runs of calls, as functions of the program's
    global state. The class in BinlogProgram updates the same state in place. */
module BinlogPrinter {
  import opened Optional
  import opened BinlogEvents

  datatype Base64Mode = Never | Auto | DecodeRows

  /** The options that stay fixed during a run. */
  datatype Options = Options(
    database: Option<string>,
    includeGtids: Option<set<Gtid>>,
    excludeGtids: Option<set<Gtid>>,
    skipGtids: bool,
    filterServerId: nat,
    stopDatetime: nat,
    shortForm: bool,
    base64Mode: Base64Mode,
    forceIfOpen: bool)

  datatype Status = OkContinue | ErrorStop | OkStop

  /** What decides where printing starts and stops; `count` is `rec_count`. */
  datatype Gate = Gate(offset: nat, startDatetime: nat, stopPosition: nat, count: nat)

  datatype Flags = Flags(inTransaction: bool, seenGtid: bool, gtidFiltering: bool, skippedEvent: bool)

  /** `waiting` holds the buffered Intvar, Rand and User_var events, `released`
      those deleted so far. */
  datatype Buffer = Buffer(waiting: seq<Event>, released: seq<Event>)

  /** `ignored` holds the ids of the table maps skipped in the current statement,
      `loadFiles` the LOAD DATA files whose name is still held. */
  datatype Seen = Seen(firstFd: bool, printedFd: bool, ignored: set<nat>, loadFiles: set<nat>)

  datatype State = State(gate: Gate, flags: Flags, buffer: Buffer, seen: Seen, out: seq<Token>)

  /** `shall_skip_database`: a null name is never skipped. */
  predicate SkipsDatabase(opt: Options, db: Option<string>) {
    opt.database.Some? && db.Some? && db.value != opt.database.value
  }

  predicate GtidExcluded(opt: Options, g: Gtid) {
    || (opt.includeGtids.Some? && g !in opt.includeGtids.value)
    || (opt.excludeGtids.Some? && g in opt.excludeGtids.value)
  }

  /** The first result of `shall_skip_gtids`: the event is filtered out. */
  predicate GtidFiltered(opt: Options, filtering: bool, b: Body) {
    match b
    case GtidEvent(g) => GtidExcluded(opt, g) || opt.skipGtids
    case PreviousGtids => opt.skipGtids
    case FormatDescription(_, _, _, _) => false
    case Rotate => false
    case Control => false
    case _ => filtering
  }

  /** Its effect: the new value of `filter_based_on_gtids`. */
  predicate FilteringAfter(opt: Options, filtering: bool, b: Body) {
    match b
    case GtidEvent(g) => GtidExcluded(opt, g)
    case Xid => false
    case Query(_, text) => filtering && !EndsGroup(text)
    case _ => filtering
  }

  /** The offset and start-time gate; format events always pass. */
  predicate PassesGate(g: Gate, e: Event) {
    e.body.FormatDescription? || (g.count >= g.offset && e.when >= g.startDatetime)
  }

  predicate ServerSkipped(opt: Options, e: Event) {
    && !e.body.FormatDescription?
    && !e.body.Rotate?
    && opt.filterServerId != 0
    && opt.filterServerId != e.serverId
  }

  predicate PastStop(opt: Options, g: Gate, e: Event, skipPosCheck: bool) {
    (!skipPosCheck && e.pos >= g.stopPosition) || e.when >= opt.stopDatetime
  }

  /** How far an event gets in `process_event`. */
  datatype Reach = Gated | OtherServer | AtStop | Filtered | Switch

  function Reached(opt: Options, g: Gate, filtering: bool, e: Event, skipPosCheck: bool): Reach {
    if !PassesGate(g, e) then Gated
    else if ServerSkipped(opt, e) then OtherServer
    else if PastStop(opt, g, e, skipPosCheck) then AtStop
    else if GtidFiltered(opt, filtering, e.body) then Filtered
    else Switch
  }

  /** Once an event other than a format event has passed, everything passes. */
  function GateAfter(g: Gate, e: Event): Gate {
    if PassesGate(g, e) && !e.body.FormatDescription? then Gate(0, 0, g.stopPosition, g.count) else g
  }

  function Bump(g: Gate): Gate {
    g.(count := g.count + 1)
  }

  /** The state when the switch is entered, or left out. */
  function Entered(opt: Options, st: State, e: Event, r: Reach): State {
    State(
      GateAfter(st.gate, e),
      if r.Filtered? || r.Switch?
      then st.flags.(gtidFiltering := FilteringAfter(opt, st.flags.gtidFiltering, e.body)) else st.flags,
      st.buffer, st.seen, st.out)
  }

  function Put(st: State, e: Event): State {
    st.(out := st.out + [Printed(e)])
  }

  function EndBinlog(opt: Options, st: State): State {
    var closing :=
      if st.flags.inTransaction then [AddedRollback]
      else if st.flags.seenGtid && !opt.skipGtids then [AddedBegin, AddedRollback]
      else [];
    var automatic := if opt.skipGtids then [] else [GtidAutomatic];
    st.(out := st.out + closing + automatic, flags := st.flags.(seenGtid := false, inTransaction := false))
  }

  function AsTokens(es: seq<Event>): seq<Token> {
    seq(|es|, i requires 0 <= i < |es| => Printed(es[i]))
  }

  lemma TokensSnoc(out: seq<Token>, es: seq<Event>)
    ensures es == [] ==> out + AsTokens(es) == out
    ensures es != [] ==>
              out + AsTokens(es) == out + AsTokens(es[..|es| - 1]) + [Printed(es[|es| - 1])]
  {
  }

  predicate QuerySkips(opt: Options, db: Option<string>, text: string) {
    !IsTransKeyword(text) && SkipsDatabase(opt, db)
  }

  /** A query prints or drops the events buffered for it, and releases them. */
  function FlushWaiting(st: State, skips: bool): State {
    State(st.gate, st.flags, Buffer([], st.buffer.released + st.buffer.waiting), st.seen,
          if skips then st.out else st.out + AsTokens(st.buffer.waiting))
  }

  /** The flags after a query that is printed. */
  function QueryFlags(f: Flags, text: string): Flags {
    if EndsGroup(text) then f.(inTransaction := false, skippedEvent := false, seenGtid := false)
    else if StartsGroup(text) then f.(inTransaction := true)
    else if !f.inTransaction then f.(seenGtid := false)
    else f
  }

  function ProcessQuery(opt: Options, st: State, e: Event): State
    requires e.body.Query?
  {
    var text := e.body.text;
    var skips := QuerySkips(opt, e.body.db, text);
    var st1 := FlushWaiting(st, skips);
    if !skips then Put(st1.(flags := QueryFlags(st.flags, text)), e)
    else if st.flags.seenGtid && !st.flags.inTransaction && !StartsGroup(text) && !EndsGroup(text) then
      st1.(out := st1.out + [AddedCommit],
           flags := st.flags.(skippedEvent := false, inTransaction := false, seenGtid := false))
    else st1.(flags := st.flags.(skippedEvent := true))
  }

  function ProcessFormatDescription(opt: Options, st: State, e: Event): State
    requires e.body.FormatDescription?
  {
    var b := e.body;
    var st1 := if !b.relay && b.logPos > 0 && !st.seen.firstFd then EndBinlog(opt, st) else st;
    var seen := Seen(st.seen.firstFd && b.relay,
                     st.seen.printedFd || (!b.relay && opt.base64Mode != Never && !opt.shortForm),
                     st.seen.ignored, st.seen.loadFiles);
    Put(st1.(seen := seen), e)
  }

  /** Rows of an ignored table are skipped; the last rows event of a statement
      forgets the ignored tables. */
  function ProcessRows(opt: Options, st: State, e: Event): State
    requires e.body.Rows?
  {
    var st1 := st.(seen := st.seen.(ignored := if e.body.stmtEnd then {} else st.seen.ignored));
    if e.body.rowsId in st.seen.ignored then st1.(flags := st.flags.(skippedEvent := true))
    else if RowsNeedFd(opt, st.seen) then st1
    else Put(st1, e)
  }

  /** Rows are printed as base64, which is safe only after a format event. */
  predicate RowsNeedFd(opt: Options, seen: Seen) {
    !seen.printedFd && !opt.shortForm && opt.base64Mode != DecodeRows
  }

  function ProcessExecuteLoad(opt: Options, st: State, e: Event): State
    requires e.body.ExecuteLoad?
  {
    var f := e.body.executeFile;
    var st1 := st.(seen := st.seen.(loadFiles := st.seen.loadFiles - {f}));
    if SkipsDatabase(opt, e.body.loadDb) then st1.(flags := st.flags.(skippedEvent := true))
    else if f in st.seen.loadFiles then Put(st1, e)
    else st1
  }

  function ProcessTableMap(opt: Options, st: State, e: Event): State
    requires e.body.TableMap?
  {
    if SkipsDatabase(opt, Some(e.body.mapDb)) then
      st.(flags := st.flags.(skippedEvent := true),
          seen := st.seen.(ignored := st.seen.ignored + {e.body.mapId}))
    else Put(st, e)
  }

  function ProcessGtid(st: State, e: Event): State {
    Put(st.(flags := st.flags.(seenGtid := true, skippedEvent := false),
            out := if st.flags.skippedEvent then st.out + [AddedCommit] else st.out), e)
  }

  function ProcessXid(st: State, e: Event): State {
    Put(st.(flags := st.flags.(inTransaction := false, skippedEvent := false, seenGtid := false)), e)
  }

  /** The switch of `process_event` for every event but a transaction payload. */
  function Dispatch(opt: Options, st: State, e: Event): State
    requires !e.body.Payload?
  {
    match e.body
    case Query(_, _) => ProcessQuery(opt, st, e)
    case Intvar(_) => st.(buffer := st.buffer.(waiting := st.buffer.waiting + [e]))
    case Rand(_) => st.(buffer := st.buffer.(waiting := st.buffer.waiting + [e]))
    case UserVar(_) => st.(buffer := st.buffer.(waiting := st.buffer.waiting + [e]))
    case FormatDescription(_, _, _, _) => ProcessFormatDescription(opt, st, e)
    case BeginLoad(f) => Put(st.(seen := st.seen.(loadFiles := st.seen.loadFiles + {f})), e)
    case ExecuteLoad(_, _) => ProcessExecuteLoad(opt, st, e)
    case TableMap(_, _) => ProcessTableMap(opt, st, e)
    case Rows(_, _) => ProcessRows(opt, st, e)
    case GtidEvent(_) => ProcessGtid(st, e)
    case Xid => ProcessXid(st, e)
    case _ => Put(st, e)
  }

  /** What the switch returns. */
  function DispatchStatus(opt: Options, seen: Seen, b: Body): Status {
    match b
    case FormatDescription(_, _, inUse, _) => if !opt.forceIfOpen && inUse then ErrorStop else OkContinue
    case Rows(id, _) => if id !in seen.ignored && RowsNeedFd(opt, seen) then ErrorStop else OkContinue
    case _ => OkContinue
  }

  /** One call of `process_event`. */
  function Process(opt: Options, st: State, e: Event, skipPosCheck: bool): State
    decreases e, 0
  {
    var r := Reached(opt, st.gate, st.flags.gtidFiltering, e, skipPosCheck);
    var st1 := Entered(opt, st, e, r);
    var st2 :=
      if !r.Switch? then st1
      else if e.body.Payload? then ProcessInner(opt, st1, e.body.inner)
      else Dispatch(opt, st1, e);
    st2.(gate := Bump(st2.gate))
  }

  /** What that call returns. */
  function ProcessStatus(opt: Options, st: State, e: Event, skipPosCheck: bool): Status {
    match Reached(opt, st.gate, st.flags.gtidFiltering, e, skipPosCheck)
    case AtStop => OkStop
    case Switch => DispatchStatus(opt, st.seen, e.body)
    case _ => OkContinue
  }

  /** The events of a payload: each is processed without the position check and
      whatever the previous one returned. */
  function ProcessInner(opt: Options, st: State, es: seq<Event>): State
    decreases es
  {
    if es == [] then st
    else ProcessInner(opt, Process(opt, st, es[0], true), es[1..])
  }

  datatype RunResult = RunResult(state: State, status: Status, taken: nat)

  /** Processing one log: stops after the first event that does not return
      OK_CONTINUE; `taken` counts the events processed. */
  function Run(opt: Options, st: State, es: seq<Event>): RunResult
    decreases es
  {
    if es == [] then RunResult(st, OkContinue, 0)
    else
      var st1 := Process(opt, st, es[0], false);
      var status := ProcessStatus(opt, st, es[0], false);
      if status != OkContinue then RunResult(st1, status, 1)
      else
        var rest := Run(opt, st1, es[1..]);
        rest.(taken := rest.taken + 1)
  }

  /** The largest file offset, used where no stop position applies. */
  const MAX_OFFSET: nat := 0xFFFF_FFFF_FFFF_FFFF

  function SetStop(st: State, limit: nat): State {
    st.(gate := st.gate.(stopPosition := limit))
  }

  datatype Dumped = Dumped(state: State, status: Status)

  /** The loop of `dump_multiple_logs`: the stop position holds for the last log. */
  function RunLogs(opt: Options, st: State, logs: seq<seq<Event>>, stopPosition: nat): Dumped
    decreases |logs|
  {
    if logs == [] then Dumped(st, OkContinue)
    else
      var r := Run(opt, if |logs| == 1 then SetStop(st, stopPosition) else st, logs[0]);
      if r.status != OkContinue then Dumped(r.state, r.status)
      else RunLogs(opt, r.state, logs[1..], stopPosition)
  }

  /** What follows the loop. */
  function Finish(opt: Options, st: State): State {
    EndBinlog(opt, if st.flags.skippedEvent then st.(out := st.out + [AddedCommit]) else st)
  }

  /** `dump_multiple_logs`. */
  function Dump(opt: Options, st: State, logs: seq<seq<Event>>): Dumped {
    var r := RunLogs(opt, SetStop(st, MAX_OFFSET), logs, st.gate.stopPosition);
    Dumped(Finish(opt, r.state), r.status)
  }

  /** `cleanup` deletes what is still buffered. */
  function Cleanup(st: State): State {
    st.(buffer := Buffer([], st.buffer.released + st.buffer.waiting))
  }

  /** The state in which the program starts. */
  function Fresh(offset: nat, startDatetime: nat, stopPosition: nat): State {
    State(Gate(offset, startDatetime, stopPosition, 0), Flags(false, false, false, false),
          Buffer([], []), Seen(true, false, {}, {}), [])
  }
}
