/** The whole output of a dump, read off the events that got to the switch: what the
    flags of the program stand for, and what each event adds to the output. */
module BinlogHistory {
  import opened Optional
  import opened BinlogEvents
  import opened BinlogPrinter
  import opened BinlogRuns
  import opened BinlogDeferred
  import BinlogSession
  import BinlogClosing

  // ---------------------------------------------------------------------------
  // Readings of a history, each by its last event that matters

  /** The GTID sets of the command line let the GTID through. */
  predicate Chosen(opt: Options, g: Gtid) {
    && (opt.includeGtids.None? || g in opt.includeGtids.value)
    && (opt.excludeGtids.None? || g !in opt.excludeGtids.value)
  }

  /** The end of a transaction. */
  predicate EndsTxn(b: Body) {
    b.Xid? || (b.Query? && EndsGroup(b.text))
  }

  predicate RealFormat(b: Body) {
    b.FormatDescription? && !b.relay
  }

  predicate HasRealFormat(h: seq<Event>) {
    exists e <- h :: RealFormat(e.body)
  }

  /** A format event that begins another log. */
  predicate BeginsLog(h: seq<Event>, b: Body) {
    RealFormat(b) && b.logPos > 0 && HasRealFormat(h)
  }

  /** A group was begun and not ended. */
  predicate GroupOpen(h: seq<Event>) {
    if h == [] then false
    else
      var init, b := h[..|h| - 1], h[|h| - 1].body;
      if EndsTxn(b) || BeginsLog(init, b) then false
      else (b.Query? && StartsGroup(b.text)) || GroupOpen(init)
  }

  /** A GTID has come, and its transaction has not ended. */
  predicate GtidOpen(h: seq<Event>) {
    if h == [] then false
    else
      var init, b := h[..|h| - 1], h[|h| - 1].body;
      if EndsTxn(b) || BeginsLog(init, b) then false
      else if b.Query? && !StartsGroup(b.text) && !GroupOpen(init) then false
      else b.GtidEvent? || GtidOpen(init)
  }

  /** A table map with this id was skipped in the current row statement. */
  predicate Ignored(opt: Options, h: seq<Event>, id: nat) {
    if h == [] then false
    else
      var b := h[|h| - 1].body;
      if b.Rows? && b.stmtEnd then false
      else
        || (b.TableMap? && b.mapId == id && SkipsDatabase(opt, Some(b.mapDb)))
        || Ignored(opt, h[..|h| - 1], id)
  }

  /** A LOAD DATA file was begun and not executed. */
  predicate Loading(h: seq<Event>, file: nat) {
    if h == [] then false
    else
      var b := h[|h| - 1].body;
      if b.ExecuteLoad? && b.executeFile == file then false
      else (b.BeginLoad? && b.beginFile == file) || Loading(h[..|h| - 1], file)
  }

  /** A skipped statement for which a COMMIT is printed: it is a transaction alone. */
  predicate Replaced(opt: Options, h: seq<Event>, b: Body) {
    b.Query? && QuerySkips(opt, b.db, b.text) && GtidOpen(h) && !GroupOpen(h)
  }

  /** An event that `--database` removes without a trace. */
  predicate Removed(opt: Options, h: seq<Event>, b: Body) {
    match b
    case Query(db, text) => QuerySkips(opt, db, text) && !Replaced(opt, h, b)
    case ExecuteLoad(_, db) => SkipsDatabase(opt, db)
    case TableMap(_, db) => SkipsDatabase(opt, Some(db))
    case Rows(id, _) => Ignored(opt, h, id)
    case _ => false
  }

  /** After these the program no longer owes a COMMIT for what was removed. */
  predicate Settles(opt: Options, h: seq<Event>, b: Body) {
    b.GtidEvent? || EndsTxn(b) || Replaced(opt, h, b)
  }

  /** An event was removed, and nothing has settled it since. */
  ghost predicate CommitDue(opt: Options, h: seq<Event>) {
    exists i :: 0 <= i < |h| && Unsettled(opt, h, i)
  }

  ghost predicate Unsettled(opt: Options, h: seq<Event>, i: nat)
    requires i < |h|
  {
    Removed(opt, h[..i], h[i].body) && forall j :: i < j < |h| ==> !Settles(opt, h[..j], h[j].body)
  }

  predicate FormatPrinted(opt: Options, h: seq<Event>) {
    HasRealFormat(h) && opt.base64Mode != Never && !opt.shortForm
  }

  /** What the end of a log adds. */
  function Closing(opt: Options, h: seq<Event>): seq<Token> {
    (if GroupOpen(h) then [AddedRollback]
     else if GtidOpen(h) && !opt.skipGtids then [AddedBegin, AddedRollback]
     else [])
    + if opt.skipGtids then [] else [GtidAutomatic]
  }

  /** What an event adds to the output. */
  ghost function Adds(opt: Options, h: seq<Event>, e: Event): seq<Token> {
    match e.body
    case Query(db, text) =>
      if Replaced(opt, h, e.body) then [AddedCommit]
      else if QuerySkips(opt, db, text) then []
      else AsTokens(Pending([], h)) + [Printed(e)]
    case Intvar(_) => []
    case Rand(_) => []
    case UserVar(_) => []
    case FormatDescription(_, _, _, _) => (if BeginsLog(h, e.body) then Closing(opt, h) else []) + [Printed(e)]
    case ExecuteLoad(file, db) => if !SkipsDatabase(opt, db) && Loading(h, file) then [Printed(e)] else []
    case TableMap(_, db) => if SkipsDatabase(opt, Some(db)) then [] else [Printed(e)]
    case Rows(id, _) =>
      if Ignored(opt, h, id) || !(FormatPrinted(opt, h) || opt.shortForm || opt.base64Mode == DecodeRows)
      then [] else [Printed(e)]
    case GtidEvent(_) => (if CommitDue(opt, h) then [AddedCommit] else []) + [Printed(e)]
    case _ => [Printed(e)]
  }

  ghost function Output(opt: Options, h: seq<Event>): seq<Token> {
    if h == [] then [] else Output(opt, h[..|h| - 1]) + Adds(opt, h[..|h| - 1], h[|h| - 1])
  }

  // ---------------------------------------------------------------------------
  // What `--database` keeps

  /** A statement that is kept whatever its database. */
  predicate Control(text: string) {
    var capitals := BinlogSession.Capitals(text);
    || text <= "BEGIN" || text <= "COMMIT" || "SAVEPOINT" <= capitals || "ROLLBACK" <= capitals
    || "XA START" <= capitals || "XA END" <= capitals || "XA PREPARE" <= capitals || "XA COMMIT" <= capitals
    || "XA ROLLBACK" <= capitals
  }

  lemma ControlIsKeyword(text: string)
    ensures IsTransKeyword(text) <==> Control(text)
  {
    hide StartsWithNoCase, BinlogSession.Capitals;
    BinlogSession.NoCaseIsCapitals(text, "SAVEPOINT");
    BinlogSession.NoCaseIsCapitals(text, "ROLLBACK");
    BinlogSession.NoCaseIsCapitals(text, "XA START");
    BinlogSession.NoCaseIsCapitals(text, "XA END");
    BinlogSession.NoCaseIsCapitals(text, "XA PREPARE");
    BinlogSession.NoCaseIsCapitals(text, "XA COMMIT");
    BinlogSession.NoCaseIsCapitals(text, "XA ROLLBACK");
    WordsAreCapitals();
    XaAreCapitals();
  }

  lemma WordsAreCapitals()
    ensures BinlogSession.Capitals("SAVEPOINT") == "SAVEPOINT" && BinlogSession.Capitals("ROLLBACK") == "ROLLBACK"
    ensures BinlogSession.Capitals("XA START") == "XA START" && BinlogSession.Capitals("XA END") == "XA END"
  {
  }

  lemma XaAreCapitals()
    ensures BinlogSession.Capitals("XA PREPARE") == "XA PREPARE" && BinlogSession.Capitals("XA COMMIT") == "XA COMMIT"
    ensures BinlogSession.Capitals("XA ROLLBACK") == "XA ROLLBACK"
  {
  }

  /** A query is printed if and only if it is of the selected database or of none, or is
      kept whatever its database, or no database was selected; a table map if and only
      if it is of that database. */
  lemma DatabaseKeeps(opt: Options, h: seq<Event>, e: Event)
    ensures e.body.Query? ==>
              (Printed(e) in Adds(opt, h, e) <==>
               opt.database.None? || e.body.db.None? || e.body.db == opt.database || Control(e.body.text))
    ensures e.body.TableMap? ==>
              (Printed(e) in Adds(opt, h, e) <==> opt.database.None? || Some(e.body.mapDb) == opt.database)
    ensures e.body.ExecuteLoad? && Loading(h, e.body.executeFile) ==>
              (Printed(e) in Adds(opt, h, e) <==>
               opt.database.None? || e.body.loadDb.None? || e.body.loadDb == opt.database)
  {
    hide IsTransKeyword, Control, GroupOpen, GtidOpen, CommitDue, Pending, AsTokens, Loading;
    if e.body.Query? {
      ControlIsKeyword(e.body.text);
    }
  }

  // ---------------------------------------------------------------------------
  // The readings, one event on

  lemma Snoc(h: seq<Event>, e: Event)
    ensures (h + [e])[..|h|] == h && (h + [e])[|h|] == e && |h + [e]| == |h| + 1 && h + [e] != []
  {
  }

  lemma FormatSnoc(h: seq<Event>, e: Event)
    ensures HasRealFormat(h + [e]) <==> HasRealFormat(h) || RealFormat(e.body)
  {
    assert forall x :: x in h + [e] <==> x in h || x == e;
  }

  lemma OpenSnoc(h: seq<Event>, e: Event)
    ensures var b := e.body;
            && GroupOpen(h + [e]) ==
                 (!EndsTxn(b) && !BeginsLog(h, b) && ((b.Query? && StartsGroup(b.text)) || GroupOpen(h)))
            && GtidOpen(h + [e]) ==
                 (!EndsTxn(b) && !BeginsLog(h, b) && !(b.Query? && !StartsGroup(b.text) && !GroupOpen(h))
                  && (b.GtidEvent? || GtidOpen(h)))
  {
    hide EndsTxn, BeginsLog, StartsGroup;
    Snoc(h, e);
  }

  lemma IgnoredSnoc(opt: Options, h: seq<Event>, e: Event, id: nat)
    ensures var b := e.body;
            Ignored(opt, h + [e], id) ==
            (!(b.Rows? && b.stmtEnd)
             && ((b.TableMap? && b.mapId == id && SkipsDatabase(opt, Some(b.mapDb))) || Ignored(opt, h, id)))
  {
    hide SkipsDatabase;
    Snoc(h, e);
  }

  lemma LoadingSnoc(h: seq<Event>, e: Event, file: nat)
    ensures var b := e.body;
            Loading(h + [e], file) ==
            (!(b.ExecuteLoad? && b.executeFile == file) && ((b.BeginLoad? && b.beginFile == file) || Loading(h, file)))
  {
    Snoc(h, e);
  }

  lemma DueSnoc(opt: Options, h: seq<Event>, e: Event)
    ensures CommitDue(opt, h + [e]) <==>
            Removed(opt, h, e.body) || (CommitDue(opt, h) && !Settles(opt, h, e.body))
  {
    hide Removed, Settles;
    var g, n := h + [e], |h|;
    Snoc(h, e);
    assert forall j :: 0 <= j < n ==> g[..j] == h[..j] && g[j] == h[j];
    if Removed(opt, h, e.body) {
      assert Unsettled(opt, g, n);
    }
    if CommitDue(opt, h) && !Settles(opt, h, e.body) {
      var i :| 0 <= i < |h| && Unsettled(opt, h, i);
      assert Unsettled(opt, g, i);
    }
    if CommitDue(opt, g) {
      var i :| 0 <= i < |g| && Unsettled(opt, g, i);
      if i < n {
        assert !Settles(opt, g[..n], g[n].body);
        assert Unsettled(opt, h, i);
      }
    }
  }

  lemma OutputSnoc(opt: Options, h: seq<Event>, e: Event)
    ensures Output(opt, h + [e]) == Output(opt, h) + Adds(opt, h, e)
  {
    hide Adds;
    Snoc(h, e);
  }

  lemma PendingSnoc(h: seq<Event>, e: Event)
    ensures Pending([], h + [e]) ==
            if e.body.Query? then [] else if IsDeferred(e.body) then Pending([], h) + [e] else Pending([], h)
  {
    hide IsDeferred;
    Snoc(h, e);
    assert Pending([], h) + [] == Pending([], h);
  }

  // ---------------------------------------------------------------------------
  // The state is the reading of its history

  ghost predicate FlagsRead(opt: Options, f: Flags, h: seq<Event>) {
    f.inTransaction == GroupOpen(h) && f.seenGtid == GtidOpen(h) && f.skippedEvent == CommitDue(opt, h)
  }

  ghost predicate SeenReads(opt: Options, s: Seen, h: seq<Event>) {
    && s.firstFd == !HasRealFormat(h)
    && s.printedFd == FormatPrinted(opt, h)
    && (forall id: nat :: id in s.ignored <==> Ignored(opt, h, id))
    && (forall file: nat :: file in s.loadFiles <==> Loading(h, file))
  }

  ghost predicate Reads(opt: Options, st: State, h: seq<Event>) {
    && FlagsRead(opt, st.flags, h)
    && SeenReads(opt, st.seen, h)
    && st.buffer.waiting == Pending([], h)
    && st.out == Output(opt, h)
  }

  lemma FlagsStep(opt: Options, st: State, e: Event, h: seq<Event>)
    requires Reads(opt, st, h) && !e.body.Payload?
    ensures FlagsRead(opt, Dispatch(opt, st, e).flags, h + [e])
  {
    hide GroupOpen, GtidOpen, CommitDue, Ignored, Loading, Pending, Output, EndsGroup, StartsGroup, QuerySkips,
      SkipsDatabase, HasRealFormat, IsTransKeyword, AsTokens;
    OpenSnoc(h, e);
    DueSnoc(opt, h, e);
    if e.body.Query? {
      MarkersPrinted(opt, e.body.db, e.body.text);
    }
  }

  lemma MarkersPrinted(opt: Options, db: Option<string>, text: string)
    ensures StartsGroup(text) || EndsGroup(text) ==> !QuerySkips(opt, db, text)
  {
    hide StartsGroup, EndsGroup, IsTransKeyword;
    if StartsGroup(text) || EndsGroup(text) {
      GroupMarkersAreKeywords(text);
    }
  }

  lemma SeenStep(opt: Options, st: State, e: Event, h: seq<Event>)
    requires Reads(opt, st, h) && !e.body.Payload?
    ensures SeenReads(opt, Dispatch(opt, st, e).seen, h + [e])
  {
    hide GroupOpen, GtidOpen, CommitDue, Ignored, Loading, Pending, Output, EndsGroup, StartsGroup, QuerySkips,
      SkipsDatabase, HasRealFormat, AsTokens;
    FormatSnoc(h, e);
    forall id: nat {
      IgnoredSnoc(opt, h, e, id);
    }
    forall file: nat {
      LoadingSnoc(h, e, file);
    }
  }

  lemma OutStep(opt: Options, st: State, e: Event, h: seq<Event>)
    requires Reads(opt, st, h) && !e.body.Payload?
    ensures Dispatch(opt, st, e).out == Output(opt, h + [e])
    ensures Dispatch(opt, st, e).buffer.waiting == Pending([], h + [e])
  {
    hide GroupOpen, GtidOpen, CommitDue, Ignored, Loading, Pending, Output, EndsGroup, StartsGroup, QuerySkips,
      SkipsDatabase, HasRealFormat, AsTokens;
    OutputSnoc(opt, h, e);
    PendingSnoc(h, e);
    var out := st.out;
    assert out + [] == out;
    if e.body.Query? {
      MarkersPrinted(opt, e.body.db, e.body.text);
      var w := AsTokens(st.buffer.waiting);
      assert out + w + [Printed(e)] == out + (w + [Printed(e)]);
    }
    assert out + [AddedCommit] + [Printed(e)] == out + ([AddedCommit] + [Printed(e)]);
    assert out + ([] + [Printed(e)]) == out + [Printed(e)];
    if e.body.FormatDescription? {
      ClosingIsEnd(opt, st, h);
      assert out + Closing(opt, h) + [Printed(e)] == out + (Closing(opt, h) + [Printed(e)]);
    }
  }

  lemma ClosingIsEnd(opt: Options, st: State, h: seq<Event>)
    requires st.flags.inTransaction == GroupOpen(h) && st.flags.seenGtid == GtidOpen(h)
    ensures EndBinlog(opt, st).out == st.out + Closing(opt, h)
  {
    hide GroupOpen, GtidOpen;
  }

  lemma DispatchReads(opt: Options, st: State, e: Event, h: seq<Event>)
    requires Reads(opt, st, h) && !e.body.Payload?
    ensures Reads(opt, Dispatch(opt, st, e), h + [e])
  {
    hide FlagsRead, SeenReads, Pending, Output, Dispatch;
    FlagsStep(opt, st, e, h);
    SeenStep(opt, st, e, h);
    OutStep(opt, st, e, h);
  }

  lemma ReadsAgain(opt: Options, a: State, b: State, h: seq<Event>)
    requires Reads(opt, a, h) && b.buffer == a.buffer && b.seen == a.seen && b.out == a.out
    requires b.flags == a.flags.(gtidFiltering := b.flags.gtidFiltering)
    ensures Reads(opt, b, h)
  {
    hide GroupOpen, GtidOpen, CommitDue, SeenReads, Pending, Output;
  }

  lemma ProcessReads(opt: Options, st: State, e: Event, skipPosCheck: bool, h: seq<Event>)
    requires Reads(opt, st, h)
    ensures Reads(opt, Process(opt, st, e, skipPosCheck), h + Switched(opt, st, e, skipPosCheck))
    decreases e, 0
  {
    hide Dispatch, Reads, FilteringAfter, Reached;
    var r := Reached(opt, st.gate, st.flags.gtidFiltering, e, skipPosCheck);
    var st1 := Entered(opt, st, e, r);
    ReadsAgain(opt, st, st1, h);
    var st' := Process(opt, st, e, skipPosCheck);
    if !r.Switch? {
      assert h + [] == h;
      ReadsAgain(opt, st1, st', h);
    } else if e.body.Payload? {
      InnerReads(opt, st1, e.body.inner, h);
      ReadsAgain(opt, ProcessInner(opt, st1, e.body.inner), st', h + SwitchedInner(opt, st1, e.body.inner));
    } else {
      DispatchReads(opt, st1, e, h);
      ReadsAgain(opt, Dispatch(opt, st1, e), st', h + [e]);
    }
  }

  lemma InnerReads(opt: Options, st: State, es: seq<Event>, h: seq<Event>)
    requires Reads(opt, st, h)
    ensures Reads(opt, ProcessInner(opt, st, es), h + SwitchedInner(opt, st, es))
    decreases es
  {
    hide Reads;
    if es == [] {
      assert h + [] == h;
    } else {
      ProcessReads(opt, st, es[0], true, h);
      var a, st1 := Switched(opt, st, es[0], true), Process(opt, st, es[0], true);
      InnerReads(opt, st1, es[1..], h + a);
      assert h + a + SwitchedInner(opt, st1, es[1..]) == h + (a + SwitchedInner(opt, st1, es[1..]));
    }
  }

  lemma {:induction false} RunReads(opt: Options, st: State, es: seq<Entry>, h: seq<Event>)
    requires Reads(opt, st, h)
    ensures Reads(opt, RunEntries(opt, st, es).state, h + SwitchedRun(opt, st, es))
    decreases es
  {
    hide Reads, Process, Switched, ProcessStatus;
    if es == [] {
      assert h + [] == h;
    } else {
      var st0 := SetStop(st, es[0].limit);
      ReadsAgain(opt, st, st0, h);
      ProcessReads(opt, st0, es[0].event, false, h);
      var a, st1 := Switched(opt, st0, es[0].event, false), Take(opt, st, es[0]);
      if TakeStatus(opt, st, es[0]) != OkContinue {
        assert a + [] == a;
      } else {
        RunReads(opt, st1, es[1..], h + a);
        assert h + a + SwitchedRun(opt, st1, es[1..]) == h + (a + SwitchedRun(opt, st1, es[1..]));
      }
    }
  }

  lemma FreshReads(opt: Options, st: State)
    requires st == Fresh(st.gate.offset, st.gate.startDatetime, st.gate.stopPosition)
    ensures Reads(opt, st, [])
  {
  }

  /** The events of a dump that get to the switch. */
  function History(opt: Options, st: State, logs: seq<seq<Event>>): seq<Event> {
    SwitchedRun(opt, st, Entries(logs, st.gate.stopPosition))
  }

  /** Main result: for all logs and options, the whole output of a dump, line by line,
      is the reading of the events that got to the switch. */
  lemma DumpIsReading(opt: Options, st: State, logs: seq<seq<Event>>)
    requires st == Fresh(st.gate.offset, st.gate.startDatetime, st.gate.stopPosition)
    ensures var h := History(opt, st, logs);
            Dump(opt, st, logs).state.out ==
            Output(opt, h) + (if CommitDue(opt, h) then [AddedCommit] else []) + Closing(opt, h)
  {
    hide Dump, RunEntries, Entries, SwitchedRun, GroupOpen, GtidOpen, CommitDue, SeenReads, Pending, Output, EndBinlog;
    var es, h := Entries(logs, st.gate.stopPosition), History(opt, st, logs);
    FreshReads(opt, st);
    RunReads(opt, st, es, []);
    assert [] + h == h;
    var r := RunEntries(opt, st, es).state;
    DumpIsOneRun(opt, st, logs);
    SameIs(Dump(opt, st, logs).state, Finish(opt, r));
    var st1 := if r.flags.skippedEvent then r.(out := r.out + [AddedCommit]) else r;
    ClosingIsEnd(opt, st1, h);
    assert r.out + [] == r.out;
  }

  /** A transaction still open when the events end is meant to be rolled back. It is, if
      and only if no COMMIT is due: of the events since the last one that settles, none
      was removed by `--database`. Otherwise the part of it that was printed is
      committed first. */
  lemma CutTransactionFate(opt: Options, st: State, logs: seq<seq<Event>>)
    requires st == Fresh(st.gate.offset, st.gate.startDatetime, st.gate.stopPosition)
    requires BinlogClosing.SoundLogs(logs)
    ensures var h := History(opt, st, logs);
            var printed, out := Output(opt, h), Dump(opt, st, logs).state.out;
            BinlogSession.SessionAfter(printed).open ==>
              && |out| > |printed| && out[..|printed|] == printed
              && (out[|printed|] == AddedRollback <==> !CommitDue(opt, h))
              && (out[|printed|] == AddedCommit <==> CommitDue(opt, h))
  {
    hide Dump, RunEntries, Entries, SwitchedRun, GroupOpen, GtidOpen, CommitDue, Output, BinlogSession.SessionAfter,
      SeenReads, Pending;
    var h := History(opt, st, logs);
    DumpIsReading(opt, st, logs);
    var es := Entries(logs, st.gate.stopPosition);
    FreshReads(opt, st);
    RunReads(opt, st, es, []);
    assert [] + h == h;
    FreshTracks(opt, st);
    SoundEntries(logs, st.gate.stopPosition);
    EntriesTrack(opt, st, es);
    var printed, out := Output(opt, h), Dump(opt, st, logs).state.out;
    assert out[..|printed|] == printed;
  }

  lemma FreshTracks(opt: Options, st: State)
    requires st == Fresh(st.gate.offset, st.gate.startDatetime, st.gate.stopPosition)
    ensures BinlogClosing.Inv(opt, st)
  {
  }

  lemma {:induction false} SoundEntries(logs: seq<seq<Event>>, stopPosition: nat)
    requires BinlogClosing.SoundLogs(logs)
    ensures forall e <- Entries(logs, stopPosition) :: BinlogSession.SoundEvent(e.event)
    decreases |logs|
  {
    hide BinlogSession.SoundEvent;
    if logs != [] {
      assert logs[0] in logs && forall log <- logs[1..] :: log in logs;
      SoundEntries(logs[1..], stopPosition);
      var first := Tagged(logs[0], if |logs| == 1 then stopPosition else MAX_OFFSET);
      assert forall e <- first :: e.event in logs[0];
    }
  }

  lemma {:induction false} EntriesTrack(opt: Options, st: State, es: seq<Entry>)
    requires BinlogClosing.Inv(opt, st) && forall e <- es :: BinlogSession.SoundEvent(e.event)
    ensures BinlogClosing.Inv(opt, RunEntries(opt, st, es).state)
    decreases es
  {
    hide Process, ProcessStatus, BinlogSession.SessionAfter, BinlogSession.SoundEvent;
    if es != [] {
      BinlogClosing.ProcessTracks(opt, SetStop(st, es[0].limit), es[0].event, false);
      EntriesTrack(opt, Take(opt, st, es[0]), es[1..]);
    }
  }

  /** After an event that settles, a COMMIT is due exactly if one of the events that
      follow was removed and none of them settles. */
  lemma DueSince(opt: Options, a: seq<Event>, b: seq<Event>)
    requires a != [] && Settles(opt, a[..|a| - 1], a[|a| - 1].body)
    requires forall j :: 0 <= j < |b| ==> !Settles(opt, a + b[..j], b[j].body)
    ensures CommitDue(opt, a + b) <==> exists i :: 0 <= i < |b| && Removed(opt, a + b[..i], b[i].body)
  {
    hide GroupOpen, GtidOpen, Ignored, QuerySkips, SkipsDatabase, EndsGroup, Settles, Removed;
    DueSinceFrom(opt, a, b, |b|);
    assert b[..|b|] == b;
  }

  lemma {:induction false} DueSinceFrom(opt: Options, a: seq<Event>, b: seq<Event>, n: nat)
    requires a != [] && Settles(opt, a[..|a| - 1], a[|a| - 1].body) && n <= |b|
    requires forall j :: 0 <= j < |b| ==> !Settles(opt, a + b[..j], b[j].body)
    ensures CommitDue(opt, a + b[..n]) <==> exists i :: 0 <= i < n && Removed(opt, a + b[..i], b[i].body)
  {
    hide Settles, Removed, CommitDue;
    if n == 0 {
      assert a + b[..0] == a == a[..|a| - 1] + [a[|a| - 1]];
      DueSnoc(opt, a[..|a| - 1], a[|a| - 1]);
      SettledNotRemoved(opt, a[..|a| - 1], a[|a| - 1].body);
    } else {
      DueSinceFrom(opt, a, b, n - 1);
      assert a + b[..n] == a + b[..n - 1] + [b[n - 1]];
      DueSnoc(opt, a + b[..n - 1], b[n - 1]);
    }
  }

  lemma SettledNotRemoved(opt: Options, h: seq<Event>, b: Body)
    requires Settles(opt, h, b)
    ensures !Removed(opt, h, b)
  {
    hide GroupOpen, GtidOpen, Ignored, EndsGroup;
    if b.Query? {
      MarkersPrinted(opt, b.db, b.text);
    }
  }

  /** XA PREPARE ends the transaction for the server, but settles nothing: the next GTID
      comes with a COMMIT that commits nothing, exactly if an event of the XA
      transaction was removed. */
  lemma XaPrepareNext(opt: Options, a: seq<Event>, body: seq<Event>, prepare: Event, next: Event)
    requires a != [] && a[|a| - 1].body.GtidEvent? && prepare.body.XaPrepare? && next.body.GtidEvent?
    requires forall j :: 0 <= j < |body| ==> !Settles(opt, a + body[..j], body[j].body)
    ensures var h := a + body + [prepare];
            && BinlogSession.SessionAfter(Output(opt, h)) == BinlogSession.CLOSED
            && Adds(opt, h, next) ==
                 (if exists i :: 0 <= i < |body| && Removed(opt, a + body[..i], body[i].body) then [AddedCommit] else [])
                 + [Printed(next)]
  {
    hide GroupOpen, GtidOpen, Ignored, Output, Removed, CommitDue, Pending, BinlogSession.SessionAfter, EndsGroup,
      QuerySkips;
    var b := a + body;
    OutputSnoc(opt, b, prepare);
    BinlogSession.SessionAppend(Output(opt, b), Printed(prepare));
    DueSince(opt, a, body);
    DueSnoc(opt, b, prepare);
    assert !Removed(opt, b, prepare.body) by { PrepareKept(opt, b, prepare.body); }
  }

  lemma PrepareKept(opt: Options, h: seq<Event>, b: Body)
    requires b.XaPrepare?
    ensures !Removed(opt, h, b)
  {
  }
}
