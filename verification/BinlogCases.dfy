/** Short logs on which `--database` makes the program commit what it should not, and
    on which the stop time cuts a transaction open. */
module BinlogCases {
  import opened Optional
  import opened BinlogEvents
  import opened BinlogSession
  import opened BinlogPrinter
  import opened BinlogRuns
  import opened BinlogDeferred
  import opened BinlogHistory
  import opened BinlogGroups
  import opened BinlogStreams

  /** Only `--database`, and `--skip-gtids` or not. */
  function OnlyDatabase(db: string, skipGtids: bool): Options {
    Options(Some(db), None, None, skipGtids, 0, 1000, false, Auto, true)
  }

  const START := Fresh(0, 0, 1000)

  function Statement(db: string, text: string): Event {
    Event(1, 1, 4, Query(Some(db), text))
  }

  /** Not held back by any filter but `--database`. */
  predicate Unfiltered(opt: Options, e: Entry) {
    var b := e.event.body;
    && !b.Payload? && !b.Rows? && !b.FormatDescription? && e.event.pos < e.limit && e.event.when < opt.stopDatetime
    && !(opt.skipGtids && (b.GtidEvent? || b.PreviousGtids?))
  }

  lemma {:induction false} AllSwitched(opt: Options, st: State, es: seq<Entry>)
    requires opt.filterServerId == 0 && opt.includeGtids == None && opt.excludeGtids == None
    requires GateOpen(st.gate) && !st.flags.gtidFiltering && forall e <- es :: Unfiltered(opt, e)
    ensures SwitchedRun(opt, st, es) == EventsOf(es)
    decreases es
  {
    if es != [] {
      OneSwitched(opt, st, es[0]);
      hide Process, ProcessStatus, Switched, Unfiltered;
      AllSwitched(opt, Take(opt, st, es[0]), es[1..]);
    }
  }

  lemma OneSwitched(opt: Options, st: State, e: Entry)
    requires opt.filterServerId == 0 && opt.includeGtids == None && opt.excludeGtids == None
    requires GateOpen(st.gate) && !st.flags.gtidFiltering && Unfiltered(opt, e)
    ensures Switched(opt, SetStop(st, e.limit), e.event, false) == [e.event]
    ensures TakeStatus(opt, st, e) == OkContinue
    ensures GateOpen(Take(opt, st, e).gate) && !Take(opt, st, e).flags.gtidFiltering
  {
    hide EndsGroup, Dispatch;
    var st0 := SetStop(st, e.limit);
    ProcessKeepsGate(opt, st0, e.event, false);
    var r := Reached(opt, st0.gate, false, e.event, false);
    assert r.Switch?;
    DispatchKeepsFilter(opt, Entered(opt, st0, e.event, r), e.event);
  }

  lemma OneLog(opt: Options, log: seq<Event>)
    requires opt.filterServerId == 0 && opt.includeGtids == None && opt.excludeGtids == None
    requires forall e <- log :: Unfiltered(opt, Entry(e, 1000))
    ensures History(opt, START, [log]) == log
  {
    hide Unfiltered, SwitchedRun;
    var es := Tagged(log, 1000);
    assert Entries([log], 1000) == es + Entries([], 1000) == es;
    assert forall e <- es :: e.event in log && e.limit == 1000;
    AllSwitched(opt, START, es);
    assert EventsOf(es) == log;
  }

  /** How the texts used here are classified. */
  lemma Texts()
    ensures StartsGroup("BEGIN") && !EndsGroup("BEGIN") && StartsGroup("XA START 'x'") && !EndsGroup("XA START 'x'")
    ensures !StartsGroup("DROP") && !EndsGroup("DROP") && !IsTransKeyword("DROP")
    ensures !StartsGroup("INSERT") && !EndsGroup("INSERT") && !IsTransKeyword("INSERT")
  {
    hide StartsGroup, EndsGroup, IsTransKeyword, StartsWithNoCase;
    Ordinary("DROP");
    Ordinary("INSERT");
    Begins("BEGIN");
    Begins("XA START 'x'");
  }

  /** The keywords begin with B, C, R, S and X. */
  lemma Ordinary(text: string)
    requires text != [] && Lower(text[0]) !in "bcrsx"
    ensures !StartsGroup(text) && !EndsGroup(text) && !IsTransKeyword(text)
  {
    hide StartsWithNoCase;
    assert Lower('B') == 'b' && Lower('C') == 'c';
    NotWord(text, "SAVEPOINT");
    NotWord(text, "ROLLBACK");
    NotWord(text, "XA START");
    NotWord(text, "XA END");
    NotWord(text, "XA PREPARE");
    NotWord(text, "XA COMMIT");
    NotWord(text, "XA ROLLBACK");
  }

  lemma NotWord(text: string, word: string)
    requires text != [] && word != [] && Lower(text[0]) != Lower(word[0])
    ensures !StartsWithNoCase(text, word) && !(word <= text)
  {
  }

  lemma Begins(text: string)
    requires text == "BEGIN" || text == "XA START 'x'"
    ensures StartsGroup(text) && !EndsGroup(text)
  {
    hide StartsWithNoCase;
    NotWord(text, "ROLLBACK");
    NotPrefix(text, "COMMIT", 0);
    NotPrefix(text, "XA ROLLBACK", if text == "BEGIN" then 0 else 3);
    assert text == "BEGIN" || text[..8] == "XA START";
  }

  lemma NotPrefix(a: string, b: string, i: nat)
    requires i < |a| && i < |b| && a[i] != b[i]
    ensures !(a <= b) && !(b <= a)
  {
  }

  /** A statement of database b, skipped, and after it a transaction of database a that
      is cut off: none of its events was removed, and yet it is committed. */
  lemma CutTransactionCommitted()
    ensures var opt := OnlyDatabase("a", true);
            var ddl, begin, ins := Statement("b", "DROP"), Statement("a", "BEGIN"), Statement("a", "INSERT");
            Dump(opt, START, [[ddl, begin, ins]]).state.out ==
            [Printed(begin), Printed(ins), AddedCommit, AddedRollback]
  {
    hide StartsGroup, EndsGroup, IsTransKeyword, Dump, GroupOpen, GtidOpen, CommitDue, Output, Pending, History;
    Texts();
    var opt := OnlyDatabase("a", true);
    var ddl, begin, ins := Statement("b", "DROP"), Statement("a", "BEGIN"), Statement("a", "INSERT");
    OneLog(opt, [ddl, begin, ins]);
    DumpIsReading(opt, START, [[ddl, begin, ins]]);
    Nothing(opt);
    Step(opt, [], ddl);
    Step(opt, [ddl], begin);
    Step(opt, [ddl, begin], ins);
    assert [] + [ddl] == [ddl] && [ddl] + [begin] == [ddl, begin] && [ddl, begin] + [ins] == [ddl, begin, ins];
  }

  lemma Nothing(opt: Options)
    ensures !GroupOpen([]) && !GtidOpen([]) && !CommitDue(opt, []) && Output(opt, []) == [] && Pending([], []) == []
  {
  }

  /** One more event, in all readings; a query empties the buffer. */
  lemma Step(opt: Options, h: seq<Event>, e: Event)
    ensures var b := e.body;
            && GroupOpen(h + [e]) ==
                 (!EndsTxn(b) && !BeginsLog(h, b) && ((b.Query? && StartsGroup(b.text)) || GroupOpen(h)))
            && GtidOpen(h + [e]) ==
                 (!EndsTxn(b) && !BeginsLog(h, b) && !(b.Query? && !StartsGroup(b.text) && !GroupOpen(h))
                  && (b.GtidEvent? || GtidOpen(h)))
            && (CommitDue(opt, h + [e]) <==> Removed(opt, h, b) || (CommitDue(opt, h) && !Settles(opt, h, b)))
            && Output(opt, h + [e]) == Output(opt, h) + Adds(opt, h, e)
            && (b.Query? ==> Pending([], h + [e]) == [])
            && (!b.Query? && !IsDeferred(b) ==> Pending([], h + [e]) == Pending([], h))
  {
    OpenSnoc(h, e);
    DueSnoc(opt, h, e);
    OutputSnoc(opt, h, e);
    PendingSnoc(h, e);
  }

  /** The readings of a history, all at once. */
  ghost predicate Stands(opt: Options, h: seq<Event>, group: bool, gtid: bool, due: bool, out: seq<Token>) {
    && GroupOpen(h) == group && GtidOpen(h) == gtid && CommitDue(opt, h) == due && Pending([], h) == []
    && Output(opt, h) == out
  }

  /** A GTID, the begin of its group, and a statement that is skipped. */
  lemma GroupBegun(opt: Options, gtid: Event, begin: Event, other: Event)
    requires gtid.body.GtidEvent? && begin.body.Query? && StartsGroup(begin.body.text) && !EndsGroup(begin.body.text)
    requires other.body.Query? && QuerySkips(opt, other.body.db, other.body.text)
    ensures Stands(opt, [gtid, begin, other], true, true, true, [Printed(gtid), Printed(begin)])
  {
    hide StartsGroup, EndsGroup, QuerySkips, GroupOpen, GtidOpen, CommitDue, Output, Pending;
    Nothing(opt);
    MarkersPrinted(opt, begin.body.db, begin.body.text);
    MarkersPrinted(opt, other.body.db, other.body.text);
    Step(opt, [], gtid);
    assert [] + [gtid] == [gtid];
    assert Stands(opt, [gtid], false, true, false, [Printed(gtid)]);
    Step(opt, [gtid], begin);
    assert [gtid] + [begin] == [gtid, begin];
    assert Stands(opt, [gtid, begin], true, true, false, [Printed(gtid), Printed(begin)]);
    Step(opt, [gtid, begin], other);
    assert [gtid, begin] + [other] == [gtid, begin, other];
  }

  /** The same with GTIDs, when `--database` removes a statement of the transaction. */
  lemma CutTransactionHalfCommitted()
    ensures var opt := OnlyDatabase("a", false);
            var gtid := Event(1, 1, 4, GtidEvent(Gtid("s", 1)));
            var begin, other, ins := Statement("a", "BEGIN"), Statement("b", "INSERT"), Statement("a", "INSERT");
            Dump(opt, START, [[gtid, begin, other, ins]]).state.out ==
            [Printed(gtid), Printed(begin), Printed(ins), AddedCommit, AddedRollback, GtidAutomatic]
  {
    hide StartsGroup, EndsGroup, IsTransKeyword, Dump, GroupOpen, GtidOpen, CommitDue, Output, Pending, History;
    Texts();
    var opt := OnlyDatabase("a", false);
    var gtid := Event(1, 1, 4, GtidEvent(Gtid("s", 1)));
    var begin, other, ins := Statement("a", "BEGIN"), Statement("b", "INSERT"), Statement("a", "INSERT");
    OneLog(opt, [gtid, begin, other, ins]);
    DumpIsReading(opt, START, [[gtid, begin, other, ins]]);
    GroupBegun(opt, gtid, begin, other);
    Step(opt, [gtid, begin, other], ins);
    assert [gtid, begin, other] + [ins] == [gtid, begin, other, ins];
  }

  /** A COMMIT for nothing after XA PREPARE, and a ROLLBACK for nothing at the end. */
  lemma StrayCommit()
    ensures var opt := OnlyDatabase("a", false);
            var g1, g2 := Event(1, 1, 4, GtidEvent(Gtid("s", 1))), Event(1, 1, 4, GtidEvent(Gtid("s", 2)));
            var start, other, prepare := Statement("a", "XA START 'x'"), Statement("b", "INSERT"), Event(1, 1, 4, XaPrepare);
            Dump(opt, START, [[g1, start, other, prepare, g2]]).state.out ==
            [Printed(g1), Printed(start), Printed(prepare), AddedCommit, Printed(g2), AddedRollback, GtidAutomatic]
  {
    hide StartsGroup, EndsGroup, IsTransKeyword, Dump, GroupOpen, GtidOpen, CommitDue, Output, Pending, History;
    Texts();
    var opt := OnlyDatabase("a", false);
    var g1, g2 := Event(1, 1, 4, GtidEvent(Gtid("s", 1))), Event(1, 1, 4, GtidEvent(Gtid("s", 2)));
    var start, other, prepare := Statement("a", "XA START 'x'"), Statement("b", "INSERT"), Event(1, 1, 4, XaPrepare);
    var log := [g1, start, other, prepare, g2];
    OneLog(opt, log);
    DumpIsReading(opt, START, [log]);
    GroupBegun(opt, g1, start, other);
    Step(opt, [g1, start, other], prepare);
    assert [g1, start, other] + [prepare] == [g1, start, other, prepare];
    assert Stands(opt, [g1, start, other, prepare], true, true, true, [Printed(g1), Printed(start), Printed(prepare)]);
    Step(opt, [g1, start, other, prepare], g2);
    assert [g1, start, other, prepare] + [g2] == log;
  }

  /** A transaction that is ended: nothing is added to it. */
  lemma NothingAdded(text: string, end: string)
    requires Regular(text) && EffectOf(text) == Keeps && (end == "COMMIT" || end == "ROLLBACK")
    ensures var begin, statement, last := Statement("a", "BEGIN"), Statement("a", text), Statement("a", end);
            Dump(OnlyDatabase("a", false), START, [[begin, statement, last]]).state.out ==
            [Printed(begin), Printed(statement), Printed(last), GtidAutomatic]
  {
    hide StartsGroup, EndsGroup, IsTransKeyword, Dump, GroupOpen, GtidOpen, CommitDue, Output, Pending, History,
      EffectOf, Regular;
    ControlStatements();
    RegularTests("BEGIN");
    RegularTests(text);
    RegularTests(end);
    var opt := OnlyDatabase("a", false);
    var begin, statement, last := Statement("a", "BEGIN"), Statement("a", text), Statement("a", end);
    Nothing(opt);
    Step(opt, [], begin);
    assert [] + [begin] == [begin];
    assert Stands(opt, [begin], true, false, false, [Printed(begin)]);
    Step(opt, [begin], statement);
    assert [begin] + [statement] == [begin, statement];
    assert Stands(opt, [begin, statement], true, false, false, [Printed(begin), Printed(statement)]);
    Step(opt, [begin, statement], last);
    assert [begin, statement] + [last] == [begin, statement, last];
    Closed(opt, [begin, statement, last], [Printed(begin), Printed(statement), Printed(last)]);
  }

  /** A log with a statement that is not sound leaves the session open: the statement
      alone, or after BEGIN when the program takes it for an end. */
  lemma UnsoundLeavesOpen(text: string)
    requires !Sound(text)
    ensures var begin, statement := Statement("a", "BEGIN"), Statement("a", text);
            var log := if EndsGroup(text) then [begin, statement] else [statement];
            SessionAfter(Dump(OnlyDatabase("a", false), START, [log]).state.out).open
  {
    hide StartsGroup, EndsGroup, IsTransKeyword, Dump, GroupOpen, GtidOpen, CommitDue, Output, Pending, History,
      EffectOf, Regular, SessionAfter;
    ControlStatements();
    RegularTests("BEGIN");
    var opt := OnlyDatabase("a", false);
    var begin, statement := Statement("a", "BEGIN"), Statement("a", text);
    var log := if EndsGroup(text) then [begin, statement] else [statement];
    Nothing(opt);
    NoneExecuted();
    if EndsGroup(text) {
      Step(opt, [], begin);
      assert [] + [begin] == [begin];
      assert Stands(opt, [begin], true, false, false, [Printed(begin)]);
      Step(opt, [begin], statement);
      assert [begin] + [statement] == log;
      SessionAppend([], Printed(begin));
      assert [] + [Printed(begin)] == [Printed(begin)];
      OpenAfter([Printed(begin)], statement);
      Closed(opt, log, [Printed(begin)] + [Printed(statement)]);
    } else {
      Step(opt, [], statement);
      assert [] + [statement] == log;
      OpenAfter([], statement);
      Closed(opt, log, [] + [Printed(statement)]);
    }
  }

  /** A log after which nothing is open and nothing is due. */
  lemma Closed(opt: Options, log: seq<Event>, out: seq<Token>)
    requires opt == OnlyDatabase("a", false) && forall e <- log :: Unfiltered(opt, Entry(e, 1000))
    requires Stands(opt, log, false, false, false, out)
    ensures Dump(opt, START, [log]).state.out == out + [GtidAutomatic]
  {
    hide Dump, GroupOpen, GtidOpen, CommitDue, Output, Pending, History, Unfiltered;
    OneLog(opt, log);
    DumpIsReading(opt, START, [log]);
    assert out + [] + ([] + [GtidAutomatic]) == out + [GtidAutomatic];
  }

  /** An open session stays open when the program adds no more than the last line. */
  lemma OpenAfter(out: seq<Token>, e: Event)
    requires e.body.Query?
    requires EffectOf(e.body.text) == Opens || (EffectOf(e.body.text) == Keeps && SessionAfter(out).open)
    ensures SessionAfter(out + [Printed(e)] + [GtidAutomatic]).open
  {
    hide SessionAfter, EffectOf;
    SessionAppend(out, Printed(e));
    SessionAppend(out + [Printed(e)], GtidAutomatic);
  }

  lemma NoneExecuted()
    ensures SessionAfter([]) == CLOSED
  {
  }

  /** Such as BEGIN in lower case, which the program does not know. */
  lemma LowerCaseBegin()
    ensures !Sound("begin")
  {
    hide StartsWithNoCase;
    LowerCaseWord();
    assert !("begin" <= "BEGIN") && !("XA START" <= "begin");
  }

  lemma LowerCaseWord()
    ensures Word("begin") == "BEGIN"
  {
    var text := "begin";
    assert WordLength(text) == 5;
    assert text[..5] == text;
    assert Capitals(text) == "BEGIN";
  }

  /** A compressed transaction whose end is past the stop time: its begin is printed, its
      end is not, and the run goes on with the next GTID. */
  lemma PayloadCutOpen()
    ensures var opt := OnlyDatabase("a", false);
            var g1, g2 := Event(1, 1, 4, GtidEvent(Gtid("s", 1))), Event(1, 1, 4, GtidEvent(Gtid("s", 2)));
            var begin, end := Statement("a", "BEGIN"), Event(1000, 1, 4, Xid);
            Dump(opt, START, [[g1, Event(1, 1, 4, Payload([begin, end])), g2]]).state.out ==
            [Printed(g1), Printed(begin), Printed(g2), AddedRollback, GtidAutomatic]
  {
    hide StartsGroup, EndsGroup, IsTransKeyword, Dump, GroupOpen, GtidOpen, CommitDue, Output, Pending, History,
      EffectOf, Regular;
    Texts();
    ControlStatements();
    var opt := OnlyDatabase("a", false);
    var g1, g2 := Event(1, 1, 4, GtidEvent(Gtid("s", 1))), Event(1, 1, 4, GtidEvent(Gtid("s", 2)));
    var begin, end := Statement("a", "BEGIN"), Event(1000, 1, 4, Xid);
    PayloadHistory(opt, g1, begin, end, g2);
    DumpIsReading(opt, START, [[g1, Event(1, 1, 4, Payload([begin, end])), g2]]);
    Nothing(opt);
    MarkersPrinted(opt, Some("a"), "BEGIN");
    Step(opt, [], g1);
    assert [] + [g1] == [g1];
    assert Stands(opt, [g1], false, true, false, [Printed(g1)]);
    Step(opt, [g1], begin);
    assert [g1] + [begin] == [g1, begin];
    assert Stands(opt, [g1, begin], true, true, false, [Printed(g1), Printed(begin)]);
    Step(opt, [g1, begin], g2);
    assert [g1, begin] + [g2] == [g1, begin, g2];
  }

  lemma PayloadHistory(opt: Options, g1: Event, begin: Event, end: Event, g2: Event)
    requires opt == OnlyDatabase("a", false) && BeginEvent(begin.body) && CommitEvent(end.body)
    requires g1.body.GtidEvent? && g1.pos < 1000 && g1.when < 1000 && g2.body.GtidEvent? && g2.pos < 1000 && g2.when < 1000
    requires begin.when < 1000 && end.when >= 1000
    ensures History(opt, START, [[g1, Event(1, 1, 4, Payload([begin, end])), g2]]) == [g1, begin, g2]
  {
    hide SwitchedRun, Take, TakeStatus, Switched, BeginEvent, CommitEvent;
    var p := Event(1, 1, 4, Payload([begin, end]));
    var log := [g1, p, g2];
    var e1, e2, e3 := Entry(g1, 1000), Entry(p, 1000), Entry(g2, 1000);
    var es := Tagged(log, 1000);
    assert es == [e1, e2, e3] && Entries([log], 1000) == es + Entries([], 1000) == es;
    var st1 := Take(opt, START, e1);
    OneSwitched(opt, START, e1);
    PayloadSwitched(opt, st1, e2, begin, end);
    var st2 := Take(opt, st1, e2);
    OneSwitched(opt, st2, e3);
    SwitchedFirst(opt, START, es);
    SwitchedFirst(opt, st1, es[1..]);
    SwitchedFirst(opt, st2, es[1..][1..]);
    SwitchedNone(opt, Take(opt, st2, e3));
    assert es[1..][1..] == [e3] && es[1..][0] == e2 && [e3][1..] == [];
  }

  lemma SwitchedFirst(opt: Options, st: State, es: seq<Entry>)
    requires es != [] && TakeStatus(opt, st, es[0]) == OkContinue
    ensures SwitchedRun(opt, st, es) ==
            Switched(opt, SetStop(st, es[0].limit), es[0].event, false) + SwitchedRun(opt, Take(opt, st, es[0]), es[1..])
  {
    hide Take, TakeStatus, Switched;
  }

  lemma SwitchedNone(opt: Options, st: State)
    ensures SwitchedRun(opt, st, []) == []
  {
  }

  lemma PayloadSwitched(opt: Options, st: State, e: Entry, begin: Event, end: Event)
    requires opt == OnlyDatabase("a", false) && GateOpen(st.gate) && !st.flags.gtidFiltering
    requires e == Entry(Event(1, 1, 4, Payload([begin, end])), 1000)
    requires BeginEvent(begin.body) && CommitEvent(end.body) && begin.when < 1000 && end.when >= 1000
    ensures Switched(opt, SetStop(st, e.limit), e.event, false) == [begin] && TakeStatus(opt, st, e) == OkContinue
    ensures GateOpen(Take(opt, st, e).gate) && !Take(opt, st, e).flags.gtidFiltering
  {
    hide BeginEvent, CommitEvent, Process, TxnEvent;
    var st0 := SetStop(st, 1000);
    var r := Reached(opt, st0.gate, false, e.event, false);
    assert r.Switch? && Entered(opt, st0, e.event, r) == st0;
    assert TxnEvent(begin.body) && TxnEvent(end.body) by { BothTxn(begin.body, end.body); }
    var inner := [begin, end];
    assert forall x <- inner :: TxnEvent(x.body);
    AllThrough(opt, st0, inner);
    assert InTime(opt, inner) == [begin] by {
      assert inner[1..] == [end] && [end][1..] == [];
      assert InTime(opt, [end]) == [];
    }
    InnerFilter(opt, st0, begin, end);
    ProcessKeepsGate(opt, st0, e.event, false);
    PayloadTake(opt, st0, e.event, inner);
  }

  lemma BothTxn(a: Body, b: Body)
    requires BeginEvent(a) && CommitEvent(b)
    ensures TxnEvent(a) && TxnEvent(b)
  {
  }

  lemma InnerFilter(opt: Options, st: State, a: Event, b: Event)
    requires GateOpen(st.gate) && opt.filterServerId == 0 && !st.flags.gtidFiltering
    requires TxnEvent(a.body) && TxnEvent(b.body)
    ensures !ProcessInner(opt, st, [a, b]).flags.gtidFiltering
  {
    hide Process, TxnEvent;
    TxnNotPayload(opt, a.body);
    TxnNotPayload(opt, b.body);
    OneThrough(opt, st, a);
    var st1 := Process(opt, st, a, true);
    OneThrough(opt, st1, b);
    assert [a, b][1..] == [b] && [b][1..] == [];
    assert ProcessInner(opt, st1, [b]) == Process(opt, st1, b, true);
  }

  lemma PayloadTake(opt: Options, st: State, e: Event, inner: seq<Event>)
    requires e.body == Payload(inner)
    requires var r := Reached(opt, st.gate, st.flags.gtidFiltering, e, false); r.Switch? && Entered(opt, st, e, r) == st
    ensures Process(opt, st, e, false).flags == ProcessInner(opt, st, inner).flags
  {
  }
}
