/** Whole dumps of well-formed streams: which events get to the switch, what is printed
    of each transaction, and what holds up to the point where a dump is stopped. */
module BinlogStreams {
  import opened BinlogEvents
  import opened BinlogSession
  import opened BinlogPrinter
  import opened BinlogRuns
  import opened BinlogDeferred
  import opened BinlogHistory
  import opened BinlogGroups

  // ---------------------------------------------------------------------------
  // An event before the stop position is processed as if there were none

  lemma DispatchStop(opt: Options, st: State, e: Event, n: nat)
    requires !e.body.Payload?
    ensures Dispatch(opt, SetStop(st, n), e) == SetStop(Dispatch(opt, st, e), n)
  {
    hide ProcessQuery, ProcessFormatDescription, SkipsDatabase;
    if e.body.Query? {
      QueryStop(opt, st, e, n);
    } else if e.body.FormatDescription? {
      FormatStop(opt, st, e, n);
    }
  }

  lemma QueryStop(opt: Options, st: State, e: Event, n: nat)
    requires e.body.Query?
    ensures ProcessQuery(opt, SetStop(st, n), e) == SetStop(ProcessQuery(opt, st, e), n)
  {
    hide EndsGroup, StartsGroup, QuerySkips, AsTokens;
  }

  lemma FormatStop(opt: Options, st: State, e: Event, n: nat)
    requires e.body.FormatDescription?
    ensures ProcessFormatDescription(opt, SetStop(st, n), e) == SetStop(ProcessFormatDescription(opt, st, e), n)
  {
  }

  /** Without the position check, the stop position plays no part. */
  lemma ProcessStop(opt: Options, st: State, e: Event, n: nat)
    ensures Process(opt, SetStop(st, n), e, true) == SetStop(Process(opt, st, e, true), n)
    ensures Switched(opt, SetStop(st, n), e, true) == Switched(opt, st, e, true)
    decreases e, 0
  {
    hide Dispatch, FilteringAfter, GtidFiltered;
    var f := st.flags.gtidFiltering;
    var r := Reached(opt, st.gate, f, e, true);
    assert Reached(opt, SetStop(st, n).gate, f, e, true) == r;
    var st1 := Entered(opt, st, e, r);
    assert Entered(opt, SetStop(st, n), e, r) == SetStop(st1, n);
    if r.Switch? {
      if e.body.Payload? {
        InnerStop(opt, st1, e.body.inner, n);
      } else {
        DispatchStop(opt, st1, e, n);
      }
    }
  }

  lemma InnerStop(opt: Options, st: State, es: seq<Event>, n: nat)
    ensures ProcessInner(opt, SetStop(st, n), es) == SetStop(ProcessInner(opt, st, es), n)
    ensures SwitchedInner(opt, SetStop(st, n), es) == SwitchedInner(opt, st, es)
    decreases es
  {
    if es != [] {
      ProcessStop(opt, st, es[0], n);
      InnerStop(opt, Process(opt, st, es[0], true), es[1..], n);
    }
  }

  /** An event that does not stop the run, with and without the position check. */
  lemma TakeIsProcess(opt: Options, st: State, e: Entry)
    requires GateOpen(st.gate) && opt.filterServerId == 0 && TakeStatus(opt, st, e) == OkContinue
    ensures Same(Take(opt, st, e), Process(opt, st, e.event, true)) && BeforeStop(opt, e.event)
    ensures Switched(opt, SetStop(st, e.limit), e.event, false) == Switched(opt, st, e.event, true)
  {
    hide Dispatch, FilteringAfter, GtidFiltered, DispatchStatus;
    var st0 := SetStop(st, e.limit);
    var r := Reached(opt, st0.gate, st.flags.gtidFiltering, e.event, false);
    assert Reached(opt, st0.gate, st.flags.gtidFiltering, e.event, true) == r;
    assert Process(opt, st0, e.event, false) == Process(opt, st0, e.event, true);
    ProcessStop(opt, st, e.event, e.limit);
    assert SetStop(SetStop(Process(opt, st, e.event, true), e.limit), 0) == SetStop(Process(opt, st, e.event, true), 0);
  }

  lemma SameSwitched(opt: Options, a: State, b: State, es: seq<Entry>)
    requires Same(a, b)
    ensures SwitchedRun(opt, a, es) == SwitchedRun(opt, b, es)
  {
    hide Process, ProcessStatus, Switched;
    SameIs(a, b);
  }

  /** A run that is not stopped is its events one after the other. */
  lemma {:induction false} RunIsInner(opt: Options, st: State, es: seq<Entry>)
    requires GateOpen(st.gate) && opt.filterServerId == 0 && RunEntries(opt, st, es).status == OkContinue
    ensures Same(RunEntries(opt, st, es).state, ProcessInner(opt, st, EventsOf(es)))
    ensures AllBeforeStop(opt, EventsOf(es))
    ensures SwitchedRun(opt, st, es) == SwitchedInner(opt, st, EventsOf(es))
    decreases es
  {
    hide Process, TakeStatus, Take, Switched;
    if es != [] {
      TakeIsProcess(opt, st, es[0]);
      ProcessKeepsGate(opt, st, es[0].event, true);
      var a, b := Take(opt, st, es[0]), Process(opt, st, es[0].event, true);
      SameRun(opt, a, b, es[1..]);
      SameSwitched(opt, a, b, es[1..]);
      RunIsInner(opt, b, es[1..]);
      assert EventsOf(es)[1..] == EventsOf(es[1..]);
      assert EventsOf(es) == [es[0].event] + EventsOf(es[1..]);
    }
  }

  // ---------------------------------------------------------------------------
  // Which events of a stream get to the switch

  function InTime(opt: Options, es: seq<Event>): seq<Event> {
    if es == [] then [] else (if BeforeStop(opt, es[0]) then [es[0]] else []) + InTime(opt, es[1..])
  }

  function Unfilterable(es: seq<Event>): seq<Event> {
    if es == [] then [] else (if NeverFiltered(es[0].body) then [es[0]] else []) + Unfilterable(es[1..])
  }

  /** Of a selected transaction all events, of a compressed one those in time; of
      another transaction only events that are never filtered. */
  function ItemHistory(opt: Options, item: Item): seq<Event>
    requires WellFormed(opt, item)
  {
    match item
    case Between(e) => [e]
    case Txn(gtid, s) =>
      if Chosen(opt, gtid.body.gtid) then
        [gtid] + if s.Compressed? then InTime(opt, [s.begin] + s.body + [s.commit]) else ShapeEvents(s)
      else if s.Compressed? then [] else Unfilterable(ShapeEvents(s))
  }

  function StreamHistory(opt: Options, items: seq<Item>): seq<Event>
    requires AllWellFormed(opt, items)
  {
    if items == [] then [] else ItemHistory(opt, items[0]) + StreamHistory(opt, items[1..])
  }

  lemma {:induction false} SwitchedConcat(opt: Options, st: State, a: seq<Event>, b: seq<Event>)
    ensures SwitchedInner(opt, st, a + b) == SwitchedInner(opt, st, a) + SwitchedInner(opt, ProcessInner(opt, st, a), b)
    decreases a
  {
    hide Process, Switched;
    if a == [] {
      assert a + b == b;
    } else {
      assert (a + b)[1..] == a[1..] + b;
      SwitchedConcat(opt, Process(opt, st, a[0], true), a[1..], b);
    }
  }

  /** One event through an open gate. */
  lemma OneThrough(opt: Options, st: State, e: Event)
    requires GateOpen(st.gate) && opt.filterServerId == 0 && !e.body.Payload?
    ensures var f, st' := st.flags.gtidFiltering, Process(opt, st, e, true);
            && GateOpen(st'.gate)
            && Switched(opt, st, e, true) == (if !BeforeStop(opt, e) || GtidFiltered(opt, f, e.body) then [] else [e])
            && st'.flags.gtidFiltering == if BeforeStop(opt, e) then FilteringAfter(opt, f, e.body) else f
  {
    hide Dispatch, FilteringAfter, GtidFiltered;
    ProcessKeepsGate(opt, st, e, true);
    var r := Reached(opt, st.gate, st.flags.gtidFiltering, e, true);
    if r.Switch? {
      DispatchKeepsFilter(opt, Entered(opt, st, e, r), e);
    }
  }

  /** The events of a transaction, all kinds of it. */
  predicate TxnEvent(b: Body) {
    BodyEvent(b) || BeginEvent(b) || CommitEvent(b)
  }

  /** While nothing is filtered, what is in time gets through. */
  lemma {:induction false} AllThrough(opt: Options, st: State, es: seq<Event>)
    requires GateOpen(st.gate) && opt.filterServerId == 0 && !st.flags.gtidFiltering
    requires forall e <- es :: TxnEvent(e.body)
    ensures SwitchedInner(opt, st, es) == InTime(opt, es)
    ensures GateOpen(ProcessInner(opt, st, es).gate)
    decreases es
  {
    hide Process, Switched, TxnEvent;
    if es != [] {
      TxnNotPayload(opt, es[0].body);
      OneThrough(opt, st, es[0]);
      AllThrough(opt, Process(opt, st, es[0], true), es[1..]);
    }
  }

  lemma TxnNotPayload(opt: Options, b: Body)
    requires TxnEvent(b)
    ensures !b.Payload? && !FilteringAfter(opt, false, b) && !GtidFiltered(opt, false, b)
    ensures GtidFiltered(opt, true, b) == !NeverFiltered(b)
    ensures !CommitEvent(b) ==> FilteringAfter(opt, true, b)
  {
    hide EndsGroup, StartsGroup, EffectOf, Regular;
    if b.Query? {
      RegularTests(b.text);
    }
  }

  /** While a transaction is filtered, only what is never filtered gets through. */
  lemma {:induction false} FewThrough(opt: Options, st: State, es: seq<Event>)
    requires GateOpen(st.gate) && opt.filterServerId == 0 && st.flags.gtidFiltering && AllBeforeStop(opt, es)
    requires forall i :: 0 <= i < |es| ==> TxnEvent(es[i].body) && (i < |es| - 1 ==> !CommitEvent(es[i].body))
    ensures SwitchedInner(opt, st, es) == Unfilterable(es)
    ensures GateOpen(ProcessInner(opt, st, es).gate)
    decreases es
  {
    hide Process, Switched, TxnEvent, CommitEvent, NeverFiltered;
    if es != [] {
      var e := es[0];
      TxnNotPayload(opt, e.body);
      OneThrough(opt, st, e);
      if |es| > 1 {
        FewThrough(opt, Process(opt, st, e, true), es[1..]);
      } else {
        assert es[1..] == [];
      }
    }
  }

  lemma {:induction false} AllInTime(opt: Options, es: seq<Event>)
    requires AllBeforeStop(opt, es)
    ensures InTime(opt, es) == es
  {
    if es != [] {
      AllInTime(opt, es[1..]);
    }
  }

  /** A compressed transaction gets through whole if and only if none of its events is at
      or past the stop time. */
  lemma {:induction false} WholeIffInTime(opt: Options, es: seq<Event>)
    ensures |InTime(opt, es)| <= |es|
    ensures InTime(opt, es) == es <==> AllBeforeStop(opt, es)
  {
    if es != [] {
      WholeIffInTime(opt, es[1..]);
      assert es == [es[0]] + es[1..];
    }
  }

  lemma ShapeIsTxn(opt: Options, s: Shape)
    requires WellFormedShape(opt, s)
    ensures !s.Compressed? ==>
              forall i :: 0 <= i < |ShapeEvents(s)| ==>
                TxnEvent(ShapeEvents(s)[i].body) && (i < |ShapeEvents(s)| - 1 ==> !CommitEvent(ShapeEvents(s)[i].body))
    ensures s.Compressed? ==> forall e <- [s.begin] + s.body + [s.commit] :: TxnEvent(e.body)
  {
    hide EffectOf, Regular;
  }

  /** The payload of a compressed transaction. */
  lemma PayloadThrough(opt: Options, st: State, s: Shape)
    requires GateOpen(st.gate) && opt.filterServerId == 0 && s.Compressed? && WellFormedShape(opt, s)
    requires BeforeStop(opt, s.payload)
    ensures GateOpen(ProcessInner(opt, st, [s.payload]).gate)
    ensures SwitchedInner(opt, st, [s.payload]) ==
            if st.flags.gtidFiltering then [] else InTime(opt, [s.begin] + s.body + [s.commit])
  {
    hide TxnEvent, BodyEvent, BeginEvent, CommitEvent, InTime;
    var inner := [s.begin] + s.body + [s.commit];
    ShapeIsTxn(opt, s);
    var r := Reached(opt, st.gate, st.flags.gtidFiltering, s.payload, true);
    var st1 := Entered(opt, st, s.payload, r);
    ProcessKeepsGate(opt, st, s.payload, true);
    assert ProcessInner(opt, st, [s.payload]) == Process(opt, st, s.payload, true);
    assert SwitchedInner(opt, st, [s.payload]) == Switched(opt, st, s.payload, true);
    if !st.flags.gtidFiltering {
      assert st1.gate == st.gate;
      AllThrough(opt, st1, inner);
    }
  }

  /** What of an item gets to the switch. */
  lemma ItemThrough(opt: Options, st: State, item: Item)
    requires GateOpen(st.gate) && opt.filterServerId == 0 && !opt.skipGtids && WellFormed(opt, item)
    requires AllBeforeStop(opt, ItemEvents(item))
    ensures SwitchedInner(opt, st, ItemEvents(item)) == ItemHistory(opt, item)
    ensures GateOpen(ProcessInner(opt, st, ItemEvents(item)).gate)
  {
    hide Process, Switched, TxnEvent, CommitEvent, InTime, Unfilterable, ShapeEvents;
    match item {
      case Between(e) =>
        assert e in ItemEvents(item);
        OneThrough(opt, st, e);
        assert SwitchedInner(opt, st, [e]) == Switched(opt, st, e, true);
        assert ProcessInner(opt, st, [e]) == Process(opt, st, e, true);
      case Txn(gtid, s) =>
        var all := ItemEvents(item);
        assert gtid in all && (forall e <- ShapeEvents(s) :: e in all) && all[0] == gtid && all[1..] == ShapeEvents(s);
        OneThrough(opt, st, gtid);
        ShapeThrough(opt, Process(opt, st, gtid, true), s);
    }
  }

  lemma ShapeThrough(opt: Options, st: State, s: Shape)
    requires GateOpen(st.gate) && opt.filterServerId == 0 && WellFormedShape(opt, s)
    requires AllBeforeStop(opt, ShapeEvents(s))
    ensures GateOpen(ProcessInner(opt, st, ShapeEvents(s)).gate)
    ensures SwitchedInner(opt, st, ShapeEvents(s)) ==
            if st.flags.gtidFiltering then (if s.Compressed? then [] else Unfilterable(ShapeEvents(s)))
            else if s.Compressed? then InTime(opt, [s.begin] + s.body + [s.commit]) else ShapeEvents(s)
  {
    hide Process, Switched, TxnEvent, CommitEvent, InTime, Unfilterable, WellFormedShape;
    if s.Compressed? {
      assert s.payload in ShapeEvents(s);
      PayloadThrough(opt, st, s);
    } else {
      ShapeIsTxn(opt, s);
      if st.flags.gtidFiltering {
        FewThrough(opt, st, ShapeEvents(s));
      } else {
        AllThrough(opt, st, ShapeEvents(s));
        AllInTime(opt, ShapeEvents(s));
      }
    }
  }

  lemma {:induction false} StreamThrough(opt: Options, st: State, items: seq<Item>)
    requires GateOpen(st.gate) && opt.filterServerId == 0 && !opt.skipGtids && AllWellFormed(opt, items)
    requires AllBeforeStop(opt, Events(items))
    ensures SwitchedInner(opt, st, Events(items)) == StreamHistory(opt, items)
    decreases items
  {
    hide Process, Switched, WellFormed, ItemEvents, ItemHistory;
    if items != [] {
      var first, rest := ItemEvents(items[0]), Events(items[1..]);
      assert forall e <- first :: e in first + rest;
      assert forall e <- rest :: e in first + rest;
      ItemThrough(opt, st, items[0]);
      SwitchedConcat(opt, st, first, rest);
      StreamThrough(opt, ProcessInner(opt, st, first), items[1..]);
    }
  }

  // ---------------------------------------------------------------------------
  // Dumps

  /** The events of all logs, in order. */
  function AllEvents(logs: seq<seq<Event>>): seq<Event> {
    if logs == [] then [] else logs[0] + AllEvents(logs[1..])
  }

  lemma {:induction false} EntriesHold(logs: seq<seq<Event>>, stopPosition: nat)
    ensures EventsOf(Entries(logs, stopPosition)) == AllEvents(logs)
  {
    if logs != [] {
      EntriesHold(logs[1..], stopPosition);
      var first := Tagged(logs[0], if |logs| == 1 then stopPosition else MAX_OFFSET);
      assert EventsOf(first) == logs[0];
      assert EventsOf(first + Entries(logs[1..], stopPosition)) ==
             EventsOf(first) + EventsOf(Entries(logs[1..], stopPosition));
    }
  }

  lemma {:induction false} EventsConcat(a: seq<Item>, b: seq<Item>)
    ensures Events(a + b) == Events(a) + Events(b)
  {
    hide ItemEvents;
    if a == [] {
      assert a + b == b;
    } else {
      assert (a + b)[0] == a[0] && (a + b)[1..] == a[1..] + b;
      EventsConcat(a[1..], b);
    }
  }

  /** The state after the first `j` items of a stream, if the run gets past them. */
  lemma ItemsRun(opt: Options, st: State, es: seq<Entry>, items: seq<Item>, j: nat)
    requires Ready(st) && opt.filterServerId == 0 && !opt.skipGtids && AllWellFormed(opt, items) && j <= |items|
    requires EventsOf(es) == Events(items)
    requires var r, n := RunEntries(opt, st, es), |Events(items[..j])|; n < r.taken || (n == |es| && r.status == OkContinue)
    ensures var n := |Events(items[..j])|;
            && n <= |es|
            && RunEntries(opt, st, es[..n]).status == OkContinue
            && var b := RunEntries(opt, st, es[..n]).state;
               && b == Before(opt, st, es, n) && Ready(b)
               && PrintedGtids(b.out) == PrintedGtids(st.out) + SelectedGtids(opt, items[..j])
               && SwitchedRun(opt, st, es[..n]) == StreamHistory(opt, items[..j])
  {
    hide PhaseAfter, PrintedGtids, Events, RunEntries, ProcessInner, SwitchedRun, SwitchedInner, WellFormed, Before;
    var mine := items[..j];
    assert items == mine + items[j..];
    EventsConcat(mine, items[j..]);
    var n := |Events(mine)|;
    RunPrefix(opt, st, es, n);
    assert EventsOf(es[..n]) == EventsOf(es)[..n] == Events(mine);
    RunIsInner(opt, st, es[..n]);
    StreamSteps(opt, st, mine);
    StreamThrough(opt, st, mine);
    SameReady(RunEntries(opt, st, es[..n]).state, ProcessInner(opt, st, Events(mine)));
  }

  lemma SameReady(a: State, b: State)
    requires Same(a, b) && Ready(b)
    ensures Ready(a) && a.out == b.out
  {
    hide PhaseAfter;
    SameIs(a, b);
    assert SetStop(a, 0).gate.offset == a.gate.offset && SetStop(a, 0).gate.startDatetime == a.gate.startDatetime;
    assert SetStop(b, 0).gate.offset == b.gate.offset && SetStop(b, 0).gate.startDatetime == b.gate.startDatetime;
  }

  /** Main result on streams, wherever the logs break and wherever the dump is stopped:
      behind every transaction that is passed, the printed GTIDs are those selected so
      far, in order, each followed by exactly one group end, and the output so far is
      the reading of exactly the events let through. */
  lemma TransactionsBeforeStop(opt: Options, st: State, logs: seq<seq<Event>>, items: seq<Item>, j: nat)
    requires st == Fresh(0, 0, st.gate.stopPosition) && opt.filterServerId == 0 && !opt.skipGtids
    requires AllWellFormed(opt, items) && AllEvents(logs) == Events(items) && j <= |items|
    requires var r := RunEntries(opt, st, Entries(logs, st.gate.stopPosition));
             var n := |Events(items[..j])|;
             n < r.taken || (n == |Events(items)| && r.status == OkContinue)
    ensures var out := Output(opt, StreamHistory(opt, items[..j]));
            && out <= Dump(opt, st, logs).state.out
            && StreamHistory(opt, items[..j]) <= History(opt, st, logs)
            && PhaseAfter(out) == Idle && PrintedGtids(out) == SelectedGtids(opt, items[..j])
  {
    hide PhaseAfter, PrintedGtids, Events, RunEntries, SwitchedRun, WellFormed, Before, Entries, Output, CommitDue,
      StreamHistory, SelectedGtids, Dump, GroupOpen, GtidOpen, SeenReads, Pending;
    var es := Entries(logs, st.gate.stopPosition);
    EntriesHold(logs, st.gate.stopPosition);
    FreshReady(st);
    ItemsRun(opt, st, es, items, j);
    var n := |Events(items[..j])|;
    var b, h := RunEntries(opt, st, es[..n]).state, StreamHistory(opt, items[..j]);
    FreshReads(opt, st);
    RunReads(opt, st, es[..n], []);
    assert [] + h == h;
    assert [] + SelectedGtids(opt, items[..j]) == SelectedGtids(opt, items[..j]);
    HistoryGrows(opt, st, es, n);
    OutputGrows(opt, h, History(opt, st, logs));
    DumpIsReading(opt, st, logs);
  }

  lemma FreshReady(st: State)
    requires st == Fresh(0, 0, st.gate.stopPosition)
    ensures Ready(st) && PrintedGtids(st.out) == []
  {
  }

  lemma HistoryGrows(opt: Options, st: State, es: seq<Entry>, n: nat)
    requires n <= |es| && RunEntries(opt, st, es[..n]).status == OkContinue
    ensures SwitchedRun(opt, st, es[..n]) <= SwitchedRun(opt, st, es)
  {
    hide SwitchedRun, RunEntries;
    assert es == es[..n] + es[n..];
    SwitchedRunConcat(opt, st, es[..n], es[n..]);
  }

  lemma {:induction false} SwitchedRunConcat(opt: Options, st: State, a: seq<Entry>, b: seq<Entry>)
    requires RunEntries(opt, st, a).status == OkContinue
    ensures SwitchedRun(opt, st, a + b) == SwitchedRun(opt, st, a) + SwitchedRun(opt, RunEntries(opt, st, a).state, b)
    decreases a
  {
    hide Take, TakeStatus, Switched;
    if a == [] {
      assert a + b == b;
    } else {
      assert (a + b)[0] == a[0] && (a + b)[1..] == a[1..] + b;
      SwitchedRunConcat(opt, Take(opt, st, a[0]), a[1..], b);
    }
  }

  lemma {:induction false} OutputGrows(opt: Options, h: seq<Event>, g: seq<Event>)
    requires h <= g
    ensures Output(opt, h) <= Output(opt, g)
    decreases |g|
  {
    hide Adds;
    if h != g {
      OutputGrows(opt, h, g[..|g| - 1]);
    }
  }

  /** Main result: a dump that is not stopped prints exactly the selected GTIDs, in
      order, each followed by exactly one group end before the next; its output is the
      reading of the events let through, and the reset of GTID_NEXT. */
  lemma TransactionsStayWhole(opt: Options, st: State, logs: seq<seq<Event>>, items: seq<Item>)
    requires st == Fresh(0, 0, st.gate.stopPosition) && opt.filterServerId == 0 && !opt.skipGtids
    requires AllWellFormed(opt, items) && AllEvents(logs) == Events(items)
    requires Dump(opt, st, logs).status == OkContinue
    ensures var d := Dump(opt, st, logs).state.out;
            && d == Output(opt, StreamHistory(opt, items)) + [GtidAutomatic]
            && PhaseAfter(d) == Idle && PrintedGtids(d) == SelectedGtids(opt, items)
  {
    hide PhaseAfter, PrintedGtids, Events, RunEntries, SwitchedRun, WellFormed, Before, Entries, Output, Dump,
      StreamHistory, SelectedGtids;
    var es := Entries(logs, st.gate.stopPosition);
    EntriesHold(logs, st.gate.stopPosition);
    DumpIsOneRun(opt, st, logs);
    FreshReady(st);
    assert items[..|items|] == items && es[..|es|] == es;
    ItemsRun(opt, st, es, items, |items|);
    var b, h := RunEntries(opt, st, es).state, StreamHistory(opt, items);
    OutOfFresh(opt, st, es);
    SameIs(Dump(opt, st, logs).state, Finish(opt, b));
    assert Finish(opt, b).out == b.out + [GtidAutomatic] by { assert b.out + [] == b.out; }
    PhaseAppend(b.out, GtidAutomatic);
    GtidsAppend(b.out, GtidAutomatic);
    assert [] + SelectedGtids(opt, items) == SelectedGtids(opt, items);
  }

  lemma OutOfFresh(opt: Options, st: State, es: seq<Entry>)
    requires st == Fresh(0, 0, st.gate.stopPosition)
    ensures RunEntries(opt, st, es).state.out == Output(opt, SwitchedRun(opt, st, es))
  {
    hide RunEntries, SwitchedRun, Output, FlagsRead, SeenReads, Pending;
    FreshReads(opt, st);
    RunReads(opt, st, es, []);
    assert [] + SwitchedRun(opt, st, es) == SwitchedRun(opt, st, es);
  }
}
