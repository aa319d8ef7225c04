/** Which events of a dump get to the switch, read off the logs alone: from the start
    and stop bounds, the server id, and the last GTID, XID or group end before them. */
module BinlogArrivals {
  import opened BinlogEvents
  import opened BinlogPrinter
  import opened BinlogRuns
  import opened BinlogDeferred
  import opened BinlogRange
  import opened BinlogHistory
  import BinlogStreams

  /** The last GTID, XID or group end among the events is an excluded GTID. */
  predicate Dropping(opt: Options, a: seq<Event>) {
    if a == [] then false
    else
      match a[|a| - 1].body
      case GtidEvent(g) => !Chosen(opt, g)
      case Xid => false
      case Query(_, text) => !EndsGroup(text) && Dropping(opt, a[..|a| - 1])
      case _ => Dropping(opt, a[..|a| - 1])
  }

  lemma DroppingSnoc(opt: Options, a: seq<Event>, e: Event)
    ensures Dropping(opt, a + [e]) == FilteringAfter(opt, Dropping(opt, a), e.body)
  {
    hide EndsGroup;
    Snoc(a, e);
  }

  lemma PassesIsFilter(opt: Options, a: seq<Event>, b: Body)
    ensures Passes(opt, a, b) == !GtidFiltered(opt, Dropping(opt, a), b)
  {
    hide Dropping;
  }

  /** The GTID filter lets the event through, after those that arrived before. */
  predicate Passes(opt: Options, a: seq<Event>, b: Body) {
    match b
    case GtidEvent(g) => Chosen(opt, g) && !opt.skipGtids
    case PreviousGtids => !opt.skipGtids
    case FormatDescription(_, _, _, _) => true
    case Rotate => true
    case Control => true
    case _ => !Dropping(opt, a)
  }

  /** The events that get to the GTID filter, and those that get through it. */
  datatype Flow = Flow(arrived: seq<Event>, through: seq<Event>)

  function Arrive(opt: Options, f: Flow, e: Event): Flow
    decreases e, 0
  {
    var f1 := f.(arrived := f.arrived + [e]);
    if !Passes(opt, f.arrived, e.body) then f1
    else if e.body.Payload? then ArriveInner(opt, f1, e.body.inner)
    else f1.(through := f.through + [e])
  }

  /** Inside a payload only the server id and the stop time are looked at. */
  function ArriveInner(opt: Options, f: Flow, es: seq<Event>): Flow
    decreases es
  {
    if es == [] then f
    else
      var f1 := if !OfServer(opt, es[0]) || es[0].when >= opt.stopDatetime then f else Arrive(opt, f, es[0]);
      ArriveInner(opt, f1, es[1..])
  }

  /** Event `i` of a run entered with gate `g` is in the range, and of the server. */
  predicate InRange(opt: Options, g: Gate, es: seq<Entry>, i: nat)
    requires i < |es|
  {
    var e := es[i].event;
    && (e.body.FormatDescription? || OpenedBy(g, es, i + 1))
    && OfServer(opt, e)
    && e.pos < es[i].limit && e.when < opt.stopDatetime
  }

  /** The flow of the first `n` events. */
  function FlowOf(opt: Options, g: Gate, es: seq<Entry>, n: nat): Flow
    requires n <= |es|
  {
    if n == 0 then Flow([], [])
    else
      var f := FlowOf(opt, g, es, n - 1);
      if InRange(opt, g, es, n - 1) then Arrive(opt, f, es[n - 1].event) else f
  }

  /** The switch fails on the event, after those that got there before. */
  predicate Fails(opt: Options, h: seq<Event>, b: Body) {
    match b
    case FormatDescription(_, _, inUse, _) => !opt.forceIfOpen && inUse
    case Rows(id, _) =>
      !Ignored(opt, h, id) && !(FormatPrinted(opt, h) || opt.shortForm || opt.base64Mode == DecodeRows)
    case _ => false
  }

  /** Event `i` ends the run: it is past a stop bound, or the switch fails on it. */
  predicate EndsRun(opt: Options, g: Gate, es: seq<Entry>, i: nat)
    requires i < |es|
  {
    var f, b := FlowOf(opt, g, es, i), es[i].event.body;
    || StopsAt(opt, g, es, i)
    || (InRange(opt, g, es, i) && Passes(opt, f.arrived, b) && Fails(opt, f.through, b))
  }

  // ---------------------------------------------------------------------------
  // One event

  ghost predicate Filters(opt: Options, st: State, f: Flow) {
    st.flags.gtidFiltering == Dropping(opt, f.arrived)
  }

  /** An event that gets to the filter. */
  lemma ArriveIsSwitched(opt: Options, st: State, e: Event, skipPosCheck: bool, f: Flow)
    requires Filters(opt, st, f)
    requires var r := Reached(opt, st.gate, st.flags.gtidFiltering, e, skipPosCheck); r.Filtered? || r.Switch?
    ensures var f' := Arrive(opt, f, e);
            && f'.through == f.through + Switched(opt, st, e, skipPosCheck)
            && Filters(opt, Process(opt, st, e, skipPosCheck), f')
    decreases e, 0
  {
    hide Dispatch, FilteringAfter, GtidFiltered, Dropping, ServerSkipped, Passes;
    PassesIsFilter(opt, f.arrived, e.body);
    var r := Reached(opt, st.gate, st.flags.gtidFiltering, e, skipPosCheck);
    var st1 := Entered(opt, st, e, r);
    DroppingSnoc(opt, f.arrived, e);
    assert f.through + [] == f.through;
    if r.Switch? {
      if e.body.Payload? {
        InnerIsSwitched(opt, st1, e.body.inner, f.(arrived := f.arrived + [e]));
      } else {
        DispatchKeepsFilter(opt, st1, e);
      }
    }
  }

  lemma InnerIsSwitched(opt: Options, st: State, es: seq<Event>, f: Flow)
    requires Filters(opt, st, f) && GateOpen(st.gate)
    ensures var f' := ArriveInner(opt, f, es);
            && f'.through == f.through + SwitchedInner(opt, st, es)
            && Filters(opt, ProcessInner(opt, st, es), f')
    decreases es
  {
    hide Dropping, Arrive, Process, GtidFiltered;
    if es == [] {
      assert f.through + [] == f.through;
    } else {
      var e, st1 := es[0], Process(opt, st, es[0], true);
      ProcessKeepsGate(opt, st, e, true);
      var f1 := if !OfServer(opt, e) || e.when >= opt.stopDatetime then f else Arrive(opt, f, e);
      if !OfServer(opt, e) || e.when >= opt.stopDatetime {
        NotReached(opt, st, e, true);
        assert f.through + [] == f.through;
      } else {
        ArriveIsSwitched(opt, st, e, true, f);
      }
      InnerIsSwitched(opt, st1, es[1..], f1);
      var a, b := Switched(opt, st, e, true), SwitchedInner(opt, st1, es[1..]);
      assert f.through + a + b == f.through + (a + b);
    }
  }

  /** An event that does not get to the filter changes none of this. */
  lemma NotReached(opt: Options, st: State, e: Event, skipPosCheck: bool)
    requires var r := Reached(opt, st.gate, st.flags.gtidFiltering, e, skipPosCheck); !r.Filtered? && !r.Switch?
    ensures Switched(opt, st, e, skipPosCheck) == []
    ensures Process(opt, st, e, skipPosCheck).flags == st.flags
  {
  }

  // ---------------------------------------------------------------------------
  // Whole runs

  /** How far event `i` gets, by the logs. */
  lemma RangeIsReached(opt: Options, st: State, es: seq<Entry>, i: nat)
    requires i < |es|
    ensures var st1 := SetStop(Before(opt, st, es, i), es[i].limit);
            var r := Reached(opt, st1.gate, st1.flags.gtidFiltering, es[i].event, false);
            && (r.Filtered? || r.Switch? <==> InRange(opt, st.gate, es, i))
            && (r.Switch? <==>
                InRange(opt, st.gate, es, i) && !GtidFiltered(opt, st1.flags.gtidFiltering, es[i].event.body))
  {
    hide Before, Opens, OpenedBy, GtidFiltered;
    GateBefore(opt, st, es, i);
    OpenedStep(st.gate, es, i + 1);
    if !OpenedBy(st.gate, es, i) {
      OpensNow(st.gate, Before(opt, st, es, i).gate, es, i);
    }
  }

  /** The flow of the events taken is what gets to the switch. */
  lemma {:induction false} FlowIsSwitched(opt: Options, st: State, es: seq<Entry>, n: nat)
    requires !st.flags.gtidFiltering && n <= RunEntries(opt, st, es).taken
    ensures n <= |es|
    ensures FlowOf(opt, st.gate, es, n).through == SwitchedRun(opt, st, es[..n])
    ensures Filters(opt, Before(opt, st, es, n), FlowOf(opt, st.gate, es, n))
  {
    hide InRange, Arrive, Process, Switched, Take, TakeStatus, SwitchedRun, RunEntries, Dropping;
    RunTakesAll(opt, st, es);
    if n == 0 {
      NothingYet(opt, st, es);
    } else {
      var i := n - 1;
      FlowIsSwitched(opt, st, es, i);
      RunPrefix(opt, st, es, i);
      RangeIsReached(opt, st, es, i);
      var before := Before(opt, st, es, i);
      var st1, f := SetStop(before, es[i].limit), FlowOf(opt, st.gate, es, i);
      assert Filters(opt, st1, f);
      if InRange(opt, st.gate, es, i) {
        ArriveIsSwitched(opt, st1, es[i].event, false, f);
      } else {
        NotReached(opt, st1, es[i].event, false);
        assert f.through + [] == f.through;
      }
      assert es[..n] == es[..i] + [es[i]];
      BinlogStreams.SwitchedRunConcat(opt, st, es[..i], [es[i]]);
      OneSwitchedRun(opt, before, es[i]);
      TakeIs(opt, before, es[i]);
    }
  }

  lemma NothingYet(opt: Options, st: State, es: seq<Entry>)
    ensures SwitchedRun(opt, st, es[..0]) == [] && !Dropping(opt, [])
  {
  }

  lemma OneSwitchedRun(opt: Options, st: State, e: Entry)
    ensures SwitchedRun(opt, st, [e]) == Switched(opt, SetStop(st, e.limit), e.event, false)
  {
    hide Switched, Take, TakeStatus;
    var a := Switched(opt, SetStop(st, e.limit), e.event, false);
    assert [e][1..] == [] && a + [] == a;
    assert SwitchedRun(opt, Take(opt, st, e), []) == [];
  }

  lemma TakeIs(opt: Options, st: State, e: Entry)
    ensures Take(opt, st, e) == Process(opt, SetStop(st, e.limit), e.event, false)
  {
  }

  /** Nothing gets there after the event that ends the run. */
  lemma TakenIsAll(opt: Options, st: State, es: seq<Entry>)
    requires RunEntries(opt, st, es).taken <= |es|
    ensures SwitchedRun(opt, st, es[..RunEntries(opt, st, es).taken]) == SwitchedRun(opt, st, es)
  {
    hide Switched, Take, TakeStatus, RunEntries, SwitchedRun;
    var n := RunEntries(opt, st, es).taken;
    RunTakesAll(opt, st, es);
    if RunEntries(opt, st, es).status == OkContinue {
      assert es[..n] == es;
    } else {
      var i := n - 1;
      var before := Before(opt, st, es, i);
      RunPrefix(opt, st, es, i);
      RunVisits(opt, st, es, i);
      assert es == es[..i] + es[i..] && es[..n] == es[..i] + [es[i]];
      BinlogStreams.SwitchedRunConcat(opt, st, es[..i], es[i..]);
      BinlogStreams.SwitchedRunConcat(opt, st, es[..i], [es[i]]);
      OneSwitchedRun(opt, before, es[i]);
      StoppedRun(opt, before, es[i..]);
    }
  }

  lemma StoppedRun(opt: Options, st: State, es: seq<Entry>)
    requires es != [] && TakeStatus(opt, st, es[0]) != OkContinue
    ensures SwitchedRun(opt, st, es) == Switched(opt, SetStop(st, es[0].limit), es[0].event, false)
  {
    hide Switched, Take, TakeStatus;
    var a := Switched(opt, SetStop(st, es[0].limit), es[0].event, false);
    assert a + [] == a;
  }

  /** An event ends the run exactly if the logs say so. */
  lemma EndsIsStatus(opt: Options, st: State, es: seq<Entry>, i: nat)
    requires st == Fresh(st.gate.offset, st.gate.startDatetime, st.gate.stopPosition)
    requires i < RunEntries(opt, st, es).taken <= |es|
    ensures EndsRun(opt, st.gate, es, i) <==> TakeStatus(opt, Before(opt, st, es, i), es[i]) != OkContinue
  {
    hide InRange, StopsAt, FlowOf, Before, RunEntries, SwitchedRun, Dropping, GtidFiltered, Fails, Process, OpenedBy,
      Opens, DispatchStatus, Reads, Reached, Passes;
    var before, f := Before(opt, st, es, i), FlowOf(opt, st.gate, es, i);
    FlowIsSwitched(opt, st, es, i);
    RunPrefix(opt, st, es, i);
    RangeIsReached(opt, st, es, i);
    GateBefore(opt, st, es, i);
    OpenedStep(st.gate, es, i + 1);
    StopStatus(opt, before, st.gate, es, i);
    FreshReads(opt, st);
    RunReads(opt, st, es[..i], []);
    assert [] + f.through == f.through;
    FailsIsStatus(opt, before, f.through, es[i].event.body);
    SwitchStatus(opt, SetStop(before, es[i].limit), es[i].event);
    PassesIsFilter(opt, f.arrived, es[i].event.body);
  }

  lemma FailsIsStatus(opt: Options, st: State, h: seq<Event>, b: Body)
    requires Reads(opt, st, h)
    ensures DispatchStatus(opt, st.seen, b) == if Fails(opt, h, b) then ErrorStop else OkContinue
  {
    hide FlagsRead, Pending, Output, HasRealFormat, Ignored, Loading;
  }

  lemma SwitchStatus(opt: Options, st: State, e: Event)
    ensures var r := Reached(opt, st.gate, st.flags.gtidFiltering, e, false);
            ProcessStatus(opt, st, e, false) ==
            if r.AtStop? then OkStop else if r.Switch? then DispatchStatus(opt, st.seen, e.body) else OkContinue
  {
    hide Reached, DispatchStatus;
  }

  /** Main result: which events of a dump get to the switch, for all logs and options.
      They are the flow of the events up to the first that ends the run. */
  lemma HistoryIsFlow(opt: Options, st: State, logs: seq<seq<Event>>) returns (n: nat)
    requires st == Fresh(st.gate.offset, st.gate.startDatetime, st.gate.stopPosition)
    ensures var es := Entries(logs, st.gate.stopPosition);
            && n <= |es|
            && History(opt, st, logs) == FlowOf(opt, st.gate, es, n).through
            && (forall i: nat :: i + 1 < n ==> !EndsRun(opt, st.gate, es, i))
            && (n < |es| ==> n > 0 && EndsRun(opt, st.gate, es, n - 1))
  {
    hide Entries, EndsRun, FlowOf, RunEntries, SwitchedRun, TakeStatus, Before;
    var es := Entries(logs, st.gate.stopPosition);
    n := RunEntries(opt, st, es).taken;
    RunTakesAll(opt, st, es);
    FlowIsSwitched(opt, st, es, n);
    TakenIsAll(opt, st, es);
    forall i: nat | i < n
      ensures EndsRun(opt, st.gate, es, i) <==> i == n - 1 && RunEntries(opt, st, es).status != OkContinue
    {
      EndsIsStatus(opt, st, es, i);
      RunVisits(opt, st, es, i);
    }
  }
}
