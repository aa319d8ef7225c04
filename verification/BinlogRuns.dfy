/** A dump of several logs as one run: every event is processed with the stop position
    of its log, until the first that does not continue. */
module BinlogRuns {
  import opened BinlogEvents
  import opened BinlogPrinter

  /** An event and the stop position it is processed with. */
  datatype Entry = Entry(event: Event, limit: nat)

  function Tagged(log: seq<Event>, limit: nat): seq<Entry> {
    seq(|log|, i requires 0 <= i < |log| => Entry(log[i], limit))
  }

  /** The events of all logs; `--stop-position` holds for the last log. */
  function Entries(logs: seq<seq<Event>>, stopPosition: nat): seq<Entry>
    decreases |logs|
  {
    if logs == [] then []
    else Tagged(logs[0], if |logs| == 1 then stopPosition else MAX_OFFSET) + Entries(logs[1..], stopPosition)
  }

  function EventsOf(es: seq<Entry>): seq<Event> {
    seq(|es|, i requires 0 <= i < |es| => es[i].event)
  }

  /** One event of the run. */
  function Take(opt: Options, st: State, e: Entry): State {
    Process(opt, SetStop(st, e.limit), e.event, false)
  }

  function TakeStatus(opt: Options, st: State, e: Entry): Status {
    ProcessStatus(opt, SetStop(st, e.limit), e.event, false)
  }

  function RunEntries(opt: Options, st: State, es: seq<Entry>): RunResult
    decreases es
  {
    if es == [] then RunResult(st, OkContinue, 0)
    else
      var st1 := Take(opt, st, es[0]);
      var status := TakeStatus(opt, st, es[0]);
      if status != OkContinue then RunResult(st1, status, 1)
      else
        var rest := RunEntries(opt, st1, es[1..]);
        rest.(taken := rest.taken + 1)
  }

  /** Equal but for the stop position, which nothing but the stop check reads. */
  predicate Same(a: State, b: State) {
    SetStop(a, 0) == SetStop(b, 0)
  }

  lemma SameIs(a: State, b: State)
    requires Same(a, b)
    ensures a.flags == b.flags && a.buffer == b.buffer && a.seen == b.seen && a.out == b.out
    ensures forall n: nat :: SetStop(a, n) == SetStop(b, n)
  {
    assert a.gate.(stopPosition := 0) == SetStop(a, 0).gate == SetStop(b, 0).gate == b.gate.(stopPosition := 0);
    forall n: nat
      ensures SetStop(a, n) == SetStop(b, n)
    {
      assert SetStop(SetStop(a, 0), n) == SetStop(a, n) && SetStop(SetStop(b, 0), n) == SetStop(b, n);
    }
  }

  lemma SameRun(opt: Options, a: State, b: State, es: seq<Entry>)
    requires Same(a, b)
    ensures var r, s := RunEntries(opt, a, es), RunEntries(opt, b, es);
            Same(r.state, s.state) && r.status == s.status && r.taken == s.taken
  {
    hide Process, ProcessStatus;
    SameIs(a, b);
  }

  lemma DispatchKeepsGate(opt: Options, st: State, e: Event)
    requires !e.body.Payload?
    ensures Dispatch(opt, st, e).gate == st.gate
  {
    hide EndsGroup, StartsGroup, QuerySkips;
  }

  lemma DispatchKeepsFilter(opt: Options, st: State, e: Event)
    requires !e.body.Payload?
    ensures Dispatch(opt, st, e).flags.gtidFiltering == st.flags.gtidFiltering
  {
    hide EndsGroup, StartsGroup, QuerySkips, AsTokens;
  }

  predicate GateOpen(g: Gate) {
    g.offset == 0 && g.startDatetime == 0
  }

  lemma ProcessKeepsGate(opt: Options, st: State, e: Event, skipPosCheck: bool)
    ensures var g := Process(opt, st, e, skipPosCheck).gate;
            g.stopPosition == st.gate.stopPosition && (GateOpen(st.gate) ==> GateOpen(g))
    decreases e, 0
  {
    hide Dispatch, FilteringAfter, Reached;
    var r := Reached(opt, st.gate, st.flags.gtidFiltering, e, skipPosCheck);
    var st1 := Entered(opt, st, e, r);
    if r.Switch? {
      if e.body.Payload? {
        InnerKeepsGate(opt, st1, e.body.inner);
      } else {
        DispatchKeepsGate(opt, st1, e);
      }
    }
  }

  lemma InnerKeepsGate(opt: Options, st: State, es: seq<Event>)
    ensures var g := ProcessInner(opt, st, es).gate;
            g.stopPosition == st.gate.stopPosition && (GateOpen(st.gate) ==> GateOpen(g))
    decreases es
  {
    if es != [] {
      ProcessKeepsGate(opt, st, es[0], true);
      InnerKeepsGate(opt, Process(opt, st, es[0], true), es[1..]);
    }
  }

  /** One log of a dump. */
  lemma {:induction false} LogIsRun(opt: Options, st: State, log: seq<Event>, limit: nat)
    ensures var r, s := Run(opt, SetStop(st, limit), log), RunEntries(opt, st, Tagged(log, limit));
            Same(r.state, s.state) && r.status == s.status && r.taken == s.taken
    decreases log
  {
    hide Process, ProcessStatus;
    if log != [] {
      var st0 := SetStop(st, limit);
      var st1 := Process(opt, st0, log[0], false);
      ProcessKeepsGate(opt, st0, log[0], false);
      assert SetStop(st1, limit) == st1;
      LogIsRun(opt, st1, log[1..], limit);
      assert Tagged(log, limit)[1..] == Tagged(log[1..], limit);
    }
  }

  lemma {:induction false} RunConcat(opt: Options, st: State, a: seq<Entry>, b: seq<Entry>)
    ensures var r := RunEntries(opt, st, a);
            RunEntries(opt, st, a + b) ==
            if r.status != OkContinue then r
            else
              var s := RunEntries(opt, r.state, b);
              s.(taken := r.taken + s.taken)
    decreases a
  {
    hide Take, TakeStatus;
    if a == [] {
      assert a + b == b;
    } else {
      assert (a + b)[0] == a[0] && (a + b)[1..] == a[1..] + b;
      RunConcat(opt, Take(opt, st, a[0]), a[1..], b);
    }
  }

  /** The loop over the logs is one run over all their events. */
  lemma {:induction false} LogsAreOneRun(opt: Options, st: State, logs: seq<seq<Event>>, stopPosition: nat)
    requires st.gate.stopPosition == MAX_OFFSET || |logs| == 1
    ensures var r, s := RunLogs(opt, st, logs, stopPosition), RunEntries(opt, st, Entries(logs, stopPosition));
            Same(r.state, s.state) && r.status == s.status
    decreases |logs|
  {
    hide Run, RunEntries;
    if logs == [] {
      NoEntries(opt, st);
    } else {
      var limit := if |logs| == 1 then stopPosition else MAX_OFFSET;
      assert |logs| > 1 ==> SetStop(st, limit) == st;
      var first, rest := Tagged(logs[0], limit), Entries(logs[1..], stopPosition);
      LogIsRun(opt, st, logs[0], limit);
      RunConcat(opt, st, first, rest);
      var r, s := Run(opt, SetStop(st, limit), logs[0]), RunEntries(opt, st, first);
      if r.status == OkContinue {
        RunKeepsStop(opt, SetStop(st, limit), logs[0]);
        if |logs| == 1 {
          assert rest == [];
          NoEntries(opt, s.state);
        } else {
          LogsAreOneRun(opt, r.state, logs[1..], stopPosition);
          SameRun(opt, r.state, s.state, rest);
        }
      }
    }
  }

  lemma NoEntries(opt: Options, st: State)
    ensures RunEntries(opt, st, []) == RunResult(st, OkContinue, 0)
  {
  }

  lemma {:induction false} RunKeepsStop(opt: Options, st: State, es: seq<Event>)
    ensures Run(opt, st, es).state.gate.stopPosition == st.gate.stopPosition
    decreases es
  {
    hide Process, ProcessStatus;
    if es != [] {
      ProcessKeepsGate(opt, st, es[0], false);
      RunKeepsStop(opt, Process(opt, st, es[0], false), es[1..]);
    }
  }

  /** Main result: a dump is one run over the events of all logs, and what follows it. */
  lemma DumpIsOneRun(opt: Options, st: State, logs: seq<seq<Event>>)
    ensures var r, d := RunEntries(opt, st, Entries(logs, st.gate.stopPosition)), Dump(opt, st, logs);
            Same(d.state, Finish(opt, r.state)) && d.status == r.status
  {
    hide RunEntries, RunLogs, Entries;
    var st0 := SetStop(st, MAX_OFFSET);
    LogsAreOneRun(opt, st0, logs, st.gate.stopPosition);
    SameRun(opt, st0, st, Entries(logs, st.gate.stopPosition));
    var a := RunLogs(opt, st0, logs, st.gate.stopPosition).state;
    var b := RunEntries(opt, st, Entries(logs, st.gate.stopPosition)).state;
    SameIs(a, b);
    assert SetStop(Finish(opt, a), 0) == Finish(opt, SetStop(a, 0));
    assert SetStop(Finish(opt, b), 0) == Finish(opt, SetStop(b, 0));
  }

  // ---------------------------------------------------------------------------
  // The states of a run

  /** The state before entry `i`, if the run gets there. */
  function Before(opt: Options, st: State, es: seq<Entry>, i: nat): State
    requires i <= |es|
  {
    if i == 0 then st else Take(opt, Before(opt, st, es, i - 1), es[i - 1])
  }

  lemma {:induction false} BeforeTail(opt: Options, st: State, es: seq<Entry>, i: nat)
    requires 0 < i <= |es|
    ensures Before(opt, st, es, i) == Before(opt, Take(opt, st, es[0]), es[1..], i - 1)
  {
    hide Take;
    if i > 1 {
      BeforeTail(opt, st, es, i - 1);
    } else {
      assert Before(opt, st, es, 0) == st;
    }
  }

  /** A run visits these states and returns what its last event did. */
  lemma {:induction false} RunVisits(opt: Options, st: State, es: seq<Entry>, i: nat)
    requires i < RunEntries(opt, st, es).taken
    ensures RunEntries(opt, st, es).taken <= |es|
    ensures TakeStatus(opt, Before(opt, st, es, i), es[i]) ==
            if i == RunEntries(opt, st, es).taken - 1 then RunEntries(opt, st, es).status else OkContinue
    decreases es
  {
    hide Take, TakeStatus;
    if i > 0 {
      RunVisits(opt, Take(opt, st, es[0]), es[1..], i - 1);
      BeforeTail(opt, st, es, i);
    } else if RunEntries(opt, st, es).taken > 1 {
      RunVisits(opt, Take(opt, st, es[0]), es[1..], 0);
    }
  }

  lemma {:induction false} RunTakesAll(opt: Options, st: State, es: seq<Entry>)
    ensures RunEntries(opt, st, es).taken <= |es|
    ensures RunEntries(opt, st, es).status == OkContinue ==> RunEntries(opt, st, es).taken == |es|
    ensures RunEntries(opt, st, es).status != OkContinue ==> RunEntries(opt, st, es).taken > 0
    ensures RunEntries(opt, st, es).state == Before(opt, st, es, RunEntries(opt, st, es).taken)
    decreases es
  {
    hide Take, TakeStatus;
    if es != [] {
      RunTakesAll(opt, Take(opt, st, es[0]), es[1..]);
      BeforeTail(opt, st, es, RunEntries(opt, st, es).taken);
    }
  }

  /** A run that gets past the first `i` entries did not stop in them. */
  lemma {:induction false} RunPrefix(opt: Options, st: State, es: seq<Entry>, i: nat)
    requires i < RunEntries(opt, st, es).taken || (i == |es| && RunEntries(opt, st, es).status == OkContinue)
    ensures i <= |es|
    ensures RunEntries(opt, st, es[..i]) == RunResult(Before(opt, st, es, i), OkContinue, i)
    decreases es
  {
    hide Take, TakeStatus;
    RunTakesAll(opt, st, es);
    if i > 0 {
      assert es[..i][0] == es[0] && es[..i][1..] == es[1..][..i - 1];
      RunPrefix(opt, Take(opt, st, es[0]), es[1..], i - 1);
      BeforeTail(opt, st, es, i);
    }
  }
}
