/** Which events of a dump are printed at all: from the first one at or after the
    offset and the start time, to the first one at or past a stop bound. */
module BinlogRange {
  import opened BinlogEvents
  import opened BinlogPrinter
  import opened BinlogRuns

  /** Event `j` of a run entered with gate `g` satisfies both start bounds. */
  predicate Opens(g: Gate, es: seq<Entry>, j: nat)
    requires j < |es|
  {
    !es[j].event.body.FormatDescription? && g.count + j >= g.offset && es[j].event.when >= g.startDatetime
  }

  predicate OpenedBy(g: Gate, es: seq<Entry>, i: nat)
    requires i <= |es|
  {
    exists j: nat :: j < i && Opens(g, es, j)
  }

  /** `--server-id` lets the event through: it is of that server, or belongs to the log. */
  predicate OfServer(opt: Options, e: Event) {
    opt.filterServerId == 0 || e.serverId == opt.filterServerId || e.body.FormatDescription? || e.body.Rotate?
  }

  /** Event `i` gets to the stop checks and is at or past one of the bounds. */
  predicate StopsAt(opt: Options, g: Gate, es: seq<Entry>, i: nat)
    requires i < |es|
  {
    var e := es[i].event;
    && (e.body.FormatDescription? || OpenedBy(g, es, i + 1))
    && OfServer(opt, e)
    && (e.pos >= es[i].limit || e.when >= opt.stopDatetime)
  }

  lemma ProcessGate(opt: Options, st: State, e: Event)
    ensures var g := Process(opt, st, e, false).gate;
            && g.stopPosition == st.gate.stopPosition
            && if e.body.FormatDescription? || !PassesGate(st.gate, e) then g == Bump(st.gate)
               else g.offset == 0 && g.startDatetime == 0
  {
    hide Dispatch, FilteringAfter;
    ProcessKeepsGate(opt, st, e, false);
    var r := Reached(opt, st.gate, st.flags.gtidFiltering, e, false);
    var st1 := Entered(opt, st, e, r);
    if r.Switch? {
      if e.body.Payload? {
        InnerKeepsGate(opt, st1, e.body.inner);
      } else {
        DispatchKeepsGate(opt, st1, e);
      }
    }
  }

  /** The gate is as at the start, counted on, until an event opens it for good. */
  lemma {:induction false} GateBefore(opt: Options, st: State, es: seq<Entry>, i: nat)
    requires i <= |es|
    ensures var g := Before(opt, st, es, i).gate;
            if OpenedBy(st.gate, es, i) then g.offset == 0 && g.startDatetime == 0
            else g.(stopPosition := 0) == st.gate.(stopPosition := 0, count := st.gate.count + i)
  {
    hide Process, Opens;
    if i > 0 {
      GateBefore(opt, st, es, i - 1);
      var before := SetStop(Before(opt, st, es, i - 1), es[i - 1].limit);
      ProcessGate(opt, before, es[i - 1].event);
      OpenedStep(st.gate, es, i);
      if !OpenedBy(st.gate, es, i - 1) {
        OpensNow(st.gate, before.gate, es, i - 1);
      }
    }
  }

  lemma OpensNow(g: Gate, now: Gate, es: seq<Entry>, i: nat)
    requires i < |es| && now.offset == g.offset && now.startDatetime == g.startDatetime && now.count == g.count + i
    ensures Opens(g, es, i) == (!es[i].event.body.FormatDescription? && PassesGate(now, es[i].event))
  {
  }

  lemma OpenedStep(g: Gate, es: seq<Entry>, i: nat)
    requires 0 < i <= |es|
    ensures OpenedBy(g, es, i) == (OpenedBy(g, es, i - 1) || Opens(g, es, i - 1))
  {
    hide Opens;
    if OpenedBy(g, es, i) {
      var j: nat :| j < i && Opens(g, es, j);
    }
  }

  /** The events of all logs, other than format events, that pass the start gate are
      exactly those from the first one that meets both bounds on, whatever the
      timestamps do afterwards. */
  lemma PassingIsSuffix(opt: Options, st: State, logs: seq<seq<Event>>, i: nat)
    requires var es := Entries(logs, st.gate.stopPosition); i < |es| && !es[i].event.body.FormatDescription?
    ensures var es := Entries(logs, st.gate.stopPosition);
            PassesGate(Before(opt, st, es, i).gate, es[i].event) <==> exists j: nat :: j <= i && Opens(st.gate, es, j)
  {
    hide Before, Entries, Opens;
    var es := Entries(logs, st.gate.stopPosition);
    GateBefore(opt, st, es, i);
    OpenedStep(st.gate, es, i + 1);
    if !OpenedBy(st.gate, es, i) {
      OpensNow(st.gate, Before(opt, st, es, i).gate, es, i);
    }
  }

  /** The stop position holds for the events of the last log only. */
  lemma {:induction false} LimitOfLast(logs: seq<seq<Event>>, stopPosition: nat, i: nat)
    requires logs != [] && i < |Entries(logs, stopPosition)|
    ensures |Entries(logs, stopPosition)| >= |logs[|logs| - 1]|
    ensures Entries(logs, stopPosition)[i].limit ==
            if i < |Entries(logs, stopPosition)| - |logs[|logs| - 1]| then 0xFFFF_FFFF_FFFF_FFFF else stopPosition
    decreases |logs|
  {
    if |logs| == 1 {
      assert Entries(logs[1..], stopPosition) == [];
    } else {
      var first, rest := Tagged(logs[0], MAX_OFFSET), Entries(logs[1..], stopPosition);
      assert Entries(logs, stopPosition) == first + rest;
      assert logs[1..][|logs[1..]| - 1] == logs[|logs| - 1];
      if i >= |first| {
        LimitOfLast(logs[1..], stopPosition, i - |first|);
      } else {
        EntriesCover(logs[1..], stopPosition);
      }
    }
  }

  lemma {:induction false} EntriesCover(logs: seq<seq<Event>>, stopPosition: nat)
    requires logs != []
    ensures |Entries(logs, stopPosition)| >= |logs[|logs| - 1]|
    decreases |logs|
  {
    if |logs| > 1 {
      EntriesCover(logs[1..], stopPosition);
      assert logs[1..][|logs[1..]| - 1] == logs[|logs| - 1];
    }
  }

  /** Main result: a dump ends with OK_STOP at the first event of any log that reaches
      the stop checks at or past a bound, and at no other; events of another server
      never do. */
  lemma RunStopsFirst(opt: Options, st: State, logs: seq<seq<Event>>)
    ensures var es := Entries(logs, st.gate.stopPosition);
            var r := RunEntries(opt, st, es);
            && Dump(opt, st, logs).status == r.status
            && r.taken <= |es|
            && (r.status == OkContinue ==> r.taken == |es|)
            && forall i: nat :: i < r.taken ==>
                 (StopsAt(opt, st.gate, es, i) <==> r.status == OkStop && i == r.taken - 1)
  {
    hide Dump, Entries, StopsAt, RunEntries;
    var es := Entries(logs, st.gate.stopPosition);
    DumpIsOneRun(opt, st, logs);
    RunTakesAll(opt, st, es);
    var r := RunEntries(opt, st, es);
    forall i: nat | i < r.taken
      ensures StopsAt(opt, st.gate, es, i) <==> r.status == OkStop && i == r.taken - 1
    {
      hide Before, Process, Opens, OpenedBy, ProcessStatus;
      RunVisits(opt, st, es, i);
      GateBefore(opt, st, es, i);
      OpenedStep(st.gate, es, i + 1);
      StopStatus(opt, Before(opt, st, es, i), st.gate, es, i);
    }
  }

  lemma StopStatus(opt: Options, before: State, g: Gate, es: seq<Entry>, i: nat)
    requires i < |es|
    requires if OpenedBy(g, es, i) then before.gate.offset == 0 && before.gate.startDatetime == 0
             else before.gate.(stopPosition := 0) == g.(stopPosition := 0, count := g.count + i)
    requires OpenedBy(g, es, i + 1) == (OpenedBy(g, es, i) || Opens(g, es, i))
    ensures TakeStatus(opt, before, es[i]) == OkStop <==> StopsAt(opt, g, es, i)
  {
    hide OpenedBy, GtidFiltered;
  }
}
