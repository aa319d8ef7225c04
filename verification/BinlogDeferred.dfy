/** Intvar, Rand and User_var events are held back for the query they belong to. */
module BinlogDeferred {
  import opened BinlogEvents
  import opened BinlogPrinter
  import opened BinlogRuns

  /** The events of a call that get to the switch, payloads opened up. */
  function Switched(opt: Options, st: State, e: Event, skipPosCheck: bool): seq<Event>
    decreases e, 0
  {
    var r := Reached(opt, st.gate, st.flags.gtidFiltering, e, skipPosCheck);
    if !r.Switch? then []
    else if e.body.Payload? then SwitchedInner(opt, Entered(opt, st, e, r), e.body.inner)
    else [e]
  }

  function SwitchedInner(opt: Options, st: State, es: seq<Event>): seq<Event>
    decreases es
  {
    if es == [] then []
    else Switched(opt, st, es[0], true) + SwitchedInner(opt, Process(opt, st, es[0], true), es[1..])
  }

  /** The events of a run that get to the switch. */
  function SwitchedRun(opt: Options, st: State, es: seq<Entry>): seq<Event>
    decreases es
  {
    if es == [] then []
    else
      Switched(opt, SetStop(st, es[0].limit), es[0].event, false) +
      if TakeStatus(opt, st, es[0]) != OkContinue then []
      else SwitchedRun(opt, Take(opt, st, es[0]), es[1..])
  }

  /** The deferred events among `es`, in order. */
  function DeferredOf(es: seq<Event>): seq<Event> {
    if es == [] then []
    else DeferredOf(es[..|es| - 1]) + if IsDeferred(es[|es| - 1].body) then [es[|es| - 1]] else []
  }

  /** The deferred events after the last query of `es`, `before` coming first. */
  function Pending(before: seq<Event>, es: seq<Event>): seq<Event> {
    if es == [] then before
    else
      var last := es[|es| - 1];
      if last.body.Query? then []
      else Pending(before, es[..|es| - 1]) + if IsDeferred(last.body) then [last] else []
  }

  /** What must be printed of the queries and deferred events among `es`: each
      query that is not skipped, directly after the deferred events since the
      query before it. */
  function Expected(opt: Options, before: seq<Event>, es: seq<Event>): seq<Token> {
    if es == [] then []
    else
      var init := es[..|es| - 1];
      var last := es[|es| - 1];
      Expected(opt, before, init) +
      if last.body.Query? && !QuerySkips(opt, last.body.db, last.body.text)
      then AsTokens(Pending(before, init)) + [Printed(last)] else []
  }

  predicate OfStatement(t: Token) {
    t.Printed? && (t.event.body.Query? || IsDeferred(t.event.body))
  }

  /** The queries and deferred events in the output. */
  function StatementView(out: seq<Token>): seq<Token> {
    if out == [] then []
    else StatementView(out[..|out| - 1]) + if OfStatement(out[|out| - 1]) then [out[|out| - 1]] else []
  }

  /** A printed deferred event is directly followed by another one or by a query. */
  predicate Adjacent(out: seq<Token>) {
    forall i :: 0 <= i < |out| && out[i].Printed? && IsDeferred(out[i].event.body) ==>
      i + 1 < |out| && OfStatement(out[i + 1])
  }

  ghost predicate Books(opt: Options, st: State, st': State, trace: seq<Event>) {
    && st'.buffer.waiting == Pending(st.buffer.waiting, trace)
    && st'.buffer.released + st'.buffer.waiting == st.buffer.released + st.buffer.waiting + DeferredOf(trace)
    && StatementView(st'.out) == StatementView(st.out) + Expected(opt, st.buffer.waiting, trace)
    && (Adjacent(st.out) ==> Adjacent(st'.out))
    && AllDeferred(st'.buffer.waiting)
  }

  predicate AllDeferred(es: seq<Event>) {
    forall e <- es :: IsDeferred(e.body)
  }

  lemma ViewAppend(out: seq<Token>, t: Token)
    ensures StatementView(out + [t]) == StatementView(out) + if OfStatement(t) then [t] else []
  {
    assert (out + [t])[..|out|] == out;
  }

  lemma {:induction false} ViewTokens(out: seq<Token>, es: seq<Event>)
    requires AllDeferred(es)
    ensures StatementView(out + AsTokens(es)) == StatementView(out) + AsTokens(es)
  {
    hide StatementView, AsTokens;
    TokensSnoc(out, es);
    TokensSnoc(StatementView(out), es);
    if es != [] {
      var k := |es| - 1;
      ViewTokens(out, es[..k]);
      ViewAppend(out + AsTokens(es[..k]), Printed(es[k]));
    }
  }

  lemma {:induction false} ConcatTraces(opt: Options, w: seq<Event>, a: seq<Event>, b: seq<Event>)
    ensures DeferredOf(a + b) == DeferredOf(a) + DeferredOf(b)
    ensures Pending(w, a + b) == Pending(Pending(w, a), b)
    ensures Expected(opt, w, a + b) == Expected(opt, w, a) + Expected(opt, Pending(w, a), b)
  {
    hide QuerySkips, AsTokens;
    if b == [] {
      assert a + b == a;
    } else {
      var k := |b| - 1;
      assert (a + b)[..|a + b| - 1] == a + b[..k] && (a + b)[|a + b| - 1] == b[k];
      ConcatTraces(opt, w, a, b[..k]);
    }
  }

  lemma BooksCompose(opt: Options, s0: State, s1: State, s2: State, a: seq<Event>, b: seq<Event>)
    requires Books(opt, s0, s1, a) && Books(opt, s1, s2, b)
    ensures Books(opt, s0, s2, a + b)
  {
    ConcatTraces(opt, s0.buffer.waiting, a, b);
    hide DeferredOf, Pending, Expected, StatementView, Adjacent;
  }

  lemma AdjacentAppend(out: seq<Token>, t: Token)
    requires !(t.Printed? && IsDeferred(t.event.body))
    ensures Adjacent(out) ==> Adjacent(out + [t])
  {
  }

  lemma AdjacentQuery(out: seq<Token>, es: seq<Event>, q: Event)
    requires Adjacent(out) && AllDeferred(es) && q.body.Query?
    ensures Adjacent(out + AsTokens(es) + [Printed(q)])
  {
  }

  /** The reference functions on a single event. */
  lemma OneEvent(opt: Options, w: seq<Event>, e: Event)
    ensures DeferredOf([e]) == if IsDeferred(e.body) then [e] else []
    ensures Pending(w, [e]) == if e.body.Query? then [] else w + DeferredOf([e])
    ensures Expected(opt, w, [e]) ==
              if e.body.Query? && !QuerySkips(opt, e.body.db, e.body.text) then AsTokens(w) + [Printed(e)] else []
  {
    hide QuerySkips, AsTokens, IsDeferred;
    assert [e][..0] == [] && [e][0] == e;
    NoEvents(opt, w);
  }

  lemma NoEvents(opt: Options, w: seq<Event>)
    ensures DeferredOf([]) == [] && Pending(w, []) == w && Expected(opt, w, []) == []
  {
  }

  lemma QueryBooks(opt: Options, st: State, e: Event)
    requires e.body.Query? && AllDeferred(st.buffer.waiting)
    ensures Books(opt, st, ProcessQuery(opt, st, e), [e])
  {
    hide StatementView, Pending, Expected, DeferredOf, QuerySkips, StartsGroup, EndsGroup, Adjacent, AsTokens;
    var w := st.buffer.waiting;
    OneEvent(opt, w, e);
    var skips := QuerySkips(opt, e.body.db, e.body.text);
    var out' := ProcessQuery(opt, st, e).out;
    if skips {
      ViewAppend(st.out, AddedCommit);
      AdjacentAppend(st.out, AddedCommit);
      assert out' == st.out || out' == st.out + [AddedCommit];
    } else {
      ViewTokens(st.out, w);
      ViewAppend(st.out + AsTokens(w), Printed(e));
      if Adjacent(st.out) {
        AdjacentQuery(st.out, w, e);
      }
      assert out' == st.out + AsTokens(w) + [Printed(e)];
    }
  }

  lemma DispatchBooks(opt: Options, st: State, e: Event)
    requires !e.body.Payload? && AllDeferred(st.buffer.waiting)
    ensures Books(opt, st, Dispatch(opt, st, e), [e])
  {
    hide StatementView, Pending, Expected, DeferredOf, Dispatch, Adjacent;
    if e.body.Query? {
      QueryBooks(opt, st, e);
      assert Dispatch(opt, st, e) == ProcessQuery(opt, st, e) by { QueryDispatch(opt, st, e); }
    } else {
      OneEvent(opt, st.buffer.waiting, e);
      DispatchQuiet(opt, st, e);
    }
  }

  lemma QueryDispatch(opt: Options, st: State, e: Event)
    requires e.body.Query?
    ensures Dispatch(opt, st, e) == ProcessQuery(opt, st, e)
  {
    hide ProcessQuery;
  }

  /** Apart from queries, the switch prints no query and no deferred event. */
  lemma DispatchQuiet(opt: Options, st: State, e: Event)
    requires !e.body.Payload? && !e.body.Query? && AllDeferred(st.buffer.waiting)
    ensures var st' := Dispatch(opt, st, e);
            && StatementView(st'.out) == StatementView(st.out)
            && (Adjacent(st.out) ==> Adjacent(st'.out))
            && st'.buffer.released == st.buffer.released
            && st'.buffer.waiting == st.buffer.waiting + if IsDeferred(e.body) then [e] else []
  {
    hide StatementView, ProcessFormatDescription, Adjacent, RowsNeedFd, SkipsDatabase;
    if !IsDeferred(e.body) {
      AdjacentAppend(st.out, Printed(e));
      AdjacentAppend(st.out, AddedCommit);
      AdjacentAppend(st.out + [AddedCommit], Printed(e));
    }
    assert st.buffer.waiting + [] == st.buffer.waiting;
    ViewAppend(st.out, Printed(e));
    ViewAppend(st.out, AddedCommit);
    ViewAppend(st.out + [AddedCommit], Printed(e));
    if e.body.FormatDescription? {
      FormatDescriptionQuiet(opt, st, e);
    }
  }

  lemma FormatDescriptionQuiet(opt: Options, st: State, e: Event)
    requires e.body.FormatDescription?
    ensures var st' := ProcessFormatDescription(opt, st, e);
            && StatementView(st'.out) == StatementView(st.out)
            && (Adjacent(st.out) ==> Adjacent(st'.out))
            && st'.buffer == st.buffer
  {
    hide StatementView, Adjacent;
    EndBinlogQuiet(opt, st);
    AdjacentAppend(st.out, Printed(e));
    AdjacentAppend(EndBinlog(opt, st).out, Printed(e));
    ViewAppend(st.out, Printed(e));
    ViewAppend(EndBinlog(opt, st).out, Printed(e));
  }

  lemma EndBinlogQuiet(opt: Options, st: State)
    ensures StatementView(EndBinlog(opt, st).out) == StatementView(st.out)
    ensures Adjacent(st.out) ==> Adjacent(EndBinlog(opt, st).out)
  {
    hide StatementView;
    var s := st.out;
    ViewAppend(s, AddedRollback);
    ViewAppend(s, AddedBegin);
    ViewAppend(s + [AddedBegin], AddedRollback);
    assert s + [AddedBegin] + [AddedRollback] == s + [AddedBegin, AddedRollback];
    var closing :=
      if st.flags.inTransaction then [AddedRollback]
      else if st.flags.seenGtid && !opt.skipGtids then [AddedBegin, AddedRollback]
      else [];
    assert s + [] == s;
    ViewAppend(s + closing, GtidAutomatic);
    assert s + closing + [] == s + closing;
  }

  lemma NoTrace(opt: Options, st: State, st': State)
    requires AllDeferred(st.buffer.waiting) && st'.buffer == st.buffer && st'.out == st.out
    ensures Books(opt, st, st', [])
  {
  }

  lemma BooksGate(opt: Options, st: State, a: State, b: State, trace: seq<Event>)
    requires Books(opt, st, a, trace) && b.buffer == a.buffer && b.out == a.out
    ensures Books(opt, st, b, trace)
  {
  }

  lemma ProcessBooks(opt: Options, st: State, e: Event, skipPosCheck: bool)
    requires AllDeferred(st.buffer.waiting)
    ensures Books(opt, st, Process(opt, st, e, skipPosCheck), Switched(opt, st, e, skipPosCheck))
    decreases e, 0
  {
    hide Dispatch, Books, FilteringAfter, AllDeferred;
    var r := Reached(opt, st.gate, st.flags.gtidFiltering, e, skipPosCheck);
    var st1 := Entered(opt, st, e, r);
    assert st1.buffer == st.buffer && st1.out == st.out;
    var st' := Process(opt, st, e, skipPosCheck);
    if !r.Switch? {
      NoTrace(opt, st, st');
    } else {
      NoTrace(opt, st, st1);
      var trace := Switched(opt, st, e, skipPosCheck);
      var st2 := if e.body.Payload? then ProcessInner(opt, st1, e.body.inner) else Dispatch(opt, st1, e);
      if e.body.Payload? {
        InnerBooks(opt, st1, e.body.inner);
      } else {
        DispatchBooks(opt, st1, e);
      }
      BooksCompose(opt, st, st1, st2, [], trace);
      assert [] + trace == trace;
      BooksGate(opt, st, st2, st', trace);
    }
  }

  lemma InnerBooks(opt: Options, st: State, es: seq<Event>)
    requires AllDeferred(st.buffer.waiting)
    ensures Books(opt, st, ProcessInner(opt, st, es), SwitchedInner(opt, st, es))
    decreases es
  {
    if es == [] {
      NoTrace(opt, st, st);
    } else {
      var st1 := Process(opt, st, es[0], true);
      ProcessBooks(opt, st, es[0], true);
      InnerBooks(opt, st1, es[1..]);
      hide Books, Process, Switched;
      BooksCompose(opt, st, st1, ProcessInner(opt, st, es), Switched(opt, st, es[0], true),
                   SwitchedInner(opt, st1, es[1..]));
    }
  }

  lemma {:induction false} RunBooks(opt: Options, st: State, es: seq<Entry>)
    requires AllDeferred(st.buffer.waiting)
    ensures Books(opt, st, RunEntries(opt, st, es).state, SwitchedRun(opt, st, es))
    decreases es
  {
    if es == [] {
      NoTrace(opt, st, st);
    } else {
      TakeBooks(opt, st, es[0]);
      hide Books, Process, Switched, ProcessStatus;
      var st1 := Take(opt, st, es[0]);
      var t := Switched(opt, SetStop(st, es[0].limit), es[0].event, false);
      if TakeStatus(opt, st, es[0]) != OkContinue {
        assert t + [] == t;
      } else {
        BooksDeferred(opt, st, st1, t);
        RunBooks(opt, st1, es[1..]);
        BooksCompose(opt, st, st1, RunEntries(opt, st1, es[1..]).state, t, SwitchedRun(opt, st1, es[1..]));
      }
    }
  }

  lemma BooksDeferred(opt: Options, st: State, st': State, trace: seq<Event>)
    requires Books(opt, st, st', trace)
    ensures AllDeferred(st'.buffer.waiting)
  {
  }

  lemma TakeBooks(opt: Options, st: State, e: Entry)
    requires AllDeferred(st.buffer.waiting)
    ensures Books(opt, st, Take(opt, st, e), Switched(opt, SetStop(st, e.limit), e.event, false))
  {
    hide Process, Switched, Pending, Expected, DeferredOf, StatementView, Adjacent;
    ProcessBooks(opt, SetStop(st, e.limit), e.event, false);
  }

  lemma FinishQuiet(opt: Options, st: State)
    ensures var f := Finish(opt, st);
            f.buffer == st.buffer && StatementView(f.out) == StatementView(st.out) && (Adjacent(st.out) ==> Adjacent(f.out))
  {
    hide StatementView, Adjacent;
    var st1 := if st.flags.skippedEvent then st.(out := st.out + [AddedCommit]) else st;
    ViewAppend(st.out, AddedCommit);
    AdjacentAppend(st.out, AddedCommit);
    EndBinlogQuiet(opt, st1);
  }

  /** Main result: of a whole dump, the queries and deferred events printed are exactly
      the expected ones, each deferred event directly in front of its query; and after
      `cleanup` each one that was buffered was released once. */
  lemma DeferredPrintedWithQuery(opt: Options, st: State, logs: seq<seq<Event>>)
    requires st == Fresh(st.gate.offset, st.gate.startDatetime, st.gate.stopPosition)
    ensures var d := Dump(opt, st, logs).state;
            var trace := SwitchedRun(opt, st, Entries(logs, st.gate.stopPosition));
            && StatementView(d.out) == Expected(opt, [], trace)
            && Adjacent(d.out)
            && d.buffer.waiting == Pending([], trace)
            && Cleanup(d).buffer == Buffer([], DeferredOf(trace))
  {
    hide Dump, RunEntries, Entries, SwitchedRun, Finish, Adjacent, Pending, Expected, DeferredOf;
    var es := Entries(logs, st.gate.stopPosition);
    RunBooks(opt, st, es);
    var r := RunEntries(opt, st, es).state;
    FinishQuiet(opt, r);
    DumpIsOneRun(opt, st, logs);
    SameIs(Dump(opt, st, logs).state, Finish(opt, r));
    NothingPrinted();
  }

  lemma NothingPrinted()
    ensures StatementView([]) == [] && Adjacent([])
  {
  }
}
