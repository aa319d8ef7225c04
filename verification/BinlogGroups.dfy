/** Filtering keeps transactions whole: on a well-formed stream every GTID is
    either dropped with its transaction, or printed and followed by exactly one
    group end before the next one. */
module BinlogGroups {
  import opened BinlogEvents
  import opened BinlogSession
  import opened BinlogPrinter
  import opened BinlogRuns
  import opened BinlogHistory

  datatype Shape =
    | Ddl(lead: seq<Event>, query: Event)
    | Group(begin: Event, body: seq<Event>, commit: Event)
    | Compressed(payload: Event, begin: Event, body: seq<Event>, commit: Event)

  datatype Item = Between(event: Event) | Txn(gtid: Event, shape: Shape)

  function ShapeEvents(s: Shape): seq<Event> {
    match s
    case Ddl(lead, query) => lead + [query]
    case Group(begin, body, commit) => [begin] + body + [commit]
    case Compressed(payload, _, _, _) => [payload]
  }

  function ItemEvents(item: Item): seq<Event> {
    match item
    case Between(e) => [e]
    case Txn(gtid, shape) => [gtid] + ShapeEvents(shape)
  }

  function Events(items: seq<Item>): seq<Event> {
    if items == [] then [] else ItemEvents(items[0]) + Events(items[1..])
  }

  /** The events that are printed inside a filtered transaction too. */
  predicate NeverFiltered(b: Body) {
    b.FormatDescription? || b.Rotate? || b.Control?
  }

  /** A format event inside a transaction neither ends the log nor rolls back. */
  predicate BodyEvent(b: Body) {
    match b
    case Query(_, text) => Regular(text) && EffectOf(text) == Keeps
    case FormatDescription(relay, logPos, _, startup) => relay || (logPos == 0 && !startup)
    case GtidEvent(_) => false
    case PreviousGtids => false
    case Xid => false
    case XaPrepare => false
    case Payload(_) => false
    case _ => true
  }

  predicate BeginEvent(b: Body) {
    b.Query? && Regular(b.text) && EffectOf(b.text) == Opens
  }

  predicate CommitEvent(b: Body) {
    b.Xid? || (b.Query? && Regular(b.text) && EffectOf(b.text) == Closes)
  }

  predicate BetweenEvent(b: Body) {
    NeverFiltered(b) || b.PreviousGtids?
  }

  /** Inside a payload the stop time drops single events; the group is one only if its
      begin and its end are not among them. */
  predicate WellFormedShape(opt: Options, s: Shape) {
    match s
    case Ddl(lead, query) =>
      && (forall e <- lead :: IsDeferred(e.body))
      && query.body.Query? && Regular(query.body.text) && EffectOf(query.body.text) == Keeps
    case Group(begin, body, commit) =>
      && BeginEvent(begin.body) && CommitEvent(commit.body) && forall e <- body :: BodyEvent(e.body)
    case Compressed(payload, begin, body, commit) =>
      && payload.body == Payload([begin] + body + [commit])
      && BeginEvent(begin.body) && CommitEvent(commit.body) && (forall e <- body :: BodyEvent(e.body))
      && BeforeStop(opt, begin) && BeforeStop(opt, commit)
  }

  predicate WellFormed(opt: Options, item: Item) {
    match item
    case Between(e) => BetweenEvent(e.body)
    case Txn(gtid, shape) => gtid.body.GtidEvent? && WellFormedShape(opt, shape)
  }

  predicate AllWellFormed(opt: Options, items: seq<Item>) {
    forall i :: 0 <= i < |items| ==> WellFormed(opt, items[i])
  }

  function SelectedGtid(opt: Options, item: Item): seq<Gtid>
    requires WellFormed(opt, item)
  {
    if item.Txn? && Chosen(opt, item.gtid.body.gtid) then [item.gtid.body.gtid] else []
  }

  /** The GTIDs the include and exclude sets let through. */
  function SelectedGtids(opt: Options, items: seq<Item>): seq<Gtid>
    requires AllWellFormed(opt, items)
  {
    if items == [] then [] else SelectedGtid(opt, items[0]) + SelectedGtids(opt, items[1..])
  }

  /** A position between transactions, in the flags and in the output. */
  ghost predicate Ready(st: State) {
    && st.gate.offset == 0 && st.gate.startDatetime == 0
    && !st.flags.inTransaction && !st.flags.seenGtid && !st.flags.skippedEvent
    && (forall e <- st.buffer.waiting :: IsDeferred(e.body))
    && PhaseAfter(st.out) == Idle
  }

  /** A position after a printed GTID (`p` is HasGtid) or inside its group. */
  ghost predicate Inside(st: State, p: Phase) {
    && st.gate.offset == 0 && st.gate.startDatetime == 0
    && st.flags.seenGtid && !st.flags.gtidFiltering
    && (p.HasGtid? || p.InGroup?)
    && st.flags.inTransaction == p.InGroup?
    && (forall e <- st.buffer.waiting :: IsDeferred(e.body))
    && PhaseAfter(st.out) == p
  }

  predicate BeforeStop(opt: Options, e: Event) {
    e.when < opt.stopDatetime
  }

  predicate AllBeforeStop(opt: Options, es: seq<Event>) {
    forall e <- es :: BeforeStop(opt, e)
  }

  /** `process_event` once the gate is open and no other filter applies. */
  function Open(opt: Options, st: State, e: Event): State
    requires !e.body.Payload?
  {
    var st1 := st.(flags := st.flags.(gtidFiltering := FilteringAfter(opt, st.flags.gtidFiltering, e.body)));
    if GtidFiltered(opt, st.flags.gtidFiltering, e.body) then st1 else Dispatch(opt, st1, e)
  }

  lemma ProcessOpen(opt: Options, st: State, e: Event)
    requires GateOpen(st.gate) && opt.filterServerId == 0 && !e.body.Payload?
    requires BeforeStop(opt, e)
    ensures Process(opt, st, e, true) == Open(opt, st, e).(gate := Bump(st.gate))
  {
    hide Dispatch, FilteringAfter, GtidFiltered;
    var r := Reached(opt, st.gate, st.flags.gtidFiltering, e, true);
    assert r.Filtered? || r.Switch?;
    var st1 := Entered(opt, st, e, r);
    assert st1 == st.(flags := st1.flags);
    DispatchKeepsGate(opt, st1, e);
  }

  /** In a payload, an event at or past the stop time is passed over. */
  lemma LateDropped(opt: Options, st: State, e: Event)
    requires GateOpen(st.gate) && opt.filterServerId == 0 && !BeforeStop(opt, e)
    ensures Process(opt, st, e, true) == st.(gate := Bump(st.gate))
  {
    var r := Reached(opt, st.gate, st.flags.gtidFiltering, e, true);
    assert r.AtStop?;
  }

  lemma {:induction false} PhaseDeferred(out: seq<Token>, es: seq<Event>)
    requires (forall e <- es :: IsDeferred(e.body)) && PhaseAfter(out) != Idle
    ensures PhaseAfter(out + AsTokens(es)) == PhaseAfter(out)
  {
    hide PhaseAfter, AsTokens;
    TokensSnoc(out, es);
    if es != [] {
      var k := |es| - 1;
      PhaseDeferred(out, es[..k]);
      PhaseAppend(out + AsTokens(es[..k]), Printed(es[k]));
    }
  }

  lemma {:induction false} GtidsDeferred(out: seq<Token>, es: seq<Event>)
    requires forall e <- es :: IsDeferred(e.body)
    ensures PrintedGtids(out + AsTokens(es)) == PrintedGtids(out)
  {
    hide PrintedGtids, AsTokens;
    TokensSnoc(out, es);
    if es != [] {
      var k := |es| - 1;
      GtidsDeferred(out, es[..k]);
      GtidsAppend(out + AsTokens(es[..k]), Printed(es[k]));
    }
  }

  /** A query after a printed GTID: BEGIN opens the group, COMMIT ends it, a
      statement outside a group ends it whether it is printed or skipped. */
  lemma QueryInside(opt: Options, st: State, e: Event, p: Phase)
    requires e.body.Query? && Regular(e.body.text) && Inside(st, p)
    requires EffectOf(e.body.text) == Opens ==> p.HasGtid?
    requires EffectOf(e.body.text) == Closes ==> p.InGroup?
    ensures var st', effect := ProcessQuery(opt, st, e), EffectOf(e.body.text);
            && PrintedGtids(st'.out) == PrintedGtids(st.out)
            && st'.gate == st.gate
            && if effect == Opens || (p.InGroup? && effect == Keeps)
               then Inside(st', InGroup)
               else (!st.flags.skippedEvent || effect == Closes ==> Ready(st'))
  {
    hide PhaseAfter, PrintedGtids, QuerySkips, StartsGroup, EndsGroup, IsTransKeyword, AsTokens, EffectOf, Regular;
    var text := e.body.text;
    RegularTests(text);
    var skips := QuerySkips(opt, e.body.db, text);
    MarkersPrinted(opt, e.body.db, text);
    var flushed := FlushWaiting(st, skips).out;
    PhaseDeferred(st.out, st.buffer.waiting);
    GtidsDeferred(st.out, st.buffer.waiting);
    assert PhaseAfter(flushed) == p && PrintedGtids(flushed) == PrintedGtids(st.out);
    PhaseAppend(flushed, AddedCommit);
    PhaseAppend(flushed, Printed(e));
    GtidsAppend(flushed, AddedCommit);
    GtidsAppend(flushed, Printed(e));
  }

  lemma BodyDispatch(opt: Options, st: State, e: Event)
    requires Inside(st, InGroup) && BodyEvent(e.body)
    ensures Inside(Dispatch(opt, st, e), InGroup)
    ensures PrintedGtids(Dispatch(opt, st, e).out) == PrintedGtids(st.out)
  {
    hide PhaseAfter, PrintedGtids, ProcessQuery, EndsGroup, StartsGroup, EffectOf, Regular;
    PhaseAppend(st.out, Printed(e));
    GtidsAppend(st.out, Printed(e));
    if e.body.Query? {
      QueryInside(opt, st, e, InGroup);
    }
  }

  /** Body events of a group, some of which may be too late. */
  lemma {:induction false} BodySteps(opt: Options, st: State, es: seq<Event>)
    requires Inside(st, InGroup) && (forall e <- es :: BodyEvent(e.body)) && opt.filterServerId == 0
    ensures var st' := ProcessInner(opt, st, es);
            && Inside(st', InGroup) && PrintedGtids(st'.out) == PrintedGtids(st.out)
    decreases es
  {
    hide PhaseAfter, PrintedGtids, BodyEvent, Process;
    if es != [] {
      BodyStep(opt, st, es[0]);
      BodySteps(opt, Process(opt, st, es[0], true), es[1..]);
    }
  }

  lemma BodyStep(opt: Options, st: State, e: Event)
    requires Inside(st, InGroup) && BodyEvent(e.body) && opt.filterServerId == 0
    ensures var st' := Process(opt, st, e, true);
            Inside(st', InGroup) && PrintedGtids(st'.out) == PrintedGtids(st.out)
  {
    hide PhaseAfter, PrintedGtids, Dispatch, BodyEvent, FilteringAfter, GtidFiltered, Process;
    if BeforeStop(opt, e) {
      BodyNotFiltered(opt, false, e.body);
      ProcessOpen(opt, st, e);
      assert st.(flags := st.flags.(gtidFiltering := false)) == st;
      BodyDispatch(opt, st, e);
    } else {
      LateDropped(opt, st, e);
    }
  }

  lemma BodyNotFiltered(opt: Options, filtering: bool, b: Body)
    requires BodyEvent(b)
    ensures !b.Payload? && FilteringAfter(opt, filtering, b) == filtering
    ensures GtidFiltered(opt, filtering, b) == (filtering && !NeverFiltered(b))
  {
    hide EffectOf, Regular, EndsGroup, StartsGroup;
    if b.Query? {
      RegularTests(b.text);
    }
  }

  lemma {:induction false} InnerConcat(opt: Options, st: State, a: seq<Event>, b: seq<Event>)
    ensures ProcessInner(opt, st, a + b) == ProcessInner(opt, ProcessInner(opt, st, a), b)
    decreases a
  {
    hide Process;
    if a == [] {
      assert a + b == b;
    } else {
      assert (a + b)[1..] == a[1..] + b;
      InnerConcat(opt, Process(opt, st, a[0], true), a[1..], b);
    }
  }

  /** BEGIN after a printed GTID. */
  lemma BeginStep(opt: Options, st: State, e: Event)
    requires Inside(st, HasGtid) && BeginEvent(e.body) && opt.filterServerId == 0
    requires BeforeStop(opt, e)
    ensures var st' := Process(opt, st, e, true);
            && Inside(st', InGroup) && PrintedGtids(st'.out) == PrintedGtids(st.out)
  {
    hide PhaseAfter, PrintedGtids, ProcessQuery, EndsGroup, StartsGroup, EffectOf, Regular;
    if e.body.Query? {
      RegularTests(e.body.text);
    }
    ProcessOpen(opt, st, e);
    assert st.(flags := st.flags.(gtidFiltering := false)) == st;
    QueryInside(opt, st, e, HasGtid);
  }

  /** COMMIT, ROLLBACK or an XID event at the end of a group. */
  lemma CommitStep(opt: Options, st: State, e: Event)
    requires Inside(st, InGroup) && CommitEvent(e.body) && opt.filterServerId == 0
    requires BeforeStop(opt, e)
    ensures var st' := Process(opt, st, e, true);
            && Ready(st') && PrintedGtids(st'.out) == PrintedGtids(st.out)
  {
    hide PhaseAfter, PrintedGtids, ProcessQuery, EndsGroup, StartsGroup, EffectOf, Regular;
    if e.body.Query? {
      RegularTests(e.body.text);
    }
    ProcessOpen(opt, st, e);
    assert st.(flags := st.flags.(gtidFiltering := false)) == st;
    if e.body.Query? {
      QueryInside(opt, st, e, InGroup);
    } else {
      PhaseAppend(st.out, Printed(e));
      GtidsAppend(st.out, Printed(e));
    }
  }

  /** A whole group after its printed GTID. */
  lemma GroupSteps(opt: Options, st: State, begin: Event, body: seq<Event>, commit: Event)
    requires Inside(st, HasGtid) && opt.filterServerId == 0
    requires BeginEvent(begin.body) && CommitEvent(commit.body) && forall e <- body :: BodyEvent(e.body)
    requires BeforeStop(opt, begin) && BeforeStop(opt, commit)
    ensures var st' := ProcessInner(opt, st, [begin] + body + [commit]);
            && Ready(st') && PrintedGtids(st'.out) == PrintedGtids(st.out)
  {
    hide PhaseAfter, PrintedGtids, BodyEvent, BeginEvent, CommitEvent, Process;
    var all := [begin] + body + [commit];
    BeginStep(opt, st, begin);
    var st1 := Process(opt, st, begin, true);
    BodySteps(opt, st1, body);
    var st2 := ProcessInner(opt, st1, body);
    CommitStep(opt, st2, commit);
    InnerConcat(opt, st, [begin] + body, [commit]);
    InnerConcat(opt, st, [begin], body);
    assert ProcessInner(opt, st, [begin]) == st1;
    assert ProcessInner(opt, st2, [commit]) == Process(opt, st2, commit, true);
  }

  lemma DeferredStep(opt: Options, st: State, e: Event)
    requires Inside(st, HasGtid) && IsDeferred(e.body) && opt.filterServerId == 0
    requires BeforeStop(opt, e)
    ensures var st' := Process(opt, st, e, true);
            && Inside(st', HasGtid) && st'.out == st.out && st'.flags == st.flags
  {
    hide PhaseAfter, Dispatch, Process, FilteringAfter, GtidFiltered;
    ProcessOpen(opt, st, e);
    assert st.(flags := st.flags.(gtidFiltering := false)) == st;
    DeferredDispatch(opt, st, e);
  }

  lemma DeferredDispatch(opt: Options, st: State, e: Event)
    requires IsDeferred(e.body)
    ensures !FilteringAfter(opt, false, e.body) && !GtidFiltered(opt, false, e.body)
    ensures Dispatch(opt, st, e) == st.(buffer := st.buffer.(waiting := st.buffer.waiting + [e]))
  {
  }

  /** A statement outside a group, with the events buffered for it. */
  lemma {:induction false} DdlSteps(opt: Options, st: State, lead: seq<Event>, query: Event)
    requires Inside(st, HasGtid) && !st.flags.skippedEvent && opt.filterServerId == 0
    requires forall e <- lead :: IsDeferred(e.body)
    requires query.body.Query? && Regular(query.body.text) && EffectOf(query.body.text) == Keeps
    requires AllBeforeStop(opt, lead + [query])
    ensures var st' := ProcessInner(opt, st, lead + [query]);
            && Ready(st') && PrintedGtids(st'.out) == PrintedGtids(st.out)
    decreases lead
  {
    hide PhaseAfter, PrintedGtids, ProcessQuery, EndsGroup, StartsGroup, Process, EffectOf, Regular;
    RegularTests(query.body.text);
    var all := lead + [query];
    assert query in all;
    if lead == [] {
      assert all == [query];
      ProcessOpen(opt, st, query);
      assert st.(flags := st.flags.(gtidFiltering := false)) == st;
      QueryInside(opt, st, query, HasGtid);
      assert ProcessInner(opt, st, all) == Process(opt, st, query, true);
    } else {
      assert lead[0] in all && lead[0] == all[0] && all[1..] == lead[1..] + [query];
      DeferredStep(opt, st, lead[0]);
      DdlSteps(opt, Process(opt, st, lead[0], true), lead[1..], query);
    }
  }

  /** Only events that are never filtered come out of a filtered transaction. */
  ghost predicate Quiet(st: State, before: seq<Token>) {
    && Ready(st)
    && |before| <= |st.out| && st.out[..|before|] == before
    && forall i :: |before| <= i < |st.out| ==> st.out[i].Printed? && NeverFiltered(st.out[i].event.body)
  }

  /** The events of a transaction whose GTID is filtered out. */
  lemma FilteredDispatch(opt: Options, st: State, e: Event, before: seq<Token>)
    requires Quiet(st, before) && st.flags.gtidFiltering && opt.filterServerId == 0
    requires BodyEvent(e.body) || BeginEvent(e.body) || CommitEvent(e.body)
    requires BeforeStop(opt, e)
    ensures var st' := Process(opt, st, e, true);
            && Quiet(st', before) && PrintedGtids(st'.out) == PrintedGtids(st.out)
            && st'.flags.gtidFiltering == !CommitEvent(e.body)
  {
    hide PhaseAfter, PrintedGtids, EndsGroup, StartsGroup, ProcessQuery, Dispatch, IsDeferred, EffectOf, Regular;
    if e.body.Query? {
      RegularTests(e.body.text);
    }
    ProcessOpen(opt, st, e);
    if NeverFiltered(e.body) {
      var st1 := st.(flags := st.flags.(gtidFiltering := true));
      assert st1 == st;
      PhaseAppend(st.out, Printed(e));
      GtidsAppend(st.out, Printed(e));
      NeverFilteredDispatch(opt, st, e);
    }
  }

  lemma NeverFilteredDispatch(opt: Options, st: State, e: Event)
    requires NeverFiltered(e.body)
    requires e.body.FormatDescription? ==> e.body.relay || e.body.logPos == 0
    ensures var st' := Dispatch(opt, st, e);
            st'.gate == st.gate && st'.flags == st.flags && st'.buffer == st.buffer && st'.out == st.out + [Printed(e)]
  {
  }

  /** Events of a filtered transaction, up to its group end. */
  lemma {:induction false} FilteredSteps(
    opt: Options, st: State, es: seq<Event>, before: seq<Token>)
    requires Quiet(st, before) && st.flags.gtidFiltering && opt.filterServerId == 0
    requires forall i :: 0 <= i < |es| ==>
               BodyEvent(es[i].body) || BeginEvent(es[i].body) || (i == |es| - 1 && CommitEvent(es[i].body))
    requires AllBeforeStop(opt, es)
    ensures var st' := ProcessInner(opt, st, es);
            && Quiet(st', before) && PrintedGtids(st'.out) == PrintedGtids(st.out)
    decreases es
  {
    hide PhaseAfter, PrintedGtids, Quiet, BodyEvent, BeginEvent, CommitEvent, Process;
    if es != [] {
      FilteredDispatch(opt, st, es[0], before);
      var st1 := Process(opt, st, es[0], true);
      if |es| == 1 {
        assert es[1..] == [];
      } else {
        assert !CommitEvent(es[0].body) by { NotBothKinds(es[0].body); }
        FilteredSteps(opt, st1, es[1..], before);
      }
    }
  }

  lemma NotBothKinds(b: Body)
    requires BodyEvent(b) || BeginEvent(b)
    ensures !CommitEvent(b)
  {
    hide EndsGroup, StartsGroup, EffectOf, Regular;
  }

  /** A GTID event between transactions starts a transaction or a filtered one. */
  lemma GtidStep(opt: Options, st: State, e: Event)
    requires Ready(st) && e.body.GtidEvent? && opt.filterServerId == 0 && !opt.skipGtids
    requires BeforeStop(opt, e)
    ensures var st' := Process(opt, st, e, true);
            && if !Chosen(opt, e.body.gtid)
               then Quiet(st', st.out) && st'.out == st.out && st'.flags.gtidFiltering
               else && Inside(st', HasGtid) && !st'.flags.skippedEvent
                    && st'.out == st.out + [Printed(e)]
                    && PrintedGtids(st'.out) == PrintedGtids(st.out) + [e.body.gtid]
  {
    hide PhaseAfter, PrintedGtids;
    ProcessOpen(opt, st, e);
    PhaseAppend(st.out, Printed(e));
    GtidsAppend(st.out, Printed(e));
  }

  /** The events after the GTID. */
  lemma ShapeSteps(opt: Options, st: State, s: Shape)
    requires Inside(st, HasGtid) && !st.flags.skippedEvent && opt.filterServerId == 0
    requires WellFormedShape(opt, s) && AllBeforeStop(opt, ShapeEvents(s))
    ensures var st' := ProcessInner(opt, st, ShapeEvents(s));
            && Ready(st') && PrintedGtids(st'.out) == PrintedGtids(st.out)
  {
    hide PhaseAfter, PrintedGtids, BodyEvent, BeginEvent, CommitEvent, EndsGroup, StartsGroup, EffectOf, Regular;
    match s {
      case Ddl(lead, query) => DdlSteps(opt, st, lead, query);
      case Group(begin, body, commit) =>
        assert begin in ShapeEvents(s) && commit in ShapeEvents(s);
        GroupSteps(opt, st, begin, body, commit);
      case Compressed(payload, begin, body, commit) => PayloadStep(opt, st, s);
    }
  }

  lemma PayloadStep(opt: Options, st: State, s: Shape)
    requires Inside(st, HasGtid) && opt.filterServerId == 0
    requires s.Compressed? && WellFormedShape(opt, s)
    requires BeforeStop(opt, s.payload)
    ensures var st' := ProcessInner(opt, st, [s.payload]);
            && Ready(st') && PrintedGtids(st'.out) == PrintedGtids(st.out)
  {
    hide PhaseAfter, PrintedGtids, BodyEvent, BeginEvent, CommitEvent;
    var inner := [s.begin] + s.body + [s.commit];
    var r := Reached(opt, st.gate, false, s.payload, true);
    assert r.Switch?;
    assert Entered(opt, st, s.payload, r) == st;
    GroupSteps(opt, st, s.begin, s.body, s.commit);
    var st1 := Process(opt, st, s.payload, true);
    var st2 := ProcessInner(opt, st, inner);
    assert st1 == st2.(gate := Bump(st2.gate));
    assert ProcessInner(opt, st, [s.payload]) == st1;
  }

  /** A position whose output is not inside a group. */
  ghost predicate Adrift(st: State) {
    && st.gate.offset == 0 && st.gate.startDatetime == 0 && !st.flags.gtidFiltering
    && (forall e <- st.buffer.waiting :: IsDeferred(e.body))
    && PhaseAfter(st.out) != InGroup
  }

  lemma {:induction false} DeferredAdrift(out: seq<Token>, es: seq<Event>)
    requires (forall e <- es :: IsDeferred(e.body)) && PhaseAfter(out) != InGroup
    ensures PhaseAfter(out + AsTokens(es)) != InGroup
  {
    hide PhaseAfter, AsTokens;
    TokensSnoc(out, es);
    if es != [] {
      var k := |es| - 1;
      DeferredAdrift(out, es[..k]);
      PhaseAppend(out + AsTokens(es[..k]), Printed(es[k]));
    }
  }

  /** Without its begin, nothing in the body opens the group. */
  lemma BodyAdrift(opt: Options, st: State, e: Event)
    requires Adrift(st) && BodyEvent(e.body)
    ensures Adrift(Dispatch(opt, st, e))
  {
    hide PhaseAfter, EndsGroup, StartsGroup, QuerySkips, IsTransKeyword, AsTokens, EffectOf, Regular;
    PhaseAppend(st.out, Printed(e));
    if e.body.Query? {
      var flushed := FlushWaiting(st, QuerySkips(opt, e.body.db, e.body.text)).out;
      DeferredAdrift(st.out, st.buffer.waiting);
      PhaseAppend(flushed, AddedCommit);
      PhaseAppend(flushed, Printed(e));
    }
  }

  lemma {:induction false} AdriftSteps(opt: Options, st: State, es: seq<Event>)
    requires Adrift(st) && (forall e <- es :: BodyEvent(e.body)) && opt.filterServerId == 0
    ensures Adrift(ProcessInner(opt, st, es))
    decreases es
  {
    hide PhaseAfter, BodyEvent, Process, Dispatch, FilteringAfter, GtidFiltered;
    if es != [] {
      var e := es[0];
      if BeforeStop(opt, e) {
        BodyNotFiltered(opt, false, e.body);
        ProcessOpen(opt, st, e);
        assert st.(flags := st.flags.(gtidFiltering := false)) == st;
        BodyAdrift(opt, st, e);
      } else {
        LateDropped(opt, st, e);
      }
      AdriftSteps(opt, Process(opt, st, e, true), es[1..]);
    }
  }

  /** An end without a begin. */
  lemma CommitAdrift(opt: Options, st: State, e: Event)
    requires Adrift(st) && CommitEvent(e.body) && opt.filterServerId == 0 && BeforeStop(opt, e)
    ensures PhaseAfter(Process(opt, st, e, true).out) == Broken
  {
    hide PhaseAfter, EndsGroup, StartsGroup, QuerySkips, IsTransKeyword, AsTokens, EffectOf, Regular;
    if e.body.Query? {
      RegularTests(e.body.text);
    }
    ProcessOpen(opt, st, e);
    assert st.(flags := st.flags.(gtidFiltering := false)) == st;
    PhaseAppend(st.out, Printed(e));
    if e.body.Query? {
      MarkersPrinted(opt, e.body.db, e.body.text);
      DeferredAdrift(st.out, st.buffer.waiting);
      PhaseAppend(FlushWaiting(st, false).out, Printed(e));
    }
  }

  /** The stop time inside a compressed transaction. With its begin in time it is ended
      if and only if its end is in time; otherwise it is left open, and the run goes on.
      With its begin too late, an end in time stands alone, and no group is opened. */
  lemma PayloadEnds(opt: Options, st: State, begin: Event, body: seq<Event>, commit: Event)
    requires Inside(st, HasGtid) && opt.filterServerId == 0
    requires BeginEvent(begin.body) && CommitEvent(commit.body) && forall e <- body :: BodyEvent(e.body)
    ensures var st' := ProcessInner(opt, st, [begin] + body + [commit]);
            && (BeforeStop(opt, begin) ==> (Ready(st') <==> BeforeStop(opt, commit)))
            && (BeforeStop(opt, commit) ==> (Ready(st') <==> BeforeStop(opt, begin)))
            && (BeforeStop(opt, begin) && !BeforeStop(opt, commit) ==> Inside(st', InGroup))
            && (!BeforeStop(opt, begin) ==> PhaseAfter(st'.out) != InGroup)
            && (!BeforeStop(opt, begin) && BeforeStop(opt, commit) ==> PhaseAfter(st'.out) == Broken)
  {
    hide PhaseAfter, PrintedGtids, BodyEvent, BeginEvent, CommitEvent, Process;
    var st1 := Process(opt, st, begin, true);
    var st2 := ProcessInner(opt, st1, body);
    InnerConcat(opt, st, [begin] + body, [commit]);
    InnerConcat(opt, st, [begin], body);
    assert ProcessInner(opt, st, [begin]) == st1;
    assert ProcessInner(opt, st2, [commit]) == Process(opt, st2, commit, true);
    if BeforeStop(opt, begin) {
      BeginStep(opt, st, begin);
      BodySteps(opt, st1, body);
    } else {
      LateDropped(opt, st, begin);
      AdriftSteps(opt, st1, body);
    }
    if !BeforeStop(opt, commit) {
      LateDropped(opt, st2, commit);
    } else if BeforeStop(opt, begin) {
      CommitStep(opt, st2, commit);
    } else {
      CommitAdrift(opt, st2, commit);
    }
  }

  /** The events after a filtered GTID. */
  lemma FilteredShape(opt: Options, st: State, s: Shape, before: seq<Token>)
    requires Quiet(st, before) && st.flags.gtidFiltering && opt.filterServerId == 0
    requires WellFormedShape(opt, s) && AllBeforeStop(opt, ShapeEvents(s))
    ensures var st' := ProcessInner(opt, st, ShapeEvents(s));
            && Quiet(st', before) && PrintedGtids(st'.out) == PrintedGtids(st.out)
  {
    hide PhaseAfter, PrintedGtids, EndsGroup, StartsGroup, EffectOf, Regular;
    match s {
      case Ddl(_, _) => FilteredSteps(opt, st, ShapeEvents(s), before);
      case Group(_, _, _) => FilteredSteps(opt, st, ShapeEvents(s), before);
      case Compressed(payload, _, _, _) =>
        assert payload in ShapeEvents(s);
        var r := Reached(opt, st.gate, true, payload, true);
        assert r.Filtered?;
        assert Entered(opt, st, payload, r) == st;
        assert ProcessInner(opt, st, [payload]) == st.(gate := Bump(st.gate));
    }
  }

  /** One transaction: filtered out whole, or printed and ended once. */
  lemma TxnSteps(opt: Options, st: State, gtid: Event, s: Shape)
    requires Ready(st) && opt.filterServerId == 0 && !opt.skipGtids
    requires gtid.body.GtidEvent? && WellFormedShape(opt, s)
    requires AllBeforeStop(opt, [gtid] + ShapeEvents(s))
    ensures var st' := ProcessInner(opt, st, [gtid] + ShapeEvents(s));
            && Ready(st')
            && if !Chosen(opt, gtid.body.gtid)
               then Quiet(st', st.out) && PrintedGtids(st'.out) == PrintedGtids(st.out)
               else PrintedGtids(st'.out) == PrintedGtids(st.out) + [gtid.body.gtid]
  {
    hide PhaseAfter, PrintedGtids, WellFormedShape, Chosen, Process;
    var all := [gtid] + ShapeEvents(s);
    assert gtid in all && forall e <- ShapeEvents(s) :: e in all;
    assert all[1..] == ShapeEvents(s);
    GtidStep(opt, st, gtid);
    var st1 := Process(opt, st, gtid, true);
    if !Chosen(opt, gtid.body.gtid) {
      FilteredShape(opt, st1, s, st.out);
    } else {
      ShapeSteps(opt, st1, s);
    }
  }

  /** A control event between transactions; a real format event closes the log. */
  lemma BetweenStep(opt: Options, st: State, e: Event)
    requires Ready(st) && BetweenEvent(e.body) && opt.filterServerId == 0
    requires BeforeStop(opt, e)
    ensures var st' := Process(opt, st, e, true);
            && Ready(st') && PrintedGtids(st'.out) == PrintedGtids(st.out)
  {
    hide PhaseAfter, PrintedGtids, Dispatch, Process, FilteringAfter, GtidFiltered;
    ProcessOpen(opt, st, e);
    var st1 := st.(flags := st.flags.(gtidFiltering := FilteringAfter(opt, st.flags.gtidFiltering, e.body)));
    BetweenDispatch(opt, st1, e);
    var marked := st.out + [GtidAutomatic];
    PhaseAppend(st.out, GtidAutomatic);
    GtidsAppend(st.out, GtidAutomatic);
    PhaseAppend(st.out, Printed(e));
    GtidsAppend(st.out, Printed(e));
    PhaseAppend(marked, Printed(e));
    GtidsAppend(marked, Printed(e));
  }

  lemma BetweenDispatch(opt: Options, st: State, e: Event)
    requires BetweenEvent(e.body) && !st.flags.inTransaction && !st.flags.seenGtid
    ensures var st' := Dispatch(opt, st, e);
            && st'.gate == st.gate && st'.flags == st.flags && st'.buffer == st.buffer
            && (st'.out == st.out + [Printed(e)] || st'.out == st.out + [GtidAutomatic] + [Printed(e)])
  {
    hide EndsGroup, StartsGroup, EffectOf, Regular;
    assert st.out + [] == st.out;
  }

  lemma ItemSteps(opt: Options, st: State, item: Item)
    requires Ready(st) && opt.filterServerId == 0 && !opt.skipGtids && WellFormed(opt, item)
    requires AllBeforeStop(opt, ItemEvents(item))
    ensures var st' := ProcessInner(opt, st, ItemEvents(item));
            && Ready(st')
            && PrintedGtids(st'.out) == PrintedGtids(st.out) + SelectedGtid(opt, item)
  {
    hide Ready, PrintedGtids, Process, WellFormedShape, GtidExcluded, ShapeEvents, BetweenEvent;
    match item {
      case Between(e) =>
        assert e in ItemEvents(item);
        BetweenStep(opt, st, e);
        assert ProcessInner(opt, st, [e]) == Process(opt, st, e, true);
      case Txn(gtid, s) =>
        TxnSteps(opt, st, gtid, s);
    }
  }

  /** A whole stream. */
  lemma {:induction false} StreamSteps(opt: Options, st: State, items: seq<Item>)
    requires Ready(st) && opt.filterServerId == 0 && !opt.skipGtids && AllWellFormed(opt, items)
    requires AllBeforeStop(opt, Events(items))
    ensures var st' := ProcessInner(opt, st, Events(items));
            && Ready(st')
            && PrintedGtids(st'.out) == PrintedGtids(st.out) + SelectedGtids(opt, items)
    decreases items
  {
    hide Ready, PrintedGtids, Process, WellFormed, ItemEvents, SelectedGtid;
    if items != [] {
      var first, rest := ItemEvents(items[0]), Events(items[1..]);
      assert forall e <- first :: e in first + rest;
      assert forall e <- rest :: e in first + rest;
      ItemSteps(opt, st, items[0]);
      InnerConcat(opt, st, first, rest);
      StreamSteps(opt, ProcessInner(opt, st, first), items[1..]);
    }
  }
}
