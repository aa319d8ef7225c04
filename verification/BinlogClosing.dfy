/** Safety of every run: whatever the events and the filters, the printed SQL is
    left with no open transaction and no unused GTID. */
module BinlogClosing {
  import opened BinlogEvents
  import opened BinlogSession
  import opened BinlogPrinter

  /** The flags over-approximate the printed session: an open transaction is known
      to `in_transaction`, an unused GTID to `seen_gtid`, and no GTID is printed
      under `--skip-gtids`. */
  ghost predicate Tracks(opt: Options, f: Flags, out: seq<Token>) {
    var s := SessionAfter(out);
    && (s.open ==> f.inTransaction)
    && (s.pending ==> f.seenGtid && !opt.skipGtids)
  }

  ghost predicate Inv(opt: Options, st: State) {
    && Tracks(opt, st.flags, st.out)
    && forall e <- st.buffer.waiting :: IsDeferred(e.body)
  }

  lemma {:induction false} SessionDeferred(out: seq<Token>, es: seq<Event>)
    requires forall e <- es :: IsDeferred(e.body)
    ensures SessionAfter(out + AsTokens(es)) == SessionAfter(out)
  {
    hide SessionAfter, AsTokens;
    TokensSnoc(out, es);
    if es != [] {
      var k := |es| - 1;
      SessionDeferred(out, es[..k]);
      SessionAppend(out + AsTokens(es[..k]), Printed(es[k]));
    }
  }

  /** `end_binlog` leaves the session closed. */
  lemma EndBinlogCloses(opt: Options, st: State)
    requires Tracks(opt, st.flags, st.out)
    ensures SessionAfter(EndBinlog(opt, st).out) == CLOSED
    ensures EndBinlog(opt, st).buffer == st.buffer
  {
    hide SessionAfter;
    var s := st.out;
    SessionAppend(s, AddedRollback);
    SessionAppend(s, AddedBegin);
    SessionAppend(s + [AddedBegin], AddedRollback);
    assert s + [AddedBegin] + [AddedRollback] == s + [AddedBegin, AddedRollback];
    var closing :=
      if st.flags.inTransaction then [AddedRollback]
      else if st.flags.seenGtid && !opt.skipGtids then [AddedBegin, AddedRollback]
      else [];
    assert s + [] == s;
    assert SessionAfter(s + closing) == CLOSED;
    SessionAppend(s + closing, GtidAutomatic);
    assert s + closing + [] == s + closing;
  }

  lemma QueryTracks(opt: Options, st: State, e: Event)
    requires e.body.Query? && Sound(e.body.text) && Inv(opt, st)
    ensures Inv(opt, ProcessQuery(opt, st, e))
  {
    hide SessionAfter, QuerySkips, EndsGroup, StartsGroup, EffectOf;
    var flushed := FlushWaiting(st, QuerySkips(opt, e.body.db, e.body.text)).out;
    SessionDeferred(st.out, st.buffer.waiting);
    assert SessionAfter(flushed) == SessionAfter(st.out);
    SessionAppend(flushed, AddedCommit);
    SessionAppend(flushed, Printed(e));
  }

  lemma FormatDescriptionTracks(opt: Options, st: State, e: Event)
    requires e.body.FormatDescription? && Inv(opt, st)
    ensures Inv(opt, ProcessFormatDescription(opt, st, e))
  {
    hide SessionAfter, EndBinlog;
    EndBinlogCloses(opt, st);
    SessionAppend(EndBinlog(opt, st).out, Printed(e));
    SessionAppend(st.out, Printed(e));
  }

  lemma GtidTracks(opt: Options, st: State, e: Event)
    requires e.body.GtidEvent? && !opt.skipGtids && Inv(opt, st)
    ensures Inv(opt, ProcessGtid(st, e))
  {
    hide SessionAfter;
    SessionAppend(st.out, AddedCommit);
    SessionAppend(st.out + [AddedCommit], Printed(e));
    SessionAppend(st.out, Printed(e));
  }

  lemma DispatchTracks(opt: Options, st: State, e: Event)
    requires !e.body.Payload? && SoundEvent(e) && Inv(opt, st)
    requires !(e.body.GtidEvent? && opt.skipGtids)
    ensures Inv(opt, Dispatch(opt, st, e))
  {
    hide SessionAfter, ProcessQuery, ProcessFormatDescription, ProcessGtid, EndsGroup, StartsGroup, EffectOf, Sound;
    SessionAppend(st.out, Printed(e));
    match e.body {
      case Query(_, _) => QueryTracks(opt, st, e);
      case FormatDescription(_, _, _, _) => FormatDescriptionTracks(opt, st, e);
      case GtidEvent(_) => GtidTracks(opt, st, e);
      case _ =>
    }
  }

  lemma ProcessTracks(opt: Options, st: State, e: Event, skipPosCheck: bool)
    requires Inv(opt, st) && SoundEvent(e)
    ensures Inv(opt, Process(opt, st, e, skipPosCheck))
    decreases e, 0
  {
    hide SessionAfter, Dispatch, FilteringAfter, PassesGate, PastStop, Sound;
    var r := Reached(opt, st.gate, st.flags.gtidFiltering, e, skipPosCheck);
    var st1 := Entered(opt, st, e, r);
    if r.Switch? {
      if e.body.Payload? {
        InnerTracks(opt, st1, e.body.inner);
      } else {
        DispatchTracks(opt, st1, e);
      }
    }
  }

  lemma InnerTracks(opt: Options, st: State, es: seq<Event>)
    requires Inv(opt, st) && forall e <- es :: SoundEvent(e)
    ensures Inv(opt, ProcessInner(opt, st, es))
    decreases es
  {
    hide Inv, SoundEvent;
    if es != [] {
      ProcessTracks(opt, st, es[0], true);
      InnerTracks(opt, Process(opt, st, es[0], true), es[1..]);
    }
  }

  lemma {:induction false} RunTracks(opt: Options, st: State, es: seq<Event>)
    requires Inv(opt, st) && forall e <- es :: SoundEvent(e)
    ensures Inv(opt, Run(opt, st, es).state)
    decreases es
  {
    hide Inv, SoundEvent;
    if es != [] {
      ProcessTracks(opt, st, es[0], false);
      RunTracks(opt, Process(opt, st, es[0], false), es[1..]);
    }
  }

  predicate SoundLogs(logs: seq<seq<Event>>) {
    forall log <- logs :: forall e <- log :: SoundEvent(e)
  }

  lemma {:induction false} RunLogsTracks(opt: Options, st: State, logs: seq<seq<Event>>, stopPosition: nat)
    requires Inv(opt, st) && SoundLogs(logs)
    ensures Inv(opt, RunLogs(opt, st, logs, stopPosition).state)
    decreases |logs|
  {
    hide SessionAfter, SoundEvent;
    if logs != [] {
      assert logs[0] in logs && forall log <- logs[1..] :: log in logs;
      var start := if |logs| == 1 then SetStop(st, stopPosition) else st;
      RunTracks(opt, start, logs[0]);
      RunLogsTracks(opt, Run(opt, start, logs[0]).state, logs[1..], stopPosition);
    }
  }

  /** Main result: any logs with sound statements, any options, any outcome. */
  lemma DumpLeavesNothingOpen(opt: Options, st: State, logs: seq<seq<Event>>)
    requires Inv(opt, st) && SoundLogs(logs)
    ensures SessionAfter(Dump(opt, st, logs).state.out) == CLOSED
  {
    hide SessionAfter, SoundLogs;
    RunLogsTracks(opt, SetStop(st, MAX_OFFSET), logs, st.gate.stopPosition);
    var r := RunLogs(opt, SetStop(st, MAX_OFFSET), logs, st.gate.stopPosition).state;
    SessionAppend(r.out, AddedCommit);
    EndBinlogCloses(opt, if r.flags.skippedEvent then r.(out := r.out + [AddedCommit]) else r);
  }
}
