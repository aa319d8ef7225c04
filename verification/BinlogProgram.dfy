/** The program itself: the global variables of `mysqlbinlog.cc` and the functions
    that update them, proved against BinlogPrinter. */
module BinlogProgram {
  import opened Optional
  import opened BinlogEvents
  import opened BinlogSession
  import opened BinlogPrinter
  import opened BinlogClosing

  class Mysqlbinlog {
    const opt: Options
    var gate: Gate      // offset, start_datetime, stop_position, rec_count
    var flags: Flags    // in_transaction, seen_gtid, filter_based_on_gtids, skipped_event_in_transaction
    var buffer: Buffer  // buff_ev, and what was deleted from it
    var seen: Seen
    var out: seq<Token>

    ghost function Model(): State
      reads this
    {
      State(gate, flags, buffer, seen, out)
    }

    constructor (opt: Options, offset: nat, startDatetime: nat, stopPosition: nat)
      ensures this.opt == opt && Model() == Fresh(offset, startDatetime, stopPosition) && Inv(opt, Model())
    {
      this.opt := opt;
      gate := Gate(offset, startDatetime, stopPosition, 0);
      flags := Flags(false, false, false, false);
      buffer, seen, out := Buffer([], []), Seen(true, false, {}, {}), [];
    }

    method Print(t: Token)
      modifies this`out
      ensures out == old(out) + [t]
    {
      out := out + [t];
    }

    /** `shall_skip_gtids` */
    method ShallSkipGtids(e: Event) returns (filtered: bool)
      modifies this`flags
      ensures filtered == GtidFiltered(opt, old(flags.gtidFiltering), e.body)
      ensures flags == old(flags).(gtidFiltering := FilteringAfter(opt, old(flags.gtidFiltering), e.body))
    {
      filtered := false;
      match e.body {
        case GtidEvent(g) =>
          if opt.includeGtids.Some? {
            filtered := filtered || g !in opt.includeGtids.value;
          }
          if opt.excludeGtids.Some? {
            filtered := filtered || g in opt.excludeGtids.value;
          }
          flags := flags.(gtidFiltering := filtered);
          filtered := filtered || opt.skipGtids;
        case PreviousGtids =>
          filtered := opt.skipGtids;
        case Xid =>
          filtered := flags.gtidFiltering;
          flags := flags.(gtidFiltering := false);
        case Query(_, text) =>
          filtered := flags.gtidFiltering;
          if EndsGroup(text) {
            flags := flags.(gtidFiltering := false);
          }
        case FormatDescription(_, _, _, _) =>
        case Rotate =>
        case Control =>
        case _ =>
          filtered := flags.gtidFiltering;
      }
    }

    /** `end_binlog`: whatever was left open is closed. */
    method CloseLog()
      modifies this`out, this`flags
      ensures Model() == EndBinlog(opt, old(Model()))
      ensures old(Tracks(opt, Model().flags, out)) ==> SessionAfter(out) == CLOSED
    {
      ghost var before := Model();
      if flags.inTransaction {
        Print(AddedRollback);
      } else if flags.seenGtid && !opt.skipGtids {
        Print(AddedBegin);
        Print(AddedRollback);
      }
      if !opt.skipGtids {
        Print(GtidAutomatic);
      }
      flags := flags.(seenGtid := false);
      flags := flags.(inTransaction := false);
      assert out == EndBinlog(opt, before).out;
      if Tracks(opt, before.flags, before.out) {
        EndBinlogCloses(opt, before);
      }
    }

    /** The loop over `buff_ev` in the QUERY_EVENT case. */
    method FlushBuffer(skips: bool)
      modifies this`buffer, this`out
      ensures Model() == FlushWaiting(old(Model()), skips)
    {
      ghost var waiting := buffer.waiting;
      var i := 0;
      while i < |buffer.waiting|
        invariant buffer.waiting == waiting && 0 <= i <= |waiting|
        invariant buffer.released == old(buffer.released) + waiting[..i]
        invariant out == if skips then old(out) else old(out) + AsTokens(waiting[..i])
      {
        if !skips {
          Print(Printed(buffer.waiting[i]));
          assert AsTokens(waiting[..i + 1]) == AsTokens(waiting[..i]) + [Printed(waiting[i])];
        }
        buffer := buffer.(released := buffer.released + [buffer.waiting[i]]);
        i := i + 1;
      }
      assert waiting[..i] == waiting;
      buffer := buffer.(waiting := []);
    }

    /** The QUERY_EVENT case. */
    method QueryEvent(e: Event)
      requires e.body.Query?
      modifies this
      ensures Model() == ProcessQuery(opt, old(Model()), e)
    {
      hide IsTransKeyword, StartsGroup, EndsGroup;
      var parentQuerySkips := !IsTransKeyword(e.body.text) && SkipsDatabase(opt, e.body.db);
      var endsGroup := EndsGroup(e.body.text);
      var startsGroup := StartsGroup(e.body.text);
      FlushBuffer(parentQuerySkips);
      if parentQuerySkips {
        if flags.seenGtid && !flags.inTransaction && !startsGroup && !endsGroup {
          Print(AddedCommit);
          flags := flags.(skippedEvent := false);
          flags := flags.(inTransaction := false);
          flags := flags.(seenGtid := false);
        } else {
          flags := flags.(skippedEvent := true);
        }
        return;
      }
      if endsGroup {
        flags := flags.(inTransaction := false);
        flags := flags.(skippedEvent := false);
        flags := flags.(seenGtid := false);
      } else if startsGroup {
        flags := flags.(inTransaction := true);
      } else if !flags.inTransaction {
        flags := flags.(seenGtid := false);
      }
      Print(Printed(e));
    }

    /** The FORMAT_DESCRIPTION_EVENT case. */
    method FormatDescriptionEvent(e: Event) returns (status: Status)
      requires e.body.FormatDescription?
      modifies this
      ensures Model() == ProcessFormatDescription(opt, old(Model()), e)
      ensures status == DispatchStatus(opt, old(Model()).seen, e.body)
    {
      if !e.body.relay {
        if e.body.logPos > 0 && !seen.firstFd {
          CloseLog();
        }
        seen := seen.(firstFd := false);
      }
      Print(Printed(e));
      if !e.body.relay && opt.base64Mode != Never && !opt.shortForm {
        seen := seen.(printedFd := true);
      }
      status := if !opt.forceIfOpen && e.body.inUse then ErrorStop else OkContinue;
    }

    /** The rows cases. */
    method RowsEvent(e: Event) returns (status: Status)
      requires e.body.Rows?
      modifies this
      ensures Model() == ProcessRows(opt, old(Model()), e)
      ensures status == DispatchStatus(opt, old(Model()).seen, e.body)
    {
      status := OkContinue;
      var skipEvent := e.body.rowsId in seen.ignored;
      if e.body.stmtEnd && |seen.ignored| > 0 {
        seen := seen.(ignored := {});
      }
      if skipEvent {
        flags := flags.(skippedEvent := true);
        return;
      }
      if !seen.printedFd && !opt.shortForm && opt.base64Mode != DecodeRows {
        status := ErrorStop;
        return;
      }
      Print(Printed(e));
    }

    /** The switch, for every event but a payload. */
    method Switch(e: Event) returns (status: Status)
      requires !e.body.Payload?
      modifies this
      ensures Model() == Dispatch(opt, old(Model()), e)
      ensures status == DispatchStatus(opt, old(Model()).seen, e.body)
    {
      hide ProcessQuery, ProcessFormatDescription, ProcessRows;
      status := OkContinue;
      match e.body {
        case Query(_, _) =>
          QueryEvent(e);
        case Intvar(_) =>
          buffer := buffer.(waiting := buffer.waiting + [e]);
        case Rand(_) =>
          buffer := buffer.(waiting := buffer.waiting + [e]);
        case UserVar(_) =>
          buffer := buffer.(waiting := buffer.waiting + [e]);
        case FormatDescription(_, _, _, _) =>
          status := FormatDescriptionEvent(e);
        case BeginLoad(f) =>
          Print(Printed(e));
          seen := seen.(loadFiles := seen.loadFiles + {f});
        case ExecuteLoad(f, db) =>
          var known := f in seen.loadFiles;
          seen := seen.(loadFiles := seen.loadFiles - {f});
          if SkipsDatabase(opt, db) {
            flags := flags.(skippedEvent := true);
          } else if known {
            Print(Printed(e));
          }
        case TableMap(id, db) =>
          if SkipsDatabase(opt, Some(db)) {
            flags := flags.(skippedEvent := true);
            seen := seen.(ignored := seen.ignored + {id});
          } else {
            Print(Printed(e));
          }
        case Rows(_, _) =>
          status := RowsEvent(e);
        case GtidEvent(_) =>
          flags := flags.(seenGtid := true);
          if flags.skippedEvent {
            Print(AddedCommit);
          }
          flags := flags.(skippedEvent := false);
          Print(Printed(e));
        case Xid =>
          flags := flags.(inTransaction := false);
          flags := flags.(skippedEvent := false);
          flags := flags.(seenGtid := false);
          Print(Printed(e));
        case Payload(_) =>
          assert false;
        case _ =>
          Print(Printed(e));
      }
    }

    /** `process_event` */
    method ProcessEvent(e: Event, skipPosCheck: bool) returns (status: Status)
      modifies this
      ensures Model() == Process(opt, old(Model()), e, skipPosCheck)
      ensures status == ProcessStatus(opt, old(Model()), e, skipPosCheck)
      decreases e
    {
      hide Dispatch, GtidFiltered, FilteringAfter;
      ghost var before := Model();
      ghost var r := Reached(opt, before.gate, before.flags.gtidFiltering, e, skipPosCheck);
      status := OkContinue;
      var isFd := e.body.FormatDescription?;
      if (gate.count >= gate.offset && e.when >= gate.startDatetime) || isFd {
        if !isFd {
          gate := gate.(startDatetime := 0);
          gate := gate.(offset := 0);
          if !e.body.Rotate? && opt.filterServerId != 0 && opt.filterServerId != e.serverId {
            gate := gate.(count := gate.count + 1);
            return;
          }
        }
        if (!skipPosCheck && e.pos >= gate.stopPosition) || e.when >= opt.stopDatetime {
          status := OkStop;
          gate := gate.(count := gate.count + 1);
          return;
        }
        var skip := ShallSkipGtids(e);
        assert Model() == Entered(opt, before, e, r);
        if !skip {
          if e.body.Payload? {
            PrintPayload(e.body.inner);
          } else {
            status := Switch(e);
          }
        }
      }
      gate := gate.(count := gate.count + 1);
    }

    /** `Transaction_payload_log_event::print`: what each call returns is ignored. */
    method PrintPayload(inner: seq<Event>)
      modifies this
      ensures Model() == ProcessInner(opt, old(Model()), inner)
      decreases inner
    {
      hide Process, ProcessStatus;
      var i := 0;
      while i < |inner|
        invariant 0 <= i <= |inner|
        invariant ProcessInner(opt, old(Model()), inner) == ProcessInner(opt, Model(), inner[i..])
      {
        assert inner[i..][1..] == inner[i + 1..];
        var _ := ProcessEvent(inner[i], true);
        i := i + 1;
      }
    }

    /** `dump_local_log_entries`: one log, until it ends or a call says stop. */
    method DumpLog(log: seq<Event>) returns (status: Status)
      modifies this
      ensures Model() == Run(opt, old(Model()), log).state && status == Run(opt, old(Model()), log).status
    {
      hide Process, ProcessStatus;
      status := OkContinue;
      var i := 0;
      while i < |log|
        invariant 0 <= i <= |log| && status == OkContinue
        invariant Run(opt, old(Model()), log).state == Run(opt, Model(), log[i..]).state
        invariant Run(opt, old(Model()), log).status == Run(opt, Model(), log[i..]).status
      {
        assert log[i..][1..] == log[i + 1..];
        status := ProcessEvent(log[i], false);
        if status != OkContinue {
          return;
        }
        i := i + 1;
      }
    }

    /** `dump_multiple_logs`: the state is that of BinlogPrinter and, from a tracked
        start, the printed SQL is left closed. */
    method DumpMultipleLogs(logs: seq<seq<Event>>) returns (status: Status)
      modifies this
      ensures Model() == Dump(opt, old(Model()), logs).state && status == Dump(opt, old(Model()), logs).status
      ensures old(Inv(opt, Model())) && SoundLogs(logs) ==> SessionAfter(out) == CLOSED
    {
      hide Run, Inv, Finish, SessionAfter, SoundLogs;
      ghost var before := Model();
      status := OkContinue;
      var saveStopPosition := gate.stopPosition;
      ghost var start := SetStop(Model(), MAX_OFFSET);
      gate := gate.(stopPosition := MAX_OFFSET);
      var i := 0;
      while i < |logs| && status == OkContinue
        invariant 0 <= i <= |logs|
        invariant RunLogs(opt, start, logs, saveStopPosition) ==
                  if status == OkContinue then RunLogs(opt, Model(), logs[i..], saveStopPosition)
                  else Dumped(Model(), status)
        decreases |logs| - i
      {
        assert logs[i..][0] == logs[i] && logs[i..][1..] == logs[i + 1..];
        if i == |logs| - 1 {
          gate := gate.(stopPosition := saveStopPosition);
        }
        status := DumpLog(logs[i]);
        i := i + 1;
      }
      ghost var end := Model();
      if flags.skippedEvent {
        Print(AddedCommit);
      }
      CloseLog();
      assert Model() == Finish(opt, end) by { FinishIs(opt, end); }
      if Inv(opt, before) && SoundLogs(logs) {
        DumpLeavesNothingOpen(opt, before, logs);
      }
    }

    /** `cleanup` */
    method Release()
      modifies this`buffer
      ensures Model() == Cleanup(old(Model()))
    {
      var i := 0;
      while i < |buffer.waiting|
        invariant 0 <= i <= |buffer.waiting| && buffer.waiting == old(buffer.waiting)
        invariant buffer.released == old(buffer.released) + buffer.waiting[..i]
      {
        buffer := buffer.(released := buffer.released + [buffer.waiting[i]]);
        i := i + 1;
      }
      assert buffer.waiting[..i] == buffer.waiting;
      buffer := buffer.(waiting := []);
    }
  }

  lemma FinishIs(opt: Options, st: State)
    ensures Finish(opt, st) == EndBinlog(opt, if st.flags.skippedEvent then st.(out := st.out + [AddedCommit]) else st)
  {
  }
}
