/** `--database` on row events: rows carry no database, so skipping them goes
    through the table maps that were ignored earlier in the statement. */
module BinlogRows {
  import opened Optional
  import opened BinlogEvents
  import opened BinlogPrinter

  /** A row statement: its table maps, each id once, then rows of those tables, of
      which only the last ends the statement. */
  predicate RowStatement(maps: seq<Event>, rows: seq<Event>) {
    && (forall i :: 0 <= i < |maps| ==> maps[i].body.TableMap?)
    && (forall i, j :: 0 <= i < j < |maps| ==> maps[i].body.mapId != maps[j].body.mapId)
    && rows != []
    && (forall i :: 0 <= i < |rows| ==> rows[i].body.Rows? && rows[i].body.stmtEnd == (i == |rows| - 1))
    && (forall i :: 0 <= i < |rows| ==>
          exists k :: 0 <= k < |maps| && maps[k].body.mapId == rows[i].body.rowsId)
  }

  /** The event belongs to a table of the selected database, judged from the maps. */
  ghost predicate Selected(opt: Options, maps: seq<Event>, e: Event) {
    match e.body
    case TableMap(_, db) => !SkipsDatabase(opt, Some(db))
    case Rows(id, _) =>
      forall k :: 0 <= k < |maps| && maps[k].body.TableMap? && maps[k].body.mapId == id ==>
        !SkipsDatabase(opt, Some(maps[k].body.mapDb))
    case _ => true
  }

  /** The selected events, as printed. */
  ghost function Kept(opt: Options, maps: seq<Event>, es: seq<Event>): seq<Token> {
    if es == [] then []
    else
      var last := es[|es| - 1];
      Kept(opt, maps, es[..|es| - 1]) + if Selected(opt, maps, last) then [Printed(last)] else []
  }

  predicate NoPayload(es: seq<Event>) {
    forall i :: 0 <= i < |es| ==> !es[i].body.Payload?
  }

  function DispatchAll(opt: Options, st: State, es: seq<Event>): State
    requires NoPayload(es)
  {
    if es == [] then st
    else Dispatch(opt, DispatchAll(opt, st, es[..|es| - 1]), es[|es| - 1])
  }

  function IgnoredIds(opt: Options, maps: seq<Event>): set<nat>
    requires forall i :: 0 <= i < |maps| ==> maps[i].body.TableMap?
  {
    set i | 0 <= i < |maps| && SkipsDatabase(opt, Some(maps[i].body.mapDb)) :: maps[i].body.mapId
  }

  /** One more event at the end. */
  lemma OneMore(opt: Options, st: State, maps: seq<Event>, es: seq<Event>, e: Event)
    requires NoPayload(es) && !e.body.Payload?
    ensures DispatchAll(opt, st, es + [e]) == Dispatch(opt, DispatchAll(opt, st, es), e)
    ensures Kept(opt, maps, es + [e]) == Kept(opt, maps, es) + if Selected(opt, maps, e) then [Printed(e)] else []
  {
    hide Dispatch, Selected;
    assert (es + [e])[..|es|] == es;
  }

  lemma {:induction false} MapsPart(opt: Options, st: State, maps: seq<Event>, k: nat)
    requires (forall i :: 0 <= i < |maps| ==> maps[i].body.TableMap?) && k <= |maps|
    requires st.seen.ignored == {}
    ensures var st' := DispatchAll(opt, st, maps[..k]);
            && st'.seen == st.seen.(ignored := IgnoredIds(opt, maps[..k]))
            && st'.out == st.out + Kept(opt, maps, maps[..k])
  {
    if k == 0 {
      assert IgnoredIds(opt, maps[..0]) == {};
    } else {
      MapsPart(opt, st, maps, k - 1);
      MapsStep(opt, st, maps, k);
    }
  }

  lemma MapsStep(opt: Options, st: State, maps: seq<Event>, k: nat)
    requires (forall i :: 0 <= i < |maps| ==> maps[i].body.TableMap?) && 0 < k <= |maps|
    requires var st' := DispatchAll(opt, st, maps[..k - 1]);
             && st'.seen == st.seen.(ignored := IgnoredIds(opt, maps[..k - 1]))
             && st'.out == st.out + Kept(opt, maps, maps[..k - 1])
    ensures var st' := DispatchAll(opt, st, maps[..k]);
            && st'.seen == st.seen.(ignored := IgnoredIds(opt, maps[..k]))
            && st'.out == st.out + Kept(opt, maps, maps[..k])
  {
    hide IgnoredIds, SkipsDatabase, DispatchAll, Kept;
    assert maps[..k] == maps[..k - 1] + [maps[k - 1]];
    OneMore(opt, st, maps, maps[..k - 1], maps[k - 1]);
    IgnoredAppend(opt, maps[..k - 1], maps[k - 1]);
  }

  lemma IgnoredAppend(opt: Options, maps: seq<Event>, e: Event)
    requires (forall i :: 0 <= i < |maps| ==> maps[i].body.TableMap?) && e.body.TableMap?
    ensures IgnoredIds(opt, maps + [e]) ==
            IgnoredIds(opt, maps) + if SkipsDatabase(opt, Some(e.body.mapDb)) then {e.body.mapId} else {}
  {
    hide SkipsDatabase;
    var all := maps + [e];
    assert all[|maps|] == e;
    assert forall i :: 0 <= i < |maps| ==> all[i] == maps[i];
  }

  lemma RowsSelected(opt: Options, maps: seq<Event>, rows: seq<Event>, i: nat)
    requires RowStatement(maps, rows) && i < |rows|
    ensures rows[i].body.rowsId in IgnoredIds(opt, maps) <==> !Selected(opt, maps, rows[i])
  {
    hide SkipsDatabase;
  }

  lemma {:induction false} RowsPart(opt: Options, st: State, maps: seq<Event>, rows: seq<Event>, k: nat)
    requires RowStatement(maps, rows) && k <= |rows|
    requires st.seen.ignored == {} && !RowsNeedFd(opt, st.seen)
    ensures var st' := DispatchAll(opt, st, maps + rows[..k]);
            && st'.seen == st.seen.(ignored := if k == |rows| then {} else IgnoredIds(opt, maps))
            && st'.out == st.out + Kept(opt, maps, maps + rows[..k])
  {
    if k == 0 {
      assert maps + rows[..0] == maps && maps[..|maps|] == maps;
      MapsPart(opt, st, maps, |maps|);
    } else {
      RowsPart(opt, st, maps, rows, k - 1);
      RowsStep(opt, st, maps, rows, k);
    }
  }

  lemma RowsStep(opt: Options, st: State, maps: seq<Event>, rows: seq<Event>, k: nat)
    requires RowStatement(maps, rows) && 0 < k <= |rows| && !RowsNeedFd(opt, st.seen)
    requires var st' := DispatchAll(opt, st, maps + rows[..k - 1]);
             && st'.seen == st.seen.(ignored := IgnoredIds(opt, maps))
             && st'.out == st.out + Kept(opt, maps, maps + rows[..k - 1])
    ensures var st' := DispatchAll(opt, st, maps + rows[..k]);
            && st'.seen == st.seen.(ignored := if k == |rows| then {} else IgnoredIds(opt, maps))
            && st'.out == st.out + Kept(opt, maps, maps + rows[..k])
  {
    hide IgnoredIds, Selected, DispatchAll, Kept, SkipsDatabase;
    var e, before := rows[k - 1], maps + rows[..k - 1];
    assert maps + rows[..k] == before + [e];
    OneMore(opt, st, maps, before, e);
    RowsSelected(opt, maps, rows, k - 1);
    assert e.body.stmtEnd == (k == |rows|);
  }

  /** Main result: a row statement prints exactly the table maps and rows of the
      selected database, in order, and leaves no table ignored. */
  lemma RowStatementFiltered(opt: Options, st: State, maps: seq<Event>, rows: seq<Event>)
    requires RowStatement(maps, rows) && st.seen.ignored == {} && !RowsNeedFd(opt, st.seen)
    ensures var st' := DispatchAll(opt, st, maps + rows);
            st'.seen.ignored == {} && st'.out == st.out + Kept(opt, maps, maps + rows)
  {
    RowsPart(opt, st, maps, rows, |rows|);
    assert rows[..|rows|] == rows;
  }
}
