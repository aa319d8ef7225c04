/** The events a binary log holds, as the printer in `mysqlbinlog.cc` sees them,
    and the tests it makes on the text of a query event. */
module BinlogEvents {
  import opened Optional

  datatype Gtid = Gtid(sid: string, gno: nat)

  /** `when` and `serverId` come from the common header; `pos` is the offset the
      event is processed with. */
  datatype Event = Event(when: nat, serverId: nat, pos: nat, body: Body)

  /** A format event is marked `startup`, and printed with a ROLLBACK, when it was
      created at the start of the server and is not artificial. */
  datatype Body =
    | GtidEvent(gtid: Gtid)
    | PreviousGtids
    | Query(db: Option<string>, text: string)
    | Xid
    | XaPrepare
    | Intvar(intvar: nat)
    | Rand(seed: nat)
    | UserVar(name: string)
    | BeginLoad(beginFile: nat)
    | AppendBlock(appendFile: nat)
    | ExecuteLoad(executeFile: nat, loadDb: Option<string>)
    | FormatDescription(relay: bool, logPos: nat, inUse: bool, startup: bool)
    | TableMap(mapId: nat, mapDb: string)
    | Rows(rowsId: nat, stmtEnd: bool)
    | RowsQuery
    | Payload(inner: seq<Event>)
    | Rotate
    | Control   // STOP, SLAVE, IGNORABLE, INCIDENT
    | Other     // every type without a case of its own

  /** What reaches the result file: a printed event, or a line the program adds. */
  datatype Token =
    | Printed(event: Event)
    | AddedCommit
    | AddedBegin
    | AddedRollback
    | GtidAutomatic

  predicate IsDeferred(b: Body) {
    b.Intvar? || b.Rand? || b.UserVar?
  }

  function Lower(c: char): char {
    if 'A' <= c <= 'Z' then ((c as int) + 32) as char else c
  }

  predicate StartsWithNoCase(text: string, word: string) {
    |word| <= |text| && forall i :: 0 <= i < |word| ==> Lower(text[i]) == Lower(word[i])
  }

  /** `strncmp(query, "BEGIN", q_len)` compares only `q_len` bytes, so a NUL-free
      query passes exactly when it is a prefix of the keyword. */
  predicate IsTransKeyword(text: string) {
    || text <= "BEGIN"
    || text <= "COMMIT"
    || StartsWithNoCase(text, "SAVEPOINT")
    || StartsWithNoCase(text, "ROLLBACK")
    || StartsWithNoCase(text, "XA START")
    || StartsWithNoCase(text, "XA END")
    || StartsWithNoCase(text, "XA PREPARE")
    || StartsWithNoCase(text, "XA COMMIT")
    || StartsWithNoCase(text, "XA ROLLBACK")
  }

  predicate StartsGroup(text: string) {
    text <= "BEGIN" || "XA START" <= text
  }

  predicate EndsGroup(text: string) {
    || text <= "COMMIT"
    || (StartsWithNoCase(text, "ROLLBACK") && !StartsWithNoCase(text, "ROLLBACK TO "))
    || "XA ROLLBACK" <= text
  }

  /** A query that opens or closes a group is always a transaction keyword, so
      `--database` never removes one. */
  lemma GroupMarkersAreKeywords(text: string)
    requires StartsGroup(text) || EndsGroup(text)
    ensures IsTransKeyword(text)
  {
    if "XA START" <= text {
      assert StartsWithNoCase(text, "XA START");
    }
    if "XA ROLLBACK" <= text {
      assert StartsWithNoCase(text, "XA ROLLBACK");
    }
  }
}
