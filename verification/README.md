# Verified models of the MySQL client programs

Dafny models of the stateful core of six client programs of MySQL 8.0.42, with proofs of what
their code and comments promise. Each program part that changes state step by step is a class or
a method with loops, proved against a function; the properties are lemmas about those functions.

- **mysqlbinlog** (`Binlog*.dfy`). `BinlogPrinter` is one call of `process_event` and runs of calls
  as functions of the global state; `BinlogProgram` updates the same state in place; `BinlogRuns`
  makes a dump of several logs one run. A printed stream is executed by a small model of a server
  session that reads statements by their words (`BinlogSession`). Proved over all dumps: the session
  ends closed (`BinlogClosing`), the whole output is a reading of the events that got to the switch
  (`BinlogHistory`), filtering keeps
  transactions whole (`BinlogGroups`, `BinlogStreams`), deferred events go out with their query
  (`BinlogDeferred`), row statements are filtered by database (`BinlogRows`), the start and stop
  bounds select one range (`BinlogRange`), and the logs alone decide which events get to the switch
  (`BinlogArrivals`). `BinlogCases` holds logs on which a promise fails.
- **mysqlbinlog, `--rewrite-db`** (`DatabaseRewrite.dfy`). Editing the bytes of an event in place is
  the same as encoding its fields again with the mapped name; the formats of the three kinds of
  events are given byte by byte.
- **mysql, the statement splitter** (`Statement*.dfy`). `StatementScanner` collects statements in a
  separate buffer; `StatementSplitter` is the loop that overwrites its own input, proved equal to it.
  Literals arrive byte for byte (`StatementLiterals`), a line sends exactly the text between
  delimiters outside quotes (`StatementSplitting`), and so do any number of lines, as one text
  (`StatementLines`). A comment counts as one space (`StatementComments`), or is kept with its marks
  under `--comments` (`StatementPreserved`). `StatementCommands` says where short commands end.
- **mysql_config_editor** (`Login*.dfy`). A flat text, searched for substrings and shifted in place,
  is edited by lines, whatever it holds (`LoginSections`, `LoginEditor`, `LoginCommands`), and behaves
  as an ordered list of paths with options; the encrypted file gives the text back, so that whole
  commands on the file are those edits (`LoginSaved`), and the client library reads from it the values
  given (`LoginOptions`). Which passwords `print` masks is decided line by line, and over every run
  (`LoginPasswords`, `LoginPrint`).
- **mysql, completion** (`Completion*.dfy`). The chained hash of all prefixes agrees with a plain list
  of words, for every hash function, and so does the cursor that walks it.
- **mysqlimport, the worker pool** (`WorkerPool.dfy`). A transition system with one step for each
  access to shared state; the properties hold in every interleaving.
- **mysqldump and mysqlimport, text** (`InsertPacking.dfy`, `CdataSections.dfy`, `FieldEscape.dfy`).
  Packing rows into INSERT statements, CDATA sections, and escaped string options.

Where code and promise differ, the code is modelled, the exact condition is proved, and a lemma
gives an input on which the promise fails:

- A dump is to leave no transaction open. The program knows BEGIN, COMMIT and XA only in one spelling,
  while the server reads words in any case; so this holds if no statement opens a transaction, or
  leaves it open where the program takes it for closed, unknown to the program, and for each
  statement that does there is a log that is left open (`BinlogClosing.DumpLeavesNothingOpen`,
  `BinlogCases.UnsoundLeavesOpen`, `BinlogCases.LowerCaseBegin`). The program and the server agree on
  a statement if and only if it is in the form in which a server logs it, or is none of these
  (`BinlogSession.AlikeIff`).
- The comment above `end_binlog` says that an incomplete last transaction is rolled back. At the end
  of a dump the COMMIT owed for skipped events comes first, so this holds if and only if `--database`
  removed no event since the last one that settles: a GTID, the end of a group, or a statement
  replaced by COMMIT (`BinlogHistory.CutTransactionFate`). Under `--skip-gtids` the removed event can
  lie before the transaction (`BinlogCases.CutTransactionCommitted`).
- XA PREPARE settles nothing either. The next GTID comes with a COMMIT for nothing if and only if an
  event of the XA transaction was removed (`BinlogHistory.XaPrepareNext`, `BinlogCases.StrayCommit`).
- The stop time ends a run at an event of a log, but inside a compressed payload it drops single
  events. The transaction gets through whole if and only if none of its events is late; one that was
  begun is ended if and only if its end is not, and one that is ended was begun if and only if its
  begin is not (`BinlogStreams.WholeIffInTime`, `BinlogGroups.PayloadEnds`,
  `BinlogCases.PayloadCutOpen`).
- `completion_hash_exists` looks only at the oldest entry of the bucket, so it finds a word if and
  only if no longer word with that prefix was added before it (`CompletionHash.HashTable.Exists`,
  `CompletionWords.OldestIffNoneBefore`, `CompletionWords.LongerFirst`).
- `rewrite_raw` gives the capacity of the buffer as the size of a skipped payload
  (`DatabaseRewrite.Rewriter.RewriteRaw`, `DatabaseRewrite.SkippedPayloadSize`).
- The login file holds complete lines only: a buffer comes back whole if and only if it is empty or
  ends in a newline (`LoginFile.FileRoundTrip`, `LoginFile.LastLineLost`). The text of a store does.
- What `set` writes reads back as what was meant if and only if no value holds a newline
  (`LoginCommands.SetReadsBack`, `LoginCommands.ValueMakesPath`).
- A value is to come back as it was given. Only quotes are escaped when it is written, so it does if
  and only if no backslash in it stands before a character that gives it a meaning, a quote excepted
  (`LoginOptions.EscapedIff`, `LoginOptions.ValuesReadBack`, `LoginOptions.BackslashN`). What is
  written is one quoted string if and only if it does not end in a backslash
  (`LoginOptions.QuotedIsOne`).
- `print` is to mask the password. With `--all` it masks every password line if and only if no two
  follow each other and none is first; for one path, if and only if there is only one. `set` can
  write two when a value holds a newline and a password line (`LoginPasswords.ShowsAllIff`,
  `LoginPasswords.ShowsOneIff`, `LoginPasswords.LoginWritesOne`, `LoginPasswords.ValueShowsPassword`).
- A line inside a literal belongs to the statement. It is added whole if and only if no
  escaping backslash in it stands before a NUL or at its end; there the rest of the line is lost
  (`StatementLiterals.LineInsideLiteral`, `StatementLiterals.CutAtNul`).
- The space that stands for a comment goes in front of the next character kept, even when that
  belongs to the next statement (`StatementComments.NextStatementPays`).

Outside effects are parameters: the checksum function, the cipher with its inverse, the hash
function, the client commands and the server behind the splitter, the meaning of escape pairs.

## Model

| member | source | states |
|---|---|---|
| BinlogEvents.GroupMarkersAreKeywords | mysql-8.0.42/sql/log_event.h:1421-1471 | a query that starts or ends a group is a transaction keyword, so `--database` never removes it |
| BinlogSession.AlikeIff | mysql-8.0.42/sql/log_event.h:1461-1471 | for every text: the tests for the begin and the end of a group agree with what the statement does to the transaction of a session, read by its words in any case, if and only if it is in the one form in which a server logs control statements, or is no control statement and no beginning of one |
| BinlogSession.RegularTests | mysql-8.0.42/sql/log_event.h:1461-1471 | of such texts exactly those that close the transaction end a group, and exactly those that open one start a group |
| BinlogSession.RegularIsSound | mysql-8.0.42/sql/log_event.h:1461-1471 | no such text opens a transaction, or leaves it open where the program takes it for closed, unknown to the program |
| BinlogSession.ControlStatements | mysql-8.0.42/sql/log_event.h:1461-1471 | BEGIN opens, COMMIT and ROLLBACK close, and all three are in that form |
| BinlogSession.RollbackTo | mysql-8.0.42/sql/log_event.h:1466-1471 | ROLLBACK TO any savepoint does neither |
| BinlogSession.XaStart | mysql-8.0.42/sql/log_event.h:1461-1464 | XA START of any transaction opens |
| BinlogSession.XaRollback | mysql-8.0.42/sql/log_event.h:1466-1471 | XA ROLLBACK of any transaction closes |
| BinlogSession.XaOther | mysql-8.0.42/sql/log_event.h:1461-1471 | XA END, XA PREPARE and XA COMMIT do neither |
| BinlogSession.OrdinaryStatement | mysql-8.0.42/sql/log_event.h:1461-1471 | nor does any statement whose first word is no control word |
| BinlogSession.PhaseIsSession | mysql-8.0.42/client/mysqlbinlog.cc:1319-1342 | the phases of the printed stream (no GTID pending, GTID printed, inside its group) agree with the state a server session is in after executing that stream |
| BinlogClosing.EndBinlogCloses | mysql-8.0.42/client/mysqlbinlog.cc:1319-1342 | when the flags track the printed session, what is printed at the end of a log leaves the session with no open transaction and no unused GTID |
| BinlogClosing.QueryTracks | mysql-8.0.42/client/mysqlbinlog.cc:1436-1495 | the QUERY case keeps the flags tracking the printed session, whether the query is printed, skipped, or replaced by an added COMMIT |
| BinlogClosing.FormatDescriptionTracks | mysql-8.0.42/client/mysqlbinlog.cc:1532-1574 | so does a format event, which may close the previous log first |
| BinlogClosing.GtidTracks | mysql-8.0.42/client/mysqlbinlog.cc:1740-1753 | so does a GTID event, with the COMMIT it may add for skipped events |
| BinlogClosing.DispatchTracks | mysql-8.0.42/client/mysqlbinlog.cc:1431-1780 | so does every case of the switch |
| BinlogClosing.ProcessTracks | mysql-8.0.42/client/mysqlbinlog.cc:1366-1793 | so does every call, with gate, filters and payloads of any depth |
| BinlogClosing.RunLogsTracks | mysql-8.0.42/client/mysqlbinlog.cc:2437-2504 | so does a run over any list of logs |
| BinlogClosing.DumpLeavesNothingOpen | mysql-8.0.42/client/mysqlbinlog.cc:2437-2504 | for every list of logs whose statements cannot open a transaction, or leave it open, unknown to the program, every option setting and every outcome, a session that reads the output by its own rules ends with no open transaction and no printed GTID left without its transaction |
| BinlogRuns.DumpIsOneRun | mysql-8.0.42/client/mysqlbinlog.cc:2460-2503 | a dump of several logs is one run over all their events, each with the stop position of its log, and what is printed after it |
| BinlogGroups.QueryInside | mysql-8.0.42/client/mysqlbinlog.cc:1436-1495 | after a printed GTID, BEGIN opens its group, COMMIT ends it, and a statement outside a group ends it whether it is printed or skipped |
| BinlogGroups.GroupSteps | mysql-8.0.42/client/mysqlbinlog.cc:1366-1793 | a whole group after its printed GTID ends it exactly once, whatever `--database` removes from its body |
| BinlogGroups.DdlSteps | mysql-8.0.42/client/mysqlbinlog.cc:1436-1519 | so does a statement outside a group with the events buffered for it |
| BinlogGroups.PayloadStep | mysql-8.0.42/client/mysqlbinlog.cc:3403-3531 | so does the group inside a compressed payload, when its begin and its end are before the stop time; body events past it are passed over |
| BinlogGroups.FilteredShape | mysql-8.0.42/client/mysqlbinlog.cc:1112-1191 | after a filtered GTID nothing of its transaction is printed but format, rotate and other control events |
| BinlogGroups.TxnSteps | mysql-8.0.42/client/mysqlbinlog.cc:1366-1793 | one transaction is dropped as a whole, or its GTID is printed and followed by exactly one end |
| BinlogGroups.PayloadEnds | mysql-8.0.42/client/mysqlbinlog.cc:1412-1417 | the stop time inside a compressed transaction: with its begin in time it is ended if and only if its end is, and otherwise left open while the run goes on; with its end in time it is well ended if and only if its begin is, and an end alone breaks the stream; without its begin no group is opened |
| BinlogStreams.AllThrough | mysql-8.0.42/client/mysqlbinlog.cc:1404-1429 | of the events of a selected transaction in a payload, exactly those before the stop time get to the switch |
| BinlogStreams.WholeIffInTime | mysql-8.0.42/client/mysqlbinlog.cc:1412-1417 | so a compressed transaction gets through whole if and only if none of its events is at or past the stop time |
| BinlogStreams.StreamThrough | mysql-8.0.42/client/mysqlbinlog.cc:1112-1191 | of a well-formed stream exactly the events of selected transactions and those that are never filtered get to the switch |
| BinlogStreams.TransactionsBeforeStop | mysql-8.0.42/client/mysqlbinlog.cc:1366-1793 | wherever the logs break and wherever the dump is stopped, behind every transaction that is passed the printed GTIDs are those selected so far, in order, each ended exactly once, and the output so far is the reading of exactly the events let through |
| BinlogStreams.TransactionsStayWhole | mysql-8.0.42/client/mysqlbinlog.cc:2437-2504 | a dump that is not stopped prints, for every combination of `--database` and GTID sets, exactly the selected GTIDs in order, each ended once before the next; its whole output is the reading of the events let through, and the reset of GTID_NEXT |
| BinlogHistory.DispatchReads | mysql-8.0.42/client/mysqlbinlog.cc:1431-1780 | every case of the switch keeps the state equal to the reading of its history: what `in_transaction`, `seen_gtid`, the skipped-event flag, the ignored tables, the load files and the buffer stand for, and the output line by line |
| BinlogHistory.DumpIsReading | mysql-8.0.42/client/mysqlbinlog.cc:2437-2504 | for all logs and options, the whole output of a dump is determined line by line by the events that got to the switch, in a reading that looks back at the last event that matters |
| BinlogHistory.CutTransactionFate | mysql-8.0.42/client/mysqlbinlog.cc:2493-2503 | a transaction still open when the events end is rolled back, as the comment on `end_binlog` says, if and only if no COMMIT is due: no event was removed since the last one that settles (GTID, group end, or statement replaced by COMMIT); otherwise it is committed first |
| BinlogHistory.DueSince | mysql-8.0.42/client/mysqlbinlog.cc:1463-1492 | after an event that settles, a COMMIT is due exactly if `--database` removed one of the events that follow |
| BinlogHistory.ControlIsKeyword | mysql-8.0.42/sql/log_event.h:1421-1444 | the statements kept whatever their database are those that begin, in any case, with SAVEPOINT, ROLLBACK or one of five XA commands, and BEGIN, COMMIT and what begins them |
| BinlogHistory.DatabaseKeeps | mysql-8.0.42/client/mysqlbinlog.cc:1436-1495 | a query is printed if and only if no database was selected, or it names none or that one, or is one of those; a table map and a loaded file if and only if they are of that database |
| BinlogHistory.XaPrepareNext | mysql-8.0.42/client/mysqlbinlog.cc:1740-1753 | after XA PREPARE, which ends the transaction for the server, the next GTID comes with a COMMIT for nothing if and only if `--database` removed an event of the XA transaction |
| BinlogCases.CutTransactionCommitted | mysql-8.0.42/client/mysqlbinlog.cc:2493-2503 | a log on which `--skip-gtids --database` commits a cut-off transaction none of whose events was removed |
| BinlogCases.CutTransactionHalfCommitted | mysql-8.0.42/client/mysqlbinlog.cc:2493-2503 | a log with GTIDs on which the printed half of a cut-off transaction is committed |
| BinlogCases.StrayCommit | mysql-8.0.42/client/mysqlbinlog.cc:1740-1753 | a log on which the GTID after XA PREPARE comes with a COMMIT for nothing |
| BinlogCases.NothingAdded | mysql-8.0.42/client/mysqlbinlog.cc:1436-1495 | a dump of BEGIN, any statement that is no control statement, and COMMIT or ROLLBACK prints those three and the reset of GTID_NEXT, and adds nothing |
| BinlogCases.UnsoundLeavesOpen | mysql-8.0.42/client/mysqlbinlog.cc:1319-1342 | every other statement does leave a session open, in a log of one or two events, so the condition is exact |
| BinlogCases.LowerCaseBegin | mysql-8.0.42/sql/log_event.h:1461-1464 | such as BEGIN in lower case |
| BinlogCases.PayloadCutOpen | mysql-8.0.42/client/mysqlbinlog.cc:1412-1417 | a log on which the stop time drops the end of a compressed transaction and the next GTID is printed inside it |
| BinlogRange.PassingIsSuffix | mysql-8.0.42/client/mysqlbinlog.cc:1376-1402 | over all logs, the events other than format events that pass the offset and start-time gate are exactly those from the first one that meets both bounds on, even when timestamps decrease |
| BinlogRange.LimitOfLast | mysql-8.0.42/client/mysqlbinlog.cc:2460-2491 | the stop position holds for the events of the last log only; for all others it is the largest offset |
| BinlogRange.RunStopsFirst | mysql-8.0.42/client/mysqlbinlog.cc:1404-1417 | a dump of any logs returns OK_STOP exactly at the first event of any log that reaches the stop checks at or past a bound of its log; an event of another server never ends it |
| BinlogArrivals.ArriveIsSwitched | mysql-8.0.42/client/mysqlbinlog.cc:1418-1429 | whether an event gets through the GTID filter depends on the last GTID, XID or group end that arrived before it, and nothing else; the events of a payload that gets through follow the same rule, one by one |
| BinlogArrivals.EndsIsStatus | mysql-8.0.42/client/mysqlbinlog.cc:1404-1793 | an event ends the run if and only if the logs say so: it is past a stop bound, or it gets to the switch and is a format event of a log in use or a row event that needs a format event |
| BinlogArrivals.HistoryIsFlow | mysql-8.0.42/client/mysqlbinlog.cc:1366-1793 | for all logs and options, the events that get to the switch, read off the logs alone: those in the range of the bounds and of the server, up to the first that ends the run, that no excluded GTID filters |
| BinlogDeferred.QueryBooks | mysql-8.0.42/client/mysqlbinlog.cc:1436-1495 | a query prints the buffered events directly before itself in arrival order, or drops them with itself, and releases each |
| BinlogDeferred.DispatchQuiet | mysql-8.0.42/client/mysqlbinlog.cc:1497-1519 | no other event prints or releases a buffered event; Intvar, Rand and User_var events are buffered |
| BinlogDeferred.DeferredPrintedWithQuery | mysql-8.0.42/client/mysqlbinlog.cc:1436-1519 | over every dump of any logs, the queries and deferred events printed are exactly those an independent reading of the events that got to the switch expects; a printed deferred event is followed by another or by its query; after the cleanup each deferred event has been released exactly once, in order |
| BinlogRows.RowStatementFiltered | mysql-8.0.42/client/mysqlbinlog.cc:1605-1739 | a row statement prints exactly the table maps and rows of tables in the selected database, in order, and leaves no table ignored |
| BinlogProgram.Mysqlbinlog.constructor | mysql-8.0.42/client/mysqlbinlog.cc:801-808 | the program starts in the state from which the runs are stated, with flags and output in agreement |
| BinlogProgram.Mysqlbinlog.ShallSkipGtids | mysql-8.0.42/client/mysqlbinlog.cc:1112-1191 | the result and the new `filter_based_on_gtids`, as the two functions of the reference |
| BinlogProgram.Mysqlbinlog.CloseLog | mysql-8.0.42/client/mysqlbinlog.cc:1319-1342 | the in-place update is the reference step, and it closes the session when the flags track it |
| BinlogProgram.Mysqlbinlog.FlushBuffer | mysql-8.0.42/client/mysqlbinlog.cc:1441-1478 | the loop over the buffered events prints or drops all of them, in order, and releases each |
| BinlogProgram.Mysqlbinlog.QueryEvent | mysql-8.0.42/client/mysqlbinlog.cc:1436-1495 | the in-place update is the reference step |
| BinlogProgram.Mysqlbinlog.FormatDescriptionEvent | mysql-8.0.42/client/mysqlbinlog.cc:1532-1574 | the in-place update and the returned value are those of the reference step, with the error for a log still in use |
| BinlogProgram.Mysqlbinlog.RowsEvent | mysql-8.0.42/client/mysqlbinlog.cc:1605-1739 | the in-place update and the returned value are those of the reference step, with the error for rows before a format event |
| BinlogProgram.Mysqlbinlog.Switch | mysql-8.0.42/client/mysqlbinlog.cc:1431-1780 | every case of the switch refines its reference step |
| BinlogProgram.Mysqlbinlog.ProcessEvent | mysql-8.0.42/client/mysqlbinlog.cc:1366-1793 | a call refines the reference step and returns its status |
| BinlogProgram.Mysqlbinlog.PrintPayload | mysql-8.0.42/client/mysqlbinlog.cc:3403-3531 | the events of a payload are processed in order, without the position check, whatever each returns |
| BinlogProgram.Mysqlbinlog.DumpLog | mysql-8.0.42/client/mysqlbinlog.cc:3048-3131 | the loop over a log refines the reference run, stopping after the first event that does not continue |
| BinlogProgram.Mysqlbinlog.DumpMultipleLogs | mysql-8.0.42/client/mysqlbinlog.cc:2437-2504 | the loop over the logs refines the reference dump; from a state with flags in agreement the session it prints ends closed |
| BinlogProgram.Mysqlbinlog.Release | mysql-8.0.42/client/mysqlbinlog.cc:2161-2165 | what is still buffered at the end is released once |
| ByteOrder.Bytes4 | mysql-8.0.42/include/little_endian.h:87-87 | a stored 32-bit integer reads back |
| ByteOrder.Bytes2 | mysql-8.0.42/include/little_endian.h:85-85 | a stored 16-bit integer reads back |
| ByteOrder.LowByteFirst | mysql-8.0.42/include/little_endian.h:61-63 | the low byte comes first |
| DatabaseRewrite.EncodeFramed | mysql-8.0.42/client/mysqlbinlog.cc:451-538 | an event in the reference layout has its size in the header and a valid checksum |
| DatabaseRewrite.EncodeLocated | mysql-8.0.42/client/mysqlbinlog.cc:353-449 | in an event in the reference layout, the offsets found are those of the name and its length, for table map, query and execute-load-query events |
| DatabaseRewrite.CutEvent | mysql-8.0.42/client/mysqlbinlog.cc:411-440 | an event that was cut off is reported as an error if and only if it is a query cut before the end of its status variables |
| DatabaseRewrite.OtherKinds | mysql-8.0.42/client/mysqlbinlog.cc:353-449 | only events of types 2, 18 and 19 have a name to look at |
| DatabaseRewrite.RewriteIsReencode | mysql-8.0.42/client/mysqlbinlog.cc:451-538 | rewriting the bytes of an event is encoding the same fields with the mapped name: every other field, the moved tail, both lengths and the checksum are right; without a rule nothing changes |
| DatabaseRewrite.RewriteRoundTrip | mysql-8.0.42/client/mysqlbinlog.cc:451-538 | rewriting there and back gives the original bytes |
| DatabaseRewrite.QueryFormat | mysql-8.0.42/client/mysqlbinlog.cc:389-449 | the format of a query event byte by byte, with status variables of any length and with and without checksum, and the bytes it is rewritten to |
| DatabaseRewrite.LoadFormat | mysql-8.0.42/client/mysqlbinlog.cc:389-449 | the same for a query that loads a file, with thirteen bytes more in its header |
| DatabaseRewrite.TableMapFormat | mysql-8.0.42/client/mysqlbinlog.cc:363-388 | the same for a table map |
| DatabaseRewrite.Rewriter.constructor | mysql-8.0.42/client/mysqlbinlog.cc:561-561 | no rule at first |
| DatabaseRewrite.Rewriter.RegisterRule | mysql-8.0.42/client/mysqlbinlog.cc:570-572 | a rule that is already there is kept |
| DatabaseRewrite.Rewriter.UnregisterRule | mysql-8.0.42/client/mysqlbinlog.cc:583-583 | that rule and no other is gone |
| DatabaseRewrite.Rewriter.GetOffsets | mysql-8.0.42/client/mysqlbinlog.cc:353-449 | the offsets and both flags are those of the reference, and no byte outside the event is read |
| DatabaseRewrite.Rewriter.RewriteEvent | mysql-8.0.42/client/mysqlbinlog.cc:451-538 | the edits in the buffer give the rewritten bytes; the new size fits the buffer, which is reallocated only when the old one is too small; without a rule for the name nothing changes; the error says that the event is too short |
| DatabaseRewrite.Rewriter.RewriteRaw | mysql-8.0.42/client/mysqlbinlog.cc:612-640 | without rules nothing happens; a payload is left to the caller or, when skipped, handed back unchanged with the capacity as its size; everything else is rewritten if a rule applies |
| DatabaseRewrite.SkippedPayloadSize | mysql-8.0.42/client/mysqlbinlog.cc:612-640 | a skipped payload of five bytes in a buffer of eight is handed back as eight bytes |
| DatabaseRewrite.MoveTail | mysql-8.0.42/client/mysqlbinlog.cc:502-516 | the tail is moved and the new name copied, inside the buffer |
| DatabaseRewrite.Edit | mysql-8.0.42/client/mysqlbinlog.cc:502-523 | the whole edit, done in place, is the replacement of the reference |
| DatabaseRewrite.Rename | mysql-8.0.42/client/mysqlbinlog.cc:480-537 | what is done for a rule, in place: a larger buffer when the old one is too small, the edit, and the checksum |
| DatabaseRewrite.StoreChecksum | mysql-8.0.42/client/mysqlbinlog.cc:525-533 | the last four bytes become the checksum of those before them |
| StatementScanner.NextAdvances | mysql-8.0.42/client/mysql.cc:2475-2659 | every turn of the loop that goes on moves forward and stays in the line |
| StatementLiterals.SessionGood | mysql-8.0.42/client/mysql.cc:2460-2683 | over every list of lines the scanner is never both in a string and in a block comment |
| StatementLiterals.QuotesOpen | mysql-8.0.42/client/mysql.cc:2639-2658 | outside comments and hints a character opens a literal if and only if it is one of the three quotes, and only that quote closes it |
| StatementLiterals.InsideStep | mysql-8.0.42/client/mysql.cc:2494-2508 | what a turn does inside a string: copy a character, a backslash pair, or the closing quote, or leave the loop at a backslash before a NUL, and nothing else |
| StatementLiterals.LiteralCopied | mysql-8.0.42/client/mysql.cc:2475-2659 | on every line, NULs included, from inside a string the scan copies the literal byte for byte up to its closing quote, the end of the line, or an escaping backslash before a NUL or with nothing behind it, and sends, runs and flushes nothing |
| StatementLiterals.LineInsideLiteral | mysql-8.0.42/client/mysql.cc:2460-2683 | a line that stays inside a literal is added with its newline; it is added whole if and only if no escaping backslash in it stands before a NUL or at the end |
| StatementLiterals.CutAtNul | mysql-8.0.42/client/mysql.cc:2494-2500 | a line on which a backslash before a NUL loses the rest of the line and the closing quote, and leaves the string open |
| StatementLiterals.LiteralSpansLines | mysql-8.0.42/client/mysql.cc:2314-2330 | any number of such lines accumulate in the buffer and nothing else happens |
| StatementSplitting.StatementFound | mysql-8.0.42/client/mysql.cc:2545-2575 | the scan gets to the first delimiter outside quotes with exactly the text up to there; without one it accepts exactly the rest of the line, or up to where a literal is cut off, and sends nothing |
| StatementSplitting.LineSends | mysql-8.0.42/client/mysql.cc:2460-2683 | what a line sends is exactly the text between the delimiters outside quotes, in order, and what it leaves is exactly the text after the last one and the literal still open |
| StatementSplitting.UnmarkedIsSimple | mysql-8.0.42/client/mysql.cc:2545-2638 | the lines this is stated for include every line without quotes, backslashes and comment marks |
| StatementLines.StatementsSplit | mysql-8.0.42/client/mysql.cc:2460-2683 | the statements of a text are those of its first line and those that end in what follows, from what the line leaves pending |
| StatementLines.FeedOne | mysql-8.0.42/client/mysql.cc:2310-2330 | a line of SQL sends the statements that end in it and leaves the rest pending, also when it begins inside a literal |
| StatementLines.LinesSend | mysql-8.0.42/client/mysql.cc:2310-2330 | over any number of lines of SQL, from any carried state, what is sent is exactly the statements of the whole text, wherever the lines break |
| StatementComments.CommentRead | mysql-8.0.42/client/mysql.cc:2612-2658 | inside a comment the scan goes to its end, or to the end of the line, and keeps nothing; the mark of a conditional comment or a hint in it needs an end of its own |
| StatementComments.PieceTaken | mysql-8.0.42/client/mysql.cc:2475-2659 | every piece of a line does to the scan what the reading says: a character or a whole literal is kept, after a space that is owed; a comment owes a space; a delimiter sends |
| StatementComments.LineReads | mysql-8.0.42/client/mysql.cc:2475-2659 | on every line without short commands, with comments, hints, conditional comments and literals in any order, what is sent is exactly the statements of its pieces and what is kept is what they leave |
| StatementComments.CommentedLine | mysql-8.0.42/client/mysql.cc:2460-2683 | the same for `add_line` from any carried state, also inside a comment or a literal; what is kept gets a newline, but not inside a comment |
| StatementComments.CommentsAreSpaces | mysql-8.0.42/client/mysql.cc:2612-2658 | leaving the comments out of a line changes no more than spaces in what is sent and in what is kept |
| StatementComments.NextStatementPays | mysql-8.0.42/client/mysql.cc:2639-2658 | the space owed by a comment in front of a delimiter is put in front of the next statement |
| StatementPreserved.PieceTaken | mysql-8.0.42/client/mysql.cc:2475-2659 | with `--comments`, every piece of a line does to the scan what the reading says: characters, literals and both marks of a comment are kept, a delimiter sends with the spaces and the line comment behind it |
| StatementPreserved.LineReads | mysql-8.0.42/client/mysql.cc:2475-2659 | so what a line without short commands sends is exactly the statements of its pieces, and what is kept is what they leave |
| StatementPreserved.PreservedLine | mysql-8.0.42/client/mysql.cc:2460-2683 | the same for `add_line` from any carried state; what is kept gets a newline, inside a comment too |
| StatementPreserved.PiecesAreLine | mysql-8.0.42/client/mysql.cc:2475-2659 | the pieces are the line, character by character |
| StatementPreserved.NothingLost | mysql-8.0.42/client/mysql.cc:2545-2658 | what is sent and what is kept are, in order and but for spaces, what was pending and the whole of the pieces without the delimiters |
| StatementPreserved.CommentStays | mysql-8.0.42/client/mysql.cc:2612-2638 | a block comment stays in its statement with its marks |
| StatementPreserved.LineComments | mysql-8.0.42/client/mysql.cc:2545-2611 | a line comment behind a delimiter goes with the statement before it, one with nothing before it is sent alone, any other is kept |
| StatementCommands.ParamsEndFound | mysql-8.0.42/client/mysql.cc:2528-2537 | the parameters of a short command end just behind the first delimiter, or at a NUL, or with the line |
| StatementCommands.CommentEndFound | mysql-8.0.42/client/mysql.cc:2519-2527 | inside a conditional comment or a hint they end at its end |
| StatementCommands.ShortCommandGoesOn | mysql-8.0.42/client/mysql.cc:2509-2537 | a short command gets what was accepted so far and the rest of the line, and the scan goes on behind its letter, or behind the first delimiter, by the delimiter the command leaves set |
| StatementCommands.ShortCommandQuits | mysql-8.0.42/client/mysql.cc:2509-2516 | a short command that ends the session ends the scan |
| StatementCommands.CommandInHint | mysql-8.0.42/client/mysql.cc:2517-2527 | inside a conditional comment or a hint the scan goes on at its end |
| StatementCommands.UnknownCommand | mysql-8.0.42/client/mysql.cc:2538-2544 | an unknown short command is reported, and both characters are kept |
| StatementCommands.DelimiterGoesOn | mysql-8.0.42/client/mysql.cc:2545-2575 | at a delimiter what is pending is run as a client command if it is one and sent otherwise; unless that ends the session, the scan goes on behind the delimiter with nothing pending, in the session it leaves |
| StatementCommands.LoneComment | mysql-8.0.42/client/mysql.cc:2576-2611 | with `--comments` a line comment with nothing before it is sent at once, is never taken for a client command, and ends the line or the session |
| StatementCommands.EmptyLine | mysql-8.0.42/client/mysql.cc:2460-2470 | an empty line, or one that begins with a NUL, changes nothing where a statement begins |
| StatementCommands.CommandLine | mysql-8.0.42/client/mysql.cc:2310-2330 | a whole line is run as a client command if and only if it is one, outside strings and comments, with nothing pending or with named commands enabled |
| StatementCommands.LineLeaves | mysql-8.0.42/client/mysql.cc:2660-2681 | what a line leaves pending: what it accepted, unless it ends in a comment that is not preserved; a newline follows if and only if something is pending, the line was not cut by the reader, and it is no DELIMITER command outside strings and comments |
| StatementSplitter.Splitter.constructor | mysql-8.0.42/client/mysql.cc:2198-2200 | nothing is buffered at first |
| StatementSplitter.Splitter.SkipParams | mysql-8.0.42/client/mysql.cc:2517-2537 | where the parameters of a short command end |
| StatementSplitter.Splitter.ShortCommand | mysql-8.0.42/client/mysql.cc:2509-2537 | running a short command in place is the reference step, and nothing still to be read was overwritten |
| StatementSplitter.Splitter.BackslashTurn | mysql-8.0.42/client/mysql.cc:2494-2544 | the backslash branch, in place, is the reference step |
| StatementSplitter.Splitter.SubmitBuffer | mysql-8.0.42/client/mysql.cc:2569-2575 | the buffer is run as a named command or sent, and emptied unless the client is to quit |
| StatementSplitter.Splitter.DelimiterTurn | mysql-8.0.42/client/mysql.cc:2545-2575 | the delimiter branch, in place, is the reference step |
| StatementSplitter.Splitter.LineCommentTurn | mysql-8.0.42/client/mysql.cc:2576-2611 | the line-comment branch, in place, is the reference step |
| StatementSplitter.Splitter.MarkTurn | mysql-8.0.42/client/mysql.cc:2612-2638 | the branches for comment marks, in place, are the reference steps |
| StatementSplitter.Splitter.OrdinaryTurn | mysql-8.0.42/client/mysql.cc:2639-2658 | the branch for any other character, with hints, quotes and the owed space, is the reference step |
| StatementSplitter.Splitter.Turn | mysql-8.0.42/client/mysql.cc:2476-2658 | one turn over the shared buffer is one turn of the scanner that writes elsewhere |
| StatementSplitter.Splitter.FinishLine | mysql-8.0.42/client/mysql.cc:2660-2681 | what follows the loop, in place: the accepted text and the newline go to the buffer under the same conditions |
| StatementSplitter.Splitter.AddLine | mysql-8.0.42/client/mysql.cc:2460-2683 | for every line, in every carried state, the scanner that overwrites its own input sends and carries exactly what the one with a separate buffer does: the write position never passes what is still to be read |
| StatementSplitter.Splitter.ReadLine | mysql-8.0.42/client/mysql.cc:2310-2330 | so does a line as `read_and_execute` handles it, as a command or through the splitter |
| LoginText.StrStr | mysql-8.0.42/client/mysql_config_editor.cc:1000-1024 | the first occurrence from a position on, or that there is none |
| LoginEditor.DynamicString.StrStr | mysql-8.0.42/client/mysql_config_editor.cc:1000-1024 | the same on the text of the buffer |
| LoginEditor.DynamicString.Append | mysql-8.0.42/mysys/my_string.cc:98-113 | the text is added, in the same or a larger block |
| LoginEditor.DynamicString.Shift | mysql-8.0.42/client/mysql_config_editor.cc:937-950 | the characters up to a position are cut out by moving the rest down |
| LoginEditor.Locate | mysql-8.0.42/client/mysql_config_editor.cc:1000-1024 | the search finds the first line with that header, though it searches for a substring |
| LoginEditor.NextHeader | mysql-8.0.42/client/mysql_config_editor.cc:925-954 | the search for a newline and bracket finds the next header line |
| LoginStore.FindsPath | mysql-8.0.42/client/mysql_config_editor.cc:1000-1024 | the first line with a header is where that path starts; a path whose name is a prefix of another is not confused with it |
| LoginStore.FindsNextPath | mysql-8.0.42/client/mysql_config_editor.cc:925-954 | the next header after a path starts the next path |
| LoginEditor.RemoveLoginPath | mysql-8.0.42/client/mysql_config_editor.cc:925-954 | whatever lines the buffer holds, exactly those from the first that begins with the header to the next that begins with a bracket are gone, and the others unchanged and in order |
| LoginEditor.FindOption | mysql-8.0.42/client/mysql_config_editor.cc:865-915 | the search inside a path finds the first line that begins with the option, and does not leave the path |
| LoginEditor.RemoveOption | mysql-8.0.42/client/mysql_config_editor.cc:865-915 | whatever lines the buffer holds, exactly the first line of that path that begins with the option is gone |
| LoginSections.SectionIsPath | mysql-8.0.42/client/mysql_config_editor.cc:1000-1024 | in the text of a store the lines that the searches select for a name are the header and the options of its path |
| LoginSections.WithoutSectionIsWithoutPath | mysql-8.0.42/client/mysql_config_editor.cc:925-954 | so removing them removes that path from the list and no other |
| LoginSections.WithoutEntryIsWithoutOption | mysql-8.0.42/client/mysql_config_editor.cc:865-915 | and removing an entry removes that option of that path |
| LoginCommands.NamesPrefixFree | mysql-8.0.42/client/mysql_config_editor.cc:843-860 | an option name is a prefix of an option line only if the line is that option |
| LoginCommands.OptionsGood | mysql-8.0.42/client/mysql_config_editor.cc:517-543 | the lines written for a login are option lines if and only if no value holds a newline |
| LoginCommands.AppendQuoted | mysql-8.0.42/mysys/my_string.cc:137-164 | the value is appended between quotes, each quote in it with a backslash before it |
| LoginCommands.PathText | mysql-8.0.42/client/mysql_config_editor.cc:510-564 | the text built for a path is its header line and the quoted options that were given |
| LoginCommands.SetPath | mysql-8.0.42/client/mysql_config_editor.cc:496-577 | whatever lines the buffer holds and whatever the values, the path is removed and written again at the end, a value with newlines on as many lines |
| LoginCommands.SetIsWithPath | mysql-8.0.42/client/mysql_config_editor.cc:496-577 | on the text of a store this is the replacement of the path in the list; the result is the text of a proper store if and only if no value holds a newline |
| LoginCommands.SetKeeps | mysql-8.0.42/client/mysql_config_editor.cc:496-577 | the text goes on to begin with a header, and to be made of whole lines |
| LoginCommands.RemoveOptions | mysql-8.0.42/client/mysql_config_editor.cc:843-860 | whatever lines the buffer holds, `remove` deletes exactly the flagged options of the path, one after the other, or the path when none is flagged |
| LoginCommands.RemoveIsRemoved | mysql-8.0.42/client/mysql_config_editor.cc:843-860 | on the text of a store this is the removal from the list |
| LoginCommands.RemoveKeeps | mysql-8.0.42/client/mysql_config_editor.cc:843-860 | the text goes on to begin with a header, and to be made of whole lines |
| LoginCommands.ParseRender | mysql-8.0.42/client/mysql_config_editor.cc:1000-1024 | reading the text of a store, line by line and header by header, gives that store |
| LoginCommands.SetReadsBack | mysql-8.0.42/client/mysql_config_editor.cc:496-577 | the text written by `set` reads back as the path that was meant if and only if no value holds a newline |
| LoginCommands.ValueMakesPath | mysql-8.0.42/client/mysql_config_editor.cc:540-543 | a port with a newline in it makes a path of its own |
| LoginOptions.QuotedIsOne | mysql-8.0.42/mysys/my_string.cc:137-164 | what is written for a value is one quoted string with that value, up to its last character, if and only if the value does not end in a backslash |
| LoginOptions.EscapedIff | mysql-8.0.42/mysys/my_default.cc:1096-1142 | the client library reads the value back if and only if no backslash in it stands before a character that gives it a meaning, a quote excepted |
| LoginOptions.PairsRead | mysql-8.0.42/mysys/my_default.cc:1106-1140 | what comes back of a backslash and another character, for each character |
| LoginOptions.BackslashN | mysql-8.0.42/mysys/my_default.cc:1108-1112 | a backslash and an n come back as a newline |
| LoginOptions.QuotedReads | mysql-8.0.42/mysys/my_default.cc:1062-1143 | a quoted option line reads as its name, and as its value under that condition |
| LoginOptions.PortReads | mysql-8.0.42/mysys/my_default.cc:1062-1143 | the port, written without quotes, reads back if and only if it has no space or pair of quotes around it and no backslash with a meaning |
| LoginOptions.LoginReads | mysql-8.0.42/client/mysql_config_editor.cc:517-543 | all options of a login read back if and only if each does |
| LoginOptions.ValuesReadBack | mysql-8.0.42/client/mysql_config_editor.cc:496-577 | the text that `set` writes reads back as the store with that path and its options as the values given, if and only if no value holds a newline and each reads back |
| LoginPasswords.ShowsAllIff | mysql-8.0.42/client/mysql_config_editor.cc:815-838 | with `--all` the printing loop masks every password if and only if no two password lines follow each other and none is first |
| LoginPasswords.ShowsOneIff | mysql-8.0.42/client/mysql_config_editor.cc:815-838 | for one path it masks every password if and only if there is only one, and it is not first |
| LoginPasswords.SetKeepsOne | mysql-8.0.42/client/mysql_config_editor.cc:496-577 | `set` keeps every path of the text at one password if and only if the lines it writes hold no two in one path |
| LoginPasswords.LoginWritesOne | mysql-8.0.42/client/mysql_config_editor.cc:517-543 | which is so if and only if the password option, if given, and the password lines inside the values are at most one |
| LoginPasswords.GoodLoginWritesOne | mysql-8.0.42/client/mysql_config_editor.cc:517-543 | it is enough that no value holds a newline |
| LoginPasswords.RemoveKeepsOne | mysql-8.0.42/client/mysql_config_editor.cc:843-860 | `remove` keeps every path at one password |
| LoginPasswords.ValueShowsPassword | mysql-8.0.42/client/mysql_config_editor.cc:820-832 | for every user name with a password line in it, `print` masks that line and shows the password in clear, with and without `--all` |
| LoginPasswords.RunKeeps | mysql-8.0.42/client/mysql_config_editor.cc:496-618 | over every run of `set` and `remove` the text begins with a header, and no path has two passwords as long as no login writes two |
| LoginPrint.MaskPasswordAndPrint | mysql-8.0.42/client/mysql_config_editor.cc:815-838 | the printing loop prints the lines with passwords masked, and one newline too many when the last line was masked without its newline in the buffer |
| LoginPrint.PrintLoginPath | mysql-8.0.42/client/mysql_config_editor.cc:777-806 | whatever lines the buffer holds, `print` prints those of the path, or all, with the password lines masked that the loop finds, and one newline more or less where a path is cut off before its last newline |
| LoginPrint.PrintsMasked | mysql-8.0.42/client/mysql_config_editor.cc:777-838 | when no path has two passwords that is every password masked, and every other line as it is |
| LoginPrint.RunThenPrint | mysql-8.0.42/client/mysql_config_editor.cc:496-838 | so it is after every run of `set` and `remove` in which no login writes two passwords |
| LoginSetRemove.SetThenRemove | mysql-8.0.42/client/mysql_config_editor.cc:496-577 | `set` followed by `remove` of at least one option leaves what `set` with the remaining options gives |
| LoginSetRemove.SetThenRemoveAll | mysql-8.0.42/client/mysql_config_editor.cc:496-577 | `remove` without options removes the path, and only that |
| LoginFile.FitsIff | mysql-8.0.42/client/mysql_config_editor.cc:1042-1082 | the cipher text has the next multiple of 16 bytes, and a line fits if and only if it has less than 4080 with its newline |
| LoginFile.DecodeRecords | mysql-8.0.42/client/mysql_config_editor.cc:1118-1153 | every record written passes the length check of the reader and is decrypted to its line |
| LoginFile.RecordWithNul | mysql-8.0.42/client/mysql_config_editor.cc:1135-1144 | of a record with a NUL only what is before it is read |
| LoginFile.CutFile | mysql-8.0.42/client/mysql_config_editor.cc:1118-1153 | a file that is cut off, anywhere in a record, reads as its whole records |
| LoginFile.DamagedFile | mysql-8.0.42/client/mysql_config_editor.cc:1118-1153 | a file with a record that is too long, cannot be decrypted or holds nothing is refused as a whole |
| LoginFile.FileRoundTrip | mysql-8.0.42/client/mysql_config_editor.cc:1042-1153 | reading the written file back gives the complete lines of the buffer, and the whole buffer if and only if it is empty or ends in a newline |
| LoginFile.LastLineLost | mysql-8.0.42/client/mysql_config_editor.cc:1059-1070 | a last line without its newline is not in the file |
| LoginFile.PaddingIsSound | mysql-8.0.42/client/mysql_config_editor.cc:1072-1082 | there is a pair of functions of the kind assumed of the cipher: padding alone |
| LoginFile.EncryptAndWrite | mysql-8.0.42/client/mysql_config_editor.cc:1042-1105 | the file holds one record for each complete line, up to the first that is too long, which is the error |
| LoginFile.ReadAndDecrypt | mysql-8.0.42/client/mysql_config_editor.cc:1118-1153 | the loop over the file is the record-by-record reading, with its errors |
| LoginSaved.WrittenReads | mysql-8.0.42/client/mysql_config_editor.cc:1042-1153 | the written file reads as the complete lines before the first that is too long |
| LoginSaved.SetCommand | mysql-8.0.42/client/mysql_config_editor.cc:496-577 | `set` on the file: when it succeeds the file holds the lines with the path replaced, ready for the next command; an unreadable file is left alone; a line that is too long is an error that leaves only the lines before it |
| LoginSaved.RemoveCommand | mysql-8.0.42/client/mysql_config_editor.cc:579-618 | `remove` on the file: when it succeeds the file holds the lines without what was removed; the errors are the same |
| CompletionWords.StoredIsMatching | mysql-8.0.42/client/completion_hash.cc:205-209 | storing every prefix of every word makes the entries under a key exactly the words with that prefix, newest first, with multiplicity |
| CompletionWords.LongerKey | mysql-8.0.42/client/completion_hash.cc:165-193 | a longer key has as many words exactly if it has the same words |
| CompletionWords.CommonIffSameCount | mysql-8.0.42/client/completion_hash.cc:165-193 | a prefix of one matching word is common to all of them if and only if its count is theirs |
| CompletionWords.OldestIffNoneBefore | mysql-8.0.42/client/completion_hash.cc:132-149 | a word is the oldest with itself as prefix exactly if no longer word was added before it |
| CompletionWords.LongerFirst | mysql-8.0.42/client/completion_hash.cc:132-149 | with "abc" added before "ab", the oldest word with prefix "ab" is "abc" |
| CompletionHash.HashTable.constructor | mysql-8.0.42/client/completion_hash.cc:48-62 | an empty table |
| CompletionHash.HashTable.Find | mysql-8.0.42/client/completion_hash.cc:112-130 | a bucket is found if and only if something is stored under the key, with its entries and their number, whatever the hash function |
| CompletionHash.HashTable.Update | mysql-8.0.42/client/completion_hash.cc:64-110 | one entry is put in front under its key and nothing else changes; an empty key is refused |
| CompletionHash.HashTable.Insert | mysql-8.0.42/client/completion_hash.cc:64-110 | a new bucket in front of its chain keeps every chain and every other bucket |
| CompletionHash.HashTable.AddWord | mysql-8.0.42/client/completion_hash.cc:205-209 | the table holds one more word |
| CompletionHash.HashTable.Clean | mysql-8.0.42/client/completion_hash.cc:195-198 | the table holds no word |
| CompletionHash.HashTable.FindAllMatches | mysql-8.0.42/client/completion_hash.cc:151-163 | a bucket with exactly the words that have the prefix, and their number, or none |
| CompletionHash.HashTable.FindLongestMatch | mysql-8.0.42/client/completion_hash.cc:165-193 | the counting loop gives exactly the longest prefix common to all words that begin with the query |
| CompletionHash.HashTable.Exists | mysql-8.0.42/client/completion_hash.cc:132-149 | true if and only if the key is not empty and the oldest word with that prefix is the word itself, so a word added after a longer one is reported missing |
| CompletionGenerator.Seek | mysql-8.0.42/client/mysql.cc:2795-2829 | the search for a used slot skips no word |
| CompletionGenerator.Step | mysql-8.0.42/client/mysql.cc:2795-2829 | a move hands out the entry under the cursor if it is a whole word, and loses and repeats nothing |
| CompletionGenerator.NextOfAll | mysql-8.0.42/client/mysql.cc:2795-2829 | a call hands out the next word of the traversal |
| CompletionGenerator.TraversalIsAllWords | mysql-8.0.42/client/mysql.cc:2795-2829 | the traversal is every non-empty word exactly as often as it was added, whatever the bucket layout |
| CompletionGenerator.Generator.Generate | mysql-8.0.42/client/mysql.cc:2772-2829 | one call of the generator, in place: the next completion, or none at the end |
| CompletionGenerator.Generator.Complete | mysql-8.0.42/client/mysql.cc:2772-2829 | calls until null give all words with the prefix, newest first; for empty text every non-empty word as often as it was added |
| WorkerPool.ZeroMeansGone | mysql-8.0.42/client/mysqlimport.cc:665-675 | when main sees a zero counter, every worker has also unlocked |
| WorkerPool.StepKeeps | mysql-8.0.42/client/mysqlimport.cc:590-684 | every step of any thread keeps the count, the mutual exclusion, the account of tables and the conditions at the end |
| WorkerPool.PoolIsSafe | mysql-8.0.42/client/mysqlimport.cc:590-684 | in every interleaving the counter is the live workers plus the pending one and never exceeds the limit; the mutexes are destroyed only when no worker can touch them; no table is given twice; at the end every table was given to a worker of its own, which has exited and was joined, or was reported |
| WorkerPool.FatesAreReturns | mysql-8.0.42/client/mysqlimport.cc:653-663 | over every run a table was given to a worker if and only if the call to create its thread succeeded, and reported if and only if it failed; the workers are as many as the successful calls |
| WorkerPool.EveryWorkerWalks | mysql-8.0.42/client/mysqlimport.cc:563-600 | over every run each worker takes the steps of its thread in order: to exit it has connected and imported, or failed to connect, and then given its count back, signalled and unlocked |
| WorkerPool.WaitsWhenFull | mysql-8.0.42/client/mysqlimport.cc:642-670 | main waits before a table if and only if as many workers are live as allowed, and at the end if and only if one is live |
| WorkerPool.SomeoneCanMove | mysql-8.0.42/client/mysqlimport.cc:590-684 | until main is done some thread can move |
| InsertPacking.Pack | mysql-8.0.42/client/mysqldump.cc:3994-4208 | the output is packed statements that hold all rows, once and in order; a statement with several rows stays under the limit by its estimate and a new one starts only when the estimate would reach it |
| InsertPacking.EstimateIs | mysql-8.0.42/client/mysqldump.cc:3994-4000 | the estimate is two for each row and four in all beyond the texts, the statement one for each row and one in all |
| InsertPacking.TwoStatements | mysql-8.0.42/client/mysqldump.cc:4181-4208 | the text of two statements, the first with two rows |
| InsertPacking.PackedFits | mysql-8.0.42/client/mysqldump.cc:4181-4199 | a packed statement with several rows is really shorter than `net_buffer_length` |
| InsertPacking.PackingUnique | mysql-8.0.42/client/mysqldump.cc:4181-4199 | only one grouping of the rows meets that rule, so the rule fixes the output |
| CdataSections.PrintXmlCdata | mysql-8.0.42/client/mysqldump.cc:2025-2045 | the loop prints the sections of the reference, and looks at nothing behind the NUL |
| CdataSections.CdataRoundTrip | mysql-8.0.42/client/mysqldump.cc:2025-2045 | reading the sections as XML 1.0 does gives newline, the string and newline back, for every string |
| CdataSections.ClosePrinted | mysql-8.0.42/client/mysqldump.cc:2025-2045 | a closing mark is printed in two sections |
| FieldEscape.EscapeQuoted | mysql-8.0.42/client/mysqldump.cc:3731-3754 | the text is appended between quotes, escaped as the reference says |
| FieldEscape.EscapeInto | mysql-8.0.42/client/mysqlimport.cc:541-558 | the same escaped text without quotes, written from a position on; twice the length is room enough and nothing else is written |
| FieldEscape.EscapedReads | mysql-8.0.42/client/mysqldump.cc:3723-3728 | between quotes the escaped text is one SQL literal: it is read up to the closing quote and not before, and means what the option says, for every text |
| FieldEscape.EscapedLength | mysql-8.0.42/client/mysqlimport.cc:541-558 | the result is at most twice as long |

## Left out

- Option parsing, connections, prompts, pager, history, signal handlers, usage text, and the programs mysqladmin, mysqlshow, mysqlcheck, mysqlslap and mysql_secure_installation: input, output and calls to the server.
- `create_delimiter`, `quote_name`, `quote_for_like` and view-text replacement of mysqldump: easy members, or resting on server output.
- Multi-byte character sets, Windows branches, allocation failures, and the widths of counters and sizes, which are unbounded here.
- Decoding of events, compression, and rewriting of names inside compressed payloads: a payload is the list of its events.
- The caches in which mysqlbinlog holds back printed text, failures while printing, `--raw`, `--start-position`, remote logs and the files of LOAD DATA: a printed event is one token, and printing succeeds.
- BinlogClosing.DumpLeavesNothingOpen: for logs in which no statement opens a transaction, or leaves it open where the program takes it for closed, unknown to the program. A server logs none such; on each of them the promise fails, by BinlogCases.UnsoundLeavesOpen.
- BinlogHistory.CutTransactionFate: for the same logs.
- BinlogProgram.Mysqlbinlog.DumpMultipleLogs: that the session ends closed is stated for the same logs; what is printed for all.
- BinlogSession.AlikeIff: a statement is read by its words, and comments before or between them are not words; BEGIN WORK and START TRANSACTION are not in the form in which a server logs them.
- BinlogStreams.TransactionsStayWhole: statements are in the form in which a server logs them; assumes no server-id filter, GTIDs not skipped, an open start gate, and that the begin and end of a compressed transaction are before the stop time; XA transactions are not part of a well-formed stream, because XA PREPARE leaves the flags set. What the program prints on all other streams is stated by BinlogHistory.DumpIsReading.
- BinlogRows.RowStatementFiltered: assumes that a format event was printed or is not needed, because rows without one end the run with an error, and that the table maps of a statement have different ids. BinlogHistory.DumpIsReading has neither limit.
- DatabaseRewrite.Rewriter.GetOffsets: the query header has 11 bytes or at least 13. With fewer the name would begin before its own length byte, and with 12 the source reads one byte of the status length from behind the header.
- DatabaseRewrite.Rewriter.RewriteEvent: the same header lengths; assumes that the name can be read in the buffer, that a name to be replaced lies inside the event, and that targets are shorter than 255 bytes, as the source asserts; otherwise the source reads and moves bytes outside the buffer.
- DatabaseRewrite.RewriteIsReencode: the checksum is an arbitrary function of the bytes.
- DatabaseRewrite.Rewriter.RewriteRaw: the same limits as RewriteEvent.
- StatementSplitting.LineSends: for lines without comments and without backslashes outside quotes, comments not preserved, and statements that are no client command and neither quit nor change the session; the in-place equality holds without these limits.
- StatementComments.LineReads: comments not preserved, no short command on the line, and statements as above. With `--comments` the line is read by StatementPreserved.LineReads.
- StatementPreserved.LineReads: no short command on the line, and statements as above. A turn at a short command is stated by StatementCommands.ShortCommandGoesOn.
- StatementLines.LinesSend: as StatementSplitting.LineSends, for lines that are no client command, in which no literal is cut off, and that do not begin with a NUL where a statement begins, which the source passes over.
- CompletionHash.HashTable.Update: the stored string is the key's own string, as its only caller passes it.
- CompletionGenerator.Generator.Complete: for empty text on a table without words, assumes that no earlier completion left the cursor on an entry, which the source would follow although it is freed.
- LoginCommands.SetPath: names hold no newline; a closing bracket in a name is covered here, but not where the text is read as a list of paths.
- LoginOptions.ValuesReadBack: names and values hold no NUL, which ends a string in the source; numbers and the meaning of options behind the reading of their lines are not modelled.
- LoginFile.FileRoundTrip: the text is made of bytes, and the cipher is any pair of functions where decrypting undoes encrypting on bytes and lengths are those of a block cipher.
- LoginFile.ReadAndDecrypt: a stored length of two to the 31 or more, negative in the source, is an error here as any length over the limit.
- LoginPrint.PrintLoginPath: the NUL that is put at the end of the path while it is printed, and taken away again, is not modelled.
- WorkerPool.PoolIsSafe: no claim that main terminates, because waits are timed and the server may not answer; the racy writes of the exit code are not modelled.
- InsertPacking.Pack: a row is the text already built for it, without NUL; the limit is below the point where the sum of lengths wraps around.
