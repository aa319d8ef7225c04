/** `Database_rewrite` of `mysqlbinlog.cc`: replacing the database name inside the
    bytes of an encoded event. */
module DatabaseRewrite {
  import opened ByteOrder

  const EVENT_TYPE_OFFSET := 4
  const EVENT_LEN_OFFSET := 9
  const BINLOG_CHECKSUM_LEN := 4
  const Q_DB_LEN_OFFSET := 8
  const Q_STATUS_VARS_LEN_OFFSET := 11
  const QUERY_HEADER_MINIMAL_LEN := 11
  const EXECUTE_LOAD_QUERY_EXTRA_HEADER_LEN := 13

  const QUERY_EVENT: Byte := 2
  const EXECUTE_LOAD_QUERY_EVENT: Byte := 18
  const TABLE_MAP_EVENT: Byte := 19
  const TRANSACTION_PAYLOAD_EVENT: Byte := 40

  /** The parts of a format description event that are used here. The length of
      the status variables takes two bytes, so a query header has both or none. */
  datatype FormatDescription = FormatDescription(
    commonHeaderLen: Byte, tableMapHeaderLen: Byte, queryHeaderLen: Byte, checksums: bool)
  {
    predicate Valid() {
      && commonHeaderLen >= EVENT_LEN_OFFSET + 4
      && (queryHeaderLen == QUERY_HEADER_MINIMAL_LEN || queryHeaderLen >= QUERY_HEADER_MINIMAL_LEN + 2)
    }
  }

  datatype Location = NoName | TooShort | At(name: nat, length: nat)

  /** `get_dbname_and_dblen_offsets` on the bytes of an event. */
  function Locate(data: seq<Byte>, fde: FormatDescription): Location
    requires |data| > EVENT_TYPE_OFFSET && fde.Valid()
  {
    var kind := data[EVENT_TYPE_OFFSET];
    var common: nat := fde.commonHeaderLen;
    if kind == TABLE_MAP_EVENT then
      At(common + fde.tableMapHeaderLen + 1, common + fde.tableMapHeaderLen)
    else if kind == QUERY_EVENT || kind == EXECUTE_LOAD_QUERY_EVENT then
      if |data| < common + fde.queryHeaderLen then TooShort
      else
        var statusLen :=
          if fde.queryHeaderLen > QUERY_HEADER_MINIMAL_LEN
          then Value2(data[common + Q_STATUS_VARS_LEN_OFFSET], data[common + Q_STATUS_VARS_LEN_OFFSET + 1]) else 0;
        var name := common + fde.queryHeaderLen + statusLen;
        if common + Q_DB_LEN_OFFSET > |data| || name > |data| then TooShort
        else At(name + (if kind == EXECUTE_LOAD_QUERY_EVENT then EXECUTE_LOAD_QUERY_EXTRA_HEADER_LEN else 0),
                common + Q_DB_LEN_OFFSET)
    else NoName
  }

  /** The bytes of the name lie inside the event, before its checksum. */
  predicate NameInside(data: seq<Byte>, at: Location, checksum: bool) {
    at.At? ==>
      && EVENT_LEN_OFFSET + 4 <= at.length < at.name <= |data|
      && at.name + data[at.length] + (if checksum then BINLOG_CHECKSUM_LEN else 0) <= |data|
  }

  type Rules = map<seq<Byte>, seq<Byte>>

  /** The bytes of the name can be read at all: they lie in the buffer. */
  predicate NameReadable(memory: seq<Byte>, at: Location) {
    at.At? ==> at.length < |memory| && at.name + memory[at.length] <= |memory|
  }

  /** A rule applies to the name that is read. */
  predicate RuleApplies(memory: seq<Byte>, at: Location, rules: Rules)
    requires NameReadable(memory, at)
  {
    at.At? && memory[at.name..at.name + memory[at.length]] in rules
  }

  /** No target name is as long as the one-byte length can count. */
  predicate ShortTargets(rules: Rules) {
    forall k <- rules :: |rules[k]| < 255
  }

  type Crc = seq<Byte> -> nat

  function Checksummed(data: seq<Byte>, crc: Crc): seq<Byte>
    requires |data| >= BINLOG_CHECKSUM_LEN
  {
    var covered := data[..|data| - BINLOG_CHECKSUM_LEN];
    covered + Bytes4(crc(covered))
  }

  /** The event with the `fromLen` bytes of the name replaced by `to`, the tail moved,
      and the length of the name and of the event adjusted. */
  function Replaced(data: seq<Byte>, length: nat, name: nat, fromLen: nat, to: seq<Byte>): (r: seq<Byte>)
    requires EVENT_LEN_OFFSET + 4 <= length < name && name + fromLen <= |data| && |to| < 255
    ensures |r| == |data| - fromLen + |to|
  {
    var moved := data[..length] + [|to|] + data[length + 1..name] + to + data[name + fromLen..];
    moved[..EVENT_LEN_OFFSET] + Bytes4(|data| - fromLen + |to|) + moved[EVENT_LEN_OFFSET + 4..]
  }

  /** `rewrite_event` on the bytes of an event. */
  function Rewritten(data: seq<Byte>, fde: FormatDescription, rules: Rules, crc: Crc, checksum: bool): seq<Byte>
    requires |data| > EVENT_TYPE_OFFSET && fde.Valid() && ShortTargets(rules)
    requires NameInside(data, Locate(data, fde), checksum)
  {
    var at := Locate(data, fde);
    if !at.At? || data[at.name..at.name + data[at.length]] !in rules then data
    else
      var to := rules[data[at.name..at.name + data[at.length]]];
      var sized := Replaced(data, at.length, at.name, data[at.length], to);
      if checksum then Checksummed(sized, crc) else sized
  }

  lemma RuleRewrites(data: seq<Byte>, fde: FormatDescription, rules: Rules, crc: Crc, checksum: bool)
    requires |data| > EVENT_TYPE_OFFSET && fde.Valid() && ShortTargets(rules)
    requires NameInside(data, Locate(data, fde), checksum)
    requires Locate(data, fde).At?
    requires var at := Locate(data, fde); data[at.name..at.name + data[at.length]] in rules
    ensures var at := Locate(data, fde);
            var to := rules[data[at.name..at.name + data[at.length]]];
            && |to| < 255
            && var sized := Replaced(data, at.length, at.name, data[at.length], to);
               Rewritten(data, fde, rules, crc, checksum) == if checksum then Checksummed(sized, crc) else sized
  {
    hide Locate, Bytes4, Replaced, Checksummed;
  }

  // ---------------------------------------------------------------------------
  // Reference: an event as fields

  /** What lies between the length of the name and the name: nothing in a table map; in
      a query the error code, then, unless the header is of the oldest kind, the length
      of the status variables and what the header holds beyond it, then what a load
      query has in addition, and the status variables. */
  datatype Between =
    | InTableMap
    | InOldQuery(error: seq<Byte>, load: seq<Byte>)
    | InQuery(error: seq<Byte>, more: seq<Byte>, load: seq<Byte>, status: seq<Byte>)

  /** `head` is what precedes the event length and holds the type; `post` lies between
      the event length and the name length. */
  datatype Fields = Fields(head: seq<Byte>, post: seq<Byte>, between: Between, db: seq<Byte>, tail: seq<Byte>)
  {
    function Gap(): seq<Byte> {
      match between
      case InTableMap => []
      case InOldQuery(error, load) => error + load
      case InQuery(error, more, load, status) => error + Bytes2(|status|) + more + load + status
    }
  }

  function Size(f: Fields, checksum: bool): nat {
    |f.head| + 4 + |f.post| + 1 + |f.Gap()| + |f.db| + |f.tail| + if checksum then BINLOG_CHECKSUM_LEN else 0
  }

  /** The bytes the checksum covers. */
  function Covered(f: Fields, checksum: bool): (r: seq<Byte>)
    requires |f.db| < 256
    ensures |r| == Size(f, checksum) - if checksum then BINLOG_CHECKSUM_LEN else 0
  {
    f.head + Bytes4(Size(f, checksum)) + f.post + [|f.db|] + f.Gap() + f.db + f.tail
  }

  /** The layout of an event: every length and the checksum are right. */
  function Encode(f: Fields, crc: Crc, checksum: bool): seq<Byte>
    requires |f.db| < 256
  {
    var covered := Covered(f, checksum);
    if checksum then covered + Bytes4(crc(covered)) else covered
  }

  /** The fields have the sizes that the event type and the format description
      prescribe; nothing here depends on the name or on what follows it. */
  predicate Fits(f: Fields, fde: FormatDescription) {
    && fde.Valid()
    && |f.head| == EVENT_LEN_OFFSET
    && var lengthAt := EVENT_LEN_OFFSET + 4 + |f.post|;
       var kind := f.head[EVENT_TYPE_OFFSET];
       match f.between
       case InTableMap => kind == TABLE_MAP_EVENT && lengthAt == fde.commonHeaderLen + fde.tableMapHeaderLen
       case InOldQuery(error, load) => fde.queryHeaderLen == 11 && FitsQuery(kind, lengthAt, error, load, fde)
       case InQuery(error, more, load, status) =>
         && fde.queryHeaderLen >= 13 && FitsQuery(kind, lengthAt, error, load, fde)
         && |more| == fde.queryHeaderLen - 13 && |status| < 0x1_0000
  }

  predicate FitsQuery(kind: Byte, lengthAt: nat, error: seq<Byte>, load: seq<Byte>, fde: FormatDescription) {
    && (kind == QUERY_EVENT || kind == EXECUTE_LOAD_QUERY_EVENT)
    && lengthAt == fde.commonHeaderLen + 8 && |error| == 2
    && |load| == if kind == EXECUTE_LOAD_QUERY_EVENT then 13 else 0
  }

  /** Where the layout puts each field. */
  lemma EncodeLayout(f: Fields, crc: Crc, checksum: bool)
    requires |f.head| == EVENT_LEN_OFFSET && |f.db| < 256
    ensures var d := Encode(f, crc, checksum);
            var l := EVENT_LEN_OFFSET + 4 + |f.post|;
            var n := l + 1 + |f.Gap()|;
            && |d| == Size(f, checksum)
            && d[..EVENT_LEN_OFFSET] == f.head
            && d[EVENT_LEN_OFFSET..EVENT_LEN_OFFSET + 4] == Bytes4(|d|)
            && d[EVENT_LEN_OFFSET + 4..l] == f.post
            && d[l] == |f.db|
            && d[l + 1..n] == f.Gap()
            && d[n..n + |f.db|] == f.db
            && d[n + |f.db|..n + |f.db| + |f.tail|] == f.tail
  {
    hide Bytes4;
    var sum := if checksum then Bytes4(crc(Covered(f, checksum))) else [];
    assert Encode(f, crc, checksum) == Covered(f, checksum) + sum;
    PartsLayout(f.head, Bytes4(Size(f, checksum)), f.post, |f.db|, f.Gap(), f.db, f.tail, sum);
  }

  lemma PartsLayout(
    head: seq<Byte>, size: seq<Byte>, post: seq<Byte>, count: Byte, gap: seq<Byte>, db: seq<Byte>, tail: seq<Byte>,
    sum: seq<Byte>)
    requires |head| == EVENT_LEN_OFFSET && |size| == 4
    ensures var d := head + size + post + [count] + gap + db + tail + sum;
            var l := EVENT_LEN_OFFSET + 4 + |post|;
            var n := l + 1 + |gap|;
            && d[..EVENT_LEN_OFFSET] == head
            && d[EVENT_LEN_OFFSET..EVENT_LEN_OFFSET + 4] == size
            && d[EVENT_LEN_OFFSET + 4..l] == post
            && d[l] == count
            && d[l + 1..n] == gap
            && d[n..n + |db|] == db
            && d[n + |db|..n + |db| + |tail|] == tail
  {
  }

  /** The header of an encoded event tells its size, and its checksum is valid. */
  lemma EncodeFramed(f: Fields, crc: Crc, checksum: bool)
    requires |f.head| == EVENT_LEN_OFFSET && |f.db| < 256 && Size(f, checksum) < 0x1_0000_0000
    ensures var d := Encode(f, crc, checksum);
            && EVENT_LEN_OFFSET + 4 < |d| == Size(f, checksum)
            && Value4(d[EVENT_LEN_OFFSET..EVENT_LEN_OFFSET + 4]) == |d|
            && (checksum ==> d == Checksummed(d, crc))
  {
    EncodeLayout(f, crc, checksum);
    hide Bytes4, Covered;
    if checksum {
      assert Encode(f, crc, true)[..Size(f, true) - BINLOG_CHECKSUM_LEN] == Covered(f, true);
    }
  }

  lemma EncodeLocated(f: Fields, fde: FormatDescription, crc: Crc, checksum: bool)
    requires Fits(f, fde) && |f.db| < 256
    ensures var d := Encode(f, crc, checksum);
            var l := EVENT_LEN_OFFSET + 4 + |f.post|;
            && |d| > EVENT_TYPE_OFFSET
            && Locate(d, fde) == At(l + 1 + |f.Gap()|, l)
            && NameInside(d, Locate(d, fde), checksum)
            && |d| == Size(f, checksum)
            && d[l] == |f.db| && d[l + 1 + |f.Gap()|..l + 1 + |f.Gap()| + |f.db|] == f.db
  {
    hide Encode, Bytes4, Bytes2, Value2, Fields.Gap;
    var d := Encode(f, crc, checksum);
    EncodeLayout(f, crc, checksum);
    GapHolds(f);
    var l := EVENT_LEN_OFFSET + 4 + |f.post|;
    assert d[EVENT_TYPE_OFFSET] == d[..EVENT_LEN_OFFSET][EVENT_TYPE_OFFSET];
    if f.between.InQuery? {
      var gap := d[l + 1..l + 1 + |f.Gap()|];
      assert d[l + 1 + 2] == gap[2] && d[l + 1 + 3] == gap[3];
    }
  }

  function StatusOf(b: Between): seq<Byte> {
    match b case InQuery(_, _, _, status) => status case _ => []
  }

  /** An event that was cut off is reported if and only if it is a query, cut before the
      end of its status variables; what is missing behind them is not noticed. */
  lemma CutEvent(f: Fields, fde: FormatDescription, crc: Crc, checksum: bool, n: nat)
    requires Fits(f, fde) && |f.db| < 256 && EVENT_TYPE_OFFSET < n <= Size(f, checksum)
    ensures |Encode(f, crc, checksum)| == Size(f, checksum)
    ensures var cut := Locate(Encode(f, crc, checksum)[..n], fde);
            if f.between.InTableMap? || fde.commonHeaderLen + fde.queryHeaderLen + |StatusOf(f.between)| <= n
            then cut == Locate(Encode(f, crc, checksum), fde) && cut.At? else cut == TooShort
  {
    hide Encode, Bytes4, Bytes2, Value2, Fields.Gap;
    var d := Encode(f, crc, checksum);
    EncodeLocated(f, fde, crc, checksum);
    EncodeLayout(f, crc, checksum);
    GapHolds(f);
    var l := EVENT_LEN_OFFSET + 4 + |f.post|;
    assert d[EVENT_TYPE_OFFSET] == d[..EVENT_LEN_OFFSET][EVENT_TYPE_OFFSET];
    assert forall i :: 0 <= i < n ==> d[..n][i] == d[i];
    if f.between.InQuery? {
      var gap := d[l + 1..l + 1 + |f.Gap()|];
      assert d[l + 1 + 2] == gap[2] && d[l + 1 + 3] == gap[3];
    }
  }

  /** Only queries, queries that load a file and table maps have a name. */
  lemma OtherKinds(data: seq<Byte>, fde: FormatDescription)
    requires |data| > EVENT_TYPE_OFFSET && fde.Valid()
    ensures Locate(data, fde) == NoName <==> data[4] != 2 && data[4] != 18 && data[4] != 19
  {
  }

  lemma GapHolds(f: Fields)
    ensures f.between.InTableMap? ==> |f.Gap()| == 0
    ensures f.between.InOldQuery? ==> |f.Gap()| == |f.between.error| + |f.between.load|
    ensures f.between.InQuery? ==>
              |f.Gap()| == |f.between.error| + 2 + |f.between.more| + |f.between.load| + |f.between.status|
    ensures f.between.InQuery? && |f.between.error| == 2 ==>
              f.Gap()[2] == Bytes2(|f.between.status|)[0] && f.Gap()[3] == Bytes2(|f.between.status|)[1]
  {
    hide Bytes2;
  }

  /** The moves of `rewrite_event`, on an event given by its parts. */
  lemma ReplacedParts(
    head: seq<Byte>, size: seq<Byte>, post: seq<Byte>, count: Byte, gap: seq<Byte>, from: seq<Byte>, rest: seq<Byte>,
    to: seq<Byte>)
    requires |head| == EVENT_LEN_OFFSET && |size| == 4 && |to| < 255
    ensures var d := head + size + post + [count] + gap + from + rest;
            var l := EVENT_LEN_OFFSET + 4 + |post|;
            Replaced(d, l, l + 1 + |gap|, |from|, to) ==
              head + Bytes4(|d| - |from| + |to|) + post + [|to|] + gap + to + rest
  {
    hide Bytes4;
    var d := head + size + post + [count] + gap + from + rest;
    var l := EVENT_LEN_OFFSET + 4 + |post|;
    var n := l + 1 + |gap|;
    assert d[..l] == head + size + post;
    assert d[l + 1..n] == gap;
    assert d[n + |from|..] == rest;
    var moved := head + size + post + [|to|] + gap + to + rest;
    assert moved[..EVENT_LEN_OFFSET] == head;
    assert moved[EVENT_LEN_OFFSET + 4..] == post + [|to|] + gap + to + rest;
  }

  lemma ReplacedEncoding(f: Fields, to: seq<Byte>, sum: seq<Byte>, checksum: bool)
    requires |f.head| == EVENT_LEN_OFFSET && |f.db| < 256 && |to| < 255
    requires |sum| == if checksum then BINLOG_CHECKSUM_LEN else 0
    ensures var l := EVENT_LEN_OFFSET + 4 + |f.post|;
            Replaced(Covered(f, checksum) + sum, l, l + 1 + |f.Gap()|, |f.db|, to) ==
              Covered(f.(db := to), checksum) + sum
  {
    hide Bytes4, Replaced;
    var g := f.(db := to);
    ReplacedParts(f.head, Bytes4(Size(f, checksum)), f.post, |f.db|, f.Gap(), f.db, f.tail + sum, to);
    TailAppended(f.head + Bytes4(Size(f, checksum)) + f.post + [|f.db|] + f.Gap() + f.db, f.tail, sum);
    TailAppended(f.head + Bytes4(Size(g, checksum)) + f.post + [|to|] + f.Gap() + to, f.tail, sum);
    assert |Covered(f, checksum) + sum| - |f.db| + |to| == Size(g, checksum);
  }

  lemma TailAppended(front: seq<Byte>, tail: seq<Byte>, sum: seq<Byte>)
    ensures front + tail + sum == front + (tail + sum)
  {
  }

  lemma ReencodeReplaced(f: Fields, to: seq<Byte>, crc: Crc, checksum: bool)
    requires |f.head| == EVENT_LEN_OFFSET && |f.db| < 256 && |to| < 255
    requires |Encode(f, crc, checksum)| == Size(f, checksum)
    ensures var l := EVENT_LEN_OFFSET + 4 + |f.post|;
            var sized := Replaced(Encode(f, crc, checksum), l, l + 1 + |f.Gap()|, |f.db|, to);
            Encode(f.(db := to), crc, checksum) == if checksum then Checksummed(sized, crc) else sized
  {
    hide Bytes4, Covered, Replaced;
    var sum := if checksum then Bytes4(crc(Covered(f, checksum))) else [];
    assert Encode(f, crc, checksum) == Covered(f, checksum) + sum;
    ReplacedEncoding(f, to, sum, checksum);
    var covered := Covered(f.(db := to), checksum);
    var sized := covered + sum;
    if checksum {
      assert sized[..|sized| - BINLOG_CHECKSUM_LEN] == covered;
    } else {
      assert sized == covered;
    }
  }

  lemma ReencodeRule(f: Fields, fde: FormatDescription, rules: Rules, crc: Crc, checksum: bool)
    requires Fits(f, fde) && |f.db| < 256 && ShortTargets(rules) && f.db in rules && |rules[f.db]| < 255
    requires var d := Encode(f, crc, checksum); |d| > EVENT_TYPE_OFFSET && NameInside(d, Locate(d, fde), checksum)
    ensures Rewritten(Encode(f, crc, checksum), fde, rules, crc, checksum) ==
            Encode(f.(db := rules[f.db]), crc, checksum)
  {
    hide Bytes4, Locate, Covered, Replaced, Encode, Checksummed, ShortTargets;
    var d := Encode(f, crc, checksum);
    EncodeLocated(f, fde, crc, checksum);
    hide Fits;
    var to := rules[f.db];
    var l := EVENT_LEN_OFFSET + 4 + |f.post|;
    var sized := Replaced(d, l, l + 1 + |f.Gap()|, |f.db|, to);
    assert Rewritten(d, fde, rules, crc, checksum) == if checksum then Checksummed(sized, crc) else sized;
    ReencodeReplaced(f, to, crc, checksum);
  }

  /** Main result: rewriting an encoded event gives the encoding of the same fields
      with the mapped database name, or the same event when no rule applies. */
  lemma RewriteIsReencode(f: Fields, fde: FormatDescription, rules: Rules, crc: Crc, checksum: bool)
    requires Fits(f, fde) && |f.db| < 256 && ShortTargets(rules)
    ensures var d := Encode(f, crc, checksum);
            && |d| > EVENT_TYPE_OFFSET && NameInside(d, Locate(d, fde), checksum)
            && Rewritten(d, fde, rules, crc, checksum) ==
                 Encode(if f.db in rules then f.(db := rules[f.db]) else f, crc, checksum)
  {
    hide Locate, Encode, Fits;
    EncodeLocated(f, fde, crc, checksum);
    if f.db in rules {
      ReencodeRule(f, fde, rules, crc, checksum);
    }
  }

  /** Rewriting there and back gives the original bytes. */
  lemma RewriteRoundTrip(f: Fields, fde: FormatDescription, to: seq<Byte>, crc: Crc, checksum: bool)
    requires Fits(f, fde) && |f.db| < 255 && |to| < 255
    ensures var d := Encode(f, crc, checksum);
            && |d| > EVENT_TYPE_OFFSET && NameInside(d, Locate(d, fde), checksum)
            && var there := Rewritten(d, fde, map[f.db := to], crc, checksum);
               && |there| > EVENT_TYPE_OFFSET && NameInside(there, Locate(there, fde), checksum)
               && Rewritten(there, fde, map[to := f.db], crc, checksum) == d
  {
    var g := f.(db := to);
    RewriteIsReencode(f, fde, map[f.db := to], crc, checksum);
    RewriteIsReencode(g, fde, map[to := f.db], crc, checksum);
    assert g.(db := f.db) == f;
  }

  // ---------------------------------------------------------------------------
  // The format of current servers, byte by byte: 19 bytes of common header, 8 in the
  // header of a table map, 13 in that of a query

  const CURRENT := FormatDescription(19, 8, 13, false)

  predicate Renames(data: seq<Byte>, from: seq<Byte>, to: seq<Byte>, after: seq<Byte>, crc: Crc, checksum: bool)
    requires |to| < 255
  {
    && |data| > EVENT_TYPE_OFFSET && NameInside(data, Locate(data, CURRENT), checksum)
    && Rewritten(data, CURRENT, map[from := to], crc, checksum) == after
  }

  /** The common header: time, type, server, size, and then position and flags. */
  function Header(time: seq<Byte>, kind: Byte, server: seq<Byte>, size: nat, position: seq<Byte>): seq<Byte> {
    time + [kind] + server + Bytes4(size) + position
  }

  function Summed(data: seq<Byte>, crc: Crc, checksum: bool): seq<Byte> {
    data + if checksum then Bytes4(crc(data)) else []
  }

  /** A query event: its header, thread and time, the length of the name, the error code,
      the length of the status variables in two bytes, the low one first, the status
      variables, the name, and the rest. */
  function QueryEvent(time: seq<Byte>, server: seq<Byte>, size: nat, position: seq<Byte>, thread: seq<Byte>,
                      error: seq<Byte>, status: seq<Byte>, db: seq<Byte>, rest: seq<Byte>): seq<Byte>
    requires |db| < 256 && |status| < 0x1_0000
  {
    Header(time, 2, server, size, position) + thread + [|db|] + error + [|status| % 256, |status| / 256] + status + db
    + rest
  }

  lemma QueryFormat(time: seq<Byte>, server: seq<Byte>, position: seq<Byte>, thread: seq<Byte>, error: seq<Byte>,
                    status: seq<Byte>, from: seq<Byte>, rest: seq<Byte>, to: seq<Byte>, crc: Crc, checksum: bool)
    requires |time| == 4 && |server| == 4 && |position| == 6 && |thread| == 8 && |error| == 2
    requires |status| < 0x1_0000 && |from| < 256 && |to| < 255
    ensures var sum := if checksum then 4 else 0;
            var size := 32 + |status| + |rest| + sum;
            Renames(
              Summed(QueryEvent(time, server, size + |from|, position, thread, error, status, from, rest), crc, checksum),
              from, to,
              Summed(QueryEvent(time, server, size + |to|, position, thread, error, status, to, rest), crc, checksum),
              crc, checksum)
  {
    hide Encode, Locate, Rewritten, Bytes4, Bytes2;
    var f := Fields(time + [2] + server, position + thread, InQuery(error, [], [], status), from, rest);
    LowByteFirst(|status|);
    assert f.head[4] == 2;
    RewriteIsReencode(f, CURRENT, map[from := to], crc, checksum);
    QueryEncoded(f, time, server, position, thread, error, status, crc, checksum);
    QueryEncoded(f.(db := to), time, server, position, thread, error, status, crc, checksum);
  }

  lemma QueryEncoded(f: Fields, time: seq<Byte>, server: seq<Byte>, position: seq<Byte>, thread: seq<Byte>,
                     error: seq<Byte>, status: seq<Byte>, crc: Crc, checksum: bool)
    requires |time| == 4 && |server| == 4 && |position| == 6 && |thread| == 8 && |error| == 2 && |status| < 0x1_0000
    requires f.head == time + [2] + server && f.post == position + thread && f.between == InQuery(error, [], [], status)
    requires |f.db| < 256
    ensures var size := 32 + |status| + |f.db| + |f.tail| + if checksum then 4 else 0;
            Encode(f, crc, checksum) ==
            Summed(QueryEvent(time, server, size, position, thread, error, status, f.db, f.tail), crc, checksum)
  {
    hide Bytes4, Bytes2;
    LowByteFirst(|status|);
    var pair := Bytes2(|status|);
    assert f.Gap() == error + pair + status;
    var size := Bytes4(Size(f, checksum));
    Reassociate(time + [2] + server + size, position, thread, [|f.db|], error + pair + status, f.db + f.tail);
    var front := time + [2] + server + size + position + thread + [|f.db|];
    assert front + (error + pair + status) + f.db + f.tail == front + error + pair + status + f.db + f.tail;
    var data := Covered(f, checksum);
    assert data + [] == data;
  }

  lemma Reassociate(a: seq<Byte>, b: seq<Byte>, c: seq<Byte>, d: seq<Byte>, e: seq<Byte>, g: seq<Byte>)
    ensures a + (b + c) + d + e + g == a + b + c + d + e + g
    ensures a + (b + c) == a + b + c
  {
  }

  /** The same for a query that loads a file, which has thirteen bytes more before its
      status variables. */
  function LoadEvent(time: seq<Byte>, server: seq<Byte>, size: nat, position: seq<Byte>, thread: seq<Byte>,
                     error: seq<Byte>, load: seq<Byte>, status: seq<Byte>, db: seq<Byte>, rest: seq<Byte>): seq<Byte>
    requires |db| < 256 && |status| < 0x1_0000
  {
    Header(time, 18, server, size, position) + thread + [|db|] + error + [|status| % 256, |status| / 256] + load + status
    + db + rest
  }

  lemma LoadFormat(time: seq<Byte>, server: seq<Byte>, position: seq<Byte>, thread: seq<Byte>, error: seq<Byte>,
                   load: seq<Byte>, status: seq<Byte>, from: seq<Byte>, rest: seq<Byte>, to: seq<Byte>, crc: Crc)
    requires |time| == 4 && |server| == 4 && |position| == 6 && |thread| == 8 && |error| == 2 && |load| == 13
    requires |status| < 0x1_0000 && |from| < 256 && |to| < 255
    ensures var size := 45 + |status| + |rest|;
            Renames(LoadEvent(time, server, size + |from|, position, thread, error, load, status, from, rest), from, to,
                    LoadEvent(time, server, size + |to|, position, thread, error, load, status, to, rest), crc, false)
  {
    hide Encode, Locate, Rewritten, Bytes4, Bytes2;
    var f := Fields(time + [18] + server, position + thread, InQuery(error, [], load, status), from, rest);
    LowByteFirst(|status|);
    assert f.head[4] == 18;
    RewriteIsReencode(f, CURRENT, map[from := to], crc, false);
    LoadEncoded(f, time, server, position, thread, error, load, status, crc);
    LoadEncoded(f.(db := to), time, server, position, thread, error, load, status, crc);
  }

  lemma LoadEncoded(f: Fields, time: seq<Byte>, server: seq<Byte>, position: seq<Byte>, thread: seq<Byte>,
                    error: seq<Byte>, load: seq<Byte>, status: seq<Byte>, crc: Crc)
    requires |time| == 4 && |server| == 4 && |position| == 6 && |thread| == 8 && |error| == 2 && |load| == 13
    requires |status| < 0x1_0000 && |f.db| < 256
    requires f.head == time + [18] + server && f.post == position + thread && f.between == InQuery(error, [], load, status)
    ensures var size := 45 + |status| + |f.db| + |f.tail|;
            Encode(f, crc, false) ==
            LoadEvent(time, server, size, position, thread, error, load, status, f.db, f.tail)
  {
    hide Bytes4, Bytes2;
    LowByteFirst(|status|);
    var pair := Bytes2(|status|);
    assert f.Gap() == error + pair + load + status;
    var size := Bytes4(Size(f, false));
    Reassociate(time + [18] + server + size, position, thread, [|f.db|], error + pair + load + status, f.db + f.tail);
    var front := time + [18] + server + size + position + thread + [|f.db|];
    assert front + (error + pair + load + status) + f.db + f.tail == front + error + pair + load + status + f.db + f.tail;
  }

  /** A table map: its header, table id and flags, the length of the name, the name, and
      the rest. */
  function TableMapEvent(time: seq<Byte>, server: seq<Byte>, size: nat, position: seq<Byte>, table: seq<Byte>,
                         db: seq<Byte>, rest: seq<Byte>): seq<Byte>
    requires |db| < 256
  {
    Header(time, 19, server, size, position) + table + [|db|] + db + rest
  }

  lemma TableMapFormat(time: seq<Byte>, server: seq<Byte>, position: seq<Byte>, table: seq<Byte>, from: seq<Byte>,
                       rest: seq<Byte>, to: seq<Byte>, crc: Crc)
    requires |time| == 4 && |server| == 4 && |position| == 6 && |table| == 8 && |from| < 256 && |to| < 255
    ensures var size := 28 + |rest|;
            Renames(TableMapEvent(time, server, size + |from|, position, table, from, rest), from, to,
                    TableMapEvent(time, server, size + |to|, position, table, to, rest), crc, false)
  {
    hide Encode, Locate, Rewritten, Bytes4, Bytes2;
    var f := Fields(time + [19] + server, position + table, InTableMap, from, rest);
    assert f.head[4] == 19;
    RewriteIsReencode(f, CURRENT, map[from := to], crc, false);
    TableMapEncoded(f, time, server, position, table, crc);
    TableMapEncoded(f.(db := to), time, server, position, table, crc);
  }

  lemma TableMapEncoded(f: Fields, time: seq<Byte>, server: seq<Byte>, position: seq<Byte>, table: seq<Byte>, crc: Crc)
    requires |time| == 4 && |server| == 4 && |position| == 6 && |table| == 8 && |f.db| < 256
    requires f.head == time + [19] + server && f.post == position + table && f.between == InTableMap
    ensures var size := 28 + |f.db| + |f.tail|;
            Encode(f, crc, false) == TableMapEvent(time, server, size, position, table, f.db, f.tail)
  {
    hide Bytes4;
    var size := Bytes4(Size(f, false));
    Reassociate(time + [19] + server + size, position, table, [|f.db|], [], f.db + f.tail);
    var front := time + [19] + server + size + position + table + [|f.db|];
    assert front + [] == front;
  }

  /** The rewriter object: its rules, and the edits it makes in an event buffer. */
  class Rewriter {
    var rules: Rules
    const crc32: Crc

    constructor (crc32: Crc)
      ensures rules == map[] && this.crc32 == crc32
    {
      rules := map[];
      this.crc32 := crc32;
    }

    /** `std::map::insert` keeps a rule that is already there. */
    method RegisterRule(from: seq<Byte>, to: seq<Byte>)
      modifies this
      ensures rules == if from in old(rules) then old(rules) else old(rules)[from := to]
    {
      if from !in rules {
        rules := rules[from := to];
      }
    }

    method UnregisterRule(from: seq<Byte>)
      modifies this
      ensures from !in rules
      ensures forall k :: k != from ==> (k in rules <==> k in old(rules)) && (k in rules ==> rules[k] == old(rules)[k])
    {
      rules := rules - {from};
    }

    /** `get_dbname_and_dblen_offsets` */
    method GetOffsets(buffer: array<Byte>, dataSize: nat, fde: FormatDescription)
      returns (name: nat, length: nat, needsCheck: bool, error: bool)
      requires EVENT_TYPE_OFFSET < dataSize <= buffer.Length && fde.Valid()
      ensures Locate(buffer[..dataSize], fde) ==
                if error then TooShort else if needsCheck then At(name, length) else NoName
    {
      name, length, needsCheck, error := 0, 0, false, false;
      var kind := buffer[EVENT_TYPE_OFFSET];
      if kind == TABLE_MAP_EVENT {
        length := fde.commonHeaderLen + fde.tableMapHeaderLen;
        name := length + 1;
        needsCheck := true;
      } else if kind == EXECUTE_LOAD_QUERY_EVENT || kind == QUERY_EVENT {
        var common: nat := fde.commonHeaderLen;
        if dataSize < common + fde.queryHeaderLen {
          error := true;
          return;
        }
        var statusLen := 0;
        if fde.queryHeaderLen - QUERY_HEADER_MINIMAL_LEN > 0 {
          statusLen := Value2(buffer[common + Q_STATUS_VARS_LEN_OFFSET], buffer[common + Q_STATUS_VARS_LEN_OFFSET + 1]);
        }
        length := common + Q_DB_LEN_OFFSET;
        name := common + fde.queryHeaderLen + statusLen;
        if length > dataSize || name > dataSize {
          error := true;
          return;
        }
        if kind == EXECUTE_LOAD_QUERY_EVENT {
          name := name + EXECUTE_LOAD_QUERY_EXTRA_HEADER_LEN;
        }
        needsCheck := true;
      }
    }

    /** `rewrite_event`: the event in the buffer is edited in place, in a larger
        buffer if need be. The name is read wherever it is said to be; an event is
        edited only if its name lies inside it. */
    method RewriteEvent(buffer: array<Byte>, dataSize: nat, fde: FormatDescription, recalculateCrc: bool)
      returns (theBuffer: array<Byte>, theSize: nat, error: bool)
      requires EVENT_TYPE_OFFSET < dataSize <= buffer.Length && fde.Valid() && ShortTargets(rules)
      requires NameReadable(buffer[..], Locate(buffer[..dataSize], fde))
      requires RuleApplies(buffer[..], Locate(buffer[..dataSize], fde), rules) ==>
                 NameInside(buffer[..dataSize], Locate(buffer[..dataSize], fde), recalculateCrc)
      modifies buffer
      ensures theBuffer == buffer || fresh(theBuffer)
      ensures theSize <= theBuffer.Length && buffer.Length <= theBuffer.Length
      ensures error <==> Locate(old(buffer[..dataSize]), fde) == TooShort
      ensures if old(RuleApplies(buffer[..], Locate(buffer[..dataSize], fde), rules)) then
                && theBuffer[..theSize] == Rewritten(old(buffer[..dataSize]), fde, rules, crc32, recalculateCrc)
                && (theBuffer != buffer ==> theSize > buffer.Length)
              else theBuffer == buffer && theSize == dataSize && buffer[..] == old(buffer[..])
    {
      hide Locate, Bytes4, Replaced, Checksummed, Rewritten;
      theBuffer, theSize := buffer, dataSize;
      ghost var data := buffer[..dataSize];
      var name, length, needsCheck, err := GetOffsets(buffer, dataSize, fde);
      error := err;
      if error || !needsCheck {
        return;
      }
      var from := buffer[name..name + buffer[length]];
      assert from == buffer[..][name..name + buffer[..][length]];
      if from !in rules {
        return;
      }
      SliceOfEvent(buffer[..], dataSize, name, length);
      RuleRewrites(data, fde, rules, crc32, recalculateCrc);
      theBuffer, theSize := Rename(buffer, dataSize, name, length, |from|, rules[from], crc32, recalculateCrc);
    }

    /** `rewrite_raw`; a payload is handed back when it is to be skipped, otherwise
        the caller has to rewrite its content. */
    method RewriteRaw(buffer: array<Byte>, dataSize: nat, fde: FormatDescription, skipPayload: bool)
      returns (theBuffer: array<Byte>, theSize: nat, error: bool, payloadLeft: bool)
      requires EVENT_TYPE_OFFSET < dataSize <= buffer.Length && fde.Valid() && ShortTargets(rules)
      requires NameReadable(buffer[..], Locate(buffer[..dataSize], fde))
      requires RuleApplies(buffer[..], Locate(buffer[..dataSize], fde), rules) ==>
                 NameInside(buffer[..dataSize], Locate(buffer[..dataSize], fde), fde.checksums)
      modifies buffer
      ensures theBuffer == buffer || fresh(theBuffer)
      ensures theSize <= theBuffer.Length
      ensures var payload := old(buffer[EVENT_TYPE_OFFSET]) == TRANSACTION_PAYLOAD_EVENT && rules != map[];
              && (payloadLeft <==> payload && !skipPayload)
              && (payload ==> theSize == if skipPayload then buffer.Length else dataSize)
              && (error <==> !payload && rules != map[] && Locate(old(buffer[..dataSize]), fde) == TooShort)
              && if !payload && old(RuleApplies(buffer[..], Locate(buffer[..dataSize], fde), rules)) then
                   theBuffer[..theSize] == Rewritten(old(buffer[..dataSize]), fde, rules, crc32, fde.checksums)
                 else theBuffer == buffer && buffer[..] == old(buffer[..]) && (!payload ==> theSize == dataSize)
    {
      theBuffer, theSize, error, payloadLeft := buffer, dataSize, false, false;
      var kind := buffer[EVENT_TYPE_OFFSET];
      if rules == map[] {
        return;
      }
      if kind == TRANSACTION_PAYLOAD_EVENT {
        if skipPayload {
          theSize := buffer.Length;
        } else {
          payloadLeft := true;
        }
      } else {
        theBuffer, theSize, error := RewriteEvent(buffer, dataSize, fde, fde.checksums);
      }
    }
  }

  /** A payload of five bytes in a buffer of eight, with a rule but skipped: it is handed
      back as eight bytes. */
  method SkippedPayloadSize(crc: Crc) returns (size: nat)
    ensures size == 8
  {
    var rewriter := new Rewriter(crc);
    rewriter.RegisterRule([97], [98]);
    assert [97] in rewriter.rules;
    var buffer := new Byte[8](i => 40);
    var fde := FormatDescription(19, 8, 13, false);
    var data, n, error, left := rewriter.RewriteRaw(buffer, 5, fde, true);
    size := n;
  }

  lemma SliceOfEvent(memory: seq<Byte>, size: nat, name: nat, length: nat)
    requires length < size <= |memory| && name + memory[length] <= size
    ensures memory[..size][length] == memory[length]
    ensures memory[..size][name..name + memory[length]] == memory[name..name + memory[length]]
  {
  }

  /** What is done for a rule: a larger buffer if need be, the edits, the checksum. */
  method Rename(buffer: array<Byte>, dataSize: nat, name: nat, length: nat, fromLen: nat, to: seq<Byte>, crc: Crc,
                checksum: bool)
    returns (theBuffer: array<Byte>, theSize: nat)
    requires EVENT_LEN_OFFSET + 4 <= length < name && name + fromLen <= dataSize <= buffer.Length && |to| < 255
    modifies buffer
    ensures theBuffer == buffer || (fresh(theBuffer) && theSize > buffer.Length)
    ensures theSize <= theBuffer.Length && buffer.Length <= theBuffer.Length
    ensures var sized := Replaced(old(buffer[..dataSize]), length, name, fromLen, to);
            theBuffer[..theSize] == if checksum then Checksummed(sized, crc) else sized
  {
    hide Bytes4, Replaced, Checksummed;
    ghost var data := buffer[..dataSize];
    theBuffer := buffer;
    var delta := |to| - fromLen;
    if delta + dataSize > buffer.Length {
      theBuffer := Reallocated(buffer, buffer.Length + delta);
    }
    assert theBuffer[..dataSize] == data;
    theSize := dataSize + delta;
    Edit(theBuffer, dataSize, name, length, fromLen, to);
    if checksum {
      StoreChecksum(theBuffer, theSize, crc);
    }
  }

  /** `my_realloc` */
  method Reallocated(buffer: array<Byte>, size: nat) returns (r: array<Byte>)
    requires buffer.Length <= size
    ensures fresh(r) && r.Length == size && r[..buffer.Length] == buffer[..]
  {
    r := new Byte[size](i => 0);
    forall i | 0 <= i < buffer.Length {
      r[i] := buffer[i];
    }
  }

  /** The checksum goes into the last four bytes of the event. */
  method StoreChecksum(buffer: array<Byte>, size: nat, crc: Crc)
    requires BINLOG_CHECKSUM_LEN <= size <= buffer.Length
    modifies buffer
    ensures buffer[..size] == Checksummed(old(buffer[..size]), crc)
  {
    hide Bytes4;
    var end := size - BINLOG_CHECKSUM_LEN;
    assert buffer[..size][..end] == buffer[..end];
    var sum := Bytes4(crc(buffer[..end]));
    forall i | 0 <= i < 4 {
      buffer[end + i] := sum[i];
    }
  }

  /** The tail is moved first, then the new name is copied in. */
  method MoveTail(buffer: array<Byte>, dataSize: nat, name: nat, fromLen: nat, to: seq<Byte>)
    requires name + fromLen <= dataSize <= buffer.Length && dataSize - fromLen + |to| <= buffer.Length
    modifies buffer
    ensures buffer[..dataSize - fromLen + |to|] ==
            old(buffer[..name]) + to + old(buffer[name + fromLen..dataSize])
  {
    var theSize := dataSize - fromLen + |to|;
    if theSize != dataSize {
      Move(buffer, name + |to|, name + fromLen, dataSize - (name + fromLen));
    }
    assert buffer[name + |to|..theSize] == old(buffer[name + fromLen..dataSize]);
    CopyIn(buffer, name, to, theSize);
  }

  /** `memmove` inside the buffer. */
  method Move(buffer: array<Byte>, to: nat, from: nat, count: nat)
    requires to + count <= buffer.Length && from + count <= buffer.Length
    modifies buffer
    ensures buffer[to..to + count] == old(buffer[from..from + count])
    ensures forall i :: 0 <= i < to ==> buffer[i] == old(buffer[i])
  {
    forall i | 0 <= i < count {
      buffer[to + i] := buffer[from + i];
    }
  }

  /** `memcpy` into the buffer. */
  method CopyIn(buffer: array<Byte>, at: nat, bytes: seq<Byte>, size: nat)
    requires at + |bytes| <= size <= buffer.Length
    modifies buffer
    ensures buffer[..size] == old(buffer[..at]) + bytes + old(buffer[at + |bytes|..size])
  {
    forall i | 0 <= i < |bytes| {
      buffer[at + i] := bytes[i];
    }
  }

  /** The edits of the name, the tail and the two lengths, in place. */
  method Edit(buffer: array<Byte>, dataSize: nat, name: nat, length: nat, fromLen: nat, to: seq<Byte>)
    requires EVENT_LEN_OFFSET + 4 <= length < name && name + fromLen <= dataSize && |to| < 255
    requires dataSize <= buffer.Length && dataSize - fromLen + |to| <= buffer.Length
    modifies buffer
    ensures buffer[..dataSize - fromLen + |to|] == Replaced(old(buffer[..dataSize]), length, name, fromLen, to)
  {
    hide Bytes4, Replaced;
    ghost var data := buffer[..dataSize];
    var theSize := dataSize - fromLen + |to|;
    assert buffer[..name] == data[..name] && buffer[name + fromLen..dataSize] == data[name + fromLen..];
    MoveTail(buffer, dataSize, name, fromLen, to);
    assert buffer[..theSize] == data[..name] + to + data[name + fromLen..];
    ReplacedByEdits(data, length, name, fromLen, to);
    StoreLengths(buffer, theSize, length, |to|);
  }

  /** The name length and the event length. */
  method StoreLengths(buffer: array<Byte>, size: nat, length: nat, nameLen: Byte)
    requires EVENT_LEN_OFFSET + 4 <= length < size <= buffer.Length
    modifies buffer
    ensures var marked := old(buffer[..size])[length := nameLen];
            buffer[..size] == marked[..EVENT_LEN_OFFSET] + Bytes4(size) + marked[EVENT_LEN_OFFSET + 4..]
  {
    hide Bytes4;
    buffer[length] := nameLen;
    var bytes := Bytes4(size);
    forall i | 0 <= i < 4 {
      buffer[EVENT_LEN_OFFSET + i] := bytes[i];
    }
  }

  lemma ReplacedByEdits(data: seq<Byte>, length: nat, name: nat, fromLen: nat, to: seq<Byte>)
    requires EVENT_LEN_OFFSET + 4 <= length < name && name + fromLen <= |data| && |to| < 255
    ensures var named := data[..name] + to + data[name + fromLen..];
            var marked := named[length := |to|];
            Replaced(data, length, name, fromLen, to) ==
              marked[..EVENT_LEN_OFFSET] + Bytes4(|named|) + marked[EVENT_LEN_OFFSET + 4..]
  {
    hide Bytes4;
    var named := data[..name] + to + data[name + fromLen..];
    assert named[length := |to|] == data[..length] + [|to|] + data[length + 1..name] + to + data[name + fromLen..];
  }
}
