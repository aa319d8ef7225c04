/** Where statements end: at the first delimiter outside quotes. Stated for lines
    with no comment and no backslash outside quotes, and with comments not preserved,
    against an independent reading of the line. StatementComments has the lines with
    comments. */
module StatementSplitting {
  import opened Optional
  import opened StatementScanner
  import opened StatementLiterals

  /** Neither a comment nor a backslash begins at `p`. */
  predicate Plain(env: Env, line: string, p: nat)
    requires p < |line|
  {
    && line[p] != '\\' && !StartsLineComment(env, line, p)
    && !(line[p] == '/' && At(line, p + 1) == '*')
  }

  /** The text from `p` on is simple outside its literals and delimiters. */
  predicate Simple(env: Env, line: string, p: nat, delimiter: string, escapes: bool)
    requires p <= |line| && delimiter != []
    decreases |line| - p
  {
    if p == |line| then true
    else if PrefixAt(line, p, delimiter) then Simple(env, line, p + |delimiter|, delimiter, escapes)
    else if IsQuote(line[p]) then
      match ReadLiteral(line, p + 1, line[p], escapes)
      case Closed(e) => Simple(env, line, e, delimiter, escapes)
      case Open(_) => true
    else Plain(env, line, p) && Simple(env, line, p + 1, delimiter, escapes)
  }

  /** Every line without quotes, backslashes and comment marks is simple. */
  lemma {:induction false} UnmarkedIsSimple(env: Env, line: string, p: nat, delimiter: string, escapes: bool)
    requires p <= |line| && delimiter != []
    requires forall c <- line :: c != '\\' && c != '#' && !IsQuote(c)
    requires forall i :: 0 <= i < |line| ==>
               !(line[i] == '-' && At(line, i + 1) == '-') && !(line[i] == '/' && At(line, i + 1) == '*')
    ensures Simple(env, line, p, delimiter, escapes)
    decreases |line| - p
  {
    hide PrefixAt, Space;
    if p < |line| {
      assert line[p] in line;
      if PrefixAt(line, p, delimiter) {
        DelimiterInLine(line, p, delimiter);
        UnmarkedIsSimple(env, line, p + |delimiter|, delimiter, escapes);
      } else {
        UnmarkedIsSimple(env, line, p + 1, delimiter, escapes);
      }
    }
  }

  lemma DelimiterInLine(line: string, p: nat, delimiter: string)
    requires PrefixAt(line, p, delimiter)
    ensures p + |delimiter| <= |line|
  {
  }

  /** The first delimiter from `p` on that is not inside a literal. */
  function FirstDelimiter(line: string, p: nat, delimiter: string, escapes: bool): (r: Option<nat>)
    requires p <= |line|
    ensures r.Some? ==> p <= r.value <= |line| && PrefixAt(line, r.value, delimiter)
    decreases |line| - p
  {
    if PrefixAt(line, p, delimiter) then Some(p)
    else if p == |line| then None
    else if IsQuote(line[p]) then
      match ReadLiteral(line, p + 1, line[p], escapes)
      case Closed(e) => FirstDelimiter(line, e, delimiter, escapes)
      case Open(_) => None
    else FirstDelimiter(line, p + 1, delimiter, escapes)
  }

  /** How a text without delimiters ends: in a literal with that quote, or outside one
      (NUL); and where: at the end of the line, or where a literal is cut off. */
  datatype Ending = Ending(quote: char, end: nat)

  function EndingOf(line: string, p: nat, escapes: bool): (r: Ending)
    requires p <= |line|
    ensures p <= r.end <= |line|
    decreases |line| - p
  {
    if p == |line| then Ending(NUL, p)
    else if IsQuote(line[p]) then
      match ReadLiteral(line, p + 1, line[p], escapes)
      case Closed(e) => EndingOf(line, e, escapes)
      case Open(e) => Ending(line[p], e)
    else EndingOf(line, p + 1, escapes)
  }

  function TrimLeft(env: Env, t: string): string {
    if t != [] && Space(env, t[0]) then TrimLeft(env, t[1..]) else t
  }

  /** Nothing of the current statement has been accepted yet. */
  predicate AtStart(s: Scan) {
    s.text == [] && s.carry.buffer == []
  }

  /** The statement's text with `t` added; spaces in front of a statement are dropped. */
  function Collected(env: Env, s: Scan, t: string): string {
    s.text + if AtStart(s) then TrimLeft(env, t) else t
  }

  /** Between tokens, on a line of simple text. */
  ghost predicate Outside(env: Env, line: string, s: Scan) {
    && s.pos <= |line| && s.stop == Running && !s.needSpace && s.hint == NoHint
    && s.carry.quote == NUL && !s.carry.comment
    && !env.preserveComments
    && !Space(env, '\'') && !Space(env, '"') && !Space(env, '`') && !Space(env, s.carry.session.delimiter[0])
    && Simple(env, line, s.pos, s.carry.session.delimiter, !s.carry.session.noBackslashEscapes)
  }

  lemma OutsideStep(env: Env, line: string, s: Scan)
    requires Outside(env, line, s) && s.pos < |line| && !PrefixAt(line, s.pos, s.carry.session.delimiter)
    ensures var c := line[s.pos];
            Next(env, line, s) ==
              if AtStart(s) && Space(env, c) then s.(pos := s.pos + 1)
              else s.(pos := s.pos + 1, text := s.text + [c],
                      carry := s.carry.(quote := if IsQuote(c) then c else NUL))
  {
    hide PrefixAt, CString, CStringEnd, SpacesEnd, CommentEnd, ParamsEnd, OnShortCommand, OnDelimiter, ReadLiteral;
    assert s.text + "" + [line[s.pos]] == s.text + [line[s.pos]];
    assert IsQuote(line[s.pos]) || Plain(env, line, s.pos);
  }

  lemma CollectedStep(env: Env, line: string, s: Scan, n: Scan, e: nat)
    requires s.pos < n.pos <= e <= |line| && n.carry.buffer == s.carry.buffer
    requires if AtStart(s) && Space(env, line[s.pos]) then n.pos == s.pos + 1 && n.text == s.text
             else n.text == s.text + line[s.pos..n.pos]
    ensures Collected(env, s, line[s.pos..e]) == Collected(env, n, line[n.pos..e])
  {
    var t := line[s.pos..e];
    assert t[0] == line[s.pos] && t[1..] == line[s.pos + 1..e];
    assert t == line[s.pos..n.pos] + line[n.pos..e];
    if AtStart(s) && Space(env, line[s.pos]) {
    } else {
      assert n.text != [];
      assert AtStart(s) ==> TrimLeft(env, t) == t;
      assert s.text + t == n.text + line[n.pos..e];
    }
  }

  /** A literal met between tokens is taken over whole. */
  lemma LiteralTaken(env: Env, line: string, s: Scan)
    requires Outside(env, line, s) && s.pos < |line| && !PrefixAt(line, s.pos, s.carry.session.delimiter)
    requires IsQuote(line[s.pos])
    ensures var r := ReadLiteral(line, s.pos + 1, line[s.pos], !s.carry.session.noBackslashEscapes);
            && (r.Closed? ==>
                  ScanLine(env, line, s) ==
                  ScanLine(env, line, s.(pos := r.end, text := s.text + line[s.pos..r.end])))
            && (r.Open? ==>
                  ScanLine(env, line, s) ==
                  s.(pos := r.end, text := s.text + line[s.pos..r.end],
                     stop := if IsCut(line, r) then Broke else Running, carry := s.carry.(quote := line[s.pos])))
  {
    hide Next, ScanLine, Simple;
    OutsideStep(env, line, s);
    ScanUnfold(env, line, s);
    var n := Next(env, line, s);
    LiteralCopied(env, line, n);
    var r := ReadLiteral(line, n.pos, line[s.pos], !s.carry.session.noBackslashEscapes);
    if r.Closed? {
      TextStep(line, s.text, s.pos, n.pos, r.end);
      assert line[s.pos..n.pos] == [line[s.pos]];
      assert n.carry.(quote := NUL) == s.carry;
    } else {
      TextStep(line, s.text, s.pos, n.pos, r.end);
      assert line[s.pos..n.pos] == [line[s.pos]];
      ScanUnfold(env, line, Copied(line, n));
    }
  }

  /** Main result: the scan gets from between tokens to the first delimiter outside
      quotes with exactly the text up to there; without one it accepts the rest of the
      line and sends nothing. */
  lemma {:induction false} StatementFound(env: Env, line: string, s: Scan)
    requires Outside(env, line, s)
    ensures match FirstDelimiter(line, s.pos, s.carry.session.delimiter, !s.carry.session.noBackslashEscapes)
            case Some(e) =>
              ScanLine(env, line, s) ==
              ScanLine(env, line, s.(pos := e, text := Collected(env, s, line[s.pos..e])))
            case None =>
              var escapes := !s.carry.session.noBackslashEscapes;
              var r := EndingOf(line, s.pos, escapes);
              ScanLine(env, line, s) ==
              Scan(r.end, Collected(env, s, line[s.pos..r.end]), false, NoHint,
                   if r.end < |line| then Broke else Running, s.carry.(quote := r.quote))
    ensures FirstDelimiter(line, s.pos, s.carry.session.delimiter, !s.carry.session.noBackslashEscapes).Some? ==>
              Simple(env, line,
                FirstDelimiter(line, s.pos, s.carry.session.delimiter, !s.carry.session.noBackslashEscapes).value,
                s.carry.session.delimiter, !s.carry.session.noBackslashEscapes)
    decreases |line| - s.pos
  {
    hide Next, ScanLine, Simple, FirstDelimiter, ReadLiteral, EndingOf, PrefixAt, TrimLeft;
    var escapes := !s.carry.session.noBackslashEscapes;
    var d := s.carry.session.delimiter;
    ReadUnfold(env, line, s.pos, d, escapes);
    if PrefixAt(line, s.pos, d) || s.pos == |line| {
      EndingUnfold(line, s.pos, escapes);
      ScanUnfold(env, line, s);
      NothingCollected(env, s);
      assert line[s.pos..s.pos] == [];
    } else if IsQuote(line[s.pos]) && ReadLiteral(line, s.pos + 1, line[s.pos], escapes).Open? {
      EndingUnfold(line, s.pos, escapes);
      LiteralTaken(env, line, s);
      NotTrimmed(env, s, line[s.pos..EndingOf(line, s.pos, escapes).end]);
    } else {
      var n := AfterToken(env, line, s);
      TokenTaken(env, line, s);
      StatementFound(env, line, n);
      var found := FirstDelimiter(line, n.pos, d, escapes);
      var e := if found.Some? then found.value else EndingOf(line, n.pos, escapes).end;
      TokenCollected(env, line, s, e);
    }
  }

  lemma NothingCollected(env: Env, s: Scan)
    ensures Collected(env, s, []) == s.text && s.(pos := s.pos, text := s.text) == s
  {
  }

  /** The scan after one token outside literals: a character, or a whole literal. */
  function AfterToken(env: Env, line: string, s: Scan): Scan
    requires s.pos < |line|
  {
    var c := line[s.pos];
    if IsQuote(c) then
      match ReadLiteral(line, s.pos + 1, c, !s.carry.session.noBackslashEscapes)
      case Closed(e) => s.(pos := e, text := s.text + line[s.pos..e])
      case Open(_) => s
    else if AtStart(s) && Space(env, c) then s.(pos := s.pos + 1)
    else s.(pos := s.pos + 1, text := s.text + [c])
  }

  lemma TokenTaken(env: Env, line: string, s: Scan)
    requires Outside(env, line, s) && s.pos < |line| && !PrefixAt(line, s.pos, s.carry.session.delimiter)
    requires IsQuote(line[s.pos]) ==>
               ReadLiteral(line, s.pos + 1, line[s.pos], !s.carry.session.noBackslashEscapes).Closed?
    ensures var n, d, escapes := AfterToken(env, line, s), s.carry.session.delimiter, !s.carry.session.noBackslashEscapes;
            && s.pos < n.pos <= |line| && n.carry == s.carry && Outside(env, line, n)
            && ScanLine(env, line, s) == ScanLine(env, line, n)
            && FirstDelimiter(line, s.pos, d, escapes) == FirstDelimiter(line, n.pos, d, escapes)
            && EndingOf(line, s.pos, escapes) == EndingOf(line, n.pos, escapes)
  {
    hide Next, ScanLine, Simple, FirstDelimiter, ReadLiteral, EndingOf, PrefixAt;
    ReadUnfold(env, line, s.pos, s.carry.session.delimiter, !s.carry.session.noBackslashEscapes);
    EndingUnfold(line, s.pos, !s.carry.session.noBackslashEscapes);
    if IsQuote(line[s.pos]) {
      LiteralTaken(env, line, s);
    } else {
      OutsideStep(env, line, s);
      ScanUnfold(env, line, s);
    }
  }

  lemma TokenCollected(env: Env, line: string, s: Scan, e: nat)
    requires Outside(env, line, s) && s.pos < |line|
    requires IsQuote(line[s.pos]) ==>
               ReadLiteral(line, s.pos + 1, line[s.pos], !s.carry.session.noBackslashEscapes).Closed?
    requires AfterToken(env, line, s).pos <= e <= |line|
    ensures Collected(env, s, line[s.pos..e]) ==
            Collected(env, AfterToken(env, line, s), line[AfterToken(env, line, s).pos..e])
  {
    hide Simple, ReadLiteral, TrimLeft;
    assert line[s.pos..s.pos + 1] == [line[s.pos]];
    CollectedStep(env, line, s, AfterToken(env, line, s), e);
  }

  lemma NotTrimmed(env: Env, s: Scan, t: string)
    requires t != [] && !Space(env, t[0])
    ensures Collected(env, s, t) == s.text + t
  {
  }

  lemma EndingUnfold(line: string, p: nat, escapes: bool)
    requires p <= |line|
    ensures p == |line| ==> EndingOf(line, p, escapes) == Ending(NUL, p)
    ensures p < |line| && !IsQuote(line[p]) ==> EndingOf(line, p, escapes) == EndingOf(line, p + 1, escapes)
    ensures p < |line| && IsQuote(line[p]) ==>
              match ReadLiteral(line, p + 1, line[p], escapes)
              case Closed(e) => EndingOf(line, p, escapes) == EndingOf(line, e, escapes)
              case Open(e) => EndingOf(line, p, escapes) == Ending(line[p], e)
  {
    hide ReadLiteral;
  }

  /** The readings of a line, one token on. */
  lemma ReadUnfold(env: Env, line: string, p: nat, d: string, escapes: bool)
    requires p <= |line| && d != []
    ensures PrefixAt(line, p, d) ==> FirstDelimiter(line, p, d, escapes) == Some(p)
    ensures !PrefixAt(line, p, d) && p == |line| ==> FirstDelimiter(line, p, d, escapes) == None
    ensures !PrefixAt(line, p, d) && p < |line| && !IsQuote(line[p]) ==>
              && FirstDelimiter(line, p, d, escapes) == FirstDelimiter(line, p + 1, d, escapes)
              && (Simple(env, line, p, d, escapes) ==> Simple(env, line, p + 1, d, escapes))
    ensures !PrefixAt(line, p, d) && p < |line| && IsQuote(line[p]) ==>
              match ReadLiteral(line, p + 1, line[p], escapes)
              case Closed(e) =>
                && FirstDelimiter(line, p, d, escapes) == FirstDelimiter(line, e, d, escapes)
                && (Simple(env, line, p, d, escapes) ==> Simple(env, line, e, d, escapes))
              case Open(_) => FirstDelimiter(line, p, d, escapes) == None
  {
    hide PrefixAt, ReadLiteral;
  }

  /** The statement is no client command, and running it as action `n` neither ends
      the session nor changes it. */
  predicate Runs(env: Env, session: Session, n: nat, text: string) {
    && !env.isNamed(n, text, session)
    && !env.runStatement(n, text, session).quit
    && env.runStatement(n, text, session).session == session
  }

  /** So do all these statements, one after the other from action `n` on. */
  predicate AllRun(env: Env, session: Session, n: nat, statements: seq<string>) {
    forall i :: 0 <= i < |statements| ==> Runs(env, session, n + i, statements[i])
  }

  /** The text of the statement that ends at `e`. */
  function Statement(env: Env, lead: string, t: string): string {
    lead + if lead == [] then TrimLeft(env, t) else t
  }

  /** The statements a line completes, `lead` being what was pending before `p`. */
  function Statements(env: Env, line: string, p: nat, lead: string, delimiter: string, escapes: bool): seq<string>
    requires p <= |line| && delimiter != []
    decreases |line| - p
  {
    match FirstDelimiter(line, p, delimiter, escapes)
    case None => []
    case Some(e) =>
      [Statement(env, lead, line[p..e])]
      + Statements(env, line, e + |delimiter|, [], delimiter, escapes)
  }

  function AllSent(statements: seq<string>): seq<Action> {
    seq(|statements|, i requires 0 <= i < |statements| => Sent(statements[i]))
  }

  lemma AtDelimiter(env: Env, line: string, s: Scan)
    requires Outside(env, line, s) && PrefixAt(line, s.pos, s.carry.session.delimiter)
    requires Runs(env, s.carry.session, |s.carry.log|, s.carry.buffer + s.text)
    ensures ScanLine(env, line, s) ==
            ScanLine(env, line, Scan(s.pos + |s.carry.session.delimiter|, [], false, NoHint, Running,
              s.carry.(buffer := [], log := s.carry.log + [Sent(s.carry.buffer + s.text)])))
  {
    hide Next, ScanLine, Simple, Runs;
    DelimiterTurn(env, line, s);
    ScanUnfold(env, line, s);
  }

  lemma DelimiterTurn(env: Env, line: string, s: Scan)
    requires Outside(env, line, s) && PrefixAt(line, s.pos, s.carry.session.delimiter)
    requires Runs(env, s.carry.session, |s.carry.log|, s.carry.buffer + s.text)
    ensures s.pos < |line|
    ensures Next(env, line, s) ==
            Scan(s.pos + |s.carry.session.delimiter|, [], false, NoHint, Running,
              s.carry.(buffer := [], log := s.carry.log + [Sent(s.carry.buffer + s.text)]))
  {
    hide Simple, CString, CStringEnd, SpacesEnd, CommentEnd, ParamsEnd, OnShortCommand, OnBackslash;
    var d := s.carry.session.delimiter;
    assert d[0] in d && line[s.pos] == d[0] by { assert line[s.pos..s.pos + |d|][0] == d[0]; }
    assert Choose(env, line, s) == Delimiter;
    assert line[s.pos + |d|..s.pos + |d|] == [];
    var text := s.carry.buffer + s.text;
    assert text + [] + [] == text;
  }

  /** The scan after the statement that ends at `e`. */
  function AfterStatement(env: Env, line: string, s: Scan, e: nat): Scan
    requires s.pos <= e <= |line|
  {
    var sent := Statement(env, s.carry.buffer + s.text, line[s.pos..e]);
    Scan(e + |s.carry.session.delimiter|, [], false, NoHint, Running,
         s.carry.(buffer := [], log := s.carry.log + [Sent(sent)]))
  }

  lemma FirstSends(env: Env, line: string, s: Scan, e: nat)
    requires Outside(env, line, s)
    requires FirstDelimiter(line, s.pos, s.carry.session.delimiter, !s.carry.session.noBackslashEscapes) == Some(e)
    requires Runs(env, s.carry.session, |s.carry.log|, Statement(env, s.carry.buffer + s.text, line[s.pos..e]))
    ensures ScanLine(env, line, s) == ScanLine(env, line, AfterStatement(env, line, s, e))
    ensures Outside(env, line, AfterStatement(env, line, s, e))
  {
    hide ScanLine, FirstDelimiter, Runs, TrimLeft, Simple, PrefixAt;
    StatementFound(env, line, s);
    var at := s.(pos := e, text := Collected(env, s, line[s.pos..e]));
    CollectedIsStatement(env, s, line[s.pos..e]);
    assert at.carry.buffer + at.text == Statement(env, s.carry.buffer + s.text, line[s.pos..e]);
    AtDelimiter(env, line, at);
    SimpleAfter(env, line, e, s.carry.session.delimiter, !s.carry.session.noBackslashEscapes);
  }

  lemma CollectedIsStatement(env: Env, s: Scan, t: string)
    ensures s.carry.buffer + Collected(env, s, t) == Statement(env, s.carry.buffer + s.text, t)
  {
  }

  lemma SimpleAfter(env: Env, line: string, e: nat, delimiter: string, escapes: bool)
    requires e <= |line| && delimiter != [] && PrefixAt(line, e, delimiter)
    requires Simple(env, line, e, delimiter, escapes)
    ensures e + |delimiter| <= |line| && Simple(env, line, e + |delimiter|, delimiter, escapes)
  {
  }

  /** Where the text after the last delimiter begins. */
  function LastStart(line: string, p: nat, delimiter: string, escapes: bool): (r: nat)
    requires p <= |line| && delimiter != []
    ensures p <= r <= |line|
    decreases |line| - p
  {
    match FirstDelimiter(line, p, delimiter, escapes)
    case None => p
    case Some(e) => LastStart(line, e + |delimiter|, delimiter, escapes)
  }

  /** What a line leaves: its statements sent, the text after the last delimiter
      accepted, and the literal open in which it ends. */
  function LineResult(env: Env, line: string, s: Scan): Scan
    requires s.pos <= |line|
  {
    var d, escapes := s.carry.session.delimiter, !s.carry.session.noBackslashEscapes;
    var q := LastStart(line, s.pos, d, escapes);
    var ending := EndingOf(line, q, escapes);
    var none := FirstDelimiter(line, s.pos, d, escapes).None?;
    var sent := Statements(env, line, s.pos, s.carry.buffer + s.text, d, escapes);
    var t := line[q..ending.end];
    Scan(ending.end, if none then Collected(env, s, t) else TrimLeft(env, t), false, NoHint,
         if ending.end < |line| then Broke else Running,
         Carry(if none then s.carry.buffer else [], ending.quote, false, s.carry.session,
               s.carry.log + AllSent(sent)))
  }

  /** Main result on a whole line: what is sent is exactly the text between the
      delimiters outside quotes, in order, and what is kept is exactly the rest. */
  lemma {:induction false} LineSends(env: Env, line: string, s: Scan)
    requires Outside(env, line, s)
    requires AllRun(env, s.carry.session, |s.carry.log|,
                    Statements(env, line, s.pos, s.carry.buffer + s.text, s.carry.session.delimiter,
                               !s.carry.session.noBackslashEscapes))
    ensures ScanLine(env, line, s) == LineResult(env, line, s)
    decreases |line| - s.pos
  {
    hide ScanLine, Outside, FirstDelimiter, AllSent, Statements, Statement, LastStart, TrimLeft, EndingOf, Runs;
    OutsideInLine(env, line, s);
    var escapes := !s.carry.session.noBackslashEscapes;
    var d := s.carry.session.delimiter;
    var lead := s.carry.buffer + s.text;
    StatementsUnfold(env, line, s.pos, lead, d, escapes);
    match FirstDelimiter(line, s.pos, d, escapes) {
      case None =>
        StatementFound(env, line, s);
        AllSentNone(s.carry.log);
      case Some(e) =>
        var sent := Statement(env, lead, line[s.pos..e]);
        var rest := Statements(env, line, e + |d|, [], d, escapes);
        AllRunTail(env, s.carry.session, |s.carry.log|, sent, rest);
        FirstSends(env, line, s, e);
        var n := AfterStatement(env, line, s, e);
        assert n.carry.buffer + n.text == [];
        LineSends(env, line, n);
        AllSentAppend(s.carry.log, sent, rest);
        var q := LastStart(line, n.pos, d, escapes);
        EmptyCollects(env, n, line[q..EndingOf(line, q, escapes).end]);
    }
  }

  lemma EmptyCollects(env: Env, s: Scan, t: string)
    requires AtStart(s)
    ensures Collected(env, s, t) == TrimLeft(env, t)
  {
  }

  lemma AllRunTail(env: Env, session: Session, n: nat, first: string, rest: seq<string>)
    requires AllRun(env, session, n, [first] + rest)
    ensures Runs(env, session, n, first) && AllRun(env, session, n + 1, rest)
  {
    hide Runs;
    var all := [first] + rest;
    assert Runs(env, session, n + 0, all[0]);
    assert forall i :: 0 <= i < |rest| ==> all[i + 1] == rest[i] && Runs(env, session, n + (i + 1), all[i + 1]);
  }

  lemma StatementsUnfold(env: Env, line: string, p: nat, lead: string, d: string, escapes: bool)
    requires p <= |line| && d != []
    ensures match FirstDelimiter(line, p, d, escapes)
            case None => Statements(env, line, p, lead, d, escapes) == [] && LastStart(line, p, d, escapes) == p
            case Some(e) =>
              && LastStart(line, p, d, escapes) == LastStart(line, e + |d|, d, escapes)
              && Statements(env, line, p, lead, d, escapes) ==
              [Statement(env, lead, line[p..e])] + Statements(env, line, e + |d|, [], d, escapes)
  {
    hide FirstDelimiter, Statement;
  }

  lemma AllSentNone(log: seq<Action>)
    ensures log + AllSent([]) == log
  {
  }

  lemma OutsideInLine(env: Env, line: string, s: Scan)
    requires Outside(env, line, s)
    ensures s.pos <= |line| && s.stop == Running && !s.needSpace && s.hint == NoHint
    ensures s.carry.quote == NUL && !s.carry.comment
  {
  }

  lemma AllSentAppend(log: seq<Action>, first: string, rest: seq<string>)
    ensures log + [Sent(first)] + AllSent(rest) == log + AllSent([first] + rest)
  {
    assert AllSent([first] + rest) == [Sent(first)] + AllSent(rest);
  }
}
