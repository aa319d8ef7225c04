/** Statements over several lines: what a session sends is the text of all its lines,
    cut at the delimiters outside quotes. */
module StatementLines {
  import opened Optional
  import opened StatementScanner
  import opened StatementLiterals
  import opened StatementSplitting

  /** The lines as one text. */
  function TextOf(lines: seq<string>): string {
    if lines == [] then [] else lines[0] + "\n" + TextOf(lines[1..])
  }

  /** How the lines are read: the delimiter, and whether backslashes escape. */
  datatype Mode = Mode(delimiter: string, escapes: bool)

  /** What is pending between lines: the text of a statement, and the quote of the
      literal in which it stands, or NUL. */
  datatype Pending = Pending(lead: string, quote: char)

  /** The statements that end in a text. */
  function TextStatements(env: Env, m: Mode, text: string, w: Pending): seq<string>
    requires m.delimiter != []
  {
    if w.quote == NUL then Statements(env, text, 0, w.lead, m.delimiter, m.escapes)
    else
      match ReadLiteral(text, 0, w.quote, m.escapes)
      case Open(_) => []
      case Closed(e) => Statements(env, text, e, w.lead + text[..e], m.delimiter, m.escapes)
  }

  /** A newline ends what there is of a statement. */
  function Newlined(text: string): string {
    if text == [] then [] else text + "\n"
  }

  /** What is pending after a line, when `p` has been reached with `lead`. */
  function PendingAfter(env: Env, m: Mode, line: string, p: nat, lead: string): Pending
    requires p <= |line| && m.delimiter != []
  {
    var q := LastStart(line, p, m.delimiter, m.escapes);
    var kept := if FirstDelimiter(line, p, m.delimiter, m.escapes).None? then lead else [];
    Pending(Newlined(Statement(env, kept, line[q..])), EndingOf(line, q, m.escapes).quote)
  }

  function NextPending(env: Env, m: Mode, line: string, w: Pending): Pending
    requires m.delimiter != []
  {
    if w.quote == NUL then PendingAfter(env, m, line, 0, w.lead)
    else
      match ReadLiteral(line, 0, w.quote, m.escapes)
      case Open(_) => Pending(w.lead + line + "\n", w.quote)
      case Closed(e) => PendingAfter(env, m, line, e, w.lead + line[..e])
  }

  // ---------------------------------------------------------------------------
  // A text, line by line

  function Shifted(r: Literal, n: nat): Literal {
    match r case Closed(e) => Closed(n + e) case Open(e) => Open(n + e)
  }

  lemma {:induction false} LiteralSuffix(text: string, n: nat, i: nat, quote: char, escapes: bool)
    requires n + i <= |text|
    ensures ReadLiteral(text, n + i, quote, escapes) == Shifted(ReadLiteral(text[n..], i, quote, escapes), n)
    decreases |text| - i
  {
    if n + i < |text| {
      assert text[n..][i] == text[n + i];
      LiteralSuffix(text, n, i + 1, quote, escapes);
      if n + i + 1 < |text| {
        assert text[n..][i + 1] == text[n + i + 1];
        LiteralSuffix(text, n, i + 2, quote, escapes);
      }
    }
  }

  /** A literal in a line is the same in a text that begins with it, or goes on in what
      follows. */
  lemma {:induction false} LiteralSplit(line: string, rest: string, p: nat, quote: char, escapes: bool)
    requires p <= |line| && quote != '\n' && !IsCut(line, ReadLiteral(line, p, quote, escapes))
    ensures ReadLiteral(line + "\n" + rest, p, quote, escapes) ==
            match ReadLiteral(line, p, quote, escapes)
            case Closed(e) => Closed(e)
            case Open(_) => Shifted(ReadLiteral(rest, 0, quote, escapes), |line| + 1)
    decreases |line| - p
  {
    var text := line + "\n" + rest;
    if p == |line| {
      assert text[p] == '\n' && text[p + 1..] == rest;
      LiteralSuffix(text, p + 1, 0, quote, escapes);
    } else {
      assert text[p] == line[p];
      if escapes && line[p] == '\\' {
        assert text[p + 1] == line[p + 1];
        LiteralSplit(line, rest, if quote == '`' && line[p + 1] == '`' then p + 1 else p + 2, quote, escapes);
      } else if line[p] != quote {
        LiteralSplit(line, rest, p + 1, quote, escapes);
      }
    }
  }

  lemma PrefixSuffix(text: string, n: nat, i: nat, word: string)
    requires n + i <= |text|
    ensures PrefixAt(text, n + i, word) <==> PrefixAt(text[n..], i, word)
  {
    if n + i + |word| <= |text| {
      assert text[n..][i..i + |word|] == text[n + i..n + i + |word|];
    }
  }

  function Moved(r: Option<nat>, n: nat): Option<nat> {
    match r case None => None case Some(e) => Some(n + e)
  }

  lemma {:induction false} DelimiterSuffix(text: string, n: nat, i: nat, d: string, escapes: bool)
    requires n + i <= |text| && d != []
    ensures FirstDelimiter(text, n + i, d, escapes) == Moved(FirstDelimiter(text[n..], i, d, escapes), n)
    decreases |text| - i
  {
    hide PrefixAt, ReadLiteral;
    PrefixSuffix(text, n, i, d);
    if n + i < |text| && !PrefixAt(text, n + i, d) {
      var c := text[n + i];
      assert text[n..][i] == c;
      if IsQuote(c) {
        LiteralSuffix(text, n, i + 1, c, escapes);
        var r := ReadLiteral(text[n..], i + 1, c, escapes);
        if r.Closed? {
          DelimiterSuffix(text, n, r.end, d, escapes);
        }
      } else {
        DelimiterSuffix(text, n, i + 1, d, escapes);
      }
    }
  }

  lemma {:induction false} StatementsSuffix(env: Env, m: Mode, text: string, n: nat, i: nat, lead: string)
    requires n + i <= |text| && m.delimiter != []
    ensures Statements(env, text, n + i, lead, m.delimiter, m.escapes) ==
            Statements(env, text[n..], i, lead, m.delimiter, m.escapes)
    decreases |text| - i
  {
    hide FirstDelimiter, Statement, Statements, LastStart, PrefixAt;
    var d := m.delimiter;
    DelimiterSuffix(text, n, i, d, m.escapes);
    StatementsUnfold(env, text, n + i, lead, d, m.escapes);
    StatementsUnfold(env, text[n..], i, lead, d, m.escapes);
    match FirstDelimiter(text[n..], i, d, m.escapes) {
      case None =>
      case Some(e) =>
        DelimiterInLine(text[n..], e, d);
        SliceSuffix(text, n, i, e);
        StatementsSuffix(env, m, text, n, e + |d|, []);
    }
  }

  lemma SliceSuffix(text: string, n: nat, i: nat, e: nat)
    requires i <= e && n + e <= |text|
    ensures text[n..][i..e] == text[n + i..n + e]
  {
  }

  lemma PrefixInLine(line: string, rest: string, p: nat, word: string)
    requires p <= |line| && word != [] && '\n' !in word
    ensures PrefixAt(line + "\n" + rest, p, word) <==> PrefixAt(line, p, word)
  {
    var text := line + "\n" + rest;
    if p + |word| <= |line| {
      assert text[p..p + |word|] == line[p..p + |word|];
    } else if p + |word| <= |text| {
      assert text[p..p + |word|][|line| - p] == '\n';
      assert word[|line| - p] in word;
    }
  }

  /** The first delimiter of a text is that of its first line, or lies in what follows,
      outside the literal in which the line ends. */
  lemma {:induction false} DelimiterSplit(line: string, rest: string, p: nat, d: string, escapes: bool)
    requires p <= |line| && d != [] && '\n' !in d
    requires FirstDelimiter(line, p, d, escapes).None? ==> EndingOf(line, p, escapes).end == |line|
    ensures FirstDelimiter(line + "\n" + rest, p, d, escapes) ==
            match FirstDelimiter(line, p, d, escapes)
            case Some(e) => Some(e)
            case None => Moved(DelimiterAfter(rest, EndingOf(line, p, escapes).quote, d, escapes), |line| + 1)
    decreases |line| - p
  {
    hide PrefixAt, ReadLiteral, FirstDelimiter, EndingOf;
    var text := line + "\n" + rest;
    PrefixInLine(line, rest, p, d);
    DelimiterUnfold(text, p, d, escapes);
    DelimiterUnfold(line, p, d, escapes);
    EndingUnfold(line, p, escapes);
    if p == |line| {
      assert text[p] == '\n' && text[p + 1..] == rest;
      DelimiterSuffix(text, p + 1, 0, d, escapes);
    } else if !PrefixAt(line, p, d) {
      var c := line[p];
      assert text[p] == c;
      if IsQuote(c) {
        var r := ReadLiteral(line, p + 1, c, escapes);
        assert !IsCut(line, r);
        LiteralSplit(line, rest, p + 1, c, escapes);
        match r {
          case Closed(e) => DelimiterSplit(line, rest, e, d, escapes);
          case Open(_) =>
            assert text[|line| + 1..] == rest;
            var r' := ReadLiteral(rest, 0, c, escapes);
            if r'.Closed? {
              DelimiterSuffix(text, |line| + 1, r'.end, d, escapes);
            }
        }
      } else {
        DelimiterSplit(line, rest, p + 1, d, escapes);
      }
    }
  }

  /** The first delimiter after the literal, if one is open. */
  function DelimiterAfter(text: string, quote: char, d: string, escapes: bool): (r: Option<nat>)
    ensures r.Some? ==> PrefixAt(text, r.value, d)
  {
    if quote == NUL then FirstDelimiter(text, 0, d, escapes)
    else
      match ReadLiteral(text, 0, quote, escapes)
      case Open(_) => None
      case Closed(e) => FirstDelimiter(text, e, d, escapes)
  }

  lemma DelimiterUnfold(line: string, p: nat, d: string, escapes: bool)
    requires p <= |line| && d != []
    ensures FirstDelimiter(line, p, d, escapes) ==
            if PrefixAt(line, p, d) then Some(p)
            else if p == |line| then None
            else if IsQuote(line[p]) then
              match ReadLiteral(line, p + 1, line[p], escapes)
              case Closed(e) => FirstDelimiter(line, e, d, escapes)
              case Open(_) => None
            else FirstDelimiter(line, p + 1, d, escapes)
  {
    hide PrefixAt, ReadLiteral;
  }

  // ---------------------------------------------------------------------------
  // The statements of a text, line by line

  /** Spaces in front of a statement may fill lines. */
  lemma {:induction false} TrimSplit(env: Env, a: string, b: string)
    requires Space(env, '\n')
    ensures TrimLeft(env, a + "\n" + b) == if TrimLeft(env, a) == [] then TrimLeft(env, b) else TrimLeft(env, a) + "\n" + b
  {
    var t := a + "\n" + b;
    if a == [] {
      assert t[0] == '\n' && t[1..] == b;
    } else {
      assert t[0] == a[0];
      if Space(env, a[0]) {
        assert t[1..] == a[1..] + "\n" + b;
        TrimSplit(env, a[1..], b);
      }
    }
  }

  /** A statement that goes on after the line. */
  lemma StatementGoesOn(env: Env, lead: string, a: string, b: string)
    requires Space(env, '\n')
    ensures Statement(env, lead, a + "\n" + b) == Statement(env, Newlined(Statement(env, lead, a)), b)
  {
    hide TrimLeft;
    TrimSplit(env, a, b);
    if lead != [] {
      assert lead + (a + "\n" + b) == lead + a + "\n" + b;
    } else {
      assert [] + TrimLeft(env, a) == TrimLeft(env, a);
    }
  }

  /** Inside a literal something has been accepted. */
  lemma {:induction false} OpenNotEmpty(env: Env, line: string, p: nat, lead: string, escapes: bool)
    requires p <= |line| && EndingOf(line, p, escapes).quote != NUL
    requires !Space(env, '\'') && !Space(env, '"') && !Space(env, '`')
    ensures Statement(env, lead, line[p..]) != []
    decreases |line| - p
  {
    hide ReadLiteral;
    if p < |line| && Space(env, line[p]) {
      OpenNotEmpty(env, line, p + 1, lead, escapes);
      assert line[p..][1..] == line[p + 1..];
    }
  }

  /** The statements of a text are those of its first line and those that end in what
      follows, from what the line leaves pending. */
  lemma {:induction false} StatementsSplit(env: Env, m: Mode, line: string, rest: string, p: nat, lead: string)
    requires p <= |line| && Fits(env, m) && !EndsCut(m, line, p)
    ensures Statements(env, line + "\n" + rest, p, lead, m.delimiter, m.escapes) ==
            Statements(env, line, p, lead, m.delimiter, m.escapes)
            + TextStatements(env, m, rest, PendingAfter(env, m, line, p, lead))
    decreases |line| - p
  {
    hide FirstDelimiter, Statements, LastStart, Statement, EndingOf, TextStatements;
    var text, d := line + "\n" + rest, m.delimiter;
    StatementsUnfold(env, line, p, lead, d, m.escapes);
    StatementsUnfold(env, text, p, lead, d, m.escapes);
    DelimiterSplit(line, rest, p, d, m.escapes);
    match FirstDelimiter(line, p, d, m.escapes) {
      case Some(e) =>
        assert text[p..e] == line[p..e];
        StatementsSplit(env, m, line, rest, e + |d|, []);
      case None =>
        LastSplit(env, m, line, rest, p, lead);
    }
  }

  lemma LastSplit(env: Env, m: Mode, line: string, rest: string, p: nat, lead: string)
    requires p <= |line| && Fits(env, m) && !EndsCut(m, line, p)
    requires FirstDelimiter(line, p, m.delimiter, m.escapes).None?
    ensures Statements(env, line + "\n" + rest, p, lead, m.delimiter, m.escapes) ==
            TextStatements(env, m, rest, PendingAfter(env, m, line, p, lead))
  {
    hide FirstDelimiter, Statements, LastStart, Statement, EndingOf, Newlined;
    var text, d, n := line + "\n" + rest, m.delimiter, |line| + 1;
    var w := PendingAfter(env, m, line, p, lead);
    StatementsUnfold(env, line, p, lead, d, m.escapes);
    StatementsUnfold(env, text, p, lead, d, m.escapes);
    DelimiterSplit(line, rest, p, d, m.escapes);
    var found := DelimiterAfter(rest, w.quote, d, m.escapes);
    if found.Some? {
      var x := found.value;
      assert text[n..] == rest;
      assert text[p..n + x] == line[p..] + "\n" + rest[..x];
      StatementGoesOn(env, lead, line[p..], rest[..x]);
      StatementsSuffix(env, m, text, n, x + |d|, []);
    }
    if w.quote != NUL {
      OpenNotEmpty(env, line, p, lead, m.escapes);
      NewlinedNotEmpty(Statement(env, lead, line[p..]));
    }
    AfterLiteral(env, m, rest, w);
  }

  lemma NewlinedNotEmpty(text: string)
    requires text != []
    ensures Newlined(text) != []
  {
  }

  /** What ends in a text, when a literal is open or not. */
  lemma AfterLiteral(env: Env, m: Mode, text: string, w: Pending)
    requires m.delimiter != [] && (w.quote != NUL ==> w.lead != [])
    ensures match DelimiterAfter(text, w.quote, m.delimiter, m.escapes)
            case None => TextStatements(env, m, text, w) == []
            case Some(x) =>
              TextStatements(env, m, text, w) ==
              [Statement(env, w.lead, text[..x])] + Statements(env, text, x + |m.delimiter|, [], m.delimiter, m.escapes)
  {
    hide FirstDelimiter, Statements, LastStart, PrefixAt, ReadLiteral, TrimLeft;
    var d := m.delimiter;
    if w.quote == NUL {
      StatementsUnfold(env, text, 0, w.lead, d, m.escapes);
    } else {
      var r := ReadLiteral(text, 0, w.quote, m.escapes);
      if r.Closed? {
        StatementsUnfold(env, text, r.end, w.lead + text[..r.end], d, m.escapes);
        var found := FirstDelimiter(text, r.end, d, m.escapes);
        if found.Some? {
          DelimiterInLine(text, found.value, d);
          assert w.lead + text[..r.end] + text[r.end..found.value] == w.lead + text[..found.value];
        }
      }
    }
  }

  /** The newline is a space and in no delimiter, quotes and delimiters are no space. */
  ghost predicate Fits(env: Env, m: Mode) {
    && m.delimiter != [] && '\n' !in m.delimiter && !Space(env, m.delimiter[0])
    && Space(env, '\n') && !Space(env, '\'') && !Space(env, '"') && !Space(env, '`')
  }

  /** After the last delimiter the line is cut off in a literal. */
  predicate EndsCut(m: Mode, line: string, p: nat)
    requires p <= |line| && m.delimiter != []
  {
    EndingOf(line, LastStart(line, p, m.delimiter, m.escapes), m.escapes).end < |line|
  }

  // ---------------------------------------------------------------------------
  // Lines fed to the splitter

  function ModeOf(session: Session): Mode {
    Mode(session.delimiter, !session.noBackslashEscapes)
  }

  /** Where the line is outside a literal for the first time, with the text before. */
  datatype Entry = Never | From(p: nat, lead: string)

  function EntryOf(m: Mode, line: string, w: Pending): (r: Entry)
    ensures r.From? ==> r.p <= |line|
  {
    if w.quote == NUL then From(0, w.lead)
    else
      match ReadLiteral(line, 0, w.quote, m.escapes)
      case Open(_) => Never
      case Closed(e) => From(e, w.lead + line[..e])
  }

  /** The statements that end in a line. */
  function LineStatements(env: Env, m: Mode, line: string, w: Pending): seq<string>
    requires m.delimiter != []
  {
    match EntryOf(m, line, w)
    case Never => []
    case From(p, lead) => Statements(env, line, p, lead, m.delimiter, m.escapes)
  }

  /** What is accepted of the line after its last delimiter. */
  function LineRest(env: Env, m: Mode, line: string, p: nat, lead: string): string
    requires p <= |line| && m.delimiter != []
  {
    var t := line[LastStart(line, p, m.delimiter, m.escapes)..];
    if FirstDelimiter(line, p, m.delimiter, m.escapes).Some? then TrimLeft(env, t)
    else line[..p] + if lead == [] then TrimLeft(env, t) else t
  }

  /** A line of SQL, with `w` pending and as many as `n` actions done: no client command
      as a whole, nor its last part a DELIMITER command; no comment or backslash outside
      literals; no literal cut off; no NUL where a statement begins, since the whole line
      is then passed over; and its statements run. */
  predicate SqlLine(env: Env, session: Session, n: nat, w: Pending, line: string) {
    var m := ModeOf(session);
    && (w.lead == [] && line != [] ==> line[0] != NUL)
    && (w.quote == NUL && (env.namedCommands || w.lead == []) ==> !env.isNamed(n, CString(line, 0), session))
    && match EntryOf(m, line, w)
       case Never => !IsCut(line, ReadLiteral(line, 0, w.quote, m.escapes))
       case From(p, lead) =>
         && Simple(env, line, p, m.delimiter, m.escapes) && !EndsCut(m, line, p)
         && AllRun(env, session, n, Statements(env, line, p, lead, m.delimiter, m.escapes))
         && !env.isDelimiterCommand(LineRest(env, m, line, p, lead))
  }

  predicate SqlLines(env: Env, session: Session, n: nat, w: Pending, lines: seq<string>)
    decreases lines
  {
    lines == [] ||
    (var m := ModeOf(session);
     && SqlLine(env, session, n, w, lines[0])
     && SqlLines(env, session, n + |LineStatements(env, m, lines[0], w)|, NextPending(env, m, lines[0], w), lines[1..]))
  }

  /** The end of a line whose scan is known. */
  lemma LineEnds(env: Env, m: Mode, line: string, s: Scan)
    requires s.pos <= |line| && m == ModeOf(s.carry.session) && !EndsCut(m, line, s.pos)
    requires s.text == line[..s.pos] && !env.isDelimiterCommand(LineRest(env, m, line, s.pos, s.carry.buffer + s.text))
    ensures var r := LineResult(env, line, s);
            var w := PendingAfter(env, m, line, s.pos, s.carry.buffer + s.text);
            r.stop != Quit && EndLine(env, r, false) == Carry(w.lead, w.quote, false, s.carry.session, r.carry.log)
  {
    hide FirstDelimiter, LastStart, EndingOf, TrimLeft, AllSent, Statements;
    StatementsUnfold(env, line, s.pos, s.carry.buffer + s.text, m.delimiter, m.escapes);
    var r := LineResult(env, line, s);
    var q := LastStart(line, s.pos, m.delimiter, m.escapes);
    assert line[q..|line|] == line[q..];
    CollectedIsStatement(env, s, line[q..]);
    assert r.text == LineRest(env, m, line, s.pos, s.carry.buffer + s.text);
    assert [] + TrimLeft(env, line[q..]) == TrimLeft(env, line[q..]);
  }

  /** One line: its statements are sent, and the rest of it is pending. */
  lemma FeedOne(env: Env, k: Carry, line: string)
    requires GoodCarry(k) && !k.comment && !env.preserveComments && Fits(env, ModeOf(k.session))
    requires SqlLine(env, k.session, |k.log|, Pending(k.buffer, k.quote), line)
    ensures var m, w := ModeOf(k.session), Pending(k.buffer, k.quote);
            var w' := NextPending(env, m, line, w);
            FeedLine(env, k, line, false) ==
            (Carry(w'.lead, w'.quote, false, k.session, k.log + AllSent(LineStatements(env, m, line, w))), false)
  {
    hide Simple, Statements, ScanLine, EndLine, PendingAfter, LineResult, AllRun, LineRest, EndsCut, CStringEnd,
      ReadLiteral, LiteralLine;
    var m, w := ModeOf(k.session), Pending(k.buffer, k.quote);
    if line == [] && k.buffer == [] {
      EmptyLine(env, m);
      assert k.log + [] == k.log;
    } else {
      match EntryOf(m, line, w) {
        case Never =>
          LineInsideLiteral(env, k, line);
          LiteralWhole(line, k.quote, m.escapes);
          AllSentNone(k.log);
          assert k.buffer + (line + "\n") == k.buffer + line + "\n";
        case From(p, lead) =>
          var s := Scan(p, line[..p], false, NoHint, Running, k.(quote := NUL));
          ScanFrom(env, k, line, p);
          assert lead == s.carry.buffer + s.text;
          LineSends(env, line, s);
          LineEnds(env, m, line, s);
          LineLog(env, line, s);
      }
    }
  }

  lemma LineLog(env: Env, line: string, s: Scan)
    requires s.pos <= |line|
    ensures LineResult(env, line, s).carry.log == s.carry.log +
              AllSent(Statements(env, line, s.pos, s.carry.buffer + s.text, s.carry.session.delimiter,
                                 !s.carry.session.noBackslashEscapes))
  {
  }

  lemma EmptyLine(env: Env, m: Mode)
    requires m.delimiter != []
    ensures PendingAfter(env, m, [], 0, []) == Pending([], NUL)
    ensures AllSent(Statements(env, [], 0, [], m.delimiter, m.escapes)) == []
  {
  }

  lemma LiteralWhole(line: string, quote: char, escapes: bool)
    requires ReadLiteral(line, 0, quote, escapes) == Open(|line|)
    ensures LiteralLine(line, quote, escapes) == line + "\n"
  {
  }

  /** The literal carried into the line, if there is one, is copied. */
  lemma ScanFrom(env: Env, k: Carry, line: string, p: nat)
    requires GoodCarry(k)
    requires p <= |line| && EntryOf(ModeOf(k.session), line, Pending(k.buffer, k.quote)) == From(p, k.buffer + line[..p])
    ensures ScanLine(env, line, Start(k)) ==
            ScanLine(env, line, Scan(p, line[..p], false, NoHint, Running, k.(quote := NUL)))
  {
    hide ScanLine, ReadLiteral;
    if k.quote != NUL {
      LiteralCopied(env, line, Start(k));
      assert [] + line[0..p] == line[..p];
    } else {
      assert line[..0] == [];
    }
  }

  /** Main result over lines of SQL: from any carried state, what is sent is exactly the
      statements of the whole text, wherever the lines break. */
  lemma {:induction false} LinesSend(env: Env, k: Carry, lines: seq<string>)
    requires GoodCarry(k) && !k.comment && !env.preserveComments && Fits(env, ModeOf(k.session))
    requires SqlLines(env, k.session, |k.log|, Pending(k.buffer, k.quote), lines)
    ensures var (k', quit) := FeedLines(env, k, lines);
            && !quit
            && k'.log == k.log +
                 AllSent(TextStatements(env, ModeOf(k.session), TextOf(lines), Pending(k.buffer, k.quote)))
    decreases lines
  {
    hide GoodCarry, FeedLine, SqlLine, Fits, LineStatements, NextPending, TextStatements, AllSent;
    var m, w := ModeOf(k.session), Pending(k.buffer, k.quote);
    if lines == [] {
      NoText(env, m, w);
      AllSentNone(k.log);
    } else {
      FeedOne(env, k, lines[0]);
      FeedGood(env, k, lines[0]);
      var k1 := FeedLine(env, k, lines[0], false).0;
      var sent := LineStatements(env, m, lines[0], w);
      AllSentLength(sent);
      LinesSend(env, k1, lines[1..]);
      LineSplit(env, k, lines[0], TextOf(lines[1..]));
      AllSentConcat(k.log, sent, TextStatements(env, m, TextOf(lines[1..]), NextPending(env, m, lines[0], w)));
    }
  }

  lemma NoText(env: Env, m: Mode, w: Pending)
    requires m.delimiter != []
    ensures TextStatements(env, m, [], w) == []
  {
  }

  lemma AllSentLength(statements: seq<string>)
    ensures |AllSent(statements)| == |statements|
  {
  }

  lemma AllSentConcat(log: seq<Action>, a: seq<string>, b: seq<string>)
    ensures log + AllSent(a) + AllSent(b) == log + AllSent(a + b)
  {
    assert AllSent(a + b) == AllSent(a) + AllSent(b);
  }

  lemma FeedGood(env: Env, k: Carry, line: string)
    requires GoodCarry(k) && !FeedLine(env, k, line, false).1
    ensures GoodCarry(FeedLine(env, k, line, false).0)
  {
    hide AddLine, CString;
    LineGood(env, k, line, false);
  }

  lemma TextParts(lead: string, line: string, rest: string, n: nat)
    requires n <= |rest|
    ensures var text := line + "\n" + rest;
            && text[|line| + 1..] == rest
            && lead + text[..|line| + 1 + n] == lead + line + "\n" + rest[..n]
  {
    assert (line + "\n" + rest)[..|line| + 1 + n] == line + "\n" + rest[..n];
  }

  lemma LineSplit(env: Env, k: Carry, line: string, rest: string)
    requires GoodCarry(k) && Fits(env, ModeOf(k.session))
    requires SqlLine(env, k.session, |k.log|, Pending(k.buffer, k.quote), line)
    ensures var m, w := ModeOf(k.session), Pending(k.buffer, k.quote);
            TextStatements(env, m, line + "\n" + rest, w) ==
            LineStatements(env, m, line, w) + TextStatements(env, m, rest, NextPending(env, m, line, w))
  {
    hide Simple, Statements, PendingAfter, AllRun, LineRest, EndsCut, ReadLiteral;
    var m, w := ModeOf(k.session), Pending(k.buffer, k.quote);
    var text := line + "\n" + rest;
    if w.quote != NUL {
      LiteralSplit(line, rest, 0, w.quote, m.escapes);
    }
    match EntryOf(m, line, w) {
      case From(p, lead) =>
        assert text[..p] == line[..p];
        StatementsSplit(env, m, line, rest, p, lead);
      case Never =>
        var r := ReadLiteral(rest, 0, w.quote, m.escapes);
        if r.Closed? {
          TextParts(w.lead, line, rest, r.end);
          StatementsSuffix(env, m, text, |line| + 1, r.end, w.lead + line + "\n" + rest[..r.end]);
        }
    }
  }
}
