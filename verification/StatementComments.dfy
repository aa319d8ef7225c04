/** What is sent of lines with comments and hints, comments not being preserved: each
    comment is left out and owes one space, which the next character kept pays unless
    it is a space itself. Stated against an independent reading of the line in pieces. */
module StatementComments {
  import opened Optional
  import opened StatementScanner
  import opened StatementLiterals
  import opened StatementSplitting

  /** A comment mark that is none of a conditional comment or a hint. */
  predicate OpensPlain(line: string, p: nat) {
    At(line, p) == '/' && At(line, p + 1) == '*' && At(line, p + 2) != '!' && At(line, p + 2) != '+'
  }

  predicate Closes(line: string, p: nat) {
    At(line, p) == '*' && At(line, p + 1) == '/'
  }

  /** The marks of conditional comments and hints, and their end. */
  function HintBehind(line: string, p: nat, hint: Hint): Hint {
    if PrefixAt(line, p, "/*!") then Conditional
    else if PrefixAt(line, p, "/*+") then OptimizerHint
    else if PrefixAt(line, p, "*/") then NoHint
    else hint
  }

  lemma HintIsBehind(line: string, p: nat, hint: Hint)
    requires p < |line|
    ensures HintAfter(line, p, NUL, hint) == HintBehind(line, p, hint)
  {
    hide PrefixAt;
    PrefixChars(line, p);
  }

  lemma PrefixChars(line: string, p: nat)
    requires p < |line|
    ensures PrefixAt(line, p, "/*!") <==> line[p] == '/' && At(line, p + 1) == '*' && At(line, p + 2) == '!'
    ensures PrefixAt(line, p, "/*+") <==> line[p] == '/' && At(line, p + 1) == '*' && At(line, p + 2) == '+'
    ensures PrefixAt(line, p, "*/") <==> line[p] == '*' && At(line, p + 1) == '/'
    ensures PrefixAt(line, p, "--") <==> line[p] == '-' && At(line, p + 1) == '-'
  {
    if p + 2 <= |line| {
      assert line[p..p + 2] == [line[p], line[p + 1]];
    }
    if p + 3 <= |line| {
      assert line[p..p + 3] == [line[p], line[p + 1], line[p + 2]];
    }
  }

  /** A comment to the end of the line: `#`, or two dashes and then a space, a NUL or
      nothing. */
  predicate LineCommentAt(env: Env, line: string, p: nat)
    requires p < |line|
  {
    || line[p] == '#'
    || (PrefixAt(line, p, "--") && (p + 2 == |line| || line[p + 2] == NUL || Space(env, line[p + 2])))
  }

  lemma LineCommentIs(env: Env, line: string, p: nat)
    requires p < |line|
    ensures StartsLineComment(env, line, p) <==> LineCommentAt(env, line, p)
  {
    hide PrefixAt;
    PrefixChars(line, p);
    assert NUL != '-';
  }

  datatype Comment = Ended(next: nat) | Unended

  /** Reads a comment from behind its mark. A mark of a conditional comment or a hint in
      it needs an end of its own. */
  function ReadComment(line: string, p: nat, hint: Hint): (r: Comment)
    requires p <= |line|
    ensures r.Ended? ==> p < r.next <= |line|
    decreases |line| - p
  {
    if p == |line| then Unended
    else if OpensPlain(line, p) && hint != OptimizerHint then ReadComment(line, p + 2, hint)
    else if Closes(line, p) && hint == NoHint then Ended(p + 2)
    else ReadComment(line, p + 1, HintBehind(line, p, hint))
  }

  /** The pieces of a line: characters and literals that are kept, `\N`, comments, and
      delimiters; and at the end a literal or a comment that stays open, the rest of the
      line as a comment, a backslash that cuts the line off, or a short command. */
  datatype Piece =
    | Kept(text: string) | Null | Gap | End
    | OpenText(quote: char, text: string) | OpenGap | Rest | Cut | Command

  datatype Step = Step(piece: Piece, next: nat, hint: Hint)

  predicate Last(piece: Piece) {
    piece.OpenText? || piece.OpenGap? || piece.Rest? || piece.Cut? || piece.Command?
  }

  function PieceAt(env: Env, line: string, p: nat, d: string, escapes: bool, hint: Hint): (r: Step)
    requires p < |line| && d != []
    ensures !Last(r.piece) ==> p < r.next <= |line|
  {
    var c := line[p];
    if c == '\\' then
      Step(if At(line, p + 1) == NUL then Cut else if At(line, p + 1) == 'N' then Null else Command, p + 2, hint)
    else if hint != OptimizerHint && PrefixAt(line, p, d) then Step(End, p + |d|, hint)
    else if LineCommentAt(env, line, p) then Step(Rest, p, hint)
    else if OpensPlain(line, p) && hint != OptimizerHint then
      match ReadComment(line, p + 2, hint)
      case Ended(e) => Step(Gap, e, NoHint)
      case Unended => Step(OpenGap, p, hint)
    else if IsQuote(c) && hint != OptimizerHint then
      match ReadLiteral(line, p + 1, c, escapes)
      case Closed(e) => Step(Kept(line[p..e]), e, hint)
      case Open(e) => Step(OpenText(c, line[p..e]), e, hint)
    else Step(Kept([c]), p + 1, HintBehind(line, p, hint))
  }

  function Pieces(env: Env, line: string, p: nat, d: string, escapes: bool, hint: Hint): seq<Piece>
    requires p <= |line| && d != []
    decreases |line| - p
  {
    if p == |line| then []
    else
      var r := PieceAt(env, line, p, d, escapes, hint);
      [r.piece] + if Last(r.piece) then [] else Pieces(env, line, r.next, d, escapes, r.hint)
  }

  /** The statement read so far, and whether it is owed a space. */
  datatype Reading = Reading(text: string, owed: bool)

  function Keep(env: Env, r: Reading, t: string): Reading {
    if t == [] || (r.text == [] && |t| == 1 && Space(env, t[0])) then r
    else Reading(r.text + (if r.owed && !Space(env, t[0]) then " " else "") + t, false)
  }

  /** A debt outlives the statement. */
  function After(env: Env, r: Reading, piece: Piece): Reading {
    match piece
    case Kept(t) => Keep(env, r, t)
    case OpenText(_, t) => Keep(env, r, t)
    case Null => r.(text := r.text + "\\N")
    case Gap => r.(owed := true)
    case End => r.(text := [])
    case _ => r
  }

  /** The statements that the pieces complete, and what they leave. */
  function Completed(env: Env, pieces: seq<Piece>, r: Reading): seq<string>
    decreases pieces
  {
    if pieces == [] then []
    else (if pieces[0] == End then [r.text] else []) + Completed(env, pieces[1..], After(env, r, pieces[0]))
  }

  function Left(env: Env, pieces: seq<Piece>, r: Reading): Reading
    decreases pieces
  {
    if pieces == [] then r else Left(env, pieces[1..], After(env, r, pieces[0]))
  }

  /** The literal or comment in which the pieces end. */
  function QuoteLeft(pieces: seq<Piece>): char {
    if pieces != [] && pieces[|pieces| - 1].OpenText? then pieces[|pieces| - 1].quote else NUL
  }

  predicate CommentLeft(pieces: seq<Piece>) {
    pieces != [] && pieces[|pieces| - 1].OpenGap?
  }

  // ---------------------------------------------------------------------------
  // The scan

  /** No mark is a space. */
  ghost predicate Sane(env: Env, d: string) {
    && d != [] && !Space(env, d[0])
    && forall c <- ['\'', '"', '`', '\\', '#', '-', '/', '*'] :: !Space(env, c)
  }

  ghost predicate Between(env: Env, line: string, s: Scan) {
    && s.pos <= |line| && s.stop == Running && s.carry.quote == NUL && !s.carry.comment
    && !env.preserveComments && Sane(env, s.carry.session.delimiter)
  }

  function ReadOf(s: Scan): Reading {
    Reading(s.carry.buffer + s.text, s.needSpace)
  }

  function NextPiece(env: Env, line: string, s: Scan): Step
    requires s.pos < |line|
  {
    PieceAt(env, line, s.pos, s.carry.session.delimiter, !s.carry.session.noBackslashEscapes, s.hint)
  }

  /** Inside a comment. */
  ghost predicate InComment(env: Env, line: string, s: Scan) {
    && s.pos <= |line| && s.stop == Running && s.carry.quote == NUL && s.carry.comment && s.text == []
    && !env.preserveComments && Sane(env, s.carry.session.delimiter)
  }

  lemma CommentTurn(env: Env, line: string, s: Scan)
    requires InComment(env, line, s) && s.pos < |line|
    ensures Next(env, line, s) ==
            if OpensPlain(line, s.pos) && s.hint != OptimizerHint then s.(pos := s.pos + 2)
            else if Closes(line, s.pos) && s.hint == NoHint then
              Scan(s.pos + 2, [], true, NoHint, Running, s.carry.(comment := false))
            else s.(pos := s.pos + 1, hint := HintAfter(line, s.pos, NUL, s.hint))
  {
    hide PrefixAt, StartsLineComment, OnBackslash, OnDelimiter, OnLineComment;
    var b := s.carry.buffer;
    assert b + s.text + [] == b;
    assert Space(env, line[s.pos]) ==> line[s.pos] != '/' && line[s.pos] != '*';
  }

  /** A comment is passed over up to its end; without one, to the end of the line. */
  lemma {:induction false} CommentRead(env: Env, line: string, s: Scan)
    requires InComment(env, line, s)
    ensures match ReadComment(line, s.pos, s.hint)
            case Ended(e) =>
              ScanLine(env, line, s) == ScanLine(env, line, Scan(e, [], true, NoHint, Running, s.carry.(comment := false)))
            case Unended =>
              var r := ScanLine(env, line, s);
              r.stop == Running && r.text == [] && r.carry == s.carry
    decreases |line| - s.pos
  {
    hide Next, ScanLine, OpensPlain, Closes, HintAfter, HintBehind, Sane;
    ScanUnfold(env, line, s);
    if s.pos < |line| {
      CommentTurn(env, line, s);
      HintIsBehind(line, s.pos, s.hint);
      var n := Next(env, line, s);
      if n.carry.comment {
        CommentRead(env, line, n);
      }
    }
  }

  lemma OpenTurn(env: Env, line: string, s: Scan)
    requires Between(env, line, s) && s.pos < |line| && OpensPlain(line, s.pos) && s.hint != OptimizerHint
    requires !PrefixAt(line, s.pos, s.carry.session.delimiter)
    ensures Next(env, line, s) ==
            Scan(s.pos + 2, [], s.needSpace, s.hint, Running,
                 s.carry.(buffer := s.carry.buffer + s.text, comment := true))
  {
    hide PrefixAt, OnBackslash, OnDelimiter, OnLineComment;
    var b := s.carry.buffer + s.text;
    assert b + [] == b;
  }

  /** A character that is kept. */
  lemma KeptTurn(env: Env, line: string, s: Scan)
    requires Between(env, line, s) && s.pos < |line| && line[s.pos] != '\\'
    requires s.hint != OptimizerHint ==> !PrefixAt(line, s.pos, s.carry.session.delimiter) && !OpensPlain(line, s.pos)
    requires !StartsLineComment(env, line, s.pos)
    ensures var c, h := line[s.pos], HintAfter(line, s.pos, NUL, s.hint);
            Next(env, line, s) ==
            if AtStart(s) && Space(env, c) then s.(pos := s.pos + 1, hint := h)
            else Scan(s.pos + 1, s.text + (if s.needSpace && !Space(env, c) then " " else "") + [c], false, h, Running,
                      s.carry.(quote := if IsQuote(c) && s.hint != OptimizerHint then c else NUL))
  {
    hide PrefixAt, OnBackslash, OnDelimiter, OnLineComment, StartsLineComment;
    var c := line[s.pos];
    assert Space(env, c) ==> c != '/' && c != '*';
    assert IsQuote(c) ==> HintAfter(line, s.pos, NUL, s.hint) == s.hint;
    assert !IsQuote(c) ==> QuoteAfter(c, s.carry, HintAfter(line, s.pos, NUL, s.hint)) == NUL;
  }

  lemma BackslashTurn(env: Env, line: string, s: Scan)
    requires Between(env, line, s) && s.pos < |line| && line[s.pos] == '\\'
    ensures At(line, s.pos + 1) == NUL ==> Next(env, line, s) == s.(stop := Broke)
    ensures At(line, s.pos + 1) == 'N' ==> Next(env, line, s) == s.(pos := s.pos + 2, text := s.text + "\\N")
  {
    hide PrefixAt, OnDelimiter, OnLineComment, StartsLineComment, OnShortCommand;
  }

  lemma RestTurn(env: Env, line: string, s: Scan)
    requires Between(env, line, s) && s.pos < |line| && line[s.pos] != '\\' && StartsLineComment(env, line, s.pos)
    requires s.hint != OptimizerHint ==> !PrefixAt(line, s.pos, s.carry.session.delimiter)
    ensures Next(env, line, s) ==
            Scan(s.pos, [], s.needSpace, s.hint, Broke, s.carry.(buffer := s.carry.buffer + s.text))
  {
    hide PrefixAt, OnBackslash, OnDelimiter;
  }

  lemma EndTurn(env: Env, line: string, s: Scan)
    requires Between(env, line, s) && s.hint != OptimizerHint && PrefixAt(line, s.pos, s.carry.session.delimiter)
    requires Runs(env, s.carry.session, |s.carry.log|, s.carry.buffer + s.text)
    ensures s.pos < |line|
    ensures Next(env, line, s) ==
            Scan(s.pos + |s.carry.session.delimiter|, [], s.needSpace, s.hint, Running,
              s.carry.(buffer := [], log := s.carry.log + [Sent(s.carry.buffer + s.text)]))
  {
    hide CString, CStringEnd, SpacesEnd, CommentEnd, ParamsEnd, OnShortCommand, OnBackslash;
    var d := s.carry.session.delimiter;
    assert d[0] in d && line[s.pos] == d[0] by { assert line[s.pos..s.pos + |d|][0] == d[0]; }
    assert Choose(env, line, s) == Delimiter;
    assert line[s.pos + |d|..s.pos + |d|] == [];
    var text := s.carry.buffer + s.text;
    assert text + [] + [] == text;
  }

  /** What a piece does to the scan: it reads on, and a delimiter sends. */
  ghost predicate Moved(env: Env, line: string, s: Scan, n: Scan, r: Step) {
    && ScanLine(env, line, s) == ScanLine(env, line, n)
    && Between(env, line, n) && n.pos == r.next && n.hint == r.hint && n.carry.session == s.carry.session
    && ReadOf(n) == After(env, ReadOf(s), r.piece)
    && n.carry.log == s.carry.log + if r.piece == End then [Sent(ReadOf(s).text)] else []
  }

  lemma PieceTaken(env: Env, line: string, s: Scan) returns (n: Scan)
    requires Between(env, line, s) && s.pos < |line| && !Last(NextPiece(env, line, s).piece)
    requires NextPiece(env, line, s).piece == End ==>
               Runs(env, s.carry.session, |s.carry.log|, s.carry.buffer + s.text)
    ensures Moved(env, line, s, n, NextPiece(env, line, s))
  {
    hide Next, ScanLine, PrefixAt, StartsLineComment, LineCommentAt, ReadComment, ReadLiteral, OpensPlain, HintAfter,
      HintBehind, Sane, Runs;
    HintIsBehind(line, s.pos, s.hint);
    LineCommentIs(env, line, s.pos);
    var d := s.carry.session.delimiter;
    var buffer, text := s.carry.buffer, s.text;
    ScanUnfold(env, line, s);
    n := Next(env, line, s);
    assert s.carry.log + [] == s.carry.log;
    if line[s.pos] == '\\' {
      BackslashTurn(env, line, s);
      assert buffer + (text + "\\N") == buffer + text + "\\N";
    } else if s.hint != OptimizerHint && PrefixAt(line, s.pos, d) {
      EndTurn(env, line, s);
    } else if OpensPlain(line, s.pos) && s.hint != OptimizerHint {
      OpenTurn(env, line, s);
      CommentRead(env, line, n);
      var e := ReadComment(line, s.pos + 2, s.hint).next;
      n := Scan(e, [], true, NoHint, Running, n.carry.(comment := false));
      assert buffer + text + [] == buffer + text;
    } else {
      KeptTurn(env, line, s);
      KeptReads(env, line, s);
      if IsQuote(line[s.pos]) && s.hint != OptimizerHint {
        n := LiteralKept(env, line, s);
      }
    }
  }

  /** A character kept, by its reading. */
  lemma KeptReads(env: Env, line: string, s: Scan)
    requires s.pos < |line|
    ensures var c := line[s.pos];
            var gap := if s.needSpace && !Space(env, c) then " " else "";
            Keep(env, ReadOf(s), [c]) ==
            if AtStart(s) && Space(env, c) then ReadOf(s) else Reading(s.carry.buffer + (s.text + gap + [c]), false)
  {
    hide Space;
    var c := line[s.pos];
    var gap := if s.needSpace && !Space(env, c) then " " else "";
    assert s.carry.buffer + s.text + gap + [c] == s.carry.buffer + (s.text + gap + [c]);
    assert AtStart(s) <==> s.carry.buffer + s.text == [];
  }

  /** A literal that is closed on the line. */
  lemma LiteralKept(env: Env, line: string, s: Scan) returns (n: Scan)
    requires Between(env, line, s) && s.pos < |line| && s.hint != OptimizerHint && IsQuote(line[s.pos])
    requires !PrefixAt(line, s.pos, s.carry.session.delimiter)
    requires ReadLiteral(line, s.pos + 1, line[s.pos], !s.carry.session.noBackslashEscapes).Closed?
    ensures var e := ReadLiteral(line, s.pos + 1, line[s.pos], !s.carry.session.noBackslashEscapes).end;
            Moved(env, line, s, n, Step(Kept(line[s.pos..e]), e, s.hint))
  {
    hide Next, ScanLine, ReadLiteral, PrefixAt, Sane;
    var m := LiteralOpened(env, line, s);
    var e := ReadLiteral(line, m.pos, m.carry.quote, !s.carry.session.noBackslashEscapes).end;
    n := m.(pos := e, text := m.text + line[m.pos..e], carry := s.carry);
    NoMark(env, line, s);
    LiteralReads(env, line, s, m.text, e);
    assert s.carry.log + [] == s.carry.log;
  }

  /** The scan behind the quote that opens a literal. */
  lemma LiteralOpened(env: Env, line: string, s: Scan) returns (m: Scan)
    requires Between(env, line, s) && s.pos < |line| && s.hint != OptimizerHint && IsQuote(line[s.pos])
    requires !PrefixAt(line, s.pos, s.carry.session.delimiter)
    ensures m == Scan(s.pos + 1, s.text + (if s.needSpace then " " else "") + [line[s.pos]], false, s.hint, Running,
                      s.carry.(quote := line[s.pos]))
    ensures ScanLine(env, line, s) == ScanLine(env, line, Copied(line, m))
  {
    hide Next, ScanLine, ReadLiteral, PrefixAt, Copied;
    NoMark(env, line, s);
    KeptTurn(env, line, s);
    ScanUnfold(env, line, s);
    m := Next(env, line, s);
    LiteralCopied(env, line, m);
  }

  lemma NoMark(env: Env, line: string, s: Scan)
    requires s.pos < |line| && IsQuote(line[s.pos]) && Sane(env, s.carry.session.delimiter)
    ensures line[s.pos] != '\\' && !StartsLineComment(env, line, s.pos) && !OpensPlain(line, s.pos)
    ensures !Space(env, line[s.pos]) && HintAfter(line, s.pos, NUL, s.hint) == s.hint
  {
  }

  lemma LiteralReads(env: Env, line: string, s: Scan, text: string, e: nat)
    requires s.pos < e <= |line| && !Space(env, line[s.pos])
    requires text == s.text + (if s.needSpace then " " else "") + [line[s.pos]]
    ensures Keep(env, ReadOf(s), line[s.pos..e]) == Reading(s.carry.buffer + (text + line[s.pos + 1..e]), false)
  {
    hide Space;
    var gap, t := if s.needSpace then " " else "", line[s.pos..e];
    assert t[0] == line[s.pos] && t == [line[s.pos]] + line[s.pos + 1..e];
    assert s.carry.buffer + s.text + gap + t == s.carry.buffer + (s.text + gap + [line[s.pos]] + line[s.pos + 1..e]);
  }

  /** What the last piece leaves. */
  ghost predicate Finishes(env: Env, line: string, s: Scan, piece: Piece) {
    var r := ScanLine(env, line, s);
    && r.stop != Quit && r.carry.session == s.carry.session && r.carry.log == s.carry.log
    && r.carry.buffer + r.text == After(env, ReadOf(s), piece).text
    && r.carry.quote == QuoteLeft([piece]) && r.carry.comment == CommentLeft([piece])
  }

  lemma LastPieceTaken(env: Env, line: string, s: Scan)
    requires Between(env, line, s) && s.pos < |line|
    requires Last(NextPiece(env, line, s).piece) && NextPiece(env, line, s).piece != Command
    ensures Finishes(env, line, s, NextPiece(env, line, s).piece)
  {
    hide Next, ScanLine, PrefixAt, StartsLineComment, LineCommentAt, ReadComment, ReadLiteral, OpensPlain, HintAfter,
      HintBehind, Sane;
    HintIsBehind(line, s.pos, s.hint);
    LineCommentIs(env, line, s.pos);
    ScanUnfold(env, line, s);
    if line[s.pos] == '\\' {
      BackslashTurn(env, line, s);
    } else if StartsLineComment(env, line, s.pos) {
      RestTurn(env, line, s);
      assert s.carry.buffer + s.text + [] == s.carry.buffer + s.text;
    } else if OpensPlain(line, s.pos) && s.hint != OptimizerHint {
      OpenTurn(env, line, s);
      CommentRead(env, line, Next(env, line, s));
      assert s.carry.buffer + s.text + [] == s.carry.buffer + s.text;
    } else {
      LiteralLeftOpen(env, line, s);
    }
  }

  /** A literal that stays open, or is cut off. */
  lemma LiteralLeftOpen(env: Env, line: string, s: Scan)
    requires Between(env, line, s) && s.pos < |line| && s.hint != OptimizerHint && IsQuote(line[s.pos])
    requires !PrefixAt(line, s.pos, s.carry.session.delimiter)
    requires ReadLiteral(line, s.pos + 1, line[s.pos], !s.carry.session.noBackslashEscapes).Open?
    ensures var e := ReadLiteral(line, s.pos + 1, line[s.pos], !s.carry.session.noBackslashEscapes).end;
            Finishes(env, line, s, OpenText(line[s.pos], line[s.pos..e]))
  {
    hide Next, ScanLine, ReadLiteral, PrefixAt, Sane;
    var m := LiteralOpened(env, line, s);
    var e := ReadLiteral(line, m.pos, m.carry.quote, !s.carry.session.noBackslashEscapes).end;
    NoMark(env, line, s);
    LiteralReads(env, line, s, m.text, e);
    ScanUnfold(env, line, Copied(line, m));
  }

  /** The rest of a line, by its pieces. */
  function PiecesOf(env: Env, line: string, s: Scan): seq<Piece>
    requires s.pos <= |line|
  {
    Pieces(env, line, s.pos, s.carry.session.delimiter, !s.carry.session.noBackslashEscapes, s.hint)
  }

  /** Main result: on a line without short commands what is sent is the statements of
      its pieces, and what is kept is what they leave. */
  lemma {:induction false} LineReads(env: Env, line: string, s: Scan)
    requires Between(env, line, s) && Command !in PiecesOf(env, line, s)
    requires AllRun(env, s.carry.session, |s.carry.log|, Completed(env, PiecesOf(env, line, s), ReadOf(s)))
    ensures var pieces, r := PiecesOf(env, line, s), ScanLine(env, line, s);
            && r.stop != Quit && r.carry.session == s.carry.session
            && r.carry.log == s.carry.log + AllSent(Completed(env, pieces, ReadOf(s)))
            && r.carry.buffer + r.text == Left(env, pieces, ReadOf(s)).text
            && r.carry.quote == QuoteLeft(pieces) && r.carry.comment == CommentLeft(pieces)
    decreases |line| - s.pos
  {
    hide Next, ScanLine, PieceAt, After, Runs, AllSent, AllRun;
    var pieces := PiecesOf(env, line, s);
    AllSentNone(s.carry.log);
    if s.pos == |line| {
      ScanUnfold(env, line, s);
    } else {
      var step := NextPiece(env, line, s);
      assert pieces[0] == step.piece && pieces[0] in pieces;
      if Last(step.piece) {
        LastPieceTaken(env, line, s);
        assert pieces == [step.piece];
        OnlyPiece(env, step.piece, ReadOf(s));
      } else {
        var rest := pieces[1..];
        if step.piece == End {
          AllRunTail(env, s.carry.session, |s.carry.log|, ReadOf(s).text,
                     Completed(env, rest, After(env, ReadOf(s), End)));
        }
        var n := PieceTaken(env, line, s);
        assert PiecesOf(env, line, n) == rest;
        RunRest(env, s, n, pieces);
        LineReads(env, line, n);
        SentOn(env, s.carry.log, pieces, ReadOf(s));
        LeftLast(pieces);
      }
    }
  }

  lemma OnlyPiece(env: Env, piece: Piece, r: Reading)
    requires piece != End
    ensures Completed(env, [piece], r) == [] && Left(env, [piece], r) == After(env, r, piece)
  {
    hide After;
    assert [piece][1..] == [];
    assert Completed(env, [], After(env, r, piece)) == [] && Left(env, [], After(env, r, piece)) == After(env, r, piece);
  }

  lemma RunRest(env: Env, s: Scan, n: Scan, pieces: seq<Piece>)
    requires pieces != [] && n.carry.session == s.carry.session
    requires AllRun(env, s.carry.session, |s.carry.log|, Completed(env, pieces, ReadOf(s)))
    requires ReadOf(n) == After(env, ReadOf(s), pieces[0])
    requires n.carry.log == s.carry.log + if pieces[0] == End then [Sent(ReadOf(s).text)] else []
    ensures AllRun(env, n.carry.session, |n.carry.log|, Completed(env, pieces[1..], ReadOf(n)))
  {
    hide After, Runs, AllRun;
    var rest := Completed(env, pieces[1..], ReadOf(n));
    if pieces[0] == End {
      AllRunTail(env, s.carry.session, |s.carry.log|, ReadOf(s).text, rest);
    } else {
      assert [] + rest == rest;
    }
  }

  lemma SentOn(env: Env, log: seq<Action>, pieces: seq<Piece>, r: Reading)
    requires pieces != []
    ensures log + (if pieces[0] == End then [Sent(r.text)] else [])
              + AllSent(Completed(env, pieces[1..], After(env, r, pieces[0]))) ==
            log + AllSent(Completed(env, pieces, r))
  {
    hide After, AllSent;
    var rest := Completed(env, pieces[1..], After(env, r, pieces[0]));
    if pieces[0] == End {
      AllSentAppend(log, r.text, rest);
    } else {
      assert [] + rest == rest && log + [] == log;
    }
  }

  lemma LeftLast(pieces: seq<Piece>)
    requires pieces != [] && !Last(pieces[0])
    ensures QuoteLeft(pieces) == QuoteLeft(pieces[1..]) && CommentLeft(pieces) == CommentLeft(pieces[1..])
  {
  }

  // ---------------------------------------------------------------------------
  // Whole lines, from wherever the line before left off

  /** A line in pieces, and the reading they go on from. */
  datatype Entry = Entry(pieces: seq<Piece>, from: Reading)

  function Enter(env: Env, k: Carry, line: string): Entry {
    var d, escapes := k.session.delimiter, !k.session.noBackslashEscapes;
    if k.comment then
      match ReadComment(line, 0, NoHint)
      case Ended(e) => Entry(Pieces(env, line, e, d, escapes, NoHint), Reading(k.buffer, true))
      case Unended => Entry([OpenGap], Reading(k.buffer, false))
    else if k.quote != NUL then
      match ReadLiteral(line, 0, k.quote, escapes)
      case Closed(e) => Entry(Pieces(env, line, e, d, escapes, NoHint), Reading(k.buffer + line[..e], false))
      case Open(e) => Entry([OpenText(k.quote, line[..e])], Reading(k.buffer, false))
    else Entry(Pieces(env, line, 0, d, escapes, NoHint), Reading(k.buffer, false))
  }

  /** The scan of a line has done this. */
  ghost predicate Scanned(env: Env, k: Carry, r: Scan, entry: Entry) {
    && r.stop != Quit && r.carry.session == k.session
    && r.carry.log == k.log + AllSent(Completed(env, entry.pieces, entry.from))
    && r.carry.buffer + r.text == Left(env, entry.pieces, entry.from).text
    && r.carry.quote == QuoteLeft(entry.pieces) && r.carry.comment == CommentLeft(entry.pieces)
    && (r.carry.comment ==> r.text == [])
  }

  lemma EntryScanned(env: Env, k: Carry, line: string)
    requires GoodCarry(k) && !env.preserveComments && Sane(env, k.session.delimiter)
    requires var entry := Enter(env, k, line);
             && Command !in entry.pieces
             && AllRun(env, k.session, |k.log|, Completed(env, entry.pieces, entry.from))
    ensures Scanned(env, k, ScanLine(env, line, Start(k)), Enter(env, k, line))
  {
    hide ScanLine, Sane, ReadComment, ReadLiteral, Pieces, AllRun, AllSent, Completed, Left, QuoteLeft, CommentLeft;
    var s := Start(k);
    assert k.buffer + [] == k.buffer;
    CommentEmpty(env, line, s);
    if k.comment {
      CommentRead(env, line, s);
      match ReadComment(line, 0, NoHint) {
        case Ended(e) =>
          var n := Scan(e, [], true, NoHint, Running, k.(comment := false));
          CommentEmpty(env, line, n);
          LineReads(env, line, n);
        case Unended => OnePieceLeft(env, k, OpenGap);
      }
    } else if k.quote != NUL {
      LiteralEntry(env, k, line);
    } else {
      LineReads(env, line, s);
    }
  }

  lemma LiteralEntry(env: Env, k: Carry, line: string)
    requires GoodCarry(k) && !k.comment && k.quote != NUL && !env.preserveComments && Sane(env, k.session.delimiter)
    requires var entry := Enter(env, k, line);
             && Command !in entry.pieces
             && AllRun(env, k.session, |k.log|, Completed(env, entry.pieces, entry.from))
    ensures Scanned(env, k, ScanLine(env, line, Start(k)), Enter(env, k, line))
  {
    hide ScanLine, Sane, ReadLiteral, Pieces, AllRun, AllSent, Completed, Left, QuoteLeft, CommentLeft;
    var s := Start(k);
    CommentEmpty(env, line, s);
    LiteralCopied(env, line, s);
    var n, e := Copied(line, s), ReadLiteral(line, 0, k.quote, !k.session.noBackslashEscapes).end;
    assert n.text == line[..e];
    if ReadLiteral(line, 0, k.quote, !k.session.noBackslashEscapes).Closed? {
      LineReads(env, line, n);
    } else {
      ScanUnfold(env, line, n);
      OnePieceLeft(env, k, OpenText(k.quote, line[..e]));
    }
  }

  lemma OnePieceLeft(env: Env, k: Carry, piece: Piece)
    requires piece == OpenGap || (piece.OpenText? && k.buffer != [])
    ensures var from := Reading(k.buffer, false);
            && Left(env, [piece], from).text == k.buffer + (if piece.OpenText? then piece.text else [])
            && k.log + AllSent(Completed(env, [piece], from)) == k.log
            && QuoteLeft([piece]) == (if piece.OpenText? then piece.quote else NUL)
            && CommentLeft([piece]) == piece.OpenGap?
  {
    hide AllSent, Space;
    var from := Reading(k.buffer, false);
    OnlyPiece(env, piece, from);
    AllSentNone(k.log);
    if piece.OpenText? {
      assert k.buffer + "" + piece.text == k.buffer + piece.text;
      assert piece.text == [] ==> k.buffer + piece.text == k.buffer;
    } else {
      assert k.buffer + [] == k.buffer;
    }
  }

  /** Nothing is collected inside a comment. */
  lemma {:induction false} CommentEmpty(env: Env, line: string, s: Scan)
    requires (s.carry.comment ==> s.text == []) && !env.preserveComments
    ensures ScanLine(env, line, s).stop != Quit && ScanLine(env, line, s).carry.comment ==>
              ScanLine(env, line, s).text == []
    decreases |line| - s.pos
  {
    hide Next, ScanLine;
    ScanUnfold(env, line, s);
    if s.stop == Running && s.pos < |line| {
      CommentEmptyTurn(env, line, s);
      if Next(env, line, s).stop == Running {
        CommentEmpty(env, line, Next(env, line, s));
      }
    }
  }

  lemma CommentEmptyTurn(env: Env, line: string, s: Scan)
    requires s.pos < |line| && s.stop == Running && (s.carry.comment ==> s.text == []) && !env.preserveComments
    ensures var n := Next(env, line, s); n.stop != Quit && n.carry.comment ==> n.text == []
  {
    hide PrefixAt, StartsLineComment, CString, CStringEnd, SpacesEnd, CommentEnd, ParamsEnd, HintAfter, QuoteAfter, Space;
  }

  /** No end of the text is a DELIMITER command. */
  ghost predicate NoDelimiterCommand(env: Env, text: string) {
    forall i :: 0 <= i <= |text| ==> !env.isDelimiterCommand(text[i..])
  }

  /** Main result on `add_line`: comments, hints and literals in any order, and whatever
      the line before left open. A newline ends what is kept, but not inside a comment. */
  lemma CommentedLine(env: Env, k: Carry, line: string)
    requires GoodCarry(k) && !env.preserveComments && Sane(env, k.session.delimiter)
    requires k.buffer == [] ==> At(line, 0) != NUL
    requires var entry := Enter(env, k, line);
             && Command !in entry.pieces
             && AllRun(env, k.session, |k.log|, Completed(env, entry.pieces, entry.from))
    ensures var (k', quit) := AddLine(env, k, line, false);
            var Entry(pieces, from) := Enter(env, k, line);
            var text := Left(env, pieces, from).text;
            && !quit && k'.session == k.session
            && k'.log == k.log + AllSent(Completed(env, pieces, from))
            && k'.quote == QuoteLeft(pieces) && k'.comment == CommentLeft(pieces)
            && (k'.buffer == text || k'.buffer == text + "\n")
            && (text == [] || k'.comment ==> k'.buffer == text)
            && (text != [] && !k'.comment && NoDelimiterCommand(env, text) ==> k'.buffer == text + "\n")
  {
    hide ScanLine, Sane, Enter, AllRun, AllSent, Completed, Left, QuoteLeft, CommentLeft;
    EntryScanned(env, k, line);
    var r := ScanLine(env, line, Start(k));
    var text := r.carry.buffer + r.text;
    assert text[|r.carry.buffer|..] == r.text;
    assert r.text == [] ==> text == r.carry.buffer;
    assert text + [] == text;
  }

  // ---------------------------------------------------------------------------
  // Comments add nothing but spaces

  function Letters(text: string): string {
    if text == [] then [] else Letters(text[..|text| - 1]) + if text[|text| - 1] == ' ' then [] else [text[|text| - 1]]
  }

  lemma {:induction false} LettersConcat(a: string, b: string)
    ensures Letters(a + b) == Letters(a) + Letters(b)
  {
    if b == [] {
      assert a + b == a;
    } else {
      var n := |b| - 1;
      assert (a + b)[..|a + b| - 1] == a + b[..n] && (a + b)[|a + b| - 1] == b[n];
      LettersConcat(a, b[..n]);
    }
  }

  function WithoutGaps(pieces: seq<Piece>): seq<Piece> {
    if pieces == [] then [] else (if pieces[0] == Gap then [] else [pieces[0]]) + WithoutGaps(pieces[1..])
  }

  /** The same text, but for spaces. */
  predicate Alike(a: string, b: string) {
    Letters(a) == Letters(b) && (a == [] <==> b == [])
  }

  lemma AfterAlike(env: Env, r: Reading, q: Reading, piece: Piece)
    requires Alike(r.text, q.text)
    ensures Alike(After(env, r, piece).text, After(env, q, piece).text)
    ensures piece == Gap ==> After(env, r, piece).text == r.text
  {
    hide Letters, Space;
    match piece {
      case Kept(t) => KeepAlike(env, r, q, t);
      case OpenText(_, t) => KeepAlike(env, r, q, t);
      case Null =>
        LettersConcat(r.text, "\\N");
        LettersConcat(q.text, "\\N");
      case _ =>
    }
  }

  lemma KeepAlike(env: Env, r: Reading, q: Reading, t: string)
    requires Alike(r.text, q.text)
    ensures Alike(Keep(env, r, t).text, Keep(env, q, t).text)
  {
    hide Space, Letters;
    OwedLetters(r.text, t);
    OwedLetters(q.text, t);
  }

  lemma OwedLetters(text: string, t: string)
    ensures Letters(text + " " + t) == Letters(text) + Letters(t)
    ensures Letters(text + "" + t) == Letters(text) + Letters(t)
  {
    hide Letters;
    assert text + "" == text;
    LettersConcat(text, t);
    LettersConcat(text + " ", t);
    LettersConcat(text, " ");
    NoLetter();
    assert Letters(text) + [] == Letters(text);
  }

  lemma NoLetter()
    ensures Letters(" ") == []
  {
    assert " "[..0] == "";
  }

  ghost predicate AllAlike(a: seq<string>, b: seq<string>) {
    |a| == |b| && forall i :: 0 <= i < |a| ==> Alike(a[i], b[i])
  }

  lemma AlikeAfter(x: seq<string>, y: seq<string>, a: seq<string>, b: seq<string>)
    requires AllAlike(x, y) && AllAlike(a, b)
    ensures AllAlike(x + a, y + b)
  {
    hide Alike;
  }

  /** Leaving the comments out of the line changes no more than spaces in what is sent
      and in what is left. */
  lemma {:induction false} CommentsAreSpaces(env: Env, pieces: seq<Piece>, r: Reading, q: Reading)
    requires Alike(r.text, q.text)
    ensures AllAlike(Completed(env, pieces, r), Completed(env, WithoutGaps(pieces), q))
    ensures Alike(Left(env, pieces, r).text, Left(env, WithoutGaps(pieces), q).text)
    decreases pieces
  {
    hide After, Alike, Completed, Left, AllAlike;
    if pieces == [] {
      NothingCompleted(env, r);
      NothingCompleted(env, q);
    } else {
      var piece, rest := pieces[0], pieces[1..];
      AfterAlike(env, r, q, piece);
      Unfold(env, pieces, r);
      var r1 := After(env, r, piece);
      if piece == Gap {
        assert WithoutGaps(pieces) == WithoutGaps(rest);
        CommentsAreSpaces(env, rest, r1, q);
      } else {
        var others := WithoutGaps(pieces);
        assert others[0] == piece && others[1..] == WithoutGaps(rest);
        Unfold(env, others, q);
        CommentsAreSpaces(env, rest, r1, After(env, q, piece));
        SentAlike(piece, r, q);
        AlikeAfter(SentBy(piece, r), SentBy(piece, q), Completed(env, rest, r1),
                   Completed(env, WithoutGaps(rest), After(env, q, piece)));
      }
    }
  }

  function SentBy(piece: Piece, r: Reading): seq<string> {
    if piece == End then [r.text] else []
  }

  lemma SentAlike(piece: Piece, r: Reading, q: Reading)
    requires Alike(r.text, q.text)
    ensures AllAlike(SentBy(piece, r), SentBy(piece, q))
  {
    hide Alike;
  }

  /** The space a comment owes at the end of a statement is paid by the next one. */
  lemma NextStatementPays(env: Env, text: string, c: char)
    requires !Space(env, c)
    ensures Completed(env, [Gap, End, Kept([c]), End], Reading(text, false)) == [text, " " + [c]]
  {
    hide Space;
    Unfold(env, [Gap, End, Kept([c]), End], Reading(text, false));
    Unfold(env, [End, Kept([c]), End], Reading(text, true));
    Unfold(env, [Kept([c]), End], Reading([], true));
    assert [] + " " + [c] == " " + [c];
    Unfold(env, [End], Reading(" " + [c], false));
  }

  lemma NothingCompleted(env: Env, r: Reading)
    ensures Completed(env, [], r) == [] && Left(env, [], r) == r && AllAlike([], [])
  {
  }

  lemma Unfold(env: Env, pieces: seq<Piece>, r: Reading)
    requires pieces != []
    ensures var r1 := After(env, r, pieces[0]);
            && Completed(env, pieces, r) == SentBy(pieces[0], r) + Completed(env, pieces[1..], r1)
            && Left(env, pieces, r) == Left(env, pieces[1..], r1)
            && (pieces[0] == Gap ==> Completed(env, pieces, r) == Completed(env, pieces[1..], r1))
  {
    hide After;
    var rest := Completed(env, pieces[1..], After(env, r, pieces[0]));
    assert [] + rest == rest;
  }
}
