/** What is sent of a line when comments are preserved (`--comments`): block comments stay
    in the text with their marks; a line comment behind a delimiter goes with the
    statement before it, one with nothing before it is sent alone, any other is kept.
    Stated against an independent reading of the line, in which nothing is lost. */
module StatementPreserved {
  import opened Optional
  import opened StatementScanner
  import opened StatementLiterals
  import opened StatementSplitting
  import C = StatementComments

  /** The pieces of a line: characters and literals, `\N`, the marks of comments, a
      delimiter with what is behind it; and at the end a literal that stays open, a line
      comment, a backslash that cuts the line off, or a short command. */
  datatype Piece =
    | Kept(text: string) | Null | OpenMark | CloseMark | End(tail: string)
    | OpenText(quote: char, text: string) | Rest(text: string) | Cut | Command

  /** Where the reading stands: in which hint, and whether in a comment. */
  datatype Step = Step(piece: Piece, next: nat, hint: Hint, comment: bool)

  predicate Last(piece: Piece) {
    piece.OpenText? || piece.Rest? || piece.Cut? || piece.Command?
  }

  /** A line comment behind a delimiter; two dashes need a space here. */
  predicate TrailingComment(env: Env, line: string, p: nat) {
    p < |line| && (line[p] == '#' || (PrefixAt(line, p, "--") && p + 2 < |line| && Space(env, line[p + 2])))
  }

  /** Where what goes with the statement before the delimiter ends: behind the spaces,
      and behind a line comment that follows them. */
  function TailEnd(env: Env, line: string, p: nat): (e: nat)
    requires p <= |line|
    ensures p <= e <= |line|
  {
    var q := SpacesEnd(env, line, p);
    if TrailingComment(env, line, q) then CStringEnd(line, q) else q
  }

  function PieceAt(env: Env, line: string, p: nat, d: string, escapes: bool, hint: Hint, comment: bool): (r: Step)
    requires p < |line| && d != []
    ensures !Last(r.piece) ==> p < r.next <= |line|
  {
    var c := line[p];
    if !comment && c == '\\' then
      Step(if At(line, p + 1) == NUL then Cut else if At(line, p + 1) == 'N' then Null else Command, p + 2, hint, false)
    else if !comment && hint != OptimizerHint && PrefixAt(line, p, d) then
      var e := TailEnd(env, line, p + |d|);
      Step(End(line[p + |d|..e]), e, hint, false)
    else if !comment && C.LineCommentAt(env, line, p) then Step(Rest(CString(line, p)), p, hint, false)
    else if C.OpensPlain(line, p) && hint != OptimizerHint then Step(OpenMark, p + 2, hint, true)
    else if comment && hint == NoHint && C.Closes(line, p) then Step(CloseMark, p + 2, NoHint, false)
    else if !comment && IsQuote(c) && hint != OptimizerHint then
      match ReadLiteral(line, p + 1, c, escapes)
      case Closed(e) => Step(Kept(line[p..e]), e, hint, false)
      case Open(e) => Step(OpenText(c, line[p..e]), e, hint, false)
    else Step(Kept([c]), p + 1, C.HintBehind(line, p, hint), comment)
  }

  function Pieces(env: Env, line: string, p: nat, d: string, escapes: bool, hint: Hint, comment: bool): seq<Piece>
    requires p <= |line| && d != []
    decreases |line| - p
  {
    if p == |line| then []
    else
      var r := PieceAt(env, line, p, d, escapes, hint, comment);
      [r.piece] + if Last(r.piece) then [] else Pieces(env, line, r.next, d, escapes, r.hint, r.comment)
  }

  // ---------------------------------------------------------------------------
  // The text of the pieces

  function Keep(env: Env, r: C.Reading, t: string): C.Reading {
    if t == [] then r
    else C.Reading(r.text + (if r.owed && !Space(env, t[0]) then " " else "") + t, false)
  }

  /** Marks are kept as they are; a comment that ends owes a space. */
  function After(env: Env, r: C.Reading, piece: Piece): C.Reading {
    match piece
    case Kept(t) => Keep(env, r, t)
    case OpenText(_, t) => Keep(env, r, t)
    case Null => r.(text := r.text + "\\N")
    case OpenMark => r.(text := r.text + "/*")
    case CloseMark => C.Reading(r.text + "*/", true)
    case End(_) => r.(text := [])
    case Rest(t) => if r.text == [] then r else r.(text := r.text + t)
    case _ => r
  }

  /** A statement that is sent; at a delimiter it could be a client command. */
  datatype Sending = Sending(text: string, ended: bool)

  function SentBy(r: C.Reading, piece: Piece): seq<Sending> {
    match piece
    case End(tail) => [Sending(r.text + tail, true)]
    case Rest(t) => if r.text == [] then [Sending(t, false)] else []
    case _ => []
  }

  function Completed(env: Env, pieces: seq<Piece>, r: C.Reading): seq<Sending>
    decreases pieces
  {
    if pieces == [] then [] else SentBy(r, pieces[0]) + Completed(env, pieces[1..], After(env, r, pieces[0]))
  }

  function Left(env: Env, pieces: seq<Piece>, r: C.Reading): C.Reading
    decreases pieces
  {
    if pieces == [] then r else Left(env, pieces[1..], After(env, r, pieces[0]))
  }

  function QuoteLeft(pieces: seq<Piece>): char {
    if pieces != [] && pieces[|pieces| - 1].OpenText? then pieces[|pieces| - 1].quote else NUL
  }

  predicate CommentLeft(pieces: seq<Piece>, comment: bool)
    decreases pieces
  {
    if pieces == [] then comment
    else CommentLeft(pieces[1..], if pieces[0] == OpenMark then true else if pieces[0] == CloseMark then false else comment)
  }

  /** The sending is no client command, and running it neither ends the session nor
      changes it. */
  predicate Goes(env: Env, session: Session, n: nat, sending: Sending) {
    && (sending.ended ==> !env.isNamed(n, sending.text, session))
    && !env.runStatement(n, sending.text, session).quit
    && env.runStatement(n, sending.text, session).session == session
  }

  predicate AllGo(env: Env, session: Session, n: nat, sendings: seq<Sending>) {
    forall i :: 0 <= i < |sendings| ==> Goes(env, session, n + i, sendings[i])
  }

  function Actions(sendings: seq<Sending>): seq<Action> {
    seq(|sendings|, i requires 0 <= i < |sendings| => Sent(sendings[i].text))
  }

  // ---------------------------------------------------------------------------
  // The scan

  ghost predicate Between(env: Env, line: string, s: Scan) {
    s.pos <= |line| && s.stop == Running && s.carry.quote == NUL && env.preserveComments
  }

  function NextPiece(env: Env, line: string, s: Scan): Step
    requires s.pos < |line|
  {
    PieceAt(env, line, s.pos, s.carry.session.delimiter, !s.carry.session.noBackslashEscapes, s.hint, s.carry.comment)
  }

  lemma MarkTurn(env: Env, line: string, s: Scan)
    requires Between(env, line, s) && s.pos < |line|
    requires s.carry.comment || (line[s.pos] != '\\' && !StartsLineComment(env, line, s.pos))
    requires s.carry.comment || s.hint == OptimizerHint || !PrefixAt(line, s.pos, s.carry.session.delimiter)
    ensures C.OpensPlain(line, s.pos) && s.hint != OptimizerHint ==>
              Next(env, line, s) == Scan(s.pos + 2, [], s.needSpace, s.hint, Running,
                s.carry.(buffer := s.carry.buffer + s.text + "/*", comment := true))
    ensures s.carry.comment && s.hint == NoHint && C.Closes(line, s.pos) ==>
              Next(env, line, s) == Scan(s.pos + 2, [], true, s.hint, Running,
                s.carry.(buffer := s.carry.buffer + s.text + "*/", comment := false))
  {
    hide PrefixAt, OnBackslash, OnDelimiter, OnLineComment, StartsLineComment, HintAfter, QuoteAfter;
    if s.pos + 2 <= |line| {
      Pair(line, s.pos);
    }
  }

  lemma Pair(line: string, p: nat)
    requires p + 2 <= |line|
    ensures line[p..p + 2] == [line[p], line[p + 1]]
    ensures [line[p], line[p + 1]] == "/*" <==> line[p] == '/' && line[p + 1] == '*'
    ensures [line[p], line[p + 1]] == "*/" <==> line[p] == '*' && line[p + 1] == '/'
    ensures [line[p], line[p + 1]] == "\\N" <==> line[p] == '\\' && line[p + 1] == 'N'
  {
  }

  lemma KeptTurn(env: Env, line: string, s: Scan)
    requires Between(env, line, s) && s.pos < |line|
    requires s.carry.comment || (line[s.pos] != '\\' && !StartsLineComment(env, line, s.pos))
    requires s.carry.comment || s.hint == OptimizerHint || !PrefixAt(line, s.pos, s.carry.session.delimiter)
    requires !(C.OpensPlain(line, s.pos) && s.hint != OptimizerHint)
    requires !(s.carry.comment && s.hint == NoHint && C.Closes(line, s.pos))
    ensures var c, h := line[s.pos], HintAfter(line, s.pos, NUL, s.hint);
            Next(env, line, s) ==
            Scan(s.pos + 1, s.text + (if s.needSpace && !Space(env, c) then " " else "") + [c], false, h, Running,
                 s.carry.(quote := if IsQuote(c) && s.hint != OptimizerHint && !s.carry.comment then c else NUL))
  {
    hide PrefixAt, OnBackslash, OnDelimiter, OnLineComment, StartsLineComment;
    var c := line[s.pos];
    assert IsQuote(c) ==> HintAfter(line, s.pos, NUL, s.hint) == s.hint;
    assert !IsQuote(c) ==> QuoteAfter(c, s.carry, HintAfter(line, s.pos, NUL, s.hint)) == NUL;
  }

  lemma BackslashTurn(env: Env, line: string, s: Scan)
    requires Between(env, line, s) && s.pos < |line| && !s.carry.comment && line[s.pos] == '\\'
    ensures At(line, s.pos + 1) == NUL ==> Next(env, line, s) == s.(stop := Broke)
    ensures At(line, s.pos + 1) == 'N' ==> Next(env, line, s) == s.(pos := s.pos + 2, text := s.text + "\\N")
  {
    hide PrefixAt, OnDelimiter, OnLineComment, StartsLineComment, OnShortCommand;
  }

  lemma EndTurn(env: Env, line: string, s: Scan)
    requires Between(env, line, s) && !s.carry.comment && s.hint != OptimizerHint
    requires PrefixAt(line, s.pos, s.carry.session.delimiter)
    requires var p := s.pos + |s.carry.session.delimiter|;
             Goes(env, s.carry.session, |s.carry.log|,
                  Sending(s.carry.buffer + s.text + line[p..TailEnd(env, line, p)], true))
    ensures s.pos < |line|
    ensures var p := s.pos + |s.carry.session.delimiter|;
            var e := TailEnd(env, line, p);
            Next(env, line, s) == Scan(e, [], s.needSpace, s.hint, Running,
              s.carry.(buffer := [], log := s.carry.log + [Sent(s.carry.buffer + s.text + line[p..e])]))
  {
    hide CString, CStringEnd, SpacesEnd, CommentEnd, ParamsEnd, OnShortCommand, OnBackslash, TailEnd, PrefixAt, OnMark,
      OnOrdinary, OnLineComment;
    var d := s.carry.session.delimiter;
    DelimiterHere(line, s.pos, d);
    assert Choose(env, line, s) == Delimiter;
    TailParts(env, line, s.pos + |d|, s.carry.buffer + s.text);
  }

  lemma DelimiterHere(line: string, p: nat, d: string)
    requires d != [] && PrefixAt(line, p, d)
    ensures p < |line| && line[p] == d[0] && d[0] in d && p + |d| <= |line|
  {
    assert line[p..p + |d|][0] == d[0];
  }

  lemma TailParts(env: Env, line: string, p: nat, text: string)
    requires p <= |line|
    ensures var q := SpacesEnd(env, line, p);
            var trailing := At(line, q) == '#' ||
              (At(line, q) == '-' && At(line, q + 1) == '-' && Space(env, At(line, q + 2)));
            var e := if trailing then CStringEnd(line, q) else q;
            && e == TailEnd(env, line, p)
            && text + line[p..q] + line[q..e] == text + line[p..e]
  {
    hide CStringEnd, SpacesEnd, PrefixAt;
    var q := SpacesEnd(env, line, p);
    if q < |line| {
      C.PrefixChars(line, q);
    }
    var e := TailEnd(env, line, p);
    assert line[p..e] == line[p..q] + line[q..e];
  }

  lemma RestTurn(env: Env, line: string, s: Scan)
    requires Between(env, line, s) && s.pos < |line| && !s.carry.comment && line[s.pos] != '\\'
    requires StartsLineComment(env, line, s.pos)
    requires s.hint != OptimizerHint ==> !PrefixAt(line, s.pos, s.carry.session.delimiter)
    requires s.carry.buffer + s.text == [] ==>
               Goes(env, s.carry.session, |s.carry.log|, Sending(CString(line, s.pos), false))
    ensures var text := s.carry.buffer + s.text;
            Next(env, line, s) == Scan(s.pos, [], s.needSpace, s.hint, Broke,
              if text == [] then s.carry.(buffer := [], log := s.carry.log + [Sent(CString(line, s.pos))])
              else s.carry.(buffer := text + CString(line, s.pos)))
  {
    hide PrefixAt, OnBackslash, OnDelimiter, CString, OnMark, OnOrdinary;
    assert [] + CString(line, s.pos) == CString(line, s.pos);
  }

  /** What a piece does to the scan. */
  ghost predicate Moved(env: Env, line: string, s: Scan, n: Scan, r: Step) {
    && ScanLine(env, line, s) == ScanLine(env, line, n)
    && Between(env, line, n) && n.pos == r.next && n.hint == r.hint && n.carry.comment == r.comment
    && n.carry.session == s.carry.session
    && C.ReadOf(n) == After(env, C.ReadOf(s), r.piece)
    && n.carry.log == s.carry.log + Actions(SentBy(C.ReadOf(s), r.piece))
  }

  lemma PieceTaken(env: Env, line: string, s: Scan) returns (n: Scan)
    requires Between(env, line, s) && s.pos < |line| && !Last(NextPiece(env, line, s).piece)
    requires AllGo(env, s.carry.session, |s.carry.log|, SentBy(C.ReadOf(s), NextPiece(env, line, s).piece))
    ensures Moved(env, line, s, n, NextPiece(env, line, s))
  {
    hide Next, ScanLine, PrefixAt, StartsLineComment, C.LineCommentAt, ReadLiteral, C.OpensPlain, C.Closes, HintAfter,
      C.HintBehind, TailEnd, Goes, CString;
    var d := s.carry.session.delimiter;
    var buffer, text := s.carry.buffer, s.text;
    C.HintIsBehind(line, s.pos, s.hint);
    C.LineCommentIs(env, line, s.pos);
    ScanUnfold(env, line, s);
    n := Next(env, line, s);
    assert s.carry.log + [] == s.carry.log;
    if !s.carry.comment && line[s.pos] == '\\' {
      BackslashTurn(env, line, s);
      assert buffer + (text + "\\N") == buffer + text + "\\N";
    } else if !s.carry.comment && s.hint != OptimizerHint && PrefixAt(line, s.pos, d) {
      EndTaken(env, line, s);
    } else if (C.OpensPlain(line, s.pos) && s.hint != OptimizerHint) ||
              (s.carry.comment && s.hint == NoHint && C.Closes(line, s.pos)) {
      MarkTurn(env, line, s);
      MarkReads(buffer, text);
    } else {
      KeptTurn(env, line, s);
      KeptReads(env, line, s);
      if IsQuote(line[s.pos]) && s.hint != OptimizerHint && !s.carry.comment {
        n := LiteralKept(env, line, s);
      }
    }
  }

  lemma MarkReads(buffer: string, text: string)
    ensures buffer + text + "/*" + [] == buffer + text + "/*"
    ensures buffer + text + "*/" + [] == buffer + text + "*/"
  {
  }

  lemma EndTaken(env: Env, line: string, s: Scan)
    requires Between(env, line, s) && s.pos < |line| && !s.carry.comment && s.hint != OptimizerHint
    requires line[s.pos] != '\\' && PrefixAt(line, s.pos, s.carry.session.delimiter)
    requires AllGo(env, s.carry.session, |s.carry.log|, SentBy(C.ReadOf(s), NextPiece(env, line, s).piece))
    ensures Next(env, line, s).stop == Running
    ensures var n, r := Next(env, line, s), NextPiece(env, line, s);
            && Between(env, line, n) && n.pos == r.next && n.hint == r.hint && n.carry.comment == r.comment
            && n.carry.session == s.carry.session
            && C.ReadOf(n) == After(env, C.ReadOf(s), r.piece)
            && n.carry.log == s.carry.log + Actions(SentBy(C.ReadOf(s), r.piece))
  {
    hide Next, PrefixAt, TailEnd, Goes, CString;
    var r := NextPiece(env, line, s);
    var sent := SentBy(C.ReadOf(s), r.piece);
    assert Goes(env, s.carry.session, |s.carry.log| + 0, sent[0]);
    EndTurn(env, line, s);
    assert Actions(sent) == [Sent(sent[0].text)];
  }

  lemma KeptReads(env: Env, line: string, s: Scan)
    requires s.pos < |line|
    ensures var c := line[s.pos];
            var gap := if s.needSpace && !Space(env, c) then " " else "";
            Keep(env, C.ReadOf(s), [c]) == C.Reading(s.carry.buffer + (s.text + gap + [c]), false)
  {
    hide Space;
    var c := line[s.pos];
    var gap := if s.needSpace && !Space(env, c) then " " else "";
    assert s.carry.buffer + s.text + gap + [c] == s.carry.buffer + (s.text + gap + [c]);
  }

  /** The scan behind the quote that opens a literal. */
  lemma LiteralOpened(env: Env, line: string, s: Scan) returns (m: Scan)
    requires Between(env, line, s) && s.pos < |line| && !s.carry.comment && s.hint != OptimizerHint
    requires IsQuote(line[s.pos]) && !PrefixAt(line, s.pos, s.carry.session.delimiter)
    ensures var gap := if s.needSpace && !Space(env, line[s.pos]) then " " else "";
            m == Scan(s.pos + 1, s.text + gap + [line[s.pos]], false, s.hint, Running,
                      s.carry.(quote := line[s.pos]))
    ensures ScanLine(env, line, s) == ScanLine(env, line, Copied(line, m))
  {
    hide Next, ScanLine, ReadLiteral, PrefixAt, Copied;
    QuoteNoMark(env, line, s);
    KeptTurn(env, line, s);
    ScanUnfold(env, line, s);
    m := Next(env, line, s);
    LiteralCopied(env, line, m);
  }

  lemma QuoteNoMark(env: Env, line: string, s: Scan)
    requires s.pos < |line| && IsQuote(line[s.pos])
    ensures line[s.pos] != '\\' && !StartsLineComment(env, line, s.pos) && !C.OpensPlain(line, s.pos)
    ensures !C.Closes(line, s.pos) && HintAfter(line, s.pos, NUL, s.hint) == s.hint
  {
  }

  lemma LiteralReads(env: Env, line: string, s: Scan, text: string, e: nat)
    requires s.pos < e <= |line|
    requires text == s.text + (if s.needSpace && !Space(env, line[s.pos]) then " " else "") + [line[s.pos]]
    ensures Keep(env, C.ReadOf(s), line[s.pos..e]) == C.Reading(s.carry.buffer + (text + line[s.pos + 1..e]), false)
  {
    hide Space;
    var gap, t := if s.needSpace && !Space(env, line[s.pos]) then " " else "", line[s.pos..e];
    assert t[0] == line[s.pos] && t == [line[s.pos]] + line[s.pos + 1..e];
    assert s.carry.buffer + s.text + gap + t == s.carry.buffer + (s.text + gap + [line[s.pos]] + line[s.pos + 1..e]);
  }

  /** A literal that is closed on the line. */
  lemma LiteralKept(env: Env, line: string, s: Scan) returns (n: Scan)
    requires Between(env, line, s) && s.pos < |line| && !s.carry.comment && s.hint != OptimizerHint
    requires IsQuote(line[s.pos]) && !PrefixAt(line, s.pos, s.carry.session.delimiter)
    requires ReadLiteral(line, s.pos + 1, line[s.pos], !s.carry.session.noBackslashEscapes).Closed?
    ensures var e := ReadLiteral(line, s.pos + 1, line[s.pos], !s.carry.session.noBackslashEscapes).end;
            Moved(env, line, s, n, Step(Kept(line[s.pos..e]), e, s.hint, false))
  {
    hide Next, ScanLine, ReadLiteral, PrefixAt;
    var m := LiteralOpened(env, line, s);
    var e := ReadLiteral(line, m.pos, m.carry.quote, !s.carry.session.noBackslashEscapes).end;
    n := m.(pos := e, text := m.text + line[m.pos..e], carry := s.carry);
    LiteralReads(env, line, s, m.text, e);
    assert s.carry.log + [] == s.carry.log;
  }

  /** What the last piece leaves. */
  ghost predicate Finishes(env: Env, line: string, s: Scan, piece: Piece) {
    var r := ScanLine(env, line, s);
    && r.stop != Quit && r.carry.session == s.carry.session
    && r.carry.log == s.carry.log + Actions(SentBy(C.ReadOf(s), piece))
    && r.carry.buffer + r.text == After(env, C.ReadOf(s), piece).text
    && r.carry.quote == QuoteLeft([piece]) && r.carry.comment == s.carry.comment
  }

  lemma LastPieceTaken(env: Env, line: string, s: Scan)
    requires Between(env, line, s) && s.pos < |line|
    requires Last(NextPiece(env, line, s).piece) && NextPiece(env, line, s).piece != Command
    requires AllGo(env, s.carry.session, |s.carry.log|, SentBy(C.ReadOf(s), NextPiece(env, line, s).piece))
    ensures Finishes(env, line, s, NextPiece(env, line, s).piece) && !s.carry.comment
  {
    hide Next, ScanLine, PrefixAt, StartsLineComment, C.LineCommentAt, ReadLiteral, C.OpensPlain, HintAfter,
      C.HintBehind, TailEnd, Goes, CString;
    C.LineCommentIs(env, line, s.pos);
    ScanUnfold(env, line, s);
    assert s.carry.log + [] == s.carry.log;
    if line[s.pos] == '\\' {
      BackslashTurn(env, line, s);
    } else if StartsLineComment(env, line, s.pos) {
      RestTaken(env, line, s);
    } else {
      LiteralLeftOpen(env, line, s);
    }
  }

  lemma RestTaken(env: Env, line: string, s: Scan)
    requires Between(env, line, s) && s.pos < |line| && !s.carry.comment && line[s.pos] != '\\'
    requires StartsLineComment(env, line, s.pos)
    requires s.hint != OptimizerHint ==> !PrefixAt(line, s.pos, s.carry.session.delimiter)
    requires AllGo(env, s.carry.session, |s.carry.log|, SentBy(C.ReadOf(s), Rest(CString(line, s.pos))))
    ensures Finishes(env, line, s, Rest(CString(line, s.pos)))
  {
    hide Next, ScanLine, PrefixAt, StartsLineComment, Goes, CString;
    var sent := SentBy(C.ReadOf(s), Rest(CString(line, s.pos)));
    var text := s.carry.buffer + s.text;
    if text == [] {
      assert Goes(env, s.carry.session, |s.carry.log| + 0, sent[0]);
      assert Actions(sent) == [Sent(sent[0].text)];
    }
    RestTurn(env, line, s);
    ScanUnfold(env, line, s);
    assert s.carry.log + [] == s.carry.log && text + CString(line, s.pos) + [] == text + CString(line, s.pos);
  }

  lemma LiteralLeftOpen(env: Env, line: string, s: Scan)
    requires Between(env, line, s) && s.pos < |line| && !s.carry.comment && s.hint != OptimizerHint
    requires IsQuote(line[s.pos]) && !PrefixAt(line, s.pos, s.carry.session.delimiter)
    requires ReadLiteral(line, s.pos + 1, line[s.pos], !s.carry.session.noBackslashEscapes).Open?
    ensures var e := ReadLiteral(line, s.pos + 1, line[s.pos], !s.carry.session.noBackslashEscapes).end;
            Finishes(env, line, s, OpenText(line[s.pos], line[s.pos..e]))
  {
    hide Next, ScanLine, ReadLiteral, PrefixAt, Keep, Space, Actions;
    var m := LiteralOpened(env, line, s);
    var e := ReadLiteral(line, m.pos, m.carry.quote, !s.carry.session.noBackslashEscapes).end;
    LiteralReads(env, line, s, m.text, e);
    var r := Copied(line, m);
    ScanUnfold(env, line, r);
    assert r.text == m.text + line[m.pos..e] && r.carry == m.carry;
    NoActions(s.carry.log);
  }

  function PiecesOf(env: Env, line: string, s: Scan): seq<Piece>
    requires s.pos <= |line|
  {
    Pieces(env, line, s.pos, s.carry.session.delimiter, !s.carry.session.noBackslashEscapes, s.hint, s.carry.comment)
  }

  /** Main result: on a line without short commands what is sent is the statements of
      its pieces, and what is kept is what they leave. */
  lemma {:induction false} LineReads(env: Env, line: string, s: Scan)
    requires Between(env, line, s) && Command !in PiecesOf(env, line, s)
    requires AllGo(env, s.carry.session, |s.carry.log|, Completed(env, PiecesOf(env, line, s), C.ReadOf(s)))
    ensures var pieces, r := PiecesOf(env, line, s), ScanLine(env, line, s);
            && r.stop != Quit && r.carry.session == s.carry.session
            && r.carry.log == s.carry.log + Actions(Completed(env, pieces, C.ReadOf(s)))
            && r.carry.buffer + r.text == Left(env, pieces, C.ReadOf(s)).text
            && r.carry.quote == QuoteLeft(pieces) && r.carry.comment == CommentLeft(pieces, s.carry.comment)
    decreases |line| - s.pos
  {
    hide Next, ScanLine, PieceAt, After, Actions, AllGo, SentBy;
    var pieces, r := PiecesOf(env, line, s), C.ReadOf(s);
    NoActions(s.carry.log);
    if s.pos == |line| {
      ScanUnfold(env, line, s);
    } else {
      var step := NextPiece(env, line, s);
      assert pieces[0] == step.piece && pieces[0] in pieces;
      Unfold(env, pieces, r);
      GoFirst(env, s.carry.session, |s.carry.log|, SentBy(r, step.piece), Completed(env, pieces[1..], After(env, r, step.piece)));
      if Last(step.piece) {
        LastPieceTaken(env, line, s);
        assert pieces == [step.piece];
        OnlyPiece(env, step.piece, r, s.carry.comment);
      } else {
        var n := PieceTaken(env, line, s);
        assert PiecesOf(env, line, n) == pieces[1..];
        CountActions(SentBy(r, step.piece));
        LineReads(env, line, n);
        ActionsConcat(s.carry.log, SentBy(r, step.piece), Completed(env, pieces[1..], C.ReadOf(n)));
        LeftLast(env, line, s, pieces);
      }
    }
  }

  lemma NoActions(log: seq<Action>)
    ensures log + Actions([]) == log
  {
  }

  lemma CountActions(sendings: seq<Sending>)
    ensures |Actions(sendings)| == |sendings|
  {
  }

  lemma ActionsConcat(log: seq<Action>, a: seq<Sending>, b: seq<Sending>)
    ensures log + Actions(a) + Actions(b) == log + Actions(a + b)
  {
    assert Actions(a + b) == Actions(a) + Actions(b);
  }

  lemma GoFirst(env: Env, session: Session, n: nat, a: seq<Sending>, b: seq<Sending>)
    requires AllGo(env, session, n, a + b)
    ensures AllGo(env, session, n, a) && AllGo(env, session, n + |a|, b)
  {
    hide Goes;
    var all := a + b;
    forall i | 0 <= i < |a|
      ensures Goes(env, session, n + i, a[i])
    {
      assert all[i] == a[i];
    }
    forall i | 0 <= i < |b|
      ensures Goes(env, session, n + |a| + i, b[i])
    {
      assert all[|a| + i] == b[i] && Goes(env, session, n + (|a| + i), all[|a| + i]);
    }
  }

  lemma Unfold(env: Env, pieces: seq<Piece>, r: C.Reading)
    requires pieces != []
    ensures Completed(env, pieces, r) == SentBy(r, pieces[0]) + Completed(env, pieces[1..], After(env, r, pieces[0]))
    ensures Left(env, pieces, r) == Left(env, pieces[1..], After(env, r, pieces[0]))
  {
    hide After, SentBy;
  }

  lemma OnlyPiece(env: Env, piece: Piece, r: C.Reading, comment: bool)
    ensures Completed(env, [piece], r) == SentBy(r, piece) && Left(env, [piece], r) == After(env, r, piece)
    ensures Last(piece) ==> CommentLeft([piece], comment) == comment
  {
    hide After, SentBy;
    assert [piece][1..] == [];
    assert Completed(env, [], After(env, r, piece)) == [] && SentBy(r, piece) + [] == SentBy(r, piece);
    assert Left(env, [], After(env, r, piece)) == After(env, r, piece);
    assert CommentLeft([], comment) == comment;
  }

  lemma LeftLast(env: Env, line: string, s: Scan, pieces: seq<Piece>)
    requires s.pos < |line| && pieces != [] && pieces[0] == NextPiece(env, line, s).piece && !Last(pieces[0])
    ensures QuoteLeft(pieces) == QuoteLeft(pieces[1..])
    ensures CommentLeft(pieces, s.carry.comment) == CommentLeft(pieces[1..], NextPiece(env, line, s).comment)
  {
    hide TailEnd, ReadLiteral, CString, C.HintBehind, C.LineCommentAt, PrefixAt;
  }

  // ---------------------------------------------------------------------------
  // Whole lines

  /** A line in pieces, and the reading they go on from. */
  datatype Entry = Entry(pieces: seq<Piece>, from: C.Reading)

  function Enter(env: Env, k: Carry, line: string): Entry {
    var d, escapes := k.session.delimiter, !k.session.noBackslashEscapes;
    if k.quote != NUL then
      match ReadLiteral(line, 0, k.quote, escapes)
      case Closed(e) => Entry(Pieces(env, line, e, d, escapes, NoHint, false), C.Reading(k.buffer + line[..e], false))
      case Open(e) => Entry([OpenText(k.quote, line[..e])], C.Reading(k.buffer, false))
    else Entry(Pieces(env, line, 0, d, escapes, NoHint, k.comment), C.Reading(k.buffer, false))
  }

  ghost predicate Scanned(env: Env, k: Carry, r: Scan, entry: Entry) {
    && r.stop != Quit && r.carry.session == k.session
    && r.carry.log == k.log + Actions(Completed(env, entry.pieces, entry.from))
    && r.carry.buffer + r.text == Left(env, entry.pieces, entry.from).text
    && r.carry.quote == QuoteLeft(entry.pieces) && r.carry.comment == CommentLeft(entry.pieces, k.comment)
  }

  lemma EntryScanned(env: Env, k: Carry, line: string)
    requires GoodCarry(k) && env.preserveComments
    requires var entry := Enter(env, k, line);
             && Command !in entry.pieces
             && AllGo(env, k.session, |k.log|, Completed(env, entry.pieces, entry.from))
    ensures Scanned(env, k, ScanLine(env, line, Start(k)), Enter(env, k, line))
  {
    hide ScanLine, ReadLiteral, Pieces, AllGo, Actions, Completed, Left, QuoteLeft, CommentLeft;
    var s := Start(k);
    assert k.buffer + [] == k.buffer;
    if k.quote == NUL {
      LineReads(env, line, s);
    } else {
      LiteralCopied(env, line, s);
      var n, e := Copied(line, s), ReadLiteral(line, 0, k.quote, !k.session.noBackslashEscapes).end;
      assert n.text == line[..e];
      if ReadLiteral(line, 0, k.quote, !k.session.noBackslashEscapes).Closed? {
        LineReads(env, line, n);
      } else {
        ScanUnfold(env, line, n);
        LiteralGoesOn(env, k, line[..e]);
      }
    }
  }

  lemma LiteralGoesOn(env: Env, k: Carry, text: string)
    requires k.quote != NUL
    ensures var piece, from := OpenText(k.quote, text), C.Reading(k.buffer, false);
            && Left(env, [piece], from).text == k.buffer + text
            && k.log + Actions(Completed(env, [piece], from)) == k.log
            && QuoteLeft([piece]) == k.quote && CommentLeft([piece], k.comment) == k.comment
  {
    hide Actions, Space;
    var piece, from := OpenText(k.quote, text), C.Reading(k.buffer, false);
    OnlyPiece(env, piece, from, k.comment);
    NoActions(k.log);
    assert k.buffer + "" + text == k.buffer + text;
    assert text == [] ==> k.buffer + text == k.buffer;
  }

  /** Main result on `add_line`: the same from any carried state; a newline ends what is
      kept, inside a comment too. */
  lemma PreservedLine(env: Env, k: Carry, line: string)
    requires GoodCarry(k) && env.preserveComments && (k.buffer == [] ==> At(line, 0) != NUL)
    requires var entry := Enter(env, k, line);
             && Command !in entry.pieces
             && AllGo(env, k.session, |k.log|, Completed(env, entry.pieces, entry.from))
    ensures var (k', quit) := AddLine(env, k, line, false);
            var Entry(pieces, from) := Enter(env, k, line);
            var text := Left(env, pieces, from).text;
            && !quit && k'.session == k.session
            && k'.log == k.log + Actions(Completed(env, pieces, from))
            && k'.quote == QuoteLeft(pieces) && k'.comment == CommentLeft(pieces, k.comment)
            && (k'.buffer == text || k'.buffer == text + "\n")
            && (text == [] ==> k'.buffer == text)
            && (text != [] && (C.NoDelimiterCommand(env, text) || k'.comment) ==> k'.buffer == text + "\n")
  {
    hide ScanLine, Enter, AllGo, Actions, Completed, Left, QuoteLeft, CommentLeft;
    EntryScanned(env, k, line);
    var r := ScanLine(env, line, Start(k));
    var text := r.carry.buffer + r.text;
    assert text[|r.carry.buffer|..] == r.text;
    assert text + [] == text;
  }

  // ---------------------------------------------------------------------------
  // Nothing is lost

  /** The characters of a piece on the line, without the delimiter. */
  function Body(piece: Piece): string {
    match piece
    case Kept(t) => t
    case Null => "\\N"
    case OpenMark => "/*"
    case CloseMark => "*/"
    case End(tail) => tail
    case OpenText(_, t) => t
    case Rest(t) => t
    case _ => []
  }

  function Raw(pieces: seq<Piece>, d: string): string {
    if pieces == [] then []
    else (if pieces[0].End? then d else []) + Body(pieces[0]) + Raw(pieces[1..], d)
  }

  /** The pieces are the line, character by character, up to the last one; without a last
      one, the whole line. */
  lemma {:induction false} PiecesAreLine(env: Env, line: string, p: nat, d: string, escapes: bool, hint: Hint, comment: bool)
    requires p <= |line| && d != []
    ensures var pieces := Pieces(env, line, p, d, escapes, hint, comment);
            && PrefixAt(line, p, Raw(pieces, d))
            && ((forall piece <- pieces :: !Last(piece)) ==> p + |Raw(pieces, d)| == |line|)
    decreases |line| - p
  {
    hide PieceAt, PrefixAt, Body, Last, Raw;
    var pieces := Pieces(env, line, p, d, escapes, hint, comment);
    if p == |line| {
      NoPrefix(line, p);
      NothingRaw(d);
    } else {
      var r := PieceAt(env, line, p, d, escapes, hint, comment);
      PieceIsSlice(env, line, p, d, escapes, hint, comment);
      assert r.piece == pieces[0] && pieces[0] in pieces;
      var raw := (if r.piece.End? then d else []) + Body(r.piece);
      if Last(r.piece) {
        RawHead(r.piece, [], d);
        NothingRaw(d);
        assert raw + [] == raw && [r.piece] + [] == pieces;
      } else {
        var rest := Pieces(env, line, r.next, d, escapes, r.hint, r.comment);
        PiecesAreLine(env, line, r.next, d, escapes, r.hint, r.comment);
        PrefixOn(line, p, raw, Raw(rest, d));
        RawHead(r.piece, rest, d);
        assert forall piece <- rest :: piece in [r.piece] + rest;
      }
    }
  }

  lemma NothingRaw(d: string)
    ensures Raw([], d) == []
  {
  }

  lemma RawHead(piece: Piece, rest: seq<Piece>, d: string)
    ensures Raw([piece] + rest, d) == (if piece.End? then d else []) + Body(piece) + Raw(rest, d)
  {
    hide Body;
    assert ([piece] + rest)[1..] == rest;
  }

  lemma NoPrefix(line: string, p: nat)
    requires p <= |line|
    ensures PrefixAt(line, p, [])
  {
  }

  lemma PrefixOn(line: string, p: nat, a: string, b: string)
    requires PrefixAt(line, p, a) && PrefixAt(line, p + |a|, b)
    ensures PrefixAt(line, p, a + b)
  {
    assert line[p..p + |a| + |b|] == line[p..p + |a|] + line[p + |a|..p + |a| + |b|];
  }

  lemma SliceIsPrefix(line: string, p: nat, e: nat)
    requires p <= e <= |line|
    ensures PrefixAt(line, p, line[p..e])
  {
  }

  lemma PieceIsSlice(env: Env, line: string, p: nat, d: string, escapes: bool, hint: Hint, comment: bool)
    requires p < |line| && d != []
    ensures var r := PieceAt(env, line, p, d, escapes, hint, comment);
            var raw := (if r.piece.End? then d else []) + Body(r.piece);
            && PrefixAt(line, p, raw)
            && (!Last(r.piece) ==> p + |raw| == r.next)
  {
    hide PieceAt, CStringEnd, PrefixAt, Body;
    PieceForm(env, line, p, d, escapes, hint, comment);
    var r := PieceAt(env, line, p, d, escapes, hint, comment);
    assert [] + Body(r.piece) == Body(r.piece);
    if r.piece.End? {
      DelimiterHere(line, p, d);
      SliceIsPrefix(line, p + |d|, r.next);
      BodyOfSlice(line, p + |d|, r.next);
      PrefixOn(line, p, d, Body(r.piece));
    } else if r.piece.Null? || r.piece.OpenMark? || r.piece.CloseMark? {
      MarkIsSlice(line, p, r.piece);
    } else if r.piece.Rest? {
      SliceIsPrefix(line, p, CStringEnd(line, p));
      BodyOfSlice(line, p, CStringEnd(line, p));
    } else if r.piece.Kept? || r.piece.OpenText? {
      SliceIsPrefix(line, p, r.next);
      BodyOfText(r.piece);
    } else {
      NoBody(r.piece);
      NoPrefix(line, p);
    }
  }

  /** Which characters of the line a piece is. */
  lemma PieceForm(env: Env, line: string, p: nat, d: string, escapes: bool, hint: Hint, comment: bool)
    requires p < |line| && d != []
    ensures var r := PieceAt(env, line, p, d, escapes, hint, comment);
            match r.piece
            case Kept(t) => p < r.next <= |line| && t == line[p..r.next]
            case OpenText(_, t) => p < r.next <= |line| && t == line[p..r.next]
            case Null => line[p] == '\\' && At(line, p + 1) == 'N' && r.next == p + 2
            case OpenMark => line[p] == '/' && At(line, p + 1) == '*' && r.next == p + 2
            case CloseMark => line[p] == '*' && At(line, p + 1) == '/' && r.next == p + 2
            case End(tail) => PrefixAt(line, p, d) && p + |d| <= r.next <= |line| && tail == line[p + |d|..r.next]
            case Rest(t) => t == CString(line, p)
            case _ => true
  {
    hide ReadLiteral, TailEnd, CString, C.LineCommentAt, C.HintBehind;
    assert line[p..p + 1] == [line[p]];
  }

  lemma BodyOfSlice(line: string, p: nat, e: nat)
    requires p <= e <= |line|
    ensures Body(End(line[p..e])) == line[p..e] && Body(Rest(line[p..e])) == line[p..e]
  {
  }

  lemma BodyOfText(piece: Piece)
    requires piece.Kept? || piece.OpenText?
    ensures Body(piece) == piece.text
  {
  }

  lemma NoBody(piece: Piece)
    requires piece.Cut? || piece.Command?
    ensures Body(piece) == []
  {
  }

  lemma MarkIsSlice(line: string, p: nat, piece: Piece)
    requires p < |line|
    requires piece == Null || piece == OpenMark || piece == CloseMark
    requires piece == Null ==> line[p] == '\\' && At(line, p + 1) == 'N'
    requires piece == OpenMark ==> line[p] == '/' && At(line, p + 1) == '*'
    requires piece == CloseMark ==> line[p] == '*' && At(line, p + 1) == '/'
    ensures PrefixAt(line, p, Body(piece)) && |Body(piece)| == 2
  {
    Pair(line, p);
  }

  function Texts(sendings: seq<Sending>): string {
    if sendings == [] then [] else sendings[0].text + Texts(sendings[1..])
  }

  function Bodies(pieces: seq<Piece>): string {
    if pieces == [] then [] else Body(pieces[0]) + Bodies(pieces[1..])
  }

  lemma {:induction false} TextsConcat(a: seq<Sending>, b: seq<Sending>)
    ensures Texts(a + b) == Texts(a) + Texts(b)
  {
    if a == [] {
      assert a + b == b;
    } else {
      assert (a + b)[0] == a[0] && (a + b)[1..] == a[1..] + b;
      TextsConcat(a[1..], b);
    }
  }

  /** One piece: what it sends and leaves is what there was and itself, but for spaces. */
  lemma PieceKept(env: Env, r: C.Reading, piece: Piece)
    ensures C.Letters(Texts(SentBy(r, piece)) + After(env, r, piece).text) == C.Letters(r.text + Body(piece))
  {
    hide C.Letters, Space;
    var sent := SentBy(r, piece);
    assert sent != [] ==> sent[1..] == [] && Texts(sent[1..]) == [];
    assert [] + After(env, r, piece).text == After(env, r, piece).text;
    match piece {
      case Kept(t) => KeepLetters(env, r, t);
      case OpenText(_, t) => KeepLetters(env, r, t);
      case End(tail) => assert r.text + tail + [] + [] == r.text + tail;
      case Rest(t) => assert r.text == [] ==> t + [] + [] == r.text + t;
      case _ => assert r.text + [] == r.text;
    }
  }

  lemma KeepLetters(env: Env, r: C.Reading, t: string)
    ensures C.Letters(Keep(env, r, t).text) == C.Letters(r.text + t)
  {
    hide C.Letters, Space;
    C.OwedLetters(r.text, t);
    C.LettersConcat(r.text, t);
    assert r.text + [] == r.text;
  }

  /** Conservation: what is sent and what is left are, in order and but for spaces, what
      was there before and the whole of the pieces. */
  lemma {:induction false} NothingLost(env: Env, pieces: seq<Piece>, r: C.Reading)
    ensures C.Letters(Texts(Completed(env, pieces, r)) + Left(env, pieces, r).text) ==
            C.Letters(r.text + Bodies(pieces))
    decreases pieces
  {
    hide C.Letters, After, SentBy, Body;
    if pieces == [] {
      assert [] + r.text == r.text + [];
    } else {
      var piece, rest := pieces[0], pieces[1..];
      var r1 := After(env, r, piece);
      Unfold(env, pieces, r);
      NothingLost(env, rest, r1);
      PieceKept(env, r, piece);
      var sent, more, left := SentBy(r, piece), Completed(env, rest, r1), Left(env, rest, r1).text;
      TextsConcat(sent, more);
      LettersRegroup(Texts(sent), Texts(more), left, r1.text, Bodies(rest), r.text, Body(piece));
    }
  }

  lemma LettersRegroup(sent: string, more: string, left: string, now: string, rest: string, before: string, body: string)
    requires C.Letters(more + left) == C.Letters(now + rest)
    requires C.Letters(sent + now) == C.Letters(before + body)
    ensures C.Letters(sent + more + left) == C.Letters(before + (body + rest))
  {
    hide C.Letters;
    Assoc(sent, more, left);
    Assoc(before, body, rest);
    C.LettersConcat(sent, more + left);
    C.LettersConcat(now, rest);
    C.LettersConcat(sent, now);
    C.LettersConcat(before + body, rest);
    Assoc(C.Letters(sent), C.Letters(now), C.Letters(rest));
  }

  lemma Assoc(a: string, b: string, c: string)
    ensures a + b + c == a + (b + c)
  {
  }

  /** A block comment stays in its statement: `a/*b*/;` sends `a/*b*/`. */
  lemma CommentStays(env: Env, a: char, b: char)
    requires !Space(env, b)
    ensures Completed(env, [Kept([a]), OpenMark, Kept([b]), CloseMark, End([])], C.Reading([], false)) ==
            [Sending([a] + "/*" + [b] + "*/", true)]
  {
    hide Space;
    Unfold(env, [Kept([a]), OpenMark, Kept([b]), CloseMark, End([])], C.Reading([], false));
    assert [] + "" + [a] == [a];
    Unfold(env, [OpenMark, Kept([b]), CloseMark, End([])], C.Reading([a], false));
    Unfold(env, [Kept([b]), CloseMark, End([])], C.Reading([a] + "/*", false));
    assert [a] + "/*" + "" + [b] == [a] + "/*" + [b];
    Unfold(env, [CloseMark, End([])], C.Reading([a] + "/*" + [b], false));
    var text := [a] + "/*" + [b] + "*/";
    Unfold(env, [End([])], C.Reading(text, true));
    assert text + [] == text;
  }

  /** A line comment behind a delimiter goes with the statement before it; with nothing
      before it, it is sent alone; behind the beginning of a statement it is kept. */
  lemma LineComments(env: Env, text: string, comment: string)
    ensures Completed(env, [End(comment)], C.Reading(text, false)) == [Sending(text + comment, true)]
    ensures Completed(env, [Rest(comment)], C.Reading([], false)) == [Sending(comment, false)]
    ensures text != [] ==>
              && Completed(env, [Rest(comment)], C.Reading(text, false)) == []
              && Left(env, [Rest(comment)], C.Reading(text, false)).text == text + comment
  {
    OnlyPiece(env, End(comment), C.Reading(text, false), false);
    OnlyPiece(env, Rest(comment), C.Reading([], false), false);
    OnlyPiece(env, Rest(comment), C.Reading(text, false), false);
  }
}
