/** Strings and comments never mix, and quoted literals reach the statement
    unchanged, even across lines. */
module StatementLiterals {
  import opened StatementScanner

  /** A string is open only outside comments, with its opening quote already
      accepted and no space owed. */
  ghost predicate Good(s: Scan) {
    var k := s.carry;
    k.quote != NUL ==>
      IsQuote(k.quote) && !k.comment && !s.needSpace && |k.buffer| + |s.text| > 0
  }

  ghost predicate GoodCarry(k: Carry) {
    k.quote != NUL ==> IsQuote(k.quote) && !k.comment && k.buffer != []
  }

  /** A character that is taken as it is opens a literal if and only if it is a quote, a
      double quote or a back quote; inside one only the quote that opened it closes it. */
  lemma QuotesOpen(env: Env, line: string, s: Scan)
    requires s.pos < |line| && s.stop == Running && Choose(env, line, s) == Ordinary
    requires !s.carry.comment && s.hint != OptimizerHint
    ensures var c, quote := line[s.pos], Next(env, line, s).carry.quote;
            && (s.carry.quote == NUL ==> quote == if c == '\'' || c == '"' || c == '`' then c else NUL)
            && (s.carry.quote != NUL ==> quote == if c == s.carry.quote then NUL else s.carry.quote)
  {
    hide Choose, Space;
  }

  lemma NextGood(env: Env, line: string, s: Scan)
    requires s.pos < |line| && s.stop == Running && Good(s)
    ensures Next(env, line, s).stop != Quit ==> Good(Next(env, line, s))
  {
    hide CString, CStringEnd, SpacesEnd, CommentEnd, ParamsEnd;
  }

  lemma {:induction false} ScanGood(env: Env, line: string, s: Scan)
    requires Good(s)
    ensures ScanLine(env, line, s).stop != Quit ==> Good(ScanLine(env, line, s))
    decreases |line| - s.pos
  {
    if s.stop == Running && s.pos < |line| {
      NextAdvances(env, line, s);
      NextGood(env, line, s);
      hide Next;
      var s1 := Next(env, line, s);
      if s1.stop == Running {
        ScanGood(env, line, s1);
      }
    }
  }

  /** After every line that does not end the session: never both in a string and
      in a comment, and an open string has begun in the buffer. */
  lemma LineGood(env: Env, k: Carry, line: string, truncated: bool)
    requires GoodCarry(k)
    ensures var (k', quit) := AddLine(env, k, line, truncated); !quit ==> GoodCarry(k')
  {
    ScanGood(env, line, Start(k));
  }

  /** Main result over a session: at no point is the splitter both in a string and
      in a comment. */
  lemma {:induction false} SessionGood(env: Env, k: Carry, lines: seq<string>)
    requires GoodCarry(k)
    ensures var (k', quit) := FeedLines(env, k, lines); !quit ==> GoodCarry(k')
    decreases lines
  {
    if lines != [] {
      LineGood(env, k, lines[0], false);
      hide AddLine;
      var (k1, quit) := FeedLine(env, k, lines[0], false);
      if !quit {
        SessionGood(env, k1, lines[1..]);
      }
    }
  }

  /** How a literal continues: closed just before `end`, or still open there. It is
      open at the end of the line, or cut off before it. */
  datatype Literal = Closed(end: nat) | Open(end: nat)

  /** Reads a literal from `p`, its quote already seen. In a back-quoted name a
      backslash does not escape the quote. A backslash before a NUL, or with nothing
      behind it, cuts the line off. */
  function ReadLiteral(line: string, p: nat, quote: char, escapes: bool): (r: Literal)
    requires p <= |line|
    ensures p <= r.end <= |line| && (r.Closed? ==> p < r.end)
    decreases |line| - p
  {
    if p == |line| then Open(p)
    else if escapes && line[p] == '\\' then
      if At(line, p + 1) == NUL then Open(p)
      else if quote == '`' && line[p + 1] == '`' then ReadLiteral(line, p + 1, quote, escapes)
      else ReadLiteral(line, p + 2, quote, escapes)
    else if line[p] == quote then Closed(p + 1)
    else ReadLiteral(line, p + 1, quote, escapes)
  }

  /** The line is cut off inside the literal. */
  predicate IsCut(line: string, r: Literal) {
    r.Open? && r.end < |line|
  }

  /** One character, or an escape, inside a string. */
  lemma InsideStep(env: Env, line: string, s: Scan)
    requires s.pos < |line| && s.stop == Running && Good(s) && s.carry.quote != NUL
    ensures var n := Next(env, line, s);
            var c := line[s.pos];
            var q := s.carry.quote;
            n == if c == '\\' && !s.carry.session.noBackslashEscapes then
                   if At(line, s.pos + 1) == NUL then s.(stop := Broke)
                   else if q == '`' && line[s.pos + 1] == '`' then s.(pos := s.pos + 1, text := s.text + [c])
                   else s.(pos := s.pos + 2, text := s.text + [c, line[s.pos + 1]])
                 else s.(pos := s.pos + 1, text := s.text + [c],
                         carry := s.carry.(quote := if c == q then NUL else q))
  {
    hide CString, CStringEnd, SpacesEnd, CommentEnd, ParamsEnd, PrefixAt, OnShortCommand, OnDelimiter,
      OnLineComment, OnMark, StartsLineComment;
    assert s.text + "" + [line[s.pos]] == s.text + [line[s.pos]];
  }

  /** The scan with the literal copied: up to its closing quote, to the end of the line,
      or to where it is cut off. */
  function Copied(line: string, s: Scan): Scan
    requires s.pos <= |line|
  {
    var r := ReadLiteral(line, s.pos, s.carry.quote, !s.carry.session.noBackslashEscapes);
    CopiedTo(line, s, r, s.text + line[s.pos..r.end])
  }

  function CopiedTo(line: string, s: Scan, r: Literal, text: string): Scan {
    Scan(r.end, text, s.needSpace, s.hint, if IsCut(line, r) then Broke else s.stop,
         if r.Closed? then s.carry.(quote := NUL) else s.carry)
  }

  lemma CopiedStep(line: string, s: Scan, n: Scan)
    requires s.pos < n.pos <= |line| && n == s.(pos := n.pos, text := s.text + line[s.pos..n.pos])
    requires var e := !s.carry.session.noBackslashEscapes;
             ReadLiteral(line, s.pos, s.carry.quote, e) == ReadLiteral(line, n.pos, s.carry.quote, e)
    ensures Copied(line, s) == Copied(line, n)
  {
    hide ReadLiteral;
    var r := ReadLiteral(line, n.pos, s.carry.quote, !s.carry.session.noBackslashEscapes);
    TextStep(line, s.text, s.pos, n.pos, r.end);
  }

  lemma TextStep(line: string, text: string, a: nat, b: nat, c: nat)
    requires a <= b <= c <= |line|
    ensures text + line[a..c] == text + line[a..b] + line[b..c]
  {
    assert line[a..c] == line[a..b] + line[b..c];
  }

  /** Main result on one line, whatever bytes it holds: from inside a string the scan
      copies the literal byte for byte, to its end or to where it is cut off, and sends,
      runs and flushes nothing. */
  lemma {:induction false} LiteralCopied(env: Env, line: string, s: Scan)
    requires s.pos <= |line| && s.stop == Running && Good(s) && s.carry.quote != NUL
    ensures ScanLine(env, line, s) == ScanLine(env, line, Copied(line, s))
    decreases |line| - s.pos
  {
    hide Next, Copied, ScanLine;
    ScanUnfold(env, line, s);
    if s.pos == |line| {
      CopiedAtEnd(line, s);
    } else {
      InsideStep(env, line, s);
      var n := Next(env, line, s);
      var c := line[s.pos];
      if n.stop == Broke {
        CopiedCut(line, s);
        ScanUnfold(env, line, Copied(line, s));
      } else if c == s.carry.quote && !(c == '\\' && !s.carry.session.noBackslashEscapes) {
        CopiedClosing(line, s);
      } else {
        assert n.text == s.text + line[s.pos..n.pos];
        CopiedStep(line, s, n);
        LiteralCopied(env, line, n);
      }
    }
  }

  lemma CopiedAtEnd(line: string, s: Scan)
    requires s.pos == |line|
    ensures Copied(line, s) == s
  {
    assert s.text + line[s.pos..] == s.text;
  }

  lemma CopiedCut(line: string, s: Scan)
    requires s.pos < |line| && line[s.pos] == '\\' && At(line, s.pos + 1) == NUL
    requires !s.carry.session.noBackslashEscapes
    ensures Copied(line, s) == s.(stop := Broke)
  {
    assert s.text + line[s.pos..s.pos] == s.text;
  }

  lemma CopiedClosing(line: string, s: Scan)
    requires s.pos < |line| && line[s.pos] == s.carry.quote
    requires !(line[s.pos] == '\\' && !s.carry.session.noBackslashEscapes)
    ensures Copied(line, s) == s.(pos := s.pos + 1, text := s.text + [line[s.pos]], carry := s.carry.(quote := NUL))
  {
    assert line[s.pos..s.pos + 1] == [line[s.pos]];
  }

  /** What is kept of a line that stays inside a literal, with its newline. */
  function LiteralLine(line: string, quote: char, escapes: bool): string {
    line[..ReadLiteral(line, 0, quote, escapes).end] + "\n"
  }

  /** A line that stays inside a literal is appended with its newline, up to where it is
      cut off; whole if and only if it is not. */
  lemma LineInsideLiteral(env: Env, k: Carry, line: string)
    requires GoodCarry(k) && k.quote != NUL
    requires ReadLiteral(line, 0, k.quote, !k.session.noBackslashEscapes).Open?
    ensures AddLine(env, k, line, false) ==
            (k.(buffer := k.buffer + LiteralLine(line, k.quote, !k.session.noBackslashEscapes)), false)
    ensures LiteralLine(line, k.quote, !k.session.noBackslashEscapes) == line + "\n" <==>
            !IsCut(line, ReadLiteral(line, 0, k.quote, !k.session.noBackslashEscapes))
  {
    hide ScanLine, Copied, ReadLiteral, LiteralLine;
    WholeIffNotCut(line, k.quote, !k.session.noBackslashEscapes);
    LiteralCopied(env, line, Start(k));
    CopiedLine(line, k);
    var s := Copied(line, Start(k));
    ScanUnfold(env, line, s);
    assert k.buffer + s.text + "\n" == k.buffer + (s.text + "\n");
  }

  lemma CopiedLine(line: string, k: Carry)
    requires ReadLiteral(line, 0, k.quote, !k.session.noBackslashEscapes).Open?
    ensures var s := Copied(line, Start(k));
            && s.text + "\n" == LiteralLine(line, k.quote, !k.session.noBackslashEscapes)
            && (s.stop == Broke || (s.stop == Running && s.pos == |line|)) && s.carry == k
  {
    hide ReadLiteral;
    var e := ReadLiteral(line, 0, k.quote, !k.session.noBackslashEscapes).end;
    assert [] + line[0..e] == line[..e];
  }

  lemma WholeIffNotCut(line: string, quote: char, escapes: bool)
    requires ReadLiteral(line, 0, quote, escapes).Open?
    ensures LiteralLine(line, quote, escapes) == line + "\n" <==> !IsCut(line, ReadLiteral(line, 0, quote, escapes))
  {
    hide ReadLiteral;
    var r := ReadLiteral(line, 0, quote, escapes);
    assert line[..|line|] == line;
    assert |LiteralLine(line, quote, escapes)| == r.end + 1;
  }

  /** A backslash before a NUL: the rest of the line is lost, its closing quote with it,
      and the string stays open. */
  lemma CutAtNul(env: Env, k: Carry)
    requires GoodCarry(k) && k.quote == '\'' && !k.session.noBackslashEscapes
    ensures AddLine(env, k, ['a', '\\', NUL, 'b', '\''], false) == (k.(buffer := k.buffer + "a\n"), false)
  {
    hide AddLine;
    var line := ['a', '\\', NUL, 'b', '\''];
    assert ReadLiteral(line, 1, '\'', true) == Open(1);
    assert ReadLiteral(line, 0, '\'', true) == Open(1);
    LineInsideLiteral(env, k, line);
    assert line[..1] == "a";
    assert LiteralLine(line, '\'', true) == "a\n";
  }

  function LiteralText(lines: seq<string>, quote: char, escapes: bool): string {
    if lines == [] then [] else LiteralLine(lines[0], quote, escapes) + LiteralText(lines[1..], quote, escapes)
  }

  /** Main result across lines: as long as the literal is open, lines accumulate in
      the buffer and nothing else happens. */
  lemma {:induction false} LiteralSpansLines(env: Env, k: Carry, lines: seq<string>)
    requires GoodCarry(k) && k.quote != NUL
    requires forall l <- lines :: ReadLiteral(l, 0, k.quote, !k.session.noBackslashEscapes).Open?
    ensures FeedLines(env, k, lines) ==
            (k.(buffer := k.buffer + LiteralText(lines, k.quote, !k.session.noBackslashEscapes)), false)
    decreases lines
  {
    hide AddLine, ReadLiteral, LiteralLine;
    var escapes := !k.session.noBackslashEscapes;
    if lines == [] {
      assert k.buffer + LiteralText(lines, k.quote, escapes) == k.buffer;
    } else {
      assert lines[0] in lines && forall l <- lines[1..] :: l in lines;
      LineInsideLiteral(env, k, lines[0]);
      var k1 := FeedLine(env, k, lines[0], false).0;
      LiteralSpansLines(env, k1, lines[1..]);
      assert k1.buffer + LiteralText(lines[1..], k.quote, escapes) == k.buffer + LiteralText(lines, k.quote, escapes);
    }
  }
}
