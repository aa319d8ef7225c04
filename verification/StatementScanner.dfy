/** The statement splitter of the interactive client (`add_line` in `mysql.cc`)
    over an immutable line, collecting accepted characters in a separate string.
    Characters are single bytes. The loop goes by the length of the line: a NUL in it is
    a character like others, and one is read behind its end. */
module StatementScanner {
  import opened Optional

  const NUL := '\0'

  /** What statements and commands can change: the delimiter, and whether the
      server runs with NO_BACKSLASH_ESCAPES. */
  datatype RawSession = RawSession(delimiter: string, noBackslashEscapes: bool)

  type Session = s: RawSession | s.delimiter != [] && '\\' !in s.delimiter && NUL !in s.delimiter
    witness RawSession(";", false)

  datatype Outcome = Outcome(quit: bool, buffer: string, session: Session)

  /** What leaves the splitter. */
  datatype Action =
    | Sent(statement: string)
    | Named(text: string)
    | Line(text: string)
    | Short(letter: char, text: string)
    | Unknown(letter: char)

  /** Everything the splitter calls. The number passed to each effect is the count
      of actions so far, so equal calls may answer differently. */
  datatype Env = Env(
    preserveComments: bool,
    namedCommands: bool,
    isSpace: char -> bool,
    shortCommand: char -> Option<bool>,
    runShort: (nat, char, string, string, Session) -> Outcome,
    isNamed: (nat, string, Session) -> bool,
    runNamed: (nat, string, Session) -> Outcome,
    runLine: (nat, string, string, Session) -> Outcome,
    runStatement: (nat, string, Session) -> Outcome,
    unknownQuits: nat -> bool,
    isDelimiterCommand: string -> bool)

  /** `ss_comment`: inside a conditional comment or an optimizer hint. */
  datatype Hint = NoHint | Conditional | OptimizerHint

  datatype Stop = Running | Broke | Quit

  /** `text` is what was accepted since the last flush to `buffer`; `quote` is NUL
      or the quote character of the open string. */
  datatype Scan = Scan(
    pos: nat, text: string, needSpace: bool, hint: Hint, stop: Stop, carry: Carry)

  /** What is carried from line to line. */
  datatype Carry = Carry(buffer: string, quote: char, comment: bool, session: Session, log: seq<Action>)

  /** The character at `i`, with the NUL that ends the line. */
  function At(line: string, i: nat): char {
    if i < |line| then line[i] else NUL
  }

  predicate Space(env: Env, c: char) {
    c != NUL && env.isSpace(c)
  }

  /** `is_prefix(line + i, word)` */
  predicate PrefixAt(line: string, i: nat, word: string) {
    i + |word| <= |line| && line[i..i + |word|] == word
  }

  /** The C string that starts at `i`. */
  function CStringEnd(line: string, i: nat): (e: nat)
    requires i <= |line|
    ensures i <= e <= |line|
    decreases |line| - i
  {
    if At(line, i) == NUL then i else CStringEnd(line, i + 1)
  }

  function CString(line: string, i: nat): string
    requires i <= |line|
  {
    line[i..CStringEnd(line, i)]
  }

  function SpacesEnd(env: Env, line: string, i: nat): (e: nat)
    requires i <= |line|
    ensures i <= e <= |line|
    decreases |line| - i
  {
    if Space(env, At(line, i)) then SpacesEnd(env, line, i + 1) else i
  }

  lemma SpacesUnfold(env: Env, line: string, i: nat)
    requires i <= |line|
    ensures SpacesEnd(env, line, i) ==
            if i < |line| && Space(env, line[i]) then SpacesEnd(env, line, i + 1) else i
  {
  }

  /** Where a command's parameters end inside a server-side comment. */
  function CommentEnd(line: string, i: nat): (e: nat)
    requires i <= |line|
    ensures i <= e <= |line|
    decreases |line| - i
  {
    if At(line, i) == NUL || (At(line, i) == '*' && At(line, i + 1) == '/') then i else CommentEnd(line, i + 1)
  }

  /** Where they end outside one: just past the next delimiter. */
  function ParamsEnd(line: string, i: nat, delimiter: string): (e: nat)
    requires i <= |line|
    ensures i <= e <= |line|
    decreases |line| - i
  {
    if At(line, i) == NUL then i
    else if PrefixAt(line, i, delimiter) then i + |delimiter|
    else ParamsEnd(line, i + 1, delimiter)
  }

  predicate IsQuote(c: char) {
    c == '\'' || c == '"' || c == '`'
  }

  /** Which branch of the loop takes the character. */
  datatype Branch = Skip | Backslash | Delimiter | LineComment | OpenComment | CloseComment | Ordinary

  function Choose(env: Env, line: string, s: Scan): Branch
    requires s.pos < |line|
  {
    var c := line[s.pos];
    var k := s.carry;
    var inString := k.quote != NUL;
    if !env.preserveComments && Space(env, c) && s.text == [] && k.buffer == [] then Skip
    else if !k.comment && c == '\\' && !(inString && k.session.noBackslashEscapes) then Backslash
    else if !k.comment && !inString && s.hint != OptimizerHint && PrefixAt(line, s.pos, k.session.delimiter) then Delimiter
    else if !k.comment && !inString && StartsLineComment(env, line, s.pos) then LineComment
    else if !inString && c == '/' && At(line, s.pos + 1) == '*' && At(line, s.pos + 2) != '!' &&
            At(line, s.pos + 2) != '+' && s.hint != OptimizerHint then OpenComment
    else if k.comment && s.hint == NoHint && c == '*' && At(line, s.pos + 1) == '/' then CloseComment
    else Ordinary
  }

  predicate StartsLineComment(env: Env, line: string, i: nat)
    requires i < |line|
  {
    || line[i] == '#'
    || (line[i] == '-' && At(line, i + 1) == '-' && (Space(env, At(line, i + 2)) || At(line, i + 2) == NUL))
  }

  function Flushed(s: Scan): Carry {
    s.carry.(buffer := s.carry.buffer + s.text)
  }

  function OnShortCommand(env: Env, line: string, s: Scan, letter: char, takesParams: bool): Scan
    requires s.pos + 1 < |line|
  {
    var k := Flushed(s);
    var o := env.runShort(|k.log|, letter, k.buffer, CString(line, s.pos), k.session);
    var k1 := Carry(o.buffer, k.quote, k.comment, o.session, k.log + [Short(letter, CString(line, s.pos))]);
    if o.quit then Scan(s.pos, [], s.needSpace, s.hint, Quit, k1)
    else
      var next :=
        if !takesParams then s.pos + 2
        else if s.hint != NoHint then CommentEnd(line, s.pos + 2)
        else ParamsEnd(line, s.pos + 2, o.session.delimiter);
      Scan(next, [], s.needSpace, s.hint, Running, k1)
  }

  function OnBackslash(env: Env, line: string, s: Scan): Scan
    requires s.pos < |line|
  {
    var d := At(line, s.pos + 1);
    var k := s.carry;
    if d == NUL then s.(stop := Broke)
    else if k.quote != NUL || d == 'N' then
      if d == '`' && k.quote == d then s.(pos := s.pos + 1, text := s.text + "\\")
      else s.(pos := s.pos + 2, text := s.text + ['\\', d])
    else
      match env.shortCommand(d)
      case Some(takesParams) => OnShortCommand(env, line, s, d, takesParams)
      case None =>
        var k1 := k.(log := k.log + [Unknown(d)]);
        if env.unknownQuits(|k.log|) then s.(stop := Quit, carry := k1)
        else s.(pos := s.pos + 2, text := s.text + ['\\', d], carry := k1)
  }

  /** Sends the buffer, or runs the named command it holds, and clears it. */
  function Submit(env: Env, k: Carry, mayBeNamed: bool): (Carry, bool) {
    var n := |k.log|;
    var named := mayBeNamed && env.isNamed(n, k.buffer, k.session);
    var o := if named then env.runNamed(n, k.buffer, k.session) else env.runStatement(n, k.buffer, k.session);
    var action := if named then Named(k.buffer) else Sent(k.buffer);
    (Carry(if o.quit then o.buffer else [], k.quote, k.comment, o.session, k.log + [action]), o.quit)
  }

  function OnDelimiter(env: Env, line: string, s: Scan): Scan
    requires PrefixAt(line, s.pos, s.carry.session.delimiter)
  {
    var p1 := s.pos + |s.carry.session.delimiter|;
    var p2 := if env.preserveComments then SpacesEnd(env, line, p1) else p1;
    var k := s.carry.(buffer := s.carry.buffer + s.text + line[p1..p2]);
    var trailing :=
      && env.preserveComments
      && (At(line, p2) == '#' || (At(line, p2) == '-' && At(line, p2 + 1) == '-' && Space(env, At(line, p2 + 2))));
    var p3 := if trailing then CStringEnd(line, p2) else p2;
    var (k1, quit) := Submit(env, k.(buffer := k.buffer + line[p2..p3]), true);
    Scan(p3, [], s.needSpace, s.hint, if quit then Quit else Running, k1)
  }

  function OnLineComment(env: Env, line: string, s: Scan): Scan
    requires s.pos < |line|
  {
    var k := Flushed(s);
    if !env.preserveComments then Scan(s.pos, [], s.needSpace, s.hint, Broke, k)
    else
      var k1 := k.(buffer := k.buffer + CString(line, s.pos));
      if k.buffer != [] then Scan(s.pos, [], s.needSpace, s.hint, Broke, k1)
      else
        var (k2, quit) := Submit(env, k1, false);
        Scan(s.pos, [], s.needSpace, s.hint, if quit then Quit else Broke, k2)
  }

  /** The two characters of a comment mark. */
  function OnMark(env: Env, line: string, s: Scan, opens: bool): Scan
    requires s.pos + 1 < |line|
  {
    var kept := if env.preserveComments then line[s.pos..s.pos + 2] else [];
    Scan(s.pos + 2, [], if opens then s.needSpace else true, s.hint, Running,
         s.carry.(buffer := s.carry.buffer + s.text + kept, comment := opens))
  }

  function HintAfter(line: string, i: nat, quote: char, hint: Hint): Hint
    requires i < |line|
  {
    if quote == NUL && line[i] == '/' && At(line, i + 1) == '*' then
      if At(line, i + 2) == '!' then Conditional else if At(line, i + 2) == '+' then OptimizerHint else hint
    else if quote == NUL && hint != NoHint && line[i] == '*' && At(line, i + 1) == '/' then NoHint
    else hint
  }

  function QuoteAfter(c: char, k: Carry, hint: Hint): char {
    if c == k.quote then NUL
    else if !k.comment && k.quote == NUL && hint != OptimizerHint && IsQuote(c) then c
    else k.quote
  }

  function OnOrdinary(env: Env, line: string, s: Scan): Scan
    requires s.pos < |line|
  {
    var c := line[s.pos];
    var hint := HintAfter(line, s.pos, s.carry.quote, s.hint);
    var k := s.carry.(quote := QuoteAfter(c, s.carry, hint));
    if s.carry.comment && !env.preserveComments then Scan(s.pos + 1, s.text, s.needSpace, hint, Running, k)
    else
      var gap := if s.needSpace && !Space(env, c) then " " else "";
      Scan(s.pos + 1, s.text + gap + [c], false, hint, Running, k)
  }

  /** One turn of the loop. */
  function Next(env: Env, line: string, s: Scan): Scan
    requires s.pos < |line| && s.stop == Running
  {
    match Choose(env, line, s)
    case Skip => s.(pos := s.pos + 1)
    case Backslash => OnBackslash(env, line, s)
    case Delimiter => OnDelimiter(env, line, s)
    case LineComment => OnLineComment(env, line, s)
    case OpenComment => OnMark(env, line, s, true)
    case CloseComment => OnMark(env, line, s, false)
    case Ordinary => OnOrdinary(env, line, s)
  }

  lemma NextAdvances(env: Env, line: string, s: Scan)
    requires s.pos < |line| && s.stop == Running
    ensures Next(env, line, s).stop == Running ==> s.pos < Next(env, line, s).pos <= |line|
  {
    hide Space, StartsLineComment, Submit, HintAfter, QuoteAfter, CString, CStringEnd, SpacesEnd;
  }

  /** The loop. */
  function ScanLine(env: Env, line: string, s: Scan): Scan
    decreases |line| - s.pos
  {
    if s.stop != Running || s.pos >= |line| then s
    else
      NextAdvances(env, line, s);
      var s1 := Next(env, line, s);
      if s1.stop != Running then s1 else ScanLine(env, line, s1)
  }

  lemma ScanUnfold(env: Env, line: string, s: Scan)
    ensures s.stop != Running || s.pos >= |line| ==> ScanLine(env, line, s) == s
    ensures s.stop == Running && s.pos < |line| ==>
              && (Next(env, line, s).stop == Running ==> s.pos < Next(env, line, s).pos <= |line|)
              && ScanLine(env, line, s) ==
                   if Next(env, line, s).stop == Running then ScanLine(env, line, Next(env, line, s))
                   else Next(env, line, s)
  {
    hide Next;
    if s.stop == Running && s.pos < |line| {
      NextAdvances(env, line, s);
    }
  }

  function Start(k: Carry): Scan {
    Scan(0, [], false, NoHint, Running, k)
  }

  /** What follows the loop. */
  function EndLine(env: Env, s: Scan, truncated: bool): Carry {
    var k := s.carry;
    if s.text == [] && k.buffer == [] then k
    else
      var newline := if !truncated && (!env.isDelimiterCommand(s.text) || k.quote != NUL || k.comment) then "\n" else "";
      if !k.comment || env.preserveComments then k.(buffer := k.buffer + s.text + newline) else k
  }

  /** `add_line`: the carried state, and whether to leave. */
  function AddLine(env: Env, k: Carry, line: string, truncated: bool): (Carry, bool) {
    if At(line, 0) == NUL && k.buffer == [] then (k, false)
    else
      var s := ScanLine(env, line, Start(k));
      if s.stop == Quit then (s.carry, true) else (EndLine(env, s, truncated), false)
  }

  /** One line in `read_and_execute`: outside strings and comments it may be a
      client command as a whole, otherwise it goes to `add_line`. */
  function FeedLine(env: Env, k: Carry, line: string, truncated: bool): (Carry, bool) {
    if (env.namedCommands || k.buffer == []) && !k.comment && k.quote == NUL &&
       env.isNamed(|k.log|, CString(line, 0), k.session)
    then
      var o := env.runLine(|k.log|, CString(line, 0), k.buffer, k.session);
      (Carry(o.buffer, k.quote, k.comment, o.session, k.log + [Line(CString(line, 0))]), o.quit)
    else AddLine(env, k, line, truncated)
  }

  /** Lines fed one after the other, until one ends the session. */
  function FeedLines(env: Env, k: Carry, lines: seq<string>): (Carry, bool)
    decreases lines
  {
    if lines == [] then (k, false)
    else
      var (k1, quit) := FeedLine(env, k, lines[0], false);
      if quit then (k1, true) else FeedLines(env, k1, lines[1..])
  }
}
