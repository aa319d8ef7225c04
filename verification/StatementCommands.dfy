/** Where the statement splitter goes on behind a short command, such as `\u db;`, and
    what the searches of the scanner find. */
module StatementCommands {
  import opened Optional
  import opened StatementScanner
  import opened StatementLiterals

  /** The parameters of a command end just behind the next delimiter, or at a NUL, or with
      the line, whichever comes first. */
  lemma {:induction false} ParamsEndFound(line: string, i: nat, d: string)
    requires i <= |line| && d != []
    ensures var e := ParamsEnd(line, i, d);
            || (i + |d| <= e && PrefixAt(line, e - |d|, d) &&
                forall j :: i <= j < e - |d| ==> line[j] != NUL && !PrefixAt(line, j, d))
            || ((e == |line| || line[e] == NUL) && forall j :: i <= j < e ==> line[j] != NUL && !PrefixAt(line, j, d))
    decreases |line| - i
  {
    hide PrefixAt;
    if i < |line| && line[i] != NUL && !PrefixAt(line, i, d) {
      ParamsEndFound(line, i + 1, d);
    }
  }

  /** In a conditional comment or a hint they end at its end. */
  lemma {:induction false} CommentEndFound(line: string, i: nat)
    requires i <= |line|
    ensures var e := CommentEnd(line, i);
            && (e == |line| || line[e] == NUL || (line[e] == '*' && At(line, e + 1) == '/'))
            && forall j :: i <= j < e ==> line[j] != NUL && !(line[j] == '*' && At(line, j + 1) == '/')
    decreases |line| - i
  {
    if i < |line| && line[i] != NUL && !(line[i] == '*' && At(line, i + 1) == '/') {
      CommentEndFound(line, i + 1);
    }
  }

  /** A C string ends at its first NUL, or with the line. */
  lemma {:induction false} CStringEndFound(line: string, i: nat)
    requires i <= |line|
    ensures var e := CStringEnd(line, i); (e == |line| || line[e] == NUL) && NUL !in line[i..e]
    decreases |line| - i
  {
    if i < |line| && line[i] != NUL {
      CStringEndFound(line, i + 1);
      var e := CStringEnd(line, i);
      assert line[i..e] == [line[i]] + line[i + 1..e];
    }
  }

  /** Spaces end at the first character that is none. */
  lemma {:induction false} SpacesEndFound(env: Env, line: string, i: nat)
    requires i <= |line|
    ensures var e := SpacesEnd(env, line, i);
            (e == |line| || !Space(env, line[e])) && forall j :: i <= j < e ==> Space(env, line[j])
    decreases |line| - i
  {
    hide Space;
    SpacesUnfold(env, line, i);
    if i < |line| && Space(env, line[i]) {
      SpacesEndFound(env, line, i + 1);
    }
  }

  /** Outside strings, comments and hints, at a backslash and the letter of a command that
      takes parameters or not. */
  ghost predicate AtCommand(env: Env, line: string, s: Scan, takesParams: bool) {
    && s.pos + 1 < |line| && s.stop == Running && s.carry.quote == NUL && !s.carry.comment && s.hint == NoHint
    && line[s.pos] == '\\' && line[s.pos + 1] != NUL && line[s.pos + 1] != 'N' && !Space(env, '\\')
    && env.shortCommand(line[s.pos + 1]) == Some(takesParams)
  }

  function Ran(env: Env, line: string, s: Scan): Outcome
    requires s.pos + 1 < |line|
  {
    env.runShort(|s.carry.log|, line[s.pos + 1], s.carry.buffer + s.text, CString(line, s.pos), s.carry.session)
  }

  function CarryAfter(env: Env, line: string, s: Scan): Carry
    requires s.pos + 1 < |line|
  {
    var o := Ran(env, line, s);
    Carry(o.buffer, NUL, false, o.session, s.carry.log + [Short(line[s.pos + 1], CString(line, s.pos))])
  }

  /** The first delimiter from `i` on is at `e`, with no NUL before it. */
  ghost predicate FirstAt(line: string, i: nat, e: nat, d: string) {
    i <= e && PrefixAt(line, e, d) && forall j :: i <= j < e ==> j < |line| && line[j] != NUL && !PrefixAt(line, j, d)
  }

  /** The command gets what was accepted so far and the rest of the line as a C string.
      Unless it ends the session, the scan goes on behind its letter, or behind the
      delimiter that ends its parameters: the first one, by the delimiter that the
      command leaves set. */
  lemma ShortCommandGoesOn(env: Env, line: string, s: Scan, takesParams: bool, e: nat)
    requires AtCommand(env, line, s, takesParams) && !Ran(env, line, s).quit
    requires if takesParams then FirstAt(line, s.pos + 2, e, Ran(env, line, s).session.delimiter) else e == s.pos + 2
    ensures var d := Ran(env, line, s).session.delimiter;
            ScanLine(env, line, s) ==
            ScanLine(env, line, Scan(if takesParams then e + |d| else e, [], s.needSpace, NoHint, Running,
                                     CarryAfter(env, line, s)))
  {
    hide ScanLine, Next, CString, FirstAt, ParamsEnd;
    var d := Ran(env, line, s).session.delimiter;
    ScanUnfold(env, line, s);
    CommandTurn(env, line, s, takesParams);
    if takesParams {
      ParamsEndAt(line, s.pos + 2, e, d);
    }
  }

  /** A command that ends the session ends the scan. */
  lemma ShortCommandQuits(env: Env, line: string, s: Scan, takesParams: bool)
    requires AtCommand(env, line, s, takesParams) && Ran(env, line, s).quit
    ensures ScanLine(env, line, s) == Scan(s.pos, [], s.needSpace, NoHint, Quit, CarryAfter(env, line, s))
  {
    hide ScanLine, Next, CString, PrefixAt, ParamsEnd;
    ScanUnfold(env, line, s);
    CommandTurn(env, line, s, takesParams);
  }

  lemma CommandTurn(env: Env, line: string, s: Scan, takesParams: bool)
    requires AtCommand(env, line, s, takesParams)
    ensures var o := Ran(env, line, s);
            Next(env, line, s) ==
            if o.quit then Scan(s.pos, [], s.needSpace, NoHint, Quit, CarryAfter(env, line, s))
            else Scan(if takesParams then ParamsEnd(line, s.pos + 2, o.session.delimiter) else s.pos + 2, [],
                      s.needSpace, NoHint, Running, CarryAfter(env, line, s))
  {
    hide CString, PrefixAt, ParamsEnd, OnDelimiter, OnLineComment, OnMark, OnOrdinary, StartsLineComment;
  }

  lemma {:induction false} ParamsEndAt(line: string, i: nat, e: nat, d: string)
    requires d != [] && NUL !in d && FirstAt(line, i, e, d)
    ensures e <= |line| && ParamsEnd(line, i, d) == e + |d|
    decreases e - i
  {
    if i == e {
      assert line[e..e + |d|][0] == d[0] && d[0] in d;
    } else {
      hide PrefixAt;
      ParamsEndAt(line, i + 1, e, d);
    }
  }

  /** A backslash and a letter that is no command: it is reported, and unless that ends the
      session both characters are kept. */
  lemma UnknownCommand(env: Env, line: string, s: Scan)
    requires s.pos + 1 < |line| && s.stop == Running && s.carry.quote == NUL && !s.carry.comment && !Space(env, '\\')
    requires line[s.pos] == '\\' && line[s.pos + 1] != NUL && line[s.pos + 1] != 'N'
    requires env.shortCommand(line[s.pos + 1]).None? && !env.unknownQuits(|s.carry.log|)
    ensures var c := line[s.pos + 1];
            ScanLine(env, line, s) ==
            ScanLine(env, line, s.(pos := s.pos + 2, text := s.text + ['\\', c],
                                   carry := s.carry.(log := s.carry.log + [Unknown(c)])))
  {
    hide ScanLine, CString, PrefixAt, ParamsEnd, OnDelimiter, OnLineComment, OnMark, OnOrdinary, StartsLineComment;
    ScanUnfold(env, line, s);
  }

  /** In a conditional comment or a hint the parameters of a command end where it ends, at a
      NUL, or with the line; its end is still to be read. */
  lemma CommandInHint(env: Env, line: string, s: Scan, e: nat)
    requires s.pos + 1 < |line| && s.stop == Running && s.carry.quote == NUL && !s.carry.comment && s.hint != NoHint
    requires line[s.pos] == '\\' && line[s.pos + 1] != NUL && line[s.pos + 1] != 'N' && !Space(env, '\\')
    requires env.shortCommand(line[s.pos + 1]) == Some(true) && !Ran(env, line, s).quit
    requires EndAt(line, s.pos + 2, e)
    ensures ScanLine(env, line, s) ==
            ScanLine(env, line, Scan(e, [], s.needSpace, s.hint, Running, CarryAfter(env, line, s)))
  {
    hide ScanLine, Next, CString, PrefixAt, CommentEnd, EndAt;
    ScanUnfold(env, line, s);
    HintCommandTurn(env, line, s);
    CommentEndAt(line, s.pos + 2, e);
  }

  /** The first end of a comment, or NUL, from `i` on is at `e`. */
  ghost predicate EndAt(line: string, i: nat, e: nat) {
    && i <= e <= |line| && (e == |line| || line[e] == NUL || (line[e] == '*' && At(line, e + 1) == '/'))
    && forall j :: i <= j < e ==> line[j] != NUL && !(line[j] == '*' && At(line, j + 1) == '/')
  }

  lemma {:induction false} CommentEndAt(line: string, i: nat, e: nat)
    requires EndAt(line, i, e)
    ensures CommentEnd(line, i) == e
    decreases e - i
  {
    if i < e {
      CommentEndAt(line, i + 1, e);
    }
  }

  lemma HintCommandTurn(env: Env, line: string, s: Scan)
    requires s.pos + 1 < |line| && s.stop == Running && s.carry.quote == NUL && !s.carry.comment && s.hint != NoHint
    requires line[s.pos] == '\\' && line[s.pos + 1] != NUL && line[s.pos + 1] != 'N' && !Space(env, '\\')
    requires env.shortCommand(line[s.pos + 1]) == Some(true) && !Ran(env, line, s).quit
    ensures Next(env, line, s) ==
            Scan(CommentEnd(line, s.pos + 2), [], s.needSpace, s.hint, Running, CarryAfter(env, line, s))
  {
    hide CString, PrefixAt, CommentEnd, OnDelimiter, OnLineComment, OnMark, OnOrdinary, StartsLineComment;
  }

  /** At a delimiter outside strings, comments and hints, comments not preserved. */
  ghost predicate AtDelimiter(env: Env, line: string, s: Scan) {
    && s.pos < |line| && s.stop == Running && s.carry.quote == NUL && !s.carry.comment && s.hint == NoHint
    && !env.preserveComments && PrefixAt(line, s.pos, s.carry.session.delimiter)
    && !(Space(env, line[s.pos]) && s.carry.buffer + s.text == [])
  }

  /** What is pending is run as a client command if it is one, and is sent otherwise. Unless
      that ends the session, the scan goes on behind the delimiter with nothing pending, in
      the session that it leaves. */
  lemma DelimiterGoesOn(env: Env, line: string, s: Scan)
    requires AtDelimiter(env, line, s)
    ensures var whole, n := s.carry.buffer + s.text, |s.carry.log|;
            var command := env.isNamed(n, whole, s.carry.session);
            var o := if command then env.runNamed(n, whole, s.carry.session) else env.runStatement(n, whole, s.carry.session);
            var log := s.carry.log + [if command then Named(whole) else Sent(whole)];
            var next := s.pos + |s.carry.session.delimiter|;
            ScanLine(env, line, s) ==
            if o.quit then Scan(next, [], s.needSpace, NoHint, Quit, Carry(o.buffer, NUL, false, o.session, log))
            else ScanLine(env, line, Scan(next, [], s.needSpace, NoHint, Running, Carry([], NUL, false, o.session, log)))
  {
    hide ScanLine, SpacesEnd, CStringEnd, OnBackslash, OnLineComment, OnMark, OnOrdinary, StartsLineComment;
    ScanUnfold(env, line, s);
    var p := s.pos + |s.carry.session.delimiter|;
    assert line[s.pos] == line[s.pos..p][0];
    assert s.carry.buffer + s.text + line[p..p] + line[p..p] == s.carry.buffer + s.text;
  }

  /** A line comment with nothing before it, comments preserved: it is sent at once, never
      taken for a client command, and with it the line ends, or the session. */
  lemma LoneComment(env: Env, line: string, s: Scan)
    requires s.pos < |line| && s.stop == Running && s.carry.quote == NUL && !s.carry.comment && s.hint == NoHint
    requires env.preserveComments && s.carry.buffer + s.text == [] && StartsLineComment(env, line, s.pos)
    requires !PrefixAt(line, s.pos, s.carry.session.delimiter)
    ensures var comment := CString(line, s.pos);
            var o := env.runStatement(|s.carry.log|, comment, s.carry.session);
            ScanLine(env, line, s) ==
            Scan(s.pos, [], s.needSpace, NoHint, if o.quit then Quit else Broke,
                 Carry(if o.quit then o.buffer else [], NUL, false, o.session, s.carry.log + [Sent(comment)]))
  {
    hide ScanLine, CString, PrefixAt, OnBackslash, OnDelimiter, OnMark, OnOrdinary;
    ScanUnfold(env, line, s);
    assert s.carry.buffer == [] && s.text == [];
    assert [] + CString(line, s.pos) == CString(line, s.pos);
  }

  /** A line that is empty, or begins with a NUL, changes nothing where a statement begins. */
  lemma EmptyLine(env: Env, k: Carry, line: string, truncated: bool)
    requires k.buffer == [] && (line == [] || line[0] == NUL)
    ensures AddLine(env, k, line, truncated) == (k, false)
  {
  }

  /** A whole line is a client command if and only if its text is one, outside strings and
      comments, with nothing pending or with named commands enabled everywhere. It is then
      run with what is pending, and otherwise it goes to `add_line`. */
  lemma CommandLine(env: Env, k: Carry, line: string, truncated: bool)
    ensures var whole := CString(line, 0);
            var command := env.isNamed(|k.log|, whole, k.session) && k.quote == NUL && !k.comment &&
              (k.buffer == [] || env.namedCommands);
            && (command ==>
                  && FeedLine(env, k, line, truncated).0.log == k.log + [Line(whole)]
                  && FeedLine(env, k, line, truncated).0.buffer == env.runLine(|k.log|, whole, k.buffer, k.session).buffer
                  && FeedLine(env, k, line, truncated).1 == env.runLine(|k.log|, whole, k.buffer, k.session).quit)
            && (!command ==> FeedLine(env, k, line, truncated) == AddLine(env, k, line, truncated))
  {
  }

  /** What a line leaves pending: what it accepted, unless it ends in a comment that is not
      preserved. A newline follows if and only if something is pending, the line was not cut
      by the reader, and it is no DELIMITER command outside strings and comments. */
  lemma LineLeaves(env: Env, k: Carry, line: string, truncated: bool)
    requires At(line, 0) != NUL || k.buffer != []
    requires ScanLine(env, line, Start(k)).stop != Quit
    ensures var s := ScanLine(env, line, Start(k));
            var (a, q) := AddLine(env, k, line, truncated);
            var pending := s.carry.buffer + s.text;
            var dropped := s.carry.comment && !env.preserveComments;
            var newline := pending != [] && !truncated &&
              (s.carry.quote == NUL && !s.carry.comment ==> !env.isDelimiterCommand(s.text));
            && !q
            && (dropped ==> a == s.carry)
            && (!dropped && !newline ==> a == s.carry.(buffer := pending))
            && (!dropped && newline ==> a == s.carry.(buffer := pending + "\n"))
  {
    hide ScanLine;
    var s := ScanLine(env, line, Start(k));
    assert s.carry.buffer + s.text + "" == s.carry.buffer + s.text;
  }
}
