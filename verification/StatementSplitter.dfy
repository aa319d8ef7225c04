/** `add_line` as it is: one buffer, read at `pos` and rewritten at `out`. Every
    turn is proved to leave unread input alone and to agree with the scanner that
    writes to a separate string. */
module StatementSplitter {
  import opened Optional
  import opened StatementScanner
  import opened StatementLiterals

  lemma PrefixMatches(line: string, i: nat, word: string, j: nat)
    requires j < |word|
    ensures PrefixAt(line, i, word) ==> At(line, i + j) == word[j]
  {
    if PrefixAt(line, i, word) {
      assert line[i..i + |word|][j] == line[i + j];
    }
  }

  class Splitter {
    const env: Env
    var carry: Carry     // glob_buffer, in_string, ml_comment, and what commands change
    var pos: nat         // where the next turn reads
    var out: nat         // where the next accepted character goes
    var needSpace: bool
    var hint: Hint

    constructor (env: Env, session: Session)
      ensures this.env == env && carry == Carry([], NUL, false, session, [])
    {
      this.env := env;
      carry := Carry([], NUL, false, session, []);
      pos, out, needSpace, hint := 0, 0, false, NoHint;
    }

    /** `out`, plus one when a space is owed, has not passed `pos`; what is still
        to be read is untouched, up to the NUL. */
    ghost predicate Safe(line: array<char>, orig: string)
      reads this, line
    {
      && line.Length == |orig| + 1
      && pos <= |orig|
      && out + (if needSpace then 1 else 0) <= pos
      && (forall i :: pos <= i <= |orig| ==> line[i] == At(orig, i))
    }

    ghost function View(line: array<char>, stop: Stop): Scan
      reads this, line
      requires out <= line.Length
    {
      Scan(pos, line[..out], needSpace, hint, stop, carry)
    }

    method Write(line: array<char>, c: char)
      requires out < line.Length
      modifies line, this`out
      ensures out == old(out) + 1 && line[..out] == old(line[..out]) + [c]
      ensures forall i :: out <= i < line.Length ==> line[i] == old(line[i])
    {
      line[out] := c;
      out := out + 1;
    }

    method Flush(line: array<char>)
      requires out <= line.Length
      modifies this`carry, this`out
      ensures carry == old(carry).(buffer := old(carry.buffer) + line[..old(out)]) && out == 0
    {
      if out != 0 {
        carry := carry.(buffer := carry.buffer + line[..out]);
        out := 0;
      }
      assert line[..0] == [];
    }

    /** `strlen`, from `i`. */
    method FindNul(line: array<char>, i: nat, ghost orig: string) returns (e: nat)
      requires line.Length == |orig| + 1 && i <= |orig|
      requires forall j :: i <= j <= |orig| ==> line[j] == At(orig, j)
      ensures e == CStringEnd(orig, i)
    {
      e := i;
      while line[e] != NUL
        invariant i <= e <= |orig| && CStringEnd(orig, i) == CStringEnd(orig, e)
        decreases |orig| - e
      {
        e := e + 1;
      }
    }

    /** `is_prefix` */
    method IsPrefix(line: array<char>, i: nat, word: string, ghost orig: string) returns (r: bool)
      requires line.Length == |orig| + 1 && i <= |orig| && NUL !in word
      requires forall j :: i <= j <= |orig| ==> line[j] == At(orig, j)
      ensures r == PrefixAt(orig, i, word)
    {
      var j := 0;
      while j < |word|
        invariant j <= |word| && i + j <= |orig| && orig[i..i + j] == word[..j]
      {
        assert word[j] in word;
        if line[i + j] != word[j] {
          PrefixMatches(orig, i, word, j);
          return false;
        }
        assert orig[i..i + j + 1] == orig[i..i + j] + [orig[i + j]];
        j := j + 1;
      }
      assert word[..j] == word;
      r := true;
    }

    /** Skipping a command's parameters. */
    method SkipParams(line: array<char>, i: nat, ghost orig: string) returns (e: nat)
      requires line.Length == |orig| + 1 && i <= |orig|
      requires forall j :: i <= j <= |orig| ==> line[j] == At(orig, j)
      ensures e == if hint != NoHint then CommentEnd(orig, i) else ParamsEnd(orig, i, carry.session.delimiter)
    {
      e := i;
      if hint != NoHint {
        while line[e] != NUL && (line[e] != '*' || line[e + 1] != '/')
          invariant i <= e <= |orig| && CommentEnd(orig, i) == CommentEnd(orig, e)
          decreases |orig| - e
        {
          e := e + 1;
        }
      } else {
        var delimiter := carry.session.delimiter;
        while line[e] != NUL
          invariant i <= e <= |orig| && ParamsEnd(orig, i, delimiter) == ParamsEnd(orig, e, delimiter)
          decreases |orig| - e
        {
          var found := IsPrefix(line, e, delimiter, orig);
          if found {
            return e + |delimiter|;
          }
          e := e + 1;
        }
      }
    }

    method ShortCommand(line: array<char>, letter: char, takesParams: bool, ghost orig: string) returns (stop: Stop)
      requires Safe(line, orig) && pos + 1 < |orig|
      modifies this`carry, this`pos, this`out
      ensures Safe(line, orig)
      ensures View(line, stop) == OnShortCommand(env, orig, old(View(line, Running)), letter, takesParams)
    {
      hide CStringEnd, CommentEnd, ParamsEnd;
      ghost var s := View(line, Running);
      Flush(line);
      var end := FindNul(line, pos, orig);
      var text := line[pos..end];
      assert text == CString(orig, pos);
      var n := |carry.log|;
      var o := env.runShort(n, letter, carry.buffer, text, carry.session);
      carry := Carry(o.buffer, carry.quote, carry.comment, o.session, carry.log + [Short(letter, text)]);
      assert line[..0] == [];
      if o.quit {
        return Quit;
      }
      if takesParams {
        var e := SkipParams(line, pos + 2, orig);
        pos := e;
      } else {
        pos := pos + 2;
      }
      stop := Running;
    }

    method WriteEscape(line: array<char>, d: char)
      requires out + 1 < line.Length
      modifies line, this`out
      ensures out == old(out) + 2 && line[..out] == old(line[..out]) + ['\\', d]
      ensures forall i :: out <= i < line.Length ==> line[i] == old(line[i])
    {
      Write(line, '\\');
      Write(line, d);
    }

    method BackslashTurn(line: array<char>, ghost orig: string) returns (stop: Stop)
      requires Safe(line, orig) && pos < |orig| && line[pos] == '\\'
      modifies this`carry, this`pos, this`out, line
      ensures stop == Running ==> Safe(line, orig)
      ensures out <= pos < line.Length && needSpace == old(needSpace)
      ensures View(line, stop) == OnBackslash(env, orig, old(View(line, Running)))
    {
      hide OnShortCommand;
      stop := Running;
      ghost var s := View(line, Running);
      var d := line[pos + 1];
      assert d == At(orig, pos + 1);
      if d == NUL {
        return Broke;
      }
      if carry.quote != NUL || d == 'N' {
        if d == '`' && carry.quote == d {
          Write(line, '\\');
          pos := pos + 1;
        } else {
          WriteEscape(line, d);
          pos := pos + 2;
        }
        return;
      }
      match env.shortCommand(d) {
        case Some(takesParams) =>
          stop := ShortCommand(line, d, takesParams, orig);
        case None =>
          var quits := env.unknownQuits(|carry.log|);
          carry := carry.(log := carry.log + [Unknown(d)]);
          if quits {
            return Quit;
          }
          WriteEscape(line, d);
          pos := pos + 2;
      }
    }

    /** Sends the buffer or runs the command named in it. */
    method SubmitBuffer(mayBeNamed: bool) returns (quit: bool)
      modifies this`carry
      ensures (carry, quit) == Submit(env, old(carry), mayBeNamed)
    {
      var n := |carry.log|;
      var text := carry.buffer;
      var named := mayBeNamed && env.isNamed(n, text, carry.session);
      var o := if named then env.runNamed(n, text, carry.session) else env.runStatement(n, text, carry.session);
      carry := Carry(o.buffer, carry.quote, carry.comment, o.session,
                     carry.log + [if named then Named(text) else Sent(text)]);
      quit := o.quit;
      if !quit {
        carry := carry.(buffer := []);
      }
    }

    /** `while (my_isspace(*pos)) *out++ = *pos++` */
    method CopySpaces(line: array<char>, ghost orig: string)
      requires line.Length == |orig| + 1 && out <= pos <= |orig|
      requires forall i :: pos <= i <= |orig| ==> line[i] == At(orig, i)
      modifies this`pos, this`out, line
      ensures out <= pos == SpacesEnd(env, orig, old(pos))
      ensures line[..out] == old(line[..out]) + orig[old(pos)..pos]
      ensures forall i :: pos <= i <= |orig| ==> line[i] == At(orig, i)
    {
      hide SpacesEnd;
      ghost var before, start := line[..out], pos;
      assert before + orig[start..start] == before;
      while Space(env, line[pos])
        invariant start <= pos <= |orig| && out <= pos
        invariant SpacesEnd(env, orig, start) == SpacesEnd(env, orig, pos)
        invariant line[..out] == before + orig[start..pos]
        invariant forall i :: pos <= i <= |orig| ==> line[i] == At(orig, i)
        decreases |orig| - pos
      {
        SpacesUnfold(env, orig, pos);
        assert before + orig[start..pos + 1] == before + orig[start..pos] + [orig[pos]];
        Write(line, line[pos]);
        pos := pos + 1;
      }
      SpacesUnfold(env, orig, pos);
    }

    /** The end of a statement: what was accepted goes to the buffer, with the
        spaces after the delimiter when comments are preserved. */
    method FlushStatement(line: array<char>, ghost orig: string)
      requires Safe(line, orig) && PrefixAt(orig, pos, carry.session.delimiter)
      modifies this`carry, this`pos, this`out, line
      ensures var p1 := old(pos) + |old(carry).session.delimiter|;
              && p1 <= |orig|
              && pos == (if env.preserveComments then SpacesEnd(env, orig, p1) else p1)
              && carry == old(carry).(buffer := old(carry.buffer) + old(line[..out]) + orig[p1..pos])
      ensures Safe(line, orig) && out == 0
    {
      hide SpacesEnd;
      ghost var text, buffer := line[..out], carry.buffer;
      pos := pos + |carry.session.delimiter|;
      ghost var p1 := pos;
      assert text + orig[p1..p1] == text;
      if env.preserveComments {
        CopySpaces(line, orig);
      }
      assert line[..out] == text + orig[p1..pos];
      assert buffer + (text + orig[p1..pos]) == buffer + text + orig[p1..pos];
      Flush(line);
    }

    /** A single-line comment after the delimiter belongs to the statement. */
    method TakeTrailingComment(line: array<char>, ghost orig: string)
      requires Safe(line, orig) && out == 0 && pos > 0
      modifies this`carry, this`pos
      ensures var p2 := old(pos);
              var trailing :=
                && env.preserveComments
                && (At(orig, p2) == '#' || (At(orig, p2) == '-' && At(orig, p2 + 1) == '-' && Space(env, At(orig, p2 + 2))));
              && pos == (if trailing then CStringEnd(orig, p2) else p2)
              && carry == old(carry).(buffer := old(carry.buffer) + orig[p2..pos])
      ensures Safe(line, orig)
    {
      hide CStringEnd;
      assert carry.buffer + orig[pos..pos] == carry.buffer;
      if env.preserveComments &&
         (line[pos] == '#' || (line[pos] == '-' && line[pos + 1] == '-' && Space(env, line[pos + 2])))
      {
        var end := FindNul(line, pos, orig);
        assert line[pos..end] == orig[pos..end];
        carry := carry.(buffer := carry.buffer + line[pos..end]);
        pos := end;
      }
    }

    method DelimiterTurn(line: array<char>, ghost orig: string) returns (stop: Stop)
      requires Safe(line, orig) && PrefixAt(orig, pos, carry.session.delimiter)
      modifies this`carry, this`pos, this`out, line
      ensures stop == Running ==> Safe(line, orig)
      ensures out == 0 && needSpace == old(needSpace) && pos < line.Length
      ensures View(line, stop) == OnDelimiter(env, orig, old(View(line, Running)))
    {
      hide SpacesEnd, CStringEnd, Submit;
      FlushStatement(line, orig);
      TakeTrailingComment(line, orig);
      var quit := SubmitBuffer(true);
      stop := if quit then Quit else Running;
      assert line[..0] == [];
    }

    method LineCommentTurn(line: array<char>, ghost orig: string) returns (stop: Stop)
      requires Safe(line, orig) && pos < |orig|
      modifies this`carry, this`out
      ensures Safe(line, orig) && stop != Running
      ensures View(line, stop) == OnLineComment(env, orig, old(View(line, Running)))
    {
      hide CStringEnd, Submit;
      Flush(line);
      assert line[..0] == [];
      stop := Broke;
      if env.preserveComments {
        var startedWithNothing := carry.buffer == [];
        var end := FindNul(line, pos, orig);
        assert line[pos..end] == CString(orig, pos);
        carry := carry.(buffer := carry.buffer + line[pos..end]);
        if startedWithNothing {
          var quit := SubmitBuffer(false);
          if quit {
            stop := Quit;
          }
        }
      }
    }

    method KeepMark(line: array<char>, ghost orig: string)
      requires Safe(line, orig) && pos + 1 < |orig|
      modifies this`out, line
      ensures out <= pos + 2
      ensures line[..out] == old(line[..out]) + if env.preserveComments then orig[pos..pos + 2] else []
      ensures forall i :: pos + 2 <= i <= |orig| ==> line[i] == At(orig, i)
    {
      if env.preserveComments {
        var c, d := line[pos], line[pos + 1];
        Write(line, c);
        Write(line, d);
      }
    }

    /** The opening and closing marks of a block comment. */
    method MarkTurn(line: array<char>, opens: bool, ghost orig: string)
      requires Safe(line, orig) && pos + 1 < |orig|
      modifies this`carry, this`pos, this`out, this`needSpace, line
      ensures Safe(line, orig)
      ensures View(line, Running) == OnMark(env, orig, old(View(line, Running)), opens)
    {
      ghost var text, buffer := line[..out], carry.buffer;
      ghost var kept := if env.preserveComments then orig[pos..pos + 2] else [];
      KeepMark(line, orig);
      pos := pos + 2;
      assert buffer + (text + kept) == buffer + text + kept;
      Flush(line);
      carry := carry.(comment := opens);
      if !opens {
        needSpace := true;
      }
      assert line[..0] == [];
    }

    method TrackHint(line: array<char>, ghost orig: string)
      requires Safe(line, orig) && pos < |orig|
      modifies this`hint
      ensures hint == HintAfter(orig, pos, carry.quote, old(hint))
    {
      var c := line[pos];
      if carry.quote == NUL && c == '/' && line[pos + 1] == '*' {
        if line[pos + 2] == '!' {
          hint := Conditional;
        } else if line[pos + 2] == '+' {
          hint := OptimizerHint;
        }
      } else if carry.quote == NUL && hint != NoHint && c == '*' && line[pos + 1] == '/' {
        hint := NoHint;
      }
    }

    method TrackQuote(c: char)
      modifies this`carry
      ensures carry == old(carry).(quote := QuoteAfter(c, old(carry), hint))
    {
      if c == carry.quote {
        carry := carry.(quote := NUL);
      } else if !carry.comment && carry.quote == NUL && hint != OptimizerHint && IsQuote(c) {
        carry := carry.(quote := c);
      }
    }

    /** Accepts a character, with the space owed before it. */
    method Accept(line: array<char>, c: char, ghost orig: string)
      requires Safe(line, orig) && pos < |orig|
      modifies this`out, this`needSpace, line
      ensures !needSpace && out <= pos + 1
      ensures line[..out] ==
              old(line[..out]) + (if old(needSpace) && !Space(env, c) then " " else "") + [c]
      ensures forall i :: pos + 1 <= i <= |orig| ==> line[i] == At(orig, i)
    {
      if needSpace && !Space(env, c) {
        Write(line, ' ');
      }
      needSpace := false;
      Write(line, c);
    }

    method OrdinaryTurn(line: array<char>, ghost orig: string)
      requires Safe(line, orig) && pos < |orig|
      modifies this`carry, this`pos, this`out, this`needSpace, this`hint, line
      ensures Safe(line, orig)
      ensures View(line, Running) == OnOrdinary(env, orig, old(View(line, Running)))
    {
      hide HintAfter, QuoteAfter;
      var c := line[pos];
      TrackHint(line, orig);
      TrackQuote(c);
      if !carry.comment || env.preserveComments {
        Accept(line, c, orig);
      }
      pos := pos + 1;
    }

    /** One turn of the loop. */
    method Turn(line: array<char>, ghost orig: string) returns (stop: Stop)
      requires Safe(line, orig) && pos < |orig|
      modifies this`carry, this`pos, this`out, this`needSpace, this`hint, line
      ensures stop == Running ==> Safe(line, orig)
      ensures out <= pos < line.Length
      ensures View(line, stop) == Next(env, orig, old(View(line, Running)))
    {
      hide OnBackslash, OnDelimiter, OnLineComment, OnMark, OnOrdinary;
      stop := Running;
      ghost var s := View(line, Running);
      var c := line[pos];
      var inString := carry.quote != NUL;
      var atDelimiter := IsPrefix(line, pos, carry.session.delimiter, orig);
      if !env.preserveComments && Space(env, c) && out == 0 && carry.buffer == [] {
        assert Choose(env, orig, s) == Skip;
        pos := pos + 1;
      } else if !carry.comment && c == '\\' && !(inString && carry.session.noBackslashEscapes) {
        assert Choose(env, orig, s) == Backslash;
        stop := BackslashTurn(line, orig);
      } else if !carry.comment && !inString && hint != OptimizerHint && atDelimiter {
        assert Choose(env, orig, s) == Delimiter;
        stop := DelimiterTurn(line, orig);
      } else if !carry.comment && !inString &&
                (c == '#' || (c == '-' && line[pos + 1] == '-' && (Space(env, line[pos + 2]) || line[pos + 2] == NUL)))
      {
        assert Choose(env, orig, s) == LineComment;
        stop := LineCommentTurn(line, orig);
      } else if !inString && c == '/' && line[pos + 1] == '*' && line[pos + 2] != '!' &&
                line[pos + 2] != '+' && hint != OptimizerHint
      {
        assert Choose(env, orig, s) == OpenComment;
        MarkTurn(line, true, orig);
      } else if carry.comment && hint == NoHint && c == '*' && line[pos + 1] == '/' {
        assert Choose(env, orig, s) == CloseComment;
        MarkTurn(line, false, orig);
      } else {
        assert Choose(env, orig, s) == Ordinary;
        OrdinaryTurn(line, orig);
      }
    }

    /** The loop. */
    method Loop(line: array<char>, ghost orig: string, ghost k: Carry) returns (stop: Stop)
      requires line.Length == |orig| + 1 && pos == out == 0 && !needSpace && hint == NoHint && carry == k
      requires Safe(line, orig)
      modifies this`carry, this`pos, this`out, this`needSpace, this`hint, line
      ensures out <= pos < line.Length
      ensures View(line, stop) == ScanLine(env, orig, Start(k))
    {
      hide Next;
      stop := Running;
      assert line[..0] == [];
      while pos < line.Length - 1 && stop == Running
        invariant out <= pos < line.Length
        invariant stop == Running ==> Safe(line, orig)
        invariant ScanLine(env, orig, Start(k)) == ScanLine(env, orig, View(line, stop))
        decreases if stop == Running then 1 else 0, |orig| - pos
      {
        NextAdvances(env, orig, View(line, Running));
        stop := Turn(line, orig);
      }
    }

    /** What follows the loop. */
    method FinishLine(line: array<char>, truncated: bool, ghost stop: Stop)
      requires out < line.Length
      modifies this`carry, this`out, line
      ensures carry == EndLine(env, old(View(line, stop)), truncated)
    {
      if out != 0 || carry.buffer != [] {
        ghost var k := carry;
        var text := line[..out];
        if !truncated && (!env.isDelimiterCommand(text) || carry.quote != NUL || carry.comment) {
          Write(line, '\n');
          assert k.buffer + line[..out] == k.buffer + text + "\n";
        } else {
          assert k.buffer + line[..out] == k.buffer + text + "";
        }
        if !carry.comment || env.preserveComments {
          carry := carry.(buffer := carry.buffer + line[..out]);
        }
      }
    }

    /** `add_line`: the statements sent, the commands run and the carried state are
        those of the scanner with a separate buffer, and strings and comments stay
        apart. */
    method AddLine(line: array<char>, truncated: bool) returns (quit: bool)
      requires line.Length > 0 && line[line.Length - 1] == NUL
      modifies this, line
      ensures (carry, quit) == StatementScanner.AddLine(env, old(carry), old(line[..line.Length - 1]), truncated)
      ensures !quit && old(GoodCarry(carry)) ==> GoodCarry(carry)
    {
      hide ScanLine, EndLine, GoodCarry;
      ghost var orig := line[..line.Length - 1];
      ghost var k := carry;
      if GoodCarry(k) {
        LineGood(env, k, orig, truncated);
      }
      if line[0] == NUL && carry.buffer == [] {
        return false;
      }
      pos, out, needSpace, hint := 0, 0, false, NoHint;
      var stop := Loop(line, orig, k);
      if stop == Quit {
        return true;
      }
      FinishLine(line, truncated, stop);
      quit := false;
    }

    /** One line in `read_and_execute`. */
    method ReadLine(line: array<char>, truncated: bool) returns (quit: bool)
      requires line.Length > 0 && line[line.Length - 1] == NUL
      modifies this, line
      ensures (carry, quit) == FeedLine(env, old(carry), old(line[..line.Length - 1]), truncated)
    {
      hide StatementScanner.AddLine, CStringEnd, GoodCarry;
      if (env.namedCommands || carry.buffer == []) && !carry.comment && carry.quote == NUL {
        ghost var orig := line[..line.Length - 1];
        var end := FindNul(line, 0, orig);
        var text := line[..end];
        assert text == CString(orig, 0);
        var n := |carry.log|;
        if env.isNamed(n, text, carry.session) {
          var o := env.runLine(n, text, carry.buffer, carry.session);
          carry := Carry(o.buffer, carry.quote, carry.comment, o.session, carry.log + [Line(text)]);
          quit := o.quit;
          if !quit && carry.buffer == [] {
            carry := carry.(quote := NUL);
          }
          return;
        }
      }
      quit := AddLine(line, truncated);
    }
  }
}
