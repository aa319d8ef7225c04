/** `field_escape`, as `mysqldump.cc` and `mysqlimport.cc` each have it: the text of a
    string option is made safe to stand between single quotes in a statement. */
module FieldEscape {

  import opened Optional

  /** Whether a backslash is still without the character it escapes; `odd` says that one
      stands directly before the text. */
  function OddEnd(s: string, odd: bool): bool {
    if s == [] then odd else OddEnd(s[1..], s[0] == '\\' && !odd)
  }

  /** What is written for a character. */
  function Char(c: char, odd: bool): string {
    if c == '\'' && !odd then "\'\'" else [c]
  }

  /** What is written for the characters of the text. */
  function Copied(s: string, odd: bool): string {
    if s == [] then [] else Char(s[0], odd) + Copied(s[1..], s[0] == '\\' && !odd)
  }

  /** A backslash left over at the end is completed to a pair. */
  function Escaped(s: string, odd: bool): string {
    Copied(s, odd) + if OddEnd(s, odd) then "\\" else ""
  }

  datatype Literal = Literal(value: string, rest: string)

  /** How the server reads a string literal, from behind its opening quote: a backslash
      takes the next character with it, two quotes stand for one and a quote alone
      closes. `of` gives the meaning of a backslash pair. */
  function ReadLiteral(of: char -> string, text: string): Option<Literal> {
    if text == [] then None
    else if text[0] == '\\' then
      if |text| == 1 then None else Prefixed(of(text[1]), ReadLiteral(of, text[2..]))
    else if text[0] == '\'' then
      if |text| > 1 && text[1] == '\'' then Prefixed("\'", ReadLiteral(of, text[2..]))
      else Some(Literal("", text[1..]))
    else Prefixed([text[0]], ReadLiteral(of, text[1..]))
  }

  function Prefixed(start: string, l: Option<Literal>): Option<Literal> {
    match l
    case None => None
    case Some(Literal(value, rest)) => Some(Literal(start + value, rest))
  }

  /** What the user means: backslash pairs are escapes, everything else stands for
      itself, a quote or a backslash at the end too. */
  function Meaning(of: char -> string, s: string): string {
    if s == [] then []
    else if s[0] == '\\' && |s| > 1 then of(s[1]) + Meaning(of, s[2..])
    else [s[0]] + Meaning(of, s[1..])
  }

  /** Between quotes, the escaped text is one literal: it ends at the closing quote and
      not before, and has the meaning of the option's text. */
  lemma {:induction false} EscapedReads(of: char -> string, s: string, rest: string)
    requires of('\\') == "\\"
    requires rest == [] || rest[0] != '\''
    ensures ReadLiteral(of, Escaped(s, false) + (['\''] + rest)) == Some(Literal(Meaning(of, s), rest))
  {
    hide Escaped, ReadLiteral, Prefixed;
    var end := ['\''] + rest;
    if s == [] {
      EscapedNone();
      ReadEnd(of, rest);
      assert [] + end == end;
    } else if s[0] != '\\' {
      EscapedReads(of, s[1..], rest);
      EscapedStep(s, false);
      var tail := Escaped(s[1..], false) + end;
      assert Escaped(s, false) + end == Char(s[0], false) + tail;
      ReadOne(of, s[0], tail);
      ReadPrefixed([s[0]], Meaning(of, s[1..]), rest);
    } else if |s| == 1 {
      assert s == ['\\'];
      EscapedLone();
      assert "\\\\" + end == ['\\', '\\'] + end;
      ReadPair(of, '\\', end);
      ReadEnd(of, rest);
      ReadPrefixed("\\", [], rest);
    } else {
      EscapedReads(of, s[2..], rest);
      EscapedPair(s);
      var tail := Escaped(s[2..], false) + end;
      assert Escaped(s, false) + end == ['\\', s[1]] + tail;
      ReadPair(of, s[1], tail);
      ReadPrefixed(of(s[1]), Meaning(of, s[2..]), rest);
    }
  }

  lemma ReadPrefixed(start: string, value: string, rest: string)
    ensures Prefixed(start, Some(Literal(value, rest))) == Some(Literal(start + value, rest))
  {
  }

  lemma ReadEnd(of: char -> string, rest: string)
    requires rest == [] || rest[0] != '\''
    ensures ReadLiteral(of, ['\''] + rest) == Some(Literal("", rest))
  {
    assert (['\''] + rest)[1..] == rest;
  }

  lemma ReadOne(of: char -> string, c: char, tail: string)
    requires c != '\\'
    ensures ReadLiteral(of, Char(c, false) + tail) == Prefixed([c], ReadLiteral(of, tail))
  {
    var written := Char(c, false);
    assert (written + tail)[|written|..] == tail;
  }

  lemma ReadPair(of: char -> string, c: char, tail: string)
    ensures ReadLiteral(of, ['\\', c] + tail) == Prefixed(of(c), ReadLiteral(of, tail))
  {
    assert (['\\', c] + tail)[2..] == tail;
  }

  lemma EscapedNone()
    ensures Escaped([], false) == []
  {
  }

  lemma EscapedLone()
    ensures Escaped(['\\'], false) == "\\\\"
  {
    EscapedStep(['\\'], false);
    assert ['\\'][1..] == [];
  }

  lemma EscapedStep(s: string, odd: bool)
    requires s != []
    ensures Escaped(s, odd) == Char(s[0], odd) + Escaped(s[1..], s[0] == '\\' && !odd)
  {
  }

  /** A backslash and what follows it are copied together. */
  lemma EscapedPair(s: string)
    requires |s| > 1 && s[0] == '\\'
    ensures Escaped(s, false) == ['\\', s[1]] + Escaped(s[2..], false)
  {
    EscapedStep(s, false);
    EscapedStep(s[1..], true);
    assert s[1..][1..] == s[2..];
  }

  /** The result is at most twice as long: the room the callers leave for it. */
  lemma {:induction false} EscapedLength(s: string, odd: bool)
    ensures |s| <= |Escaped(s, odd)| <= 2 * |s| + (if odd then 1 else 0)
  {
    if s != [] {
      EscapedStep(s, odd);
      EscapedLength(s[1..], s[0] == '\\' && !odd);
    }
  }

  lemma {:induction false} CopiedAppend(s: string, c: char, odd: bool)
    ensures OddEnd(s + [c], odd) == (c == '\\' && !OddEnd(s, odd))
    ensures Copied(s + [c], odd) == Copied(s, odd) + Char(c, OddEnd(s, odd))
  {
    hide Char;
    if s == [] {
      assert s + [c] == [c] && [c][1..] == [];
    } else {
      CopiedAppend(s[1..], c, s[0] == '\\' && !odd);
      assert (s + [c])[1..] == s[1..] + [c];
    }
  }

  /** `mysqldump`: appended with its quotes to a string that grows. */
  method EscapeQuoted(before: string, from: string) returns (literal: string)
    ensures literal == before + "\'" + Escaped(from, false) + "\'"
  {
    hide Copied, OddEnd;
    literal := before + "\'";
    var endBackslashes := false;
    NothingCopied();
    for i := 0 to |from|
      invariant literal == before + "\'" + Copied(from[..i], false)
      invariant endBackslashes == OddEnd(from[..i], false)
    {
      assert from[..i + 1] == from[..i] + [from[i]];
      CopiedAppend(from[..i], from[i], false);
      literal := literal + [from[i]];
      if from[i] == '\\' {
        endBackslashes := !endBackslashes;
      } else {
        if from[i] == '\'' && !endBackslashes {
          literal := literal + "\'";
        }
        endBackslashes := false;
      }
    }
    assert from[..|from|] == from;
    if endBackslashes {
      literal := literal + "\\";
    }
    literal := literal + "\'";
  }

  lemma NothingCopied()
    ensures Copied([], false) == [] && !OddEnd([], false)
  {
  }

  /** `mysqlimport`: written without quotes into a buffer, from `to` on. Twice the length
      of the text is room enough. */
  method EscapeInto(buffer: array<char>, to: nat, from: string) returns (end: nat)
    requires to + 2 * |from| <= buffer.Length
    modifies buffer
    ensures to <= end <= to + 2 * |from|
    ensures buffer[to..end] == Escaped(from, false)
    ensures buffer[..to] == old(buffer[..to]) && buffer[end..] == old(buffer[end..])
  {
    hide Copied, OddEnd;
    end := to;
    var endBackslashes := false;
    NothingCopied();
    EscapedLength(from, false);
    for i := 0 to |from|
      invariant to <= end <= to + 2 * i - (if endBackslashes then 1 else 0)
      invariant buffer[to..end] == Copied(from[..i], false)
      invariant endBackslashes == OddEnd(from[..i], false)
      invariant buffer[..to] == old(buffer[..to]) && forall k :: end <= k < buffer.Length ==> buffer[k] == old(buffer[k])
    {
      assert from[..i + 1] == from[..i] + [from[i]];
      CopiedAppend(from[..i], from[i], false);
      Put(buffer, to, end, from[i]);
      end := end + 1;
      if from[i] == '\\' {
        endBackslashes := !endBackslashes;
      } else {
        if from[i] == '\'' && !endBackslashes {
          Put(buffer, to, end, from[i]);
          end := end + 1;
        }
        endBackslashes := false;
      }
    }
    assert from[..|from|] == from;
    if endBackslashes {
      Put(buffer, to, end, '\\');
      end := end + 1;
    }
  }

  method Put(buffer: array<char>, start: nat, at: nat, c: char)
    requires start <= at < buffer.Length
    modifies buffer
    ensures buffer[start..at + 1] == old(buffer[start..at]) + [c]
    ensures buffer[..start] == old(buffer[..start])
    ensures forall k :: at < k < buffer.Length ==> buffer[k] == old(buffer[k])
  {
    buffer[at] := c;
  }
}
