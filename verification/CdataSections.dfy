/** Comments printed by `mysqldump --xml` as CDATA sections (`mysqldump.cc`), and the
    reading of such sections after section 2.7 of XML 1.0. */
module CdataSections {

  import opened Optional

  const OPEN := "<![CDATA["
  const CLOSE := "]]>"

  /** The closing mark stands at the start of the text. */
  predicate Closes(text: string) {
    |text| >= 3 && text[0] == ']' && text[1] == ']' && text[2] == '>'
  }

  /** Reading, from inside a section on: a section ends at the first closing mark and
      another one may follow directly. The last one is followed by a line end. The
      result is the text of the sections. */
  function Content(text: string): Option<string> {
    if text == [] then None
    else if Closes(text) then
      var after := text[3..];
      if OPEN <= after then Content(after[|OPEN|..])
      else if after == "\n" then Some("") else None
    else
      match Content(text[1..])
      case None => None
      case Some(rest) => Some([text[0]] + rest)
  }

  function ReadSections(text: string): Option<string> {
    if OPEN <= text then Content(text[|OPEN|..]) else None
  }

  /** A closing mark in the string, spread over two sections. */
  const SPLIT := "]]" + CLOSE + OPEN + ">"

  /** What is printed for the characters of the string. */
  function Body(s: string): string {
    if s == [] then [] else if Closes(s) then SPLIT + Body(s[3..]) else [s[0]] + Body(s[1..])
  }

  /** What is printed behind the string. */
  const TAIL := "\n" + CLOSE + "\n"

  function Printed(s: string): string {
    OPEN + "\n" + Body(s) + TAIL
  }

  /** The loop of `print_xml_cdata` over a string of `len` characters with a NUL behind
      them, which is where looking ahead stops. */
  method PrintXmlCdata(str: string, len: nat) returns (out: string)
    requires len < |str| && str[len] == '\0'
    ensures out == Printed(str[..len])
  {
    hide Body;
    out := "<![CDATA[\n";
    ghost var s := str[..len];
    var i := 0;
    assert s[0..] == s;
    while i != len
      invariant i <= len
      invariant out + Body(s[i..]) == OPEN + "\n" + Body(s)
      decreases len - i
    {
      BodyStep(s[i..]);
      if str[i] == ']' && str[i + 1] == ']' && str[i + 2] == '>' {
        assert s[i..][3..] == s[i + 3..];
        out := out + "]]]]><![CDATA[>";
        assert SPLIT == "]]]]><![CDATA[>";
        i := i + 3;
      } else {
        assert s[i..][1..] == s[i + 1..];
        out := out + [str[i]];
        i := i + 1;
      }
    }
    BodyStep(s[len..]);
    out := out + "\n]]>\n";
    assert TAIL == "\n]]>\n";
  }

  lemma BodyStep(s: string)
    ensures s == [] ==> Body(s) == []
    ensures Closes(s) ==> Body(s) == SPLIT + Body(s[3..])
    ensures s != [] && !Closes(s) ==> Body(s) == [s[0]] + Body(s[1..])
  {
  }

  /** Every string comes back from its sections, with the line ends printed around it. */
  lemma CdataRoundTrip(s: string)
    ensures ReadSections(Printed(s)) == Some("\n" + s + "\n")
  {
    hide Body, Content;
    var rest := Body(s) + TAIL;
    assert Printed(s) == OPEN + (['\n'] + rest);
    assert (OPEN + (['\n'] + rest))[|OPEN|..] == ['\n'] + rest;
    BodyReads(s);
    ReadChar('\n', rest, s + "\n");
    assert ['\n'] + (s + "\n") == "\n" + s + "\n";
  }

  /** A closing mark is printed in two sections. */
  lemma ClosePrinted()
    ensures Printed("]]>") == "<![CDATA[\n]]]]><![CDATA[>\n]]>\n"
  {
  }

  /** A character that starts no closing mark is read as it is. */
  lemma ReadChar(c: char, rest: string, value: string)
    requires !Closes([c] + rest)
    requires Content(rest) == Some(value)
    ensures Content([c] + rest) == Some([c] + value)
  {
    assert ([c] + rest)[0] == c && ([c] + rest)[1..] == rest;
  }

  lemma ReadClose(rest: string)
    ensures Content(CLOSE + (OPEN + rest)) == Content(rest)
  {
    assert (CLOSE + (OPEN + rest))[3..] == OPEN + rest;
    assert (OPEN + rest)[|OPEN|..] == rest;
  }

  lemma ReadTail()
    ensures Content(TAIL) == Some("\n")
  {
    var close := "]]>\n";
    assert close[3..] == "\n";
    assert Content(close) == Some("");
    assert TAIL == ['\n'] + close;
    ReadChar('\n', close, "");
    assert ['\n'] + "" == "\n";
  }

  lemma {:induction false} BodyReads(s: string)
    ensures Content(Body(s) + TAIL) == Some(s + "\n")
  {
    hide Content, Body;
    BodyStep(s);
    if s == [] {
      ReadTail();
      assert Body(s) + TAIL == TAIL && s + "\n" == "\n";
    } else if Closes(s) {
      var rest := Body(s[3..]) + TAIL;
      BodyReads(s[3..]);
      SplitReads(rest, s[3..] + "\n");
      assert Body(s) + TAIL == SPLIT + rest;
      assert s + "\n" == CLOSE + (s[3..] + "\n");
    } else {
      var rest := Body(s[1..]) + TAIL;
      BodyReads(s[1..]);
      NoNewClose(s);
      ReadChar(s[0], rest, s[1..] + "\n");
      assert Body(s) + TAIL == [s[0]] + rest;
      assert s + "\n" == [s[0]] + (s[1..] + "\n");
    }
  }

  /** A closing mark split over two sections is read as that mark. */
  lemma SplitReads(rest: string, value: string)
    requires Content(rest) == Some(value)
    ensures Content(SPLIT + rest) == Some(CLOSE + value)
  {
    hide Content;
    ReadChar('>', rest, value);
    var first := ['>'] + rest;
    ReadClose(first);
    var second := CLOSE + (OPEN + first);
    ReadChar(']', second, ['>'] + value);
    ReadChar(']', [']'] + second, [']'] + (['>'] + value));
    assert [']'] + ([']'] + second) == SPLIT + rest;
    assert [']'] + ([']'] + (['>'] + value)) == CLOSE + value;
  }

  lemma BodyHead(s: string)
    ensures s != [] ==> Body(s) != [] && Body(s)[0] == s[0]
    ensures Closes(s) ==> |Body(s)| > 1 && Body(s)[1] == ']'
  {
  }

  /** What is printed behind a character makes no closing mark that was not there. */
  lemma NoNewClose(s: string)
    requires s != [] && !Closes(s)
    ensures !Closes([s[0]] + (Body(s[1..]) + TAIL))
  {
    BodyHead(s[1..]);
    if |s| > 1 {
      BodyHead(s[2..]);
      assert s[1..][1..] == s[2..];
    }
  }
}
