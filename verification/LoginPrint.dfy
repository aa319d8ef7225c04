/** The `print` command of `mysql_config_editor.cc`: paths are printed with password
    values replaced by stars. */
module LoginPrint {
  import opened Optional
  import opened LoginText
  import opened LoginStore
  import opened LoginSections
  import opened LoginEditor
  import opened LoginCommands
  import opened LoginPasswords

  /** The text, or the text without its last newline. */
  ghost predicate Shows(text: string, lines: seq<string>, ended: bool) {
    && GoodLines(lines)
    && if ended then text == Join(lines) else lines != [] && lines[|lines| - 1] != [] && text + "\n" == Join(lines)
  }

  /** The missing newline plays no part in the search. */
  lemma SameHits(text: string, lines: seq<string>, ended: bool, k: nat)
    requires Shows(text, lines, ended)
    ensures Occurs(text, "\n" + PASSWORD, k) <==> Occurs(Join(lines), "\n" + PASSWORD, k)
  {
    hide Join;
    if !ended {
      var pat, whole := "\n" + PASSWORD, Join(lines);
      if k + |pat| <= |text| {
        assert whole[k..k + |pat|] == text[k..k + |pat|];
      } else if k + |pat| == |whole| {
        assert whole[k..k + |pat|][|pat| - 1] == '\n';
      }
    }
  }

  /** Where the text from line `i` on begins. */
  ghost function Place(text: string, lines: seq<string>, ended: bool, i: nat): nat
    requires i <= |lines|
  {
    if i == |lines| && !ended then |text| else Start(lines, i)
  }

  lemma PlaceInText(text: string, lines: seq<string>, ended: bool, i: nat)
    requires Shows(text, lines, ended) && i <= |lines|
    ensures Place(text, lines, ended, i) <= |text| && (i < |lines| ==> Start(lines, i) < |text|)
    ensures i == |lines| ==> Place(text, lines, ended, i) == |text|
  {
    hide Join, Start, GoodLine;
    StartEnd(lines);
    if i < |lines| {
      StartNext(lines, |lines| - 1);
      StartMonotone(lines, i, |lines| - 1);
    }
  }

  /** The next hit, by lines. */
  method NextHit(text: string, pos: nat, ghost lines: seq<string>, ghost ended: bool, ghost i: nat)
    returns (r: Option<nat>)
    requires Shows(text, lines, ended) && i <= |lines| && pos == Place(text, lines, ended, i) <= |text|
    ensures var j := NextPassword(lines, i);
            r == if j == |lines| then None else Some(Start(lines, j) - 1)
    ensures NextPassword(lines, i) < |lines| ==> i < NextPassword(lines, i) && Start(lines, NextPassword(lines, i)) > 0
  {
    hide Join, Start, Occurs;
    r := LoginText.StrStr(text, pos, "\n" + PASSWORD);
    ghost var j := NextPassword(lines, i);
    PlaceInText(text, lines, ended, i);
    if i == |lines| {
      NoHit(text, "\n" + PASSWORD);
    } else if r.Some? {
      SameHits(text, lines, ended, r.value);
      FindsLine(lines, i, PASSWORD, r.value);
      ghost var m :| i < m < |lines| && Start(lines, m) == r.value + 1 && PASSWORD <= lines[m];
      assert j <= m;
      LineIsFound(lines, j, PASSWORD);
      SameHits(text, lines, ended, Start(lines, j) - 1);
      StartMonotone(lines, i, j);
      StartMonotone(lines, j, m);
    } else if j < |lines| {
      LineIsFound(lines, j, PASSWORD);
      SameHits(text, lines, ended, Start(lines, j) - 1);
      StartMonotone(lines, i, j);
      assert false;
    }
  }

  lemma NoHit(text: string, pat: string)
    requires pat != []
    ensures forall k: nat :: |text| <= k ==> !Occurs(text, pat, k)
  {
  }

  /** The text of lines, up to the newline of the last. */
  lemma Segment(text: string, lines: seq<string>, ended: bool, i: nat, j: nat)
    requires Shows(text, lines, ended) && i < j < |lines|
    ensures Start(lines, i) < Start(lines, j) <= |text|
    ensures text[Start(lines, i)..Start(lines, j) - 1] + "\n" == Join(lines[i..j])
    ensures text[Start(lines, j) - 1] == '\n'
  {
    hide Join, Start, GoodLine;
    PlaceInText(text, lines, ended, j);
    StartMonotone(lines, i, j);
    PartOfJoin(lines, i, j);
    JoinEnds(lines[i..j]);
    assert text <= Join(lines);
    SliceOfPrefix(text, Join(lines), Start(lines, i), Start(lines, j));
  }

  lemma SliceOfPrefix(text: string, whole: string, a: nat, b: nat)
    requires text <= whole && a < b <= |text|
    ensures text[a..b - 1] + [text[b - 1]] == whole[a..b] && text[b - 1] == whole[a..b][b - a - 1]
  {
    assert whole[a..b] == text[a..b];
    assert text[a..b] == text[a..b - 1] + [text[b - 1]];
  }

  lemma PartOfJoin(lines: seq<string>, i: nat, j: nat)
    requires i <= j <= |lines|
    ensures Start(lines, i) <= Start(lines, j) <= |Join(lines)|
    ensures Join(lines)[Start(lines, i)..Start(lines, j)] == Join(lines[i..j])
  {
    hide Join;
    JoinSplit(lines, i);
    JoinSplit(lines, j);
    StartMonotone(lines, i, j);
    JoinConcat(lines[..i], lines[i..j]);
    assert lines[..j] == lines[..i] + lines[i..j];
    var a, b := Start(lines, i), Start(lines, j);
    assert Join(lines)[a..b] == Join(lines)[..b][a..];
  }

  /** What is left when no password follows, with the newline that is added. */
  lemma LastSegment(text: string, lines: seq<string>, ended: bool, i: nat)
    requires Shows(text, lines, ended) && i <= |lines|
    ensures Place(text, lines, ended, i) <= |text|
    ensures text[Place(text, lines, ended, i)..] + (if ended then "" else "\n") ==
            Join(lines[i..]) + if i == |lines| && !ended then "\n" else ""
  {
    hide Join, Start;
    PlaceInText(text, lines, ended, i);
    JoinSplit(lines, i);
    if i == |lines| {
      NoLines(lines);
    }
    var a := Start(lines, i);
    if ended {
      assert text[a..] + "" == text[a..] && Join(lines[i..]) + "" == Join(lines[i..]);
    } else if i < |lines| {
      assert text[a..] + "\n" == Join(lines)[a..];
    }
  }

  lemma NoLines(lines: seq<string>)
    ensures Join(lines[|lines|..]) == []
  {
  }

  /** "Ignore the password": past its newline, or to the end. */
  method SkipPassword(text: string, pos: nat, ghost lines: seq<string>, ghost ended: bool, ghost j: nat)
    returns (pos': nat)
    requires Shows(text, lines, ended) && j < |lines| && pos == Start(lines, j)
    ensures pos' == Place(text, lines, ended, j + 1) <= |text|
  {
    hide Join, Start;
    PlaceInText(text, lines, ended, j);
    PlaceInText(text, lines, ended, j + 1);
    StartNext(lines, j);
    StartEnd(lines);
    assert GoodLine(lines[j]);
    ghost var end := pos + |lines[j]|;
    ghost var part := Join(lines)[pos..end + 1];
    assert part == lines[j] + "\n";
    assert forall k :: 0 <= k < |lines[j]| ==> part[k] == lines[j][k] && lines[j][k] in lines[j];
    assert forall k :: pos <= k < end ==> text[k] == part[k - pos];
    assert end < |text| ==> text[end] == part[|lines[j]|] == '\n';
    pos' := pos;
    while pos' < |text| && text[pos'] != '\n'
      invariant pos <= pos' <= end <= |text|
    {
      pos' := pos' + 1;
    }
    if pos' < |text| {
      pos' := pos' + 1;
    }
  }

  /** `mask_password_and_print` on a C string: the lines shown, and one more newline
      when the last line was masked and had none in the string. */
  method MaskPasswordAndPrint(text: string, all: bool, ghost lines: seq<string>, ghost ended: bool)
    returns (out: string)
    requires Shows(text, lines, ended) && lines != []
    ensures out == Join(Shown(lines, 0, all)) + if !ended && HidesLast(lines, 0, all) then "\n" else ""
  {
    hide Join, Start, Shown, HidesLast, NextPassword, Occurs, Shows;
    out := "";
    var pos := 0;
    ghost var i, goal, hidden := 0, Join(Shown(lines, 0, all)), HidesLast(lines, 0, all);
    StartEnd(lines);
    PlaceInText(text, lines, ended, 0);
    assert out + goal == goal;
    while true
      invariant i <= |lines| && pos == Place(text, lines, ended, i) <= |text|
      invariant out + Join(Shown(lines, i, all)) == goal
      invariant hidden == (i == |lines| || HidesLast(lines, i, all))
      decreases |lines| - i
    {
      var next := NextHit(text, pos, lines, ended, i);
      ShownStep(lines, i, all);
      HidesStep(lines, i, all);
      if next.None? {
        break;
      }
      out, pos := PrintStars(out, text, pos, next.value, lines, ended, i, all);
      i := NextPassword(lines, i) + 1;
      if !all {
        break;
      }
    }
    assert out + Join(lines[i..]) == goal && hidden == (i == |lines|);
    out := PrintRest(out, text, pos, lines, ended, i);
  }

  /** What is printed up to a hit and for it, and the move past it. */
  method PrintStars(out: string, text: string, pos: nat, next: nat, ghost lines: seq<string>, ghost ended: bool,
    ghost i: nat, ghost all: bool) returns (out': string, pos': nat)
    requires Shows(text, lines, ended) && i < |lines| && pos == Start(lines, i)
    requires i < NextPassword(lines, i) < |lines| && next == Start(lines, NextPassword(lines, i)) - 1
    ensures var j := NextPassword(lines, i);
            && pos' == Place(text, lines, ended, j + 1) <= |text|
            && out' + Join(if all then Shown(lines, j + 1, all) else lines[j + 1..]) == out + Join(Shown(lines, i, all))
  {
    hide Join, Start, Shown, NextPassword, Shows;
    ghost var j := NextPassword(lines, i);
    Segment(text, lines, ended, i, j);
    ShownStep(lines, i, all);
    PrintedStars(out, text[pos..next], lines[i..j], if all then Shown(lines, j + 1, all) else lines[j + 1..]);
    out' := out + text[pos..next] + "\npassword = " + "*****\n";
    pos' := next;
    if text[pos'] == '\n' {
      pos' := pos' + 1;
    }
    pos' := SkipPassword(text, pos', lines, ended, j);
  }

  /** "Now print the rest of the buffer", and a newline if it ends without one. */
  method PrintRest(out: string, text: string, pos: nat, ghost lines: seq<string>, ghost ended: bool, ghost i: nat)
    returns (out': string)
    requires Shows(text, lines, ended) && lines != [] && i <= |lines| && pos == Place(text, lines, ended, i)
    ensures out' == out + Join(lines[i..]) + if i == |lines| && !ended then "\n" else ""
  {
    hide Join, Start, Shows;
    LastSegment(text, lines, ended, i);
    LastChar(text, lines, ended);
    out' := out + text[pos..];
    if text[|text| - 1] != '\n' {
      out' := out' + "\n";
    }
    assert out' == out + (text[pos..] + if ended then "" else "\n");
  }

  lemma HidesStep(lines: seq<string>, i: nat, all: bool)
    requires i <= |lines|
    ensures var j := NextPassword(lines, i);
            HidesLast(lines, i, all) == (j < |lines| && (j == |lines| - 1 || (all && HidesLast(lines, j + 1, all))))
  {
    hide NextPassword;
  }

  lemma PrintedStars(out: string, part: string, lines: seq<string>, rest: seq<string>)
    requires part + "\n" == Join(lines)
    ensures out + part + "\npassword = " + "*****\n" + Join(rest) == out + Join(lines + ([STARS] + rest))
  {
    hide Join;
    JoinConcat(lines, [STARS] + rest);
    JoinConcat([STARS], rest);
    OneLine(STARS);
    assert "\npassword = " + "*****\n" == "\n" + (STARS + "\n");
  }

  lemma LastChar(text: string, lines: seq<string>, ended: bool)
    requires Shows(text, lines, ended) && lines != []
    ensures text != [] && (text[|text| - 1] == '\n' <==> ended)
  {
    hide Join, Start;
    var n := |lines| - 1;
    StartNext(lines, n);
    StartEnd(lines);
    assert GoodLine(lines[n]);
    var part := Join(lines)[Start(lines, n)..Start(lines, n + 1)];
    var whole := Join(lines);
    assert part[|lines[n]|] == '\n' && whole[|whole| - 1] == part[|part| - 1];
    if !ended {
      assert part[|lines[n]| - 1] == lines[n][|lines[n]| - 1] && whole[|whole| - 2] == part[|part| - 2];
      assert lines[n][|lines[n]| - 1] in lines[n];
    }
  }

  /** What is printed of a path. Unless it is the last one the newline behind it is cut
      off: when its last line is masked that gives one newline more, and when its last
      line is empty one less. */
  function PrintedPath(part: seq<string>, last: bool): string
    requires part != []
  {
    var n := |part| - 1;
    if !last && part[n] == [] then Join(Shown(part[..n], 0, false))
    else Join(Shown(part, 0, false)) + if !last && HidesLast(part, 0, false) then "\n" else ""
  }

  /** What `print` prints: all lines, or those of one path. */
  function Printed(lines: seq<string>, name: string, all: bool): string {
    if all then Join(Shown(lines, 0, true))
    else
      var i := SectionStart(lines, name);
      if i == |lines| then ""
      else
        var j := SectionEnd(lines, i);
        PrintedPath(lines[i..j], j == |lines|)
  }

  /** `print_login_path`, whatever lines the text has. */
  method PrintLoginPath(buf: DynamicString, name: string, all: bool, ghost lines: seq<string>) returns (out: string)
    requires buf.Valid() && GoodLines(lines) && buf.Text() == Join(lines) && GoodLine(name)
    ensures out == Printed(lines, name, all)
  {
    hide Join, Shown, GoodLine, PrintedPath, GoodLines, FirstFrom, HidesLast, Shows;
    if buf.length == 0 {
      NothingToPrint(lines, name, all);
      out := "";
    } else if all {
      var text := buf.str[0..buf.length];
      assert text == buf.Text();
      AllOfText(text, lines);
      out := MaskPasswordAndPrint(text, true, lines, true);
    } else {
      out := PrintOne(buf, name, lines);
    }
  }

  lemma NothingToPrint(lines: seq<string>, name: string, all: bool)
    requires Join(lines) == []
    ensures Printed(lines, name, all) == ""
  {
    JoinEnds(lines);
  }

  lemma AllOfText(text: string, lines: seq<string>)
    requires GoodLines(lines) && text == Join(lines) && text != []
    ensures lines != [] && Shows(text, lines, true)
  {
  }

  method PrintOne(buf: DynamicString, name: string, ghost lines: seq<string>) returns (out: string)
    requires buf.Valid() && GoodLines(lines) && buf.Text() == Join(lines) && GoodLine(name)
    ensures out == Printed(lines, name, false)
  {
    hide Join, Start, Shown, HidesLast, GoodLine, GoodLines, FirstFrom, Shows;
    var at, i := Locate(buf, name, lines);
    if at.None? {
      return "";
    }
    assert buf.Text() == Join(lines);
    var end, j := NextHeader(buf, at.value, lines, i);
    StartMonotone(lines, i, j);
    StartMonotone(lines, j, |lines|);
    StartEnd(lines);
    assert buf.Text() == Join(lines);
    var stop := if end.Some? then end.value else buf.length;
    var text := buf.str[at.value..stop];
    PartOfText(buf, at.value, stop);
    ghost var part, ended := PartLines(lines, name, i, j, text);
    out := MaskPasswordAndPrint(text, false, part, ended);
  }

  lemma PartOfText(buf: DynamicString, a: nat, b: nat)
    requires buf.Valid() && a <= b <= buf.length
    ensures buf.str[a..b] == buf.Text()[a..b]
  {
  }

  /** The lines of the part of the text that is one path. */
  lemma PartLines(lines: seq<string>, name: string, i: nat, j: nat, text: string) returns (part: seq<string>, ended: bool)
    requires GoodLines(lines) && i < j <= |lines| && Header(name) <= lines[i]
    requires Start(lines, i) < Start(lines, j) <= |Join(lines)|
    requires text == Join(lines)[Start(lines, i)..Start(lines, j) - if j == |lines| then 0 else 1]
    ensures Shows(text, part, ended) && part != []
    ensures PrintedPath(lines[i..j], j == |lines|) ==
            Join(Shown(part, 0, false)) + if !ended && HidesLast(part, 0, false) then "\n" else ""
  {
    hide Join, Start, Shown, HidesLast, GoodLine;
    PartOfJoin(lines, i, j);
    part, ended := lines[i..j], j == |lines|;
    var n := |part| - 1;
    JoinEnds(part);
    if !ended {
      DropLast(Join(lines), Start(lines, i), Start(lines, j));
      if part[n] == [] {
        EmptyLast(part, text);
        HeaderLong(name, part[0]);
        part, ended := part[..n], true;
      }
    }
  }

  /** The newline before an empty last line ends the line before it. */
  lemma EmptyLast(part: seq<string>, text: string)
    requires part != [] && part[|part| - 1] == [] && Join(part) == text + "\n"
    ensures text == Join(part[..|part| - 1])
  {
    hide Join;
    var n := |part| - 1;
    assert part == part[..n] + [part[n]];
    JoinConcat(part[..n], [part[n]]);
    OneLine(part[n]);
    assert Join(part) == Join(part[..n]) + "\n";
    assert (text + "\n")[..|text|] == text;
    assert (Join(part[..n]) + "\n")[..|text|] == Join(part[..n]);
  }

  lemma DropLast(text: string, a: nat, b: nat)
    requires a < b <= |text|
    ensures text[a..b] == text[a..b - 1] + [text[a..b][b - a - 1]]
  {
  }

  // ---------------------------------------------------------------------------
  // What it is meant to print

  function MaskedPath(part: seq<string>, last: bool): string
    requires part != []
  {
    var n := |part| - 1;
    if !last && part[n] == [] then Join(MaskedLines(part[..n]))
    else Join(MaskedLines(part)) + if !last && IsPassword(part[n]) then "\n" else ""
  }

  /** The same with every password masked. */
  function Printout(lines: seq<string>, name: string, all: bool): string {
    if all then Join(MaskedLines(lines))
    else
      var i := SectionStart(lines, name);
      if i == |lines| then ""
      else
        var j := SectionEnd(lines, i);
        MaskedPath(lines[i..j], j == |lines|)
  }

  /** No password is shown and everything else is, as long as no path has two. */
  lemma PrintsMasked(lines: seq<string>, name: string, all: bool)
    requires Wellformed(lines) && OneEach(lines, false)
    ensures Printed(lines, name, all) == Printout(lines, name, all)
  {
    hide Join, Shown, MaskedLines, IsPassword, OneEach, FirstFrom, GoodLine, PrintedPath, MaskedPath;
    if all {
      OneEachApart(lines, false);
      FirstNoPassword(lines);
      ShownIsMasked(lines, 0);
      assert MaskedLines(lines)[0..] == MaskedLines(lines);
    } else {
      var i := SectionStart(lines, name);
      if i < |lines| {
        var j := SectionEnd(lines, i);
        SectionOne(lines, name, i, j);
        PathMasked(lines[i..j], j == |lines|);
      }
    }
  }

  lemma FirstNoPassword(lines: seq<string>)
    requires Wellformed(lines)
    ensures lines != [] ==> !IsPassword(lines[0])
  {
    if lines != [] {
      HeaderNoPassword(lines[0]);
    }
  }

  lemma SectionOne(lines: seq<string>, name: string, i: nat, j: nat)
    requires OneEach(lines, false) && i < j <= |lines| && Header(name) <= lines[i] && FirstWith(lines, "[", i + 1, j)
    ensures OnePassword(lines[i..j]) && !IsPassword(lines[i])
  {
    hide OneEach, IsPassword, Header;
    HeaderIsHeader(name, lines[i]);
    HeaderNoPassword(lines[i]);
    assert lines == lines[..i] + lines[i..];
    OneEachConcat(lines[..i], lines[i..], false);
    OneEachHeader(lines[i..]);
    var rest, n := lines[i + 1..], j - i - 1;
    assert lines[i..][1..] == rest;
    assert forall k :: 0 <= k < n ==> rest[k] == lines[i + 1 + k] && !IsHeader(lines[i + 1 + k]);
    OneEachInPath(rest, false, n);
    var part := lines[i..j];
    assert forall k :: 0 < k < |part| ==> part[k] == rest[..n][k - 1];
  }

  lemma PathMasked(part: seq<string>, last: bool)
    requires part != [] && OnePassword(part) && !IsPassword(part[0])
    ensures PrintedPath(part, last) == MaskedPath(part, last)
  {
    hide Join, Shown, MaskedLines, IsPassword, HidesLast, NextPassword;
    var n := |part| - 1;
    ShownOnce(part);
    HidesLastOnce(part);
    if !last && part[n] == [] {
      if n > 0 {
        ShownOnce(part[..n]);
      } else {
        NoneShown(part[..n]);
      }
    }
  }

  lemma HidesLastOnce(lines: seq<string>)
    requires lines != [] && !IsPassword(lines[0]) && OnePassword(lines)
    ensures HidesLast(lines, 0, false) <==> IsPassword(lines[|lines| - 1])
  {
    hide IsPassword, NextPassword, FirstWith;
    PasswordAt(lines, 0);
  }

  /** Over every run: after any sets and removes, if no login among them writes two
      passwords, `print` masks every password. */
  lemma RunThenPrint(edits: seq<Edit>, name: string, all: bool)
    requires forall e <- edits :: GoodEdit(e) && (e.Set? ==> OneEach(LoginLines(e.login), false))
    ensures var lines := AfterEdits([], edits);
            Printed(lines, name, all) == Printout(lines, name, all)
  {
    hide Printed, Printout, AfterEdits, GoodEdit, LoginLines;
    assert OneEach([], false) && Wellformed([]);
    RunKeeps([], edits);
    PrintsMasked(AfterEdits([], edits), name, all);
  }
}
