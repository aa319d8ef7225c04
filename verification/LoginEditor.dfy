/** The buffer operations of `mysql_config_editor.cc`, in place on a NUL-terminated
    text, proved by what they do to its lines. */
module LoginEditor {
  import opened Optional
  import opened LoginText
  import opened LoginStore
  import opened LoginSections

  /** `DYNAMIC_STRING`: `str[length]` is the terminating NUL. */
  class DynamicString {
    var str: array<char>
    var length: nat

    ghost predicate Valid()
      reads this, str
    {
      length < str.Length && str[length] == NUL && NUL !in str[..length]
    }

    ghost function Text(): string
      reads this, str
      requires Valid()
    {
      str[..length]
    }

    constructor ()
      ensures Valid() && Text() == [] && fresh(str)
    {
      str := new char[1](i => NUL);
      length := 0;
    }

    /** `dynstr_append`: into a new buffer when the old one is full. */
    method Append(s: string)
      requires Valid() && NUL !in s
      modifies this, str
      ensures Valid() && Text() == old(Text()) + s
      ensures str == old(str) || fresh(str)
    {
      ghost var text := Text();
      if length + |s| >= str.Length {
        var bigger := new char[length + |s| + 1](i => NUL);
        forall i | 0 <= i < length {
          bigger[i] := str[i];
        }
        str := bigger;
      }
      forall i | 0 <= i < |s| {
        str[length + i] := s[i];
      }
      length := length + |s|;
      str[length] := NUL;
      assert str[..length] == text + s;
    }

    /** `strncmp(str + k, pat, strlen(pat)) == 0` */
    method Matches(k: nat, pat: string) returns (r: bool)
      requires Valid() && k <= length && NUL !in pat
      ensures r == Occurs(Text(), pat, k)
    {
      var i := 0;
      while i < |pat|
        invariant i <= |pat| && k + i <= length && str[k..k + i] == pat[..i]
      {
        assert pat[i] in pat;
        if str[k + i] != pat[i] {
          Mismatch(Text(), pat, k, i);
          return false;
        }
        assert str[k..k + i + 1] == str[k..k + i] + [str[k + i]];
        i := i + 1;
      }
      assert pat[..i] == pat && Text()[k..k + |pat|] == str[k..k + |pat|];
      r := true;
    }

    /** `strstr` on the text. */
    method StrStr(from: nat, pat: string) returns (r: Option<nat>)
      requires Valid() && from <= length
      ensures r.Some? ==>
                && from <= r.value && Occurs(Text(), pat, r.value)
                && forall k :: from <= k < r.value ==> !Occurs(Text(), pat, k)
      ensures r.None? ==> forall k: nat :: from <= k ==> !Occurs(Text(), pat, k)
    {
      r := LoginText.StrStr(str[..length], from, pat);
    }

    method Truncate(start: nat)
      requires Valid() && start <= length
      modifies this`length, str
      ensures Valid() && Text() == old(Text()[..start] + Text()[length..])
    {
      ghost var text := Text();
      str[start] := NUL;
      length := start;
      assert str[..length] == text[..start] + text[|text|..];
    }

    /** The shifting loops: the text from `end` on moves down to `start`. */
    method Shift(start: nat, end: nat)
      requires Valid() && start <= end <= length
      modifies this`length, str
      ensures Valid() && Text() == old(Text()[..start] + Text()[end..])
    {
      hide Shifted;
      ghost var text := Text();
      var to, from := start, end;
      var toMove := length - end;
      ShiftedStart(str[..], text, start, end);
      while toMove > 0
        invariant length == old(length) && end <= from <= length && to - start == from - end && toMove == length - from
        invariant Shifted(str[..], text, start, end, from)
      {
        ghost var before := str[..];
        str[to] := str[from];
        assert str[..] == before[to := before[from]];
        ShiftedStep(before, text, start, end, from);
        to, from := to + 1, from + 1;
        toMove := toMove - 1;
      }
      ghost var moved := str[..];
      str[to] := NUL;
      assert str[..] == moved[to := NUL];
      length := length - (end - start);
      ShiftedEnd(moved, text, start, end);
      assert str[..length] == moved[..to];
      ShiftedClean(text, start, end);
    }
  }

  lemma ShiftedStart(s: string, text: string, start: nat, end: nat)
    requires start <= end <= |text| <= |s| && s[..|text|] == text
    ensures Shifted(s, text, start, end, end)
  {
    assert s[..start] == s[..|text|][..start] && s[end..|text|] == s[..|text|][end..];
  }

  lemma ShiftedEnd(s: string, text: string, start: nat, end: nat)
    requires Shifted(s, text, start, end, |text|)
    ensures s[..start + (|text| - end)] == text[..start] + text[end..]
  {
    assert text[end..|text|] == text[end..];
  }

  lemma ShiftedClean(text: string, start: nat, end: nat)
    requires NUL !in text && start <= end <= |text|
    ensures NUL !in text[..start] + text[end..]
  {
  }

  /** The characters from `end` up to `from` have been moved to `start`. */
  ghost predicate Shifted(s: string, text: string, start: nat, end: nat, from: nat) {
    && start <= end <= from <= |text| <= |s|
    && s[..start + (from - end)] == text[..start] + text[end..from]
    && s[from..|text|] == text[from..]
  }

  lemma ShiftedStep(s: string, text: string, start: nat, end: nat, from: nat)
    requires Shifted(s, text, start, end, from) && from < |text|
    ensures Shifted(s[start + (from - end) := s[from]], text, start, end, from + 1)
  {
    var to := start + (from - end);
    var s' := s[to := s[from]];
    assert s[from] == s[from..|text|][0] == text[from];
    assert s'[..to + 1] == s[..to] + [text[from]];
    assert text[end..from + 1] == text[end..from] + [text[from]];
    assert s'[from + 1..|text|] == s[from..|text|][1..];
  }

  lemma Mismatch(text: string, pat: string, k: nat, i: nat)
    requires i < |pat| && (k + i < |text| ==> text[k + i] != pat[i])
    ensures !Occurs(text, pat, k)
  {
    if k + |pat| <= |text| {
      assert text[k..k + |pat|][i] == text[k + i];
    }
  }

  /** `locate_login_path`: the first line that begins with the path's header. */
  method Locate(buf: DynamicString, name: string, ghost lines: seq<string>) returns (r: Option<nat>, ghost i: nat)
    requires buf.Valid() && GoodLines(lines) && buf.Text() == Join(lines) && GoodLine(name)
    ensures i == SectionStart(lines, name)
    ensures r == if i == |lines| then None else Some(Start(lines, i))
  {
    hide Join, Start, Occurs, Header, FirstFrom;
    HeaderGood(name);
    var header := Header(name);
    var at := buf.StrStr(0, header);
    StartEnd(lines);
    if at == Some(0) {
      i := 0;
      r := Some(0);
      assert |lines| > 0 by { JoinNonEmpty(lines, header); }
      OccursAtLine(lines, 0, header);
    } else {
      assert !Occurs(buf.Text(), header, 0);
      var found := buf.StrStr(0, "\n" + header);
      assert buf.Text() == Join(lines);
      r, i := After(found, header, lines);
    }
    FirstIs(lines, header, 0, i);
  }

  /** A hit for a newline and a header names the line after that newline. */
  method After(found: Option<nat>, header: string, ghost lines: seq<string>) returns (r: Option<nat>, ghost i: nat)
    requires GoodLines(lines) && GoodLine(header) && !Occurs(Join(lines), header, 0)
    requires found.Some? ==>
               && Occurs(Join(lines), "\n" + header, found.value)
               && forall k :: 0 <= k < found.value ==> !Occurs(Join(lines), "\n" + header, k)
    requires found.None? ==> forall k: nat :: !Occurs(Join(lines), "\n" + header, k)
    ensures FirstWith(lines, header, 0, i)
    ensures r == if i == |lines| then None else Some(Start(lines, i))
  {
    hide Join, Start, Occurs;
    StartEnd(lines);
    assert lines != [] ==> !(header <= lines[0]) by {
      if lines != [] {
        OccursAtLine(lines, 0, header);
      }
    }
    if found.Some? {
      assert lines != [] by { JoinNonEmpty(lines, "\n" + header); }
      FindsLine(lines, 0, header, found.value);
      i :| 0 < i < |lines| && Start(lines, i) == found.value + 1 && header <= lines[i];
      r := Some(found.value + 1);
    } else {
      i := |lines|;
      r := None;
    }
    forall j | 0 < j < i
      ensures !(header <= lines[j])
    {
      if header <= lines[j] {
        LineIsFound(lines, j, header);
        if found.Some? {
          StartMonotone(lines, j, i);
        }
      }
    }
  }

  lemma JoinNonEmpty(lines: seq<string>, pat: string)
    requires pat != [] && exists k: nat :: Occurs(Join(lines), pat, k)
    ensures lines != []
  {
  }

  /** The end of a path: the next header, or the end of the text. */
  method NextHeader(buf: DynamicString, start: nat, ghost lines: seq<string>, ghost i: nat)
    returns (r: Option<nat>, ghost j: nat)
    requires buf.Valid() && GoodLines(lines) && buf.Text() == Join(lines) && i < |lines| && start == Start(lines, i)
    ensures j == SectionEnd(lines, i)
    ensures Start(lines, j) > 0 && (j == |lines| ==> Start(lines, j) == buf.length)
    ensures r == if j == |lines| then None else Some(Start(lines, j) - 1)
  {
    hide Join, Start, Occurs, FirstFrom;
    StartEnd(lines);
    StartMonotone(lines, i, |lines|);
    r := buf.StrStr(start, "\n[");
    assert "\n[" == "\n" + "[";
    if r.Some? {
      FindsLine(lines, i, "[", r.value);
      j :| i < j < |lines| && Start(lines, j) == r.value + 1 && "[" <= lines[j];
    } else {
      j := |lines|;
    }
    StartMonotone(lines, i, j);
    forall m | i < m < j
      ensures !("[" <= lines[m])
    {
      if "[" <= lines[m] {
        LineIsFound(lines, m, "[");
        StartMonotone(lines, i, m);
        assert Occurs(buf.Text(), "\n[", Start(lines, m) - 1);
        if r.Some? {
          StartMonotone(lines, m, j);
        }
      }
    }
    FirstIs(lines, "[", i + 1, j);
  }

  /** `remove_login_path`: the path's lines are cut out. */
  method RemoveLoginPath(buf: DynamicString, name: string, ghost lines: seq<string>)
    requires buf.Valid() && GoodLines(lines) && buf.Text() == Join(lines) && GoodLine(name)
    modifies buf, buf.str
    ensures buf.Valid() && buf.str == old(buf.str) && buf.Text() == Join(WithoutSection(lines, name))
  {
    hide Join, Start, Header, GoodLine, FirstFrom;
    var at, i := Locate(buf, name, lines);
    if at.None? {
      return;
    }
    assert buf.Text() == Join(lines);
    var start := at.value;
    var end, j := NextHeader(buf, start, lines, i);
    CutLines(lines, i, j);
    StartEnd(lines);
    if end.Some? {
      buf.Shift(start, end.value + 1);
    } else {
      buf.Truncate(start);
    }
  }

  /** "Move to next line": the inner loop of the option search. */
  method SkipLine(buf: DynamicString, start: nat, searchLen: nat) returns (start': nat, searchLen': nat)
    requires buf.Valid() && searchLen > 1 && start + searchLen <= buf.length
    ensures 1 <= searchLen' < searchLen
    ensures searchLen' == 1 ==> forall p :: start < p < start + searchLen - 1 ==> buf.Text()[p] != '\n'
    ensures searchLen' > 1 ==>
              && start' + searchLen' == start + searchLen && start < start' && buf.Text()[start'] == '\n'
              && forall p :: start < p < start' ==> buf.Text()[p] != '\n'
  {
    start', searchLen' := start, searchLen;
    while true
      invariant start <= start' && searchLen' > 1 && start' + searchLen' == start + searchLen
      invariant forall p :: start < p <= start' ==> buf.Text()[p] != '\n'
      decreases searchLen'
    {
      searchLen' := searchLen' - 1;
      if searchLen' <= 1 {
        return;
      }
      start' := start' + 1;
      if buf.str[start'] == '\n' {
        return;
      }
    }
  }

  method FindNewline(buf: DynamicString, from: nat) returns (end: nat)
    requires buf.Valid() && exists p :: from < p < buf.length && buf.Text()[p] == '\n'
    ensures from < end < buf.length && buf.Text()[end] == '\n'
    ensures forall p :: from < p < end ==> buf.Text()[p] != '\n'
  {
    end := from + 1;
    while buf.str[end] != '\n'
      invariant from < end < buf.length
      invariant forall p :: from < p < end ==> buf.Text()[p] != '\n'
      decreases buf.length - end
    {
      end := end + 1;
    }
  }

  /** Where the search for an option stands: at the header of line `i`, or at the
      newline in front of line `m`. */
  ghost predicate Standing(lines: seq<string>, i: nat, m: nat, start: nat) {
    && i <= m < |lines|
    && if m == i then start == Start(lines, i) else start + 1 == Start(lines, m)
  }

  /** The first newline after such a position ends line `m`. */
  lemma NextNewline(lines: seq<string>, i: nat, m: nat, start: nat, p: nat)
    requires GoodLines(lines) && Standing(lines, i, m, start) && lines[i] != []
    ensures start < Start(lines, m + 1) - 1 < |Join(lines)| && Join(lines)[Start(lines, m + 1) - 1] == '\n'
    ensures start < p < |Join(lines)| && Join(lines)[p] == '\n' ==> Start(lines, m + 1) - 1 <= p
  {
    hide Join, Start;
    StartNext(lines, m);
    var a, b := Start(lines, m), Start(lines, m + 1);
    assert Join(lines)[a..b][|lines[m]|] == '\n';
    assert Join(lines)[b - 1] == Join(lines)[a..b][b - 1 - a];
    assert GoodLine(lines[m]);
    if start < p < |Join(lines)| && Join(lines)[p] == '\n' {
      var x := NewlineEndsLine(lines, p);
      if x < m {
        StartMonotone(lines, x + 1, m);
      } else {
        StartMonotone(lines, m + 1, x + 1);
      }
    }
  }

  /** Cutting from the newline before a line to its own removes the line. */
  lemma CutOneLine(lines: seq<string>, m: nat)
    requires GoodLines(lines) && 0 < m < |lines|
    ensures 0 < Start(lines, m) < Start(lines, m + 1) <= |Join(lines)|
    ensures Join(lines)[..Start(lines, m) - 1] + Join(lines)[Start(lines, m + 1) - 1..] == Join(lines[..m] + lines[m + 1..])
  {
    hide Join, Start;
    CutLines(lines, m, m + 1);
    StartNext(lines, m - 1);
    StartNext(lines, m);
    var text, a, b := Join(lines), Start(lines, m), Start(lines, m + 1);
    var z := Start(lines, m - 1);
    assert text[z..a][a - 1 - z] == '\n' && text[z..a][a - 1 - z] == text[a - 1];
    assert text[a..b][b - 1 - a] == '\n' && text[a..b][b - 1 - a] == text[b - 1];
    assert text[..a] == text[..a - 1] + [text[a - 1]];
    assert text[b - 1..] == [text[b - 1]] + text[b..];
  }

  /** The search for the option, by lines: the first line of the path that begins
      with the name, or the end of the path. */
  method FindOption(buf: DynamicString, start0: nat, searchLen0: nat, option: string,
                    ghost lines: seq<string>, ghost i: nat, ghost j: nat)
    returns (found: bool, start: nat, ghost m: nat)
    requires buf.Valid() && GoodLines(lines) && buf.Text() == Join(lines) && GoodLine(option) && option != []
    requires i < j <= |lines| && start0 == Start(lines, i) && |lines[i]| >= 2
    requires start0 + searchLen0 == if j == |lines| then buf.length else Start(lines, j) - 1
    ensures FirstWith(lines[..j], option, i + 1, m) && found == (m < j)
    ensures found ==> start + 1 == Start(lines, m)
  {
    hide Join, Start, Occurs;
    start := start0;
    var searchLen := searchLen0;
    ghost var stop := start0 + searchLen0;
    StartEnd(lines);
    StartMonotone(lines, j, |lines|);
    m := i;
    InPath(lines, i, j, i, start, stop);
    assert buf.Text() == Join(lines);
    while searchLen > 1
      invariant 1 <= searchLen
      invariant searchLen > 1 ==> Standing(lines, i, m, start) && m < j && start + searchLen == stop
      invariant searchLen > 1 ==> forall x :: i < x < m ==> !(option <= lines[x])
      invariant searchLen == 1 ==> forall x :: i < x < j ==> !(option <= lines[x])
      decreases searchLen
    {
      var matched := buf.Matches(start, "\n" + option);
      AtOption(lines, i, m, start, option);
      if matched {
        found := true;
        return;
      }
      ghost var start1 := start;
      start, searchLen := SkipLine(buf, start, searchLen);
      assert buf.Text() == Join(lines);
      NextNewline(lines, i, m, start1, start);
      if searchLen > 1 {
        InPath(lines, i, j, m + 1, start, stop);
        m := m + 1;
      } else if m + 1 < j {
        InPath(lines, i, j, m + 1, Start(lines, m + 1) - 1, stop);
      }
    }
    found := false;
    m := j;
  }

  /** A position of the search is inside the path as long as something is left; only an
      empty last line is passed over. */
  lemma InPath(lines: seq<string>, i: nat, j: nat, m: nat, start: nat, stop: nat)
    requires GoodLines(lines) && i < j <= |lines| && i <= m <= j && |lines[i]| >= 2
    requires if m == i then start == Start(lines, i) else start + 1 == Start(lines, m)
    requires stop == if j == |lines| then |Join(lines)| else Start(lines, j) - 1
    ensures start + 1 < stop ==> m < j
    ensures m < j && stop <= start + 1 ==> m + 1 == j && lines[m] == []
  {
    hide Join, Start, GoodLine;
    StartEnd(lines);
    if m < j {
      StartNext(lines, m);
      StartMonotone(lines, m + 1, j);
    }
  }

  /** The option is matched at its newline only, as a prefix of the line. */
  lemma AtOption(lines: seq<string>, i: nat, m: nat, start: nat, option: string)
    requires GoodLines(lines) && Standing(lines, i, m, start) && lines[i] != [] && GoodLine(option)
    ensures Occurs(Join(lines), "\n" + option, start) <==> i < m && option <= lines[m]
  {
    hide Join, Start, Occurs;
    OccursCons(Join(lines), '\n', option, start);
    StartNext(lines, m);
    assert GoodLine(lines[m]);
    if m == i {
      var a, b := Start(lines, m), Start(lines, m + 1);
      assert Join(lines)[a] == Join(lines)[a..b][0] == lines[m][0];
      assert lines[m][0] in lines[m];
    } else {
      OccursAtLine(lines, m, option);
      StartNext(lines, m - 1);
      var a, b := Start(lines, m - 1), Start(lines, m);
      assert Join(lines)[a..b][b - 1 - a] == '\n' && Join(lines)[a..b][b - 1 - a] == Join(lines)[b - 1];
    }
  }

  /** `remove_option`: the first line of the path that begins with the option's name
      is cut out; everything else keeps its text and order. */
  method RemoveOption(buf: DynamicString, name: string, option: string, ghost lines: seq<string>)
    requires buf.Valid() && GoodLines(lines) && buf.Text() == Join(lines) && GoodLine(name)
    requires GoodLine(option) && option != []
    modifies buf, buf.str
    ensures buf.Valid() && buf.str == old(buf.str) && buf.Text() == Join(WithoutEntry(lines, name, option))
  {
    hide Join, Start, Header, GoodLine, FirstFrom;
    var at, i := Locate(buf, name, lines);
    if at.None? {
      return;
    }
    assert buf.Text() == Join(lines);
    var end, j := NextHeader(buf, at.value, lines, i);
    assert buf.Text() == Join(lines);
    StartMonotone(lines, i, j);
    StartEnd(lines);
    assert |lines[i]| >= 2 by { HeaderLong(name, lines[i]); }
    var searchLen := if end.Some? then end.value - at.value else buf.length - at.value;
    var found, start, m := FindOption(buf, at.value, searchLen, option, lines, i, j);
    FirstIs(lines[..j], option, i + 1, m);
    if found {
      assert buf.Text() == Join(lines);
      CutLine(buf, start, lines, i, m);
    }
  }

  lemma HeaderLong(name: string, line: string)
    requires Header(name) <= line
    ensures |line| >= 2
  {
  }

  /** The line whose newline is at `start` is shifted away. */
  method CutLine(buf: DynamicString, start: nat, ghost lines: seq<string>, ghost i: nat, ghost m: nat)
    requires buf.Valid() && GoodLines(lines) && buf.Text() == Join(lines)
    requires i < m && Standing(lines, i, m, start) && lines[i] != []
    modifies buf, buf.str
    ensures buf.Valid() && buf.str == old(buf.str) && buf.Text() == Join(lines[..m] + lines[m + 1..])
  {
    hide Join, Start;
    NextNewline(lines, i, m, start, start);
    var last := FindNewline(buf, start);
    assert buf.Text() == Join(lines);
    NextNewline(lines, i, m, start, last);
    assert last == Start(lines, m + 1) - 1;
    CutOneLine(lines, m);
    buf.Shift(start, last);
  }
}
