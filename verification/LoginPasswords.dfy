/** Which password lines `print` of `mysql_config_editor.cc` masks, by lines, and which
    edits keep it masking all. */
module LoginPasswords {
  import opened Optional
  import opened LoginText
  import opened LoginStore
  import opened LoginSections
  import opened LoginCommands

  const PASSWORD := "password = "
  const STARS := "password = *****"

  predicate IsPassword(line: string) {
    PASSWORD <= line
  }

  /** A line as it is meant to be printed. */
  function Masked(line: string): string {
    if IsPassword(line) then STARS else line
  }

  function MaskedLines(lines: seq<string>): (r: seq<string>)
    ensures |r| == |lines|
  {
    seq(|lines|, i requires 0 <= i < |lines| => Masked(lines[i]))
  }

  /** No two passwords follow each other, and the first line is none. */
  predicate Apart(lines: seq<string>) {
    && (lines != [] ==> !IsPassword(lines[0]))
    && forall i, j :: 0 <= i && j == i + 1 < |lines| ==> !(IsPassword(lines[i]) && IsPassword(lines[j]))
  }

  /** At most one line is a password. */
  predicate OnePassword(lines: seq<string>) {
    forall i, j :: 0 <= i < j < |lines| ==> !(IsPassword(lines[i]) && IsPassword(lines[j]))
  }

  // ---------------------------------------------------------------------------
  // What the loop does, by lines

  /** The first password after line `i`: the search needs the newline before it. */
  function NextPassword(lines: seq<string>, i: nat): (j: nat)
    requires i <= |lines|
    ensures i <= j <= |lines| && (i < |lines| ==> FirstWith(lines, PASSWORD, i + 1, j))
    decreases |lines| - i
  {
    if i >= |lines| - 1 then |lines|
    else if IsPassword(lines[i + 1]) then i + 1
    else NextPassword(lines, i + 1)
  }

  /** The lines printed for those from `i` on; without `all` only one is masked. */
  function Shown(lines: seq<string>, i: nat, all: bool): seq<string>
    requires i <= |lines|
    decreases |lines| - i
  {
    var j := NextPassword(lines, i);
    if j == |lines| then lines[i..]
    else lines[i..j] + ([STARS] + if all then Shown(lines, j + 1, all) else lines[j + 1..])
  }

  /** The last line is masked. */
  predicate HidesLast(lines: seq<string>, i: nat, all: bool)
    requires i <= |lines|
    decreases |lines| - i
  {
    var j := NextPassword(lines, i);
    j < |lines| && (j == |lines| - 1 || (all && HidesLast(lines, j + 1, all)))
  }

  lemma ShownStep(lines: seq<string>, i: nat, all: bool)
    requires i <= |lines|
    ensures var j := NextPassword(lines, i);
            Shown(lines, i, all) ==
            if j == |lines| then lines[i..]
            else lines[i..j] + ([STARS] + if all then Shown(lines, j + 1, all) else lines[j + 1..])
  {
    hide NextPassword;
  }

  lemma PasswordAt(lines: seq<string>, i: nat)
    requires i < |lines|
    ensures var j := NextPassword(lines, i);
            && i < j <= |lines| && (j < |lines| ==> IsPassword(lines[j]))
            && forall k :: i < k < j ==> !IsPassword(lines[k])
  {
    hide NextPassword;
  }

  /** Lines up to `j` without a password, then one, then the rest. */
  lemma MaskedParts(lines: seq<string>, i: nat, j: nat)
    requires i <= j <= |lines| && (forall k :: i <= k < j ==> !IsPassword(lines[k]))
    requires j < |lines| ==> IsPassword(lines[j])
    ensures var masked := MaskedLines(lines);
            masked[i..] == if j == |lines| then lines[i..j] else lines[i..j] + ([STARS] + masked[j + 1..])
  {
    hide IsPassword;
    var masked := MaskedLines(lines);
    assert masked[i..j] == lines[i..j];
    if j < |lines| {
      assert masked[i..] == masked[i..j] + ([masked[j]] + masked[j + 1..]);
    }
  }

  lemma {:induction false} ShownIsMasked(lines: seq<string>, i: nat)
    requires i <= |lines| && Apart(lines) && (i < |lines| ==> !IsPassword(lines[i]))
    ensures Shown(lines, i, true) == MaskedLines(lines)[i..]
    decreases |lines| - i
  {
    hide IsPassword, NextPassword, MaskedLines, FirstWith, Shown, Apart;
    ShownStep(lines, i, true);
    WholeSlices(lines, i);
    if i < |lines| {
      var j := NextPassword(lines, i);
      PasswordAt(lines, i);
      MaskedParts(lines, i, j);
      if j < |lines| {
        ApartAt(lines, j);
        ShownIsMasked(lines, j + 1);
      }
    }
  }

  lemma ApartAt(lines: seq<string>, j: nat)
    requires Apart(lines) && j < |lines| && IsPassword(lines[j])
    ensures j + 1 < |lines| ==> !IsPassword(lines[j + 1])
  {
    hide IsPassword;
  }

  /** With one password, masking one is masking all. */
  lemma ShownOnce(lines: seq<string>)
    requires lines != [] && !IsPassword(lines[0]) && OnePassword(lines)
    ensures Shown(lines, 0, false) == MaskedLines(lines)
  {
    hide IsPassword, NextPassword, MaskedLines, FirstWith, Shown, OnePassword;
    ShownStep(lines, 0, false);
    var j := NextPassword(lines, 0);
    PasswordAt(lines, 0);
    MaskedParts(lines, 0, j);
    WholeSlices(lines, j);
    WholeSlices(MaskedLines(lines), j);
    if j < |lines| {
      OnlyPassword(lines, j);
      MaskedParts(lines, j + 1, |lines|);
      WholeSlices(lines, j + 1);
    }
  }

  lemma OnlyPassword(lines: seq<string>, j: nat)
    requires OnePassword(lines) && j < |lines| && IsPassword(lines[j])
    ensures forall k :: j < k < |lines| ==> !IsPassword(lines[k])
  {
    hide IsPassword;
  }

  lemma WholeSlices(lines: seq<string>, j: nat)
    requires j <= |lines|
    ensures lines[0..] == lines && lines[j..|lines|] == lines[j..] && lines[0..|lines|] == lines
  {
  }

  /** Lines that are shown masked, none of which is the mask already. */
  lemma {:induction false} MaskedIsApart(lines: seq<string>, i: nat)
    requires i <= |lines| && STARS !in lines && Shown(lines, i, true) == MaskedLines(lines)[i..]
    ensures i < |lines| ==> !IsPassword(lines[i])
    ensures forall a, b :: i <= a && b == a + 1 < |lines| ==> !(IsPassword(lines[a]) && IsPassword(lines[b]))
    decreases |lines| - i
  {
    hide IsPassword, NextPassword, MaskedLines, FirstWith, Shown;
    if i < |lines| {
      var j := NextPassword(lines, i);
      ShownStep(lines, i, true);
      PasswordAt(lines, i);
      FirstInClear(lines, i, true);
      MaskedParts(lines, i, j);
      if j < |lines| {
        RestEqual(lines[i..j] + [STARS], Shown(lines, j + 1, true), MaskedLines(lines)[j + 1..]);
        MaskedIsApart(lines, j + 1);
      }
    }
  }

  /** The first line is never masked. */
  lemma FirstInClear(lines: seq<string>, i: nat, all: bool)
    requires i < |lines| && STARS !in lines && Shown(lines, i, all) == MaskedLines(lines)[i..]
    ensures !IsPassword(lines[i])
  {
    hide IsPassword, NextPassword, FirstWith, Shown;
    ShownStep(lines, i, all);
    PasswordAt(lines, i);
    assert Shown(lines, i, all)[0] == lines[i] && MaskedLines(lines)[i..][0] == Masked(lines[i]);
    assert lines[i] in lines;
  }

  lemma RestEqual(a: seq<string>, b: seq<string>, c: seq<string>)
    requires a + b == a + c
    ensures b == c
  {
    assert b == (a + b)[|a|..] && c == (a + c)[|a|..];
  }

  /** `print --all` masks every password if and only if no two follow each other and
      none is first. */
  lemma ShowsAllIff(lines: seq<string>)
    requires STARS !in lines
    ensures Shown(lines, 0, true) == MaskedLines(lines) <==> Apart(lines)
  {
    hide Shown, MaskedLines, IsPassword;
    assert MaskedLines(lines)[0..] == MaskedLines(lines);
    if Apart(lines) {
      ShownIsMasked(lines, 0);
    } else if Shown(lines, 0, true) == MaskedLines(lines) {
      MaskedIsApart(lines, 0);
    }
  }

  /** `print` of one path masks every password if and only if there is only one, and it
      is not first. */
  lemma ShowsOneIff(lines: seq<string>)
    requires STARS !in lines
    ensures Shown(lines, 0, false) == MaskedLines(lines) <==>
            OnePassword(lines) && (lines != [] ==> !IsPassword(lines[0]))
  {
    hide IsPassword, MaskedLines, Shown, OnePassword;
    if lines == [] {
      NoneShown(lines);
    } else if OnePassword(lines) && !IsPassword(lines[0]) {
      ShownOnce(lines);
    } else if Shown(lines, 0, false) == MaskedLines(lines) {
      MaskedIsOne(lines);
    }
  }

  lemma NoneShown(lines: seq<string>)
    requires lines == []
    ensures Shown(lines, 0, false) == MaskedLines(lines) && OnePassword(lines)
  {
  }

  lemma MaskedIsOne(lines: seq<string>)
    requires lines != [] && STARS !in lines && Shown(lines, 0, false) == MaskedLines(lines)
    ensures OnePassword(lines) && !IsPassword(lines[0])
  {
    hide IsPassword, NextPassword, MaskedLines, FirstWith, Shown;
    var j, masked := NextPassword(lines, 0), MaskedLines(lines);
    ShownStep(lines, 0, false);
    PasswordAt(lines, 0);
    WholeSlices(masked, j);
    FirstInClear(lines, 0, false);
    if j < |lines| {
      MaskedParts(lines, 0, j);
      assert lines[0..j] + [STARS] + lines[j + 1..] == lines[0..j] + ([STARS] + lines[j + 1..]);
      assert lines[0..j] + [STARS] + masked[j + 1..] == lines[0..j] + ([STARS] + masked[j + 1..]);
      RestEqual(lines[0..j] + [STARS], lines[j + 1..], masked[j + 1..]);
      ClearRest(lines, j + 1);
    }
  }

  lemma ClearRest(lines: seq<string>, i: nat)
    requires i <= |lines| && STARS !in lines && lines[i..] == MaskedLines(lines)[i..]
    ensures forall k :: i <= k < |lines| ==> !IsPassword(lines[k])
  {
    hide IsPassword;
    forall k | i <= k < |lines|
      ensures !IsPassword(lines[k])
    {
      assert lines[i..][k - i] == lines[k] && MaskedLines(lines)[i..][k - i] == Masked(lines[k]);
      assert lines[k] in lines;
    }
  }

  // ---------------------------------------------------------------------------
  // One password in each path

  /** No path has two passwords; `seen` if there was one in the path at hand. */
  predicate OneEach(lines: seq<string>, seen: bool)
    decreases lines
  {
    lines == [] ||
    if IsHeader(lines[0]) then OneEach(lines[1..], false)
    else if IsPassword(lines[0]) then !seen && OneEach(lines[1..], true)
    else OneEach(lines[1..], seen)
  }

  /** Then `print --all` masks them all. */
  lemma {:induction false} OneEachApart(lines: seq<string>, seen: bool)
    requires OneEach(lines, seen)
    ensures seen && lines != [] ==> !IsPassword(lines[0])
    ensures forall i, j :: 0 <= i && j == i + 1 < |lines| ==> !(IsPassword(lines[i]) && IsPassword(lines[j]))
  {
    hide IsPassword;
    if lines != [] {
      if IsHeader(lines[0]) {
        HeaderNoPassword(lines[0]);
      }
      var rest := lines[1..];
      OneEachApart(rest, if IsHeader(lines[0]) then false else if IsPassword(lines[0]) then true else seen);
      assert forall i :: 0 < i < |lines| ==> lines[i] == rest[i - 1];
    }
  }

  lemma HeaderNoPassword(line: string)
    requires IsHeader(line)
    ensures !IsPassword(line)
  {
    assert line[0] == '[';
  }

  /** And `print` of one path masks its password. */
  lemma {:induction false} OneEachInPath(lines: seq<string>, seen: bool, n: nat)
    requires OneEach(lines, seen) && n <= |lines| && forall k :: 0 <= k < n ==> !IsHeader(lines[k])
    ensures OnePassword(lines[..n]) && (seen ==> forall k :: 0 <= k < n ==> !IsPassword(lines[k]))
  {
    hide IsPassword;
    if n > 0 {
      var rest := lines[1..];
      OneEachInPath(rest, seen || IsPassword(lines[0]), n - 1);
      assert forall k :: 0 < k < n ==> lines[k] == rest[k - 1] == rest[..n - 1][k - 1];
    }
  }

  lemma {:induction false} OneEachWeaker(lines: seq<string>, seen: bool)
    requires OneEach(lines, seen)
    ensures OneEach(lines, false)
  {
    hide IsPassword, IsHeader;
    if lines != [] && !IsHeader(lines[0]) && !IsPassword(lines[0]) {
      OneEachWeaker(lines[1..], seen);
    }
  }

  lemma {:induction false} OneEachConcat(a: seq<string>, b: seq<string>, seen: bool)
    requires b != [] ==> IsHeader(b[0])
    ensures OneEach(a + b, seen) <==> OneEach(a, seen) && OneEach(b, false)
    decreases a
  {
    hide IsPassword, IsHeader;
    if a == [] {
      assert a + b == b;
    } else {
      assert (a + b)[0] == a[0] && (a + b)[1..] == a[1..] + b;
      OneEachConcat(a[1..], b, if IsHeader(a[0]) then false else if IsPassword(a[0]) then true else seen);
    }
  }

  lemma {:induction false} OneEachDrop(lines: seq<string>, seen: bool, m: nat)
    requires OneEach(lines, seen) && m < |lines| && !IsHeader(lines[m])
    ensures OneEach(lines[..m] + lines[m + 1..], seen)
    decreases lines
  {
    hide IsPassword, IsHeader;
    var left := lines[..m] + lines[m + 1..];
    if m == 0 {
      assert left == lines[1..];
      if IsPassword(lines[0]) {
        OneEachWeaker(lines[1..], true);
      }
    } else {
      var rest := lines[1..];
      OneEachDrop(rest, if IsHeader(lines[0]) then false else if IsPassword(lines[0]) then true else seen, m - 1);
      assert left[0] == lines[0] && left[1..] == rest[..m - 1] + rest[m..];
    }
  }

  lemma WithoutSectionOne(lines: seq<string>, name: string)
    requires OneEach(lines, false)
    ensures OneEach(WithoutSection(lines, name), false)
  {
    hide OneEach, FirstFrom, Header, IsPassword;
    var i := SectionStart(lines, name);
    if i < |lines| {
      var j := SectionEnd(lines, i);
      HeaderIsHeader(name, lines[i]);
      assert lines == lines[..i] + lines[i..] && lines[i..] == lines[i..j] + lines[j..];
      OneEachConcat(lines[..i], lines[i..], false);
      OneEachConcat(lines[i..j], lines[j..], false);
      OneEachConcat(lines[..i], lines[j..], false);
    }
  }

  lemma WithoutEntryOne(lines: seq<string>, name: string, option: string)
    requires OneEach(lines, false)
    ensures OneEach(WithoutEntry(lines, name, option), false)
  {
    hide OneEach, FirstFrom, Header, IsPassword;
    var i := SectionStart(lines, name);
    if i < |lines| {
      var j := SectionEnd(lines, i);
      var m := FirstFrom(lines[..j], option, i + 1);
      if m < j {
        assert !IsHeader(lines[m]);
        OneEachDrop(lines, false, m);
      }
    }
  }

  /** `remove` keeps it. */
  lemma RemoveKeepsOne(lines: seq<string>, name: string, r: Removal)
    requires OneEach(lines, false)
    ensures OneEach(RemovedLines(lines, name, r), false)
  {
    hide OneEach, WithoutEntry, WithoutSection;
    WithoutSectionOne(lines, name);
    var l1 := WithoutEntryIf(lines, r.user, name, "user");
    var l2 := WithoutEntryIf(l1, r.password, name, "password");
    var l3 := WithoutEntryIf(l2, r.host, name, "host");
    var l4 := WithoutEntryIf(l3, r.socket, name, "socket");
    WithoutEntryOne(lines, name, "user");
    WithoutEntryOne(l1, name, "password");
    WithoutEntryOne(l2, name, "host");
    WithoutEntryOne(l3, name, "socket");
    WithoutEntryOne(l4, name, "port");
  }

  /** `set` keeps it if and only if the lines it writes have it. */
  lemma SetKeepsOne(lines: seq<string>, name: string, login: Login)
    requires OneEach(lines, false)
    ensures OneEach(SetLines(lines, name, login), false) <==> OneEach(LoginLines(login), false)
  {
    hide OneEach, WithoutSection, LoginLines;
    WithoutSectionOne(lines, name);
    var path := [Header(name)] + LoginLines(login);
    assert path[1..] == LoginLines(login);
    OneEachConcat(WithoutSection(lines, name), path, false);
    OneEachHeader(path);
  }

  lemma OneEachHeader(lines: seq<string>)
    requires lines != [] && IsHeader(lines[0])
    ensures OneEach(lines, false) <==> OneEach(lines[1..], false)
  {
    hide IsPassword, IsHeader;
  }

  // ---------------------------------------------------------------------------
  // Which logins write one password

  function Passwords(lines: seq<string>): nat {
    if lines == [] then 0 else (if IsPassword(lines[0]) then 1 else 0) + Passwords(lines[1..])
  }

  lemma {:induction false} PasswordsConcat(a: seq<string>, b: seq<string>)
    ensures Passwords(a + b) == Passwords(a) + Passwords(b)
  {
    hide IsPassword;
    if a == [] {
      assert a + b == b;
    } else {
      assert (a + b)[0] == a[0] && (a + b)[1..] == a[1..] + b;
      PasswordsConcat(a[1..], b);
    }
  }

  lemma {:induction false} OneEachCounts(lines: seq<string>, seen: bool)
    requires forall l <- lines :: !IsHeader(l)
    ensures OneEach(lines, seen) <==> (if seen then 1 else 0) + Passwords(lines) <= 1
  {
    hide IsPassword, IsHeader;
    if lines != [] {
      assert lines[0] in lines;
      OneEachCounts(lines[1..], seen || IsPassword(lines[0]));
    }
  }

  /** Where the first line of an option ends. */
  function FirstEnd(option: string): (n: nat)
    ensures n <= |option| && '\n' !in option[..n] && (n < |option| ==> option[n] == '\n')
  {
    if option == [] || option[0] == '\n' then 0
    else
      var n := 1 + FirstEnd(option[1..]);
      assert option[..n] == [option[0]] + option[1..][..n - 1];
      n
  }

  /** The lines of an option after its first: a value with newlines makes some. */
  function Continued(option: string): seq<string> {
    var n := FirstEnd(option);
    if n == |option| then [] else SplitLines(option[n + 1..] + "\n", [])
  }

  function AllContinued(options: seq<string>): seq<string> {
    if options == [] then [] else Continued(options[0]) + AllContinued(options[1..])
  }

  lemma {:induction false} SplitConcat(a: string, b: string, line: string)
    requires a != [] && a[|a| - 1] == '\n'
    ensures SplitLines(a + b, line) == SplitLines(a, line) + SplitLines(b, [])
    decreases a
  {
    assert (a + b)[0] == a[0] && (a + b)[1..] == a[1..] + b;
    if a[1..] == [] {
      assert a[1..] + b == b;
    } else {
      SplitConcat(a[1..], b, if a[0] == '\n' then [] else line + [a[0]]);
    }
  }

  lemma OptionSplits(option: string)
    ensures SplitLines(option + "\n", []) == [option[..FirstEnd(option)]] + Continued(option)
  {
    hide FirstEnd, SplitLines;
    NoSplit();
    var n := FirstEnd(option);
    SplitLine(option[..n], [], if n == |option| then "" else option[n + 1..] + "\n");
    CutAt(option, n);
  }

  lemma CutAt(option: string, n: nat)
    requires n <= |option| && (n < |option| ==> option[n] == '\n')
    ensures option[..n] + "\n" + (if n == |option| then "" else option[n + 1..] + "\n") == option + "\n"
    ensures [] + option[..n] == option[..n]
  {
    if n < |option| {
      assert option == option[..n] + ([option[n]] + option[n + 1..]);
    } else {
      assert option[..n] == option;
    }
  }

  /** The first line of an option tells what it is. */
  lemma FirstLineKind(option: string)
    requires option != []
    ensures IsPassword(option[..FirstEnd(option)]) <==> IsPassword(option)
    ensures IsHeader(option[..FirstEnd(option)]) ==> IsHeader(option)
  {
    hide FirstEnd;
    var n := FirstEnd(option);
    var first := option[..n];
    assert '\n' !in PASSWORD;
    if n < |option| {
      PrefixOfLine(first, option[n + 1..], PASSWORD);
      assert option == first + "\n" + option[n + 1..];
    } else {
      assert first == option;
    }
  }

  /** The lines written for options: their first lines and those of their values. */
  lemma {:induction false} OptionsSplit(options: seq<string>)
    requires forall l <- options :: l != [] && !IsHeader(l)
    ensures var lines := SplitLines(Join(options), []);
            && Passwords(lines) == Passwords(options) + Passwords(AllContinued(options))
            && ((forall l <- lines :: !IsHeader(l)) <==> forall l <- AllContinued(options) :: !IsHeader(l))
  {
    hide IsPassword, IsHeader, FirstEnd, Continued, SplitLines;
    NoSplit();
    if options != [] {
      var option, more := options[0], options[1..];
      assert option in options && forall l <- more :: l in options;
      OptionsSplit(more);
      SplitConcat(option + "\n", Join(more), []);
      OptionSplits(option);
      FirstLineKind(option);
      var first := [option[..FirstEnd(option)]];
      var own, rest := first + Continued(option), SplitLines(Join(more), []);
      PasswordsConcat(own, rest);
      PasswordsConcat(first, Continued(option));
      PasswordsConcat(Continued(option), AllContinued(more));
      assert Passwords(first) == Passwords([option]);
      PasswordsConcat([option], more);
      assert [option] + more == options;
      assert first[0] in first + Continued(option);
    }
  }

  lemma NoSplit()
    ensures SplitLines([], []) == []
  {
  }

  /** The lines of a login's values that are not first on theirs. */
  function Overflow(login: Login): seq<string> {
    AllContinued(Options(login))
  }

  /** A login writes one password at most if and only if the password option and the
      passwords among the lines of the values are at most one. */
  lemma LoginWritesOne(login: Login)
    requires forall l <- Overflow(login) :: !IsHeader(l)
    ensures OneEach(LoginLines(login), false) <==>
            (if login.password.Some? then 1 else 0) + Passwords(Overflow(login)) <= 1
  {
    hide IsPassword, Options, AllContinued, SplitLines, Join;
    OptionsNamed(login);
    OptionsSplit(Options(login));
    OptionsCount(login);
    OneEachCounts(LoginLines(login), false);
  }

  lemma OptionsCount(login: Login)
    ensures Passwords(Options(login)) == if login.password.Some? then 1 else 0
  {
    hide QuotedOption, PortOption, IsPassword;
    var user, pass := QuotedOption("user", login.user), QuotedOption("password", login.password);
    var host, socket := QuotedOption("host", login.host), QuotedOption("socket", login.socket);
    var port := PortOption(login.port);
    NotPassword("user", login.user);
    NotPassword("host", login.host);
    NotPassword("socket", login.socket);
    PortNotPassword(login.port);
    PasswordCount(login.password);
    PasswordsConcat(user + pass + host + socket, port);
    PasswordsConcat(user + pass + host, socket);
    PasswordsConcat(user + pass, host);
    PasswordsConcat(user, pass);
  }

  lemma NotPassword(key: string, v: Option<string>)
    requires key == "user" || key == "host" || key == "socket"
    ensures Passwords(QuotedOption(key, v)) == 0
  {
    if v.Some? {
      assert (key + " = " + Quoted(v.value))[0] == key[0];
    }
  }

  lemma PasswordCount(v: Option<string>)
    ensures Passwords(QuotedOption("password", v)) == if v.Some? then 1 else 0
  {
    if v.Some? {
      var line := "password" + " = " + Quoted(v.value);
      assert line == PASSWORD + Quoted(v.value);
    }
  }

  lemma PortNotPassword(v: Option<string>)
    ensures Passwords(PortOption(v)) == 0
  {
    if v.Some? {
      assert ("port = " + v.value)[1] == 'o';
    }
  }

  /** Values without newlines are enough. */
  lemma GoodLoginWritesOne(login: Login)
    requires GoodLogin(login)
    ensures OneEach(LoginLines(login), false)
  {
    hide Options, IsPassword;
    OptionsLack(login, '\n');
    NothingContinued(Options(login));
    LoginWritesOne(login);
  }

  lemma {:induction false} NothingContinued(options: seq<string>)
    requires forall l <- options :: '\n' !in l
    ensures AllContinued(options) == []
  {
    hide FirstEnd;
    if options != [] {
      var option := options[0];
      assert option in options;
      assert forall c <- option :: c != '\n';
      NothingContinued(options[1..]);
    }
  }

  /** A value can write a password line in front of the real one: the loop masks that
      one, skips the newline the next search would need, and the password is shown. */
  lemma ValueShowsPassword(a: string, b: string, secret: string, name: string, all: bool)
    requires GoodLine(a) && GoodLine(b) && GoodLine(secret)
    ensures var login := Login(Some(a + ("\n" + PASSWORD + b)), Some(secret), None, None, None);
            var lines := SetLines([], name, login);
            && |lines| == 4 && lines[3] == "password = " + Quoted(secret)
            && Shown(lines, 0, all) == lines[2 := STARS]
            && !OneEach(lines, false)
  {
    hide LoginLines, Shown, Header, Quoted, Escaped;
    var login := Login(Some(a + ("\n" + PASSWORD + b)), Some(secret), None, None, None);
    var lines := SetLines([], name, login);
    WrittenLines(a, b, secret);
    assert lines == [Header(name)] + LoginLines(login);
    HeaderFirst(name);
    assert (PASSWORD + Escaped(b) + "\"")[..|PASSWORD|] == PASSWORD;
    assert (PASSWORD + Quoted(secret))[..|PASSWORD|] == PASSWORD;
    assert ("user = \"" + Escaped(a))[0] == 'u';
    ShowsSecond(lines, all);
  }

  lemma HeaderFirst(name: string)
    ensures IsHeader(Header(name)) && !IsPassword(Header(name))
  {
    assert Header(name)[0] == '[';
  }

  lemma ShowsSecond(lines: seq<string>, all: bool)
    requires |lines| == 4 && IsHeader(lines[0]) && !IsPassword(lines[0]) && !IsHeader(lines[1]) && !IsPassword(lines[1])
    requires IsPassword(lines[2]) && IsPassword(lines[3])
    ensures Shown(lines, 0, all) == lines[2 := STARS] && !OneEach(lines, false)
  {
    PasswordAt(lines, 0);
    PasswordAt(lines, 3);
    ShownStep(lines, 0, all);
    ShownStep(lines, 3, all);
    OneEachHeader(lines);
    HeaderOrPassword(lines[2]);
    HeaderOrPassword(lines[3]);
    hide IsPassword, IsHeader, Shown, NextPassword;
    assert lines[1..][1..] == lines[2..] && lines[2..][1..] == lines[3..];
    assert !OneEach(lines[3..], true);
  }

  lemma HeaderOrPassword(line: string)
    requires IsPassword(line)
    ensures !IsHeader(line)
  {
    assert line[0] == 'p';
  }

  lemma WrittenLines(a: string, b: string, secret: string)
    requires GoodLine(a) && GoodLine(b) && GoodLine(secret)
    ensures LoginLines(Login(Some(a + ("\n" + PASSWORD + b)), Some(secret), None, None, None)) ==
            ["user = \"" + Escaped(a), PASSWORD + Escaped(b) + "\"", PASSWORD + Quoted(secret)]
  {
    hide SplitLines, Join, GoodLine;
    var u := a + ("\n" + PASSWORD + b);
    var first, second, last := "user = \"" + Escaped(a), PASSWORD + Escaped(b) + "\"", PASSWORD + Quoted(secret);
    QuotedParts(a, b);
    var options := Options(Login(Some(u), Some(secret), None, None, None));
    assert "password" + " = " + Quoted(secret) == last;
    assert options == [first + "\n" + second] + [last];
    JoinConcat([first + "\n" + second], [last]);
    JoinConcat([first], [second] + [last]);
    JoinConcat([second], [last]);
    OneLine(first + "\n" + second);
    OneLine(first);
    OneLine(second);
    var lines := [first] + ([second] + [last]);
    assert first + "\n" + second + "\n" == first + "\n" + (second + "\n");
    assert Join(options) == Join(lines);
    PartsGood(a, b, secret);
    SplitJoin(lines);
  }

  lemma QuotedParts(a: string, b: string)
    ensures "user" + " = " + Quoted(a + ("\n" + PASSWORD + b)) ==
            ("user = \"" + Escaped(a)) + "\n" + (PASSWORD + Escaped(b) + "\"")
  {
    hide Escaped;
    EscapedConcat(a, "\n" + PASSWORD + b);
    EscapedConcat("\n" + PASSWORD, b);
    EscapedPlain("\n" + PASSWORD);
    assert "user" + " = " + "\"" == "user = \"";
    Regroup("user" + " = ", "\"", Escaped(a), "\n", PASSWORD, Escaped(b));
  }

  lemma Regroup(key: string, q: string, a: string, n: string, p: string, b: string)
    ensures key + (q + (a + (n + p + b)) + q) == (key + q + a) + n + (p + b + q)
  {
    assert q + (a + (n + p + b)) + q == q + a + n + (p + b + q);
  }

  lemma PartsGood(a: string, b: string, secret: string)
    requires GoodLine(a) && GoodLine(b) && GoodLine(secret)
    ensures GoodLine("user = \"" + Escaped(a)) && GoodLine(PASSWORD + Escaped(b) + "\"") &&
            GoodLine(PASSWORD + Quoted(secret))
  {
    hide Escaped;
    EscapedGood(a);
    EscapedGood(b);
    EscapedGood(secret);
  }

  lemma EscapedGood(v: string)
    requires GoodLine(v)
    ensures GoodLine(Escaped(v))
  {
    EscapedClean(v, '\n');
    EscapedClean(v, NUL);
  }

  // ---------------------------------------------------------------------------
  // Whole runs

  datatype Edit = Set(name: string, login: Login) | Remove(name: string, r: Removal)

  predicate GoodEdit(e: Edit) {
    GoodLine(e.name) && (e.Set? ==> CStrings(e.login))
  }

  function Edited(lines: seq<string>, e: Edit): seq<string> {
    match e
    case Set(name, login) => SetLines(lines, name, login)
    case Remove(name, r) => RemovedLines(lines, name, r)
  }

  function AfterEdits(lines: seq<string>, edits: seq<Edit>): seq<string>
    decreases edits
  {
    if edits == [] then lines else AfterEdits(Edited(lines, edits[0]), edits[1..])
  }

  /** What every run keeps: the text begins with a path; and no path has two passwords
      as long as no login writes two. */
  lemma {:induction false} RunKeeps(lines: seq<string>, edits: seq<Edit>)
    requires Wellformed(lines) && forall e <- edits :: GoodEdit(e)
    ensures Wellformed(AfterEdits(lines, edits))
    ensures OneEach(lines, false) && (forall e <- edits :: e.Set? ==> OneEach(LoginLines(e.login), false)) ==>
              OneEach(AfterEdits(lines, edits), false)
    decreases edits
  {
    hide Wellformed, GoodEdit, OneEach, LoginLines, SetLines, RemovedLines;
    if edits != [] {
      var e := edits[0];
      assert e in edits;
      EditKeeps(lines, e);
      RunKeeps(Edited(lines, e), edits[1..]);
    }
  }

  lemma EditKeeps(lines: seq<string>, e: Edit)
    requires Wellformed(lines) && GoodEdit(e)
    ensures Wellformed(Edited(lines, e))
    ensures OneEach(lines, false) && (e.Set? ==> OneEach(LoginLines(e.login), false)) ==> OneEach(Edited(lines, e), false)
  {
    hide Wellformed, OneEach, LoginLines, SetLines, RemovedLines;
    match e {
      case Set(name, login) =>
        SetKeeps(lines, name, login);
        if OneEach(lines, false) {
          SetKeepsOne(lines, name, login);
        }
      case Remove(name, r) =>
        RemoveKeeps(lines, name, r);
        if OneEach(lines, false) {
          RemoveKeepsOne(lines, name, r);
        }
    }
  }
}
