/** The `set` and `remove` commands of `mysql_config_editor.cc` on the store, and the
    reading of the text back into a store. */
module LoginCommands {
  import opened Optional
  import opened LoginText
  import opened LoginStore
  import opened LoginSections
  import opened LoginEditor

  /** What `set` was given. */
  datatype Login = Login(
    user: Option<string>, password: Option<string>, host: Option<string>, socket: Option<string>, port: Option<string>)

  /** `dynstr_append_quoted` puts a backslash before every quote. */
  function Escaped(v: string): string {
    if v == [] then [] else (if v[0] == '"' then "\\\"" else [v[0]]) + Escaped(v[1..])
  }

  function Quoted(v: string): string {
    "\"" + Escaped(v) + "\""
  }

  function QuotedOption(key: string, v: Option<string>): seq<string> {
    match v
    case None => []
    case Some(s) => [key + " = " + Quoted(s)]
  }

  /** The option lines of a login, in the order in which they are written. */
  function Options(login: Login): seq<string> {
    QuotedOption("user", login.user) + QuotedOption("password", login.password)
    + QuotedOption("host", login.host) + QuotedOption("socket", login.socket)
    + PortOption(login.port)
  }

  function PortOption(v: Option<string>): seq<string> {
    match v case None => [] case Some(p) => ["port = " + p]
  }

  /** A value without the character. */
  predicate Lacks(v: Option<string>, c: char) {
    v.Some? ==> c !in v.value
  }

  predicate AllLack(login: Login, c: char) {
    Lacks(login.user, c) && Lacks(login.password, c) && Lacks(login.host, c) && Lacks(login.socket, c)
    && Lacks(login.port, c)
  }

  /** The values are C strings. */
  predicate CStrings(login: Login) {
    AllLack(login, NUL)
  }

  /** Each value stays on its line. */
  predicate GoodLogin(login: Login) {
    AllLack(login, '\n')
  }

  lemma {:induction false} EscapedClean(v: string, c: char)
    requires c != '\\'
    ensures c in Escaped(v) <==> c in v
  {
    if v != [] {
      EscapedClean(v[1..], c);
      assert v == [v[0]] + v[1..];
    }
  }

  lemma {:induction false} EscapedConcat(a: string, b: string)
    ensures Escaped(a + b) == Escaped(a) + Escaped(b)
  {
    if a == [] {
      assert a + b == b;
    } else {
      assert (a + b)[0] == a[0] && (a + b)[1..] == a[1..] + b;
      EscapedConcat(a[1..], b);
    }
  }

  lemma {:induction false} EscapedPlain(v: string)
    requires '"' !in v
    ensures Escaped(v) == v
  {
    if v != [] {
      EscapedPlain(v[1..]);
    }
  }

  predicate GoodOptions(options: seq<string>) {
    forall i :: 0 <= i < |options| ==> GoodOption(options[i])
  }

  /** Writing a value keeps a control character out of its line, or in. */
  lemma QuotedLacks(key: string, v: Option<string>, c: char)
    requires c !in key && (c == '\n' || c == NUL)
    ensures Lacks(v, c) <==> forall l <- QuotedOption(key, v) :: c !in l
  {
    if v.Some? {
      EscapedClean(v.value, c);
      var line := key + " = " + Quoted(v.value);
      assert c in line <==> c in Escaped(v.value);
    }
  }

  lemma OptionsLack(login: Login, c: char)
    requires c == '\n' || c == NUL
    ensures AllLack(login, c) <==> forall l <- Options(login) :: c !in l
  {
    QuotedLacks("user", login.user, c);
    QuotedLacks("password", login.password, c);
    QuotedLacks("host", login.host, c);
    QuotedLacks("socket", login.socket, c);
    PortLacks(login.port, c);
    hide QuotedOption, PortOption, Lacks;
    var all := Options(login);
    assert forall l :: l in all <==>
      || l in QuotedOption("user", login.user) || l in QuotedOption("password", login.password)
      || l in QuotedOption("host", login.host) || l in QuotedOption("socket", login.socket)
      || l in PortOption(login.port);
  }

  lemma PortLacks(v: Option<string>, c: char)
    requires c == '\n' || c == NUL
    ensures Lacks(v, c) <==> forall l <- PortOption(v) :: c !in l
  {
    if v.Some? {
      assert c in "port = " + v.value <==> c in v.value;
    }
  }

  /** Every line begins with its name. */
  lemma OptionsNamed(login: Login)
    ensures forall l <- Options(login) :: l != [] && l[0] != '['
  {
    assert forall k <- ["user", "password", "host", "socket"] :: k[0] != '[';
    QuotedNamed("user", login.user);
    QuotedNamed("password", login.password);
    QuotedNamed("host", login.host);
    QuotedNamed("socket", login.socket);
    hide QuotedOption;
    assert login.port.Some? ==> ("port = " + login.port.value)[0] == 'p';
  }

  lemma QuotedNamed(key: string, v: Option<string>)
    requires key != []
    ensures forall l <- QuotedOption(key, v) :: l != [] && l[0] == key[0]
  {
  }

  /** What `set` writes are option lines exactly if no value holds a newline. */
  lemma OptionsGood(login: Login)
    requires CStrings(login)
    ensures GoodOptions(Options(login)) <==> GoodLogin(login)
  {
    hide Options;
    OptionsLack(login, '\n');
    OptionsLack(login, NUL);
    OptionsNamed(login);
    var all := Options(login);
    assert forall i :: 0 <= i < |all| ==> all[i] in all;
  }

  /** The five option names, as `remove` spells them. */
  function OptionName(i: nat): string
    requires i < 5
  {
    if i == 0 then "user" else if i == 1 then "password" else if i == 2 then "host" else if i == 3 then "socket"
    else "port"
  }

  /** Matching a name by prefix never hits the line of another option. */
  lemma NamesPrefixFree(i: nat, j: nat, value: string)
    requires i < 5 && j < 5
    ensures OptionName(i) <= OptionName(j) + " = " + value <==> i == j
  {
    var line := OptionName(j) + " = " + value;
    assert line[0] == OptionName(j)[0] && line[1] == OptionName(j)[1];
    if i == j {
      assert line[..|OptionName(i)|] == OptionName(i);
    } else {
      assert OptionName(i)[0] != line[0] || OptionName(i)[1] != line[1];
    }
  }

  lemma RenderAppend(store: Store, p: Path)
    ensures Render(store + [p]) == Render(store) + Join(PathLines(p))
  {
    hide Join, StoreLines;
    LinesConcat(store, [p]);
    OnePath(p);
    JoinConcat(StoreLines(store), PathLines(p));
  }

  lemma WithoutPathGood(store: Store, name: string)
    requires GoodStore(store)
    ensures GoodStore(WithoutPath(store, name))
    ensures forall i :: 0 <= i < |WithoutPath(store, name)| ==> WithoutPath(store, name)[i].name != name
  {
    hide GoodPath;
    var k := IndexOf(store, name);
    if k < |store| {
      var s := store[..k] + store[k + 1..];
      forall i | 0 <= i < |s|
        ensures GoodPath(s[i]) && s[i].name != name
      {
        assert s[i] == store[if i < k then i else i + 1];
      }
      forall i, j | 0 <= i < j < |s|
        ensures s[i].name != s[j].name
      {
        assert s[i] == store[if i < k then i else i + 1] && s[j] == store[if j < k then j else j + 1];
      }
    }
  }

  lemma WithPathGood(store: Store, p: Path)
    requires GoodStore(store)
    ensures GoodStore(WithPath(store, p)) <==> GoodPath(p)
  {
    hide GoodPath;
    WithoutPathGood(store, p.name);
    var others := WithoutPath(store, p.name);
    assert WithPath(store, p)[|others|] == p;
  }

  lemma {:induction false} WithoutLineGood(options: seq<string>, option: string)
    requires GoodOptions(options)
    ensures GoodOptions(WithoutLine(options, option))
  {
    if options != [] {
      WithoutLineGood(options[1..], option);
    }
  }

  lemma WithoutOptionGood(store: Store, name: string, option: string)
    requires GoodStore(store)
    ensures GoodStore(WithoutOption(store, name, option))
  {
    hide WithoutLine, GoodOption;
    var k := IndexOf(store, name);
    if k < |store| {
      assert GoodPath(store[k]);
      WithoutLineGood(store[k].options, option);
    }
  }

  /** The lines that `set` writes for the options: a value with newlines makes more. */
  function LoginLines(login: Login): seq<string> {
    SplitLines(Join(Options(login)), [])
  }

  /** The lines after `set`: the path is replaced, at the end. */
  function SetLines(lines: seq<string>, name: string, login: Login): seq<string> {
    WithoutSection(lines, name) + ([Header(name)] + LoginLines(login))
  }

  /** `set_command` on the buffer, whatever paths it holds and whatever the values. */
  method SetPath(buf: DynamicString, name: string, login: Login, ghost lines: seq<string>)
    requires buf.Valid() && GoodLines(lines) && buf.Text() == Join(lines) && GoodLine(name) && CStrings(login)
    modifies buf, buf.str
    ensures buf.Valid() && buf.Text() == Join(SetLines(lines, name, login))
  {
    hide Join, Header, Options, GoodLine, WithoutSection, LoginLines;
    var path := PathText(name, login);
    RemoveLoginPath(buf, name, lines);
    buf.Append(path);
    SetText(lines, name, login);
  }

  lemma SetText(lines: seq<string>, name: string, login: Login)
    ensures Join(SetLines(lines, name, login)) ==
            Join(WithoutSection(lines, name)) + Join(PathLines(Path(name, Options(login))))
  {
    hide Join, Header, Options, SplitLines, WithoutSection;
    var options := Options(login);
    JoinConcat(WithoutSection(lines, name), [Header(name)] + LoginLines(login));
    JoinConcat([Header(name)], LoginLines(login));
    JoinConcat([Header(name)], options);
    JoinEnds(options);
    NoText(options);
    JoinSplitLines(Join(options), []);
    assert [] + Join(options) == Join(options);
  }

  lemma NoText(lines: seq<string>)
    ensures lines == [] ==> Join(lines) == []
  {
  }

  /** What `set` keeps. */
  lemma SetKeeps(lines: seq<string>, name: string, login: Login)
    requires Wellformed(lines) && GoodLine(name) && CStrings(login)
    ensures Wellformed(SetLines(lines, name, login))
  {
    hide Join, Options, SplitLines, WithoutSection, GoodLine;
    WithoutSectionKeeps(lines, name);
    HeaderGood(name);
    OptionsLack(login, NUL);
    JoinClean(Options(login));
    SplitGood(Join(Options(login)), []);
  }

  /** On the text of a store `set` is the replacement of the path. The result is the
      text of a store exactly if no value holds a newline. */
  lemma SetIsWithPath(store: Store, name: string, login: Login)
    requires GoodStore(store) && GoodName(name) && CStrings(login)
    ensures Join(SetLines(StoreLines(store), name, login)) == Render(WithPath(store, Path(name, Options(login))))
    ensures GoodStore(WithPath(store, Path(name, Options(login)))) <==> GoodLogin(login)
  {
    hide Join, StoreLines, Header, Options, WithoutSection, GoodOption, GoodLogin;
    OptionsGood(login);
    WithPathGood(store, Path(name, Options(login)));
    SetText(StoreLines(store), name, login);
    WithoutSectionIsWithoutPath(store, name);
    RenderAppend(WithoutPath(store, name), Path(name, Options(login)));
  }

  /** The text that `set_command` builds for the path. */
  method PathText(name: string, login: Login) returns (text: string)
    requires GoodLine(name) && CStrings(login)
    ensures text == Join(PathLines(Path(name, Options(login)))) && NUL !in text
  {
    hide Join, GoodOption, QuotedOption, GoodLine;
    text := "[" + name + "]";
    ghost var lines := [Header(name)];
    OneLine(Header(name));
    text, lines := AddOption(text, "user", login.user, lines);
    text, lines := AddOption(text, "password", login.password, lines);
    text, lines := AddOption(text, "host", login.host, lines);
    text, lines := AddOption(text, "socket", login.socket, lines);
    ghost var port := PortOption(login.port);
    assert lines + port == PathLines(Path(name, Options(login)));
    if login.port.Some? {
      AddedLine(text, "port = " + login.port.value, lines);
      text := text + "\nport = " + login.port.value;
    } else {
      assert lines + port == lines;
    }
    text := text + "\n";
    OptionsLack(login, NUL);
    HeaderClean(name);
    JoinClean(PathLines(Path(name, Options(login))));
  }

  lemma HeaderClean(name: string)
    requires GoodLine(name)
    ensures NUL !in Header(name)
  {
  }

  method AddOption(text: string, key: string, v: Option<string>, ghost lines: seq<string>)
    returns (text': string, ghost lines': seq<string>)
    requires text + "\n" == Join(lines)
    ensures lines' == lines + QuotedOption(key, v) && text' + "\n" == Join(lines')
  {
    hide Join, Quoted;
    text', lines' := text, lines;
    if v.Some? {
      text' := AppendQuoted(text + "\n" + key + " = ", v.value);
      lines' := lines + [key + " = " + Quoted(v.value)];
      AddedLine(text, key + " = " + Quoted(v.value), lines);
      assert text' == text + "\n" + (key + " = " + Quoted(v.value));
    }
  }

  /** `dynstr_append_quoted`: the text between quotes, each quote in it with a backslash. */
  method AppendQuoted(text: string, v: string) returns (text': string)
    ensures text' == text + Quoted(v)
  {
    hide Escaped;
    text' := text + "\"";
    var cur := 0;
    assert v[..0] == [];
    EscapedPlain([]);
    while true
      invariant cur <= |v| && text' == text + "\"" + Escaped(v[..cur])
      decreases |v| - cur
    {
      var next := cur;
      while next < |v| && v[next] != '"'
        invariant cur <= next <= |v| && '"' !in v[cur..next]
      {
        assert v[cur..next + 1] == v[cur..next] + [v[next]];
        next := next + 1;
      }
      text' := text' + v[cur..next];
      EscapedPiece(v, cur, next);
      if next == |v| {
        break;
      }
      text' := text' + "\\" + "\"";
      EscapedQuote(v, next);
      cur := next + 1;
    }
    text' := text' + "\"";
    assert v[..|v|] == v;
  }

  lemma EscapedPiece(v: string, a: nat, b: nat)
    requires a <= b <= |v| && '"' !in v[a..b]
    ensures Escaped(v[..a]) + v[a..b] == Escaped(v[..b])
  {
    hide Escaped;
    assert v[..b] == v[..a] + v[a..b];
    EscapedConcat(v[..a], v[a..b]);
    EscapedPlain(v[a..b]);
  }

  lemma EscapedQuote(v: string, i: nat)
    requires i < |v| && v[i] == '"'
    ensures Escaped(v[..i + 1]) == Escaped(v[..i]) + "\\" + "\""
  {
    assert v[..i + 1] == v[..i] + [v[i]];
    EscapedConcat(v[..i], [v[i]]);
    assert Escaped([v[i]]) == "\\\"" + [];
  }

  lemma OneLine(line: string)
    ensures Join([line]) == line + "\n"
  {
  }

  lemma AddedLine(text: string, line: string, lines: seq<string>)
    requires text + "\n" == Join(lines)
    ensures text + "\n" + line + "\n" == Join(lines + [line])
  {
    OneLine(line);
    JoinConcat(lines, [line]);
  }

  lemma {:induction false} JoinClean(lines: seq<string>)
    requires forall l <- lines :: NUL !in l
    ensures NUL !in Join(lines)
  {
    if lines != [] {
      JoinClean(lines[1..]);
    }
  }

  /** The text is empty or ends with a newline. */
  lemma {:induction false} JoinEnds(lines: seq<string>)
    ensures lines != [] ==> Join(lines) != [] && Join(lines)[|Join(lines)| - 1] == '\n'
  {
    if lines != [] {
      JoinEnds(lines[1..]);
    }
  }

  /** The options to remove, as flags. */
  datatype Removal = Removal(user: bool, password: bool, host: bool, socket: bool, port: bool)

  function WithoutIf(store: Store, flag: bool, name: string, option: string): Store {
    if flag then WithoutOption(store, name, option) else store
  }

  /** `remove`: without flags the whole path, else each option flagged. */
  function Removed(store: Store, name: string, r: Removal): Store {
    if r == Removal(false, false, false, false, false) then WithoutPath(store, name)
    else
      var s1 := WithoutIf(store, r.user, name, "user");
      var s2 := WithoutIf(s1, r.password, name, "password");
      var s3 := WithoutIf(s2, r.host, name, "host");
      var s4 := WithoutIf(s3, r.socket, name, "socket");
      WithoutIf(s4, r.port, name, "port")
  }

  function WithoutEntryIf(lines: seq<string>, flag: bool, name: string, option: string): seq<string> {
    if flag then WithoutEntry(lines, name, option) else lines
  }

  /** `remove` on the lines of any text. */
  function RemovedLines(lines: seq<string>, name: string, r: Removal): seq<string> {
    if r == Removal(false, false, false, false, false) then WithoutSection(lines, name)
    else
      var l1 := WithoutEntryIf(lines, r.user, name, "user");
      var l2 := WithoutEntryIf(l1, r.password, name, "password");
      var l3 := WithoutEntryIf(l2, r.host, name, "host");
      var l4 := WithoutEntryIf(l3, r.socket, name, "socket");
      WithoutEntryIf(l4, r.port, name, "port")
  }

  lemma EntryIfKeeps(lines: seq<string>, flag: bool, name: string, option: string)
    requires Wellformed(lines)
    ensures Wellformed(WithoutEntryIf(lines, flag, name, option))
  {
    hide Wellformed, WithoutEntry;
    WithoutEntryKeeps(lines, name, option);
  }

  /** What `remove` keeps. */
  lemma RemoveKeeps(lines: seq<string>, name: string, r: Removal)
    requires Wellformed(lines)
    ensures Wellformed(RemovedLines(lines, name, r))
  {
    hide Wellformed, WithoutEntryIf, WithoutSection;
    WithoutSectionKeeps(lines, name);
    var l1 := WithoutEntryIf(lines, r.user, name, "user");
    var l2 := WithoutEntryIf(l1, r.password, name, "password");
    var l3 := WithoutEntryIf(l2, r.host, name, "host");
    var l4 := WithoutEntryIf(l3, r.socket, name, "socket");
    EntryIfKeeps(lines, r.user, name, "user");
    EntryIfKeeps(l1, r.password, name, "password");
    EntryIfKeeps(l2, r.host, name, "host");
    EntryIfKeeps(l3, r.socket, name, "socket");
    EntryIfKeeps(l4, r.port, name, "port");
  }

  method RemoveIf(buf: DynamicString, flag: bool, name: string, option: string, ghost lines: seq<string>)
    requires buf.Valid() && Wellformed(lines) && buf.Text() == Join(lines) && GoodLine(name)
    requires GoodLine(option) && option != []
    modifies buf, buf.str
    ensures buf.Valid() && buf.str == old(buf.str) && Wellformed(WithoutEntryIf(lines, flag, name, option))
    ensures buf.Text() == Join(WithoutEntryIf(lines, flag, name, option))
  {
    hide Join, GoodLines, WithoutEntry, GoodLine;
    EntryIfKeeps(lines, flag, name, option);
    if flag {
      RemoveOption(buf, name, option, lines);
    }
  }

  /** `remove_options`, whatever paths the buffer holds. */
  method RemoveOptions(buf: DynamicString, name: string, r: Removal, ghost lines: seq<string>)
    requires buf.Valid() && Wellformed(lines) && buf.Text() == Join(lines) && GoodLine(name)
    modifies buf, buf.str
    ensures buf.Valid() && buf.Text() == Join(RemovedLines(lines, name, r))
  {
    hide Join, GoodLines, WithoutEntryIf, WithoutSection;
    if !r.user && !r.password && !r.host && !r.socket && !r.port {
      RemoveLoginPath(buf, name, lines);
      return;
    }
    ghost var l1 := WithoutEntryIf(lines, r.user, name, "user");
    ghost var l2 := WithoutEntryIf(l1, r.password, name, "password");
    ghost var l3 := WithoutEntryIf(l2, r.host, name, "host");
    ghost var l4 := WithoutEntryIf(l3, r.socket, name, "socket");
    RemoveIf(buf, r.user, name, "user", lines);
    RemoveIf(buf, r.password, name, "password", l1);
    RemoveIf(buf, r.host, name, "host", l2);
    RemoveIf(buf, r.socket, name, "socket", l3);
    RemoveIf(buf, r.port, name, "port", l4);
  }

  lemma EntryIfIsWithoutIf(store: Store, flag: bool, name: string, option: string)
    requires GoodStore(store) && GoodName(name)
    ensures WithoutEntryIf(StoreLines(store), flag, name, option) == StoreLines(WithoutIf(store, flag, name, option))
    ensures GoodStore(WithoutIf(store, flag, name, option))
  {
    hide StoreLines, GoodStore, WithoutOption, WithoutEntry, GoodName;
    WithoutEntryIsWithoutOption(store, name, option);
    WithoutOptionGood(store, name, option);
  }

  /** On the text of a store `remove` is the removal from the list of paths. */
  lemma RemoveIsRemoved(store: Store, name: string, r: Removal)
    requires GoodStore(store) && GoodName(name)
    ensures RemovedLines(StoreLines(store), name, r) == StoreLines(Removed(store, name, r))
    ensures GoodStore(Removed(store, name, r))
  {
    hide StoreLines, GoodStore, WithoutIf, WithoutEntryIf, WithoutPath, WithoutSection, GoodName;
    WithoutSectionIsWithoutPath(store, name);
    WithoutPathGood(store, name);
    var s1 := WithoutIf(store, r.user, name, "user");
    var s2 := WithoutIf(s1, r.password, name, "password");
    var s3 := WithoutIf(s2, r.host, name, "host");
    var s4 := WithoutIf(s3, r.socket, name, "socket");
    EntryIfIsWithoutIf(store, r.user, name, "user");
    EntryIfIsWithoutIf(s1, r.password, name, "password");
    EntryIfIsWithoutIf(s2, r.host, name, "host");
    EntryIfIsWithoutIf(s3, r.socket, name, "socket");
    EntryIfIsWithoutIf(s4, r.port, name, "port");
  }

  // ---------------------------------------------------------------------------
  // Reading the text back

  function SplitLines(text: string, line: string): seq<string>
    decreases text
  {
    if text == [] then []
    else if text[0] == '\n' then [line] + SplitLines(text[1..], [])
    else SplitLines(text[1..], line + [text[0]])
  }

  /** The options before the first header, and the paths. */
  function ReadLines(lines: seq<string>): (seq<string>, Store) {
    if lines == [] then ([], [])
    else
      var (options, store) := ReadLines(lines[1..]);
      var line := lines[0];
      if IsHeader(line) && |line| >= 2 then ([], [Path(line[1..|line| - 1], options)] + store)
      else ([line] + options, store)
  }

  function Parse(text: string): Store {
    ReadLines(SplitLines(text, [])).1
  }

  lemma {:induction false} SplitLine(line: string, done: string, rest: string)
    requires '\n' !in line
    ensures SplitLines(line + "\n" + rest, done) == [done + line] + SplitLines(rest, [])
    decreases line
  {
    var text := line + "\n" + rest;
    if line == [] {
      assert text[0] == '\n' && text[1..] == rest && done + line == done;
    } else {
      assert text[0] == line[0] && line[0] in line && text[1..] == line[1..] + "\n" + rest;
      SplitLine(line[1..], done + [line[0]], rest);
      assert done + [line[0]] + line[1..] == done + line;
    }
  }

  lemma {:induction false} SplitJoin(lines: seq<string>)
    requires GoodLines(lines)
    ensures SplitLines(Join(lines), []) == lines
  {
    if lines != [] {
      SplitLine(lines[0], [], Join(lines[1..]));
      SplitJoin(lines[1..]);
      assert [] + lines[0] == lines[0];
    }
  }

  /** A text of whole lines is the text of its lines. */
  lemma {:induction false} JoinSplitLines(text: string, line: string)
    requires if text == [] then line == [] else text[|text| - 1] == '\n'
    ensures Join(SplitLines(text, line)) == line + text
    decreases text
  {
    if text != [] {
      if text[0] == '\n' {
        JoinSplitLines(text[1..], []);
        assert line + "\n" + ([] + text[1..]) == line + text;
      } else {
        JoinSplitLines(text[1..], line + [text[0]]);
        assert line + [text[0]] + text[1..] == line + text;
      }
    }
  }

  lemma {:induction false} SplitGood(text: string, line: string)
    requires GoodLine(line) && NUL !in text
    ensures GoodLines(SplitLines(text, line))
    decreases text
  {
    if text != [] {
      assert text[0] in text && forall c <- text[1..] :: c in text;
      SplitGood(text[1..], if text[0] == '\n' then [] else line + [text[0]]);
    }
  }

  lemma {:induction false} ReadOptions(options: seq<string>, rest: seq<string>)
    requires GoodOptions(options)
    ensures ReadLines(options + rest) == (options + ReadLines(rest).0, ReadLines(rest).1)
    decreases options
  {
    if options == [] {
      assert options + rest == rest && options + ReadLines(rest).0 == ReadLines(rest).0;
    } else {
      assert (options + rest)[0] == options[0] && (options + rest)[1..] == options[1..] + rest;
      OptionNotHeader(options[0]);
      ReadOptions(options[1..], rest);
      var after := ReadLines(rest).0;
      assert [options[0]] + (options[1..] + after) == options + after;
    }
  }

  lemma {:induction false} ReadStore(store: Store)
    requires forall i :: 0 <= i < |store| ==> GoodPath(store[i])
    ensures ReadLines(StoreLines(store)) == ([], store)
  {
    if store != [] {
      var p := store[0];
      ReadStore(store[1..]);
      var rest := StoreLines(store[1..]);
      ReadOptions(p.options, rest);
      var lines := PathLines(p) + rest;
      assert lines[0] == Header(p.name) && lines[1..] == p.options + rest;
      HeaderGood(p.name);
      assert p.options + [] == p.options;
      assert Header(p.name)[1..|Header(p.name)| - 1] == p.name;
      assert StoreLines(store) == lines;
      assert [Path(p.name, p.options)] + store[1..] == store;
    }
  }

  /** Main result: reading the text of a store gives the store back, so every
      operation above is exactly the operation on the list of paths. */
  lemma ParseRender(store: Store)
    requires GoodStore(store)
    ensures Parse(Render(store)) == store
  {
    StoreLinesGood(store);
    SplitJoin(StoreLines(store));
    ReadStore(store);
  }

  lemma {:induction false} SplitClean(text: string, line: string)
    requires '\n' !in line
    ensures forall l <- SplitLines(text, line) :: '\n' !in l
    decreases text
  {
    if text != [] {
      SplitClean(text[1..], if text[0] == '\n' then [] else line + [text[0]]);
    }
  }

  predicate NewlineFree(store: Store) {
    forall p <- store :: forall o <- p.options :: '\n' !in o
  }

  lemma {:induction false} ReadClean(lines: seq<string>)
    requires forall l <- lines :: '\n' !in l
    ensures NewlineFree(ReadLines(lines).1) && forall o <- ReadLines(lines).0 :: '\n' !in o
  {
    if lines != [] {
      ReadClean(lines[1..]);
    }
  }

  /** The text written by `set` reads back as the path that was meant if and only if
      no value holds a newline. */
  lemma SetReadsBack(store: Store, name: string, login: Login)
    requires GoodStore(store) && GoodName(name) && CStrings(login)
    ensures var s := WithPath(store, Path(name, Options(login)));
            Parse(Join(SetLines(StoreLines(store), name, login))) == s <==> GoodLogin(login)
  {
    hide Options, Render, SplitLines, ReadLines, GoodOption, SetLines;
    SetIsWithPath(store, name, login);
    var p := Path(name, Options(login));
    var s := WithPath(store, p);
    OptionsGood(login);
    WithPathGood(store, p);
    if GoodLogin(login) {
      ParseRender(s);
    } else {
      OptionsLack(login, '\n');
      SplitClean(Render(s), []);
      ReadClean(SplitLines(Render(s), []));
      assert p in s;
    }
  }

  /** A value can even make a path of its own. */
  lemma ValueMakesPath()
    ensures var login := Login(None, None, None, None, Some("1\n[b]"));
            Parse(Render([Path("a", Options(login))])) == [Path("a", ["port = 1"]), Path("b", [])]
  {
    hide Join, StoreLines, SplitLines, ReadLines;
    var a, b := Path("a", ["port = 1"]), Path("b", []);
    assert Header("a") == "[a]" && Header("b") == "[b]";
    assert GoodName("a") && GoodName("b") && GoodOption("port = 1");
    assert GoodStore([a] + [b]);
    ParseRender([a] + [b]);
    LinesConcat([a], [b]);
    OnePath(a);
    OnePath(b);
    assert PathLines(a) + PathLines(b) == ["[a]"] + (["port = 1"] + ["[b]"]);
    var login := Login(None, None, None, None, Some("1\n[b]"));
    assert "port = " + "1\n[b]" == "port = 1\n[b]";
    assert Options(login) == ["port = 1\n[b]"];
    OnePath(Path("a", Options(login)));
    JoinConcat(["[a]"], ["port = 1"] + ["[b]"]);
    JoinConcat(["port = 1"], ["[b]"]);
    JoinConcat(["[a]"], ["port = 1\n[b]"]);
    OneLine("port = 1");
    OneLine("[b]");
    OneLine("port = 1\n[b]");
    assert "port = 1" + "\n" + ("[b]" + "\n") == "port = 1\n[b]" + "\n";
  }
}
