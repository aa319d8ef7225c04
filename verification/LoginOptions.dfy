/** How the client library reads an option line (`my_default.cc`), and what it makes of
    the lines that `set` writes: which values come back. */
module LoginOptions {
  import opened Optional
  import opened LoginText
  import opened LoginStore
  import opened LoginSections
  import opened LoginCommands

  /** `my_isspace` in latin1. */
  predicate IsSpace(c: char) {
    9 <= c as int <= 13 || c as int == 32 || c as int == 160
  }

  function TrimLeft(t: string): string {
    if t != [] && IsSpace(t[0]) then TrimLeft(t[1..]) else t
  }

  function TrimRight(t: string): string {
    if t != [] && IsSpace(t[|t| - 1]) then TrimRight(t[..|t| - 1]) else t
  }

  /** What a backslash and the character behind it stand for. */
  function Meaning(c: char): Option<char> {
    match c
    case 'n' => Some('\n')
    case 't' => Some('\t')
    case 'r' => Some('\r')
    case 'b' => Some(8 as char)
    case 's' => Some(' ')
    case '"' => Some('"')
    case '\'' => Some('\'')
    case '\\' => Some('\\')
    case _ => None
  }

  /** A pair without a meaning is kept, and so is a backslash at the end. */
  function Unescape(t: string): string {
    if t == [] then []
    else if t[0] == '\\' && |t| > 1 then
      (match Meaning(t[1]) case Some(c) => [c] case None => ['\\', t[1]]) + Unescape(t[2..])
    else [t[0]] + Unescape(t[1..])
  }

  /** The outer quotes are taken off, if first and last character are the same quote. */
  function Unquote(t: string): string {
    if |t| > 1 && (t[0] == '"' || t[0] == '\'') && t[|t| - 1] == t[0] then t[1..|t| - 1] else t
  }

  function FirstEquals(line: string): (n: nat)
    ensures n <= |line| && '=' !in line[..n] && (n < |line| ==> line[n] == '=')
  {
    if line == [] || line[0] == '=' then 0
    else
      var n := 1 + FirstEquals(line[1..]);
      assert line[..n] == [line[0]] + line[1..][..n - 1];
      n
  }

  datatype Setting = Setting(name: string, value: Option<string>)

  /** An option line: a name, and a value if there is an equals sign. */
  function ReadSetting(line: string): Setting {
    var n := FirstEquals(line);
    Setting(TrimRight(TrimLeft(line[..n])),
            if n == |line| then None else Some(Unescape(Unquote(TrimRight(TrimLeft(line[n + 1..]))))))
  }

  // ---------------------------------------------------------------------------
  // Quoted values

  /** No backslash stands before a character that gives it a meaning, but for a quote,
      which is written with a backslash of its own. */
  predicate Harmless(v: string) {
    forall i, j :: 0 <= i && j == i + 1 < |v| && v[i] == '\\' ==> Meaning(v[j]).None? || v[j] == '"'
  }

  /** What comes back of a value, from its first character on. */
  lemma EscapedUnfold(v: string)
    requires v != []
    ensures v[0] != '\\' ==> Unescape(Escaped(v)) == [v[0]] + Unescape(Escaped(v[1..]))
    ensures v == "\\" ==> Unescape(Escaped(v)) == v
    ensures v[0] == '\\' && |v| > 1 ==>
              Unescape(Escaped(v)) ==
              (if v[1] == '"' then ['\\', '"'] else match Meaning(v[1]) case Some(c) => [c] case None => ['\\', v[1]])
              + Unescape(Escaped(v[2..]))
  {
    hide Unescape, Escaped, Meaning;
    if v[0] != '\\' {
      CharacterBack(v);
    } else if |v| == 1 {
      LoneBackslash();
      assert v == "\\";
    } else if v[1] == '"' {
      QuotePairBack(v);
    } else {
      PairBack(v);
    }
  }

  lemma CharacterBack(v: string)
    requires v != [] && v[0] != '\\'
    ensures Unescape(Escaped(v)) == [v[0]] + Unescape(Escaped(v[1..]))
  {
    hide Unescape, Escaped, Meaning;
    EscapedHead(v);
    if v[0] == '"' {
      UnescapePair('"', Escaped(v[1..]));
      QuoteMeans();
    } else {
      UnescapeOne(v[0], Escaped(v[1..]));
    }
  }

  lemma PairBack(v: string)
    requires |v| > 1 && v[0] == '\\' && v[1] != '"'
    ensures Unescape(Escaped(v)) ==
            (match Meaning(v[1]) case Some(c) => [c] case None => ['\\', v[1]]) + Unescape(Escaped(v[2..]))
  {
    hide Unescape, Escaped, Meaning;
    EscapedHead(v);
    EscapedHead(v[1..]);
    assert v[1..][1..] == v[2..];
    var more := Escaped(v[2..]);
    assert [v[0]] + ([v[1]] + more) == ['\\', v[1]] + more;
    UnescapePair(v[1], more);
  }

  lemma QuotePairBack(v: string)
    requires |v| > 1 && v[0] == '\\' && v[1] == '"'
    ensures Unescape(Escaped(v)) == ['\\', '"'] + Unescape(Escaped(v[2..]))
  {
    hide Unescape, Escaped;
    EscapedQuotePair(v);
    UnescapeQuotePair(Escaped(v[2..]));
  }

  lemma EscapedQuotePair(v: string)
    requires |v| > 1 && v[0] == '\\' && v[1] == '"'
    ensures Escaped(v) == ['\\', '\\', '"'] + Escaped(v[2..])
  {
    var t := v[1..];
    assert t[0] == '"' && t[1..] == v[2..];
    hide Escaped;
    EscapedHead(v);
    EscapedHead(t);
  }

  lemma UnescapeQuotePair(more: string)
    ensures Unescape(['\\', '\\', '"'] + more) == ['\\', '"'] + Unescape(more)
  {
    hide Unescape;
    assert ['\\', '\\', '"'] + more == ['\\', '\\'] + (['"'] + more);
    UnescapePair('\\', ['"'] + more);
    UnescapeOne('"', more);
    var back := Unescape(more);
    assert ['\\'] + (['"'] + back) == ['\\', '"'] + back;
  }

  lemma EscapedHead(v: string)
    requires v != []
    ensures Escaped(v) == (if v[0] == '"' then ['\\', '"'] else [v[0]]) + Escaped(v[1..])
  {
  }

  lemma UnescapePair(c: char, rest: string)
    ensures Unescape(['\\', c] + rest) ==
            (match Meaning(c) case Some(d) => [d] case None => ['\\', c]) + Unescape(rest)
  {
    assert (['\\', c] + rest)[2..] == rest;
  }

  lemma UnescapeOne(c: char, rest: string)
    requires c != '\\'
    ensures Unescape([c] + rest) == [c] + Unescape(rest)
  {
    assert ([c] + rest)[1..] == rest;
  }

  lemma LoneBackslash()
    ensures Escaped("\\") == "\\" && Unescape("\\") == "\\"
  {
  }

  lemma QuoteMeans()
    ensures Meaning('"') == Some('"')
  {
  }

  lemma BackslashMeans()
    ensures Meaning('\\') == Some('\\')
  {
  }

  /** Nothing is made longer. */
  lemma {:induction false} NeverLonger(v: string)
    ensures |Unescape(Escaped(v))| <= |v|
  {
    hide Unescape, Escaped, Meaning;
    if v == [] {
      NothingEscaped();
    } else {
      EscapedUnfold(v);
      NeverLonger(v[1..]);
      if |v| > 1 {
        NeverLonger(v[2..]);
      }
    }
  }

  lemma NothingEscaped()
    ensures Escaped([]) == [] && Unescape([]) == []
  {
  }

  /** A value comes back if and only if it is harmless. */
  lemma {:induction false} EscapedIff(v: string)
    ensures Unescape(Escaped(v)) == v <==> Harmless(v)
  {
    hide Unescape, Escaped, Meaning, Harmless;
    if v == [] {
      NothingEscaped();
      ShortHarmless(v);
    } else if v == "\\" {
      EscapedUnfold(v);
      ShortHarmless(v);
    } else if v[0] != '\\' {
      EscapedUnfold(v);
      EscapedIff(v[1..]);
      HarmlessTail(v);
      assert v == [v[0]] + v[1..];
    } else {
      EscapedUnfold(v);
      EscapedIff(v[2..]);
      NeverLonger(v[2..]);
      HarmlessPair(v);
      assert v == [v[0], v[1]] + v[2..];
    }
  }

  /** What comes back of a backslash and another character. */
  lemma PairsRead(c: char)
    requires c != '"'
    ensures Unescape(Escaped(['\\', c])) ==
            if c == 'n' then [10 as char] else if c == 't' then [9 as char] else if c == 'r' then [13 as char]
            else if c == 'b' then [8 as char] else if c == 's' then [32 as char]
            else if c == '\'' || c == '\\' then [c] else ['\\', c]
  {
    var v := ['\\', c];
    PairBack(v);
    NothingEscaped();
    assert v[2..] == [];
  }

  /** Such as a backslash and an n, which come back as a newline. */
  lemma BackslashN()
    ensures Unescape(Escaped("\\n")) == "\n" && !Harmless("\\n")
  {
    hide Unescape, Escaped, Harmless;
    PairsRead('n');
    EscapedIff("\\n");
    assert "\\n" == ['\\', 'n'];
  }

  lemma ShortHarmless(v: string)
    requires |v| <= 1
    ensures Harmless(v)
  {
  }

  lemma HarmlessTail(v: string)
    requires v != [] && v[0] != '\\'
    ensures Harmless(v) <==> Harmless(v[1..])
  {
    hide Meaning;
    var t := v[1..];
    assert forall i :: 0 < i < |v| ==> v[i] == t[i - 1];
    if Harmless(t) {
      forall i, j | 0 <= i && j == i + 1 < |v| && v[i] == '\\'
        ensures Meaning(v[j]).None? || v[j] == '"'
      {
        assert t[i - 1] == v[i] && t[i] == v[j];
      }
    }
    if Harmless(v) {
      forall i, j | 0 <= i && j == i + 1 < |t| && t[i] == '\\'
        ensures Meaning(t[j]).None? || t[j] == '"'
      {
        assert v[i + 1] == t[i] && v[j + 1] == t[j];
      }
    }
  }

  lemma HarmlessPair(v: string)
    requires |v| > 1 && v[0] == '\\'
    ensures Harmless(v) <==> (Meaning(v[1]).None? || v[1] == '"') && Harmless(v[2..])
  {
    hide Meaning;
    BackslashMeans();
    if Meaning(v[1]).None? || v[1] == '"' {
      HarmlessTail(v[1..]);
      assert v[1..][1..] == v[2..];
      var t := v[1..];
      if Harmless(t) {
        forall i, j | 0 <= i && j == i + 1 < |v| && v[i] == '\\'
          ensures Meaning(v[j]).None? || v[j] == '"'
        {
          assert i > 0 ==> t[i - 1] == v[i] && t[i] == v[j];
        }
      }
      if Harmless(v) {
        forall i, j | 0 <= i && j == i + 1 < |t| && t[i] == '\\'
          ensures Meaning(t[j]).None? || t[j] == '"'
        {
          assert v[i + 1] == t[i] && v[j + 1] == t[j];
        }
      }
    } else {
      assert v[0] == '\\' && 1 == 0 + 1 < |v|;
    }
  }

  // ---------------------------------------------------------------------------
  // A quoted value is one quoted string

  datatype Quote = Closed(value: string, rest: string) | Unclosed

  /** Reads on behind an opening quote: a backslash and a quote stand for a quote, and a
      quote alone closes. */
  function ReadQuoted(t: string, value: string): Quote
    decreases t
  {
    if t == [] then Unclosed
    else if t[0] == '\\' && |t| > 1 && t[1] == '"' then ReadQuoted(t[2..], value + ['"'])
    else if t[0] == '"' then Closed(value, t[1..])
    else ReadQuoted(t[1..], value + [t[0]])
  }

  predicate EndsInBackslash(v: string) {
    v != [] && v[|v| - 1] == '\\'
  }

  lemma {:induction false} QuotedRead(v: string, value: string)
    ensures ReadQuoted(Escaped(v) + "\"", value) == if EndsInBackslash(v) then Unclosed else Closed(value + v, [])
    decreases v
  {
    hide Escaped;
    if v == [] {
      NothingEscaped();
      assert Escaped(v) + "\"" == "\"" && "\""[1..] == [] && value + v == value;
    } else {
      EscapedHead(v);
      var rest := Escaped(v[1..]) + "\"";
      QuotedRead(v[1..], value + [v[0]]);
      assert value + [v[0]] + v[1..] == value + v;
      if v[0] == '"' {
        assert Escaped(v) + "\"" == ['\\', '"'] + rest;
        assert (['\\', '"'] + rest)[2..] == rest;
      } else {
        assert Escaped(v) + "\"" == [v[0]] + rest;
        assert ([v[0]] + rest)[1..] == rest;
        if v[0] == '\\' {
          AfterBackslash(v, value);
        }
      }
    }
  }

  /** A backslash in the value is read as such, unless it is the last character. */
  lemma AfterBackslash(v: string, value: string)
    requires v != [] && v[0] == '\\'
    ensures var rest := Escaped(v[1..]) + "\"";
            ReadQuoted([v[0]] + rest, value) ==
            if |v| == 1 then Unclosed else ReadQuoted(rest, value + [v[0]])
  {
    hide Escaped;
    var rest := Escaped(v[1..]) + "\"";
    var t := [v[0]] + rest;
    assert t[1..] == rest && t[1] == rest[0];
    if |v| == 1 {
      assert v[1..] == [];
      NothingEscaped();
      assert rest == "\"";
      assert t[2..] == [];
    } else {
      EscapedHead(v[1..]);
    }
  }

  /** The text written for a value is one quoted string with that value, up to its last
      character, if and only if the value does not end in a backslash. */
  lemma QuotedIsOne(v: string)
    ensures Quoted(v)[0] == '"'
    ensures ReadQuoted(Quoted(v)[1..], []) == Closed(v, []) <==> !EndsInBackslash(v)
  {
    hide Escaped;
    assert Quoted(v)[1..] == Escaped(v) + "\"";
    QuotedRead(v, []);
    assert [] + v == v;
  }

  // ---------------------------------------------------------------------------
  // Settings

  lemma {:induction false} UnescapeShrinks(t: string)
    ensures |Unescape(t)| <= |t|
    ensures Unescape(t) == t <==> Bare(t)
  {
    hide Meaning;
    if t != [] {
      if t[0] == '\\' && |t| > 1 {
        UnescapeShrinks(t[2..]);
        BarePair(t);
        assert t == [t[0], t[1]] + t[2..];
      } else {
        UnescapeShrinks(t[1..]);
        BareTail(t);
        assert t == [t[0]] + t[1..];
      }
    }
  }

  /** No backslash stands before a character that gives it a meaning. */
  predicate Bare(t: string) {
    forall i, j :: 0 <= i && j == i + 1 < |t| && t[i] == '\\' ==> Meaning(t[j]).None?
  }

  lemma BareTail(t: string)
    requires t != [] && (t[0] != '\\' || |t| == 1)
    ensures Bare(t) <==> Bare(t[1..])
  {
    hide Meaning;
    var u := t[1..];
    if Bare(u) {
      forall i, j | 0 <= i && j == i + 1 < |t| && t[i] == '\\'
        ensures Meaning(t[j]).None?
      {
        assert u[i - 1] == t[i] && u[i] == t[j];
      }
    }
    if Bare(t) {
      forall i, j | 0 <= i && j == i + 1 < |u| && u[i] == '\\'
        ensures Meaning(u[j]).None?
      {
        assert t[i + 1] == u[i] && t[j + 1] == u[j];
      }
    }
  }

  lemma BarePair(t: string)
    requires |t| > 1 && t[0] == '\\'
    ensures Bare(t) <==> Meaning(t[1]).None? && Bare(t[2..])
  {
    hide Meaning;
    BackslashMeans();
    if Meaning(t[1]).None? {
      var u := t[1..];
      BareTail(u);
      assert u[1..] == t[2..];
      if Bare(u) {
        forall i, j | 0 <= i && j == i + 1 < |t| && t[i] == '\\'
          ensures Meaning(t[j]).None?
        {
          assert i > 0 ==> u[i - 1] == t[i] && u[i] == t[j];
        }
      }
      if Bare(t) {
        forall i, j | 0 <= i && j == i + 1 < |u| && u[i] == '\\'
          ensures Meaning(u[j]).None?
        {
          assert t[i + 1] == u[i] && t[j + 1] == u[j];
        }
      }
    } else {
      assert t[0] == '\\' && 1 == 0 + 1 < |t|;
    }
  }

  /** No space at either end. */
  predicate Trimmed(t: string) {
    t != [] ==> !IsSpace(t[0]) && !IsSpace(t[|t| - 1])
  }

  lemma TrimShrinks(t: string)
    ensures |TrimLeft(t)| <= |t| && |TrimRight(t)| <= |t|
    ensures |TrimRight(TrimLeft(t))| == |t| ==> TrimRight(TrimLeft(t)) == t
    ensures TrimRight(TrimLeft(t)) == t <==> Trimmed(t)
  {
    LeftShrinks(t);
    RightShrinks(t);
    RightShrinks(TrimLeft(t));
  }

  lemma {:induction false} LeftShrinks(t: string)
    ensures |TrimLeft(t)| <= |t|
    ensures t != [] && IsSpace(t[0]) ==> |TrimLeft(t)| < |t|
  {
    if t != [] && IsSpace(t[0]) {
      LeftShrinks(t[1..]);
    }
  }

  lemma {:induction false} RightShrinks(t: string)
    ensures |TrimRight(t)| <= |t|
    ensures t != [] && IsSpace(t[|t| - 1]) ==> |TrimRight(t)| < |t|
  {
    if t != [] && IsSpace(t[|t| - 1]) {
      RightShrinks(t[..|t| - 1]);
    }
  }

  /** A name and a value text: what is read of the line. */
  lemma LineReads(key: string, text: string)
    requires '=' !in key && key != [] && Trimmed(key)
    ensures ReadSetting(key + " = " + text) ==
            Setting(key, Some(Unescape(Unquote(TrimRight(TrimLeft(text))))))
  {
    hide Unescape, Unquote, TrimRight, Trimmed;
    var line := key + " = " + text;
    var n := |key| + 1;
    assert line[n] == '=' && '=' !in line[..n];
    FirstEqualsAt(line, n);
    assert line[n + 1..] == " " + text;
    assert TrimLeft(" " + text) == TrimLeft(text) by { assert (" " + text)[1..] == text; }
    NameTrims(key);
    assert line[..n] == key + " ";
  }

  lemma FirstEqualsAt(line: string, n: nat)
    requires n < |line| && line[n] == '=' && '=' !in line[..n]
    ensures FirstEquals(line) == n
  {
    hide FirstEquals;
    var m := FirstEquals(line);
    assert forall i :: 0 <= i < n ==> line[..n][i] == line[i];
    assert forall i :: 0 <= i < m ==> line[..m][i] == line[i];
  }

  lemma NameTrims(key: string)
    requires key != [] && Trimmed(key)
    ensures TrimRight(TrimLeft(key + " ")) == key
  {
    var t := key + " ";
    assert t[0] == key[0] && t[|t| - 1] == ' ' && t[..|t| - 1] == key;
    assert TrimLeft(t) == t;
    assert TrimRight(key) == key;
  }

  /** A quoted option comes back with its name, and with its value if and only if the
      value is harmless. */
  lemma QuotedReads(key: string, v: string)
    requires '=' !in key && key != [] && Trimmed(key)
    ensures ReadSetting(key + " = " + Quoted(v)) == Setting(key, Some(Unescape(Escaped(v))))
    ensures ReadSetting(key + " = " + Quoted(v)).value == Some(v) <==> Harmless(v)
  {
    hide Unescape, Escaped, ReadSetting, Harmless, Trimmed;
    LineReads(key, Quoted(v));
    QuotedTrimmed(v);
    EscapedIff(v);
  }

  lemma QuotedTrimmed(v: string)
    ensures Unquote(TrimRight(TrimLeft(Quoted(v)))) == Escaped(v)
  {
    hide Escaped;
    var t := Quoted(v);
    assert t[0] == '"' && t[|t| - 1] == '"' && t[1..|t| - 1] == Escaped(v);
    assert !IsSpace('"');
  }

  /** The port is written without quotes. */
  predicate PortKept(p: string) {
    Trimmed(p) && Unquote(p) == p && Bare(p)
  }

  lemma PortReads(p: string)
    ensures ReadSetting("port = " + p) == Setting("port", Some(p)) <==> PortKept(p)
  {
    hide Unescape, ReadSetting, Bare, TrimLeft, TrimRight;
    assert "port = " + p == "port" + " = " + p;
    LineReads("port", p);
    var t := TrimRight(TrimLeft(p));
    TrimShrinks(p);
    TrimShrinks(TrimLeft(p));
    UnescapeShrinks(Unquote(t));
    UnescapeShrinks(p);
  }

  function Settings(options: seq<string>): (r: seq<Setting>)
    ensures |r| == |options|
  {
    seq(|options|, i requires 0 <= i < |options| => ReadSetting(options[i]))
  }

  function WantedOption(key: string, v: Option<string>): seq<Setting> {
    match v
    case None => []
    case Some(s) => [Setting(key, Some(s))]
  }

  /** What was given to `set`. */
  function Wanted(login: Login): seq<Setting> {
    WantedOption("user", login.user) + WantedOption("password", login.password)
    + WantedOption("host", login.host) + WantedOption("socket", login.socket)
    + WantedOption("port", login.port)
  }

  predicate HarmlessOption(v: Option<string>) {
    v.Some? ==> Harmless(v.value)
  }

  /** Every value can be read back. */
  predicate Kept(login: Login) {
    && HarmlessOption(login.user) && HarmlessOption(login.password) && HarmlessOption(login.host)
    && HarmlessOption(login.socket) && (login.port.Some? ==> PortKept(login.port.value))
  }

  lemma OptionReads(key: string, v: Option<string>)
    requires '=' !in key && key != [] && Trimmed(key)
    ensures |QuotedOption(key, v)| == |WantedOption(key, v)|
    ensures Settings(QuotedOption(key, v)) == WantedOption(key, v) <==> HarmlessOption(v)
  {
    hide ReadSetting, Harmless, Quoted, Trimmed;
    if v.Some? {
      QuotedReads(key, v.value);
      var one := Settings(QuotedOption(key, v));
      assert one[0] == ReadSetting(key + " = " + Quoted(v.value));
    }
  }

  lemma PortOptionReads(v: Option<string>)
    ensures |PortOption(v)| == |WantedOption("port", v)|
    ensures Settings(PortOption(v)) == WantedOption("port", v) <==> (v.Some? ==> PortKept(v.value))
  {
    hide ReadSetting, PortKept;
    if v.Some? {
      PortReads(v.value);
      assert Settings(PortOption(v))[0] == ReadSetting("port = " + v.value);
    }
  }

  lemma SettingsConcat(a: seq<string>, b: seq<string>)
    ensures Settings(a + b) == Settings(a) + Settings(b)
  {
    hide ReadSetting;
  }

  lemma BothEqual(a: seq<Setting>, b: seq<Setting>, c: seq<Setting>, d: seq<Setting>)
    requires |a| == |c|
    ensures a + b == c + d <==> a == c && b == d
  {
    if a + b == c + d {
      assert a == (a + b)[..|a|] && c == (c + d)[..|c|] && b == (a + b)[|a|..] && d == (c + d)[|c|..];
    }
  }

  /** The options of a login come back with the values given if and only if every value
      can be read back. */
  lemma LoginReads(login: Login)
    ensures Settings(Options(login)) == Wanted(login) <==> Kept(login)
  {
    hide ReadSetting, QuotedOption, PortOption, WantedOption, Settings, HarmlessOption, PortKept;
    var a, b := QuotedOption("user", login.user), QuotedOption("password", login.password);
    var c, d := QuotedOption("host", login.host), QuotedOption("socket", login.socket);
    var e := PortOption(login.port);
    OptionReads("user", login.user);
    OptionReads("password", login.password);
    OptionReads("host", login.host);
    OptionReads("socket", login.socket);
    PortOptionReads(login.port);
    SettingsConcat(a, b);
    SettingsConcat(a + b, c);
    SettingsConcat(a + b + c, d);
    SettingsConcat(a + b + c + d, e);
    var u, p := WantedOption("user", login.user), WantedOption("password", login.password);
    var h, s := WantedOption("host", login.host), WantedOption("socket", login.socket);
    BothEqual(Settings(a), Settings(b), u, p);
    BothEqual(Settings(a + b), Settings(c), u + p, h);
    BothEqual(Settings(a + b + c), Settings(d), u + p + h, s);
    BothEqual(Settings(a + b + c + d), Settings(e), u + p + h + s, WantedOption("port", login.port));
  }

  /** Main result on `set`: the text it writes reads back as the store with that path,
      and its options as the values given, if and only if no value holds a newline and
      every value can be read back. */
  lemma ValuesReadBack(store: Store, name: string, login: Login)
    requires GoodStore(store) && GoodName(name) && CStrings(login)
    ensures var s := Parse(Join(SetLines(StoreLines(store), name, login)));
            (s == WithPath(store, Path(name, Options(login))) && Settings(s[|s| - 1].options) == Wanted(login))
            <==> GoodLogin(login) && Kept(login)
  {
    hide Options, Parse, SetLines, Settings, Wanted, Kept, GoodLogin;
    SetReadsBack(store, name, login);
    LoginReads(login);
    var path := Path(name, Options(login));
    assert WithPath(store, path)[|WithPath(store, path)| - 1] == path;
  }
}
