/** The login-path store of `mysql_config_editor.cc`: a flat text, searched with
    `strstr` and edited in place, that stands for an ordered list of paths. */
module LoginStore {
  import opened LoginText

  /** A path and its option lines. */
  datatype Path = Path(name: string, options: seq<string>)

  type Store = seq<Path>

  function Header(name: string): string {
    "[" + name + "]"
  }

  predicate GoodName(name: string) {
    '\n' !in name && ']' !in name && NUL !in name
  }

  predicate GoodOption(line: string) {
    GoodLine(line) && line != [] && line[0] != '['
  }

  predicate GoodPath(p: Path) {
    GoodName(p.name) && forall i :: 0 <= i < |p.options| ==> GoodOption(p.options[i])
  }

  /** Every path has a name of its own. */
  predicate GoodStore(store: Store) {
    && (forall i :: 0 <= i < |store| ==> GoodPath(store[i]))
    && (forall i, j :: 0 <= i < j < |store| ==> store[i].name != store[j].name)
  }

  function PathLines(p: Path): seq<string> {
    [Header(p.name)] + p.options
  }

  function StoreLines(store: Store): seq<string> {
    if store == [] then [] else PathLines(store[0]) + StoreLines(store[1..])
  }

  /** The text of a store. */
  function Render(store: Store): string {
    Join(StoreLines(store))
  }

  predicate IsHeader(line: string) {
    "[" <= line
  }

  /** Line `i` is the first one, from `from` on, that begins with `pat`. */
  ghost predicate FirstWith(lines: seq<string>, pat: string, from: nat, i: nat) {
    && from <= i <= |lines|
    && (i < |lines| ==> pat <= lines[i])
    && forall j :: from <= j < i ==> !(pat <= lines[j])
  }

  /** The text with line `i` up to line `j` cut out. */
  lemma CutLines(lines: seq<string>, i: nat, j: nat)
    requires i <= j <= |lines|
    ensures Start(lines, i) <= Start(lines, j) <= |Join(lines)|
    ensures Join(lines)[..Start(lines, i)] + Join(lines)[Start(lines, j)..] == Join(lines[..i] + lines[j..])
  {
    JoinSplit(lines, i);
    JoinSplit(lines, j);
    StartMonotone(lines, i, j);
    JoinConcat(lines[..i], lines[j..]);
  }

  /** A search for a line's beginning, by its newline, from a position in line `i`
      other than its newline, finds the next such line. */
  lemma FindsLine(lines: seq<string>, i: nat, pat: string, k: nat)
    requires GoodLines(lines) && i < |lines| && '\n' !in pat && pat != []
    requires Start(lines, i) <= k && Occurs(Join(lines), "\n" + pat, k)
    ensures exists j :: i < j < |lines| && Start(lines, j) == k + 1 && pat <= lines[j]
  {
    hide Join, Start, Occurs, GoodLine;
    var text := Join(lines);
    OccursCons(text, '\n', pat, k);
    var m := NewlineEndsLine(lines, k);
    var j := m + 1;
    assert Start(lines, j) == k + 1;
    if j <= i {
      StartMonotone(lines, j, i);
    }
    StartEnd(lines);
    OccursInText(text, pat, k + 1);
    assert j < |lines|;
    GoodAt(lines, j);
    OccursAtLine(lines, j, pat);
  }

  lemma GoodAt(lines: seq<string>, j: nat)
    requires GoodLines(lines) && j < |lines|
    ensures '\n' !in lines[j]
  {
  }

  lemma OccursInText(text: string, pat: string, k: nat)
    requires Occurs(text, pat, k) && pat != []
    ensures k < |text|
  {
  }

  lemma LineIsFound(lines: seq<string>, j: nat, pat: string)
    requires GoodLines(lines) && 0 < j < |lines| && '\n' !in pat && pat <= lines[j]
    ensures Start(lines, j) > 0 && Occurs(Join(lines), "\n" + pat, Start(lines, j) - 1)
  {
    hide Join, Start, Occurs, GoodLine;
    GoodAt(lines, j);
    OccursAtLine(lines, j, pat);
    StartNext(lines, j - 1);
    OccursCons(Join(lines), '\n', pat, Start(lines, j) - 1);
    var a, b := Start(lines, j - 1), Start(lines, j);
    assert Join(lines)[a..b][|lines[j - 1]|] == '\n';
    assert Join(lines)[b - 1] == Join(lines)[a..b][b - 1 - a];
  }

  // ---------------------------------------------------------------------------
  // Lines of a store

  /** The line at which path `k` starts. */
  function LineIndex(store: Store, k: nat): nat
    requires k <= |store|
  {
    |StoreLines(store[..k])|
  }

  lemma {:induction false} LinesConcat(a: Store, b: Store)
    ensures StoreLines(a + b) == StoreLines(a) + StoreLines(b)
  {
    if a == [] {
      assert a + b == b;
    } else {
      assert (a + b)[0] == a[0] && (a + b)[1..] == a[1..] + b;
      LinesConcat(a[1..], b);
    }
  }

  lemma LinesSplit(store: Store, k: nat)
    requires k <= |store|
    ensures LineIndex(store, k) <= |StoreLines(store)|
    ensures StoreLines(store)[..LineIndex(store, k)] == StoreLines(store[..k])
    ensures StoreLines(store)[LineIndex(store, k)..] == StoreLines(store[k..])
  {
    assert store == store[..k] + store[k..];
    LinesConcat(store[..k], store[k..]);
  }

  lemma OnePath(p: Path)
    ensures StoreLines([p]) == PathLines(p)
  {
  }

  /** Path `k` takes its header line and its options, up to path `k + 1`. */
  lemma PathSpan(store: Store, k: nat)
    requires k < |store|
    ensures var a, b := LineIndex(store, k), LineIndex(store, k + 1);
            && b == a + 1 + |store[k].options| <= |StoreLines(store)|
            && StoreLines(store)[a] == Header(store[k].name)
            && StoreLines(store)[a + 1..b] == store[k].options
  {
    hide StoreLines, Header;
    LinesSplit(store, k);
    LinesSplit(store, k + 1);
    assert store[..k + 1] == store[..k] + [store[k]];
    LinesConcat(store[..k], [store[k]]);
    OnePath(store[k]);
    var lines, a, b := StoreLines(store), LineIndex(store, k), LineIndex(store, k + 1);
    var own := lines[..b][a..];
    assert own == PathLines(store[k]);
    assert lines[a] == own[0];
    assert lines[a + 1..b] == own[1..];
  }

  lemma HeaderGood(name: string)
    requires GoodLine(name)
    ensures GoodLine(Header(name)) && IsHeader(Header(name))
  {
  }

  lemma {:induction false} StoreLinesGood(store: Store)
    requires forall i :: 0 <= i < |store| ==> GoodPath(store[i])
    ensures GoodLines(StoreLines(store))
  {
    if store != [] {
      HeaderGood(store[0].name);
      StoreLinesGood(store[1..]);
    }
  }

  /** A header is a prefix of a good line only if it is that header. */
  lemma HeaderPrefix(name: string, other: string)
    requires GoodName(name) && GoodName(other)
    ensures Header(name) <= Header(other) <==> name == other
  {
    if Header(name) <= Header(other) {
      var h, o := Header(name), Header(other);
      assert o[..|h|] == h;
      assert forall m :: 0 <= m < |other| ==> o[m + 1] == other[m] && other[m] in other;
      assert h[|name| + 1] == ']' == o[|name| + 1];
      assert |name| == |other|;
      assert name == h[1..|name| + 1] == o[1..|name| + 1] == other;
    }
  }

  /** The position of a path, or the number of paths. */
  function IndexOf(store: Store, name: string): (k: nat)
    ensures k <= |store|
    ensures k < |store| ==> store[k].name == name
    ensures forall i :: 0 <= i < k ==> store[i].name != name
  {
    if store == [] then 0
    else if store[0].name == name then 0
    else 1 + IndexOf(store[1..], name)
  }

  /** Which path a line belongs to. */
  lemma {:induction false} PathOfLine(store: Store, i: nat, n: nat) returns (k: nat)
    requires n <= |store| && i < LineIndex(store, n)
    ensures k < n && LineIndex(store, k) <= i < LineIndex(store, k + 1) <= |StoreLines(store)|
    decreases n
  {
    PathSpan(store, n - 1);
    if LineIndex(store, n - 1) <= i {
      k := n - 1;
    } else {
      k := PathOfLine(store, i, n - 1);
    }
  }

  /** A line that is a header is the first line of its path. */
  lemma HeaderLine(store: Store, i: nat) returns (k: nat)
    requires GoodStore(store) && i < |StoreLines(store)| && IsHeader(StoreLines(store)[i])
    ensures k < |store| && i == LineIndex(store, k)
  {
    hide StoreLines;
    assert store[..|store|] == store;
    k := PathOfLine(store, i, |store|);
    OptionLines(store, k);
  }

  lemma OptionLines(store: Store, k: nat)
    requires GoodStore(store) && k < |store|
    ensures LineIndex(store, k + 1) <= |StoreLines(store)|
    ensures forall m :: LineIndex(store, k) < m < LineIndex(store, k + 1) ==>
              GoodOption(StoreLines(store)[m]) && !IsHeader(StoreLines(store)[m])
  {
    hide StoreLines, GoodOption;
    PathSpan(store, k);
    var lines, a, b := StoreLines(store), LineIndex(store, k), LineIndex(store, k + 1);
    forall m | a < m < b
      ensures GoodOption(lines[m]) && !IsHeader(lines[m])
    {
      assert lines[m] == lines[a + 1..b][m - a - 1] == store[k].options[m - a - 1];
      assert GoodPath(store[k]);
      OptionNotHeader(lines[m]);
    }
  }

  lemma OptionNotHeader(line: string)
    requires GoodOption(line)
    ensures !IsHeader(line)
  {
  }

  /** The first line with a path's header is where that path starts. */
  lemma FindsPath(store: Store, name: string, i: nat)
    requires GoodStore(store) && GoodName(name) && FirstWith(StoreLines(store), Header(name), 0, i)
    ensures i == LineIndex(store, IndexOf(store, name))
  {
    hide StoreLines, Header;
    var lines, k := StoreLines(store), IndexOf(store, name);
    LinesSplit(store, k);
    assert store[..|store|] == store;
    if k < |store| {
      PathSpan(store, k);
      assert i <= LineIndex(store, k);
    }
    if i < |lines| {
      assert IsHeader(lines[i]) by { HeaderIsHeader(name, lines[i]); }
      var m := HeaderLine(store, i);
      PathSpan(store, m);
      HeaderPrefix(name, store[m].name);
      assert GoodPath(store[m]);
      assert store[m].name == name;
      assert m == k;
    }
  }

  lemma HeaderIsHeader(name: string, line: string)
    requires Header(name) <= line
    ensures IsHeader(line)
  {
    assert line[0] == Header(name)[0];
  }

  /** The next header after a path's first line starts the next path. */
  lemma FindsNextPath(store: Store, k: nat, j: nat)
    requires GoodStore(store) && k < |store| && FirstWith(StoreLines(store), "[", LineIndex(store, k) + 1, j)
    ensures j == LineIndex(store, k + 1)
  {
    hide StoreLines, Header;
    var lines := StoreLines(store);
    OptionLines(store, k);
    PathSpan(store, k);
    assert j < |lines| ==> IsHeader(lines[j]);
    var b := LineIndex(store, k + 1);
    assert j >= b;
    if k + 1 < |store| {
      PathSpan(store, k + 1);
      assert GoodPath(store[k + 1]);
      HeaderGood(store[k + 1].name);
      assert "[" <= lines[b];
    } else {
      assert store[..k + 1] == store;
    }
  }

  // ---------------------------------------------------------------------------
  // The operations on an ordered list of paths

  function WithoutPath(store: Store, name: string): Store {
    var k := IndexOf(store, name);
    if k == |store| then store else store[..k] + store[k + 1..]
  }

  /** Replaces the path, which goes to the end. */
  function WithPath(store: Store, p: Path): Store {
    WithoutPath(store, p.name) + [p]
  }

  /** The options without the first one that begins with `option`. */
  function WithoutLine(options: seq<string>, option: string): seq<string> {
    if options == [] then []
    else if option <= options[0] then options[1..]
    else [options[0]] + WithoutLine(options[1..], option)
  }

  function WithoutOption(store: Store, name: string, option: string): Store {
    var k := IndexOf(store, name);
    if k == |store| then store
    else store[k := store[k].(options := WithoutLine(store[k].options, option))]
  }

  lemma WithoutPathLines(store: Store, k: nat)
    requires k < |store|
    ensures var lines := StoreLines(store);
            && LineIndex(store, k) <= LineIndex(store, k + 1) <= |lines|
            && StoreLines(store[..k] + store[k + 1..]) == lines[..LineIndex(store, k)] + lines[LineIndex(store, k + 1)..]
  {
    hide StoreLines;
    PathSpan(store, k);
    LinesSplit(store, k);
    LinesSplit(store, k + 1);
    LinesConcat(store[..k], store[k + 1..]);
  }

  lemma {:induction false} WithoutLineAt(options: seq<string>, option: string, m: nat)
    requires FirstWith(options, option, 0, m)
    ensures WithoutLine(options, option) == if m == |options| then options else options[..m] + options[m + 1..]
  {
    if options != [] && m > 0 {
      var tail := options[1..];
      FirstInTail(options, option, m);
      WithoutLineAt(tail, option, m - 1);
    }
  }

  lemma FirstInTail(options: seq<string>, option: string, m: nat)
    requires options != [] && m > 0 && FirstWith(options, option, 0, m)
    ensures FirstWith(options[1..], option, 0, m - 1)
  {
    var tail := options[1..];
    forall j | 0 <= j < m - 1
      ensures !(option <= tail[j])
    {
      assert tail[j] == options[j + 1];
    }
  }

  /** Removing a line inside a path removes that option. */
  lemma WithoutOptionLines(store: Store, k: nat, option: string, m: nat)
    requires k < |store|
    requires var b := LineIndex(store, k + 1);
             b <= |StoreLines(store)| && FirstWith(StoreLines(store)[..b], option, LineIndex(store, k) + 1, m)
    ensures var lines := StoreLines(store);
            var p := store[k].(options := WithoutLine(store[k].options, option));
            StoreLines(store[k := p]) ==
              if m == LineIndex(store, k + 1) then lines else lines[..m] + lines[m + 1..]
  {
    hide StoreLines, WithoutLine, Header;
    PathSpan(store, k);
    LinesSplit(store, k);
    LinesSplit(store, k + 1);
    var lines, a, b := StoreLines(store), LineIndex(store, k), LineIndex(store, k + 1);
    var options := store[k].options;
    assert options == lines[a + 1..b];
    var i := m - a - 1;
    assert FirstWith(options, option, 0, i) by {
      assert forall j :: 0 <= j < |options| ==> options[j] == lines[..b][a + 1 + j];
    }
    WithoutLineAt(options, option, i);
    var p := store[k].(options := WithoutLine(options, option));
    assert store[k := p] == store[..k] + [p] + store[k + 1..];
    LinesConcat(store[..k] + [p], store[k + 1..]);
    LinesConcat(store[..k], [p]);
    OnePath(p);
    CutInside(lines, a, b, m);
  }

  lemma CutInside(lines: seq<string>, a: nat, b: nat, m: nat)
    requires a < m <= b <= |lines|
    ensures var options := lines[a + 1..b];
            var i := m - a - 1;
            lines[..a] + ([lines[a]] + (if m == b then options else options[..i] + options[i + 1..])) + lines[b..] ==
              if m == b then lines else lines[..m] + lines[m + 1..]
  {
  }
}
