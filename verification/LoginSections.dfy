/** The editing of `mysql_config_editor.cc` on the lines of any text: what a path is
    there, and what removing it or one of its options leaves. */
module LoginSections {
  import opened LoginText
  import opened LoginStore

  /** The first line from `from` on that begins with `pat`, or the number of lines. */
  function FirstFrom(lines: seq<string>, pat: string, from: nat): (i: nat)
    requires from <= |lines|
    ensures FirstWith(lines, pat, from, i)
    decreases |lines| - from
  {
    if from == |lines| || pat <= lines[from] then from else FirstFrom(lines, pat, from + 1)
  }

  lemma FirstIs(lines: seq<string>, pat: string, from: nat, i: nat)
    requires from <= |lines| && FirstWith(lines, pat, from, i)
    ensures FirstFrom(lines, pat, from) == i
  {
    hide FirstFrom;
    var j := FirstFrom(lines, pat, from);
    assert FirstWith(lines, pat, from, j);
  }

  /** Where a path begins: at the first line that begins with its header. */
  function SectionStart(lines: seq<string>, name: string): (i: nat)
    ensures i <= |lines|
  {
    FirstFrom(lines, Header(name), 0)
  }

  /** Where it ends: at the next line that begins with a bracket. */
  function SectionEnd(lines: seq<string>, i: nat): (j: nat)
    requires i < |lines|
    ensures i < j <= |lines|
  {
    FirstFrom(lines, "[", i + 1)
  }

  function WithoutSection(lines: seq<string>, name: string): seq<string> {
    var i := SectionStart(lines, name);
    if i == |lines| then lines else lines[..i] + lines[SectionEnd(lines, i)..]
  }

  /** Without the path's first line that begins with `option`. */
  function WithoutEntry(lines: seq<string>, name: string, option: string): seq<string> {
    var i := SectionStart(lines, name);
    if i == |lines| then lines
    else
      var j := SectionEnd(lines, i);
      var m := FirstFrom(lines[..j], option, i + 1);
      if m == j then lines else lines[..m] + lines[m + 1..]
  }

  // ---------------------------------------------------------------------------
  // In the text of a store, the section of a name is its path

  lemma SectionIsPath(store: Store, name: string)
    requires GoodStore(store) && GoodName(name)
    ensures var lines, k := StoreLines(store), IndexOf(store, name);
            && SectionStart(lines, name) == LineIndex(store, k)
            && (k == |store| <==> LineIndex(store, k) == |lines|)
            && (k < |store| ==>
                  && LineIndex(store, k) < |lines|
                  && SectionEnd(lines, LineIndex(store, k)) == LineIndex(store, k + 1)
                  && lines[LineIndex(store, k)..LineIndex(store, k + 1)] == PathLines(store[k]))
  {
    hide StoreLines, Header, IndexOf, FirstWith, FirstFrom;
    var lines, k := StoreLines(store), IndexOf(store, name);
    FindsPath(store, name, SectionStart(lines, name));
    LinesSplit(store, k);
    assert store[..|store|] == store;
    if k < |store| {
      PathSpan(store, k);
      var a, b := LineIndex(store, k), LineIndex(store, k + 1);
      FindsNextPath(store, k, SectionEnd(lines, a));
      assert lines[a..b] == [lines[a]] + lines[a + 1..b];
    }
  }

  /** Removing the section removes the path. */
  lemma WithoutSectionIsWithoutPath(store: Store, name: string)
    requires GoodStore(store) && GoodName(name)
    ensures WithoutSection(StoreLines(store), name) == StoreLines(WithoutPath(store, name))
  {
    hide StoreLines, Header, IndexOf, FirstFrom;
    SectionIsPath(store, name);
    var k := IndexOf(store, name);
    if k < |store| {
      WithoutPathLines(store, k);
    }
  }

  /** Removing the entry removes the option. */
  lemma WithoutEntryIsWithoutOption(store: Store, name: string, option: string)
    requires GoodStore(store) && GoodName(name)
    ensures WithoutEntry(StoreLines(store), name, option) == StoreLines(WithoutOption(store, name, option))
  {
    hide StoreLines, Header, IndexOf, FirstFrom, WithoutLine;
    SectionIsPath(store, name);
    var lines, k := StoreLines(store), IndexOf(store, name);
    if k < |store| {
      var a, b := LineIndex(store, k), LineIndex(store, k + 1);
      WithoutOptionLines(store, k, option, FirstFrom(lines[..b], option, a + 1));
    }
  }

  // ---------------------------------------------------------------------------
  // What every edit keeps

  /** What every text has that `set` and `remove` can make: it begins with a path. */
  predicate Wellformed(lines: seq<string>) {
    GoodLines(lines) && (lines != [] ==> IsHeader(lines[0]))
  }

  lemma WithoutSectionKeeps(lines: seq<string>, name: string)
    requires Wellformed(lines)
    ensures Wellformed(WithoutSection(lines, name))
  {
    hide Header, FirstFrom, GoodLine;
    var i := SectionStart(lines, name);
    if i < |lines| {
      var j := SectionEnd(lines, i);
      assert j < |lines| ==> IsHeader(lines[j]);
    }
  }

  lemma WithoutEntryKeeps(lines: seq<string>, name: string, option: string)
    requires Wellformed(lines)
    ensures Wellformed(WithoutEntry(lines, name, option))
  {
    hide Header, FirstFrom, GoodLine;
  }
}
