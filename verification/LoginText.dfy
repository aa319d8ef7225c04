/** The login file's text as lines: where a substring search can hit, and what
    cutting a piece out leaves. */
module LoginText {
  import opened Optional

  const NUL := '\0'

  /** The lines, each with its newline. */
  function Join(lines: seq<string>): string {
    if lines == [] then [] else lines[0] + "\n" + Join(lines[1..])
  }

  /** A line that can be told apart in the text. */
  predicate GoodLine(line: string) {
    '\n' !in line && NUL !in line
  }

  predicate GoodLines(lines: seq<string>) {
    forall i :: 0 <= i < |lines| ==> GoodLine(lines[i])
  }

  /** Where line `i` starts. */
  function Start(lines: seq<string>, i: nat): nat
    requires i <= |lines|
  {
    |Join(lines[..i])|
  }

  lemma {:induction false} JoinConcat(a: seq<string>, b: seq<string>)
    ensures Join(a + b) == Join(a) + Join(b)
  {
    if a == [] {
      assert a + b == b;
    } else {
      assert (a + b)[0] == a[0] && (a + b)[1..] == a[1..] + b;
      JoinConcat(a[1..], b);
    }
  }

  lemma JoinSplit(lines: seq<string>, i: nat)
    requires i <= |lines|
    ensures Start(lines, i) <= |Join(lines)|
    ensures Join(lines)[..Start(lines, i)] == Join(lines[..i])
    ensures Join(lines)[Start(lines, i)..] == Join(lines[i..])
  {
    assert lines == lines[..i] + lines[i..];
    JoinConcat(lines[..i], lines[i..]);
  }

  lemma StartNext(lines: seq<string>, i: nat)
    requires i < |lines|
    ensures Start(lines, i + 1) == Start(lines, i) + |lines[i]| + 1 <= |Join(lines)|
    ensures Join(lines)[Start(lines, i)..Start(lines, i + 1)] == lines[i] + "\n"
  {
    assert lines[..i + 1] == lines[..i] + [lines[i]];
    JoinConcat(lines[..i], [lines[i]]);
    assert Join([lines[i]]) == lines[i] + "\n";
    JoinSplit(lines, i);
    JoinSplit(lines, i + 1);
    assert Join(lines)[..Start(lines, i + 1)] == Join(lines[..i]) + (lines[i] + "\n");
    assert Join(lines)[Start(lines, i)..Start(lines, i + 1)] == Join(lines)[..Start(lines, i + 1)][Start(lines, i)..];
  }

  lemma StartEnd(lines: seq<string>)
    ensures Start(lines, |lines|) == |Join(lines)| && Start(lines, 0) == 0
  {
    assert lines[..|lines|] == lines;
  }

  lemma {:induction false} StartMonotone(lines: seq<string>, i: nat, j: nat)
    requires i <= j <= |lines|
    ensures Start(lines, i) <= Start(lines, j)
    ensures i < j ==> Start(lines, i) < Start(lines, j)
    decreases j - i
  {
    if i < j {
      StartNext(lines, i);
      StartMonotone(lines, i + 1, j);
    }
  }

  predicate Occurs(text: string, pat: string, k: nat) {
    k + |pat| <= |text| && text[k..k + |pat|] == pat
  }

  /** `strstr`: the first occurrence from `from` on. */
  method StrStr(text: string, from: nat, pat: string) returns (r: Option<nat>)
    requires from <= |text|
    ensures r.Some? ==>
              && from <= r.value && Occurs(text, pat, r.value)
              && forall k :: from <= k < r.value ==> !Occurs(text, pat, k)
    ensures r.None? ==> forall k: nat :: from <= k ==> !Occurs(text, pat, k)
  {
    var k := from;
    while k + |pat| <= |text|
      invariant from <= k
      invariant forall m :: from <= m < k ==> !Occurs(text, pat, m)
    {
      if text[k..k + |pat|] == pat {
        return Some(k);
      }
      k := k + 1;
    }
    r := None;
  }

  lemma OccursCons(text: string, c: char, pat: string, k: nat)
    ensures Occurs(text, [c] + pat, k) <==> k < |text| && text[k] == c && Occurs(text, pat, k + 1)
  {
    if k + 1 + |pat| <= |text| {
      assert text[k..k + 1 + |pat|] == [text[k]] + text[k + 1..k + 1 + |pat|];
    }
  }

  lemma OccursIsPrefix(text: string, pat: string, k: nat)
    requires k <= |text|
    ensures Occurs(text, pat, k) <==> pat <= text[k..]
  {
    if k + |pat| <= |text| {
      assert text[k..][..|pat|] == text[k..k + |pat|];
    }
  }

  lemma PrefixOfLine(line: string, rest: string, pat: string)
    requires '\n' !in line && '\n' !in pat
    ensures pat <= line + "\n" + rest <==> pat <= line
  {
    var full := line + "\n" + rest;
    assert full[|line|] == '\n';
    if |pat| <= |line| {
      assert full[..|pat|] == line[..|pat|];
    } else {
      assert pat[|line|] in pat;
      assert pat[|line|] != full[|line|];
    }
  }

  /** A newline-free pattern at the start of a line is a prefix of that line. */
  lemma OccursAtLine(lines: seq<string>, i: nat, pat: string)
    requires i < |lines| && '\n' !in lines[i] && '\n' !in pat
    ensures Occurs(Join(lines), pat, Start(lines, i)) <==> pat <= lines[i]
  {
    JoinSplit(lines, i);
    OccursIsPrefix(Join(lines), pat, Start(lines, i));
    assert Join(lines[i..]) == lines[i] + "\n" + Join(lines[i..][1..]);
    hide Join, Occurs, Start;
    PrefixOfLine(lines[i], Join(lines[i..][1..]), pat);
  }

  /** Which line a position belongs to. */
  lemma {:induction false} LineOf(lines: seq<string>, k: nat) returns (i: nat)
    requires k < |Join(lines)|
    ensures i < |lines| && Start(lines, i) <= k < Start(lines, i + 1) <= |Join(lines)|
  {
    StartEnd(lines);
    i := LineOfFrom(lines, k, |lines|);
  }

  lemma {:induction false} LineOfFrom(lines: seq<string>, k: nat, n: nat) returns (i: nat)
    requires n <= |lines| && k < Start(lines, n)
    ensures i < n && Start(lines, i) <= k < Start(lines, i + 1) <= |Join(lines)|
    decreases n
  {
    StartEnd(lines);
    StartNext(lines, n - 1);
    if Start(lines, n - 1) <= k {
      i := n - 1;
    } else {
      i := LineOfFrom(lines, k, n - 1);
    }
  }

  /** A newline of the text ends a line. */
  lemma NewlineEndsLine(lines: seq<string>, k: nat) returns (i: nat)
    requires GoodLines(lines) && k < |Join(lines)| && Join(lines)[k] == '\n'
    ensures i < |lines| && Start(lines, i + 1) == k + 1
  {
    i := LineOf(lines, k);
    StartNext(lines, i);
    var line := Join(lines)[Start(lines, i)..Start(lines, i + 1)];
    var d := k - Start(lines, i);
    assert forall m :: 0 <= m < |lines[i]| ==> line[m] == lines[i][m] && lines[i][m] in lines[i];
    assert line[d] == '\n';
  }
}
