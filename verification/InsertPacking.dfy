/** The extended INSERT statements of `mysqldump.cc`: rows are packed into statements
    as long as a running estimate of the statement's length stays under the limit. */
module InsertPacking {

  function Commas(rows: seq<string>): string {
    if rows == [] then [] else if |rows| == 1 then rows[0] else Commas(rows[..|rows| - 1]) + "," + rows[|rows| - 1]
  }

  /** A statement as it is written. */
  function Statement(pat: string, rows: seq<string>): string {
    pat + Commas(rows) + ";\n"
  }

  function Statements(pat: string, groups: seq<seq<string>>): string {
    if groups == [] then [] else Statements(pat, groups[..|groups| - 1]) + Statement(pat, groups[|groups| - 1])
  }

  /** The rows of all the statements, in order. */
  function Flatten(groups: seq<seq<string>>): seq<string> {
    if groups == [] then [] else groups[0] + Flatten(groups[1..])
  }

  /** The estimate: two more than each row, four more than the pattern. */
  function Estimate(pat: string, rows: seq<string>): nat {
    if rows == [] then |pat| + 4 else Estimate(pat, rows[..|rows| - 1]) + 2 + |rows[|rows| - 1]|
  }

  /** The row that follows these would bring the estimate to the limit. */
  predicate Full(pat: string, limit: nat, rows: seq<string>, next: string) {
    Estimate(pat, rows) + 2 + |next| >= limit
  }

  /** No statement is empty, one with several rows stays under the limit by its
      estimate, and the next one was started because its first row would not. */
  ghost predicate Packed(pat: string, limit: nat, groups: seq<seq<string>>) {
    && (forall i :: 0 <= i < |groups| ==> groups[i] != [] && (|groups[i]| > 1 ==> Estimate(pat, groups[i]) < limit))
    && (forall i, j :: 0 <= i && j == i + 1 < |groups| ==> Full(pat, limit, groups[i], groups[j][0]))
  }

  lemma {:induction false} EstimateBounds(pat: string, rows: seq<string>)
    requires rows != []
    ensures |Statement(pat, rows)| < Estimate(pat, rows)
  {
    var k := |rows| - 1;
    if k > 0 {
      EstimateBounds(pat, rows[..k]);
    } else {
      assert rows[..0] == [];
    }
  }

  function Total(rows: seq<string>): nat {
    if rows == [] then 0 else Total(rows[..|rows| - 1]) + |rows[|rows| - 1]|
  }

  /** Beyond the text of the rows and the pattern, the estimate counts two for each row and
      four in all, while the statement has one for each row and one in all. */
  lemma {:induction false} EstimateIs(pat: string, rows: seq<string>)
    ensures Estimate(pat, rows) == |pat| + Total(rows) + 2 * |rows| + 4
    ensures rows != [] ==> |Statement(pat, rows)| == |pat| + Total(rows) + |rows| + 1
  {
    if rows != [] {
      EstimateIs(pat, rows[..|rows| - 1]);
    }
  }

  lemma TwoStatements(pat: string, a: string, b: string, c: string)
    ensures Statements(pat, [[a, b], [c]]) == (pat + a + "," + b + ";\n") + (pat + c + ";\n")
  {
    var groups := [[a, b], [c]];
    assert groups[..1] == [[a, b]] && [[a, b]][..0] == [] && [a, b][..1] == [a];
    assert Statements(pat, []) + Statement(pat, [a, b]) == Statement(pat, [a, b]);
    assert Commas([a, b]) == a + "," + b;
    assert pat + (a + "," + b) + ";\n" == pat + a + "," + b + ";\n";
  }

  /** A packed statement with several rows is really shorter than the limit. */
  lemma PackedFits(pat: string, limit: nat, groups: seq<seq<string>>, i: nat)
    requires Packed(pat, limit, groups) && i < |groups| && |groups[i]| > 1
    ensures |Statement(pat, groups[i])| < limit
  {
    EstimateBounds(pat, groups[i]);
  }

  /** The part of the dump written so far: the last statement is not closed yet. */
  function Unfinished(pat: string, groups: seq<seq<string>>): string {
    if groups == [] then []
    else Statements(pat, groups[..|groups| - 1]) + pat + Commas(groups[|groups| - 1])
  }

  /** The loop over the rows: what is written is the rows, all of them, once and in
      order, in packed statements. */
  method Pack(pat: string, rows: seq<string>, limit: nat) returns (out: string)
    ensures exists groups :: Packed(pat, limit, groups) && Flatten(groups) == rows && out == Statements(pat, groups)
  {
    hide Commas, Statements, Flatten, Estimate, Packed;
    out := [];
    ghost var groups: seq<seq<string>> := [];
    var totalLength := limit;
    var rowBreak := false;
    var initLength := |pat| + 4;
    NothingYet(pat, limit);
    for i := 0 to |rows|
      invariant Flatten(groups) == rows[..i] && Packed(pat, limit, groups)
      invariant out == Unfinished(pat, groups)
      invariant rowBreak == (groups != [])
      invariant totalLength == if groups == [] then limit else Estimate(pat, groups[|groups| - 1])
    {
      var row := rows[i];
      var rowLength := 2 + |row|;
      assert rows[..i + 1] == rows[..i] + [row];
      if totalLength + rowLength < limit {
        totalLength := totalLength + rowLength;
        out := out + "," + row;
        RowJoins(pat, limit, groups, row);
        groups := Joined(groups, row);
      } else {
        if rowBreak {
          out := out + ";\n";
        }
        rowBreak := true;
        out := out + pat + row;
        totalLength := rowLength + initLength;
        RowStarts(pat, limit, groups, row);
        groups := groups + [[row]];
      }
    }
    assert rows[..|rows|] == rows;
    Closing(pat, groups);
    if rowBreak {
      out := out + ";\n";
    }
  }

  /** The row goes to the last statement. */
  function Joined(groups: seq<seq<string>>, row: string): seq<seq<string>>
    requires groups != []
  {
    groups[..|groups| - 1] + [groups[|groups| - 1] + [row]]
  }

  lemma NothingYet(pat: string, limit: nat)
    ensures Flatten([]) == [] && Statements(pat, []) == [] && Packed(pat, limit, [])
  {
  }

  lemma {:induction false} FlattenSnoc(groups: seq<seq<string>>, last: seq<string>)
    ensures Flatten(groups + [last]) == Flatten(groups) + last
  {
    if groups == [] {
      assert [last][1..] == [];
    } else {
      FlattenSnoc(groups[1..], last);
      assert (groups + [last])[1..] == groups[1..] + [last];
    }
  }

  lemma RowGrows(pat: string, rows: seq<string>, row: string)
    ensures Estimate(pat, rows + [row]) == Estimate(pat, rows) + 2 + |row|
    ensures Commas(rows + [row]) == if rows == [] then row else Commas(rows) + "," + row
  {
    assert (rows + [row])[..|rows|] == rows;
  }

  lemma RowJoins(pat: string, limit: nat, groups: seq<seq<string>>, row: string)
    requires groups != [] && Packed(pat, limit, groups)
    requires !Full(pat, limit, groups[|groups| - 1], row)
    ensures Flatten(Joined(groups, row)) == Flatten(groups) + [row]
    ensures Unfinished(pat, Joined(groups, row)) == Unfinished(pat, groups) + "," + row
    ensures Estimate(pat, groups[|groups| - 1] + [row]) == Estimate(pat, groups[|groups| - 1]) + 2 + |row|
    ensures Packed(pat, limit, Joined(groups, row))
  {
    hide Commas, Statements, Flatten, Estimate, Packed;
    var k := |groups| - 1;
    var front, last := groups[..k], groups[k];
    RowGrows(pat, last, row);
    FlattenSnoc(front, last);
    FlattenSnoc(front, last + [row]);
    assert groups == front + [last];
    assert Joined(groups, row)[..k] == front;
    PackedJoined(pat, limit, groups, row);
  }

  lemma PackedJoined(pat: string, limit: nat, groups: seq<seq<string>>, row: string)
    requires groups != [] && Packed(pat, limit, groups)
    requires !Full(pat, limit, groups[|groups| - 1], row)
    ensures Packed(pat, limit, Joined(groups, row)) && groups[|groups| - 1] != []
  {
    hide Estimate, Commas;
    var k := |groups| - 1;
    RowGrows(pat, groups[k], row);
    var g := Joined(groups, row);
    assert g[k][0] == groups[k][0];
    assert forall i :: 0 <= i < k ==> g[i] == groups[i];
  }

  lemma RowStarts(pat: string, limit: nat, groups: seq<seq<string>>, row: string)
    requires Packed(pat, limit, groups)
    requires groups != [] ==> Full(pat, limit, groups[|groups| - 1], row)
    ensures Flatten(groups + [[row]]) == Flatten(groups) + [row]
    ensures Unfinished(pat, groups + [[row]]) == Unfinished(pat, groups) + (if groups == [] then "" else ";\n") + pat + row
    ensures Estimate(pat, [row]) == |pat| + 4 + 2 + |row|
    ensures Packed(pat, limit, groups + [[row]])
  {
    hide Commas, Statements, Flatten, Estimate, Packed;
    assert [] + [row] == [row];
    RowGrows(pat, [], row);
    EstimateOfNone(pat);
    Closing(pat, groups);
    FlattenSnoc(groups, [row]);
    PackedSnoc(pat, limit, groups, row);
    assert (groups + [[row]])[..|groups|] == groups;
  }

  lemma PackedSnoc(pat: string, limit: nat, groups: seq<seq<string>>, row: string)
    requires Packed(pat, limit, groups)
    requires groups != [] ==> Full(pat, limit, groups[|groups| - 1], row)
    ensures Packed(pat, limit, groups + [[row]])
  {
    hide Estimate;
    var g := groups + [[row]];
    assert forall i :: 0 <= i < |groups| ==> g[i] == groups[i];
  }

  lemma EstimateOfNone(pat: string)
    ensures Estimate(pat, []) == |pat| + 4
  {
  }

  lemma Closing(pat: string, groups: seq<seq<string>>)
    ensures Statements(pat, groups) == Unfinished(pat, groups) + if groups == [] then "" else ";\n"
  {
    hide Commas;
    if groups != [] {
      Reassociate(Statements(pat, groups[..|groups| - 1]), pat, Commas(groups[|groups| - 1]), ";\n");
    }
  }

  lemma Reassociate(a: string, b: string, c: string, d: string)
    ensures a + (b + c + d) == a + b + c + d
  {
  }

  /** There is only one way to pack rows. */
  lemma {:induction false} PackingUnique(pat: string, limit: nat, a: seq<seq<string>>, b: seq<seq<string>>)
    requires Packed(pat, limit, a) && Packed(pat, limit, b) && Flatten(a) == Flatten(b)
    ensures a == b
    decreases |a|
  {
    assert forall i :: 0 <= i < |b| ==> b[i] != [];
    if a == [] || b == [] {
    } else {
      FirstNotShorter(pat, limit, a, b);
      FirstNotShorter(pat, limit, b, a);
      var all := Flatten(a);
      assert a[0] == all[..|a[0]|] && b[0] == all[..|b[0]|];
      assert Flatten(a[1..]) == all[|a[0]|..] && Flatten(b[1..]) == all[|b[0]|..];
      PackedTail(pat, limit, a);
      PackedTail(pat, limit, b);
      PackingUnique(pat, limit, a[1..], b[1..]);
      assert a == [a[0]] + a[1..] && b == [b[0]] + b[1..];
    }
  }

  lemma PackedTail(pat: string, limit: nat, a: seq<seq<string>>)
    requires Packed(pat, limit, a) && a != []
    ensures Packed(pat, limit, a[1..])
  {
    hide Estimate;
    var t := a[1..];
    assert forall i :: 0 <= i < |t| ==> t[i] == a[i + 1];
  }

  lemma {:induction false} EstimateMonotone(pat: string, rows: seq<string>, n: nat)
    requires n < |rows|
    ensures Estimate(pat, rows[..n]) + 2 + |rows[n]| <= Estimate(pat, rows)
  {
    var k := |rows| - 1;
    if n < k {
      EstimateMonotone(pat, rows[..k], n);
      assert rows[..k][..n] == rows[..n] && rows[..k][n] == rows[n];
    }
  }

  /** The first statement cannot be shorter than another packing makes it. */
  lemma FirstNotShorter(pat: string, limit: nat, a: seq<seq<string>>, b: seq<seq<string>>)
    requires Packed(pat, limit, a) && Packed(pat, limit, b) && Flatten(a) == Flatten(b)
    requires a != [] && b != []
    ensures |a[0]| >= |b[0]|
  {
    hide Estimate;
    var n, all := |a[0]|, Flatten(a);
    assert all[..n] == a[0] && all[n..] == Flatten(a[1..]) && all[..|b[0]|] == b[0];
    assert |a| > 1 ==> a[1..][0] == a[1] && all[n..][0] == a[1][0] && Full(pat, limit, a[0], all[n]);
    assert n <= |b[0]| ==> b[0][..n] == a[0];
    if n < |b[0]| {
      EstimateMonotone(pat, b[0], n);
    }
  }
}
