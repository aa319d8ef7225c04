/** Whole commands of `mysql_config_editor.cc` on the login file, after its header:
    read, edit, write. */
module LoginSaved {
  import opened Optional
  import opened ByteOrder
  import opened LoginText
  import opened LoginStore
  import opened LoginSections
  import opened LoginEditor
  import opened LoginCommands
  import opened LoginFile

  /** The lines before the first that is too long. */
  function FittingLines(lines: seq<string>): seq<string> {
    if lines == [] || !Fits(lines[0]) then [] else [lines[0]] + FittingLines(lines[1..])
  }

  lemma {:induction false} FittingWritten(aes: Aes, lines: seq<string>)
    ensures Records(aes, lines) == Records(aes, FittingLines(lines)) && AllFit(FittingLines(lines))
    ensures AllFit(lines) ==> FittingLines(lines) == lines
    ensures forall l <- FittingLines(lines) :: l in lines
  {
    hide Fits;
    if lines != [] && Fits(lines[0]) {
      FittingWritten(aes, lines[1..]);
      var rest := FittingLines(lines[1..]);
      assert FittingLines(lines)[1..] == rest;
      assert forall l <- rest :: l in lines[1..];
      assert AllFit(lines) ==> forall i :: 0 <= i < |lines| - 1 ==> lines[1..][i] == lines[i + 1];
    }
  }

  /** What the written file reads as, whether or not the write got to the end. */
  function Readable(text: string): string {
    Concat(FittingLines(CompleteLines(text)))
  }

  lemma WrittenReads(aes: Aes, text: string)
    requires Sound(aes) && NUL !in text && IsBytes(text)
    ensures Decoded(aes, Records(aes, CompleteLines(text))) == Some(Readable(text))
    ensures AllFit(CompleteLines(text)) && (text == [] || text[|text| - 1] == '\n') ==> Readable(text) == text
  {
    hide Decoded, Records, Concat, CompleteLines, Sound, FittingLines, AllFit;
    LoginFile.LinesConcat(text);
    var lines := CompleteLines(text);
    FittingWritten(aes, lines);
    var fit := FittingLines(lines);
    assert forall i :: 0 <= i < |fit| ==> fit[i] in fit && fit[i] in lines;
    DecodeRecords(aes, fit);
  }

  lemma LinesEnd(lines: seq<string>)
    ensures Join(lines) == [] || Join(lines)[|Join(lines)| - 1] == '\n'
  {
    JoinEnds(lines);
  }

  lemma LinesClean(lines: seq<string>)
    requires GoodLines(lines)
    ensures NUL !in Join(lines)
  {
    forall l | l in lines
      ensures NUL !in l
    {
      var i :| 0 <= i < |lines| && lines[i] == l;
      assert GoodLine(lines[i]);
    }
    JoinClean(lines);
  }

  /** The file holds the lines, or cannot be read. */
  ghost predicate Holds(aes: Aes, file: seq<Byte>, lines: seq<string>) {
    Wellformed(lines) && (Decoded(aes, file).None? || Decoded(aes, file) == Some(Join(lines)))
  }

  /** `read_and_decrypt_file` into a buffer. */
  method ReadFile(file: seq<Byte>, aes: Aes, ghost lines: seq<string>) returns (buf: DynamicString, ok: bool)
    requires Holds(aes, file, lines)
    ensures fresh(buf) && buf.Valid() && fresh(buf.str)
    ensures ok <==> Decoded(aes, file).Some?
    ensures ok ==> buf.Text() == Join(lines)
  {
    hide Decoded, Join;
    buf := new DynamicString();
    var r := ReadAndDecrypt(file, aes);
    ok := r.Some?;
    if ok {
      LinesClean(lines);
      buf.Append(r.value);
      assert [] + r.value == r.value;
    }
  }

  /** `set_command`, without the question it may ask: when it succeeds the file holds
      the lines with the path replaced, ready for the next command. It fails on a file
      that cannot be read, and then leaves it; and on a line that is too long, and then
      the file reads as the lines before that one, the old ones lost. */
  method SetCommand(file: seq<Byte>, name: string, login: Login, aes: Aes, ghost lines: seq<string>)
    returns (ok: bool, file': seq<Byte>)
    requires Sound(aes) && Holds(aes, file, lines) && GoodLine(name) && CStrings(login)
    requires IsBytes(Join(SetLines(lines, name, login)))
    ensures Decoded(aes, file).None? ==> !ok && file' == file
    ensures var after := SetLines(lines, name, login);
            && (ok <==> Decoded(aes, file).Some? && AllFit(CompleteLines(Join(after))))
            && (ok ==> Decoded(aes, file') == Some(Join(after)) && Holds(aes, file', after))
            && (Decoded(aes, file).Some? ==> Decoded(aes, file') == Some(Readable(Join(after))))
  {
    hide Decoded, Join, CompleteLines, AllFit, Records, SetLines, Readable, Sound, GoodLine, Wellformed;
    var buf, read := ReadFile(file, aes, lines);
    if !read {
      return false, file;
    }
    ghost var after := SetLines(lines, name, login);
    WellformedGood(lines);
    SetPath(buf, name, login, lines);
    SetKeeps(lines, name, login);
    LinesEnd(after);
    NulFreeText(buf);
    WrittenReads(aes, Join(after));
    ok, file' := EncryptAndWrite(buf, aes);
  }

  lemma WellformedGood(lines: seq<string>)
    requires Wellformed(lines)
    ensures GoodLines(lines)
  {
  }

  /** `remove_command`, in the same way. */
  method RemoveCommand(file: seq<Byte>, name: string, r: Removal, aes: Aes, ghost lines: seq<string>)
    returns (ok: bool, file': seq<Byte>)
    requires Sound(aes) && Holds(aes, file, lines) && GoodLine(name)
    requires IsBytes(Join(RemovedLines(lines, name, r)))
    ensures Decoded(aes, file).None? ==> !ok && file' == file
    ensures var after := RemovedLines(lines, name, r);
            && (ok <==> Decoded(aes, file).Some? && AllFit(CompleteLines(Join(after))))
            && (ok ==> Decoded(aes, file') == Some(Join(after)) && Holds(aes, file', after))
            && (Decoded(aes, file).Some? ==> Decoded(aes, file') == Some(Readable(Join(after))))
  {
    hide Decoded, Join, CompleteLines, AllFit, Records, Readable, Sound, RemovedLines, GoodLine, Wellformed;
    var buf, read := ReadFile(file, aes, lines);
    if !read {
      return false, file;
    }
    ghost var after := RemovedLines(lines, name, r);
    RemoveOptions(buf, name, r, lines);
    RemoveKeeps(lines, name, r);
    LinesEnd(after);
    NulFreeText(buf);
    WrittenReads(aes, Join(after));
    ok, file' := EncryptAndWrite(buf, aes);
  }

  lemma NulFreeText(buf: DynamicString)
    requires buf.Valid()
    ensures NUL !in buf.Text()
  {
  }
}
