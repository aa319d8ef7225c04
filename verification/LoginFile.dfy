/** The login file's format: after the header, one record per line, made of the
    length of the cipher text in four bytes and the cipher text. */
module LoginFile {
  import opened Optional
  import opened ByteOrder
  import opened LoginText
  import opened LoginEditor

  const MY_LINE_MAX := 4096
  const MAX_CIPHER_STORE_LEN := 4

  /** AES as a pair of functions; decryption may fail. Plain text is a C string, so it
      is made of bytes. */
  datatype Aes = Aes(encrypt: string -> seq<Byte>, decrypt: seq<Byte> -> Option<string>)

  predicate IsBytes(s: string) {
    forall c <- s :: c as int < 256
  }

  /** `my_aes_get_size` for 128-bit ECB. */
  function AesSize(n: nat): nat {
    16 * (n / 16) + 16
  }

  /** Decryption undoes encryption, and the size is as announced. */
  ghost predicate Sound(aes: Aes) {
    forall s: string :: IsBytes(s) ==> |aes.encrypt(s)| == AesSize(|s|) && aes.decrypt(aes.encrypt(s)) == Some(s)
  }

  /** Where the first newline is. */
  function Newline(text: string): Option<nat> {
    if text == [] then None
    else if text[0] == '\n' then Some(0)
    else match Newline(text[1..]) case None => None case Some(k) => Some(k + 1)
  }

  lemma {:induction false} NewlineAt(text: string, k: nat)
    ensures Newline(text).Some? ==> Newline(text).value < |text|
    ensures k <= |text| && '\n' !in text[..k] ==>
              Newline(text) == match Newline(text[k..]) case None => None case Some(j) => Some(j + k)
    decreases k, |text|
  {
    if text != [] {
      NewlineAt(text[1..], if k == 0 then 0 else k - 1);
      if 0 < k <= |text| && '\n' !in text[..k] {
        assert text[0] == text[..k][0];
        assert text[1..][..k - 1] == text[..k][1..];
        assert text[1..][k - 1..] == text[k..];
        assert forall c <- text[..k][1..] :: c in text[..k];
      }
    }
    if k == 0 {
      assert text[0..] == text;
    }
  }

  /** The complete lines of a text, each with its newline; a last line without one
      is not among them. */
  function CompleteLines(text: string): seq<string>
    decreases |text|
  {
    NewlineAt(text, 0);
    match Newline(text)
    case None => []
    case Some(k) => [text[..k + 1]] + CompleteLines(text[k + 1..])
  }

  function Concat(lines: seq<string>): string {
    if lines == [] then [] else lines[0] + Concat(lines[1..])
  }

  predicate Fits(line: string) {
    AesSize(|line|) <= MY_LINE_MAX - MAX_CIPHER_STORE_LEN
  }

  /** The cipher text is the next multiple of 16 bytes, and a line with its newline fits if
      it has less than 4080 bytes. */
  lemma FitsIff(line: string)
    ensures AesSize(|line|) % 16 == 0 && |line| < AesSize(|line|) <= |line| + 16
    ensures Fits(line) <==> |line| < 4080
  {
  }

  function Record(aes: Aes, line: string): seq<Byte> {
    Bytes4(AesSize(|line|)) + aes.encrypt(line)
  }

  /** The records written: those of the lines before the first that does not fit. */
  function Records(aes: Aes, lines: seq<string>): seq<Byte> {
    if lines == [] || !Fits(lines[0]) then [] else Record(aes, lines[0]) + Records(aes, lines[1..])
  }

  predicate AllFit(lines: seq<string>) {
    forall i :: 0 <= i < |lines| ==> Fits(lines[i])
  }

  /** The C string at the start of a buffer. */
  function UpToNul(s: string): string {
    if s == [] || s[0] == NUL then [] else [s[0]] + UpToNul(s[1..])
  }

  /** What the reader makes of the records: the text, or nothing after an error. A
      record cut short by the end of the file is skipped. */
  function Decoded(aes: Aes, file: seq<Byte>): Option<string>
    decreases |file|
  {
    if |file| < MAX_CIPHER_STORE_LEN then Some([])
    else
      var n := Value4(file[..4]);
      if n > MY_LINE_MAX then None
      else if |file| < 4 + n then Some([])
      else
        match aes.decrypt(file[4..4 + n])
        case None => None
        case Some(plain) =>
          if plain == [] then None else Prepend(UpToNul(plain), Decoded(aes, file[4 + n..]))
  }

  function Prepend(text: string, r: Option<string>): Option<string> {
    match r case None => None case Some(t) => Some(text + t)
  }

  lemma PrependLaws(a: string, b: string, r: Option<string>)
    ensures Prepend([], r) == r && Prepend(a, Some([])) == Some(a)
    ensures Prepend(a, Prepend(b, r)) == Prepend(a + b, r)
  {
    if r.Some? {
      assert [] + r.value == r.value && a + (b + r.value) == a + b + r.value;
    }
    assert a + [] == a;
  }

  lemma {:induction false} UpToNulAll(s: string)
    requires NUL !in s
    ensures UpToNul(s) == s
  {
    if s != [] {
      UpToNulAll(s[1..]);
    }
  }

  lemma {:induction false} LinesConcat(text: string)
    ensures Concat(CompleteLines(text)) <= text
    ensures text == [] || text[|text| - 1] == '\n' <==> Concat(CompleteLines(text)) == text
    ensures forall l <- CompleteLines(text) :: l != [] && forall c <- l :: c in text
    decreases |text|
  {
    NewlineAt(text, 0);
    match Newline(text) {
      case None =>
        NoNewline(text);
      case Some(k) =>
        var rest := text[k + 1..];
        LinesConcat(rest);
        assert text == text[..k + 1] + rest;
        HasNewline(text);
        assert CompleteLines(text)[1..] == CompleteLines(rest);
    }
  }

  lemma {:induction false} NoNewline(text: string)
    requires Newline(text).None?
    ensures '\n' !in text
  {
    if text != [] {
      NoNewline(text[1..]);
    }
  }

  lemma {:induction false} HasNewline(text: string)
    requires Newline(text).Some?
    ensures Newline(text).value < |text| && text[Newline(text).value] == '\n' && '\n' !in text[..Newline(text).value]
  {
    if text[0] != '\n' {
      HasNewline(text[1..]);
      var k := Newline(text).value;
      assert text[..k] == [text[0]] + text[1..][..k - 1];
    }
  }

  /** Every record the writer accepts passes the reader's length check and decrypts
      to its line. */
  lemma DecodeRecord(aes: Aes, line: string, rest: seq<Byte>)
    requires Sound(aes) && Fits(line) && line != [] && NUL !in line && IsBytes(line)
    ensures Decoded(aes, Record(aes, line) + rest) ==
            Prepend(line, Decoded(aes, rest))
  {
    hide Bytes4, Value4, UpToNul;
    var file := Record(aes, line) + rest;
    var n := AesSize(|line|);
    assert |aes.encrypt(line)| == n && aes.decrypt(aes.encrypt(line)) == Some(line);
    assert file[..4] == Bytes4(n);
    assert file[4..4 + n] == aes.encrypt(line);
    assert file[4 + n..] == rest;
    UpToNulAll(line);
  }

  /** Of a record with a NUL only what is before it is read. */
  lemma RecordWithNul(aes: Aes, line: string, more: string, rest: seq<Byte>)
    requires var whole := line + ([NUL] + more); Sound(aes) && Fits(whole) && IsBytes(whole)
    requires NUL !in line
    ensures Decoded(aes, Record(aes, line + ([NUL] + more)) + rest) == Prepend(line, Decoded(aes, rest))
  {
    hide Bytes4, Value4, UpToNul, IsBytes;
    var whole := line + ([NUL] + more);
    var file := Record(aes, whole) + rest;
    var n := AesSize(|whole|);
    assert |aes.encrypt(whole)| == n && aes.decrypt(aes.encrypt(whole)) == Some(whole);
    assert file[..4] == Bytes4(n);
    assert file[4..4 + n] == aes.encrypt(whole);
    assert file[4 + n..] == rest;
    UpToNulFirst(line, more);
  }

  lemma {:induction false} UpToNulFirst(line: string, more: string)
    requires NUL !in line
    ensures UpToNul(line + ([NUL] + more)) == line
  {
    var whole := line + ([NUL] + more);
    if line != [] {
      assert whole[1..] == line[1..] + ([NUL] + more);
      UpToNulFirst(line[1..], more);
    }
  }

  /** Records are read one after the other, whatever follows them. */
  lemma {:induction false} DecodeFront(aes: Aes, lines: seq<string>, rest: seq<Byte>)
    requires Sound(aes) && AllFit(lines)
    requires forall i :: 0 <= i < |lines| ==> lines[i] != [] && NUL !in lines[i] && IsBytes(lines[i])
    ensures Decoded(aes, Records(aes, lines) + rest) == Prepend(Concat(lines), Decoded(aes, rest))
  {
    hide Decoded, Sound, Record;
    if lines == [] {
      assert Records(aes, lines) + rest == rest;
      PrependLaws([], [], Decoded(aes, rest));
    } else {
      DecodeFront(aes, lines[1..], rest);
      var tail := Records(aes, lines[1..]);
      assert Records(aes, lines) + rest == Record(aes, lines[0]) + (tail + rest);
      DecodeRecord(aes, lines[0], tail + rest);
      PrependLaws(lines[0], Concat(lines[1..]), Decoded(aes, rest));
    }
  }

  lemma DecodeRecords(aes: Aes, lines: seq<string>)
    requires Sound(aes) && AllFit(lines)
    requires forall i :: 0 <= i < |lines| ==> lines[i] != [] && NUL !in lines[i] && IsBytes(lines[i])
    ensures Decoded(aes, Records(aes, lines)) == Some(Concat(lines))
  {
    hide Records, Concat, Sound;
    DecodeFront(aes, lines, []);
    assert Records(aes, lines) + [] == Records(aes, lines);
    PrependLaws(Concat(lines), [], Some([]));
  }

  /** A file that is cut off reads as its whole records. */
  lemma CutFile(aes: Aes, lines: seq<string>, cut: seq<Byte>)
    requires Sound(aes) && AllFit(lines)
    requires forall i :: 0 <= i < |lines| ==> lines[i] != [] && NUL !in lines[i] && IsBytes(lines[i])
    requires |cut| < 4 || |cut| < 4 + Value4(cut[..4]) <= 4100
    ensures Decoded(aes, Records(aes, lines) + cut) == Some(Concat(lines))
  {
    hide Records, Concat, Sound;
    DecodeFront(aes, lines, cut);
    PrependLaws(Concat(lines), [], Some([]));
  }

  /** A file with a record that is too long, or cannot be decrypted, or holds nothing, is
      refused as a whole, whatever follows. */
  lemma DamagedFile(aes: Aes, lines: seq<string>, damaged: seq<Byte>)
    requires Sound(aes) && AllFit(lines)
    requires forall i :: 0 <= i < |lines| ==> lines[i] != [] && NUL !in lines[i] && IsBytes(lines[i])
    requires |damaged| >= 4
    requires var n := Value4(damaged[..4]);
             n > 4096 || (|damaged| >= 4 + n && var plain := aes.decrypt(damaged[4..4 + n]); plain == None || plain == Some([]))
    ensures Decoded(aes, Records(aes, lines) + damaged) == None
  {
    hide Records, Concat, Sound;
    DecodeFront(aes, lines, damaged);
  }

  /** Main result: for a NUL-free text whose lines fit, what is read back is the text
      up to its last newline; that is the whole text exactly when it is empty or
      ends with a newline. */
  lemma FileRoundTrip(aes: Aes, text: string)
    requires Sound(aes) && NUL !in text && IsBytes(text) && AllFit(CompleteLines(text))
    ensures Decoded(aes, Records(aes, CompleteLines(text))) == Some(Concat(CompleteLines(text)))
    ensures Decoded(aes, Records(aes, CompleteLines(text))) == Some(text) <==> text == [] || text[|text| - 1] == '\n'
  {
    hide Decoded, Records, Concat, CompleteLines, Sound;
    LinesConcat(text);
    var lines := CompleteLines(text);
    assert forall i :: 0 <= i < |lines| ==> lines[i] in lines;
    DecodeRecords(aes, lines);
  }

  /** A last line without its newline is lost. */
  lemma LastLineLost(aes: Aes)
    requires Sound(aes)
    ensures Decoded(aes, Records(aes, CompleteLines("[a]\nport"))) == Some("[a]\n")
  {
    hide Decoded, Records, Sound, Newline;
    var text, line := "[a]\nport", "[a]\n";
    HasLine(text, 3);
    assert text[..4] == line && text[4..] == "port";
    assert Newline("port").None? by { NoLine("port"); }
    assert CompleteLines("port") == [];
    assert CompleteLines(text) == [line];
    assert Concat([line]) == line + Concat([]) == line;
    DecodeRecords(aes, [line]);
  }

  lemma {:induction false} HasLine(text: string, k: nat)
    requires k < |text| && text[k] == '\n' && '\n' !in text[..k]
    ensures Newline(text) == Some(k)
  {
    NewlineAt(text, k);
    assert text[k..][0] == '\n';
  }

  lemma {:induction false} NoLine(text: string)
    requires '\n' !in text
    ensures Newline(text) == None
  {
    if text != [] {
      NoLine(text[1..]);
    }
  }

  // ---------------------------------------------------------------------------
  // A cipher that is sound

  /** The padding of AES: every byte of it tells its length. */
  function Padding(n: nat): Byte {
    16 - n % 16
  }

  function CharByte(c: char): Byte {
    if c as int < 256 then c as int else 0
  }

  function Padded(s: string): seq<Byte> {
    seq(|s|, i requires 0 <= i < |s| => CharByte(s[i])) + seq(Padding(|s|), _ => Padding(|s|))
  }

  function Unpadded(b: seq<Byte>): Option<string> {
    if b == [] || b[|b| - 1] > |b| then None
    else Some(seq(|b| - b[|b| - 1], i requires 0 <= i < |b| - b[|b| - 1] => b[i] as char))
  }

  /** Padding alone, without a key, is a pair of the kind assumed. */
  lemma PaddingIsSound()
    ensures Sound(Aes(Padded, Unpadded))
  {
    forall s: string | IsBytes(s)
      ensures |Padded(s)| == AesSize(|s|) && Unpadded(Padded(s)) == Some(s)
    {
      var b := Padded(s);
      assert b[|b| - 1] == Padding(|s|) && |b| - b[|b| - 1] == |s|;
      assert Unpadded(b).value == s by {
        assert forall i :: 0 <= i < |s| ==> s[i] in s && b[i] as char == s[i];
      }
    }
  }

  /** The search for the end of a line, on the buffer: its length without the
      newline, or that there is none. */
  method LineLength(buf: DynamicString, from: nat) returns (len: nat, done: bool)
    requires buf.Valid() && from <= buf.length
    ensures Newline(buf.Text()[from..]) == if done then None else Some(len)
  {
    len, done := 0, false;
    var tmp := from;
    ghost var rest := buf.Text()[from..];
    NewlineAt(rest, 0);
    while true
      invariant tmp == from + len && len <= |rest| && '\n' !in rest[..len]
      decreases |rest| - len
    {
      NewlineAt(rest, len);
      var c := buf.str[tmp];
      tmp := tmp + 1;
      if c == '\n' {
        assert rest[len..][0] == '\n';
        return;
      }
      if len < buf.length - from {
        assert rest[..len + 1] == rest[..len] + [rest[len]];
        len := len + 1;
      } else {
        assert rest[len..] == [];
        done := true;
        return;
      }
    }
  }

  /** `encrypt_and_write_file`, after the header: all complete lines, or an error at
      the first that is too long. */
  method EncryptAndWrite(buf: DynamicString, aes: Aes) returns (ok: bool, file: seq<Byte>)
    requires buf.Valid()
    ensures file == Records(aes, CompleteLines(buf.Text()))
    ensures ok <==> AllFit(CompleteLines(buf.Text()))
  {
    hide Newline, CompleteLines, Records, AllFit, AesSize, Record;
    ghost var text := buf.Text();
    ghost var lines := CompleteLines(text);
    file := [];
    var bytesRead := 0;
    assert text[0..] == text && file + Records(aes, lines) == Records(aes, lines);
    while true
      invariant 0 <= bytesRead <= buf.length
      invariant Records(aes, lines) == file + Records(aes, CompleteLines(text[bytesRead..]))
      invariant AllFit(lines) <==> AllFit(CompleteLines(text[bytesRead..]))
      decreases buf.length - bytesRead
    {
      var len, done := LineLength(buf, bytesRead);
      ghost var rest := text[bytesRead..];
      NextLine(aes, rest);
      if done {
        assert file + [] == file;
        return true, file;
      }
      var encLen := AesSize(len + 1);
      if encLen > MY_LINE_MAX - MAX_CIPHER_STORE_LEN {
        assert file + [] == file;
        return false, file;
      }
      len := len + 1;
      var line := buf.str[bytesRead..bytesRead + len];
      Slices(buf.str[..], buf.length, bytesRead, len);
      assert text == buf.str[..][..buf.length] && line == buf.str[..][bytesRead..bytesRead + len];
      var record := WriteRecord(line, encLen, aes);
      ghost var later := Records(aes, CompleteLines(rest[len..]));
      assert file + (record + later) == file + record + later;
      file := file + record;
      bytesRead := bytesRead + len;
    }
  }

  lemma Slices(s: string, n: nat, i: nat, len: nat)
    requires i + len <= n <= |s|
    ensures s[..n][i..][..len] == s[i..i + len] && s[..n][i..][len..] == s[..n][i + len..]
  {
  }

  method WriteRecord(line: string, encLen: nat, aes: Aes) returns (record: seq<Byte>)
    requires encLen == AesSize(|line|)
    ensures record == Record(aes, line)
  {
    record := Bytes4(encLen) + aes.encrypt(line);
  }

  /** The lines and records of a text, by its first line. */
  lemma NextLine(aes: Aes, text: string)
    ensures match Newline(text)
            case None => Records(aes, CompleteLines(text)) == [] && AllFit(CompleteLines(text))
            case Some(k) =>
              && k < |text|
              && (!Fits(text[..k + 1]) ==> Records(aes, CompleteLines(text)) == [] && !AllFit(CompleteLines(text)))
              && (Fits(text[..k + 1]) ==>
                    && Records(aes, CompleteLines(text)) ==
                         Record(aes, text[..k + 1]) + Records(aes, CompleteLines(text[k + 1..]))
                    && (AllFit(CompleteLines(text)) <==> AllFit(CompleteLines(text[k + 1..]))))
  {
    hide Record, AesSize, Fits;
    NewlineAt(text, 0);
    if Newline(text).Some? {
      var k := Newline(text).value;
      var lines, rest := CompleteLines(text), CompleteLines(text[k + 1..]);
      assert lines == [text[..k + 1]] + rest && lines[1..] == rest;
      assert AllFit(lines) ==> Fits(lines[0]) && forall i :: 0 <= i < |rest| ==> rest[i] == lines[i + 1];
    }
  }

  /** `read_and_decrypt_file`, after the header. */
  method ReadAndDecrypt(file: seq<Byte>, aes: Aes) returns (r: Option<string>)
    ensures r == Decoded(aes, file)
  {
    hide Value4, UpToNul;
    var text := [];
    var at := 0;
    assert file[0..] == file;
    PrependLaws([], [], Decoded(aes, file));
    while at + MAX_CIPHER_STORE_LEN <= |file|
      invariant 0 <= at <= |file|
      invariant Decoded(aes, file) == Prepend(text, Decoded(aes, file[at..]))
      decreases |file| - at
    {
      ghost var rest := file[at..];
      var n := Value4(file[at..at + 4]);
      assert file[at..at + 4] == rest[..4];
      if n > MY_LINE_MAX {
        return None;
      }
      at := at + 4;
      if at + n <= |file| {
        assert file[at..at + n] == rest[4..4 + n] && file[at + n..] == rest[4 + n..];
        var plain := aes.decrypt(file[at..at + n]);
        if plain.None? || plain.value == [] {
          return None;
        }
        PrependLaws(text, UpToNul(plain.value), Decoded(aes, file[at + n..]));
        text := text + UpToNul(plain.value);
        at := at + n;
      } else {
        at := |file|;
      }
    }
    PrependLaws(text, [], None);
    r := Some(text);
  }
}
