/** What a server does with the printed SQL: which tokens open and close a
    transaction, and which use up a GTID set by `SET GTID_NEXT`. */
module BinlogSession {
  import opened BinlogEvents

  /** `open`: a transaction is open. `pending`: a GTID was set and no transaction,
      commit or rollback has used it yet. */
  datatype Session = Session(open: bool, pending: bool)

  const CLOSED := Session(false, false)

  // ---------------------------------------------------------------------------
  // How a server reads a statement: by its words, in any case

  predicate IsLetter(c: char) {
    'a' <= c <= 'z' || 'A' <= c <= 'Z'
  }

  predicate IsBlank(c: char) {
    c == ' ' || c == '\t' || c == '\n' || c == '\r'
  }

  function Capital(c: char): char {
    if 'a' <= c <= 'z' then ((c as int) - 32) as char else c
  }

  function Capitals(text: string): (r: string)
    ensures |r| == |text|
  {
    seq(|text|, i requires 0 <= i < |text| => Capital(text[i]))
  }

  function WordLength(text: string): (n: nat)
    ensures n <= |text| && (n < |text| ==> !IsLetter(text[n])) && forall i :: 0 <= i < n ==> IsLetter(text[i])
  {
    if text == [] || !IsLetter(text[0]) then 0 else 1 + WordLength(text[1..])
  }

  /** The first word. */
  function Word(text: string): string {
    Capitals(text[..WordLength(text)])
  }

  function SkipBlanks(text: string): string {
    if text != [] && IsBlank(text[0]) then SkipBlanks(text[1..]) else text
  }

  /** From the second word on. */
  function More(text: string): string {
    SkipBlanks(text[WordLength(text)..])
  }

  /** What a statement does to the transaction of the session. XA COMMIT is no end of it:
      it takes up a prepared transaction that no session holds. */
  datatype Effect = Opens | Closes | Keeps

  function EffectOf(text: string): Effect {
    var first, second := Word(text), Word(More(text));
    if first == "BEGIN" || (first == "START" && second == "TRANSACTION") then Opens
    else if first == "COMMIT" then Closes
    else if first == "ROLLBACK" then if ToSavepoint(text) then Keeps else Closes
    else if first == "XA" && (second == "START" || second == "BEGIN") then Opens
    else if first == "XA" && second == "ROLLBACK" then Closes
    else Keeps
  }

  /** `ROLLBACK TO` and `ROLLBACK WORK TO` */
  predicate ToSavepoint(text: string) {
    var rest := More(text);
    Word(rest) == "TO" || (Word(rest) == "WORK" && Word(More(rest)) == "TO")
  }

  /** What the tests of the program make of it. */
  function Taken(text: string): Effect {
    if EndsGroup(text) then Closes else if StartsGroup(text) then Opens else Keeps
  }

  predicate Alike(text: string) {
    EffectOf(text) == Taken(text)
  }

  /** The texts a server writes to its log: control statements in the one form it gives
      them, and any other statement. */
  predicate Regular(text: string) {
    var first, second := Word(text), Word(More(text));
    if first == "BEGIN" then text == "BEGIN"
    else if first == "COMMIT" then text == "COMMIT"
    else if first == "START" then second != "TRANSACTION"
    else if first == "ROLLBACK" then ToSavepoint(text) <==> "ROLLBACK TO " <= Capitals(text)
    else if first == "XA" then
      && (second == "START" || second == "BEGIN" <==> "XA START" <= text)
      && (second == "ROLLBACK" <==> "XA ROLLBACK" <= text)
    else !(text <= "BEGIN") && !(text <= "COMMIT") && !("ROLLBACK" <= Capitals(text))
  }

  /** The program and a server read a text alike if and only if it is regular. */
  lemma AlikeIff(text: string)
    ensures Alike(text) <==> Regular(text)
  {
    hide More, ToSavepoint, StartsWithNoCase, Capitals, Word;
    NoCaseIsCapitals(text, "ROLLBACK");
    NoCaseIsCapitals(text, "ROLLBACK TO ");
    PlainCapitals();
    ByFirstLetter(text);
    Markers(text);
  }

  /** A regular text passes the tests of the program exactly if it has that effect. */
  lemma RegularTests(text: string)
    requires Regular(text)
    ensures EndsGroup(text) <==> EffectOf(text) == Closes
    ensures StartsGroup(text) <==> EffectOf(text) == Opens
  {
    hide EffectOf, Regular, StartsWithNoCase, Word, Capitals;
    AlikeIff(text);
    NoCaseIsCapitals(text, "ROLLBACK");
    PlainCapitals();
    ByFirstLetter(text);
    Markers(text);
    NoStatement();
  }

  lemma NoStatement()
    ensures !Regular([])
  {
  }

  /** A text of letters, and then something else or nothing. */
  lemma WordOf(word: string, rest: string)
    requires (forall c <- word :: 'A' <= c <= 'Z') && (rest != [] ==> !IsLetter(rest[0]))
    ensures Word(word + rest) == word && More(word + rest) == SkipBlanks(rest)
  {
    hide WordLength, SkipBlanks;
    var text := word + rest;
    assert forall i :: 0 <= i < |word| ==> text[i] == word[i] && word[i] in word;
    assert rest != [] ==> text[|word|] == rest[0];
    assert WordLength(text) == |word|;
    assert text[..|word|] == word && text[|word|..] == rest;
    assert Capitals(word) == word;
  }

  /** The control statements in the form of the log, with their effect. */
  lemma ControlStatements()
    ensures Regular("BEGIN") && EffectOf("BEGIN") == Opens
    ensures Regular("COMMIT") && EffectOf("COMMIT") == Closes
    ensures Regular("ROLLBACK") && EffectOf("ROLLBACK") == Closes
  {
    hide WordLength, SkipBlanks;
    WordOf("BEGIN", "");
    WordOf("COMMIT", "");
    WordOf("ROLLBACK", "");
    WordOf("", "");
    NoWord();
    assert "BEGIN" + "" == "BEGIN" && "COMMIT" + "" == "COMMIT" && "ROLLBACK" + "" == "ROLLBACK";
    assert |Capitals("ROLLBACK")| < |"ROLLBACK TO "|;
  }

  lemma NoWord()
    ensures SkipBlanks("") == "" && Word("") == "" && More("") == ""
  {
  }

  lemma XaStart(xid: string)
    ensures var text := "XA START " + xid; Regular(text) && EffectOf(text) == Opens
  {
    hide WordLength, SkipBlanks, Capitals, Word, More;
    var text := "XA START " + xid;
    XaWords("START", xid);
    assert text == "XA " + ("START" + (" " + xid));
    assert text[..8] == "XA START";
    Markers(text);
  }

  lemma XaRollback(xid: string)
    ensures var text := "XA ROLLBACK " + xid; Regular(text) && EffectOf(text) == Closes
  {
    hide WordLength, SkipBlanks, Capitals, Word, More;
    var text := "XA ROLLBACK " + xid;
    XaWords("ROLLBACK", xid);
    assert text == "XA " + ("ROLLBACK" + (" " + xid));
    assert text[..11] == "XA ROLLBACK";
    Markers(text);
  }

  /** XA END, XA PREPARE and XA COMMIT. */
  lemma XaOther(verb: string, xid: string)
    requires verb == "END" || verb == "PREPARE" || verb == "COMMIT"
    ensures var text := "XA " + (verb + (" " + xid)); Regular(text) && EffectOf(text) == Keeps
  {
    hide WordLength, SkipBlanks, Capitals, Word, More;
    var text := "XA " + (verb + (" " + xid));
    XaWords(verb, xid);
    assert text[3] == verb[0];
    NotBegunBy("XA START", text, 3);
    NotBegunBy("XA ROLLBACK", text, 3);
  }

  lemma NotBegunBy(word: string, text: string, i: nat)
    requires i < |word| && i < |text| && word[i] != text[i]
    ensures !(word <= text)
  {
  }

  lemma XaWords(verb: string, xid: string)
    requires verb != [] && forall c <- verb :: 'A' <= c <= 'Z'
    ensures var text := "XA " + (verb + (" " + xid)); Word(text) == "XA" && Word(More(text)) == verb
  {
    hide WordLength, SkipBlanks, Capitals, Word, More;
    var rest := verb + (" " + xid);
    assert verb[0] in verb && rest[0] == verb[0];
    assert "XA " + rest == "XA" + (" " + rest);
    WordOf("XA", " " + rest);
    WordOf(verb, " " + xid);
    OneBlank(rest);
  }

  lemma OneBlank(rest: string)
    requires rest != [] && !IsBlank(rest[0])
    ensures SkipBlanks(" " + rest) == rest
  {
    assert (" " + rest)[1..] == rest;
    assert SkipBlanks(rest) == rest;
  }

  /** `ROLLBACK TO` a savepoint goes on with the transaction. */
  lemma RollbackTo(savepoint: string)
    ensures var text := "ROLLBACK TO " + savepoint;
            Regular(text) && EffectOf(text) == Keeps && !EndsGroup(text) && !StartsGroup(text)
  {
    hide WordLength, SkipBlanks, StartsGroup, EndsGroup;
    var rest := "TO" + (" " + savepoint);
    var text := "ROLLBACK TO " + savepoint;
    assert text == "ROLLBACK" + (" " + rest);
    WordOf("ROLLBACK", " " + rest);
    WordOf("TO", " " + savepoint);
    OneBlank(rest);
    assert Capitals(text)[..12] == "ROLLBACK TO ";
    RegularTests(text);
  }

  /** A statement whose first word is no control word is regular, unless it is shorter
      than a control word it begins. */
  lemma OrdinaryStatement(text: string)
    requires Word(text) !in ["BEGIN", "COMMIT", "START", "ROLLBACK", "XA"]
    requires !(text <= "BEGIN") && !(text <= "COMMIT") && !("ROLLBACK" <= Capitals(text))
    ensures Regular(text) && EffectOf(text) == Keeps && !StartsGroup(text) && !EndsGroup(text)
  {
    hide Word, More, Capitals, StartsGroup, EndsGroup;
    RegularTests(text);
  }

  /** The session cannot be open, or opened, without the program knowing. */
  predicate Sound(text: string) {
    && (EffectOf(text) == Opens ==> StartsGroup(text) && !EndsGroup(text))
    && (EndsGroup(text) ==> EffectOf(text) == Closes)
  }

  lemma RegularIsSound(text: string)
    requires Regular(text)
    ensures Sound(text)
  {
    hide EffectOf, Regular, StartsGroup, EndsGroup;
    RegularTests(text);
  }

  /** All statements of an event are. */
  predicate SoundEvent(e: Event) {
    match e.body
    case Query(_, text) => Sound(text)
    case Payload(inner) => forall x <- inner :: SoundEvent(x)
    case _ => true
  }

  /** A text is none of the keywords that begin with another letter. */
  lemma ByFirstLetter(text: string)
    ensures text != [] && Capital(text[0]) != 'B' ==> !(text <= "BEGIN")
    ensures text != [] && Capital(text[0]) != 'C' ==> !(text <= "COMMIT")
    ensures text != [] && Capital(text[0]) != 'R' ==> !("ROLLBACK" <= Capitals(text))
    ensures text != [] && Capital(text[0]) != 'X' ==> !("XA START" <= text) && !("XA ROLLBACK" <= text)
    ensures var w := Word(text); w != [] ==> text != [] && w[0] == Capital(text[0])
    ensures text == [] ==> Word(text) == []
  {
    if "ROLLBACK" <= Capitals(text) {
      assert Capitals(text)[0] == 'R';
    }
    if "XA START" <= text || "XA ROLLBACK" <= text {
      assert text[0] == 'X';
    }
  }

  /** How the keywords begin with their first words. */
  lemma Markers(text: string)
    ensures Word(text) == "BEGIN" && text <= "BEGIN" ==> text == "BEGIN"
    ensures Word(text) == "COMMIT" && text <= "COMMIT" ==> text == "COMMIT"
    ensures Word(text) == "ROLLBACK" ==> "ROLLBACK" <= Capitals(text)
    ensures "ROLLBACK TO " <= Capitals(text) ==> Word(text) == "ROLLBACK" && "ROLLBACK" <= Capitals(text)
    ensures "XA START" <= text || "XA ROLLBACK" <= text ==> Word(text) == "XA"
    ensures !("XA START" <= text && "XA ROLLBACK" <= text)
  {
    hide WordLength, More;
    var n := WordLength(text);
    assert |Word(text)| == n;
    if Word(text) == "ROLLBACK" {
      assert Capitals(text)[..8] == Capitals(text[..8]);
    }
    if "ROLLBACK TO " <= Capitals(text) {
      RollbackWord(text);
    }
    if "XA START" <= text || "XA ROLLBACK" <= text {
      assert text[0] == 'X' && text[1] == 'A' && text[2] == ' ';
      assert IsLetter(text[0]) && IsLetter(text[1]);
      assert n == 2 && text[..2] == "XA";
    }
    assert "XA START" <= text ==> text[3] == 'S';
    assert "XA ROLLBACK" <= text ==> text[3] == 'R';
  }

  lemma RollbackWord(text: string)
    requires "ROLLBACK TO " <= Capitals(text)
    ensures Word(text) == "ROLLBACK" && "ROLLBACK" <= Capitals(text)
  {
    hide WordLength;
    var caps := Capitals(text);
    assert caps[..8] == "ROLLBACK" by { assert caps[..12][..8] == "ROLLBACK TO "[..8]; }
    forall i | 0 <= i < 8
      ensures IsLetter(text[i])
    {
      assert caps[i] == caps[..8][i] == "ROLLBACK"[i];
      LetterOfCapital(text[i]);
    }
    assert caps[8] == "ROLLBACK TO "[8] == ' ';
    assert !IsLetter(text[8]);
    assert WordLength(text) == 8;
    assert Capitals(text[..8]) == caps[..8];
  }

  lemma LetterOfCapital(c: char)
    requires 'A' <= Capital(c) <= 'Z'
    ensures IsLetter(c)
  {
  }

  lemma PlainCapitals()
    ensures Capitals("ROLLBACK") == "ROLLBACK" && Capitals("ROLLBACK TO ") == "ROLLBACK TO "
  {
  }

  lemma NoCaseIsCapitals(text: string, word: string)
    ensures StartsWithNoCase(text, word) <==> Capitals(word) <= Capitals(text)
  {
    forall i | 0 <= i < |word| && i < |text|
      ensures Lower(text[i]) == Lower(word[i]) <==> Capital(text[i]) == Capital(word[i])
    {
      SameLetter(text[i], word[i]);
    }
    if Capitals(word) <= Capitals(text) {
      forall i | 0 <= i < |word|
        ensures Lower(text[i]) == Lower(word[i])
      {
        assert Capitals(text)[i] == Capitals(word)[i];
      }
    }
  }

  lemma SameLetter(a: char, b: char)
    ensures Lower(a) == Lower(b) <==> Capital(a) == Capital(b)
  {
  }

  function Execute(s: Session, t: Token): Session {
    match t
    case AddedCommit => CLOSED
    case AddedRollback => CLOSED
    case AddedBegin => Session(true, false)
    case GtidAutomatic => s
    case Printed(e) =>
      match e.body
      case GtidEvent(_) => s.(pending := true)
      case Xid => CLOSED
      case XaPrepare => CLOSED
      case FormatDescription(relay, _, _, startup) => if startup && !relay then CLOSED else s
      case Query(_, text) =>
        match EffectOf(text) {
          case Closes => CLOSED
          case Opens => Session(true, false)
          case Keeps => if s.open then s else CLOSED   // a transaction of its own
        }
      case _ => s
  }

  function SessionAfter(out: seq<Token>): Session {
    if out == [] then CLOSED
    else Execute(SessionAfter(out[..|out| - 1]), out[|out| - 1])
  }

  lemma SessionAppend(out: seq<Token>, t: Token)
    ensures SessionAfter(out + [t]) == Execute(SessionAfter(out), t)
  {
    assert (out + [t])[..|out|] == out;
  }

  /** The shape of a printed transaction: a GTID, then a group that ends once. */
  datatype Phase = Idle | HasGtid | InGroup | Broken

  function Advance(p: Phase, t: Token): Phase {
    match t
    case AddedCommit => if p == HasGtid then Idle else Broken
    case AddedRollback => Broken
    case AddedBegin => Broken
    case GtidAutomatic => p
    case Printed(e) =>
      match e.body
      case GtidEvent(_) => if p == Idle then HasGtid else Broken
      case Xid => if p == InGroup then Idle else Broken
      case XaPrepare => if p == InGroup then Idle else Broken
      case Query(_, text) =>
        match EffectOf(text) {
          case Closes => if p == InGroup then Idle else Broken
          case Opens => if p == HasGtid then InGroup else Broken
          case Keeps =>
            if p == InGroup then InGroup
            else if p == HasGtid then Idle   // a transaction of its own
            else Broken
        }
      case TableMap(_, _) => if p == InGroup then p else Broken
      case Rows(_, _) => if p == InGroup then p else Broken
      case RowsQuery => if p == InGroup then p else Broken
      case ExecuteLoad(_, _) => if p == InGroup then p else Broken
      case Other => if p == InGroup then p else Broken
      case Intvar(_) => if p == Idle then Broken else p
      case Rand(_) => if p == Idle then Broken else p
      case UserVar(_) => if p == Idle then Broken else p
      case FormatDescription(relay, _, _, startup) => if startup && !relay && p != Idle then Broken else p
      case _ => p
  }

  function PhaseAfter(out: seq<Token>): Phase {
    if out == [] then Idle
    else Advance(PhaseAfter(out[..|out| - 1]), out[|out| - 1])
  }

  lemma PhaseAppend(out: seq<Token>, t: Token)
    ensures PhaseAfter(out + [t]) == Advance(PhaseAfter(out), t)
  {
    assert (out + [t])[..|out|] == out;
  }

  /** The two readings of the output agree. */
  lemma {:induction false} PhaseIsSession(out: seq<Token>)
    ensures PhaseAfter(out) == InGroup ==> SessionAfter(out) == Session(true, false)
    ensures PhaseAfter(out) == HasGtid ==> SessionAfter(out) == Session(false, true)
    ensures PhaseAfter(out) == Idle ==> SessionAfter(out) == CLOSED
  {
    if out != [] {
      hide EffectOf;
      PhaseIsSession(out[..|out| - 1]);
    }
  }

  /** The GTIDs printed, in order. */
  function PrintedGtids(out: seq<Token>): seq<Gtid> {
    if out == [] then []
    else
      var t := out[|out| - 1];
      PrintedGtids(out[..|out| - 1]) +
      (if t.Printed? && t.event.body.GtidEvent? then [t.event.body.gtid] else [])
  }

  lemma GtidsAppend(out: seq<Token>, t: Token)
    ensures PrintedGtids(out + [t]) == PrintedGtids(out) +
              (if t.Printed? && t.event.body.GtidEvent? then [t.event.body.gtid] else [])
  {
    assert (out + [t])[..|out|] == out;
  }
}
