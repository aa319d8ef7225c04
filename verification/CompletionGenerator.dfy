/** `new_command_generator` of `mysql.cc`: a cursor kept in static variables that
    hands out the completions one call at a time. */
module CompletionGenerator {
  import opened Optional
  import opened CompletionWords
  import opened CompletionHash

  /** The static variables `b`, `e` and `i`. */
  datatype Cursor = Cursor(b: Bucket?, e: Entries, i: nat)

  /** The words of a list that have exactly the length of the bucket's key. */
  function Picks(e: Entries, n: nat): seq<string> {
    match e
    case NoEntry => []
    case Entry(str, next) => (if |str| == n then [str] else []) + Picks(next, n)
  }

  ghost function ChainPicks(chain: seq<Bucket>): seq<string>
    reads chain
  {
    if chain == [] then [] else Picks(chain[0].data, chain[0].keyLength) + ChainPicks(chain[1..])
  }

  /** What the traversal hands out from slot `i` on. */
  ghost function SlotPicks(ht: HashTable, i: nat): seq<string>
    reads ht, ht.buckets, ht.nodes
    requires ht.Valid() && i <= ht.size
    decreases ht.size - i
  {
    if i == ht.size then []
    else
      assert ht.GoodChain(Chain(ht.buckets[i]), i);
      ChainPicks(Chain(ht.buckets[i])) + SlotPicks(ht, i + 1)
  }

  /** The cursor stands on an entry of a bucket of slot `i`, or at the end. */
  ghost predicate OnTable(ht: HashTable, c: Cursor)
    reads ht, ht.buckets, ht.nodes
  {
    && ht.Valid()
    && (c.e.Entry? ==>
          && c.b != null && c.i < ht.size && c.b in Chain(ht.buckets[c.i])
          && c.b in ht.nodes && forall x <- c.b.rest :: x in ht.nodes)
  }

  /** What is still to come. */
  ghost function Left(ht: HashTable, c: Cursor): seq<string>
    reads ht, ht.buckets, ht.nodes
    requires OnTable(ht, c)
  {
    if c.e.NoEntry? then []
    else Picks(c.e, c.b.keyLength) + ChainPicks(c.b.rest) + SlotPicks(ht, c.i + 1)
  }

  /** What a bucket of the table is and links to. */
  lemma BucketRest(ht: HashTable, i: nat, b: Bucket)
    requires ht.Valid() && i < ht.size && b in Chain(ht.buckets[i])
    ensures b in ht.nodes && b.data.Entry? && Chain(b.next) == b.rest
    ensures forall x <- b.rest :: x in Chain(ht.buckets[i]) && x in ht.nodes
  {
    var chain := Chain(ht.buckets[i]);
    assert ht.GoodChain(chain, i) && ht.Holds(b, i);
    var j :| 0 <= j < |chain| && chain[j] == b;
    assert b.rest == chain[j + 1..];
  }

  lemma SlotUnfold(ht: HashTable, i: nat)
    requires ht.Valid() && i < ht.size
    ensures ht.buckets[i] == null ==> SlotPicks(ht, i) == SlotPicks(ht, i + 1)
    ensures var b := ht.buckets[i];
            b != null ==>
              && b in Chain(b) && b.data.Entry? && b in ht.nodes && (forall x <- b.rest :: x in ht.nodes)
              && SlotPicks(ht, i) == Picks(b.data, b.keyLength) + ChainPicks(b.rest) + SlotPicks(ht, i + 1)
  {
    var b := ht.buckets[i];
    if b != null {
      BucketRest(ht, i, b);
      assert Chain(b)[1..] == b.rest;
    }
  }

  /** The search for the next used slot, from slot `from` on. */
  method Seek(ht: HashTable, c: Cursor, from: nat) returns (r: Cursor)
    requires ht.Valid() && from <= ht.size
    requires c.e.NoEntry? || exists k :: from <= k < ht.size && ht.buckets[k] != null
    ensures OnTable(ht, r) && from <= r.i && Left(ht, r) == SlotPicks(ht, from)
  {
    hide Picks, ChainPicks, SlotPicks, HashTable.Valid;
    TableSize(ht);
    var i := from;
    while i < ht.size
      invariant from <= i <= ht.size
      invariant SlotPicks(ht, from) == SlotPicks(ht, i)
      invariant c.e.NoEntry? || exists k :: i <= k < ht.size && ht.buckets[k] != null
    {
      SlotUnfold(ht, i);
      var b := ht.buckets[i];
      if b != null {
        r := Cursor(b, b.data, i);
        return;
      }
      i := i + 1;
    }
    r := Cursor(c.b, c.e, i);
  }

  /** One turn of the search for a valid entry: the entry under the cursor, and the
      move to the next one, in the next bucket or slot if need be. */
  method Step(ht: HashTable, c: Cursor) returns (r: Option<string>, c': Cursor)
    requires OnTable(ht, c) && c.e.Entry?
    ensures OnTable(ht, c')
    ensures Left(ht, c) == AsSeq(r) + Left(ht, c')
    ensures || c'.e.NoEntry?
            || c'.i > c.i
            || (c'.i == c.i && |c'.b.rest| < |c.b.rest|)
            || (c'.i == c.i && c'.b == c.b && c'.e == c.e.next)
  {
    hide SlotPicks, ChainPicks, Picks, HashTable.Valid, Left, Chain;
    TableSize(ht);
    MoveOn(ht, c);
    r := Hit(c);
    c' := c.(e := c.e.next);
    if c'.e.NoEntry? {
      var b := c.b.next;
      if b == null {
        c' := Seek(ht, Cursor(null, NoEntry, c.i), c.i + 1);
      } else {
        c' := Cursor(b, b.data, c.i);
      }
    }
  }

  /** The entry under the cursor, if it is the whole word of its bucket. */
  function Hit(c: Cursor): Option<string>
    requires c.e.Entry? && c.b != null
  {
    if |c.e.str| == c.b.keyLength then Some(c.e.str) else None
  }

  function AsSeq(r: Option<string>): seq<string> {
    if r.Some? then [r.value] else []
  }

  /** What is left, from the entry under the cursor to the one after it. */
  lemma MoveOn(ht: HashTable, c: Cursor)
    requires OnTable(ht, c) && c.e.Entry?
    ensures c.e.next.Entry? ==>
              OnTable(ht, c.(e := c.e.next)) && Left(ht, c) == AsSeq(Hit(c)) + Left(ht, c.(e := c.e.next))
    ensures c.e.next.NoEntry? && c.b.next == null ==> Left(ht, c) == AsSeq(Hit(c)) + SlotPicks(ht, c.i + 1)
    ensures c.e.next.NoEntry? && c.b.next != null ==>
              var c1 := Cursor(c.b.next, c.b.next.data, c.i);
              && OnTable(ht, c1) && |c1.b.rest| < |c.b.rest|
              && Left(ht, c) == AsSeq(Hit(c)) + Left(ht, c1)
  {
    hide SlotPicks, ChainPicks, Picks, HashTable.Valid, Chain;
    PicksUnfold(c.e, c.b.keyLength);
    Regroup(AsSeq(Hit(c)), Picks(c.e.next, c.b.keyLength), ChainPicks(c.b.rest), SlotPicks(ht, c.i + 1));
    if c.e.next.NoEntry? {
      NextBucket(ht, c);
    }
  }

  lemma PicksUnfold(e: Entries, n: nat)
    requires e.Entry?
    ensures Picks(e, n) == (if |e.str| == n then [e.str] else []) + Picks(e.next, n)
    ensures e.next.NoEntry? ==> Picks(e.next, n) == []
  {
  }

  lemma Regroup(a: seq<string>, b: seq<string>, c: seq<string>, d: seq<string>)
    ensures a + b + c + d == a + (b + c + d)
    ensures [] + c + d == c + d
  {
  }

  /** The words of the buckets after the cursor's. */
  lemma NextBucket(ht: HashTable, c: Cursor)
    requires OnTable(ht, c) && c.e.Entry?
    ensures c.b.next == null ==> ChainPicks(c.b.rest) == []
    ensures c.b.next != null ==>
              var c1 := Cursor(c.b.next, c.b.next.data, c.i);
              && OnTable(ht, c1) && |c1.b.rest| < |c.b.rest|
              && ChainPicks(c.b.rest) + SlotPicks(ht, c.i + 1) == Left(ht, c1)
  {
    hide SlotPicks, Picks, HashTable.Valid;
    BucketRest(ht, c.i, c.b);
    if c.b.next != null {
      var b := c.b.next;
      assert b == c.b.rest[0] && b in c.b.rest && c.b.rest[1..] == b.rest;
      BucketRest(ht, c.i, b);
    }
  }

  /** The part of a call that handles empty text: the next word of the traversal, or
      none at its end. The first call of a completion starts over. */
  method NextOfAll(ht: HashTable, c: Cursor, first: bool) returns (r: Option<string>, c': Cursor)
    requires ht.Valid()
    requires if first then c.e.NoEntry? || exists k :: 0 <= k < ht.size && ht.buckets[k] != null else OnTable(ht, c)
    ensures OnTable(ht, c')
    ensures var todo := if first then SlotPicks(ht, 0) else Left(ht, c);
            if todo == [] then r == None && Left(ht, c') == []
            else r == Some(todo[0]) && Left(ht, c') == todo[1..]
  {
    hide SlotPicks, ChainPicks, Picks, HashTable.Valid, Left, Chain;
    TableSize(ht);
    c' := c;
    if first {
      c' := Seek(ht, c, 0);
    }
    ghost var todo := Left(ht, c');
    r := None;
    assert c'.e.NoEntry? ==> todo == [] by { LeftAtEnd(ht, c'); }
    while c'.e.Entry? && r.None?
      invariant OnTable(ht, c')
      invariant if r.None? then Left(ht, c') == todo else todo != [] && r.value == todo[0] && Left(ht, c') == todo[1..]
      decreases if c'.e.NoEntry? then 0 else if r.Some? then 1 else 2, ht.size - c'.i,
                if c'.b == null then 0 else |c'.b.rest|, c'.e
    {
      ghost var before := Left(ht, c');
      r, c' := Step(ht, c');
      assert r.Some? ==> before[0] == r.value && before[1..] == Left(ht, c');
      assert r.None? ==> before == Left(ht, c');
    }
    LeftAtEnd(ht, c');
  }

  lemma TableSize(ht: HashTable)
    requires ht.Valid()
    ensures ht.buckets.Length == ht.size > 0
    ensures SlotPicks(ht, ht.size) == []
  {
  }

  lemma LeftAtEnd(ht: HashTable, c: Cursor)
    requires OnTable(ht, c)
    ensures c.e.NoEntry? ==> Left(ht, c) == []
  {
  }

  /** How often each word is handed out. */
  lemma {:induction false} MatchingCount(words: seq<string>, w: string)
    ensures multiset(Matching(words, w))[w] == multiset(words)[w]
  {
    if words != [] {
      var k := |words| - 1;
      MatchingCount(words[..k], w);
      assert words == words[..k] + [words[k]];
    }
  }

  /** Of a bucket only the words equal to its key are handed out. */
  lemma {:induction false} PicksCount(e: Entries, key: string, w: string)
    requires forall x <- Words(e) :: key <= x
    ensures multiset(Picks(e, |key|))[w] == if w == key then multiset(Words(e))[w] else 0
  {
    match e {
      case NoEntry =>
      case Entry(str, next) =>
        assert Words(e) == [str] + Words(next) && str in Words(e) && forall x <- Words(next) :: x in Words(e);
        PicksCount(next, key, w);
        assert |str| == |key| ==> str == key;
    }
  }

  /** A bucket of the table hands out its key as often as it was added. */
  lemma BucketCount(ht: HashTable, words: seq<string>, i: nat, b: Bucket, w: string)
    requires ht.Has(words) && i < ht.size && b in Chain(ht.buckets[i])
    ensures 0 < b.keyLength <= |b.arKey|
    ensures multiset(Picks(b.data, b.keyLength))[w] == if w == b.Key() then multiset(words)[w] else 0
  {
    hide LogOf, Matching, StoredUnder, Words, Picks;
    assert ht.GoodChain(Chain(ht.buckets[i]), i) && ht.Holds(b, i);
    var key := b.Key();
    StoredIsMatching(words, key);
    forall x | x in Words(b.data)
      ensures key <= x
    {
      MatchingMembers(words, key, x);
    }
    PicksCount(b.data, key, w);
    if w == key {
      MatchingCount(words, w);
    }
  }

  lemma {:induction false} ChainCount(ht: HashTable, words: seq<string>, i: nat, chain: seq<Bucket>, w: string)
    requires ht.Has(words) && i < ht.size && Linked(chain) && forall b <- chain :: b in Chain(ht.buckets[i])
    ensures multiset(ChainPicks(chain))[w] ==
            if exists b <- chain :: b.keyLength <= |b.arKey| && b.Key() == w then multiset(words)[w] else 0
  {
    hide HashTable.Valid, LogOf, Picks;
    if chain != [] {
      var b, rest := chain[0], chain[1..];
      assert b in chain && forall x <- rest :: x in chain;
      assert Linked(rest) by { LinkedTail(chain); }
      BucketCount(ht, words, i, b, w);
      ChainCount(ht, words, i, rest, w);
      KeysDiffer(chain);
      assert forall x :: x in chain <==> x == b || x in rest;
    }
  }

  lemma LinkedTail(chain: seq<Bucket>)
    requires Linked(chain) && chain != []
    ensures Linked(chain[1..])
  {
    var tail := chain[1..];
    assert forall k :: 0 <= k < |tail| ==> tail[k] == chain[k + 1] && tail[k + 1..] == chain[k + 2..];
  }

  lemma KeysDiffer(chain: seq<Bucket>)
    requires Linked(chain) && chain != []
    ensures forall x <- chain[1..] ::
              x.keyLength <= |x.arKey| && chain[0].keyLength <= |chain[0].arKey| && x.Key() != chain[0].Key()
  {
  }

  /** A word is found in the chain of its slot, and in no other. */
  lemma SlotCount(ht: HashTable, words: seq<string>, i: nat, w: string)
    requires ht.Has(words) && i < ht.size
    ensures Linked(Chain(ht.buckets[i]))
    ensures multiset(ChainPicks(Chain(ht.buckets[i])))[w] ==
            if w != [] && ht.hash(w) % ht.size == i then multiset(words)[w] else 0
  {
    hide LogOf, Picks, ChainPicks, StoredUnder;
    var chain := Chain(ht.buckets[i]);
    assert ht.GoodChain(chain, i);
    ChainCount(ht, words, i, chain, w);
    if b :| b in chain && b.keyLength <= |b.arKey| && b.Key() == w {
      assert ht.Holds(b, i);
    } else if w != [] && ht.hash(w) % ht.size == i {
      ht.NotPresent(w);
      StoredIsMatching(words, w);
      MatchingMembers(words, w, w);
      assert w !in words;
    }
  }

  lemma {:induction false} SlotsCount(ht: HashTable, words: seq<string>, i: nat, w: string)
    requires ht.Has(words) && i <= ht.size
    ensures multiset(SlotPicks(ht, i))[w] ==
            if w != [] && ht.hash(w) % ht.size >= i then multiset(words)[w] else 0
    decreases ht.size - i
  {
    hide HashTable.Valid, LogOf, ChainPicks;
    TableSize(ht);
    if i < ht.size {
      SlotCount(ht, words, i, w);
      SlotsCount(ht, words, i + 1, w);
    }
  }

  /** The words `add_word` stores at all. */
  function NonEmpty(words: seq<string>): seq<string> {
    if words == [] then []
    else NonEmpty(words[..|words| - 1]) + if words[|words| - 1] != [] then [words[|words| - 1]] else []
  }

  lemma {:induction false} NonEmptyCount(words: seq<string>, w: string)
    ensures multiset(NonEmpty(words))[w] == if w != [] then multiset(words)[w] else 0
  {
    if words != [] {
      var k := |words| - 1;
      NonEmptyCount(words[..k], w);
      assert words == words[..k] + [words[k]];
    }
  }

  /** Main result: the traversal hands out every word as often as it was added,
      whatever the layout of the buckets. */
  lemma TraversalIsAllWords(ht: HashTable, words: seq<string>)
    requires ht.Has(words)
    ensures multiset(SlotPicks(ht, 0)) == multiset(NonEmpty(words))
  {
    hide SlotPicks, NonEmpty, HashTable.Has;
    assert ht.Valid() by { HasValid(ht, words); }
    forall w: string
      ensures multiset(SlotPicks(ht, 0))[w] == multiset(NonEmpty(words))[w]
    {
      SlotsCount(ht, words, 0, w);
      NonEmptyCount(words, w);
    }
  }

  lemma HasValid(ht: HashTable, words: seq<string>)
    requires ht.Has(words)
    ensures ht.Valid()
  {
  }

  class Generator {
    var textLength: nat
    var cursor: Cursor

    constructor ()
      ensures cursor.e.NoEntry?
    {
      textLength, cursor := 0, Cursor(null, NoEntry, 0);
    }

    /** `new_command_generator`: a word, or none when there are no more. */
    method Generate(ht: HashTable, text: string, state: nat, ghost words: seq<string>) returns (r: Option<string>)
      requires ht.Has(words) && (state != 0 ==> textLength == |text|)
      requires text == [] ==>
                 if state == 0 then cursor.e.NoEntry? || exists k :: 0 <= k < ht.size && ht.buckets[k] != null
                 else OnTable(ht, cursor)
      modifies this
      ensures textLength == |text|
      ensures text == [] ==>
                && OnTable(ht, cursor)
                && var todo := if state == 0 then SlotPicks(ht, 0) else old(Left(ht, cursor));
                   if todo == [] then r == None && Left(ht, cursor) == []
                   else r == Some(todo[0]) && Left(ht, cursor) == todo[1..]
      ensures text != [] ==>
                var todo := if state == 0 then Matching(words, text) else old(Words(cursor.e));
                && (todo == [] ==> r == None)
                && (todo != [] ==> r == Some(todo[0]) && Words(cursor.e) == todo[1..])
    {
      hide HashTable.Valid, LogOf, SlotPicks, Left, Matching;
      if state == 0 {
        textLength := |text|;
      }
      if textLength > 0 {
        if state == 0 {
          assert text[..|text|] == text;
          var b, _ := ht.FindAllMatches(text, |text|, words);
          if b == null {
            cursor := cursor.(b := null);
            return None;
          }
          cursor := cursor.(b := b, e := b.data);
        }
        match cursor.e {
          case NoEntry => r := None;
          case Entry(str, next) =>
            r := Some(str);
            cursor := cursor.(e := next);
        }
      } else {
        var c;
        r, c := NextOfAll(ht, cursor, state == 0);
        cursor := c;
      }
    }

    /** Readline's loop: calls with state 0, 1, 2, ... until there is no word. */
    method Complete(ht: HashTable, text: string, ghost words: seq<string>) returns (all: seq<string>)
      requires ht.Has(words)
      requires text == [] ==> cursor.e.NoEntry? || exists k :: 0 <= k < ht.size && ht.buckets[k] != null
      modifies this
      ensures text == [] ==> multiset(all) == multiset(NonEmpty(words))
      ensures text != [] ==> all == Matching(words, text)
    {
      hide HashTable.Valid, LogOf, SlotPicks, Left, Matching, Words, NonEmpty;
      ghost var goal := if text == [] then SlotPicks(ht, 0) else Matching(words, text);
      all := [];
      var state := 0;
      var r := Generate(ht, text, 0, words);
      while r.Some?
        invariant textLength == |text| && (text == [] ==> OnTable(ht, cursor))
        invariant r.Some? ==>
                    |all| < |goal| && all + [r.value] == goal[..|all| + 1] &&
                    goal[|all| + 1..] == if text == [] then Left(ht, cursor) else Words(cursor.e)
        invariant r.None? ==> all == goal
        decreases |goal| - |all|
      {
        all := all + [r.value];
        state := state + 1;
        ghost var todo := goal[|all|..];
        r := Generate(ht, text, state, words);
        if r.Some? {
          assert todo[0] == goal[|all|] && todo[1..] == goal[|all| + 1..];
        } else {
          assert all == goal[..|all|] && todo == [];
        }
      }
      if text == [] {
        TraversalIsAllWords(ht, words);
      }
    }
  }
}
