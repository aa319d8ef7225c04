/** The prefix-completion table of `completion_hash.cc`: chained buckets, one for
    every prefix of every word, each with a list of words. */
module CompletionHash {
  import opened CompletionWords

  /** A linked list of entries, newest first; entries never change. */
  datatype Entries = NoEntry | Entry(str: string, next: Entries)

  function Words(e: Entries): seq<string> {
    match e
    case NoEntry => []
    case Entry(str, next) => [str] + Words(next)
  }

  /** A bucket's links are set once: buckets are only put in front of a chain. The
      key is the first `keyLength` characters of the word it was made for. */
  class Bucket {
    const h: nat
    const arKey: string
    const keyLength: nat
    const next: Bucket?
    ghost const rest: seq<Bucket>
    var count: nat
    var data: Entries

    constructor (h: nat, arKey: string, keyLength: nat, str: string, next: Bucket?)
      ensures this.h == h && this.arKey == arKey && this.keyLength == keyLength && this.next == next
      ensures rest == Chain(next) && count == 1 && data == Entry(str, NoEntry)
    {
      this.h, this.arKey, this.keyLength, this.next := h, arKey, keyLength, next;
      rest := Chain(next);
      count, data := 1, Entry(str, NoEntry);
    }

    ghost function Key(): string
      requires keyLength <= |arKey|
    {
      arKey[..keyLength]
    }
  }

  ghost function Chain(b: Bucket?): seq<Bucket> {
    if b == null then [] else [b] + b.rest
  }

  /** A bucket in front of a chain. */
  ghost predicate Leads(b: Bucket, rest: seq<Bucket>) {
    0 < b.keyLength <= |b.arKey| && b.rest == rest == Chain(b.next)
  }

  /** A well-linked chain of buckets with different keys. */
  ghost predicate Linked(chain: seq<Bucket>) {
    && (forall j :: 0 <= j < |chain| ==> Leads(chain[j], chain[j + 1..]))
    && (forall j, k :: 0 <= j < k < |chain| ==> chain[j].Key() != chain[k].Key())
  }

  lemma LinkFront(p: Bucket, tail: seq<Bucket>)
    requires Linked(tail) && Leads(p, tail)
    requires forall b <- tail :: b.keyLength <= |b.arKey| && b.Key() != p.Key()
    ensures Linked([p] + tail)
  {
    var chain := [p] + tail;
    forall j | 0 <= j < |chain|
      ensures Leads(chain[j], chain[j + 1..])
    {
      assert chain[j + 1..] == tail[j..];
      assert j > 0 ==> Leads(tail[j - 1], tail[j..]);
    }
    forall j, k | 0 <= j < k < |chain|
      ensures chain[j].Key() != chain[k].Key()
    {
      assert chain[k] == tail[k - 1] && tail[k - 1] in tail;
    }
  }

  lemma ChainAt(chain: seq<Bucket>, j: nat)
    requires Linked(chain) && j < |chain|
    ensures Leads(chain[j], chain[j + 1..])
  {
  }

  /** The bucket is the one of a key, and was made for the word that is that key. */
  ghost predicate MadeFor(b: Bucket, key: string) {
    b.keyLength <= |b.arKey| && b.Key() == key == b.arKey
  }

  class HashTable {
    const hash: string -> nat
    const size: nat
    const buckets: array<Bucket?>
    ghost var nodes: set<Bucket>
    ghost var log: seq<(string, string)>

    /** The bucket is the one for its key, and lists what was stored under it. */
    ghost predicate Holds(b: Bucket, i: nat)
      reads this, b
      requires size > 0
    {
      && 0 < b.keyLength <= |b.arKey|
      && b.h == hash(b.Key()) && b.h % size == i
      && Words(b.data) == StoredUnder(log, b.Key()) && b.count == |Words(b.data)| > 0
      && b.arKey == Words(b.data)[b.count - 1]
    }

    ghost predicate GoodChain(chain: seq<Bucket>, i: nat)
      reads this, nodes
      requires size > 0
    {
      Linked(chain) && forall b <- chain :: b in nodes && Holds(b, i)
    }

    ghost predicate Present(key: string)
      reads buckets
      requires buckets.Length == size > 0
    {
      exists b <- Chain(buckets[hash(key) % size]) :: b.keyLength <= |b.arKey| && b.Key() == key
    }

    ghost predicate Valid()
      reads this, buckets, nodes
    {
      && buckets.Length == size > 0
      && (forall i :: 0 <= i < size ==> GoodChain(Chain(buckets[i]), i))
      && (forall k :: 0 <= k < |log| ==> Present(log[k].0))
    }

    constructor (hash: string -> nat, size: nat)
      requires size > 0
      ensures Valid() && fresh(buckets) && this.hash == hash && this.size == size && log == []
    {
      this.hash, this.size := hash, size;
      buckets := new Bucket?[size](i => null);
      nodes, log := {}, [];
    }

    /** `completion_hash_find`: the bucket of the key if anything was stored under
        it, whatever collisions occur; a null result means nothing was. */
    method Find(str: string, length: nat) returns (b: Bucket?)
      requires Valid() && length <= |str|
      ensures b == null <==> StoredUnder(log, str[..length]) == []
      ensures b != null ==>
                && b in nodes && b in Chain(buckets[hash(str[..length]) % size]) && Holds(b, hash(str[..length]) % size)
                && b.Key() == str[..length]
    {
      var key := str[..length];
      var h := hash(key);
      var i := h % size;
      b := buckets[i];
      ghost var chain := Chain(b);
      assert GoodChain(chain, i);
      hide StoredUnder;
      ghost var j := 0;
      while b != null
        invariant 0 <= j <= |chain| && Chain(b) == chain[j..]
        invariant forall k :: 0 <= k < j ==> chain[k].Key() != key
        decreases |chain| - j
      {
        assert chain[j..][0] == chain[j] == b && b in chain;
        if b.h == h && b.keyLength == length && b.arKey[..b.keyLength] == key {
          return;
        }
        assert chain[j].Key() != key;
        assert Chain(b.next) == chain[j + 1..];
        b := b.next;
        j := j + 1;
      }
      NotPresent(key);
    }

    /** A key without a bucket has nothing stored under it. */
    lemma NotPresent(key: string)
      requires Valid()
      requires forall b <- Chain(buckets[hash(key) % size]) :: b.keyLength <= |b.arKey| ==> b.Key() != key
      ensures StoredUnder(log, key) == []
    {
      assert !Present(key);
      assert forall k :: 0 <= k < |log| ==> log[k].0 != key;
      NothingStored(log, key);
    }

    /** `completion_hash_update`: one more word under a key; an empty key is refused. */
    method Update(arKey: string, keyLength: nat, str: string) returns (ok: bool)
      requires Valid() && keyLength <= |arKey| && (keyLength > 0 ==> str == arKey)
      modifies this, buckets, nodes
      ensures Valid() && fresh(nodes - old(nodes))
      ensures ok == (keyLength > 0)
      ensures log == if ok then old(log) + [(arKey[..keyLength], str)] else old(log)
    {
      ok := keyLength > 0;
      if !ok {
        return;
      }
      var key := arKey[..keyLength];
      var p := Find(arKey, keyLength);
      if p != null {
        Push(p, key, str);
      } else {
        Insert(arKey, keyLength, str);
      }
    }

    /** The key has a bucket: a new entry in front of its list. */
    method Push(p: Bucket, key: string, str: string)
      requires Valid() && p in nodes && p in Chain(buckets[hash(key) % size])
      requires Holds(p, hash(key) % size) && p.Key() == key
      modifies this`log, p
      ensures Valid() && log == old(log) + [(key, str)]
    {
      hide StoredUnder, Linked, Present;
      StoredAppend(log, key, str, key);
      assert Present(key) by { PresentHere(key, p); }
      p.data := Entry(str, p.data);
      p.count := p.count + 1;
      log := log + [(key, str)];
      assert Holds(p, hash(key) % size);
      ChainsKept(key, str, p);
    }

    lemma PresentHere(key: string, p: Bucket)
      requires buckets.Length == size > 0 && p in Chain(buckets[hash(key) % size])
      requires p.keyLength <= |p.arKey| && p.Key() == key
      ensures Present(key)
    {
    }

    /** Storing under one key leaves the buckets of the others right. */
    twostate lemma HoldsKept(b: Bucket, new i: nat, new key: string, new str: string)
      requires size > 0 && old(Holds(b, i)) && b.count == old(b.count) && b.data == old(b.data)
      requires b.Key() != key && log == old(log) + [(key, str)]
      ensures Holds(b, i)
    {
      StoredAppend(old(log), key, str, b.Key());
    }

    /** A chain after the bucket `p` of `key` got one more entry. */
    twostate lemma ChainKept(chain: seq<Bucket>, new i: nat, new key: string, new str: string, new p: Bucket)
      requires size > 0 && i < size && old(GoodChain(chain, i)) && nodes == old(nodes)
      requires log == old(log) + [(key, str)] && p.keyLength <= |p.arKey| && p.Key() == key
      requires i == hash(key) % size ==> p in chain && Holds(p, i)
      requires forall b <- nodes :: b != p ==> b.count == old(b.count) && b.data == old(b.data)
      ensures GoodChain(chain, i)
    {
      forall b | b in chain
        ensures b in nodes && Holds(b, i)
      {
        if b != p {
          if i == hash(key) % size {
            DifferentKeys(chain, b, p);
          }
          HoldsKept(b, i, key, str);
        }
      }
    }

    twostate lemma ChainsKept(new key: string, new str: string, new p: Bucket)
      requires old(Valid()) && nodes == old(nodes) && log == old(log) + [(key, str)]
      requires buckets[..] == old(buckets[..])
      requires p in Chain(buckets[hash(key) % size]) && Holds(p, hash(key) % size) && p.Key() == key
      requires forall b <- nodes :: b != p ==> b.count == old(b.count) && b.data == old(b.data)
      ensures forall i :: 0 <= i < size ==> GoodChain(Chain(buckets[i]), i)
    {
      forall i | 0 <= i < size
        ensures GoodChain(Chain(buckets[i]), i)
      {
        assert buckets[..][i] == old(buckets[..])[i];
        ChainKept(Chain(buckets[i]), i, key, str, p);
      }
    }

    /** A chain in which nobody has that key. */
    twostate lemma TailKept(chain: seq<Bucket>, new i: nat, new key: string, new str: string)
      requires size > 0 && i < size && old(GoodChain(chain, i)) && old(nodes) <= nodes
      requires log == old(log) + [(key, str)]
      requires forall b <- chain :: b.keyLength <= |b.arKey| ==> b.Key() != key
      requires forall b <- chain :: b.count == old(b.count) && b.data == old(b.data)
      ensures GoodChain(chain, i)
    {
      forall b | b in chain
        ensures b in nodes && Holds(b, i)
      {
        HoldsKept(b, i, key, str);
      }
    }

    twostate lemma ChainsInserted(new key: string, new str: string, new p: Bucket)
      requires old(Valid()) && old(nodes) + {p} == nodes && log == old(log) + [(key, str)]
      requires buckets[..] == old(buckets[..])[hash(key) % size := p]
      requires Chain(p) == [p] + old(Chain(buckets[hash(key) % size])) && Linked(Chain(p))
      requires Holds(p, hash(key) % size) && p.Key() == key && old(StoredUnder(log, key)) == []
      requires forall b <- old(nodes) :: b != p && b.count == old(b.count) && b.data == old(b.data)
      ensures forall i :: 0 <= i < size ==> GoodChain(Chain(buckets[i]), i)
    {
      hide StoredUnder;
      forall i | 0 <= i < size
        ensures GoodChain(Chain(buckets[i]), i)
      {
        assert buckets[..][i] == buckets[i] && old(buckets[..])[i] == old(buckets[i]);
        assert old(GoodChain(Chain(buckets[i]), i));
        TailKept(old(Chain(buckets[i])), i, key, str);
      }
    }

    /** The key has no bucket: a new one in front of its chain. */
    method Insert(arKey: string, keyLength: nat, str: string)
      requires Valid() && 0 < keyLength <= |arKey| && str == arKey
      requires StoredUnder(log, arKey[..keyLength]) == []
      modifies this`log, this`nodes, buckets
      ensures Valid() && fresh(nodes - old(nodes)) && log == old(log) + [(arKey[..keyLength], str)]
    {
      hide StoredUnder, Linked, Words;
      var key := arKey[..keyLength];
      var h := hash(key);
      var slot := h % size;
      ghost var tail := Chain(buckets[slot]);
      FreeKey(key);
      StoredAppend(log, key, str, key);
      assert forall b <- tail :: b in nodes;
      var p := new Bucket(h, arKey, keyLength, str, buckets[slot]);
      OneEntry(str);
      LinkFront(p, tail);
      buckets[slot] := p;
      nodes := nodes + {p};
      log := log + [(key, str)];
      assert Holds(p, slot);
      assert p !in old(nodes);
      ChainsInserted(key, str, p);
      PresentInserted(key, str, p);
    }

    /** No bucket of the slot has a key under which nothing is stored. */
    lemma FreeKey(key: string)
      requires Valid() && StoredUnder(log, key) == []
      ensures var chain := Chain(buckets[hash(key) % size]);
              Linked(chain) && forall b <- chain :: b.keyLength <= |b.arKey| && b.Key() != key
    {
      hide StoredUnder;
      var slot := hash(key) % size;
      assert GoodChain(Chain(buckets[slot]), slot);
    }

    twostate lemma PresentInserted(new key: string, new str: string, new p: Bucket)
      requires old(Valid()) && log == old(log) + [(key, str)] && p.keyLength <= |p.arKey| && p.Key() == key
      requires buckets[..] == old(buckets[..])[hash(key) % size := p]
      requires Chain(p) == [p] + old(Chain(buckets[hash(key) % size]))
      ensures forall k :: 0 <= k < |log| ==> Present(log[k].0)
    {
      hide Present, Chain, GoodChain;
      forall k | 0 <= k < |log|
        ensures Present(log[k].0)
      {
        if k < |old(log)| {
          assert old(Present(log[k].0));
          StillPresent(key, p, log[k].0);
        } else {
          assert log[k].0 == key;
          NewPresent(key, p);
        }
      }
    }

    /** A key that had a bucket still has it. */
    twostate lemma StillPresent(new key: string, new p: Bucket, new present: string)
      requires buckets.Length == size > 0 && old(Present(present))
      requires buckets[..] == old(buckets[..])[hash(key) % size := p]
      requires Chain(p) == [p] + old(Chain(buckets[hash(key) % size]))
      ensures Present(present)
    {
      var slot := hash(present) % size;
      assert buckets[..][slot] == buckets[slot] && old(buckets[..])[slot] == old(buckets[slot]);
      var b :| b in old(Chain(buckets[slot])) && b.keyLength <= |b.arKey| && b.Key() == present;
      assert b in Chain(buckets[slot]);
    }

    /** The new bucket is the one of its key. */
    lemma NewPresent(key: string, p: Bucket)
      requires buckets.Length == size > 0 && buckets[..][hash(key) % size] == p
      requires p.keyLength <= |p.arKey| && p.Key() == key
      ensures Present(key)
    {
      assert p in Chain(p);
    }

    /** The table after adding `words`, in order. */
    ghost predicate Has(words: seq<string>)
      reads this, buckets, nodes
    {
      Valid() && log == LogOf(words)
    }

    /** `add_word`: an update for every non-empty prefix. */
    method AddWord(str: string, ghost words: seq<string>)
      requires Has(words)
      modifies this, buckets, nodes
      ensures Has(words + [str]) && fresh(nodes - old(nodes))
    {
      hide Valid, LogOf;
      var i := 1;
      while i <= |str|
        invariant 1 <= i <= |str| + 1 && Valid() && fresh(nodes - old(nodes))
        invariant log == LogOf(words) + PrefixLog(str, i - 1)
      {
        var _ := Update(str, i, str);
        i := i + 1;
      }
      LogAppend(words, str);
    }

    /** `completion_hash_clean` */
    method Clean()
      requires Valid()
      modifies this, buckets
      ensures Has([])
    {
      forall i | 0 <= i < buckets.Length {
        buckets[i] := null;
      }
      nodes, log := {}, [];
    }

    /** `find_all_matches`: a bucket iff the key is not empty and some word has it as
        a prefix, and then its list is exactly those words, newest first. */
    method FindAllMatches(str: string, length: nat, ghost words: seq<string>) returns (b: Bucket?, resLength: nat)
      requires Has(words) && length <= |str|
      ensures b != null <==> length > 0 && Matching(words, str[..length]) != []
      ensures resLength == if b == null then 0 else length
      ensures b != null ==>
                Words(b.data) == Matching(words, str[..length]) && b.count == |Matching(words, str[..length])|
    {
      hide LogOf, StoredUnder, Matching;
      b := Find(str, length);
      resLength := if b == null then 0 else length;
      if length == 0 {
        assert str[..0] == [];
        StoredUnderEmpty(words);
      } else {
        StoredIsMatching(words, str[..length]);
      }
    }

    /** `find_longest_match`: the length of the longest common prefix of the words
        that begin with the query, found by comparing counts only. */
    method FindLongestMatch(str: string, length: nat, ghost words: seq<string>) returns (b: Bucket?, resLength: nat)
      requires Has(words) && length <= |str|
      ensures b != null <==> length > 0 && Matching(words, str[..length]) != []
      ensures b == null ==> resLength == 0
      ensures b != null ==>
                var ws := Matching(words, str[..length]);
                && length <= resLength
                && CommonPrefix(ws, resLength) && !CommonPrefix(ws, resLength + 1)
                && Words(b.data) == ws
    {
      hide Valid, Matching, Words;
      b, resLength := FindAllMatches(str, length, words);
      if b == null {
        return;
      }
      ghost var key := str[..length];
      ghost var ws := Matching(words, key);
      var count := b.count;
      var s := First(b);
      ghost var first := s;
      assert s == ws[0];
      MatchingMembers(words, key, s);
      assert key <= s && s[..length] == key;
      CommonIffSameCount(words, key, length);
      var lm := length;
      while lm < |s|
        invariant length <= lm <= |s| && CommonPrefix(ws, lm)
        invariant b != null && Words(b.data) == ws
        decreases |s| - lm
      {
        var b1, _ := FindAllMatches(s, lm + 1, words);
        CommonIffSameCount(words, key, lm + 1);
        if b1 == null || b1.count < count {
          NoLongerThan(words, key, lm + 1);
          resLength := lm;
          return;
        }
        LongerKey(words, key, s[..lm + 1]);
        b := b1;
        lm := lm + 1;
      }
      resLength := lm;
    }

    /** `completion_hash_exists` compares the whole word a bucket was made for, so it
        answers whether the oldest word with this prefix is this very word. */
    method Exists(arKey: string, ghost words: seq<string>) returns (r: bool)
      requires Has(words)
      ensures r <==> arKey != [] && Matching(words, arKey) != [] && Oldest(words, arKey) == arKey
    {
      hide StoredUnder, Matching, Oldest, Words, LogOf, Present, Linked, Valid, MadeFor;
      var h := hash(arKey);
      SlotGood(arKey);
      var i := h % size;
      var p := buckets[i];
      ghost var chain := Chain(p);
      ghost var j := 0;
      while p != null
        invariant 0 <= j <= |chain| && Chain(p) == chain[j..]
        invariant forall k :: 0 <= k < j ==> !MadeFor(chain[k], arKey)
        decreases |chain| - j
      {
        assert chain[j..][0] == chain[j] == p && p in chain;
        ChainAt(chain, j);
        if p.h == h && p.keyLength == |arKey| && p.arKey == arKey {
          assert p.Key() == arKey;
          MadeForIt(arKey, p, words);
          return true;
        }
        NotMadeFor(p, arKey);
        p := p.next;
        j := j + 1;
      }
      r := false;
      MadeForAnother(arKey, words);
    }

    lemma SlotGood(key: string)
      requires Valid()
      ensures buckets.Length == size > 0 && GoodChain(Chain(buckets[hash(key) % size]), hash(key) % size)
    {
    }

    lemma NotMadeFor(b: Bucket, key: string)
      requires size > 0 && Holds(b, hash(key) % size) && !(b.h == hash(key) && b.keyLength == |key| && b.arKey == key)
      ensures !MadeFor(b, key)
    {
    }

    /** A bucket that was made for its key: the key is the oldest word with it. */
    lemma MadeForIt(key: string, b: Bucket, words: seq<string>)
      requires Has(words) && Holds(b, hash(key) % size) && b.Key() == key == b.arKey
      ensures key != [] && Matching(words, key) != [] && Oldest(words, key) == key
    {
      hide StoredUnder, Matching, LogOf, Valid, Words;
      StoredIsMatching(words, key);
    }

    lemma MadeForAnother(key: string, words: seq<string>)
      requires Has(words)
      requires forall b <- Chain(buckets[hash(key) % size]) :: !MadeFor(b, key)
      ensures !(key != [] && Matching(words, key) != [] && Oldest(words, key) == key)
    {
      hide StoredUnder, Matching, LogOf, Words, GoodChain, Present;
      if key != [] {
        StoredIsMatching(words, key);
        NotOldest(key);
      }
    }

    /** A key with words has a bucket, made for the oldest of them. */
    lemma NotOldest(key: string)
      requires Valid()
      ensures StoredUnder(log, key) != [] ==>
                exists b <- Chain(buckets[hash(key) % size]) ::
                  && b.keyLength <= |b.arKey| && b.Key() == key
                  && b.arKey == StoredUnder(log, key)[|StoredUnder(log, key)| - 1]
    {
      hide StoredUnder;
      var i := hash(key) % size;
      assert GoodChain(Chain(buckets[i]), i);
      if forall b <- Chain(buckets[i]) :: b.keyLength <= |b.arKey| ==> b.Key() != key {
        NotPresent(key);
      }
    }
  }

  method First(b: Bucket) returns (s: string)
    requires Words(b.data) != []
    ensures s == Words(b.data)[0]
  {
    match b.data {
      case NoEntry => assert false;
      case Entry(str, _) => s := str;
    }
  }

  lemma LogAppend(words: seq<string>, w: string)
    ensures LogOf(words + [w]) == LogOf(words) + PrefixLog(w, |w|)
  {
    assert (words + [w])[..|words|] == words;
  }

  lemma NoLongerThan(words: seq<string>, key: string, n: nat)
    requires var ws := Matching(words, key);
             ws != [] && |key| <= n <= |ws[0]| && |Matching(words, ws[0][..n])| != |ws|
    ensures !CommonPrefix(Matching(words, key), n)
  {
    CommonIffSameCount(words, key, n);
  }

  lemma OneEntry(str: string)
    ensures Words(Entry(str, NoEntry)) == [str]
  {
  }

  lemma DifferentKeys(chain: seq<Bucket>, a: Bucket, b: Bucket)
    requires Linked(chain) && a in chain && b in chain && a != b
    ensures a.Key() != b.Key()
  {
    var j :| 0 <= j < |chain| && chain[j] == a;
    var k :| 0 <= k < |chain| && chain[k] == b;
  }

  lemma {:induction false} NothingStored(log: seq<(string, string)>, key: string)
    requires forall k :: 0 <= k < |log| ==> log[k].0 != key
    ensures StoredUnder(log, key) == []
  {
    if log != [] {
      NothingStored(log[..|log| - 1], key);
    }
  }
}
