/** The reference for the completion table: plain lists of words and prefixes. */
module CompletionWords {

  /** The words stored under `key` by a sequence of (key, word) updates, newest first. */
  function StoredUnder(log: seq<(string, string)>, key: string): seq<string> {
    if log == [] then []
    else
      var last := log[|log| - 1];
      (if last.0 == key then [last.1] else []) + StoredUnder(log[..|log| - 1], key)
  }

  lemma StoredAppend(log: seq<(string, string)>, k: string, w: string, key: string)
    ensures StoredUnder(log + [(k, w)], key) == (if k == key then [w] else []) + StoredUnder(log, key)
  {
    assert (log + [(k, w)])[..|log|] == log;
  }

  /** The words that begin with `key`, newest first. */
  function Matching(words: seq<string>, key: string): seq<string> {
    if words == [] then []
    else
      var last := words[|words| - 1];
      (if key <= last then [last] else []) + Matching(words[..|words| - 1], key)
  }

  /** The updates made for one word: its first `n` non-empty prefixes. */
  function PrefixLog(w: string, n: nat): seq<(string, string)>
    requires n <= |w|
  {
    if n == 0 then [] else PrefixLog(w, n - 1) + [(w[..n], w)]
  }

  /** The updates made by a sequence of words. */
  function LogOf(words: seq<string>): seq<(string, string)> {
    if words == [] then []
    else
      var last := words[|words| - 1];
      LogOf(words[..|words| - 1]) + PrefixLog(last, |last|)
  }

  lemma {:induction false} StoredByPrefixes(log: seq<(string, string)>, w: string, n: nat, key: string)
    requires n <= |w|
    ensures StoredUnder(log + PrefixLog(w, n), key) ==
            (if 0 < |key| <= n && w[..|key|] == key then [w] else []) + StoredUnder(log, key)
  {
    if n == 0 {
      assert log + [] == log;
    } else {
      StoredByPrefixes(log, w, n - 1, key);
      assert log + PrefixLog(w, n) == log + PrefixLog(w, n - 1) + [(w[..n], w)];
      StoredAppend(log + PrefixLog(w, n - 1), w[..n], w, key);
    }
  }

  /** Under a non-empty key lie exactly the words with that prefix. */
  lemma {:induction false} StoredIsMatching(words: seq<string>, key: string)
    requires key != []
    ensures StoredUnder(LogOf(words), key) == Matching(words, key)
  {
    if words != [] {
      var k := |words| - 1;
      StoredIsMatching(words[..k], key);
      StoredByPrefixes(LogOf(words[..k]), words[k], |words[k]|, key);
      assert (key <= words[k]) == (|key| <= |words[k]| && words[k][..|key|] == key);
    }
  }

  lemma {:induction false} StoredUnderEmpty(words: seq<string>)
    ensures StoredUnder(LogOf(words), []) == []
  {
    if words != [] {
      var k := |words| - 1;
      StoredUnderEmpty(words[..k]);
      StoredByPrefixes(LogOf(words[..k]), words[k], |words[k]|, []);
    }
  }

  /** Every listed word has the prefix, and is one of the words. */
  lemma {:induction false} MatchingMembers(words: seq<string>, key: string, w: string)
    ensures w in Matching(words, key) <==> w in words && key <= w
  {
    if words != [] {
      var k := |words| - 1;
      MatchingMembers(words[..k], key, w);
      assert words == words[..k] + [words[k]];
    }
  }

  lemma PrefixOfPrefix(a: string, b: string, c: string)
    requires a <= b
    ensures b <= c ==> a <= c
  {
    if b <= c {
      assert c[..|a|] == b[..|a|];
    }
  }

  /** A longer key matches fewer words; as many only if the same ones. */
  lemma {:induction false} LongerKey(words: seq<string>, key: string, longer: string)
    requires key <= longer
    ensures |Matching(words, longer)| <= |Matching(words, key)|
    ensures |Matching(words, longer)| == |Matching(words, key)| ==> Matching(words, longer) == Matching(words, key)
  {
    if words != [] {
      var k := |words| - 1;
      LongerKey(words[..k], key, longer);
      PrefixOfPrefix(key, longer, words[k]);
    }
  }

  /** All of `ws` agree on their first `n` characters. */
  ghost predicate CommonPrefix(ws: seq<string>, n: nat) {
    ws != [] && n <= |ws[0]| && forall w <- ws :: ws[0][..n] <= w
  }

  /** Matching words share `n` characters exactly when extending the key to them
      loses no word. */
  lemma CommonIffSameCount(words: seq<string>, key: string, n: nat)
    requires var ws := Matching(words, key); ws != [] && |key| <= n <= |ws[0]|
    ensures var ws := Matching(words, key);
            CommonPrefix(ws, n) <==> |Matching(words, ws[0][..n])| == |ws|
  {
    var ws := Matching(words, key);
    var longer := ws[0][..n];
    MatchingMembers(words, key, ws[0]);
    assert key <= ws[0] && longer[..|key|] == ws[0][..|key|] == key;
    LongerKey(words, key, longer);
    if |Matching(words, longer)| == |ws| {
      forall w | w in ws
        ensures longer <= w
      {
        MatchingMembers(words, longer, w);
      }
    }
    if CommonPrefix(ws, n) {
      SameMatches(words, key, longer);
    }
  }

  lemma {:induction false} SameMatches(words: seq<string>, key: string, longer: string)
    requires key <= longer && forall w <- Matching(words, key) :: longer <= w
    ensures Matching(words, longer) == Matching(words, key)
  {
    if words != [] {
      var k := |words| - 1;
      var last := words[k];
      assert forall w <- Matching(words[..k], key) :: w in Matching(words, key);
      SameMatches(words[..k], key, longer);
      PrefixOfPrefix(key, longer, last);
      if key <= last {
        assert Matching(words, key)[0] == last;
        assert last in Matching(words, key);
      }
    }
  }

  /** The oldest word with the prefix. */
  function Oldest(words: seq<string>, key: string): string
    requires Matching(words, key) != []
  {
    var ws := Matching(words, key);
    ws[|ws| - 1]
  }

  /** The oldest match is the first word, in the order of adding, with the prefix. */
  lemma {:induction false} OldestIsFirst(words: seq<string>, key: string) returns (i: nat)
    requires Matching(words, key) != []
    ensures i < |words| && words[i] == Oldest(words, key) && key <= words[i]
    ensures forall j :: 0 <= j < i ==> !(key <= words[j])
  {
    var k := |words| - 1;
    var init := words[..k];
    if Matching(init, key) == [] {
      forall j | 0 <= j < k
        ensures !(key <= words[j])
      {
        MatchingMembers(init, key, words[j]);
        assert words[j] == init[j];
      }
      i := k;
    } else {
      i := OldestIsFirst(init, key);
      assert words[i] == init[i];
      assert forall j :: 0 <= j < i ==> words[j] == init[j];
    }
  }

  /** An added word is the oldest one with itself as prefix exactly when no word
      beginning with it was added before it. */
  lemma OldestIffNoneBefore(words: seq<string>, w: string)
    requires w in words
    ensures Matching(words, w) != []
    ensures Oldest(words, w) == w <==>
            exists i :: 0 <= i < |words| && words[i] == w && forall j :: 0 <= j < i ==> !(w <= words[j])
  {
    MatchingMembers(words, w, w);
    var i := OldestIsFirst(words, w);
  }

  /** A word added after a longer one is not the oldest with itself as prefix. */
  lemma LongerFirst()
    ensures "ab" in ["abc", "ab"] && Matching(["abc", "ab"], "ab") != []
    ensures Oldest(["abc", "ab"], "ab") == "abc"
  {
    var words := ["abc", "ab"];
    assert words[..1] == ["abc"] && ["abc"][..0] == [];
    assert "ab" == "abc"[..2];
    assert Matching(["abc"], "ab") == ["abc"];
    assert Matching(words, "ab") == ["ab", "abc"];
  }
}
