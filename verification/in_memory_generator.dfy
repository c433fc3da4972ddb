/**
 * The in-memory generator: a phrase counter, a word list grown by
 * order-preserving union, and `nextPhrase`, which draws a phrase from a
 * dictionary store keyed by the counter's new value.
 */
module InMemoryGenerator {
  import opened Wrappers
  import opened MemoryStore
  import opened Generator
  import opened StringOrder

  /** The first occurrence of every element, in the order they first occur. */
  function Uniq(s: seq<string>): (r: seq<string>)
    ensures Elements(r) == Elements(s)
    ensures Distinct(r)
    decreases |s|
  {
    if s == [] then []
    else
      var u := Uniq(s[..|s| - 1]);
      assert s == s[..|s| - 1] + [s[|s| - 1]];
      assert Elements(s) == Elements(s[..|s| - 1]) + {s[|s| - 1]};
      if s[|s| - 1] in u then u
      else
        assert Elements(u + [s[|s| - 1]]) == Elements(u) + {s[|s| - 1]};
        u + [s[|s| - 1]]
  }

  /** `_.union(a, b)`: the distinct elements of `a` then `b`, each where it first occurs. */
  function Union(a: seq<string>, b: seq<string>): seq<string>
  {
    Uniq(a + b)
  }

  /** A list without repeats is its own first occurrences. */
  lemma {:induction false} UniqOfDistinct(s: seq<string>)
    requires Distinct(s)
    ensures Uniq(s) == s
    decreases |s|
  {
    if s != [] {
      var init := s[..|s| - 1];
      assert Distinct(init);
      UniqOfDistinct(init);
      assert s[|s| - 1] !in init;
      assert s == init + [s[|s| - 1]];
    }
  }

  /** Appending to a list keeps the first occurrences found so far. */
  lemma {:induction false} UniqPrefix(a: seq<string>, b: seq<string>)
    ensures Uniq(a) <= Uniq(a + b)
    decreases |b|
  {
    if b == [] {
      assert a + b == a;
    } else {
      var init := b[..|b| - 1];
      UniqPrefix(a, init);
      assert (a + b)[..|a + b| - 1] == a + init;
    }
  }

  /**
   * Union keeps the old list in place and in order, never repeats a word,
   * loses nothing, and grows by exactly the number of new distinct words.
   */
  lemma UnionProperties(a: seq<string>, b: seq<string>)
    requires Distinct(a)
    ensures |Union(a, b)| == |a| + |Elements(b) - Elements(a)|
    ensures Union(a, b)[..|a|] == a
    ensures Distinct(Union(a, b))
    ensures Elements(Union(a, b)) == Elements(a) + Elements(b)
  {
    UniqOfDistinct(a);
    UniqPrefix(a, b);
    assert Elements(a + b) == Elements(a) + Elements(b) by {
      forall x | x in Elements(a) + Elements(b)
        ensures x in Elements(a + b)
      {
        if x in a {
          var i :| 0 <= i < |a| && a[i] == x;
          assert (a + b)[i] == x;
        } else {
          var j :| 0 <= j < |b| && b[j] == x;
          assert (a + b)[|a| + j] == x;
        }
      }
    }
    var u := Union(a, b);
    DistinctCardinality(u);
    DistinctCardinality(a);
    UnionCardinality(Elements(a), Elements(b));
  }

  class MemoryGenerator {
    /** The dictionary store the phrases are drawn from. */
    const store: MemoryDictionary
    const seeding: Seeding
    const baseSeed: string
    /** The generator's own word list, in insertion order. */
    var dictionary: seq<string>
    /** The number of phrases requested so far. */
    var count: int

    ghost predicate Valid()
      reads this
    {
      Distinct(dictionary)
    }

    /** `baseSeed` is the empty string unless the options give one; the count starts at 0. */
    constructor (store: MemoryDictionary, seeding: Seeding, baseSeed: Option<string>)
      ensures Valid()
      ensures this.store == store && this.seeding == seeding
      ensures this.baseSeed == (if baseSeed.Some? then baseSeed.value else "")
      ensures dictionary == [] && count == 0
    {
      this.store := store;
      this.seeding := seeding;
      this.baseSeed := if baseSeed.Some? then baseSeed.value else "";
      dictionary := [];
      count := 0;
    }

    /** A single word counts as a list of one; the list becomes its union with the words. */
    method AppendWordsToDictionary(words: Arg<string>)
      requires Valid()
      modifies this`dictionary
      ensures Valid()
      ensures dictionary == Union(old(dictionary), words.List())
      ensures |dictionary| == |old(dictionary)| + |Elements(words.List()) - Elements(old(dictionary))|
      ensures dictionary[..|old(dictionary)|] == old(dictionary)
      ensures Elements(dictionary) == Elements(old(dictionary)) + Elements(words.List())
    {
      UnionProperties(dictionary, words.List());
      dictionary := Union(dictionary, words.List());
    }

    /** `getWord`: the word at that position in insertion order, or none. */
    function GetWord(wordIndex: int): (r: Option<string>)
      reads this
      ensures r.Some? <==> 0 <= wordIndex < |dictionary|
      ensures r.Some? ==> r.value == dictionary[wordIndex]
    {
      WordAt(dictionary, wordIndex)
    }

    /** `getDictionaryLength`: the number of distinct words appended. */
    function GetDictionaryLength(): (n: nat)
      reads this
      requires Valid()
      ensures n == |Elements(dictionary)|
    {
      DistinctCardinality(dictionary);
      |dictionary|
    }

    method GetCount() returns (c: int)
      ensures c == count
    {
      c := count;
    }

    method SetCount(c: int)
      modifies this`count
      ensures count == c
    {
      count := c;
    }

    /** Raises the count by one and answers the new value. */
    method IncrementCount() returns (c: int)
      modifies this`count
      ensures count == old(count) + 1 && c == count
    {
      count := count + 1;
      c := count;
    }

    /**
     * `nextPhrase`: read the store's length, raise the count, derive the
     * generator from the new count, draw one index per word and look the
     * indices up in the store. A count the digit test refuses (the count was
     * set below -1) ends the series with that error and an empty phrase; the
     * count stays raised.
     */
    method NextPhrase(phraseLength: int) returns (err: Option<Error>, words: seq<Option<string>>)
      requires store.Valid()
      modifies this`count
      ensures count == old(count) + 1
      ensures var prng := GetPhrasePrngFunction(seeding, baseSeed, Number(count));
        (prng.Failure? ==> err == Some(prng.error) && words == []) &&
        (prng.Success? ==> err == None && words == Phrase(prng.value, phraseLength, store.dictionary))
      ensures err.None? <==> count >= 0
    {
      var length := store.GetLength();
      var n := IncrementCount();
      NumberCountAccepted(seeding, baseSeed, n);
      var prng := GetPhrasePrngFunction(seeding, baseSeed, Number(n));
      if prng.Failure? {
        return Some(prng.error), [];
      }
      SortedIsDistinct(store.dictionary);
      DistinctCardinality(store.dictionary);
      assert length == |store.dictionary|;
      var wordIndices: seq<int> := [];
      var index := 0;
      while index < phraseLength
        invariant 0 <= index <= PhraseSize(phraseLength)
        invariant |wordIndices| == index
        invariant forall k :: 0 <= k < index ==> wordIndices[k] == IndexFor(prng.value(k), length)
      {
        wordIndices := wordIndices + [IndexFor(prng.value(index), length)];
        index := index + 1;
      }
      words := store.GetWordsAt(Many(wordIndices));
      err := None;
    }
  }

  /** The unions the generator test's appends perform. */
  lemma TestUnions()
    ensures Union([], One("word-1").List()) == ["word-1"]
    ensures Union(["word-1"], One("word-1").List()) == ["word-1"]
    ensures Union(["word-1"], Many(["word-2", "word-3"]).List()) == ["word-1", "word-2", "word-3"]
  {
    assert [] + ["word-1"] == ["word-1"];
    UniqOfDistinct(["word-1"]);
    assert ["word-1"] + ["word-1"] == ["word-1", "word-1"];
    assert ["word-1", "word-1"][..1] == ["word-1"];
    TestWordSet();
    TestWordsSorted();
    SortedIsDistinct(["word-1", "word-2", "word-3"]);
    UniqOfDistinct(["word-1", "word-2", "word-3"]);
    assert ["word-1"] + ["word-2", "word-3"] == ["word-1", "word-2", "word-3"];
  }

  /** The generator test's appends: lengths 0, 1, 1, then 3 after a list of two. */
  method AppendTestWordsToGenerator(store: MemoryDictionary, seeding: Seeding) returns (generator: MemoryGenerator, lengths: seq<nat>)
    ensures fresh(generator) && generator.Valid()
    ensures generator.dictionary == ["word-1", "word-2", "word-3"]
    ensures lengths == [0, 1, 1, 3]
  {
    TestUnions();
    generator := new MemoryGenerator(store, seeding, Some("test"));
    var l0 := generator.GetDictionaryLength();
    generator.AppendWordsToDictionary(One("word-1"));
    assert Elements(["word-1"]) == {"word-1"};
    var l1 := generator.GetDictionaryLength();
    generator.AppendWordsToDictionary(One("word-1"));
    var l2 := generator.GetDictionaryLength();
    generator.AppendWordsToDictionary(Many(["word-2", "word-3"]));
    TestWordSet();
    assert Elements(generator.dictionary) == {"word-1", "word-2", "word-3"};
    var l3 := generator.GetDictionaryLength();
    lengths := [l0, l1, l2, l3];
  }

  /** The generator test's words: lengths 0, 1, 1, 3, and the words come back in insertion order. */
  method AppendAndGetWords(store: MemoryDictionary, seeding: Seeding) returns (lengths: seq<nat>, found: seq<Option<string>>)
    ensures lengths == [0, 1, 1, 3]
    ensures found == [Some("word-1"), Some("word-2"), Some("word-3")]
  {
    var generator;
    generator, lengths := AppendTestWordsToGenerator(store, seeding);
    found := [generator.GetWord(0), generator.GetWord(1), generator.GetWord(2)];
  }

  /** The generator test's count: 0 at first, 1 after an increment, 0 again once set. */
  method CountUpAndReset(store: MemoryDictionary, seeding: Seeding) returns (counts: seq<int>)
    ensures counts == [0, 1, 1, 0]
  {
    var generator := new MemoryGenerator(store, seeding, Some("test"));
    var c0 := generator.GetCount();
    var c1 := generator.IncrementCount();
    var c2 := generator.GetCount();
    generator.SetCount(0);
    var c3 := generator.GetCount();
    counts := [c0, c1, c2, c3];
  }

  /** The generator test's phrase: over the three-word store, four words, each a string. */
  method FourWordPhrase(seeding: Seeding) returns (err: Option<Error>, words: seq<Option<string>>)
    ensures err.None?
    ensures |words| == 4
    ensures forall k :: 0 <= k < 4 ==> words[k].Some? && words[k].value in {"word-1", "word-2", "word-3"}
  {
    var store, _ := AppendTestWords();
    var generator := new MemoryGenerator(store, seeding, Some("test"));
    err, words := generator.NextPhrase(4);
    NumberCountAccepted(seeding, "test", 1);
    var prng := GetPhrasePrngFunction(seeding, "test", Number(1));
    PhraseFromDictionary(prng.value, 4, store.dictionary);
    forall k | 0 <= k < 4
      ensures words[k].Some? && words[k].value in {"word-1", "word-2", "word-3"}
    {
      assert words[k].value in Elements(store.dictionary);
    }
  }
}
