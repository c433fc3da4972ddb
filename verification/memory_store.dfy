/**
 * The in-memory dictionary: a key set of every word appended (the object
 * `dictionaryObj`) and the same words as an ascending list (`dictionary`),
 * rebuilt from the key set after every append.
 */
module MemoryStore {
  import opened Wrappers
  import opened StringOrder

  /** `_.keys(dictionaryObj).sort()`: the keys as an ascending list. */
  method SortedKeys(keys: set<string>) returns (sorted: seq<string>)
    ensures StrictlySorted(sorted)
    ensures Elements(sorted) == keys
  {
    sorted := [];
    var rest := keys;
    while rest != {}
      invariant StrictlySorted(sorted)
      invariant Elements(sorted) + rest == keys
      invariant Elements(sorted) !! rest
      decreases |rest|
    {
      var w :| w in rest;
      sorted := InsertSorted(sorted, w);
      rest := rest - {w};
    }
  }

  /** `!words`: no argument, or the empty string. */
  predicate IsFalsy(words: Option<Arg<string>>)
  {
    words.None? || words == Some(One(""))
  }

  /**
   * The properties every plain object inherits from `Object.prototype`; each
   * holds a function (or, for `__proto__`, the prototype), so reading one on
   * `{}` gives a truthy value.
   */
  const InheritedNames: set<string> := {
    "constructor", "hasOwnProperty", "isPrototypeOf", "propertyIsEnumerable",
    "toLocaleString", "toString", "valueOf", "__proto__",
    "__defineGetter__", "__defineSetter__", "__lookupGetter__", "__lookupSetter__"}

  lemma UnionCardinality(a: set<string>, b: set<string>)
    ensures |a + b| == |a| + |b - a|
  {
    assert a + b == a + (b - a);
    assert a !! (b - a);
  }

  /** `list[index]`: undefined outside the list. */
  function WordAt(list: seq<string>, index: int): (r: Option<string>)
    ensures r.Some? <==> 0 <= index < |list|
    ensures r.Some? ==> r.value == list[index]
  {
    if 0 <= index < |list| then Some(list[index]) else None
  }

  class MemoryDictionary {
    var dictionary: seq<string>
    var dictionaryObj: set<string>

    /** The list is the key set in ascending order. */
    ghost predicate Valid()
      reads this
    {
      StrictlySorted(dictionary) && Elements(dictionary) == dictionaryObj
    }

    constructor ()
      ensures Valid()
      ensures dictionaryObj == {} && dictionary == []
    {
      dictionary := [];
      dictionaryObj := {};
    }

    /**
     * A falsy argument changes nothing; a single word counts as a list of
     * one; every listed word becomes a key and the list is rebuilt sorted.
     */
    method AppendWords(words: Option<Arg<string>>)
      requires Valid()
      modifies this
      ensures Valid()
      ensures IsFalsy(words) ==> dictionaryObj == old(dictionaryObj) && dictionary == old(dictionary)
      ensures !IsFalsy(words) ==> dictionaryObj == old(dictionaryObj) + Elements(words.value.List())
      ensures !IsFalsy(words) ==>
        |dictionary| == old(|dictionary|) + |Elements(words.value.List()) - old(dictionaryObj)|
    {
      if IsFalsy(words) {
        return;
      }
      var list := words.value.List();
      var i := 0;
      while i < |list|
        invariant 0 <= i <= |list|
        invariant dictionaryObj == old(dictionaryObj) + Elements(list[..i])
      {
        assert Elements(list[..i + 1]) == Elements(list[..i]) + {list[i]} by {
          assert list[..i + 1] == list[..i] + [list[i]];
        }
        dictionaryObj := dictionaryObj + {list[i]};
        i := i + 1;
      }
      assert list[..i] == list;
      dictionary := SortedKeys(dictionaryObj);
      SortedIsDistinct(dictionary);
      DistinctCardinality(dictionary);
      SortedIsDistinct(old(dictionary));
      DistinctCardinality(old(dictionary));
      UnionCardinality(old(dictionaryObj), Elements(list));
    }

    /** `containsWord` as the source writes it: an inherited property also reads as present. */
    function ContainsWordAsWritten(word: string): (r: bool)
      reads this
      requires Valid()
      ensures r <==> word in dictionary || word in InheritedNames
    {
      assert word in dictionary <==> word in Elements(dictionary);
      word in dictionaryObj || word in InheritedNames
    }

    /** `containsWord` on own keys only: true exactly for the words appended. */
    function ContainsWord(word: string): (r: bool)
      reads this
      requires Valid()
      ensures r <==> word in dictionary
    {
      assert word in dictionary <==> word in Elements(dictionary);
      word in dictionaryObj
    }

    /** `containsWords` as the source writes it: each answer is `containsWord` as written. */
    function ContainsWordsAsWritten(words: Arg<string>): (r: seq<bool>)
      reads this
      requires Valid()
      ensures |r| == |words.List()|
      ensures forall k :: 0 <= k < |r| ==> (r[k] <==> ContainsWordAsWritten(words.List()[k]))
    {
      var list, keys := words.List(), dictionaryObj;
      seq(|list|, k requires 0 <= k < |list| => list[k] in keys || list[k] in InheritedNames)
    }

    /** `containsWords` on own keys only: the answer for each word, in order. */
    function ContainsWords(words: Arg<string>): (r: seq<bool>)
      reads this
      requires Valid()
      ensures |r| == |words.List()|
      ensures forall k :: 0 <= k < |r| ==> (r[k] <==> words.List()[k] in dictionary)
    {
      var list, keys := words.List(), dictionaryObj;
      assert forall w :: w in keys <==> w in dictionary;
      seq(|list|, k requires 0 <= k < |list| => list[k] in keys)
    }

    /**
     * `getWordAt`: undefined outside the list; inside, the word that exactly
     * `index` of the dictionary's words precede, so the answer depends only
     * on the set of words appended, not on the order they came in.
     */
    function GetWordAt(index: int): (r: Option<string>)
      reads this
      requires Valid()
      ensures r.Some? <==> 0 <= index < |dictionaryObj|
      ensures r.Some? ==> r.value in dictionaryObj
      ensures r.Some? ==> |set x | x in dictionaryObj && Less(x, r.value)| == index
    {
      SortedIsDistinct(dictionary);
      DistinctCardinality(dictionary);
      if 0 <= index < |dictionary| then RankOfIndex(dictionary, index); WordAt(dictionary, index)
      else WordAt(dictionary, index)
    }

    /** `getWordsAt`: `getWordAt` of each index, in order. */
    function GetWordsAt(indices: Arg<int>): (r: seq<Option<string>>)
      reads this
      requires Valid()
      ensures |r| == |indices.List()|
      ensures forall k :: 0 <= k < |r| ==> r[k] == GetWordAt(indices.List()[k])
    {
      var list, d := indices.List(), dictionary;
      seq(|list|, k requires 0 <= k < |list| => WordAt(d, list[k]))
    }

    /** `getLength`: the number of distinct words appended. */
    function GetLength(): (n: nat)
      reads this
      requires Valid()
      ensures n == |dictionaryObj|
    {
      SortedIsDistinct(dictionary);
      DistinctCardinality(dictionary);
      |dictionary|
    }
  }

  /**
   * On an empty dictionary the source reports "constructor" as contained,
   * one word at a time and in a list, though it was never appended.
   */
  method InheritedNameReportedPresent() returns (asWritten: bool, corrected: bool, listAsWritten: seq<bool>, listCorrected: seq<bool>)
    ensures asWritten && !corrected
    ensures listAsWritten == [true] && listCorrected == [false]
  {
    var store := new MemoryDictionary();
    asWritten := store.ContainsWordAsWritten("constructor");
    corrected := store.ContainsWord("constructor");
    listAsWritten := store.ContainsWordsAsWritten(One("constructor"));
    listCorrected := store.ContainsWords(One("constructor"));
  }

  lemma TestWordsSorted()
    ensures StrictlySorted(["word-1", "word-2", "word-3"])
  {
    assert Less("1", "2") && Less("1", "3") && Less("2", "3");
    assert "word-" + "1" == "word-1" && "word-" + "2" == "word-2" && "word-" + "3" == "word-3";
    LessAfterCommonPrefix("word-", "1", "2");
    LessAfterCommonPrefix("word-", "1", "3");
    LessAfterCommonPrefix("word-", "2", "3");
  }

  lemma TestWordSet()
    ensures Elements(["word-2", "word-3"]) == {"word-2", "word-3"}
    ensures {"word-1"} + {"word-2", "word-3"} == {"word-1", "word-2", "word-3"}
    ensures |{"word-1", "word-2", "word-3"}| == 3
  {
    var expected := ["word-1", "word-2", "word-3"];
    assert Elements(expected) == {"word-1", "word-2", "word-3"};
    TestWordsSorted();
    SortedIsDistinct(expected);
    DistinctCardinality(expected);
  }

  /** The dictionary test's first appends: one word, then the same word again. */
  method AppendOneWordTwice() returns (store: MemoryDictionary, lengths: seq<nat>)
    ensures fresh(store) && store.Valid()
    ensures store.dictionaryObj == {"word-1"}
    ensures lengths == [0, 1, 1]
  {
    store := new MemoryDictionary();
    var l0 := store.GetLength();
    store.AppendWords(Some(One("word-1")));
    assert Elements(["word-1"]) == {"word-1"};
    assert store.dictionaryObj == {"word-1"};
    var l1 := store.GetLength();
    store.AppendWords(Some(One("word-1")));
    var l2 := store.GetLength();
    lengths := [l0, l1, l2];
  }

  /** The dictionary test's appends: one word, the same word again, then a list of two. */
  method AppendTestWords() returns (store: MemoryDictionary, lengths: seq<nat>)
    ensures fresh(store) && store.Valid()
    ensures store.dictionaryObj == {"word-1", "word-2", "word-3"}
    ensures lengths == [0, 1, 1, 3]
  {
    store, lengths := AppendOneWordTwice();
    var arg := Some(Many(["word-2", "word-3"]));
    assert arg.value.List() == ["word-2", "word-3"];
    TestWordSet();
    store.AppendWords(arg);
    var l3 := store.GetLength();
    lengths := lengths + [l3];
  }

  /** The dictionary test: the three words come back in order, one by one and at once. */
  method AppendAndLookUp() returns (lengths: seq<nat>, each: seq<Option<string>>, atOnce: seq<Option<string>>)
    ensures lengths == [0, 1, 1, 3]
    ensures each == [Some("word-1"), Some("word-2"), Some("word-3")]
    ensures atOnce == each
  {
    var store;
    store, lengths := AppendTestWords();
    var expected := ["word-1", "word-2", "word-3"];
    assert Elements(expected) == store.dictionaryObj;
    TestWordsSorted();
    SortedDetermined(expected, store.dictionary);
    each := [store.GetWordAt(0), store.GetWordAt(1), store.GetWordAt(2)];
    atOnce := store.GetWordsAt(Many([0, 1, 2]));
    assert atOnce[0] == WordAt(expected, 0);
    assert atOnce[1] == WordAt(expected, 1);
    assert atOnce[2] == WordAt(expected, 2);
  }

  /** The dictionary test's membership checks: the three words are in, two others are not. */
  method ContainsTestWords() returns (each: seq<bool>, atOnce: seq<bool>, absent: bool, absentAtOnce: seq<bool>)
    ensures each == [true, true, true] && atOnce == [true, true, true]
    ensures !absent && absentAtOnce == [false, false]
  {
    var store, _ := AppendTestWords();
    var words := ["word-1", "word-2", "word-3"];
    assert Elements(words) == store.dictionaryObj;
    each := [store.ContainsWord(words[0]), store.ContainsWord(words[1]), store.ContainsWord(words[2])];
    atOnce := store.ContainsWords(Many(words));
    assert atOnce[0] && atOnce[1] && atOnce[2];
    absent := store.ContainsWord("not-contained");
    assert "not-contained" != words[0] && "not-contained" != words[1] && "not-contained" != words[2];
    var others := ["not-contained-1", "not-contained-2"];
    absentAtOnce := store.ContainsWords(Many(others));
    assert !absentAtOnce[0] && !absentAtOnce[1];
  }
}
