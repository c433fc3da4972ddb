/**
 * Deriving a phrase from a count: the count's text is checked, appended to
 * the base seed, and the seed string picks a pseudo-random generator; its
 * draws, scaled by the dictionary length and rounded down, index the words.
 *
 * The md5 digest and the `seedrandom` generator are one opaque parameter,
 * `Seeding`, from the seed string to the generator's successive draws.
 */
module Generator {
  import opened Wrappers
  import opened Decimal
  import opened MemoryStore

  /** A draw: a number in [0, 1), as exact arithmetic. */
  type Unit = u: real | 0.0 <= u < 1.0

  /** The draws of one generator, in the order the calls make them. */
  type Prng = nat -> Unit

  /** md5 of the seed string, then `seedrandom` of the hex digest. */
  type Seeding = string -> Prng

  /** A count argument: a number, or (as a caller may pass) any text. */
  datatype Count = Number(n: int) | Text(s: string)

  datatype Error = InvalidCount(message: string)

  datatype Result<T> = Success(value: T) | Failure(error: Error)

  /** The count as the digit test and the seed concatenation see it. */
  function CountText(count: Count): string
  {
    match count
    case Number(n) => NumberText(n)
    case Text(s) => s
  }

  /** The seed string: the base seed followed by the count's text. */
  function SeedString(baseSeed: string, count: Count): string
  {
    baseSeed + CountText(count)
  }

  /**
   * `getPhrasePrngFunction`: an error, and no generator, unless the count's
   * text is a run of decimal digits; otherwise the generator of the seed string.
   */
  function GetPhrasePrngFunction(seeding: Seeding, baseSeed: string, count: Count): (r: Result<Prng>)
    ensures r.Success? <==> IsDigitRun(CountText(count))
    ensures r.Success? ==> r.value == seeding(SeedString(baseSeed, count))
    ensures r.Failure? ==> r.error.message == "Count must be an integer. Value provided: " + CountText(count)
  {
    if !IsDigitRun(CountText(count)) then
      Failure(InvalidCount("Count must be an integer. Value provided: " + CountText(count)))
    else
      Success(seeding(baseSeed + CountText(count)))
  }

  /** A numeric count is accepted exactly when it is not negative. */
  lemma NumberCountAccepted(seeding: Seeding, baseSeed: string, n: int)
    ensures GetPhrasePrngFunction(seeding, baseSeed, Number(n)).Success? <==> n >= 0
  {
    NumberTextIsDigitRun(n);
  }

  /** Under one base seed, distinct numeric counts give distinct seed strings. */
  lemma SeedsDistinct(baseSeed: string, m: int, n: int)
    ensures SeedString(baseSeed, Number(m)) == SeedString(baseSeed, Number(n)) <==> m == n
  {
    var a, b := SeedString(baseSeed, Number(m)), SeedString(baseSeed, Number(n));
    if a == b {
      assert NumberText(m) == a[|baseSeed|..];
      assert NumberText(n) == b[|baseSeed|..];
      NumberTextInjective(m, n);
    }
  }

  /** `Math.floor(u * length)`: an index of the dictionary, or 0 when it is empty. */
  function IndexFor(u: Unit, length: nat): (i: nat)
    ensures length > 0 ==> i < length
    ensures length == 0 ==> i == 0
  {
    assert 0.0 <= u * length as real < length as real || length == 0;
    (u * length as real).Floor
  }

  /** `max(phraseLength, 0)`: how often the index loop runs. */
  function PhraseSize(phraseLength: int): nat
  {
    if phraseLength < 0 then 0 else phraseLength
  }

  /** The phrase a generator picks: for the k-th word, the word at the index of the k-th draw. */
  function Phrase(prng: Prng, phraseLength: int, words: seq<string>): (r: seq<Option<string>>)
    ensures |r| == PhraseSize(phraseLength)
  {
    seq(PhraseSize(phraseLength), k requires 0 <= k => WordAt(words, IndexFor(prng(k), |words|)))
  }

  /** With words in the dictionary, every entry of the phrase is one of them. */
  lemma PhraseFromDictionary(prng: Prng, phraseLength: int, words: seq<string>)
    requires |words| > 0
    ensures forall k :: 0 <= k < |Phrase(prng, phraseLength, words)| ==>
      Phrase(prng, phraseLength, words)[k].Some? && Phrase(prng, phraseLength, words)[k].value in words
  {
    var r := Phrase(prng, phraseLength, words);
    forall k | 0 <= k < |r|
      ensures r[k].Some? && r[k].value in words
    {
      var i := IndexFor(prng(k), |words|);
      assert r[k] == WordAt(words, i);
    }
  }

  /** With an empty dictionary every index is 0 and every entry is missing, but the length is kept. */
  lemma PhraseOfEmptyDictionary(prng: Prng, phraseLength: int)
    ensures |Phrase(prng, phraseLength, [])| == PhraseSize(phraseLength)
    ensures forall k :: 0 <= k < |Phrase(prng, phraseLength, [])| ==> Phrase(prng, phraseLength, [])[k].None?
  {
    var r := Phrase(prng, phraseLength, []);
    forall k | 0 <= k < |r|
      ensures r[k].None?
    {
      assert IndexFor(prng(k), 0) == 0;
    }
  }

  /**
   * The generator test's counts: a text that is not an integer is refused;
   * the count 1 is accepted and seeds the generator with `baseSeed + "1"`; 1 and 2 give different seeds.
   */
  lemma PrngTestCounts(seeding: Seeding, baseSeed: string)
    ensures GetPhrasePrngFunction(seeding, baseSeed, Text("not an integer")).Failure?
    ensures GetPhrasePrngFunction(seeding, baseSeed, Number(1)).Success?
    ensures GetPhrasePrngFunction(seeding, baseSeed, Number(1)).value == seeding(baseSeed + "1")
    ensures SeedString(baseSeed, Number(1)) != SeedString(baseSeed, Number(2))
  {
    assert !IsDigit("not an integer"[0]);
    NumberCountAccepted(seeding, baseSeed, 1);
    SeedsDistinct(baseSeed, 1, 2);
  }
}
