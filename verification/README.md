# four-word-phrase, modelled in Dafny

four-word-phrase builds a dictionary of words out of raw text and then
generates deterministic pseudo-random phrases from it. This project models
the four parts that do the work:

- **The dictionary transform stream** (`DictionaryTransform`, with `Patterns`
  and `Tokenizer`). It takes text chunks in and gives words out. The stream
  keeps the unfinished word at the end of each chunk (the *fragment*) and a
  cache of the words it has already seen. With an unbounded cache (the
  default) every complete word is checked only once against the acceptance
  and rejection patterns; a bounded cache forgets old words and lets
  repeats through. The class
  `DictionaryTransformStream` has the source's fields and methods. Its
  methods are proved to follow pure step functions (`AfterWord`,
  `AfterChunk`, `AfterFlush`), and the stream's properties are lemmas about
  those functions.
- **The in-memory dictionary store** (`MemoryStore`, with `StringOrder`). It
  holds a key set and the same keys as an ascending list, which is rebuilt
  after every append. It answers lookups by word and by position.
- **Phrase generation** (`Generator`, with `Decimal`). A count is checked to
  be a run of decimal digits and appended to the base seed. The resulting
  seed string picks a pseudo-random generator. Each draw `u` becomes the
  index `floor(u * L)` into a dictionary of length `L`.
- **The in-memory generator** (`InMemoryGenerator`). The class
  `MemoryGenerator` has a phrase counter and its own word list, which grows
  by order-preserving union. It also has `NextPhrase`, which raises the
  counter and draws a phrase from a `MemoryDictionary` store.

The md5 digest and the `seedrandom` generator are one parameter, `Seeding`.
It maps a seed string to the generator's successive draws, which are exact
reals in [0, 1). Regular-expression options are parameters: a predicate on
characters for the delimiter class, and predicates on words for acceptance
and rejection. The three default patterns are written out in `Patterns`.

Where the code and its documentation disagree, the model follows the code:

- Words are not lowercased before the acceptance test. The comment at
  src/util/dictionaryTransformStream.js:34-35 says they are, but
  `pushWord` tests the word as it is.
- An empty dictionary does not make `nextPhrase` fail. It returns
  `max(phraseLength, 0)` missing entries, because every index is `floor(u * 0) = 0`
  and position 0 of an empty list is undefined.

## Model

| member | source | states |
|---|---|---|
| DictionaryTransform.Configure | src/util/dictionaryTransformStream.js:47-65 | object mode is on unless it is explicitly false; a supplied delimiter, acceptance or rejection pattern is used, and the default one when none is given; the cache is unbounded exactly when no size or a size of 0 is given, and otherwise holds that many words |
| DictionaryTransform.DictionaryTransformStream.constructor | src/util/dictionaryTransformStream.js:47-70 | the settings are the defaulted options; the fragment is empty; the cache and the output are empty |
| Patterns.RejectionIsTwoHyphens | src/util/dictionaryTransformStream.js:60 | on a word without line terminators, `/-{2,}\|-.*-/` matches exactly when the word has two or more hyphens |
| Patterns.DefaultAdmittedShape | src/util/dictionaryTransformStream.js:59-60 | a word that passes the default acceptance pattern and fails the default rejection pattern has 6 to 14 characters, all from `a-z` and `-`, with at most one hyphen |
| DictionaryTransform.DefaultSegmentsRejection | src/util/dictionaryTransformStream.js:58-60 | every segment the default delimiter cuts out has no line terminator, so on it the rejection pattern is exactly "two or more hyphens" |
| Tokenizer.Split | src/util/dictionaryTransformStream.js:83-86 | splitting always gives at least one segment, so taking the last one as the new fragment is always defined |
| Tokenizer.SegmentsHaveNoDelimiter | src/util/dictionaryTransformStream.js:83 | no segment contains a delimiter character (the delimiter pattern matches maximal runs) |
| Tokenizer.SplitKeepsEveryOtherCharacter | src/util/dictionaryTransformStream.js:83 | the segments joined back together are the text with exactly its delimiter characters removed |
| Tokenizer.SplitAppend | src/util/dictionaryTransformStream.js:82-86 | the words of `a + b` are the words of every segment of `a` but the last, followed by the words of that last segment continued with `b` |
| DictionaryTransform.DictionaryTransformStream.PushWord | src/util/dictionaryTransformStream.js:114-126 | the cache and output become `AfterWord` of the old ones; a non-empty word ends up as the most recent cache entry; an empty word changes nothing |
| DictionaryTransform.CachedOnFirstSight | src/util/dictionaryTransformStream.js:115-117 | a new non-empty word is cached even when the filters turn it down, and then nothing is emitted for it |
| DictionaryTransform.RepeatIsSilent | src/util/dictionaryTransformStream.js:115 | pushing a word a second time straight after the first emits nothing more |
| DictionaryTransform.AfterWordsNonEmpty | src/util/dictionaryTransformStream.js:115 | pushing the empty segments changes nothing: pushing all segments equals pushing only the non-empty ones |
| DictionaryTransform.EmptyNeverCached | src/util/dictionaryTransformStream.js:115-116 | the empty word never enters the cache |
| DictionaryTransform.RememberElements | src/util/dictionaryTransformStream.js:116 | caching a word puts it in the cache and adds nothing else; with no capacity nothing is evicted |
| DictionaryTransform.CacheWithinCapacity | src/util/dictionaryTransformStream.js:63-65 | a bounded cache never holds more words than its capacity |
| DictionaryTransform.WordOfLine | src/util/dictionaryTransformStream.js:119-123 | an emitted item is the word, or the word followed by a line break outside object mode, and the word can be read back from it |
| DictionaryTransform.EmittedAreAdmitted | src/util/dictionaryTransformStream.js:117 | every emitted word passes the acceptance test and fails the rejection test |
| DictionaryTransform.DefaultEmittedShape | src/util/dictionaryTransformStream.js:117-123 | with the default patterns every emitted word has 6 to 14 characters from `a-z` and `-` and at most one hyphen |
| DictionaryTransform.EachWordEmittedAtMostOnce | src/util/dictionaryTransformStream.js:114-117 | with an unbounded cache no word is emitted twice over the whole stream |
| DictionaryTransform.UnboundedCacheIsSeenWords | src/util/dictionaryTransformStream.js:115-116 | with an unbounded cache the cache holds exactly the non-empty words pushed so far |
| DictionaryTransform.DictionaryTransformStream.Transform | src/util/dictionaryTransformStream.js:80-93 | the fragment becomes the last segment of the old fragment plus the chunk; exactly the earlier segments are pushed, in order |
| DictionaryTransform.DictionaryTransformStream.Flush | src/util/dictionaryTransformStream.js:98-103 | the fragment is pushed as a final word and reset to empty |
| DictionaryTransform.RunPushesWords | src/util/dictionaryTransformStream.js:80-103 | a whole run (every chunk, then the flush) pushes exactly the words of the concatenated input, in order |
| DictionaryTransform.ChunkingInvariance | src/util/dictionaryTransformStream.js:80-103 | two runs over chunkings of the same text end in the same cache and output, for any delimiter class and cache capacity |
| DictionaryTransform.PipeChunks | src/util/dictionaryTransformStream.js:80-103 | a stream fed the chunks and then ended emits the admitted words of the concatenated text |
| MemoryStore.MemoryDictionary.constructor | src/dictionary/memoryDictionary.js:16-21 | the key set and the sorted list start empty |
| MemoryStore.MemoryDictionary.AppendWords | src/dictionary/memoryDictionary.js:31-45 | a falsy argument changes nothing; a single word counts as a list of one; the key set gains the listed words; the list is again the key set in ascending order and grows by the number of new distinct words |
| MemoryStore.SortedKeys | src/dictionary/memoryDictionary.js:42 | the keys come out in strictly ascending order, each exactly once |
| StringOrder.InsertSorted | src/dictionary/memoryDictionary.js:42 | inserting a new word into an ascending list keeps it ascending and adds exactly that word |
| StringOrder.LessTotal | src/dictionary/memoryDictionary.js:42 | the default sort order compares any two distinct strings |
| StringOrder.SortedDetermined | src/dictionary/memoryDictionary.js:39-42 | two ascending lists with the same words are equal, so the list depends only on the set of words appended and not on their order |
| MemoryStore.MemoryDictionary.ContainsWordAsWritten | src/dictionary/memoryDictionary.js:50-65 | as written, a word reads as contained exactly when it was appended or is a name inherited from `Object.prototype` |
| MemoryStore.MemoryDictionary.ContainsWordsAsWritten | src/dictionary/memoryDictionary.js:57-65 | as written, one answer per word, in order, each the as-written single-word answer (so inherited names read as contained too) |
| MemoryStore.InheritedNameReportedPresent | src/dictionary/memoryDictionary.js:50-65 | on an empty dictionary, "constructor" reads as contained as written, alone and in a list, but not in the corrected lookups |
| MemoryStore.MemoryDictionary.ContainsWord | src/dictionary/memoryDictionary.js:50-65 | true exactly for the words appended |
| MemoryStore.MemoryDictionary.ContainsWords | src/dictionary/memoryDictionary.js:57-65 | corrected: one answer per word, in order, each true exactly when that word was appended |
| MemoryStore.MemoryDictionary.GetWordAt | src/dictionary/memoryDictionary.js:70-72 | a word exactly for the indices 0 to length - 1; the word at `i` is an appended word with exactly `i` appended words before it in sort order |
| MemoryStore.MemoryDictionary.GetWordsAt | src/dictionary/memoryDictionary.js:77-85 | one entry per index, in order, each the single-index lookup of that index |
| MemoryStore.MemoryDictionary.GetLength | src/dictionary/memoryDictionary.js:90-92 | the number of distinct words appended |
| MemoryStore.AppendAndLookUp | test/lib/dictionary.js:27-81 | appending "word-1", "word-1" again, then "word-2" and "word-3" gives lengths 0, 1, 1, 3, and the words come back in order one by one and at once |
| MemoryStore.ContainsTestWords | test/lib/dictionary.js:83-114 | after those appends the three words are contained, one by one and at once, and "not-contained", "not-contained-1" and "not-contained-2" are not |
| InMemoryGenerator.MemoryGenerator.constructor | src/generator.js:28-33 | the base seed is the empty string unless the options give one |
| Generator.GetPhrasePrngFunction | src/generator.js:107-116 | an error and no generator unless the count's text is a non-empty run of decimal digits; otherwise the generator of the seed string `baseSeed + count` |
| Generator.NumberCountAccepted | src/generator.js:108-110 | a numeric count is accepted exactly when it is not negative |
| Generator.SeedsDistinct | src/generator.js:112 | under one base seed, two numeric counts give the same seed string exactly when they are equal |
| Decimal.ValueOfDigits | src/generator.js:112 | the decimal text of a count reads back as the count |
| Decimal.NumberTextIsDigitRun | src/generator.js:108 | the digit test accepts the text of an integer exactly when the integer is not negative |
| Decimal.NumberTextInjective | src/generator.js:112 | distinct integers have distinct texts |
| Generator.PrngTestCounts | test/lib/generator.js:26-74 | the text "not an integer" is refused; the count 1 is accepted and gives the same generator each time; 1 and 2 give different seeds |
| Generator.IndexFor | src/generator.js:81 | `floor(u * L)` is an index of the dictionary when `L > 0`, and 0 when `L = 0` |
| Generator.Phrase | src/generator.js:79-82 | the index loop runs `max(phraseLength, 0)` times |
| Generator.PhraseFromDictionary | src/generator.js:79-86 | with a non-empty dictionary every entry of the phrase is one of its words |
| Generator.PhraseOfEmptyDictionary | src/generator.js:79-86 | with an empty dictionary the phrase keeps its length and every entry is missing |
| InMemoryGenerator.MemoryGenerator.NextPhrase | src/generator.js:52-94 | the count is raised by one before the generator is derived from the new count; if that count is accepted, the phrase is the store's words at the draws' indices; if not (only once the count was set below -1), the result is that error with an empty phrase |
| InMemoryGenerator.MemoryGenerator.AppendWordsToDictionary | src/generator/memoryGenerator.js:37-43 | a single word counts as a list of one; the old list stays in place as a prefix; no word is repeated; the list gains exactly the new distinct words |
| InMemoryGenerator.UnionProperties | src/generator/memoryGenerator.js:41 | the union keeps its left side as a prefix, has no repeats, loses no element, and grows by the number of new distinct elements |
| InMemoryGenerator.Uniq | src/generator/memoryGenerator.js:41 | keeping first occurrences keeps every element and leaves no repeats |
| InMemoryGenerator.MemoryGenerator.GetWord | src/generator/memoryGenerator.js:48-50 | the word at that position in insertion order, and none outside the list |
| InMemoryGenerator.MemoryGenerator.GetDictionaryLength | src/generator/memoryGenerator.js:55-57 | the number of distinct words added |
| InMemoryGenerator.MemoryGenerator.GetCount | src/generator/memoryGenerator.js:62-64 | the current count |
| InMemoryGenerator.MemoryGenerator.SetCount | src/generator/memoryGenerator.js:69-72 | the count becomes the given value and nothing else changes |
| InMemoryGenerator.MemoryGenerator.IncrementCount | src/generator/memoryGenerator.js:77-80 | the count rises by exactly one and the new value is answered |
| InMemoryGenerator.AppendAndGetWords | test/lib/generator.js:82-132 | appending "word-1", "word-1" again, then "word-2" and "word-3" gives lengths 0, 1, 1, 3, and the words come back in insertion order |
| InMemoryGenerator.CountUpAndReset | test/lib/generator.js:140-172 | the count is 0 at first, 1 after an increment, and 0 again once set |
| InMemoryGenerator.FourWordPhrase | test/lib/generator.js:182-189 | over the three-word store, a four-word phrase has four entries, and each is one of the words |

## Left out

- Node stream machinery: `Transform` inheritance, `push` buffering, `pipe`, events and backpressure. The model keeps only the per-chunk and flush steps. It also does not model that `_flush` never invokes its callback.
- Byte chunks: the model takes each chunk as text. A multi-byte UTF-8 character cut between two chunks (which `chunk.toString()` would garble) is not modelled.
- General regular expressions: custom options are modelled as predicates. The delimiter is a character class whose maximal runs separate words. Only the three default patterns are written out.
- lru-cache internals: the cache is a list in recency order. A lookup refreshes an entry; a new word goes last and evicts the oldest entries over capacity. Size options that are negative or not integers are not modelled.
- The default sort compares UTF-16 code units; `StringOrder.Less` compares characters. The two differ only for characters outside the Basic Multilingual Plane.
- `__proto__` as an appended word: assigning it on a plain object does not create a key. The model adds it like any other word.
- Numbers: counts and phrase lengths are integers. JavaScript's 2^53 limit and the exponent form of large numbers are not modelled, and neither are non-integer phrase lengths.
- md5 and `seedrandom` form the `Seeding` parameter, so the model proves nothing about the draws themselves (uniformity, or that different seeds give different draws). Draws are exact reals, not IEEE doubles.
- `async.series` and callbacks are modelled as sequential steps. A failed length read or a failed lookup in `nextPhrase` cannot happen with the in-memory store, so those error paths, and the rule that the steps stop at the first error, are modelled only for the count check.
- `MemoryGenerator` wiring: as written, its constructor passes its options into the base class's store slot, so the base seed is always empty. It then overwrites that slot with a plain array, so `nextPhrase` has no store to call. The model gives the generator a separate store field and its own word list, and takes the base seed from its options.
- InMemoryGenerator.MemoryGenerator.constructor: only a base seed that is absent or a string is modelled. An explicit `undefined`, which the seed string would spell out, is not.
- MemoryStore.MemoryDictionary.AppendWords: non-string words are not modelled.
- InMemoryGenerator.MemoryGenerator.AppendWordsToDictionary: `appendWordsToDictionary(undefined)`, which would add `undefined` to the list, and non-string words are not modelled.
- src/dictionary.js, src/importer.js, src/importer/readStreamImporter.js, index.js and the example scripts are not part of this model.

## Findings

| source | as written | input that shows it | evidently intended | confidence | as-written member | corrected member |
|---|---|---|---|---|---|---|
| src/dictionary/memoryDictionary.js:50-52 | `!!this.dictionaryObj[word]` on a plain object also reads the names inherited from `Object.prototype` | `containsWord("constructor")` on an empty dictionary answers true (shown by MemoryStore.InheritedNameReportedPresent) | true exactly for the words appended | not executed | MemoryStore.MemoryDictionary.ContainsWordAsWritten | MemoryStore.MemoryDictionary.ContainsWord |
| src/dictionary/memoryDictionary.js:57-65 | `!!self.dictionaryObj[word]` for each listed word reads the inherited names the same way | `containsWords("constructor")` on an empty dictionary answers `[true]` (shown by MemoryStore.InheritedNameReportedPresent) | each answer true exactly when that word was appended | not executed | MemoryStore.MemoryDictionary.ContainsWordsAsWritten | MemoryStore.MemoryDictionary.ContainsWords |
