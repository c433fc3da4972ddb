/**
 * The dictionary transform stream: text chunks in, accepted words out.
 *
 * The stream keeps a trailing word fragment and a cache of the words it has
 * already considered. Each chunk is appended to the fragment and split on
 * delimiter runs; every segment but the last is pushed as a word and the last
 * becomes the new fragment. At the end of input the fragment is pushed too.
 * Pushing a word drops it when empty or already cached; otherwise the word is
 * cached and, when it passes the acceptance pattern and fails the rejection
 * pattern, emitted (followed by a line break outside object mode).
 *
 * The pure functions below are the specification; the class
 * DictionaryTransformStream is the stream object, whose methods are proved
 * to follow them.
 */
module DictionaryTransform {
  import opened Wrappers
  import opened Patterns
  import opened Tokenizer

  type Positive = n: nat | n >= 1 witness 1

  /** The constructor's options; an option that is not given is None. */
  datatype Options = Options(
    objectMode: Option<bool>,
    wordDelimiter: Option<char -> bool>,
    acceptance: Option<string -> bool>,
    rejection: Option<string -> bool>,
    duplicateCacheSize: Option<nat>)

  /**
   * The settings in force once defaults are applied. A delimiter is a
   * character class whose runs separate words; `capacity` None is an
   * unbounded cache.
   */
  datatype Config = Config(
    objectMode: bool,
    isDelimiter: char -> bool,
    accept: string -> bool,
    reject: string -> bool,
    capacity: Option<Positive>)

  /** The constructor's defaulting of its options. */
  function Configure(options: Options): (cfg: Config)
    ensures cfg.objectMode <==> options.objectMode != Some(false)
    ensures options.wordDelimiter.None? ==> cfg.isDelimiter == IsDefaultDelimiter
    ensures options.wordDelimiter.Some? ==> cfg.isDelimiter == options.wordDelimiter.value
    ensures options.acceptance.None? ==> cfg.accept == DefaultAcceptance
    ensures options.acceptance.Some? ==> cfg.accept == options.acceptance.value
    ensures options.rejection.None? ==> cfg.reject == DefaultRejection
    ensures options.rejection.Some? ==> cfg.reject == options.rejection.value
    ensures cfg.capacity.None? <==> options.duplicateCacheSize in {None, Some(0)}
    ensures cfg.capacity.Some? ==> options.duplicateCacheSize == Some(cfg.capacity.value as nat)
  {
    Config(
      options.objectMode != Some(false),
      if options.wordDelimiter.Some? then options.wordDelimiter.value else IsDefaultDelimiter,
      if options.acceptance.Some? then options.acceptance.value else DefaultAcceptance,
      if options.rejection.Some? then options.rejection.value else DefaultRejection,
      match options.duplicateCacheSize
      case None => None
      case Some(n) => if n == 0 then None else Some(n as Positive))
  }

  // ---------------------------------------------------------------------
  // The seen-word cache: least recently used first, most recently used last.
  // ---------------------------------------------------------------------

  /** The cache without `w`. */
  function Remove(cache: seq<string>, w: string): (r: seq<string>)
    ensures |r| <= |cache|
    ensures w in cache ==> |r| < |cache|
  {
    if cache == [] then []
    else (if cache[0] == w then [] else [cache[0]]) + Remove(cache[1..], w)
  }

  /** A cache hit: `w` becomes the most recently used entry. */
  function Touch(cache: seq<string>, w: string): seq<string>
  {
    Remove(cache, w) + [w]
  }

  /** Caching a new word: it becomes the most recent entry, and the least recent ones go while over capacity. */
  function Remember(capacity: Option<Positive>, cache: seq<string>, w: string): seq<string>
  {
    var c := cache + [w];
    if capacity.Some? && |c| > capacity.value then c[|c| - capacity.value..] else c
  }

  lemma {:induction false} RemoveElements(cache: seq<string>, w: string)
    ensures Elements(Remove(cache, w)) == Elements(cache) - {w}
  {
    if cache != [] {
      RemoveElements(cache[1..], w);
      assert cache == [cache[0]] + cache[1..];
      var head := if cache[0] == w then [] else [cache[0]];
      assert Remove(cache, w) == head + Remove(cache[1..], w);
      assert Elements(head + Remove(cache[1..], w)) == Elements(head) + Elements(Remove(cache[1..], w));
      assert Elements(cache) == {cache[0]} + Elements(cache[1..]);
    }
  }

  // ---------------------------------------------------------------------
  // Pushing words.
  // ---------------------------------------------------------------------

  /** The cache and everything pushed to the readable side so far. */
  datatype Dedup = Dedup(cache: seq<string>, output: seq<string>)

  /** What is pushed for an emitted word. */
  function Line(cfg: Config, w: string): string
  {
    if cfg.objectMode then w else w + "\n"
  }

  /** The word a pushed item stands for. */
  function WordOf(cfg: Config, item: string): string
  {
    if cfg.objectMode || item == [] then item else item[..|item| - 1]
  }

  lemma WordOfLine(cfg: Config, w: string)
    ensures WordOf(cfg, Line(cfg, w)) == w
  {
    if !cfg.objectMode {
      assert (w + "\n")[..|w|] == w;
    }
  }

  /** `pushWord`: drop an empty or cached word; otherwise cache it, then emit it if admitted. */
  function AfterWord(cfg: Config, d: Dedup, w: string): Dedup
  {
    if w == "" then d
    else if w in d.cache then d.(cache := Touch(d.cache, w))
    else
      var cache := Remember(cfg.capacity, d.cache, w);
      if cfg.accept(w) && !cfg.reject(w) then Dedup(cache, d.output + [Line(cfg, w)])
      else Dedup(cache, d.output)
  }

  /** Pushing a sequence of words, one after the other. */
  function AfterWords(cfg: Config, d: Dedup, ws: seq<string>): Dedup
  {
    if ws == [] then d else AfterWord(cfg, AfterWords(cfg, d, Init(ws)), Last(ws))
  }

  /** A stream that has not seen anything. */
  const Fresh: Dedup := Dedup([], [])

  // ---------------------------------------------------------------------
  // Chunks and the end of the stream.
  // ---------------------------------------------------------------------

  datatype StreamState = StreamState(fragment: string, dedup: Dedup)

  /** `_transform`: split fragment + chunk, keep the last segment, push the others. */
  function AfterChunk(cfg: Config, st: StreamState, chunk: string): StreamState
  {
    var words := Split(cfg.isDelimiter, st.fragment + chunk);
    StreamState(Last(words), AfterWords(cfg, st.dedup, Init(words)))
  }

  /** `_flush`: the fragment left at the end is a whole word. */
  function AfterFlush(cfg: Config, st: StreamState): StreamState
  {
    StreamState("", AfterWord(cfg, st.dedup, st.fragment))
  }

  function AfterChunks(cfg: Config, st: StreamState, chunks: seq<string>): StreamState
    decreases |chunks|
  {
    if chunks == [] then st else AfterChunks(cfg, AfterChunk(cfg, st, chunks[0]), chunks[1..])
  }

  function Concat(chunks: seq<string>): string
  {
    if chunks == [] then "" else chunks[0] + Concat(chunks[1..])
  }

  /** A whole stream: the chunks in order, then the flush. */
  function Run(cfg: Config, chunks: seq<string>): StreamState
  {
    AfterFlush(cfg, AfterChunks(cfg, StreamState("", Fresh), chunks))
  }

  // ---------------------------------------------------------------------
  // Chunk boundaries do not matter.
  // ---------------------------------------------------------------------

  lemma {:induction false} AfterWordsAppend(cfg: Config, d: Dedup, a: seq<string>, b: seq<string>)
    ensures AfterWords(cfg, d, a + b) == AfterWords(cfg, AfterWords(cfg, d, a), b)
    decreases |b|
  {
    if b == [] {
      assert a + b == a;
    } else {
      assert Init(a + b) == a + Init(b);
      assert Last(a + b) == Last(b);
      AfterWordsAppend(cfg, d, a, Init(b));
    }
  }

  /** Empty words are ignored, so pushing only the non-empty ones comes to the same. */
  lemma {:induction false} AfterWordsNonEmpty(cfg: Config, d: Dedup, ws: seq<string>)
    ensures AfterWords(cfg, d, ws) == AfterWords(cfg, d, NonEmpty(ws))
    decreases |ws|
  {
    if ws != [] {
      assert ws == [ws[0]] + ws[1..];
      AfterWordsAppend(cfg, d, [ws[0]], ws[1..]);
      assert AfterWords(cfg, d, [ws[0]]) == AfterWord(cfg, d, ws[0]);
      var d1 := AfterWord(cfg, d, ws[0]);
      AfterWordsNonEmpty(cfg, d1, ws[1..]);
      if ws[0] == "" {
        assert NonEmpty(ws) == NonEmpty(ws[1..]);
      } else {
        assert NonEmpty(ws) == [ws[0]] + NonEmpty(ws[1..]);
        AfterWordsAppend(cfg, d, [ws[0]], NonEmpty(ws[1..]));
      }
    }
  }

  /**
   * From any state whose fragment is a segment (holds no delimiter), feeding
   * chunks and flushing pushes exactly the words of fragment + all chunks.
   */
  lemma {:induction false} AfterChunksPushesWords(cfg: Config, st: StreamState, chunks: seq<string>)
    requires NoDelimiter(cfg.isDelimiter, st.fragment)
    ensures AfterFlush(cfg, AfterChunks(cfg, st, chunks))
         == StreamState("", AfterWords(cfg, st.dedup, Words(cfg.isDelimiter, st.fragment + Concat(chunks))))
    decreases |chunks|
  {
    var f := st.fragment;
    if chunks == [] {
      assert f + Concat(chunks) == f;
      SplitOfSegment(cfg.isDelimiter, f);
      assert AfterWords(cfg, st.dedup, [f]) == AfterWord(cfg, st.dedup, f);
      AfterWordsNonEmpty(cfg, st.dedup, [f]);
    } else {
      var c, rest := chunks[0], chunks[1..];
      var words := Split(cfg.isDelimiter, f + c);
      var st1 := AfterChunk(cfg, st, c);
      SegmentsHaveNoDelimiter(cfg.isDelimiter, f + c);
      AfterChunksPushesWords(cfg, st1, rest);
      // The words still to come are those of the new fragment followed by the rest.
      var later := Words(cfg.isDelimiter, Last(words) + Concat(rest));
      assert f + Concat(chunks) == (f + c) + Concat(rest);
      SplitAppend(cfg.isDelimiter, f + c, Concat(rest));
      AfterWordsNonEmpty(cfg, st.dedup, Init(words));
      AfterWordsAppend(cfg, st.dedup, NonEmpty(Init(words)), later);
    }
  }

  /** A whole stream pushes exactly the words of the whole text. */
  lemma RunPushesWords(cfg: Config, chunks: seq<string>)
    ensures Run(cfg, chunks) == StreamState("", AfterWords(cfg, Fresh, Words(cfg.isDelimiter, Concat(chunks))))
  {
    AfterChunksPushesWords(cfg, StreamState("", Fresh), chunks);
    assert "" + Concat(chunks) == Concat(chunks);
  }

  /**
   * Where the text is cut into chunks changes nothing: two chunkings of the
   * same text leave the same cache and the same emitted items.
   */
  lemma ChunkingInvariance(cfg: Config, chunks1: seq<string>, chunks2: seq<string>)
    requires Concat(chunks1) == Concat(chunks2)
    ensures Run(cfg, chunks1) == Run(cfg, chunks2)
  {
    RunPushesWords(cfg, chunks1);
    RunPushesWords(cfg, chunks2);
  }

  // ---------------------------------------------------------------------
  // What is emitted.
  // ---------------------------------------------------------------------

  /** Every pushed item is the line of a non-empty word that passed both patterns. */
  ghost predicate Admitted(cfg: Config, d: Dedup)
  {
    forall k :: 0 <= k < |d.output| ==>
      var w := WordOf(cfg, d.output[k]);
      d.output[k] == Line(cfg, w) && w != "" && cfg.accept(w) && !cfg.reject(w)
  }

  lemma {:induction false} AfterWordsAdmitted(cfg: Config, d: Dedup, ws: seq<string>)
    requires Admitted(cfg, d)
    ensures Admitted(cfg, AfterWords(cfg, d, ws))
    decreases |ws|
  {
    if ws != [] {
      AfterWordsAdmitted(cfg, d, Init(ws));
      WordOfLine(cfg, Last(ws));
    }
  }

  /**
   * Whatever the options, every emitted item is a non-empty word that the
   * acceptance pattern accepts and the rejection pattern does not match,
   * followed by a line break exactly when not in object mode.
   */
  lemma EmittedAreAdmitted(cfg: Config, ws: seq<string>)
    ensures var out := AfterWords(cfg, Fresh, ws).output;
      forall k :: 0 <= k < |out| ==>
        var w := WordOf(cfg, out[k]);
        w != "" && cfg.accept(w) && !cfg.reject(w)
        && (cfg.objectMode ==> out[k] == w)
        && (!cfg.objectMode ==> out[k] == w + "\n")
  {
    AfterWordsAdmitted(cfg, Fresh, ws);
  }

  /**
   * With the default patterns every emitted word is 6 to 14 characters from
   * a-z and the hyphen, with at most one hyphen.
   */
  lemma DefaultEmittedShape(cfg: Config, ws: seq<string>)
    requires cfg.accept == DefaultAcceptance && cfg.reject == DefaultRejection
    ensures var out := AfterWords(cfg, Fresh, ws).output;
      forall k :: 0 <= k < |out| ==>
        var w := WordOf(cfg, out[k]);
        6 <= |w| <= 14 && (forall m :: 0 <= m < |w| ==> IsWordChar(w[m])) && HyphenCount(w) <= 1
  {
    var out := AfterWords(cfg, Fresh, ws).output;
    AfterWordsAdmitted(cfg, Fresh, ws);
    forall k | 0 <= k < |out|
      ensures var w := WordOf(cfg, out[k]);
        6 <= |w| <= 14 && (forall m :: 0 <= m < |w| ==> IsWordChar(w[m])) && HyphenCount(w) <= 1
    {
      DefaultAdmittedShape(WordOf(cfg, out[k]));
    }
  }

  /**
   * Every segment the default delimiter cuts out is free of line terminators,
   * so on it the default rejection pattern is exactly "two or more hyphens".
   */
  lemma DefaultSegmentsRejection(s: string)
    ensures forall k :: 0 <= k < |Split(IsDefaultDelimiter, s)| ==>
      (DefaultRejection(Split(IsDefaultDelimiter, s)[k]) <==> HyphenCount(Split(IsDefaultDelimiter, s)[k]) >= 2)
  {
    var segments := Split(IsDefaultDelimiter, s);
    SegmentsHaveNoDelimiter(IsDefaultDelimiter, s);
    forall k | 0 <= k < |segments|
      ensures DefaultRejection(segments[k]) <==> HyphenCount(segments[k]) >= 2
    {
      assert NoDelimiter(IsDefaultDelimiter, segments[k]);
      assert NoLineTerminator(segments[k]);
      RejectionIsTwoHyphens(segments[k]);
    }
  }

  // ---------------------------------------------------------------------
  // The cache.
  // ---------------------------------------------------------------------

  lemma RememberElements(capacity: Option<Positive>, cache: seq<string>, w: string)
    ensures Elements(Remember(capacity, cache, w)) <= Elements(cache) + {w}
    ensures w in Remember(capacity, cache, w)
    ensures capacity.None? ==> Elements(Remember(capacity, cache, w)) == Elements(cache) + {w}
  {
    var c := cache + [w];
    assert c[|c| - 1] == w;
    assert Elements(c) == Elements(cache) + {w};
  }

  /**
   * Pushing a non-empty word leaves it as the most recently used cache entry,
   * whether or not it was emitted, and a word that was not admitted leaves
   * the output as it was: the word is remembered before it is filtered.
   */
  lemma CachedOnFirstSight(cfg: Config, d: Dedup, w: string)
    requires w != ""
    ensures var d' := AfterWord(cfg, d, w);
      |d'.cache| >= 1 && Last(d'.cache) == w
      && (!(cfg.accept(w) && !cfg.reject(w)) ==> d'.output == d.output)
  {
  }

  /** A word pushed right after itself changes nothing that is emitted, whatever the capacity. */
  lemma RepeatIsSilent(cfg: Config, d: Dedup, w: string)
    ensures AfterWord(cfg, AfterWord(cfg, d, w), w).output == AfterWord(cfg, d, w).output
  {
    if w != "" {
      CachedOnFirstSight(cfg, d, w);
      var c := AfterWord(cfg, d, w).cache;
      assert c[|c| - 1] == w;
    }
  }

  /** The empty word is never cached. */
  lemma {:induction false} EmptyNeverCached(cfg: Config, d: Dedup, ws: seq<string>)
    requires "" !in d.cache
    ensures "" !in AfterWords(cfg, d, ws).cache
    decreases |ws|
  {
    if ws != [] {
      var d1 := AfterWords(cfg, d, Init(ws));
      EmptyNeverCached(cfg, d, Init(ws));
      var w := Last(ws);
      if w != "" {
        RemoveElements(d1.cache, w);
        RememberElements(cfg.capacity, d1.cache, w);
        assert Elements(Touch(d1.cache, w)) == Elements(Remove(d1.cache, w)) + {w};
        assert "" !in Elements(d1.cache);
        assert "" !in Elements(AfterWord(cfg, d1, w).cache);
      }
    }
  }

  /** A bounded cache never holds more entries than its capacity. */
  lemma {:induction false} CacheWithinCapacity(cfg: Config, d: Dedup, ws: seq<string>)
    requires cfg.capacity.Some? && |d.cache| <= cfg.capacity.value
    ensures |AfterWords(cfg, d, ws).cache| <= cfg.capacity.value
    decreases |ws|
  {
    if ws != [] {
      CacheWithinCapacity(cfg, d, Init(ws));
    }
  }

  /** With an unbounded cache every emitted word stays cached and nothing is emitted twice. */
  ghost predicate EmittedOnce(cfg: Config, d: Dedup)
  {
    Distinct(d.output) && forall k :: 0 <= k < |d.output| ==> WordOf(cfg, d.output[k]) in d.cache
  }

  lemma {:induction false} AfterWordsEmittedOnce(cfg: Config, d: Dedup, ws: seq<string>)
    requires cfg.capacity.None?
    requires Admitted(cfg, d) && EmittedOnce(cfg, d)
    ensures EmittedOnce(cfg, AfterWords(cfg, d, ws))
    decreases |ws|
  {
    if ws != [] {
      var d1 := AfterWords(cfg, d, Init(ws));
      var w := Last(ws);
      AfterWordsEmittedOnce(cfg, d, Init(ws));
      AfterWordsAdmitted(cfg, d, Init(ws));
      RemoveElements(d1.cache, w);
      RememberElements(cfg.capacity, d1.cache, w);
      assert Elements(Touch(d1.cache, w)) == Elements(Remove(d1.cache, w)) + {w};
      var d2 := AfterWord(cfg, d1, w);
      assert Elements(d1.cache) <= Elements(d2.cache);
      forall k | 0 <= k < |d1.output|
        ensures WordOf(cfg, d1.output[k]) in d2.cache
      {
        assert WordOf(cfg, d1.output[k]) in Elements(d1.cache);
      }
      if w != "" && w !in d1.cache && cfg.accept(w) && !cfg.reject(w) {
        forall k | 0 <= k < |d1.output|
          ensures d1.output[k] != Line(cfg, w)
        {
          if d1.output[k] == Line(cfg, w) {
            WordOfLine(cfg, w);
            assert false;
          }
        }
        WordOfLine(cfg, w);
      }
    }
  }

  /**
   * With the unbounded cache (the default, or a size of 0) each distinct
   * word is emitted at most once over the whole stream.
   */
  lemma EachWordEmittedAtMostOnce(cfg: Config, ws: seq<string>)
    requires cfg.capacity.None?
    ensures Distinct(AfterWords(cfg, Fresh, ws).output)
  {
    AfterWordsEmittedOnce(cfg, Fresh, ws);
  }

  /** With the unbounded cache, the cache holds exactly the non-empty words pushed so far. */
  /** One more word: an unbounded cache gains exactly that word, or nothing for the empty word. */
  lemma UnboundedCacheStep(cfg: Config, d: Dedup, w: string)
    requires cfg.capacity.None?
    ensures Elements(AfterWord(cfg, d, w).cache) == Elements(d.cache) + (if w == "" then {} else {w})
  {
    if w != "" {
      if w in d.cache {
        RemoveElements(d.cache, w);
        var r := Remove(d.cache, w);
        assert Elements(r + [w]) == Elements(r) + {w} by {
          assert forall x :: x in r + [w] <==> x in r || x == w;
        }
      } else {
        RememberElements(cfg.capacity, d.cache, w);
      }
    }
  }

  lemma {:induction false} UnboundedCacheIsSeenWords(cfg: Config, ws: seq<string>)
    requires cfg.capacity.None?
    ensures Elements(AfterWords(cfg, Fresh, ws).cache) == set w | w in ws && w != ""
    decreases |ws|
  {
    if ws != [] {
      var d1 := AfterWords(cfg, Fresh, Init(ws));
      var w := Last(ws);
      UnboundedCacheIsSeenWords(cfg, Init(ws));
      UnboundedCacheStep(cfg, d1, w);
      assert AfterWords(cfg, Fresh, ws) == AfterWord(cfg, d1, w);
      assert ws == Init(ws) + [w];
      assert (set x | x in ws && x != "") == (set x | x in Init(ws) && x != "") + (if w == "" then {} else {w});
    }
  }

  // ---------------------------------------------------------------------
  // The stream object.
  // ---------------------------------------------------------------------

  /**
   * The transform stream. `output` is everything pushed to the readable
   * side, in order; `cache` is the seen-word cache, least recently used first.
   */
  class DictionaryTransformStream {
    const config: Config
    var fragment: string
    var cache: seq<string>
    var output: seq<string>

    function State(): StreamState
      reads this
    {
      StreamState(fragment, Dedup(cache, output))
    }

    /** The fragment is always a segment: it holds no delimiter. */
    ghost predicate Valid()
      reads this
    {
      NoDelimiter(config.isDelimiter, fragment)
    }

    constructor (options: Options)
      ensures config == Configure(options)
      ensures Valid()
      ensures State() == StreamState("", Fresh)
    {
      config := Configure(options);
      fragment := "";
      cache := [];
      output := [];
    }

    method PushWord(word: string)
      modifies this`cache, this`output
      ensures Dedup(cache, output) == AfterWord(config, old(Dedup(cache, output)), word)
      ensures word != "" ==> |cache| >= 1 && Last(cache) == word
      ensures word == "" ==> cache == old(cache) && output == old(output)
    {
      if word != "" && word !in cache {
        cache := Remember(config.capacity, cache, word);
        if config.accept(word) && !config.reject(word) {
          var item := word;
          if !config.objectMode {
            item := word + "\n";
          }
          output := output + [item];
        }
      } else if word != "" {
        cache := Touch(cache, word);
      }
    }

    method Transform(chunk: string)
      modifies this
      ensures Valid()
      ensures State() == AfterChunk(config, old(State()), chunk)
      ensures var segments := Split(config.isDelimiter, old(fragment) + chunk);
        fragment == Last(segments)
        && Dedup(cache, output) == AfterWords(config, old(Dedup(cache, output)), Init(segments))
    {
      var str := fragment + chunk;
      var segments := Split(config.isDelimiter, str);
      SegmentsHaveNoDelimiter(config.isDelimiter, str);
      fragment := Last(segments);
      var words := Init(segments);
      var i := 0;
      while i < |words|
        invariant 0 <= i <= |words|
        invariant fragment == Last(segments)
        invariant Dedup(cache, output) == AfterWords(config, old(Dedup(cache, output)), words[..i])
      {
        assert words[..i + 1] == words[..i] + [words[i]];
        assert Init(words[..i + 1]) == words[..i];
        PushWord(words[i]);
        i := i + 1;
      }
      assert words[..i] == words;
    }

    method Flush()
      modifies this
      ensures Valid()
      ensures State() == AfterFlush(config, old(State()))
    {
      PushWord(fragment);
      fragment := "";
    }
  }

  /**
   * A stream fed `chunks` in order and then ended: what it emits depends only
   * on the text the chunks make up, never on where it was cut.
   */
  method PipeChunks(options: Options, chunks: seq<string>) returns (emitted: seq<string>)
    ensures var cfg := Configure(options);
      emitted == AfterWords(cfg, Fresh, Words(cfg.isDelimiter, Concat(chunks))).output
  {
    var stream := new DictionaryTransformStream(options);
    var i := 0;
    while i < |chunks|
      invariant 0 <= i <= |chunks|
      invariant stream.config == Configure(options)
      invariant stream.Valid()
      invariant AfterFlush(stream.config, AfterChunks(stream.config, stream.State(), chunks[i..]))
             == Run(stream.config, chunks)
    {
      stream.Transform(chunks[i]);
      assert chunks[i..][1..] == chunks[i + 1..];
      i := i + 1;
    }
    stream.Flush();
    RunPushesWords(stream.config, chunks);
    emitted := stream.output;
  }
}
