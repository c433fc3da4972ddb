/**
 * `String.prototype.split` with a separator of the form `/[...]+/`: a run of
 * one or more characters from a character class. `isDelimiter` is that class.
 */
module Tokenizer {

  predicate NoDelimiter(isDelimiter: char -> bool, w: string)
  {
    forall k :: 0 <= k < |w| ==> !isDelimiter(w[k])
  }

  /** The first delimiter at or after `i`, or `|s|` when there is none. */
  function WordEnd(isDelimiter: char -> bool, s: string, i: nat): (k: nat)
    requires i <= |s|
    ensures i <= k <= |s|
    ensures forall m :: i <= m < k ==> !isDelimiter(s[m])
    ensures k < |s| ==> isDelimiter(s[k])
    decreases |s| - i
  {
    if i == |s| || isDelimiter(s[i]) then i else WordEnd(isDelimiter, s, i + 1)
  }

  /** The end of the longest delimiter run starting at `i` (the greedy `+`). */
  function RunEnd(isDelimiter: char -> bool, s: string, i: nat): (k: nat)
    requires i <= |s|
    ensures i <= k <= |s|
    ensures forall m :: i <= m < k ==> isDelimiter(s[m])
    ensures k < |s| ==> !isDelimiter(s[k])
    decreases |s| - i
  {
    if i == |s| || !isDelimiter(s[i]) then i else RunEnd(isDelimiter, s, i + 1)
  }

  /**
   * The segments between maximal delimiter runs, left to right. A leading or
   * trailing run yields an empty first or last segment, and the empty string
   * splits into one empty segment.
   */
  function Split(isDelimiter: char -> bool, s: string): (r: seq<string>)
    ensures |r| >= 1
    decreases |s|
  {
    var i := WordEnd(isDelimiter, s, 0);
    if i == |s| then [s]
    else [s[..i]] + Split(isDelimiter, s[RunEnd(isDelimiter, s, i)..])
  }

  function Init<T>(s: seq<T>): seq<T>
    requires |s| >= 1
  {
    s[..|s| - 1]
  }

  function Last<T>(s: seq<T>): T
    requires |s| >= 1
  {
    s[|s| - 1]
  }

  /** The segments that are not empty, in order. */
  function NonEmpty(ws: seq<string>): seq<string>
  {
    if ws == [] then []
    else if ws[0] == "" then NonEmpty(ws[1..])
    else [ws[0]] + NonEmpty(ws[1..])
  }

  /** The words of a text: its non-empty segments. */
  function Words(isDelimiter: char -> bool, s: string): seq<string>
  {
    NonEmpty(Split(isDelimiter, s))
  }

  lemma {:induction false} NonEmptyAppend(a: seq<string>, b: seq<string>)
    ensures NonEmpty(a + b) == NonEmpty(a) + NonEmpty(b)
  {
    if a != [] {
      assert (a + b)[1..] == a[1..] + b;
      NonEmptyAppend(a[1..], b);
    } else {
      assert a + b == b;
    }
  }

  /** A segment holds no delimiter, so splitting it gives it back. */
  lemma SplitOfSegment(isDelimiter: char -> bool, w: string)
    requires NoDelimiter(isDelimiter, w)
    ensures Split(isDelimiter, w) == [w]
  {
  }

  lemma {:induction false} WordEndAppend(isDelimiter: char -> bool, a: string, b: string, i: nat)
    requires i <= |a|
    requires WordEnd(isDelimiter, a, i) < |a|
    ensures WordEnd(isDelimiter, a + b, i) == WordEnd(isDelimiter, a, i)
    decreases |a| - i
  {
    if !isDelimiter(a[i]) {
      WordEndAppend(isDelimiter, a, b, i + 1);
    }
  }

  lemma {:induction false} RunEndAppend(isDelimiter: char -> bool, a: string, b: string, i: nat)
    requires i <= |a|
    ensures RunEnd(isDelimiter, a, i) < |a| ==>
      RunEnd(isDelimiter, a + b, i) == RunEnd(isDelimiter, a, i)
    ensures RunEnd(isDelimiter, a, i) == |a| ==>
      RunEnd(isDelimiter, a + b, i) == |a| + RunEnd(isDelimiter, b, 0)
    decreases |a| - i
  {
    if i == |a| {
      RunEndShift(isDelimiter, a, b, 0);
    } else if isDelimiter(a[i]) {
      RunEndAppend(isDelimiter, a, b, i + 1);
    }
  }

  lemma {:induction false} RunEndShift(isDelimiter: char -> bool, a: string, b: string, j: nat)
    requires j <= |b|
    ensures RunEnd(isDelimiter, a + b, |a| + j) == |a| + RunEnd(isDelimiter, b, j)
    decreases |b| - j
  {
    if j < |b| && isDelimiter(b[j]) {
      assert (a + b)[|a| + j] == b[j];
      RunEndShift(isDelimiter, a, b, j + 1);
    } else if j < |b| {
      assert (a + b)[|a| + j] == b[j];
    }
  }

  /** Skipping a leading delimiter run only drops one empty segment. */
  lemma SkipLeadingRun(isDelimiter: char -> bool, b: string)
    ensures NonEmpty(Split(isDelimiter, b)) == NonEmpty(Split(isDelimiter, b[RunEnd(isDelimiter, b, 0)..]))
  {
    var k := RunEnd(isDelimiter, b, 0);
    if k > 0 {
      assert WordEnd(isDelimiter, b, 0) == 0;
      assert Split(isDelimiter, b) == [""] + Split(isDelimiter, b[k..]);
    } else {
      assert b[k..] == b;
    }
  }

  /** Every segment is free of delimiters. */
  lemma {:induction false} SegmentsHaveNoDelimiter(isDelimiter: char -> bool, s: string)
    ensures forall k :: 0 <= k < |Split(isDelimiter, s)| ==> NoDelimiter(isDelimiter, Split(isDelimiter, s)[k])
    decreases |s|
  {
    var i := WordEnd(isDelimiter, s, 0);
    if i < |s| {
      SegmentsHaveNoDelimiter(isDelimiter, s[RunEnd(isDelimiter, s, i)..]);
    }
  }

  /** The characters of a text that are not delimiters, in order. */
  function Strip(isDelimiter: char -> bool, s: string): string
  {
    if s == [] then [] else (if isDelimiter(s[0]) then [] else [s[0]]) + Strip(isDelimiter, s[1..])
  }

  function Flatten(ws: seq<string>): string
  {
    if ws == [] then [] else ws[0] + Flatten(ws[1..])
  }

  lemma {:induction false} StripAppend(isDelimiter: char -> bool, a: string, b: string)
    ensures Strip(isDelimiter, a + b) == Strip(isDelimiter, a) + Strip(isDelimiter, b)
  {
    if a != [] {
      assert (a + b)[1..] == a[1..] + b;
      StripAppend(isDelimiter, a[1..], b);
    } else {
      assert a + b == b;
    }
  }

  lemma {:induction false} StripSegment(isDelimiter: char -> bool, w: string)
    requires NoDelimiter(isDelimiter, w)
    ensures Strip(isDelimiter, w) == w
  {
    if w != [] {
      StripSegment(isDelimiter, w[1..]);
    }
  }

  lemma {:induction false} StripRun(isDelimiter: char -> bool, d: string)
    requires forall k :: 0 <= k < |d| ==> isDelimiter(d[k])
    ensures Strip(isDelimiter, d) == []
  {
    if d != [] {
      StripRun(isDelimiter, d[1..]);
    }
  }

  /**
   * Splitting loses nothing but the delimiters: the segments, put back
   * together, are the text with its delimiter characters removed.
   */
  lemma {:induction false} SplitKeepsEveryOtherCharacter(isDelimiter: char -> bool, s: string)
    ensures Flatten(Split(isDelimiter, s)) == Strip(isDelimiter, s)
    decreases |s|
  {
    var i := WordEnd(isDelimiter, s, 0);
    if i == |s| {
      StripSegment(isDelimiter, s);
      assert Split(isDelimiter, s) == [s];
      assert Flatten([s]) == s + Flatten([]);
    } else {
      var e := RunEnd(isDelimiter, s, i);
      SplitKeepsEveryOtherCharacter(isDelimiter, s[e..]);
      FlattenStep(isDelimiter, s, i, e);
    }
  }

  lemma FlattenStep(isDelimiter: char -> bool, s: string, i: nat, e: nat)
    requires i == WordEnd(isDelimiter, s, 0) < |s|
    requires e == RunEnd(isDelimiter, s, i)
    requires Flatten(Split(isDelimiter, s[e..])) == Strip(isDelimiter, s[e..])
    ensures Flatten(Split(isDelimiter, s)) == Strip(isDelimiter, s)
  {
    var rest := Split(isDelimiter, s[e..]);
    SplitStep(isDelimiter, s);
    var segs := [s[..i]] + rest;
    assert segs[0] == s[..i] && segs[1..] == rest;
    assert Flatten(segs) == s[..i] + Flatten(rest);
    assert s == (s[..i] + s[i..e]) + s[e..];
    StripAppend(isDelimiter, s[..i] + s[i..e], s[e..]);
    StripAppend(isDelimiter, s[..i], s[i..e]);
    StripSegment(isDelimiter, s[..i]);
    StripRun(isDelimiter, s[i..e]);
    assert Strip(isDelimiter, s[..i] + s[i..e]) == s[..i];
    assert Strip(isDelimiter, s) == s[..i] + Strip(isDelimiter, s[e..]);
    assert Flatten(Split(isDelimiter, s)) == s[..i] + Flatten(rest);
  }

  /** One unfolding of `Split` at a text that holds a delimiter. */
  lemma SplitStep(isDelimiter: char -> bool, s: string)
    requires WordEnd(isDelimiter, s, 0) < |s|
    ensures var i := WordEnd(isDelimiter, s, 0);
      Split(isDelimiter, s) == [s[..i]] + Split(isDelimiter, s[RunEnd(isDelimiter, s, i)..])
  {
  }

  /** Continuing a text with `b` leaves its first word and first delimiter run in place when text follows the run. */
  lemma SplitAcrossInnerRun(isDelimiter: char -> bool, a: string, b: string, i: nat, e: nat)
    requires i == WordEnd(isDelimiter, a, 0) < |a|
    requires e == RunEnd(isDelimiter, a, i) < |a|
    ensures Split(isDelimiter, a + b) == [a[..i]] + Split(isDelimiter, a[e..] + b)
  {
    var s := a + b;
    WordEndAppend(isDelimiter, a, b, 0);
    RunEndAppend(isDelimiter, a, b, i);
    assert WordEnd(isDelimiter, s, 0) == i < |s|;
    assert RunEnd(isDelimiter, s, i) == e;
    assert s[..i] == a[..i];
    assert s[e..] == a[e..] + b;
    SplitStep(isDelimiter, s);
  }

  lemma InitLastAppend<T>(head: seq<T>, rest: seq<T>)
    requires |rest| >= 1
    ensures Init(head + rest) == head + Init(rest)
    ensures Last(head + rest) == Last(rest)
  {
  }

  /** Putting the same segments in front of two segment lists that agree on their words. */
  lemma NonEmptyCons(head: seq<string>, rest: seq<string>, split: seq<string>, tail: seq<string>)
    requires |rest| >= 1
    requires NonEmpty(split) == NonEmpty(Init(rest)) + tail
    ensures NonEmpty(head + split) == NonEmpty(Init(head + rest)) + tail
  {
    InitLastAppend(head, rest);
    NonEmptyAppend(head, split);
    NonEmptyAppend(head, Init(rest));
  }

  /** The cut falls after the first delimiter run of `a`. */
  lemma {:induction false} SplitAppendInner(isDelimiter: char -> bool, a: string, b: string, i: nat, e: nat)
    requires i == WordEnd(isDelimiter, a, 0) < |a|
    requires e == RunEnd(isDelimiter, a, i) < |a|
    requires var sr := Split(isDelimiter, a[e..]);
      Words(isDelimiter, a[e..] + b) == NonEmpty(Init(sr)) + Words(isDelimiter, Last(sr) + b)
    ensures var sa := Split(isDelimiter, a);
      Words(isDelimiter, a + b) == NonEmpty(Init(sa)) + Words(isDelimiter, Last(sa) + b)
  {
    var rest := Split(isDelimiter, a[e..]);
    var head := [a[..i]];
    SplitStep(isDelimiter, a);
    SplitAcrossInnerRun(isDelimiter, a, b, i, e);
    InitLastAppend(head, rest);
    NonEmptyCons(head, rest, Split(isDelimiter, a[e..] + b), Words(isDelimiter, Last(rest) + b));
  }

  /** A text whose first delimiter run reaches its end splits into its first word and "". */
  lemma SplitOfTrailingRun(isDelimiter: char -> bool, a: string, i: nat)
    requires i == WordEnd(isDelimiter, a, 0) < |a|
    requires RunEnd(isDelimiter, a, i) == |a|
    ensures Split(isDelimiter, a) == [a[..i], ""]
  {
    SplitStep(isDelimiter, a);
    assert a[|a|..] == "";
  }

  /** Continuing such a text with `b` skips the run and whatever run `b` starts with. */
  lemma SplitAcrossTrailingRun(isDelimiter: char -> bool, a: string, b: string, i: nat, k: nat)
    requires i == WordEnd(isDelimiter, a, 0) < |a|
    requires RunEnd(isDelimiter, a, i) == |a|
    requires k == RunEnd(isDelimiter, b, 0)
    ensures Split(isDelimiter, a + b) == [a[..i]] + Split(isDelimiter, b[k..])
  {
    var s := a + b;
    WordEndAppend(isDelimiter, a, b, 0);
    RunEndAppend(isDelimiter, a, b, i);
    assert WordEnd(isDelimiter, s, 0) == i < |s|;
    assert RunEnd(isDelimiter, s, i) == |a| + k;
    assert s[..i] == a[..i];
    assert s[|a| + k..] == b[k..];
    SplitStep(isDelimiter, s);
  }

  /** The cut falls inside or at the end of the last delimiter run of `a`. */
  lemma SplitAppendTrailingRun(isDelimiter: char -> bool, a: string, b: string, i: nat)
    requires i == WordEnd(isDelimiter, a, 0) < |a|
    requires RunEnd(isDelimiter, a, i) == |a|
    ensures var sa := Split(isDelimiter, a);
      Words(isDelimiter, a + b) == NonEmpty(Init(sa)) + Words(isDelimiter, Last(sa) + b)
  {
    var sa := Split(isDelimiter, a);
    SplitOfTrailingRun(isDelimiter, a, i);
    var k := RunEnd(isDelimiter, b, 0);
    SplitAcrossTrailingRun(isDelimiter, a, b, i, k);
    assert Init(sa) == [a[..i]] && Last(sa) == "";
    assert Last(sa) + b == b;
    SkipLeadingRun(isDelimiter, b);
    NonEmptyAppend([a[..i]], Split(isDelimiter, b[k..]));
  }

  /**
   * Cutting a text in two: the words of `a + b` are the words of every
   * segment of `a` but its last, followed by the words of that last segment
   * continued with `b`. Empty segments are where a cut through a delimiter
   * run shows up, which is why the statement is about non-empty segments.
   */
  lemma {:induction false} SplitAppend(isDelimiter: char -> bool, a: string, b: string)
    ensures var sa := Split(isDelimiter, a);
      Words(isDelimiter, a + b) == NonEmpty(Init(sa)) + Words(isDelimiter, Last(sa) + b)
    decreases |a|
  {
    var i := WordEnd(isDelimiter, a, 0);
    if i == |a| {
      assert Split(isDelimiter, a) == [a];
    } else {
      var e := RunEnd(isDelimiter, a, i);
      if e < |a| {
        SplitAppend(isDelimiter, a[e..], b);
        SplitAppendInner(isDelimiter, a, b, i, e);
      } else {
        SplitAppendTrailingRun(isDelimiter, a, b, i);
      }
    }
  }
}
