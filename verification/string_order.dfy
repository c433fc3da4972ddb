/**
 * The order `Array.prototype.sort` puts strings in when given no comparator:
 * lexicographic, character by character, a proper prefix first.
 */
module StringOrder {
  import opened Wrappers

  predicate Less(a: string, b: string)
  {
    if a == [] then b != []
    else if b == [] then false
    else if a[0] != b[0] then a[0] < b[0]
    else Less(a[1..], b[1..])
  }

  /** A common prefix does not change the order. */
  lemma {:induction false} LessAfterCommonPrefix(p: string, a: string, b: string)
    requires Less(a, b)
    ensures Less(p + a, p + b)
  {
    if p == [] {
      assert p + a == a && p + b == b;
    } else {
      LessAfterCommonPrefix(p[1..], a, b);
      assert (p + a)[0] == p[0] == (p + b)[0];
      assert (p + a)[1..] == p[1..] + a;
      assert (p + b)[1..] == p[1..] + b;
    }
  }

  lemma {:induction false} LessIrreflexive(a: string)
    ensures !Less(a, a)
  {
    if a != [] {
      LessIrreflexive(a[1..]);
    }
  }

  lemma {:induction false} LessAsymmetric(a: string, b: string)
    ensures Less(a, b) ==> !Less(b, a)
  {
    if a != [] && b != [] && a[0] == b[0] {
      LessAsymmetric(a[1..], b[1..]);
    }
  }

  lemma {:induction false} LessTransitive(a: string, b: string, c: string)
    requires Less(a, b) && Less(b, c)
    ensures Less(a, c)
  {
    if a != [] && a[0] == b[0] && b[0] == c[0] {
      LessTransitive(a[1..], b[1..], c[1..]);
    }
  }

  lemma {:induction false} LessTotal(a: string, b: string)
    requires a != b
    ensures Less(a, b) || Less(b, a)
  {
    if a != [] && b != [] && a[0] == b[0] {
      assert a == [a[0]] + a[1..] && b == [b[0]] + b[1..];
      LessTotal(a[1..], b[1..]);
    }
  }

  /** Ascending without repeats. */
  predicate StrictlySorted(s: seq<string>)
  {
    forall i, j :: 0 <= i < j < |s| ==> Less(s[i], s[j])
  }

  /** Put `w` in its place in an ascending list. */
  function InsertSorted(s: seq<string>, w: string): (r: seq<string>)
    requires StrictlySorted(s) && w !in s
    ensures StrictlySorted(r)
    ensures Elements(r) == Elements(s) + {w}
    ensures |r| == |s| + 1
  {
    if s == [] then [w]
    else if Less(w, s[0]) then
      InsertFirst(s, w);
      [w] + s
    else
      LessTotal(w, s[0]);
      var t := InsertSorted(s[1..], w);
      assert Elements(s) == {s[0]} + Elements(s[1..]);
      forall y | y in Elements(t)
        ensures Less(s[0], y)
      {
        if y != w {
          var j :| 1 <= j < |s| && s[j] == y;
        }
      }
      PrependLeast(s[0], t);
      var r := [s[0]] + t;
      assert Elements(r) == {s[0]} + Elements(t);
      r
  }

  lemma PrependLeast(x: string, t: seq<string>)
    requires StrictlySorted(t)
    requires forall y :: y in Elements(t) ==> Less(x, y)
    ensures StrictlySorted([x] + t)
  {
    var r := [x] + t;
    forall i, j | 0 <= i < j < |r|
      ensures Less(r[i], r[j])
    {
      if i == 0 {
        assert t[j - 1] in Elements(t);
      }
    }
  }

  lemma InsertFirst(s: seq<string>, w: string)
    requires StrictlySorted(s) && |s| >= 1 && Less(w, s[0])
    ensures StrictlySorted([w] + s)
  {
    var r := [w] + s;
    forall i, j | 0 <= i < j < |r|
      ensures Less(r[i], r[j])
    {
      if i == 0 && j > 1 {
        LessTransitive(w, s[0], s[j - 1]);
      }
    }
  }

  /** An ascending list is the only one of its elements: it is determined by its set. */
  lemma {:induction false} SortedDetermined(a: seq<string>, b: seq<string>)
    requires StrictlySorted(a) && StrictlySorted(b)
    requires Elements(a) == Elements(b)
    ensures a == b
    decreases |a|
  {
    SortedIsDistinct(a);
    SortedIsDistinct(b);
    DistinctCardinality(a);
    DistinctCardinality(b);
    if a != [] {
      // Both heads are the least element, so they are equal.
      assert b[0] in Elements(a);
      assert a[0] in Elements(b);
      if a[0] != b[0] {
        var i :| 0 <= i < |a| && a[i] == b[0];
        var j :| 0 <= j < |b| && b[j] == a[0];
        LessAsymmetric(a[0], b[0]);
        assert false;
      }
      forall x
        ensures x in Elements(a[1..]) <==> x in Elements(b[1..])
      {
        if x in a[1..] {
          var i :| 1 <= i < |a| && a[i] == x;
          LessIrreflexive(a[0]);
          assert x != a[0];
          assert x in Elements(b);
          var j :| 0 <= j < |b| && b[j] == x;
          assert j != 0;
          assert x == b[1..][j - 1];
        }
        if x in b[1..] {
          var j :| 1 <= j < |b| && b[j] == x;
          LessIrreflexive(b[0]);
          assert x != b[0];
          assert x in Elements(a);
          var i :| 0 <= i < |a| && a[i] == x;
          assert i != 0;
          assert x == a[1..][i - 1];
        }
      }
      SortedDetermined(a[1..], b[1..]);
      assert a == [a[0]] + a[1..] && b == [b[0]] + b[1..];
    }
  }

  lemma SortedIsDistinct(s: seq<string>)
    requires StrictlySorted(s)
    ensures Distinct(s)
  {
    forall i, j | 0 <= i < j < |s|
      ensures s[i] != s[j]
    {
      LessIrreflexive(s[i]);
    }
  }

  lemma {:induction false} DistinctCardinality<T>(s: seq<T>)
    requires Distinct(s)
    ensures |Elements(s)| == |s|
  {
    if s != [] {
      DistinctCardinality(s[1..]);
      assert Elements(s) == {s[0]} + Elements(s[1..]);
      assert s[0] !in Elements(s[1..]);
    }
  }

  /**
   * In an ascending list the word at index i is the one that exactly i of
   * the listed words precede.
   */
  lemma RankOfIndex(s: seq<string>, i: int)
    requires StrictlySorted(s) && 0 <= i < |s|
    ensures (set x | x in Elements(s) && Less(x, s[i])) == Elements(s[..i])
    ensures |set x | x in Elements(s) && Less(x, s[i])| == i
  {
    forall x | x in Elements(s) && Less(x, s[i])
      ensures x in Elements(s[..i])
    {
      var j :| 0 <= j < |s| && s[j] == x;
      if j >= i {
        LessIrreflexive(s[i]);
        if j > i {
          LessAsymmetric(s[i], s[j]);
        }
      }
      assert x == s[..i][j];
    }
    forall x | x in Elements(s[..i])
      ensures x in Elements(s) && Less(x, s[i])
    {
      var j :| 0 <= j < i && s[..i][j] == x;
    }
    SortedIsDistinct(s);
    assert Distinct(s[..i]);
    DistinctCardinality(s[..i]);
  }
}
