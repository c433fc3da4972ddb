/**
 * The three default regular expressions of the dictionary transform stream,
 * written out as predicates on characters and words:
 *   word delimiter   /[\s\.,!\?<>]+/   (a run of delimiter characters)
 *   acceptance       /^[a-z\-]{6,14}$/
 *   rejection        /-{2,}|-.*-/
 */
module Patterns {

  /** ECMAScript `\s`: the WhiteSpace and LineTerminator code points. */
  predicate IsRegExpSpace(c: char)
  {
    c == '\t' || c == '\n' || c == '\U{000B}' || c == '\U{000C}' || c == '\r' || c == ' '
    || c == '\U{00A0}' || c == '\U{1680}' || ('\U{2000}' <= c <= '\U{200A}')
    || c == '\U{2028}' || c == '\U{2029}' || c == '\U{202F}' || c == '\U{205F}'
    || c == '\U{3000}' || c == '\U{FEFF}'
  }

  /** ECMAScript line terminators: the characters `.` does not match. */
  predicate IsLineTerminator(c: char)
  {
    c == '\n' || c == '\r' || c == '\U{2028}' || c == '\U{2029}'
  }

  /** One character of the default delimiter class `[\s\.,!\?<>]`. */
  predicate IsDefaultDelimiter(c: char)
  {
    IsRegExpSpace(c) || c == '.' || c == ',' || c == '!' || c == '?' || c == '<' || c == '>'
  }

  /** One character of the class `[a-z\-]`. */
  predicate IsWordChar(c: char)
  {
    ('a' <= c <= 'z') || c == '-'
  }

  /** `/^[a-z\-]{6,14}$/.test(w)`: the whole word is 6 to 14 characters from `[a-z\-]`. */
  predicate DefaultAcceptance(w: string)
  {
    6 <= |w| <= 14 && forall k :: 0 <= k < |w| ==> IsWordChar(w[k])
  }

  predicate NoLineTerminator(s: string)
  {
    forall k :: 0 <= k < |s| ==> !IsLineTerminator(s[k])
  }

  /** The pattern `-.*-` matches at i and ends at j: hyphens at both ends, no line terminator between. */
  predicate HyphenSpan(w: string, i: int, j: int)
  {
    0 <= i < j < |w| && w[i] == '-' && w[j] == '-' && NoLineTerminator(w[i + 1..j])
  }

  /**
   * `/-{2,}|-.*-/.test(w)`: some substring is two or more hyphens, or a hyphen,
   * any characters other than line terminators, and a hyphen.
   */
  predicate DefaultRejection(w: string)
  {
    (exists i :: 0 <= i && i + 1 < |w| && w[i] == '-' && w[i + 1] == '-')
    || (exists i, j :: 0 <= i < j < |w| && HyphenSpan(w, i, j))
  }

  function HyphenCount(w: string): nat
  {
    if w == [] then 0 else (if w[0] == '-' then 1 else 0) + HyphenCount(w[1..])
  }

  lemma {:induction false} HyphenCountPositive(w: string, j: int)
    requires 0 <= j < |w| && w[j] == '-'
    ensures HyphenCount(w) >= 1
  {
    if j > 0 {
      HyphenCountPositive(w[1..], j - 1);
    }
  }

  lemma {:induction false} TwoHyphensCount(w: string, i: int, j: int)
    requires 0 <= i < j < |w| && w[i] == '-' && w[j] == '-'
    ensures HyphenCount(w) >= 2
  {
    if i == 0 {
      HyphenCountPositive(w[1..], j - 1);
    } else {
      TwoHyphensCount(w[1..], i - 1, j - 1);
    }
  }

  lemma {:induction false} HyphenAt(w: string) returns (j: int)
    requires HyphenCount(w) >= 1
    ensures 0 <= j < |w| && w[j] == '-'
  {
    if w[0] == '-' {
      j := 0;
    } else {
      var k := HyphenAt(w[1..]);
      j := k + 1;
    }
  }

  lemma {:induction false} CountTwoHyphens(w: string) returns (i: int, j: int)
    requires HyphenCount(w) >= 2
    ensures 0 <= i < j < |w| && w[i] == '-' && w[j] == '-'
  {
    if w[0] == '-' {
      var k := HyphenAt(w[1..]);
      i, j := 0, k + 1;
    } else {
      var a, b := CountTwoHyphens(w[1..]);
      i, j := a + 1, b + 1;
    }
  }

  /**
   * On a word without line terminators (every word the default delimiter
   * produces), the default rejection pattern matches exactly when the word
   * holds two or more hyphens.
   */
  lemma RejectionIsTwoHyphens(w: string)
    requires NoLineTerminator(w)
    ensures DefaultRejection(w) <==> HyphenCount(w) >= 2
  {
    if HyphenCount(w) >= 2 {
      var i, j := CountTwoHyphens(w);
      assert HyphenSpan(w, i, j);
    }
    if DefaultRejection(w) {
      if exists i :: 0 <= i && i + 1 < |w| && w[i] == '-' && w[i + 1] == '-' {
        var i :| 0 <= i && i + 1 < |w| && w[i] == '-' && w[i + 1] == '-';
        TwoHyphensCount(w, i, i + 1);
      } else {
        var i, j :| 0 <= i < j < |w| && HyphenSpan(w, i, j);
        TwoHyphensCount(w, i, j);
      }
    }
  }

  /**
   * A word that passes the default acceptance pattern and fails the default
   * rejection pattern is 6 to 14 characters of `a-z` and `-` with at most one hyphen.
   */
  lemma DefaultAdmittedShape(w: string)
    requires DefaultAcceptance(w) && !DefaultRejection(w)
    ensures 6 <= |w| <= 14
    ensures forall k :: 0 <= k < |w| ==> IsWordChar(w[k])
    ensures HyphenCount(w) <= 1
  {
    RejectionIsTwoHyphens(w);
  }
}
