/** Small failure-carrying datatypes shared by the modules of this model. */
module Wrappers {

  /** A value that may be missing: JavaScript's `undefined` in a result position. */
  datatype Option<+T> = None | Some(value: T)

  /** Either a single value or a list of them: the source's "wrap a non-array in an array" arguments. */
  datatype Arg<+T> = One(item: T) | Many(items: seq<T>)
  {
    /** The list the source iterates over after wrapping a single value. */
    function List(): (r: seq<T>)
      ensures One? ==> r == [item]
      ensures Many? ==> r == items
    {
      match this
      case One(x) => [x]
      case Many(xs) => xs
    }
  }

  /** The set of values occurring in a sequence. */
  function Elements<T>(s: seq<T>): set<T>
  {
    set x | x in s
  }

  /** No value occurs twice. */
  predicate Distinct<T(==)>(s: seq<T>)
  {
    forall i, j :: 0 <= i < j < |s| ==> s[i] != s[j]
  }
}
