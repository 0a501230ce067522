/** Small value wrappers shared by every module of the model. */
module Wrappers {

  /** Swift's `Optional`: `.none` or `.some(value)`. */
  datatype Option<+T> = None | Some(value: T)

  /** The elements of `s` that satisfy `keep`, in order (Swift's `filter`). */
  function Filter<T>(s: seq<T>, keep: T -> bool): (r: seq<T>)
    ensures |r| <= |s|
    ensures forall x :: x in r ==> x in s && keep(x)
    ensures forall x :: x in s && keep(x) ==> x in r
  {
    if s == [] then []
    else if keep(s[0]) then [s[0]] + Filter(s[1..], keep)
    else Filter(s[1..], keep)
  }

  /** Swift's `min` on two values. */
  function Min(a: real, b: real): real {
    if a <= b then a else b
  }
}
