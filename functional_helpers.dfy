/**
  The operators of Source/FunctionalHelpers.swift: `curry`, and `<^>`, `<*>`, `>>-`,
  `pure` on Optional and on Array, with the array flip `-<<`.
 */
module FunctionalHelpers {
  import opened Wrappers
  import F = Functional

  function Curry<A, B, C>(f: (A, B) -> C): A -> B -> C {
    a => b => f(a, b)
  }

  lemma CurryApplies<A, B, C>(f: (A, B) -> C, a: A, b: B)
    ensures Curry(f)(a)(b) == f(a, b)
    ensures Curry(f)(a)(b) == F.Curry(f)(a)(b)
  {
  }

  // Optional

  /** `Optional.map`. */
  function OptionMap<T, U>(a: Option<T>, f: T -> U): Option<U> {
    match a
    case Some(x) => Some(f(x))
    case None => None
  }

  /** `Optional.flatMap`. */
  function OptionFlatMap<T, U>(a: Option<T>, f: T -> Option<U>): Option<U> {
    match a
    case Some(x) => f(x)
    case None => None
  }

  /** `f <^> a` is `a.map(f)`. */
  function OptionFmap<T, U>(f: T -> U, a: Option<T>): (r: Option<U>)
    ensures r == F.Map(f, a)
  {
    OptionMap(a, f)
  }

  /** `a.apply(f)` is `f.flatMap { self.map($0) }`. */
  function OptionApplyTo<T, U>(a: Option<T>, f: Option<T -> U>): Option<U> {
    OptionFlatMap(f, (g: T -> U) => OptionMap(a, g))
  }

  /** `f <*> a`: nothing when either side is nothing, else the function applied to the value. */
  function OptionApply<T, U>(f: Option<T -> U>, a: Option<T>): (r: Option<U>)
    ensures r.Some? <==> f.Some? && a.Some?
    ensures r.Some? ==> r.value == f.value(a.value)
  {
    OptionApplyTo(a, f)
  }

  /** `a >>- f` is `a.flatMap(f)`. */
  function OptionBind<T, U>(a: Option<T>, f: T -> Option<U>): (r: Option<U>)
    ensures r == F.Bind(a, f)
  {
    OptionFlatMap(a, f)
  }

  /** `pure` on Optional wraps its argument. */
  function OptionPure<T>(a: T): (r: Option<T>)
    ensures r.Some? && r.value == a
  {
    Some(a)
  }

  /** Both files' Optional apply operators compute the same thing. */
  lemma OptionApplyAgrees<T, U>(f: Option<T -> U>, a: Option<T>)
    ensures OptionApply(f, a) == F.Apply(f, a)
  {
  }

  // Array

  /** `Array.map`. */
  function ArrayMap<T, U>(a: seq<T>, f: T -> U): (r: seq<U>)
    ensures |r| == |a|
    ensures forall i :: 0 <= i < |a| ==> r[i] == f(a[i])
  {
    if a == [] then [] else [f(a[0])] + ArrayMap(a[1..], f)
  }

  /** `Array.flatMap`: the concatenation of `f` over the elements, in order. */
  function ArrayFlatMap<T, U>(a: seq<T>, f: T -> seq<U>): seq<U> {
    if a == [] then [] else f(a[0]) + ArrayFlatMap(a[1..], f)
  }

  /** `f <^> a` on arrays is `a.map(f)`. */
  function ArrayFmap<T, U>(f: T -> U, a: seq<T>): (r: seq<U>)
    ensures |r| == |a|
    ensures forall i :: 0 <= i < |a| ==> r[i] == f(a[i])
  {
    ArrayMap(a, f)
  }

  /** `a.apply(fs)` is `fs.flatMap { self.map($0) }`. */
  function ArrayApplyTo<T, U>(a: seq<T>, fs: seq<T -> U>): seq<U> {
    ArrayFlatMap(fs, MapOver(a))
  }

  /** The closure `{ self.map($0) }`. */
  function MapOver<T, U>(a: seq<T>): (T -> U) -> seq<U> {
    (g: T -> U) => ArrayMap(a, g)
  }

  /** `fs <*> a`. */
  function ArrayApply<T, U>(fs: seq<T -> U>, a: seq<T>): seq<U> {
    ArrayApplyTo(a, fs)
  }

  /** `a >>- f`. */
  function ArrayBind<T, U>(a: seq<T>, f: T -> seq<U>): seq<U> {
    ArrayFlatMap(a, f)
  }

  /** `f -<< a`: bind with its arguments flipped. */
  function ArrayBindFlipped<T, U>(f: T -> seq<U>, a: seq<T>): seq<U> {
    ArrayFlatMap(a, f)
  }

  /** `pure` on Array: the singleton. */
  function ArrayPure<T>(a: T): (r: seq<T>)
    ensures |r| == 1 && r[0] == a
  {
    [a]
  }

  /** Flat-mapping over a concatenation is the concatenation of the flat maps. */
  lemma {:induction false} ArrayFlatMapAppend<T, U>(a: seq<T>, b: seq<T>, f: T -> seq<U>)
    ensures ArrayFlatMap(a + b, f) == ArrayFlatMap(a, f) + ArrayFlatMap(b, f)
  {
    if a == [] {
      assert a + b == b;
    } else {
      assert (a + b)[1..] == a[1..] + b;
      ArrayFlatMapAppend(a[1..], b, f);
    }
  }

  /** One more block of `m`: the step used to count the elements of a flat map. */
  lemma MulSucc(x: int, m: int)
    ensures (x + 1) * m == m + x * m
  {
  }

  /** Flat-mapping a function whose results all have length `m` gives `|a| * m` elements. */
  lemma {:induction false} ArrayFlatMapLength<T, U>(a: seq<T>, f: T -> seq<U>, m: nat)
    requires forall k :: 0 <= k < |a| ==> |f(a[k])| == m
    ensures |ArrayFlatMap(a, f)| == |a| * m
  {
    if a != [] {
      ArrayFlatMapLength(a[1..], f, m);
      MulSucc(|a| - 1, m);
    }
  }

  /** ... and they come block by block: element `i * m + j` is element `j` of `f(a[i])`. */
  lemma {:induction false} ArrayFlatMapBlocks<T, U>(a: seq<T>, f: T -> seq<U>, m: nat, i: nat, j: nat)
    requires forall k :: 0 <= k < |a| ==> |f(a[k])| == m
    requires i < |a| && j < m
    ensures i * m + j < |ArrayFlatMap(a, f)|
    ensures ArrayFlatMap(a, f)[i * m + j] == f(a[i])[j]
  {
    ArrayFlatMapLength(a, f, m);
    MulSucc(i, m);
    assert i * m + j < |a| * m by {
      MulMono(i + 1, |a|, m);
    }
    if i > 0 {
      ArrayFlatMapBlocks(a[1..], f, m, i - 1, j);
      MulSucc(i - 1, m);
    }
  }

  /** Multiplying by a non-negative block size keeps the order: a block index below `y` starts below `y * m`. */
  lemma MulMono(x: int, y: int, m: nat)
    requires x <= y
    ensures x * m <= y * m
  {
  }

  /** `fs <*> a` has `|fs| * |a|` elements. */
  lemma {:induction false} ArrayApplyLength<T, U>(fs: seq<T -> U>, a: seq<T>)
    ensures |ArrayApply(fs, a)| == |fs| * |a|
  {
    var mapOver := MapOver(a);
    assert ArrayApply(fs, a) == ArrayFlatMap(fs, mapOver);
    assert forall k :: 0 <= k < |fs| ==> |mapOver(fs[k])| == |a|;
    ArrayFlatMapLength(fs, mapOver, |a|);
  }

  /** `fs <*> a` is function-major: element `i * |a| + j` is `fs[i]` applied to `a[j]`. */
  lemma {:induction false} ArrayApplyAt<T, U>(fs: seq<T -> U>, a: seq<T>, i: nat, j: nat)
    requires i < |fs| && j < |a|
    ensures i * |a| + j < |ArrayApply(fs, a)|
    ensures ArrayApply(fs, a)[i * |a| + j] == fs[i](a[j])
  {
    var mapOver := MapOver(a);
    assert ArrayApply(fs, a) == ArrayFlatMap(fs, mapOver);
    assert forall k :: 0 <= k < |fs| ==> |mapOver(fs[k])| == |a|;
    ArrayFlatMapBlocks(fs, mapOver, |a|, i, j);
    assert mapOver(fs[i]) == ArrayMap(a, fs[i]);
  }

  /** Both array binds are flat maps, and binding `pure` is the identity. */
  lemma {:induction false} ArrayBindLaws<T, U>(a: seq<T>, f: T -> seq<U>, x: T)
    ensures ArrayBind(a, f) == ArrayBindFlipped(f, a)
    ensures ArrayBind(ArrayPure(x), f) == f(x)
    ensures ArrayBind(a, ArrayPure) == a
  {
    var single := ArrayPure(x);
    assert single == [x] && single[1..] == [];
    assert ArrayFlatMap(single[1..], f) == [];
    ArrayBindPure(a);
  }

  lemma {:induction false} ArrayBindPure<T>(a: seq<T>)
    ensures ArrayFlatMap(a, ArrayPure) == a
  {
    if a != [] {
      ArrayBindPure(a[1..]);
    }
  }
}
