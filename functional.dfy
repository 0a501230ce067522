/** The Optional operators of Source/Functional.swift: bind `>>-`, map `<^>`, apply `<*>`, and `curry`. */
module Functional {
  import opened Wrappers

  /** `a >>- f`: nothing for nothing, otherwise `f` of the wrapped value. */
  function Bind<A, B>(a: Option<A>, f: A -> Option<B>): (r: Option<B>)
    ensures a.None? ==> r.None?
    ensures a.Some? ==> r == f(a.value)
  {
    match a
    case Some(x) => f(x)
    case None => None
  }

  /** `f <^> a`: nothing for nothing, otherwise `f` of the wrapped value, wrapped. */
  function Map<A, B>(f: A -> B, a: Option<A>): (r: Option<B>)
    ensures r.Some? <==> a.Some?
    ensures a.Some? ==> r.value == f(a.value)
  {
    match a
    case Some(x) => Some(f(x))
    case None => None
  }

  /** `f <*> a`: nothing when there is no function, otherwise the function mapped over `a`. */
  function Apply<A, B>(f: Option<A -> B>, a: Option<A>): (r: Option<B>)
    ensures r.Some? <==> f.Some? && a.Some?
    ensures r.Some? ==> r.value == f.value(a.value)
  {
    match f
    case Some(fx) => Map(fx, a)
    case None => None
  }

  /** `curry`: the two-argument function taking its arguments one at a time. */
  function Curry<A, B, C>(f: (A, B) -> C): A -> B -> C {
    a => b => f(a, b)
  }

  lemma CurryApplies<A, B, C>(f: (A, B) -> C, a: A, b: B)
    ensures Curry(f)(a)(b) == f(a, b)
  {
  }

  /** `<^>` respects identity and composition (the functor laws). */
  lemma MapLaws<A, B, C>(a: Option<A>, f: A -> B, g: B -> C)
    ensures Map(x => x, a) == a
    ensures Map(g, Map(f, a)) == Map(x => g(f(x)), a)
  {
  }

  /** `>>-` with `Some` on either side is the identity, and it is associative (the monad laws). */
  lemma BindLaws<A, B, C>(x: A, a: Option<A>, f: A -> Option<B>, g: B -> Option<C>)
    ensures Bind(Some(x), f) == f(x)
    ensures Bind(a, y => Some(y)) == a
    ensures Bind(Bind(a, f), g) == Bind(a, y => Bind(f(y), g))
  {
  }

  /** Applying a wrapped function is mapping it; `<^>` is `>>-` followed by wrapping. */
  lemma ApplyIsMap<A, B>(f: A -> B, a: Option<A>)
    ensures Apply(Some(f), a) == Map(f, a)
    ensures Map(f, a) == Bind(a, x => Some(f(x)))
  {
  }
}
