/** Shared value types and the sequence facts every component leans on. */
module Prelude {

  datatype Option<+T> = None | Some(value: T) {
    /** The nullish-coalescing operator: this value, or `d` when there is none. */
    function Or(d: T): T {
      match this
      case Some(v) => v
      case None => d
    }

    /** Nullish coalescing whose right side may itself be absent. */
    function OrElse(o: Option<T>): Option<T> {
      if Some? then this else o
    }
  }

  /** `s.slice(-n)` for n > 0: the last n elements. */
  function Last<T>(s: seq<T>, n: nat): (r: seq<T>)
    ensures |r| == if |s| <= n then |s| else n
    ensures r <= s || |s| > n
  {
    if |s| <= n then s else s[|s| - n..]
  }

  /** A bounded window absorbs its own bound: trimming early never changes what is kept. */
  lemma {:induction false} LastAppend<T>(s: seq<T>, t: seq<T>, n: nat)
    ensures Last(Last(s, n) + t, n) == Last(s + t, n)
  {
    var a, b := Last(s, n) + t, s + t;
    if |s| > n {
      assert a == b[|s| - n..];
    }
  }

  function Map<A, B>(f: A -> B, s: seq<A>): (r: seq<B>)
    ensures |r| == |s|
  {
    seq(|s|, i requires 0 <= i < |s| => f(s[i]))
  }

  lemma {:induction false} MapIndex<A, B>(f: A -> B, s: seq<A>)
    ensures forall i :: 0 <= i < |s| ==> Map(f, s)[i] == f(s[i])
  {}

  function Filter<T>(keep: T -> bool, s: seq<T>): seq<T>
    decreases |s|
  {
    if s == [] then [] else Filter(keep, s[..|s| - 1]) + if keep(s[|s| - 1]) then [s[|s| - 1]] else []
  }

  lemma {:induction false} FilterMembers<T(!new)>(keep: T -> bool, s: seq<T>)
    ensures forall x :: x in Filter(keep, s) <==> x in s && keep(x)
    decreases |s|
  {
    if s != [] {
      var n := |s| - 1;
      FilterMembers(keep, s[..n]);
      assert s == s[..n] + [s[n]];
    }
  }

  lemma {:induction false} FilterAppend<T>(keep: T -> bool, s: seq<T>, t: seq<T>)
    ensures Filter(keep, s + t) == Filter(keep, s) + Filter(keep, t)
    decreases |t|
  {
    if t == [] {
      assert s + t == s;
    } else {
      var n := |t| - 1;
      var last := if keep(t[n]) then [t[n]] else [];
      var a, b := Filter(keep, s), Filter(keep, t[..n]);
      assert (s + t)[..|s| + n] == s + t[..n] && (s + t)[|s| + n] == t[n];
      FilterAppend(keep, s, t[..n]);
      assert Filter(keep, s + t) == (a + b) + last;
      assert (a + b) + last == a + (b + last);
    }
  }

  /** How many elements satisfy `p`. */
  function Count<T>(p: T -> bool, s: seq<T>): nat
    decreases |s|
  {
    if s == [] then 0 else Count(p, s[..|s| - 1]) + if p(s[|s| - 1]) then 1 else 0
  }

  lemma {:induction false} CountZero<T>(p: T -> bool, s: seq<T>)
    ensures Count(p, s) == 0 <==> forall i :: 0 <= i < |s| ==> !p(s[i])
    decreases |s|
  {
    if s != [] {
      CountZero(p, s[..|s| - 1]);
    }
  }

  /** The left fold every log is read with. */
  function Foldl<S, E>(f: (S, E) -> S, s: S, es: seq<E>): S
    decreases |es|
  {
    if es == [] then s else f(Foldl(f, s, es[..|es| - 1]), es[|es| - 1])
  }

  lemma {:induction false} FoldlAppend<S, E>(f: (S, E) -> S, s: S, a: seq<E>, b: seq<E>)
    ensures Foldl(f, s, a + b) == Foldl(f, Foldl(f, s, a), b)
    decreases |b|
  {
    if b == [] {
      assert a + b == a;
    } else {
      var n := |b| - 1;
      assert (a + b)[..|a| + n] == a + b[..n];
      FoldlAppend(f, s, a, b[..n]);
    }
  }

  /** A projection `h` that commutes with one step commutes with the whole fold. */
  lemma {:induction false} FoldlProject<S(!new), T,
      E(!new)>(f: (S, E) -> S, g: (T, E) -> T, h: S -> T, s: S, es: seq<E>)
    requires forall s: S, e: E :: h(f(s, e)) == g(h(s), e)
    ensures h(Foldl(f, s, es)) == Foldl(g, h(s), es)
    decreases |es|
  {
    if es != [] {
      FoldlProject(f, g, h, s, es[..|es| - 1]);
    }
  }
}
