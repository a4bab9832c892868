/**
 * Small functional helpers (parsec/utils.py). Python's variadic tuples become sequences and its
 * homogeneous `*fns` become a sequence of functions of one type.
 */
module Utils {

  /** `const(a)`: a function that ignores its argument and returns `a`. */
  function Const<A, B(!new)>(a: A): (f: B -> A)
    ensures forall b :: f(b) == a
  {
    _ => a
  }

  /** `cons(a)(l)`: `a` in front of the elements of `l`; `l` itself is a value and stays as it was. */
  function Cons<T(!new)>(a: T): (put: seq<T> -> seq<T>)
    ensures forall l :: |put(l)| == |l| + 1 && put(l)[0] == a && put(l)[1..] == l
  {
    l => [a] + l
  }

  function Identity<T>(x: T): (r: T)
    ensures r == x
  {
    x
  }

  function Curry2<T(!new), U(!new), V>(f: (T, U) -> V): (g: T -> U -> V)
    ensures forall t, u :: g(t)(u) == f(t, u)
  {
    t => u => f(t, u)
  }

  function Uncurry2<T(!new), U(!new), V>(f: T -> U -> V): (g: (T, U) -> V)
    ensures forall t, u :: g(t, u) == f(t)(u)
  {
    (t, u) => f(t)(u)
  }

  function Flip<T(!new), U(!new), V>(f: T -> U -> V): (g: U -> T -> V)
    ensures forall u, t :: g(u)(t) == f(t)(u)
  {
    u => t => f(t)(u)
  }

  /** Uncurrying a curried function gives back a function that agrees with the original. */
  lemma UncurryCurry<T(!new), U(!new), V>(f: (T, U) -> V)
    ensures forall t, u :: Uncurry2(Curry2(f))(t, u) == f(t, u)
  {
  }

  /** Flipping twice gives back a function that agrees with the original. */
  lemma FlipFlip<T(!new), U(!new), V>(f: T -> U -> V)
    ensures forall t, u :: Flip(Flip(f))(t)(u) == f(t)(u)
  {
  }

  /** What `compose(f1, ..., fn)(x)` computes: `f1(f2(... fn(x)))`. */
  function Composition<T>(fns: seq<T -> T>, x: T): T
  {
    if fns == [] then x else fns[0](Composition(fns[1..], x))
  }

  /** What `pipes(f1, ..., fn)(x)` computes: `fn(... f2(f1(x)))`. */
  function Pipeline<T>(fns: seq<T -> T>, x: T): T
  {
    if fns == [] then x else Pipeline(fns[1..], fns[0](x))
  }

  /** `compose(*fns)(x)`: the accumulator loop over the functions in reverse order. */
  method Compose<T>(fns: seq<T -> T>, x: T) returns (r: T)
    ensures r == Composition(fns, x)
  {
    r := x;
    var i := |fns|;
    while i > 0
      invariant 0 <= i <= |fns|
      invariant r == Composition(fns[i..], x)
    {
      i := i - 1;
      assert fns[i..][1..] == fns[i + 1..];
      r := fns[i](r);
    }
  }

  /** `pipes(*fns)(x)`: the accumulator loop over the functions in order. */
  method Pipes<T>(fns: seq<T -> T>, x: T) returns (r: T)
    ensures r == Pipeline(fns, x)
  {
    r := x;
    var i := 0;
    while i < |fns|
      invariant 0 <= i <= |fns|
      invariant Pipeline(fns[i..], r) == Pipeline(fns, x)
    {
      assert fns[i..][1..] == fns[i + 1..];
      r := fns[i](r);
      i := i + 1;
    }
    assert fns[i..] == [];
  }

  function Reverse<T>(s: seq<T>): (r: seq<T>)
    ensures |r| == |s|
    ensures forall i :: 0 <= i < |s| ==> r[i] == s[|s| - 1 - i]
  {
    if s == [] then [] else Reverse(s[1..]) + [s[0]]
  }

  /** Composing the first functions after the last ones is composing the whole list. */
  lemma {:induction false} CompositionAppend<T>(a: seq<T -> T>, b: seq<T -> T>, x: T)
    ensures Composition(a + b, x) == Composition(a, Composition(b, x))
  {
    if a != [] {
      assert (a + b)[1..] == a[1..] + b;
      CompositionAppend(a[1..], b, x);
    } else {
      assert a + b == b;
    }
  }

  /** `pipes` is `compose` over the reversed list: f1 runs first in `pipes`, last in `compose`. */
  lemma {:induction false} PipelineIsReversedComposition<T>(fns: seq<T -> T>, x: T)
    ensures Pipeline(fns, x) == Composition(Reverse(fns), x)
  {
    if fns != [] {
      calc {
        Composition(Reverse(fns), x);
        { assert Reverse(fns) == Reverse(fns[1..]) + [fns[0]]; }
        Composition(Reverse(fns[1..]) + [fns[0]], x);
        { CompositionAppend(Reverse(fns[1..]), [fns[0]], x); }
        Composition(Reverse(fns[1..]), Composition([fns[0]], x));
        { assert Composition([fns[0]], x) == fns[0](x); }
        Composition(Reverse(fns[1..]), fns[0](x));
        { PipelineIsReversedComposition(fns[1..], fns[0](x)); }
        Pipeline(fns[1..], fns[0](x));
      }
    }
  }

  /** With no functions, `compose` and `pipes` are the identity. */
  lemma EmptyCompositionIsIdentity<T>(x: T)
    ensures Composition([], x) == x && Pipeline([], x) == x
  {
  }

  /** `head(t)`: element 0 of a non-empty tuple. */
  function Head<T>(t: seq<T>): T
    requires |t| >= 1
  {
    t[0]
  }

  /** `tail(t)`: all elements but element 0. */
  function Tail<T>(t: seq<T>): seq<T>
    requires |t| >= 1
  {
    t[1..]
  }

  function Fst<T>(t: seq<T>): T
    requires |t| >= 1
  {
    Head(t)
  }

  function Snd<T>(t: seq<T>): T
    requires |t| >= 2
  {
    t[1]
  }

  /** Head and tail split a tuple: putting the head back in front of the tail rebuilds it,
      `fst` is `head`, and `snd` is the head of the tail. */
  lemma HeadTailSplit<T>(t: seq<T>)
    requires |t| >= 1
    ensures [Head(t)] + Tail(t) == t
    ensures Fst(t) == t[0] && |Tail(t)| == |t| - 1
    ensures |t| >= 2 ==> Snd(t) == Head(Tail(t))
  {
  }
}
