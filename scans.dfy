/**
 * Scans: what a parser over text reads, stated as a function of the input alone.
 *
 * A scan maps an input string and an index into it to nothing (the parser fails there) or to the
 * value the parser returns and the number of characters it reads. `Scans(p, m)` says that `p`
 * succeeds exactly where `m` finds something, and then returns `m`'s value having consumed `m`'s
 * count, whatever the position it started from. The lemmas below carry a scan through each
 * combinator, so that the parsers of parsec/text/basic.py can be described by plain functions on
 * strings.
 */
module Scanning {
  import opened Wrappers
  import opened Errors
  import opened TextContext
  import opened Contexts
  import opened Core
  import opened CoreProperties

  /** The value found at an index, and how many characters it takes. */
  type Scan<R> = (string, int) -> Option<(R, nat)>

  /** The parser's result is `v`, reached by consuming the next `n` characters. */
  ghost predicate Yields<R>(r: Result<R>, ctx: Context, v: R, n: nat)
  {
    CanAdvance(ctx, n) && r == Result(Advance(ctx, n), Okay(v), n)
  }

  ghost predicate ScansAt<R>(p: Parser<R>, m: Scan<R>, ctx: Context)
  {
    var o := m(ctx.stream.data, ctx.stream.offset);
    (p(ctx).outcome.Okay? <==> o.Some?) && (o.Some? ==> Yields(p(ctx), ctx, o.value.0, o.value.1))
  }

  /** `p` reads what `m` describes, from every context. */
  ghost predicate Scans<R>(p: Parser<R>, m: Scan<R>)
  {
    WellBehaved(p) && forall ctx :: ScansAt(p, m, ctx)
  }

  // ---------------------------------------------------------------------------------------------
  // Scans built from scans

  /** Finds `v` everywhere, reading nothing. */
  function Nothing<R>(v: R): Scan<R>
  {
    (d: string, i: int) => Some((v, 0))
  }

  /** `m1`, then `m2` where `m1` stopped; both values. */
  function ThenScan<R, S>(m1: Scan<R>, m2: Scan<S>): Scan<(R, S)>
  {
    (d: string, i: int) =>
      match m1(d, i)
      case None => None
      case Some(a) =>
        match m2(d, i + a.1)
        case None => None
        case Some(b) =>
          var n: nat := a.1 + b.1;
          Some(((a.0, b.0), n))
  }

  /** `mpre`, then `m` where it stopped; `m`'s value. */
  function SkipScan<X, R>(mpre: Scan<X>, m: Scan<R>): Scan<R>
  {
    MapScan(ThenScan(mpre, m), (t: (X, R)) => t.1)
  }

  /** `m`, then `msuf` where it stopped; `m`'s value. */
  function UntilScan<R, X>(m: Scan<R>, msuf: Scan<X>): Scan<R>
  {
    MapScan(ThenScan(m, msuf), (t: (R, X)) => t.0)
  }

  /** `m`, with `f` applied to its value. */
  function MapScan<R, S>(m: Scan<R>, f: R -> S): Scan<S>
  {
    (d: string, i: int) =>
      match m(d, i)
      case None => None
      case Some(a) => Some((f(a.0), a.1))
  }

  /** `mfn`, then `m` where it stopped; the first value applied to the second. */
  function ApplyScan<R, S>(mfn: Scan<R -> S>, m: Scan<R>): Scan<S>
  {
    MapScan(ThenScan(mfn, m), (t: (R -> S, R)) => t.0(t.1))
  }

  /** `m1` where it finds something, `m2` elsewhere. */
  function OrScan<R>(m1: Scan<R>, m2: Scan<R>): Scan<R>
  {
    (d: string, i: int) => if m1(d, i).Some? then m1(d, i) else m2(d, i)
  }

  /** One character satisfying `f`. */
  function CharScan(f: char -> bool): Scan<char>
  {
    (d: string, i: int) => if 0 <= i < |d| && f(d[i]) then Some((d[i], 1)) else None
  }

  /** The longest run of characters satisfying `f` from index `i` of `d`. */
  function Run(d: string, i: int, f: char -> bool): string
    decreases |d| - i
  {
    if 0 <= i < |d| && f(d[i]) then [d[i]] + Run(d, i + 1, f) else []
  }

  /** The run is the input from `i` on, every character of it is in the class, and the character
      after it, if any, is not. */
  lemma {:induction false} RunSpec(d: string, i: int, f: char -> bool)
    ensures var r := Run(d, i, f);
      (r != [] ==> 0 <= i && i + |r| <= |d| && r == d[i..i + |r|])
      && (forall k :: 0 <= k < |r| ==> f(r[k]))
      && !(0 <= i + |r| < |d| && f(d[i + |r|]))
    decreases |d| - i
  {
    if 0 <= i < |d| && f(d[i]) {
      RunSpec(d, i + 1, f);
      var r := Run(d, i + 1, f);
      if r != [] {
        assert d[i..i + 1 + |r|] == [d[i]] + d[i + 1..i + 1 + |r|];
      }
    }
  }

  /** A run of the class that stops at the end of the input or at a character outside the class is
      the longest run. */
  lemma {:induction false} RunExact(d: string, i: int, k: int, f: char -> bool)
    requires 0 <= i <= k <= |d|
    requires forall j :: i <= j < k ==> f(d[j])
    requires k == |d| || !f(d[k])
    ensures Run(d, i, f) == d[i..k]
    decreases k - i
  {
    if i < k {
      RunExact(d, i + 1, k, f);
      assert d[i..k] == [d[i]] + d[i + 1..k];
    }
  }

  /** The longest run of characters satisfying `f`, possibly empty. */
  function RunScan(f: char -> bool): Scan<string>
  {
    (d: string, i: int) => Some((Run(d, i, f), |Run(d, i, f)|))
  }

  /** The longest run of characters satisfying `f`, which must not be empty. */
  function Run1Scan(f: char -> bool): Scan<string>
  {
    (d: string, i: int) => if Run(d, i, f) == [] then None else Some((Run(d, i, f), |Run(d, i, f)|))
  }

  /** Exactly `n` characters satisfying `f`. */
  function CountScan(f: char -> bool, n: nat): Scan<string>
  {
    (d: string, i: int) => if n <= |Run(d, i, f)| then Some((Run(d, i, f)[..n], n)) else None
  }

  // ---------------------------------------------------------------------------------------------
  // The combinators carry scans

  /** Two scans that agree everywhere describe the same parser. */
  lemma ScansEquiv<R>(p: Parser<R>, m1: Scan<R>, m2: Scan<R>)
    requires Scans(p, m1)
    requires forall d, i :: m1(d, i) == m2(d, i)
    ensures Scans(p, m2)
  {
    forall ctx ensures ScansAt(p, m2, ctx) {
      assert ScansAt(p, m1, ctx);
    }
  }

  /** `okay(v)` finds `v` everywhere and reads nothing. */
  lemma OkayScans<R>(v: R)
    ensures Scans(OkayParser(v), Nothing(v))
  {
    OkayFailWellBehaved(v, UnExpected("", ""));
    forall ctx ensures ScansAt(OkayParser(v), Nothing(v), ctx) {
      ReachesZero(ctx);
    }
  }

  /** `map(fn)` applies `fn` to what the parser finds. */
  lemma MapScans<R, S>(p: Parser<R>, m: Scan<R>, fn: R -> S)
    requires Scans(p, m)
    ensures Scans(Map(p, fn), MapScan(m, fn))
  {
    MapWellBehaved(p, fn);
    forall ctx ensures ScansAt(Map(p, fn), MapScan(m, fn), ctx) {
      assert ScansAt(p, m, ctx);
      MapSpec(p, fn, ctx);
    }
  }

  /** `label` does not change what a parser finds. */
  lemma LabelScans<R>(p: Parser<R>, m: Scan<R>, name: string)
    requires Scans(p, m)
    ensures Scans(Label(p, name), m)
  {
    LabelWellBehaved(p, name);
    forall ctx ensures ScansAt(Label(p, name), m, ctx) {
      assert ScansAt(p, m, ctx);
      LabelSpec(p, name, ctx);
    }
  }

  /** `p | q` finds what `p` finds, and elsewhere what `q` finds. */
  lemma AlterScans<R>(p: Parser<R>, m1: Scan<R>, q: Parser<R>, m2: Scan<R>)
    requires Scans(p, m1) && Scans(q, m2)
    ensures Scans(Alter(p, q), OrScan(m1, m2))
  {
    AlterWellBehaved(p, q);
    forall ctx ensures ScansAt(Alter(p, q), OrScan(m1, m2), ctx) {
      assert ScansAt(p, m1, ctx) && ScansAt(q, m2, ctx);
      AlterSpec(p, q, ctx);
    }
  }

  /** `p.default(v)` finds what `p` finds, and `v` reading nothing where `p` finds nothing. */
  lemma DefaultScans<R>(p: Parser<R>, m: Scan<R>, v: R)
    requires Scans(p, m)
    ensures Scans(Default(p, v), OrScan(m, Nothing(v)))
  {
    OkayScans(v);
    AlterScans(p, m, OkayParser(v), Nothing(v));
  }

  /** `p & q` finds what `p` finds followed by what `q` finds after it. */
  lemma PairScans<R, S>(p: Parser<R>, m1: Scan<R>, q: Parser<S>, m2: Scan<S>)
    requires Scans(p, m1) && Scans(q, m2)
    ensures Scans(Pair(p, q), ThenScan(m1, m2))
  {
    PairWellBehaved(p, q);
    forall ctx ensures ScansAt(Pair(p, q), ThenScan(m1, m2), ctx) {
      PairAt(p, m1, q, m2, ctx);
    }
  }

  lemma PairAt<R, S>(p: Parser<R>, m1: Scan<R>, q: Parser<S>, m2: Scan<S>, ctx: Context)
    requires Scans(p, m1) && Scans(q, m2)
    ensures ScansAt(Pair(p, q), ThenScan(m1, m2), ctx)
  {
    assert ScansAt(p, m1, ctx);
    PairSpec(p, q, ctx);
    var a := p(ctx);
    if a.outcome.Okay? {
      assert ScansAt(q, m2, a.ctx);
      var b := q(a.ctx);
      if b.outcome.Okay? {
        ReachesTrans(ctx, a.ctx, a.consumed, b.ctx, b.consumed);
      }
    }
  }

  /** `p.apply(pfn)` finds the function `pfn` finds, then what `p` finds after it, and applies
      the one to the other. */
  lemma ApplyScans<R, S>(p: Parser<R>, m: Scan<R>, pfn: Parser<R -> S>, mfn: Scan<R -> S>)
    requires Scans(p, m) && Scans(pfn, mfn)
    ensures Scans(Apply(p, pfn), ApplyScan(mfn, m))
  {
    ApplyWellBehaved(p, pfn);
    forall ctx ensures ScansAt(Apply(p, pfn), ApplyScan(mfn, m), ctx) {
      ApplyAt(p, m, pfn, mfn, ctx);
    }
  }

  lemma ApplyAt<R, S>(p: Parser<R>, m: Scan<R>, pfn: Parser<R -> S>, mfn: Scan<R -> S>, ctx: Context)
    requires Scans(p, m) && Scans(pfn, mfn)
    ensures ScansAt(Apply(p, pfn), ApplyScan(mfn, m), ctx)
  {
    assert ScansAt(pfn, mfn, ctx);
    ApplySpec(p, pfn, ctx);
    var a := pfn(ctx);
    if a.outcome.Okay? {
      assert ScansAt(p, m, a.ctx);
      var b := p(a.ctx);
      if b.outcome.Okay? {
        ReachesTrans(ctx, a.ctx, a.consumed, b.ctx, b.consumed);
      }
    }
  }

  /** `p.prefix(pre)` finds what `p` finds after what `pre` finds, and keeps only `p`'s value. */
  lemma PrefixScans<R, X>(p: Parser<R>, m: Scan<R>, pre: Parser<X>, mpre: Scan<X>)
    requires Scans(p, m) && Scans(pre, mpre)
    ensures Scans(Prefix(p, pre), SkipScan(mpre, m))
  {
    PairWellBehaved(pre, p);
    PairScans(pre, mpre, p, m);
    forall ctx ensures ScansAt(Prefix(p, pre), SkipScan(mpre, m), ctx) {
      assert ScansAt(Pair(pre, p), ThenScan(mpre, m), ctx);
      SequencingSpec(pre, p, pre, ctx);
      SequencingSpec(p, pre, pre, ctx);
      BindSpec(pre, (y: X) => p, ctx);
      BindSpec(pre, (x: X) => Map(p, (y: R) => (x, y)), ctx);
      if pre(ctx).outcome.Okay? {
        MapSpec(p, (y: R) => (pre(ctx).outcome.value, y), pre(ctx).ctx);
      }
    }
  }

  /** `p.suffix(suf)` finds what `p` finds followed by what `suf` finds, and keeps only `p`'s
      value. */
  lemma SuffixScans<R, X>(p: Parser<R>, m: Scan<R>, suf: Parser<X>, msuf: Scan<X>)
    requires Scans(p, m) && Scans(suf, msuf)
    ensures Scans(Suffix(p, suf), UntilScan(m, msuf))
  {
    PairWellBehaved(p, suf);
    PairScans(p, m, suf, msuf);
    forall ctx ensures ScansAt(Suffix(p, suf), UntilScan(m, msuf), ctx) {
      assert ScansAt(Pair(p, suf), ThenScan(m, msuf), ctx);
      SequencingSpec(p, suf, suf, ctx);
      BindSpec(p, (x: R) => Map(suf, (y: X) => x), ctx);
      BindSpec(p, (x: R) => Map(suf, (y: X) => (x, y)), ctx);
      if p(ctx).outcome.Okay? {
        MapSpec(suf, (y: X) => p(ctx).outcome.value, p(ctx).ctx);
        MapSpec(suf, (y: X) => (p(ctx).outcome.value, y), p(ctx).ctx);
      }
    }
  }

  // ---------------------------------------------------------------------------------------------
  // Single characters and their repetition

  /** A parser of one character of a class consumes when it succeeds. */
  lemma CharScanProgressive(p: Parser<char>, f: char -> bool)
    requires Scans(p, CharScan(f))
    ensures Progressive(p)
  {
    forall ctx ensures p(ctx).outcome.Okay? ==> 0 < p(ctx).consumed {
      assert ScansAt(p, CharScan(f), ctx);
    }
  }

  /** `item.where(f)` reads one character satisfying `f`. */
  lemma WhereItemScans(f: char -> bool, show: char -> string)
    ensures Scans(Where(Item, f, show), CharScan(f)) && Progressive(Where(Item, f, show))
  {
    PrimitivesWellBehaved();
    WhereWellBehaved(Item, f, show);
    forall ctx ensures ScansAt(Where(Item, f, show), CharScan(f), ctx) {
      ItemSpec(ctx);
      WhereSpec(Item, f, show, ctx);
    }
  }

  /** Two classes that agree on every character scan alike. */
  lemma CharScanEquiv(p: Parser<char>, f: char -> bool, g: char -> bool)
    requires Scans(p, CharScan(f)) && forall c :: f(c) == g(c)
    ensures Scans(p, CharScan(g))
  {
    forall d, i ensures CharScan(f)(d, i) == CharScan(g)(d, i) {
    }
    ScansEquiv(p, CharScan(f), CharScan(g));
  }

  /** The union of two classes. */
  function Either(f: char -> bool, g: char -> bool): char -> bool
  {
    c => f(c) || g(c)
  }

  /** `p | q` over two classes reads a character of either. */
  lemma AlterCharScans(p: Parser<char>, f: char -> bool, q: Parser<char>, g: char -> bool)
    requires Scans(p, CharScan(f)) && Scans(q, CharScan(g))
    ensures Scans(Alter(p, q), CharScan(Either(f, g)))
  {
    AlterScans(p, CharScan(f), q, CharScan(g));
    forall d, i ensures OrScan(CharScan(f), CharScan(g))(d, i) == CharScan(Either(f, g))(d, i) {
    }
    ScansEquiv(Alter(p, q), OrScan(CharScan(f), CharScan(g)), CharScan(Either(f, g)));
  }

  /** `many` over a class reads the longest run of the class. */
  lemma ManyScans(p: Parser<char>, f: char -> bool)
    requires Scans(p, CharScan(f))
    ensures Progressive(p) && Scans(Many(p), RunScan(f))
  {
    CharScanProgressive(p, f);
    ManyWellBehaved(p, p);
    forall ctx ensures ScansAt(Many(p), RunScan(f), ctx) {
      ManyAt(p, f, ctx);
    }
  }

  lemma {:induction false} ManyAt(p: Parser<char>, f: char -> bool, ctx: Context)
    requires Scans(p, CharScan(f)) && Progressive(p)
    ensures var r := Run(ctx.stream.data, ctx.stream.offset, f);
      Yields(Many(p)(ctx), ctx, r, |r|)
    decreases |ctx.stream.data| - ctx.stream.offset
  {
    assert ScansAt(p, CharScan(f), ctx);
    var a := p(ctx);
    var d, off := ctx.stream.data, ctx.stream.offset;
    if a.outcome.Okay? {
      var c := a.ctx;
      ManyAt(p, f, c);
      var m := Many(p)(c);
      assert c.stream.data == d && c.stream.offset == off + 1;
      assert Run(d, off, f) == [d[off]] + Run(d, off + 1, f);
      ReachesTrans(ctx, c, 1, m.ctx, m.consumed);
    } else {
      assert Accounts(ctx, a);
      ReachesZero(ctx);
    }
  }

  /** `some` over a class reads the longest run of the class, which must not be empty. */
  lemma Some1Scans(p: Parser<char>, f: char -> bool)
    requires Scans(p, CharScan(f))
    ensures Progressive(p) && Scans(Some1(p), Run1Scan(f))
  {
    CharScanProgressive(p, f);
    ManyWellBehaved(p, p);
    forall ctx ensures ScansAt(Some1(p), Run1Scan(f), ctx) {
      Some1At(p, f, ctx);
    }
  }

  lemma Some1At(p: Parser<char>, f: char -> bool, ctx: Context)
    requires Scans(p, CharScan(f)) && Progressive(p)
    ensures ScansAt(Some1(p), Run1Scan(f), ctx)
  {
    assert ScansAt(p, CharScan(f), ctx);
    if p(ctx).outcome.Okay? {
      ManyAt(p, f, p(ctx).ctx);
      Some1Okay(p, f, ctx);
    } else {
      SomeSpec(p, ctx);
    }
  }

  /** Where `p` reads a character, `some` reads it and then what `many` reads after it. */
  lemma Some1Okay(p: Parser<char>, f: char -> bool, ctx: Context)
    requires Progressive(p) && ScansAt(p, CharScan(f), ctx) && p(ctx).outcome.Okay?
    requires var c := p(ctx).ctx; var r := Run(c.stream.data, c.stream.offset, f);
      Yields(Many(p)(c), c, r, |r|)
    ensures ScansAt(Some1(p), Run1Scan(f), ctx)
  {
    var a, d, off := p(ctx), ctx.stream.data, ctx.stream.offset;
    assert Yields(a, ctx, d[off], 1);
    assert a.ctx.stream.data == d && a.ctx.stream.offset == off + 1;
    SomeSpec(p, ctx);
    RunCons(ctx, a, Many(p)(a.ctx), f);
  }

  /** A character of the class, then the run after it: the run from the character. */
  lemma RunCons(ctx: Context, a: Result<char>, m: Result<string>, f: char -> bool)
    requires 0 <= ctx.stream.offset < |ctx.stream.data|
    requires var d := ctx.stream.data; var off := ctx.stream.offset;
      f(d[off]) && Yields(a, ctx, d[off], 1)
      && Yields(m, a.ctx, Run(d, off + 1, f), |Run(d, off + 1, f)|)
    ensures var d := ctx.stream.data; var off := ctx.stream.offset;
      Yields(Result(m.ctx, Okay([a.outcome.value] + m.outcome.value), m.consumed + a.consumed), ctx,
             Run(d, off, f), |Run(d, off, f)|)
  {
    var d, off := ctx.stream.data, ctx.stream.offset;
    assert Run(d, off, f) == [d[off]] + Run(d, off + 1, f);
    ReachesTrans(ctx, a.ctx, 1, m.ctx, m.consumed);
  }

  /** `repeat(n)` over a class reads exactly `n` characters of the class, and fails where fewer
      follow. */
  lemma {:induction false} RepeatScans(p: Parser<char>, f: char -> bool, n: nat)
    requires Scans(p, CharScan(f))
    ensures Scans(Repeat(p, n), CountScan(f, n))
    decreases n
  {
    if n == 0 {
      OkayScans<seq<char>>([]);
      forall d, i ensures Nothing<seq<char>>([])(d, i) == CountScan(f, 0)(d, i) {
      }
      ScansEquiv(Repeat(p, 0), Nothing<seq<char>>([]), CountScan(f, 0));
    } else {
      RepeatScans(p, f, n - 1);
      RepeatCons(p, f, n);
    }
  }

  lemma RepeatCons(p: Parser<char>, f: char -> bool, n: nat)
    requires n > 0 && Scans(p, CharScan(f)) && Scans(Repeat(p, n - 1), CountScan(f, n - 1))
    ensures Scans(Repeat(p, n), CountScan(f, n))
  {
    var cons := (x: char) => (xs: seq<char>) => [x] + xs;
    MapScans(p, CharScan(f), cons);
    ApplyScans(Repeat(p, n - 1), CountScan(f, n - 1), Map(p, cons), MapScan(CharScan(f), cons));
    var m := ApplyScan(MapScan(CharScan(f), cons), CountScan(f, n - 1));
    forall d, i ensures m(d, i) == CountScan(f, n)(d, i) {
      CountStep(f, n, d, i);
    }
    ScansEquiv(Repeat(p, n), m, CountScan(f, n));
  }

  /** `n` characters of a class are one of them followed by `n - 1` more. */
  lemma CountStep(f: char -> bool, n: nat, d: string, i: int)
    requires n > 0
    ensures CountScan(f, n)(d, i) ==
      if 0 <= i < |d| && f(d[i]) && CountScan(f, n - 1)(d, i + 1).Some? then
        Some(([d[i]] + CountScan(f, n - 1)(d, i + 1).value.0, n))
      else None
  {
    if 0 <= i < |d| && f(d[i]) {
      var run := Run(d, i + 1, f);
      assert Run(d, i, f) == [d[i]] + run;
      if n - 1 <= |run| {
        assert Run(d, i, f)[..n] == [d[i]] + run[..n - 1];
      }
    }
  }
}
