/**
 * What the combinators of parsec/core.py do, stated against the results of the parsers they combine:
 * the monad laws, the two alternations, the primitives, filtering and labelling, repetition and the
 * two chains as left and right folds.
 */
module CoreProperties {
  import opened Wrappers
  import opened Errors
  import opened TextContext
  import opened Contexts
  import opened Core

  /** `okay(v)` succeeds with `v` and `fail(e)` fails with `e`, both consuming nothing and returning
      the context they were given. */
  lemma OkayFailSpec<R>(v: R, e: ParseErr, ctx: Context)
    ensures OkayParser(v)(ctx) == Result(ctx, Okay(v), 0)
    ensures FailParser<R>(e)(ctx) == Result(ctx, Fail(e), 0)
  {
  }

  /** `apply(pfn)` runs `pfn` first, then the parser, and applies the function to its value. */
  lemma ApplySpec<R, S>(p: Parser<R>, pfn: Parser<R -> S>, ctx: Context)
    ensures pfn(ctx).outcome.Fail? ==> Apply(p, pfn)(ctx) == Result(pfn(ctx).ctx, Fail(pfn(ctx).outcome.error), pfn(ctx).consumed)
    ensures pfn(ctx).outcome.Okay? ==>
      var a := pfn(ctx);
      var b := p(a.ctx);
      Apply(p, pfn)(ctx) == Result(b.ctx, if b.outcome.Okay? then Okay(a.outcome.value(b.outcome.value)) else Fail(b.outcome.error), b.consumed + a.consumed)
  {
  }

  /** A first-parser failure is the result of `bind`, whatever the continuation; after a success the
      continuation runs from the first result's context and the consumed counts add up. */
  lemma BindSpec<R, S>(p: Parser<R>, fn: R -> Parser<S>, ctx: Context)
    ensures p(ctx).outcome.Fail? ==>
      Bind(p, fn)(ctx) == Result(p(ctx).ctx, Fail(p(ctx).outcome.error), p(ctx).consumed)
      && forall other: R -> Parser<S> :: Bind(p, other)(ctx) == Bind(p, fn)(ctx)
    ensures p(ctx).outcome.Okay? ==>
      var r2 := fn(p(ctx).outcome.value)(p(ctx).ctx);
      Bind(p, fn)(ctx) == Result(r2.ctx, r2.outcome, r2.consumed + p(ctx).consumed)
  {
  }

  /** `map` changes only the value of a success. */
  lemma MapSpec<R, S>(p: Parser<R>, fn: R -> S, ctx: Context)
    ensures Map(p, fn)(ctx).ctx == p(ctx).ctx && Map(p, fn)(ctx).consumed == p(ctx).consumed
    ensures Map(p, fn)(ctx).outcome.Okay? <==> p(ctx).outcome.Okay?
    ensures p(ctx).outcome.Okay? ==> Map(p, fn)(ctx).outcome.value == fn(p(ctx).outcome.value)
    ensures p(ctx).outcome.Fail? ==> Map(p, fn)(ctx).outcome.error == p(ctx).outcome.error
  {
  }

  lemma LeftIdentity<R, S>(v: R, fn: R -> Parser<S>, ctx: Context)
    ensures Bind(OkayParser(v), fn)(ctx) == fn(v)(ctx)
  {
  }

  lemma RightIdentity<R>(p: Parser<R>, ctx: Context)
    ensures Bind(p, (x: R) => OkayParser(x))(ctx) == p(ctx)
  {
  }

  lemma Associativity<R, S, T>(p: Parser<R>, f: R -> Parser<S>, g: S -> Parser<T>, ctx: Context)
    ensures Bind(Bind(p, f), g)(ctx) == Bind(p, (x: R) => Bind(f(x), g))(ctx)
  {
    var h := (x: R) => Bind(f(x), g);
    BindSpec(p, f, ctx);
    BindSpec(Bind(p, f), g, ctx);
    BindSpec(p, h, ctx);
    var r1 := p(ctx);
    if r1.outcome.Okay? {
      BindSpec(f(r1.outcome.value), g, r1.ctx);
      assert h(r1.outcome.value) == Bind(f(r1.outcome.value), g);
    }
  }

  /** `map` is `bind` followed by `okay`, and it respects identity and composition. */
  lemma MapLaws<R, S, T>(p: Parser<R>, f: R -> S, g: S -> T, ctx: Context)
    ensures Map(p, f)(ctx) == Bind(p, (x: R) => OkayParser(f(x)))(ctx)
    ensures Map(p, (x: R) => x)(ctx) == p(ctx)
    ensures Map(Map(p, f), g)(ctx) == Map(p, (x: R) => g(f(x)))(ctx)
  {
    var k := (x: R) => OkayParser(f(x));
    BindSpec(p, k, ctx);
    if p(ctx).outcome.Okay? {
      assert k(p(ctx).outcome.value)(p(ctx).ctx) == Result(p(ctx).ctx, Okay(f(p(ctx).outcome.value)), 0);
    }
  }

  /** The applicative forms sequence as `bind` does: `pair` keeps both values, `prefix` the second,
      `suffix` the first, and `between` the middle one. */
  lemma SequencingSpec<R, S, X>(p: Parser<R>, q: Parser<S>, r: Parser<X>, ctx: Context)
    ensures Pair(p, q)(ctx) == Bind(p, (x: R) => Map(q, (y: S) => (x, y)))(ctx)
    ensures Prefix(p, q)(ctx) == Bind(q, (y: S) => p)(ctx)
    ensures Suffix(p, q)(ctx) == Bind(p, (x: R) => Map(q, (y: S) => x))(ctx)
  {
    var mk := (x: R) => (y: S) => (x, y);
    var fst := (x: R) => (y: S) => x;
    var snd := (y: S) => (x: R) => x;
    ApplySpec(q, Map(p, mk), ctx);
    ApplySpec(q, Map(p, fst), ctx);
    ApplySpec(p, Map(q, snd), ctx);
    MapSpec(p, mk, ctx);
    MapSpec(p, fst, ctx);
    MapSpec(q, snd, ctx);
    BindSpec(p, (x: R) => Map(q, (y: S) => (x, y)), ctx);
    BindSpec(p, (x: R) => Map(q, (y: S) => x), ctx);
    BindSpec(q, (y: S) => p, ctx);
    if p(ctx).outcome.Okay? {
      var a := p(ctx);
      MapSpec(q, mk(a.outcome.value), a.ctx);
      MapSpec(q, (y: S) => (a.outcome.value, y), a.ctx);
      MapSpec(q, fst(a.outcome.value), a.ctx);
      MapSpec(q, (y: S) => a.outcome.value, a.ctx);
    }
    if q(ctx).outcome.Okay? {
      var b := q(ctx);
      MapSpec(p, snd(b.outcome.value), b.ctx);
    }
  }

  /** `between(pre, suf)` runs `pre`, the parser, then `suf`, and keeps the parser's value. */
  lemma BetweenSpec<R, X, Y>(p: Parser<R>, pre: Parser<X>, suf: Parser<Y>, ctx: Context)
    ensures Between(p, pre, suf)(ctx) == Bind(pre, (y: X) => Bind(p, (x: R) => Map(suf, (z: Y) => x)))(ctx)
  {
    SequencingSpec(p, pre, suf, ctx);
    SequencingSpec(Prefix(p, pre), suf, suf, ctx);
    var k := (x: R) => Map(suf, (z: Y) => x);
    BindSpec(Prefix(p, pre), k, ctx);
    BindSpec(pre, (y: X) => p, ctx);
    Associativity(pre, (y: X) => p, k, ctx);
  }

  /** `alter`: a first-branch success is returned unchanged. Otherwise the second branch runs from
      the context the first started from, with the state from before the attempt; when it fails too,
      the error joins both errors and the second branch's context and consumed count are reported. */
  lemma AlterSpec<R>(p: Parser<R>, q: Parser<R>, ctx: Context)
    requires WellBehaved(p)
    ensures p(ctx).outcome.Okay? ==> Alter(p, q)(ctx) == p(ctx)
    ensures p(ctx).outcome.Fail? && q(ctx).outcome.Okay? ==> Alter(p, q)(ctx) == q(ctx)
    ensures p(ctx).outcome.Fail? && q(ctx).outcome.Fail? ==>
      Alter(p, q)(ctx) == Result(q(ctx).ctx, Fail(Join(AlterError([p(ctx).outcome.error, q(ctx).outcome.error]))), q(ctx).consumed)
  {
    assert Accounts(ctx, p(ctx));
  }

  /** `fast_alter`: the first result is final once it succeeded or consumed something; only a failure
      that consumed nothing tries the second branch, from that same context, joining the errors when
      both fail. */
  lemma FastAlterSpec<R>(p: Parser<R>, q: Parser<R>, ctx: Context)
    requires WellBehaved(p)
    ensures p(ctx).outcome.Okay? || p(ctx).consumed > 0 ==> FastAlter(p, q)(ctx) == p(ctx)
    ensures p(ctx).outcome.Fail? && p(ctx).consumed == 0 && q(ctx).outcome.Okay? ==> FastAlter(p, q)(ctx) == q(ctx)
    ensures p(ctx).outcome.Fail? && p(ctx).consumed == 0 && q(ctx).outcome.Fail? ==>
      FastAlter(p, q)(ctx) == Result(q(ctx).ctx, Fail(Join(AlterError([p(ctx).outcome.error, q(ctx).outcome.error]))), q(ctx).consumed)
  {
    assert Accounts(ctx, p(ctx));
    ReachesZero(ctx);
  }

  /** Unlike `alter`, `fast_alter` does not try the second branch after a consuming failure. */
  lemma FastAlterCommits<R>(p: Parser<R>, q: Parser<R>, ctx: Context)
    requires WellBehaved(p) && p(ctx).outcome.Fail? && p(ctx).consumed > 0 && q(ctx).outcome.Okay?
    ensures FastAlter(p, q)(ctx).outcome.Fail? && Alter(p, q)(ctx).outcome.Okay?
  {
    AlterSpec(p, q, ctx);
  }

  /** `default(v)` gives `v`, without consuming, exactly when the parser fails; `maybe` gives `None`. */
  lemma DefaultSpec<R>(p: Parser<R>, v: R, ctx: Context)
    requires WellBehaved(p)
    ensures Default(p, v)(ctx) == if p(ctx).outcome.Okay? then p(ctx) else Result(ctx, Okay(v), 0)
    ensures Maybe(p)(ctx) == if p(ctx).outcome.Okay? then Result(p(ctx).ctx, Okay(Some(p(ctx).outcome.value)), p(ctx).consumed)
                             else Result(ctx, Okay(None), 0)
  {
    assert Accounts(ctx, p(ctx));
    ReachesZero(ctx);
    MapWellBehaved(p, (x: R) => Some(x));
    MapSpec(p, (x: R) => Some(x), ctx);
    AlterSpec(Map(p, (x: R) => Some(x)), OkayParser(None), ctx);
  }

  /** `absent` never consumes and returns the context it was given; it succeeds exactly where the
      parser fails, and otherwise reports the parser's value as unexpected at the starting position. */
  lemma AbsentSpec<R>(p: Parser<R>, show: R -> string, ctx: Context)
    requires WellBehaved(p)
    ensures Absent(p, show)(ctx).ctx == ctx && Absent(p, show)(ctx).consumed == 0
    ensures Absent(p, show)(ctx).outcome.Okay? <==> p(ctx).outcome.Fail?
    ensures p(ctx).outcome.Okay? ==>
      Absent(p, show)(ctx).outcome.error == UnExpected(show(p(ctx).outcome.value), FormatState(ctx.state))
  {
    assert Accounts(ctx, p(ctx));
  }

  /** `item` at the end of the input fails with `EOSError` at the current position and consumes
      nothing; otherwise it returns the next character, consumes one and moves the offset by one. */
  lemma ItemSpec(ctx: Context)
    ensures AtEnd(ctx.stream) ==> Item(ctx) == Result(ctx, Fail(EOSError(FormatState(ctx.state))), 0)
    ensures !AtEnd(ctx.stream) ==>
      Item(ctx).outcome == Okay(ctx.stream.data[ctx.stream.offset]) && Item(ctx).consumed == 1
      && Item(ctx).ctx == Advance(ctx, 1) && Item(ctx).ctx.stream.offset == ctx.stream.offset + 1
      && Item(ctx).ctx.stream.data == ctx.stream.data
    ensures !AtEnd(ctx.stream) ==>
      var c := ctx.stream.data[ctx.stream.offset];
      Item(ctx).ctx.state == if c == '\n' then TextState(None, ctx.state.line + 1, 1)
                             else TextState(None, ctx.state.line, ctx.state.column + 1)
  {
    if !AtEnd(ctx.stream) {
      assert Advance(ctx, 1) == Advance(Step(ctx), 0);
    }
  }

  /** `look` returns what `item` would, without consuming. */
  lemma LookSpec(ctx: Context)
    ensures Look(ctx).ctx == ctx && Look(ctx).consumed == 0
    ensures Look(ctx).outcome == Item(ctx).outcome
  {
  }

  /** `eos` succeeds exactly at the end of the input and never consumes. */
  lemma EosSpec(ctx: Context)
    ensures Eos(ctx).ctx == ctx && Eos(ctx).consumed == 0
    ensures Eos(ctx).outcome.Okay? <==> AtEnd(ctx.stream)
    ensures !AtEnd(ctx.stream) ==>
      Eos(ctx).outcome.error == UnExpected(CharRepr(ctx.stream.data[ctx.stream.offset]), FormatState(ctx.state))
  {
    PrimitivesWellBehaved();
    AbsentSpec(Item, CharRepr, ctx);
  }

  /** `where(fn)` keeps the parser's context and consumed count; it keeps a success whose value
      satisfies `fn` and turns any other success into `UnExpected(repr(value))` at the position
      reached. */
  lemma WhereSpec<R>(p: Parser<R>, fn: R -> bool, show: R -> string, ctx: Context)
    ensures Where(p, fn, show)(ctx).ctx == p(ctx).ctx && Where(p, fn, show)(ctx).consumed == p(ctx).consumed
    ensures Where(p, fn, show)(ctx).outcome.Okay? <==> p(ctx).outcome.Okay? && fn(p(ctx).outcome.value)
    ensures Where(p, fn, show)(ctx).outcome.Okay? ==> Where(p, fn, show)(ctx) == p(ctx)
    ensures p(ctx).outcome.Fail? ==> Where(p, fn, show)(ctx) == p(ctx)
    ensures p(ctx).outcome.Okay? && !fn(p(ctx).outcome.value) ==>
      Where(p, fn, show)(ctx).outcome.error == UnExpected(show(p(ctx).outcome.value), FormatState(p(ctx).ctx.state))
  {
  }

  /** `eq`, `neq` and `range` accept exactly the values equal to, different from, or among the
      given ones. */
  lemma FilterSpec<R>(p: Parser<R>, v: R, ranges: seq<R>, show: R -> string, ctx: Context)
    ensures Eq(p, v, show)(ctx).outcome.Okay? <==> p(ctx).outcome == Okay(v)
    ensures Neq(p, v, show)(ctx).outcome.Okay? <==> p(ctx).outcome.Okay? && p(ctx).outcome.value != v
    ensures Range(p, ranges, show)(ctx).outcome.Okay? <==> p(ctx).outcome.Okay? && p(ctx).outcome.value in ranges
  {
  }

  /** `label(name)` leaves a success alone and wraps a failure as `Expected(name, [cause])`, with the
      same context and consumed count. */
  lemma LabelSpec<R>(p: Parser<R>, name: string, ctx: Context)
    ensures p(ctx).outcome.Okay? ==> Label(p, name)(ctx) == p(ctx)
    ensures p(ctx).outcome.Fail? ==>
      Label(p, name)(ctx) == Result(p(ctx).ctx, Fail(ExpectedOf(name, Some([p(ctx).outcome.error]))), p(ctx).consumed)
  {
  }

  /** The repeating combinators need a parser that consumes when it succeeds: `okay(v)` does not. */
  lemma NonConsumingIsNotProgressive<R>(v: R)
    ensures !Progressive(OkayParser(v))
  {
    var ctx := Context(Cursor("", 0), InitialState);
    assert OkayParser(v)(ctx).outcome.Okay? && OkayParser(v)(ctx).consumed == 0;
  }

  /** `many` is `some() | okay([])`, and `some` is the parser followed by `many`. */
  lemma ManyUnfold<R>(p: Parser<R>, ctx: Context)
    requires Progressive(p)
    ensures Many(p)(ctx) == Alter(Some1(p), OkayParser([]))(ctx)
  {
    var k := (x: R) => Map(Many(p), (xs: seq<R>) => [x] + xs);
    BindSpec(p, k, ctx);
    var a := p(ctx);
    assert Accounts(ctx, a);
    if a.outcome.Okay? {
      MapSpec(Many(p), (xs: seq<R>) => [a.outcome.value] + xs, a.ctx);
    }
  }

  /** `some` succeeds exactly when the parser does, with its value first and then those of `many`;
      its values are never empty. */
  lemma SomeSpec<R>(p: Parser<R>, ctx: Context)
    requires Progressive(p)
    ensures Some1(p)(ctx).outcome.Okay? <==> p(ctx).outcome.Okay?
    ensures p(ctx).outcome.Fail? ==> Some1(p)(ctx) == Result(p(ctx).ctx, Fail(p(ctx).outcome.error), p(ctx).consumed)
    ensures p(ctx).outcome.Okay? ==>
      var m := Many(p)(p(ctx).ctx);
      Some1(p)(ctx) == Result(m.ctx, Okay([p(ctx).outcome.value] + m.outcome.value), m.consumed + p(ctx).consumed)
    ensures Some1(p)(ctx).outcome.Okay? ==> |Some1(p)(ctx).outcome.value| >= 1
  {
    var k := (x: R) => Map(Many(p), (xs: seq<R>) => [x] + xs);
    BindSpec(p, k, ctx);
    if p(ctx).outcome.Okay? {
      MapSpec(Many(p), (xs: seq<R>) => [p(ctx).outcome.value] + xs, p(ctx).ctx);
    }
  }

  /** `repeat(n)` yields exactly `n` values. */
  lemma {:induction false} RepeatLength<R>(p: Parser<R>, n: nat, ctx: Context)
    ensures Repeat(p, n)(ctx).outcome.Okay? ==> |Repeat(p, n)(ctx).outcome.value| == n
    decreases n
  {
    if n > 0 {
      var cons := (x: R) => (xs: seq<R>) => [x] + xs;
      ApplySpec(Repeat(p, n - 1), Map(p, cons), ctx);
      MapSpec(p, cons, ctx);
      if p(ctx).outcome.Okay? {
        RepeatLength(p, n - 1, p(ctx).ctx);
      }
    }
  }

  /** `repeat(n + 1)` is the parser followed by `repeat(n)`. */
  lemma RepeatStep<R>(p: Parser<R>, n: nat, ctx: Context)
    ensures p(ctx).outcome.Fail? ==> Repeat(p, n + 1)(ctx) == Result(p(ctx).ctx, Fail(p(ctx).outcome.error), p(ctx).consumed)
    ensures p(ctx).outcome.Okay? ==>
      var rest := Repeat(p, n)(p(ctx).ctx);
      Repeat(p, n + 1)(ctx) == Result(rest.ctx, if rest.outcome.Okay? then Okay([p(ctx).outcome.value] + rest.outcome.value) else Fail(rest.outcome.error), rest.consumed + p(ctx).consumed)
  {
    var cons := (x: R) => (xs: seq<R>) => [x] + xs;
    ApplySpec(Repeat(p, n), Map(p, cons), ctx);
    MapSpec(p, cons, ctx);
  }

  /** `many` returns the values of successive runs of the parser, in order: exactly what
      `repeat` with that many runs returns, and the parser fails where `many` stops. */
  lemma {:induction false} ManyIsRepeat<R>(p: Parser<R>, ctx: Context)
    requires Progressive(p)
    ensures Repeat(p, |Many(p)(ctx).outcome.value|)(ctx) == Many(p)(ctx)
    ensures p(Many(p)(ctx).ctx).outcome.Fail?
    decreases |ctx.stream.data| - ctx.stream.offset
  {
    var a := p(ctx);
    assert Accounts(ctx, a);
    if a.outcome.Okay? {
      ManyIsRepeat(p, a.ctx);
      RepeatStep(p, |Many(p)(a.ctx).outcome.value|, ctx);
    }
  }

  /** `sep_by` needs at least one item: it fails exactly when the parser fails at the start, and
      otherwise returns that value followed by those of `sep` then parser, repeated. */
  lemma SepBySpec<R, X>(p: Parser<R>, sep: Parser<X>, ctx: Context)
    requires Progressive(p) && WellBehaved(sep)
    requires Progressive(Prefix(p, sep)) // follows from the two above, by SequenceProgressive
    ensures SepBy(p, sep)(ctx).outcome.Okay? <==> p(ctx).outcome.Okay?
    ensures p(ctx).outcome.Okay? ==>
      var m := Many(Prefix(p, sep))(p(ctx).ctx);
      SepBy(p, sep)(ctx) == Result(m.ctx, Okay([p(ctx).outcome.value] + m.outcome.value), m.consumed + p(ctx).consumed)
  {
    SequenceProgressive(p, sep);
    var cons := (x: R) => (xs: seq<R>) => [x] + xs;
    ApplySpec(Many(Prefix(p, sep)), Map(p, cons), ctx);
    MapSpec(p, cons, ctx);
  }

  /** `end_by` allows zero items: it always succeeds, with no values and no input consumed when the
      first item and its separator do not parse. */
  lemma EndBySpec<R, X>(p: Parser<R>, sep: Parser<X>, ctx: Context)
    requires Progressive(p) && WellBehaved(sep)
    ensures EndBy(p, sep)(ctx).outcome.Okay?
    ensures Suffix(p, sep)(ctx).outcome.Fail? ==> EndBy(p, sep)(ctx) == Result(ctx, Okay([]), 0)
  {
    SequenceProgressive(p, sep);
    assert Accounts(ctx, Suffix(p, sep)(ctx));
  }

  /** `many_till(end)` is `many` followed by `end`, keeping the values of `many`. */
  lemma ManyTillSpec<R, X>(p: Parser<R>, end: Parser<X>, ctx: Context)
    requires Progressive(p)
    ensures var m := Many(p)(ctx);
      var e := end(m.ctx);
      ManyTill(p, end)(ctx) == Result(e.ctx, if e.outcome.Okay? then m.outcome else Fail(e.outcome.error), e.consumed + m.consumed)
  {
    SequencingSpec(Many(p), end, end, ctx);
    var k := (x: seq<R>) => Map(end, (y: X) => x);
    BindSpec(Many(p), k, ctx);
    MapSpec(end, (y: X) => Many(p)(ctx).outcome.value, Many(p)(ctx).ctx);
  }

  /** `ltrim(ignore)` runs the parser after the longest run of `ignore`. */
  lemma LTrimSpec<R, X>(p: Parser<R>, ignore: Parser<X>, ctx: Context)
    requires Progressive(ignore)
    ensures var m := Many(ignore)(ctx);
      var r := p(m.ctx);
      LTrim(p, ignore)(ctx) == Result(r.ctx, r.outcome, r.consumed + m.consumed)
  {
    SequencingSpec(p, Many(ignore), Many(ignore), ctx);
    BindSpec(Many(ignore), (y: seq<X>) => p, ctx);
  }

  /** `rtrim(ignore)` passes a failure of the parser on unchanged; after a success it skips the
      longest run of `ignore` and keeps the parser's value. */
  lemma RTrimSpec<R, X>(p: Parser<R>, ignore: Parser<X>, ctx: Context)
    requires Progressive(ignore)
    ensures p(ctx).outcome.Fail? ==> RTrim(p, ignore)(ctx) == p(ctx)
    ensures p(ctx).outcome.Okay? ==>
      var r := p(ctx);
      var m := Many(ignore)(r.ctx);
      RTrim(p, ignore)(ctx) == Result(m.ctx, r.outcome, r.consumed + m.consumed)
  {
    SequencingSpec(p, Many(ignore), Many(ignore), ctx);
    BindSpec(p, (x: R) => Map(Many(ignore), (y: seq<X>) => x), ctx);
    if p(ctx).outcome.Okay? {
      var r := p(ctx);
      MapSpec(Many(ignore), (y: seq<X>) => r.outcome.value, r.ctx);
      ManyWellBehaved(ignore, ignore);
    }
  }

  /** `trim(ignore)` skips the longest run of `ignore`, runs the parser, and after a success skips
      the longest run of `ignore` again; a failure of the parser is final. */
  lemma TrimSpec<R, X>(p: Parser<R>, ignore: Parser<X>, ctx: Context)
    requires Progressive(ignore)
    ensures var m1 := Many(ignore)(ctx);
      var r := p(m1.ctx);
      r.outcome.Fail? ==> Trim(p, ignore)(ctx) == Result(r.ctx, r.outcome, r.consumed + m1.consumed)
    ensures var m1 := Many(ignore)(ctx);
      var r := p(m1.ctx);
      var m2 := Many(ignore)(r.ctx);
      r.outcome.Okay? ==> Trim(p, ignore)(ctx) == Result(m2.ctx, r.outcome, r.consumed + m1.consumed + m2.consumed)
  {
    LTrimSpec(p, ignore, ctx);
    RTrimSpec(LTrim(p, ignore), ignore, ctx);
  }

  /** `pair` runs the first parser, then the second from where the first stopped, pairs the two
      values and adds up the consumed counts. */
  lemma PairSpec<R, S>(p: Parser<R>, q: Parser<S>, ctx: Context)
    ensures p(ctx).outcome.Fail? ==> Pair(p, q)(ctx) == Result(p(ctx).ctx, Fail(p(ctx).outcome.error), p(ctx).consumed)
    ensures p(ctx).outcome.Okay? ==>
      var a := p(ctx);
      var b := q(a.ctx);
      Pair(p, q)(ctx) == Result(b.ctx, if b.outcome.Okay? then Okay((a.outcome.value, b.outcome.value)) else Fail(b.outcome.error), b.consumed + a.consumed)
  {
    SequencingSpec(p, q, q, ctx);
    BindSpec(p, (x: R) => Map(q, (y: S) => (x, y)), ctx);
    if p(ctx).outcome.Okay? {
      MapSpec(q, (y: S) => (p(ctx).outcome.value, y), p(ctx).ctx);
    }
  }

  /** The operator-operand pairs that follow the first operand of a chain. */
  function OperatorRuns<R>(p: Parser<R>, op: Parser<R -> R -> R>): Parser<seq<(R -> R -> R, R)>>
    requires Progressive(p) && WellBehaved(op)
  {
    PairWellBehaved(op, p);
    Many(Pair(op, p))
  }

  /** Combines the operands from the left: `((x op1 y1) op2 y2) ...`. */
  function FoldL<R>(x: R, ps: seq<(R -> R -> R, R)>): R
    decreases |ps|
  {
    if ps == [] then x else FoldL(ps[0].0(x)(ps[0].1), ps[1..])
  }

  /** Combines the operands from the right: `x op1 (y1 op2 (y2 ...))`. */
  function FoldR<R>(x: R, ps: seq<(R -> R -> R, R)>): R
    decreases |ps|
  {
    if ps == [] then x else ps[0].0(x)(FoldR(ps[0].1, ps[1..]))
  }

  /** `rest(x)` is `op.bind(f => p.bind(y => rest(f(x)(y)))) | okay(x)`. */
  lemma ChainlRestUnfold<R>(p: Parser<R>, op: Parser<R -> R -> R>, x: R, ctx: Context)
    requires Progressive(p) && WellBehaved(op)
    ensures ChainlRest(p, op, x)(ctx) ==
      Alter(Bind(op, (f: R -> R -> R) => Bind(p, (y: R) => ChainlRest(p, op, f(x)(y)))), OkayParser(x))(ctx)
  {
    var a := op(ctx);
    if a.outcome.Okay? {
      if p(a.ctx).outcome.Okay? {
        ChainlRestBothOkay(p, op, x, ctx);
      } else {
        ChainlRestOperandFails(p, op, x, ctx);
      }
    } else {
      ChainlRestOperatorFails(p, op, x, ctx);
    }
  }

  /** The case of `ChainlRestUnfold` where the operator and the next operand both succeed. */
  lemma ChainlRestBothOkay<R>(p: Parser<R>, op: Parser<R -> R -> R>, x: R, ctx: Context)
    requires Progressive(p) && WellBehaved(op)
    requires op(ctx).outcome.Okay? && p(op(ctx).ctx).outcome.Okay?
    ensures ChainlRest(p, op, x)(ctx) ==
      Alter(Bind(op, (f: R -> R -> R) => Bind(p, (y: R) => ChainlRest(p, op, f(x)(y)))), OkayParser(x))(ctx)
  {
    var k := (f: R -> R -> R) => Bind(p, (y: R) => ChainlRest(p, op, f(x)(y)));
    var a := op(ctx);
    var g := (y: R) => ChainlRest(p, op, a.outcome.value(x)(y));
    assert k(a.outcome.value) == Bind(p, g);
    BindTwiceOkay(op, k, p, g, ctx);
    ChainlRunOkay(p, op, x, ctx);
  }

  /** Two binds in a row that both succeed add up what they consumed. */
  lemma BindTwiceOkay<R, S, T>(op: Parser<S>, k: S -> Parser<T>, p: Parser<R>, g: R -> Parser<T>, ctx: Context)
    requires op(ctx).outcome.Okay? && k(op(ctx).outcome.value) == Bind(p, g)
    requires p(op(ctx).ctx).outcome.Okay?
    ensures var a := op(ctx); var b := p(a.ctx); var c := g(b.outcome.value)(b.ctx);
      Bind(op, k)(ctx) == Result(c.ctx, c.outcome, c.consumed + (b.consumed + a.consumed))
  {
    BindSpec(op, k, ctx);
    BindSpec(p, g, op(ctx).ctx);
  }

  /** One round of `rest(x)` once the operator and the operand have both succeeded. */
  lemma ChainlRunOkay<R>(p: Parser<R>, op: Parser<R -> R -> R>, x: R, ctx: Context)
    requires Progressive(p) && WellBehaved(op)
    requires op(ctx).outcome.Okay? && p(op(ctx).ctx).outcome.Okay?
    ensures var a := op(ctx); var b := p(a.ctx);
      var c := ChainlRest(p, op, a.outcome.value(x)(b.outcome.value))(b.ctx);
      ChainlRest(p, op, x)(ctx) == Result(c.ctx, c.outcome, c.consumed + (b.consumed + a.consumed))
      && c.outcome.Okay?
  {
  }

  /** The case of `ChainlRestUnfold` where the operator succeeds and the operand after it fails. */
  lemma ChainlRestOperandFails<R>(p: Parser<R>, op: Parser<R -> R -> R>, x: R, ctx: Context)
    requires Progressive(p) && WellBehaved(op)
    requires op(ctx).outcome.Okay? && p(op(ctx).ctx).outcome.Fail?
    ensures ChainlRest(p, op, x)(ctx) ==
      Alter(Bind(op, (f: R -> R -> R) => Bind(p, (y: R) => ChainlRest(p, op, f(x)(y)))), OkayParser(x))(ctx)
  {
    var k := (f: R -> R -> R) => Bind(p, (y: R) => ChainlRest(p, op, f(x)(y)));
    var inner := Bind(op, k);
    var a := op(ctx);
    var g := (y: R) => ChainlRest(p, op, a.outcome.value(x)(y));
    var b := p(a.ctx);
    var r1: Result<R> := Result(b.ctx, Fail(b.outcome.error), b.consumed + a.consumed);
    assert k(a.outcome.value) == Bind(p, g);
    assert Bind(p, g)(a.ctx) == Result(b.ctx, Fail(b.outcome.error), b.consumed) by {
      BindSpec(p, g, a.ctx);
    }
    assert inner(ctx) == r1 by {
      BindSpec(op, k, ctx);
    }
    assert OkayParser(x)(Rewind(ctx, r1)) == Result(Rewind(ctx, r1), Okay(x), 0) by {
      OkayFailSpec(x, b.outcome.error, Rewind(ctx, r1));
    }
    assert ChainlRest(p, op, x)(ctx) == Result(Rewind(ctx, r1), Okay(x), 0);
  }

  /** The case of `ChainlRestUnfold` where the operator fails. */
  lemma ChainlRestOperatorFails<R>(p: Parser<R>, op: Parser<R -> R -> R>, x: R, ctx: Context)
    requires Progressive(p) && WellBehaved(op)
    requires op(ctx).outcome.Fail?
    ensures ChainlRest(p, op, x)(ctx) ==
      Alter(Bind(op, (f: R -> R -> R) => Bind(p, (y: R) => ChainlRest(p, op, f(x)(y)))), OkayParser(x))(ctx)
  {
    var k := (f: R -> R -> R) => Bind(p, (y: R) => ChainlRest(p, op, f(x)(y)));
    var inner := Bind(op, k);
    var a := op(ctx);
    var r1: Result<R> := Result(a.ctx, Fail(a.outcome.error), a.consumed);
    assert inner(ctx) == r1 by {
      BindSpec(op, k, ctx);
    }
    assert OkayParser(x)(Rewind(ctx, r1)) == Result(Rewind(ctx, r1), Okay(x), 0) by {
      OkayFailSpec(x, a.outcome.error, Rewind(ctx, r1));
    }
    assert ChainlRest(p, op, x)(ctx) == Result(Rewind(ctx, r1), Okay(x), 0);
  }



  /** `scan()` is `p.bind(x => op.bind(f => scan().map(y => f(x)(y))) | okay(x))`. */
  lemma ChainrUnfold<R>(p: Parser<R>, op: Parser<R -> R -> R>, ctx: Context)
    requires Progressive(p) && WellBehaved(op)
    ensures Chainr1(p, op)(ctx) ==
      Bind(p, (x: R) => Alter(Bind(op, (f: R -> R -> R) => Map(Chainr1(p, op), (y: R) => f(x)(y))), OkayParser(x)))(ctx)
  {
    var k := (x: R) => Alter(Bind(op, (f: R -> R -> R) => Map(Chainr1(p, op), (y: R) => f(x)(y))), OkayParser(x));
    BindSpec(p, k, ctx);
    var a := p(ctx);
    if a.outcome.Okay? {
      var x := a.outcome.value;
      var g := (f: R -> R -> R) => Map(Chainr1(p, op), (y: R) => f(x)(y));
      BindSpec(op, g, a.ctx);
      var b := op(a.ctx);
      if b.outcome.Okay? {
        MapSpec(Chainr1(p, op), (y: R) => b.outcome.value(x)(y), b.ctx);
      }
    }
  }

  /** After the first operand, `chainl1` reads operator-operand pairs as far as they go and folds
      them from the left; a trailing operator without an operand is given back. */
  lemma {:induction false} ChainlRunIsFold<R>(p: Parser<R>, op: Parser<R -> R -> R>, x: R, ctx: Context)
    requires Progressive(p) && WellBehaved(op)
    ensures ChainlRun(p, op, x, ctx) == Map(OperatorRuns(p, op), (ps: seq<(R -> R -> R, R)>) => FoldL(x, ps))(ctx)
    decreases |ctx.stream.data| - ctx.stream.offset
  {
    PairWellBehaved(op, p);
    var pr := Pair(op, p)(ctx);
    PairSpec(op, p, ctx);
    assert Accounts(ctx, pr);
    var fold := (ps: seq<(R -> R -> R, R)>) => FoldL(x, ps);
    MapSpec(OperatorRuns(p, op), fold, ctx);
    assert OperatorRuns(p, op)(ctx) == ManyRun(Pair(op, p), ctx);
    if pr.outcome.Okay? {
      var a := op(ctx);
      var b := p(a.ctx);
      assert Accounts(ctx, a) && Accounts(a.ctx, b);
      var x' := a.outcome.value(x)(b.outcome.value);
      ChainlRunIsFold(p, op, x', b.ctx);
      var m := ManyRun(Pair(op, p), b.ctx);
      MapSpec(OperatorRuns(p, op), (ps: seq<(R -> R -> R, R)>) => FoldL(x', ps), b.ctx);
      var all := [pr.outcome.value] + m.outcome.value;
      assert all[0] == (a.outcome.value, b.outcome.value) && all[1..] == m.outcome.value;
      assert FoldL(x, all) == FoldL(x', m.outcome.value);
    }
  }

  /** `chainl1` folds its operands from the left: `"1+2+3"` reads as `(1+2)+3`. */
  lemma Chainl1IsFold<R>(p: Parser<R>, op: Parser<R -> R -> R>, ctx: Context)
    requires Progressive(p) && WellBehaved(op)
    ensures Chainl1(p, op)(ctx) ==
      Map(Pair(p, OperatorRuns(p, op)), (t: (R, seq<(R -> R -> R, R)>)) => FoldL(t.0, t.1))(ctx)
  {
    var fold := (t: (R, seq<(R -> R -> R, R)>)) => FoldL(t.0, t.1);
    BindSpec(p, (x: R) => ChainlRest(p, op, x), ctx);
    PairSpec(p, OperatorRuns(p, op), ctx);
    MapSpec(Pair(p, OperatorRuns(p, op)), fold, ctx);
    if p(ctx).outcome.Okay? {
      var x := p(ctx).outcome.value;
      ChainlRunIsFold(p, op, x, p(ctx).ctx);
      MapSpec(OperatorRuns(p, op), (ps: seq<(R -> R -> R, R)>) => FoldL(x, ps), p(ctx).ctx);
    }
  }

  /** `chainr1` folds its operands from the right: `"2^3^2"` reads as `2^(3^2)`; a trailing
      operator without an operand is given back. */
  lemma {:induction false} Chainr1IsFold<R>(p: Parser<R>, op: Parser<R -> R -> R>, ctx: Context)
    requires Progressive(p) && WellBehaved(op)
    ensures Chainr1(p, op)(ctx) ==
      Map(Pair(p, OperatorRuns(p, op)), (t: (R, seq<(R -> R -> R, R)>)) => FoldR(t.0, t.1))(ctx)
    decreases |ctx.stream.data| - ctx.stream.offset
  {
    PairWellBehaved(op, p);
    var fold := (t: (R, seq<(R -> R -> R, R)>)) => FoldR(t.0, t.1);
    PairSpec(p, OperatorRuns(p, op), ctx);
    MapSpec(Pair(p, OperatorRuns(p, op)), fold, ctx);
    var a := p(ctx);
    assert Accounts(ctx, a);
    if a.outcome.Okay? {
      var x := a.outcome.value;
      var b := op(a.ctx);
      assert Accounts(a.ctx, b);
      PairSpec(op, p, a.ctx);
      var pr := Pair(op, p)(a.ctx);
      assert Accounts(a.ctx, pr);
      assert OperatorRuns(p, op)(a.ctx) == ManyRun(Pair(op, p), a.ctx);
      if b.outcome.Okay? {
        var d := p(b.ctx);
        assert Accounts(b.ctx, d);
        if d.outcome.Okay? {
          Chainr1IsFold(p, op, b.ctx);
          PairSpec(p, OperatorRuns(p, op), b.ctx);
          MapSpec(Pair(p, OperatorRuns(p, op)), fold, b.ctx);
          var m := ManyRun(Pair(op, p), d.ctx);
          assert OperatorRuns(p, op)(d.ctx) == m;
          var all := [pr.outcome.value] + m.outcome.value;
          assert all[0] == (b.outcome.value, d.outcome.value) && all[1..] == m.outcome.value;
          assert FoldR(x, all) == b.outcome.value(x)(FoldR(d.outcome.value, m.outcome.value));
        }
      }
    }
  }

  /** `chainl(op, v)` and `chainr(op, v)` give `v`, consuming nothing, when no operand parses, and
      are `chainl1`/`chainr1` otherwise. */
  lemma ChainDefaultSpec<R>(p: Parser<R>, op: Parser<R -> R -> R>, initial: R, ctx: Context)
    requires Progressive(p) && WellBehaved(op)
    ensures p(ctx).outcome.Fail? ==>
      Chainl(p, op, initial)(ctx) == Result(ctx, Okay(initial), 0) && Chainr(p, op, initial)(ctx) == Result(ctx, Okay(initial), 0)
    ensures p(ctx).outcome.Okay? ==>
      Chainl(p, op, initial)(ctx) == Chainl1(p, op)(ctx) && Chainr(p, op, initial)(ctx) == Chainr1(p, op)(ctx)
  {
    ChainWellBehaved(p, op, initial);
    BindSpec(p, (x: R) => ChainlRest(p, op, x), ctx);
    AlterSpec(Chainl1(p, op), OkayParser(initial), ctx);
    AlterSpec(Chainr1(p, op), OkayParser(initial), ctx);
  }

  /** The input at the context's offset starts with `values`. */
  predicate StartsWith(ctx: Context, values: seq<char>)
  {
    values == []
    || (0 <= ctx.stream.offset && ctx.stream.offset + |values| <= |ctx.stream.data|
        && ctx.stream.data[ctx.stream.offset..ctx.stream.offset + |values|] == values)
  }

  /** Extending the expected text by one character. */
  lemma StartsWithSnoc(ctx: Context, init: seq<char>, last: char)
    ensures StartsWith(ctx, init + [last]) ==> StartsWith(ctx, init)
    ensures StartsWith(ctx, init) ==>
      (StartsWith(ctx, init + [last]) <==>
        0 <= ctx.stream.offset + |init| < |ctx.stream.data| && ctx.stream.data[ctx.stream.offset + |init|] == last)
  {
    var d := ctx.stream.data;
    var off := ctx.stream.offset;
    if 0 <= off && off + |init| < |d| {
      assert d[off..off + |init| + 1] == d[off..off + |init|] + [d[off + |init|]];
      var xs := d[off..off + |init|];
      if xs + [d[off + |init|]] == init + [last] {
        assert xs == (xs + [d[off + |init|]])[..|xs|];
        assert d[off + |init|] == (xs + [d[off + |init|]])[|xs|];
      }
    }
  }

  /** One step of `tokens`: the prefix without the last value, then `item.eq(last)`. */
  lemma TokensStep(values: seq<char>, ctx: Context)
    requires values != []
    ensures var a := Tokens(values[..|values| - 1])(ctx);
      var r := Tokens(values)(ctx);
      (r.outcome.Okay? <==> a.outcome.Okay? && Item(a.ctx).outcome == Okay(values[|values| - 1]))
      && (r.outcome.Okay? ==> r.outcome.value == a.outcome.value + [values[|values| - 1]] && r.consumed == 1 + a.consumed)
  {
    var init := values[..|values| - 1];
    var last := values[|values| - 1];
    var eq := Eq(Item, last, CharRepr);
    PairSpec(Tokens(init), eq, ctx);
    MapSpec(Pair(Tokens(init), eq), (t: (seq<char>, char)) => t.0 + [t.1], ctx);
    var a := Tokens(init)(ctx);
    if a.outcome.Okay? {
      ItemSpec(a.ctx);
      WhereSpec(Item, (x: char) => x == last, CharRepr, a.ctx);
    }
  }

  /** `parse(tokens(values), text)` gives `values` exactly when `text` starts with them; the rest of
      the text need not be consumed. */
  lemma ParseTokens(values: seq<char>, text: string)
    ensures ParseText(Tokens(values), text).Okay? <==> values <= text
    ensures values <= text ==> ParseText(Tokens(values), text) == Okay(values)
  {
    TokensSpec(values, Context(Cursor(text, 0), InitialState));
  }

  /** `parse` reports a failure as the parser's error: `item` on an empty text fails at "1:0". */
  lemma ParseEmptyText()
    ensures ParseText(Item, "") == Fail(EOSError("1:0"))
  {
    var ctx := Context(Cursor("", 0), InitialState);
    ItemSpec(ctx);
    assert IntToString(1) == "1" && IntToString(0) == "0";
  }

  /** What one step of `tokens` consumes, whether it succeeds or not. */
  lemma TokensStepConsumed(values: seq<char>, ctx: Context)
    requires values != []
    ensures var a := Tokens(values[..|values| - 1])(ctx);
      Tokens(values)(ctx).consumed == (if a.outcome.Okay? then Item(a.ctx).consumed + a.consumed else a.consumed)
  {
    var init := values[..|values| - 1];
    var last := values[|values| - 1];
    var eq := Eq(Item, last, CharRepr);
    PairSpec(Tokens(init), eq, ctx);
    MapSpec(Pair(Tokens(init), eq), (t: (seq<char>, char)) => t.0 + [t.1], ctx);
    var a := Tokens(init)(ctx);
    if a.outcome.Okay? {
      ItemSpec(a.ctx);
      WhereSpec(Item, (x: char) => x == last, CharRepr, a.ctx);
    }
  }

  /** Where the input agrees with `init`, reading one more character agrees with `init + [last]`
      exactly when that character is `last`. */
  lemma NextTokenMatches(ctx: Context, init: seq<char>, last: char, c: Context)
    requires StartsWith(ctx, init)
    requires c.stream == Cursor(ctx.stream.data, ctx.stream.offset + |init|)
    ensures Item(c).outcome == Okay(last) <==> StartsWith(ctx, init + [last])
  {
    var next := 0 <= ctx.stream.offset + |init| < |ctx.stream.data| && ctx.stream.data[ctx.stream.offset + |init|] == last;
    assert Item(c).outcome == Okay(last) <==> next by {
      ItemIs(c, last);
    }
    assert StartsWith(ctx, init + [last]) <==> next by {
      StartsWithSnoc(ctx, init, last);
    }
  }

  /** `item` reads `v` exactly where `v` is the next character. */
  lemma ItemIs(c: Context, v: char)
    ensures Item(c).outcome == Okay(v) <==> 0 <= c.stream.offset < |c.stream.data| && c.stream.data[c.stream.offset] == v
  {
    ItemSpec(c);
  }

  /** `tokens(values)` succeeds exactly when the input starts with `values`; it then returns them
      and consumes one character for each. */
  lemma {:induction false} TokensSpec(values: seq<char>, ctx: Context)
    ensures Tokens(values)(ctx).outcome.Okay? <==> StartsWith(ctx, values)
    ensures Tokens(values)(ctx).outcome.Okay? ==>
      Tokens(values)(ctx).outcome.value == values && Tokens(values)(ctx).consumed == |values|
    decreases |values|
  {
    if values != [] {
      var init := values[..|values| - 1];
      var last := values[|values| - 1];
      assert values == init + [last];
      TokensSpec(init, ctx);
      TokensWellBehaved(init);
      TokensStep(values, ctx);
      var a := Tokens(init)(ctx);
      if a.outcome.Okay? {
        assert Accounts(ctx, a);
        NextTokenMatches(ctx, init, last, a.ctx);
      } else {
        StartsWithSnoc(ctx, init, last);
      }
    }
  }

  /** How many leading values of `values` the input at the context's offset agrees with. */
  function Agreement(ctx: Context, values: seq<char>): (k: nat)
    ensures k <= |values| && StartsWith(ctx, values[..k])
    ensures k == |values| <==> StartsWith(ctx, values)
    decreases |values|
  {
    if values == [] || StartsWith(ctx, values) then
      assert values[..|values|] == values;
      |values|
    else
      var k := Agreement(ctx, values[..|values| - 1]);
      assert values[..|values| - 1][..k] == values[..k];
      k
  }

  /** `tokens(values)` fails just after the first character that differs from `values`, having
      consumed it, or where the input ends. */
  lemma {:induction false} TokensFailure(values: seq<char>, ctx: Context)
    ensures Tokens(values)(ctx).outcome.Fail? ==>
      var k := Agreement(ctx, values);
      k < |values| && Tokens(values)(ctx).consumed == k + (if 0 <= ctx.stream.offset + k < |ctx.stream.data| then 1 else 0)
    decreases |values|
  {
    TokensSpec(values, ctx);
    if values != [] && Tokens(values)(ctx).outcome.Fail? {
      var init := values[..|values| - 1];
      TokensFailure(init, ctx);
      if Tokens(init)(ctx).outcome.Okay? {
        TokensFailsAtLast(values, ctx);
      } else {
        TokensFailsEarlier(values, ctx);
      }
    }
  }

  /** The case of `TokensFailure` where every character but the last one agreed. */
  lemma TokensFailsAtLast(values: seq<char>, ctx: Context)
    requires values != []
    requires Tokens(values[..|values| - 1])(ctx).outcome.Okay? && Tokens(values)(ctx).outcome.Fail?
    ensures var k := |values| - 1;
      Agreement(ctx, values) == k
      && Tokens(values)(ctx).consumed == k + (if 0 <= ctx.stream.offset + k < |ctx.stream.data| then 1 else 0)
  {
    var init := values[..|values| - 1];
    var a := Tokens(init)(ctx);
    assert StartsWith(ctx, init) && !StartsWith(ctx, values) by {
      TokensSpec(init, ctx);
      TokensSpec(values, ctx);
    }
    assert Agreement(ctx, values) == Agreement(ctx, init);
    assert a.ctx.stream == Cursor(ctx.stream.data, ctx.stream.offset + |init|) && a.consumed == |init| by {
      TokensSpec(init, ctx);
      TokensWellBehaved(init);
      assert Accounts(ctx, a);
    }
    assert Tokens(values)(ctx).consumed == Item(a.ctx).consumed + a.consumed by {
      TokensStepConsumed(values, ctx);
    }
    ItemSpec(a.ctx);
  }

  /** The case of `TokensFailure` where the input already disagreed before the last character. */
  lemma TokensFailsEarlier(values: seq<char>, ctx: Context)
    requires values != []
    requires var init := values[..|values| - 1];
      Tokens(init)(ctx).outcome.Fail?
      && var k := Agreement(ctx, init);
      k < |init| && Tokens(init)(ctx).consumed == k + (if 0 <= ctx.stream.offset + k < |ctx.stream.data| then 1 else 0)
    ensures var k := Agreement(ctx, values);
      k < |values| && Tokens(values)(ctx).consumed == k + (if 0 <= ctx.stream.offset + k < |ctx.stream.data| then 1 else 0)
  {
    var init := values[..|values| - 1];
    assert !StartsWith(ctx, init) by {
      TokensSpec(init, ctx);
    }
    EarlierAgreement(ctx, values);
    TokensEarlierConsumed(values, ctx);
  }

  /** Where the input disagrees with all but the last value, it agrees with `values` exactly as far. */
  lemma EarlierAgreement(ctx: Context, values: seq<char>)
    requires values != [] && !StartsWith(ctx, values[..|values| - 1])
    ensures Agreement(ctx, values) == Agreement(ctx, values[..|values| - 1])
  {
    var init, last := values[..|values| - 1], values[|values| - 1];
    assert values == init + [last];
    StartsWithSnoc(ctx, init, last);
    AgreementShortens(ctx, values);
  }

  /** Where `tokens` fails before the last value, the last step consumes nothing more. */
  lemma TokensEarlierConsumed(values: seq<char>, ctx: Context)
    requires values != [] && Tokens(values[..|values| - 1])(ctx).outcome.Fail?
    ensures Tokens(values)(ctx).consumed == Tokens(values[..|values| - 1])(ctx).consumed
  {
    TokensStepConsumed(values, ctx);
  }

  /** Where the input disagrees with `values`, it agrees with `values` as far as with all but its last value. */
  lemma AgreementShortens(ctx: Context, values: seq<char>)
    requires values != [] && !StartsWith(ctx, values)
    ensures Agreement(ctx, values) == Agreement(ctx, values[..|values| - 1])
  {
  }
}
