/**
 * The parser core (parsec/core.py): results, parsers as functions from a context to a result,
 * the primitives `item` and `look`, and every combinator.
 *
 * A result records how many characters the parser consumed. `Accounts` states that the count is
 * honest: the context a parser returns is the one it was given advanced by exactly that many
 * characters. `WellBehaved` parsers account for every context, and `Progressive` ones also consume
 * something whenever they succeed. Each combinator below preserves these properties (the lemmas after
 * it), and the repeating combinators (`many`, `chainl1`, `chainr1` and their relatives) are only
 * defined for progressive element parsers: the source recurses without end on a parser that
 * succeeds without consuming.
 */
module Core {
  import opened Wrappers
  import opened Errors
  import opened TextContext
  import opened Contexts

  datatype Outcome<+R> = Okay(value: R) | Fail(error: ParseErr)

  datatype Result<+R> = Result(ctx: Context, outcome: Outcome<R>, consumed: int)

  type Parser<R> = Context -> Result<R>

  /** The result's context is `ctx` advanced by the reported number of consumed characters. */
  predicate Accounts<R>(ctx: Context, r: Result<R>)
  {
    Reaches(ctx, r.ctx, r.consumed)
  }

  ghost predicate WellBehaved<R>(p: Parser<R>)
  {
    forall ctx :: Accounts(ctx, p(ctx))
  }

  ghost predicate Progressive<R>(p: Parser<R>)
  {
    WellBehaved(p) && forall ctx :: p(ctx).outcome.Okay? ==> 0 < p(ctx).consumed
  }

  /** A failure at `r`'s context with `r`'s consumed count: how `bind` and `map` pass a failure on. */
  function FailLike<R, S>(r: Result<R>): (f: Result<S>)
    requires r.outcome.Fail?
  {
    Result(r.ctx, Fail(r.outcome.error), r.consumed)
  }

  /** The context an alternative resumes from after `r`, run at `ctx`, has failed: moved back by
      what `r` consumed and with `ctx`'s state, or `r`'s own context when it consumed nothing. */
  function Rewind<R>(ctx: Context, r: Result<R>): (c: Context)
    ensures Accounts(ctx, r) ==> c == ctx
  {
    if r.consumed != 0 then Backtrack(r.ctx, r.consumed, ctx.state) else r.ctx
  }

  /** `AlterError([e1, e2]).join()`. */
  function Both(e1: ParseErr, e2: ParseErr): (e: ParseErr)
    ensures e.AlterError? && e.children == Spread(e1) + Spread(e2)
  {
    assert Flatten([e1, e2]) == Spread(e1) + Flatten([e2]);
    assert Flatten([e2]) == Spread(e2) + Flatten([]);
    Join(AlterError([e1, e2]))
  }

  /** `Parser.okay(v)`. */
  function OkayParser<R>(v: R): Parser<R>
  {
    ctx => Result(ctx, Okay(v), 0)
  }

  /** `Parser.fail(e)`. */
  function FailParser<R>(e: ParseErr): Parser<R>
  {
    ctx => Result(ctx, Fail(e), 0)
  }

  /** `p.bind(fn)`. */
  function Bind<R, S>(p: Parser<R>, fn: R -> Parser<S>): Parser<S>
  {
    ctx =>
      var r1 := p(ctx);
      if r1.outcome.Fail? then FailLike(r1)
      else
        var r2 := fn(r1.outcome.value)(r1.ctx);
        Result(r2.ctx, r2.outcome, r2.consumed + r1.consumed)
  }

  /** `p.map(fn)`. */
  function Map<R, S>(p: Parser<R>, fn: R -> S): Parser<S>
  {
    ctx =>
      var r := p(ctx);
      if r.outcome.Fail? then FailLike(r) else Result(r.ctx, Okay(fn(r.outcome.value)), r.consumed)
  }

  /** `p.apply(pfn)`: `pfn.bind(p.map)`. */
  function Apply<R, S>(p: Parser<R>, pfn: Parser<R -> S>): Parser<S>
  {
    Bind(pfn, g => Map(p, g))
  }

  /** `p.alter(q)`, and `p | q` through `otherwise`. */
  function Alter<R>(p: Parser<R>, q: Parser<R>): Parser<R>
  {
    ctx =>
      var r1 := p(ctx);
      if r1.outcome.Okay? then r1
      else
        var r2 := q(Rewind(ctx, r1));
        if r2.outcome.Okay? then r2
        else Result(r2.ctx, Fail(Both(r1.outcome.error, r2.outcome.error)), r2.consumed)
  }

  /** `p.fast_alter(q)`, and `p / q` through `fast_otherwise`. */
  function FastAlter<R>(p: Parser<R>, q: Parser<R>): Parser<R>
  {
    ctx =>
      var r1 := p(ctx);
      if r1.consumed > 0 || r1.outcome.Okay? then r1
      else
        var r2 := q(r1.ctx);
        if r2.outcome.Okay? then r2
        else Result(r2.ctx, Fail(Both(r1.outcome.error, r2.outcome.error)), r2.consumed)
  }

  /** `p.pair(q)`: `q.apply(p.map(lambda x: lambda y: (x, y)))`. */
  function Pair<R, S>(p: Parser<R>, q: Parser<S>): Parser<(R, S)>
  {
    Apply(q, Map(p, (x: R) => (y: S) => (x, y)))
  }

  /** `p.default(v)`: `p | okay(v)`. */
  function Default<R>(p: Parser<R>, v: R): Parser<R>
  {
    Alter(p, OkayParser(v))
  }

  /** `p.maybe()`: `p.default(None)`; the value is wrapped in `Some` where Python returns it bare. */
  function Maybe<R>(p: Parser<R>): Parser<Option<R>>
  {
    Default(Map(p, (x: R) => Some(x)), None)
  }

  /** `p.prefix(pre)`: `p.apply(pre.map(lambda x: lambda y: y))`. */
  function Prefix<R, X>(p: Parser<R>, pre: Parser<X>): Parser<R>
  {
    Apply(p, Map(pre, (x: X) => (y: R) => y))
  }

  /** `p.suffix(suf)`: `suf.apply(p.map(lambda x: lambda y: x))`. */
  function Suffix<R, X>(p: Parser<R>, suf: Parser<X>): Parser<R>
  {
    Apply(suf, Map(p, (x: R) => (y: X) => x))
  }

  /** `p.between(pre, suf)`: `p.prefix(pre).suffix(suf)`. */
  function Between<R, X, Y>(p: Parser<R>, pre: Parser<X>, suf: Parser<Y>): Parser<R>
  {
    Suffix(Prefix(p, pre), suf)
  }

  /** `p.absent()`, and `~p`: succeeds with no value where `p` fails, fails where `p` succeeds, and
      never consumes. `show` is Python's `repr` on `p`'s values. */
  function Absent<R>(p: Parser<R>, show: R -> string): Parser<()>
  {
    ctx =>
      var r := p(ctx);
      var c := Rewind(ctx, r);
      if r.outcome.Okay? then Result(c, Fail(UnExpected(show(r.outcome.value), FormatState(c.state))), 0)
      else Result(c, Okay(()), 0)
  }

  /** `p.where(fn)`. */
  function Where<R>(p: Parser<R>, fn: R -> bool, show: R -> string): Parser<R>
  {
    ctx =>
      var r := p(ctx);
      if r.outcome.Fail? || fn(r.outcome.value) then r
      else Result(r.ctx, Fail(UnExpected(show(r.outcome.value), FormatState(r.ctx.state))), r.consumed)
  }

  /** `p.eq(v)`. */
  function Eq<R(==)>(p: Parser<R>, v: R, show: R -> string): Parser<R>
  {
    Where(p, (x: R) => x == v, show)
  }

  /** `p.neq(v)`. */
  function Neq<R(==)>(p: Parser<R>, v: R, show: R -> string): Parser<R>
  {
    Where(p, (x: R) => x != v, show)
  }

  /** `p.range(ranges)`. */
  function Range<R(==)>(p: Parser<R>, ranges: seq<R>, show: R -> string): Parser<R>
  {
    Where(p, (x: R) => x in ranges, show)
  }

  /** `p.label(expected)`. */
  function Label<R>(p: Parser<R>, expected: string): Parser<R>
  {
    ctx =>
      var r := p(ctx);
      if r.outcome.Okay? then r
      else Result(r.ctx, Fail(ExpectedOf(expected, Some([r.outcome.error]))), r.consumed)
  }

  /** `p.repeat(n)`. */
  function Repeat<R>(p: Parser<R>, n: nat): Parser<seq<R>>
    decreases n
  {
    if n == 0 then OkayParser([])
    else Apply(Repeat(p, n - 1), Map(p, (x: R) => (xs: seq<R>) => [x] + xs))
  }

  /** `item`: reads the next character from the stream, which moves it, and updates the position. */
  const Item: Parser<char> :=
    (ctx: Context) =>
      if AtEnd(ctx.stream) then Result(ctx, Fail(EOSError(FormatState(ctx.state))), 0)
      else
        var v := ctx.stream.data[ctx.stream.offset];
        Result(Update(Context(MoveBy(ctx.stream, 1), ctx.state), [v]), Okay(v), 1)

  /** `look`: peeks at the next character. */
  const Look: Parser<char> :=
    (ctx: Context) =>
      if AtEnd(ctx.stream) then Result(ctx, Fail(EOSError(FormatState(ctx.state))), 0)
      else Result(ctx, Okay(ctx.stream.data[ctx.stream.offset]), 0)

  /** `eos`: `item.absent()`. */
  const Eos: Parser<()> := Absent(Item, CharRepr)

  /** `tokens(values)`: `item.eq(v)` for each value, paired up left to right from `okay([])`. */
  function Tokens(values: seq<char>): Parser<seq<char>>
    decreases |values|
  {
    if values == [] then OkayParser([])
    else
      var last := values[|values| - 1];
      Map(Pair(Tokens(values[..|values| - 1]), Eq(Item, last, CharRepr)),
          (t: (seq<char>, char)) => t.0 + [t.1])
  }

  /** `many()` on a progressive parser: `some() | okay([])`, unrolled. */
  function ManyRun<R>(p: Parser<R>, ctx: Context): (r: Result<seq<R>>)
    requires Progressive(p)
    ensures r.outcome.Okay? && Accounts(ctx, r)
    decreases |ctx.stream.data| - ctx.stream.offset
  {
    var a := p(ctx);
    assert Accounts(ctx, a);
    if a.outcome.Okay? then
      var b := ManyRun(p, a.ctx);
      ReachesTrans(ctx, a.ctx, a.consumed, b.ctx, b.consumed);
      Result(b.ctx, Okay([a.outcome.value] + b.outcome.value), b.consumed + a.consumed)
    else
      Result(Rewind(ctx, a), Okay([]), 0)
  }

  /** `p.many()`. */
  function Many<R>(p: Parser<R>): Parser<seq<R>>
    requires Progressive(p)
  {
    ctx => ManyRun(p, ctx)
  }

  /** `p.some()`. */
  function Some1<R>(p: Parser<R>): Parser<seq<R>>
    requires Progressive(p)
  {
    Bind(p, (x: R) => Map(Many(p), (xs: seq<R>) => [x] + xs))
  }

  /** `p.ltrim(ignore)`. */
  function LTrim<R, X>(p: Parser<R>, ignore: Parser<X>): Parser<R>
    requires Progressive(ignore)
  {
    Prefix(p, Many(ignore))
  }

  /** `p.rtrim(ignore)`. */
  function RTrim<R, X>(p: Parser<R>, ignore: Parser<X>): Parser<R>
    requires Progressive(ignore)
  {
    Suffix(p, Many(ignore))
  }

  /** `p.trim(ignore)`. */
  function Trim<R, X>(p: Parser<R>, ignore: Parser<X>): Parser<R>
    requires Progressive(ignore)
  {
    RTrim(LTrim(p, ignore), ignore)
  }

  /** `p.many_till(end)`: `p.many().suffix(end)`. */
  function ManyTill<R, X>(p: Parser<R>, end: Parser<X>): Parser<seq<R>>
    requires Progressive(p)
  {
    Suffix(Many(p), end)
  }

  /** `p.sep_by(sep)`: one `p`, then `p.prefix(sep).many()`. */
  function SepBy<R, X>(p: Parser<R>, sep: Parser<X>): Parser<seq<R>>
    requires Progressive(p) && WellBehaved(sep)
  {
    SequenceProgressive(p, sep);
    Apply(Many(Prefix(p, sep)), Map(p, (x: R) => (xs: seq<R>) => [x] + xs))
  }

  /** `p.end_by(sep)`: `p.suffix(sep).many()`. */
  function EndBy<R, X>(p: Parser<R>, sep: Parser<X>): Parser<seq<R>>
    requires Progressive(p) && WellBehaved(sep)
  {
    SequenceProgressive(p, sep);
    Many(Suffix(p, sep))
  }

  /** `rest(x)` inside `chainl1`: `op.bind(f => p.bind(y => rest(f(x)(y)))) | okay(x)`, unrolled.
      A failure of `op`, or of `p` after it, is backtracked and `x` is the value. */
  function ChainlRun<R>(p: Parser<R>, op: Parser<R -> R -> R>, x: R, ctx: Context): (r: Result<R>)
    requires Progressive(p) && WellBehaved(op)
    ensures r.outcome.Okay? && Accounts(ctx, r)
    decreases |ctx.stream.data| - ctx.stream.offset
  {
    var a := op(ctx);
    assert Accounts(ctx, a);
    if a.outcome.Fail? then Result(Rewind(ctx, a), Okay(x), 0)
    else
      var b := p(a.ctx);
      assert Accounts(a.ctx, b);
      ReachesTrans(ctx, a.ctx, a.consumed, b.ctx, b.consumed);
      if b.outcome.Fail? then
        Result(Rewind<R>(ctx, Result(b.ctx, Fail(b.outcome.error), b.consumed + a.consumed)), Okay(x), 0)
      else
        var c := ChainlRun(p, op, a.outcome.value(x)(b.outcome.value), b.ctx);
        ReachesTrans(ctx, b.ctx, b.consumed + a.consumed, c.ctx, c.consumed);
        Result(c.ctx, c.outcome, c.consumed + (b.consumed + a.consumed))
  }

  function ChainlRest<R>(p: Parser<R>, op: Parser<R -> R -> R>, x: R): Parser<R>
    requires Progressive(p) && WellBehaved(op)
  {
    ctx => ChainlRun(p, op, x, ctx)
  }

  /** `p.chainl1(op)`. */
  function Chainl1<R>(p: Parser<R>, op: Parser<R -> R -> R>): Parser<R>
    requires Progressive(p) && WellBehaved(op)
  {
    Bind(p, (x: R) => ChainlRest(p, op, x))
  }

  /** `scan()` inside `chainr1`: `p.bind(x => op.bind(f => scan().map(y => f(x)(y))) | okay(x))`,
      unrolled. A failure after `p` has succeeded is backtracked to just after `p`, with `p`'s value. */
  function ChainrRun<R>(p: Parser<R>, op: Parser<R -> R -> R>, ctx: Context): (r: Result<R>)
    requires Progressive(p) && WellBehaved(op)
    ensures Accounts(ctx, r)
    ensures r.outcome.Okay? <==> p(ctx).outcome.Okay?
    ensures r.outcome.Okay? ==> 0 < r.consumed
    decreases |ctx.stream.data| - ctx.stream.offset
  {
    var a := p(ctx);
    assert Accounts(ctx, a);
    if a.outcome.Fail? then FailLike(a)
    else
      var x := a.outcome.value;
      var b := op(a.ctx);
      assert Accounts(a.ctx, b);
      if b.outcome.Fail? then Result(Rewind(a.ctx, b), Okay(x), a.consumed)
      else
        var c := ChainrRun(p, op, b.ctx);
        ReachesTrans(a.ctx, b.ctx, b.consumed, c.ctx, c.consumed);
        ReachesTrans(ctx, a.ctx, a.consumed, c.ctx, c.consumed + b.consumed);
        if c.outcome.Okay? then
          Result(c.ctx, Okay(b.outcome.value(x)(c.outcome.value)), (c.consumed + b.consumed) + a.consumed)
        else
          Result(Rewind<R>(a.ctx, Result(c.ctx, Fail(c.outcome.error), c.consumed + b.consumed)), Okay(x), a.consumed)
  }

  /** `p.chainr1(op)`. */
  function Chainr1<R>(p: Parser<R>, op: Parser<R -> R -> R>): Parser<R>
    requires Progressive(p) && WellBehaved(op)
  {
    ctx => ChainrRun(p, op, ctx)
  }

  /** `p.chainl(op, initial)`. */
  function Chainl<R>(p: Parser<R>, op: Parser<R -> R -> R>, initial: R): Parser<R>
    requires Progressive(p) && WellBehaved(op)
  {
    Alter(Chainl1(p, op), OkayParser(initial))
  }

  /** `p.chainr(op, initial)`. */
  function Chainr<R>(p: Parser<R>, op: Parser<R -> R -> R>, initial: R): Parser<R>
    requires Progressive(p) && WellBehaved(op)
  {
    Alter(Chainr1(p, op), OkayParser(initial))
  }

  /** `parse(parser, text)` (parsec/text/context.py): runs the parser from the start of `text`, at
      line 1, column 0, and gives its value, whatever input is left over, or its error, which the
      source raises. */
  function ParseText<R>(p: Parser<R>, text: string): Outcome<R>
  {
    p(Context(Cursor(text, 0), InitialState)).outcome
  }

  /** A parser created empty and given its function later by `define`, for recursive grammars. */
  class Placeholder<R> {
    var fn: Option<Parser<R>>

    /** `Parser()`: not yet defined. */
    constructor ()
      ensures fn == None
    {
      fn := None;
    }

    /** `p.define(q)`: from now on, running `p` runs `q`. */
    method Define(q: Parser<R>)
      modifies this
      ensures fn == Some(q)
    {
      fn := Some(q);
    }

    /** `p.run(ctx)` on a defined parser. */
    method Run(ctx: Context) returns (r: Result<R>)
      requires fn.Some?
      ensures r == fn.value(ctx)
    {
      r := fn.value(ctx);
    }
  }

  // Preservation of accounting and progress.

  lemma OkayFailWellBehaved<R>(v: R, e: ParseErr)
    ensures WellBehaved(OkayParser(v)) && WellBehaved(FailParser<R>(e))
    ensures Progressive(FailParser<R>(e))
  {
  }

  lemma BindWellBehaved<R, S>(p: Parser<R>, fn: R -> Parser<S>)
    requires WellBehaved(p) && forall x :: WellBehaved(fn(x))
    ensures WellBehaved(Bind(p, fn))
    ensures Progressive(p) ==> Progressive(Bind(p, fn))
    ensures (forall x :: Progressive(fn(x))) ==> Progressive(Bind(p, fn))
  {
    forall ctx
      ensures Accounts(ctx, Bind(p, fn)(ctx))
      ensures Progressive(p) && Bind(p, fn)(ctx).outcome.Okay? ==> 0 < Bind(p, fn)(ctx).consumed
      ensures (forall x :: Progressive(fn(x))) && Bind(p, fn)(ctx).outcome.Okay? ==> 0 < Bind(p, fn)(ctx).consumed
    {
      var r1 := p(ctx);
      assert Accounts(ctx, r1);
      if r1.outcome.Okay? {
        var r2 := fn(r1.outcome.value)(r1.ctx);
        assert Accounts(r1.ctx, r2);
        ReachesTrans(ctx, r1.ctx, r1.consumed, r2.ctx, r2.consumed);
        if forall x :: Progressive(fn(x)) {
          assert Progressive(fn(r1.outcome.value));
        }
      }
    }
  }

  lemma MapWellBehaved<R, S>(p: Parser<R>, fn: R -> S)
    requires WellBehaved(p)
    ensures WellBehaved(Map(p, fn))
    ensures Progressive(p) ==> Progressive(Map(p, fn))
  {
    assert forall ctx :: Map(p, fn)(ctx).ctx == p(ctx).ctx && Map(p, fn)(ctx).consumed == p(ctx).consumed;
  }

  lemma ApplyWellBehaved<R, S>(p: Parser<R>, pfn: Parser<R -> S>)
    requires WellBehaved(p) && WellBehaved(pfn)
    ensures WellBehaved(Apply(p, pfn))
    ensures Progressive(p) || Progressive(pfn) ==> Progressive(Apply(p, pfn))
  {
    forall g: R -> S ensures WellBehaved(Map(p, g)) && (Progressive(p) ==> Progressive(Map(p, g))) {
      MapWellBehaved(p, g);
    }
    BindWellBehaved(pfn, g => Map(p, g));
  }

  lemma AlterWellBehaved<R>(p: Parser<R>, q: Parser<R>)
    requires WellBehaved(p) && WellBehaved(q)
    ensures WellBehaved(Alter(p, q))
    ensures Progressive(p) && Progressive(q) ==> Progressive(Alter(p, q))
  {
    forall ctx
      ensures Accounts(ctx, Alter(p, q)(ctx))
      ensures Alter(p, q)(ctx).outcome.Okay? ==> p(ctx).outcome.Okay? || q(ctx).outcome.Okay?
      ensures Alter(p, q)(ctx) in {p(ctx), q(ctx)} || Alter(p, q)(ctx).consumed == q(ctx).consumed
    {
      assert Accounts(ctx, p(ctx));
      assert Accounts(ctx, q(ctx));
    }
  }

  lemma FastAlterWellBehaved<R>(p: Parser<R>, q: Parser<R>)
    requires WellBehaved(p) && WellBehaved(q)
    ensures WellBehaved(FastAlter(p, q))
    ensures Progressive(p) && Progressive(q) ==> Progressive(FastAlter(p, q))
  {
    forall ctx
      ensures Accounts(ctx, FastAlter(p, q)(ctx))
      ensures FastAlter(p, q)(ctx) in {p(ctx), q(ctx)} || FastAlter(p, q)(ctx).outcome.Fail?
    {
      assert Accounts(ctx, p(ctx));
      assert Accounts(ctx, q(ctx));
    }
  }

  /** Sequencing two well-behaved parsers is well-behaved, and progressive when either part is. */
  lemma PairWellBehaved<R, S>(p: Parser<R>, q: Parser<S>)
    requires WellBehaved(p) && WellBehaved(q)
    ensures WellBehaved(Pair(p, q)) && WellBehaved(Prefix(q, p)) && WellBehaved(Suffix(p, q))
    ensures Progressive(p) || Progressive(q) ==>
      Progressive(Pair(p, q)) && Progressive(Prefix(q, p)) && Progressive(Suffix(p, q))
  {
    MapWellBehaved(p, (x: R) => (y: S) => (x, y));
    ApplyWellBehaved(q, Map(p, (x: R) => (y: S) => (x, y)));
    MapWellBehaved(p, (x: R) => (y: S) => x);
    ApplyWellBehaved(q, Map(p, (x: R) => (y: S) => x));
    MapWellBehaved(p, (x: R) => (y: S) => y);
    ApplyWellBehaved(q, Map(p, (x: R) => (y: S) => y));
  }

  /** The element parsers of `sep_by` and `end_by` stay progressive. */
  lemma SequenceProgressive<R, X>(p: Parser<R>, sep: Parser<X>)
    requires Progressive(p) && WellBehaved(sep)
    ensures Progressive(Prefix(p, sep)) && Progressive(Suffix(p, sep))
  {
    PairWellBehaved(sep, p);
    PairWellBehaved(p, sep);
  }

  lemma DefaultWellBehaved<R>(p: Parser<R>, v: R)
    requires WellBehaved(p)
    ensures WellBehaved(Default(p, v)) && WellBehaved(Maybe(p))
  {
    OkayFailWellBehaved(v, UnExpected("", ""));
    AlterWellBehaved(p, OkayParser(v));
    MapWellBehaved(p, (x: R) => Some(x));
    OkayFailWellBehaved<Option<R>>(None, UnExpected("", ""));
    AlterWellBehaved(Map(p, (x: R) => Some(x)), OkayParser(None));
  }

  lemma BetweenWellBehaved<R, X, Y>(p: Parser<R>, pre: Parser<X>, suf: Parser<Y>)
    requires WellBehaved(p) && WellBehaved(pre) && WellBehaved(suf)
    ensures WellBehaved(Between(p, pre, suf))
    ensures Progressive(p) || Progressive(pre) || Progressive(suf) ==> Progressive(Between(p, pre, suf))
  {
    PairWellBehaved(pre, p);
    PairWellBehaved(Prefix(p, pre), suf);
  }

  lemma AbsentWellBehaved<R>(p: Parser<R>, show: R -> string)
    requires WellBehaved(p)
    ensures WellBehaved(Absent(p, show))
  {
    forall ctx ensures Accounts(ctx, Absent(p, show)(ctx)) {
      assert Accounts(ctx, p(ctx));
      ReachesZero(ctx);
    }
  }

  lemma WhereWellBehaved<R>(p: Parser<R>, fn: R -> bool, show: R -> string)
    requires WellBehaved(p)
    ensures WellBehaved(Where(p, fn, show))
    ensures Progressive(p) ==> Progressive(Where(p, fn, show))
  {
    assert forall ctx :: Where(p, fn, show)(ctx).ctx == p(ctx).ctx && Where(p, fn, show)(ctx).consumed == p(ctx).consumed;
  }

  lemma LabelWellBehaved<R>(p: Parser<R>, expected: string)
    requires WellBehaved(p)
    ensures WellBehaved(Label(p, expected))
    ensures Progressive(p) ==> Progressive(Label(p, expected))
  {
    assert forall ctx :: Label(p, expected)(ctx).ctx == p(ctx).ctx && Label(p, expected)(ctx).consumed == p(ctx).consumed;
  }

  /** `item` consumes one character when it succeeds; `look` and `eos` consume nothing. */
  lemma PrimitivesWellBehaved()
    ensures Progressive(Item) && WellBehaved(Look) && WellBehaved(Eos)
  {
    forall ctx ensures Accounts(ctx, Item(ctx)) && Accounts(ctx, Look(ctx)) {
      ReachesZero(ctx);
      if !AtEnd(ctx.stream) {
        assert Item(ctx).ctx == Step(ctx);
        assert Advance(ctx, 1) == Advance(Step(ctx), 0);
      }
    }
    AbsentWellBehaved(Item, CharRepr);
  }

  lemma {:induction false} TokensWellBehaved(values: seq<char>)
    ensures WellBehaved(Tokens(values))
    ensures values != [] ==> Progressive(Tokens(values))
    decreases |values|
  {
    if values == [] {
      OkayFailWellBehaved(values, UnExpected("", ""));
    } else {
      var last := values[|values| - 1];
      TokensWellBehaved(values[..|values| - 1]);
      PrimitivesWellBehaved();
      WhereWellBehaved(Item, (x: char) => x == last, CharRepr);
      PairWellBehaved(Tokens(values[..|values| - 1]), Eq(Item, last, CharRepr));
      MapWellBehaved(Pair(Tokens(values[..|values| - 1]), Eq(Item, last, CharRepr)), (t: (seq<char>, char)) => t.0 + [t.1]);
    }
  }

  lemma {:induction false} RepeatWellBehaved<R>(p: Parser<R>, n: nat)
    requires WellBehaved(p)
    ensures WellBehaved(Repeat(p, n))
    ensures Progressive(p) && n > 0 ==> Progressive(Repeat(p, n))
    decreases n
  {
    if n == 0 {
      OkayFailWellBehaved<seq<R>>([], UnExpected("", ""));
    } else {
      RepeatWellBehaved(p, n - 1);
      MapWellBehaved(p, (x: R) => (xs: seq<R>) => [x] + xs);
      ApplyWellBehaved(Repeat(p, n - 1), Map(p, (x: R) => (xs: seq<R>) => [x] + xs));
    }
  }

  /** `many` never fails, `some` is progressive, and the trimming wrappers keep the parser they
      wrap well-behaved (and progressive). */
  lemma ManyWellBehaved<R, X>(p: Parser<R>, q: Parser<X>)
    requires Progressive(p) && WellBehaved(q)
    ensures WellBehaved(Many(p)) && Progressive(Some1(p))
    ensures forall ctx :: Many(p)(ctx).outcome.Okay?
    ensures WellBehaved(LTrim(q, p)) && WellBehaved(RTrim(q, p)) && WellBehaved(Trim(q, p))
    ensures Progressive(q) ==> Progressive(LTrim(q, p)) && Progressive(RTrim(q, p)) && Progressive(Trim(q, p))
    ensures WellBehaved(ManyTill(p, q))
  {
    assert forall ctx :: Accounts(ctx, Many(p)(ctx)) && Many(p)(ctx).outcome.Okay?;
    forall x: R ensures WellBehaved(Map(Many(p), (xs: seq<R>) => [x] + xs)) {
      MapWellBehaved(Many(p), (xs: seq<R>) => [x] + xs);
    }
    BindWellBehaved(p, (x: R) => Map(Many(p), (xs: seq<R>) => [x] + xs));
    PairWellBehaved(Many(p), q);
    PairWellBehaved(q, Many(p));
    PairWellBehaved(LTrim(q, p), Many(p));
  }

  lemma SepEndWellBehaved<R, X>(p: Parser<R>, sep: Parser<X>)
    requires Progressive(p) && WellBehaved(sep)
    ensures Progressive(SepBy(p, sep)) && WellBehaved(EndBy(p, sep))
  {
    SequenceProgressive(p, sep);
    ManyWellBehaved(Prefix(p, sep), sep);
    ManyWellBehaved(Suffix(p, sep), sep);
    MapWellBehaved(p, (x: R) => (xs: seq<R>) => [x] + xs);
    ApplyWellBehaved(Many(Prefix(p, sep)), Map(p, (x: R) => (xs: seq<R>) => [x] + xs));
  }

  lemma ChainWellBehaved<R>(p: Parser<R>, op: Parser<R -> R -> R>, initial: R)
    requires Progressive(p) && WellBehaved(op)
    ensures Progressive(Chainl1(p, op)) && Progressive(Chainr1(p, op))
    ensures WellBehaved(Chainl(p, op, initial)) && WellBehaved(Chainr(p, op, initial))
  {
    assert forall x: R, ctx :: Accounts(ctx, ChainlRest(p, op, x)(ctx));
    assert forall ctx :: Accounts(ctx, Chainr1(p, op)(ctx));
    BindWellBehaved(p, (x: R) => ChainlRest(p, op, x));
    OkayFailWellBehaved(initial, UnExpected("", ""));
    AlterWellBehaved(Chainl1(p, op), OkayParser(initial));
    AlterWellBehaved(Chainr1(p, op), OkayParser(initial));
  }
}
