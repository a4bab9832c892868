/**
 * Two combinators of parsec/core.py whose code does less than their docstrings say. Each is shown
 * as written, on an input where the two differ, and next to it the combinator the docstring
 * describes, with that behaviour proved.
 *
 * - `sep_by` is documented as zero or more occurrences, but its code needs one.
 * - `many_till` is documented as repeating until the end parser succeeds, but its code is
 *   `many()` followed by the end parser, so the repetition never looks at the end parser.
 */
module CoreFindings {
  import opened Errors
  import opened TextContext
  import opened Contexts
  import opened Core
  import opened CoreProperties
  import opened TextBasic

  /** The start of a parse of `text`, as `parse` sets it up. */
  function Start(text: string): Context
  {
    Context(Cursor(text, 0), InitialState)
  }

  // ---------------------------------------------------------------------------------------------
  // sep_by

  /** As written, `sep_by` fails, with the first item's error, count and context, wherever the
      first item fails. */
  lemma SepByNeedsOne<R, X>(p: Parser<R>, sep: Parser<X>, ctx: Context)
    requires Progressive(p) && WellBehaved(sep)
    ensures p(ctx).outcome.Fail? ==> SepBy(p, sep)(ctx) == Result(p(ctx).ctx, Fail(p(ctx).outcome.error), p(ctx).consumed)
  {
    SequenceProgressive(p, sep);
    var cons := (x: R) => (xs: seq<R>) => [x] + xs;
    ApplySpec(Many(Prefix(p, sep)), Map(p, cons), ctx);
    MapSpec(p, cons, ctx);
  }

  /** So `item.sep_by(char(','))` rejects the empty text, where zero occurrences should give `[]`. */
  lemma SepByRejectsEmptyText()
    ensures Progressive(Item) && WellBehaved(Char(','))
      && SepBy(Item, Char(','))(Start("")).outcome.Fail?
  {
    PrimitivesWellBehaved();
    CharScans(',');
    ItemSpec(Start(""));
    SepByNeedsOne(Item, Char(','), Start(""));
  }

  /** `p.sep_by(sep).default([])`: zero or more occurrences, as the docstring describes. */
  function SepByOrNone<R, X>(p: Parser<R>, sep: Parser<X>): Parser<seq<R>>
    requires Progressive(p) && WellBehaved(sep)
  {
    Default(SepBy(p, sep), [])
  }

  /** The corrected `sep_by` always succeeds: with `[]`, consuming nothing, where the first item
      fails, and otherwise with the first item followed by every separated item `many` finds. */
  lemma SepByOrNoneSpec<R, X>(p: Parser<R>, sep: Parser<X>, ctx: Context)
    requires Progressive(p) && WellBehaved(sep)
    ensures SepByOrNone(p, sep)(ctx).outcome.Okay?
    ensures p(ctx).outcome.Fail? ==> SepByOrNone(p, sep)(ctx) == Result(ctx, Okay([]), 0)
    ensures Progressive(Prefix(p, sep)) && (p(ctx).outcome.Okay? ==>
      var m := Many(Prefix(p, sep))(p(ctx).ctx);
      SepByOrNone(p, sep)(ctx) == Result(m.ctx, Okay([p(ctx).outcome.value] + m.outcome.value), m.consumed + p(ctx).consumed))
  {
    SequenceProgressive(p, sep);
    SepEndWellBehaved(p, sep);
    SepBySpec(p, sep, ctx);
    DefaultSpec(SepBy(p, sep), [], ctx);
  }

  // ---------------------------------------------------------------------------------------------
  // many_till

  /** As written, `item.many_till(char(c))` fails on every text: `item.many()` reads to the end of
      the input, and `char(c)` then meets the end. On "ab" with `c == 'b'`, the docstring's reading
      gives ['a'] there (`ManyTillIntendedReadsUntilEnd`). */
  lemma ManyTillOverrunsEnd(c: char, ctx: Context)
    ensures Progressive(Item) && ManyTill(Item, Char(c))(ctx).outcome.Fail?
  {
    PrimitivesWellBehaved();
    var m := Many(Item)(ctx);
    assert AtEnd(m.ctx.stream) by {
      ManyItemReadsAll(ctx);
    }
    assert Char(c)(m.ctx).outcome.Fail? by {
      CharFailure(c, m.ctx);
    }
    ManyTillSpec(Item, Char(c), ctx);
  }

  /** `item.many()` reads to the end of the input. */
  lemma {:induction false} ManyItemReadsAll(ctx: Context)
    ensures Progressive(Item) && AtEnd(Many(Item)(ctx).ctx.stream)
    decreases |ctx.stream.data| - ctx.stream.offset
  {
    PrimitivesWellBehaved();
    ItemSpec(ctx);
    if AtEnd(ctx.stream) {
      ManyStops(Item, ctx);
    } else {
      ManyGoesOn(Item, ctx);
      ManyItemReadsAll(Item(ctx).ctx);
    }
  }

  /** `many` where the parser fails without consuming: no values, and the parser's own result context. */
  lemma ManyStops<R>(p: Parser<R>, ctx: Context)
    requires Progressive(p) && p(ctx).outcome.Fail? && p(ctx).consumed == 0
    ensures Many(p)(ctx) == Result(p(ctx).ctx, Okay([]), 0)
  {
  }

  /** `many` where the parser succeeds ends where `many` from the parser's result ends. */
  lemma ManyGoesOn<R>(p: Parser<R>, ctx: Context)
    requires Progressive(p) && p(ctx).outcome.Okay?
    ensures Many(p)(ctx).ctx == Many(p)(p(ctx).ctx).ctx
  {
  }

  /** The repetition the docstring describes, one step at a time: try `end`; where it succeeds,
      stop with no values; otherwise run `p` from the same place and go on. When both fail, the
      errors are joined as `|` joins them. */
  function TillRun<R, X>(p: Parser<R>, end: Parser<X>, ctx: Context): (r: Result<seq<R>>)
    requires Progressive(p) && WellBehaved(end)
    ensures Accounts(ctx, r)
    decreases |ctx.stream.data| - ctx.stream.offset
  {
    var e := end(ctx);
    assert Accounts(ctx, e);
    if e.outcome.Okay? then Result(e.ctx, Okay([]), e.consumed)
    else
      var a := p(ctx);
      assert Accounts(ctx, a);
      if a.outcome.Fail? then Result(a.ctx, Fail(Both(e.outcome.error, a.outcome.error)), a.consumed)
      else
        var b := TillRun(p, end, a.ctx);
        ReachesTrans(ctx, a.ctx, a.consumed, b.ctx, b.consumed);
        if b.outcome.Okay? then Result(b.ctx, Okay([a.outcome.value] + b.outcome.value), b.consumed + a.consumed)
        else Result(b.ctx, Fail(Both(e.outcome.error, b.outcome.error)), b.consumed + a.consumed)
  }

  /** `many_till` as its docstring describes it. */
  function ManyTillIntended<R, X>(p: Parser<R>, end: Parser<X>): Parser<seq<R>>
    requires Progressive(p) && WellBehaved(end)
  {
    ctx => TillRun(p, end, ctx)
  }

  /** `end.map(lambda _: [])`. */
  function Stop<R, X>(end: Parser<X>): Parser<seq<R>>
  {
    Map(end, (y: X) => [])
  }

  /** The corrected `many_till` is the recursive grammar `end.map(lambda _: []) | p.bind(lambda x:
      till.map(lambda xs: [x, *xs]))`, written with the combinators of parsec/core.py. */
  lemma ManyTillIntendedUnfold<R, X>(p: Parser<R>, end: Parser<X>, ctx: Context)
    requires Progressive(p) && WellBehaved(end)
    ensures ManyTillIntended(p, end)(ctx)
      == Alter(Stop(end),
               Bind(p, (x: R) => Map(ManyTillIntended(p, end), (xs: seq<R>) => [x] + xs)))(ctx)
  {
    var none: X -> seq<R> := (y: X) => [];
    var stop: Parser<seq<R>> := Stop(end);
    var k := (x: R) => Map(ManyTillIntended(p, end), (xs: seq<R>) => [x] + xs);
    MapWellBehaved(end, none);
    MapSpec(end, none, ctx);
    AlterSpec(stop, Bind(p, k), ctx);
    BindSpec(p, k, ctx);
    var a := p(ctx);
    if a.outcome.Okay? {
      MapSpec(ManyTillIntended(p, end), (xs: seq<R>) => [a.outcome.value] + xs, a.ctx);
    }
  }

  /** The corrected `many_till` stops as soon as `end` succeeds, with no values and `end`'s result. */
  lemma ManyTillIntendedStops<R, X>(p: Parser<R>, end: Parser<X>, ctx: Context)
    requires Progressive(p) && WellBehaved(end)
    ensures end(ctx).outcome.Okay? ==>
      ManyTillIntended(p, end)(ctx) == Result(end(ctx).ctx, Okay([]), end(ctx).consumed)
  {
  }

  /** One round of the corrected `many_till`: where `end` fails and `p` succeeds, the value of `p`
      comes first, then those of the rounds after it. */
  lemma TillGoesOn<R, X>(p: Parser<R>, end: Parser<X>, ctx: Context)
    requires Progressive(p) && WellBehaved(end)
    requires end(ctx).outcome.Fail? && p(ctx).outcome.Okay? && TillRun(p, end, p(ctx).ctx).outcome.Okay?
    ensures var a, b := p(ctx), TillRun(p, end, p(ctx).ctx);
      TillRun(p, end, ctx) == Result(b.ctx, Okay([a.outcome.value] + b.outcome.value), b.consumed + a.consumed)
  {
  }

  /** One round and then a stop: where `end` fails, `p` succeeds, and `end` then succeeds, the
      corrected `many_till` returns the one value of `p`, consuming what `p` and `end` consumed. */
  lemma TillOneRound<R, X>(p: Parser<R>, end: Parser<X>, ctx: Context)
    requires Progressive(p) && WellBehaved(end)
    requires end(ctx).outcome.Fail? && p(ctx).outcome.Okay? && end(p(ctx).ctx).outcome.Okay?
    ensures var a := p(ctx);
      ManyTillIntended(p, end)(ctx) == Result(end(a.ctx).ctx, Okay([a.outcome.value]), end(a.ctx).consumed + a.consumed)
  {
    var a := p(ctx);
    ManyTillIntendedStops(p, end, a.ctx);
    assert TillRun(p, end, a.ctx) == ManyTillIntended(p, end)(a.ctx);
    TillGoesOn(p, end, ctx);
    assert [a.outcome.value] + [] == [a.outcome.value];
  }

  /** The corrected `item.many_till(char('b'))` reads a character other than 'b' and then 'b', and
      returns the first one alone: on "ab" it gives ['a'], consuming both characters. */
  lemma ManyTillIntendedReadsUntilEnd(x: char, ctx: Context)
    requires x != 'b' && 0 <= ctx.stream.offset && ctx.stream.offset + 2 <= |ctx.stream.data|
    requires ctx.stream.data[ctx.stream.offset] == x && ctx.stream.data[ctx.stream.offset + 1] == 'b'
    ensures Progressive(Item) && WellBehaved(Char('b'))
      && ManyTillIntended(Item, Char('b'))(ctx).outcome == Okay([x])
      && ManyTillIntended(Item, Char('b'))(ctx).consumed == 2
  {
    var c1 := Item(ctx).ctx;
    assert Item(ctx).outcome == Okay(x) && Item(ctx).consumed == 1
      && c1.stream.data == ctx.stream.data && c1.stream.offset == ctx.stream.offset + 1 by {
      ItemSpec(ctx);
    }
    assert Char('b')(ctx).outcome.Fail? by {
      CharMisses('b', ctx);
    }
    assert Char('b')(c1).outcome == Okay('b') && Char('b')(c1).consumed == 1 by {
      CharMatches('b', c1);
    }
    PrimitivesWellBehaved();
    CharScans('b');
    TillOneRound(Item, Char('b'), ctx);
  }

  /** `char(c)` fails where another character is next. */
  lemma CharMisses(c: char, ctx: Context)
    requires !AtEnd(ctx.stream) && ctx.stream.data[ctx.stream.offset] != c
    ensures Char(c)(ctx).outcome.Fail?
  {
    ItemSpec(ctx);
    WhereSpec(Item, x => x == c, CharRepr, ctx);
  }

  /** `char(c)` where `c` is next reads it, as `item` does. */
  lemma CharMatches(c: char, ctx: Context)
    requires !AtEnd(ctx.stream) && ctx.stream.data[ctx.stream.offset] == c
    ensures Char(c)(ctx).outcome == Okay(c) && Char(c)(ctx).consumed == 1
  {
    ItemSpec(ctx);
    WhereSpec(Item, x => x == c, CharRepr, ctx);
  }
}
