/**
 * The two chain combinators of parsec/core.py run end to end on small arithmetic texts: one-digit
 * operands, `+` folded from the left by `chainl1` and `^` folded from the right by `chainr1`.
 */
module ChainExamples {
  import opened TextContext
  import opened Contexts
  import opened Core
  import opened CoreProperties
  import opened Scanning
  import opened TextBasic

  /** The value of a decimal digit. */
  function DigitValue(c: char): int
  {
    if IsDigit(c) then c as int - '0' as int else 0
  }

  function Plus(a: int): int -> int
  {
    b => a + b
  }

  /** `a ** b` for a non-negative exponent. */
  function Pow(a: int, b: nat): int
  {
    if b == 0 then 1 else a * Pow(a, b - 1)
  }

  function Power(a: int): int -> int
  {
    b => if b < 0 then 0 else Pow(a, b)
  }

  /** `digit.map(int)`. */
  const Operand: Parser<int> := Map(Digit, DigitValue)

  /** `char('+').map(lambda _: add)`. */
  const PlusOp: Parser<int -> int -> int> := Map(Char('+'), (c: char) => Plus)

  /** `char('^').map(lambda _: pow)`. */
  const PowerOp: Parser<int -> int -> int> := Map(Char('^'), (c: char) => Power)

  /** The operand reads one digit and gives its value; each operator reads its one character. */
  lemma ExampleParsersScan()
    ensures Scans(Operand, MapScan(CharScan(IsDigit), DigitValue)) && Progressive(Operand)
    ensures Scans(PlusOp, MapScan(CharScan(Is('+')), (c: char) => Plus))
    ensures Scans(PowerOp, MapScan(CharScan(Is('^')), (c: char) => Power))
  {
    ClassesScan();
    CharScanProgressive(Digit, IsDigit);
    MapWellBehaved(Digit, DigitValue);
    MapScans(Digit, CharScan(IsDigit), DigitValue);
    CharScans('+');
    CharScans('^');
    MapScans(Char('+'), CharScan(Is('+')), (c: char) => Plus);
    MapScans(Char('^'), CharScan(Is('^')), (c: char) => Power);
  }

  /** One digit at a context that has one. */
  lemma OperandAt(ctx: Context)
    requires 0 <= ctx.stream.offset < |ctx.stream.data| && IsDigit(ctx.stream.data[ctx.stream.offset])
    ensures CanAdvance(ctx, 1)
    ensures Operand(ctx) == Result(Advance(ctx, 1), Okay(DigitValue(ctx.stream.data[ctx.stream.offset])), 1)
  {
    ExampleParsersScan();
    assert ScansAt(Operand, MapScan(CharScan(IsDigit), DigitValue), ctx);
  }

  /** An operator character `c` read by `op` as the function `f`; at the end it fails, reading nothing. */
  lemma OperatorAt(op: Parser<int -> int -> int>, c: char, f: int -> int -> int, ctx: Context)
    requires Scans(op, MapScan(CharScan(Is(c)), (x: char) => f))
    ensures 0 <= ctx.stream.offset < |ctx.stream.data| && ctx.stream.data[ctx.stream.offset] == c ==>
      CanAdvance(ctx, 1) && op(ctx) == Result(Advance(ctx, 1), Okay(f), 1)
    ensures ctx.stream.offset == |ctx.stream.data| ==>
      op(ctx).outcome.Fail? && op(ctx).consumed == 0 && op(ctx).ctx == ctx
  {
    assert ScansAt(op, MapScan(CharScan(Is(c)), (x: char) => f), ctx);
    assert Accounts(ctx, op(ctx));
  }

  lemma PlusAt(ctx: Context)
    ensures 0 <= ctx.stream.offset < |ctx.stream.data| && ctx.stream.data[ctx.stream.offset] == '+' ==>
      CanAdvance(ctx, 1) && PlusOp(ctx) == Result(Advance(ctx, 1), Okay(Plus), 1)
    ensures ctx.stream.offset == |ctx.stream.data| ==>
      PlusOp(ctx).outcome.Fail? && PlusOp(ctx).consumed == 0 && PlusOp(ctx).ctx == ctx
  {
    ExampleParsersScan();
    OperatorAt(PlusOp, '+', Plus, ctx);
  }

  lemma PowerAt(ctx: Context)
    ensures 0 <= ctx.stream.offset < |ctx.stream.data| && ctx.stream.data[ctx.stream.offset] == '^' ==>
      CanAdvance(ctx, 1) && PowerOp(ctx) == Result(Advance(ctx, 1), Okay(Power), 1)
    ensures ctx.stream.offset == |ctx.stream.data| ==>
      PowerOp(ctx).outcome.Fail? && PowerOp(ctx).consumed == 0 && PowerOp(ctx).ctx == ctx
  {
    ExampleParsersScan();
    OperatorAt(PowerOp, '^', Power, ctx);
  }

  /** One round of the `chainl1` loop: an operator and an operand, one character each. */
  lemma ChainlStep<R>(p: Parser<R>, op: Parser<R -> R -> R>, x: R, ctx: Context, f: R -> R -> R, a: Context, y: R, b: Context)
    requires Progressive(p) && WellBehaved(op)
    requires op(ctx) == Result(a, Okay(f), 1) && p(a) == Result(b, Okay(y), 1)
    ensures var c := ChainlRun(p, op, f(x)(y), b);
      ChainlRun(p, op, x, ctx) == Result(c.ctx, c.outcome, c.consumed + 2)
  {
  }

  /** The `chainl1` loop stops where no operator follows, keeping its value. */
  lemma ChainlStop<R>(p: Parser<R>, op: Parser<R -> R -> R>, x: R, ctx: Context)
    requires Progressive(p) && WellBehaved(op)
    requires op(ctx).outcome.Fail? && op(ctx).consumed == 0 && op(ctx).ctx == ctx
    ensures ChainlRun(p, op, x, ctx) == Result(ctx, Okay(x), 0)
  {
  }

  /** One round of `chainr1`: an operand, an operator and the rest, folded from the right. */
  lemma ChainrStep<R>(p: Parser<R>, op: Parser<R -> R -> R>, ctx: Context, x: R, a: Context, f: R -> R -> R, b: Context)
    requires Progressive(p) && WellBehaved(op)
    requires p(ctx) == Result(a, Okay(x), 1) && op(a) == Result(b, Okay(f), 1)
    requires ChainrRun(p, op, b).outcome.Okay?
    ensures var c := ChainrRun(p, op, b);
      ChainrRun(p, op, ctx) == Result(c.ctx, Okay(f(x)(c.outcome.value)), c.consumed + 2)
  {
  }

  /** The last operand of `chainr1`, where no operator follows. */
  lemma ChainrLast<R>(p: Parser<R>, op: Parser<R -> R -> R>, ctx: Context, x: R, a: Context)
    requires Progressive(p) && WellBehaved(op)
    requires p(ctx) == Result(a, Okay(x), 1)
    requires op(a).outcome.Fail? && op(a).consumed == 0 && op(a).ctx == a
    ensures ChainrRun(p, op, ctx) == Result(a, Okay(x), 1)
  {
  }

  /** The `chainl1` loop on "1+2+3" from just before the second `+`, with 3 so far. */
  lemma SumFromThree(c: Context)
    requires c.stream == Cursor("1+2+3", 3)
    ensures Progressive(Operand) && WellBehaved(PlusOp)
    ensures CanAdvance(c, 2) && ChainlRun(Operand, PlusOp, 3, c) == Result(Advance(c, 2), Okay(6), 2)
  {
    ExampleParsersScan();
    PlusAt(c);
    var c4 := Advance(c, 1);
    OperandAt(c4);
    var c5 := Advance(c4, 1);
    PlusAt(c5);
    ChainlStop(Operand, PlusOp, 6, c5);
    ChainlStep(Operand, PlusOp, 3, c, Plus, c4, 3, c5);
    AdvanceAdvance(c, 1, 1);
  }

  /** The `chainl1` loop on "1+2+3" after the first operand. */
  lemma SumFromOne(c: Context)
    requires c.stream == Cursor("1+2+3", 1)
    ensures Progressive(Operand) && WellBehaved(PlusOp)
    ensures CanAdvance(c, 4) && ChainlRun(Operand, PlusOp, 1, c) == Result(Advance(c, 4), Okay(6), 4)
  {
    ExampleParsersScan();
    var c2 := Advance(c, 1);
    var c3 := Advance(c2, 1);
    assert PlusOp(c) == Result(c2, Okay(Plus), 1) by { PlusAt(c); }
    assert Operand(c2) == Result(c3, Okay(2), 1) by { OperandAt(c2); }
    assert CanAdvance(c3, 2) && ChainlRun(Operand, PlusOp, 3, c3) == Result(Advance(c3, 2), Okay(6), 2) by {
      SumFromThree(c3);
    }
    assert Plus(1)(2) == 3;
    ChainlStep(Operand, PlusOp, 1, c, Plus, c2, 2, c3);
    assert CanAdvance(c, 4) && Advance(c3, 2) == Advance(c, 4) by {
      AdvanceAdvance(c, 1, 1);
      AdvanceAdvance(c, 2, 2);
    }
  }

  /** `digit.map(int).chainl1(char('+') >> add)` reads "1+2+3" whole, as ((1 + 2) + 3). */
  lemma SumExample()
    ensures Progressive(Operand) && WellBehaved(PlusOp)
    ensures var r := Chainl1(Operand, PlusOp)(Context(Cursor("1+2+3", 0), InitialState));
      r.outcome == Okay(6) && r.consumed == 5
    ensures ParseText(Chainl1(Operand, PlusOp), "1+2+3") == Okay(6)
  {
    ExampleParsersScan();
    var c0 := Context(Cursor("1+2+3", 0), InitialState);
    OperandAt(c0);
    SumFromOne(Advance(c0, 1));
    BindSpec(Operand, (x: int) => ChainlRest(Operand, PlusOp, x), c0);
  }

  /** `chainr1` on "2^3^2" from the last operand: no operator follows. */
  lemma PowerFromFour(c: Context)
    requires c.stream == Cursor("2^3^2", 4)
    ensures Progressive(Operand) && WellBehaved(PowerOp)
    ensures CanAdvance(c, 1) && ChainrRun(Operand, PowerOp, c) == Result(Advance(c, 1), Okay(2), 1)
  {
    ExampleParsersScan();
    OperandAt(c);
    PowerAt(Advance(c, 1));
    ChainrLast(Operand, PowerOp, c, 2, Advance(c, 1));
  }

  /** `chainr1` on "2^3^2" from the middle operand: 3 ** 2. */
  lemma PowerFromTwo(c: Context)
    requires c.stream == Cursor("2^3^2", 2)
    ensures Progressive(Operand) && WellBehaved(PowerOp)
    ensures CanAdvance(c, 3) && ChainrRun(Operand, PowerOp, c) == Result(Advance(c, 3), Okay(9), 3)
  {
    ExampleParsersScan();
    OperandAt(c);
    var c3 := Advance(c, 1);
    PowerAt(c3);
    var c4 := Advance(c3, 1);
    PowerFromFour(c4);
    assert Pow(3, 2) == 9;
    ChainrStep(Operand, PowerOp, c, 3, c3, Power, c4);
    AdvanceAdvance(c, 1, 1);
    AdvanceAdvance(c, 2, 1);
  }

  /** `digit.map(int).chainr1(char('^') >> pow)` reads "2^3^2" whole, as 2 ** (3 ** 2) = 512. */
  lemma PowerExample()
    ensures Progressive(Operand) && WellBehaved(PowerOp)
    ensures var r := Chainr1(Operand, PowerOp)(Context(Cursor("2^3^2", 0), InitialState));
      r.outcome == Okay(512) && r.consumed == 5
    ensures ParseText(Chainr1(Operand, PowerOp), "2^3^2") == Okay(512)
  {
    ExampleParsersScan();
    var c0 := Context(Cursor("2^3^2", 0), InitialState);
    OperandAt(c0);
    var c1 := Advance(c0, 1);
    PowerAt(c1);
    var c2 := Advance(c1, 1);
    PowerFromTwo(c2);
    assert Pow(2, 9) == 512;
    ChainrStep(Operand, PowerOp, c0, 2, c1, Power, c2);
  }
}
