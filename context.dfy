/**
 * The parsing context (parsec/context.py): a text stream and a text position.
 *
 * The source threads one stream object through a parse and advances it in place; only the offset
 * of that object is ever observed, so the model carries the stream as a `Cursor` value. `Advance`
 * states what a parser that consumed `n` characters leaves behind: the cursor `n` further on and the
 * position updated with exactly the characters consumed.
 */
module Contexts {
  import opened Wrappers
  import opened TextContext

  datatype Context = Context(stream: Cursor, state: TextState)

  /** `backtrack(consumed, state)`: the stream moved back by `consumed`, with the given state. */
  function Backtrack(ctx: Context, consumed: int, s: TextState): Context
  {
    Context(MoveBy(ctx.stream, -consumed), s)
  }

  /** `update(value)`: the same stream, with the position updated over `value`. */
  function Update(ctx: Context, value: string): Context
  {
    Context(ctx.stream, UpdateAsWritten(ctx.state, value))
  }

  /** A parser may report `n` consumed characters at `ctx` only if they exist. */
  predicate CanAdvance(ctx: Context, n: int)
  {
    n == 0 || (0 < n && 0 <= ctx.stream.offset && ctx.stream.offset + n <= |ctx.stream.data|)
  }

  /** What `item` does to the context: `read()` moves the stream past the next character, and
      `update` folds that character into the position. */
  function Step(ctx: Context): (r: Context)
    requires 0 <= ctx.stream.offset < |ctx.stream.data|
    ensures r.stream.data == ctx.stream.data && r.stream.offset == ctx.stream.offset + 1
    ensures var c := ctx.stream.data[ctx.stream.offset];
      r.state == if c == '\n' then TextState(None, ctx.state.line + 1, 1)
                 else TextState(None, ctx.state.line, ctx.state.column + 1)
  {
    UpdateAsWrittenChar(ctx.state, ctx.stream.data[ctx.stream.offset]);
    Update(Context(MoveBy(ctx.stream, 1), ctx.state), [ctx.stream.data[ctx.stream.offset]])
  }

  /** The context after consuming the next `n` characters one at a time. */
  function Advance(ctx: Context, n: int): (r: Context)
    requires CanAdvance(ctx, n)
    ensures r.stream.data == ctx.stream.data && r.stream.offset == ctx.stream.offset + n
    decreases if n < 0 then 0 else n
  {
    if n == 0 then ctx else Advance(Step(ctx), n - 1)
  }

  /** `c` is `ctx` advanced by `n` characters. */
  predicate Reaches(ctx: Context, c: Context, n: int)
  {
    0 <= n && CanAdvance(ctx, n) && c == Advance(ctx, n)
  }

  /** Consuming nothing leaves the context as it is. */
  lemma ReachesZero(ctx: Context)
    ensures Reaches(ctx, ctx, 0)
    ensures forall c :: Reaches(ctx, c, 0) ==> c == ctx
  {
  }

  /** Advancing is transitive, adding up the characters consumed. */
  lemma ReachesTrans(ctx: Context, c1: Context, n1: int, c2: Context, n2: int)
    requires Reaches(ctx, c1, n1) && Reaches(c1, c2, n2)
    ensures Reaches(ctx, c2, n1 + n2) && Reaches(ctx, c2, n2 + n1)
  {
    AdvanceAdvance(ctx, n1, n2);
  }

  /** `backtrack(n, s)` keeps nothing of the current state: the result's state is exactly `s`, and
      `backtrack(0, s)` keeps the offset. */
  lemma BacktrackReplacesState(ctx: Context, n: int, s: TextState)
    ensures Backtrack(ctx, n, s).state == s
    ensures Backtrack(ctx, n, s).stream.data == ctx.stream.data
    ensures Backtrack(ctx, 0, s).stream == ctx.stream
  {
  }

  /** `update(v)` keeps the stream and only updates the position. */
  lemma UpdateKeepsStream(ctx: Context, v: string)
    ensures Update(ctx, v).stream == ctx.stream
    ensures Update(ctx, v).state == UpdateAsWritten(ctx.state, v)
  {
  }

  /** Consuming `n` characters and then backtracking by `n` to the earlier state gives back the
      context the parser started from. */
  lemma BacktrackAdvance(ctx: Context, n: int)
    requires CanAdvance(ctx, n)
    ensures Backtrack(Advance(ctx, n), n, ctx.state) == ctx
  {
  }

  /** Consuming `a` and then `b` characters is consuming `a + b` characters. */
  lemma {:induction false} AdvanceAdvance(ctx: Context, a: int, b: int)
    requires CanAdvance(ctx, a) && CanAdvance(Advance(ctx, a), b)
    ensures CanAdvance(ctx, a + b)
    ensures Advance(Advance(ctx, a), b) == Advance(ctx, a + b)
    decreases if a < 0 then 0 else a
  {
    if a != 0 {
      AdvanceAdvance(Step(ctx), a - 1, b);
    }
  }

  /** Consuming `n` characters one at a time, as `item` does, leaves the position one update over
      all of them would give with the corrected column (`UpdateState`), except that after a newline
      the column is one more: line `l` starts at column 1 once a newline has been read. */
  lemma {:induction false} AdvanceState(ctx: Context, n: int)
    requires CanAdvance(ctx, n)
    ensures var off := ctx.stream.offset;
      n > 0 ==>
        var t := ctx.stream.data[off..off + n];
        var st, u := Advance(ctx, n).state, UpdateState(ctx.state, t);
        st.file == None && st.line == u.line && st.column == u.column + (if '\n' in t then 1 else 0)
    decreases if n < 0 then 0 else n
  {
    if n > 0 {
      var d, off := ctx.stream.data, ctx.stream.offset;
      var next := Step(ctx);
      var head := [d[off]];
      assert Advance(ctx, n) == Advance(next, n - 1);
      var k := if d[off] == '\n' then 1 else 0;
      var u0 := UpdateState(ctx.state, head);
      assert next.state.file == None && next.state.line == u0.line && next.state.column == u0.column + k by {
        UpdateAsWrittenChar(ctx.state, d[off]);
      }
      if n > 1 {
        var rest := d[off + 1..off + n];
        var st := Advance(next, n - 1).state;
        var nlRest := '\n' in rest;
        assert st.file == None && st.line == UpdateState(next.state, rest).line
          && st.column == UpdateState(next.state, rest).column + (if nlRest then 1 else 0) by {
          AdvanceState(next, n - 1);
          assert next.stream.data[next.stream.offset..next.stream.offset + (n - 1)] == rest;
        }
        ColumnShift(next.state, u0, rest, k);
        assert d[off..off + n] == head + rest;
        UpdateFold(ctx.state, head, rest);
        assert ('\n' in head + rest) == (k == 1 || nlRest);
      } else {
        assert d[off..off + n] == head;
      }
    }
  }

  /** Two positions on the same line whose columns differ by `k` still differ by `k` after an update
      without a newline, and agree after one with a newline. */
  lemma ColumnShift(x: TextState, y: TextState, v: string, k: int)
    requires x.line == y.line && x.column == y.column + k
    ensures UpdateState(x, v).file == UpdateState(y, v).file && UpdateState(x, v).line == UpdateState(y, v).line
    ensures UpdateState(x, v).column == UpdateState(y, v).column + (if '\n' in v then 0 else k)
  {
    CountSpec(v, '\n');
  }

  /** With the source's starting position, `TextState()` at column 0, the first character of line 1
      is at column 0 and the first character of line 2 at column 1. */
  lemma ColumnsAsWritten()
    ensures var ctx := Context(Cursor("\nx", 0), InitialState);
      CanAdvance(ctx, 1) && ctx.state.column == 0 && Advance(ctx, 1).state == TextState(None, 2, 1)
  {
    var ctx := Context(Cursor("\nx", 0), InitialState);
    assert Advance(ctx, 1) == Advance(Step(ctx), 0);
  }

  /** Starting at column 1, every line starts at column 1: wherever the text read so far is empty or
      ends in a newline, the column is 1. */
  lemma LineStartsAtColumnOne(ctx: Context, n: int)
    requires ctx.state.column == 1 && CanAdvance(ctx, n)
    requires n == 0 || ctx.stream.data[ctx.stream.offset + n - 1] == '\n'
    ensures Advance(ctx, n).state.column == 1
  {
    if n > 0 {
      var off := ctx.stream.offset;
      var t := ctx.stream.data[off..off + n];
      AdvanceState(ctx, n);
      assert t[n - 1] == '\n';
      RFindSpec(t, '\n');
      CountSpec(t, '\n');
    }
  }

}
