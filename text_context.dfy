/**
 * The text stream and the text position (parsec/text/context.py).
 *
 * A `TextStream` object owns a string and an offset that `read` advances in place; `peek`, `move`,
 * `seek`, `tell` and `eos` leave it as it is. The parser model threads the same stream as a value,
 * a `Cursor`, and every method of the class is specified by the value function of the same name.
 */
module TextContext {
  import opened Wrappers

  function Min(a: int, b: int): int { if a <= b then a else b }

  /** Where Python's slice bound `i` lands in a string of length `len`: a negative bound counts
      from the end, and every bound is clamped into `[0, len]`. */
  function SliceBound(i: int, len: nat): (k: nat)
    ensures k <= len
    ensures 0 <= i <= len ==> k == i
    ensures i > len ==> k == len
    ensures i < 0 && 0 <= i + len ==> k == i + len
    ensures i + len < 0 ==> k == 0
  {
    if i < 0 then (if i + len < 0 then 0 else i + len) else if i > len then len else i
  }

  /** Python's `s[a:b]`. */
  function PySlice(s: string, a: int, b: int): (r: string)
    ensures |r| <= |s|
    ensures 0 <= a <= b <= |s| ==> r == s[a..b]
  {
    var i, j := SliceBound(a, |s|), SliceBound(b, |s|);
    if i < j then s[i..j] else []
  }

  /** The value of a text stream: the text and the current offset. */
  datatype Cursor = Cursor(data: string, offset: int)

  /** `eos()`: the offset is outside `[0, len(data))`. */
  predicate AtEnd(c: Cursor)
  {
    !(0 <= c.offset < |c.data|)
  }

  /** `peek(n)`: `data[offset:offset+n]`. */
  function PeekAt(c: Cursor, n: int): seq<char>
  {
    PySlice(c.data, c.offset, c.offset + n)
  }

  /** `move(k)`: a stream over the same text at `offset + k`. */
  function MoveBy(c: Cursor, k: int): Cursor
  {
    Cursor(c.data, c.offset + k)
  }

  /** `seek(k)`: a stream over the same text at offset `k`. */
  function SeekTo(c: Cursor, k: int): Cursor
  {
    Cursor(c.data, k)
  }

  /** From a non-negative offset, `peek(n)` returns the next `n` characters, fewer near the end,
      and none past it. */
  lemma PeekWithin(c: Cursor, n: int)
    requires 0 <= c.offset && 0 <= n
    ensures c.offset <= |c.data| ==>
      PeekAt(c, n) == c.data[c.offset..Min(c.offset + n, |c.data|)]
      && |PeekAt(c, n)| == Min(n, |c.data| - c.offset)
    ensures c.offset > |c.data| ==> PeekAt(c, n) == []
  {
  }

  /** From a non-negative offset, the stream is at its end exactly when there is nothing to peek. */
  lemma AtEndIffNothingToPeek(c: Cursor)
    requires 0 <= c.offset
    ensures AtEnd(c) <==> PeekAt(c, 1) == []
  {
  }

  /** Moving and seeking compose as offsets do, and never touch the text. */
  lemma MoveSeekLaws(c: Cursor, j: int, k: int)
    ensures MoveBy(MoveBy(c, j), k) == MoveBy(c, j + k)
    ensures MoveBy(MoveBy(c, k), -k) == c
    ensures SeekTo(c, c.offset + k) == MoveBy(c, k)
    ensures MoveBy(c, k).data == c.data && SeekTo(c, k).data == c.data
  {
  }

  class TextStream {
    const data: string
    var offset: int

    constructor (text: string, offset: int)
      ensures data == text && this.offset == offset
    {
      data := text;
      this.offset := offset;
    }

    function View(): Cursor
      reads this
    {
      Cursor(data, offset)
    }

    /** `read(n)`: advances the offset in place by exactly `n`, even past the end, and returns the
        characters `peek(n)` would have returned before the call. */
    method Read(n: int) returns (items: seq<char>)
      modifies this
      ensures offset == old(offset) + n
      ensures items == PeekAt(old(View()), n)
    {
      offset := offset + n;
      items := PySlice(data, offset - n, offset);
    }

    method Peek(n: int) returns (items: seq<char>)
      ensures items == PeekAt(View(), n)
    {
      items := PySlice(data, offset, offset + n);
    }

    /** `move(k)`: a new stream; this one keeps its offset. */
    method Move(k: int) returns (s: TextStream)
      ensures fresh(s) && s.View() == MoveBy(View(), k)
    {
      s := new TextStream(data, offset + k);
    }

    /** `seek(k)`: a new stream; this one keeps its offset. */
    method Seek(k: int) returns (s: TextStream)
      ensures fresh(s) && s.View() == SeekTo(View(), k)
    {
      s := new TextStream(data, k);
    }

    method Tell() returns (k: int)
      ensures k == offset
    {
      k := offset;
    }

    method Eos() returns (b: bool)
      ensures b == AtEnd(View())
    {
      b := !(0 <= offset < |data|);
    }
  }

  /** Reading `n` characters and then moving back by `n` gives a stream at the original offset
      that has seen the same text a `peek(n)` would have shown. */
  method ReadThenMoveBack(t: TextStream, n: int) returns (items: seq<char>, back: TextStream)
    modifies t
    ensures items == PeekAt(old(t.View()), n)
    ensures back.View() == old(t.View()) && t.offset == old(t.offset) + n
  {
    items := t.Read(n);
    back := t.Move(-n);
  }

  /** The diagnostic position: an optional file name, a line and a column. */
  datatype TextState = TextState(file: Option<string>, line: int, column: int)

  /** `TextState()`: line 1, column 0, no file. */
  const InitialState: TextState := TextState(None, 1, 0)

  /** `value.count(ch)` for a single character. */
  function Count(v: string, ch: char): nat
  {
    if v == [] then 0 else Count(v[..|v| - 1], ch) + (if v[|v| - 1] == ch then 1 else 0)
  }

  /** There are at most `|v|` occurrences, and none exactly when `ch` is not in `v`. */
  lemma {:induction false} CountSpec(v: string, ch: char)
    ensures Count(v, ch) <= |v|
    ensures Count(v, ch) == 0 <==> ch !in v
  {
    if v != [] {
      CountSpec(v[..|v| - 1], ch);
      assert v == v[..|v| - 1] + [v[|v| - 1]];
    }
  }

  lemma {:induction false} CountAppend(a: string, b: string, ch: char)
    ensures Count(a + b, ch) == Count(a, ch) + Count(b, ch)
    decreases |b|
  {
    if b == [] {
      assert a + b == a;
    } else {
      var ab := a + b;
      assert ab[..|ab| - 1] == a + b[..|b| - 1];
      CountAppend(a, b[..|b| - 1], ch);
    }
  }

  /** `value.rfind(ch)`: the last index of `ch`, or -1. */
  function RFind(v: string, ch: char): int
  {
    if v == [] then -1
    else if v[|v| - 1] == ch then |v| - 1
    else RFind(v[..|v| - 1], ch)
  }

  /** `rfind` gives an index holding `ch` with no `ch` after it, or -1 when `ch` is not in `v`. */
  lemma {:induction false} RFindSpec(v: string, ch: char)
    ensures -1 <= RFind(v, ch) < |v|
    ensures RFind(v, ch) >= 0 ==> v[RFind(v, ch)] == ch
    ensures forall i :: RFind(v, ch) < i < |v| ==> v[i] != ch
    ensures RFind(v, ch) == -1 <==> ch !in v
  {
    if v != [] && v[|v| - 1] != ch {
      RFindSpec(v[..|v| - 1], ch);
      assert v == v[..|v| - 1] + [v[|v| - 1]];
    }
  }

  /** `TextState.update(value)` as the source writes it: after a newline the column becomes the
      index just past the last newline within `value`. */
  function UpdateAsWritten(s: TextState, v: string): TextState
  {
    var lines := Count(v, '\n');
    TextState(None, s.line + lines, if lines > 0 then RFind(v, '\n') + 1 else s.column + |v|)
  }

  /** The update as written: no file name, `count('\n')` lines further; without a newline the
      column moves right by `len(value)`, and otherwise it is one past the index of the last newline
      in `value`. */
  lemma UpdateAsWrittenSpec(s: TextState, v: string)
    ensures UpdateAsWritten(s, v).file == None
    ensures UpdateAsWritten(s, v).line == s.line + Count(v, '\n')
    ensures '\n' !in v ==> UpdateAsWritten(s, v).column == s.column + |v|
    ensures '\n' in v ==>
      var col := UpdateAsWritten(s, v).column;
      1 <= col <= |v| && v[col - 1] == '\n' && forall i :: col <= i < |v| ==> v[i] != '\n'
  {
    CountSpec(v, '\n');
    RFindSpec(v, '\n');
  }

  /** What `item` does to the position, one character at a time: a newline moves to column 1 of the
      next line, anything else one column to the right. Only after a newline does it differ from the
      corrected update, by one column. */
  lemma UpdateAsWrittenChar(s: TextState, c: char)
    ensures UpdateAsWritten(s, [c]) == if c == '\n' then TextState(None, s.line + 1, 1)
                                       else TextState(None, s.line, s.column + 1)
    ensures UpdateAsWritten(s, [c]).line == UpdateState(s, [c]).line
    ensures UpdateAsWritten(s, [c]).column == UpdateState(s, [c]).column + (if c == '\n' then 1 else 0)
  {
    assert [c][..0] == [];
    assert Count([c], '\n') == if c == '\n' then 1 else 0;
  }

  /** `TextState.update(value)` with the column counting the characters after the last newline,
      so that a line starts at column 0 as the first line does. Like the source, the new state
      carries no file name. */
  function UpdateState(s: TextState, v: string): TextState
  {
    var lines := Count(v, '\n');
    TextState(None, s.line + lines, if lines > 0 then |v| - RFind(v, '\n') - 1 else s.column + |v|)
  }

  /** The new position has no file name and is `count('\n')` lines further; its column adds the
      length of `value` when `value` has no newline, and otherwise counts the characters after the
      last one. */
  lemma UpdateStateSpec(s: TextState, v: string)
    ensures UpdateState(s, v).file == None
    ensures UpdateState(s, v).line == s.line + Count(v, '\n')
    ensures '\n' !in v ==> UpdateState(s, v).column == s.column + |v|
    ensures '\n' in v ==>
      var col := UpdateState(s, v).column;
      0 <= col < |v| && v[|v| - 1 - col] == '\n' && forall i :: |v| - col <= i < |v| ==> v[i] != '\n'
  {
    CountSpec(v, '\n');
    RFindSpec(v, '\n');
  }

  /** One character at a time: a newline moves to column 0 of the next line, anything else one
      column to the right. */
  lemma UpdateStateChar(s: TextState, c: char)
    ensures UpdateState(s, [c]) == if c == '\n' then TextState(None, s.line + 1, 0)
                                    else TextState(None, s.line, s.column + 1)
  {
    assert [c][..0] == [];
    assert Count([c], '\n') == if c == '\n' then 1 else 0;
  }

  lemma {:induction false} RFindAppend(a: string, b: string, ch: char)
    ensures RFind(a + b, ch) == if ch in b then |a| + RFind(b, ch) else RFind(a, ch)
    decreases |b|
  {
    if b == [] {
      assert a + b == a;
    } else {
      var ab := a + b;
      assert ab[..|ab| - 1] == a + b[..|b| - 1];
      assert b == b[..|b| - 1] + [b[|b| - 1]];
      if b[|b| - 1] != ch {
        RFindAppend(a, b[..|b| - 1], ch);
      }
    }
  }

  /** Updating with `a` and then with `b` is updating with `a + b`: the position is a fold over
      the consumed text, whatever way the text is cut into pieces. */
  lemma UpdateFold(s: TextState, a: string, b: string)
    ensures UpdateState(UpdateState(s, a), b) == UpdateState(s, a + b)
  {
    CountAppend(a, b, '\n');
    RFindAppend(a, b, '\n');
    CountSpec(b, '\n');
  }

  /** The update as written puts the column at 1 after a single newline, while the first line
      starts at column 0; and it is not a fold: "a" then "\n" gives column 1, "a\n" at once gives 2. */
  lemma UpdateAsWrittenIsNotAFold()
    ensures UpdateAsWritten(InitialState, "\n") == TextState(None, 2, 1) && InitialState.column == 0
    ensures UpdateAsWritten(UpdateAsWritten(InitialState, "a"), "\n").column == 1
    ensures UpdateAsWritten(InitialState, "a\n").column == 2
  {
    assert "\n"[..0] == [];
    assert "a"[..0] == [];
    assert "a\n"[..1] == "a";
    assert "a"[..0] == [];
  }

  function DigitChar(d: int): char
    requires 0 <= d < 10
  {
    "0123456789"[d]
  }

  /** `str(n)` for a natural number. */
  function NatToString(n: nat): string
  {
    if n < 10 then [DigitChar(n)] else NatToString(n / 10) + [DigitChar(n % 10)]
  }

  /** `str(n)` for an integer. */
  function IntToString(n: int): string
  {
    if n < 0 then "-" + NatToString(-n) else NatToString(n)
  }

  predicate IsDecimal(s: string)
  {
    |s| > 0 && forall i :: 0 <= i < |s| ==> '0' <= s[i] <= '9'
  }

  /** The value of a string of decimal digits. */
  function DecimalValue(s: string): nat
    requires IsDecimal(s)
  {
    if |s| == 1 then (s[0] as int - '0' as int)
    else 10 * DecimalValue(s[..|s| - 1]) + (s[|s| - 1] as int - '0' as int)
  }

  lemma {:induction false} NatToStringRoundTrip(n: nat)
    ensures IsDecimal(NatToString(n)) && DecimalValue(NatToString(n)) == n
  {
    if n >= 10 {
      NatToStringRoundTrip(n / 10);
      var s := NatToString(n);
      assert s[..|s| - 1] == NatToString(n / 10);
    }
  }

  lemma IntToStringInjective(a: int, b: int)
    ensures IntToString(a) == IntToString(b) ==> a == b
    ensures ':' !in IntToString(a)
  {
    NatToStringRoundTrip(if a < 0 then -a else a);
    NatToStringRoundTrip(if b < 0 then -b else b);
    if IntToString(a) == IntToString(b) {
      if a < 0 && b < 0 {
        assert NatToString(-a) == IntToString(a)[1..];
      }
    }
  }

  /** `format()`: "line:column", or "file:line:column" when a file is set. */
  function FormatState(s: TextState): string
  {
    match s.file
    case None => IntToString(s.line) + ":" + IntToString(s.column)
    case Some(f) => f + ":" + IntToString(s.line) + ":" + IntToString(s.column)
  }

  lemma SplitAtFirstColon(x: string, y: string, x': string, y': string)
    requires ':' !in x && ':' !in x'
    requires x + ":" + y == x' + ":" + y'
    ensures x == x' && y == y'
  {
    var w := x + ":" + y;
    assert w == x' + ":" + y';
    assert w[|x|] == ':' && w[|x'|] == ':';
    assert forall i :: 0 <= i < |x| ==> w[i] == x[i] != ':';
    assert forall i :: 0 <= i < |x'| ==> w[i] == x'[i] != ':';
    assert x == (x + ":" + y)[..|x|];
    assert x' == (x' + ":" + y')[..|x'|];
    assert y == (x + ":" + y)[|x| + 1..];
    assert y' == (x' + ":" + y')[|x'| + 1..];
  }

  /** Without a file name, the formatted position determines the line and the column. */
  lemma FormatDeterminesPosition(s: TextState, t: TextState)
    requires s.file == None && t.file == None
    requires FormatState(s) == FormatState(t)
    ensures s == t
  {
    IntToStringInjective(s.line, t.line);
    IntToStringInjective(s.column, t.column);
    IntToStringInjective(t.line, s.line);
    SplitAtFirstColon(IntToString(s.line), IntToString(s.column), IntToString(t.line), IntToString(t.column));
  }

  function HexChar(d: int): char
    requires 0 <= d < 16
  {
    "0123456789abcdef"[d]
  }

  /** Python's `repr` of a one-character string, for ASCII characters: quoted with single quotes,
      or double quotes around a single quote; backslash, newline, carriage return and tab escaped
      by name, other control characters as `\xNN`. */
  function CharRepr(c: char): string
  {
    if c == '\'' then "\"'\""
    else
      var body :=
        if c == '\\' then "\\\\"
        else if c == '\n' then "\\n"
        else if c == '\r' then "\\r"
        else if c == '\t' then "\\t"
        else if c < ' ' || c as int == 0x7f then "\\x" + [HexChar(c as int / 16), HexChar(c as int % 16)]
        else [c];
      "'" + body + "'"
  }

  /** A printable character other than a quote or a backslash is shown between single quotes. */
  lemma CharReprPrintable(c: char)
    requires ' ' <= c && c as int < 0x7f && c != '\'' && c != '\\'
    ensures CharRepr(c) == ['\'', c, '\'']
  {
  }
}
