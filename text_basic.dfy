/**
 * The lexical primitives of parsec/text/basic.py: single characters, literals, character classes,
 * signed integers in four radices, identifiers, quoted strings, fixed-width digit groups, dates and
 * times, and the `lexeme` wrapper.
 *
 * A character is a one-character string in the source, and `(p & q).map(''.join)` concatenates the
 * strings of the two parts; `Str` and `Cat` say exactly that. `map(''.join)` over a list of
 * characters is the identity on `string`, so it is not written out. The character classes are
 * Python's `str` predicates restricted to ASCII.
 *
 * Each parser is described by a scan: a function of the input and the starting index that says
 * whether the parser succeeds there, what it returns and how much it reads.
 */
module TextBasic {
  import opened Wrappers
  import opened Errors
  import opened TextContext
  import opened Contexts
  import opened Core
  import opened CoreProperties
  import opened Scanning

  // ---------------------------------------------------------------------------------------------
  // Characters and literals

  /** `char(c)`: `item.eq(c)`. */
  function Char(c: char): Parser<char>
  {
    Eq(Item, c, CharRepr)
  }

  /** The class of a single character. */
  function Is(c: char): char -> bool
  {
    x => x == c
  }

  /** `char(c)` reads one character, `c`. */
  lemma CharScans(c: char)
    ensures Scans(Char(c), CharScan(Is(c))) && Progressive(Char(c))
  {
    WhereItemScans(x => x == c, CharRepr);
    CharScanEquiv(Char(c), x => x == c, Is(c));
  }

  /** Where `char(c)` fails: at the end of the input it consumes nothing and reports the end; on a
      different character it consumes that character and reports it as unexpected. */
  lemma CharFailure(c: char, ctx: Context)
    ensures AtEnd(ctx.stream) ==> Char(c)(ctx) == Result(ctx, Fail(EOSError(FormatState(ctx.state))), 0)
    ensures !AtEnd(ctx.stream) && ctx.stream.data[ctx.stream.offset] != c ==>
      Char(c)(ctx).consumed == 1
      && Char(c)(ctx).outcome == Fail(UnExpected(CharRepr(ctx.stream.data[ctx.stream.offset]), FormatState(Advance(ctx, 1).state)))
  {
    ItemSpec(ctx);
    WhereSpec(Item, x => x == c, CharRepr, ctx);
  }

  /** `literal(text)`: `tokens(text)`, joined back into a string. */
  function Literal(text: string): Parser<string>
  {
    Tokens(text)
  }

  /** `literal(text)` succeeds exactly on input that begins with `text`, returning it and consuming
      its length; otherwise it fails just after the first character that differs, or where the input
      ends. */
  lemma LiteralSpec(text: string, ctx: Context)
    ensures Literal(text)(ctx).outcome.Okay? <==> StartsWith(ctx, text)
    ensures Literal(text)(ctx).outcome.Okay? ==> Yields(Literal(text)(ctx), ctx, text, |text|)
    ensures Literal(text)(ctx).outcome.Fail? ==>
      var k := Agreement(ctx, text);
      k < |text| && Literal(text)(ctx).consumed == k + (if 0 <= ctx.stream.offset + k < |ctx.stream.data| then 1 else 0)
  {
    TokensSpec(text, ctx);
    TokensWellBehaved(text);
    TokensFailure(text, ctx);
    assert Accounts(ctx, Tokens(text)(ctx));
  }

  /** The punctuation parsers. */
  const Dot := Char('.')
  const Comma := Char(',')
  const Semicolon := Char(';')
  const LRound := Char('(')
  const RRound := Char(')')
  const LBracket := Char('[')
  const RBracket := Char(']')
  const LCurly := Char('{')
  const RCurly := Char('}')
  const Underline := Char('_')
  const Colon := Char(':')
  const Hyphen := Char('-')
  const Quotation := Char('"')

  // ---------------------------------------------------------------------------------------------
  // Character classes

  predicate IsLower(c: char) { 'a' <= c <= 'z' }
  predicate IsUpper(c: char) { 'A' <= c <= 'Z' }
  predicate IsAlpha(c: char) { IsLower(c) || IsUpper(c) }
  predicate IsDigit(c: char) { '0' <= c <= '9' }
  predicate IsAlnum(c: char) { IsAlpha(c) || IsDigit(c) }

  /** `str.isspace` on ASCII: space, tab through carriage return, and the four separators
      0x1c to 0x1f. */
  predicate IsSpace(c: char)
  {
    c == ' ' || 9 <= c as int <= 13 || 28 <= c as int <= 31
  }

  predicate IsBinDigit(c: char) { c in "01" }
  predicate IsOctDigit(c: char) { c in "01234567" }
  predicate IsHexDigit(c: char) { c in "0123456789ABCDEFabcdef" }

  const Alpha := Where(Item, IsAlpha, CharRepr)
  const Alnum := Where(Item, IsAlnum, CharRepr)
  const Lower := Where(Item, IsLower, CharRepr)
  const Upper := Where(Item, IsUpper, CharRepr)
  const Blank := Where(Item, IsSpace, CharRepr)
  const Digit := Where(Item, IsDigit, CharRepr)
  const BinDigit := Range(Item, "01", CharRepr)
  const OctDigit := Range(Item, "01234567", CharRepr)
  const HexDigit := Range(Item, "0123456789ABCDEFabcdef", CharRepr)

  /** Each class parser reads exactly one character of its class. */
  lemma ClassesScan()
    ensures Scans(Alpha, CharScan(IsAlpha)) && Scans(Alnum, CharScan(IsAlnum))
    ensures Scans(Lower, CharScan(IsLower)) && Scans(Upper, CharScan(IsUpper))
    ensures Scans(Blank, CharScan(IsSpace)) && Scans(Digit, CharScan(IsDigit))
    ensures Scans(BinDigit, CharScan(IsBinDigit)) && Scans(OctDigit, CharScan(IsOctDigit))
    ensures Scans(HexDigit, CharScan(IsHexDigit))
  {
    WhereItemScans(IsAlpha, CharRepr);
    WhereItemScans(IsAlnum, CharRepr);
    WhereItemScans(IsLower, CharRepr);
    WhereItemScans(IsUpper, CharRepr);
    WhereItemScans(IsSpace, CharRepr);
    WhereItemScans(IsDigit, CharRepr);
    WhereItemScans(x => x in "01", CharRepr);
    WhereItemScans(x => x in "01234567", CharRepr);
    WhereItemScans(x => x in "0123456789ABCDEFabcdef", CharRepr);
    CharScanEquiv(BinDigit, x => x in "01", IsBinDigit);
    CharScanEquiv(OctDigit, x => x in "01234567", IsOctDigit);
    CharScanEquiv(HexDigit, x => x in "0123456789ABCDEFabcdef", IsHexDigit);
  }

  // ---------------------------------------------------------------------------------------------
  // Strings from characters

  /** A character parser whose value is read as a one-character string. */
  function Str(p: Parser<char>): Parser<string>
  {
    Map(p, (c: char) => [c])
  }

  /** `(p & q).map(''.join)` on two string parsers. */
  function Cat(p: Parser<string>, q: Parser<string>): Parser<string>
  {
    Map(Pair(p, q), (t: (string, string)) => t.0 + t.1)
  }

  /** One character satisfying `f`, as a string. */
  function CharStrScan(f: char -> bool): Scan<string>
  {
    (d: string, i: int) => if 0 <= i < |d| && f(d[i]) then Some(([d[i]], 1)) else None
  }

  /** `m1`, then `m2` where it stopped; the two strings joined. */
  function JoinScan(m1: Scan<string>, m2: Scan<string>): Scan<string>
  {
    MapScan(ThenScan(m1, m2), (t: (string, string)) => t.0 + t.1)
  }

  lemma StrScans(p: Parser<char>, f: char -> bool)
    requires Scans(p, CharScan(f))
    ensures Scans(Str(p), CharStrScan(f))
  {
    MapScans(p, CharScan(f), (c: char) => [c]);
    forall d, i ensures MapScan(CharScan(f), (c: char) => [c])(d, i) == CharStrScan(f)(d, i) {
    }
    ScansEquiv(Str(p), MapScan(CharScan(f), (c: char) => [c]), CharStrScan(f));
  }

  /** `(p & q).map(''.join)` reads what `p` reads and then what `q` reads, and joins the two. */
  lemma CatScans(p: Parser<string>, m1: Scan<string>, q: Parser<string>, m2: Scan<string>)
    requires Scans(p, m1) && Scans(q, m2)
    ensures Scans(Cat(p, q), JoinScan(m1, m2))
  {
    PairScans(p, m1, q, m2);
    MapScans(Pair(p, q), ThenScan(m1, m2), (t: (string, string)) => t.0 + t.1);
  }

  /** What `JoinScan` finds, case by case. */
  lemma JoinAt(m1: Scan<string>, m2: Scan<string>, d: string, i: int)
    ensures JoinScan(m1, m2)(d, i) ==
      match m1(d, i)
      case None => None
      case Some(a) =>
        match m2(d, i + a.1)
        case None => None
        case Some(b) => Some((a.0 + b.0, a.1 + b.1))
  {
    match m1(d, i)
    case None =>
    case Some(a) =>
      match m2(d, i + a.1)
      case None =>
      case Some(b) =>
        assert ThenScan(m1, m2)(d, i) == Some(((a.0, b.0), a.1 + b.1));
  }

  /** Where both scans find something, the join finds the two values joined. */
  lemma JoinSome(m1: Scan<string>, m2: Scan<string>, d: string, i: int, a: (string, nat), b: (string, nat))
    requires m1(d, i) == Some(a) && m2(d, i + a.1) == Some(b)
    ensures JoinScan(m1, m2)(d, i) == Some((a.0 + b.0, a.1 + b.1))
  {
    assert ThenScan(m1, m2)(d, i) == Some(((a.0, b.0), a.1 + b.1));
  }

  /** Where either scan finds nothing, the join finds nothing. */
  lemma JoinNone(m1: Scan<string>, m2: Scan<string>, d: string, i: int)
    requires m1(d, i).None? || m2(d, i + m1(d, i).value.1).None?
    ensures JoinScan(m1, m2)(d, i) == None
  {
  }

  // ---------------------------------------------------------------------------------------------
  // Verbatim scans

  /** From a position in the input, the scan returns exactly the text it reads. */
  ghost predicate Verbatim(m: Scan<string>)
  {
    forall d, i :: 0 <= i <= |d| && m(d, i).Some? ==>
      i + m(d, i).value.1 <= |d| && m(d, i).value.0 == d[i..i + m(d, i).value.1]
  }

  /** Reading one character of a class, or a run of it, returns what was read. */
  lemma ClassScansVerbatim(f: char -> bool)
    ensures Verbatim(CharStrScan(f)) && Verbatim(RunScan(f)) && Verbatim(Run1Scan(f))
  {
    forall d, i | 0 <= i <= |d|
      ensures i + |Run(d, i, f)| <= |d| && Run(d, i, f) == d[i..i + |Run(d, i, f)|]
    {
      RunSpec(d, i, f);
      if Run(d, i, f) == [] {
        assert d[i..i] == [];
      }
    }
  }

  /** Reading nothing returns nothing. */
  lemma NothingVerbatim()
    ensures Verbatim(Nothing(""))
  {
    forall d: string, i: int | 0 <= i <= |d|
      ensures d[i..i] == ""
    {
    }
  }

  /** Joining what two verbatim scans read, one after the other, returns what was read. */
  lemma JoinVerbatim(m1: Scan<string>, m2: Scan<string>)
    requires Verbatim(m1) && Verbatim(m2)
    ensures Verbatim(JoinScan(m1, m2))
  {
    forall d, i | 0 <= i <= |d| && JoinScan(m1, m2)(d, i).Some?
      ensures i + JoinScan(m1, m2)(d, i).value.1 <= |d|
      ensures JoinScan(m1, m2)(d, i).value.0 == d[i..i + JoinScan(m1, m2)(d, i).value.1]
    {
      JoinAt(m1, m2, d, i);
      var a := m1(d, i).value;
      var b := m2(d, i + a.1).value;
      assert d[i..i + a.1 + b.1] == d[i..i + a.1] + d[i + a.1..i + a.1 + b.1];
    }
  }

  /** The first of two verbatim scans that finds something returns what it read. */
  lemma OrVerbatim(m1: Scan<string>, m2: Scan<string>)
    requires Verbatim(m1) && Verbatim(m2)
    ensures Verbatim(OrScan(m1, m2))
  {
  }

  /** A scan equal to a verbatim scan everywhere is verbatim. */
  lemma VerbatimEquiv(m1: Scan<string>, m2: Scan<string>)
    requires Verbatim(m1) && forall d, i :: m1(d, i) == m2(d, i)
    ensures Verbatim(m2)
  {
  }
}
