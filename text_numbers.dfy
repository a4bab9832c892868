/**
 * The number parsers of parsec/text/basic.py: the optional sign, digit runs, signed integers in
 * decimal and with the `0b`, `0o` and `0x` prefixes, `integer` (which converts them with Python's
 * `int(text, base)`), and the textual shape of `floatnumber` and `number`.
 */
module TextNumbers {
  import opened Wrappers
  import opened Errors
  import opened TextContext
  import opened Contexts
  import opened Core
  import opened CoreProperties
  import opened Scanning
  import opened TextBasic

  // ---------------------------------------------------------------------------------------------
  // Signs and digit runs

  /** The optional sign at index `i`. */
  function Sign(d: string, i: int): (s: string)
    ensures |s| <= 1 && (s != [] ==> 0 <= i < |d| && s == [d[i]] && d[i] in "+-")
  {
    if 0 <= i < |d| && d[i] in "+-" then [d[i]] else []
  }

  /** The sign, or nothing, read as a string. */
  function SignAt(d: string, i: int): Option<(string, nat)>
  {
    Some((Sign(d, i), |Sign(d, i)|))
  }

  /** `_num_sign`: an optional '+' or '-', as a string, empty when absent. */
  const NumSign: Parser<string> := Default(Str(Range(Item, "+-", CharRepr)), "")

  /** `_num_sign` reads the sign if there is one, and never fails. */
  lemma NumSignScans()
    ensures Scans(NumSign, SignAt)
  {
    var f := (x: char) => x in "+-";
    WhereItemScans(f, CharRepr);
    StrScans(Range(Item, "+-", CharRepr), f);
    OkayScans("");
    AlterScans(Str(Range(Item, "+-", CharRepr)), CharStrScan(f), OkayParser(""), Nothing(""));
    forall d, i ensures OrScan(CharStrScan(f), Nothing(""))(d, i) == SignAt(d, i) {
    }
    ScansEquiv(NumSign, OrScan(CharStrScan(f), Nothing("")), SignAt);
  }

  /** The digit classes consume when they succeed, so they can be repeated. */
  lemma DigitClassesProgressive()
    ensures Progressive(Digit) && Progressive(BinDigit) && Progressive(OctDigit) && Progressive(HexDigit)
  {
    ClassesScan();
    CharScanProgressive(Digit, IsDigit);
    CharScanProgressive(BinDigit, IsBinDigit);
    CharScanProgressive(OctDigit, IsOctDigit);
    CharScanProgressive(HexDigit, IsHexDigit);
  }

  /** `_digits`, `_digits1`, `_bindigit1`, `_octdigit1`, `_hexdigit1`. */
  const Digits: Parser<string> := (DigitClassesProgressive(); Many(Digit))
  const Digits1: Parser<string> := (DigitClassesProgressive(); Some1(Digit))
  const BinDigits1: Parser<string> := (DigitClassesProgressive(); Some1(BinDigit))
  const OctDigits1: Parser<string> := (DigitClassesProgressive(); Some1(OctDigit))
  const HexDigits1: Parser<string> := (DigitClassesProgressive(); Some1(HexDigit))

  /** Each digit-run parser reads the longest run of its digits; all but `_digits` need one. */
  lemma DigitRunsScan()
    ensures Scans(Digits, RunScan(IsDigit)) && Scans(Digits1, Run1Scan(IsDigit))
    ensures Scans(BinDigits1, Run1Scan(IsBinDigit)) && Scans(OctDigits1, Run1Scan(IsOctDigit))
    ensures Scans(HexDigits1, Run1Scan(IsHexDigit))
  {
    ClassesScan();
    ManyScans(Digit, IsDigit);
    Some1Scans(Digit, IsDigit);
    Some1Scans(BinDigit, IsBinDigit);
    Some1Scans(OctDigit, IsOctDigit);
    Some1Scans(HexDigit, IsHexDigit);
  }

  // ---------------------------------------------------------------------------------------------
  // Integer texts

  /** `decinteger`: an optional sign, then one or more decimal digits. */
  const DecInteger: Parser<string> := Cat(NumSign, Digits1)

  /** An optional sign followed by the longest run of decimal digits, which must not be empty. */
  function DecimalAt(d: string, i: int): Option<(string, nat)>
  {
    var s := Sign(d, i);
    var r := Run(d, i + |s|, IsDigit);
    if r == [] then None else Some((s + r, |s| + |r|))
  }

  lemma DecimalJoin()
    ensures forall d, i :: JoinScan(SignAt, Run1Scan(IsDigit))(d, i) == DecimalAt(d, i)
  {
    forall d, i ensures JoinScan(SignAt, Run1Scan(IsDigit))(d, i) == DecimalAt(d, i) {
      var s := Sign(d, i);
      var r := Run(d, i + |s|, IsDigit);
      assert SignAt(d, i) == Some((s, |s|));
      assert Run1Scan(IsDigit)(d, i + |s|) == if r == [] then None else Some((r, |r|));
    }
  }

  /** `decinteger` reads an optional sign and the longest run of digits after it, and fails where
      no digit follows the sign. */
  lemma DecIntegerScans()
    ensures Scans(DecInteger, DecimalAt)
  {
    NumSignScans();
    DigitRunsScan();
    CatScans(NumSign, SignAt, Digits1, Run1Scan(IsDigit));
    DecimalJoin();
    ScansEquiv(DecInteger, JoinScan(SignAt, Run1Scan(IsDigit)), DecimalAt);
  }

  /** `(_num_sign & digits1.prefix(char('0') & _item.range(letters))).map(''.join)`. */
  function RadixInteger(letters: string, digits: Parser<string>): Parser<string>
  {
    Cat(NumSign, Prefix(digits, Pair(Char('0'), Range(Item, letters, CharRepr))))
  }

  const BinInteger: Parser<string> := RadixInteger("bB", BinDigits1)
  const OctInteger: Parser<string> := RadixInteger("oO", OctDigits1)
  const HexInteger: Parser<string> := RadixInteger("xX", HexDigits1)

  /** '0' followed by one of `letters`, then the longest non-empty run of class `f`. */
  function RadixDigitsAt(letters: string, f: char -> bool, d: string, j: int): Option<(string, nat)>
  {
    if 0 <= j && j + 1 < |d| && d[j] == '0' && d[j + 1] in letters && Run(d, j + 2, f) != [] then
      Some((Run(d, j + 2, f), 2 + |Run(d, j + 2, f)|))
    else None
  }

  /** An optional sign, '0', one of `letters`, then the longest run of digits of class `f`, which
      must not be empty; the text read drops the '0' and the letter. */
  function RadixAt(letters: string, f: char -> bool, d: string, i: int): Option<(string, nat)>
  {
    var s := Sign(d, i);
    match RadixDigitsAt(letters, f, d, i + |s|)
    case None => None
    case Some(r) => Some((s + r.0, |s| + r.1))
  }

  function RadixScan(letters: string, f: char -> bool): Scan<string>
  {
    (d: string, i: int) => RadixAt(letters, f, d, i)
  }

  /** The class of the characters in `letters`. */
  function In(letters: string): char -> bool
  {
    x => x in letters
  }

  lemma RadixPrefixAt(letters: string, d: string, j: int)
    ensures ThenScan(CharScan(Is('0')), CharScan(In(letters)))(d, j)
      == if 0 <= j && j + 1 < |d| && d[j] == '0' && d[j + 1] in letters then Some((('0', d[j + 1]), 2)) else None
  {
  }

  lemma RadixDigitsJoin(letters: string, f: char -> bool)
    ensures forall d, j ::
      SkipScan(ThenScan(CharScan(Is('0')), CharScan(In(letters))), Run1Scan(f))(d, j) == RadixDigitsAt(letters, f, d, j)
  {
    forall d, j ensures SkipScan(ThenScan(CharScan(Is('0')), CharScan(In(letters))), Run1Scan(f))(d, j)
      == RadixDigitsAt(letters, f, d, j)
    {
      RadixDigitsJoinAt(letters, f, d, j);
    }
  }

  lemma RadixDigitsJoinAt(letters: string, f: char -> bool, d: string, j: int)
    ensures SkipScan(ThenScan(CharScan(Is('0')), CharScan(In(letters))), Run1Scan(f))(d, j)
      == RadixDigitsAt(letters, f, d, j)
  {
    var pre := ThenScan(CharScan(Is('0')), CharScan(In(letters)));
    RadixPrefixAt(letters, d, j);
    if 0 <= j && j + 1 < |d| && d[j] == '0' && d[j + 1] in letters {
      var r := Run(d, j + 2, f);
      assert pre(d, j) == Some((('0', d[j + 1]), 2));
      if r == [] {
        assert ThenScan(pre, Run1Scan(f))(d, j) == None;
      } else {
        assert ThenScan(pre, Run1Scan(f))(d, j) == Some(((('0', d[j + 1]), r), 2 + |r|));
      }
    } else {
      assert ThenScan(pre, Run1Scan(f))(d, j) == None;
    }
  }

  lemma RadixJoin(letters: string, f: char -> bool)
    ensures forall d, i ::
      JoinScan(SignAt, SkipScan(ThenScan(CharScan(Is('0')), CharScan(In(letters))), Run1Scan(f)))(d, i)
      == RadixAt(letters, f, d, i)
  {
    var m := SkipScan(ThenScan(CharScan(Is('0')), CharScan(In(letters))), Run1Scan(f));
    RadixDigitsJoin(letters, f);
    forall d, i ensures JoinScan(SignAt, m)(d, i) == RadixAt(letters, f, d, i) {
      SignedJoin(m, d, i);
    }
  }

  /** An optional sign followed by what `m` reads. */
  lemma SignedJoin(m: Scan<string>, d: string, i: int)
    ensures JoinScan(SignAt, m)(d, i) ==
      var s := Sign(d, i);
      match m(d, i + |s|)
      case None => None
      case Some(r) => Some((s + r.0, |s| + r.1))
  {
    var s := Sign(d, i);
    assert SignAt(d, i) == Some((s, |s|));
    match m(d, i + |s|)
    case None =>
      assert ThenScan(SignAt, m)(d, i) == None;
    case Some(r) =>
      assert ThenScan(SignAt, m)(d, i) == Some(((s, r.0), |s| + r.1));
  }

  /** The radix integer parsers read a sign, the prefix and a non-empty run of digits. */
  lemma RadixScans(letters: string, digits: Parser<string>, f: char -> bool)
    requires Scans(digits, Run1Scan(f))
    ensures Scans(RadixInteger(letters, digits), RadixScan(letters, f))
  {
    var prefix := Pair(Char('0'), Range(Item, letters, CharRepr));
    var mprefix := ThenScan(CharScan(Is('0')), CharScan(In(letters)));
    NumSignScans();
    CharScans('0');
    WhereItemScans(In(letters), CharRepr);
    PairScans(Char('0'), CharScan(Is('0')), Range(Item, letters, CharRepr), CharScan(In(letters)));
    PrefixScans(digits, Run1Scan(f), prefix, mprefix);
    CatScans(NumSign, SignAt, Prefix(digits, prefix), SkipScan(mprefix, Run1Scan(f)));
    RadixJoin(letters, f);
    ScansEquiv(RadixInteger(letters, digits), JoinScan(SignAt, SkipScan(mprefix, Run1Scan(f))), RadixScan(letters, f));
  }

  lemma RadixIntegersScan()
    ensures Scans(BinInteger, RadixScan("bB", IsBinDigit))
    ensures Scans(OctInteger, RadixScan("oO", IsOctDigit))
    ensures Scans(HexInteger, RadixScan("xX", IsHexDigit))
  {
    DigitRunsScan();
    RadixScans("bB", BinDigits1, IsBinDigit);
    RadixScans("oO", OctDigits1, IsOctDigit);
    RadixScans("xX", HexDigits1, IsHexDigit);
  }

  // ---------------------------------------------------------------------------------------------
  // Integer values

  /** The value of a digit character in bases up to 36, as Python's `int` reads it. */
  function DigitValue(c: char): nat
  {
    if '0' <= c <= '9' then c as nat - '0' as nat
    else if 'a' <= c <= 'z' then c as nat - 'a' as nat + 10
    else if 'A' <= c <= 'Z' then c as nat - 'A' as nat + 10
    else 0
  }

  /** The value of a string of digits in `base`, most significant digit first. */
  function DigitsValue(s: string, base: nat): nat
  {
    if s == [] then 0 else DigitsValue(s[..|s| - 1], base) * base + DigitValue(s[|s| - 1])
  }

  /** `int(text, base)` on an optionally signed string of digits of `base`. */
  function IntValue(s: string, base: nat): int
  {
    if s != [] && s[0] == '-' then 0 - DigitsValue(s[1..], base)
    else if s != [] && s[0] == '+' then DigitsValue(s[1..], base)
    else DigitsValue(s, base)
  }

  /** `partial(int, base=base)`. */
  function ToInt(base: nat): string -> int
  {
    s => IntValue(s, base)
  }

  /** `integer`: hexadecimal, octal, binary and decimal integers, tried in that order. */
  const Integer: Parser<int> :=
    Label(Alter(Alter(Alter(Map(HexInteger, ToInt(16)), Map(OctInteger, ToInt(8))),
                      Map(BinInteger, ToInt(2))),
                Map(DecInteger, ToInt(10))),
          "integer")

  /** The integer read at `i`: the first of the four forms that matches there, with its value. */
  function IntegerAt(d: string, i: int): Option<(int, nat)>
  {
    match RadixAt("xX", IsHexDigit, d, i)
    case Some(h) => Some((IntValue(h.0, 16), h.1))
    case None =>
      match RadixAt("oO", IsOctDigit, d, i)
      case Some(o) => Some((IntValue(o.0, 8), o.1))
      case None =>
        match RadixAt("bB", IsBinDigit, d, i)
        case Some(b) => Some((IntValue(b.0, 2), b.1))
        case None =>
          match DecimalAt(d, i)
          case Some(n) => Some((IntValue(n.0, 10), n.1))
          case None => None
  }

  function IntegerScan(): Scan<int>
  {
    OrScan(OrScan(OrScan(MapScan(RadixScan("xX", IsHexDigit), ToInt(16)), MapScan(RadixScan("oO", IsOctDigit), ToInt(8))),
                  MapScan(RadixScan("bB", IsBinDigit), ToInt(2))),
           MapScan(DecimalAt, ToInt(10)))
  }

  lemma IntegerAtJoin()
    ensures forall d, i :: IntegerScan()(d, i) == IntegerAt(d, i)
  {
  }

  /** `integer` reads the first of the hexadecimal, octal, binary and decimal forms that matches,
      and converts it with the base of that form. */
  lemma IntegerScans()
    ensures Scans(Integer, IntegerAt)
  {
    RadixIntegersScan();
    DecIntegerScans();
    MapScans(HexInteger, RadixScan("xX", IsHexDigit), ToInt(16));
    MapScans(OctInteger, RadixScan("oO", IsOctDigit), ToInt(8));
    MapScans(BinInteger, RadixScan("bB", IsBinDigit), ToInt(2));
    MapScans(DecInteger, DecimalAt, ToInt(10));
    AlterScans(Map(HexInteger, ToInt(16)), MapScan(RadixScan("xX", IsHexDigit), ToInt(16)),
               Map(OctInteger, ToInt(8)), MapScan(RadixScan("oO", IsOctDigit), ToInt(8)));
    AlterScans(Alter(Map(HexInteger, ToInt(16)), Map(OctInteger, ToInt(8))),
               OrScan(MapScan(RadixScan("xX", IsHexDigit), ToInt(16)), MapScan(RadixScan("oO", IsOctDigit), ToInt(8))),
               Map(BinInteger, ToInt(2)), MapScan(RadixScan("bB", IsBinDigit), ToInt(2)));
    AlterScans(Alter(Alter(Map(HexInteger, ToInt(16)), Map(OctInteger, ToInt(8))), Map(BinInteger, ToInt(2))),
               OrScan(OrScan(MapScan(RadixScan("xX", IsHexDigit), ToInt(16)), MapScan(RadixScan("oO", IsOctDigit), ToInt(8))),
                      MapScan(RadixScan("bB", IsBinDigit), ToInt(2))),
               Map(DecInteger, ToInt(10)), MapScan(DecimalAt, ToInt(10)));
    LabelScans(Alter(Alter(Alter(Map(HexInteger, ToInt(16)), Map(OctInteger, ToInt(8))), Map(BinInteger, ToInt(2))),
                     Map(DecInteger, ToInt(10))),
               IntegerScan(), "integer");
    IntegerAtJoin();
    ScansEquiv(Integer, IntegerScan(), IntegerAt);
  }

  /** Where `integer` fails, it reports that an integer was expected. */
  lemma IntegerFailure(ctx: Context)
    ensures Integer(ctx).outcome.Fail? <==> IntegerAt(ctx.stream.data, ctx.stream.offset).None?
    ensures Integer(ctx).outcome.Fail? ==>
      Integer(ctx).outcome.error.Expected? && Integer(ctx).outcome.error.value == "integer"
  {
    IntegerScans();
    assert ScansAt(Integer, IntegerAt, ctx);
    LabelSpec(Alter(Alter(Alter(Map(HexInteger, ToInt(16)), Map(OctInteger, ToInt(8))), Map(BinInteger, ToInt(2))),
                    Map(DecInteger, ToInt(10))), "integer", ctx);
  }

  /** A sign, '0', a letter of `letters`, then digits of class `f` up to a character outside it:
      the radix form reads the sign and the digits. */
  lemma RadixRead(letters: string, f: char -> bool, s: string, letter: char, t: string, rest: string, d: string)
    requires Sign(d, 0) == s
    requires letter in letters
    requires |t| >= 1 && forall k :: 0 <= k < |t| ==> f(t[k])
    requires rest == [] || !f(rest[0])
    requires d == s + ['0', letter] + t + rest
    ensures RadixAt(letters, f, d, 0) == Some((s + t, |s| + 2 + |t|))
  {
    RadixLayout(s, letter, t, rest, d, f);
    var j := 0 + |Sign(d, 0)|;
    assert j == |s|;
    assert RadixDigitsAt(letters, f, d, j) == Some((t, 2 + |t|));
    assert RadixAt(letters, f, d, 0) == Some((Sign(d, 0) + t, |Sign(d, 0)| + (2 + |t|)));
  }

  lemma RadixLayout(s: string, letter: char, t: string, rest: string, d: string, f: char -> bool)
    requires |t| >= 1 && forall k :: 0 <= k < |t| ==> f(t[k])
    requires rest == [] || !f(rest[0])
    requires d == s + ['0', letter] + t + rest
    ensures |s| + 1 < |d| && d[|s|] == '0' && d[|s| + 1] == letter
    ensures Run(d, |s| + 2, f) == t
  {
    var p := s + ['0', letter];
    assert d[|s|] == p[|s|] && d[|s| + 1] == p[|s| + 1];
    RunLayout(p, t, rest, d, f);
  }

  /** A run of the class that a character outside it, or the end, follows. */
  lemma RunLayout(p: string, t: string, rest: string, d: string, f: char -> bool)
    requires forall k :: 0 <= k < |t| ==> f(t[k])
    requires rest == [] || !f(rest[0])
    requires d == p + t + rest
    ensures Run(d, |p|, f) == t
  {
    var j := |p|;
    assert forall k :: j <= k < j + |t| ==> d[k] == t[k - j];
    assert j + |t| < |d| ==> d[j + |t|] == rest[0];
    RunExact(d, j, j + |t|, f);
    assert d[j..j + |t|] == t;
  }

  /** Where the character after the sign and a '0' is not one of `letters`, the radix form fails. */
  lemma RadixMiss(letters: string, f: char -> bool, d: string)
    requires var j := |Sign(d, 0)|; j + 1 < |d| && d[j + 1] !in letters
    ensures RadixAt(letters, f, d, 0) == None
  {
  }

  /** The four forms and their bases: "0x1F" is 31, "-0o17" is -15, "+0b101" is 5, "-42;" is -42. */
  lemma IntegerExamples()
    ensures IntegerAt("0x1F", 0) == Some((31, 4))
    ensures IntegerAt("-0o17", 0) == Some((-15, 5))
    ensures IntegerAt("+0b101", 0) == Some((5, 6))
    ensures IntegerAt("-42;", 0) == Some((-42, 3))
  {
    HexExample();
    OctExample();
    BinExample();
    DecExample();
  }

  lemma HexExample()
    ensures IntegerAt("0x1F", 0) == Some((31, 4))
  {
    assert Sign("0x1F", 0) == [];
    RadixRead("xX", IsHexDigit, [], 'x', "1F", [], "0x1F");
    assert [] + "1F" == "1F";
    assert DigitsValue("1F", 16) == 31 by {
      assert "1F"[..1] == "1";
    }
  }

  lemma OctExample()
    ensures IntegerAt("-0o17", 0) == Some((-15, 5))
  {
    assert Sign("-0o17", 0) == "-";
    RadixMiss("xX", IsHexDigit, "-0o17");
    RadixRead("oO", IsOctDigit, "-", 'o', "17", [], "-0o17");
    assert DigitsValue("17", 8) == 15 by {
      assert "17"[..1] == "1";
    }
    assert ("-" + "17")[1..] == "17";
  }

  lemma BinExample()
    ensures IntegerAt("+0b101", 0) == Some((5, 6))
  {
    assert Sign("+0b101", 0) == "+";
    RadixMiss("xX", IsHexDigit, "+0b101");
    RadixMiss("oO", IsOctDigit, "+0b101");
    RadixRead("bB", IsBinDigit, "+", 'b', "101", [], "+0b101");
    assert DigitsValue("101", 2) == 5 by {
      assert "101"[..2] == "10";
      assert "10"[..1] == "1";
    }
    assert ("+" + "101")[1..] == "101";
  }

  lemma DecExample()
    ensures IntegerAt("-42;", 0) == Some((-42, 3))
  {
    SignedDigitsRead("-", "42", ";", "-42;");
    assert DigitsValue("42", 10) == 42 by {
      assert "42"[..1] == "4";
    }
    assert ("-" + "42")[1..] == "42";
  }

  /** A prefix with no digit after it is not a radix integer: `integer` backtracks and reads the
      '0' as a decimal integer, leaving the letter unread. */
  lemma PrefixWithoutDigits()
    ensures IntegerAt("0x", 0) == Some((0, 1))
    ensures IntegerAt("0b+1", 0) == Some((0, 1))
  {
    PrefixWithoutDigitsAt("0x");
    PrefixWithoutDigitsAt("0b+1");
  }

  lemma PrefixWithoutDigitsAt(d: string)
    requires |d| >= 2 && d[0] == '0' && !IsDigit(d[1])
    requires |d| == 2 || !IsAlnum(d[2])
    ensures IntegerAt(d, 0) == Some((0, 1))
  {
    assert Sign(d, 0) == [];
    RadixClassesAlnum();
    NoRadixDigits("xX", IsHexDigit, d);
    NoRadixDigits("oO", IsOctDigit, d);
    NoRadixDigits("bB", IsBinDigit, d);
    ZeroDecimal(d);
    assert DigitsValue("0", 10) == 0;
  }

  /** A '0' that no digit follows is the decimal integer "0". */
  lemma ZeroDecimal(d: string)
    requires |d| >= 1 && d[0] == '0' && (|d| == 1 || !IsDigit(d[1]))
    ensures DecimalAt(d, 0) == Some(("0", 1))
  {
    assert Sign(d, 0) == [];
    RunExact(d, 0, 1, IsDigit);
    assert d[0..1] == "0";
    assert Run(d, 0 + |Sign(d, 0)|, IsDigit) == "0";
    assert Sign(d, 0) + "0" == "0";
  }

  /** Radix digits are letters or digits. */
  lemma RadixClassesAlnum()
    ensures forall c :: IsHexDigit(c) ==> IsAlnum(c)
    ensures forall c :: IsOctDigit(c) ==> IsAlnum(c)
    ensures forall c :: IsBinDigit(c) ==> IsAlnum(c)
  {
  }

  /** Where the character after the prefix letter is no letter or digit, no radix digits follow. */
  lemma NoRadixDigits(letters: string, f: char -> bool, d: string)
    requires |d| >= 2 && (|d| == 2 || !IsAlnum(d[2]))
    requires forall c :: f(c) ==> IsAlnum(c)
    ensures RadixDigitsAt(letters, f, d, 0) == None
  {
    assert Run(d, 2, f) == [];
  }

  // ---------------------------------------------------------------------------------------------
  // Writing integers back

  function DigitChar(k: nat): char
    requires k < 10
  {
    ('0' as int + k) as char
  }

  /** The decimal digits of `n`, without leading zeros: Python's `str` on a non-negative int. */
  function NatDigits(n: nat): string
    decreases n
  {
    if n < 10 then [DigitChar(n)] else NatDigits(n / 10) + [DigitChar(n % 10)]
  }

  /** `str(n)` for an int. */
  function Decimal(n: int): string
  {
    if n < 0 then "-" + NatDigits(-n) else NatDigits(n)
  }

  /** The digits of `n` are decimal digits, the first is '0' only for 0 itself, and they are worth
      `n` in base 10. */
  lemma {:induction false} NatDigitsSpec(n: nat)
    ensures |NatDigits(n)| >= 1
    ensures forall k :: 0 <= k < |NatDigits(n)| ==> IsDigit(NatDigits(n)[k])
    ensures NatDigits(n)[0] == '0' ==> n == 0
    ensures DigitsValue(NatDigits(n), 10) == n
    decreases n
  {
    if n >= 10 {
      NatDigitsSpec(n / 10);
      var t := NatDigits(n);
      assert t[..|t| - 1] == NatDigits(n / 10);
    }
  }

  /** `integer` reads back what `str` writes: the text of `n`, followed by anything that cannot
      extend it, is read as `n`, consuming exactly that text. */
  lemma IntegerReadsDecimal(n: int, rest: string)
    requires rest == [] || (!IsDigit(rest[0]) && (n == 0 ==> rest[0] !in "bBoOxX"))
    ensures IntegerAt(Decimal(n) + rest, 0) == Some((n, |Decimal(n)|))
  {
    var s, t := DecimalParts(n);
    SignedDigitsRead(s, t, rest, Decimal(n) + rest);
  }

  /** The text of `n` is an optional '-' and digits with no superfluous leading zero, worth `n`. */
  lemma DecimalParts(n: int) returns (s: string, t: string)
    ensures Decimal(n) == s + t && (s == [] || s == "-")
    ensures |t| >= 1 && forall k :: 0 <= k < |t| ==> IsDigit(t[k])
    ensures t[0] == '0' ==> n == 0 && |t| == 1
    ensures IntValue(s + t, 10) == n
  {
    var m: nat := if n < 0 then -n else n;
    t := NatDigits(m);
    NatDigitsSpec(m);
    s := if n < 0 then "-" else [];
    assert Decimal(n) == s + t;
    if t[0] == '0' {
      assert m == 0 && t == "0";
    }
    DecimalValue(n);
  }

  /** An optional '-', digits with no superfluous leading zero, then a character that cannot
      continue them: `integer` reads the sign and the digits as a decimal integer. */
  lemma SignedDigitsRead(s: string, t: string, rest: string, d: string)
    requires s == [] || s == "-"
    requires |t| >= 1 && forall k :: 0 <= k < |t| ==> IsDigit(t[k])
    requires t[0] == '0' ==> |t| == 1 && (rest == [] || rest[0] !in "bBoOxX")
    requires rest == [] || !IsDigit(rest[0])
    requires d == s + t + rest
    ensures IntegerAt(d, 0) == Some((IntValue(s + t, 10), |s| + |t|))
  {
    SignedDigitsLayout(s, t, rest);
    assert DecimalAt(d, 0) == Some((s + t, |s| + |t|));
    OnlyDecimal(d, 0);
  }

  lemma SignedDigitsLayout(s: string, t: string, rest: string)
    requires s == [] || s == "-"
    requires |t| >= 1 && forall k :: 0 <= k < |t| ==> IsDigit(t[k])
    requires t[0] == '0' ==> |t| == 1 && (rest == [] || rest[0] !in "bBoOxX")
    requires rest == [] || !IsDigit(rest[0])
    ensures var d := s + t + rest;
      Sign(d, 0) == s && Run(d, |s|, IsDigit) == t
      && !(|s| + 1 < |d| && d[|s|] == '0' && d[|s| + 1] in "bBoOxX")
  {
    var d := s + t + rest;
    var j := |s|;
    assert Sign(d, 0) == s;
    RunLayout(s, t, rest, d, IsDigit);
    assert d[j] == t[0];
    if d[j] == '0' && j + 1 < |d| {
      assert d[j + 1] == rest[0];
    }
  }

  /** Where no radix prefix follows the sign, `integer` reads a decimal integer or nothing. */
  lemma OnlyDecimal(d: string, i: int)
    requires var j := i + |Sign(d, i)|;
      !(0 <= j && j + 1 < |d| && d[j] == '0' && d[j + 1] in "bBoOxX")
    ensures IntegerAt(d, i) ==
      match DecimalAt(d, i)
      case Some(n) => Some((IntValue(n.0, 10), n.1))
      case None => None
  {
  }

  /** `int(str(n), 10) == n`. */
  lemma DecimalValue(n: int)
    ensures IntValue(Decimal(n), 10) == n
  {
    var m: nat := if n < 0 then -n else n;
    NatDigitsSpec(m);
    if n < 0 {
      assert Decimal(n)[1..] == NatDigits(m);
    }
  }

  /** The same, stated of the parser on a fresh input. */
  lemma IntegerParsesDecimal(n: int, rest: string, st: TextState)
    requires rest == [] || (!IsDigit(rest[0]) && (n == 0 ==> rest[0] !in "bBoOxX"))
    ensures var ctx := Context(Cursor(Decimal(n) + rest, 0), st);
      Yields(Integer(ctx), ctx, n, |Decimal(n)|)
  {
    var ctx := Context(Cursor(Decimal(n) + rest, 0), st);
    IntegerScans();
    assert ScansAt(Integer, IntegerAt, ctx);
    IntegerReadsDecimal(n, rest);
  }

  // ---------------------------------------------------------------------------------------------
  // Float texts

  /** `_exponent`: 'e' or 'E', then a decimal integer. */
  const Exponent: Parser<string> := Cat(Str(Range(Item, "eE", CharRepr)), DecInteger)

  /** `_dotment`: a dot, any digits, then an optional exponent. */
  const Dotment: Parser<string> := Cat(Cat(Str(Dot), Digits), Default(Exponent, ""))

  /** `_digit_float`: a decimal integer, then a dotment or an exponent. */
  const DigitFloat: Parser<string> := Cat(Cat(NumSign, Digits1), Alter(Dotment, Exponent))

  /** `_dot_float`: an optional sign, a dot, one or more digits, then an optional exponent. */
  const DotFloat: Parser<string> := Cat(Cat(Cat(NumSign, Str(Dot)), Digits1), Default(Exponent, ""))

  /** `floatnumber`, up to the conversion: the text that Python's `float` then converts. */
  const FloatNumber: Parser<string> := Label(Alter(DotFloat, DigitFloat), "float number")

  /** An exponent letter, then a decimal integer. */
  function ExponentAt(d: string, i: int): Option<(string, nat)>
  {
    if 0 <= i < |d| && d[i] in "eE" then
      match DecimalAt(d, i + 1)
      case None => None
      case Some(n) => Some(([d[i]] + n.0, 1 + n.1))
    else None
  }

  /** The exponent at `i`, or nothing; never fails. */
  function OptExponentAt(d: string, i: int): (string, nat)
  {
    match ExponentAt(d, i)
    case Some(e) => e
    case None => ("", 0)
  }

  /** A dot and the longest run of digits after it, possibly empty. */
  function DotRunAt(d: string, i: int): Option<(string, nat)>
  {
    if 0 <= i < |d| && d[i] == '.' then
      var r := Run(d, i + 1, IsDigit);
      Some((['.'] + r, 1 + |r|))
    else None
  }

  /** The dot and its digits, then the exponent if there is one. */
  function DotmentAt(d: string, i: int): Option<(string, nat)>
  {
    match DotRunAt(d, i)
    case None => None
    case Some(a) =>
      var e := OptExponentAt(d, i + a.1);
      var n: nat := a.1 + e.1;
      Some((a.0 + e.0, n))
  }

  /** An optional sign, a dot and the longest run of digits, which must not be empty. */
  function DotDigitsAt(d: string, i: int): Option<(string, nat)>
  {
    var s := Sign(d, i);
    var j := i + |s|;
    if 0 <= j < |d| && d[j] == '.' && Run(d, j + 1, IsDigit) != [] then
      var r := Run(d, j + 1, IsDigit);
      Some((s + ['.'] + r, |s| + 1 + |r|))
    else None
  }

  /** The signed dot and digits, then the exponent if there is one. */
  function DotFloatAt(d: string, i: int): Option<(string, nat)>
  {
    match DotDigitsAt(d, i)
    case None => None
    case Some(a) =>
      var e := OptExponentAt(d, i + a.1);
      var n: nat := a.1 + e.1;
      Some((a.0 + e.0, n))
  }

  /** A decimal integer, then a dotment, or failing that an exponent. */
  function DigitFloatAt(d: string, i: int): Option<(string, nat)>
  {
    match DecimalAt(d, i)
    case None => None
    case Some(n) =>
      match FractionAt(d, i + n.1)
      case None => None
      case Some(m) =>
        var k: nat := n.1 + m.1;
        Some((n.0 + m.0, k))
  }

  /** What may follow the digits of a float: a dotment, or failing that an exponent. */
  function FractionAt(d: string, j: int): Option<(string, nat)>
  {
    if DotmentAt(d, j).Some? then DotmentAt(d, j) else ExponentAt(d, j)
  }

  /** The float text at `i`: the dot form if it matches, else the digit form. */
  function FloatAt(d: string, i: int): Option<(string, nat)>
  {
    match DotFloatAt(d, i)
    case Some(x) => Some(x)
    case None => DigitFloatAt(d, i)
  }

  lemma ExponentScans()
    ensures Scans(Exponent, ExponentAt)
  {
    WhereItemScans(In("eE"), CharRepr);
    StrScans(Range(Item, "eE", CharRepr), In("eE"));
    DecIntegerScans();
    CatScans(Str(Range(Item, "eE", CharRepr)), CharStrScan(In("eE")), DecInteger, DecimalAt);
    forall d, i ensures JoinScan(CharStrScan(In("eE")), DecimalAt)(d, i) == ExponentAt(d, i) {
      JoinAt(CharStrScan(In("eE")), DecimalAt, d, i);
    }
    ScansEquiv(Exponent, JoinScan(CharStrScan(In("eE")), DecimalAt), ExponentAt);
  }

  function OptExponentScan(): Scan<string>
  {
    (d: string, i: int) => Some(OptExponentAt(d, i))
  }

  lemma OptExponentScans()
    ensures Scans(Default(Exponent, ""), OptExponentScan())
  {
    ExponentScans();
    DefaultScans(Exponent, ExponentAt, "");
    ScansEquiv(Default(Exponent, ""), OrScan(ExponentAt, Nothing("")), OptExponentScan());
  }

  lemma DotmentScans()
    ensures Scans(Dotment, DotmentAt)
  {
    CharScans('.');
    StrScans(Dot, Is('.'));
    DigitRunsScan();
    OptExponentScans();
    CatScans(Str(Dot), CharStrScan(Is('.')), Digits, RunScan(IsDigit));
    var m1 := JoinScan(CharStrScan(Is('.')), RunScan(IsDigit));
    CatScans(Cat(Str(Dot), Digits), m1, Default(Exponent, ""), OptExponentScan());
    DotmentJoin();
    ScansEquiv(Dotment, JoinScan(m1, OptExponentScan()), DotmentAt);
  }

  lemma DotmentJoin()
    ensures forall d, i ::
      JoinScan(JoinScan(CharStrScan(Is('.')), RunScan(IsDigit)), OptExponentScan())(d, i) == DotmentAt(d, i)
  {
    var m1 := JoinScan(CharStrScan(Is('.')), RunScan(IsDigit));
    forall d, i ensures JoinScan(m1, OptExponentScan())(d, i) == DotmentAt(d, i) {
      DotmentJoinAt(d, i);
    }
  }

  lemma DotmentJoinAt(d: string, i: int)
    ensures JoinScan(JoinScan(CharStrScan(Is('.')), RunScan(IsDigit)), OptExponentScan())(d, i) == DotmentAt(d, i)
  {
    var m1 := JoinScan(CharStrScan(Is('.')), RunScan(IsDigit));
    DotRunJoin(d, i);
    match DotRunAt(d, i)
    case None =>
      JoinNone(m1, OptExponentScan(), d, i);
    case Some(a) =>
      var e := OptExponentAt(d, i + a.1);
      assert OptExponentScan()(d, i + a.1) == Some(e);
      JoinSome(m1, OptExponentScan(), d, i, a, e);
      DotmentFound(d, i, a, e);
  }

  lemma DotRunJoin(d: string, i: int)
    ensures JoinScan(CharStrScan(Is('.')), RunScan(IsDigit))(d, i) == DotRunAt(d, i)
  {
    if 0 <= i < |d| && d[i] == '.' {
      var r := Run(d, i + 1, IsDigit);
      JoinSome(CharStrScan(Is('.')), RunScan(IsDigit), d, i, (['.'], 1), (r, |r|));
    } else {
      JoinNone(CharStrScan(Is('.')), RunScan(IsDigit), d, i);
    }
  }

  lemma DotmentFound(d: string, i: int, a: (string, nat), e: (string, nat))
    requires DotRunAt(d, i) == Some(a) && OptExponentAt(d, i + a.1) == e
    ensures DotmentAt(d, i) == Some((a.0 + e.0, a.1 + e.1))
  {
  }



  lemma DigitFloatScans()
    ensures Scans(DigitFloat, DigitFloatAt)
  {
    DecIntegerScans();
    DotmentScans();
    ExponentScans();
    AlterScans(Dotment, DotmentAt, Exponent, ExponentAt);
    CatScans(DecInteger, DecimalAt, Alter(Dotment, Exponent), OrScan(DotmentAt, ExponentAt));
    DigitFloatJoin();
    ScansEquiv(DigitFloat, JoinScan(DecimalAt, OrScan(DotmentAt, ExponentAt)), DigitFloatAt);
  }

  lemma DigitFloatJoin()
    ensures forall d, i :: JoinScan(DecimalAt, OrScan(DotmentAt, ExponentAt))(d, i) == DigitFloatAt(d, i)
  {
    forall d, i ensures JoinScan(DecimalAt, OrScan(DotmentAt, ExponentAt))(d, i) == DigitFloatAt(d, i) {
      DigitFloatJoinAt(d, i);
    }
  }

  lemma DigitFloatJoinAt(d: string, i: int)
    ensures JoinScan(DecimalAt, OrScan(DotmentAt, ExponentAt))(d, i) == DigitFloatAt(d, i)
  {
    var m2 := OrScan(DotmentAt, ExponentAt);
    match DecimalAt(d, i)
    case None =>
      JoinNone(DecimalAt, m2, d, i);
      assert DigitFloatAt(d, i) == None;
    case Some(n) =>
      assert m2(d, i + n.1) == FractionAt(d, i + n.1);
      match FractionAt(d, i + n.1)
      case None =>
        JoinNone(DecimalAt, m2, d, i);
        assert DigitFloatAt(d, i) == None;
      case Some(b) =>
        JoinSome(DecimalAt, m2, d, i, n, b);
        DigitFloatFound(d, i, n, b);
  }

  lemma DigitFloatFound(d: string, i: int, n: (string, nat), b: (string, nat))
    requires DecimalAt(d, i) == Some(n) && FractionAt(d, i + n.1) == Some(b)
    ensures DigitFloatAt(d, i) == Some((n.0 + b.0, n.1 + b.1))
  {
  }


  lemma DotFloatScans()
    ensures Scans(DotFloat, DotFloatAt)
  {
    NumSignScans();
    CharScans('.');
    StrScans(Dot, Is('.'));
    DigitRunsScan();
    OptExponentScans();
    CatScans(NumSign, SignAt, Str(Dot), CharStrScan(Is('.')));
    var m1 := JoinScan(SignAt, CharStrScan(Is('.')));
    CatScans(Cat(NumSign, Str(Dot)), m1, Digits1, Run1Scan(IsDigit));
    var m2 := JoinScan(m1, Run1Scan(IsDigit));
    CatScans(Cat(Cat(NumSign, Str(Dot)), Digits1), m2, Default(Exponent, ""), OptExponentScan());
    DotFloatJoin();
    ScansEquiv(DotFloat, JoinScan(m2, OptExponentScan()), DotFloatAt);
  }

  lemma DotFloatJoin()
    ensures forall d, i ::
      JoinScan(JoinScan(JoinScan(SignAt, CharStrScan(Is('.'))), Run1Scan(IsDigit)), OptExponentScan())(d, i)
      == DotFloatAt(d, i)
  {
    var m1 := JoinScan(SignAt, CharStrScan(Is('.')));
    var m2 := JoinScan(m1, Run1Scan(IsDigit));
    forall d, i ensures JoinScan(m2, OptExponentScan())(d, i) == DotFloatAt(d, i) {
      DotFloatJoinAt(d, i);
    }
  }

  lemma DotFloatJoinAt(d: string, i: int)
    ensures JoinScan(JoinScan(JoinScan(SignAt, CharStrScan(Is('.'))), Run1Scan(IsDigit)), OptExponentScan())(d, i)
      == DotFloatAt(d, i)
  {
    var m2 := JoinScan(JoinScan(SignAt, CharStrScan(Is('.'))), Run1Scan(IsDigit));
    DotDigitsJoin(d, i);
    match DotDigitsAt(d, i)
    case None =>
      JoinNone(m2, OptExponentScan(), d, i);
    case Some(a) =>
      var e := OptExponentAt(d, i + a.1);
      assert OptExponentScan()(d, i + a.1) == Some(e);
      JoinSome(m2, OptExponentScan(), d, i, a, e);
      DotFloatFound(d, i, a, e);
  }

  lemma DotFloatFound(d: string, i: int, a: (string, nat), e: (string, nat))
    requires DotDigitsAt(d, i) == Some(a) && OptExponentAt(d, i + a.1) == e
    ensures DotFloatAt(d, i) == Some((a.0 + e.0, a.1 + e.1))
  {
  }


  lemma DotDigitsJoin(d: string, i: int)
    ensures JoinScan(JoinScan(SignAt, CharStrScan(Is('.'))), Run1Scan(IsDigit))(d, i) == DotDigitsAt(d, i)
  {
    var m1 := JoinScan(SignAt, CharStrScan(Is('.')));
    var s := Sign(d, i);
    var j := i + |s|;
    if 0 <= j < |d| && d[j] == '.' {
      JoinSome(SignAt, CharStrScan(Is('.')), d, i, (s, |s|), (['.'], 1));
      var r := Run(d, j + 1, IsDigit);
      if r != [] {
        JoinSome(m1, Run1Scan(IsDigit), d, i, (s + ['.'], |s| + 1), (r, |r|));
      } else {
        JoinNone(m1, Run1Scan(IsDigit), d, i);
      }
    } else {
      JoinNone(SignAt, CharStrScan(Is('.')), d, i);
      JoinNone(m1, Run1Scan(IsDigit), d, i);
    }
  }

  /** `floatnumber` reads the dot form where it matches, and the digit form otherwise. */
  lemma FloatNumberScans()
    ensures Scans(FloatNumber, FloatAt)
  {
    DotFloatScans();
    DigitFloatScans();
    AlterScans(DotFloat, DotFloatAt, DigitFloat, DigitFloatAt);
    LabelScans(Alter(DotFloat, DigitFloat), OrScan(DotFloatAt, DigitFloatAt), "float number");
    ScansEquiv(FloatNumber, OrScan(DotFloatAt, DigitFloatAt), FloatAt);
  }

  /** The float text read is exactly the input consumed, which is what `float` then converts. */
  lemma FloatVerbatim()
    ensures Verbatim(FloatAt)
  {
    ClassScansVerbatim(IsDigit);
    ClassScansVerbatim(Is('.'));
    ClassScansVerbatim(In("eE"));
    NothingVerbatim();
    SignVerbatim();
    JoinVerbatim(SignAt, Run1Scan(IsDigit));
    DecimalJoin();
    VerbatimEquiv(JoinScan(SignAt, Run1Scan(IsDigit)), DecimalAt);
    JoinVerbatim(CharStrScan(In("eE")), DecimalAt);
    ExponentJoin();
    VerbatimEquiv(JoinScan(CharStrScan(In("eE")), DecimalAt), ExponentAt);
    OrVerbatim(ExponentAt, Nothing(""));
    VerbatimEquiv(OrScan(ExponentAt, Nothing("")), OptExponentScan());
    JoinVerbatim(CharStrScan(Is('.')), RunScan(IsDigit));
    JoinVerbatim(JoinScan(CharStrScan(Is('.')), RunScan(IsDigit)), OptExponentScan());
    DotmentJoin();
    VerbatimEquiv(JoinScan(JoinScan(CharStrScan(Is('.')), RunScan(IsDigit)), OptExponentScan()), DotmentAt);
    OrVerbatim(DotmentAt, ExponentAt);
    JoinVerbatim(DecimalAt, OrScan(DotmentAt, ExponentAt));
    DigitFloatJoin();
    VerbatimEquiv(JoinScan(DecimalAt, OrScan(DotmentAt, ExponentAt)), DigitFloatAt);
    JoinVerbatim(SignAt, CharStrScan(Is('.')));
    JoinVerbatim(JoinScan(SignAt, CharStrScan(Is('.'))), Run1Scan(IsDigit));
    JoinVerbatim(JoinScan(JoinScan(SignAt, CharStrScan(Is('.'))), Run1Scan(IsDigit)), OptExponentScan());
    DotFloatJoin();
    VerbatimEquiv(JoinScan(JoinScan(JoinScan(SignAt, CharStrScan(Is('.'))), Run1Scan(IsDigit)), OptExponentScan()), DotFloatAt);
    OrVerbatim(DotFloatAt, DigitFloatAt);
    VerbatimEquiv(OrScan(DotFloatAt, DigitFloatAt), FloatAt);
  }

  lemma SignVerbatim()
    ensures Verbatim(SignAt)
  {
    forall d: string, i: int | 0 <= i <= |d|
      ensures i + |Sign(d, i)| <= |d| && Sign(d, i) == d[i..i + |Sign(d, i)|]
    {
    }
  }

  lemma ExponentJoin()
    ensures forall d, i :: JoinScan(CharStrScan(In("eE")), DecimalAt)(d, i) == ExponentAt(d, i)
  {
    forall d, i ensures JoinScan(CharStrScan(In("eE")), DecimalAt)(d, i) == ExponentAt(d, i) {
      JoinAt(CharStrScan(In("eE")), DecimalAt, d, i);
    }
  }

  /** A float text always holds a dot or an exponent letter: a bare run of digits is an integer. */
  lemma FloatHasDotOrExponent(d: string, i: int)
    requires FloatAt(d, i).Some?
    ensures var v := FloatAt(d, i).value.0; '.' in v || 'e' in v || 'E' in v
  {
    if DotFloatAt(d, i).Some? {
      DotFloatHasDot(d, i);
    } else {
      var n := DecimalAt(d, i).value;
      if DotmentAt(d, i + n.1).Some? {
        var m := DotmentAt(d, i + n.1).value;
        DotmentStartsWithDot(d, i + n.1);
        assert (n.0 + m.0)[|n.0|] == '.';
      } else {
        var e := ExponentAt(d, i + n.1).value;
        assert e.0[0] in "eE";
        assert (n.0 + e.0)[|n.0|] in "eE";
      }
    }
  }

  lemma DotFloatHasDot(d: string, i: int)
    requires DotFloatAt(d, i).Some?
    ensures '.' in DotFloatAt(d, i).value.0
  {
    var s := Sign(d, i);
    var v := DotFloatAt(d, i).value.0;
    assert v[|s|] == '.';
  }

  lemma DotmentStartsWithDot(d: string, i: int)
    requires DotmentAt(d, i).Some?
    ensures |DotmentAt(d, i).value.0| >= 1 && DotmentAt(d, i).value.0[0] == '.'
  {
  }

  /** Where `floatnumber` fails, it reports that a float number was expected. */
  lemma FloatNumberFailure(ctx: Context)
    ensures FloatNumber(ctx).outcome.Fail? ==>
      FloatNumber(ctx).outcome.error.Expected? && FloatNumber(ctx).outcome.error.value == "float number"
  {
    LabelSpec(Alter(DotFloat, DigitFloat), "float number", ctx);
  }

  // ---------------------------------------------------------------------------------------------
  // Numbers

  /** The value of `number`: a float, kept as the text `float` converts, or an int. */
  datatype Number = FloatNum(text: string) | IntNum(value: int)

  /** `number`: a float where one matches, else an integer. */
  const NumberParser: Parser<Number> :=
    Label(Alter(Map(FloatNumber, (t: string) => FloatNum(t)), Map(Integer, (n: int) => IntNum(n))), "number")

  function NumberAt(d: string, i: int): Option<(Number, nat)>
  {
    match FloatAt(d, i)
    case Some(x) => Some((FloatNum(x.0), x.1))
    case None =>
      match IntegerAt(d, i)
      case Some(n) => Some((IntNum(n.0), n.1))
      case None => None
  }

  /** `number` reads a float where one matches, and an integer otherwise. */
  lemma NumberScans()
    ensures Scans(NumberParser, NumberAt)
  {
    var toFloat := (t: string) => FloatNum(t);
    var toInt := (n: int) => IntNum(n);
    FloatNumberScans();
    IntegerScans();
    MapScans(FloatNumber, FloatAt, toFloat);
    MapScans(Integer, IntegerAt, toInt);
    AlterScans(Map(FloatNumber, toFloat), MapScan(FloatAt, toFloat), Map(Integer, toInt), MapScan(IntegerAt, toInt));
    LabelScans(Alter(Map(FloatNumber, toFloat), Map(Integer, toInt)), OrScan(MapScan(FloatAt, toFloat), MapScan(IntegerAt, toInt)), "number");
    ScansEquiv(NumberParser, OrScan(MapScan(FloatAt, toFloat), MapScan(IntegerAt, toInt)), NumberAt);
  }

  /** `number` reads the text of an int, followed by neither a digit, a dot nor an exponent
      letter, as that int. */
  lemma NumberReadsDecimal(n: int, rest: string)
    requires rest == [] || (!IsDigit(rest[0]) && rest[0] !in ".eE" && (n == 0 ==> rest[0] !in "bBoOxX"))
    ensures NumberAt(Decimal(n) + rest, 0) == Some((IntNum(n), |Decimal(n)|))
  {
    var m: nat := if n < 0 then -n else n;
    var t := NatDigits(m);
    NatDigitsSpec(m);
    var s: string := if n < 0 then "-" else [];
    assert Decimal(n) == s + t;
    if t[0] == '0' {
      assert m == 0 && t == "0";
    }
    NoFloatAfterDigits(s, t, rest, Decimal(n) + rest);
    IntegerReadsDecimal(n, rest);
  }

  /** An optional '-' and digits followed by neither a digit, a dot nor an exponent letter are not
      a float. */
  lemma NoFloatAfterDigits(s: string, t: string, rest: string, d: string)
    requires s == [] || s == "-"
    requires |t| >= 1 && forall k :: 0 <= k < |t| ==> IsDigit(t[k])
    requires t[0] == '0' ==> |t| == 1 && (rest == [] || rest[0] !in "bBoOxX")
    requires rest == [] || (!IsDigit(rest[0]) && rest[0] !in ".eE")
    requires d == s + t + rest
    ensures FloatAt(d, 0) == None
  {
    SignedDigitsLayout(s, t, rest);
    assert d[|s|] == t[0];
    assert DotFloatAt(d, 0) == None;
    assert DecimalAt(d, 0) == Some((s + t, |s| + |t|));
    var k := |s| + |t|;
    assert k == |d| || d[k] == rest[0];
    assert DotmentAt(d, k) == None;
    assert ExponentAt(d, k) == None;
  }
}
