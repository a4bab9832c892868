/**
 * The remaining parsers of parsec/text/basic.py: `blanks`, `identifier`, the quoted `string`,
 * the fixed-width `date`, `time` and `datetime`, and `lexeme`, which skips what a parser of
 * blanks reads before a token.
 */
module TextForms {
  import opened Wrappers
  import opened Errors
  import opened TextContext
  import opened Contexts
  import opened Core
  import opened CoreProperties
  import opened Scanning
  import opened TextBasic
  import TextNumbers

  // ---------------------------------------------------------------------------------------------
  // Blanks

  /** `blanks`: the longest run of white space, possibly empty. */
  const Blanks: Parser<string> := (ClassesScan(); CharScanProgressive(Blank, IsSpace); Many(Blank))

  lemma BlanksScans()
    ensures Scans(Blanks, RunScan(IsSpace))
  {
    ClassesScan();
    ManyScans(Blank, IsSpace);
  }

  /** `blanks` never fails: it reads the white space in front of the cursor, all of it. */
  lemma BlanksSpec(ctx: Context)
    ensures var r := Blanks(ctx); var d := ctx.stream.data; var i := ctx.stream.offset;
      r.outcome.Okay? && r.consumed == |r.outcome.value|
      && (forall k :: 0 <= k < |r.outcome.value| ==> IsSpace(r.outcome.value[k]))
      && (r.outcome.value != [] ==> 0 <= i && i + r.consumed <= |d| && r.outcome.value == d[i..i + r.consumed])
      && !(0 <= i + r.consumed < |d| && IsSpace(d[i + r.consumed]))
  {
    var run := Run(ctx.stream.data, ctx.stream.offset, IsSpace);
    assert Blanks(ctx).outcome == Okay(run) && Blanks(ctx).consumed == |run| by {
      BlanksScans();
      assert ScansAt(Blanks, RunScan(IsSpace), ctx);
    }
    RunSpec(ctx.stream.data, ctx.stream.offset, IsSpace);
  }

  // ---------------------------------------------------------------------------------------------
  // Identifiers

  /** What may start an identifier: a letter or '_'. */
  predicate IsWordStart(c: char) { IsAlpha(c) || c == '_' }

  /** What may continue an identifier: a letter, a digit or '_'. */
  predicate IsWord(c: char) { IsAlnum(c) || c == '_' }

  /** `alpha | underline` and `alnum | underline` read one character of those classes. */
  lemma WordClassesScan()
    ensures Scans(Alter(Alpha, Underline), CharScan(IsWordStart))
    ensures Scans(Alter(Alnum, Underline), CharScan(IsWord)) && Progressive(Alter(Alnum, Underline))
  {
    ClassesScan();
    CharScans('_');
    AlterCharScans(Alpha, IsAlpha, Underline, Is('_'));
    CharScanEquiv(Alter(Alpha, Underline), Either(IsAlpha, Is('_')), IsWordStart);
    AlterCharScans(Alnum, IsAlnum, Underline, Is('_'));
    CharScanEquiv(Alter(Alnum, Underline), Either(IsAlnum, Is('_')), IsWord);
    CharScanProgressive(Alter(Alnum, Underline), IsWord);
  }

  /** `identifier`: a letter or '_', then any letters, digits and '_', as one string. */
  const Identifier: Parser<string> :=
    (WordClassesScan(); Label(Cat(Str(Alter(Alpha, Underline)), Many(Alter(Alnum, Underline))), "identifier"))

  /** The identifier at index `i`: its first character and the longest run of word characters after it. */
  function IdentifierAt(d: string, i: int): Option<(string, nat)>
  {
    if 0 <= i < |d| && IsWordStart(d[i]) then
      var r := Run(d, i + 1, IsWord);
      Some(([d[i]] + r, 1 + |r|))
    else None
  }

  lemma IdentifierScans()
    ensures Scans(Identifier, IdentifierAt)
  {
    WordClassesScan();
    StrScans(Alter(Alpha, Underline), IsWordStart);
    ManyScans(Alter(Alnum, Underline), IsWord);
    var body := Cat(Str(Alter(Alpha, Underline)), Many(Alter(Alnum, Underline)));
    CatScans(Str(Alter(Alpha, Underline)), CharStrScan(IsWordStart), Many(Alter(Alnum, Underline)), RunScan(IsWord));
    LabelScans(body, JoinScan(CharStrScan(IsWordStart), RunScan(IsWord)), "identifier");
    forall d, i ensures JoinScan(CharStrScan(IsWordStart), RunScan(IsWord))(d, i) == IdentifierAt(d, i) {
    }
    ScansEquiv(Identifier, JoinScan(CharStrScan(IsWordStart), RunScan(IsWord)), IdentifierAt);
  }

  /** An identifier is found exactly where a letter or '_' is; it is the text it reads, it starts
      with a letter or '_', holds only word characters, and stops at the first other character. */
  lemma IdentifierShape(d: string, i: int)
    ensures IdentifierAt(d, i).Some? <==> 0 <= i < |d| && IsWordStart(d[i])
    ensures IdentifierAt(d, i).Some? ==>
      var (v, n) := IdentifierAt(d, i).value;
      n == |v| && i + n <= |d| && v == d[i..i + n] && IsWordStart(v[0])
      && (forall k :: 0 <= k < n ==> IsWord(v[k]))
      && !(i + n < |d| && IsWord(d[i + n]))
  {
    if 0 <= i < |d| && IsWordStart(d[i]) {
      var r := Run(d, i + 1, IsWord);
      RunSpec(d, i + 1, IsWord);
      var v := [d[i]] + r;
      if r != [] {
        assert v == d[i..i + 1 + |r|];
      } else {
        assert v == d[i..i + 1];
      }
    }
  }

  /** Where `identifier` fails it fails exactly as its scan says, expecting "identifier". */
  lemma IdentifierFailure(ctx: Context)
    ensures Identifier(ctx).outcome.Fail? <==> IdentifierAt(ctx.stream.data, ctx.stream.offset).None?
    ensures Identifier(ctx).outcome.Fail? ==>
      Identifier(ctx).outcome.error.Expected? && Identifier(ctx).outcome.error.value == "identifier"
  {
    IdentifierScans();
    assert ScansAt(Identifier, IdentifierAt, ctx);
    WordClassesScan();
    LabelSpec(Cat(Str(Alter(Alpha, Underline)), Many(Alter(Alnum, Underline))), "identifier", ctx);
  }

  /** `identifier` on "_x1 = 2" reads "_x1"; on "1abc" it fails. */
  lemma IdentifierExamples()
    ensures IdentifierAt("_x1 = 2", 0) == Some(("_x1", 3))
    ensures IdentifierAt("1abc", 0) == None
  {
    var d := "_x1 = 2";
    RunExact(d, 1, 3, IsWord);
    assert d[1..3] == "x1";
    assert [d[0]] + d[1..3] == "_x1";
  }

  // ---------------------------------------------------------------------------------------------
  // Quoted strings

  predicate NotQuote(c: char) { c != '"' }

  /** `_item.neq('"')` reads one character other than a double quote. */
  lemma NotQuoteScans()
    ensures Scans(Neq(Item, '"', CharRepr), CharScan(NotQuote)) && Progressive(Neq(Item, '"', CharRepr))
  {
    var f := (x: char) => x != '"';
    WhereItemScans(f, CharRepr);
    CharScanEquiv(Neq(Item, '"', CharRepr), f, NotQuote);
  }

  /** `string`: the characters between two double quotes, without them; there is no escape. */
  const StringLiteral: Parser<string> :=
    (NotQuoteScans(); Between(Many(Neq(Item, '"', CharRepr)), Quotation, Quotation))

  /** The string at index `i`: an opening quote, the run of non-quotes after it, and the closing
      quote that ends that run. */
  function StringAt(d: string, i: int): Option<(string, nat)>
  {
    if 0 <= i < |d| && d[i] == '"' then
      var r := Run(d, i + 1, NotQuote);
      if i + 1 + |r| < |d| && d[i + 1 + |r|] == '"' then Some((r, |r| + 2)) else None
    else None
  }

  lemma StringScans()
    ensures Scans(StringLiteral, StringAt)
  {
    NotQuoteScans();
    CharScans('"');
    ManyScans(Neq(Item, '"', CharRepr), NotQuote);
    var inner := Many(Neq(Item, '"', CharRepr));
    PrefixScans(inner, RunScan(NotQuote), Quotation, CharScan(Is('"')));
    var m := SkipScan(CharScan(Is('"')), RunScan(NotQuote));
    SuffixScans(Prefix(inner, Quotation), m, Quotation, CharScan(Is('"')));
    forall d, i ensures UntilScan(m, CharScan(Is('"')))(d, i) == StringAt(d, i) {
    }
    ScansEquiv(StringLiteral, UntilScan(m, CharScan(Is('"'))), StringAt);
  }

  /** A string is found exactly where a quote is followed, somewhere later, by another; its value
      is the text up to the first of those, which holds no quote. */
  lemma StringShape(d: string, i: int)
    ensures StringAt(d, i).Some? <==> 0 <= i < |d| && d[i] == '"' && '"' in d[i + 1..]
    ensures StringAt(d, i).Some? ==>
      var (v, n) := StringAt(d, i).value;
      n == |v| + 2 && i + n <= |d| && d[i] == '"' && v == d[i + 1..i + 1 + |v|] && d[i + 1 + |v|] == '"'
      && '"' !in v
  {
    if 0 <= i < |d| && d[i] == '"' {
      var r := Run(d, i + 1, NotQuote);
      RunSpec(d, i + 1, NotQuote);
      if r == [] {
        assert d[i + 1..i + 1] == r;
      }
      assert '"' !in r by {
        forall k | 0 <= k < |r| ensures r[k] != '"' {
          assert NotQuote(r[k]);
        }
      }
      assert forall j :: 0 <= j < |r| ==> d[i + 1 + j] == r[j] && NotQuote(r[j]);
      if i + 1 + |r| < |d| {
        assert d[i + 1..][|r|] == d[i + 1 + |r|];
      }
      if '"' in d[i + 1..] {
        var k :| 0 <= k < |d[i + 1..]| && d[i + 1..][k] == '"';
        assert d[i + 1 + k] == '"';
      }
    }
  }

  /** `s` between double quotes. */
  function Quoted(s: string): string
  {
    ['"'] + s + ['"']
  }

  /** Reading back a quoted text without quotes gives the text, whatever follows it. */
  lemma StringReadsQuoted(s: string, rest: string)
    requires '"' !in s
    ensures StringAt(Quoted(s) + rest, 0) == Some((s, |s| + 2))
  {
    var d := Quoted(s) + rest;
    forall j | 1 <= j < 1 + |s| ensures NotQuote(d[j]) {
      assert d[j] == s[j - 1];
    }
    assert d[1 + |s|] == '"';
    RunExact(d, 1, 1 + |s|, NotQuote);
    assert d[1..1 + |s|] == s;
  }

  /** A quote that is never closed is not a string. */
  lemma StringUnterminated(s: string)
    requires '"' !in s
    ensures StringAt(['"'] + s, 0) == None
  {
    var d := ['"'] + s;
    assert d[1..] == s;
    StringShape(d, 0);
  }

  // ---------------------------------------------------------------------------------------------
  // Lexemes

  /** `lexeme(lex)(p)`: `p`, after as many of what `lex` reads as there are. */
  function Lexeme<R, X>(p: Parser<R>, lex: Parser<X>): Parser<R>
    requires Progressive(lex)
  {
    LTrim(p, lex)
  }

  /** `lexeme()(p)`, whose default `lex` is `blank`. */
  function BlankLexeme<R>(p: Parser<R>): Parser<R>
  {
    ClassesScan();
    CharScanProgressive(Blank, IsSpace);
    Lexeme(p, Blank)
  }

  /** Skipping a class of characters and then reading `m`. */
  function TrimScan<R>(f: char -> bool, m: Scan<R>): Scan<R>
  {
    (d: string, i: int) => TrimAt(f, m, d, i)
  }

  /** What `m` finds after the run of `f` at index `i`, counting the run. */
  function TrimAt<R>(f: char -> bool, m: Scan<R>, d: string, i: int): Option<(R, nat)>
  {
    var w := Run(d, i, f);
    match m(d, i + |w|)
    case None => None
    case Some(a) =>
      var n: nat := |w| + a.1;
      Some((a.0, n))
  }

  /** A lexeme reads the longest run of `lex`'s class, then what `p` reads from there. */
  lemma LexemeScans<R>(p: Parser<R>, m: Scan<R>, lex: Parser<char>, f: char -> bool)
    requires Scans(p, m) && Scans(lex, CharScan(f))
    ensures Progressive(lex) && Scans(Lexeme(p, lex), TrimScan(f, m))
  {
    ManyScans(lex, f);
    PrefixScans(p, m, Many(lex), RunScan(f));
    forall d, i ensures SkipScan(RunScan(f), m)(d, i) == TrimScan(f, m)(d, i) {
    }
    ScansEquiv(Lexeme(p, lex), SkipScan(RunScan(f), m), TrimScan(f, m));
  }

  /** The default lexeme skips white space. */
  lemma BlankLexemeScans<R>(p: Parser<R>, m: Scan<R>)
    requires Scans(p, m)
    ensures Scans(BlankLexeme(p), TrimScan(IsSpace, m))
  {
    ClassesScan();
    LexemeScans(p, m, Blank, IsSpace);
  }

  /** Trimming twice reads what trimming once reads: the second run finds nothing left to skip. */
  lemma TrimTwice<R>(f: char -> bool, m: Scan<R>, d: string, i: int)
    ensures TrimScan(f, TrimScan(f, m))(d, i) == TrimScan(f, m)(d, i)
  {
    var w := Run(d, i, f);
    RunSpec(d, i, f);
    assert Run(d, i + |w|, f) == [];
    assert TrimAt(f, m, d, i + |w|) == m(d, i + |w|);
  }

  /** So a lexeme of a lexeme over the same class reads what the lexeme reads. */
  lemma LexemeIdempotent<R>(p: Parser<R>, m: Scan<R>, lex: Parser<char>, f: char -> bool)
    requires Scans(p, m) && Scans(lex, CharScan(f))
    ensures Progressive(lex) && Scans(Lexeme(Lexeme(p, lex), lex), TrimScan(f, m))
  {
    LexemeScans(p, m, lex, f);
    LexemeScans(Lexeme(p, lex), TrimScan(f, m), lex, f);
    forall d, i ensures TrimScan(f, TrimScan(f, m))(d, i) == TrimScan(f, m)(d, i) {
      TrimTwice(f, m, d, i);
    }
    ScansEquiv(Lexeme(Lexeme(p, lex), lex), TrimScan(f, TrimScan(f, m)), TrimScan(f, m));
  }

  /** The default lexeme of `identifier` on "  foo bar" reads "foo" and the two blanks before it. */
  lemma LexemeExample()
    ensures TrimScan(IsSpace, IdentifierAt)("  foo bar", 0) == Some(("foo", 5))
  {
    var d := "  foo bar";
    RunExact(d, 0, 2, IsSpace);
    RunExact(d, 3, 5, IsWord);
    assert d[3..5] == "oo";
    assert [d[2]] + d[3..5] == "foo";
  }

  // ---------------------------------------------------------------------------------------------
  // Fixed-width forms

  /** Exactly `w` characters that `ok` accepts, read verbatim. */
  function Fixed(w: nat, ok: string -> bool): Scan<string>
  {
    (d: string, i: int) => if 0 <= i && i + w <= |d| && ok(d[i..i + w]) then Some((d[i..i + w], w)) else None
  }

  /** A text whose first `w` characters `ok1` accepts and whose rest `ok2` accepts. */
  function Both(w: nat, ok1: string -> bool, ok2: string -> bool): string -> bool
  {
    t => w <= |t| && ok1(t[..w]) && ok2(t[w..])
  }

  /** Two fixed-width texts one after the other are one fixed-width text. */
  lemma FixedJoin(w1: nat, ok1: string -> bool, w2: nat, ok2: string -> bool, d: string, i: int)
    ensures JoinScan(Fixed(w1, ok1), Fixed(w2, ok2))(d, i) == Fixed(w1 + w2, Both(w1, ok1, ok2))(d, i)
  {
    if 0 <= i && i + w1 + w2 <= |d| {
      var t := d[i..i + w1 + w2];
      assert t[..w1] == d[i..i + w1];
      assert t[w1..] == d[i + w1..i + w1 + w2];
      assert d[i..i + w1] + d[i + w1..i + w1 + w2] == t;
    }
  }

  /** The same, for the parsers that read them. */
  lemma FixedCatScans(p: Parser<string>, w1: nat, ok1: string -> bool, q: Parser<string>, w2: nat, ok2: string -> bool)
    requires Scans(p, Fixed(w1, ok1)) && Scans(q, Fixed(w2, ok2))
    ensures Scans(Cat(p, q), Fixed(w1 + w2, Both(w1, ok1, ok2)))
  {
    CatScans(p, Fixed(w1, ok1), q, Fixed(w2, ok2));
    forall d, i ensures JoinScan(Fixed(w1, ok1), Fixed(w2, ok2))(d, i) == Fixed(w1 + w2, Both(w1, ok1, ok2))(d, i) {
      FixedJoin(w1, ok1, w2, ok2, d, i);
    }
    ScansEquiv(Cat(p, q), JoinScan(Fixed(w1, ok1), Fixed(w2, ok2)), Fixed(w1 + w2, Both(w1, ok1, ok2)));
  }

  /** Two tests that agree on every text of width `w` read the same. */
  lemma FixedEquiv(p: Parser<string>, w: nat, ok1: string -> bool, ok2: string -> bool)
    requires Scans(p, Fixed(w, ok1))
    requires forall t :: |t| == w ==> ok1(t) == ok2(t)
    ensures Scans(p, Fixed(w, ok2))
  {
    forall d, i ensures Fixed(w, ok1)(d, i) == Fixed(w, ok2)(d, i) {
      if 0 <= i && i + w <= |d| {
        assert |d[i..i + w]| == w;
      }
    }
    ScansEquiv(p, Fixed(w, ok1), Fixed(w, ok2));
  }

  /** A text made of decimal digits. */
  predicate Digital(t: string)
  {
    forall k :: 0 <= k < |t| ==> IsDigit(t[k])
  }

  /** The one-character text `c`. */
  function Just(c: char): string -> bool
  {
    t => t == [c]
  }

  /** `_digit_n(n)`: exactly `n` digits, as one string. */
  function DigitN(n: nat): Parser<string>
  {
    Repeat(Digit, n)
  }

  /** `n` digits are read wherever they stand, and nowhere else; none are always read. */
  lemma DigitNSpec(n: nat, d: string, i: int)
    ensures n == 0 ==> CountScan(IsDigit, n)(d, i) == Some(([], 0))
    ensures n > 0 ==> CountScan(IsDigit, n)(d, i) == Fixed(n, Digital)(d, i)
  {
    var r := Run(d, i, IsDigit);
    RunSpec(d, i, IsDigit);
    if n > 0 && n <= |r| {
      assert r[..n] == d[i..i + n];
    }
    if n > 0 && 0 <= i && i + n <= |d| && Digital(d[i..i + n]) {
      assert forall k :: i <= k < i + n ==> d[k] == d[i..i + n][k - i];
    }
  }

  lemma DigitNScans(n: nat)
    requires n > 0
    ensures Scans(DigitN(n), Fixed(n, Digital))
  {
    ClassesScan();
    RepeatScans(Digit, IsDigit, n);
    forall d, i ensures CountScan(IsDigit, n)(d, i) == Fixed(n, Digital)(d, i) {
      DigitNSpec(n, d, i);
    }
    ScansEquiv(DigitN(n), CountScan(IsDigit, n), Fixed(n, Digital));
  }

  /** A separator character, as a string. */
  lemma SeparatorScans(c: char)
    ensures Scans(Str(Char(c)), Fixed(1, Just(c)))
  {
    CharScans(c);
    StrScans(Char(c), Is(c));
    forall d, i ensures CharStrScan(Is(c))(d, i) == Fixed(1, Just(c))(d, i) {
      if 0 <= i < |d| {
        assert d[i..i + 1] == [d[i]];
      }
    }
    ScansEquiv(Str(Char(c)), CharStrScan(Is(c)), Fixed(1, Just(c)));
  }

  /** Two digits, `sep`, two digits, `sep` and `last` digits: the shape shared by `date` and `time`. */
  function Triple(first: nat, sep: char): Parser<string>
  {
    Cat(Cat(Cat(Cat(DigitN(first), Str(Char(sep))), DigitN(2)), Str(Char(sep))), DigitN(2))
  }

  /** The text of a triple: `first` digits, `sep`, two digits, `sep`, two digits. */
  predicate TripleText(first: nat, sep: char, t: string)
  {
    |t| == first + 6 && Digital(t[..first]) && t[first] == sep && Digital(t[first + 1..first + 3])
    && t[first + 3] == sep && Digital(t[first + 4..])
  }

  /** The test the composed parser applies. */
  function TripleTest(first: nat, sep: char): string -> bool
  {
    Both(first + 4, Both(first + 3, Both(first + 1, Both(first, Digital, Just(sep)), Digital), Just(sep)), Digital)
  }

  lemma TripleTestText(first: nat, sep: char, t: string)
    requires first > 0 && |t| == first + 6
    ensures TripleTest(first, sep)(t) == TripleText(first, sep, t)
  {
    var a := t[..first + 4];
    var b := a[..first + 3];
    var c := b[..first + 1];
    assert forall k :: 0 <= k < first + 1 ==> c[k] == t[k];
    assert c[..first] == t[..first];
    assert c[first..] == [t[first]];
    assert b[first + 1..] == t[first + 1..first + 3];
    assert a[first + 3..] == [t[first + 3]];
  }

  lemma TripleScans(first: nat, sep: char)
    requires first > 0
    ensures Scans(Triple(first, sep), Fixed(first + 6, (t: string) => TripleText(first, sep, t)))
  {
    DigitNScans(first);
    DigitNScans(2);
    SeparatorScans(sep);
    var p1 := Cat(DigitN(first), Str(Char(sep)));
    FixedCatScans(DigitN(first), first, Digital, Str(Char(sep)), 1, Just(sep));
    var ok1 := Both(first, Digital, Just(sep));
    FixedCatScans(p1, first + 1, ok1, DigitN(2), 2, Digital);
    var p2 := Cat(p1, DigitN(2));
    var ok2 := Both(first + 1, ok1, Digital);
    FixedCatScans(p2, first + 3, ok2, Str(Char(sep)), 1, Just(sep));
    var p3 := Cat(p2, Str(Char(sep)));
    var ok3 := Both(first + 3, ok2, Just(sep));
    FixedCatScans(p3, first + 4, ok3, DigitN(2), 2, Digital);
    forall t | |t| == first + 6 ensures TripleTest(first, sep)(t) == TripleText(first, sep, t) {
      TripleTestText(first, sep, t);
    }
    FixedEquiv(Triple(first, sep), first + 6, TripleTest(first, sep), (t: string) => TripleText(first, sep, t));
  }

  // ---------------------------------------------------------------------------------------------
  // Dates and times

  /** The fields `Date.fromisoformat` reads from "YYYY-MM-DD"; no range is checked. */
  datatype Date = Date(year: nat, month: nat, day: nat)

  /** The fields `Time.fromisoformat` reads from "HH:MM:SS"; no range is checked. */
  datatype Time = Time(hour: nat, minute: nat, second: nat)

  /** `Datetime.combine(date, time)`. */
  datatype DateTime = DateTime(date: Date, time: Time)

  /** The decimal value of a text of digits. */
  function Num(t: string): nat
  {
    TextNumbers.DigitsValue(t, 10)
  }

  /** `Date.fromisoformat` on the ten characters `date` reads. */
  function DateOf(t: string): Date
  {
    if |t| == 10 then Date(Num(t[..4]), Num(t[5..7]), Num(t[8..])) else Date(0, 0, 0)
  }

  /** `Time.fromisoformat` on the eight characters `time` reads. */
  function TimeOf(t: string): Time
  {
    if |t| == 8 then Time(Num(t[..2]), Num(t[3..5]), Num(t[6..])) else Time(0, 0, 0)
  }

  /** `date`: "YYYY-MM-DD" as a date. */
  const DateParser: Parser<Date> := Label(Map(Triple(4, '-'), DateOf), "date")

  /** `time`: "HH:MM:SS" as a time. */
  const TimeParser: Parser<Time> := Label(Map(Triple(2, ':'), TimeOf), "time")

  /** `datetime`: a date, one space, and a time. */
  const DateTimeParser: Parser<DateTime> :=
    Map(Pair(Suffix(DateParser, Char(' ')), TimeParser), (dt: (Date, Time)) => DateTime(dt.0, dt.1))

  /** The date at index `i`: ten characters shaped "DDDD-DD-DD". */
  function DateAt(d: string, i: int): Option<(Date, nat)>
  {
    if 0 <= i && i + 10 <= |d| && TripleText(4, '-', d[i..i + 10]) then Some((DateOf(d[i..i + 10]), 10)) else None
  }

  /** The time at index `i`: eight characters shaped "DD:DD:DD". */
  function TimeAt(d: string, i: int): Option<(Time, nat)>
  {
    if 0 <= i && i + 8 <= |d| && TripleText(2, ':', d[i..i + 8]) then Some((TimeOf(d[i..i + 8]), 8)) else None
  }

  /** The date and time at index `i`: a date, a space, a time; nineteen characters. */
  function DateTimeAt(d: string, i: int): Option<(DateTime, nat)>
  {
    if 0 <= i && i + 19 <= |d| && TripleText(4, '-', d[i..i + 10]) && d[i + 10] == ' '
       && TripleText(2, ':', d[i + 11..i + 19])
    then Some((DateTime(DateOf(d[i..i + 10]), TimeOf(d[i + 11..i + 19])), 19))
    else None
  }

  lemma DateScans()
    ensures Scans(DateParser, DateAt)
  {
    TripleScans(4, '-');
    var m := Fixed(10, (t: string) => TripleText(4, '-', t));
    MapScans(Triple(4, '-'), m, DateOf);
    LabelScans(Map(Triple(4, '-'), DateOf), MapScan(m, DateOf), "date");
    forall d, i ensures MapScan(m, DateOf)(d, i) == DateAt(d, i) {
    }
    ScansEquiv(DateParser, MapScan(m, DateOf), DateAt);
  }

  lemma TimeScans()
    ensures Scans(TimeParser, TimeAt)
  {
    TripleScans(2, ':');
    var m := Fixed(8, (t: string) => TripleText(2, ':', t));
    MapScans(Triple(2, ':'), m, TimeOf);
    LabelScans(Map(Triple(2, ':'), TimeOf), MapScan(m, TimeOf), "time");
    forall d, i ensures MapScan(m, TimeOf)(d, i) == TimeAt(d, i) {
    }
    ScansEquiv(TimeParser, MapScan(m, TimeOf), TimeAt);
  }

  /** Where `date` fails it fails exactly as its scan says, expecting "date". */
  lemma DateFailure(ctx: Context)
    ensures DateParser(ctx).outcome.Fail? <==> DateAt(ctx.stream.data, ctx.stream.offset).None?
    ensures DateParser(ctx).outcome.Fail? ==>
      DateParser(ctx).outcome.error.Expected? && DateParser(ctx).outcome.error.value == "date"
  {
    DateScans();
    assert ScansAt(DateParser, DateAt, ctx);
    LabelSpec(Map(Triple(4, '-'), DateOf), "date", ctx);
  }

  /** Where `time` fails it fails exactly as its scan says, expecting "time". */
  lemma TimeFailure(ctx: Context)
    ensures TimeParser(ctx).outcome.Fail? <==> TimeAt(ctx.stream.data, ctx.stream.offset).None?
    ensures TimeParser(ctx).outcome.Fail? ==>
      TimeParser(ctx).outcome.error.Expected? && TimeParser(ctx).outcome.error.value == "time"
  {
    TimeScans();
    assert ScansAt(TimeParser, TimeAt, ctx);
    LabelSpec(Map(Triple(2, ':'), TimeOf), "time", ctx);
  }

  /** What the date-and-time scan composes, case by case. */
  lemma DateTimeJoin(d: string, i: int)
    ensures MapScan(ThenScan(UntilScan(DateAt, CharScan(Is(' '))), TimeAt), (dt: (Date, Time)) => DateTime(dt.0, dt.1))(d, i)
      == DateTimeAt(d, i)
  {
    var m1 := UntilScan(DateAt, CharScan(Is(' ')));
    if DateAt(d, i).Some? && CharScan(Is(' '))(d, i + 10).Some? {
      assert m1(d, i) == Some((DateOf(d[i..i + 10]), 11));
      if TimeAt(d, i + 11).Some? {
        assert DateTimeAt(d, i).Some?;
      } else {
        assert DateTimeAt(d, i).None?;
      }
    } else {
      assert m1(d, i).None?;
      assert DateTimeAt(d, i).None?;
    }
  }

  lemma DateTimeScans()
    ensures Scans(DateTimeParser, DateTimeAt)
  {
    DateScans();
    TimeScans();
    CharScans(' ');
    SuffixScans(DateParser, DateAt, Char(' '), CharScan(Is(' ')));
    var m1 := UntilScan(DateAt, CharScan(Is(' ')));
    PairScans(Suffix(DateParser, Char(' ')), m1, TimeParser, TimeAt);
    var combine := (dt: (Date, Time)) => DateTime(dt.0, dt.1);
    MapScans(Pair(Suffix(DateParser, Char(' ')), TimeParser), ThenScan(m1, TimeAt), combine);
    forall d, i ensures MapScan(ThenScan(m1, TimeAt), combine)(d, i) == DateTimeAt(d, i) {
      DateTimeJoin(d, i);
    }
    ScansEquiv(DateTimeParser, MapScan(ThenScan(m1, TimeAt), combine), DateTimeAt);
  }

  // ---------------------------------------------------------------------------------------------
  // Writing dates and times back

  function Pow10(w: nat): nat
  {
    if w == 0 then 1 else 10 * Pow10(w - 1)
  }

  /** The last `w` decimal digits of `n`, with leading zeros. */
  function Padded(n: nat, w: nat): string
  {
    if w == 0 then [] else Padded(n / 10, w - 1) + [TextNumbers.DigitChar(n % 10)]
  }

  /** A number below `10^w` written in `w` digits is read back as itself. */
  lemma {:induction false} PaddedSpec(n: nat, w: nat)
    requires n < Pow10(w)
    ensures |Padded(n, w)| == w && Digital(Padded(n, w)) && Num(Padded(n, w)) == n
  {
    if w > 0 {
      PaddedSpec(n / 10, w - 1);
      var s := Padded(n, w);
      assert s[..|s| - 1] == Padded(n / 10, w - 1);
    }
  }

  /** `first` digits of `a`, `sep`, two digits of `b`, `sep`, two digits of `c`. */
  function TripleFormat(first: nat, sep: char, a: nat, b: nat, c: nat): string
  {
    Padded(a, first) + [sep] + Padded(b, 2) + [sep] + Padded(c, 2)
  }

  lemma TripleFormatText(first: nat, sep: char, a: nat, b: nat, c: nat)
    requires a < Pow10(first) && b < 100 && c < 100
    ensures var t := TripleFormat(first, sep, a, b, c);
      TripleText(first, sep, t) && Num(t[..first]) == a && Num(t[first + 1..first + 3]) == b
      && Num(t[first + 4..]) == c
  {
    PaddedSpec(a, first);
    PaddedSpec(b, 2);
    PaddedSpec(c, 2);
    var t := TripleFormat(first, sep, a, b, c);
    assert t[..first] == Padded(a, first);
    assert t[first + 1..first + 3] == Padded(b, 2);
    assert t[first + 4..] == Padded(c, 2);
  }

  /** `date.isoformat()` for a year below 10000. */
  function IsoDate(v: Date): string
  {
    TripleFormat(4, '-', v.year, v.month, v.day)
  }

  /** `time.isoformat()` for whole seconds. */
  function IsoTime(v: Time): string
  {
    TripleFormat(2, ':', v.hour, v.minute, v.second)
  }

  /** `str(datetime)`: the date, a space, the time. */
  function IsoDateTime(v: DateTime): string
  {
    IsoDate(v.date) + " " + IsoTime(v.time)
  }

  /** A date written in ISO form is read back as itself, whatever follows it. */
  lemma DateReadsIso(v: Date, rest: string)
    requires v.year < 10000 && v.month < 100 && v.day < 100
    ensures DateAt(IsoDate(v) + rest, 0) == Some((v, 10))
  {
    TripleFormatText(4, '-', v.year, v.month, v.day);
    var d := IsoDate(v) + rest;
    assert d[0..10] == IsoDate(v);
  }

  /** A time written in ISO form is read back as itself, whatever follows it. */
  lemma TimeReadsIso(v: Time, rest: string)
    requires v.hour < 100 && v.minute < 100 && v.second < 100
    ensures TimeAt(IsoTime(v) + rest, 0) == Some((v, 8))
  {
    TripleFormatText(2, ':', v.hour, v.minute, v.second);
    var d := IsoTime(v) + rest;
    assert d[0..8] == IsoTime(v);
  }

  /** A date and time written in ISO form are read back as themselves, whatever follows them. */
  lemma DateTimeReadsIso(v: DateTime, rest: string)
    requires v.date.year < 10000 && v.date.month < 100 && v.date.day < 100
    requires v.time.hour < 100 && v.time.minute < 100 && v.time.second < 100
    ensures DateTimeAt(IsoDateTime(v) + rest, 0) == Some((v, 19))
  {
    TripleFormatText(4, '-', v.date.year, v.date.month, v.date.day);
    TripleFormatText(2, ':', v.time.hour, v.time.minute, v.time.second);
    var d := IsoDateTime(v) + rest;
    assert d[0..10] == IsoDate(v.date);
    assert d[10] == ' ';
    assert d[11..19] == IsoTime(v.time);
  }
}
