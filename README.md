# parsec-python, modelled in Dafny

This project models the monadic parser-combinator engine of the `parsec` Python package. It covers:

- the parser core (`parsec/core.py`): results, the primitives `item`, `look` and `eos`, and every
  combinator;
- parse errors (`parsec/error.py`);
- the parsing context (`parsec/context.py`);
- the text stream and text position (`parsec/text/context.py`);
- the lexical parsers of `parsec/text/basic.py`;
- the functional helpers of `parsec/utils.py`.

In the model, a parser is a Dafny function from a context to a result. The context is a cursor
over the text plus a line/column position. The result is the context after the parse, an outcome
(`Okay(value)` or `Fail(error)`) and the number of characters consumed.

Two predicates carry most of the reasoning:

- `Accounts(ctx, r)` says that the consumed count is honest: the result's context is the starting
  context advanced by exactly that many characters, with the position updated over them.
- `WellBehaved` and `Progressive` say this holds for every context; a progressive parser also
  consumes something whenever it succeeds.

Every combinator preserves these properties. The repeating combinators (`many`, `some`, `sep_by`,
`end_by`, `chainl1`, `chainr1`) are defined only for progressive element parsers. The source has no
such guard: it recurses without end on a parser that succeeds without consuming.

The lexical parsers are described by *scans*. A scan is a pure function of the text and a starting
index that says whether the parser succeeds there, what value it returns and how many characters it
reads. The lemma `Scans(p, m)` ties a parser to its scan. Each parser in `parsec/text/basic.py` is
shown to read exactly what its scan describes. The properties are then proved about the scans:

- the shape of identifiers, strings, numbers, dates and times;
- round trips from a value's text form back to the value;
- lexeme idempotence.

The imperative parts of the source keep their form:

- `TextStream` is a class whose `Read` advances its offset in place.
- A `define`d parser is a class, `Placeholder`, whose `Define` overwrites its function.
- `compose`, `pipes` and `pretty` are methods with loops, proved against recursive specification
  functions.

Files, one module each:

- `wrappers.dfy`: Option.
- `utils.dfy`: `parsec/utils.py`.
- `error.dfy`: `parsec/error.py`.
- `text_context.dfy`: `parsec/text/context.py`.
- `context.dfy`: `parsec/context.py`.
- `core.dfy`: the combinators of `parsec/core.py` and their preservation lemmas.
- `core_props.dfy`: the behaviour of each combinator.
- `core_findings.dfy`: `sep_by` and `many_till` as written and as their docstrings describe them.
- `scans.dfy`: the scan framework.
- `text_basic.dfy`: characters, classes and literals.
- `text_numbers.dfy`: signs, integers, floats and numbers.
- `text_forms.dfy`: blanks, identifiers, strings, lexemes, fixed-width digits, dates and times.
- `chain_examples.dfy`: `chainl1` and `chainr1` worked end to end on small arithmetic texts.

## Model

| member | source | states |
|---|---|---|
| Utils.Const | parsec/utils.py:4-8 | `const(a)` returns `a` whatever its argument |
| Utils.Cons | parsec/utils.py:11-15 | `cons(a)(l)` is one longer than `l`, starts with `a` and continues with `l` unchanged |
| Utils.Identity | parsec/utils.py:18-19 | `identity` returns its argument |
| Utils.Curry2 | parsec/utils.py:22-23 | `curry2(f)(t)(u)` equals `f(t, u)` for all arguments |
| Utils.Uncurry2 | parsec/utils.py:26-27 | `uncurry2(f)(t, u)` equals `f(t)(u)` for all arguments |
| Utils.Flip | parsec/utils.py:30-33 | `flip(f)(u)(t)` equals `f(t)(u)` for all arguments |
| Utils.UncurryCurry | parsec/utils.py:22-27 | `uncurry2(curry2(f))` agrees with `f` everywhere |
| Utils.FlipFlip | parsec/utils.py:30-33 | flipping twice agrees with the original function everywhere |
| Utils.Compose | parsec/utils.py:36-43 | the accumulator loop over the reversed functions computes the composition (last function first) |
| Utils.Pipes | parsec/utils.py:46-53 | the accumulator loop over the functions in order computes the pipeline (first function first) |
| Utils.Reverse | parsec/utils.py:39 | `reversed(fns)` has the same length and element `i` is element `len-1-i` |
| Utils.CompositionAppend | parsec/utils.py:36-43 | composing a concatenation is composing the first part after the second |
| Utils.PipelineIsReversedComposition | parsec/utils.py:36-53 | `pipes(f1..fn)` is `compose` over the reversed list |
| Utils.EmptyCompositionIsIdentity | parsec/utils.py:36-53 | with no functions, `compose` and `pipes` are the identity |
| Utils.HeadTailSplit | parsec/utils.py:56-69 | `head` and `fst` give element 0, `tail` all the rest, `snd` element 1; head followed by tail rebuilds the tuple |
| Errors.StructuralEquality | parsec/error.py:15-20 | two errors are equal iff they are the same kind with equal fields; errors of different kinds are unequal |
| Errors.EOSError | parsec/error.py:40-41 | `EOSError(s)` is `UnExpected('<EOS>', s)` |
| Errors.AlterErrorOf | parsec/error.py:72-73 | `AlterError()` and `AlterError([])` have no children; otherwise the children are the list given |
| Errors.FlattenAppend | parsec/error.py:78-82 | the flattening `join` applies distributes over concatenation of the children |
| Errors.JoinReplacesAlternative | parsec/error.py:78-82 | `join` replaces an `AlterError` child by exactly its own children, in place |
| Errors.JoinKeepsOtherChild | parsec/error.py:78-82 | `join` keeps any other child in place |
| Errors.JoinMembership | parsec/error.py:78-82 | an error is a child of the joined error iff it is a non-alternative child or a child of an alternative child |
| Errors.JoinKeepsDuplicates | parsec/error.py:78-82 | `join` keeps duplicate children, both direct and from flattened alternatives |
| Errors.JoinFlattensOneLevel | parsec/error.py:78-82 | only one level is flattened: an alternative nested two deep survives |
| Errors.Dedup | parsec/error.py:59 | the children after `list(set(...))` have no duplicates and the same members, and are no more numerous |
| Errors.ExpectedOf | parsec/error.py:47-59 | the constructed `Expected` keeps its label; its children are duplicate-free and are exactly the members of the children flattened one level |
| Errors.ExpectedWithoutChildren | parsec/error.py:47-49 | `Expected(v)` with no children argument has an empty children list |
| Errors.ExpectedChildren | parsec/error.py:47-59 | after construction, `x` is a child of `Expected(v, cs)` iff it is a non-alternative member of `cs` or a child of an alternative member; no child appears twice |
| Errors.ExpectedMergesEqualCauses | parsec/error.py:55-59 | a label over two alternatives that failed with the same cause keeps a single cause |
| Errors.Pretty | parsec/error.py:61-66 | the loop that appends one line per child and joins them computes the rendering function |
| Errors.RenderShape | parsec/error.py:35-86 | rendering starts with the padding (a newline at indent 0 or less); `Expected` prints its label and then each child at indent+4; `AlterError` prints only its name, whatever its children |
| TextContext.SliceBound | parsec/text/context.py:16-19 | a Python slice bound: a negative one counts from the end, and the result is clamped into `[0, len]`, kept when already inside |
| TextContext.PySlice | parsec/text/context.py:16-19 | `s[a:b]` is no longer than `s` and is the plain subsequence when `0 <= a <= b <= len` |
| TextContext.PeekWithin | parsec/text/context.py:18-19 | `peek(n)` from a non-negative offset returns the next `n` characters, fewer near the end, none past it |
| TextContext.AtEndIffNothingToPeek | parsec/text/context.py:18-31 | from a non-negative offset, `eos()` holds iff `peek()` returns nothing |
| TextContext.MoveSeekLaws | parsec/text/context.py:21-25 | `move` composes additively and `move(k)` then `move(-k)` is the identity; `seek(offset+k)` is `move(k)`; neither touches the text |
| TextContext.TextStream.constructor | parsec/text/context.py:10-12 | a new stream holds the given text at the given offset (0 by default in the source) |
| TextContext.TextStream.Read | parsec/text/context.py:14-16 | `read(n)` advances the offset in place by exactly `n`, even past the end, and returns what `peek(n)` returned before the call |
| TextContext.TextStream.Peek | parsec/text/context.py:18-19 | `peek(n)` returns `data[offset:offset+n]` without changing the stream |
| TextContext.TextStream.Move | parsec/text/context.py:21-22 | `move(k)` returns a new stream at `offset + k` over the same text; the original stays put |
| TextContext.TextStream.Seek | parsec/text/context.py:24-25 | `seek(k)` returns a new stream at `k` over the same text; the original stays put |
| TextContext.TextStream.Tell | parsec/text/context.py:27-28 | `tell()` reports the offset |
| TextContext.TextStream.Eos | parsec/text/context.py:30-31 | `eos()` holds iff the offset is negative or at least the length of the text |
| TextContext.ReadThenMoveBack | parsec/text/context.py:14-22 | reading `n` and moving back by `n` gives a stream at the original offset; the reader has seen what `peek(n)` would have shown |
| TextContext.CountSpec | parsec/text/context.py:43 | `count('\n')` is at most the length and is zero iff there is no newline |
| TextContext.CountAppend | parsec/text/context.py:43 | `count` adds up over concatenation |
| TextContext.RFindSpec | parsec/text/context.py:46 | `rfind('\n')` is the index of the last newline, or -1 exactly when there is none |
| TextContext.UpdateAsWrittenSpec | parsec/text/context.py:42-47 | `update(v)` drops the file name and adds the newline count to the line; without a newline it adds `len(v)` to the column; with one, the column is the index just past the last newline, so it points at a newline of `v` with none after it |
| TextContext.UpdateAsWrittenChar | parsec/text/context.py:42-47 | one character, as written: a newline moves to column 1 of the next line, anything else one column right; the line agrees with the corrected update and the column exceeds it by one after a newline |
| TextContext.UpdateStateSpec | parsec/text/context.py:42-47 | corrected variant (see Findings), not the source's update: drops the file name, adds the newline count to the line, and adds `len(v)` to the column when `v` has no newline; otherwise the column counts the characters after the last newline |
| TextContext.UpdateStateChar | parsec/text/context.py:42-47 | corrected variant (see Findings): a newline moves to column 0 of the next line, anything else one column right |
| TextContext.RFindAppend | parsec/text/context.py:46 | the last newline of `a + b` is in `b` if `b` has one, else in `a` |
| TextContext.UpdateFold | parsec/text/context.py:42-47 | corrected variant (see Findings): updating with `a` then `b` equals updating with `a + b`, so that position is a fold over the consumed text |
| TextContext.UpdateAsWrittenIsNotAFold | parsec/text/context.py:37-47 | as written, the default state has column 0 while a single newline puts the column at 1, and "a" then "\n" differs from "a\n" |
| TextContext.NatToStringRoundTrip | parsec/text/context.py:49-52 | `str(n)` of a natural number is a decimal numeral worth `n` |
| TextContext.IntToStringInjective | parsec/text/context.py:49-52 | `str` on integers is injective and never contains ':' |
| TextContext.SplitAtFirstColon | parsec/text/context.py:49-52 | two colon-separated texts whose first parts hold no colon split the same way |
| TextContext.FormatDeterminesPosition | parsec/text/context.py:49-52 | without a file, `format()` ("line:column") determines the line and the column |
| TextContext.CharReprPrintable | parsec/core.py:717-718 | `repr` of a printable character other than a quote or backslash is that character between single quotes |
| Contexts.Step | parsec/context.py:49-50 | what `item` does to the context: the same text, one character further, and the source's update over that character: a newline gives column 1 of the next line, anything else one column right |
| Contexts.Advance | parsec/context.py:46-50 | advancing by `n` keeps the text and moves the offset by exactly `n` |
| Contexts.ReachesZero | parsec/context.py:46-47 | consuming nothing leaves the context exactly as it was |
| Contexts.ReachesTrans | parsec/context.py:46-50 | consumed counts add up along a chain of parsers |
| Contexts.BacktrackReplacesState | parsec/context.py:46-47 | `backtrack(n, s)` has state exactly `s` and the same text; `backtrack(0, s)` keeps the stream |
| Contexts.UpdateKeepsStream | parsec/context.py:49-50 | `update(v)` keeps the stream and replaces the state by the source's `state.update(v)` |
| Contexts.BacktrackAdvance | parsec/context.py:46-47 | consuming `n` and then backtracking `n` to the earlier state gives back the starting context |
| Contexts.AdvanceAdvance | parsec/context.py:46-50 | consuming `a` then `b` characters is consuming `a + b` |
| Contexts.AdvanceState | parsec/context.py:49-50 | relates the source's update, applied one character at a time as `item` does, to the corrected variant over all the consumed characters: the same line, and the column one more exactly when a newline was consumed |
| Contexts.ColumnsAsWritten | parsec/text/context.py:37-47 | from the source's default state (column 0), `item` on a leading newline gives line 2, column 1, so line 1 counts from 0 and later lines from 1 |
| Contexts.LineStartsAtColumnOne | parsec/text/context.py:37-47 | starting at column 1, as the corrected default does, every consumed run that ends with a newline leaves the column at 1 |
| Core.Rewind | parsec/core.py:353 | after an honest failure, the alternative resumes from exactly the context the first branch started at |
| Core.Both | parsec/core.py:357-358 | `AlterError([e1, e2]).join()` is an alternative whose children are `e1` and `e2`, each spread one level |
| Core.ManyRun | parsec/core.py:777-805 | `many` on a progressive parser always succeeds and accounts honestly for what it consumed |
| Core.ChainlRun | parsec/core.py:825-826 | the left-fold loop of `chainl1` always succeeds and accounts honestly |
| Core.ChainrRun | parsec/core.py:849-850 | `chainr1` succeeds iff its first operand does, then consumes something, and accounts honestly |
| Core.Placeholder.constructor | parsec/core.py:44-45 | `Parser()` starts undefined |
| Core.Placeholder.Define | parsec/core.py:47-60 | `define(q)` overwrites the function so that running the parser runs `q` |
| Core.Placeholder.Run | parsec/core.py:62-77 | `run` on a defined parser returns what its function returns |
| Core.OkayFailWellBehaved | parsec/core.py:219-248 | `okay` and `fail` account honestly; `fail` never succeeds |
| Core.BindWellBehaved | parsec/core.py:250-279 | `bind` preserves honest accounting, and progress of either part |
| Core.MapWellBehaved | parsec/core.py:281-308 | `map` preserves honest accounting and progress |
| Core.ApplyWellBehaved | parsec/core.py:310-327 | `apply` preserves honest accounting, and progress of either part |
| Core.AlterWellBehaved | parsec/core.py:329-360 | `alter` preserves honest accounting, and progress of both branches |
| Core.FastAlterWellBehaved | parsec/core.py:362-392 | `fast_alter` preserves honest accounting, and progress of both branches |
| Core.PairWellBehaved | parsec/core.py:394-522 | `pair`, `prefix` and `suffix` preserve honest accounting and are progressive when either part is |
| Core.SequenceProgressive | parsec/core.py:615-652 | the element parsers of `sep_by` and `end_by` stay progressive |
| Core.DefaultWellBehaved | parsec/core.py:453-484 | `default` and `maybe` preserve honest accounting |
| Core.BetweenWellBehaved | parsec/core.py:524-543 | `between` preserves honest accounting, and progress of any part |
| Core.AbsentWellBehaved | parsec/core.py:602-613 | `absent` accounts honestly |
| Core.WhereWellBehaved | parsec/core.py:693-721 | `where` preserves honest accounting and progress |
| Core.LabelWellBehaved | parsec/core.py:912-936 | `label` preserves honest accounting and progress |
| Core.PrimitivesWellBehaved | parsec/core.py:939-955 | `item` consumes when it succeeds; `look` and `eos` account honestly |
| Core.TokensWellBehaved | parsec/core.py:958-960 | `tokens` accounts honestly and is progressive for a non-empty text |
| Core.RepeatWellBehaved | parsec/core.py:673-691 | `repeat(n)` accounts honestly and is progressive for `n > 0` over a progressive parser |
| Core.ManyWellBehaved | parsec/core.py:545-805 | `many` never fails, `some` is progressive, and `ltrim`, `rtrim`, `trim` and `many_till` account honestly |
| Core.SepEndWellBehaved | parsec/core.py:615-652 | `sep_by` is progressive and `end_by` accounts honestly |
| Core.ChainWellBehaved | parsec/core.py:807-892 | `chainl1` and `chainr1` are progressive; `chainl` and `chainr` account honestly |
| CoreProperties.OkayFailSpec | parsec/core.py:219-248 | `okay(v)` succeeds with `v` and `fail(e)` fails with `e`; both consume 0 and return the context unchanged |
| CoreProperties.ApplySpec | parsec/core.py:310-327 | `apply` runs the function parser first, then the parser, and applies the one value to the other; a failure of either is passed on |
| CoreProperties.BindSpec | parsec/core.py:268-279 | on a first failure `bind` returns that error, context and count and never consults the continuation; on success the continuation runs from the first result's context and the counts add up |
| CoreProperties.MapSpec | parsec/core.py:299-308 | `map` changes only the value of a success |
| CoreProperties.LeftIdentity | parsec/core.py:219-279 | `okay(v).bind(f)` is `f(v)` |
| CoreProperties.RightIdentity | parsec/core.py:219-279 | `p.bind(okay)` is `p` |
| CoreProperties.Associativity | parsec/core.py:250-279 | `bind` is associative |
| CoreProperties.MapLaws | parsec/core.py:281-308 | `map(f)` is `bind(x => okay(f(x)))`; mapping the identity changes nothing and maps compose |
| CoreProperties.SequencingSpec | parsec/core.py:394-522 | `pair` keeps both values, `prefix` the second and `suffix` the first, each sequencing as `bind` |
| CoreProperties.BetweenSpec | parsec/core.py:524-543 | `between(pre, suf)` runs `pre`, the parser and `suf`, keeping the middle value |
| CoreProperties.AlterSpec | parsec/core.py:348-360 | `alter` returns a first success unchanged; otherwise the second branch runs from the original context; if both fail the error is `AlterError([e1, e2]).join()` with the second branch's context and count |
| CoreProperties.FastAlterSpec | parsec/core.py:381-392 | `fast_alter` returns the first result whenever it succeeded or consumed; only a non-consuming failure tries the second branch; both failing join the errors |
| CoreProperties.FastAlterCommits | parsec/core.py:329-392 | after a consuming failure `fast_alter` fails where `alter` succeeds with the second branch |
| CoreProperties.DefaultSpec | parsec/core.py:453-484 | `default(v)` gives `v` without consuming exactly when the parser fails, and is the parser otherwise; `maybe` gives `None` likewise |
| CoreProperties.AbsentSpec | parsec/core.py:602-613 | `absent` never consumes and returns the starting context; it succeeds iff the parser fails, otherwise reporting `UnExpected(repr(value))` at the starting position |
| CoreProperties.ItemSpec | parsec/core.py:939-944 | `item` at the end fails with `EOSError(position)` and consumes 0; otherwise it returns the next character, consumes 1, moves one on over the same text, and updates the position as the source does: a newline gives column 1 of the next line, anything else one column right |
| CoreProperties.LookSpec | parsec/core.py:947-952 | `look` gives what `item` gives, without consuming or moving |
| CoreProperties.EosSpec | parsec/core.py:955 | `eos` succeeds iff at the end, never consumes, and reports the next character as unexpected otherwise |
| CoreProperties.WhereSpec | parsec/core.py:710-721 | `where(fn)` keeps a success whose value satisfies `fn`; otherwise it fails with `UnExpected(repr(value))` at the reached position, with the same context and count; failures pass through |
| CoreProperties.FilterSpec | parsec/core.py:723-775 | `eq`, `neq` and `range` accept exactly the values equal to, different from, or among the given ones |
| CoreProperties.LabelSpec | parsec/core.py:929-936 | `label(name)` leaves a success alone and wraps a failure as `Expected(name, [cause])`, with the same context and count |
| CoreProperties.NonConsumingIsNotProgressive | parsec/core.py:792-805 | `okay(v)` is not progressive, so it is outside the domain of the repeating combinators |
| CoreProperties.ManyUnfold | parsec/core.py:777-805 | the recursive `many` is `some() \| okay([])` |
| CoreProperties.SomeSpec | parsec/core.py:777-790 | `some` succeeds iff the parser does, with its value followed by those of `many`; a failure is passed on; its values are never empty |
| CoreProperties.RepeatLength | parsec/core.py:673-691 | a successful `repeat(n)` yields exactly `n` values |
| CoreProperties.RepeatStep | parsec/core.py:673-691 | `repeat(n+1)` is the parser followed by `repeat(n)`, consing the values; failures pass on |
| CoreProperties.ManyIsRepeat | parsec/core.py:673-805 | `many` returns the values of successive runs of the parser in order, exactly as `repeat` with that count, and the parser fails where `many` stopped |
| CoreProperties.SepBySpec | parsec/core.py:615-633 | `sep_by` fails iff the first item fails; otherwise it returns that value followed by the values of `many(sep >> p)` |
| CoreProperties.EndBySpec | parsec/core.py:635-652 | `end_by` always succeeds, with no values and nothing consumed when the first item and separator do not parse |
| CoreProperties.ManyTillSpec | parsec/core.py:654-671 | `many_till(end)` is `many` followed by `end`, keeping the values of `many` |
| CoreProperties.LTrimSpec | parsec/core.py:545-562 | `ltrim(ignore)` runs the parser after the longest run of `ignore`, adding both counts |
| CoreProperties.RTrimSpec | parsec/core.py:564-581 | `rtrim(ignore)` passes a failure of the parser on unchanged; after a success it skips the longest run of `ignore`, keeps the parser's value and adds both counts |
| CoreProperties.TrimSpec | parsec/core.py:583-600 | `trim(ignore)` skips the longest run of `ignore`, runs the parser, and after a success skips the longest run again; a failure of the parser is final, with the leading run's count added |
| CoreProperties.PairSpec | parsec/core.py:394-409 | `pair` runs the second parser where the first stopped, pairs the values and adds the counts |
| CoreProperties.ChainlRestUnfold | parsec/core.py:825-826 | the loop of `chainl1` is `op.bind(f => p.bind(y => rest(f(x)(y)))) \| okay(x)` |
| CoreProperties.ChainrUnfold | parsec/core.py:849-850 | the loop of `chainr1` is `p.bind(x => op.bind(f => scan().map(y => f(x)(y))) \| okay(x))` |
| CoreProperties.ChainlRunIsFold | parsec/core.py:825-826 | after an operand, `chainl1` reads operator/operand pairs as far as they go and folds them from the left; a trailing operator is given back |
| CoreProperties.Chainl1IsFold | parsec/core.py:807-829 | `chainl1` is the first operand and the operator runs, folded from the left |
| CoreProperties.Chainr1IsFold | parsec/core.py:831-852 | `chainr1` is the first operand and the operator runs, folded from the right; a trailing operator is given back |
| CoreProperties.ChainDefaultSpec | parsec/core.py:854-892 | `chainl(op, v)` and `chainr(op, v)` give `v`, consuming nothing, when no operand parses, and are `chainl1`/`chainr1` otherwise |
| ChainExamples.ChainlStep | parsec/core.py:825-826 | one round of the `chainl1` loop: after a one-character operator `f` and operand `y`, the loop goes on from `f(x)(y)` two characters further |
| ChainExamples.ChainlStop | parsec/core.py:825-826 | where the operator fails without consuming, the `chainl1` loop returns its value so far, consuming nothing |
| ChainExamples.ChainrStep | parsec/core.py:849-850 | one round of `chainr1`: operand `x`, operator `f`, then the rest folded from the right, giving `f(x)(rest)` |
| ChainExamples.ChainrLast | parsec/core.py:849-850 | where no operator follows an operand, `chainr1`'s loop returns that operand |
| ChainExamples.SumExample | parsec/core.py:807-829 | a digit parser chained left with `+` reads "1+2+3" whole and gives 6 |
| ChainExamples.PowerExample | parsec/core.py:831-852 | a digit parser chained right with `^` reads "2^3^2" whole and gives 2 ** (3 ** 2) = 512, not (2 ** 3) ** 2 = 64 |
| CoreFindings.SepByNeedsOne | parsec/core.py:631-632 | as written, `sep_by` fails with the first item's result wherever the first item fails, so zero occurrences are never accepted |
| CoreFindings.SepByRejectsEmptyText | parsec/core.py:615-632 | as written, `item.sep_by(char(','))` fails on the empty text |
| CoreFindings.SepByOrNoneSpec | parsec/core.py:615-632 | `sep_by(sep).default([])`, the zero-or-more reading: always succeeds, with `[]` consuming nothing where the first item fails, and otherwise with every separated item |
| CoreFindings.ManyItemReadsAll | parsec/core.py:792-805 | `item.many()` reads to the end of the input, from any context |
| CoreFindings.ManyTillOverrunsEnd | parsec/core.py:654-671 | as written, `item.many_till(char(c))` fails on every text, because `many` has read to the end before `char(c)` runs |
| CoreFindings.TillRun | parsec/core.py:654-671 | the repetition `many_till`'s docstring describes accounts honestly for what it consumes |
| CoreFindings.ManyTillIntendedUnfold | parsec/core.py:654-671 | the docstring's `many_till` is `end.map(lambda _: [])` alternated, with backtracking, with `p` followed by `many_till` itself, consing the values |
| CoreFindings.ManyTillIntendedStops | parsec/core.py:654-671 | the docstring's `many_till` stops with no values as soon as `end` succeeds |
| CoreFindings.TillOneRound | parsec/core.py:654-671 | where `end` fails, `p` succeeds and then `end` succeeds, the docstring's `many_till` returns the one value, adding both counts |
| CoreFindings.ManyTillIntendedReadsUntilEnd | parsec/core.py:654-671 | the docstring's `item.many_till(char('b'))` reads a character other than 'b' and then 'b', and returns the first alone: ['a'] from "ab", consuming 2 |
| CoreProperties.ParseTokens | parsec/text/context.py:55-62 | `parse(tokens(t), text)` succeeds iff `text` starts with `t`, with value `t`; the rest need not be consumed |
| CoreProperties.ParseEmptyText | parsec/text/context.py:55-62 | `parse` starts at line 1 column 0 and reports the parser's error: `item` on "" fails with `EOSError("1:0")` |
| CoreProperties.TokensStep | parsec/core.py:958-960 | one step of the `tokens` fold: the prefix, then `item.eq(last)`, appending `last` and one more consumed |
| CoreProperties.TokensSpec | parsec/core.py:958-960 | `tokens(values)` succeeds iff the input starts with `values`, then returns them and consumes one character each |
| CoreProperties.Agreement | parsec/core.py:958-960 | the length of the longest prefix of `values` the input agrees with; it is the whole length iff the input starts with `values` |
| CoreProperties.TokensFailure | parsec/core.py:958-960 | a failing `tokens` stops just after the first character that differs, having consumed it, or where the input ends |
| Scanning.RunSpec | parsec/core.py:792-805 | the longest run of a class is the input from the index on, all in the class, and the next character is not |
| Scanning.RunExact | parsec/core.py:792-805 | a run of the class that stops at the end or at a character outside it is the longest run |
| Scanning.ScansEquiv | parsec/core.py:268-308 | two scans that agree everywhere describe the same parser |
| Scanning.OkayScans | parsec/core.py:219-232 | `okay(v)` finds `v` everywhere, reading nothing |
| Scanning.MapScans | parsec/core.py:299-308 | `map(fn)` applies `fn` to what the parser finds |
| Scanning.LabelScans | parsec/core.py:929-936 | `label` does not change what a parser finds |
| Scanning.AlterScans | parsec/core.py:348-360 | `p \| q` finds what `p` finds, and elsewhere what `q` finds |
| Scanning.DefaultScans | parsec/core.py:468-484 | `default(v)` finds what `p` finds, and `v` reading nothing elsewhere |
| Scanning.PairScans | parsec/core.py:394-409 | `pair` finds what `p` finds followed by what `q` finds after it |
| Scanning.ApplyScans | parsec/core.py:310-327 | `apply` finds the function, then the argument after it, and applies one to the other |
| Scanning.PrefixScans | parsec/core.py:486-503 | `prefix(pre)` finds what `p` finds after `pre`, keeping `p`'s value |
| Scanning.SuffixScans | parsec/core.py:505-522 | `suffix(suf)` finds what `p` finds followed by `suf`, keeping `p`'s value |
| Scanning.CharScanProgressive | parsec/core.py:939-944 | a one-character parser consumes whenever it succeeds |
| Scanning.WhereItemScans | parsec/core.py:693-721 | `item.where(f)` reads exactly one character satisfying `f` |
| Scanning.CharScanEquiv | parsec/core.py:693-721 | two classes that agree on every character scan alike |
| Scanning.AlterCharScans | parsec/core.py:348-360 | `p \| q` over two classes reads one character of either |
| Scanning.ManyScans | parsec/core.py:792-805 | `many` over a class reads the longest run of the class |
| Scanning.ManyAt | parsec/core.py:777-805 | from any context, `many` over a class yields the longest run and consumes its length |
| Scanning.Some1Scans | parsec/core.py:777-790 | `some` over a class reads the longest run, which must be non-empty |
| Scanning.RepeatScans | parsec/core.py:673-691 | `repeat(n)` over a class reads exactly `n` characters of the class, failing where fewer follow |
| Scanning.CountStep | parsec/core.py:673-691 | `n` characters of a class are one of them followed by `n-1` more |
| TextBasic.CharScans | parsec/text/basic.py:13 | `char(c)` reads exactly one character, `c`, and is progressive |
| TextBasic.CharFailure | parsec/text/basic.py:13 | at the end `char(c)` fails with `EOSError` consuming 0; on a different character it consumes 1 and reports it as unexpected |
| TextBasic.LiteralSpec | parsec/text/basic.py:16-17 | `literal(t)` succeeds iff the input begins with `t`, returning `t` and consuming `len(t)`; otherwise it fails just after the first mismatch or at the end |
| TextBasic.ClassesScan | parsec/text/basic.py:39-47 | each class parser reads exactly one character of its class |
| TextBasic.StrScans | parsec/text/basic.py:56-83 | a character parser read as a string reads the same one character |
| TextBasic.CatScans | parsec/core.py:151-175 | `(p & q).map(''.join)` reads what `p` reads then what `q` reads, joined |
| TextBasic.JoinAt | parsec/core.py:151-175 | the joined scan, case by case |
| TextBasic.ClassScansVerbatim | parsec/text/basic.py:39-54 | a class character or run returns exactly the text it read |
| TextBasic.NothingVerbatim | parsec/text/basic.py:49 | reading nothing returns nothing |
| TextBasic.JoinVerbatim | parsec/text/basic.py:56-71 | joining two verbatim scans returns exactly the text read |
| TextBasic.OrVerbatim | parsec/text/basic.py:69-71 | the first of two verbatim scans that matches returns what it read |
| TextBasic.VerbatimEquiv | parsec/text/basic.py:56-71 | a scan equal everywhere to a verbatim scan is verbatim |
| TextNumbers.Sign | parsec/text/basic.py:49 | the optional sign is at most one character, and is '+' or '-' at the index when present |
| TextNumbers.NumSignScans | parsec/text/basic.py:49 | `_num_sign` reads the sign if there is one and never fails |
| TextNumbers.DigitClassesProgressive | parsec/text/basic.py:44-47 | the digit classes consume when they succeed |
| TextNumbers.DigitRunsScan | parsec/text/basic.py:50-54 | `_digits` reads the longest digit run; `_digits1` and the radix runs need one digit |
| TextNumbers.DecimalJoin | parsec/text/basic.py:56 | sign followed by a non-empty digit run is the decimal scan |
| TextNumbers.DecIntegerScans | parsec/text/basic.py:56 | `decinteger` reads an optional sign and the longest non-empty run of digits, returned as one string |
| TextNumbers.RadixDigitsJoin | parsec/text/basic.py:57-59 | '0', a prefix letter and a non-empty radix run, keeping only the digits |
| TextNumbers.RadixJoin | parsec/text/basic.py:57-59 | sign followed by the prefixed digits is the radix scan |
| TextNumbers.RadixScans | parsec/text/basic.py:57-59 | a radix integer reads a sign, '0', a letter of the prefix and a non-empty digit run; the value keeps the sign and drops the prefix |
| TextNumbers.RadixIntegersScan | parsec/text/basic.py:57-59 | `bininteger`, `octinteger` and `hexinteger` use prefixes b/B, o/O, x/X with their digit classes |
| TextNumbers.IntegerAtJoin | parsec/text/basic.py:60-65 | the alternation of the four converted forms is the integer scan |
| TextNumbers.IntegerScans | parsec/text/basic.py:60-65 | `integer` reads the first of hex, octal, binary, decimal that matches and converts it in that base |
| TextNumbers.IntegerFailure | parsec/text/basic.py:60-65 | `integer` fails exactly where its scan finds nothing, with `Expected("integer", ...)` |
| TextNumbers.RadixRead | parsec/text/basic.py:57-59 | sign, '0', a prefix letter, digits and a non-digit: the radix form reads sign and digits |
| TextNumbers.RadixMiss | parsec/text/basic.py:57-59 | after the sign and '0', a character that is not a prefix letter defeats the radix form |
| TextNumbers.IntegerExamples | parsec/text/basic.py:60-65 | "0x1F" is 31, "-0o17" is -15, "+0b101" is 5 and "-42;" is -42, each consuming its numeral |
| TextNumbers.PrefixWithoutDigits | parsec/text/basic.py:56-65 | a prefix with no digit after it backtracks to the decimal "0": "0x" and "0b+1" read 0 from one character |
| TextNumbers.PrefixWithoutDigitsAt | parsec/text/basic.py:56-65 | any '0' followed by a non-digit and then no letter or digit reads as 0 from one character |
| TextNumbers.ZeroDecimal | parsec/text/basic.py:56 | a '0' that no digit follows is the decimal integer "0" |
| TextNumbers.NatDigitsSpec | parsec/text/basic.py:60-65 | the digits of `n` are decimal, start with '0' only for 0, and are worth `n` in base 10 |
| TextNumbers.IntegerReadsDecimal | parsec/text/basic.py:60-65 | `integer` reads back `str(n)` followed by anything that cannot extend it as `n`, consuming exactly `len(str(n))` |
| TextNumbers.DecimalParts | parsec/text/basic.py:56 | `str(n)` is an optional '-' and digits with no superfluous leading zero, worth `n` |
| TextNumbers.SignedDigitsRead | parsec/text/basic.py:56-65 | an optional '-', digits with no superfluous leading zero and a non-digit: `integer` reads their value |
| TextNumbers.OnlyDecimal | parsec/text/basic.py:60-65 | where no radix prefix follows the sign, `integer` is the decimal form converted in base 10 |
| TextNumbers.DecimalValue | parsec/text/basic.py:64 | `int(str(n), 10) == n` |
| TextNumbers.IntegerParsesDecimal | parsec/text/basic.py:60-65 | the parser `integer`, from any position state, yields `n` on `str(n)` and a non-extending rest |
| TextNumbers.ExponentScans | parsec/text/basic.py:67 | `_exponent` reads 'e' or 'E' followed by a decimal integer |
| TextNumbers.OptExponentScans | parsec/text/basic.py:68-70 | `_exponent.default('')` reads an exponent or nothing |
| TextNumbers.DotmentScans | parsec/text/basic.py:68 | `_dotment` reads '.', the digit run and an optional exponent |
| TextNumbers.DotmentJoin | parsec/text/basic.py:68 | the three-part join is the dotment scan |
| TextNumbers.DigitFloatScans | parsec/text/basic.py:69 | `_digit_float` reads a decimal integer then a dotment or, failing that, an exponent |
| TextNumbers.DigitFloatJoin | parsec/text/basic.py:69 | the join of the decimal and fraction scans is the digit-float scan |
| TextNumbers.DotFloatScans | parsec/text/basic.py:70 | `_dot_float` reads a sign, '.', a non-empty digit run and an optional exponent |
| TextNumbers.DotFloatJoin | parsec/text/basic.py:70 | the four-part join is the dot-float scan |
| TextNumbers.FloatNumberScans | parsec/text/basic.py:71 | `floatnumber` reads the dot form where it matches and the digit form otherwise |
| TextNumbers.FloatVerbatim | parsec/text/basic.py:71 | the float text is exactly the input consumed, which `float` then converts |
| TextNumbers.SignVerbatim | parsec/text/basic.py:49 | the sign scan returns exactly what it read |
| TextNumbers.ExponentJoin | parsec/text/basic.py:67 | the join of the exponent letter and a decimal integer is the exponent scan |
| TextNumbers.FloatHasDotOrExponent | parsec/text/basic.py:69-71 | a float text always holds a '.', an 'e' or an 'E' |
| TextNumbers.DotFloatHasDot | parsec/text/basic.py:70 | a dot-float text holds a '.' |
| TextNumbers.DotmentStartsWithDot | parsec/text/basic.py:68 | a dotment text starts with '.' |
| TextNumbers.FloatNumberFailure | parsec/text/basic.py:71 | `floatnumber` fails with `Expected("float number", ...)` |
| TextNumbers.NumberScans | parsec/text/basic.py:72 | `number` reads a float where one matches, and an integer otherwise |
| TextNumbers.NumberReadsDecimal | parsec/text/basic.py:72 | `number` reads `str(n)` followed by neither a digit, '.', nor an exponent letter as the int `n` |
| TextNumbers.NoFloatAfterDigits | parsec/text/basic.py:69-71 | a signed digit run followed by no digit, '.' or exponent letter is not a float |
| TextForms.BlanksScans | parsec/text/basic.py:74 | `blanks` reads the longest run of white space |
| TextForms.BlanksSpec | parsec/text/basic.py:74 | `blanks` never fails and returns exactly the white space in front of the cursor, all of it |
| TextForms.WordClassesScan | parsec/text/basic.py:75 | `alpha \| underline` and `alnum \| underline` read one character of those classes |
| TextForms.IdentifierScans | parsec/text/basic.py:75 | `identifier` reads a letter or '_' followed by the longest run of letters, digits and '_' |
| TextForms.IdentifierShape | parsec/text/basic.py:75 | an identifier is found iff a letter or '_' is next; it is the text read, all word characters, and maximal |
| TextForms.IdentifierFailure | parsec/text/basic.py:75 | `identifier` fails exactly where its scan finds nothing, with `Expected("identifier", ...)` |
| TextForms.IdentifierExamples | parsec/text/basic.py:75 | "_x1 = 2" reads "_x1"; "1abc" is not an identifier |
| TextForms.NotQuoteScans | parsec/text/basic.py:83 | `item.neq('"')` reads one character other than a double quote |
| TextForms.StringScans | parsec/text/basic.py:83 | `string` reads '"', the longest run of non-quotes and '"', returning the run |
| TextForms.StringShape | parsec/text/basic.py:83 | a string is found iff a quote is next and another follows later; its value is the text up to the first of those, free of quotes, with no escape handling |
| TextForms.StringReadsQuoted | parsec/text/basic.py:83 | a quote-free text between quotes reads back as itself, whatever follows |
| TextForms.StringUnterminated | parsec/text/basic.py:83 | a quote that is never closed is not a string |
| TextForms.LexemeScans | parsec/text/basic.py:86-90 | `lexeme(lex)(p)` reads the longest run of `lex`'s class, then what `p` reads |
| TextForms.BlankLexemeScans | parsec/text/basic.py:86-90 | the default lexeme skips leading white space only |
| TextForms.TrimTwice | parsec/text/basic.py:86-90 | trimming twice reads what trimming once reads |
| TextForms.LexemeIdempotent | parsec/text/basic.py:86-90 | a lexeme of a lexeme over the same class reads what the lexeme reads |
| TextForms.LexemeExample | parsec/text/basic.py:86-90 | the default lexeme of `identifier` on "  foo bar" reads "foo" and consumes 5 |
| TextForms.FixedJoin | parsec/text/basic.py:76-81 | two fixed-width texts in a row are one fixed-width text |
| TextForms.FixedCatScans | parsec/text/basic.py:76-81 | the same, for the parsers that read them |
| TextForms.FixedEquiv | parsec/text/basic.py:76-81 | two tests that agree on every text of width `w` read alike |
| TextForms.DigitNSpec | parsec/text/basic.py:20-21 | `_digit_n(n)` reads exactly `n` digits wherever they stand and nowhere else; `n = 0` reads nothing |
| TextForms.DigitNScans | parsec/text/basic.py:20-21 | the parser `_digit_n(n)` reads `n` digits |
| TextForms.SeparatorScans | parsec/text/basic.py:35-36 | a separator character read as a one-character text |
| TextForms.TripleTestText | parsec/text/basic.py:76-81 | the composed width test is digits, separator, two digits, separator, two digits |
| TextForms.TripleScans | parsec/text/basic.py:76-81 | the five-part `&` reads exactly that shape |
| TextForms.DateScans | parsec/text/basic.py:76-78 | `date` reads exactly the DDDD-DD-DD shape (full-date of section 5.6 of RFC 3339) |
| TextForms.TimeScans | parsec/text/basic.py:79-81 | `time` reads exactly the DD:DD:DD shape (partial-time of section 5.6 of RFC 3339, without fractions) |
| TextForms.DateFailure | parsec/text/basic.py:76-78 | `date` fails where its scan finds nothing, with `Expected("date", ...)` |
| TextForms.TimeFailure | parsec/text/basic.py:79-81 | `time` fails where its scan finds nothing, with `Expected("time", ...)` |
| TextForms.DateTimeJoin | parsec/text/basic.py:82 | date, one space and time, combined |
| TextForms.DateTimeScans | parsec/text/basic.py:82 | `datetime` reads a date, one space and a time, 19 characters |
| TextForms.PaddedSpec | parsec/text/basic.py:76-81 | a number below `10^w` written in `w` digits is read back as itself |
| TextForms.TripleFormatText | parsec/text/basic.py:76-81 | three numbers written in the fixed shape have that shape and read back field by field |
| TextForms.DateReadsIso | parsec/text/basic.py:76-78 | a date written in ISO form reads back as itself, whatever follows |
| TextForms.TimeReadsIso | parsec/text/basic.py:79-81 | a time written in ISO form reads back as itself, whatever follows |
| TextForms.DateTimeReadsIso | parsec/text/basic.py:82 | a date and time written in ISO form read back as themselves, whatever follows |

## Left out

- Operator spellings (parsec/core.py:79-216) are not separate members:
  - `>>` is `bind`, `@` is `map` and `~` is `absent`.
  - `|` (`otherwise`) is `alter` and `/` (`fast_otherwise`) is `fast_alter`.
  - `<<` applies a function to the parser itself.
  - `as_type` is a type cast.
- `&` flattening tuples of any length (parsec/core.py:151-175): Dafny tuples have a fixed arity. The model has `pair`. Where the text parsers join the flattened tuple with `''.join`, `Cat` does the same.
- Core.Placeholder: `define` captures the target and runs it late. A Dafny function value cannot read a mutable object, so recursive grammars built through a placeholder are not modelled. `run` on an undefined placeholder raises RuntimeError in the source; here that is a precondition.
- The repeating combinators require a progressive element parser. On a parser that succeeds without consuming, the source never terminates.
- `repeat(n)` for negative `n`: the source recurses without end. The model takes a natural number.
- Exceptions:
  - `parse` raising the error is modelled as returning the failure outcome.
  - `ValueError` from `Date.fromisoformat`, `Time.fromisoformat` and `Datetime.combine` is left out.
- TextForms.DateScans, TextForms.TimeScans, TextForms.DateTimeScans: these check only the shape. The model does not validate ranges (a 13th month is accepted), because the range checks of `Date.fromisoformat`, `Time.fromisoformat` and `Datetime.combine` are library calls that raise an exception. Date and time values are plain records of the digit groups.
- TextNumbers.FloatNumberScans: the `float` conversion is left out (floating point). The model returns the float text and proves it is exactly the text consumed.
- Character classes use ASCII definitions of Python's Unicode `str.isalpha`, `isdigit`, `isspace`, `islower`, `isupper` and `isalnum`.
- `repr` is a `show` parameter of `where` and `absent`. Its form is proved only for printable ASCII characters.
- Errors.Dedup: Python's `list(set(...))` has no specified order. The model keeps first occurrences. Hashing is not modelled.
- `TextState(file)` turns the file into an absolute path string. The model keeps the name as given.
- Context sharing: the source threads one mutable stream object through `update` and backtracks by moving it. The functional model carries the cursor as a value. In-place mutation is modelled only by `TextContext.TextStream`.
- The `print(type(char))` at parsec/text/basic.py:24 is an import-time side effect.
- Core.Maybe: the source returns the value bare, or `None` on failure; the model wraps it as `Some(value)`, since a Dafny parser's result has one type.
- The position follows the source as written: the default state starts at column 0 and the update sets the column to `rfind('\n') + 1`. The corrected update (`UpdateState`) and the corrected default (column 1) appear only in the lemmas named under Findings.
- Python's `int(text, base)` is modelled only on the texts the integer parsers produce: an optional sign and digits of the base.

## Findings

| source | as written | input that shows it | evidently intended | confidence | as-written member | corrected member |
|---|---|---|---|---|---|---|
| parsec/text/context.py:37-47 | `TextState()` starts at column 0, but after a newline `update` sets the column to `value.rfind('\n') + 1`, which is 1 for the single character `item` reads | `parse(item.many(), "\nx")`: the first character of line 1 is at column 0, and `x`, the first character of line 2, is at column 1 | lines are numbered consistently. Reading 1: the default column should be 1, as in the sibling versions `parsec/text.py:34` and `src/text.py:13`; then every line starts at column 1. Reading 2: columns are 0-based and the update should be `len(value) - value.rfind('\n') - 1` (`TextContext.UpdateFold`). Under reading 2 a multi-character update would also differ from a run of single ones, but that half is latent: `item` updates one character at a time (parsec/core.py:944) | low, not executed | Contexts.ColumnsAsWritten | Contexts.LineStartsAtColumnOne |
| parsec/core.py:615-632 | the docstring of `sep_by` promises zero or more occurrences, but the code runs the item parser once before `many`, so it needs one | `item.sep_by(char(','))` on "" fails, where zero occurrences give `[]`; client grammars add `.default([])` for this | zero or more occurrences: `sep_by(sep).default([])` | medium, not executed | CoreFindings.SepByRejectsEmptyText | CoreFindings.SepByOrNoneSpec |
| parsec/core.py:654-671 | the docstring of `many_till` repeats the parser until the end parser succeeds, but the code is `self.many().suffix(end)`, so the repetition never consults `end` | `item.many_till(char('b'))` on "ab": `item.many()` reads "ab" and `char('b')` then meets the end, so it fails | try `end` before each repetition and stop once it succeeds, giving ['a'] on "ab" | medium, not executed | CoreFindings.ManyTillOverrunsEnd | CoreFindings.ManyTillIntendedReadsUntilEnd |

## Definitions

The members below define the model's operations. Each is specified by the lemma named beside it,
whose row is in the table above.

| definition | source | specified by |
|---|---|---|
| Core.Bind | parsec/core.py:250-279 | CoreProperties.BindSpec |
| Core.Map | parsec/core.py:281-308 | CoreProperties.MapSpec |
| Core.Apply | parsec/core.py:310-327 | CoreProperties.ApplySpec |
| Core.Alter | parsec/core.py:329-360 | CoreProperties.AlterSpec |
| Core.FastAlter | parsec/core.py:362-392 | CoreProperties.FastAlterSpec |
| Core.Pair | parsec/core.py:394-409 | CoreProperties.PairSpec |
| Core.Default | parsec/core.py:468-484 | CoreProperties.DefaultSpec |
| Core.Maybe | parsec/core.py:453-466 | CoreProperties.DefaultSpec |
| Core.Prefix | parsec/core.py:486-503 | CoreProperties.SequencingSpec |
| Core.Suffix | parsec/core.py:505-522 | CoreProperties.SequencingSpec |
| Core.Between | parsec/core.py:524-543 | CoreProperties.BetweenSpec |
| Core.LTrim | parsec/core.py:545-562 | CoreProperties.LTrimSpec |
| Core.RTrim | parsec/core.py:564-581 | CoreProperties.RTrimSpec |
| Core.Trim | parsec/core.py:583-600 | CoreProperties.TrimSpec |
| Core.Absent | parsec/core.py:602-613 | CoreProperties.AbsentSpec |
| Core.SepBy | parsec/core.py:615-633 | CoreProperties.SepBySpec |
| CoreFindings.SepByOrNone | parsec/core.py:615-632 | CoreFindings.SepByOrNoneSpec |
| Core.EndBy | parsec/core.py:635-652 | CoreProperties.EndBySpec |
| Core.ManyTill | parsec/core.py:654-671 | CoreProperties.ManyTillSpec |
| CoreFindings.ManyTillIntended | parsec/core.py:654-671 | CoreFindings.ManyTillIntendedUnfold, CoreFindings.ManyTillIntendedReadsUntilEnd |
| Core.Repeat | parsec/core.py:673-691 | CoreProperties.RepeatLength, CoreProperties.RepeatStep |
| Core.Where | parsec/core.py:693-721 | CoreProperties.WhereSpec |
| Core.Eq | parsec/core.py:723-739 | CoreProperties.FilterSpec |
| Core.Neq | parsec/core.py:741-757 | CoreProperties.FilterSpec |
| Core.Range | parsec/core.py:759-775 | CoreProperties.FilterSpec |
| Core.Some1 | parsec/core.py:777-790 | CoreProperties.SomeSpec |
| Core.Many | parsec/core.py:792-805 | CoreProperties.ManyUnfold |
| Core.Chainl1 | parsec/core.py:807-829 | CoreProperties.Chainl1IsFold |
| Core.Chainr1 | parsec/core.py:831-852 | CoreProperties.Chainr1IsFold |
| Core.Chainl | parsec/core.py:854-872 | CoreProperties.ChainDefaultSpec |
| Core.Chainr | parsec/core.py:874-892 | CoreProperties.ChainDefaultSpec |
| Core.Label | parsec/core.py:912-936 | CoreProperties.LabelSpec |
| Core.Item | parsec/core.py:939-944 | CoreProperties.ItemSpec |
| Core.Look | parsec/core.py:947-952 | CoreProperties.LookSpec |
| Core.Eos | parsec/core.py:955 | CoreProperties.EosSpec |
| Core.Tokens | parsec/core.py:958-960 | CoreProperties.TokensSpec |
| Core.ParseText | parsec/text/context.py:55-62 | CoreProperties.ParseTokens |
| Errors.Flatten | parsec/error.py:78-82 | Errors.FlattenAppend |
| Errors.Join | parsec/error.py:78-82 | Errors.JoinReplacesAlternative, Errors.JoinMembership |
| Errors.Render | parsec/error.py:23-86 | Errors.RenderShape |
| Contexts.Backtrack | parsec/context.py:46-47 | Contexts.BacktrackReplacesState |
| Contexts.Update | parsec/context.py:49-50 | Contexts.UpdateKeepsStream |
| TextContext.UpdateAsWritten | parsec/text/context.py:42-47 | TextContext.UpdateAsWrittenSpec, TextContext.UpdateAsWrittenChar |
| TextContext.UpdateState | parsec/text/context.py:42-47 | TextContext.UpdateStateSpec (corrected variant) |
| TextContext.FormatState | parsec/text/context.py:49-52 | TextContext.FormatDeterminesPosition |
| TextContext.CharRepr | parsec/core.py:717-718 | TextContext.CharReprPrintable |
| TextBasic.Char | parsec/text/basic.py:13 | TextBasic.CharScans |
| TextBasic.Literal | parsec/text/basic.py:16-17 | TextBasic.LiteralSpec |
| TextBasic.Str | parsec/text/basic.py:56-83 | TextBasic.StrScans |
| TextBasic.Cat | parsec/core.py:151-175 | TextBasic.CatScans |
| TextNumbers.Integer | parsec/text/basic.py:60-65 | TextNumbers.IntegerScans |
| TextNumbers.FloatNumber | parsec/text/basic.py:71 | TextNumbers.FloatNumberScans |
| TextNumbers.NumberParser | parsec/text/basic.py:72 | TextNumbers.NumberScans |
| TextForms.Identifier | parsec/text/basic.py:75 | TextForms.IdentifierScans |
| TextForms.StringLiteral | parsec/text/basic.py:83 | TextForms.StringScans |
| TextForms.Lexeme | parsec/text/basic.py:86-90 | TextForms.LexemeScans |
| TextForms.DateParser | parsec/text/basic.py:76-78 | TextForms.DateScans |
| TextForms.TimeParser | parsec/text/basic.py:79-81 | TextForms.TimeScans |
| TextForms.DateTimeParser | parsec/text/basic.py:82 | TextForms.DateTimeScans |
| Utils.Composition | parsec/utils.py:36-43 | Utils.CompositionAppend, Utils.Compose |
| Utils.Pipeline | parsec/utils.py:46-53 | Utils.PipelineIsReversedComposition, Utils.Pipes |
| Utils.Head | parsec/utils.py:56-69 | Utils.HeadTailSplit |
| Utils.Tail | parsec/utils.py:56-69 | Utils.HeadTailSplit |
| Utils.Fst | parsec/utils.py:56-69 | Utils.HeadTailSplit |
| Utils.Snd | parsec/utils.py:56-69 | Utils.HeadTailSplit |
