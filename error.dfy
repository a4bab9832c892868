/**
 * Parse errors (parsec/error.py): a closed set of three kinds compared structurally.
 * Python compares two errors by class and by their instance fields; a datatype gives exactly that.
 */
module Errors {
  import opened Wrappers

  datatype ParseErr =
    | UnExpected(value: string, state: string)
    | Expected(value: string, children: seq<ParseErr>)
    | AlterError(children: seq<ParseErr>)

  /** Errors are equal exactly when they are of the same kind and their fields are equal. */
  lemma StructuralEquality(a: ParseErr, b: ParseErr)
    ensures a.UnExpected? && b.UnExpected? ==> (a == b <==> a.value == b.value && a.state == b.state)
    ensures a.Expected? && b.Expected? ==> (a == b <==> a.value == b.value && a.children == b.children)
    ensures a.AlterError? && b.AlterError? ==> (a == b <==> a.children == b.children)
    ensures a.UnExpected? != b.UnExpected? || a.Expected? != b.Expected? ==> a != b
  {
  }

  /** `EOSError(state)`: the end of the input, reported as an unexpected `<EOS>` token. */
  function EOSError(state: string): (e: ParseErr)
    ensures e.UnExpected? && e.value == "<EOS>" && e.state == state
  {
    UnExpected("<EOS>", state)
  }

  /** What one child contributes when `join`/`resolve` flatten a list of errors:
      the children of an `AlterError`, or the child itself. */
  function Spread(child: ParseErr): seq<ParseErr>
  {
    if child.AlterError? then child.children else [child]
  }

  /** `chain.from_iterable(Spread(c) for c in cs)`. */
  function Flatten(cs: seq<ParseErr>): seq<ParseErr>
  {
    if cs == [] then [] else Spread(cs[0]) + Flatten(cs[1..])
  }

  /** `AlterError(children)`: a missing list and an empty list both give no children. */
  function AlterErrorOf(children: Option<seq<ParseErr>>): (e: ParseErr)
    ensures e.AlterError?
    ensures children.Some? ==> e.children == children.value
    ensures children.None? ==> e.children == []
  {
    AlterError(children.GetOr([]))
  }

  /** `AlterError.join`: flattens one level of nested alternatives. */
  function Join(e: ParseErr): (j: ParseErr)
    requires e.AlterError?
    ensures j.AlterError?
  {
    AlterError(Flatten(e.children))
  }

  lemma {:induction false} FlattenAppend(a: seq<ParseErr>, b: seq<ParseErr>)
    ensures Flatten(a + b) == Flatten(a) + Flatten(b)
  {
    if a == [] {
      assert a + b == b;
    } else {
      assert (a + b)[1..] == a[1..] + b;
      FlattenAppend(a[1..], b);
    }
  }

  /** `join` replaces an `AlterError` child by that child's own children, exactly as they are
      (nested alternatives inside them stay nested), and keeps the children around it in order. */
  lemma JoinReplacesAlternative(before: seq<ParseErr>, inner: seq<ParseErr>, after: seq<ParseErr>)
    ensures Join(AlterError(before + [AlterError(inner)] + after)).children
         == Join(AlterError(before)).children + inner + Join(AlterError(after)).children
  {
    FlattenAppend(before + [AlterError(inner)], after);
    FlattenAppend(before, [AlterError(inner)]);
    assert Flatten([AlterError(inner)]) == inner;
  }

  /** `join` keeps any other child in place, duplicates included. */
  lemma JoinKeepsOtherChild(before: seq<ParseErr>, child: ParseErr, after: seq<ParseErr>)
    requires !child.AlterError?
    ensures Join(AlterError(before + [child] + after)).children
         == Join(AlterError(before)).children + [child] + Join(AlterError(after)).children
  {
    FlattenAppend(before + [child], after);
    FlattenAppend(before, [child]);
    assert Flatten([child]) == [child];
  }

  /** An error is a child of the joined error iff it is a non-alternative child or the child of an
      alternative child. */
  lemma {:induction false} JoinMembership(cs: seq<ParseErr>, x: ParseErr)
    ensures x in Join(AlterError(cs)).children <==>
      exists i :: 0 <= i < |cs| && ((cs[i].AlterError? && x in cs[i].children) || (!cs[i].AlterError? && x == cs[i]))
  {
    if cs != [] {
      JoinMembership(cs[1..], x);
      if x in Flatten(cs[1..]) {
        var i :| 0 <= i < |cs[1..]| && ((cs[1..][i].AlterError? && x in cs[1..][i].children) || (!cs[1..][i].AlterError? && x == cs[1..][i]));
        assert cs[i + 1] == cs[1..][i];
      }
      if exists i :: 0 <= i < |cs| && ((cs[i].AlterError? && x in cs[i].children) || (!cs[i].AlterError? && x == cs[i])) {
        var i :| 0 <= i < |cs| && ((cs[i].AlterError? && x in cs[i].children) || (!cs[i].AlterError? && x == cs[i]));
        if i > 0 {
          assert cs[1..][i - 1] == cs[i];
        }
      }
    }
  }

  /** Two equal failures stay two children after `join`; deduplication is not `join`'s job. */
  lemma JoinKeepsDuplicates(u: ParseErr)
    requires !u.AlterError?
    ensures Join(AlterError([u, u])).children == [u, u]
    ensures Join(AlterError([AlterError([u]), AlterError([u])])).children == [u, u]
  {
    assert [u, u][1..] == [u];
    assert Flatten([u]) == [u] + Flatten([]);
    var a := AlterError([u]);
    assert [a, a][1..] == [a];
    assert Flatten([a]) == [u] + Flatten([]);
  }

  /** Only one level is flattened: an alternative nested two deep survives `join`. */
  lemma JoinFlattensOneLevel(inner: seq<ParseErr>)
    ensures Join(AlterError([AlterError([AlterError(inner)])])).children == [AlterError(inner)]
  {
    var a := AlterError([AlterError(inner)]);
    assert Flatten([a]) == Spread(a) + Flatten([]);
  }

  predicate Distinct(s: seq<ParseErr>)
  {
    forall i, j :: 0 <= i < j < |s| ==> s[i] != s[j]
  }

  /** The elements of `s`, each once. The source builds `list(set(...))`, whose order is not
      specified; this keeps first occurrences in their order. */
  function Dedup(s: seq<ParseErr>): (r: seq<ParseErr>)
    ensures Distinct(r)
    ensures forall x :: x in r <==> x in s
    ensures |r| <= |s|
  {
    if s == [] then []
    else
      var rest := Dedup(s[..|s| - 1]);
      assert s == s[..|s| - 1] + [s[|s| - 1]];
      if s[|s| - 1] in rest then rest else rest + [s[|s| - 1]]
  }

  /** `Expected(value, children)`: construction followed by `resolve`, which flattens alternatives
      among the children one level and drops duplicates. */
  function ExpectedOf(value: string, children: Option<seq<ParseErr>>): (e: ParseErr)
    ensures e.Expected? && e.value == value
    ensures Distinct(e.children)
    ensures forall x :: x in e.children <==> x in Flatten(children.GetOr([]))
  {
    Expected(value, Dedup(Flatten(children.GetOr([]))))
  }

  /** `Expected(v)` without children has none. */
  lemma ExpectedWithoutChildren(value: string)
    ensures ExpectedOf(value, None).children == []
  {
  }

  /** After construction the children of `Expected(v, cs)` are, as a duplicate-free set, the
      non-alternative members of `cs` and the children of its `AlterError` members. */
  lemma ExpectedChildren(value: string, cs: seq<ParseErr>, x: ParseErr)
    ensures Distinct(ExpectedOf(value, Some(cs)).children)
    ensures x in ExpectedOf(value, Some(cs)).children <==>
      exists i :: 0 <= i < |cs| && ((cs[i].AlterError? && x in cs[i].children) || (!cs[i].AlterError? && x == cs[i]))
  {
    JoinMembership(cs, x);
  }

  /** Two alternatives failing with the same cause leave a single cause under a label. */
  lemma ExpectedMergesEqualCauses(value: string, u: ParseErr)
    requires !u.AlterError?
    ensures ExpectedOf(value, Some([Join(AlterError([u, u]))])).children == [u]
  {
    JoinKeepsDuplicates(u);
    assert Flatten([AlterError([u, u])]) == [u, u];
    assert Dedup([u]) == [u];
    assert [u, u][..1] == [u];
  }

  /** `' ' * indent if indent > 0 else '\n'`. */
  function Pad(indent: int): string
  {
    if indent > 0 then seq(indent, _ => ' ') else "\n"
  }

  /** `'\n'.join(lines)`. */
  function JoinLines(lines: seq<string>): string
  {
    if lines == [] then "" else if |lines| == 1 then lines[0] else lines[0] + "\n" + JoinLines(lines[1..])
  }

  /** The text `pretty(indent)` produces. Children of `Expected` are indented 4 more. */
  function Render(e: ParseErr, indent: int): string
    decreases e
  {
    match e
    case UnExpected(v, st) => Pad(indent) + "UnExpected \"" + v + "\" at " + st
    case Expected(v, cs) =>
      JoinLines([Pad(indent) + "Expected \"" + v + "\""]
                + seq(|cs|, i requires 0 <= i < |cs| => Render(cs[i], indent + 4)))
    case AlterError(_) => Pad(indent) + "AlterError"
  }

  /** `pretty`: builds the list of lines in a loop, one recursive call per child, and joins them. */
  method Pretty(e: ParseErr, indent: int) returns (s: string)
    ensures s == Render(e, indent)
    decreases e
  {
    var pad := Pad(indent);
    match e {
      case UnExpected(v, st) =>
        s := pad + "UnExpected \"" + v + "\" at " + st;
      case Expected(v, cs) =>
        var msg := [pad + "Expected \"" + v + "\""];
        for i := 0 to |cs|
          invariant msg == [pad + "Expected \"" + v + "\""]
                           + seq(i, j requires 0 <= j < |cs| => Render(cs[j], indent + 4))
        {
          var line := Pretty(cs[i], indent + 4);
          msg := msg + [line];
        }
        s := JoinLines(msg);
      case AlterError(_) =>
        s := pad + "AlterError";
    }
  }

  /** The lines after the first, each preceded by a newline. */
  function NewlineEach(lines: seq<string>): string
  {
    if lines == [] then "" else "\n" + lines[0] + NewlineEach(lines[1..])
  }

  lemma {:induction false} JoinLinesCons(first: string, rest: seq<string>)
    ensures JoinLines([first] + rest) == first + NewlineEach(rest)
    decreases |rest|
  {
    if rest != [] {
      assert ([first] + rest)[1..] == [rest[0]] + rest[1..];
      JoinLinesCons(rest[0], rest[1..]);
    }
  }

  /** `pretty` at indent 0 (or below) begins with a newline, at a positive indent with that many
      spaces; an `Expected` prints its label line and then every child, each on its own line,
      at indent + 4; an `AlterError` prints only its name, whatever its children. */
  lemma RenderShape(e: ParseErr, indent: int)
    ensures |Render(e, indent)| >= |Pad(indent)| && Render(e, indent)[..|Pad(indent)|] == Pad(indent)
    ensures indent <= 0 ==> Render(e, indent)[0] == '\n'
    ensures e.Expected? ==>
      Render(e, indent) == Pad(indent) + "Expected \"" + e.value + "\""
        + NewlineEach(seq(|e.children|, i requires 0 <= i < |e.children| => Render(e.children[i], indent + 4)))
    ensures e.AlterError? ==> Render(e, indent) == Render(AlterError([]), indent)
  {
    if e.Expected? {
      var head := Pad(indent) + "Expected \"" + e.value + "\"";
      JoinLinesCons(head, seq(|e.children|, i requires 0 <= i < |e.children| => Render(e.children[i], indent + 4)));
      assert Render(e, indent)[..|Pad(indent)|] == head[..|Pad(indent)|];
    }
  }
}
