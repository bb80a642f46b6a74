/** The changeset `setDocAText` builds: everything but the final newline goes, the new text comes. */
module SettingText {
  import opened Attributes
  import opened Changesets
  import opened Composition
  import opened Following
  import opened NormalForm
  import opened Views
  import opened Algebra
  import opened Laws
  import opened SmartAssembler
  import opened Zipping
  import opened Engine
  import opened Applying
  import opened Building
  import opened Covering
  import opened Inversion
  import opened InversionSteps
  import opened Inverting
  import opened DocLines
  import opened InverseCursor
  import opened LineMutation
  import opened TextLines
  import opened AttributionSteps
  import opened AttributionLines
  import opened ATexts
  import opened Cleaning

  lemma {:induction false} FlatCounts(lines: seq<string>)
    requires LinesOk(lines)
    ensures LinesTrue(|lines|, Flat(lines))
  {
    hide LineOk, Flat;
    if lines == [] {
      FlatNone();
      NoNewlines();
      CountsNone();
    } else {
      FlatCounts(lines[1..]);
      var first, rest := lines[0], Flat(lines[1..]);
      FlatHeadIs(lines);
      LineCounts(first);
      FlatNone();
      LinesTrueFront(first, rest, |lines| - 1);
    }
  }

  lemma CountsNone()
    ensures LinesTrue(0, "")
  {}

  lemma FlatHeadIs(lines: seq<string>)
    requires lines != []
    ensures Flat(lines) == lines[0] + Flat(lines[1..])
  {}

  lemma LineCounts(s: string)
    requires LineOk(s)
    ensures LinesTrue(1, s) && s != ""
  {}

  lemma LinesTrueFront(x: string, y: string, n: int)
    requires LinesTrue(1, x) && LinesTrue(n, y) && (n == 0 ==> y == "")
    ensures LinesTrue(n + 1, x + y)
  {
    var s := x + y;
    assert s[..|x|] == x && s[|x|..] == y;
    CountsAreNatural(n, y);
    NewlinesSplit(s, |x|);
    assert s[|s| - 1] == if n > 0 then y[|y| - 1] else x[|x| - 1];
  }

  // ---------- clearing

  ghost function Clearing(lines: seq<string>): seq<Op>
    requires lines != [] && lines[|lines| - 1] != ""
  {
    var n := |lines| - 1;
    Counted(Op(Delete, |Flat(lines[..n])|, n, [])) + Counted(Op(Delete, |lines[n]| - 1, 0, []))
  }

  lemma DeletingCovers(n: int, d: Doc)
    requires LinesTrue(n, Text(d))
    ensures Deleting(Counted(Op(Delete, |d|, n, [])), d)
  {
    hide LinesTrue, Text, Deleting, Counted;
    CountedIs(Op(Delete, |d|, n, []));
    if d == [] {
      DeletingNothing();
    } else {
      DeletingSome(n, d);
    }
  }

  // The ops delete all of `d`.
  ghost predicate Deleting(ops: seq<Op>, d: Doc) {
    Covers(ops, "", d) && Apply(ops, "", d) == []
  }

  lemma DeletingNothing()
    ensures Deleting([], [])
  {
    CoverNone();
  }

  lemma DeletingSome(n: int, d: Doc)
    requires LinesTrue(n, Text(d)) && d != []
    ensures Deleting([Op(Delete, |d|, n, [])], d)
  {
    hide LinesTrue, Text, Fits, Apply, Covers, OpFits, Emit;
    DeleteAllFits(n, d);
    CoverOne(Op(Delete, |d|, n, []), "", d);
  }

  lemma CountedIs(op: Op)
    requires op.opcode == Delete
    ensures Counted(op) == if op.chars == 0 then [] else [op]
  {}

  lemma DeleteAllFits(n: int, d: Doc)
    requires LinesTrue(n, Text(d)) && d != []
    ensures var op := Op(Delete, |d|, n, []);
            OpFits(op, "", d) && Emit(op, "", d) == [] && BankUse(op) == 0 && DocUse(op) == |d|
  {
    hide LinesTrue, Text;
    assert d[..|d|] == d;
  }

  // The text before the final newline, line by line.
  lemma LastLineSplit(lines: seq<string>)
    requires LinesOk(lines) && lines != []
    ensures var n := |lines| - 1;
            && lines[n] != "" && Flat(lines) == Flat(lines[..n]) + lines[n]
            && LinesTrue(n, Flat(lines[..n])) && LinesTrue(0, lines[n][..|lines[n]| - 1])
  {
    hide LineOk, Flat;
    var n := |lines| - 1;
    FlatSnocIs(lines);
    FlatCounts(lines[..n]);
    LineCounts(lines[n]);
    RestOfLine(lines[n], 0, |lines[n]| - 1);
    assert lines[n][0..] == lines[n];
  }

  lemma FlatSnocIs(lines: seq<string>)
    requires lines != []
    ensures Flat(lines) == Flat(lines[..|lines| - 1]) + lines[|lines| - 1]
  {
    hide Flat;
    var n := |lines| - 1;
    assert lines == lines[..n] + [lines[n]];
    FlatConcat(lines[..n], [lines[n]]);
    FlatOne(lines[n]);
  }

  lemma ThreeParts(d: Doc, x: string, y: string)
    requires Text(d) == x + y && y != ""
    ensures var k := |x|;
            && k < |d| && d == d[..k] + d[k..|d| - 1] + [d[|d| - 1]]
            && Text(d[..k]) == x && Text(d[k..|d| - 1]) == y[..|y| - 1] && |d| == |x| + |y|
            && d[..k] + d[k..|d| - 1] == d[..|d| - 1]
  {}

  lemma ClearingFits(lines: seq<string>, g: Doc)
    requires LinesOk(lines) && lines != [] && Text(g) == Flat(lines)
    ensures lines[|lines| - 1] != "" && g != []
    ensures Covers(Clearing(lines), "", g[..|g| - 1]) && Apply(Clearing(lines), "", g[..|g| - 1]) == []
  {
    hide LineOk, Flat, Covers, Apply, Fits, Text, Counted, LinesTrue;
    LastLineSplit(lines);
    var n := |lines| - 1;
    var x, y := Flat(lines[..n]), lines[n];
    ThreeParts(g, x, y);
    var k := |x|;
    DeletingCovers(n, g[..k]);
    DeletingCovers(0, g[k..|g| - 1]);
    BothDelete(Counted(Op(Delete, k, n, [])), g[..k], Counted(Op(Delete, |y| - 1, 0, [])), g[k..|g| - 1]);
  }

  lemma BothDelete(p: seq<Op>, d: Doc, q: seq<Op>, e: Doc)
    requires Deleting(p, d) && Deleting(q, e)
    ensures Deleting(p + q, d + e)
  {
    hide Fits, Apply, Covers;
    CoverConcat(p, "", d, q, "", e);
    NothingTwice();
    assert "" + "" == "";
  }

  // ---------- clearing, then typing

  // `a` in the place of everything but the last character.
  ghost function Replaced(a: Doc, d: Doc): Doc
    requires a != [] && d != []
  {
    a[..|a| - 1] + [d[|d| - 1]]
  }

  lemma ReplacingFits(lines: seq<string>, typed: seq<Op>, a: AText, g: Doc)
    requires LinesOk(lines) && lines != [] && Text(g) == Flat(lines)
    requires IsAText(a) && a.text != "" && AllButFinal(typed, a)
    ensures g != [] && DocOf(a) != [] && lines[|lines| - 1] != ""
    ensures var raw, bank := Clearing(lines) + typed, a.text[..|a.text| - 1];
            Fits(raw, bank, g) && Apply(raw, bank, g) == Replaced(DocOf(a), g)
  {
    hide LineOk, Flat, Covers, Apply, Fits, Text, Clearing, IsAText, DocOf;
    ClearingFits(lines, g);
    var bank, last := a.text[..|a.text| - 1], [g[|g| - 1]];
    var none: seq<Op> := [];
    EmptyFits(last);
    TypedThenKept(typed, bank, last);
    CoverThen(Clearing(lines), "", g[..|g| - 1], typed, bank, last);
    assert "" + bank == bank && g[..|g| - 1] + last == g;
    NoOpsFirst(Apply(typed, bank, [])  + last);
    TypedLengthIs(a);
  }

  lemma TypedThenKept(typed: seq<Op>, bank: string, last: Doc)
    requires Covers(typed, bank, [])
    ensures Fits(typed, bank, []) && Fits(typed, bank, last)
        && Apply(typed, bank, last) == Apply(typed, bank, []) + last
  {
    hide Apply, Fits;
    EmptyFits(last);
    CoverThen(typed, bank, [], [], "", last);
    var none: seq<Op> := [];
    assert typed + none == typed && bank + "" == bank;
    NoOpsFirst(last);
  }

  lemma TypedLengthIs(a: AText)
    requires IsAText(a)
    ensures |DocOf(a)| == |a.text|
  {
    hide Fits, Apply;
    DocOfText(a);
    DocLength(DocOf(a), a.text);
  }

  // ---------- the changeset

  predicate NoKeeps(ops: seq<Op>) {
    forall i :: 0 <= i < |ops| ==> ops[i].opcode != Keep
  }

  // Without keeps there is nothing for `endDocument` to leave out.
  lemma {:induction false} NothingToTrim(ops: seq<Op>)
    requires NoKeeps(ops)
    ensures Normal(ops, true) == Normal(ops, false)
  {
    hide InsertPast, Join;
    if ops != [] { NothingToTrim(ops[1..]); }
  }

  lemma ReplacingHasNoKeeps(lines: seq<string>, typed: seq<Op>, bank: string)
    requires lines != [] && lines[|lines| - 1] != "" && Covers(typed, bank, [])
    ensures NoKeeps(Clearing(lines) + typed)
  {
    hide Fits, Apply, Flat;
    TypingUsesNothing(typed, bank);
  }

  ghost function Replacement(lines: seq<string>, typed: seq<Op>, a: AText): Changeset
    requires lines != [] && lines[|lines| - 1] != "" && a.text != ""
  {
    var raw := Clearing(lines) + typed;
    Changeset(|Flat(lines)|, |Flat(lines)| + LengthChange(raw), Normal(raw, false), a.text[..|a.text| - 1])
  }

  lemma ReplacementIsFor(lines: seq<string>, typed: seq<Op>, a: AText)
    requires LinesOk(lines) && lines != []
    requires IsAText(a) && a.text != "" && AllButFinal(typed, a) && Styled(DocOf(a))
    ensures lines[|lines| - 1] != "" && IsCleanFor(Replacement(lines, typed, a), Flat(lines))
  {
    hide LineOk, Flat, Covers, Apply, Fits, Text, Clearing, IsAText, DocOf, Normal, Safe, Untouched, Styled, Clean,
         NewClean, LengthChange;
    var t := Flat(lines);
    var u := Untouched(t);
    TextOfUntouched(t);
    ReplacingFits(lines, typed, a, u);
    var raw, bank := Clearing(lines) + typed, a.text[..|a.text| - 1];
    ReplacingHasNoKeeps(lines, typed, bank);
    NothingToTrim(raw);
    SomeUntouched(t, u, DocOf(a));
    AssembledIsFor(raw, bank, t);
    ApplyLength(raw, bank, u);
    StyledReplaced(DocOf(a), u, t);
    CleanIfResult(raw, bank, u);
    CleanNormal(raw, bank, t);
  }

  lemma SomeUntouched(t: string, u: Doc, a: Doc)
    requires u == Untouched(t) && u != [] && a != []
    ensures t != "" && KeepsLast(u, Replaced(a, u)) && |u| == |t|
  {}

  lemma StyledReplaced(a: Doc, u: Doc, t: string)
    requires Styled(a) && a != [] && u == Untouched(t) && u != []
    ensures NewClean(Replaced(a, u))
  {
    hide NoEmptyValues;
  }

  lemma ReplacementApplied(lines: seq<string>, typed: seq<Op>, a: AText, d: Doc)
    requires LinesOk(lines) && lines != [] && Text(d) == Flat(lines)
    requires IsAText(a) && a.text != "" && AllButFinal(typed, a)
    ensures lines[|lines| - 1] != "" && d != [] && DocOf(a) != []
    ensures var c := Replacement(lines, typed, a); Fits(c.ops, c.bank, d) && After(c, d) == Replaced(DocOf(a), d)
  {
    hide LineOk, Flat, Covers, Apply, Fits, Text, Clearing, IsAText, DocOf, Normal;
    ReplacingFits(lines, typed, a, d);
    NormalEffect(Clearing(lines) + typed, false, a.text[..|a.text| - 1], d);
  }

  lemma ReplacedText(a: AText, d: Doc)
    requires IsAText(a) && a.text != "" && d != [] && a.text[|a.text| - 1] == d[|d| - 1].ch && DocOf(a) != []
    ensures Text(Replaced(DocOf(a), d)) == a.text
  {
    hide Fits, Apply;
    DocOfText(a);
    LastCharKept(DocOf(a), a.text, d);
  }

  lemma LastCharKept(a: Doc, t: string, d: Doc)
    requires Text(a) == t && a != [] && d != [] && t[|t| - 1] == d[|d| - 1].ch
    ensures Text(Replaced(a, d)) == t
  {}

  // The document that results is the new text but for the attributes of the final newline,
  // which stay those of the old one.
  lemma ReplacedIsNew(a: Doc, d: Doc)
    requires a != [] && d != []
    ensures Replaced(a, d) == a <==> d[|d| - 1] == a[|a| - 1]
  {
    assert a == a[..|a| - 1] + [a[|a| - 1]];
    assert Replaced(a, d)[|a| - 1] == d[|d| - 1];
  }
}
