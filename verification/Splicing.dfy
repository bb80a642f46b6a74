/** Ops made from stretches of text, and `makeSplice`. */
module Splicing {
  import opened Attributes
  import opened Changesets
  import opened Composition
  import opened Following
  import opened NormalForm
  import opened Views
  import opened Algebra
  import opened Laws
  import opened SmartAssembler
  import opened Covering
  import opened Inversion
  import opened InversionSteps
  import opened Inverting
  import opened DocLines

  // ---------- a stretch of text, cut after its last newline

  ghost predicate CutAtLastNewline(text: string, x: string, y: string) {
    && text == x + y && |x| == LastNewlineIndex(text) + 1
    && Newlines(y) == 0 && LinesTrue(Newlines(text), x)
  }

  lemma CutExists(text: string)
    ensures var p := LastNewlineIndex(text); CutAtLastNewline(text, text[..p + 1], text[p + 1..])
  {
    hide Newlines;
    var p := LastNewlineIndex(text);
    TailHasNone(text, p + 1);
    NewlinesSplit(text, p + 1);
    FrontEnds(text, p + 1);
  }

  lemma TailHasNone(text: string, k: nat)
    requires k <= |text| && forall i :: k <= i < |text| ==> text[i] != '\n'
    ensures Newlines(text[k..]) == 0
  {
    PlainTail(text[k..]);
  }

  lemma FrontEnds(text: string, k: nat)
    requires k <= |text| && (k > 0 ==> text[k - 1] == '\n')
    ensures text == text[..k] + text[k..] && |text[..k]| == k
    ensures LinesTrue(Newlines(text[..k]), text[..k])
  {}

  lemma {:induction false} PlainTail(s: string)
    requires forall i :: 0 <= i < |s| ==> s[i] != '\n'
    ensures Newlines(s) == 0
  {
    if s != "" { PlainTail(s[1..]); }
  }

  // Ops that do one thing to all of `d`, or type all of `bank`.
  ghost predicate Doing(opcode: Opcode, ops: seq<Op>, a: Attribs, bank: string, d: Doc) {
    && Covers(ops, bank, d)
    && Apply(ops, bank, d) == (match opcode case Insert => Typed(bank, a) case Keep => Restyle(d, a) case _ => [])
  }

  // An op for a stretch of text: the bank is the text if it inserts, the document has it if not.
  ghost predicate StretchOf(opcode: Opcode, x: string, a: Attribs, bank: string, d: Doc) {
    && opcode != NoOp && (opcode == Delete ==> a == [])
    && (if opcode == Insert then bank == x && d == [] else bank == "" && Text(d) == x)
  }

  lemma OneStretch(opcode: Opcode, x: string, n: int, a: Attribs, bank: string, d: Doc)
    requires StretchOf(opcode, x, a, bank, d) && LinesTrue(n, x)
    ensures Doing(opcode, Counted(Op(opcode, |x|, n, a)), a, bank, d)
  {
    if x == "" {
      NoStretch(opcode, n, a, bank, d);
    } else {
      SomeStretch(opcode, x, n, a, bank, d);
    }
  }

  lemma NoStretch(opcode: Opcode, n: int, a: Attribs, bank: string, d: Doc)
    requires StretchOf(opcode, "", a, bank, d)
    ensures Doing(opcode, Counted(Op(opcode, 0, n, a)), a, bank, d)
  {
    hide LinesTrue, ComposeAttributes;
    assert d == [] by { assert |Text(d)| == |d|; }
    CoverNone();
    assert Typed("", a) == [] && Restyle([], a) == [];
  }

  lemma SomeStretch(opcode: Opcode, x: string, n: int, a: Attribs, bank: string, d: Doc)
    requires StretchOf(opcode, x, a, bank, d) && LinesTrue(n, x) && x != ""
    ensures Doing(opcode, Counted(Op(opcode, |x|, n, a)), a, bank, d)
  {
    hide LinesTrue, Covers, Apply, Fits, Text, Typed, Restyle, OpFits, Emit;
    var op := Op(opcode, |x|, n, a);
    StretchFits(op, x, bank, d);
    CoverOne(op, bank, d);
  }

  lemma StretchFits(op: Op, x: string, bank: string, d: Doc)
    requires StretchOf(op.opcode, x, op.attribs, bank, d) && LinesTrue(op.lines, x) && x != "" && op.chars == |x|
    ensures OpFits(op, bank, d) && BankUse(op) == |bank| && DocUse(op) == |d|
    ensures Emit(op, bank, d)
         == match op.opcode case Insert => Typed(bank, op.attribs) case Keep => Restyle(d, op.attribs) case _ => []
  {
    hide LinesTrue, ComposeAttributes;
    assert |Text(d)| == |d|;
    assert bank[..|bank|] == bank && d[..|d|] == d;
  }

  lemma DoingBoth(opcode: Opcode, p: seq<Op>, q: seq<Op>, a: Attribs, b1: string, d1: Doc, b2: string, d2: Doc)
    requires Doing(opcode, p, a, b1, d1) && Doing(opcode, q, a, b2, d2)
    ensures Doing(opcode, p + q, a, b1 + b2, d1 + d2)
  {
    hide Covers, Apply, Fits, Typed, Restyle;
    CoverConcat(p, b1, d1, q, b2, d2);
    JoinedEffects(a, b1, d1, b2, d2);
    NothingTwiceOver();
  }

  lemma JoinedEffects(a: Attribs, b1: string, d1: Doc, b2: string, d2: Doc)
    ensures Typed(b1 + b2, a) == Typed(b1, a) + Typed(b2, a) && Restyle(d1 + d2, a) == Restyle(d1, a) + Restyle(d2, a)
  {
    hide Restyled;
  }

  lemma NothingTwiceOver()
    ensures var none: Doc := []; none + none == none
  {}

  // `appendOpWithText`, with what it appends.
  lemma TextOpsDo(opcode: Opcode, text: string, a: Attribs, bank: string, d: Doc)
    requires StretchOf(opcode, text, a, bank, d)
    ensures Doing(opcode, TextOps(opcode, text, a), a, bank, d)
  {
    hide LinesTrue, Doing, Text, Newlines, TextOps, Counted, StretchOf;
    var p := LastNewlineIndex(text);
    CutExists(text);
    TextOpsCut(opcode, text, a, text[..p + 1], text[p + 1..]);
    StretchCut(opcode, text, a, bank, d, text[..p + 1], text[p + 1..]);
  }

  lemma TextOpsCut(opcode: Opcode, text: string, a: Attribs, x: string, y: string)
    requires CutAtLastNewline(text, x, y)
    ensures TextOps(opcode, text, a) == Counted(Op(opcode, |x|, Newlines(text), a)) + Counted(Op(opcode, |y|, 0, a))
  {
    hide Newlines;
    if x == "" {
      assert text == y;
      assert Counted(Op(opcode, 0, Newlines(text), a)) == [];
      NothingAdded(Counted(Op(opcode, |y|, 0, a)));
    }
  }

  lemma NothingAdded(ops: seq<Op>)
    ensures [] + ops == ops
  {}

  lemma PlainStretch(y: string)
    requires Newlines(y) == 0
    ensures LinesTrue(0, y)
  {}

  lemma StretchCut(opcode: Opcode, text: string, a: Attribs, bank: string, d: Doc, x: string, y: string)
    requires StretchOf(opcode, text, a, bank, d) && CutAtLastNewline(text, x, y)
    ensures Doing(opcode, Counted(Op(opcode, |x|, Newlines(text), a)) + Counted(Op(opcode, |y|, 0, a)), a, bank, d)
  {
    hide LinesTrue, Doing, Newlines, Counted;
    PlainStretch(y);
    if opcode == Insert {
      OneStretch(opcode, x, Newlines(text), a, x, []);
      OneStretch(opcode, y, 0, a, y, []);
      DoingBoth(opcode, Counted(Op(opcode, |x|, Newlines(text), a)), Counted(Op(opcode, |y|, 0, a)), a, x, [], y, []);
      NothingTwiceOver();
    } else {
      DocCut(d, text, x, y);
      OneStretch(opcode, x, Newlines(text), a, "", d[..|x|]);
      OneStretch(opcode, y, 0, a, "", d[|x|..]);
      DoingBoth(opcode, Counted(Op(opcode, |x|, Newlines(text), a)), Counted(Op(opcode, |y|, 0, a)), a, "", d[..|x|],
          "", d[|x|..]);
      assert "" + "" == "";
    }
  }

  lemma DocCut(d: Doc, text: string, x: string, y: string)
    requires Text(d) == text && text == x + y
    ensures |x| <= |d| && d == d[..|x|] + d[|x|..] && Text(d[..|x|]) == x && Text(d[|x|..]) == y
  {}

  // ---------- what ops make of a stretch

  ghost predicate Effect(ops: seq<Op>, bank: string, d: Doc, e: Doc) {
    Covers(ops, bank, d) && Apply(ops, bank, d) == e
  }

  lemma EffectConcat(p: seq<Op>, b1: string, d1: Doc, e1: Doc, q: seq<Op>, b2: string, d2: Doc, e2: Doc)
    requires Effect(p, b1, d1, e1) && Effect(q, b2, d2, e2)
    ensures Effect(p + q, b1 + b2, d1 + d2, e1 + e2)
  {
    hide Covers, Apply, Fits;
    CoverConcat(p, b1, d1, q, b2, d2);
  }

  lemma EffectNone()
    ensures Effect([], "", [], [])
  {
    CoverNone();
  }

  lemma EffectOf(opcode: Opcode, text: string, a: Attribs, bank: string, d: Doc)
    requires StretchOf(opcode, text, a, bank, d)
    ensures Effect(TextOps(opcode, text, a), bank, d,
                   match opcode case Insert => Typed(bank, a) case Keep => Restyle(d, a) case _ => [])
  {
    hide StretchOf, Covers, Apply, TextOps;
    TextOpsDo(opcode, text, a, bank, d);
  }

  lemma EffectThen(ops: seq<Op>, bank: string, d: Doc, e: Doc, rest: Doc)
    requires Effect(ops, bank, d, e)
    ensures Fits(ops, bank, d + rest) && Apply(ops, bank, d + rest) == e + rest
  {
    hide Fits, Apply;
    FitsNothing(rest);
    CoverThen(ops, bank, d, [], "", rest);
    assert ops + [] == ops && bank + "" == bank;
  }

  // ---------- makeSplice

  lemma SplicingFits(t: string, s: nat, n: nat, newText: string, a: Attribs, g: Doc)
    requires Text(g) == t && s + n < |t|
    ensures s + n < |g|
    ensures var ops := TextOps(Keep, t[..s], []) + TextOps(Delete, t[s..s + n], []) + TextOps(Insert, newText, a);
            Fits(ops, newText, g) && Apply(ops, newText, g) == g[..s] + Typed(newText, a) + g[s + n..]
  {
    hide Fits, Apply, Typed, Text, TextOps, Covers, Restyle, LinesTrue;
    SpliceParts(t, g, s, n);
    TextOpsDo(Keep, t[..s], [], "", g[..s]);
    TextOpsDo(Delete, t[s..s + n], [], "", g[s..s + n]);
    NoDocText();
    TextOpsDo(Insert, newText, a, newText, []);
    SplicingJoin(TextOps(Keep, t[..s], []), TextOps(Delete, t[s..s + n], []), TextOps(Insert, newText, a), a,
                 g[..s], g[s..s + n], newText, g[s + n..]);
  }

  lemma NoDocText()
    ensures Text([]) == ""
  {}

  lemma SpliceParts(t: string, g: Doc, s: nat, n: nat)
    requires Text(g) == t && s + n < |t|
    ensures |g| == |t| && Text(g[..s]) == t[..s] && Text(g[s..s + n]) == t[s..s + n]
    ensures g == g[..s] + g[s..s + n] + g[s + n..]
  {}

  lemma SplicingJoin(k: seq<Op>, r: seq<Op>, p: seq<Op>, a: Attribs, d1: Doc, d2: Doc, text: string, d3: Doc)
    requires Doing(Keep, k, [], "", d1) && Doing(Delete, r, [], "", d2) && Doing(Insert, p, a, text, [])
    ensures Fits(k + r + p, text, d1 + d2 + d3)
    ensures Apply(k + r + p, text, d1 + d2 + d3) == d1 + Typed(text, a) + d3
  {
    hide Fits, Apply, Typed, Covers, Restyle;
    StyleNothing(d1);
    CoverConcat(k, "", d1, r, "", d2);
    CoverConcat(k + r, "" + "", d1 + d2, p, text, []);
    FitsNothing(d3);
    CoverThen(k + r + p, "" + "" + text, d1 + d2 + [], [], "", d3);
    SplicingSeqs(k + r + p, text, d1, d2, Typed(text, a), d3);
  }

  lemma FitsNothing(d: Doc)
    ensures Fits([], "", d) && Apply([], "", d) == d
  {}

  lemma SplicingSeqs(ops: seq<Op>, text: string, d1: Doc, d2: Doc, x: Doc, d3: Doc)
    ensures ops + [] == ops && "" + "" + text == text && "" + "" + text + "" == text
    ensures d1 + d2 + [] == d1 + d2 && d1 + [] == d1 && d1 + [] + x == d1 + x
  {}

  // The new text with its splice.
  function SplicedText(t: string, s: nat, n: nat, newText: string): string
    requires s + n <= |t|
  {
    t[..s] + newText + t[s + n..]
  }

  ghost predicate Splices(c: Changeset, t: string, s: nat, n: nat, newText: string, a: Attribs)
    requires s + n < |t|
  {
    && IsFor(c, t)
    && forall d: Doc | Text(d) == t ::
         s + n < |d| && Fits(c.ops, c.bank, d) && After(c, d) == d[..s] + Typed(newText, a) + d[s + n..]
  }

  lemma SplicingIsFor(t: string, s: nat, n: nat, newText: string, a: Attribs)
    requires s + n < |t|
    ensures var ops := TextOps(Keep, t[..s], []) + TextOps(Delete, t[s..s + n], []) + TextOps(Insert, newText, a);
            Splices(Changeset(|t|, |t| + |newText| - n, Normal(ops, true), newText), t, s, n, newText, a)
  {
    hide Fits, Apply, Typed, Text, TextOps, Normal, Safe, Untouched;
    var ops := TextOps(Keep, t[..s], []) + TextOps(Delete, t[s..s + n], []) + TextOps(Insert, newText, a);
    var u := Untouched(t);
    TextOfUntouched(t);
    SplicingFits(t, s, n, newText, a, u);
    SplicedLast(u, s, n, Typed(newText, a), t);
    AssembledIsFor(ops, newText, t);
    TypedSize(newText, a);
    forall d: Doc | Text(d) == t
      ensures s + n < |d| && Fits(Normal(ops, true), newText, d)
              && Apply(Normal(ops, true), newText, d) == d[..s] + Typed(newText, a) + d[s + n..]
    {
      SplicingFits(t, s, n, newText, a, d);
      NormalEffect(ops, true, newText, d);
    }
  }

  lemma TypedSize(x: string, a: Attribs)
    ensures |Typed(x, a)| == |x|
  {}

  lemma SplicedLast(u: Doc, s: nat, n: nat, x: Doc, t: string)
    requires u == Untouched(t) && s + n < |u|
    ensures KeepsLast(u, u[..s] + x + u[s + n..]) && |u| == |t| && |u[..s] + x + u[s + n..]| == |t| + |x| - n
  {}

  // The text afterwards.
  lemma SpliceGives(c: Changeset, t: string, s: nat, n: nat, newText: string, a: Attribs)
    requires s + n < |t| && Splices(c, t, s, n, newText, a)
    ensures TextAfter(c, t) == SplicedText(t, s, n, newText)
  {
    hide Fits, Apply, IsFor, ApplyText, Text, Untouched, Typed;
    var u := Untouched(t);
    TextOfUntouched(t);
    OnDocument(c, t, u);
    SplicedDocText(u, t, s, n, newText, a);
  }

  lemma SplicedDocText(d: Doc, t: string, s: nat, n: nat, newText: string, a: Attribs)
    requires Text(d) == t && s + n < |t|
    ensures s + n < |d| && Text(d[..s] + Typed(newText, a) + d[s + n..]) == SplicedText(t, s, n, newText)
  {
    hide Text, Typed;
    DocTextLength(d);
    TextParts(d, s);
    TextParts(d, s + n);
    TextConcat(d[..s], Typed(newText, a));
    TextConcat(d[..s] + Typed(newText, a), d[s + n..]);
    TypedHasText(newText, a);
  }

  lemma TypedHasText(x: string, a: Attribs)
    ensures Text(Typed(x, a)) == x
  {}

  lemma DocTextLength(d: Doc)
    ensures |Text(d)| == |d|
  {}

  // A splice never touches the last character: what reaches that far is cut back.
  method MakeSplice(oldFullText: string, start: nat, count: nat, newText: string, attribs: Attribs)
      returns (c: Changeset)
    requires oldFullText != ""
    ensures var last := |oldFullText| - 1;
            var s := if start >= |oldFullText| then last else start;
            var n := if count > last - s then last - s else count;
            && Splices(c, oldFullText, s, n, newText, attribs)
            && TextAfter(c, oldFullText) == SplicedText(oldFullText, s, n, newText)
  {
    hide Normal, Splices, TextOps, SmartOpAssembler.Valid, SmartOpAssembler.Open, LengthChange;
    var oldLen := |oldFullText|;
    var spliceStart, numRemoved := start, count;
    if spliceStart >= oldLen {
      spliceStart := oldLen - 1;
    }
    if numRemoved > |oldFullText| - spliceStart - 1 {
      numRemoved := |oldFullText| - spliceStart - 1;
    }
    var oldText := oldFullText[spliceStart..spliceStart + numRemoved];
    var newLen := oldLen + |newText| - |oldText|;
    var assem := new SmartOpAssembler();
    assem.AppendOpWithText(Keep, oldFullText[..spliceStart], []);
    assem.AppendOpWithText(Delete, oldText, []);
    assem.AppendOpWithText(Insert, newText, attribs);
    NothingAdded(TextOps(Keep, oldFullText[..spliceStart], []));
    assem.EndDocument();
    var ops := assem.ToString();
    SplicingIsFor(oldFullText, spliceStart, numRemoved, newText, attribs);
    c := Changeset(oldLen, newLen, ops, newText);
    SpliceGives(c, oldFullText, spliceStart, numRemoved, newText, attribs);
  }
}
