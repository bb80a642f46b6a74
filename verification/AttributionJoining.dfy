/** Attribution lines joined and split; changing them line by line refines changing them whole. */
module AttributionJoining {
  import opened Attributes
  import opened Changesets
  import opened Composition
  import opened NormalForm
  import opened Views
  import opened Algebra
  import opened Laws
  import opened Assemblers
  import opened SmartAssembler
  import opened Iterators
  import opened Zipping
  import opened Engine
  import opened Applying
  import opened Covering
  import opened InversionSteps
  import opened DocLines
  import opened InverseCursor
  import opened LineMutation
  import opened TextLines
  import opened AttributionSteps
  import opened AttributionLines

  // ---------- joining

  method JoinAttributionLines(theAlines: seq<seq<Op>>) returns (r: seq<Op>)
    requires forall i :: 0 <= i < |theAlines| ==> AllParsed(theAlines[i])
    ensures r == Merged(Flat(theAlines), false)
  {
    hide Merged, MergingOpAssembler.Valid, Flat;
    var assem := new MergingOpAssembler();
    NoLines(theAlines);
    for i := 0 to |theAlines|
      invariant assem.Valid() && !assem.ended && fresh(assem) && assem.raw == Flat(theAlines[..i])
    {
      var iter := new OpIterator(theAlines[i]);
      ghost var before := assem.raw;
      NoOpsInFront(theAlines[i]);
      assert before + [] == before;
      ghost var done: seq<Op> := [];
      while iter.HasNext()
        invariant iter.Valid() && assem.Valid() && !assem.ended
        invariant theAlines[i] == done + iter.Rest() && assem.raw == before + done
        decreases |iter.Rest()|
      {
        ghost var was := iter.Rest();
        var op := iter.Next();
        assert theAlines[i][|done|] == op;
        Regroup(done, [op], iter.Rest());
        Regroup(before, done, [op]);
        assem.Append(op);
        done := done + [op];
      }
      assert done == theAlines[i];
      FlatSnoc(theAlines, i);
    }
    assert theAlines[..|theAlines|] == theAlines;
    r := assem.ToString();
  }

  lemma NoLines(v: seq<seq<Op>>)
    ensures Flat(v[..0]) == []
  {}

  lemma FlatSnoc<T>(v: seq<seq<T>>, i: nat)
    requires i < |v|
    ensures Flat(v[..i + 1]) == Flat(v[..i]) + v[i]
  {
    hide Flat;
    assert v[..i + 1] == v[..i] + [v[i]];
    FlatConcat(v[..i], [v[i]]);
    FlatOne(v[i]);
  }

  // The joined ops, merged or not, attribute the joined text.
  lemma {:induction false} JoinedFits(t: seq<string>, v: seq<seq<Op>>, i: nat)
    requires AreLines(t, v) && i <= |t|
    ensures Fits(Flat(v[i..]), Flat(t[i..]), []) && Apply(Flat(v[i..]), Flat(t[i..]), []) == DocFrom(t, v, i)
    decreases |t| - i
  {
    hide LineOk, Fits, Apply, Flat;
    if i == |t| {
      NoLines(v);
      assert v[i..] == v[..0] && t[i..] == [];
      FlatNone();
      NothingTyped();
    } else {
      JoinedFits(t, v, i + 1);
      TailOfLines(v, i);
      TailOfLines(t, i);
      TypingUsesNothing(v[i], t[i]);
      CoverThen(v[i], t[i], [], Flat(v[i + 1..]), Flat(t[i + 1..]), []);
      var none: Doc := [];
      assert none + none == none;
    }
  }

  lemma {:induction false} TrimChangesNothing(ops: seq<Op>)
    requires All(ops, Insert)
    ensures Normal(ops, true) == Normal(ops, false)
  {
    hide InsertPast, Join;
    if ops != [] { TrimChangesNothing(ops[1..]); }
  }

  // Two attributions of the same document are the same once merged.
  lemma SameDocSameAttribution(a: seq<Op>, ba: string, b: seq<Op>, bb: string)
    requires Fits(a, ba, []) && Fits(b, bb, []) && Apply(a, ba, []) == Apply(b, bb, [])
    ensures Merged(a, false) == Normal(b, true) && ba == bb
  {
    hide Fits, Apply, Normal, Merged;
    assert Untouched("") == [];
    SameViewSameForm(a, ba, b, bb, "");
    TypingUsesNothing(a, ba);
    LineWritten(a, ba);
    TrimChangesNothing(a);
  }

  // Joined, the lines that `mutateAttributionLines` leaves are, op for op, what
  // `applyToAttribution` makes of the attribution of the whole document.
  lemma LinesRefineAttribution(cs: Changeset, a: AText, t: seq<string>, v: seq<seq<Op>>)
    requires IsAText(a) && IsFor(cs, a.text) && Fits(cs.ops, cs.bank, DocOf(a))
    requires AreLines(t, v) && DocFrom(t, v, 0) == After(cs, DocOf(a))
    ensures Merged(Flat(v), false) == AttributionAfter(cs, a.attribs)
    ensures Flat(t) == TextAfter(cs, a.text)
  {
    hide Fits, Apply, Normal, Merged, LineOk, Flat, DocFrom, AttributionAfter, ApplyText, IsFor;
    ApplyToATextCorrect(cs, a);
    JoinedFits(t, v, 0);
    assert v[0..] == v && t[0..] == t;
    SameDocSameAttribution(Flat(v), Flat(t), AttributionAfter(cs, a.attribs), TextAfter(cs, a.text));
  }

  // The same, for lines that were joined before they were changed as a whole.
  lemma LinesRefineJoined(cs: Changeset, t: seq<string>, v: seq<seq<Op>>, t': seq<string>, v': seq<seq<Op>>)
    requires AreLines(t, v) && IsFor(cs, Flat(t)) && Fits(cs.ops, cs.bank, DocFrom(t, v, 0))
    requires AreLines(t', v') && DocFrom(t', v', 0) == After(cs, DocFrom(t, v, 0))
    ensures Merged(Flat(v'), false) == AttributionAfter(cs, Merged(Flat(v), false))
    ensures IsSplit(t', TextAfter(cs, Flat(t)))
  {
    hide Fits, Apply, Normal, Merged, LineOk, Flat, DocFrom, AttributionAfter, ApplyText, IsFor, IsSplit;
    JoinedFits(t, v, 0);
    assert v[0..] == v && t[0..] == t;
    TypingUsesNothing(Flat(v), Flat(t));
    LineWritten(Flat(v), Flat(t));
    LinesRefineAttribution(cs, AText(Flat(t), Merged(Flat(v), false)), t', v');
    AreLinesOk(t', v');
    LinesAreSplit(t');
  }

  lemma AreLinesOk(t: seq<string>, v: seq<seq<Op>>)
    requires AreLines(t, v)
    ensures LinesOk(t)
  {}

  // ---------- splitting

  // The lines so far, and the ops and text still to be split.
  ghost predicate Splitting(s: Stage, ops: seq<Op>, part: seq<Op>, v: seq<seq<Op>>, text: string, pos: nat,
      result: Doc) {
    Sound(s, ops, [], part, v, |v|, result) && pos <= |text| && s.bank == text[pos..]
  }

  lemma WithLineAtEnd<T>(v: seq<T>, line: T)
    ensures WithLine(v, |v|, line) == v + [line]
  {}

  class LineSplitter {
    const assem: MergingOpAssembler
    var lines: seq<seq<Op>>
    var pos: nat
    ghost var stage: Stage

    ghost predicate Valid()
      reads this, assem
    {
      assem.Valid() && !assem.ended
    }

    constructor (ghost s: Stage)
      ensures Valid() && fresh(assem) && assem.raw == [] && lines == [] && pos == 0 && stage == s
    {
      assem := new MergingOpAssembler();
      lines, pos := [], 0;
      stage := s;
    }

    // `bank` is what is left of the text behind `op`, which itself stands for `x`.
    method AppendOp(op: Op, ghost x: string, ghost ops: seq<Op>, ghost result: Doc)
      requires Valid() && Putting(stage, op, x, ops, [], assem.raw, lines, |lines|, result)
      modifies this, assem
      ensures Valid() && Sound(stage, ops, [], assem.raw, lines, |lines|, result)
      ensures pos == old(pos) + op.chars && stage.bank == old(stage.bank)
    {
      hide Sound, Putting, MergingOpAssembler.Valid, Merged, WithLine;
      ghost var part, v := assem.raw, lines;
      PuttingMeans(stage, op, x, ops, [], part, v, |v|, result);
      assem.Append(op);
      if op.lines > 0 {
        FinishLine(stage, op, x, ops, [], part, v, |v|, result);
        WithLineAtEnd(v, Merged(part + [op], false));
        var s := assem.ToString();
        lines := lines + [s];
        assem.Clear();
        stage := stage.(tlines := WithLine(stage.tlines, |v|, stage.tp + x), tp := "");
      } else {
        PutInLine(stage, op, x, ops, [], part, v, |v|, result);
        stage := stage.(tp := stage.tp + x);
      }
      pos := pos + op.chars;
    }
  }

  // The first `k` characters of an op, about to be put out.
  lemma SplitPiece(s: Stage, op: Op, rest: seq<Op>, part: seq<Op>, v: seq<seq<Op>>, text: string, pos: nat,
      result: Doc, k: int, n: int)
    requires Splitting(s, [op] + rest, part, v, text, pos, result) && 0 < k <= op.chars && n <= 1
    requires k <= |text| - pos && OpFits(Part(op, k, n), text[pos..], [])
    ensures Putting(s.(bank := text[pos + k..]), Part(op, k, n), text[pos..pos + k], Leftover(op, k, n) + rest, [],
        part, v, |v|, result)
  {
    hide Sound, Putting, OpFits, Leftover;
    Front(op, rest);
    SplitHead(s, [op] + rest, part, v, text, pos, result);
    InsertPiece(s, [op] + rest, [], part, v, |v|, result, k, n);
    ChopLive(op, rest, k, n);
    LeftoverIs(op, rest, k, n);
    DropTwice(text, pos, k);
    assert text[pos..][..k] == text[pos..pos + k];
  }

  lemma LeftoverIs(op: Op, rest: seq<Op>, k: int, n: int)
    ensures Leftover(op, k, n) + rest == if op.chars == k then rest else [Remainder(op, k, n)] + rest
  {
    NoOpsInFront(rest);
  }

  // With no old document ahead, every op inserts.
  lemma SplitHead(s: Stage, ops: seq<Op>, part: seq<Op>, v: seq<seq<Op>>, text: string, pos: nat, result: Doc)
    requires Splitting(s, ops, part, v, text, pos, result) && ops != []
    ensures ops[0].opcode == Insert && OpFits(ops[0], text[pos..], []) && 0 < ops[0].chars <= |text| - pos
    ensures LinesTrue(ops[0].lines, text[pos..][..ops[0].chars]) && 0 <= ops[0].lines
  {
    hide LineOk, Apply, DocTo, AreLines, LinesTrue, Newlines, DocFrom;
    SameLengths(s.tlines, v);
    NoAtt(s, v, |v|);
    DocEnds(s.tlines, v);
    OpOfLine(ops[0], s.bank);
    CountsAreNatural(ops[0].lines, text[pos..][..ops[0].chars]);
  }

  lemma DocEnds(t: seq<string>, v: seq<seq<Op>>)
    requires AreLines(t, v)
    ensures DocFrom(t, v, |t|) == []
  {}

  method SplitOp(sp: LineSplitter, op0: Op, ghost rest: seq<Op>, text: string, ghost result: Doc)
    requires sp.Valid() && Splitting(sp.stage, [op0] + rest, sp.assem.raw, sp.lines, text, sp.pos, result)
    modifies sp, sp.assem
    ensures sp.Valid() && Splitting(sp.stage, rest, sp.assem.raw, sp.lines, text, sp.pos, result)
  {
    hide Sound, Putting, MergingOpAssembler.Valid, OpFits, LinesTrue, Splitting;
    var op := op0;
    var numChars, numLines := op.chars, op.lines;
    while numLines > 1
      invariant sp.Valid()
      invariant Splitting(sp.stage, [Op(op0.opcode, numChars, numLines, op0.attribs)] + rest, sp.assem.raw, sp.lines,
          text, sp.pos, result)
      invariant op == if numLines == op0.lines then op0 else Op(op0.opcode, op.chars, 1, op0.attribs)
      invariant numLines == op0.lines ==> numChars == op0.chars
      invariant numLines != op0.lines ==> numLines >= 1
    {
      ghost var whole := Op(op0.opcode, numChars, numLines, op0.attribs);
      SplitHead(sp.stage, [whole] + rest, sp.assem.raw, sp.lines, text, sp.pos, result);
      assert ([whole] + rest)[0] == whole;
      NewlineSomewhere(whole, text[sp.pos..]);
      ghost var i :| 0 <= i < |text[sp.pos..]| && text[sp.pos..][i] == '\n';
      assert text[sp.pos + i] == '\n';
      var newline := IndexOfNewline(text, sp.pos);
      var newlineEnd := newline + 1;
      FirstLineOf(whole, text[sp.pos..], newline - sp.pos);
      op := op.(chars := newlineEnd - sp.pos, lines := 1);
      numChars := numChars - op.chars;
      numLines := numLines - op.lines;
      SplitAppend(sp, whole, op, rest, text, result);
    }
    if numLines == 1 {
      op := op.(chars := numChars, lines := 1);
    }
    SplitHead(sp.stage, [op] + rest, sp.assem.raw, sp.lines, text, sp.pos, result);
    assert ([op] + rest)[0] == op && Part(op, op.chars, op.lines) == op;
    SplitAppend(sp, op, op, rest, text, result);
    NoOpsInFront(rest);
  }

  // Appends the first part of an op.
  method SplitAppend(sp: LineSplitter, ghost whole: Op, op: Op, ghost rest: seq<Op>, text: string, ghost result: Doc)
    requires sp.Valid() && Splitting(sp.stage, [whole] + rest, sp.assem.raw, sp.lines, text, sp.pos, result)
    requires op == Part(whole, op.chars, op.lines) && 0 < op.chars <= whole.chars && op.lines <= 1
    requires sp.pos <= |text| && op.chars <= |text| - sp.pos && OpFits(op, text[sp.pos..], [])
    modifies sp, sp.assem
    ensures sp.Valid()
    ensures Splitting(sp.stage, Leftover(whole, op.chars, op.lines) + rest, sp.assem.raw, sp.lines, text, sp.pos,
        result)
  {
    hide Sound, Putting, MergingOpAssembler.Valid, OpFits, Leftover;
    SplitPiece(sp.stage, whole, rest, sp.assem.raw, sp.lines, text, sp.pos, result, op.chars, op.lines);
    ghost var x := text[sp.pos..sp.pos + op.chars];
    sp.stage := sp.stage.(bank := text[sp.pos + op.chars..]);
    sp.AppendOp(op, x, Leftover(whole, op.chars, op.lines) + rest, result);
  }

  // Splitting an attribution gives one attribution a line, which together say the same.
  method SplitAttributionLines(attrOps: seq<Op>, text: string) returns (lines: seq<seq<Op>>, ghost tlines: seq<string>)
    requires Fits(attrOps, text, []) && (text == "" || text[|text| - 1] == '\n')
    ensures AreLines(tlines, lines) && DocFrom(tlines, lines, 0) == Apply(attrOps, text, [])
    ensures IsSplit(tlines, text)
    ensures Merged(Flat(lines), false) == Normal(attrOps, true)
  {
    hide Sound, Fits, Apply, Splitting, LineSplitter.Valid, AreLines, DocFrom, Merged, Normal, Flat, IsSplit;
    ghost var result := Apply(attrOps, text, []);
    var iter := new OpIterator(attrOps);
    StartSplitting(attrOps, text);
    var sp := new LineSplitter(Stage([], "", "", text));
    while iter.HasNext()
      invariant iter.Valid() && sp.Valid() && fresh(iter) && fresh(sp) && fresh(sp.assem)
      invariant Splitting(sp.stage, iter.Rest(), sp.assem.raw, sp.lines, text, sp.pos, result)
      decreases |iter.Rest()|
    {
      ghost var was := iter.Rest();
      var op := iter.Next();
      assert was == [op] + iter.Rest();
      SplitOp(sp, op, iter.Rest(), text, result);
    }
    lines, tlines := sp.lines, sp.stage.tlines;
    EndSplitting(attrOps, text, sp.stage, sp.assem.raw, lines, sp.pos);
  }

  lemma StartSplitting(attrOps: seq<Op>, text: string)
    requires Fits(attrOps, text, [])
    ensures Splitting(Stage([], "", "", text), attrOps, [], [], text, 0, Apply(attrOps, text, []))
  {
    hide Fits, Apply, Newlines;
    var s := Stage([], "", "", text);
    NothingTyped();
    NoAtt(s, [], 0);
    MadeAtLine(s, [], 0);
    DocEnds([], []);
    NoOpsFirst(Apply(attrOps, text, []));
    assert text[0..] == text;
  }

  lemma EndSplitting(attrOps: seq<Op>, text: string, s: Stage, part: seq<Op>, v: seq<seq<Op>>, pos: nat)
    requires Fits(attrOps, text, []) && (text == "" || text[|text| - 1] == '\n')
    requires Splitting(s, [], part, v, text, pos, Apply(attrOps, text, []))
    ensures AreLines(s.tlines, v) && DocFrom(s.tlines, v, 0) == Apply(attrOps, text, [])
    ensures IsSplit(s.tlines, text)
    ensures Merged(Flat(v), false) == Normal(attrOps, true)
  {
    hide Fits, Apply, Sound, Merged, Normal, AreLines, DocFrom, Text, Flat, IsSplit;
    var result := Apply(attrOps, text, []);
    AttributesText(attrOps, text, result);
    if text != "" {
      LastCharOfText(result, text);
      NothingPending(s, part, v, |v|, result);
    } else {
      NoPartOfNothing(s, part, v, result);
    }
    AllMade(s, v, |v|, result);
    DocFromText(s.tlines, v, 0);
    TextFromFlat(s.tlines, 0);
    assert s.tlines[0..] == s.tlines && v[0..] == v;
    AreLinesOk(s.tlines, v);
    LinesAreSplit(s.tlines);
    JoinedFits(s.tlines, v, 0);
    SameDocSameAttribution(Flat(v), Flat(s.tlines), attrOps, text);
  }

  lemma NoPartOfNothing(s: Stage, part: seq<Op>, v: seq<seq<Op>>, result: Doc)
    requires Sound(s, [], [], part, v, |v|, result) && Text(result) == ""
    ensures part == []
  {
    hide Fits, Apply, DocTo, LineOk, Newlines, AreLines, DocFrom;
    if part != [] {
      AttributesText(part, s.tp, Apply(part, s.tp, []));
      NotAtEnd(part, s.tp, Apply(part, s.tp, []));
    }
  }
}
