/** `mutateAttributionLines`: the attribution of a document changed in place, line by line. */
module AttributionLines {
  import opened Attributes
  import opened Changesets
  import opened Composition
  import opened NormalForm
  import opened Views
  import opened Algebra
  import opened Laws
  import opened Assemblers
  import opened SmartAssembler
  import opened Iterators
  import opened Zipping
  import opened Engine
  import opened Covering
  import opened InversionSteps
  import opened DocLines
  import opened InverseCursor
  import opened LineMutation
  import opened AttributionSteps

  // ---------- steps, as they change the state

  lemma CopyStep(s: Stage, a: Op, more: seq<Op>, part: seq<Op>, v: seq<seq<Op>>, l: nat, result: Doc)
    requires Sound(s, [], [a] + more, part, v, l, result)
    ensures 0 < a.chars <= |s.ta|
    ensures Putting(s.(ta := s.ta[a.chars..]), a, s.ta[..a.chars], [], more, part, v, l, result)
    ensures |Coming(s.(ta := s.ta[a.chars..]), more, v, l)| < |Coming(s, [a] + more, v, l)|
  {
    hide LineOk, Fits, Apply, DocTo, DocFrom, AreLines, LinesTrue, Newlines, Typed, OpFits, Made;
    Front(a, more);
    OpAtFront(a, more, s.ta);
    var s' := s.(ta := s.ta[a.chars..]);
    LineCut([a] + more, s.ta, a.chars, a.lines);
    assert Part(a, a.chars, a.lines) == a;
    InsertAnywhere(a, s.ta, []);
    SameMade(s, s', part, v, l);
    NothingToDo(s.bank, Coming(s, [a] + more, v, l));
    Regroup(Typed(s.ta[..a.chars], a.attribs), Apply(more, s'.ta, []), DocFrom(s.tlines, v, l));
    TypedLength(s.ta[..a.chars], a.attribs);
  }

  lemma OpAtFront(a: Op, more: seq<Op>, ta: string)
    requires Fits([a] + more, ta, [])
    ensures 0 < a.chars <= |ta| && LinesTrue(a.lines, ta[..a.chars]) && a.opcode == Insert && ta != ""
  {
    hide Apply, Emit;
    Unfold([a] + more, ta, []);
    OpOfLine(a, ta);
  }

  lemma TypedLength(x: string, a: Attribs)
    ensures |Typed(x, a)| == |x|
  {}

  // What an op of the changeset leaves of an op of the line.
  lemma ZipStep(s: Stage, a: Op, more: seq<Op>, b: Op, rest: seq<Op>, part: seq<Op>, v: seq<seq<Op>>, l: nat,
      result: Doc,
                a': Op, b': Op, out: Op)
    requires Sound(s, [b] + rest, [a] + more, part, v, l, result)
    requires (b.opcode == Keep || b.opcode == Delete) && a.opcode == Insert && Zipped(a, b, a', b', out)
    ensures var k := if b.chars <= a.chars then b.chars else a.chars;
            && 0 < k <= |s.ta|
            && var s' := s.(ta := s.ta[k..]);
            && (out.opcode != NoOp ==> Putting(s', out, s.ta[..k], Live(b') + rest, Live(a') + more, part, v, l,
                result))
            && (out.opcode == NoOp ==> Sound(s', Live(b') + rest, Live(a') + more, part, v, l, result))
            && Fits(Live(a') + more, s'.ta, []) && |Coming(s', Live(a') + more, v, l)| < |Coming(s, [a] + more, v, l)|
  {
    hide LineOk, Fits, Apply, DocTo, DocFrom, AreLines, LinesTrue, Newlines, Typed, OpFits, Made, ComposeAttributes,
         Chop;
    var k, n := if b.chars <= a.chars then b.chars else a.chars, if b.chars <= a.chars then b.lines else a.lines;
    Front(a, more);
    Front(b, rest);
    OpAtFront(a, more, s.ta);
    ZipSplits([a] + more, s.ta, [b] + rest, s.bank, DocFrom(s.tlines, v, l), k, n);
    ChopLive(a, more, k, n);
    ChopLive(b, rest, k, n);
    NoOpsInFront(more);
    NoOpsInFront(rest);
    var s' := s.(ta := s.ta[k..]);
    SameMade(s, s', part, v, l);
    StyledOut(out, s.ta[..k], n);
    ComingShrinks(s, [a] + more, s', Live(a') + more, v, l);
    NoOpsFirst(Apply(Live(b') + rest, s.bank, Coming(s', Live(a') + more, v, l)));
  }

  lemma Front<T>(x: T, s: seq<T>)
    ensures ([x] + s)[0] == x && ([x] + s)[1..] == s && [x] + s != []
  {}

  lemma NoOpsFirst(d: Doc)
    ensures [] + d == d
  {}

  lemma StyledOut(out: Op, x: string, n: int)
    requires out.opcode == NoOp || (out.opcode == Insert && out.chars == |x| > 0 && out.lines == n && LinesTrue(n, x))
    ensures out.opcode == Insert ==> OpFits(out, x, [])
  {
    assert x[..|x|] == x;
  }

  lemma ComingShrinks(s: Stage, att: seq<Op>, s': Stage, att': seq<Op>, v: seq<seq<Op>>, l: nat)
    requires AreLines(s.tlines, v) && s'.tlines == s.tlines && Fits(att, s.ta, []) && Fits(att', s'.ta, [])
        && |s'.ta| < |s.ta|
    ensures |Coming(s', att', v, l)| < |Coming(s, att, v, l)|
  {
    hide Fits, Apply, DocFrom, AreLines, Text;
    AttributesText(att, s.ta, Apply(att, s.ta, []));
    AttributesText(att', s'.ta, Apply(att', s'.ta, []));
  }

  // ---------- the end

  lemma {:induction false} DocEndsLine(t: seq<string>, v: seq<seq<Op>>, i: nat)
    requires AreLines(t, v) && i < |t|
    ensures var d := DocFrom(t, v, i); d != [] && d[|d| - 1].ch == '\n'
    decreases |t| - i
  {
    hide Fits, Apply;
    LineDocText(t, v, i);
    if i + 1 < |t| {
      DocEndsLine(t, v, i + 1);
    } else {
      var d := LineDoc(t, v, i);
      assert DocFrom(t, v, i) == d;
      assert Text(d)[|d| - 1] == '\n';
    }
  }

  // The line being put together is finished when there is nothing left to do.
  lemma NothingPending(s: Stage, part: seq<Op>, v: seq<seq<Op>>, l: nat, result: Doc)
    requires Sound(s, [], [], part, v, l, result) && l == |v|
    requires result != [] && result[|result| - 1].ch == '\n'
    ensures part == []
  {
    hide Fits, Apply, DocTo, LineOk, Newlines, Text;
    SameLengths(s.tlines, v);
    NoAtt(s, v, l);
    NothingToDo(s.bank, Coming(s, [], v, l));
    if part != [] {
      var d := Apply(part, s.tp, []);
      AttributesText(part, s.tp, d);
      NotAtEnd(part, s.tp, d);
      assert result == DocTo(s.tlines, v, l) + d;
      LastCharOfText(d, s.tp);
      PlainEnd(s.tp);
    }
  }

  lemma LastCharOfText(d: Doc, t: string)
    requires Text(d) == t && t != ""
    ensures d != [] && d[|d| - 1].ch == t[|t| - 1]
  {}

  lemma PlainEnd(s: string)
    requires Newlines(s) == 0 && s != ""
    ensures s[|s| - 1] != '\n'
  {
    if s[|s| - 1] == '\n' { LastIsNewline(s); }
  }

  // Nothing left to do, and no line open: the lines are the result.
  lemma AllMade(s: Stage, v: seq<seq<Op>>, l: nat, result: Doc)
    requires Sound(s, [], [], [], v, l, result)
    ensures AreLines(s.tlines, v) && DocFrom(s.tlines, v, 0) == result
  {
    hide Fits, Apply, DocTo, DocFrom, LineOk;
    SameLengths(s.tlines, v);
    NoAtt(s, v, l);
    MadeAtLine(s, v, l);
    NothingToDo(s.bank, Coming(s, [], v, l));
    DocWhole(s.tlines, v, l);
  }

  // ---------- the state that the loop's helpers share

  class LineRewriter {
    const mut: TextLinesMutator<Op>
    var lineIter: OpIterator?
    var lineAssem: MergingOpAssembler?
    ghost var stage: Stage

    ghost function Repr(): set<object>
      reads this
    {
      {this, mut, mut.lines}
      + (if lineIter == null then {} else {lineIter}) + (if lineAssem == null then {} else {lineAssem})
    }

    ghost predicate Valid()
      reads this, mut, mut.lines, lineIter, lineAssem
    {
      && mut.Valid() && mut.curCol == 0
      && (lineIter != null ==> lineIter.Valid())
      && (lineAssem != null ==> lineAssem.Valid() && !lineAssem.ended && lineAssem.raw != [])
    }

    // What has not been read of the line taken out.
    ghost function LineRest(): seq<Op>
      reads this, lineIter
      requires lineIter != null ==> lineIter.Valid()
    {
      if lineIter == null then [] else lineIter.Rest()
    }

    // What has been collected for the next line.
    ghost function Collected(): seq<Op>
      reads this, lineAssem
    {
      if lineAssem == null then [] else lineAssem.raw
    }

    ghost predicate Holds(cs: seq<Op>, att: seq<Op>, result: Doc)
      reads this, mut, mut.lines, lineAssem
    {
      Sound(stage, cs, att, Collected(), mut.Current(), mut.curLine, result)
    }

    constructor (lines: LineList<Op>, ghost s: Stage)
      ensures Valid() && fresh(Repr() - {lines}) && mut.lines == lines && stage == s
      ensures lineIter == null && lineAssem == null && mut.Current() == lines.items && mut.curLine == 0
    {
      mut := new TextLinesMutator(lines);
      lineIter, lineAssem := null, null;
      stage := s;
    }

    predicate LineHasNext()
      reads this, lineIter
      requires lineIter != null ==> lineIter.Valid()
      ensures LineHasNext() <==> LineRest() != []
    {
      lineIter != null && lineIter.HasNext()
    }

    predicate IsNextMutOp()
      reads this, mut, mut.lines, lineIter, lineAssem
      requires Valid()
      ensures IsNextMutOp() <==> LineRest() != [] || mut.curLine < |mut.Current()|
    {
      LineHasNext() || mut.HasMore()
    }

    // Takes the current line out of the document.
    method TakeLineOut(ghost cs: seq<Op>, ghost result: Doc)
      requires Valid() && LineRest() == [] && mut.curLine < |mut.Current()| && Holds(cs, [], result)
      modifies this, mut
      ensures Valid() && lineIter != null && fresh(lineIter) && lineAssem == old(lineAssem)
      ensures LineRest() != [] && Holds(cs, LineRest(), result) && stage.bank == old(stage.bank)
      ensures |Coming(stage, LineRest(), mut.Current(), mut.curLine)|
          == old(|Coming(stage, [], mut.Current(), mut.curLine)|)
    {
      hide Sound, TextLinesMutator<Op>.Valid, TextLinesMutator<Op>.Current, LinesRemoved, RemovedText,
           MergingOpAssembler.Valid, WithoutLine, Coming, AreLines, Fits;
      ghost var v, l := mut.Current(), mut.curLine;
      TakeLine(stage, cs, Collected(), v, l, result);
      OneLineRemoved(v, l);
      var line := mut.RemoveLines(1);
      lineIter := new OpIterator(line);
      stage := stage.(tlines := WithoutLine(stage.tlines, l), ta := stage.tlines[l]);
      SoundLine(stage, cs, line, Collected(), mut.Current(), l, result);
    }

    method NextMutOp(ghost cs: seq<Op>, ghost result: Doc) returns (destOp: Op)
      requires Valid() && Holds(cs, LineRest(), result)
      modifies this, mut, lineIter
      ensures Valid() && lineAssem == old(lineAssem) && (lineIter == old(lineIter) || fresh(lineIter))
      ensures Holds(cs, Live(destOp) + LineRest(), result) && stage.bank == old(stage.bank)
      ensures |Coming(stage, Live(destOp) + LineRest(), mut.Current(), mut.curLine)|
           == old(|Coming(stage, LineRest(), mut.Current(), mut.curLine)|)
      ensures destOp.opcode != NoOp <==> old(LineRest() != [] || mut.curLine < |mut.Current()|)
      ensures destOp.opcode == NoOp ==> LineRest() == [] && mut.curLine == |mut.Current()|
    {
      hide Sound, TextLinesMutator<Op>.Valid, TextLinesMutator<Op>.Current,
           MergingOpAssembler.Valid, Coming, AreLines, Fits, OpIterator.Rest;
      if !LineHasNext() && mut.HasMore() {
        TakeLineOut(cs, result);
      }
      if LineHasNext() {
        ghost var was := LineRest();
        HeadIsInsert(stage, cs, was, Collected(), mut.Current(), mut.curLine, result);
        destOp := lineIter.Next();
        assert was == [destOp] + LineRest();
        assert was[0] == destOp;
      } else {
        destOp := CLEAR;
        NoOpsInFront(LineRest());
      }
    }

    method OutputMutOp(op: Op, ghost x: string, ghost cs: seq<Op>, ghost att: seq<Op>, ghost result: Doc)
      requires Valid() && Putting(stage, op, x, cs, att, Collected(), mut.Current(), mut.curLine, result)
      modifies this, mut, lineAssem
      ensures Valid() && lineIter == old(lineIter)
          && (lineAssem == null || lineAssem == old(lineAssem) || fresh(lineAssem))
      ensures Holds(cs, att, result) && stage.bank == old(stage.bank) && LineRest() == old(LineRest())
      ensures |Coming(stage, att, mut.Current(), mut.curLine)| == old(|Coming(stage, att, mut.Current(), mut.curLine)|)
    {
      hide Sound, Putting, TextLinesMutator<Op>.Valid, TextLinesMutator<Op>.Current, LinesInserted,
           MergingOpAssembler.Valid, Coming, AreLines, Fits, OpFits, WithLine, Merged;
      ghost var part, v, l := Collected(), mut.Current(), mut.curLine;
      PuttingMeans(stage, op, x, cs, att, part, v, l, result);
      if lineAssem == null {
        lineAssem := new MergingOpAssembler();
      }
      lineAssem.Append(op);
      if op.lines > 0 {
        FinishLine(stage, op, x, cs, att, part, v, l, result);
        assert op.lines == 1;
        var line := lineAssem.ToString();
        LineNotEmpty(stage, op, x, cs, att, part, v, l, result);
        OneLineInserted(v, l, line);
        mut.Insert(line, 1, [line]);
        lineAssem := null;
        stage := stage.(tlines := WithLine(stage.tlines, l, stage.tp + x), tp := "");
      } else {
        PutInLine(stage, op, x, cs, att, part, v, l, result);
        PutInLineComing(stage, stage.(tp := stage.tp + x), att, v, l);
        stage := stage.(tp := stage.tp + x);
      }
    }
  }

  lemma OneLineRemoved(v: seq<seq<Op>>, l: nat)
    requires l < |v|
    ensures LinesRemoved(v, l, 0, 1) == WithoutLine(v, l) && RemovedText(v, l, 0, 1) == v[l]
  {
    assert v[l + 1..l + 1] == [] && v[l][0..] == v[l];
  }

  lemma OneLineInserted(v: seq<seq<Op>>, l: nat, line: seq<Op>)
    requires l <= |v|
    ensures LinesInserted(v, l, 0, [line]) == WithLine(v, l, line)
  {}

  lemma SoundLine(s: Stage, cs: seq<Op>, att: seq<Op>, part: seq<Op>, v: seq<seq<Op>>, l: nat, result: Doc)
    requires Sound(s, cs, att, part, v, l, result) && s.ta != ""
    ensures att != []
  {}

  lemma HeadIsInsert(s: Stage, cs: seq<Op>, att: seq<Op>, part: seq<Op>, v: seq<seq<Op>>, l: nat, result: Doc)
    requires Sound(s, cs, att, part, v, l, result) && att != []
    ensures att[0].opcode == Insert && 0 < att[0].chars
  {
    hide LineOk, Apply, DocTo, DocFrom, AreLines, LinesTrue, Newlines;
    OpOfLine(att[0], s.ta);
  }

  lemma PuttingMeans(s: Stage, out: Op, x: string, cs: seq<Op>, att: seq<Op>, part: seq<Op>,
                     v: seq<seq<Op>>, l: nat, result: Doc)
    requires Putting(s, out, x, cs, att, part, v, l, result)
    ensures out.opcode == Insert && 0 < out.chars && 0 <= out.lines && AreLines(s.tlines, v) && Fits(att, s.ta, [])
  {
    hide LineOk, Apply, DocTo, DocFrom, Fits, Newlines;
    TypedOne(out, x);
    PuttingCounts(out, x);
  }

  lemma LineNotEmpty(s: Stage, out: Op, x: string, cs: seq<Op>, att: seq<Op>, part: seq<Op>,
                     v: seq<seq<Op>>, l: nat, result: Doc)
    requires Putting(s, out, x, cs, att, part, v, l, result)
    ensures Merged(part + [out], false) != []
  {
    hide LineOk, Apply, DocTo, DocFrom, Fits, Newlines, Merged, OpFits, LinesTrue;
    TypeMore(part, s.tp, out, x);
    LineWritten(part + [out], s.tp + x);
    PuttingCounts(out, x);
    EmptyBank(s.tp + x);
  }

  lemma EmptyBank(x: string)
    ensures Fits([], x, []) ==> x == ""
  {}

  lemma PutInLineComing(s: Stage, s': Stage, att: seq<Op>, v: seq<seq<Op>>, l: nat)
    requires AreLines(s.tlines, v) && Fits(att, s.ta, []) && s'.tlines == s.tlines && s'.ta == s.ta
    ensures Coming(s', att, v, l) == Coming(s, att, v, l)
  {}

  // ---------- the loop

  // `csBank.indexOf('\n', from)`
  method IndexOfNewline(s: string, from: nat) returns (i: int)
    requires from <= |s|
    ensures i == -1 || from <= i < |s|
    ensures i >= 0 ==> s[i] == '\n' && forall j :: from <= j < i ==> s[j] != '\n'
    ensures i == -1 ==> forall j :: from <= j < |s| ==> s[j] != '\n'
  {
    i := from;
    while i < |s| && s[i] != '\n'
      invariant from <= i <= |s| && forall j :: from <= j < i ==> s[j] != '\n'
    {
      i := i + 1;
    }
    if i == |s| { i := -1; }
  }

  lemma SoundMeans(s: Stage, cs: seq<Op>, att: seq<Op>, part: seq<Op>, v: seq<seq<Op>>, l: nat, result: Doc)
    requires Sound(s, cs, att, part, v, l, result)
    ensures AreLines(s.tlines, v) && Fits(att, s.ta, []) && l <= |v|
    ensures cs != [] ==> OpFits(cs[0], s.bank, Coming(s, att, v, l)) && 0 < cs[0].chars && cs[0].opcode != NoOp
  {
    hide LineOk, Apply, DocTo, DocFrom, AreLines, LinesTrue, Newlines, Coming;
  }

  method SkipWholeLines(r: LineRewriter, csOp: Op, ghost rest: seq<Op>, ghost result: Doc)
    requires r.Valid() && r.lineAssem == null && r.LineRest() == [] && r.Holds([csOp] + rest, [], result)
    requires csOp.opcode == Keep && csOp.lines > 0 && csOp.attribs == []
    modifies r.mut, r.mut.lines
    ensures r.Valid() && r.Holds(rest, [], result) && r.LineRest() == []
    ensures |Coming(r.stage, [], r.mut.Current(),
        r.mut.curLine)| < old(|Coming(r.stage, [], r.mut.Current(), r.mut.curLine)|)
  {
    hide Sound, TextLinesMutator<Op>.Valid, TextLinesMutator<Op>.Current, Coming, AreLines, Fits;
    SkipWhole(r.stage, csOp, rest, r.mut.Current(), r.mut.curLine, result);
    SoundMeans(r.stage, [csOp] + rest, [], [], r.mut.Current(), r.mut.curLine, result);
    SoundMeans(r.stage, rest, [], [], r.mut.Current(), r.mut.curLine + csOp.lines, result);
    r.mut.SkipLines(csOp.lines, false);
  }

  // The next line of an insertion, or the insertion itself if it has no more than one.
  method TakePiece(op: Op, csBank: string, index: nat) returns (csOp: Op, opOut: Op)
    requires op.opcode == Insert && index <= |csBank| && OpFits(op, csBank[index..], [])
    ensures 0 < opOut.chars <= op.chars && opOut.lines <= 1 && opOut == Part(op, opOut.chars, opOut.lines)
    ensures opOut.chars <= |csBank| - index && OpFits(opOut, csBank[index..], [])
    ensures Live(csOp) == Leftover(op, opOut.chars, opOut.lines) && (csOp.opcode == NoOp || csOp.opcode == Insert)
  {
    hide OpFits, LinesTrue;
    InsertAlone(op, csBank[index..], []);
    csOp := op;
    opOut := op;
    if csOp.lines > 1 {
      NewlineSomewhere(op, csBank[index..]);
      ghost var i :| 0 <= i < |csBank[index..]| && csBank[index..][i] == '\n';
      assert csBank[index + i] == '\n';
      var newline := IndexOfNewline(csBank, index);
      var firstLineLen := newline + 1 - index;
      FirstLineOf(op, csBank[index..], firstLineLen - 1);
      csOp := csOp.(chars := csOp.chars - firstLineLen, lines := csOp.lines - 1);
      opOut := opOut.(lines := 1, chars := firstLineLen);
    } else {
      csOp := csOp.(opcode := NoOp);
    }
  }

  method InsertNext(r: LineRewriter, op: Op, ghost rest: seq<Op>, ghost att: seq<Op>, csBank: string, index: nat,
      ghost result: Doc)
    returns (csOp: Op, csBankIndex: nat)
    requires r.Valid() && index <= |csBank| && r.stage.bank == csBank[index..]
    requires op.opcode == Insert && r.Holds([op] + rest, att, result)
    modifies r, r.mut, r.lineAssem
    ensures r.Valid() && r.lineIter == old(r.lineIter) && r.LineRest() == old(r.LineRest())
    ensures r.lineAssem == null || r.lineAssem == old(r.lineAssem) || fresh(r.lineAssem)
    ensures csBankIndex <= |csBank| && r.stage.bank == csBank[csBankIndex..] && index < csBankIndex
    ensures r.Holds(Live(csOp) + rest, att, result) && (csOp.opcode == NoOp || csOp.opcode == Insert)
    ensures |Coming(r.stage, att, r.mut.Current(), r.mut.curLine)|
        == old(|Coming(r.stage, att, r.mut.Current(), r.mut.curLine)|)
  {
    hide Sound, Putting, TextLinesMutator<Op>.Valid, TextLinesMutator<Op>.Current, Coming, AreLines, Fits, OpFits,
         LinesTrue,
         MergingOpAssembler.Valid, OpIterator.Rest, Leftover;
    ghost var s, part, v, l := r.stage, r.Collected(), r.mut.Current(), r.mut.curLine;
    SoundMeans(s, [op] + rest, att, part, v, l, result);
    Front(op, rest);
    InsertAlone(op, s.bank, Coming(s, att, v, l));
    var opOut;
    csOp, opOut := TakePiece(op, csBank, index);
    PieceTaken(s, op, rest, att, part, v, l, result, csOp, opOut);
    DropTwice(csBank, index, opOut.chars);
    r.stage := s.(bank := s.bank[opOut.chars..]);
    r.OutputMutOp(opOut, s.bank[..opOut.chars], Live(csOp) + rest, att, result);
    csBankIndex := index + opOut.chars;
  }

  lemma PieceTaken(s: Stage, op: Op, rest: seq<Op>, att: seq<Op>, part: seq<Op>, v: seq<seq<Op>>, l: nat, result: Doc,
                   csOp: Op, opOut: Op)
    requires Sound(s, [op] + rest, att, part, v, l, result) && op.opcode == Insert && opOut.lines <= 1
    requires 0 < opOut.chars <= op.chars && opOut == Part(op, opOut.chars, opOut.lines) && OpFits(opOut, s.bank, [])
    requires Live(csOp) == Leftover(op, opOut.chars, opOut.lines)
    ensures opOut.chars <= |s.bank|
    ensures var s' := s.(bank := s.bank[opOut.chars..]);
            && Putting(s', opOut, s.bank[..opOut.chars], Live(csOp) + rest, att, part, v, l, result)
            && AreLines(s.tlines, v) && Fits(att, s.ta, []) && Coming(s', att, v, l) == Coming(s, att, v, l)
  {
    hide Sound, Putting, Coming, AreLines, Fits, OpFits, LinesTrue;
    SoundMeans(s, [op] + rest, att, part, v, l, result);
    Front(op, rest);
    InsertPiece(s, [op] + rest, att, part, v, l, result, opOut.chars, opOut.lines);
    ChopLive(op, rest, opOut.chars, opOut.lines);
    NoOpsInFront(rest);
    SameComing(s, s.(bank := s.bank[opOut.chars..]), att, v, l);
  }

  lemma InsertAlone(op: Op, bank: string, d: Doc)
    requires op.opcode == Insert && OpFits(op, bank, d)
    ensures OpFits(op, bank, []) && 0 < op.chars <= |bank| && LinesTrue(op.lines, bank[..op.chars])
  {}

  lemma NewlineSomewhere(op: Op, bank: string)
    requires op.opcode == Insert && OpFits(op, bank, []) && op.lines > 1
    ensures exists i :: 0 <= i < |bank| && bank[i] == '\n'
  {
    HasNewline(bank[..op.chars]);
    var i :| 0 <= i < op.chars && bank[..op.chars][i] == '\n';
    assert bank[i] == '\n';
  }

  lemma SameComing(s: Stage, s': Stage, att: seq<Op>, v: seq<seq<Op>>, l: nat)
    requires AreLines(s.tlines, v) && Fits(att, s.ta, []) && s'.tlines == s.tlines && s'.ta == s.ta
    ensures Coming(s', att, v, l) == Coming(s, att, v, l)
  {}

  // The zipper on the current op of the line and that of the changeset.
  method ZipNext(r: LineRewriter, op: Op, ghost rest: seq<Op>, o: Op, ghost result: Doc) returns (csOp: Op, attOp: Op)
    requires r.Valid() && op.opcode != Insert && (op.opcode == NoOp ==> rest == [])
    requires o.opcode != NoOp || r.IsNextMutOp() || op.opcode != NoOp
    requires r.Holds(Live(op) + rest, Live(o) + r.LineRest(), result)
    modifies r, r.mut, r.lineIter, r.lineAssem
    ensures r.Valid() && r.stage.bank == old(r.stage.bank)
    ensures r.lineIter == old(r.lineIter) || r.lineIter == null || fresh(r.lineIter)
    ensures r.lineAssem == null || r.lineAssem == old(r.lineAssem) || fresh(r.lineAssem)
    ensures r.Holds(Live(csOp) + rest, Live(attOp) + r.LineRest(), result)
    ensures (csOp.opcode == NoOp || csOp.opcode == op.opcode)
    ensures |Coming(r.stage, Live(attOp) + r.LineRest(), r.mut.Current(), r.mut.curLine)|
          < old(|Coming(r.stage, Live(o) + r.LineRest(), r.mut.Current(), r.mut.curLine)|)
  {
    hide Sound, Putting, TextLinesMutator<Op>.Valid, TextLinesMutator<Op>.Current, Coming, AreLines, Fits, OpFits,
         LinesTrue,
         MergingOpAssembler.Valid, OpIterator.Rest, Zipped, ComposeAttributes;
    var a := LoadMutOp(r, Live(op) + rest, o, result);
    ghost var s, part, v, l, more := r.stage, r.Collected(), r.mut.Current(), r.mut.curLine, r.LineRest();
    SomethingThere(s, op, rest, a, more, part, v, l, result);
    var opOut;
    attOp, csOp, opOut := SlicerZipper(a, op, [], [], "", "");
    ghost var x;
    s, x := Zip(s, op, rest, a, more, part, v, l, result, csOp, attOp, opOut);
    PutOut(r, opOut, x, s, Live(csOp) + rest, Live(attOp) + more, result);
  }

  // Loads the next op of the document if the current one is used up.
  method LoadMutOp(r: LineRewriter, ghost cs: seq<Op>, o: Op, ghost result: Doc) returns (attOp: Op)
    requires r.Valid() && r.Holds(cs, Live(o) + r.LineRest(), result)
    modifies r, r.mut, r.lineIter
    ensures r.Valid() && r.stage.bank == old(r.stage.bank) && r.lineAssem == old(r.lineAssem)
    ensures r.lineIter == old(r.lineIter) || fresh(r.lineIter)
    ensures r.Holds(cs, Live(attOp) + r.LineRest(), result)
    ensures attOp.opcode == NoOp ==> r.LineRest() == [] && r.mut.curLine == |r.mut.Current()|
    ensures old(o.opcode != NoOp || r.IsNextMutOp()) ==> attOp.opcode != NoOp
    ensures |Coming(r.stage, Live(attOp) + r.LineRest(), r.mut.Current(), r.mut.curLine)|
         == old(|Coming(r.stage, Live(o) + r.LineRest(), r.mut.Current(), r.mut.curLine)|)
  {
    hide Sound, TextLinesMutator<Op>.Valid, TextLinesMutator<Op>.Current, Coming, AreLines, Fits,
         MergingOpAssembler.Valid, OpIterator.Rest;
    attOp := o;
    NoOpsInFront(r.LineRest());
    SoundMeans(r.stage, cs, Live(o) + r.LineRest(), r.Collected(), r.mut.Current(), r.mut.curLine, result);
    if attOp.opcode == NoOp && r.IsNextMutOp() {
      attOp := r.NextMutOp(cs, result);
    }
  }

  // Puts out what the zipper produced, if anything.
  method PutOut(r: LineRewriter, opOut: Op, ghost x: string, ghost s: Stage, ghost cs: seq<Op>, ghost att: seq<Op>,
      ghost result: Doc)
    requires r.Valid() && s.bank == r.stage.bank
    requires opOut.opcode != NoOp
        ==> Putting(s, opOut, x, cs, att, r.Collected(), r.mut.Current(), r.mut.curLine, result)
    requires opOut.opcode == NoOp ==> Sound(s, cs, att, r.Collected(), r.mut.Current(), r.mut.curLine, result)
    requires AreLines(s.tlines, r.mut.Current()) && Fits(att, s.ta, [])
    modifies r, r.mut, r.lineAssem
    ensures r.Valid() && r.stage.bank == old(r.stage.bank) && r.lineIter == old(r.lineIter)
        && r.LineRest() == old(r.LineRest())
    ensures r.lineAssem == null || r.lineAssem == old(r.lineAssem) || fresh(r.lineAssem)
    ensures r.Holds(cs, att, result)
    ensures |Coming(r.stage, att, r.mut.Current(), r.mut.curLine)|
        == old(|Coming(s, att, r.mut.Current(), r.mut.curLine)|)
  {
    hide Sound, Putting, TextLinesMutator<Op>.Valid, TextLinesMutator<Op>.Current, Coming, AreLines, Fits,
         MergingOpAssembler.Valid, OpIterator.Rest;
    r.stage := s;
    if opOut.opcode != NoOp {
      r.OutputMutOp(opOut, x, cs, att, result);
    }
  }

  lemma SomethingThere(s: Stage, op: Op, rest: seq<Op>, a: Op, more: seq<Op>, part: seq<Op>, v: seq<seq<Op>>, l: nat,
      result: Doc)
    requires Sound(s, Live(op) + rest, Live(a) + more, part, v, l, result) && op.opcode != Insert
    requires a.opcode == NoOp ==> op.opcode != NoOp && more == [] && l == |v|
    ensures a.opcode == Insert && 0 < a.chars
    ensures op.opcode != NoOp ==> 0 < op.chars
  {
    hide LineOk, Apply, DocTo, AreLines, LinesTrue, Newlines, Fits, Coming;
    if op.opcode != NoOp {
      Front(op, rest);
      SoundMeans(s, Live(op) + rest, Live(a) + more, part, v, l, result);
      FitBounds(op, s.bank, Coming(s, Live(a) + more, v, l));
    }
    if a.opcode == NoOp {
      NoOpsInFront(more);
      NoAtt(s, v, l);
      SameLengths(s.tlines, v);
    } else {
      Front(a, more);
      HeadIsInsert(s, Live(op) + rest, Live(a) + more, part, v, l, result);
    }
  }

  // The state after the zipper, and the text of the op it put out.
  lemma Zip(s: Stage, op: Op, rest: seq<Op>, a: Op, more: seq<Op>, part: seq<Op>, v: seq<seq<Op>>, l: nat, result: Doc,
            op': Op, a': Op, out: Op)
    returns (s': Stage, x: string)
    requires Sound(s, Live(op) + rest, Live(a) + more, part, v, l, result)
    requires op.opcode != Insert && (op.opcode == NoOp ==> rest == []) && a.opcode == Insert
        && Zipped(a, op, a', op', out)
    ensures s'.bank == s.bank && AreLines(s'.tlines, v) && Fits(Live(a') + more, s'.ta, [])
    ensures out.opcode != NoOp ==> Putting(s', out, x, Live(op') + rest, Live(a') + more, part, v, l, result)
    ensures out.opcode == NoOp ==> Sound(s', Live(op') + rest, Live(a') + more, part, v, l, result)
    ensures AreLines(s.tlines, v) && Fits(Live(a) + more, s.ta, [])
    ensures |Coming(s', Live(a') + more, v, l)| < |Coming(s, Live(a) + more, v, l)|
  {
    hide Sound, Coming, AreLines, Fits, ComposeAttributes, Putting;
    SoundMeans(s, Live(op) + rest, Live(a) + more, part, v, l, result);
    var k;
    if op.opcode == NoOp {
      NoOpsInFront(rest);
      NoOpsInFront(more);
      k := a.chars;
      CopyStep(s, a, more, part, v, l, result);
      PuttingMeans(s.(ta := s.ta[k..]), a, s.ta[..k], [], more, part, v, l, result);
    } else {
      k := if op.chars <= a.chars then op.chars else a.chars;
      ZipStep(s, a, more, op, rest, part, v, l, result, a', op', out);
    }
    s', x := s.(ta := s.ta[k..]), s.ta[..k];
  }

  // What the loop keeps: what has been made and what is to come give the result.
  ghost predicate Going(r: LineRewriter, cs: seq<Op>, attOp: Op, csBank: string, index: nat, result: Doc)
    reads r, r.mut, r.mut.lines, r.lineIter, r.lineAssem
  {
    && r.Valid() && index <= |csBank| && r.stage.bank == csBank[index..]
    && r.Holds(cs, Live(attOp) + r.LineRest(), result)
  }

  // How much is left to do.
  ghost function Left(r: LineRewriter, attOp: Op): int
    reads r, r.mut, r.mut.lines, r.lineIter, r.lineAssem
  {
    if r.Valid() && AreLines(r.stage.tlines, r.mut.Current()) && Fits(Live(attOp) + r.LineRest(), r.stage.ta, []) then
      |r.stage.bank| + |Coming(r.stage, Live(attOp) + r.LineRest(), r.mut.Current(), r.mut.curLine)|
    else -1
  }

  ghost predicate Finished(r: LineRewriter, csOp: Op, attOp: Op)
    reads r, r.mut, r.mut.lines, r.lineIter, r.lineAssem
    requires r.Valid()
  {
    csOp.opcode == NoOp && attOp.opcode == NoOp && r.lineAssem == null && r.LineRest() == []
  }

  // One turn of the loop.
  method RewriteNext(r: LineRewriter, o: Op, a: Op, csIter: OpIterator, csBank: string, index: nat, ghost result: Doc)
    returns (csOp: Op, attOp: Op, csBankIndex: nat, done: bool)
    requires csIter.Valid() && csIter !in r.Repr()
    requires Going(r, Live(o) + csIter.Rest(), a, csBank, index, result)
    requires o.opcode != NoOp || csIter.HasNext() || a.opcode != NoOp || r.IsNextMutOp()
    modifies csIter, r, r.mut, r.mut.lines, r.lineIter, r.lineAssem
    ensures csIter.Valid() && r.Valid() && fresh(r.Repr() - old(r.Repr()))
    ensures Going(r, Live(csOp) + csIter.Rest(), attOp, csBank, csBankIndex, result)
    ensures !done ==> 0 <= Left(r, attOp) < old(Left(r, a))
    ensures done ==> csOp.opcode == NoOp && csIter.Rest() == [] && Finished(r, csOp, attOp)
  {
    hide Sound, TextLinesMutator<Op>.Valid, TextLinesMutator<Op>.Current, Coming, AreLines, Fits, OpFits, LinesTrue,
         MergingOpAssembler.Valid, OpIterator.Rest, Zipped, ComposeAttributes;
    csOp, attOp, csBankIndex, done := o, a, index, false;
    GoingMeans(r, Live(o) + csIter.Rest(), a, csBank, index, result);
    if csOp.opcode == NoOp && csIter.HasNext() {
      ghost var was := csIter.Rest();
      csOp := csIter.Next();
      LoadedOp(r, o, was, csOp, csIter.Rest(), a, csBank, index, result);
    }
    ghost var rest := csIter.Rest();
    if csOp.opcode == NoOp && attOp.opcode == NoOp && r.lineAssem == null && !r.LineHasNext() {
      done := true;
    } else if csOp.opcode == Keep && csOp.lines > 0 && csOp.attribs == [] && attOp.opcode == NoOp
              && r.lineAssem == null && !r.LineHasNext() {
      NoOpsInFront(r.LineRest());
      NoOpsInFront(rest);
      SkipWholeLines(r, csOp, rest, result);
      NoOpsInFront(r.LineRest());
      csOp := csOp.(opcode := NoOp);
    } else if csOp.opcode == Insert {
      csOp, csBankIndex := InsertNext(r, csOp, rest, Live(attOp) + r.LineRest(), csBank, index, result);
    } else {
      csOp, attOp := ZipNext(r, csOp, rest, attOp, result);
    }
    GoingMeans(r, Live(csOp) + rest, attOp, csBank, csBankIndex, result);
  }

  lemma GoingMeans(r: LineRewriter, cs: seq<Op>, attOp: Op, csBank: string, index: nat, result: Doc)
    requires Going(r, cs, attOp, csBank, index, result)
    ensures AreLines(r.stage.tlines, r.mut.Current()) && Fits(Live(attOp) + r.LineRest(), r.stage.ta, [])
    ensures 0 <= Left(r, attOp)
  {
    hide Sound, Coming, AreLines, Fits, TextLinesMutator<Op>.Valid, TextLinesMutator<Op>.Current,
         MergingOpAssembler.Valid, OpIterator.Rest;
    SoundMeans(r.stage, cs, Live(attOp) + r.LineRest(), r.Collected(), r.mut.Current(), r.mut.curLine, result);
  }

  lemma LoadedOp(r: LineRewriter, o: Op, was: seq<Op>, op: Op, rest: seq<Op>, attOp: Op, csBank: string, index: nat,
      result: Doc)
    requires Going(r, Live(o) + was, attOp, csBank, index, result) && o.opcode == NoOp && was == [op] + rest
    ensures op.opcode != NoOp && Going(r, Live(op) + rest, attOp, csBank, index, result)
  {
    hide Sound, Coming, AreLines, Fits, TextLinesMutator<Op>.Valid, TextLinesMutator<Op>.Current,
         MergingOpAssembler.Valid, OpIterator.Rest;
    NoOpsInFront(was);
    Front(op, rest);
    SoundMeans(r.stage, was, Live(attOp) + r.LineRest(), r.Collected(), r.mut.Current(), r.mut.curLine, result);
  }

  lemma StartRewriting(cs: Changeset, tlines: seq<string>, v: seq<seq<Op>>) returns (result: Doc)
    requires AreLines(tlines, v) && IsFor(cs, TextFrom(tlines, 0))
    ensures Fits(cs.ops, cs.bank, DocFrom(tlines, v, 0)) && result == After(cs, DocFrom(tlines, v, 0))
    ensures Sound(Stage(tlines, "", "", cs.bank), cs.ops, [], [], v, 0, result)
    ensures result != [] && result[|result| - 1].ch == '\n'
  {
    hide Fits, Apply, IsFor, AreLines, DocFrom, Text;
    var d := DocFrom(tlines, v, 0);
    DocFromText(tlines, v, 0);
    OnDocument(cs, TextFrom(tlines, 0), d);
    result := After(cs, d);
    SoundAtStart(cs, tlines, v, result);
    EndsAfter(cs, tlines, v);
  }

  lemma SoundAtStart(cs: Changeset, tlines: seq<string>, v: seq<seq<Op>>, result: Doc)
    requires AreLines(tlines, v) && Fits(cs.ops, cs.bank, DocFrom(tlines, v, 0))
        && result == After(cs, DocFrom(tlines, v, 0))
    ensures Sound(Stage(tlines, "", "", cs.bank), cs.ops, [], [], v, 0, result)
  {
    hide Fits, Apply, LineOk, DocFrom, DocTo, Newlines, AreLines;
    var s := Stage(tlines, "", "", cs.bank);
    NothingTyped();
    NoAtt(s, v, 0);
    MadeAtLine(s, v, 0);
    NoDocBefore(tlines, v);
    NoOpsFirst(result);
  }

  lemma EndsAfter(cs: Changeset, tlines: seq<string>, v: seq<seq<Op>>)
    requires AreLines(tlines, v) && IsFor(cs, TextFrom(tlines, 0)) && Text(DocFrom(tlines, v, 0)) == TextFrom(tlines, 0)
    requires Fits(cs.ops, cs.bank, DocFrom(tlines, v, 0))
    ensures var result := After(cs, DocFrom(tlines, v, 0)); result != [] && result[|result| - 1].ch == '\n'
  {
    hide Fits, Apply, Normal, AreLines, DocFrom, TextFrom, Text, Safe;
    var d := DocFrom(tlines, v, 0);
    SomeText(d, TextFrom(tlines, 0));
    NothingFrom(tlines, v, 0);
    DocEndsLine(tlines, v, 0);
    SafeKeepsLast(cs.ops, cs.bank, d);
  }

  lemma NoDocBefore(t: seq<string>, v: seq<seq<Op>>)
    requires AreLines(t, v)
    ensures DocTo(t, v, 0) == []
  {}

  lemma SomeText(d: Doc, t: string)
    requires Text(d) == t && t != ""
    ensures d != []
  {}

  lemma StartGoing(cs: Changeset, r: LineRewriter, result: Doc)
    requires r.Valid() && r.lineIter == null && r.lineAssem == null && r.stage.bank == cs.bank
    requires Sound(r.stage, cs.ops, [], [], r.mut.Current(), r.mut.curLine, result)
    ensures Going(r, cs.ops, CLEAR, cs.bank, 0, result)
  {
    hide Sound;
    assert Live(CLEAR) + r.LineRest() == [];
    assert cs.bank[0..] == cs.bank;
  }

  lemma EndRewriting(r: LineRewriter, csOp: Op, csRest: seq<Op>, attOp: Op, csBank: string, index: nat, done: bool,
      result: Doc)
    requires Going(r, Live(csOp) + csRest, attOp, csBank, index, result) && csRest == [] && csOp.opcode == NoOp
    requires if done then Finished(r, csOp, attOp) else attOp.opcode == NoOp && !r.IsNextMutOp()
    requires result != [] && result[|result| - 1].ch == '\n'
    ensures r.mut.Valid() && r.lineAssem == null
    ensures AreLines(r.stage.tlines, r.mut.Current()) && DocFrom(r.stage.tlines, r.mut.Current(), 0) == result
  {
    hide Sound, Coming, AreLines, Fits, DocFrom, TextLinesMutator<Op>.Valid, TextLinesMutator<Op>.Current,
         MergingOpAssembler.Valid, OpIterator.Rest;
    assert Live(csOp) + csRest == [] && Live(attOp) + r.LineRest() == [];
    SoundMeans(r.stage, [], [], r.Collected(), r.mut.Current(), r.mut.curLine, result);
    if !done {
      NothingPending(r.stage, r.Collected(), r.mut.Current(), r.mut.curLine, result);
    }
    AllMade(r.stage, r.mut.Current(), r.mut.curLine, result);
  }

  // The lines become those of the changed document: `tlines` are their texts before, `tlines'` after.
  method MutateAttributionLines(cs: Changeset, lines: LineList<Op>, ghost tlines: seq<string>)
    returns (ghost tlines': seq<string>)
    requires AreLines(tlines, lines.items) && IsFor(cs, TextFrom(tlines, 0))
    modifies lines
    ensures AreLines(tlines', lines.items)
    ensures Fits(cs.ops, cs.bank, DocFrom(tlines, old(lines.items), 0))
    ensures DocFrom(tlines', lines.items, 0) == After(cs, DocFrom(tlines, old(lines.items), 0))
  {
    hide Sound, Going, Left, AreLines, Fits, Apply, IsFor, DocFrom, TextFrom, Finished,
         LineRewriter.Valid, OpIterator.Rest, OpIterator.Valid;
    ghost var result := StartRewriting(cs, tlines, lines.items);
    var csIter := new OpIterator(cs.ops);
    var r := new LineRewriter(lines, Stage(tlines, "", "", cs.bank));
    var csOp, attOp, csBankIndex := CLEAR, CLEAR, 0;
    StartGoing(cs, r, result);
    NoOpsInFront(cs.ops);
    var done := false;
    while !done && (csOp.opcode != NoOp || csIter.HasNext() || attOp.opcode != NoOp || r.IsNextMutOp())
      invariant csIter.Valid() && fresh(csIter) && csIter !in r.Repr() && fresh(r) && r.mut.lines == lines
      invariant r.Valid() && fresh(r.Repr() - {lines})
      invariant Going(r, Live(csOp) + csIter.Rest(), attOp, cs.bank, csBankIndex, result)
      invariant done ==> csOp.opcode == NoOp && csIter.Rest() == [] && Finished(r, csOp, attOp)
      decreases !done, Left(r, attOp)
    {
      csOp, attOp, csBankIndex, done := RewriteNext(r, csOp, attOp, csIter, cs.bank, csBankIndex, result);
    }
    EndRewriting(r, csOp, csIter.Rest(), attOp, cs.bank, csBankIndex, done, result);
    assert r.lineAssem == null;
    tlines' := r.stage.tlines;
    r.mut.Close();
  }
}
