/** The cursor `inverse` moves over the lines of the old document. */
module InverseCursor {
  import opened Attributes
  import opened Changesets
  import opened Composition
  import opened Views
  import opened Algebra
  import opened Zipping
  import opened Inversion
  import opened InversionSteps
  import opened DocLines

  // ---------- runs taken off an attribution

  // `ops` are what is left of an attribution whose text from here on is `text`.
  ghost predicate Attributing(ops: seq<Op>, text: string, d: Doc) {
    Fits(ops, text, []) && Apply(ops, text, []) == d
  }

  lemma TakeRun(op: Op, rest: seq<Op>, text: string, d: Doc, k: int)
    requires Attributing([op] + rest, text, d) && 0 < k <= op.chars
    requires LinesTrue(1, text) && (forall n: nat | n < |text| :: LinesTrue(0, text[..n]))
    ensures op.opcode == Insert && op.chars <= |text| == |d|
    ensures IsRun(Run(k, op.attribs, k == op.chars && op.lines > 0), d[..k])
    ensures Attributing((if k == op.chars then [] else [op.(chars := op.chars - k)]) + rest, text[k..], d[k..])
  {
    hide Fits, Apply, LinesTrue, Typed, IsRun, OpFits, Emit;
    Unfold([op] + rest, text, []);
    NoOpsInFront(rest);
    assert ([op] + rest)[0] == op && ([op] + rest)[1..] == rest;
    FitBounds(op, text, []);
    OpOfLine(op, text);
    var l := if k == op.chars then op.lines else 0;
    PartOfLine(op, text, k, l);
    CutHead([op] + rest, text, [], k, l);
    ChopLive(op, rest, k, l);
    AttributesText([op] + rest, text, d);
    var part, more := Typed(text[..k], op.attribs), Apply(Chop([op] + rest, k, l), text[k..], []);
    TypedRun(op, text, k);
    assert d == part + more;
    assert d[..k] == part && d[k..] == more;
  }

  lemma TypedRun(op: Op, text: string, k: int)
    requires 0 < k <= |text| && LinesTrue(if k == op.chars && op.lines > 0 then 1 else 0, text[..k])
    ensures IsRun(Run(k, op.attribs, k == op.chars && op.lines > 0), Typed(text[..k], op.attribs))
    ensures |Typed(text[..k], op.attribs)| == k
  {
    hide LinesTrue;
    assert Text(Typed(text[..k], op.attribs)) == text[..k];
  }

  lemma AttributesText(ops: seq<Op>, text: string, d: Doc)
    requires Attributing(ops, text, d)
    ensures Text(d) == text
  {
    hide Fits, Apply, ApplyText;
    TextOfApply(ops, text, []);
    TypedAsGivenText(ops, text);
    assert Text([]) == "";
  }

  lemma OpOfLine(op: Op, text: string)
    requires OpFits(op, text, [])
    ensures op.opcode == Insert && 0 < op.chars <= |text| && LinesTrue(op.lines, text[..op.chars])
  {}

  lemma PartOfLine(op: Op, text: string, k: int, l: int)
    requires op.opcode == Insert && 0 < k <= op.chars <= |text| && LinesTrue(op.lines, text[..op.chars])
    requires LinesTrue(1, text) && (forall n: nat | n < |text| :: LinesTrue(0, text[..n]))
    requires l == if k == op.chars then op.lines else 0
    ensures OpFits(Part(op, k, l), text, []) && Emit(Part(op, k, l), text, []) == Typed(text[..k], op.attribs)
    ensures LinesTrue(if k == op.chars && op.lines > 0 then 1 else 0, text[..k])
  {
    hide Newlines, Typed;
    if op.chars == |text| { assert text[..op.chars] == text; }
    if k < |text| { assert LinesTrue(0, text[..k]); }
  }

  lemma {:induction false} RunsSnoc(runs: seq<Run>, d: Doc, r: Run, e: Doc)
    requires AreRuns(runs, d) && IsRun(r, e)
    ensures AreRuns(runs + [r], d + e)
    decreases |runs|
  {
    hide IsRun;
    if runs == [] {
      assert runs + [r] == [r] && d + e == e && e[..|e|] == e && e[|e|..] == [];
      RunLength(r, e);
      assert [r][1..] == [];
    } else {
      var k := runs[0].len;
      RunsSnoc(runs[1..], d[k..], r, e);
      assert (runs + [r])[1..] == runs[1..] + [r];
      assert (d + e)[..k] == d[..k] && (d + e)[k..] == d[k..] + e;
    }
  }

  lemma RunLength(r: Run, d: Doc)
    requires IsRun(r, d)
    ensures 0 < r.len == |d|
  {}

  // ---------- the cursor

  class Cursor {
    const lines: seq<string>
    const alines: seq<seq<Op>>
    var curLine: nat
    var curChar: nat
    // the ops of line curLineOpIterLine that have not been read, once iteration has begun
    var iterating: bool
    var curLineOpIter: seq<Op>
    var curLineOpIterLine: nat
    var curLineNextOp: Op

    // What has been read of the current op is gone from it.
    function Unread(): seq<Op>
      reads this
    {
      (if curLineNextOp.chars > 0 then [curLineNextOp] else []) + curLineOpIter
    }

    // Also holds at the end of a line, before the cursor has moved on.
    ghost predicate Loose()
      reads this
    {
      && AreLines(lines, alines) && curLine <= |lines|
      && (if curLine < |lines| then curChar <= |lines[curLine]| else curChar == 0)
      && 0 <= curLineNextOp.chars
      && (iterating ==> curLineOpIterLine <= curLine)
      && (iterating && curLineOpIterLine == curLine ==>
            && curLine < |lines| && curChar <= |LineDoc(lines, alines, curLine)|
            && Attributing(Unread(), lines[curLine][curChar..], LineDoc(lines, alines, curLine)[curChar..]))
    }

    ghost predicate Valid()
      reads this
    {
      Loose() && (curLine < |lines| ==> curChar < |lines[curLine]|)
    }

    // What is left of the document.
    ghost function Rest(): Doc
      reads this
      requires Loose()
    {
      DocAhead(lines, alines, curLine, curChar)
    }

    constructor (oldLines: seq<string>, oldALines: seq<seq<Op>>)
      requires AreLines(oldLines, oldALines)
      ensures Valid() && lines == oldLines && alines == oldALines && Rest() == DocFrom(oldLines, oldALines, 0)
    {
      lines, alines := oldLines, oldALines;
      curLine, curChar := 0, 0;
      iterating, curLineOpIter, curLineOpIterLine := false, [], 0;
      curLineNextOp := Op(Insert, 0, 0, []);
      new;
      AheadAtLine(lines, alines, 0);
    }

    // Creates the iterator and advances it to curChar.
    method StartLine()
      requires Valid() && curLine < |lines|
      modifies this
      ensures Valid() && iterating && curLineOpIterLine == curLine && curLine == old(curLine) && curChar == old(curChar)
    {
      hide Fits, Apply, LinesTrue, Text, LineOk;
      ghost var line, text := LineDoc(lines, alines, curLine), lines[curLine];
      LineDocText(lines, alines, curLine);
      curLineOpIter := alines[curLine];
      curLineOpIterLine := curLine;
      iterating := true;
      var indexIntoLine := 0;
      var done := false;
      assert text[0..] == text && line[0..] == line;
      while !done
        invariant 0 <= indexIntoLine <= curChar && iterating && curLineOpIterLine == curLine
        invariant curLine == old(curLine) && curChar == old(curChar)
        invariant !done ==> Attributing(curLineOpIter, text[indexIntoLine..], line[indexIntoLine..])
        invariant done ==> 0 <= curLineNextOp.chars && Attributing(Unread(), text[curChar..], line[curChar..])
        decreases !done, |curLineOpIter|
      {
        SomethingLeft(curLineOpIter, text[indexIntoLine..], line[indexIntoLine..]);
        ghost var ahead := curLineOpIter;
        curLineNextOp := curLineOpIter[0];
        curLineOpIter := curLineOpIter[1..];
        assert ahead == [curLineNextOp] + curLineOpIter;
        if indexIntoLine + curLineNextOp.chars >= curChar {
          SkipInLine(curLineNextOp, curLineOpIter, text, line, indexIntoLine, curChar - indexIntoLine);
          curLineNextOp := curLineNextOp.(chars := curLineNextOp.chars - (curChar - indexIntoLine));
          done := true;
        } else {
          SkipInLine(curLineNextOp, curLineOpIter, text, line, indexIntoLine, curLineNextOp.chars);
          NoOpsInFront(curLineOpIter);
          indexIntoLine := indexIntoLine + curLineNextOp.chars;
        }
      }
    }

    ghost predicate Reading()
      reads this
    {
      Loose() && iterating && curLineOpIterLine == curLine && curLine < |lines|
    }

    // Moves to the next line if this one is used up.
    method TurnLine()
      requires Reading() && Rest() != []
      modifies this
      ensures Reading() && Rest() == old(Rest()) && Unread() != []
    {
      hide Fits, Apply, LinesTrue, Text, LineOk, Attributing, DocAhead, AreLines, LineDoc, DocFrom;
      if curLineNextOp.chars == 0 && curLineOpIter == [] {
        EndOfLine(lines, alines, curLine, curChar);
        NothingFrom(lines, alines, curLine + 1);
        SameLengths(lines, alines);
        curLine := curLine + 1;
        curChar := 0;
        curLineOpIterLine := curLine;
        curLineNextOp := curLineNextOp.(chars := 0);
        curLineOpIter := alines[curLine];
        StartOfLine(lines, alines, curLine);
        NoOpsInFront(curLineOpIter);
        SomethingLeft(curLineOpIter, lines[curLine], LineDoc(lines, alines, curLine));
      }
    }

    method ReadRun(numChars: int) returns (r: Run)
      requires Reading() && 0 < numChars <= |Rest()|
      modifies this
      ensures Reading() && 0 < r.len <= numChars && r.len <= |old(Rest())|
      ensures IsRun(r, old(Rest())[..r.len]) && Rest() == old(Rest())[r.len..]
    {
      hide Fits, Apply, LinesTrue, Text, LineOk, IsRun, AreLines, Attributing, DocAhead, LineDoc, DocFrom;
      TurnLine();
      ghost var line, text := LineDoc(lines, alines, curLine), lines[curLine];
      AheadInLine(lines, alines, curLine, curChar);
      LineDocText(lines, alines, curLine);
      ghost var ops := Unread();
      if curLineNextOp.chars == 0 {
        curLineNextOp := curLineOpIter[0];
        curLineOpIter := curLineOpIter[1..];
      }
      assert ops == [curLineNextOp] + curLineOpIter;
      NotAtEnd(ops, text[curChar..], line[curChar..]);
      LineOkAt(lines, alines, curLine);
      TextFacts(text, curChar);
      var charsToUse := Min(numChars, curLineNextOp.chars);
      TakeRun(curLineNextOp, curLineOpIter, text[curChar..], line[curChar..], charsToUse);
      SplitPast(line[curChar..], DocFrom(lines, alines, curLine + 1), charsToUse);
      DropTwice(text, curChar, charsToUse);
      DropTwice(line, curChar, charsToUse);
      AheadInLine(lines, alines, curLine, curChar + charsToUse);
      r := Run(charsToUse, curLineNextOp.attribs, charsToUse == curLineNextOp.chars && curLineNextOp.lines > 0);
      curLineNextOp := curLineNextOp.(chars := curLineNextOp.chars - charsToUse);
      curChar := curChar + charsToUse;
    }

    // The runs that make up the next characters, in order; one call of the callback each.
    method ConsumeAttribRuns(count: int) returns (runs: seq<Run>)
      requires Valid() && 0 < count <= |Rest()|
      modifies this
      ensures Valid() && AreRuns(runs, old(Rest())[..count]) && Rest() == old(Rest())[count..]
    {
      hide Fits, Apply, LinesTrue, Text, LineOk, IsRun, AreLines, Attributing, AreRuns, DocAhead;
      ghost var all := Rest();
      SomeLine(lines, alines, curLine, curChar);
      if !iterating || curLineOpIterLine != curLine {
        StartLine();
      }
      var numChars := count;
      runs := [];
      NoRunsYet(all);
      while numChars > 0
        invariant Reading() && 0 <= numChars <= count <= |all|
        invariant AreRuns(runs, all[..count - numChars]) && Rest() == all[count - numChars..]
      {
        var r := ReadRun(numChars);
        ghost var i := count - numChars;
        RunsSnoc(runs, all[..i], r, all[i..][..r.len]);
        TakeMore(all, i, r.len);
        runs := runs + [r];
        numChars := numChars - r.len;
      }
      if curLineNextOp.chars == 0 && curLineOpIter == [] {
        EndOfLine(lines, alines, curLine, curChar);
        curLine := curLine + 1;
        curChar := 0;
        AheadAtLine(lines, alines, curLine);
        LineOkAll(lines, alines);
      } else {
        NotAtEnd(Unread(), lines[curLine][curChar..], LineDoc(lines, alines, curLine)[curChar..]);
      }
    }

    method Skip(N: int, L: int)
      requires Valid() && 0 < N <= |Rest()| && LinesTrue(L, Text(Rest()[..N]))
      modifies this
      ensures Valid() && Rest() == old(Rest())[N..]
    {
      hide Fits, Apply, LinesTrue, Text, LineOk, Attributing, DocAhead;
      SomeLine(lines, alines, curLine, curChar);
      Skipping(lines, alines, curLine, curChar, N, L);
      if L > 0 {
        curLine := curLine + L;
        curChar := 0;
        LineOkAll(lines, alines);
      } else if iterating && curLineOpIterLine == curLine {
        var _ := ConsumeAttribRuns(N);
      } else {
        curChar := curChar + N;
      }
    }

    method NextText(numChars: int) returns (text: string)
      requires Valid() && 0 < numChars <= |Rest()|
      ensures text == Text(Rest()[..numChars])
    {
      hide Fits, Apply, LinesTrue, Text, LineOk, Attributing, DocAhead, TextFrom;
      SomeLine(lines, alines, curLine, curChar);
      AheadText(lines, alines, curLine, curChar);
      var assem := lines[curLine][curChar..];
      var lineNum := curLine + 1;
      while |assem| < numChars
        invariant lineNum <= |lines|
        invariant assem + TextFrom(lines, lineNum) == Text(Rest())
        decreases |lines| - lineNum
      {
        TextFromUnfold(lines, lineNum);
        Regroup(assem, lines[lineNum], TextFrom(lines, lineNum + 1));
        assem := assem + lines[lineNum];
        lineNum := lineNum + 1;
      }
      TextParts(Rest(), numChars);
      text := assem[..numChars];
    }
  }

  lemma AheadInLine(lines: seq<string>, alines: seq<seq<Op>>, l: nat, c: nat)
    requires AreLines(lines, alines) && l < |lines| && c <= |lines[l]|
    ensures c <= |LineDoc(lines, alines, l)|
    ensures DocAhead(lines, alines, l, c) == LineDoc(lines, alines, l)[c..] + DocFrom(lines, alines, l + 1)
  {
    LineDocText(lines, alines, l);
  }

  lemma TextFromUnfold(lines: seq<string>, i: nat)
    ensures TextFrom(lines, i) == if i < |lines| then lines[i] + TextFrom(lines, i + 1) else ""
  {}

  lemma AheadText(lines: seq<string>, alines: seq<seq<Op>>, l: nat, c: nat)
    requires AreLines(lines, alines) && l < |lines| && c <= |lines[l]|
    ensures Text(DocAhead(lines, alines, l, c)) == lines[l][c..] + TextFrom(lines, l + 1)
  {
    hide Fits, Apply, Text;
    LineDocText(lines, alines, l);
    DocFromText(lines, alines, l + 1);
    TextParts(LineDoc(lines, alines, l), c);
    TextConcat(LineDoc(lines, alines, l)[c..], DocFrom(lines, alines, l + 1));
  }

  lemma NoRunsYet(all: Doc)
    ensures AreRuns([], all[..0]) && all[0..] == all
  {}

  lemma TakeMore(all: Doc, i: nat, k: nat)
    requires i + k <= |all|
    ensures all[..i] + all[i..][..k] == all[..i + k] && all[i..][k..] == all[i + k..]
  {}

  lemma SomeLine(lines: seq<string>, alines: seq<seq<Op>>, l: nat, c: nat)
    requires AreLines(lines, alines) && (l < |lines| ==> c <= |lines[l]|) && DocAhead(lines, alines, l, c) != []
    ensures l < |lines|
  {}

  lemma SameLengths(lines: seq<string>, alines: seq<seq<Op>>)
    requires AreLines(lines, alines)
    ensures |lines| == |alines|
  {}

  lemma LineOkAt(lines: seq<string>, alines: seq<seq<Op>>, l: nat)
    requires AreLines(lines, alines) && l < |lines|
    ensures LineOk(lines[l])
  {}

  lemma LineOkAll(lines: seq<string>, alines: seq<seq<Op>>)
    requires AreLines(lines, alines)
    ensures forall i :: 0 <= i < |lines| ==> 0 < |lines[i]|
  {}

  lemma StartOfLine(lines: seq<string>, alines: seq<seq<Op>>, l: nat)
    requires AreLines(lines, alines) && l < |lines|
    ensures Attributing(alines[l], lines[l][0..], LineDoc(lines, alines, l)[0..]) && lines[l][0..] == lines[l] != ""
    ensures LineDoc(lines, alines, l)[0..] == LineDoc(lines, alines, l)
    ensures DocAhead(lines, alines, l, 0) == DocFrom(lines, alines, l)
  {
    hide Fits, Apply;
    AheadAtLine(lines, alines, l);
  }

  // No ops left in a line: the cursor is at its end.
  lemma EndOfLine(lines: seq<string>, alines: seq<seq<Op>>, l: nat, c: nat)
    requires AreLines(lines, alines) && l < |lines| && c <= |lines[l]| && c <= |LineDoc(lines, alines, l)|
    requires Attributing([] + [], lines[l][c..], LineDoc(lines, alines, l)[c..])
    ensures c == |lines[l]| && DocAhead(lines, alines, l, c) == DocFrom(lines, alines, l + 1)
  {
    hide LineDoc, LinesTrue;
    var none: seq<Op> := [];
    assert none + none == none;
    AheadAtLine(lines, alines, l);
  }

  lemma NotAtEnd(ops: seq<Op>, text: string, d: Doc)
    requires Attributing(ops, text, d) && ops != []
    ensures text != "" && 0 < ops[0].chars
  {
    FitBounds(ops[0], text, []);
  }

  lemma SomethingLeft(ops: seq<Op>, text: string, d: Doc)
    requires Attributing(ops, text, d) && text != ""
    ensures ops != [] && 0 < ops[0].chars
  {}

  lemma SkipInLine(op: Op, rest: seq<Op>, text: string, line: Doc, i: nat, k: nat)
    requires LineOk(text) && |line| == |text| && i + k < |text| && k <= op.chars
    requires Attributing([op] + rest, text[i..], line[i..])
    ensures Attributing((if k == op.chars then [] else [op.(chars := op.chars - k)]) + rest, text[i + k..],
        line[i + k..])
  {
    hide Attributing;
    DropTwice(text, i, k);
    DropTwice(line, i, k);
    if k > 0 {
      TextFacts(text, i);
      TakeRun(op, rest, text[i..], line[i..], k);
    } else {
      assert op.(chars := op.chars - k) == op;
      SomethingLeft([op] + rest, text[i..], line[i..]);
    }
  }

  lemma TextFacts(text: string, i: nat)
    requires LineOk(text) && i < |text|
    ensures LinesTrue(1, text[i..]) && (forall n: nat | n < |text[i..]| :: LinesTrue(0, text[i..][..n]))
  {
    hide LinesTrue, LineOk;
    forall n: nat | n < |text[i..]| ensures LinesTrue(0, text[i..][..n]) { RestOfLine(text, i, n); }
    RestOfLine(text, i, 0);
  }
}
