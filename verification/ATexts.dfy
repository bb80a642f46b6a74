/** An attributed text written into an assembler, and put in the place of a whole document. */
module ATexts {
  import opened Attributes
  import opened Changesets
  import opened Composition
  import opened NormalForm
  import opened Views
  import opened Algebra
  import opened Laws
  import opened SmartAssembler
  import opened Iterators
  import opened Zipping
  import opened Engine
  import opened Applying
  import opened Covering
  import opened Inversion
  import opened InversionSteps
  import opened Inverting
  import opened DocLines
  import opened InverseCursor
  import opened LineMutation
  import opened TextLines
  import opened AttributionSteps
  import opened AttributionLines

  // ---------- appendATextToAssembler

  lemma PlainFront(x: string)
    requires x != "" && x[|x| - 1] == '\n' && LinesTrue(1, x)
    ensures Newlines(x[..|x| - 1]) == 0
  {
    NewlinesSplit(x, |x| - 1);
    assert x[|x| - 1..] == ['\n'];
    OneNewline();
  }

  // The last op without the final newline, in one piece or two.
  ghost function TrimmedLast(op: Op, rest: int): seq<Op> {
    if op.lines <= 1 then (if op.chars > 1 then [Op(op.opcode, op.chars - 1, 0, op.attribs)] else [])
    else
      [Op(op.opcode, op.chars - (rest + 1), op.lines - 1, op.attribs)]
      + if rest > 0 then [Op(op.opcode, rest, 0, op.attribs)] else []
  }

  lemma TypedOnce(x: string, n: int, a: Attribs)
    requires x != "" && LinesTrue(n, x)
    ensures OpFits(Op(Insert, |x|, n, a), x, []) && Covers([Op(Insert, |x|, n, a)], x, [])
    ensures Apply([Op(Insert, |x|, n, a)], x, []) == Typed(x, a)
  {
    var op := Op(Insert, |x|, n, a);
    assert x[..|x|] == x;
    TypedOne(op, x);
  }

  lemma TypedTwice(x: string, y: string, n: int, a: Attribs)
    requires x != "" && LinesTrue(n, x) && Newlines(y) == 0
    ensures var ops := [Op(Insert, |x|, n, a)] + if |y| > 0 then [Op(Insert, |y|, 0, a)] else [];
            Covers(ops, x + y, []) && Apply(ops, x + y, []) == Typed(x + y, a)
  {
    hide Fits, Apply, Typed, LinesTrue, DocTotal, OpFits;
    TypedOnce(x, n, a);
    CountsPlain(y);
    if y == "" {
      assert x + y == x;
      assert [Op(Insert, |x|, n, a)] + [] == [Op(Insert, |x|, n, a)];
    } else {
      TypedOnce(y, 0, a);
      CoverConcat([Op(Insert, |x|, n, a)], x, [], [Op(Insert, |y|, 0, a)], y, []);
      var none: Doc := [];
      assert none + none == none;
      TypedParts(x + y, |x|, a);
      assert (x + y)[..|x|] == x && (x + y)[|x|..] == y;
    }
  }

  lemma CountsPlain(y: string)
    requires Newlines(y) == 0
    ensures LinesTrue(0, y)
  {}

  // `x` is the text of the last op; `rest` counts the characters of its last line.
  lemma TrimmedFits(op: Op, x: string, rest: int)
    requires op.opcode == Insert && OpFits(op, x, []) && |x| == op.chars && LastLine(x, op.lines, rest)
    ensures Covers(TrimmedLast(op, rest), x[..|x| - 1], [])
    ensures Apply(TrimmedLast(op, rest), x[..|x| - 1], []) == Typed(x[..|x| - 1], op.attribs)
  {
    hide Fits, Apply, Typed, LinesTrue, DocTotal, OpFits;
    PuttingCounts(op, x);
    var y := x[..|x| - 1];
    if op.lines <= 1 {
      ExactlyOne(op.lines, x);
      PlainFront(x);
      CountsPlain(y);
      if op.chars > 1 {
        TypedOnce(y, 0, op.attribs);
      } else {
        CoverNone();
        assert y == "" && Typed("", op.attribs) == [];
      }
    } else {
      var k := |x| - rest - 1;
      var p, q := x[..k], x[k..|x| - 1];
      assert y == p + q;
      NoneIn(q);
      FrontCounts(op.lines, x, k);
      TypedTwice(p, q, op.lines - 1, op.attribs);
    }
  }

  lemma ExactlyOne(n: int, x: string)
    requires LinesTrue(n, x) && n <= 1 && x != "" && x[|x| - 1] == '\n'
    ensures n == 1
  {
    LastIsNewline(x);
  }

  lemma FrontCounts(n: int, x: string, k: int)
    requires LinesTrue(n, x) && 0 < k < |x| && x[k - 1] == '\n' && x[|x| - 1] == '\n'
    requires forall i :: k <= i < |x| - 1 ==> x[i] != '\n'
    ensures LinesTrue(n - 1, x[..k])
  {
    hide Newlines;
    NewlinesSplit(x, k);
    var z := x[k..];
    NewlinesSplit(z, |z| - 1);
    NoneIn(z[..|z| - 1]);
    assert z[|z| - 1..] == ['\n'];
    OneNewline();
  }

  // `s.lastIndexOf('\n', from)`
  method LastIndexOfNewline(s: string, from: int) returns (i: int)
    requires from < |s|
    ensures -1 <= i <= from || i == -1
    ensures i >= 0 ==> s[i] == '\n' && forall j :: i < j <= from ==> s[j] != '\n'
    ensures i == -1 ==> forall j :: 0 <= j <= from ==> s[j] != '\n'
  {
    i := from;
    while i >= 0 && s[i] != '\n'
      invariant i <= from && (i >= -1 || i == from) && forall j :: 0 <= j && i < j <= from ==> s[j] != '\n'
      decreases i
    {
      i := i - 1;
    }
    if i < 0 { i := -1; }
  }

  // The ops written so far and those to come.
  ghost predicate Appending(atext: AText, done: seq<Op>, rest: seq<Op>, pos: nat) {
    && pos <= |atext.text| && IsAText(atext)
    && Fits(done, atext.text[..pos], []) && Fits(rest, atext.text[pos..], [])
    && Apply(done, atext.text[..pos], []) + Apply(rest, atext.text[pos..], []) == DocOf(atext)
  }

  lemma AppendingHead(atext: AText, done: seq<Op>, rest: seq<Op>, pos: nat)
    requires Appending(atext, done, rest, pos) && rest != []
    ensures var op := rest[0];
            && op.opcode == Insert && 0 < op.chars <= |atext.text| - pos && 0 <= op.lines
            && OpFits(op, atext.text[pos..pos + op.chars], []) && LinesTrue(op.lines, atext.text[pos..pos + op.chars])
            && Appending(atext, done + [op], rest[1..], pos + op.chars)
            && (rest[1..] == [] ==> pos + op.chars == |atext.text|)
  {
    hide Fits, Apply, OpFits, LinesTrue, IsAText, DocOf;
    var op, text := rest[0], atext.text;
    HeadTyped(rest, text[pos..]);
    TextSteps(text, pos, op.chars);
    var x := text[pos..pos + op.chars];
    OneMore(done, text[..pos], op, x);
    Regroup(Apply(done, text[..pos], []), Apply([op], x, []), Apply(rest[1..], text[pos + op.chars..], []));
    if rest[1..] == [] { NothingToDo(text[pos + op.chars..], []); }
  }

  lemma OneMore(part: seq<Op>, tp: string, out: Op, x: string)
    requires Fits(part, tp, []) && OpFits(out, x, []) && |x| == out.chars
    ensures Fits([out], x, []) && Fits(part + [out], tp + x, [])
    ensures Apply(part + [out], tp + x, []) == Apply(part, tp, []) + Apply([out], x, [])
  {
    hide Fits, Apply, OpFits, Typed;
    TypeMore(part, tp, out, x);
    TypedOne(out, x);
    CoversMeans([out], x);
  }

  lemma CoversMeans(ops: seq<Op>, bank: string)
    requires Covers(ops, bank, [])
    ensures Fits(ops, bank, [])
  {}

  lemma TextSteps(text: string, pos: nat, k: nat)
    requires pos + k <= |text|
    ensures text[pos..][..k] == text[pos..pos + k] && text[pos..][k..] == text[pos + k..]
    ensures text[..pos] + text[pos..pos + k] == text[..pos + k]
  {}

  lemma HeadTyped(ops: seq<Op>, text: string)
    requires ops != [] && Fits(ops, text, [])
    ensures var op := ops[0];
            && op.opcode == Insert && 0 < op.chars <= |text| && 0 <= op.lines
            && OpFits(op, text[..op.chars], []) && LinesTrue(op.lines, text[..op.chars])
            && Fits(ops[1..], text[op.chars..], [])
            && Fits([op], text[..op.chars], [])
            && Apply(ops, text, []) == Apply([op], text[..op.chars], []) + Apply(ops[1..], text[op.chars..], [])
  {
    hide Fits, Apply, OpFits, LinesTrue, Typed;
    var op := ops[0];
    Unfold(ops, text, []);
    OpOfLine(op, text);
    var x := text[..op.chars];
    CountsAreNatural(op.lines, x);
    TypedOnce(x, op.lines, op.attribs);
    CoversMeans([Op(Insert, |x|, op.lines, op.attribs)], x);
    OpOnItsText(op, x);
    EmitTypes(op, text);
    NothingUsed(op);
  }

  lemma NothingUsed(op: Op)
    requires op.opcode == Insert
    ensures DocUse(op) == 0 && BankUse(op) == op.chars
    ensures forall d: Doc :: d[0..] == d
  {}

  lemma OpOnItsText(op: Op, x: string)
    requires op.opcode == Insert && op.chars == |x|
    ensures op == Op(Insert, |x|, op.lines, op.attribs)
  {}

  lemma EmitTypes(op: Op, bank: string)
    requires op.opcode == Insert && OpFits(op, bank, [])
    ensures Emit(op, bank, []) == Typed(bank[..op.chars], op.attribs)
  {}

  // The ops type the text without its final newline.
  ghost predicate AllButFinal(ops: seq<Op>, atext: AText)
    requires IsAText(atext) && atext.text != ""
  {
    var n := |atext.text| - 1;
    && n < |DocOf(atext)| && Covers(ops, atext.text[..n], [])
    && Apply(ops, atext.text[..n], []) == DocOf(atext)[..n]
  }

  // With the last op trimmed, the ops are those of the text without its final newline.
  lemma TrimmedDoc(atext: AText, done: seq<Op>, op: Op, pos: nat, rest: int)
    requires Appending(atext, done, [op], pos) && LastLine(atext.text, op.lines, rest)
    requires op.lines > 1 ==> rest + 1 < |atext.text| - pos
    ensures IsAText(atext) && AllButFinal(done + TrimmedLast(op, rest), atext)
  {
    hide Fits, Apply, OpFits, LinesTrue, DocTotal, TrimmedLast, IsAText, Typed, Appending, DocOf, Covers, LastLine;
    var text, n := atext.text, |atext.text| - 1;
    AppendingDoc(atext, done, op, pos);
    LastPiece(text, pos, op.chars);
    LastLineOfTail(text, pos, op.lines, rest);
    var x := text[pos..];
    TrimmedPiece(op, x, rest);
    TypingUsesNothing(done, text[..pos]);
    CoversTyped(done, text[..pos]);
    CoverConcat(done, text[..pos], [], TrimmedLast(op, rest), x[..|x| - 1], []);
    NothingTwice();
    AllButLast(Apply(done, text[..pos], []), Apply([op], x, []));
  }

  lemma LastPiece(text: string, pos: nat, k: int)
    requires pos + k == |text| && k > 0
    ensures text[pos..pos + k] == text[pos..] && text[..pos] + text[pos..][..k - 1] == text[..|text| - 1]
    ensures text[pos..][k - 1] == text[|text| - 1]
  {}

  lemma AllButLast(before: Doc, last: Doc)
    requires last != []
    ensures (before + last)[..|before| + |last| - 1] == before + last[..|last| - 1]
  {}

  lemma TrimmedPiece(op: Op, x: string, rest: int)
    requires op.opcode == Insert && OpFits(op, x, []) && |x| == op.chars && LastLine(x, op.lines, rest)
    ensures Fits([op], x, []) && |Apply([op], x, [])| == |x|
    ensures Covers(TrimmedLast(op, rest), x[..|x| - 1], [])
    ensures Apply(TrimmedLast(op, rest), x[..|x| - 1], []) == Apply([op], x, [])[..|x| - 1]
  {
    hide Fits, Apply, OpFits, LinesTrue, DocTotal, TrimmedLast, Covers;
    PuttingCounts(op, x);
    TrimmedFits(op, x, rest);
    TypedOne(op, x);
    CoversMeans([op], x);
    TypedFront(x, op.attribs);
  }

  lemma TypedFront(x: string, a: Attribs)
    requires x != ""
    ensures |Typed(x, a)| == |x| && Typed(x, a)[..|x| - 1] == Typed(x[..|x| - 1], a)
  {}

  // Where the last line of the text begins, counted from its end.
  ghost predicate LastLine(x: string, lines: int, rest: int) {
    && x != "" && x[|x| - 1] == '\n'
    && (lines > 1 ==> 0 <= rest && rest + 1 < |x| && x[|x| - rest - 2] == '\n'
                      && forall i :: |x| - rest - 1 <= i < |x| - 1 ==> x[i] != '\n')
  }

  lemma LastLineOfTail(text: string, pos: nat, lines: int, rest: int)
    requires pos < |text| && LastLine(text, lines, rest) && (lines > 1 ==> rest + 1 < |text| - pos)
    ensures LastLine(text[pos..], lines, rest)
  {}

  lemma NothingTwice()
    ensures var none: Doc := []; none + none == none
  {}

  lemma CoversTyped(ops: seq<Op>, bank: string)
    requires Fits(ops, bank, []) && DocTotal(ops) == 0
    ensures Covers(ops, bank, [])
  {
    hide Fits, Apply;
  }

  // With one op to come, the document ends in what it types.
  lemma AppendingDoc(atext: AText, done: seq<Op>, op: Op, pos: nat)
    requires Appending(atext, done, [op], pos)
    ensures pos <= |atext.text| && Fits(done, atext.text[..pos], []) && IsAText(atext)
    ensures op.opcode == Insert && pos + op.chars == |atext.text| && 0 < op.chars && OpFits(op, atext.text[pos..], [])
    ensures Fits([op], atext.text[pos..], [])
    ensures DocOf(atext) == Apply(done, atext.text[..pos], []) + Apply([op], atext.text[pos..], [])
    ensures |Apply(done, atext.text[..pos], [])| == pos
  {
    hide Fits, Apply, OpFits, LinesTrue, IsAText, Typed, DocOf;
    AppendingHead(atext, done, [op], pos);
    assert [op][1..] == [];
    assert atext.text[pos..pos + op.chars] == atext.text[pos..];
    AttributesText(done, atext.text[..pos], Apply(done, atext.text[..pos], []));
    DocLength(Apply(done, atext.text[..pos], []), atext.text[..pos]);
  }

  lemma DocLength(d: Doc, t: string)
    requires Text(d) == t
    ensures |d| == |t|
  {}

  method AppendATextToAssembler(atext: AText, assem: SmartOpAssembler) returns (ghost ops: seq<Op>)
    requires IsAText(atext) && atext.text != "" && atext.text[|atext.text| - 1] == '\n' && assem.Open()
    modifies assem.repr
    ensures assem.Open() && assem.raw == old(assem.raw) + ops
    ensures AllButFinal(ops, atext)
  {
    hide Fits, Apply, OpFits, LinesTrue, DocTotal, IsAText, Appending, AllButFinal, SmartOpAssembler.Open,
         OpIterator.Valid, OpIterator.Rest;
    ghost var raw := assem.raw;
    var iter := new OpIterator(atext.attribs);
    StartAppending(atext, raw);
    ghost var done: seq<Op>, pos: nat := [], 0;
    ops := [];
    while iter.HasNext()
      invariant iter.Valid() && fresh(iter) && iter !in assem.repr && assem.Open()
      invariant iter.Rest() != [] ==> Appending(atext, done, iter.Rest(), pos) && assem.raw == raw + done
      invariant iter.Rest() == [] ==> AllButFinal(ops, atext) && assem.raw == raw + ops
      decreases |iter.Rest()|
    {
      ghost var was := iter.Rest();
      AppendingHead(atext, done, was, pos);
      var op := iter.Next();
      assert was[0] == op && was[1..] == iter.Rest();
      if !iter.HasNext() {
        assert was == [op];
        ops := AppendLast(atext, assem, op, done, pos);
      } else {
        Regroup(raw, done, [op]);
        assem.Append(op);
        done, pos := done + [op], pos + op.chars;
      }
    }
  }

  lemma StartAppending(atext: AText, raw: seq<Op>)
    requires IsAText(atext) && atext.text != ""
    ensures Appending(atext, [], atext.attribs, 0) && atext.attribs != [] && raw + [] == raw
  {
    hide Apply;
    assert atext.text[..0] == "" && atext.text[0..] == atext.text;
    NothingTyped();
    NoOpsFirst(DocOf(atext));
  }

  method AppendLast(atext: AText, assem: SmartOpAssembler, last: Op, ghost done: seq<Op>, ghost pos: nat)
      returns (ghost ops: seq<Op>)
    requires Appending(atext, done, [last], pos) && atext.text != "" && atext.text[|atext.text| - 1] == '\n'
        && assem.Open()
    modifies assem.repr
    ensures assem.Open()
    ensures done <= ops && old(assem.raw) + ops[|done|..] == assem.raw
    ensures forall raw: seq<Op> :: old(assem.raw) == raw + done ==> assem.raw == raw + ops
    ensures AllButFinal(ops, atext)
  {
    hide Fits, Apply, OpFits, LinesTrue, DocTotal, IsAText, Appending, AllButFinal, SmartOpAssembler.Open, Covers;
    ghost var before := assem.raw;
    var text := atext.text;
    AppendingHead(atext, done, [last], pos);
    assert [last][1..] == [];
    ghost var x := text[pos..];
    assert text[pos..pos + last.chars] == x;
    var op := last;
    var lastLineLength := 0;
    if op.lines <= 1 {
      op := op.(lines := 0, chars := op.chars - 1);
      if op.chars != 0 {
        assem.Append(op);
      }
    } else {
      TwoNewlines(last.lines, x);
      var nextToLast := LastIndexOfNewline(text, |text| - 2);
      ShiftedNewline(text, pos, nextToLast);
      var nextToLastNewlineEnd := nextToLast + 1;
      lastLineLength := |text| - nextToLastNewlineEnd - 1;
      op := op.(lines := op.lines - 1, chars := op.chars - (lastLineLength + 1));
      assem.Append(op);
      op := op.(lines := 0, chars := lastLineLength);
      if op.chars != 0 {
        assem.Append(op);
      }
    }
    TrimmedDoc(atext, done, last, pos, lastLineLength);
    ghost var t := TrimmedLast(last, lastLineLength);
    ops := done + t;
    assert assem.raw == before + t;
    assert ops[|done|..] == t;
    forall raw: seq<Op> | before == raw + done ensures assem.raw == raw + ops { Regroup(raw, done, t); }
  }

  // A text that counts more than one newline has one before its last character.
  lemma TwoNewlines(n: int, x: string)
    requires LinesTrue(n, x) && n > 1
    ensures exists i :: 0 <= i < |x| - 1 && x[i] == '\n'
  {
    if forall i :: 0 <= i < |x| - 1 ==> x[i] != '\n' { AtMostOne(x); }
  }

  lemma ShiftedNewline(text: string, pos: nat, k: int)
    requires pos <= |text| && (exists i :: 0 <= i < |text[pos..]| - 1 && text[pos..][i] == '\n')
    requires -1 <= k <= |text| - 2 && (forall j :: k < j <= |text| - 2 && 0 <= j ==> text[j] != '\n')
    ensures pos <= k
  {
    var i :| 0 <= i < |text[pos..]| - 1 && text[pos..][i] == '\n';
    assert text[pos + i] == '\n';
  }
}
