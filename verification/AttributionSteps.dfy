/**
 What `mutateAttributionLines` keeps true while it works: a document is held as lines,
 each with its text and its attribution; one line may be in the middle of being rewritten.
 */
module AttributionSteps {
  import opened Attributes
  import opened Changesets
  import opened Composition
  import opened Following
  import opened NormalForm
  import opened Views
  import opened Algebra
  import opened Laws
  import opened Assemblers
  import opened SmartAssembler
  import opened Covering
  import opened InversionSteps
  import opened DocLines
  import opened InverseCursor
  import opened LineMutation

  // ---------- the document before and after a line

  ghost function DocTo(lines: seq<string>, alines: seq<seq<Op>>, l: nat): Doc
    requires AreLines(lines, alines) && l <= |lines|
  {
    if l == 0 then [] else DocTo(lines, alines, l - 1) + LineDoc(lines, alines, l - 1)
  }

  lemma {:induction false} DocWhole(lines: seq<string>, alines: seq<seq<Op>>, l: nat)
    requires AreLines(lines, alines) && l <= |lines|
    ensures DocTo(lines, alines, l) + DocFrom(lines, alines, l) == DocFrom(lines, alines, 0)
  {
    hide AreLines, LineDoc;
    if l == 0 {
      assert [] + DocFrom(lines, alines, 0) == DocFrom(lines, alines, 0);
    } else {
      DocWhole(lines, alines, l - 1);
      Regroup(DocTo(lines, alines, l - 1), LineDoc(lines, alines, l - 1), DocFrom(lines, alines, l));
    }
  }

  lemma {:induction false} SameDocTo(lines: seq<string>, alines: seq<seq<Op>>, lines': seq<string>,
      alines': seq<seq<Op>>, l: nat)
    requires AreLines(lines, alines) && AreLines(lines', alines') && l <= |lines| && l <= |lines'|
    requires lines[..l] == lines'[..l] && alines[..l] == alines'[..l]
    ensures DocTo(lines, alines, l) == DocTo(lines', alines', l)
  {
    hide LineOk, Fits, Apply;
    if l > 0 {
      assert lines[..l][l - 1] == lines'[..l][l - 1] && alines[..l][l - 1] == alines'[..l][l - 1];
      assert lines[..l - 1] == lines[..l][..l - 1] == lines'[..l - 1]
          && alines[..l - 1] == alines[..l][..l - 1] == alines'[..l - 1];
      SameDocTo(lines, alines, lines', alines', l - 1);
    }
  }

  lemma {:induction false} SameDocFrom(lines: seq<string>, alines: seq<seq<Op>>, l: nat,
                                       lines': seq<string>, alines': seq<seq<Op>>, l': nat)
    requires AreLines(lines, alines) && AreLines(lines', alines') && l <= |lines| && l' <= |lines'|
    requires lines[l..] == lines'[l'..] && alines[l..] == alines'[l'..]
    ensures DocFrom(lines, alines, l) == DocFrom(lines', alines', l')
    decreases |lines| - l
  {
    hide LineOk, Fits, Apply;
    assert |lines[l..]| == |lines'[l'..]|;
    if l < |lines| {
      assert lines[l..][0] == lines'[l'..][0] && alines[l..][0] == alines'[l'..][0];
      assert lines[l + 1..] == lines[l..][1..] == lines'[l' + 1..]
          && alines[l + 1..] == alines[l..][1..] == alines'[l' + 1..];
      SameDocFrom(lines, alines, l + 1, lines', alines', l' + 1);
    }
  }

  // ---------- the state

  // `tlines` are the texts of the lines, `ta` that of the ops taken out of the current
  // line, `tp` that of the line being put together; `bank` is what is left of the bank.
  datatype Stage = Stage(tlines: seq<string>, ta: string, tp: string, bank: string)

  // The old document from here on.
  ghost function Coming(s: Stage, att: seq<Op>, v: seq<seq<Op>>, l: nat): Doc
    requires AreLines(s.tlines, v) && Fits(att, s.ta, [])
  {
    Apply(att, s.ta, []) + DocFrom(s.tlines, v, l)
  }

  // The new document up to here.
  ghost function Made(s: Stage, part: seq<Op>, v: seq<seq<Op>>, l: nat): Doc
    requires AreLines(s.tlines, v) && l <= |v| && Fits(part, s.tp, [])
  {
    DocTo(s.tlines, v, l) + Apply(part, s.tp, [])
  }

  ghost predicate WellFormed(s: Stage, att: seq<Op>, part: seq<Op>, v: seq<seq<Op>>, l: nat) {
    && AreLines(s.tlines, v) && l <= |v|
    && Fits(att, s.ta, []) && (s.ta == "" || LineOk(s.ta))
    && Fits(part, s.tp, []) && Newlines(s.tp) == 0
  }

  ghost predicate Sound(s: Stage, cs: seq<Op>, att: seq<Op>, part: seq<Op>, v: seq<seq<Op>>, l: nat, result: Doc) {
    && WellFormed(s, att, part, v, l)
    && Fits(cs, s.bank, Coming(s, att, v, l))
    && result == Made(s, part, v, l) + Apply(cs, s.bank, Coming(s, att, v, l))
  }

  // An op `out`, standing for the text `x`, is about to be put out.
  ghost predicate Putting(s: Stage, out: Op, x: string, cs: seq<Op>, att: seq<Op>, part: seq<Op>,
                          v: seq<seq<Op>>, l: nat, result: Doc)
  {
    && WellFormed(s, att, part, v, l)
    && OpFits(out, x, []) && |x| == out.chars && out.lines <= 1
    && Fits(cs, s.bank, Coming(s, att, v, l))
    && result == Made(s, part, v, l) + (Typed(x, out.attribs) + Apply(cs, s.bank, Coming(s, att, v, l)))
  }

  // ---------- taking a line out

  ghost function WithoutLine<T>(v: seq<T>, l: nat): seq<T>
    requires l < |v|
  {
    v[..l] + v[l + 1..]
  }

  lemma WithoutLineParts<T>(v: seq<T>, l: nat)
    requires l < |v|
    ensures var v' := WithoutLine(v, l); |v'| == |v| - 1 && v'[..l] == v[..l] && v'[l..] == v[l + 1..]
    ensures forall i :: 0 <= i < |v| - 1 ==> WithoutLine(v, l)[i] == v[if i < l then i else i + 1]
  {}

  lemma LinesWithout(t: seq<string>, v: seq<seq<Op>>, l: nat)
    requires AreLines(t, v) && l < |t|
    ensures AreLines(WithoutLine(t, l), WithoutLine(v, l))
    ensures DocTo(WithoutLine(t, l), WithoutLine(v, l), l) == DocTo(t, v, l)
    ensures DocFrom(WithoutLine(t, l), WithoutLine(v, l), l) == DocFrom(t, v, l + 1)
  {
    hide LineOk, Fits, Apply, WithoutLine, DocTo, DocFrom;
    WithoutLineParts(t, l);
    WithoutLineParts(v, l);
    SameDocTo(WithoutLine(t, l), WithoutLine(v, l), t, v, l);
    SameDocFrom(WithoutLine(t, l), WithoutLine(v, l), l, t, v, l + 1);
  }

  lemma TakeLine(s: Stage, cs: seq<Op>, part: seq<Op>, v: seq<seq<Op>>, l: nat, result: Doc)
    requires Sound(s, cs, [], part, v, l, result) && l < |v|
    ensures l < |s.tlines| && s.tlines[l] != ""
    ensures var s' := s.(tlines := WithoutLine(s.tlines, l), ta := s.tlines[l]);
            && Sound(s', cs, v[l], part, WithoutLine(v, l), l, result)
            && |Coming(s', v[l], WithoutLine(v, l), l)| == |Coming(s, [], v, l)|
  {
    hide LineOk, Fits, Apply, WithoutLine, DocTo, AreLines;
    NothingToDo(s.ta, []);
    SameLengths(s.tlines, v);
    LineThere(s.tlines, v, l);
    LineOkNonEmpty(s.tlines[l]);
    WithoutLineParts(v, l);
    LinesWithout(s.tlines, v, l);
    NothingInFront(DocFrom(s.tlines, v, l));
  }

  lemma NothingInFront(d: Doc)
    ensures [] + d == d
  {}

  lemma LineThere(t: seq<string>, v: seq<seq<Op>>, l: nat)
    requires AreLines(t, v) && l < |v|
    ensures l < |t| && LineOk(t[l]) && Fits(v[l], t[l], [])
    ensures DocFrom(t, v, l) == Apply(v[l], t[l], []) + DocFrom(t, v, l + 1)
  {
    hide LineOk, Fits, Apply;
  }

  // ---------- skipping whole lines

  lemma PlainKeepStep(op: Op, rest: seq<Op>, bank: string, d: Doc)
    requires op.opcode == Keep && op.attribs == [] && Fits([op] + rest, bank, d)
    ensures 0 < op.chars <= |d| && LinesTrue(op.lines, Text(d[..op.chars]))
    ensures Fits(rest, bank, d[op.chars..])
        && Apply([op] + rest, bank, d) == d[..op.chars] + Apply(rest, bank, d[op.chars..])
  {
    hide Fits, Apply, LinesTrue, Text, Restyle;
    Unfold([op] + rest, bank, d);
    assert ([op] + rest)[0] == op && ([op] + rest)[1..] == rest && bank[0..] == bank;
    StyleNothing(d[..op.chars]);
  }

  lemma SkipWhole(s: Stage, op: Op, rest: seq<Op>, v: seq<seq<Op>>, l: nat, result: Doc)
    requires Sound(s, [op] + rest, [], [], v, l, result)
    requires op.opcode == Keep && op.lines > 0 && op.attribs == []
    ensures l + op.lines <= |v| && Sound(s, rest, [], [], v, l + op.lines, result)
    ensures |Coming(s, [], v, l + op.lines)| < |Coming(s, [], v, l)|
  {
    hide LineOk, Fits, Apply, DocTo, DocFrom, AreLines, LinesTrue, Text, Made, Coming;
    SameLengths(s.tlines, v);
    NoAtt(s, v, l);
    MadeAtLine(s, v, l);
    var d := DocFrom(s.tlines, v, l);
    PlainKeepStep(op, rest, s.bank, d);
    SkippedLines(s.tlines, v, l, op.chars, op.lines);
    NoAtt(s, v, l + op.lines);
    MadeAtLine(s, v, l + op.lines);
    Regroup(DocTo(s.tlines, v, l), d[..op.chars], Apply(rest, s.bank, d[op.chars..]));
  }

  lemma NoAtt(s: Stage, v: seq<seq<Op>>, l: nat)
    requires AreLines(s.tlines, v) && Fits([], s.ta, [])
    ensures Coming(s, [], v, l) == DocFrom(s.tlines, v, l)
  {
    hide Fits, Apply, DocFrom, AreLines;
    NothingToDo(s.ta, []);
    NothingInFront(DocFrom(s.tlines, v, l));
  }

  lemma MadeAtLine(s: Stage, v: seq<seq<Op>>, l: nat)
    requires AreLines(s.tlines, v) && l <= |v| && Fits([], s.tp, [])
    ensures l <= |s.tlines| && Made(s, [], v, l) == DocTo(s.tlines, v, l)
  {
    hide Fits, Apply, DocTo;
    NothingToDo(s.tp, []);
    assert DocTo(s.tlines, v, l) + [] == DocTo(s.tlines, v, l);
  }

  lemma SkippedLines(t: seq<string>, v: seq<seq<Op>>, l: nat, n: nat, k: int)
    requires AreLines(t, v) && l <= |t| && 0 < n <= |DocFrom(t, v, l)| && k > 0
    requires LinesTrue(k, Text(DocFrom(t, v, l)[..n]))
    ensures l + k <= |t| && DocFrom(t, v, l + k) == DocFrom(t, v, l)[n..]
    ensures DocTo(t, v, l + k) == DocTo(t, v, l) + DocFrom(t, v, l)[..n]
  {
    hide LineOk, Fits, Apply, DocTo, LinesTrue, Text, LineDoc;
    AheadAtLine(t, v, l);
    NothingFrom(t, v, l);
    LineOkAll(t, v);
    Skipping(t, v, l, 0, n, k);
    AheadAtLine(t, v, l + k);
    DocWhole(t, v, l);
    DocWhole(t, v, l + k);
    SamePrefix(DocTo(t, v, l), DocFrom(t, v, l), DocTo(t, v, l + k), n);
  }

  lemma SamePrefix(x: Doc, y: Doc, x': Doc, n: nat)
    requires n <= |y| && x + y == x' + y[n..]
    ensures x' == x + y[..n]
  {
    assert |x'| == |x| + n;
    assert (x + y)[..|x'|] == x + y[..n] && (x' + y[n..])[..|x'|] == x';
  }

  // ---------- an insertion of the changeset, or a line of it

  lemma {:induction false} InsertPiece(s: Stage, cs: seq<Op>, att: seq<Op>, part: seq<Op>, v: seq<seq<Op>>, l: nat,
      result: Doc, k: int, n: int)
    requires Sound(s, cs, att, part, v, l, result) && cs != [] && cs[0].opcode == Insert && n <= 1
    requires 0 < k <= cs[0].chars && OpFits(Part(cs[0], k, n), s.bank, [])
    ensures k <= |s.bank|
    ensures Putting(s.(bank := s.bank[k..]), Part(cs[0], k, n), s.bank[..k], Chop(cs, k, n), att, part, v, l, result)
  {
    hide LineOk, Fits, Apply, DocTo, DocFrom, AreLines, LinesTrue, Made, Typed;
    var d, p := Coming(s, att, v, l), Part(cs[0], k, n);
    InsertAnywhere(p, s.bank, d);
    CutHead(cs, s.bank, d, k, n);
    SameMade(s, s.(bank := s.bank[k..]), part, v, l);
    assert d[0..] == d;
  }

  lemma InsertAnywhere(p: Op, bank: string, d: Doc)
    requires p.opcode == Insert && OpFits(p, bank, [])
    ensures p.chars <= |bank| && OpFits(p, bank, d) && OpFits(p, bank[..p.chars], [])
    ensures Emit(p, bank, d) == Typed(bank[..p.chars], p.attribs)
  {
    assert bank[..p.chars][..p.chars] == bank[..p.chars];
  }

  lemma SameMade(s: Stage, s': Stage, part: seq<Op>, v: seq<seq<Op>>, l: nat)
    requires AreLines(s.tlines, v) && l <= |v| && Fits(part, s.tp, []) && s'.tlines == s.tlines && s'.tp == s.tp
    ensures Made(s', part, v, l) == Made(s, part, v, l)
  {}

  // The first line of an insertion of several lines.
  lemma FirstLineOf(op: Op, bank: string, end: nat)
    requires op.opcode == Insert && OpFits(op, bank, []) && op.lines > 1
    requires end < |bank| && bank[end] == '\n' && (forall i :: 0 <= i < end ==> bank[i] != '\n')
    ensures end + 1 < op.chars && OpFits(Part(op, end + 1, 1), bank, [])
  {
    hide LinesTrue;
    var x, y := bank[..op.chars], bank[..end + 1];
    LinesTrueMeans(op.lines, x);
    EndsAtFirst(y);
    if end + 1 >= op.chars { AtMostOne(x); }
  }

  lemma LinesTrueMeans(n: int, x: string)
    requires LinesTrue(n, x)
    ensures n == Newlines(x)
  {}

  lemma EndsAtFirst(y: string)
    requires y != "" && y[|y| - 1] == '\n' && forall i :: 0 <= i < |y| - 1 ==> y[i] != '\n'
    ensures LinesTrue(1, y)
  {
    hide Newlines;
    NewlinesSplit(y, |y| - 1);
    NoneIn(y[..|y| - 1]);
    assert y[|y| - 1..] == ['\n'];
    OneNewline();
  }

  lemma OneNewline()
    ensures Newlines(['\n']) == 1
  {
    assert ['\n'][1..] == "";
  }

  lemma {:induction false} NoneIn(s: string)
    requires forall i :: 0 <= i < |s| ==> s[i] != '\n'
    ensures Newlines(s) == 0
  {
    if s != [] { NoneIn(s[1..]); }
  }

  lemma AtMostOne(x: string)
    requires forall i :: 0 <= i < |x| - 1 ==> x[i] != '\n'
    ensures Newlines(x) <= 1
  {
    hide Newlines;
    if x != "" {
      NewlinesSplit(x, |x| - 1);
      NoneIn(x[..|x| - 1]);
      assert x[|x| - 1..] == [x[|x| - 1]];
      SingleCount(x[|x| - 1]);
    } else {
      NoneIn(x);
    }
  }

  lemma SingleCount(ch: char)
    ensures Newlines([ch]) <= 1
  {
    assert [ch][1..] == "";
    assert Newlines([ch]) == (if ch == '\n' then 1 else 0) + Newlines([ch][1..]);
  }

  // ---------- the zipper on an op of the line and an op of the changeset

  // A count for the beginning of a line's text is 0 or, for all of it, 1.
  lemma CountInLine(text: string, k: nat, n: int)
    requires LineOk(text) && k <= |text| && LinesTrue(n, text[..k])
    ensures 0 <= n <= 1 && (n == 1 <==> k == |text|)
    ensures k < |text| ==> LineOk(text[k..])
  {
    RestOfLine(text, 0, k);
    assert text[0..] == text;
    if k < |text| { RestOfLine(text, k, 0); }
  }

  // What is left of the ops of a line, after a part of the first.
  lemma {:induction false} LineCut(att: seq<Op>, ta: string, k: int, n: int)
    requires att != [] && Fits(att, ta, []) && LineOk(ta) && 0 < k <= att[0].chars && k <= |ta| && LinesTrue(n, ta[..k])
    ensures att[0].opcode == Insert && OpFits(Part(att[0], k, n), ta, []) && n <= 1
    ensures Fits(Chop(att, k, n), ta[k..], []) && (ta[k..] == "" || LineOk(ta[k..]))
    ensures Apply(att, ta, []) == Typed(ta[..k], att[0].attribs) + Apply(Chop(att, k, n), ta[k..], [])
  {
    hide Fits, Apply, LineOk, LinesTrue, Typed, Newlines;
    Unfold(att, ta, []);
    OpOfLine(att[0], ta);
    CountInLine(ta, k, n);
    PartTyped(att[0], ta, k, n);
    CutHead(att, ta, [], k, n);
    var none: Doc := [];
    assert none[0..] == none;
  }

  lemma PartTyped(op: Op, text: string, k: int, n: int)
    requires op.opcode == Insert && 0 < k <= |text| && LinesTrue(n, text[..k])
    ensures OpFits(Part(op, k, n), text, []) && Emit(Part(op, k, n), text, []) == Typed(text[..k], op.attribs)
  {}

  ghost predicate Shorter(a: Op, b: Op, k: int, n: int) {
    if b.chars <= a.chars then k == b.chars && n == b.lines else k == a.chars && n == a.lines
  }

  // The stretch the two ops have in common.
  lemma CommonStretch(att: seq<Op>, ta: string, b: Op, bank: string, e: Doc, k: int, n: int)
    requires att != [] && Fits(att, ta, []) && LineOk(ta) && Shorter(att[0], b, k, n)
    requires OpFits(b, bank, Apply(att, ta, []) + e) && (b.opcode == Keep || b.opcode == Delete)
    ensures 0 < k <= att[0].chars && k <= b.chars && k <= |ta| && LinesTrue(n, ta[..k])
  {
    hide Fits, Apply, LineOk, LinesTrue, Typed, Newlines, Text;
    Unfold(att, ta, []);
    OpOfLine(att[0], ta);
    AttributesText(att, ta, Apply(att, ta, []));
    var d := Apply(att, ta, []);
    FitBounds(b, bank, d + e);
    if k == b.chars && n == b.lines {
      FrontText(d, e, k);
      OldOpCounts(b, bank, d + e);
    }
  }

  lemma FrontText(d: Doc, e: Doc, k: int)
    requires 0 <= k <= |d|
    ensures (d + e)[..k] == d[..k] && (d + e)[k..] == d[k..] + e && Text((d + e)[..k]) == Text(d)[..k]
  {
    TextParts(d, k);
    assert (d + e)[..k] == d[..k];
  }

  lemma OldOpCounts(b: Op, bank: string, d: Doc)
    requires OpFits(b, bank, d) && (b.opcode == Keep || b.opcode == Delete)
    ensures 0 < b.chars <= |d| && LinesTrue(b.lines, Text(d[..b.chars]))
  {}

  lemma {:induction false} ZipSplits(att: seq<Op>, ta: string, cs: seq<Op>, bank: string, e: Doc, k: int, n: int)
    requires att != [] && Fits(att, ta, []) && LineOk(ta) && cs != [] && Shorter(att[0], cs[0], k, n)
    requires Fits(cs, bank, Apply(att, ta, []) + e) && (cs[0].opcode == Keep || cs[0].opcode == Delete)
    ensures 0 < k <= |ta| && k <= att[0].chars && n <= 1 && LinesTrue(n, ta[..k])
    ensures att[0].opcode == Insert && Fits(Chop(att, k, n), ta[k..], []) && (ta[k..] == "" || LineOk(ta[k..]))
    ensures Fits(Chop(cs, k, n), bank, Apply(Chop(att, k, n), ta[k..], []) + e)
    ensures Apply(cs, bank, Apply(att, ta, []) + e)
         == (if cs[0].opcode == Keep then Typed(ta[..k], ComposeAttributes(att[0].attribs, cs[0].attribs, false))
             else [])
            + Apply(Chop(cs, k, n), bank, Apply(Chop(att, k, n), ta[k..], []) + e)
  {
    hide Fits, Apply, LineOk, LinesTrue, Typed, Newlines, Text, Restyle, ComposeAttributes, OpFits;
    var b, d := cs[0], Apply(att, ta, []);
    Unfold(cs, bank, d + e);
    CommonStretch(att, ta, b, bank, e, k, n);
    LineCut(att, ta, k, n);
    var front, back := Typed(ta[..k], att[0].attribs), Apply(Chop(att, k, n), ta[k..], []);
    Regroup(front, back, e);
    OldPart(b, bank, front, back + e, ta[..k], att[0].attribs, k, n);
    CutHead(cs, bank, d + e, k, n);
    StyleTyped(ta[..k], att[0].attribs, b.attribs);
  }

  lemma OldPart(b: Op, bank: string, front: Doc, back: Doc, x: string, a: Attribs, k: int, n: int)
    requires OpFits(b, bank, front + back) && (b.opcode == Keep || b.opcode == Delete)
    requires front == Typed(x, a) && 0 < k == |x| && LinesTrue(n, x)
    ensures OpFits(Part(b, k, n), bank, front + back) && (front + back)[DocUse(Part(b, k, n))..] == back
    ensures BankUse(Part(b, k, n)) == 0 && bank[BankUse(Part(b, k, n))..] == bank
    ensures Emit(Part(b, k, n), bank, front + back) == if b.opcode == Keep then Restyle(front, b.attribs) else []
  {
    hide LinesTrue, Restyle;
    assert (front + back)[..k] == front;
    assert Text(front) == x;
  }

  // ---------- putting an op out

  lemma {:induction false} TypingUsesNothing(ops: seq<Op>, bank: string)
    requires Fits(ops, bank, [])
    ensures DocTotal(ops) == 0 && All(ops, Insert)
    decreases |ops|
  {
    hide Apply, Emit, LinesTrue;
    if ops != [] {
      FitBounds(ops[0], bank, []);
      TypingUsesNothing(ops[1..], bank[ops[0].chars..]);
      assert ops == [ops[0]] + ops[1..];
    }
  }

  lemma TypedOne(out: Op, x: string)
    requires OpFits(out, x, []) && |x| == out.chars
    ensures out.opcode == Insert && Covers([out], x, []) && Apply([out], x, []) == Typed(x, out.attribs)
  {
    hide LinesTrue;
    assert x[..out.chars] == x;
    CoverOne(out, x, []);
  }

  lemma TypeMore(part: seq<Op>, tp: string, out: Op, x: string)
    requires Fits(part, tp, []) && OpFits(out, x, []) && |x| == out.chars
    ensures out.opcode == Insert && Fits(part + [out], tp + x, []) && All(part + [out], Insert)
    ensures Apply(part + [out], tp + x, []) == Apply(part, tp, []) + Typed(x, out.attribs)
  {
    hide OpFits, Fits, Apply, Typed;
    TypingUsesNothing(part, tp);
    TypedOne(out, x);
    CoverThen(part, tp, [], [out], x, []);
    var none: Doc := [];
    assert none + none == none;
    TypingUsesNothing(part + [out], tp + x);
  }

  // Written out, the ops of a line say the same.
  lemma LineWritten(ops: seq<Op>, text: string)
    requires Fits(ops, text, []) && All(ops, Insert)
    ensures Merged(ops, false) == Normal(ops, false)
    ensures Fits(Merged(ops, false), text, []) && Apply(Merged(ops, false), text, []) == Apply(ops, text, [])
  {
    hide Fits, Apply, Normal, Merged;
    GapAtEnd([], ops, false);
    MergedEmpty(false);
    assert [] + ops == ops && [] + Merged(ops, false) == Merged(ops, false);
    NormalEffect(ops, false, text, []);
  }

  lemma CountsJoin(tp: string, x: string, n: int)
    requires Newlines(tp) == 0 && LinesTrue(n, x) && n <= 1 && x != ""
    ensures n <= 0 ==> Newlines(tp + x) == 0
    ensures n > 0 ==> LineOk(tp + x)
  {
    NewlinesSplit(tp + x, |tp|);
    assert (tp + x)[..|tp|] == tp && (tp + x)[|tp|..] == x;
  }

  lemma PuttingCounts(out: Op, x: string)
    requires OpFits(out, x, []) && |x| == out.chars
    ensures LinesTrue(out.lines, x) && x != "" && 0 <= out.lines
  {
    TypedOne(out, x);
    assert x[..out.chars] == x;
  }

  lemma PutInLine(s: Stage, out: Op, x: string, cs: seq<Op>, att: seq<Op>, part: seq<Op>,
                  v: seq<seq<Op>>, l: nat, result: Doc)
    requires Putting(s, out, x, cs, att, part, v, l, result) && out.lines <= 0
    ensures Sound(s.(tp := s.tp + x), cs, att, part + [out], v, l, result)
  {
    hide LineOk, Fits, Apply, DocTo, DocFrom, AreLines, LinesTrue, Newlines, Typed, OpFits;
    var s' := s.(tp := s.tp + x);
    SameLengths(s.tlines, v);
    PuttingCounts(out, x);
    CountsJoin(s.tp, x, out.lines);
    TypeMore(part, s.tp, out, x);
    var before, line, x', rest := DocTo(s.tlines, v, l), Apply(part, s.tp, []), Typed(x, out.attribs),
                                  Apply(cs, s.bank, Coming(s, att, v, l));
    Regroup4(before, line, x', rest);
  }

  lemma Regroup4(a: Doc, b: Doc, c: Doc, d: Doc)
    ensures (a + b) + (c + d) == (a + (b + c)) + d
  {}

  ghost function WithLine<T>(v: seq<T>, l: nat, line: T): seq<T>
    requires l <= |v|
  {
    v[..l] + [line] + v[l..]
  }

  lemma WithLineParts<T>(v: seq<T>, l: nat, line: T)
    requires l <= |v|
    ensures var v' := WithLine(v, l, line);
            |v'| == |v| + 1 && v'[..l] == v[..l] && v'[l] == line && v'[l + 1..] == v[l..]
    ensures forall i :: 0 <= i < |v| + 1 ==> WithLine(v, l, line)[i] == if i < l then v[i] else if i == l then line
        else v[i - 1]
  {}

  lemma LinesWith(t: seq<string>, v: seq<seq<Op>>, l: nat, text: string, aline: seq<Op>)
    requires AreLines(t, v) && l <= |t| && LineOk(text) && Fits(aline, text, [])
    ensures l <= |v| && AreLines(WithLine(t, l, text), WithLine(v, l, aline))
    ensures DocTo(WithLine(t, l, text), WithLine(v, l, aline), l + 1) == DocTo(t, v, l) + Apply(aline, text, [])
    ensures DocFrom(WithLine(t, l, text), WithLine(v, l, aline), l + 1) == DocFrom(t, v, l)
  {
    hide LineOk, Fits, Apply, WithLine, DocTo, DocFrom;
    WithLineParts(t, l, text);
    WithLineParts(v, l, aline);
    SameDocTo(WithLine(t, l, text), WithLine(v, l, aline), t, v, l);
    SameDocFrom(WithLine(t, l, text), WithLine(v, l, aline), l + 1, t, v, l);
    DocToNext(WithLine(t, l, text), WithLine(v, l, aline), l);
  }

  lemma DocToNext(t: seq<string>, v: seq<seq<Op>>, l: nat)
    requires AreLines(t, v) && l < |t|
    ensures DocTo(t, v, l + 1) == DocTo(t, v, l) + LineDoc(t, v, l)
  {
    hide LineDoc, AreLines;
  }

  lemma FinishLine(s: Stage, out: Op, x: string, cs: seq<Op>, att: seq<Op>, part: seq<Op>,
                v: seq<seq<Op>>, l: nat, result: Doc)
    requires Putting(s, out, x, cs, att, part, v, l, result) && out.lines > 0
    ensures out.lines == 1 && l <= |s.tlines| && l <= |v|
    ensures Sound(s.(tlines := WithLine(s.tlines, l, s.tp + x), tp := ""), cs, att, [],
                  WithLine(v, l, Merged(part + [out], false)), l + 1, result)
    ensures |Coming(s.(tlines := WithLine(s.tlines, l, s.tp + x), tp := ""), att,
        WithLine(v, l, Merged(part + [out], false)), l + 1)|
         == |Coming(s, att, v, l)|
  {
    hide LineOk, Fits, Apply, DocTo, DocFrom, LinesTrue, Newlines, Typed, OpFits, Merged, WithLine, AreLines;
    var aline := Merged(part + [out], false);
    SameLengths(s.tlines, v);
    PuttingCounts(out, x);
    CountsJoin(s.tp, x, out.lines);
    TypeMore(part, s.tp, out, x);
    LineWritten(part + [out], s.tp + x);
    LinesWith(s.tlines, v, l, s.tp + x, aline);
    WithLineParts(v, l, aline);
    NothingTyped();
    var before, line, x', rest := DocTo(s.tlines, v, l), Apply(part, s.tp, []), Typed(x, out.attribs),
                                  Apply(cs, s.bank, Coming(s, att, v, l));
    Regroup4(before, line, x', rest);
    NothingBehind(DocTo(s.tlines, v, l) + Apply(aline, s.tp + x, []));
  }

  lemma NothingTyped()
    ensures Fits([], "", []) && Apply([], "", []) == [] && Newlines("") == 0
  {}

  lemma NothingBehind(d: Doc)
    ensures d + [] == d
  {}
}
