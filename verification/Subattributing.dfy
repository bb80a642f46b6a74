/** `subattribution`: part of the attribution of a line. */
module Subattributing {
  import opened Attributes
  import opened Changesets
  import opened Composition
  import opened NormalForm
  import opened Views
  import opened Algebra
  import opened SmartAssembler
  import opened Iterators
  import opened Zipping
  import opened Applying
  import opened Covering
  import opened InverseCursor
  import opened DocLines
  import opened Layers

  // ---------- parts of the attribution of a line

  // No newline but at the end.
  ghost predicate OneLine(x: string) { forall n: nat | n < |x| :: LinesTrue(0, x[..n]) }

  lemma OneLineTail(x: string, k: nat)
    requires OneLine(x) && k <= |x|
    ensures OneLine(x[k..])
  {
    hide LinesTrue;
    forall n: nat | n < |x[k..]| ensures LinesTrue(0, x[k..][..n]) {
      assert LinesTrue(0, x[..k + n]);
      PlainMiddle(x[..k + n], k);
      assert x[..k + n][k..] == x[k..][..n];
    }
  }

  lemma PlainMiddle(y: string, k: nat)
    requires k <= |y| && LinesTrue(0, y)
    ensures LinesTrue(0, y[k..])
  {
    NewlinesSplit(y, k);
    NewlinesNatural(y[..k]);
    NewlinesNatural(y[k..]);
  }

  lemma NewlinesNatural(s: string)
    ensures Newlines(s) >= 0
  {}

  // The first `k` characters of an op: what is taken, and what is left.
  lemma TakePart(op: Op, rest: seq<Op>, text: string, d: Doc, k: int, l: int)
    requires Attributing([op] + rest, text, d) && 0 < k <= op.chars && OneLine(text)
    requires l == if k == op.chars then op.lines else 0
    ensures op.opcode == Insert && op.chars <= |text| == |d| && 0 <= op.lines <= 1
        && (op.lines > 0 ==> op.chars == |text|)
    ensures Attributing([Op(Insert, k, l, op.attribs)], text[..k], d[..k])
    ensures Attributing(Leftover(op, k, l) + rest, text[k..], d[k..])
  {
    hide Fits, Apply, LinesTrue, Typed, OpFits, Emit, OneLine;
    Unfold([op] + rest, text, []);
    NoOpsInFront(rest);
    assert ([op] + rest)[0] == op && ([op] + rest)[1..] == rest;
    FitBounds(op, text, []);
    OpOfLine(op, text);
    OneLineOp(op, text);
    OneLinePart(op, text, k, l);
    CutHead([op] + rest, text, [], k, l);
    ChopLive(op, rest, k, l);
    AttributesText([op] + rest, text, d);
    var p := Part(op, k, l);
    var part, more := Typed(text[..k], op.attribs), Apply(Chop([op] + rest, k, l), text[k..], []);
    assert d == part + more;
    TypedLength(text[..k], op.attribs);
    assert d[..k] == part && d[k..] == more;
    OpFitsLess(p, text, []);
    CoverOne(p, text[..k], []);
  }

  lemma TypedLength(s: string, a: Attribs)
    ensures |Typed(s, a)| == |s|
  {}

  lemma OneLineOp(op: Op, text: string)
    requires OpFits(op, text, []) && OneLine(text)
    ensures 0 <= op.lines <= 1 && (op.lines > 0 ==> op.chars == |text|)
  {
    var s := text[..op.chars];
    if op.chars < |text| {
      assert LinesTrue(0, text[..op.chars]);
    } else {
      assert LinesTrue(0, text[..op.chars - 1]);
      NewlinesSplit(s, op.chars - 1);
      assert s[..op.chars - 1] == text[..op.chars - 1];
      OneChar(s[op.chars - 1..]);
    }
  }

  lemma OneChar(s: string)
    requires |s| == 1
    ensures 0 <= Newlines(s) <= 1
  {
    assert s[1..] == "";
  }

  lemma OneLinePart(op: Op, text: string, k: int, l: int)
    requires OpFits(op, text, []) && op.opcode == Insert && OneLine(text) && 0 < k <= op.chars && l == if k == op.chars
        then op.lines else 0
    ensures OpFits(Part(op, k, l), text, []) && Emit(Part(op, k, l), text, []) == Typed(text[..k], op.attribs)
    ensures BankUse(Part(op, k, l)) == k && DocUse(Part(op, k, l)) == 0
  {
    hide Newlines, Typed;
    if k < |text| { assert LinesTrue(0, text[..k]); }
  }

  lemma AttributingThen(p: seq<Op>, x: string, dx: Doc, q: seq<Op>, y: string, dy: Doc)
    requires Attributing(p, x, dx) && Attributing(q, y, dy)
    ensures Attributing(p + q, x + y, dx + dy)
  {
    hide Fits, Apply;
    TypingCovers(p, x);
    CoverThen(p, x, [], q, y, []);
    NoDoc();
  }

  lemma NoDoc()
    ensures var none: Doc := []; none + none == none
  {}

  lemma {:induction false} TypingCovers(p: seq<Op>, x: string)
    requires Fits(p, x, [])
    ensures Covers(p, x, [])
    decreases |p|
  {
    hide LinesTrue;
    if p != [] {
      FitBounds(p[0], x, []);
      TypingCovers(p[1..], x[BankUse(p[0])..]);
    }
  }

  lemma AttributingNothing()
    ensures Attributing([], "", [])
  {}

  function Least(x: nat, y: nat): nat { if x <= y then x else y }

  lemma AttributesLength(ops: seq<Op>, text: string, d: Doc)
    requires Attributing(ops, text, d)
    ensures |d| == |text|
  {
    hide Attributing;
    AttributesText(ops, text, d);
    assert |Text(d)| == |d|;
  }

  lemma StartOfParts(text: string, d: Doc, made: string, md: Doc)
    ensures text[0..] == text && d[0..] == d && made + text[..0] == made && md + d[..0] == md
  {}

  lemma NothingIsLeft(ops: seq<Op>, text: string, d: Doc)
    requires Attributing(ops, text, d)
    ensures ops == [] ==> text == ""
  {}

  method NextAttribution(attOp0: Op, iter: OpIterator, ghost text: string, ghost d: Doc) returns (attOp: Op)
    requires iter.Valid() && (attOp0.opcode != NoOp || iter.HasNext())
        && Attributing(Live(attOp0) + iter.Rest(), text, d)
    modifies iter
    ensures iter.Valid() && Live(attOp) + iter.Rest() == Live(attOp0) + old(iter.Rest()) && attOp.opcode != NoOp
    ensures Attributing([attOp] + iter.Rest(), text, d)
        && |Live(attOp)| + |iter.Rest()| == |Live(attOp0)| + |old(iter.Rest())|
  {
    attOp := attOp0;
    if attOp.opcode == NoOp {
      ghost var was := iter.Rest();
      attOp := iter.Next();
      NoOpsInFront(was);
      FirstOp(was, text, d);
    }
  }

  lemma FirstOp(ops: seq<Op>, text: string, d: Doc)
    requires Attributing(ops, text, d) && ops != []
    ensures ops[0].opcode == Insert
  {}

  // One round of the zipper.
  method TakeOff(csOp0: Op, attOp0: Op, assem: SmartOpAssembler, ghost rest: seq<Op>, ghost text: string, ghost d: Doc)
    returns (csOp: Op, attOp: Op, ghost k: nat, ghost e: seq<Op>)
    requires assem.Open() && (csOp0.opcode == Keep || csOp0.opcode == Delete) && csOp0.attribs == [] && 0 < csOp0.chars
    requires csOp0.lines == 0 || text == ""
    requires OneLine(text) && Attributing([attOp0] + rest, text, d) && attOp0.opcode != NoOp
    modifies assem.repr
    ensures assem.Open() && k <= |text| == |d| && Attributing(Live(attOp) + rest, text[k..], d[k..])
    ensures if csOp0.opcode == Keep then assem.raw == old(assem.raw) + e && Attributing(e, text[..k], d[..k])
        else assem.raw == old(assem.raw)
    ensures csOp.attribs == [] && (csOp.opcode == NoOp || csOp.opcode == csOp0.opcode)
    ensures if csOp.opcode == NoOp then k == csOp0.chars else k + csOp.chars == csOp0.chars && csOp.chars > 0
    ensures csOp.lines == 0 || text[k..] == ""
    ensures |Live(csOp)| + |Live(attOp)| < 2
  {
    hide Fits, Apply, LinesTrue, OneLine, Attributing, ComposeAttributes, ComposeRaw, SmartOpAssembler.Valid,
         SmartOpAssembler.Open, Emission;
    csOp := csOp0;
    SomethingLeft2([attOp0] + rest, text, d);
    if csOp.chars >= attOp0.chars && attOp0.lines > 0 && csOp.lines <= 0 {
      csOp := csOp.(lines := csOp.lines + 1);
    }
    k := Least(csOp.chars, attOp0.chars);
    ghost var l := if k == attOp0.chars then attOp0.lines else 0;
    TakePart(attOp0, rest, text, d, k, l);
    ghost var cs := csOp;
    var opOut;
    attOp, csOp, opOut := ZipOne(attOp0, csOp, rest);
    e := [];
    assert cs.chars <= attOp0.chars ==> cs.lines == l;
    if opOut.opcode != NoOp {
      assem.Append(opOut);
      e := [opOut];
    }
  }

  // The zipper, for an attribution on one side.
  method ZipOne(attOp: Op, csOp: Op, ghost rest: seq<Op>) returns (att: Op, cs: Op, out: Op)
    requires attOp.opcode == Insert && 0 < attOp.chars && (csOp.opcode == Keep || csOp.opcode == Delete)
        && 0 < csOp.chars && csOp.attribs == []
    ensures var shorter := csOp.chars <= attOp.chars;
            var k, l := if shorter then csOp.chars else attOp.chars, if shorter then csOp.lines else attOp.lines;
            && Live(att) == Leftover(attOp, k, l) && cs.attribs == []
            && (if k == csOp.chars then cs.opcode == NoOp && cs.lines == csOp.lines else cs == Remainder(csOp, k, l))
            && out == if csOp.opcode == Delete then CLEAR else Op(Insert, k, l, attOp.attribs)
    ensures |Live(att)| + |Live(cs)| < 2
  {
    hide ComposeRaw, ComposeAttributes, Emission, StepText;
    ComposeUnits(attOp.attribs, false);
    att, cs, out := SlicerZipper(attOp, csOp, rest, [], "", "");
  }

  lemma SomethingLeft2(ops: seq<Op>, text: string, d: Doc)
    requires Attributing(ops, text, d) && ops != []
    ensures ops[0].opcode == Insert && 0 < ops[0].chars <= |text| && text != ""
  {
    FitBounds(ops[0], text, []);
  }

  lemma FurtherOn<T>(s: seq<T>, n: nat, k: nat)
    requires n <= |s| && k <= |s| - n
    ensures s[n..][k..] == s[n + k..] && s[..n] + s[n..][..k] == s[..n + k]
  {}

  // What is done with an op over the first characters of what is left.
  method DoCsOp(csOp0: Op, attOp0: Op, iter: OpIterator, assem: SmartOpAssembler, ghost text: string, ghost d: Doc,
      ghost made: string, ghost md: Doc)
    returns (csOp: Op, attOp: Op)
    requires iter.Valid() && assem.Open() && iter !in assem.repr
    requires (csOp0.opcode == Keep || csOp0.opcode == Delete) && csOp0.attribs == [] && 0 <= csOp0.chars
    requires csOp0.chars > 0 ==> csOp0.lines == 0 || text == ""
    requires OneLine(text) && Attributing(Live(attOp0) + iter.Rest(), text, d) && Attributing(assem.raw, made, md)
    modifies iter, assem.repr
    ensures iter.Valid() && assem.Open()
    ensures var n := Least(csOp0.chars, |text|);
            && n <= |d| && Attributing(Live(attOp) + iter.Rest(), text[n..], d[n..]) && OneLine(text[n..])
            && (if csOp0.opcode == Keep then Attributing(assem.raw, made + text[..n], md + d[..n])
                else assem.raw == old(assem.raw))
            && (csOp.lines == 0 || text[n..] == "" || csOp == csOp0)
  {
    hide Fits, Apply, LinesTrue, OneLine, Attributing, ComposeAttributes, ComposeRaw, OpIterator.Rest,
         OpIterator.Valid, SmartOpAssembler.Valid,
         SmartOpAssembler.Open, Emission, Leftover;
    csOp, attOp := csOp0, attOp0;
    ghost var n := 0;
    AttributesLength(Live(attOp) + iter.Rest(), text, d);
    StartOfParts(text, d, made, md);
    if csOp.chars > 0 {
      while csOp.opcode != NoOp && (attOp.opcode != NoOp || iter.HasNext())
        invariant iter.Valid() && assem.Open() && 0 <= n <= |text| == |d| && csOp.attribs == []
        invariant csOp.opcode == NoOp || csOp.opcode == csOp0.opcode
        invariant Attributing(Live(attOp) + iter.Rest(), text[n..], d[n..]) && OneLine(text[n..])
        invariant if csOp0.opcode == Keep then Attributing(assem.raw, made + text[..n], md + d[..n])
            else assem.raw == old(assem.raw)
        invariant if csOp.opcode == NoOp then n == csOp0.chars else n + csOp.chars == csOp0.chars && csOp.chars > 0
        invariant csOp.lines == 0 || text[n..] == ""
        decreases |Live(csOp)| + |Live(attOp)| + |iter.Rest()|
      {
        attOp := NextAttribution(attOp, iter, text[n..], d[n..]);
        ghost var raw := assem.raw;
        ghost var k, e;
        csOp, attOp, k, e := TakeOff(csOp, attOp, assem, iter.Rest(), text[n..], d[n..]);
        OneLineTail(text[n..], k);
        FurtherOn(text, n, k);
        FurtherOn(d, n, k);
        if csOp0.opcode == Keep {
          AttributingThen(raw, made + text[..n], md + d[..n], e, text[n..][..k], d[n..][..k]);
          Regroup(made, text[..n], text[n..][..k]);
          Regroup(md, d[..n], d[n..][..k]);
        }
        n := n + k;
      }
      NothingIsLeft(Live(attOp) + iter.Rest(), text[n..], d[n..]);
    }
  }

  // The attribution of the characters from `start` to `optEnd`, or to the end.
  method Subattribution(astr: seq<Op>, start: nat, optEnd: Option<nat>, ghost text: string, ghost d: Doc)
      returns (r: seq<Op>)
    requires OneLine(text) && Attributing(astr, text, d) && (optEnd.Some? ==> start <= optEnd.value)
    ensures var s := Least(start, |text|);
            var e := if optEnd.None? then |text| else Least(optEnd.value, |text|);
            s <= e <= |d| && Attributing(r, text[s..e], d[s..e])
  {
    hide Fits, Apply, LinesTrue, OneLine, Attributing, Normal, OpIterator.Rest, OpIterator.Valid,
         SmartOpAssembler.Valid;
    var iter := new OpIterator(astr);
    var assem := new SmartOpAssembler();
    ghost var s := Least(start, |text|);
    AttributesLength(astr, text, d);
    NoOpsInFront(astr);
    AttributingNothing();
    var csOp, attOp := DoCsOp(Op(Delete, start, 0, []), CLEAR, iter, assem, text, d, "", []);
    if optEnd.None? {
      AppendRest(attOp, iter, assem, text[s..], d[s..]);
      WholeTail(text, s);
      WholeTail(d, s);
    } else {
      ghost var n := Least(optEnd.value - start, |text[s..]|);
      csOp := Op(Keep, optEnd.value - start, csOp.lines, []);
      csOp, attOp := DoCsOp(csOp, attOp, iter, assem, text[s..], d[s..], "", []);
      InTail(text, s, n);
      InTail(d, s, n);
      NoOpsInFront2(text[s..][..n], d[s..][..n]);
    }
    ghost var raw := assem.raw;
    r := assem.ToString();
    ghost var e := if optEnd.None? then |text| else Least(optEnd.value, |text|);
    KeepOpen(raw, text[s..e], d[s..e]);
  }

  lemma NoOpsInFront2(x: string, y: Doc)
    ensures "" + x == x && [] + y == y
  {}

  lemma WholeTail<T>(x: seq<T>, s: nat)
    requires s <= |x|
    ensures x[s..|x|] == x[s..]
  {}

  lemma InTail<T>(x: seq<T>, s: nat, n: nat)
    requires s <= |x| && n <= |x| - s
    ensures x[s..][..n] == x[s..s + n]
  {}

  // Normalizing keeps an attribution what it is.
  lemma KeepOpen(raw: seq<Op>, text: string, d: Doc)
    requires Attributing(raw, text, d)
    ensures Attributing(Normal(raw, false), text, d) && Attributing(Normal(raw, true), text, d)
  {
    hide Fits, Apply, Normal;
    NormalEffect(raw, false, text, []);
    NormalEffect(raw, true, text, []);
  }

  method AppendRest(attOp0: Op, iter: OpIterator, assem: SmartOpAssembler, ghost text: string, ghost d: Doc)
    requires iter.Valid() && assem.Open() && iter !in assem.repr && assem.raw == []
        && Attributing(Live(attOp0) + iter.Rest(), text, d)
    modifies iter, assem.repr
    ensures assem.Open() && Attributing(assem.raw, text, d)
  {
    hide Attributing, OpIterator.Rest, OpIterator.Valid, SmartOpAssembler.Valid, AllTyping;
    ghost var all := Live(attOp0) + iter.Rest();
    AllCounted(all, text, d);
    NoOpsInFront(all);
    NoOpsInFront(iter.Rest());
    if attOp0.opcode != NoOp {
      FirstTyping(attOp0, iter.Rest());
      assem.Append(attOp0);
    }
    while iter.HasNext()
      invariant iter.Valid() && assem.Open() && all == assem.raw + iter.Rest() && AllTyping(iter.Rest())
      decreases |iter.Rest()|
    {
      ghost var raw := assem.raw;
      var attOp := iter.Next();
      FirstTyping(attOp, iter.Rest());
      Regroup(raw, [attOp], iter.Rest());
      assem.Append(attOp);
    }
    NoMoreOps(assem.raw);
  }

  lemma NoMoreOps(ops: seq<Op>)
    ensures ops + [] == ops
  {}

  ghost predicate AllTyping(ops: seq<Op>) {
    forall i :: 0 <= i < |ops| ==> ops[i].opcode == Insert && 0 < ops[i].chars && 0 <= ops[i].lines
  }

  lemma FirstTyping(op: Op, rest: seq<Op>)
    requires AllTyping([op] + rest)
    ensures op.opcode == Insert && 0 < op.chars && 0 <= op.lines && AllTyping(rest)
  {
    assert ([op] + rest)[0] == op && ([op] + rest)[1..] == rest;
    forall i | 0 <= i < |rest| ensures rest[i].opcode == Insert && 0 < rest[i].chars && 0 <= rest[i].lines {
      assert ([op] + rest)[i + 1] == rest[i];
    }
  }

  lemma AllCounted(ops: seq<Op>, text: string, d: Doc)
    requires Attributing(ops, text, d)
    ensures AllTyping(ops)
  {
    FittingTypes(ops, text);
  }

  lemma {:induction false} FittingTypes(ops: seq<Op>, text: string)
    requires Fits(ops, text, [])
    ensures AllTyping(ops)
    decreases |ops|
  {
    hide OpFits;
    if ops != [] {
      FitBounds(ops[0], text, []);
      TypingOp(ops[0], text);
      FittingTypes(ops[1..], text[BankUse(ops[0])..]);
      assert ops == [ops[0]] + ops[1..];
    }
  }

  lemma TypingOp(op: Op, text: string)
    requires OpFits(op, text, [])
    ensures op.opcode == Insert && 0 < op.chars && 0 <= op.lines
  {
    NewlinesNatural(text[..op.chars]);
  }
}
