/** Applying a changeset to a text and to an attribution, and checking its representation. */
module Applying {
  import opened Attributes
  import opened Changesets
  import opened Composition
  import opened NormalForm
  import opened Views
  import opened Algebra
  import opened Laws
  import opened SmartAssembler
  import opened Iterators
  import opened Zipping
  import opened Engine

  // ---------- attributed texts

  // `attribs` is an attribution: ops that insert the text, with its attributes.
  datatype AText = AText(text: string, attribs: seq<Op>)

  ghost predicate IsAText(a: AText) {
    Fits(a.attribs, a.text, [])
  }

  ghost function DocOf(a: AText): Doc
    requires IsAText(a)
  {
    Apply(a.attribs, a.text, [])
  }

  lemma {:induction false} TypedAsGiven(ops: seq<Op>, bank: string)
    requires Fits(ops, bank, [])
    ensures ApplyText(ops, bank, "") == bank
    ensures forall i :: 0 <= i < |ops| ==> ops[i].opcode == Insert
  {
    hide Apply, Emit, LinesTrue;
    if ops != [] {
      FitBounds(ops[0], bank, []);
      TypedAsGiven(ops[1..], bank[ops[0].chars..]);
      BankParts(bank, ops[0].chars);
      assert bank == bank[..ops[0].chars] + bank[ops[0].chars..];
      assert ops == [ops[0]] + ops[1..];
    }
  }

  lemma DocOfText(a: AText)
    requires IsAText(a)
    ensures Text(DocOf(a)) == a.text
  {
    hide Fits, Apply, ApplyText;
    TextOfApply(a.attribs, a.text, []);
    TypedAsGiven(a.attribs, a.text);
    assert Text([]) == "";
  }

  // ---------- applyToText

  // The next op, and the piece of the new text it stands for.
  method ApplyNext(csIter: OpIterator, bankIter: StringIterator, strIter: StringIterator) returns (piece: string)
    requires bankIter != strIter && csIter.Valid() && bankIter.Valid() && strIter.Valid() && csIter.HasNext()
    requires InText(csIter.Rest(), bankIter.Rest(), strIter.Rest())
    modifies csIter, bankIter, strIter
    ensures csIter.Valid() && bankIter.Valid() && strIter.Valid() && |csIter.Rest()| < |old(csIter.Rest())|
    ensures InText(csIter.Rest(), bankIter.Rest(), strIter.Rest())
    ensures ApplyText(old(csIter.Rest()), old(bankIter.Rest()), old(strIter.Rest()))
         == piece + ApplyText(csIter.Rest(), bankIter.Rest(), strIter.Rest())
  {
    hide ApplyText, InText, OpIterator.Rest, StringIterator.Rest;
    ghost var ops := csIter.Rest();
    ApplyTextUnfold(ops, bankIter.Rest(), strIter.Rest());
    var op := csIter.Next();
    assert ops[0] == op && ops[1..] == csIter.Rest();
    piece := "";
    match op.opcode {
      case Insert => piece := bankIter.Take(op.chars);
      case Delete => strIter.Skip(op.chars);
      case Keep => piece := strIter.Take(op.chars);
      case NoOp =>
    }
  }

  method ApplyToText(cs: Changeset, str: string) returns (r: Result<string>)
    requires |str| == cs.oldLen ==> Fits(cs.ops, cs.bank, Untouched(str))
    ensures r == if |str| == cs.oldLen then Success(ApplyText(cs.ops, cs.bank, str)) else Failure("mismatched apply")
  {
    hide Fits, Apply, Untouched, ApplyText, InText, OpIterator.Rest, StringIterator.Rest;
    if |str| != cs.oldLen {
      return Failure("mismatched apply");
    }
    TextOfUntouched(str);
    FitsInText(cs.ops, cs.bank, Untouched(str));
    var csIter := new OpIterator(cs.ops);
    var bankIter := new StringIterator(cs.bank);
    var strIter := new StringIterator(str);
    var assem := "";
    NoText(ApplyText(cs.ops, cs.bank, str));
    while csIter.HasNext()
      invariant csIter.Valid() && bankIter.Valid() && strIter.Valid() && fresh(csIter) && fresh(bankIter)
          && fresh(strIter)
      invariant InText(csIter.Rest(), bankIter.Rest(), strIter.Rest())
      invariant assem + ApplyText(csIter.Rest(), bankIter.Rest(), strIter.Rest()) == ApplyText(cs.ops, cs.bank, str)
      decreases |csIter.Rest()|
    {
      var piece := ApplyNext(csIter, bankIter, strIter);
      Regroup(assem, piece, ApplyText(csIter.Rest(), bankIter.Rest(), strIter.Rest()));
      assem := assem + piece;
    }
    ghost var tail := strIter.Rest();
    ApplyTextDone(bankIter.Rest(), tail);
    var rest := strIter.Take(strIter.Remaining());
    assert rest == tail;
    assem := assem + rest;
    r := Success(assem);
  }

  // The ops take no more than there is.
  ghost predicate InText(ops: seq<Op>, bank: string, s: string) {
    ops == [] ||
    (&& ops[0].opcode != NoOp && 0 <= ops[0].chars && BankUse(ops[0]) <= |bank| && DocUse(ops[0]) <= |s|
     && InText(ops[1..], bank[BankUse(ops[0])..], s[DocUse(ops[0])..]))
  }

  lemma {:induction false} FitsInText(ops: seq<Op>, bank: string, doc: Doc)
    requires Fits(ops, bank, doc)
    ensures InText(ops, bank, Text(doc))
    decreases |ops|
  {
    hide OpFits, Apply, Emit, Text;
    if ops != [] {
      Unfold(ops, bank, doc);
      FitBounds(ops[0], bank, doc);
      FitsInText(ops[1..], bank[BankUse(ops[0])..], doc[DocUse(ops[0])..]);
      TextParts(doc, DocUse(ops[0]));
    }
  }

  lemma ApplyTextUnfold(ops: seq<Op>, bank: string, s: string)
    requires ops != [] && InText(ops, bank, s)
    ensures var op := ops[0];
            && op.opcode != NoOp && 0 <= op.chars && BankUse(op) <= |bank| && DocUse(op) <= |s|
            && InText(ops[1..], bank[BankUse(op)..], s[DocUse(op)..])
            && ApplyText(ops, bank, s)
               == (match op.opcode case Insert => bank[..op.chars] case Keep => s[..op.chars] case _ => "")
                  + ApplyText(ops[1..], bank[BankUse(op)..], s[DocUse(op)..])
  {
    var op := ops[0];
    BankParts(bank, BankUse(op));
    BankParts(s, DocUse(op));
    NoText(ApplyText(ops[1..], bank[BankUse(op)..], s[DocUse(op)..]));
  }

  lemma NoText(s: string)
    ensures "" + s == s
  {}

  lemma ApplyTextDone(bank: string, s: string)
    ensures ApplyText([], bank, s) == s
  {}

  // ---------- applyToAttribution

  // The attribution that results does not depend on any text.
  lemma {:induction false} OpsWithoutBanks(a: seq<Op>, ba: string, b: seq<Op>, bb: string, ba': string, bb': string)
    ensures ComposeRaw(a, ba, b, bb).ops == ComposeRaw(a, ba', b, bb').ops
    decreases |a| + |b|
  {
    hide ComposeAttributes;
    if a == [] && b == [] {
    } else if a != [] && a[0].opcode == Delete {
      OpsWithoutBanks(a[1..], ba, b, bb, ba', bb');
    } else if b != [] && b[0].opcode == Insert {
      OpsWithoutBanks(a, ba, b[1..], Drop(bb, b[0].chars), ba', Drop(bb', b[0].chars));
    } else if a == [] {
      OpsWithoutBanks(a, ba, b[1..], bb, ba', bb');
    } else if b == [] {
      OpsWithoutBanks(a[1..], Drop(ba, BankUse(a[0])), b, bb, Drop(ba', BankUse(a[0])), bb');
    } else {
      var k, l := if b[0].chars <= a[0].chars then b[0].chars else a[0].chars,
                  if b[0].chars <= a[0].chars then b[0].lines else a[0].lines;
      var use := if a[0].opcode == Insert then k else 0;
      OpsWithoutBanks(if b[0].chars <= a[0].chars then Chop(a, k, l) else a[1..], Drop(ba, use),
                      if b[0].chars <= a[0].chars then b[1..] else Chop(b, k, l), bb, Drop(ba', use), bb');
    }
  }

  // The attribution `cs` makes of that of `a`.
  ghost function AttributionAfter(cs: Changeset, astr: seq<Op>): seq<Op> {
    Normal(ComposeRaw(astr, "", cs.ops, "").ops, true)
  }

  // Text and attribution, transformed separately, stay those of one attributed text, and
  // it is the one the changeset makes of the original.
  lemma ApplyToATextCorrect(cs: Changeset, a: AText)
    requires IsAText(a) && IsFor(cs, a.text)
    ensures var b := AText(TextAfter(cs, a.text), AttributionAfter(cs, a.attribs));
            && IsAText(b) && Fits(cs.ops, cs.bank, DocOf(a)) && DocOf(b) == After(cs, DocOf(a))
            && Normal(b.attribs, true) == b.attribs
  {
    hide Fits, Apply, Normal, ComposeRaw, ApplyText, Text;
    DocOfText(a);
    OnDocument(cs, a.text, DocOf(a));
    ComposeRawCorrect(a.attribs, a.text, cs.ops, cs.bank, []);
    var c := ComposeRaw(a.attribs, a.text, cs.ops, cs.bank);
    OpsWithoutBanks(a.attribs, a.text, cs.ops, cs.bank, "", "");
    DocOfText(AText(c.bank, c.ops));
    NormalEffect(c.ops, true, c.bank, []);
    TypedIdempotent(c.ops, c.bank);
  }

  lemma TypedIdempotent(ops: seq<Op>, bank: string)
    requires Fits(ops, bank, [])
    ensures Normal(Normal(ops, true), true) == Normal(ops, true)
  {
    hide Fits, Apply, Normal;
    assert Untouched("") == [];
    NormalIdempotent(ops, bank, "");
  }

  lemma AttributionParsed(cs: Changeset, a: AText)
    requires IsAText(a) && IsFor(cs, a.text)
    ensures AllParsed(ComposeRaw(a.attribs, "", cs.ops, "").ops)
    ensures AllParsed(a.attribs) && AllParsed(cs.ops)
  {
    hide Fits, Apply, Normal, ComposeRaw, ApplyText, Text;
    DocOfText(a);
    OnDocument(cs, a.text, DocOf(a));
    ComposeRawCorrect(a.attribs, a.text, cs.ops, cs.bank, []);
    var c := ComposeRaw(a.attribs, a.text, cs.ops, cs.bank);
    OpsWithoutBanks(a.attribs, a.text, cs.ops, cs.bank, "", "");
    FitsParsed(c.ops, c.bank, []);
    FitsParsed(a.attribs, a.text, []);
    FitsParsed(cs.ops, cs.bank, DocOf(a));
  }

  // The op streams without their banks.
  ghost predicate AheadOps(op: Op, rest: seq<Op>) {
    (op.opcode != NoOp ==> 0 < op.chars) && AllParsed(rest)
  }

  method LoadOp(cur: Op, iter: OpIterator) returns (op: Op)
    requires iter.Valid() && AheadOps(cur, iter.Rest())
    modifies iter
    ensures iter.Valid() && AheadOps(op, iter.Rest())
    ensures Live(op) + iter.Rest() == Live(cur) + old(iter.Rest())
    ensures |Live(op)| + |iter.Rest()| == |Live(cur)| + |old(iter.Rest())|
    ensures op.opcode == NoOp ==> iter.Rest() == []
  {
    op := cur;
    if op.opcode == NoOp && iter.HasNext() {
      ghost var was := iter.Rest();
      op := iter.Next();
      assert was[0] == op && was[1..] == iter.Rest();
    }
  }

  method AttributionNext(o1: Op, o2: Op, iter1: OpIterator, iter2: OpIterator) returns (op1: Op, op2: Op, opOut: Op)
    requires iter1 != iter2 && iter1.Valid() && iter2.Valid()
    requires AheadOps(o1, iter1.Rest()) && AheadOps(o2, iter2.Rest())
    requires o1.opcode != NoOp || iter1.HasNext() || o2.opcode != NoOp || iter2.HasNext()
    modifies iter1, iter2
    ensures iter1.Valid() && iter2.Valid()
    ensures AheadOps(op1, iter1.Rest()) && AheadOps(op2, iter2.Rest())
    ensures |Live(op1)| + |iter1.Rest()| + |Live(op2)| + |iter2.Rest()|
          < |Live(o1)| + |old(iter1.Rest())| + |Live(o2)| + |old(iter2.Rest())|
    ensures ComposeRaw(Live(o1) + old(iter1.Rest()), "", Live(o2) + old(iter2.Rest()), "").ops
         == Live(opOut) + ComposeRaw(Live(op1) + iter1.Rest(), "", Live(op2) + iter2.Rest(), "").ops
  {
    hide ComposeRaw, AllParsed, OpIterator.Rest;
    op1 := LoadOp(o1, iter1);
    op2 := LoadOp(o2, iter2);
    ghost var was1, was2 := op1, op2;
    op1, op2, opOut := SlicerZipper(op1, op2, iter1.Rest(), iter2.Rest(), "", "");
    OpsWithoutBanks(Live(op1) + iter1.Rest(), Drop("", BankStep1(was1, was2, opOut)),
                    Live(op2) + iter2.Rest(), Drop("", BankStep2(was2, opOut)), "", "");
    NoOpsInFront(ComposeRaw(Live(op1) + iter1.Rest(), "", Live(op2) + iter2.Rest(), "").ops);
  }

  lemma NextOut(all: seq<Op>, raw: seq<Op>, out: Op, rest: seq<Op>)
    requires all == raw + (Live(out) + rest) && AllParsed(all)
    ensures out.opcode != NoOp ==> Parsed(out) && all == raw + [out] + rest
    ensures out.opcode == NoOp ==> all == raw + rest
  {
    if out.opcode != NoOp {
      assert all[|raw|] == out;
    } else {
      NoOpsInFront(rest);
    }
  }

  // `text` is what the attribution belongs to; the code does not look at it.
  method ApplyToAttribution(cs: Changeset, astr: seq<Op>, ghost text: string) returns (r: seq<Op>)
    requires IsAText(AText(text, astr)) && IsFor(cs, text)
    ensures r == AttributionAfter(cs, astr)
  {
    hide Fits, Apply, Normal, Safe, ComposeRaw, ApplyText, SmartOpAssembler.Valid, SmartOpAssembler.Open,
         IsFor, IsAText, LengthChange, AheadOps, AllParsed, OpIterator.Rest, OpIterator.Valid;
    ghost var all := ComposeRaw(astr, "", cs.ops, "").ops;
    AttributionParsed(cs, AText(text, astr));
    var iter1 := new OpIterator(astr);
    var iter2 := new OpIterator(cs.ops);
    var assem := new SmartOpAssembler();
    var op1, op2, opOut := CLEAR, CLEAR, CLEAR;
    NoOpsInFront(astr);
    NoOpsInFront(cs.ops);
    NoOpsInFront(all);
    StartOps(astr);
    StartOps(cs.ops);
    while op1.opcode != NoOp || iter1.HasNext() || op2.opcode != NoOp || iter2.HasNext()
      invariant iter1.Valid() && iter2.Valid() && assem.Open() && fresh(assem.repr)
      invariant AheadOps(op1, iter1.Rest()) && AheadOps(op2, iter2.Rest())
      invariant all == assem.raw + ComposeRaw(Live(op1) + iter1.Rest(), "", Live(op2) + iter2.Rest(), "").ops
      decreases |Live(op1)| + |iter1.Rest()| + |Live(op2)| + |iter2.Rest()|
    {
      op1, op2, opOut := AttributionNext(op1, op2, iter1, iter2);
      NextOut(all, assem.raw, opOut, ComposeRaw(Live(op1) + iter1.Rest(), "", Live(op2) + iter2.Rest(), "").ops);
      if opOut.opcode != NoOp {
        assem.Append(opOut);
      }
    }
    assert Live(op1) + iter1.Rest() == [] && Live(op2) + iter2.Rest() == [];
    NothingComposed();
    assert assem.raw + [] == assem.raw;
    assem.EndDocument();
    r := assem.ToString();
  }

  lemma StartOps(ops: seq<Op>)
    requires AllParsed(ops)
    ensures AheadOps(CLEAR, ops)
  {}

  lemma NothingComposed()
    ensures ComposeRaw([], "", [], "").ops == []
  {}

  method ApplyToAText(cs: Changeset, atext: AText) returns (r: AText)
    requires IsAText(atext) && IsFor(cs, atext.text)
    ensures IsAText(r) && r.text == TextAfter(cs, atext.text)
    ensures Fits(cs.ops, cs.bank, DocOf(atext)) && DocOf(r) == After(cs, DocOf(atext))
    ensures Normal(r.attribs, true) == r.attribs
  {
    hide Fits, Apply, Normal, ApplyText;
    ApplyToATextCorrect(cs, atext);
    var text := ApplyToText(cs, atext.text);
    var attribs := ApplyToAttribution(cs, atext.attribs, atext.text);
    r := AText(text.value, attribs);
  }
}
