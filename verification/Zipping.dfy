/** The zipper that walks two op streams in step: composing and applying to attributions. */
module Zipping {
  import opened Attributes
  import opened AttributeMerging
  import opened Changesets
  import opened Composition
  import opened NormalForm
  import opened Views
  import opened SmartAssembler

  datatype Result<+T> = Success(value: T) | Failure(error: string)

  const CLEAR := Op(NoOp, 0, 0, [])

  function Live(op: Op): seq<Op> { if op.opcode == NoOp then [] else [op] }

  // An op as it stands in a changeset: it covers something.
  predicate Parsed(op: Op) { op.opcode != NoOp && 0 < op.chars && 0 <= op.lines }

  predicate AllParsed(ops: seq<Op>) { forall i :: 0 <= i < |ops| ==> Parsed(ops[i]) }

  // How much of the earlier bank a step from `att` and `cs` to `out` uses.
  function BankStep1(att: Op, cs: Op, out: Op): int {
    if att.opcode == Insert && cs.opcode == Delete then Min(att.chars, cs.chars)
    else if out.opcode == Insert && cs.opcode != Insert then out.chars
    else 0
  }

  function BankStep2(cs: Op, out: Op): int {
    if out.opcode == Insert && cs.opcode == Insert then out.chars else 0
  }

  // The bank characters that go with `out`.
  ghost function StepText(cs: Op, out: Op, ba: string, bb: string): string {
    if out.opcode != Insert then ""
    else if cs.opcode == Insert then Take(bb, out.chars) else Take(ba, out.chars)
  }

  ghost function Emission(out: Op, text: string, rest: Raw): Raw {
    if out.opcode == NoOp then rest else Emitting(out, text, rest)
  }

  // What is left of an op after its first `k` characters.
  function Leftover(op: Op, k: int, l: int): seq<Op> {
    if op.chars == k then [] else [Remainder(op, k, l)]
  }

  lemma ChopLive(op: Op, rest: seq<Op>, k: int, l: int)
    requires op.opcode != NoOp
    ensures Chop([op] + rest, k, l) == if op.chars == k then rest else [Remainder(op, k, l)] + rest
  {
    assert ([op] + rest)[1..] == rest;
  }

  // `a` and `b` begin with what is left of the current ops.
  lemma OverlapStep1(att: Op, ra: seq<Op>, cs: Op, rb: seq<Op>, ba: string, bb: string)
    requires (att.opcode == Keep || att.opcode == Insert) && (cs.opcode == Keep || cs.opcode == Delete)
    ensures var shorter := cs.chars <= att.chars;
            var k, l := if shorter then cs.chars else att.chars, if shorter then cs.lines else att.lines;
            var out := if cs.opcode == Keep
                then Op(att.opcode, k, l, ComposeAttributes(att.attribs, cs.attribs, att.opcode == Keep))
                       else if att.opcode == Keep then Op(Delete, k, l, []) else CLEAR;
            ComposeRaw([att] + ra, ba, [cs] + rb, bb)
            == Emission(out, StepText(cs, out, ba, bb),
                 ComposeRaw(if shorter then Chop([att] + ra, k, l) else ra, Drop(ba, BankStep1(att, cs, out)),
                            if shorter then rb else Chop([cs] + rb, k, l), bb))
  {
    hide ComposeAttributes, Chop;
    assert ([att] + ra)[1..] == ra && ([cs] + rb)[1..] == rb;
    assert Drop(ba, 0) == ba;
  }

  lemma CopyStep(att: Op, ra: seq<Op>, cs: Op, rb: seq<Op>, ba: string, bb: string)
    requires att.opcode == NoOp ==> ra == []
    requires cs.opcode == NoOp ==> rb == []
    requires att.opcode != NoOp || cs.opcode != NoOp
    requires !((att.opcode == Keep || att.opcode == Insert) && (cs.opcode == Keep || cs.opcode == Delete))
    ensures var first := att.opcode == Delete || (cs.opcode == NoOp && att.opcode != NoOp);
            var out := if first then att else cs;
            ComposeRaw(Live(att) + ra, ba, Live(cs) + rb, bb)
            == Emission(out, StepText(cs, out, ba, bb),
                 ComposeRaw(if first then ra else Live(att) + ra, Drop(ba, BankStep1(att, cs, out)),
                            if first then Live(cs) + rb else rb, Drop(bb, BankStep2(cs, out))))
  {
    hide ComposeAttributes, Chop;
    assert att.opcode != NoOp ==> (Live(att) + ra)[1..] == ra;
    assert cs.opcode != NoOp ==> (Live(cs) + rb)[1..] == rb;
    assert Drop(ba, 0) == ba && Drop(bb, 0) == bb;
    assert att.opcode == NoOp ==> Live(att) + ra == [];
    assert cs.opcode == NoOp ==> Live(cs) + rb == [];
  }

  lemma NoOpsInFront(ops: seq<Op>)
    ensures [] + ops == ops
  {}

  // What the zipper makes of the two ops when the first comes from an attribution.
  ghost predicate Zipped(attOp: Op, csOp: Op, att: Op, cs: Op, out: Op) {
    && (attOp.opcode == Insert && (csOp.opcode == Keep || csOp.opcode == Delete) ==>
          var shorter := csOp.chars <= attOp.chars;
          var k, l := if shorter then csOp.chars else attOp.chars, if shorter then csOp.lines else attOp.lines;
          && Live(att) == Leftover(attOp, k, l) && Live(cs) == Leftover(csOp, k, l)
          && cs.attribs == csOp.attribs && cs.lines == csOp.lines - (if shorter then 0 else l)
          && out == if csOp.opcode == Delete then CLEAR
                    else Op(Insert, k, l, ComposeAttributes(attOp.attribs, csOp.attribs, false)))
    && (csOp.opcode == NoOp && attOp.opcode != NoOp ==> out == attOp && Live(att) == [] && Live(cs) == [])
  }

  lemma ZippedCopy(attOp: Op, csOp: Op, att: Op, cs: Op, out: Op)
    requires attOp.opcode == Delete || attOp.opcode == NoOp || csOp.opcode == Insert || csOp.opcode == NoOp
    requires csOp.opcode == NoOp && attOp.opcode != NoOp ==> out == attOp && att.opcode == NoOp && cs.opcode == NoOp
    ensures Zipped(attOp, csOp, att, cs, out)
  {
    hide ComposeAttributes;
  }

  // The first characters of both ops are dealt with, as many as the shorter one covers.
  ghost predicate OverlapZipped(attOp: Op, csOp: Op, att: Op, cs: Op, out: Op) {
    var shorter := csOp.chars <= attOp.chars;
    var k, l := if shorter then csOp.chars else attOp.chars, if shorter then csOp.lines else attOp.lines;
    && Live(att) == Leftover(attOp, k, l) && Live(cs) == Leftover(csOp, k, l)
    && cs.attribs == csOp.attribs && cs.lines == csOp.lines - (if shorter then 0 else l)
    && out == if csOp.opcode == Keep
        then Op(attOp.opcode, k, l, ComposeAttributes(attOp.attribs, csOp.attribs, attOp.opcode == Keep))
              else if attOp.opcode == Keep then Op(Delete, k, l, []) else CLEAR
  }

  // The cases in which the later changeset keeps or deletes what the earlier one left.
  method ZipOverlap(attOp: Op, csOp: Op) returns (att: Op, cs: Op, out: Op)
    requires (attOp.opcode == Keep || attOp.opcode == Insert) && (csOp.opcode == Keep || csOp.opcode == Delete)
    requires 0 < attOp.chars && 0 < csOp.chars
    ensures OverlapZipped(attOp, csOp, att, cs, out)
    ensures att.opcode == NoOp || att.opcode == attOp.opcode
    ensures cs.opcode == NoOp || cs.opcode == csOp.opcode
  {
    hide ComposeAttributes;
    att, cs, out := attOp, csOp, CLEAR;
    if csOp.opcode == Delete {
      if cs.chars <= att.chars {
        // delete or delete part
        if att.opcode == Keep { out := Op(Delete, cs.chars, cs.lines, []); }
        att := att.(chars := att.chars - cs.chars, lines := att.lines - cs.lines);
        cs := cs.(opcode := NoOp);
        if att.chars == 0 { att := att.(opcode := NoOp); }
      } else {
        // delete and keep going
        if att.opcode == Keep { out := Op(Delete, att.chars, att.lines, []); }
        cs := cs.(chars := cs.chars - att.chars, lines := cs.lines - att.lines);
        att := att.(opcode := NoOp);
      }
    } else {
      var styled := MergeCompose(att.attribs, cs.attribs, att.opcode == Keep);
      if cs.chars <= att.chars {
        // keep or keep part
        out := Op(att.opcode, cs.chars, cs.lines, styled);
        cs := cs.(opcode := NoOp);
        att := att.(chars := att.chars - out.chars, lines := att.lines - out.lines);
        if att.chars == 0 { att := att.(opcode := NoOp); }
      } else {
        // keep and keep going
        out := Op(att.opcode, att.chars, att.lines, styled);
        att := att.(opcode := NoOp);
        cs := cs.(chars := cs.chars - out.chars, lines := cs.lines - out.lines);
      }
    }
  }

  lemma OverlapFacts(attOp: Op, ra: seq<Op>, csOp: Op, rb: seq<Op>, ba: string, bb: string, att: Op, cs: Op, out: Op)
    requires (attOp.opcode == Keep || attOp.opcode == Insert) && (csOp.opcode == Keep || csOp.opcode == Delete)
    requires 0 < attOp.chars && 0 < csOp.chars && OverlapZipped(attOp, csOp, att, cs, out)
    requires (att.opcode == NoOp || att.opcode == attOp.opcode) && (cs.opcode == NoOp || cs.opcode == csOp.opcode)
    ensures ComposeRaw([attOp] + ra, ba, [csOp] + rb, bb)
         == Emission(out, StepText(csOp, out, ba, bb),
              ComposeRaw(Live(att) + ra, Drop(ba, BankStep1(attOp, csOp, out)), Live(cs) + rb, bb))
    ensures |Live(att)| + |Live(cs)| < 2 && Zipped(attOp, csOp, att, cs, out)
    ensures (att.opcode != NoOp ==> 0 < att.chars) && (cs.opcode != NoOp ==> 0 < cs.chars)
    ensures out.opcode != NoOp ==> 0 < out.chars
    ensures out.opcode == Insert ==> attOp.opcode == Insert && csOp.opcode != Delete
    ensures BankUse(att) == BankUse(attOp) - BankStep1(attOp, csOp, out) && BankUse(cs) == 0
  {
    hide ComposeRaw, ComposeAttributes, Chop, Emission, StepText;
    OverlapStep1(attOp, ra, csOp, rb, ba, bb);
    var shorter := csOp.chars <= attOp.chars;
    var k, l := if shorter then csOp.chars else attOp.chars, if shorter then csOp.lines else attOp.lines;
    NoOpsInFront(ra);
    NoOpsInFront(rb);
    ChopLive(attOp, ra, k, l);
    ChopLive(csOp, rb, k, l);
  }

  /** `_slicerZipperFunc`: one step, consuming from the two current ops. */
  method SlicerZipper(attOp: Op, csOp: Op, ghost ra: seq<Op>, ghost rb: seq<Op>, ghost ba: string, ghost bb: string)
    returns (att: Op, cs: Op, out: Op)
    requires attOp.opcode == NoOp ==> ra == []
    requires csOp.opcode == NoOp ==> rb == []
    requires attOp.opcode != NoOp || csOp.opcode != NoOp
    requires (attOp.opcode != NoOp ==> 0 < attOp.chars) && (csOp.opcode != NoOp ==> 0 < csOp.chars)
    ensures ComposeRaw(Live(attOp) + ra, ba, Live(csOp) + rb, bb)
         == Emission(out, StepText(csOp, out, ba, bb),
              ComposeRaw(Live(att) + ra, Drop(ba, BankStep1(attOp, csOp, out)),
                         Live(cs) + rb, Drop(bb, BankStep2(csOp, out))))
    ensures |Live(att)| + |Live(cs)| < |Live(attOp)| + |Live(csOp)|
    ensures att.opcode == NoOp || att.opcode == attOp.opcode
    ensures cs.opcode == NoOp || cs.opcode == csOp.opcode
    ensures (att.opcode != NoOp ==> 0 < att.chars) && (cs.opcode != NoOp ==> 0 < cs.chars)
    ensures out.opcode != NoOp ==> 0 < out.chars
    ensures out.opcode == Insert ==> csOp.opcode == Insert || (attOp.opcode == Insert && csOp.opcode != Delete)
    ensures Zipped(attOp, csOp, att, cs, out)
    ensures BankUse(att) == BankUse(attOp) - BankStep1(attOp, csOp, out)
    ensures BankUse(cs) == BankUse(csOp) - BankStep2(csOp, out)
  {
    hide ComposeRaw, ComposeAttributes, Chop, Emission, StepText, Zipped, OverlapZipped, Drop, Leftover;
    NoOpsInFront(ra);
    NoOpsInFront(rb);
    att, cs, out := attOp, csOp, CLEAR;
    if att.opcode == Delete {
      out := att;
      att := att.(opcode := NoOp);
      CopyStep(attOp, ra, csOp, rb, ba, bb);
      ZippedCopy(attOp, csOp, att, cs, out);
    } else if att.opcode == NoOp {
      out := cs;
      cs := cs.(opcode := NoOp);
      CopyStep(attOp, ra, csOp, rb, ba, bb);
      ZippedCopy(attOp, csOp, att, cs, out);
    } else {
      match csOp.opcode
      case Delete =>
        att, cs, out := ZipOverlap(attOp, csOp);
        OverlapFacts(attOp, ra, csOp, rb, ba, bb, att, cs, out);
      case Insert =>
        out := cs;
        cs := cs.(opcode := NoOp);
        CopyStep(attOp, ra, csOp, rb, ba, bb);
        ZippedCopy(attOp, csOp, att, cs, out);
      case Keep =>
        att, cs, out := ZipOverlap(attOp, csOp);
        OverlapFacts(attOp, ra, csOp, rb, ba, bb, att, cs, out);
      case NoOp =>
        out := att;
        att := att.(opcode := NoOp);
        CopyStep(attOp, ra, csOp, rb, ba, bb);
        ZippedCopy(attOp, csOp, att, cs, out);
    }
    NoDrop(bb);
  }

  lemma NoDrop(bank: string)
    ensures Drop(bank, 0) == bank
  {}
}
