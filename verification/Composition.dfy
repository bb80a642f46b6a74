/** `compose`: one changeset that does the work of two. */
module Composition {
  import opened Attributes
  import opened Changesets

  datatype Raw = Raw(ops: seq<Op>, bank: string)

  function Min(x: int, y: int): int { if x <= y then x else y }

  function Emitting(op: Op, text: string, r: Raw): Raw {
    Raw([op] + r.ops, text + r.bank)
  }

  // The ops `compose` hands to its assembler, and the char bank it collects. `a` is the
  // earlier changeset (or an attribution, which is a changeset that types a whole document).
  ghost function ComposeRaw(a: seq<Op>, ba: string, b: seq<Op>, bb: string): Raw
    decreases |a| + |b|
  {
    if a == [] && b == [] then Raw([], "")
    else if a != [] && a[0].opcode == Delete then Emitting(a[0], "", ComposeRaw(a[1..], ba, b, bb))
    else if b != [] && b[0].opcode == Insert then
      Emitting(b[0], Take(bb, b[0].chars), ComposeRaw(a, ba, b[1..], Drop(bb, b[0].chars)))
    else if a == [] then Emitting(b[0], "", ComposeRaw(a, ba, b[1..], bb))
    else if b == [] then
      Emitting(a[0], Take(ba, BankUse(a[0])), ComposeRaw(a[1..], Drop(ba, BankUse(a[0])), b, bb))
    else
      var k, l := if b[0].chars <= a[0].chars then b[0].chars else a[0].chars,
                  if b[0].chars <= a[0].chars then b[0].lines else a[0].lines;
      var use := if a[0].opcode == Insert then k else 0;
      var rest := ComposeRaw(if b[0].chars <= a[0].chars then Chop(a, k, l) else a[1..], Drop(ba, use),
                             if b[0].chars <= a[0].chars then b[1..] else Chop(b, k, l), bb);
      if b[0].opcode == Keep then
        var styled := ComposeAttributes(a[0].attribs, b[0].attribs, a[0].opcode == Keep);
        Emitting(Op(a[0].opcode, k, l, styled), Take(ba, use), rest)
      else if a[0].opcode == Keep then Emitting(Op(Delete, k, l, []), "", rest)
      else rest
  }

  function Take(s: string, k: int): string { if 0 <= k <= |s| then s[..k] else s }

  function Drop(s: string, k: int): string { if 0 <= k <= |s| then s[k..] else [] }

  // ---------- attributes of one op after another

  lemma StyleTwice(d: Doc, a: Attribs, b: Attribs)
    ensures Restyle(Restyle(d, a), b) == Restyle(d, ComposeAttributes(a, b, true))
  {
    hide ComposeAttributes;
    forall i | 0 <= i < |d|
      ensures Restyle(Restyle(d, a), b)[i] == Restyle(d, ComposeAttributes(a, b, true))[i]
    {
      ComposeAssociative(d[i].attribs, a, b, d[i].Old?);
    }
  }

  lemma StyleTyped(s: string, a: Attribs, b: Attribs)
    ensures Restyle(Typed(s, a), b) == Typed(s, ComposeAttributes(a, b, false))
  {
    hide ComposeAttributes;
  }

  // ---------- the ops of the result

  // Emitting an insertion puts its text in front of the collected bank.
  lemma EmitTyped(op: Op, bank: string, c: Raw, doc: Doc, other: Doc)
    requires op.opcode == Insert && OpFits(op, bank, other) && Fits(c.ops, c.bank, doc)
    ensures var e := Emitting(op, bank[..op.chars], c);
            && Fits(e.ops, e.bank, doc)
            && Apply(e.ops, e.bank, doc) == Emit(op, bank, other) + Apply(c.ops, c.bank, doc)
  {
    hide Fits, Apply, LinesTrue, Typed, Text, Restyle;
    var full := bank[..op.chars] + c.bank;
    assert full[..op.chars] == bank[..op.chars] && full[op.chars..] == c.bank;
    Push(op, c.ops, full, doc);
  }

  lemma EmitCopy(op: Op, bank: string, c: Raw, doc: Doc)
    requires op.opcode != Insert && OpFits(op, bank, doc) && Fits(c.ops, c.bank, doc[DocUse(op)..])
    ensures var e := Emitting(op, "", c);
            && Fits(e.ops, e.bank, doc)
            && Apply(e.ops, e.bank, doc) == Emit(op, bank, doc) + Apply(c.ops, c.bank, doc[DocUse(op)..])
  {
    hide Fits, Apply, LinesTrue, Typed, Text, Restyle;
    assert "" + c.bank == c.bank;
    assert Emit(op, bank, doc) == Emit(op, c.bank, doc);
    Push(op, c.ops, c.bank, doc);
  }

  // ---------- an op of `b` meeting what an op of `a` left

  ghost function OverlapOut(pa: Op, ba: string, code: Opcode, style: Attribs, c: Raw): Raw {
    if code == Keep then
      Emitting(pa.(attribs := ComposeAttributes(pa.attribs, style, pa.opcode == Keep)), Take(ba, BankUse(pa)), c)
    else if pa.opcode == Keep then Emitting(Op(Delete, pa.chars, pa.lines, []), "", c)
    else c
  }

  // What `pb` makes of the document `pa` produced.
  lemma OverlapStep(pa: Op, ba: string, doc: Doc, code: Opcode, style: Attribs, c: Raw)
    requires OpFits(pa, ba, doc) && pa.opcode != Delete && (code == Keep || code == Delete)
    requires Fits(c.ops, c.bank, doc[DocUse(pa)..])
    ensures var r := OverlapOut(pa, ba, code, style, c);
            && Fits(r.ops, r.bank, doc)
            && Apply(r.ops, r.bank, doc)
               == (if code == Keep then Restyle(Emit(pa, ba, doc), style) else [])
                  + Apply(c.ops, c.bank, doc[DocUse(pa)..])
  {
    hide Fits, Apply, LinesTrue, Typed, Text, Restyle, ComposeAttributes;
    var op := pa.(attribs := ComposeAttributes(pa.attribs, style, pa.opcode == Keep));
    if code == Keep {
      if pa.opcode == Keep {
        StyleTwice(doc[..pa.chars], pa.attribs, style);
        EmitCopy(op, ba, c, doc);
      } else {
        StyleTyped(ba[..pa.chars], pa.attribs, style);
        EmitTyped(op, ba, c, doc, doc);
      }
    } else if pa.opcode == Keep {
      EmitCopy(Op(Delete, pa.chars, pa.lines, []), ba, c, doc);
    } else {
      assert [] + Apply(c.ops, c.bank, doc) == Apply(c.ops, c.bank, doc);
    }
  }

  // The characters an op leaves in the document, and their line count.
  lemma EmittedText(op: Op, bank: string, doc: Doc)
    requires OpFits(op, bank, doc) && op.opcode != Delete
    ensures |Emit(op, bank, doc)| == op.chars && LinesTrue(op.lines, Text(Emit(op, bank, doc)))
  {
    assert Text(Emit(op, bank, doc)) == if op.opcode == Insert then bank[..op.chars] else Text(doc[..op.chars]);
  }

  // A stretch at the start of what `op` leaves is the work of a part of `op`.
  lemma PartFits(op: Op, bank: string, doc: Doc, k: int, l: int)
    requires OpFits(op, bank, doc) && op.opcode != Delete && 0 < k <= op.chars
    requires k <= |Emit(op, bank, doc)| && LinesTrue(l, Text(Emit(op, bank, doc)[..k]))
    ensures OpFits(Part(op, k, l), bank, doc)
    ensures Emit(op, bank, doc)[..k] == Emit(Part(op, k, l), bank, doc)
  {
    if op.opcode == Insert {
      assert Emit(op, bank, doc)[..k] == Typed(bank[..k], op.attribs);
      assert Text(Emit(op, bank, doc)[..k]) == bank[..k];
    } else {
      assert Emit(op, bank, doc)[..k] == Restyle(doc[..k], op.attribs);
      assert Text(Emit(op, bank, doc)[..k]) == Text(doc[..k]);
    }
  }

  // ---------- correctness

  // The composed changeset fits the original document and does to it what applying one
  // changeset after the other does, characters and attributes.
  lemma {:induction false} ComposeRawCorrect(a: seq<Op>, ba: string, b: seq<Op>, bb: string, doc: Doc)
    requires Fits(a, ba, doc) && Fits(b, bb, Apply(a, ba, doc))
    ensures var c := ComposeRaw(a, ba, b, bb);
            Fits(c.ops, c.bank, doc) && Apply(c.ops, c.bank, doc) == Apply(b, bb, Apply(a, ba, doc))
    decreases |a| + |b|
  {
    hide OpFits, Fits, Apply, Emit, ComposeAttributes;
    var mid := Apply(a, ba, doc);
    if a != [] { Unfold(a, ba, doc); FitBounds(a[0], ba, doc); }
    if b != [] { Unfold(b, bb, mid); FitBounds(b[0], bb, mid); }
    if a == [] && b == [] {
      NothingToDo(ba, doc);
      NothingToDo(bb, mid);
    } else if a != [] && a[0].opcode == Delete {
      DeletesEmitNothing(a[0], ba, doc, Apply(a[1..], ba, doc[a[0].chars..]));
      ComposeRawCorrect(a[1..], ba, b, bb, doc[a[0].chars..]);
      EmitCopy(a[0], ba, ComposeRaw(a[1..], ba, b, bb), doc);
      DeletesEmitNothing(a[0], ba, doc, Apply(b, bb, mid));
    } else if b != [] && b[0].opcode == Insert {
      ComposeRawCorrect(a, ba, b[1..], bb[b[0].chars..], doc);
      EmitTyped(b[0], bb, ComposeRaw(a, ba, b[1..], bb[b[0].chars..]), doc, mid);
    } else if a == [] {
      NothingToDo(ba, doc);
      NothingToDo(ba, doc[b[0].chars..]);
      ComposeRawCorrect(a, ba, b[1..], bb, doc[b[0].chars..]);
      EmitCopy(b[0], bb, ComposeRaw(a, ba, b[1..], bb), doc);
    } else if b == [] {
      NothingToDo(bb, mid);
      var use := BankUse(a[0]);
      var mid' := Apply(a[1..], ba[use..], doc[DocUse(a[0])..]);
      ComposeRawCorrect(a[1..], ba[use..], b, bb, doc[DocUse(a[0])..]);
      var c := ComposeRaw(a[1..], ba[use..], b, bb);
      if a[0].opcode == Insert {
        EmitTyped(a[0], ba, c, doc, doc);
      } else {
        EmitCopy(a[0], ba, c, doc);
      }
    } else {
      ComposeOverlap(a, ba, b, bb, doc);
    }
  }

  lemma NothingToDo(bank: string, doc: Doc)
    requires Fits([], bank, doc)
    ensures bank == "" && Apply([], bank, doc) == doc
    ensures forall d: Doc :: Fits([], bank, d) && Apply([], bank, d) == d
  {}

  lemma DeletesEmitNothing(op: Op, bank: string, doc: Doc, rest: Doc)
    requires OpFits(op, bank, doc) && op.opcode == Delete
    ensures Emit(op, bank, doc) + rest == rest
  {}

  // The case in which the later changeset keeps or deletes what the earlier one left.
  lemma {:induction false} ComposeOverlap(a: seq<Op>, ba: string, b: seq<Op>, bb: string, doc: Doc)
    requires Fits(a, ba, doc) && Fits(b, bb, Apply(a, ba, doc))
    requires a != [] && b != [] && a[0].opcode != Delete && b[0].opcode != Insert
    ensures var c := ComposeRaw(a, ba, b, bb);
            Fits(c.ops, c.bank, doc) && Apply(c.ops, c.bank, doc) == Apply(b, bb, Apply(a, ba, doc))
    decreases |a| + |b|, 0
  {
    hide OpFits, Fits, Apply, Emit, Restyle, ComposeAttributes;
    var mid := Apply(a, ba, doc);
    var shorter := b[0].chars <= a[0].chars;
    var k, l := if shorter then b[0].chars else a[0].chars, if shorter then b[0].lines else a[0].lines;
    var pa, pb := Part(a[0], k, l), Part(b[0], k, l);
    Unfold(b, bb, mid);
    FitBounds(b[0], bb, mid);
    CutBoth(a, ba, b, bb, doc, k, l);
    FitBounds(pa, ba, doc);
    var ba', doc' := ba[BankUse(pa)..], doc[DocUse(pa)..];
    ComposeRawCorrect(Chop(a, k, l), ba', Chop(b, k, l), bb, doc');
    var c := ComposeRaw(Chop(a, k, l), ba', Chop(b, k, l), bb);
    OverlapStep(pa, ba, doc, b[0].opcode, b[0].attribs, c);
    assert ComposeRaw(a, ba, b, bb) == OverlapOut(pa, ba, b[0].opcode, b[0].attribs, c);
  }

  // Cutting both at the end of the shorter first op leaves changesets that again follow
  // one another.
  lemma {:induction false} CutBoth(a: seq<Op>, ba: string, b: seq<Op>, bb: string, doc: Doc, k: int, l: int)
    requires Fits(a, ba, doc) && Fits(b, bb, Apply(a, ba, doc))
    requires a != [] && b != [] && a[0].opcode != Delete && b[0].opcode != Insert
    requires if b[0].chars <= a[0].chars then k == b[0].chars && l == b[0].lines
             else k == a[0].chars && l == a[0].lines
    ensures var pa, pb := Part(a[0], k, l), Part(b[0], k, l);
            && OpFits(pa, ba, doc)
            && Fits(Chop(a, k, l), ba[BankUse(pa)..], doc[DocUse(pa)..])
            && Fits(Chop(b, k, l), bb, Apply(Chop(a, k, l), ba[BankUse(pa)..], doc[DocUse(pa)..]))
            && Apply(b, bb, Apply(a, ba, doc))
               == (if b[0].opcode == Keep then Restyle(Emit(pa, ba, doc), b[0].attribs) else [])
                  + Apply(Chop(b, k, l), bb, Apply(Chop(a, k, l), ba[BankUse(pa)..], doc[DocUse(pa)..]))
  {
    hide Fits, Apply, Newlines, Text, Restyle, Typed, ComposeAttributes;
    var mid := Apply(a, ba, doc);
    Unfold(a, ba, doc);
    Unfold(b, bb, mid);
    EmittedText(a[0], ba, doc);
    var ea := Emit(a[0], ba, doc);
    assert mid[..k] == ea[..k];
    if k == a[0].chars { assert ea[..k] == ea; }
    PartFits(a[0], ba, doc, k, l);
    CutHead(a, ba, doc, k, l);
    CutHead(b, bb, mid, k, l);
    assert mid[k..] == Apply(Chop(a, k, l), ba[BankUse(Part(a[0], k, l))..], doc[DocUse(Part(a[0], k, l))..]);
  }
}
