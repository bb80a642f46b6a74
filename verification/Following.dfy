/** `follow`: the changeset that does the work of one changeset after a concurrent one. */
module Following {
  import opened Attributes
  import opened Changesets
  import opened Composition

  const INSERT_FIRST := Pair("insertorder", "first")

  predicate StartsWithNewline(s: string) { s != [] && s[0] == '\n' }

  // Which of two insertions at the same place goes first: `a`'s?
  predicate FirstGoesFirst(a: Op, ba: string, b: Op, bb: string, reverse: bool) {
    if INSERT_FIRST in a.attribs && INSERT_FIRST !in b.attribs then true
    else if INSERT_FIRST in b.attribs && INSERT_FIRST !in a.attribs then false
    else if StartsWithNewline(ba) && !StartsWithNewline(bb) then false
    else if !StartsWithNewline(ba) && StartsWithNewline(bb) then true
    else !reverse
  }

  predicate Inserting(ops: seq<Op>) { ops != [] && ops[0].opcode == Insert }

  predicate Deleting(ops: seq<Op>) { ops != [] && ops[0].opcode == Delete }

  // `a`'s insertion is handled next.
  predicate TakesFirst(a: seq<Op>, ba: string, b: seq<Op>, bb: string, reverse: bool)
    requires Inserting(a) || Inserting(b)
  {
    Inserting(a) && (Inserting(b) ==> FirstGoesFirst(a[0], ba, b[0], bb, reverse))
  }

  // The ops `follow` hands to its assembler, for `b` after `a`.
  ghost function FollowRaw(a: seq<Op>, ba: string, b: seq<Op>, bb: string, reverse: bool): seq<Op>
    decreases |a| + |b|
  {
    if a == [] && b == [] then []
    else if Inserting(a) || Inserting(b) then
      if TakesFirst(a, ba, b, bb, reverse) then
        [Op(Keep, a[0].chars, a[0].lines, [])] + FollowRaw(a[1..], Drop(ba, a[0].chars), b, bb, reverse)
      else [b[0]] + FollowRaw(a, ba, b[1..], Drop(bb, b[0].chars), reverse)
    else if Deleting(a) then
      if b == [] then FollowRaw(a[1..], ba, b, bb, reverse)
      else if a[0].chars <= b[0].chars then
        FollowRaw(a[1..], ba, Chop(b, a[0].chars, a[0].lines), bb, reverse)
      else FollowRaw(Chop(a, b[0].chars, b[0].lines), ba, b[1..], bb, reverse)
    else if Deleting(b) then
      if a == [] then [b[0]] + FollowRaw(a, ba, b[1..], bb, reverse)
      else if b[0].chars <= a[0].chars then
        [b[0]] + FollowRaw(Chop(a, b[0].chars, b[0].lines), ba, b[1..], bb, reverse)
      else [Part(b[0], a[0].chars, a[0].lines)]
           + FollowRaw(a[1..], ba, Chop(b, a[0].chars, a[0].lines), bb, reverse)
    else if a == [] then [b[0]] + FollowRaw(a, ba, b[1..], bb, reverse)
    else if b == [] then [a[0]] + FollowRaw(a[1..], ba, b, bb, reverse)
    else
      var both := FollowAttributes(a[0].attribs, b[0].attribs);
      if a[0].chars <= b[0].chars then
        [Op(Keep, a[0].chars, a[0].lines, both)]
        + FollowRaw(a[1..], ba, Chop(b, a[0].chars, a[0].lines), bb, reverse)
      else
        [Op(Keep, b[0].chars, b[0].lines, both)]
        + FollowRaw(Chop(a, b[0].chars, b[0].lines), ba, b[1..], bb, reverse)
  }

  // ---------- attributes

  lemma StyleNothing(d: Doc)
    ensures Restyle(d, []) == d
  {
    hide ComposeAttributes;
    forall i | 0 <= i < |d| ensures Restyled(d[i], []) == d[i] { ComposeUnits(d[i].attribs, d[i].Old?); }
  }

  lemma StyleAgain(d: Doc, a: Attribs)
    ensures Restyle(Restyle(d, a), a) == Restyle(d, a)
  {
    hide ComposeAttributes;
    forall i | 0 <= i < |d| ensures Restyled(Restyled(d[i], a), a) == Restyled(d[i], a) {
      ComposeIdempotent(d[i].attribs, a, d[i].Old?);
    }
  }

  lemma StylesConverge(d: Doc, a: Attribs, b: Attribs)
    ensures Restyle(Restyle(d, a), FollowAttributes(a, b)) == Restyle(Restyle(d, b), FollowAttributes(b, a))
  {
    hide ComposeAttributes, FollowAttributes;
    forall i | 0 <= i < |d|
      ensures Restyled(Restyled(d[i], a), FollowAttributes(a, b)) == Restyled(Restyled(d[i], b), FollowAttributes(b, a))
    {
      AttributesMeet(d[i].attribs, a, b, d[i].Old?);
    }
  }

  // ---------- single steps

  predicate OldOp(op: Op) { op.opcode == Keep || (op.opcode == Delete && op.attribs == []) }

  // An op that keeps or deletes the first `k` characters fits any document that starts
  // with the same text.
  lemma OldOpFits(op: Op, d: Doc, bank: string, rest: Doc)
    requires OldOp(op) && 0 < op.chars == |d|
    requires LinesTrue(op.lines, Text(d))
    ensures OpFits(op, bank, d + rest) && (d + rest)[DocUse(op)..] == rest
    ensures Emit(op, bank, d + rest) == if op.opcode == Keep then Restyle(d, op.attribs) else []
  {
    hide LinesTrue, Restyle, Text;
    assert (d + rest)[..op.chars] == d;
  }

  lemma OldStep(op: Op, f: seq<Op>, bank: string, d: Doc, rest: Doc)
    requires OldOp(op) && 0 < op.chars == |d|
    requires LinesTrue(op.lines, Text(d)) && Fits(f, bank, rest)
    ensures Fits([op] + f, bank, d + rest)
    ensures Apply([op] + f, bank, d + rest)
         == (if op.opcode == Keep then Restyle(d, op.attribs) else []) + Apply(f, bank, rest)
  {
    hide Fits, Apply, LinesTrue, Restyle, Text, OpFits, Emit;
    OldOpFits(op, d, bank, rest);
    Push(op, f, bank, d + rest);
  }

  // ---------- convergence

  // `b` after `a` and `a` after `b` fit the documents they are meant for, and meet.
  ghost predicate Converge(a: seq<Op>, ba: string, b: seq<Op>, bb: string, reverse: bool, doc: Doc)
    requires Fits(a, ba, doc) && Fits(b, bb, doc)
  {
    var f, g := FollowRaw(a, ba, b, bb, reverse), FollowRaw(b, bb, a, ba, !reverse);
    var da, db := Apply(a, ba, doc), Apply(b, bb, doc);
    Fits(f, bb, da) && Fits(g, ba, db) && Apply(f, bb, da) == Apply(g, ba, db)
  }

  lemma {:induction false} FollowConverges(a: seq<Op>, ba: string, b: seq<Op>, bb: string, reverse: bool, doc: Doc)
    requires Fits(a, ba, doc) && Fits(b, bb, doc)
    ensures Converge(a, ba, b, bb, reverse, doc)
    decreases |a| + |b|, 1
  {
    hide OpFits, Fits, Apply, Emit, FollowAttributes, FollowRaw;
    if a != [] { Unfold(a, ba, doc); FitBounds(a[0], ba, doc); }
    if b != [] { Unfold(b, bb, doc); FitBounds(b[0], bb, doc); }
    if a == [] && b == [] {
      BothDone(ba, bb, reverse, doc);
    } else if Inserting(a) || Inserting(b) {
      if TakesFirst(a, ba, b, bb, reverse) {
        InsertionConverges(a, ba, b, bb, reverse, doc);
      } else {
        InsertionConverges(b, bb, a, ba, !reverse, doc);
      }
    } else if a == [] {
      TailConverges(b, bb, ba, reverse, doc);
    } else if b == [] {
      TailConverges(a, ba, bb, !reverse, doc);
    } else {
      OverlapConverges(a, ba, b, bb, reverse, doc);
    }
  }

  lemma BothDone(ba: string, bb: string, reverse: bool, doc: Doc)
    requires Fits([], ba, doc) && Fits([], bb, doc)
    ensures Converge([], ba, [], bb, reverse, doc)
  {}

  lemma {:induction false} InsertionConverges(a: seq<Op>, ba: string, b: seq<Op>, bb: string, reverse: bool, doc: Doc)
    requires Fits(a, ba, doc) && Fits(b, bb, doc)
    requires Inserting(a) && TakesFirst(a, ba, b, bb, reverse)
    ensures Converge(a, ba, b, bb, reverse, doc)
    decreases |a| + |b|, 0
  {
    hide OpFits, Fits, Apply, Emit, FollowAttributes;
    Unfold(a, ba, doc);
    FitBounds(a[0], ba, doc);
    var a', ba' := a[1..], ba[a[0].chars..];
    FollowConverges(a', ba', b, bb, reverse, doc);
    var f, g := FollowRaw(a', ba', b, bb, reverse), FollowRaw(b, bb, a', ba', !reverse);
    var da', db := Apply(a', ba', doc), Apply(b, bb, doc);
    EmittedText(a[0], ba, doc);
    StyleNothing(Emit(a[0], ba, doc));
    OldStep(Op(Keep, a[0].chars, a[0].lines, []), f, bb, Emit(a[0], ba, doc), da');
    InsertElsewhere(a[0], ba, doc, db);
    Push(a[0], g, ba, db);
  }

  // An insertion does not depend on the document.
  lemma InsertElsewhere(op: Op, bank: string, doc: Doc, other: Doc)
    requires op.opcode == Insert && OpFits(op, bank, doc)
    ensures OpFits(op, bank, other) && Emit(op, bank, other) == Emit(op, bank, doc)
  {}

  // Nothing left in `a`: `b` goes through, and its attributes may be repeated.
  lemma {:induction false} TailConverges(b: seq<Op>, bb: string, ba: string, reverse: bool, doc: Doc)
    requires Fits([], ba, doc) && Fits(b, bb, doc) && b != [] && !Inserting(b)
    ensures Converge([], ba, b, bb, reverse, doc)
    ensures Converge(b, bb, [], ba, !reverse, doc)
    decreases |b|, 0
  {
    hide OpFits, Fits, Apply, Emit, FollowAttributes;
    Unfold(b, bb, doc);
    FitBounds(b[0], bb, doc);
    NothingToDo(ba, doc);
    var k := b[0].chars;
    var doc' := doc[k..];
    FollowConverges([], ba, b[1..], bb, reverse, doc');
    var f, g := FollowRaw([], ba, b[1..], bb, reverse), FollowRaw(b[1..], bb, [], ba, !reverse);
    var db' := Apply(b[1..], bb, doc');
    assert doc == doc[..k] + doc';
    OldOpFacts(b[0], bb, doc);
    OldStep(b[0], f, bb, doc[..k], doc');
    if b[0].opcode == Keep {
      StyleAgain(doc[..k], b[0].attribs);
      RestyledText(doc[..k], b[0].attribs);
      OldStep(b[0], g, ba, Restyle(doc[..k], b[0].attribs), db');
    } else {
      assert [] + db' == db';
    }
  }

  lemma OldOpFacts(op: Op, bank: string, doc: Doc)
    requires OpFits(op, bank, doc) && op.opcode != Insert
    ensures OldOp(op)
    ensures 0 < op.chars <= |doc| && LinesTrue(op.lines, Text(doc[..op.chars]))
    ensures Emit(op, bank, doc) == if op.opcode == Keep then Restyle(doc[..op.chars], op.attribs) else []
  {}

  lemma RestyledText(d: Doc, a: Attribs)
    ensures Text(Restyle(d, a)) == Text(d)
  {}

  // Both keep or delete the next characters of the common document.
  lemma {:induction false} OverlapConverges(a: seq<Op>, ba: string, b: seq<Op>, bb: string, reverse: bool, doc: Doc)
    requires Fits(a, ba, doc) && Fits(b, bb, doc)
    requires a != [] && b != [] && !Inserting(a) && !Inserting(b)
    ensures Converge(a, ba, b, bb, reverse, doc)
    decreases |a| + |b|, 0
  {
    hide OpFits, Fits, Apply, Emit, FollowAttributes, FollowRaw;
    Unfold(a, ba, doc);
    Unfold(b, bb, doc);
    var k, l := Overlap(a, ba, b, bb, doc);
    FollowConverges(Chop(a, k, l), ba, Chop(b, k, l), bb, reverse, doc[k..]);
    var f := FollowRaw(Chop(a, k, l), ba, Chop(b, k, l), bb, reverse);
    var g := FollowRaw(Chop(b, k, l), bb, Chop(a, k, l), ba, !reverse);
    OverlapFollow(a, ba, b, bb, reverse, k, l);
    OverlapFollow(b, bb, a, ba, !reverse, k, l);
    OverlapStep2(Part(a[0], k, l), Part(b[0], k, l), f, g, ba, bb, doc[..k],
                 Apply(Chop(a, k, l), ba, doc[k..]), Apply(Chop(b, k, l), bb, doc[k..]));
  }

  // The next stretch of the document that both ops cover.
  lemma {:induction false} Overlap(a: seq<Op>, ba: string, b: seq<Op>, bb: string, doc: Doc) returns (k: int, l: int)
    requires Fits(a, ba, doc) && Fits(b, bb, doc)
    requires a != [] && b != [] && !Inserting(a) && !Inserting(b)
    ensures if a[0].chars <= b[0].chars then k == a[0].chars && l == a[0].lines
            else k == b[0].chars && l == b[0].lines
    ensures b[0].chars <= a[0].chars ==> k == b[0].chars && l == b[0].lines
    ensures 0 < k <= |doc| && LinesTrue(l, Text(doc[..k]))
    ensures OldOp(a[0])
    ensures OldOp(b[0])
    ensures Fits(Chop(a, k, l), ba, doc[k..]) && Fits(Chop(b, k, l), bb, doc[k..])
    ensures Apply(a, ba, doc)
         == (if a[0].opcode == Keep then Restyle(doc[..k], a[0].attribs) else []) + Apply(Chop(a, k, l), ba, doc[k..])
    ensures Apply(b, bb, doc)
         == (if b[0].opcode == Keep then Restyle(doc[..k], b[0].attribs) else []) + Apply(Chop(b, k, l), bb, doc[k..])
  {
    hide Fits, Apply, Newlines, Text, Restyle;
    Unfold(a, ba, doc);
    Unfold(b, bb, doc);
    k, l := if a[0].chars <= b[0].chars then a[0].chars else b[0].chars,
            if a[0].chars <= b[0].chars then a[0].lines else b[0].lines;
    CutHead(a, ba, doc, k, l);
    CutHead(b, bb, doc, k, l);
  }

  ghost function OverlapEmits(pa: Op, pb: Op): seq<Op> {
    if pa.opcode == Delete then []
    else if pb.opcode == Delete then [pb]
    else [Op(Keep, pb.chars, pb.lines, FollowAttributes(pa.attribs, pb.attribs))]
  }

  lemma {:induction false} OverlapFollow(a: seq<Op>, ba: string, b: seq<Op>, bb: string, reverse: bool, k: int, l: int)
    requires a != [] && b != [] && !Inserting(a) && !Inserting(b)
    requires a[0].opcode == Keep || a[0].opcode == Delete
    requires b[0].opcode == Keep || b[0].opcode == Delete
    requires a[0].chars <= b[0].chars ==> k == a[0].chars && l == a[0].lines
    requires b[0].chars <= a[0].chars ==> k == b[0].chars && l == b[0].lines
    ensures FollowRaw(a, ba, b, bb, reverse)
         == OverlapEmits(Part(a[0], k, l), Part(b[0], k, l))
            + FollowRaw(Chop(a, k, l), ba, Chop(b, k, l), bb, reverse)
  {
    hide FollowAttributes;
    if k == b[0].chars { assert Part(b[0], k, l) == b[0]; }
  }

  lemma OverlapStep2(pa: Op, pb: Op, f: seq<Op>, g: seq<Op>, ba: string, bb: string, d: Doc, da: Doc, db: Doc)
    requires OldOp(pa)
    requires OldOp(pb)
    requires 0 < pa.chars == pb.chars == |d| && pa.lines == pb.lines && LinesTrue(pa.lines, Text(d))
    requires Fits(f, bb, da) && Fits(g, ba, db) && Apply(f, bb, da) == Apply(g, ba, db)
    ensures var ea := if pa.opcode == Keep then Restyle(d, pa.attribs) else [];
            var eb := if pb.opcode == Keep then Restyle(d, pb.attribs) else [];
            && Fits(OverlapEmits(pa, pb) + f, bb, ea + da) && Fits(OverlapEmits(pb, pa) + g, ba, eb + db)
            && Apply(OverlapEmits(pa, pb) + f, bb, ea + da) == Apply(OverlapEmits(pb, pa) + g, ba, eb + db)
  {
    hide Fits, Apply, LinesTrue, Text, Restyle, FollowAttributes;
    var ea := if pa.opcode == Keep then Restyle(d, pa.attribs) else [];
    var eb := if pb.opcode == Keep then Restyle(d, pb.attribs) else [];
    RestyledText(d, pa.attribs);
    RestyledText(d, pb.attribs);
    assert [] + f == f && [] + g == g && [] + da == da && [] + db == db;
    assert [] + Apply(f, bb, da) == Apply(f, bb, da) && [] + Apply(g, ba, db) == Apply(g, ba, db);
    if pa.opcode == Keep && pb.opcode == Keep {
      StylesConverge(d, pa.attribs, pb.attribs);
    }
    if pa.opcode == Keep { OldStep(OverlapEmits(pa, pb)[0], f, bb, ea, da); }
    if pb.opcode == Keep { OldStep(OverlapEmits(pb, pa)[0], g, ba, eb, db); }
  }
}
