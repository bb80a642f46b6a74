/**
 The normal form the op assemblers produce: neighbouring ops merged, deletions before
 insertions in every gap, and no plain keep at the end.
 */
module NormalForm {
  import opened Attributes
  import opened Changesets

  // ---------- merging

  // Text without newlines is not merged onto the end of a multi-line op.
  predicate Mergeable(p: Op, q: Op) {
    p.opcode == q.opcode && p.attribs == q.attribs && (q.lines > 0 || p.lines == 0)
  }

  function Merge2(p: Op, q: Op): Op { Op(p.opcode, p.chars + q.chars, p.lines + q.lines, p.attribs) }

  function Join(p: Op, ops: seq<Op>): seq<Op> {
    if ops != [] && Mergeable(p, ops[0]) then [Merge2(p, ops[0])] + ops[1..] else [p] + ops
  }

  // An insertion goes behind the deletions of its gap.
  function InsertPast(p: Op, ops: seq<Op>): seq<Op> {
    if ops != [] && ops[0].opcode == Delete then [ops[0]] + InsertPast(p, ops[1..]) else Join(p, ops)
  }

  // `ops` is in normal form; put `p` in front of it.
  function AddFront(p: Op, ops: seq<Op>, trim: bool): seq<Op> {
    if p.opcode == NoOp || p.chars <= 0 then ops
    else if p.opcode == Insert then InsertPast(p, ops)
    else if trim && p.opcode == Keep && p.attribs == [] && ops == [] then []
    else Join(p, ops)
  }

  // `trim` is whether `endDocument` was called, which drops plain keeps at the end.
  function Normal(ops: seq<Op>, trim: bool): seq<Op> {
    if ops == [] then [] else AddFront(ops[0], Normal(ops[1..], trim), trim)
  }

  // ---------- the effect is unchanged

  // `qs` does to `doc` what `ps` does.
  ghost predicate SameEffect(ps: seq<Op>, qs: seq<Op>, bank: string, doc: Doc)
    requires Fits(ps, bank, doc)
  {
    Fits(qs, bank, doc) && Apply(qs, bank, doc) == Apply(ps, bank, doc)
  }

  lemma SameEffectPush(p: Op, ps: seq<Op>, qs: seq<Op>, bank: string, doc: Doc)
    requires Fits([p] + ps, bank, doc)
    requires OpFits(p, bank, doc) ==>
               Fits(ps, bank[BankUse(p)..], doc[DocUse(p)..]) ==>
                 SameEffect(ps, qs, bank[BankUse(p)..], doc[DocUse(p)..])
    ensures SameEffect([p] + ps, [p] + qs, bank, doc)
  {
    hide OpFits, Fits, Apply, Emit;
    Unfold([p] + ps, bank, doc);
    assert ([p] + ps)[1..] == ps;
    FitBounds(p, bank, doc);
    Push(p, qs, bank, doc);
  }

  lemma MergedLines(p: Op, q: Op, s: string)
    requires 0 < p.chars && 0 < q.chars && |s| == p.chars + q.chars && Mergeable(p, q)
    requires LinesTrue(p.lines, s[..p.chars]) && LinesTrue(q.lines, s[p.chars..])
    ensures LinesTrue(p.lines + q.lines, s)
  {
    LinesTrueJoin(q.lines, p.lines, s, p.chars);
  }

  lemma MergeFits(p: Op, q: Op, bank: string, doc: Doc)
    requires OpFits(p, bank, doc) && OpFits(q, bank[BankUse(p)..], doc[DocUse(p)..]) && Mergeable(p, q)
    ensures OpFits(Merge2(p, q), bank, doc)
    ensures Emit(Merge2(p, q), bank, doc) == Emit(p, bank, doc) + Emit(q, bank[BankUse(p)..], doc[DocUse(p)..])
  {
    hide LinesTrue, Typed, Restyle, Text;
    var n := p.chars + q.chars;
    if p.opcode == Insert {
      TakeParts(bank, p.chars, n);
      TypedParts(bank[..n], p.chars, p.attribs);
      MergedLines(p, q, bank[..n]);
    } else {
      TakeParts(doc, p.chars, n);
      TextParts(doc[..n], p.chars);
      RestyleParts(doc[..n], p.chars, p.attribs);
      MergedLines(p, q, Text(doc[..n]));
    }
  }

  lemma JoinEffect(p: Op, ops: seq<Op>, bank: string, doc: Doc)
    requires Fits([p] + ops, bank, doc)
    ensures SameEffect([p] + ops, Join(p, ops), bank, doc)
  {
    hide OpFits, Fits, Apply, Emit;
    if ops != [] && Mergeable(p, ops[0]) {
      var q, rest := ops[0], ops[1..];
      assert ([p] + ops)[1..] == ops;
      Unfold([p] + ops, bank, doc);
      var bank', doc' := bank[BankUse(p)..], doc[DocUse(p)..];
      Unfold(ops, bank', doc');
      MergeFits(p, q, bank, doc);
      if p.opcode == Insert {
        DropTwice(bank, p.chars, q.chars);
      } else {
        FitBounds(p, bank, doc);
        DropTwice(doc, DocUse(p), DocUse(q));
      }
      var bank'', doc'' := bank'[BankUse(q)..], doc'[DocUse(q)..];
      Push(Merge2(p, q), rest, bank, doc);
      Regroup(Emit(p, bank, doc), Emit(q, bank', doc'), Apply(rest, bank'', doc''));
    }
  }

  // Moving an insertion behind a deletion.
  lemma SwapEffect(p: Op, d: Op, rest: seq<Op>, bank: string, doc: Doc)
    requires p.opcode == Insert && d.opcode == Delete && Fits([p] + ([d] + rest), bank, doc)
    ensures SameEffect([p] + ([d] + rest), [d] + ([p] + rest), bank, doc)
  {
    hide OpFits, Fits, Apply, Emit;
    assert ([p] + ([d] + rest))[1..] == [d] + rest && ([d] + rest)[1..] == rest;
    Unfold([p] + ([d] + rest), bank, doc);
    var bank' := bank[p.chars..];
    Unfold([d] + rest, bank', doc);
    SwapFits(p, d, bank, doc);
    Push(p, rest, bank, doc[d.chars..]);
    Push(d, [p] + rest, bank, doc);
    assert [] + Apply(rest, bank', doc[d.chars..]) == Apply(rest, bank', doc[d.chars..]);
    assert [] + Apply([p] + rest, bank, doc[d.chars..]) == Apply([p] + rest, bank, doc[d.chars..]);
  }

  lemma SwapFits(p: Op, d: Op, bank: string, doc: Doc)
    requires p.opcode == Insert && d.opcode == Delete
    requires OpFits(p, bank, doc) && OpFits(d, bank[p.chars..], doc)
    ensures OpFits(d, bank, doc) && OpFits(p, bank, doc[d.chars..])
    ensures Emit(p, bank, doc[d.chars..]) == Emit(p, bank, doc)
    ensures Emit(d, bank, doc) == [] && Emit(d, bank[p.chars..], doc) == []
  {}

  lemma {:induction false} InsertPastEffect(p: Op, ops: seq<Op>, bank: string, doc: Doc)
    requires p.opcode == Insert && Fits([p] + ops, bank, doc)
    ensures SameEffect([p] + ops, InsertPast(p, ops), bank, doc)
    decreases |ops|
  {
    hide OpFits, Fits, Apply, Emit;
    if ops != [] && ops[0].opcode == Delete {
      var d, rest := ops[0], ops[1..];
      assert ops == [d] + rest;
      SwapEffect(p, d, rest, bank, doc);
      Unfold([d] + ([p] + rest), bank, doc);
      assert ([d] + ([p] + rest))[1..] == [p] + rest;
      InsertPastEffect(p, rest, bank, doc[d.chars..]);
      SameEffectPush(d, [p] + rest, InsertPast(p, rest), bank, doc);
    } else {
      JoinEffect(p, ops, bank, doc);
    }
  }

  lemma TrimEffect(p: Op, bank: string, doc: Doc)
    requires p.opcode == Keep && p.attribs == [] && Fits([p], bank, doc)
    ensures SameEffect([p], [], bank, doc)
  {
    hide ComposeAttributes;
    Unfold([p], bank, doc);
    forall i | 0 <= i < p.chars ensures Restyled(doc[i], []) == doc[i] { ComposeUnits(doc[i].attribs, doc[i].Old?); }
    assert Emit(p, bank, doc) == doc[..p.chars];
  }

  // Whatever the assembler is given, what it produces has the same effect.
  lemma {:induction false} NormalEffect(ops: seq<Op>, trim: bool, bank: string, doc: Doc)
    requires Fits(ops, bank, doc)
    ensures SameEffect(ops, Normal(ops, trim), bank, doc)
    decreases |ops|
  {
    hide OpFits, Fits, Apply, Emit;
    if ops != [] {
      var p, n := ops[0], Normal(ops[1..], trim);
      Unfold(ops, bank, doc);
      FitBounds(p, bank, doc);
      NormalEffect(ops[1..], trim, bank[BankUse(p)..], doc[DocUse(p)..]);
      assert ops == [p] + ops[1..];
      SameEffectPush(p, ops[1..], n, bank, doc);
      if p.opcode == Insert {
        InsertPastEffect(p, n, bank, doc);
      } else if trim && p.opcode == Keep && p.attribs == [] && n == [] {
        assert [p] + n == [p];
        TrimEffect(p, bank, doc);
      } else {
        JoinEffect(p, n, bank, doc);
      }
    }
  }
}
