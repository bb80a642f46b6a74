/** Ops that use up a stretch of a document exactly, and putting such stretches together. */
module Covering {
  import opened Attributes
  import opened Changesets
  import opened Composition
  import opened Views
  import opened Algebra

  ghost function DocTotal(ops: seq<Op>): int {
    if ops == [] then 0 else DocUse(ops[0]) + DocTotal(ops[1..])
  }

  // The ops fit `doc` and leave none of it to be kept implicitly.
  ghost predicate Covers(ops: seq<Op>, bank: string, doc: Doc) {
    Fits(ops, bank, doc) && DocTotal(ops) == |doc|
  }

  lemma CoverSlices(b: string, b': string, d: Doc, d': Doc, i: int, j: int)
    requires 0 <= i <= |b| && 0 <= j <= |d|
    ensures (b + b')[..i] == b[..i] && (b + b')[i..] == b[i..] + b'
    ensures (d + d')[..j] == d[..j] && (d + d')[j..] == d[j..] + d'
  {}

  lemma OpFitsMore(op: Op, b: string, b': string, d: Doc, d': Doc)
    requires OpFits(op, b, d)
    ensures OpFits(op, b + b', d + d') && Emit(op, b + b', d + d') == Emit(op, b, d)
    ensures (b + b')[BankUse(op)..] == b[BankUse(op)..] + b' && (d + d')[DocUse(op)..] == d[DocUse(op)..] + d'
  {
    hide LinesTrue, Text, Restyle, Typed;
    CoverSlices(b, b', d, d', BankUse(op), DocUse(op));
  }

  // Ops that cover `d` followed by ops that fit `e`.
  lemma {:induction false} CoverThen(p: seq<Op>, bp: string, d: Doc, q: seq<Op>, bq: string, e: Doc)
    requires Covers(p, bp, d) && Fits(q, bq, e)
    ensures Fits(p + q, bp + bq, d + e)
    ensures Apply(p + q, bp + bq, d + e) == Apply(p, bp, d) + Apply(q, bq, e)
    decreases |p|
  {
    hide OpFits, Fits, Apply, Emit;
    if p == [] {
      NothingToDo(bp, d);
      assert p + q == q && bp + bq == bq && d + e == e;
      assert [] + Apply(q, bq, e) == Apply(q, bq, e);
    } else {
      Unfold(p, bp, d);
      FitBounds(p[0], bp, d);
      var bp', d' := bp[BankUse(p[0])..], d[DocUse(p[0])..];
      CoverThen(p[1..], bp', d', q, bq, e);
      OpFitsMore(p[0], bp, bq, d, e);
      Push(p[0], p[1..] + q, bp + bq, d + e);
      assert p + q == [p[0]] + (p[1..] + q);
      Regroup(Emit(p[0], bp, d), Apply(p[1..], bp', d'), Apply(q, bq, e));
    }
  }

  lemma {:induction false} DocTotalConcat(p: seq<Op>, q: seq<Op>)
    ensures DocTotal(p + q) == DocTotal(p) + DocTotal(q)
  {
    if p == [] {
      assert p + q == q;
    } else {
      DocTotalConcat(p[1..], q);
      assert (p + q)[1..] == p[1..] + q;
    }
  }

  lemma CoverConcat(p: seq<Op>, bp: string, d: Doc, q: seq<Op>, bq: string, e: Doc)
    requires Covers(p, bp, d) && Covers(q, bq, e)
    ensures Covers(p + q, bp + bq, d + e)
    ensures Apply(p + q, bp + bq, d + e) == Apply(p, bp, d) + Apply(q, bq, e)
  {
    hide Fits, Apply;
    CoverThen(p, bp, d, q, bq, e);
    DocTotalConcat(p, q);
  }

  lemma CoverOne(op: Op, bank: string, doc: Doc)
    requires OpFits(op, bank, doc) && BankUse(op) == |bank| && DocUse(op) == |doc|
    ensures Covers([op], bank, doc) && Apply([op], bank, doc) == Emit(op, bank, doc)
  {
    hide OpFits, Emit;
    assert bank[BankUse(op)..] == "" && doc[DocUse(op)..] == [];
    CoverNone();
    Push(op, [], bank, doc);
    assert [op] + [] == [op] && [op][1..] == [];
    assert DocTotal([op]) == DocUse(op) + DocTotal([op][1..]);
    assert Emit(op, bank, doc) + [] == Emit(op, bank, doc);
  }

  lemma CoverNone()
    ensures Covers([], "", []) && Apply([], "", []) == []
  {}

  lemma OpFitsLess(op: Op, bank: string, doc: Doc)
    requires OpFits(op, bank, doc)
    ensures OpFits(op, bank[..BankUse(op)], doc[..DocUse(op)])
    ensures Emit(op, bank[..BankUse(op)], doc[..DocUse(op)]) == Emit(op, bank, doc)
  {
    hide LinesTrue, Text, Restyle, Typed;
    assert bank[..BankUse(op)][..BankUse(op)] == bank[..BankUse(op)];
    assert doc[..DocUse(op)][..DocUse(op)] == doc[..DocUse(op)];
  }
}
