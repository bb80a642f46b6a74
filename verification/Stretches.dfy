/** Changesets that replace one stretch of a text, and the ops they have. */
module Stretches {
  import opened Attributes
  import opened Changesets
  import opened Composition
  import opened NormalForm
  import opened Views
  import opened Algebra
  import opened Laws
  import opened SmartAssembler
  import opened Splicing

  // ---------- ops that the assembler leaves as they are

  ghost predicate Separate(p: Op, q: Op) {
    !Mergeable(p, q) && !(p.opcode == Insert && q.opcode == Delete)
  }

  ghost predicate Ordered(ops: seq<Op>) {
    && (forall i :: 0 <= i < |ops| ==> ops[i].opcode != NoOp && 0 < ops[i].chars)
    && (forall i :: 0 < i < |ops| ==> Separate(ops[i - 1], ops[i]))
  }

  lemma {:induction false} OrderedIsNormal(ops: seq<Op>)
    requires Ordered(ops) && (ops != [] ==> ops[|ops| - 1].opcode != Keep)
    ensures Normal(ops, true) == ops
  {
    if ops != [] {
      var rest := ops[1..];
      forall i | 0 < i < |rest| ensures Separate(rest[i - 1], rest[i]) { assert Separate(ops[i], ops[i + 1]); }
      OrderedIsNormal(rest);
      if rest != [] { assert Separate(ops[0], ops[1]); }
      assert ops == [ops[0]] + rest;
    }
  }

  lemma {:induction false} OrderedConcat(p: seq<Op>, q: seq<Op>)
    requires Ordered(p) && Ordered(q) && (p != [] && q != [] ==> Separate(p[|p| - 1], q[0]))
    ensures Ordered(p + q)
  {
    var r := p + q;
    forall i | 0 < i < |r| ensures Separate(r[i - 1], r[i]) {
      if i < |p| {
        assert Separate(p[i - 1], p[i]);
      } else if i > |p| {
        assert Separate(q[i - 1 - |p|], q[i - |p|]);
      }
    }
  }

  // ---------- the ops of a stretch

  // How many ops a stretch of text takes: what comes behind its last newline has an op of its
  // own.
  function Pieces(x: string): nat {
    if x == "" then 0 else if '\n' in x && x[|x| - 1] != '\n' then 2 else 1
  }

  ghost predicate AllOf(ops: seq<Op>, opcode: Opcode, a: Attribs) {
    forall i :: 0 <= i < |ops| ==> ops[i].opcode == opcode && ops[i].attribs == a
  }

  lemma {:induction false} PiecesOf(opcode: Opcode, x: string, a: Attribs)
    requires opcode != NoOp
    ensures var ops := TextOps(opcode, x, a);
            Ordered(ops) && AllOf(ops, opcode, a) && |ops| == Pieces(x)
  {
    hide Newlines, LastNewlineIndex, Counted, Ordered, AllOf;
    var p := LastNewlineIndex(x);
    LastIndexMeans(x);
    if p >= 0 {
      CountsSome(x, p);
      TwoPieces(Op(opcode, p + 1, Newlines(x), a), Op(opcode, |x| - (p + 1), 0, a));
    } else {
      OnePiece(Op(opcode, |x|, 0, a));
    }
  }

  lemma OnePiece(op: Op)
    requires op.opcode != NoOp && 0 <= op.chars
    ensures var ops := Counted(op);
            Ordered(ops) && AllOf(ops, op.opcode, op.attribs) && |ops| == if op.chars == 0 then 0 else 1
  {}

  lemma TwoPieces(p: Op, q: Op)
    requires p.opcode == q.opcode != NoOp && p.attribs == q.attribs
    requires 0 < p.chars && 0 < p.lines && 0 <= q.chars && q.lines == 0
    ensures var ops := Counted(p) + Counted(q);
            Ordered(ops) && AllOf(ops, p.opcode, p.attribs) && |ops| == if q.chars == 0 then 1 else 2
  {}

  lemma LastIndexMeans(x: string)
    ensures var p := LastNewlineIndex(x);
            && -1 <= p < |x| && (p < 0 <==> '\n' !in x)
            && (p == |x| - 1 <==> x == "" || x[|x| - 1] == '\n')
  {
    var p := LastNewlineIndex(x);
    if p >= 0 { assert x[p] in x; }
  }

  lemma CountsSome(x: string, p: nat)
    requires p < |x| && x[p] == '\n'
    ensures Newlines(x) > 0
  {
    NewlinesSplit(x, p);
    assert x[p..][0] == '\n';
  }

  // ---------- one stretch replaced

  // From position `s` on, `n` characters are deleted and `x` is typed with the attributes `a`.
  ghost predicate Replaces(c: Changeset, t: string, s: nat, n: nat, x: string, a: Attribs) {
    && IsFor(c, t) && s + n < |t|
    && ViewOf(c, t) == Untouched(t)[..s] + Typed(x, a) + Untouched(t)[s + n..]
  }

  ghost predicate TypesAt(c: Changeset, t: string, s: nat, x: string, a: Attribs) { Replaces(c, t, s, 0, x, a) }

  ghost predicate DeletesAt(c: Changeset, t: string, s: nat, n: nat) { Replaces(c, t, s, n, "", []) }

  ghost function StretchOps(t: string, s: nat, n: nat, x: string, a: Attribs): seq<Op>
    requires s + n <= |t|
  {
    TextOps(Keep, t[..s], []) + TextOps(Delete, t[s..s + n], []) + TextOps(Insert, x, a)
  }

  lemma {:induction false} StretchIsOrdered(t: string, s: nat, n: nat, x: string, a: Attribs)
    requires s + n <= |t|
    ensures Ordered(StretchOps(t, s, n, x, a))
    ensures n > 0 || x != "" ==> Normal(StretchOps(t, s, n, x, a), true) == StretchOps(t, s, n, x, a)
  {
    hide TextOps;
    var k, d, i := TextOps(Keep, t[..s], []), TextOps(Delete, t[s..s + n], []), TextOps(Insert, x, a);
    PiecesOf(Keep, t[..s], []);
    PiecesOf(Delete, t[s..s + n], []);
    PiecesOf(Insert, x, a);
    OrderedConcat(k, d);
    OrderedConcat(k + d, i);
    if n > 0 || x != "" { OrderedIsNormal(k + d + i); }
  }

  lemma ReplacingOps(c: Changeset, t: string, s: nat, n: nat, x: string, a: Attribs)
    requires Replaces(c, t, s, n, x, a) && (n > 0 || x != "")
    ensures c.ops == StretchOps(t, s, n, x, a) && c.bank == x && c.oldLen == |t| && c.newLen == |t| - n + |x|
  {
    hide Fits, Apply, Normal, Safe, TextOps, Typed, Untouched;
    var u := Untouched(t);
    TextOfUntouched(t);
    SplicingFits(t, s, n, x, a, u);
    SameViewSameForm(c.ops, c.bank, StretchOps(t, s, n, x, a), x, t);
    StretchIsOrdered(t, s, n, x, a);
    OnDocument(c, t, u);
    assert |u| == |t| && |Typed(x, a)| == |x|;
  }

  // It does so in every document with the text.
  lemma ReplacingOn(c: Changeset, t: string, s: nat, n: nat, x: string, a: Attribs, d: Doc)
    requires Replaces(c, t, s, n, x, a) && (n > 0 || x != "") && Text(d) == t
    ensures s + n < |d| == |t| && Fits(c.ops, c.bank, d) && After(c, d) == d[..s] + Typed(x, a) + d[s + n..]
  {
    hide Fits, Apply, Normal, Safe, TextOps, Typed, Untouched, Text;
    ReplacingOps(c, t, s, n, x, a);
    SplicingFits(t, s, n, x, a, d);
    TextOfLength(d);
  }

  lemma TextOfLength(d: Doc)
    ensures |Text(d)| == |d|
  {}
}
