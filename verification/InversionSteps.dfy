/** The ops an inverse is made of, and their effect one changeset op at a time. */
module InversionSteps {
  import opened Attributes
  import opened Changesets
  import opened Composition
  import opened Following
  import opened NormalForm
  import opened Views
  import opened Algebra
  import opened Laws
  import opened SmartAssembler
  import opened Covering
  import opened Inversion

  // ---------- the ops

  ghost function KeepOp(r: Run, a: Attribs): Op {
    Op(Keep, r.len, EndLines(r), UndoAttributes(r.attribs, a))
  }

  ghost function KeepOps(runs: seq<Run>, a: Attribs): seq<Op> {
    if runs == [] then [] else [KeepOp(runs[0], a)] + KeepOps(runs[1..], a)
  }

  ghost function TypeOps(runs: seq<Run>, text: string): seq<Op> {
    if runs == [] then []
    else TextOps(Insert, Take(text, runs[0].len), runs[0].attribs) + TypeOps(runs[1..], Drop(text, runs[0].len))
  }

  // ---------- styled keeps

  lemma UndoneCellsSplit(g: Doc, d: Doc, a: Attribs, k: nat)
    requires k <= |g| == |d|
    ensures UndoneCells(g, d, a) == UndoneCells(g[..k], d[..k], a) + UndoneCells(g[k..], d[k..], a)
  {
    hide UndoneCell;
  }

  lemma KeepRun(r: Run, a: Attribs, g: Doc, d: Doc)
    requires IsRun(r, d) && |g| == |d| && Text(g) == Text(d)
    ensures Covers([KeepOp(r, a)], "", Restyle(g, a))
    ensures Apply([KeepOp(r, a)], "", Restyle(g, a)) == UndoneCells(g, d, a)
  {
    hide LinesTrue, ComposeAttributes, UndoAttributes;
    RestyledText(g, a);
    assert Restyle(g, a)[..r.len] == Restyle(g, a);
    CoverOne(KeepOp(r, a), "", Restyle(g, a));
  }

  lemma {:induction false} KeepRuns(runs: seq<Run>, a: Attribs, g: Doc, d: Doc)
    requires AreRuns(runs, d) && |g| == |d| && Text(g) == Text(d)
    ensures Covers(KeepOps(runs, a), "", Restyle(g, a))
    ensures Apply(KeepOps(runs, a), "", Restyle(g, a)) == UndoneCells(g, d, a)
    decreases |runs|
  {
    hide Covers, Apply, IsRun, Fits, Text, UndoneCells, Restyle;
    if runs == [] {
      CoverNone();
      assert g == [];
      assert Restyle(g, a) == [] && UndoneCells(g, d, a) == [];
    } else {
      var k := runs[0].len;
      TextParts(g, k);
      TextParts(d, k);
      KeepRun(runs[0], a, g[..k], d[..k]);
      KeepRuns(runs[1..], a, g[k..], d[k..]);
      RestyleParts(g, k, a);
      UndoneCellsSplit(g, d, a, k);
      CoverConcat([KeepOp(runs[0], a)], "", Restyle(g[..k], a), KeepOps(runs[1..], a), "", Restyle(g[k..], a));
      assert "" + "" == "";
    }
  }

  // ---------- deleted text typed again

  lemma {:induction false} LastLineBreak(s: string)
    ensures LastNewlineIndex(s) < 0 ==> Newlines(s) == 0
    ensures LinesTrue(1, s) ==> LastNewlineIndex(s) == |s| - 1
  {
    if Newlines(s) > 0 { HasNewline(s); }
  }

  lemma {:induction false} HasNewline(s: string)
    requires Newlines(s) > 0
    ensures exists i :: 0 <= i < |s| && s[i] == '\n'
  {
    if s[0] != '\n' {
      HasNewline(s[1..]);
      var i :| 0 <= i < |s[1..]| && s[1..][i] == '\n';
      assert s[i + 1] == '\n';
    }
  }

  lemma NoNewline(s: string, i: int)
    requires 0 <= i < |s|
    ensures s[i] == '\n' ==> Newlines(s) > 0
  {
    NewlinesSplit(s, i);
    assert s[i..][0] == s[i];
  }

  lemma TypeRunOp(r: Run, d: Doc)
    requires IsRun(r, d)
    ensures TextOps(Insert, Text(d), r.attribs) == [Op(Insert, r.len, EndLines(r), r.attribs)]
  {
    var s := Text(d);
    LastLineBreak(s);
    if !r.endsLine && LastNewlineIndex(s) >= 0 {
      NoNewline(s, LastNewlineIndex(s));
    }
  }

  lemma TypeRun(r: Run, d: Doc)
    requires IsRun(r, d)
    ensures Covers(TextOps(Insert, Text(d), r.attribs), Text(d), [])
    ensures Apply(TextOps(Insert, Text(d), r.attribs), Text(d), []) == d
  {
    TypeRunOp(r, d);
    var op := Op(Insert, r.len, EndLines(r), r.attribs);
    assert Text(d)[..r.len] == Text(d);
    assert Typed(Text(d), r.attribs) == d;
    CoverOne(op, Text(d), []);
  }

  lemma SplitAt(d: Doc, k: int)
    requires 0 <= k <= |d|
    ensures d == d[..k] + d[k..] && Text(d) == Text(d[..k]) + Text(d[k..])
    ensures Take(Text(d), k) == Text(d[..k]) && Drop(Text(d), k) == Text(d[k..])
  {
    hide Text;
    TextParts(d, k);
    assert Text(d) == Text(d)[..k] + Text(d)[k..];
  }

  lemma {:induction false} TypeOpsHead(runs: seq<Run>, d: Doc)
    requires runs != [] && AreRuns(runs, d)
    ensures var k := runs[0].len;
            && 0 <= k <= |d| && IsRun(runs[0], d[..k]) && AreRuns(runs[1..], d[k..])
            && TypeOps(runs, Text(d)) == TextOps(Insert, Text(d[..k]), runs[0].attribs)
                + TypeOps(runs[1..], Text(d[k..]))
            && Text(d) == Text(d[..k]) + Text(d[k..]) && d == d[..k] + d[k..]
  {
    hide IsRun, Text, TextOps, Take, Drop;
    SplitAt(d, runs[0].len);
  }

  lemma {:induction false} TypeRuns(runs: seq<Run>, d: Doc)
    requires AreRuns(runs, d)
    ensures Covers(TypeOps(runs, Text(d)), Text(d), [])
    ensures Apply(TypeOps(runs, Text(d)), Text(d), []) == d
    decreases |runs|
  {
    hide Covers, Apply, IsRun, Fits, Text, TextOps, TypeOps, AreRuns;
    if runs == [] {
      NoRuns(d);
      CoverNone();
    } else {
      var k := runs[0].len;
      TypeOpsHead(runs, d);
      TypeRun(runs[0], d[..k]);
      TypeRuns(runs[1..], d[k..]);
      CoverConcat(TextOps(Insert, Text(d[..k]), runs[0].attribs), Text(d[..k]), [],
                  TypeOps(runs[1..], Text(d[k..])), Text(d[k..]), []);
      var none: Doc := [];
      assert none + none == none;
    }
  }

  lemma NoRuns(d: Doc)
    requires AreRuns([], d)
    ensures d == [] && Text(d) == "" && TypeOps([], "") == []
  {}

  // ---------- the ops so far undo the changeset so far

  // On a document `g` with the text of `d`.
  ghost predicate UndoesOn(raw: seq<Op>, bank: string, ops: seq<Op>, cb: string, d: Doc, g: Doc) {
    && Covers(ops, cb, g)
    && Covers(raw, bank, Apply(ops, cb, g))
    && |g| == |d| && Apply(raw, bank, Apply(ops, cb, g)) == Undone(ops, cb, g, d)
  }

  // On the stretch `d` of the document, whatever the attributes of the characters there.
  ghost predicate Undoes(raw: seq<Op>, bank: string, ops: seq<Op>, cb: string, d: Doc) {
    forall g: Doc | Text(g) == Text(d) :: UndoesOn(raw, bank, ops, cb, d, g)
  }

  lemma UndoesNothing()
    ensures Undoes([], "", [], "", [])
  {
    CoverNone();
  }

  lemma {:induction false} UndoneConcat(p: seq<Op>, bp: string, g: Doc, d: Doc, q: seq<Op>, bq: string, g': Doc,
      d': Doc)
    requires Covers(p, bp, g) && |g| == |d| && Fits(q, bq, g') && |g'| == |d'|
    ensures Fits(p + q, bp + bq, g + g')
    ensures Undone(p + q, bp + bq, g + g', d + d') == Undone(p, bp, g, d) + Undone(q, bq, g', d')
    decreases |p|
  {
    hide OpFits, Fits, Apply, Emit, UndoneBy, Undone;
    CoverThen(p, bp, g, q, bq, g');
    if p == [] {
      NothingToDo(bp, g);
      assert p + q == q && bp + bq == bq && g + g' == g' && d + d' == d';
      UndoneNone(bp, g, d);
      assert [] + Undone(q, bq, g', d') == Undone(q, bq, g', d');
    } else {
      var op := p[0];
      Unfold(p, bp, g);
      FitBounds(op, bp, g);
      var b1, g1, d1 := bp[BankUse(op)..], g[DocUse(op)..], d[DocUse(op)..];
      UndoneConcat(p[1..], b1, g1, d1, q, bq, g', d');
      CoverSlices(bp, bq, g, g', BankUse(op), DocUse(op));
      CoverSlices(bp, bq, d, d', BankUse(op), DocUse(op));
      assert (p + q)[0] == op && (p + q)[1..] == p[1..] + q;
      UndoneByMore(op, g, d, g', d');
      UndoneHead(p, bp, g, d);
      UndoneHead(p + q, bp + bq, g + g', d + d');
      Regroup(UndoneBy(op, g, d), Undone(p[1..], b1, g1, d1), Undone(q, bq, g', d'));
    }
  }

  lemma UndoneByMore(op: Op, g: Doc, d: Doc, g': Doc, d': Doc)
    requires 0 <= DocUse(op) <= |g| == |d| && |g'| == |d'|
    ensures UndoneBy(op, g + g', d + d') == UndoneBy(op, g, d)
  {
    hide UndoneCell;
    CoverSlices("", "", g, g', 0, DocUse(op));
    CoverSlices("", "", d, d', 0, DocUse(op));
  }

  lemma UndoneNone(bank: string, g: Doc, d: Doc)
    requires Fits([], bank, g) && |g| == |d|
    ensures Undone([], bank, g, d) == g
  {}

  lemma UndoneHead(ops: seq<Op>, bank: string, g: Doc, d: Doc)
    requires ops != [] && Fits(ops, bank, g) && |g| == |d|
    ensures OpFits(ops[0], bank, g) && 0 <= BankUse(ops[0]) <= |bank| && 0 <= DocUse(ops[0]) <= |g|
    ensures Fits(ops[1..], bank[BankUse(ops[0])..], g[DocUse(ops[0])..])
    ensures Undone(ops, bank, g, d)
         == UndoneBy(ops[0], g, d)
            + Undone(ops[1..], bank[BankUse(ops[0])..], g[DocUse(ops[0])..], d[DocUse(ops[0])..])
  {
    hide Apply, Emit, UndoneBy, OpFits;
    Unfold(ops, bank, g);
  }

  // Two undone stretches side by side.
  lemma UndoesConcat(raw: seq<Op>, bank: string, ops: seq<Op>, cb: string, d: Doc,
                     raw': seq<Op>, bank': string, ops': seq<Op>, cb': string, d': Doc)
    requires Undoes(raw, bank, ops, cb, d) && Undoes(raw', bank', ops', cb', d')
    ensures Undoes(raw + raw', bank + bank', ops + ops', cb + cb', d + d')
  {
    hide UndoesOn, Text;
    forall g: Doc | Text(g) == Text(d + d')
      ensures UndoesOn(raw + raw', bank + bank', ops + ops', cb + cb', d + d', g)
    {
      var g1, g2 := g[..|d|], g[|d|..];
      TextParts(g, |d|);
      TextParts(d + d', |d|);
      assert (d + d')[..|d|] == d && (d + d')[|d|..] == d' && g == g1 + g2;
      UndoesBoth(raw, bank, ops, cb, d, raw', bank', ops', cb', d', g1, g2);
    }
  }

  lemma UndoesBoth(raw: seq<Op>, bank: string, ops: seq<Op>, cb: string, d: Doc,
                   raw': seq<Op>, bank': string, ops': seq<Op>, cb': string, d': Doc, g1: Doc, g2: Doc)
    requires UndoesOn(raw, bank, ops, cb, d, g1) && UndoesOn(raw', bank', ops', cb', d', g2)
    ensures UndoesOn(raw + raw', bank + bank', ops + ops', cb + cb', d + d', g1 + g2)
  {
    hide Apply, Fits, Undone, Text, DocTotal;
    CoverConcat(ops, cb, g1, ops', cb', g2);
    CoverConcat(raw, bank, Apply(ops, cb, g1), raw', bank', Apply(ops', cb', g2));
    UndoneConcat(ops, cb, g1, d, ops', cb', g2, d');
  }

  // ---------- one op of the changeset

  lemma UndoneOne(op: Op, bank: string, g: Doc, d: Doc)
    requires Covers([op], bank, g) && |g| == |d|
    ensures 0 <= DocUse(op) == |g| && OpFits(op, bank, g)
    ensures Undone([op], bank, g, d) == UndoneBy(op, g, d)
    ensures Apply([op], bank, g) == Emit(op, bank, g)
  {
    hide UndoneBy, OpFits, Emit;
    assert [op][1..] == [];
    UndoneHead([op], bank, g, d);
    Unfold([op], bank, g);
    assert DocTotal([op]) == DocUse(op) + DocTotal([]);
    assert g[DocUse(op)..] == [];
    var b := bank[BankUse(op)..];
    NothingToDo(b, []);
    UndoneNone(b, [], []);
    assert Emit(op, bank, g) + [] == Emit(op, bank, g);
    assert UndoneBy(op, g, d) + [] == UndoneBy(op, g, d);
  }

  // An op that keeps or deletes exactly the stretch `d`.
  ghost predicate OpOver(op: Op, d: Doc) {
    OldOp(op) && 0 < op.chars == |d| && LinesTrue(op.lines, Text(d))
  }

  lemma OpOverCovers(op: Op, d: Doc, g: Doc)
    requires OpOver(op, d) && Text(g) == Text(d)
    ensures |g| == |d| && OpOver(op, g) && Covers([op], "", g)
    ensures Emit(op, "", g) == if op.opcode == Keep then Restyle(g, op.attribs) else []
  {
    hide LinesTrue, Restyle;
    assert g[..op.chars] == g;
    CoverOne(op, "", g);
  }

  lemma KeepPlainUndoes(op: Op, d: Doc)
    requires OpOver(op, d) && op.opcode == Keep && op.attribs == []
    ensures Undoes([op], "", [op], "", d)
  {
    hide OpOver, Covers, Restyle, Text, Undone, Apply, Emit, ComposeAttributes;
    forall g: Doc | Text(g) == Text(d) ensures UndoesOn([op], "", [op], "", d, g) {
      OpOverCovers(op, d, g);
      UndoneOne(op, "", g, d);
      StyleNothing(g);
      assert g[..op.chars] == g;
    }
  }

  lemma KeepStyledUndoes(op: Op, runs: seq<Run>, d: Doc)
    requires OpOver(op, d) && op.opcode == Keep && op.attribs != [] && AreRuns(runs, d)
    ensures Undoes(KeepOps(runs, op.attribs), "", [op], "", d)
  {
    hide OpOver, Covers, Restyle, Text, Undone, Apply, Emit, AreRuns, KeepOps, UndoneCells;
    forall g: Doc | Text(g) == Text(d) ensures UndoesOn(KeepOps(runs, op.attribs), "", [op], "", d, g) {
      OpOverCovers(op, d, g);
      UndoneOne(op, "", g, d);
      KeepRuns(runs, op.attribs, g, d);
      assert g[..op.chars] == g && d[..op.chars] == d;
    }
  }

  lemma DeleteUndoes(op: Op, runs: seq<Run>, d: Doc)
    requires OpOver(op, d) && op.opcode == Delete && AreRuns(runs, d)
    ensures Undoes(TypeOps(runs, Text(d)), Text(d), [op], "", d)
  {
    hide OpOver, Covers, Restyle, Text, Undone, Apply, Emit, AreRuns, TypeOps, UndoneCells;
    TypeRuns(runs, d);
    forall g: Doc | Text(g) == Text(d) ensures UndoesOn(TypeOps(runs, Text(d)), Text(d), [op], "", d, g) {
      OpOverCovers(op, d, g);
      UndoneOne(op, "", g, d);
      assert d[..op.chars] == d;
    }
  }

  lemma InsertUndoes(op: Op, text: string)
    requires op.opcode == Insert && 0 < op.chars == |text| && LinesTrue(op.lines, text)
    ensures Undoes([Op(Delete, op.chars, op.lines, [])], "", [op], text, [])
  {
    hide Covers, Undone, Apply, LinesTrue, Text;
    var d := Op(Delete, op.chars, op.lines, []);
    forall g: Doc | Text(g) == Text([]) ensures UndoesOn([d], "", [op], text, [], g) {
      InsertCovers(op, text, g);
      UndoneOne(op, text, g, []);
    }
  }

  lemma InsertCovers(op: Op, text: string, g: Doc)
    requires op.opcode == Insert && 0 < op.chars == |text| && LinesTrue(op.lines, text)
    requires Text(g) == Text([])
    ensures var d := Op(Delete, op.chars, op.lines, []);
            && g == [] && Covers([op], text, g) && Emit(op, text, g) == Typed(text, op.attribs)
            && Covers([d], "", Typed(text, op.attribs)) && Apply([d], "", Typed(text, op.attribs)) == []
  {
    hide LinesTrue, Typed;
    var d := Op(Delete, op.chars, op.lines, []);
    var e := Typed(text, op.attribs);
    assert text[..op.chars] == text && Text(e) == text && e[..op.chars] == e;
    CoverOne(op, text, g);
    CoverOne(d, "", e);
  }
}
