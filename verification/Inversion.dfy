/** What the inverse of a changeset is to do: put back what the changeset took. */
module Inversion {
  import opened Attributes
  import opened Changesets
  import opened Composition
  import opened Following
  import opened NormalForm
  import opened Views
  import opened Algebra
  import opened Laws
  import opened SmartAssembler
  import opened Covering

  // ---------- attributes

  ghost function ValueIn(m: AttribMap, k: Key): string { if k in m then m[k] else "" }

  // The changes that take a character with attributes `x` back after `a` was applied.
  ghost function UndoMap(x: AttribMap, a: AttribMap): AttribMap {
    map k | k in a && a[k] != ValueIn(x, k) :: ValueIn(x, k)
  }

  ghost function UndoAttributes(x: Attribs, a: Attribs): Attribs {
    Listing(UndoMap(MapOf(x), MapOf(a)))
  }

  // The attributes of a character have values; clearing a key is for changesets.
  predicate NoEmptyValues(x: Attribs) {
    forall k :: k in MapOf(x) ==> MapOf(x)[k] != ""
  }

  lemma UndoAt(x: AttribMap, a: AttribMap, k: Key)
    requires k in x ==> x[k] != ""
    ensures At(ComposeMaps(ComposeMaps(x, a, false), UndoMap(x, a), false), k) == At(x, k)
  {
    ComposeAt(x, a, false, k);
    ComposeAt(ComposeMaps(x, a, false), UndoMap(x, a), false, k);
  }

  lemma UndoRestores(x: Attribs, a: Attribs)
    requires NoEmptyValues(x)
    ensures ComposeAttributes(ComposeAttributes(x, a, false), UndoAttributes(x, a), false) == x
  {
    var mx, ma := MapOf(x), MapOf(a);
    var r := ComposeMaps(ComposeMaps(mx, ma, false), UndoMap(mx, ma), false);
    forall k: Key ensures At(r, k) == At(mx, k) { UndoAt(mx, ma, k); }
    SameEverywhere(r, mx);
    ListingOfMap(x);
  }

  // ---------- runs of equal attributes

  datatype Run = Run(len: int, attribs: Attribs, endsLine: bool)

  function EndLines(r: Run): int { if r.endsLine then 1 else 0 }

  // The characters of a run.
  ghost predicate IsRun(r: Run, d: Doc) {
    && 0 < r.len == |d|
    && (forall i :: 0 <= i < |d| ==> d[i] == New(d[i].ch, r.attribs))
    && LinesTrue(EndLines(r), Text(d))
  }

  // `runs` are consecutive runs that make up `d`.
  ghost predicate AreRuns(runs: seq<Run>, d: Doc) {
    if runs == [] then d == []
    else
      && runs[0].len <= |d| && 0 <= runs[0].len && IsRun(runs[0], d[..runs[0].len])
      && AreRuns(runs[1..], d[runs[0].len..])
  }

  // ---------- one character undone

  // `g` is a character as some document has it, `d` as the changeset found it.
  ghost function UndoneCell(g: Cell, d: Cell, a: Attribs): Cell {
    Restyled(Restyled(g, a), UndoAttributes(d.attribs, a))
  }

  ghost function UndoneCells(g: Doc, d: Doc, a: Attribs): (r: Doc)
    requires |g| == |d|
    ensures |r| == |d| && forall i :: 0 <= i < |d| ==> r[i] == UndoneCell(g[i], d[i], a)
  {
    seq(|d|, i requires 0 <= i < |d| => UndoneCell(g[i], d[i], a))
  }

  // ---------- what the inverse does to the document after the changeset

  // `d` is the document the inverse was computed from and `g` any document with its text:
  // what was kept is kept and styled back, what was deleted is typed as it was in `d`,
  // what was inserted is gone.
  ghost function Undone(ops: seq<Op>, bank: string, g: Doc, d: Doc): Doc
    requires Fits(ops, bank, g) && |g| == |d|
  {
    if ops == [] then g
    else
      UndoneBy(ops[0], g, d) + Undone(ops[1..], bank[BankUse(ops[0])..], g[DocUse(ops[0])..], d[DocUse(ops[0])..])
  }

  ghost function UndoneBy(op: Op, g: Doc, d: Doc): Doc
    requires 0 <= DocUse(op) <= |g| == |d|
  {
    if op.opcode == Keep && op.attribs != [] then UndoneCells(g[..op.chars], d[..op.chars], op.attribs)
    else if op.opcode == Keep then g[..op.chars]
    else if op.opcode == Delete then d[..op.chars]
    else []
  }

  ghost predicate Styled(d: Doc) {
    forall i :: 0 <= i < |d| ==> d[i].New? && NoEmptyValues(d[i].attribs)
  }

  lemma UndoneCellsSame(d: Doc, a: Attribs)
    requires Styled(d)
    ensures UndoneCells(d, d, a) == d
  {
    hide ComposeAttributes, UndoAttributes, NoEmptyValues;
    forall i | 0 <= i < |d| ensures UndoneCell(d[i], d[i], a) == d[i] { UndoRestores(d[i].attribs, a); }
  }

  // Undoing on the document itself gives the document back, every character and attribute.
  lemma {:induction false} UndoneIsOriginal(ops: seq<Op>, bank: string, d: Doc)
    requires Fits(ops, bank, d) && Styled(d)
    ensures Undone(ops, bank, d, d) == d
    decreases |ops|
  {
    hide OpFits, Fits, Apply, Emit, UndoneCells, NoEmptyValues;
    if ops != [] {
      var op := ops[0];
      Unfold(ops, bank, d);
      FitBounds(op, bank, d);
      UndoneIsOriginal(ops[1..], bank[BankUse(op)..], d[DocUse(op)..]);
      if op.opcode == Keep { UndoneCellsSame(d[..op.chars], op.attribs); }
      assert d == d[..DocUse(op)] + d[DocUse(op)..];
    }
  }

  // A cell that stands for an old character was kept, a new one was typed as in `d`.
  ghost predicate PutBack(v: Doc, d: Doc, i: nat) {
    |v| == |d| && forall j :: 0 <= j < |v| ==> if v[j].Old? then v[j].pos == i + j else v[j] == d[j]
  }

  lemma PutBackConcat(v: Doc, d: Doc, i: nat, w: Doc, e: Doc)
    requires PutBack(v, d, i) && PutBack(w, e, i + |v|)
    ensures PutBack(v + w, d + e, i)
  {}

  lemma NothingPutBack(t: string, i: nat, d: Doc)
    requires i <= |t| && |d| == |t| - i
    ensures PutBack(From(t, i), d, i)
  {}

  lemma StyledParts(d: Doc, k: int)
    requires 0 <= k <= |d| && Styled(d)
    ensures Styled(d[..k]) && Styled(d[k..])
  {
    hide NoEmptyValues;
  }

  lemma UndoneByKeeps(op: Op, t: string, i: nat, d: Doc)
    requires i <= |t| && 0 <= DocUse(op) <= |t| - i == |d| && Styled(d)
    ensures PutBack(UndoneBy(op, From(t, i), d), d[..DocUse(op)], i) && |UndoneBy(op, From(t, i), d)| == DocUse(op)
  {
    hide ComposeAttributes, UndoAttributes, NoEmptyValues;
  }

  // Characters the changeset kept are not retyped: the inverse keeps them where they are.
  lemma {:induction false} UndoneKeeps(ops: seq<Op>, bank: string, t: string, i: nat, d: Doc)
    requires i <= |t| && Fits(ops, bank, From(t, i)) && |d| == |t| - i && Styled(d)
    ensures PutBack(Undone(ops, bank, From(t, i), d), d, i)
    decreases |ops|
  {
    hide OpFits, Fits, Apply, Emit, Styled, UndoneBy, PutBack;
    if ops == [] {
      NothingPutBack(t, i, d);
    } else {
      var op := ops[0];
      var g := From(t, i);
      Unfold(ops, bank, g);
      FitBounds(op, bank, g);
      assert g[DocUse(op)..] == From(t, i + DocUse(op));
      StyledParts(d, DocUse(op));
      UndoneKeeps(ops[1..], bank[BankUse(op)..], t, i + DocUse(op), d[DocUse(op)..]);
      UndoneByKeeps(op, t, i, d);
      PutBackConcat(UndoneBy(op, g, d), d[..DocUse(op)], i,
                    Undone(ops[1..], bank[BankUse(op)..], From(t, i + DocUse(op)), d[DocUse(op)..]), d[DocUse(op)..]);
      assert d == d[..DocUse(op)] + d[DocUse(op)..];
    }
  }
}
