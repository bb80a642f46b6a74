/** The assembler behind compose, follow, the builder and checkRep. */
module SmartAssembler {
  import opened Attributes
  import opened Changesets
  import opened NormalForm
  import opened Views
  import opened Assemblers

  predicate All(ops: seq<Op>, code: Opcode) {
    forall i :: 0 <= i < |ops| ==> ops[i].opcode == code
  }

  lemma NormalHead(ops: seq<Op>, more: seq<Op>, trim: bool)
    requires ops != []
    ensures Normal(ops + more, trim) == AddFront(ops[0], Normal(ops[1..] + more, trim), trim)
    ensures Merged(ops, false) == MergeFront(ops[0], Merged(ops[1..], false), false)
  {
    assert (ops + more)[1..] == ops[1..] + more;
  }

  lemma {:induction false} NormalPrefix(ops: seq<Op>, y: seq<Op>, z: seq<Op>, trim: bool)
    requires Normal(y, trim) == Normal(z, trim)
    ensures Normal(ops + y, trim) == Normal(ops + z, trim)
  {
    hide Normal, AddFront;
    if ops == [] {
      assert ops + y == y && ops + z == z;
    } else {
      NormalPrefix(ops[1..], y, z, trim);
      NormalHead(ops, y, trim);
      NormalHead(ops, z, trim);
    }
  }

  lemma {:induction false} MergedKind(ops: seq<Op>, code: Opcode)
    requires All(ops, code)
    ensures All(Merged(ops, false), code)
  {
    if ops != [] { MergedKind(ops[1..], code); }
  }

  // Ops that cannot interact with what comes next are merged on their own.
  lemma {:induction false} KindSplit(ops: seq<Op>, code: Opcode, more: seq<Op>, trim: bool)
    requires All(ops, code) && code != NoOp
    requires var n := Normal(more, trim);
             if n == [] then code != Keep || !trim
             else n[0].opcode != code && (code == Insert ==> n[0].opcode == Keep)
    ensures Normal(ops + more, trim) == Merged(ops, false) + Normal(more, trim)
  {
    hide Normal, Merged;
    if ops == [] {
      assert ops + more == more;
      MergedEmpty(false);
      assert [] + Normal(more, trim) == Normal(more, trim);
    } else {
      KindSplit(ops[1..], code, more, trim);
      NormalHead(ops, more, trim);
      MergedKind(ops[1..], code);
      FrontSplit(ops[0], Merged(ops[1..], false), Normal(more, trim), trim);
    }
  }

  lemma {:induction false} FrontSplit(p: Op, m: seq<Op>, n: seq<Op>, trim: bool)
    requires All(m, p.opcode) && p.opcode != NoOp
    requires if n == [] then p.opcode != Keep || !trim
             else n[0].opcode != p.opcode && (p.opcode == Insert ==> n[0].opcode == Keep)
    ensures AddFront(p, m + n, trim) == MergeFront(p, m, false) + n
  {
    hide Join, InsertPast;
    JoinSplits(p, m, n);
    if p.opcode == Insert { InsertPastIsJoin(p, m + n); }
    if m == [] { assert m + n == n; }
  }

  lemma {:induction false} JoinSplits(p: Op, m: seq<Op>, n: seq<Op>)
    requires All(m, p.opcode) && (n != [] ==> n[0].opcode != p.opcode)
    ensures Join(p, m + n) == Join(p, m) + n
  {
    if m == [] {
      assert m + n == n;
    } else {
      assert (m + n)[0] == m[0] && (m + n)[1..] == m[1..] + n;
    }
  }

  lemma {:induction false} InsertPastIsJoin(p: Op, ops: seq<Op>)
    requires ops == [] || ops[0].opcode != Delete
    ensures InsertPast(p, ops) == Join(p, ops)
  {}

  lemma {:induction false} KeepsAlone(ops: seq<Op>, trim: bool)
    requires All(ops, Keep)
    ensures Normal(ops, trim) == Merged(ops, trim)
  {
    if ops != [] { KeepsAlone(ops[1..], trim); }
  }

  lemma {:induction false} DeletePastInserts(ops: seq<Op>, d: Op, more: seq<Op>, trim: bool)
    requires All(ops, Insert) && d.opcode == Delete && 0 < d.chars
    ensures Normal(ops + ([d] + more), trim) == Normal([d] + (ops + more), trim)
  {
    hide Normal, InsertPast, Join;
    if ops == [] {
      assert ops + ([d] + more) == [d] + (ops + more);
    } else {
      DeletePastInserts(ops[1..], d, more, trim);
      NormalHead(ops, [d] + more, trim);
      NormalHead(ops, more, trim);
      var n := Normal(ops[1..] + more, trim);
      NormalHead([d], ops[1..] + more, trim);
      assert [d][1..] + (ops[1..] + more) == ops[1..] + more;
      NormalHead([d], ops + more, trim);
      assert [d][1..] + (ops + more) == ops + more;
      if ops[0].chars > 0 { DeleteCommutes(ops[0], d, n); }
    }
  }

  // Whatever is appended next, `out` followed by what becomes of the three buffers is the
  // normal form.
  ghost predicate Tied(raw: seq<Op>, out: seq<Op>, pending: seq<Op>) {
    forall more: seq<Op>, trim: bool :: Normal(raw + more, trim) == out + Normal(pending + more, trim)
  }

  lemma TiedNow(raw: seq<Op>, out: seq<Op>, pending: seq<Op>, trim: bool)
    requires Tied(raw, out, pending)
    ensures Normal(raw, trim) == out + Normal(pending, trim)
  {
    hide Normal;
    assert raw + [] == raw && pending + [] == pending;
  }

  lemma TiedNext(raw: seq<Op>, out: seq<Op>, pending: seq<Op>, op: Op, out': seq<Op>, pending': seq<Op>)
    requires Tied(raw, out, pending)
    requires forall more: seq<Op>, trim: bool ::
               out + Normal(pending + ([op] + more), trim) == out' + Normal(pending' + more, trim)
    ensures Tied(raw + [op], out', pending')
  {
    hide Normal;
    forall more: seq<Op>, trim: bool
      ensures Normal(raw + [op] + more, trim) == out' + Normal(pending' + more, trim)
    {
      assert raw + [op] + more == raw + ([op] + more);
    }
  }

  // A keep closes the gap in front of it.
  lemma TiedKeepAfterGap(raw: seq<Op>, out: seq<Op>, ds: seq<Op>, ps: seq<Op>, op: Op)
    requires All(ds, Delete) && All(ps, Insert) && op.opcode == Keep && 0 < op.chars
    requires Tied(raw, out, ds + ps)
    ensures Tied(raw + [op], out + Merged(ds, false) + Merged(ps, false), [op])
  {
    hide Normal, Merged, Tied;
    forall more: seq<Op>, trim: bool
      ensures out + Normal(ds + ps + ([op] + more), trim)
           == out + Merged(ds, false) + Merged(ps, false) + Normal([op] + more, trim)
    {
      assert ds + ps + ([op] + more) == ds + (ps + ([op] + more));
      GapSplit(ds, ps, op, more, trim);
      var n := Normal([op] + more, trim);
      assert out + (Merged(ds, false) + (Merged(ps, false) + n)) == out + Merged(ds, false) + Merged(ps, false) + n;
    }
    TiedNext(raw, out, ds + ps, op, out + Merged(ds, false) + Merged(ps, false), [op]);
  }

  lemma KeepHead(op: Op, more: seq<Op>, trim: bool)
    requires op.opcode == Keep && 0 < op.chars
    ensures var n := Normal([op] + more, trim); n == [] || n[0].opcode == Keep
  {
    assert ([op] + more)[1..] == more;
  }

  lemma {:induction false} MergedNonEmptyHead(ps: seq<Op>, n: seq<Op>)
    requires All(ps, Insert) && (n == [] || n[0].opcode == Keep)
    ensures var m := Merged(ps, false) + n; m == [] || m[0].opcode != Delete
  {
    MergedKind(ps, Insert);
  }

  lemma GapSplit(ds: seq<Op>, ps: seq<Op>, op: Op, more: seq<Op>, trim: bool)
    requires All(ds, Delete) && All(ps, Insert) && op.opcode == Keep && 0 < op.chars
    ensures Normal(ds + (ps + ([op] + more)), trim)
         == Merged(ds, false) + (Merged(ps, false) + Normal([op] + more, trim))
  {
    hide Normal, Merged;
    KeepHead(op, more, trim);
    KindSplit(ps, Insert, [op] + more, trim);
    MergedNonEmptyHead(ps, Normal([op] + more, trim));
    KindSplit(ds, Delete, ps + ([op] + more), trim);
  }

  // A deletion or insertion closes the keeps in front of it.
  lemma TiedGapAfterKeeps(raw: seq<Op>, out: seq<Op>, ks: seq<Op>, op: Op)
    requires All(ks, Keep) && (op.opcode == Delete || op.opcode == Insert) && 0 < op.chars
    requires Tied(raw, out, ks)
    ensures Tied(raw + [op], out + Merged(ks, false), [op])
  {
    hide Normal, Merged, Tied;
    forall more: seq<Op>, trim: bool
      ensures out + Normal(ks + ([op] + more), trim) == out + Merged(ks, false) + Normal([op] + more, trim)
    {
      GapHead(op, more, trim);
      KindSplit(ks, Keep, [op] + more, trim);
      Regroup(out, Merged(ks, false), Normal([op] + more, trim));
    }
    TiedNext(raw, out, ks, op, out + Merged(ks, false), [op]);
  }

  lemma GapHead(op: Op, more: seq<Op>, trim: bool)
    requires (op.opcode == Delete || op.opcode == Insert) && 0 < op.chars
    ensures var n := Normal([op] + more, trim); n != [] && n[0].opcode != Keep
  {
    assert ([op] + more)[1..] == more;
  }

  // Within a gap deletions collect in front of insertions.
  lemma TiedDelete(raw: seq<Op>, out: seq<Op>, ds: seq<Op>, ps: seq<Op>, op: Op)
    requires All(ps, Insert) && op.opcode == Delete && 0 < op.chars && Tied(raw, out, ds + ps)
    ensures Tied(raw + [op], out, (ds + [op]) + ps)
  {
    hide Normal, Tied;
    forall more: seq<Op>, trim: bool
      ensures out + Normal(ds + ps + ([op] + more), trim) == out + Normal((ds + [op]) + ps + more, trim)
    {
      DeletePastInserts(ps, op, more, trim);
      NormalPrefix(ds, ps + ([op] + more), [op] + (ps + more), trim);
      assert ds + ps + ([op] + more) == ds + (ps + ([op] + more));
      assert (ds + [op]) + ps + more == ds + ([op] + (ps + more));
    }
    TiedNext(raw, out, ds + ps, op, out, (ds + [op]) + ps);
  }

  lemma TiedAppend(raw: seq<Op>, out: seq<Op>, pending: seq<Op>, op: Op)
    requires Tied(raw, out, pending)
    ensures Tied(raw + [op], out, pending + [op])
  {
    hide Normal, Tied;
    forall more: seq<Op>, trim: bool
      ensures out + Normal(pending + ([op] + more), trim) == out + Normal(pending + [op] + more, trim)
    {
      assert pending + ([op] + more) == pending + [op] + more;
    }
    TiedNext(raw, out, pending, op, out, pending + [op]);
  }

  // What a gap at the end is written as.
  lemma GapAtEnd(ds: seq<Op>, ps: seq<Op>, trim: bool)
    requires All(ds, Delete) && All(ps, Insert)
    ensures Normal(ds + ps, trim) == Merged(ds, false) + Merged(ps, false)
  {
    hide Normal, Merged;
    assert Normal([], trim) == [] by { NormalEmpty(trim); }
    assert ps + [] == ps && Merged(ps, false) + [] == Merged(ps, false);
    KindSplit(ps, Insert, [], trim);
    MergedKind(ps, Insert);
    KindSplit(ds, Delete, ps, trim);
  }

  lemma NormalEmpty(trim: bool)
    ensures Normal([], trim) == []
  {}

  // `text.lastIndexOf('\n')`
  function LastNewlineIndex(text: string): (r: int)
    ensures -1 <= r < |text|
    ensures r >= 0 ==> text[r] == '\n'
    ensures forall i :: r < i < |text| ==> text[i] != '\n'
  {
    if text == "" then -1
    else if text[|text| - 1] == '\n' then |text| - 1
    else LastNewlineIndex(text[..|text| - 1])
  }

  // Ops that cover nothing are ignored.
  function Counted(op: Op): seq<Op> {
    if op.opcode == NoOp || op.chars == 0 then [] else [op]
  }

  // The ops that stand for a stretch of text: up to its last newline, and the rest.
  function TextOps(opcode: Opcode, text: string, a: Attribs): seq<Op> {
    var p := LastNewlineIndex(text);
    if p < 0 then Counted(Op(opcode, |text|, 0, a))
    else Counted(Op(opcode, p + 1, Newlines(text), a)) + Counted(Op(opcode, |text| - (p + 1), 0, a))
  }

  /** Accepts ops in any order within a gap and writes them in normal form. */
  class SmartOpAssembler {
    const minusAssem: MergingOpAssembler
    const plusAssem: MergingOpAssembler
    const keepAssem: MergingOpAssembler
    var assem: seq<Op>
    var lastOpcode: Opcode
    var lengthChange: int
    ghost var raw: seq<Op>
    ghost const repr: set<object>

    ghost predicate Valid()
      reads this, repr
    {
      && repr == {this, minusAssem, plusAssem, keepAssem}
      && minusAssem != plusAssem && minusAssem != keepAssem && plusAssem != keepAssem
      && minusAssem.Valid() && plusAssem.Valid() && keepAssem.Valid()
      && !minusAssem.ended && !plusAssem.ended
      && All(minusAssem.raw, Delete) && All(plusAssem.raw, Insert) && All(keepAssem.raw, Keep)
      && (if lastOpcode == Keep then minusAssem.raw == [] && plusAssem.raw == [] else keepAssem.raw == [])
      && Tied(raw, assem, minusAssem.raw + plusAssem.raw + keepAssem.raw)
      && lengthChange == LengthChange(raw)
    }

    ghost predicate Open()
      reads this, repr
    {
      Valid() && !keepAssem.ended
    }

    constructor ()
      ensures Open() && raw == []
      ensures fresh(repr)
    {
      minusAssem := new MergingOpAssembler();
      plusAssem := new MergingOpAssembler();
      keepAssem := new MergingOpAssembler();
      assem := [];
      lastOpcode := NoOp;
      lengthChange := 0;
      raw := [];
      repr := {this, minusAssem, plusAssem, keepAssem};
      new;
      assert forall more: seq<Op> :: [] + more == more;
    }

    method FlushKeeps()
      requires keepAssem.Valid()
      modifies this`assem, keepAssem
      ensures assem == old(assem) + Merged(old(keepAssem.raw), old(keepAssem.ended))
      ensures keepAssem.raw == []
      ensures !old(keepAssem.ended) ==> keepAssem.Valid() && !keepAssem.ended
    {
      var s := keepAssem.ToString();
      assem := assem + s;
      keepAssem.Clear();
    }

    method FlushPlusMinus()
      requires minusAssem != plusAssem && minusAssem.Valid() && plusAssem.Valid()
      requires !minusAssem.ended && !plusAssem.ended
      modifies this`assem, minusAssem, plusAssem
      ensures assem == old(assem) + Merged(old(minusAssem.raw), false) + Merged(old(plusAssem.raw), false)
      ensures minusAssem.Valid() && minusAssem.raw == [] && !minusAssem.ended
      ensures plusAssem.Valid() && plusAssem.raw == [] && !plusAssem.ended
    {
      var s := minusAssem.ToString();
      assem := assem + s;
      minusAssem.Clear();
      s := plusAssem.ToString();
      assem := assem + s;
      plusAssem.Clear();
    }

    method Append(op: Op)
      requires Open() && 0 <= op.lines && 0 <= op.chars
      modifies repr
      ensures Open() && raw == old(raw) + Counted(op)
    {
      hide Tied, Merged, MergingOpAssembler.Valid, LengthChange;
      ghost var ds, ps, ks := minusAssem.raw, plusAssem.raw, keepAssem.raw;
      ghost var pending := ds + ps + ks;
      LengthSnoc(raw, op);
      if op.opcode != NoOp && op.chars > 0 {
        if op.opcode == Delete {
          if lastOpcode == Keep {
            assert pending == ks;
            TiedGapAfterKeeps(raw, assem, ks, op);
            pending := [op];
            FlushKeeps();
          } else {
            assert pending == ds + ps;
            TiedDelete(raw, assem, ds, ps, op);
            pending := (ds + [op]) + ps;
          }
          minusAssem.Append(op);
          lengthChange := lengthChange - op.chars;
        } else if op.opcode == Insert {
          if lastOpcode == Keep {
            assert pending == ks;
            TiedGapAfterKeeps(raw, assem, ks, op);
            pending := [op];
            FlushKeeps();
          } else {
            assert pending == ds + ps;
            TiedAppend(raw, assem, ds + ps, op);
            pending := ds + ps + [op];
          }
          plusAssem.Append(op);
          lengthChange := lengthChange + op.chars;
        } else {
          if lastOpcode != Keep {
            assert pending == ds + ps;
            TiedKeepAfterGap(raw, assem, ds, ps, op);
            pending := [op];
            FlushPlusMinus();
          } else {
            assert pending == ks;
            TiedAppend(raw, assem, ks, op);
            pending := ks + [op];
          }
          keepAssem.Append(op);
        }
        lastOpcode := op.opcode;
        raw := raw + [op];
      } else {
        assert raw + [] == raw;
      }
      assert minusAssem.raw + plusAssem.raw + keepAssem.raw == pending;
    }

    method AppendOpWithText(opcode: Opcode, text: string, attribs: Attribs)
      requires Open()
      modifies repr
      ensures Open() && raw == old(raw) + TextOps(opcode, text, attribs)
    {
      hide SmartOpAssembler.Valid, Tied, Newlines;
      var op := Op(opcode, 0, 0, attribs);
      var lastNewlinePos := LastNewlineIndex(text);
      if lastNewlinePos < 0 {
        op := op.(chars := |text|, lines := 0);
        Append(op);
      } else {
        op := op.(chars := lastNewlinePos + 1, lines := Newlines(text));
        Append(op);
        op := op.(chars := |text| - (lastNewlinePos + 1), lines := 0);
        Append(op);
        assert raw == old(raw) + TextOps(opcode, text, attribs);
      }
    }

    method EndDocument()
      requires Open()
      modifies repr
      ensures Valid() && keepAssem.ended && raw == old(raw)
    {
      keepAssem.EndDocument();
    }

    // The ops fed so far, in normal form; trimmed if the document was ended.
    method ToString() returns (s: seq<Op>)
      requires Valid()
      modifies repr
      ensures s == Normal(old(raw), old(keepAssem.ended)) && lengthChange == LengthChange(old(raw))
    {
      hide Tied, Normal, Merged, MergingOpAssembler.Valid, LengthChange;
      MergedEmpty(false);
      MergedEmpty(keepAssem.ended);
      ghost var ds, ps, ks, trim := minusAssem.raw, plusAssem.raw, keepAssem.raw, keepAssem.ended;
      TiedNow(raw, assem, ds + ps + ks, trim);
      if lastOpcode == Keep {
        assert ds + ps + ks == ks;
        KeepsAlone(ks, trim);
      } else {
        assert ds + ps + ks == ds + ps;
        GapAtEnd(ds, ps, trim);
      }
      FlushPlusMinus();
      FlushKeeps();
      s := assem;
    }

    method GetLengthChange() returns (n: int)
      requires Valid()
      ensures n == LengthChange(raw)
    {
      n := lengthChange;
    }
  }

  lemma {:induction false} LengthSnoc(ops: seq<Op>, op: Op)
    ensures LengthChange(ops + [op]) == LengthChange(ops) + Growth(op)
  {
    if ops == [] {
      assert ops + [op] == [op];
    } else {
      LengthSnoc(ops[1..], op);
      assert (ops + [op])[1..] == ops[1..] + [op];
    }
  }
}
