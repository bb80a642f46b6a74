/** The op assemblers: objects that are fed ops one at a time and keep what they wrote in normal form. */
module Assemblers {
  import opened Attributes
  import opened Changesets
  import opened NormalForm
  import opened Views

  // ---------- what a merging assembler is to produce: neighbours merged, nothing reordered

  function MergeFront(p: Op, ops: seq<Op>, trim: bool): seq<Op> {
    if p.chars <= 0 then ops
    else if trim && p.opcode == Keep && p.attribs == [] && ops == [] then []
    else Join(p, ops)
  }

  function Merged(ops: seq<Op>, trim: bool): seq<Op> {
    if ops == [] then [] else MergeFront(ops[0], Merged(ops[1..], trim), trim)
  }

  predicate SameRun(p: Op, q: Op) { p.opcode == q.opcode && p.attribs == q.attribs }

  lemma MergedCons(p: Op, ops: seq<Op>, trim: bool)
    ensures Merged([p] + ops, trim) == MergeFront(p, Merged(ops, trim), trim)
  {
    assert ([p] + ops)[1..] == ops;
  }

  lemma {:induction false} MergedLines(ops: seq<Op>, trim: bool)
    requires LinesNonNegative(ops)
    ensures LinesNonNegative(Merged(ops, trim))
  {
    if ops != [] { MergedLines(ops[1..], trim); }
  }

  lemma {:induction false} MergedRun(op: Op, ops: seq<Op>, trim: bool)
    requires 0 < op.chars
    ensures var m := Merged([op] + ops, trim);
            if m == [] then op.opcode == Keep && op.attribs == [] else SameRun(m[0], op)
  {
    MergedCons(op, ops, trim);
  }

  // Two ops of one run may be merged before they are appended.
  lemma MergeFrontTwice(p: Op, q: Op, n: seq<Op>, trim: bool)
    requires SameRun(p, q) && 0 < p.chars && 0 < q.chars && 0 <= p.lines && 0 <= q.lines
    requires p.lines == 0 || q.lines > 0
    requires LinesNonNegative(n)
    ensures MergeFront(p, MergeFront(q, n, trim), trim) == MergeFront(Merge2(p, q), n, trim)
  {
    JoinSplit(p, q, n);
  }

  // ---------- what is still in the buffer

  function Pending(buf: Op, extra: int): seq<Op> {
    if buf.opcode == NoOp then []
    else if extra > 0 then [buf, Op(buf.opcode, extra, 0, buf.attribs)] else [buf]
  }

  ghost predicate BufferOk(buf: Op, extra: int) {
    && 0 <= extra
    && (buf.opcode == NoOp ==> extra == 0)
    && (buf.opcode != NoOp ==> 0 < buf.chars && 0 <= buf.lines)
    && (extra > 0 ==> buf.lines > 0)
  }

  // Whatever is appended next, `out` followed by what becomes of the buffer is the answer.
  ghost predicate Linked(raw: seq<Op>, out: seq<Op>, pending: seq<Op>) {
    forall more: seq<Op>, trim: bool ::
      LinesNonNegative(more) ==> Merged(raw + more, trim) == out + Merged(pending + more, trim)
  }

  lemma LinkedNext(raw: seq<Op>, out: seq<Op>, pending: seq<Op>, op: Op, out': seq<Op>, pending': seq<Op>)
    requires Linked(raw, out, pending) && op.lines >= 0
    requires forall more: seq<Op>, trim: bool :: LinesNonNegative(more) ==>
               out + Merged(pending + ([op] + more), trim) == out' + Merged(pending' + more, trim)
    ensures Linked(raw + [op], out', pending')
  {
    hide Merged;
    forall more: seq<Op>, trim: bool | LinesNonNegative(more)
      ensures Merged(raw + [op] + more, trim) == out' + Merged(pending' + more, trim)
    {
      assert raw + [op] + more == raw + ([op] + more);
      assert LinesNonNegative([op] + more);
    }
  }

  lemma PendingCons(buf: Op, extra: int, more: seq<Op>, trim: bool)
    requires buf.opcode != NoOp
    ensures Merged(Pending(buf, extra) + more, trim)
         == MergeFront(buf, if extra > 0
             then MergeFront(Op(buf.opcode, extra, 0, buf.attribs), Merged(more, trim), trim)
                            else Merged(more, trim), trim)
  {
    hide Merged, MergeFront;
    var x := Op(buf.opcode, extra, 0, buf.attribs);
    if extra > 0 {
      assert Pending(buf, extra) + more == [buf] + ([x] + more);
      MergedCons(buf, [x] + more, trim);
      MergedCons(x, more, trim);
    } else {
      MergedCons(buf, more, trim);
    }
  }

  // The buffer after an op of the same run.
  function Absorb(buf: Op, extra: int, op: Op): (Op, int) {
    if op.lines > 0 then
      (Op(buf.opcode, buf.chars + extra + op.chars, buf.lines + op.lines, buf.attribs), 0)
    else if buf.lines == 0 then (Op(buf.opcode, buf.chars + op.chars, buf.lines, buf.attribs), extra)
    else (buf, extra + op.chars)
  }

  lemma AbsorbMerges(buf: Op, extra: int, op: Op, more: seq<Op>, trim: bool)
    requires BufferOk(buf, extra) && buf.opcode != NoOp && SameRun(buf, op) && 0 < op.chars && 0 <= op.lines
    requires LinesNonNegative(more)
    ensures var (buf', extra') := Absorb(buf, extra, op);
            && BufferOk(buf', extra')
            && Merged(Pending(buf, extra) + ([op] + more), trim) == Merged(Pending(buf', extra') + more, trim)
  {
    hide Merged, MergeFront;
    var n := Merged(more, trim);
    MergedLines(more, trim);
    var (buf', extra') := Absorb(buf, extra, op);
    PendingCons(buf, extra, [op] + more, trim);
    PendingCons(buf', extra', more, trim);
    MergedCons(op, more, trim);
    var x := Op(buf.opcode, extra, 0, buf.attribs);
    if op.lines > 0 {
      if extra > 0 {
        MergeFrontTwice(x, op, n, trim);
        MergeFrontTwice(buf, Merge2(x, op), n, trim);
      } else {
        MergeFrontTwice(buf, op, n, trim);
      }
    } else if buf.lines == 0 {
      MergeFrontTwice(buf, op, n, trim);
    } else if extra > 0 {
      MergeFrontTwice(x, op, n, trim);
    } else {
      assert op == Op(buf.opcode, op.chars, 0, buf.attribs);
    }
  }

  // An op of another run closes the buffer.
  lemma FlushSplits(buf: Op, extra: int, op: Op, more: seq<Op>, trim: bool)
    requires BufferOk(buf, extra) && !SameRun(buf, op) && 0 < op.chars && op.opcode != NoOp
    ensures Merged(Pending(buf, extra) + ([op] + more), trim) == Pending(buf, extra) + Merged([op] + more, trim)
  {
    hide Merged;
    var m := Merged([op] + more, trim);
    MergedRun(op, more, trim);
    if buf.opcode != NoOp {
      PendingCons(buf, extra, [op] + more, trim);
      var x := Op(buf.opcode, extra, 0, buf.attribs);
      if extra > 0 {
        assert MergeFront(x, m, trim) == [x] + m;
        assert MergeFront(buf, [x] + m, trim) == [buf] + ([x] + m);
      }
    } else {
      assert [] + ([op] + more) == [op] + more;
    }
  }

  lemma PendingIsMerged(buf: Op, extra: int, trim: bool)
    requires BufferOk(buf, extra)
    ensures Merged(Pending(buf, extra), trim)
         == if trim && buf.opcode == Keep && buf.attribs == [] then [] else Pending(buf, extra)
  {
    hide Merged;
    assert Merged([], trim) == [] by { MergedEmpty(trim); }
    if buf.opcode != NoOp {
      PendingCons(buf, extra, [], trim);
      assert Pending(buf, extra) + [] == Pending(buf, extra);
    }
  }

  lemma MergedEmpty(trim: bool)
    ensures Merged([], trim) == []
  {}

  lemma AbsorbLinked(raw: seq<Op>, out: seq<Op>, buf: Op, extra: int, op: Op)
    requires LinesNonNegative(raw) && Linked(raw, out, Pending(buf, extra))
    requires BufferOk(buf, extra) && buf.opcode != NoOp && SameRun(buf, op) && 0 < op.chars && 0 <= op.lines
    ensures var (buf', extra') := Absorb(buf, extra, op);
            BufferOk(buf', extra') && Linked(raw + [op], out, Pending(buf', extra'))
  {
    hide Merged, Pending, Absorb;
    var (buf', extra') := Absorb(buf, extra, op);
    AbsorbMerges(buf, extra, op, [], false);
    forall more: seq<Op>, trim: bool | LinesNonNegative(more)
      ensures out + Merged(Pending(buf, extra) + ([op] + more), trim) == out
          + Merged(Pending(buf', extra') + more, trim)
    {
      AbsorbMerges(buf, extra, op, more, trim);
    }
    LinkedNext(raw, out, Pending(buf, extra), op, out, Pending(buf', extra'));
  }

  lemma FlushLinked(raw: seq<Op>, out: seq<Op>, buf: Op, extra: int, op: Op)
    requires LinesNonNegative(raw) && Linked(raw, out, Pending(buf, extra))
    requires BufferOk(buf, extra) && !SameRun(buf, op) && 0 < op.chars && op.opcode != NoOp && 0 <= op.lines
    ensures BufferOk(op, 0) && Linked(raw + [op], out + Pending(buf, extra), Pending(op, 0))
  {
    hide Merged, Linked;
    forall more: seq<Op>, trim: bool | LinesNonNegative(more)
      ensures out + Merged(Pending(buf, extra) + ([op] + more), trim)
           == out + Pending(buf, extra) + Merged(Pending(op, 0) + more, trim)
    {
      FlushSplits(buf, extra, op, more, trim);
      Regroup(out, Pending(buf, extra), Merged([op] + more, trim));
    }
    LinkedNext(raw, out, Pending(buf, extra), op, out + Pending(buf, extra), Pending(op, 0));
  }

  /** Merges what it is fed with what it was just fed; `endDocument` drops a final plain keep. */
  class MergingOpAssembler {
    var out: seq<Op>
    var bufOp: Op
    // characters without a newline that came after a multi-line bufOp
    var bufOpAdditionalCharsAfterNewline: int
    ghost var raw: seq<Op>
    ghost var ended: bool

    ghost predicate Valid()
      reads this
    {
      && LinesNonNegative(raw)
      && (ended ==> bufOp.opcode == NoOp && out == Merged(raw, true))
      && (!ended ==> BufferOk(bufOp, bufOpAdditionalCharsAfterNewline)
                     && Linked(raw, out, Pending(bufOp, bufOpAdditionalCharsAfterNewline)))
    }

    constructor ()
      ensures Valid() && raw == [] && !ended
    {
      out := [];
      bufOp := Op(NoOp, 0, 0, []);
      bufOpAdditionalCharsAfterNewline := 0;
      raw := [];
      ended := false;
    }

    method Flush(isEndDocument: bool)
      modifies this
      ensures raw == old(raw) && ended == old(ended) && bufOp.opcode == NoOp
      ensures var plain := isEndDocument && old(bufOp).opcode == Keep && old(bufOp).attribs == [];
              && out == old(out) + (if plain then [] else Pending(old(bufOp), old(bufOpAdditionalCharsAfterNewline)))
              && (!plain && old(bufOp).opcode != NoOp && 0 <= old(bufOpAdditionalCharsAfterNewline)
                  ==> bufOpAdditionalCharsAfterNewline == 0)
              && (old(bufOp).opcode == NoOp
                  ==> bufOpAdditionalCharsAfterNewline == old(bufOpAdditionalCharsAfterNewline))
    {
      if bufOp.opcode != NoOp {
        if isEndDocument && bufOp.opcode == Keep && bufOp.attribs == [] {
          // final merged keep, leave it implicit
        } else {
          out := out + [bufOp];
          if bufOpAdditionalCharsAfterNewline > 0 {
            bufOp := bufOp.(chars := bufOpAdditionalCharsAfterNewline, lines := 0);
            out := out + [bufOp];
            bufOpAdditionalCharsAfterNewline := 0;
          }
        }
        bufOp := bufOp.(opcode := NoOp);
      }
    }

    method Append(op: Op)
      requires Valid() && !ended && op.opcode != NoOp && 0 <= op.lines
      modifies this
      ensures Valid() && !ended && raw == if op.chars > 0 then old(raw) + [op] else old(raw)
    {
      hide Linked, Merged;
      if op.chars > 0 {
        if bufOp.opcode == op.opcode && bufOp.attribs == op.attribs {
          AbsorbLinked(raw, out, bufOp, bufOpAdditionalCharsAfterNewline, op);
          if op.lines > 0 {
            bufOp := bufOp.(chars := bufOp.chars + bufOpAdditionalCharsAfterNewline + op.chars,
                            lines := bufOp.lines + op.lines);
            bufOpAdditionalCharsAfterNewline := 0;
          } else if bufOp.lines == 0 {
            bufOp := bufOp.(chars := bufOp.chars + op.chars);
          } else {
            bufOpAdditionalCharsAfterNewline := bufOpAdditionalCharsAfterNewline + op.chars;
          }
        } else {
          FlushLinked(raw, out, bufOp, bufOpAdditionalCharsAfterNewline, op);
          Flush(false);
          bufOp := op;
        }
        raw := raw + [op];
      }
    }

    method EndDocument()
      requires Valid() && !ended
      modifies this
      ensures Valid() && ended && raw == old(raw)
    {
      PendingIsMerged(bufOp, bufOpAdditionalCharsAfterNewline, true);
      LinkedNow(raw, out, Pending(bufOp, bufOpAdditionalCharsAfterNewline), true);
      Flush(true);
      ended := true;
    }

    // The ops fed so far, merged. Feeding more ops afterwards requires a Clear first.
    method ToString() returns (s: seq<Op>)
      requires Valid()
      modifies this
      ensures s == Merged(old(raw), old(ended))
      ensures out == s && bufOp.opcode == NoOp && (!old(ended) ==> bufOpAdditionalCharsAfterNewline == 0)
      ensures ended == old(ended) && raw == old(raw)
    {
      if !ended {
        PendingIsMerged(bufOp, bufOpAdditionalCharsAfterNewline, false);
        LinkedNow(raw, out, Pending(bufOp, bufOpAdditionalCharsAfterNewline), false);
      }
      Flush(false);
      s := out;
    }

    // Does not reset the count of additional characters, so it must follow ToString.
    method Clear()
      modifies this
      ensures out == [] && raw == [] && !ended
      ensures bufOpAdditionalCharsAfterNewline == old(bufOpAdditionalCharsAfterNewline)
      ensures old(bufOpAdditionalCharsAfterNewline) == 0 ==> Valid()
    {
      out := [];
      bufOp := Op(NoOp, 0, 0, []);
      raw := [];
      ended := false;
    }
  }

  lemma LinkedNow(raw: seq<Op>, out: seq<Op>, pending: seq<Op>, trim: bool)
    requires Linked(raw, out, pending)
    ensures Merged(raw, trim) == out + Merged(pending, trim)
  {
    assert raw + [] == raw && pending + [] == pending;
    assert LinesNonNegative([]);
  }
}
