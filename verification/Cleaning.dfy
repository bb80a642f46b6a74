/** Insertions carry no empty attribute values, so the characters of a document never do. */
module Cleaning {
  import opened Attributes
  import opened Changesets
  import opened Composition
  import opened Following
  import opened NormalForm
  import opened Views
  import opened Algebra
  import opened Laws
  import opened Covering
  import opened Inversion
  import opened Inverting

  ghost predicate Clean(ops: seq<Op>) {
    forall i :: 0 <= i < |ops| && ops[i].opcode == Insert ==> NoEmptyValues(ops[i].attribs)
  }

  // A changeset for `t` that types no empty attribute value.
  ghost predicate IsCleanFor(c: Changeset, t: string) {
    IsFor(c, t) && Clean(c.ops)
  }

  ghost predicate NewClean(d: Doc) {
    forall i :: 0 <= i < |d| && d[i].New? ==> NoEmptyValues(d[i].attribs)
  }

  lemma RestyledClean(x: Attribs, a: Attribs)
    requires NoEmptyValues(x)
    ensures NoEmptyValues(ComposeAttributes(x, a, false))
  {}

  lemma EmitClean(op: Op, bank: string, d: Doc)
    requires OpFits(op, bank, d) && NewClean(d) && (op.opcode == Insert ==> NoEmptyValues(op.attribs))
    ensures NewClean(Emit(op, bank, d)) && NewClean(d[DocUse(op)..])
  {
    hide ComposeAttributes, NoEmptyValues, LinesTrue;
    if op.opcode == Keep {
      forall i | 0 <= i < op.chars && d[i].New? ensures NoEmptyValues(Restyled(d[i], op.attribs).attribs) {
        RestyledClean(d[i].attribs, op.attribs);
      }
    }
  }

  // What a clean changeset makes of clean characters is clean.
  lemma {:induction false} CleanApply(ops: seq<Op>, bank: string, d: Doc)
    requires Fits(ops, bank, d) && Clean(ops) && NewClean(d)
    ensures NewClean(Apply(ops, bank, d))
    decreases |ops|
  {
    hide OpFits, Fits, Apply, Emit, NoEmptyValues;
    if ops == [] {
      NothingToDo(bank, d);
    } else {
      Unfold(ops, bank, d);
      EmitClean(ops[0], bank, d);
      assert ops == [ops[0]] + ops[1..];
      CleanApply(ops[1..], bank[BankUse(ops[0])..], d[DocUse(ops[0])..]);
    }
  }

  lemma TypedClean(op: Op, bank: string, d: Doc, rest: Doc)
    requires OpFits(op, bank, d) && NewClean(Emit(op, bank, d) + rest)
    ensures (op.opcode == Insert ==> NoEmptyValues(op.attribs)) && NewClean(rest)
  {
    hide ComposeAttributes, NoEmptyValues, LinesTrue;
    var e := Emit(op, bank, d);
    if op.opcode == Insert {
      assert (e + rest)[0] == New(bank[0], op.attribs);
    }
    forall i | 0 <= i < |rest| && rest[i].New? ensures NoEmptyValues(rest[i].attribs) {
      assert (e + rest)[|e| + i] == rest[i];
    }
  }

  lemma {:induction false} CleanIfResult(ops: seq<Op>, bank: string, d: Doc)
    requires Fits(ops, bank, d) && NewClean(Apply(ops, bank, d))
    ensures Clean(ops)
    decreases |ops|
  {
    hide OpFits, Fits, Apply, Emit, NoEmptyValues, NewClean;
    if ops != [] {
      Unfold(ops, bank, d);
      var bank', d' := bank[BankUse(ops[0])..], d[DocUse(ops[0])..];
      TypedClean(ops[0], bank, d, Apply(ops[1..], bank', d'));
      CleanIfResult(ops[1..], bank', d');
      assert ops == [ops[0]] + ops[1..];
    }
  }

  lemma UntouchedClean(t: string)
    ensures NewClean(Untouched(t))
  {}

  lemma CleanNormal(ops: seq<Op>, bank: string, t: string)
    requires Fits(ops, bank, Untouched(t)) && Clean(ops)
    ensures Clean(Normal(ops, true))
  {
    hide Fits, Apply, Normal, Clean, NewClean;
    UntouchedClean(t);
    CleanApply(ops, bank, Untouched(t));
    NormalEffect(ops, true, bank, Untouched(t));
    CleanIfResult(Normal(ops, true), bank, Untouched(t));
  }

  lemma ComposeIsClean(a: Changeset, b: Changeset, t: string)
    requires IsCleanFor(a, t) && IsCleanFor(b, TextAfter(a, t))
    ensures IsCleanFor(Compose(a, b), t)
  {
    hide Fits, Apply, IsFor, Compose, Clean, NewClean, Text;
    var u := Untouched(t);
    TextOfUntouched(t);
    UntouchedClean(t);
    ComposeIsSequential(a, b, t);
    CleanApply(a.ops, a.bank, u);
    CleanApply(b.ops, b.bank, After(a, u));
    CleanIfResult(Compose(a, b).ops, Compose(a, b).bank, u);
  }

  lemma CleanCons(op: Op, ops: seq<Op>)
    requires Clean(ops) && (op.opcode == Insert ==> NoEmptyValues(op.attribs))
    ensures Clean([op] + ops)
  {
    hide NoEmptyValues;
  }

  lemma CleanTail(ops: seq<Op>)
    requires ops != [] && Clean(ops)
    ensures Clean(ops[1..]) && (ops[0].opcode == Insert ==> NoEmptyValues(ops[0].attribs))
  {
    hide NoEmptyValues;
  }

  lemma CleanChop(ops: seq<Op>, k: int, l: int)
    requires ops != [] && Clean(ops)
    ensures Clean(Chop(ops, k, l))
  {
    hide NoEmptyValues, Clean;
    CleanTail(ops);
    CleanCons(Remainder(ops[0], k, l), ops[1..]);
  }

  // What follows inserts only what was inserted before.
  lemma {:induction false} CleanFollowRaw(a: seq<Op>, ba: string, b: seq<Op>, bb: string, reverse: bool)
    requires Clean(b)
    ensures Clean(FollowRaw(a, ba, b, bb, reverse))
    decreases |a| + |b|
  {
    hide FollowAttributes, TakesFirst, NoEmptyValues, Clean, Chop;
    if b != [] {
      CleanTail(b);
      if a != [] {
        CleanChop(b, a[0].chars, a[0].lines);
      }
    }
    if a == [] && b == [] {
    } else if Inserting(a) || Inserting(b) {
      TakesFirstInserts(a, ba, b, bb, reverse);
      if TakesFirst(a, ba, b, bb, reverse) {
        CleanFollowRaw(a[1..], Drop(ba, a[0].chars), b, bb, reverse);
        CleanCons(Op(Keep, a[0].chars, a[0].lines, []), FollowRaw(a[1..], Drop(ba, a[0].chars), b, bb, reverse));
      } else {
        CleanFollowRaw(a, ba, b[1..], Drop(bb, b[0].chars), reverse);
        CleanCons(b[0], FollowRaw(a, ba, b[1..], Drop(bb, b[0].chars), reverse));
      }
    } else if a == [] {
      CleanFollowRaw(a, ba, b[1..], bb, reverse);
      CleanCons(b[0], FollowRaw(a, ba, b[1..], bb, reverse));
    } else if b == [] {
      CleanFollowRaw(a[1..], ba, b, bb, reverse);
      CleanCons(a[0], FollowRaw(a[1..], ba, b, bb, reverse));
    } else {
      CleanOverlap(a, ba, b, bb, reverse);
    }
  }

  lemma {:induction false} CleanOverlap(a: seq<Op>, ba: string, b: seq<Op>, bb: string, reverse: bool)
    requires Clean(b) && a != [] && b != [] && !Inserting(a) && !Inserting(b)
    ensures Clean(FollowRaw(a, ba, b, bb, reverse))
    decreases |a| + |b|, 0
  {
    hide FollowAttributes, NoEmptyValues, Clean, Chop;
    CleanTail(b);
    CleanChop(b, a[0].chars, a[0].lines);
    var both := Op(Keep, a[0].chars, a[0].lines, FollowAttributes(a[0].attribs, b[0].attribs));
    if a[0].chars < b[0].chars || (a[0].chars == b[0].chars && !(Deleting(b) && !Deleting(a))) {
      ChopSmaller(b, a[0].chars, a[0].lines);
      CleanFollowRaw(a[1..], ba, Chop(b, a[0].chars, a[0].lines), bb, reverse);
      var f := FollowRaw(a[1..], ba, Chop(b, a[0].chars, a[0].lines), bb, reverse);
      CleanCons(Part(b[0], a[0].chars, a[0].lines), f);
      CleanCons(both, f);
    } else {
      ChopSmaller(a, b[0].chars, b[0].lines);
      CleanFollowRaw(Chop(a, b[0].chars, b[0].lines), ba, b[1..], bb, reverse);
      var f := FollowRaw(Chop(a, b[0].chars, b[0].lines), ba, b[1..], bb, reverse);
      CleanCons(b[0], f);
      CleanCons(Op(Keep, b[0].chars, b[0].lines, FollowAttributes(a[0].attribs, b[0].attribs)), f);
    }
  }

  lemma ChopSmaller(ops: seq<Op>, k: int, l: int)
    requires ops != []
    ensures |Chop(ops, k, l)| <= |ops|
  {}

  lemma FollowIsClean(a: Changeset, b: Changeset, reverse: bool, t: string)
    requires IsFor(a, t) && IsCleanFor(b, t)
    ensures IsCleanFor(Follow(a, b, reverse), TextAfter(a, t))
  {
    hide Fits, Apply, Safe, Normal, ApplyText, Text, FollowRaw, Clean;
    var u := Untouched(t);
    TextOfUntouched(t);
    FollowIsFor(a, b, reverse, t);
    OnDocument(a, t, u);
    OnDocument(b, t, u);
    FollowConverges(a.ops, a.bank, b.ops, b.bank, reverse, u);
    var f, t' := FollowRaw(a.ops, a.bank, b.ops, b.bank, reverse), TextAfter(a, t);
    CleanFollowRaw(a.ops, a.bank, b.ops, b.bank, reverse);
    TextOfUntouched(t');
    FitsByText(f, b.bank, After(a, u), Untouched(t'));
    CleanNormal(f, b.bank, t');
  }

  lemma PutBackClean(v: Doc, d: Doc)
    requires PutBack(v, d, 0) && Styled(d)
    ensures NewClean(v)
  {
    hide NoEmptyValues;
  }

  lemma InverseIsClean(r: Changeset, cs: Changeset, d: Doc)
    requires IsFor(cs, Text(d)) && Styled(d) && Inverts(r, cs, d)
    ensures IsCleanFor(r, TextAfter(cs, Text(d)))
  {
    hide Fits, Apply, IsFor, Text, Undone, Styled, NewClean, Clean, PutBack;
    var t := Text(d);
    var u := Untouched(t);
    TextOfUntouched(t);
    assert From(t, 0) == u;
    OnDocument(cs, t, u);
    UndoneKeeps(cs.ops, cs.bank, t, 0, d);
    PutBackClean(Undone(cs.ops, cs.bank, u, d), d);
    CleanIfResult(r.ops, r.bank, After(cs, u));
  }

  ghost predicate AllNew(d: Doc) {
    forall i :: 0 <= i < |d| ==> d[i].New?
  }

  lemma {:induction false} StaysNew(ops: seq<Op>, bank: string, d: Doc)
    requires Fits(ops, bank, d) && AllNew(d)
    ensures AllNew(Apply(ops, bank, d))
    decreases |ops|
  {
    hide OpFits, Fits, Apply, Emit;
    if ops == [] {
      NothingToDo(bank, d);
    } else {
      Unfold(ops, bank, d);
      EmitNew(ops[0], bank, d);
      StaysNew(ops[1..], bank[BankUse(ops[0])..], d[DocUse(ops[0])..]);
    }
  }

  lemma EmitNew(op: Op, bank: string, d: Doc)
    requires OpFits(op, bank, d) && AllNew(d)
    ensures AllNew(Emit(op, bank, d)) && AllNew(d[DocUse(op)..])
  {
    hide ComposeAttributes, LinesTrue;
  }

  // A document keeps having only characters with values for their attributes.
  lemma StyledAfter(c: Changeset, d: Doc)
    requires Fits(c.ops, c.bank, d) && Clean(c.ops) && Styled(d)
    ensures Styled(After(c, d))
  {
    hide Fits, Apply, NoEmptyValues, Clean;
    CleanApply(c.ops, c.bank, d);
    StaysNew(c.ops, c.bank, d);
  }
}
