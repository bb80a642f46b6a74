/** A changeset taken for somebody else's, and what is left of it then: its text, once more. */
module Repeating {
  import opened Ordering
  import opened Attributes
  import opened Changesets
  import opened Composition
  import opened Following
  import opened NormalForm
  import opened Views
  import opened Algebra
  import opened Laws
  import opened Interleaving
  import opened Merging

  // ---------- the view

  lemma FollowSame(a: Attribs)
    ensures FollowAttributes(a, a) == []
  {
    var m := MapOf(a);
    forall k | k in m ensures !Survives(m, m, k) { StrLeTotal(m[k], m[k]); }
    assert FollowMaps(m, m) == map[] == MapOf([]);
    ListingOfMap([]);
  }

  ghost function Olds(v: Doc): Doc {
    if v == [] then [] else (if v[0].Old? then [v[0]] else []) + Olds(v[1..])
  }

  lemma {:induction false} ViewSize(v: Doc)
    ensures |v| == |News(v)| + |Olds(v)| && |News(v)| == |TypedText(v)|
  {
    if v != [] { ViewSize(v[1..]); }
  }

  lemma {:induction false} AbsentOlds(p: nat, v: Doc)
    requires Absent(p, v)
    ensures forall c: Cell :: c in Olds(v) ==> c.Old? && c.pos != p
  {
    if v != [] {
      assert forall j :: 0 <= j < |v[1..]| ==> v[1..][j] == v[j + 1];
      AbsentOlds(p, v[1..]);
    }
  }

  lemma FirstOld(v: Doc)
    requires v != []
    ensures v[0].Old? ==> Olds(v) != [] && Olds(v)[0] == v[0] && Olds(v)[1..] == Olds(v[1..])
    ensures v[0].New? ==> Olds(v) == Olds(v[1..])
  {
    assert [] + Olds(v[1..]) == Olds(v[1..]);
  }

  lemma BothSame(c: Cell)
    ensures Both(c, c) == c
  {
    FollowSame(c.attribs);
    ComposeUnits(c.attribs, true);
  }

  // The old characters of two views that have the same ones.
  lemma {:induction false} MergedSame(m: Doc, x: Doc, y: Doc)
    requires Merged(m, x, y) && Olds(x) == Olds(y)
    ensures Olds(m) == Olds(x)
    decreases |x| + |y|
  {
    hide Both, Absent, Olds;
    if m != [] { FirstOld(m); }
    if x != [] { FirstOld(x); }
    if y != [] { FirstOld(y); }
    if m == [] && x == [] && y == [] {
    } else if m != [] && x != [] && x[0].New? && m[0] == x[0] && Merged(m[1..], x[1..], y) {
      MergedSame(m[1..], x[1..], y);
    } else if m != [] && y != [] && y[0].New? && m[0] == y[0] && Merged(m[1..], x, y[1..]) {
      MergedSame(m[1..], x, y[1..]);
    } else if x != [] && x[0].Old? && Absent(x[0].pos, y) && Merged(m, x[1..], y) {
      AbsentOlds(x[0].pos, y);
      assert false;
    } else if y != [] && y[0].Old? && Absent(y[0].pos, x) && Merged(m, x, y[1..]) {
      AbsentOlds(y[0].pos, x);
      assert false;
    } else {
      BothSame(x[0]);
      MergedSame(m[1..], x[1..], y[1..]);
    }
  }

  // ---------- nothing typed

  ghost predicate PlainKeeps(ops: seq<Op>) {
    forall i :: 0 <= i < |ops| ==> ops[i].opcode == Keep && ops[i].attribs == []
  }

  lemma {:induction false} PlainKeepsVanish(ops: seq<Op>)
    requires PlainKeeps(ops)
    ensures Normal(ops, true) == [] && LengthChange(ops) == 0
  {
    if ops != [] { PlainKeepsVanish(ops[1..]); }
  }

  ghost predicate TypesNothing(ops: seq<Op>) {
    forall i :: 0 <= i < |ops| ==> ops[i].opcode == Keep || ops[i].opcode == Delete
  }

  lemma {:induction false} NoBankTypesNothing(ops: seq<Op>, bank: string, d: Doc)
    requires Fits(ops, bank, d) && bank == ""
    ensures TypesNothing(ops)
    decreases |ops|
  {
    if ops != [] {
      NoBankTypesNothing(ops[1..], bank[BankUse(ops[0])..], d[DocUse(ops[0])..]);
    }
  }

  lemma {:induction false} RepeatedDeletions(a: seq<Op>, bank: string, reverse: bool)
    requires TypesNothing(a)
    ensures PlainKeeps(FollowRaw(a, bank, a, bank, reverse))
    decreases |a|
  {
    hide FollowAttributes;
    if a != [] {
      RepeatedDeletions(a[1..], bank, reverse);
      FollowSame(a[0].attribs);
    }
  }

  // What follows itself types its text once more behind it, deletes nothing more and
  // restyles nothing: the two merged have the old characters as they are after the first,
  // and the new text twice. Nothing is left to do exactly if it types nothing.
  lemma SelfFollow(c: Changeset, reverse: bool, t: string)
    requires IsFor(c, t)
    ensures var f := Follow(c, c, reverse);
            && IsFor(f, TextAfter(c, t)) && IsFor(Compose(c, f), t)
            && f.bank == c.bank && f.oldLen == c.newLen && f.newLen == c.newLen + |c.bank|
            && (f == Identity(c.newLen) <==> c.bank == "")
    ensures var m, x := ViewOf(Compose(c, Follow(c, c, reverse)), t), ViewOf(c, t);
            Olds(m) == Olds(x) && Interleaved(News(m), News(x), News(x))
  {
    hide Fits, Apply, Safe, Normal, ApplyText, Text, Compose, FollowRaw, Merged, News, Interleaved, InBoth, TypedText,
         Olds, PlainKeeps, TypesNothing, LengthChange;
    var f := Follow(c, c, reverse);
    FollowIsFor(c, c, reverse, t);
    MergeHasAll(c, c, reverse, t);
    var m, x := ViewOf(Compose(c, f), t), ViewOf(c, t);
    MergedSame(m, x, x);
    InterleavedSize(News(m), News(x), News(x));
    ViewSize(m);
    ViewSize(x);
    ViewTyped(c, t);
    ViewLength(c, t);
    ViewLength(Compose(c, f), t);
    ComposedLengths(c, f);
    if c.bank == "" {
      NoBankTypesNothing(c.ops, c.bank, Untouched(t));
      RepeatedDeletions(c.ops, c.bank, reverse);
      PlainKeepsVanish(FollowRaw(c.ops, c.bank, c.ops, c.bank, reverse));
    }
  }

  lemma ViewTyped(c: Changeset, t: string)
    requires IsFor(c, t)
    ensures TypedText(ViewOf(c, t)) == c.bank
  {
    hide Fits, Apply, Safe, Normal, LengthChange;
    assert From(t, 0) == Untouched(t);
    NormalOfView(c.ops, c.bank, t, 0);
  }

  lemma ViewLength(c: Changeset, t: string)
    requires IsFor(c, t)
    ensures |ViewOf(c, t)| == c.newLen
  {
    hide Fits, Apply, Safe, Normal, LengthChange;
    ApplyLength(c.ops, c.bank, Untouched(t));
  }

  lemma ComposedLengths(a: Changeset, b: Changeset)
    ensures Compose(a, b).oldLen == a.oldLen && Compose(a, b).newLen == b.newLen
  {
    hide ComposeRaw, Normal;
  }

  lemma {:induction false} FollowNothing(b: seq<Op>, bb: string, reverse: bool)
    ensures FollowRaw([], "", b, bb, reverse) == b
    decreases |b|
  {
    if b != [] {
      FollowNothing(b[1..], if Inserting(b) then Drop(bb, b[0].chars) else bb, reverse);
      assert b == [b[0]] + b[1..];
    }
  }

  // ---------- nothing deleted

  ghost predicate DeletesNothing(ops: seq<Op>) {
    forall i :: 0 <= i < |ops| ==> ops[i].opcode != Delete
  }

  lemma DeletesNothingTail(ops: seq<Op>)
    requires DeletesNothing(ops) && ops != []
    ensures ops[0].opcode != Delete && DeletesNothing(ops[1..])
    ensures LengthChange(ops) == Growth(ops[0]) + LengthChange(ops[1..])
  {}

  lemma DeletesNothingFront(op: Op, ops: seq<Op>)
    requires DeletesNothing(ops) && op.opcode != Delete
    ensures DeletesNothing([op] + ops) && LengthChange([op] + ops) == Growth(op) + LengthChange(ops)
  {
    assert ([op] + ops)[1..] == ops;
  }

  lemma {:induction false} DeletesNothingChopped(ops: seq<Op>, k: int, l: int)
    requires DeletesNothing(ops) && ops != [] && ops[0].opcode != Insert
    ensures DeletesNothing(Chop(ops, k, l)) && LengthChange(Chop(ops, k, l)) == LengthChange(ops)
    ensures |Chop(ops, k, l)| <= |ops|
  {
    var c := Chop(ops, k, l);
    if ops[0].chars != k { assert c[1..] == ops[1..]; }
  }

  lemma NothingDeleted()
    ensures DeletesNothing([]) && LengthChange([]) == 0
  {}

  // Who deletes nothing deletes nothing and types everything, whatever was done first.
  lemma {:induction false} FollowTypesAll(a: seq<Op>, ba: string, b: seq<Op>, bb: string, reverse: bool)
    requires DeletesNothing(b)
    ensures DeletesNothing(FollowRaw(a, ba, b, bb, reverse))
    ensures LengthChange(FollowRaw(a, ba, b, bb, reverse)) == LengthChange(b)
    decreases |a| + |b|, 1
  {
    hide DeletesNothing, LengthChange, Chop, FollowAttributes, Drop, TakesFirst;
    NothingDeleted();
    if b != [] { DeletesNothingTail(b); }
    if a == [] && b == [] {
    } else if Inserting(a) || Inserting(b) {
      TakesFirstInserts(a, ba, b, bb, reverse);
      if TakesFirst(a, ba, b, bb, reverse) {
        FollowTypesAll(a[1..], Drop(ba, a[0].chars), b, bb, reverse);
        DeletesNothingFront(Op(Keep, a[0].chars, a[0].lines, []),
                            FollowRaw(a[1..], Drop(ba, a[0].chars), b, bb, reverse));
      } else {
        FollowTypesAll(a, ba, b[1..], Drop(bb, b[0].chars), reverse);
        DeletesNothingFront(b[0], FollowRaw(a, ba, b[1..], Drop(bb, b[0].chars), reverse));
      }
    } else if a == [] {
      FollowTypesAll(a, ba, b[1..], bb, reverse);
      DeletesNothingFront(b[0], FollowRaw(a, ba, b[1..], bb, reverse));
    } else if b == [] {
      FollowTypesAll(a[1..], ba, b, bb, reverse);
      if !Deleting(a) { DeletesNothingFront(a[0], FollowRaw(a[1..], ba, b, bb, reverse)); }
    } else {
      OverlapTypesAll(a, ba, b, bb, reverse);
    }
  }

  lemma {:induction false} OverlapTypesAll(a: seq<Op>, ba: string, b: seq<Op>, bb: string, reverse: bool)
    requires DeletesNothing(b) && a != [] && b != [] && !Inserting(a) && !Inserting(b)
    ensures DeletesNothing(FollowRaw(a, ba, b, bb, reverse))
    ensures LengthChange(FollowRaw(a, ba, b, bb, reverse)) == LengthChange(b)
    decreases |a| + |b|, 0
  {
    hide DeletesNothing, LengthChange, FollowAttributes;
    DeletesNothingTail(b);
    var ofA := a[0].chars <= b[0].chars;
    var k, l := if ofA then a[0].chars else b[0].chars, if ofA then a[0].lines else b[0].lines;
    DeletesNothingChopped(b, k, l);
    FollowTypesAll(Chop(a, k, l), ba, Chop(b, k, l), bb, reverse);
    var rest := FollowRaw(Chop(a, k, l), ba, Chop(b, k, l), bb, reverse);
    DeletesNothingFront(Op(Keep, k, l, FollowAttributes(a[0].attribs, b[0].attribs)), rest);
    OverlapGoesOn(a, ba, b, bb, reverse, k, l);
  }

  lemma {:induction false} OverlapGoesOn(a: seq<Op>, ba: string, b: seq<Op>, bb: string, reverse: bool, k: int, l: int)
    requires a != [] && b != [] && !Inserting(a) && !Inserting(b) && b[0].opcode != Delete
    requires var ofA := a[0].chars <= b[0].chars;
             k == (if ofA then a[0].chars else b[0].chars) && l == if ofA then a[0].lines else b[0].lines
    ensures |Chop(a, k, l)| + |Chop(b, k, l)| < |a| + |b|
    ensures FollowRaw(a, ba, b, bb, reverse)
         == (if a[0].opcode == Delete then [] else [Op(Keep, k, l, FollowAttributes(a[0].attribs, b[0].attribs))])
            + FollowRaw(Chop(a, k, l), ba, Chop(b, k, l), bb, reverse)
  {
    hide FollowAttributes;
  }

  lemma {:induction false} TypedLength(ops: seq<Op>, bank: string, d: Doc)
    requires Fits(ops, bank, d)
    ensures LengthChange(ops) <= |bank| && (LengthChange(ops) == |bank| <==> DeletesNothing(ops))
    decreases |ops|
  {
    hide LinesTrue;
    if ops != [] {
      TypedLength(ops[1..], bank[BankUse(ops[0])..], d[DocUse(ops[0])..]);
      assert ops == [ops[0]] + ops[1..];
    }
  }

  // A changeset that types what it types and deletes nothing still does so after another.
  lemma TypingStays(a: Changeset, b: Changeset, reverse: bool, t: string)
    requires IsFor(a, t) && IsFor(b, t) && b.newLen == b.oldLen + |b.bank|
    ensures var f := Follow(a, b, reverse); f.newLen == f.oldLen + |f.bank| && f.bank == b.bank
  {
    hide Fits, Apply, Safe, Normal, FollowRaw, LengthChange, DeletesNothing;
    TypedLength(b.ops, b.bank, Untouched(t));
    FollowTypesAll(a.ops, a.bank, b.ops, b.bank, reverse);
  }
}
