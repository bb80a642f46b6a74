/** What two concurrent changesets, merged, make of a text: everything of both. */
module Merging {
  import opened Attributes
  import opened Changesets
  import opened Composition
  import opened Following
  import opened NormalForm
  import opened Views
  import opened Algebra
  import opened Laws
  import opened Interleaving

  // ---------- two views merged

  // No old character of the view is the one at `p`.
  ghost predicate Absent(p: nat, v: Doc) {
    forall j :: 0 <= j < |v| && v[j].Old? ==> v[j].pos != p
  }

  // An old character with the attribute changes of both.
  ghost function Both(c: Cell, e: Cell): Cell {
    c.(attribs := ComposeAttributes(c.attribs, FollowAttributes(c.attribs, e.attribs), true))
  }

  // `m` holds the new text of `x` and `y`, and the old characters that are in both, each in
  // the order it has there.
  ghost predicate Merged(m: Doc, x: Doc, y: Doc)
    decreases |x| + |y|
  {
    || (m == [] && x == [] && y == [])
    || (m != [] && x != [] && x[0].New? && m[0] == x[0] && Merged(m[1..], x[1..], y))
    || (m != [] && y != [] && y[0].New? && m[0] == y[0] && Merged(m[1..], x, y[1..]))
    || (x != [] && x[0].Old? && Absent(x[0].pos, y) && Merged(m, x[1..], y))
    || (y != [] && y[0].Old? && Absent(y[0].pos, x) && Merged(m, x, y[1..]))
    || (m != [] && x != [] && y != [] && x[0].Old? && y[0].Old? && x[0].pos == y[0].pos && m[0] == Both(x[0], y[0])
        && Absent(x[0].pos, x[1..]) && Absent(x[0].pos, y[1..]) && Merged(m[1..], x[1..], y[1..]))
  }

  lemma {:induction false} TypedMerges(s: string, a: Attribs, m: Doc, x: Doc, y: Doc)
    requires Merged(m, x, y)
    ensures Merged(Typed(s, a) + m, Typed(s, a) + x, y) && Merged(Typed(s, a) + m, x, Typed(s, a) + y)
  {
    hide Absent, Both;
    if s == "" {
      assert Typed(s, a) + m == m && Typed(s, a) + x == x && Typed(s, a) + y == y;
    } else {
      TypedMerges(s[1..], a, m, x, y);
      TypedFirst(s, a, m);
      TypedFirst(s, a, x);
      TypedFirst(s, a, y);
    }
  }

  lemma TypedFirst(s: string, a: Attribs, d: Doc)
    requires s != ""
    ensures var v := Typed(s, a) + d; v != [] && v[0] == New(s[0], a) && v[1..] == Typed(s[1..], a) + d
  {}

  // ---------- stretches of old text

  // `e` holds the characters of `t` from `i` on, as they were.
  ghost predicate Stretch(e: Doc, t: string, i: nat) {
    i + |e| <= |t| && e == From(t, i)[..|e|]
  }

  lemma StretchFirst(e: Doc, t: string, i: nat)
    requires Stretch(e, t, i) && e != []
    ensures e[0] == Old(i, t[i], []) && Stretch(e[1..], t, i + 1) && e == [e[0]] + e[1..]
  {
    assert From(t, i)[..|e|][1..] == From(t, i + 1)[..|e| - 1];
  }

  lemma OldFromAbsent(v: Doc, t: string, i: nat, p: nat)
    requires OldFrom(v, t, i) && p < i
    ensures Absent(p, v)
  {}

  lemma RestyledFirst(e: Doc, a: Attribs, d: Doc)
    requires e != []
    ensures var v := Restyle(e, a) + d; v != [] && v[0] == Restyled(e[0], a) && v[1..] == Restyle(e[1..], a) + d
  {
    hide Restyled;
    assert Restyle(e, a)[1..] == Restyle(e[1..], a);
  }

  lemma RestyledFrom(e: Doc, a: Attribs, t: string, i: nat, d: Doc)
    requires Stretch(e, t, i) && OldFrom(d, t, i + |e|)
    ensures OldFrom(Restyle(e, a) + d, t, i)
  {
    hide ComposeAttributes;
    assert forall j :: 0 <= j < |e| ==> e[j] == From(t, i)[j] == Old(i + j, t[i + j], []);
  }

  // The style of a character that both changed.
  lemma BothStyled(c: Cell, a: Attribs, b: Attribs)
    requires c.Old? && c.attribs == []
    ensures Restyled(c, a).Old? && Restyled(c, a).pos == c.pos
    ensures Both(Restyled(c, a), Restyled(c, b)) == Restyled(Restyled(c, a), FollowAttributes(a, b))
  {
    hide ComposeAttributes, FollowAttributes;
    ComposeUnits(a, true);
    ComposeUnits(b, true);
  }

  lemma {:induction false} KeptByBoth(e: Doc, a: Attribs, b: Attribs, t: string, i: nat, m: Doc, x: Doc, y: Doc)
    requires Stretch(e, t, i) && OldFrom(x, t, i + |e|) && OldFrom(y, t, i + |e|) && Merged(m, x, y)
    ensures Merged(Restyle(Restyle(e, a), FollowAttributes(a, b)) + m, Restyle(e, a) + x, Restyle(e, b) + y)
    decreases |e|
  {
    hide ComposeAttributes, FollowAttributes, Restyled, Both, OldFrom, Absent, Stretch;
    var f := FollowAttributes(a, b);
    if e == [] {
      NothingRestyled(a, x);
      NothingRestyled(b, y);
      NothingRestyled(f, m);
      assert Restyle([], a) == [];
    } else {
      StretchFirst(e, t, i);
      KeptByBoth(e[1..], a, b, t, i + 1, m, x, y);
      RestyledFirst(e, a, x);
      RestyledFirst(e, b, y);
      RestyledFirst(Restyle(e, a), f, m);
      RestyledFirst(e, a, []);
      assert Restyle(e, a) + [] == Restyle(e, a) && Restyle(e[1..], a) + [] == Restyle(e[1..], a);
      BothStyled(e[0], a, b);
      BothStyled(e[0], b, a);
      RestyledFrom(e[1..], a, t, i + 1, x);
      RestyledFrom(e[1..], b, t, i + 1, y);
      OldFromAbsent(Restyle(e[1..], a) + x, t, i + 1, i);
      OldFromAbsent(Restyle(e[1..], b) + y, t, i + 1, i);
    }
  }

  lemma NothingRestyled(a: Attribs, d: Doc)
    ensures Restyle([], a) + d == d
  {}

  lemma {:induction false} KeptByOne(e: Doc, a: Attribs, t: string, i: nat, m: Doc, x: Doc, y: Doc)
    requires Stretch(e, t, i) && OldFrom(y, t, i + |e|) && OldFrom(x, t, i + |e|) && Merged(m, x, y)
    ensures Merged(m, Restyle(e, a) + x, y) && Merged(m, x, Restyle(e, a) + y)
    decreases |e|
  {
    hide ComposeAttributes, FollowAttributes, Restyled, Both, OldFrom, Absent, Stretch;
    if e == [] {
      NothingRestyled(a, x);
      NothingRestyled(a, y);
    } else {
      StretchFirst(e, t, i);
      KeptByOne(e[1..], a, t, i + 1, m, x, y);
      RestyledFirst(e, a, x);
      RestyledFirst(e, a, y);
      BothStyled(e[0], a, a);
      FurtherOn(x, t, i + |e|, i + 1);
      FurtherOn(y, t, i + |e|, i + 1);
      OldFromAbsent(x, t, i + 1, i);
      OldFromAbsent(y, t, i + 1, i);
    }
  }

  lemma FurtherOn(v: Doc, t: string, j: nat, i: nat)
    requires OldFrom(v, t, j) && i <= j
    ensures OldFrom(v, t, i)
  {}

  // ---------- the ops

  // What `f` makes of the view `x` is the merge of `x` and `y`.
  ghost predicate Merges(f: seq<Op>, bank: string, x: Doc, y: Doc) {
    Fits(f, bank, x) && Merged(Apply(f, bank, x), x, y)
  }

  lemma {:induction false} FollowIsMerge(a: seq<Op>, ba: string, b: seq<Op>, bb: string, reverse: bool, t: string,
      i: nat)
    requires i <= |t| && Fits(a, ba, From(t, i)) && Fits(b, bb, From(t, i))
    ensures Merges(FollowRaw(a, ba, b, bb, reverse), bb, Apply(a, ba, From(t, i)), Apply(b, bb, From(t, i)))
    decreases |a| + |b|, 1
  {
    hide OpFits, Fits, Apply, Emit, FollowAttributes, FollowRaw, Merged, From;
    var d := From(t, i);
    if a != [] { Unfold(a, ba, d); FitBounds(a[0], ba, d); }
    if b != [] { Unfold(b, bb, d); FitBounds(b[0], bb, d); }
    if a == [] && b == [] {
      BothLeave(ba, bb, reverse, t, i);
    } else if Inserting(a) || Inserting(b) {
      if TakesFirst(a, ba, b, bb, reverse) {
        FirstTypes(a, ba, b, bb, reverse, t, i);
      } else {
        SecondTypes(a, ba, b, bb, reverse, t, i);
      }
    } else if a == [] {
      SecondGoesOn(b, bb, ba, reverse, t, i);
    } else if b == [] {
      FirstGoesOn(a, ba, bb, reverse, t, i);
    } else {
      BothGoOn(a, ba, b, bb, reverse, t, i);
    }
  }

  lemma {:induction false} UntouchedMerges(t: string, i: nat)
    requires i <= |t|
    ensures Merged(From(t, i), From(t, i), From(t, i))
    decreases |t| - i
  {
    hide ComposeAttributes, FollowAttributes;
    var d := From(t, i);
    if i < |t| {
      UntouchedMerges(t, i + 1);
      assert d[0] == Old(i, t[i], []) && d[1..] == From(t, i + 1);
      FollowUnits([]);
      ComposeUnits([], true);
    }
  }

  lemma BothLeave(ba: string, bb: string, reverse: bool, t: string, i: nat)
    requires i <= |t| && Fits([], ba, From(t, i)) && Fits([], bb, From(t, i))
    ensures Merges(FollowRaw([], ba, [], bb, reverse), bb, Apply([], ba, From(t, i)), Apply([], bb, From(t, i)))
  {
    hide Merged, From;
    UntouchedMerges(t, i);
  }

  lemma {:induction false} FirstTypes(a: seq<Op>, ba: string, b: seq<Op>, bb: string, reverse: bool, t: string, i: nat)
    requires i <= |t| && Fits(a, ba, From(t, i)) && Fits(b, bb, From(t, i))
    requires Inserting(a) && TakesFirst(a, ba, b, bb, reverse)
    ensures Merges(FollowRaw(a, ba, b, bb, reverse), bb, Apply(a, ba, From(t, i)), Apply(b, bb, From(t, i)))
    decreases |a| + |b|, 0
  {
    hide OpFits, Fits, Apply, FollowAttributes, Merged, From;
    var d := From(t, i);
    Unfold(a, ba, d);
    FitBounds(a[0], ba, d);
    var a', ba' := a[1..], ba[a[0].chars..];
    assert d[0..] == d;
    FollowIsMerge(a', ba', b, bb, reverse, t, i);
    var f := FollowRaw(a', ba', b, bb, reverse);
    var x' := Apply(a', ba', d);
    EmittedText(a[0], ba, d);
    StyleNothing(Emit(a[0], ba, d));
    OldStep(Op(Keep, a[0].chars, a[0].lines, []), f, bb, Emit(a[0], ba, d), x');
    TypedMerges(ba[..a[0].chars], a[0].attribs, Apply(f, bb, x'), x', Apply(b, bb, d));
  }

  lemma {:induction false} SecondTypes(a: seq<Op>, ba: string, b: seq<Op>, bb: string, reverse: bool, t: string, i: nat)
    requires i <= |t| && Fits(a, ba, From(t, i)) && Fits(b, bb, From(t, i))
    requires Inserting(b) && !TakesFirst(a, ba, b, bb, reverse)
    ensures Merges(FollowRaw(a, ba, b, bb, reverse), bb, Apply(a, ba, From(t, i)), Apply(b, bb, From(t, i)))
    decreases |a| + |b|, 0
  {
    hide OpFits, Fits, Apply, FollowAttributes, Merged, From;
    var d := From(t, i);
    Unfold(b, bb, d);
    FitBounds(b[0], bb, d);
    var b', bb' := b[1..], bb[b[0].chars..];
    assert d[0..] == d;
    FollowIsMerge(a, ba, b', bb', reverse, t, i);
    var f := FollowRaw(a, ba, b', bb', reverse);
    var x := Apply(a, ba, d);
    InsertElsewhere(b[0], bb, d, x);
    assert x[0..] == x;
    Push(b[0], f, bb, x);
    TypedMerges(bb[..b[0].chars], b[0].attribs, Apply(f, bb', x), x, Apply(b', bb', d));
  }

  // The stretch the next op is about, and the rest.
  lemma NextStretch(t: string, i: nat, k: nat)
    requires i + k <= |t|
    ensures |From(t, i)| == |t| - i
    ensures From(t, i) == From(t, i)[..k] + From(t, i + k) && From(t, i)[k..] == From(t, i + k)
    ensures Stretch(From(t, i)[..k], t, i) && |From(t, i)[..k]| == k
  {}

  lemma AppliedFrom(ops: seq<Op>, bank: string, t: string, i: nat)
    requires i <= |t| && Fits(ops, bank, From(t, i))
    ensures OldFrom(Apply(ops, bank, From(t, i)), t, i)
  {
    hide Fits, Apply, Normal, OldFrom, From;
    NormalOfView(ops, bank, t, i);
  }

  lemma FromSize(t: string, i: nat)
    requires i <= |t|
    ensures |From(t, i)| == |t| - i
  {}

  // What an op that keeps or deletes the next stretch makes of it.
  lemma {:induction false} StretchTaken(ops: seq<Op>, bank: string, t: string, i: nat) returns (e: Doc, rest: Doc)
    requires i <= |t| && ops != [] && Fits(ops, bank, From(t, i)) && ops[0].opcode != Insert
    ensures OldOp(ops[0]) && 0 < ops[0].chars == |e| && i + |e| <= |t|
    ensures From(t, i) == e + rest && rest == From(t, i + |e|) && Stretch(e, t, i)
    ensures LinesTrue(ops[0].lines, Text(e)) && Fits(ops[1..], bank, rest)
    ensures Apply(ops, bank, From(t, i))
         == (if ops[0].opcode == Keep then Restyle(e, ops[0].attribs) else []) + Apply(ops[1..], bank, rest)
    ensures OldFrom(Apply(ops[1..], bank, rest), t, i + |e|) && OldFrom(rest, t, i + |e|)
  {
    hide OpFits, Fits, Apply, Emit, From, OldFrom, Stretch, LinesTrue, Text, Restyle;
    var d := From(t, i);
    Unfold(ops, bank, d);
    OldOpFacts(ops[0], bank, d);
    FromSize(t, i);
    var k := ops[0].chars;
    NextStretch(t, i, k);
    e, rest := d[..k], From(t, i + k);
    AppliedFrom(ops[1..], bank, t, i + k);
    FromIsOld(t, i + k);
  }

  lemma FromIsOld(t: string, i: nat)
    requires i <= |t|
    ensures OldFrom(From(t, i), t, i)
  {}

  lemma {:induction false} FollowTails(ops: seq<Op>, x: string, y: string, reverse: bool)
    requires ops != [] && (ops[0].opcode == Keep || ops[0].opcode == Delete)
    ensures FollowRaw([], x, ops, y, reverse) == [ops[0]] + FollowRaw([], x, ops[1..], y, reverse)
    ensures FollowRaw(ops, x, [], y, reverse)
         == (if ops[0].opcode == Keep then [ops[0]] else []) + FollowRaw(ops[1..], x, [], y, reverse)
  {
    assert [] + FollowRaw(ops[1..], x, [], y, reverse) == FollowRaw(ops[1..], x, [], y, reverse);
  }

  lemma {:induction false} SecondGoesOn(b: seq<Op>, bb: string, ba: string, reverse: bool, t: string, i: nat)
    requires i <= |t| && Fits([], ba, From(t, i)) && Fits(b, bb, From(t, i)) && b != [] && !Inserting(b)
    ensures Merges(FollowRaw([], ba, b, bb, reverse), bb, Apply([], ba, From(t, i)), Apply(b, bb, From(t, i)))
    decreases |b|, 0
  {
    hide OpFits, Fits, Apply, Emit, FollowAttributes, FollowRaw, Merged, From, OldFrom, Stretch, Merges, LinesTrue,
         Text, Restyle;
    var e, d' := StretchTaken(b, bb, t, i);
    NothingToDo(ba, From(t, i));
    FollowIsMerge([], ba, b[1..], bb, reverse, t, i + |e|);
    FollowTails(b, ba, bb, reverse);
    var plain := Op(Keep, |e|, b[0].lines, []);
    StretchMerges(plain, b[0], FollowRaw([], ba, b[1..], bb, reverse), bb, e, t, i, d', Apply(b[1..], bb, d'));
    StyleNothing(e);
    FollowUnits(b[0].attribs);
  }

  lemma FirstStretch(op: Op, f: seq<Op>, bank: string, e: Doc, t: string, i: nat, x: Doc, y: Doc)
    requires OldOp(op) && Stretch(e, t, i) && 0 < op.chars == |e| && LinesTrue(op.lines, Text(e))
    requires OldFrom(x, t, i + |e|) && OldFrom(y, t, i + |e|) && Merges(f, bank, x, y)
    ensures Merges((if op.opcode == Keep then [op] else []) + f, bank,
                   (if op.opcode == Keep then Restyle(e, op.attribs) else []) + x, e + y)
  {
    hide Fits, Apply, LinesTrue, Text, Restyle, FollowAttributes, Merged, OldFrom, Stretch;
    var m := Apply(f, bank, x);
    StyleNothing(e);
    if op.opcode == Keep {
      RestyledText(e, op.attribs);
      OldStep(op, f, bank, Restyle(e, op.attribs), x);
      StyleAgain(e, op.attribs);
      StyleNothing(Restyle(e, op.attribs));
      FollowUnits(op.attribs);
      KeptByBoth(e, op.attribs, [], t, i, m, x, y);
    } else {
      KeptByOne(e, [], t, i, m, x, y);
      assert [] + f == f && [] + x == x;
    }
  }

  lemma {:induction false} FirstGoesOn(a: seq<Op>, ba: string, bb: string, reverse: bool, t: string, i: nat)
    requires i <= |t| && Fits(a, ba, From(t, i)) && Fits([], bb, From(t, i)) && a != [] && !Inserting(a)
    ensures Merges(FollowRaw(a, ba, [], bb, reverse), bb, Apply(a, ba, From(t, i)), Apply([], bb, From(t, i)))
    decreases |a|, 0
  {
    hide OpFits, Fits, Apply, Emit, FollowAttributes, FollowRaw, Merged, From, OldFrom, Stretch, Merges, LinesTrue,
         Text, Restyle;
    var e, d' := StretchTaken(a, ba, t, i);
    NothingToDo(bb, From(t, i));
    FollowIsMerge(a[1..], ba, [], bb, reverse, t, i + |e|);
    FollowTails(a, ba, bb, reverse);
    FirstStretch(a[0], FollowRaw(a[1..], ba, [], bb, reverse), bb, e, t, i, Apply(a[1..], ba, d'), d');
  }

  lemma {:induction false} BothGoOn(a: seq<Op>, ba: string, b: seq<Op>, bb: string, reverse: bool, t: string, i: nat)
    requires i <= |t| && Fits(a, ba, From(t, i)) && Fits(b, bb, From(t, i))
    requires a != [] && b != [] && !Inserting(a) && !Inserting(b)
    ensures Merges(FollowRaw(a, ba, b, bb, reverse), bb, Apply(a, ba, From(t, i)), Apply(b, bb, From(t, i)))
    decreases |a| + |b|, 0
  {
    hide OpFits, Fits, Apply, Emit, FollowAttributes, FollowRaw, Merged, From, OldFrom, Stretch, Chop;
    var d := From(t, i);
    var k, l := Overlap(a, ba, b, bb, d);
    FromSize(t, i);
    NextStretch(t, i, k);
    ChopShorter(a, b, k, l);
    var ca, cb := Chop(a, k, l), Chop(b, k, l);
    FollowIsMerge(ca, ba, cb, bb, reverse, t, i + k);
    OverlapFollow(a, ba, b, bb, reverse, k, l);
    AppliedFrom(ca, ba, t, i + k);
    AppliedFrom(cb, bb, t, i + k);
    StretchMerges(Part(a[0], k, l), Part(b[0], k, l), FollowRaw(ca, ba, cb, bb, reverse), bb, d[..k], t, i,
                  Apply(ca, ba, From(t, i + k)), Apply(cb, bb, From(t, i + k)));
  }

  lemma {:induction false} ChopShorter(a: seq<Op>, b: seq<Op>, k: int, l: int)
    requires a != [] && b != [] && (k == a[0].chars || k == b[0].chars)
    ensures |Chop(a, k, l)| + |Chop(b, k, l)| < |a| + |b|
  {}

  lemma StretchMerges(pa: Op, pb: Op, f: seq<Op>, bank: string, e: Doc, t: string, i: nat, x: Doc, y: Doc)
    requires OldOp(pa) && OldOp(pb) && Stretch(e, t, i)
    requires 0 < pa.chars == pb.chars == |e| && pa.lines == pb.lines && LinesTrue(pa.lines, Text(e))
    requires OldFrom(x, t, i + |e|) && OldFrom(y, t, i + |e|) && Merges(f, bank, x, y)
    ensures var ea := if pa.opcode == Keep then Restyle(e, pa.attribs) else [];
            var eb := if pb.opcode == Keep then Restyle(e, pb.attribs) else [];
            Merges(OverlapEmits(pa, pb) + f, bank, ea + x, eb + y)
  {
    hide Fits, Apply, LinesTrue, Text, Restyle, FollowAttributes, Merged, OldFrom, Stretch;
    var ea := if pa.opcode == Keep then Restyle(e, pa.attribs) else [];
    var eb := if pb.opcode == Keep then Restyle(e, pb.attribs) else [];
    var m := Apply(f, bank, x);
    RestyledText(e, pa.attribs);
    assert [] + f == f && [] + x == x && [] + y == y && [] + m == m;
    if pa.opcode == Keep { OldStep(OverlapEmits(pa, pb)[0], f, bank, ea, x); }
    if pa.opcode == Keep && pb.opcode == Keep {
      KeptByBoth(e, pa.attribs, pb.attribs, t, i, m, x, y);
    } else if pa.opcode == Keep {
      KeptByOne(e, pa.attribs, t, i, m, x, y);
    } else if pb.opcode == Keep {
      KeptByOne(e, pb.attribs, t, i, m, x, y);
    }
  }

  // ---------- what a merge has

  ghost function News(v: Doc): Doc {
    if v == [] then [] else (if v[0].New? then [v[0]] else []) + News(v[1..])
  }

  lemma NewsFirst(v: Doc)
    requires v != []
    ensures v[0].New? ==> News(v) == [v[0]] + News(v[1..])
    ensures v[0].Old? ==> News(v) == News(v[1..])
  {
    assert [] + News(v[1..]) == News(v[1..]);
  }

  // The new text of both, each in its order.
  lemma {:induction false} MergedNews(m: Doc, x: Doc, y: Doc)
    requires Merged(m, x, y)
    ensures Interleaved(News(m), News(x), News(y))
    decreases |x| + |y|
  {
    hide Absent, Both, News, Interleaved;
    if m != [] { NewsFirst(m); }
    if x != [] { NewsFirst(x); }
    if y != [] { NewsFirst(y); }
    if m == [] && x == [] && y == [] {
      NothingNew();
    } else if m != [] && x != [] && x[0].New? && m[0] == x[0] && Merged(m[1..], x[1..], y) {
      MergedNews(m[1..], x[1..], y);
      InterleavedFirst(x[0], News(m[1..]), News(x[1..]), News(y));
    } else if m != [] && y != [] && y[0].New? && m[0] == y[0] && Merged(m[1..], x, y[1..]) {
      MergedNews(m[1..], x, y[1..]);
      InterleavedFirst(y[0], News(m[1..]), News(x), News(y[1..]));
    } else if x != [] && x[0].Old? && Absent(x[0].pos, y) && Merged(m, x[1..], y) {
      MergedNews(m, x[1..], y);
    } else if y != [] && y[0].Old? && Absent(y[0].pos, x) && Merged(m, x, y[1..]) {
      MergedNews(m, x, y[1..]);
    } else {
      BothOld(x[0], y[0]);
      MergedNews(m[1..], x[1..], y[1..]);
    }
  }

  lemma NothingNew()
    ensures News([]) == [] && Interleaved<Cell>([], [], [])
  {}

  lemma BothOld(c: Cell, e: Cell)
    requires c.Old?
    ensures Both(c, e).Old? && Both(c, e).pos == c.pos
  {}

  // `c` is an old character of both.
  ghost predicate InBoth(c: Cell, x: Doc, y: Doc) {
    exists i, j :: BothAt(c, x, y, i, j)
  }

  ghost predicate BothAt(c: Cell, x: Doc, y: Doc, i: int, j: int) {
    && 0 <= i < |x| && 0 <= j < |y| && x[i].Old? && y[j].Old? && x[i].pos == y[j].pos && c == Both(x[i], y[j])
  }

  // Old characters: those of both, with the changes of both.
  lemma {:induction false} MergedOlds(m: Doc, x: Doc, y: Doc, c: Cell)
    requires Merged(m, x, y) && c.Old?
    ensures c in m <==> InBoth(c, x, y)
    decreases |x| + |y|
  {
    hide Both, Absent;
    if m == [] && x == [] && y == [] {
    } else if m != [] && x != [] && x[0].New? && m[0] == x[0] && Merged(m[1..], x[1..], y) {
      MergedOlds(m[1..], x[1..], y, c);
      WithFirst(m);
      SkipFirst(c, x, y);
    } else if m != [] && y != [] && y[0].New? && m[0] == y[0] && Merged(m[1..], x, y[1..]) {
      MergedOlds(m[1..], x, y[1..], c);
      WithFirst(m);
      SkipSecond(c, x, y);
    } else if x != [] && x[0].Old? && Absent(x[0].pos, y) && Merged(m, x[1..], y) {
      MergedOlds(m, x[1..], y, c);
      SkipFirst(c, x, y);
    } else if y != [] && y[0].Old? && Absent(y[0].pos, x) && Merged(m, x, y[1..]) {
      MergedOlds(m, x, y[1..], c);
      SkipSecond(c, x, y);
    } else {
      MergedOlds(m[1..], x[1..], y[1..], c);
      WithFirst(m);
      BothFirst(c, x, y);
    }
  }

  lemma WithFirst<T>(s: seq<T>)
    requires s != []
    ensures s == [s[0]] + s[1..]
  {}

  lemma {:induction false} SkipFirst(c: Cell, x: Doc, y: Doc)
    requires x != [] && (x[0].Old? ==> Absent(x[0].pos, y))
    ensures InBoth(c, x, y) <==> InBoth(c, x[1..], y)
  {
    if InBoth(c, x, y) {
      var i, j :| BothAt(c, x, y, i, j);
      assert BothAt(c, x[1..], y, i - 1, j);
    }
    if InBoth(c, x[1..], y) {
      var i, j :| BothAt(c, x[1..], y, i, j);
      assert BothAt(c, x, y, i + 1, j);
    }
  }

  lemma {:induction false} SkipSecond(c: Cell, x: Doc, y: Doc)
    requires y != [] && (y[0].Old? ==> Absent(y[0].pos, x))
    ensures InBoth(c, x, y) <==> InBoth(c, x, y[1..])
  {
    if InBoth(c, x, y) {
      var i, j :| BothAt(c, x, y, i, j);
      assert BothAt(c, x, y[1..], i, j - 1);
    }
    if InBoth(c, x, y[1..]) {
      var i, j :| BothAt(c, x, y[1..], i, j);
      assert BothAt(c, x, y, i, j + 1);
    }
  }

  lemma Elsewhere(p: nat, v: Doc, i: int)
    requires 0 < i < |v| && v[i].Old? && Absent(p, v[1..])
    ensures v[i].pos != p
  {
    assert v[1..][i - 1] == v[i];
  }

  lemma {:induction false} BothFirst(c: Cell, x: Doc, y: Doc)
    requires x != [] && y != [] && x[0].Old? && y[0].Old? && x[0].pos == y[0].pos
    requires Absent(x[0].pos, x[1..]) && Absent(x[0].pos, y[1..])
    ensures InBoth(c, x, y) <==> c == Both(x[0], y[0]) || InBoth(c, x[1..], y[1..])
  {
    if InBoth(c, x, y) {
      var i, j :| BothAt(c, x, y, i, j);
      if i > 0 { Elsewhere(x[0].pos, x, i); }
      if j > 0 { Elsewhere(x[0].pos, y, j); }
      assert i > 0 ==> BothAt(c, x[1..], y[1..], i - 1, j - 1);
    }
    if c == Both(x[0], y[0]) { assert BothAt(c, x, y, 0, 0); }
    if InBoth(c, x[1..], y[1..]) {
      var i, j :| BothAt(c, x[1..], y[1..], i, j);
      assert BothAt(c, x, y, i + 1, j + 1);
    }
  }

  // Merging loses nothing and adds nothing: the new text of either side is there, in its order,
  // and an old character is there exactly if both keep it, with the attribute changes of both.
  lemma MergeHasAll(a: Changeset, b: Changeset, reverse: bool, t: string)
    requires IsFor(a, t) && IsFor(b, t)
    ensures IsFor(Compose(a, Follow(a, b, reverse)), t)
    ensures var m, x, y := ViewOf(Compose(a, Follow(a, b, reverse)), t), ViewOf(a, t), ViewOf(b, t);
            && Merged(m, x, y) && Interleaved(News(m), News(x), News(y))
            && forall c: Cell | c.Old? :: c in m <==> InBoth(c, x, y)
  {
    hide Fits, Apply, Safe, Normal, ApplyText, Text, Compose, FollowRaw, IsFor, Merged, News, Interleaved, InBoth;
    FollowMerges(a, b, reverse, t);
    var u := Untouched(t);
    var f := Follow(a, b, reverse);
    TextOfUntouched(t);
    WholeFrom(t);
    OnDocument(a, t, u);
    OnDocument(b, t, u);
    OnDocument(f, TextAfter(a, t), After(a, u));
    ComposeIsSequential(a, f, t);
    FollowIsMerge(a.ops, a.bank, b.ops, b.bank, reverse, t, 0);
    NormalEffect(FollowRaw(a.ops, a.bank, b.ops, b.bank, reverse), true, b.bank, After(a, u));
    var m := After(f, After(a, u));
    MergedNews(m, After(a, u), After(b, u));
    forall c: Cell | c.Old? ensures c in m <==> InBoth(c, After(a, u), After(b, u)) {
      MergedOlds(m, After(a, u), After(b, u), c);
    }
  }

  lemma WholeFrom(t: string)
    ensures From(t, 0) == Untouched(t)
  {}
}
