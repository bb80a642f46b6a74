/** Two people type at one place: whose text stands first. */
module TypingTogether {
  import opened Attributes
  import opened Changesets
  import opened Composition
  import opened Following
  import opened NormalForm
  import opened Views
  import opened Algebra
  import opened Laws
  import opened SmartAssembler
  import opened Covering
  import opened Splicing
  import opened Repeating
  import opened Stretches

  // ---------- what `follow` makes of the ops

  ghost predicate PlainKeepsOnly(ops: seq<Op>) {
    forall i :: 0 <= i < |ops| ==> ops[i].opcode == Keep && ops[i].attribs == [] && 0 < ops[i].chars
  }

  lemma KeptTogether(op: Op, a: seq<Op>, ba: string, b: seq<Op>, bb: string, reverse: bool)
    requires op.opcode == Keep && op.attribs == [] && 0 < op.chars
    ensures FollowRaw([op] + a, ba, [op] + b, bb, reverse) == [op] + FollowRaw(a, ba, b, bb, reverse)
  {
    hide FollowAttributes;
    FollowUnits([]);
    assert ([op] + a)[1..] == a && ([op] + b)[1..] == b;
  }

  lemma {:induction false} FollowBehindKeeps(k: seq<Op>, a: seq<Op>, ba: string, b: seq<Op>, bb: string, reverse: bool)
    requires PlainKeepsOnly(k)
    ensures FollowRaw(k + a, ba, k + b, bb, reverse) == k + FollowRaw(a, ba, b, bb, reverse)
    decreases |k|
  {
    hide FollowRaw;
    if k == [] {
      assert k + a == a && k + b == b;
    } else {
      var op, rest := k[0], k[1..];
      FollowBehindKeeps(rest, a, ba, b, bb, reverse);
      KeptTogether(op, rest + a, ba, rest + b, bb, reverse);
      assert k + a == [op] + (rest + a) && k + b == [op] + (rest + b);
      assert [op] + (rest + FollowRaw(a, ba, b, bb, reverse)) == k + FollowRaw(a, ba, b, bb, reverse);
    }
  }

  // Ops that type the text with the attributes; only the first may type a newline first.
  ghost predicate TypingOps(ops: seq<Op>, text: string, a: Attribs) {
    if ops == [] then text == ""
    else
      && ops[0].opcode == Insert && ops[0].attribs == a && 0 < ops[0].chars <= |text|
      && !StartsWithNewline(text[ops[0].chars..]) && TypingOps(ops[1..], text[ops[0].chars..], a)
  }

  ghost function Kept(ops: seq<Op>): seq<Op> {
    if ops == [] then [] else [Op(Keep, ops[0].chars, ops[0].lines, [])] + Kept(ops[1..])
  }

  lemma {:induction false} OnlyFirstLeft(a: seq<Op>, x: string, p: Attribs, bb: string, reverse: bool)
    requires TypingOps(a, x, p)
    ensures FollowRaw(a, x, [], bb, reverse) == Kept(a)
    decreases |a|
  {
    if a != [] { OnlyFirstLeft(a[1..], x[a[0].chars..], p, bb, reverse); }
  }

  lemma StaysFirst(a: seq<Op>, x: string, p: Attribs, b: Op, y: string, reverse: bool)
    requires TypingOps(a, x, p) && |a| > 1 && FirstGoesFirst(a[0], x, b, y, reverse)
    ensures FirstGoesFirst(a[1], x[a[0].chars..], b, y, reverse)
  {}

  lemma StaysSecond(a: Op, x: string, b: seq<Op>, y: string, q: Attribs, reverse: bool)
    requires TypingOps(b, y, q) && |b| > 1 && !FirstGoesFirst(a, x, b[0], y, reverse)
    ensures !FirstGoesFirst(a, x, b[1], y[b[0].chars..], reverse)
  {}

  lemma TypingHead(a: seq<Op>, x: string, p: Attribs)
    requires TypingOps(a, x, p) && a != []
    ensures Inserting(a) && 0 < a[0].chars <= |x| && Drop(x, a[0].chars) == x[a[0].chars..]
    ensures TypingOps(a[1..], x[a[0].chars..], p) && (a[1..] == [] ==> x[a[0].chars..] == "")
    ensures Kept(a) == [Op(Keep, a[0].chars, a[0].lines, [])] + Kept(a[1..])
  {}

  // Who goes first stays first.
  lemma {:induction false} AllOfFirst(a: seq<Op>, x: string, p: Attribs, b: seq<Op>, y: string, q: Attribs,
      reverse: bool)
    requires TypingOps(a, x, p) && TypingOps(b, y, q) && a != [] && b != []
    requires FirstGoesFirst(a[0], x, b[0], y, reverse)
    ensures FollowRaw(a, x, b, y, reverse) == Kept(a) + b
    decreases |a|
  {
    hide FollowRaw, FirstGoesFirst, TypingOps, Kept, Drop;
    TypingHead(a, x, p);
    TypingHead(b, y, q);
    var keep, rest, x' := Op(Keep, a[0].chars, a[0].lines, []), a[1..], x[a[0].chars..];
    FollowRawFirst(a, x, b, y, reverse);
    if rest == [] {
      FollowNothing(b, y, reverse);
      NothingKept();
    } else {
      StaysFirst(a, x, p, b[0], y, reverse);
      AllOfFirst(rest, x', p, b, y, q, reverse);
    }
    assert [keep] + (Kept(rest) + b) == [keep] + Kept(rest) + b;
  }

  lemma NothingKept()
    ensures Kept([]) == []
  {}

  lemma {:induction false} AllOfSecond(a: seq<Op>, x: string, p: Attribs, b: seq<Op>, y: string, q: Attribs,
      reverse: bool)
    requires TypingOps(a, x, p) && TypingOps(b, y, q) && a != [] && b != []
    requires !FirstGoesFirst(a[0], x, b[0], y, reverse)
    ensures FollowRaw(a, x, b, y, reverse) == b + Kept(a)
    decreases |b|
  {
    hide FirstGoesFirst, TypingOps, Kept, Drop;
    TypingHead(a, x, p);
    TypingHead(b, y, q);
    var rest, y' := b[1..], y[b[0].chars..];
    if rest == [] {
      OnlyFirstLeft(a, x, p, y', reverse);
    } else {
      StaysSecond(a[0], x, b, y, q, reverse);
      AllOfSecond(a, x, p, rest, y', q, reverse);
    }
    assert [b[0]] + (rest + Kept(a)) == b + Kept(a);
  }

  // The ops of a stretch are such ops.
  lemma StretchTypes(x: string, a: Attribs)
    requires x != ""
    ensures var ops := TextOps(Insert, x, a); ops != [] && TypingOps(ops, x, a) && Kept(ops) == TextOps(Keep, x, [])
  {
    hide Newlines;
    var p := LastNewlineIndex(x);
    var n := Newlines(x);
    if p < 0 {
      OneTypes(Op(Insert, |x|, 0, a), x, a);
    } else if p + 1 == |x| {
      OneTypes(Op(Insert, |x|, n, a), x, a);
    } else {
      var first, second := Op(Insert, p + 1, n, a), Op(Insert, |x| - (p + 1), 0, a);
      OneTypes(second, x[p + 1..], a);
      assert [first, second][1..] == [second];
    }
  }

  lemma OneTypes(op: Op, x: string, a: Attribs)
    requires op.opcode == Insert && op.attribs == a && 0 < op.chars == |x|
    ensures TypingOps([op], x, a) && Kept([op]) == [Op(Keep, op.chars, op.lines, [])]
  {
    assert [op][1..] == [] && x[op.chars..] == "";
  }

  // ---------- the merged text

  // The document with two texts typed at `k`.
  ghost function BothTyped(d: Doc, k: nat, x: string, p: Attribs, y: string, q: Attribs): Doc
    requires k <= |d|
  {
    d[..k] + Typed(x, p) + Typed(y, q) + d[k..]
  }

  // `e` is the document with `x` and `y` typed at `k`. The one that is to be inserted first
  // stands first, if just one is; if not, the one that does not start with a newline, if just
  // one does; if not, `x` or `y` as `tie` says.
  ghost predicate StandInOrder(e: Doc, d: Doc, k: nat, x: string, p: Attribs, y: string, q: Attribs, tie: bool) {
    && k <= |d| && x != "" && y != ""
    && var first, xy, yx := Pair("insertorder", "first"), BothTyped(d, k, x, p, y, q), BothTyped(d, k, y, q, x, p);
       && (first in p && first !in q ==> e == xy)
       && (first !in p && first in q ==> e == yx)
       && ((first in p <==> first in q) && x[0] != '\n' && y[0] == '\n' ==> e == xy)
       && ((first in p <==> first in q) && x[0] == '\n' && y[0] != '\n' ==> e == yx)
       && ((first in p <==> first in q) && (x[0] == '\n' <==> y[0] == '\n') ==> e == if tie then xy else yx)
  }

  lemma KeepsStretch(x: string, d: Doc)
    requires Text(d) == x
    ensures Effect(TextOps(Keep, x, []), "", d, d)
  {
    hide Effect, TextOps, Text;
    EffectOf(Keep, x, [], "", d);
    StyleNothing(d);
  }

  lemma TypesStretch(y: string, q: Attribs)
    ensures Effect(TextOps(Insert, y, q), y, [], Typed(y, q))
  {
    hide Effect, TextOps;
    var none: Doc := [];
    assert Text(none) == "";
    EffectOf(Insert, y, q, y, none);
  }

  // What the ops make of the document in which the first has typed.
  lemma OpsShow(u: Doc, k: nat, x: string, p: Attribs, y: string, q: Attribs, first: bool)
    requires k <= |u|
    ensures var t := Text(u);
            var f := TextOps(Keep, t[..k], []) + (if first then TextOps(Keep, x, []) + TextOps(Insert, y, q)
                                                  else TextOps(Insert, y, q) + TextOps(Keep, x, []));
            var d := u[..k] + Typed(x, p) + u[k..];
            Fits(f, y, d)
            && Apply(f, y, d) == if first then u[..k] + Typed(x, p) + Typed(y, q) + u[k..]
                                 else u[..k] + Typed(y, q) + Typed(x, p) + u[k..]
  {
    hide Effect, TextOps, Fits, Apply, Text, Typed;
    var t, none: Doc := Text(u), [];
    var keep, xs, ys := TextOps(Keep, t[..k], []), TextOps(Keep, x, []), TextOps(Insert, y, q);
    FrontText(u, k);
    TypedIsText(x, p);
    KeepsStretch(t[..k], u[..k]);
    KeepsStretch(x, Typed(x, p));
    TypesStretch(y, q);
    var tx, ty := Typed(x, p), Typed(y, q);
    if first {
      EffectConcat(xs, "", tx, tx, ys, y, [], ty);
      EffectConcat(keep, "", u[..k], u[..k], xs + ys, "" + y, tx + none, tx + ty);
      EffectThen(keep + (xs + ys), "" + ("" + y), u[..k] + (tx + none), u[..k] + (tx + ty), u[k..]);
    } else {
      EffectConcat(ys, y, [], ty, xs, "", tx, tx);
      EffectConcat(keep, "", u[..k], u[..k], ys + xs, y + "", none + tx, ty + tx);
      EffectThen(keep + (ys + xs), "" + (y + ""), u[..k] + (none + tx), u[..k] + (ty + tx), u[k..]);
    }
    FourTogether(u[..k], tx, ty, u[k..]);
    assert "" + ("" + y) == y && "" + (y + "") == y;
  }

  lemma FourTogether(a: Doc, x: Doc, y: Doc, b: Doc)
    ensures a + (x + []) + b == a + x + b && a + ([] + x) + b == a + x + b
    ensures a + (x + y) + b == a + x + y + b && a + (y + x) + b == a + y + x + b
  {}

  lemma FrontText(u: Doc, k: nat)
    requires k <= |u|
    ensures |Text(u)| == |u| && Text(u[..k]) == Text(u)[..k]
  {}

  lemma TypedIsText(x: string, p: Attribs)
    ensures Text(Typed(x, p)) == x
  {}

  lemma FollowOps(a: Changeset, b: Changeset, reverse: bool, t: string, k: nat, x: string, p: Attribs, y: string,
      q: Attribs) returns (first: bool)
    requires TypesAt(a, t, k, x, p) && TypesAt(b, t, k, y, q) && x != "" && y != ""
    ensures FollowRaw(a.ops, a.bank, b.ops, b.bank, reverse)
         == TextOps(Keep, t[..k], []) + (if first then TextOps(Keep, x, []) + TextOps(Insert, y, q)
                                         else TextOps(Insert, y, q) + TextOps(Keep, x, []))
    ensures INSERT_FIRST in p && INSERT_FIRST !in q ==> first
    ensures INSERT_FIRST !in p && INSERT_FIRST in q ==> !first
    ensures (INSERT_FIRST in p <==> INSERT_FIRST in q) ==>
              && (x[0] != '\n' && y[0] == '\n' ==> first)
              && (x[0] == '\n' && y[0] != '\n' ==> !first)
              && ((x[0] == '\n' <==> y[0] == '\n') ==> first == !reverse)
  {
    hide FollowRaw, TextOps, Kept, Replaces;
    TypesIsReplace(a, t, k, x, p);
    TypesIsReplace(b, t, k, y, q);
    ReplacingOps(a, t, k, 0, x, p);
    ReplacingOps(b, t, k, 0, y, q);
    NoDeletion(t, k, x, p);
    NoDeletion(t, k, y, q);
    var keep, xs, ys := TextOps(Keep, t[..k], []), TextOps(Insert, x, p), TextOps(Insert, y, q);
    PiecesOf(Keep, t[..k], []);
    ThenPlain(keep);
    FollowBehindKeeps(keep, xs, x, ys, y, reverse);
    StretchTypes(x, p);
    StretchTypes(y, q);
    first := FirstGoesFirst(xs[0], x, ys[0], y, reverse);
    if first {
      AllOfFirst(xs, x, p, ys, y, q, reverse);
    } else {
      AllOfSecond(xs, x, p, ys, y, q, reverse);
    }
  }

  lemma ThenPlain(ops: seq<Op>)
    requires Ordered(ops) && AllOf(ops, Keep, [])
    ensures PlainKeepsOnly(ops)
  {}

  lemma TypesIsReplace(c: Changeset, t: string, k: nat, x: string, p: Attribs)
    requires TypesAt(c, t, k, x, p)
    ensures Replaces(c, t, k, 0, x, p) && k < |t|
  {}

  lemma NoDeletion(t: string, k: nat, x: string, p: Attribs)
    requires k <= |t|
    ensures StretchOps(t, k, 0, x, p) == TextOps(Keep, t[..k], []) + TextOps(Insert, x, p)
  {
    assert t[k..k] == "";
    assert TextOps(Delete, "", []) == [];
    assert TextOps(Keep, t[..k], []) + [] == TextOps(Keep, t[..k], []);
  }

  // Two texts typed at one place both stay whole, in any document, and one stands first: in a
  // tie that of the first changeset, unless the order is reversed.
  lemma WhoStandsFirst(a: Changeset, b: Changeset, reverse: bool, t: string, k: nat, x: string, p: Attribs, y: string,
      q: Attribs, d: Doc)
    requires TypesAt(a, t, k, x, p) && TypesAt(b, t, k, y, q) && x != "" && y != "" && Text(d) == t
    ensures Fits(a.ops, a.bank, d)
    ensures var f := Follow(a, b, reverse);
            Fits(f.ops, f.bank, After(a, d)) && StandInOrder(After(f, After(a, d)), d, k, x, p, y, q, !reverse)
  {
    hide Fits, Apply, Safe, Normal, ApplyText, Text, FollowRaw, TextOps, Typed, LengthChange;
    var first := FollowOps(a, b, reverse, t, k, x, p, y, q);
    ReplacingOn(a, t, k, 0, x, p, d);
    ReplacingOps(b, t, k, 0, y, q);
    OpsShow(d, k, x, p, y, q, first);
    assert d[k + 0..] == d[k..];
    NormalEffect(FollowRaw(a.ops, a.bank, b.ops, b.bank, reverse), true, b.bank, After(a, d));
  }

  // The same of the two merged into one changeset.
  lemma WhoStandsFirstMerged(a: Changeset, b: Changeset, reverse: bool, t: string, k: nat, x: string, p: Attribs,
      y: string, q: Attribs)
    requires TypesAt(a, t, k, x, p) && TypesAt(b, t, k, y, q) && x != "" && y != ""
    ensures IsFor(Compose(a, Follow(a, b, reverse)), t)
    ensures StandInOrder(ViewOf(Compose(a, Follow(a, b, reverse)), t), Untouched(t), k, x, p, y, q, !reverse)
  {
    hide Fits, Apply, Safe, Normal, ApplyText, Text, Compose, Follow, IsFor, Typed, Untouched, StandInOrder;
    TextOfUntouched(t);
    FollowIsFor(a, b, reverse, t);
    ComposeIsSequential(a, Follow(a, b, reverse), t);
    WhoStandsFirst(a, b, reverse, t, k, x, p, y, q, Untouched(t));
  }
}
