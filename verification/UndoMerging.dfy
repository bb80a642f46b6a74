/** When two events become one: `reportEvent` merges what is one insertion or one deletion. */
module UndoMerging {
  import opened Attributes
  import opened Changesets
  import opened Composition
  import opened Following
  import opened NormalForm
  import opened Views
  import opened Algebra
  import opened Laws
  import opened Inversion
  import opened Covering
  import opened Splicing
  import opened Layers
  import opened SmartAssembler
  import opened Stretches
  import opened UndoElements
  import opened Editing
  import opened UndoStack

  // ---------- counting ops

  lemma {:induction false} OccurrencesConcat(p: seq<Op>, q: seq<Op>, opcode: Opcode)
    ensures Occurrences(p + q, opcode) == Occurrences(p, opcode) + Occurrences(q, opcode)
  {
    if p == [] {
      assert p + q == q;
    } else {
      OccurrencesConcat(p[1..], q, opcode);
      assert (p + q)[1..] == p[1..] + q;
    }
  }

  lemma {:induction false} OccurrencesOfAll(ops: seq<Op>, kind: Opcode, a: Attribs, opcode: Opcode)
    requires AllOf(ops, kind, a)
    ensures Occurrences(ops, opcode) == if opcode == kind then |ops| else 0
  {
    if ops != [] { OccurrencesOfAll(ops[1..], kind, a, opcode); }
  }

  lemma TextOccurrences(kind: Opcode, x: string, a: Attribs)
    requires kind != NoOp
    ensures Occurrences(TextOps(kind, x, a), Insert) == if kind == Insert then Pieces(x) else 0
    ensures Occurrences(TextOps(kind, x, a), Delete) == if kind == Delete then Pieces(x) else 0
  {
    hide TextOps, Pieces, Occurrences, Ordered, AllOf;
    PiecesOf(kind, x, a);
    OccurrencesOfAll(TextOps(kind, x, a), kind, a, Insert);
    OccurrencesOfAll(TextOps(kind, x, a), kind, a, Delete);
  }

  lemma StretchOccurrences(t: string, s: nat, n: nat, x: string, a: Attribs)
    requires s + n <= |t|
    ensures Occurrences(StretchOps(t, s, n, x, a), Insert) == Pieces(x)
    ensures Occurrences(StretchOps(t, s, n, x, a), Delete) == Pieces(t[s..s + n])
  {
    hide TextOps, Pieces, Occurrences;
    var k, d, i := TextOps(Keep, t[..s], []), TextOps(Delete, t[s..s + n], []), TextOps(Insert, x, a);
    OccurrencesThrice(k, d, i, Insert);
    OccurrencesThrice(k, d, i, Delete);
    TextOccurrences(Keep, t[..s], []);
    TextOccurrences(Delete, t[s..s + n], []);
    TextOccurrences(Insert, x, a);
  }

  lemma OccurrencesThrice(k: seq<Op>, d: seq<Op>, i: seq<Op>, o: Opcode)
    ensures Occurrences(k + d + i, o) == Occurrences(k, o) + Occurrences(d, o) + Occurrences(i, o)
  {
    OccurrencesConcat(k, d, o);
    OccurrencesConcat(k + d, i, o);
  }

  // ---------- ops from what they do

  lemma OpsFromView(c: Changeset, t: string, ops: seq<Op>, bank: string)
    requires IsFor(c, t) && Fits(ops, bank, Untouched(t)) && ViewOf(c, t) == Apply(ops, bank, Untouched(t))
    requires Ordered(ops) && (ops != [] ==> ops[|ops| - 1].opcode != Keep)
    ensures c.ops == ops
  {
    hide Fits, Apply, Normal, Safe, Untouched, Ordered;
    OrderedIsNormal(ops);
    SameViewSameForm(c.ops, c.bank, ops, bank, t);
  }

  lemma StretchEffect(d: Doc, s: nat, n: nat, x: string, a: Attribs)
    requires s + n <= |d|
    ensures |Text(d)| == |d|
    ensures Effect(StretchOps(Text(d), s, n, x, a), x, d[..s + n], d[..s] + Typed(x, a))
  {
    hide Effect, TextOps, Typed, Restyle, StretchOf;
    var t := Text(d);
    PartsOfText(d, s, n);
    PlainStretchOf(Keep, t[..s], d[..s]);
    PlainStretchOf(Delete, t[s..s + n], d[s..s + n]);
    TypedStretchOf(x, a);
    EffectOf(Keep, t[..s], [], "", d[..s]);
    EffectOf(Delete, t[s..s + n], [], "", d[s..s + n]);
    EffectOf(Insert, x, a, x, []);
    StyleNothing(d[..s]);
    var k, r, i := TextOps(Keep, t[..s], []), TextOps(Delete, t[s..s + n], []), TextOps(Insert, x, a);
    EffectConcat(k, "", d[..s], d[..s], r, "", d[s..s + n], []);
    EffectConcat(k + r, "" + "", d[..s] + d[s..s + n], d[..s] + [], i, x, [], Typed(x, a));
    assert "" + "" + x == x && d[..s] + d[s..s + n] + [] == d[..s + n];
    assert d[..s] + [] + Typed(x, a) == d[..s] + Typed(x, a);
  }

  lemma PartsOfText(d: Doc, s: nat, n: nat)
    requires s + n <= |d|
    ensures |Text(d)| == |d| && Text(d[..s]) == Text(d)[..s] && Text(d[s..s + n]) == Text(d)[s..s + n]
    ensures Text(d[s + n..]) == Text(d)[s + n..]
  {}

  lemma PlainStretchOf(opcode: Opcode, x: string, d: Doc)
    requires opcode == Keep || opcode == Delete
    requires Text(d) == x
    ensures StretchOf(opcode, x, [], "", d)
  {}

  lemma TypedStretchOf(x: string, a: Attribs)
    ensures StretchOf(Insert, x, a, x, [])
  {}

  // ---------- two stretches apart

  // Two stretches are replaced, with something left between them.
  ghost predicate ReplacesTwo(c: Changeset, t: string, s: nat, n: nat, x: string, a: Attribs, s': nat, n': nat,
                              x': string, a': Attribs) {
    && IsFor(c, t) && s + n < s' && s' + n' <= |t|
    && ViewOf(c, t) == Untouched(t)[..s] + Typed(x, a) + Untouched(t)[s + n..s'] + Typed(x', a')
                       + Untouched(t)[s' + n'..]
  }

  lemma TwoStretches(c: Changeset, t: string, s: nat, n: nat, x: string, a: Attribs, s': nat, n': nat, x': string,
      a': Attribs)
    requires ReplacesTwo(c, t, s, n, x, a, s', n', x', a') && (n > 0 || x != "") && (n' > 0 || x' != "")
    ensures c.ops == StretchOps(t, s, n, x, a) + StretchOps(t[s + n..], s' - (s + n), n', x', a')
  {
    hide Fits, Apply, Normal, Safe, Untouched, Typed, Effect, StretchOps, Ordered, Text;
    var u, g := Untouched(t), s' - (s + n);
    TextOfUntouched(t);
    TextOfLength(u);
    PartsOfText(u, s, n);
    StretchEffect(u, s, n, x, a);
    var v := u[s + n..];
    StretchEffect(v, g, n', x', a');
    var p, q := StretchOps(t, s, n, x, a), StretchOps(t[s + n..], g, n', x', a');
    EffectConcat(p, x, u[..s + n], u[..s] + Typed(x, a), q, x', v[..g + n'], v[..g] + Typed(x', a'));
    var d, e := u[..s + n] + v[..g + n'], (u[..s] + Typed(x, a)) + (v[..g] + Typed(x', a'));
    EffectThen(p + q, x + x', d, e, u[s' + n'..]);
    assert d + u[s' + n'..] == u && v[..g] == u[s + n..s'];
    assert e + u[s' + n'..] == u[..s] + Typed(x, a) + u[s + n..s'] + Typed(x', a') + u[s' + n'..];
    TwoOrdered(t, s, n, x, a, s', n', x', a');
    OpsFromView(c, t, p + q, x + x');
  }

  lemma TwoOrdered(t: string, s: nat, n: nat, x: string, a: Attribs, s': nat, n': nat, x': string, a': Attribs)
    requires s + n < s' && s' + n' <= |t| && (n > 0 || x != "") && (n' > 0 || x' != "")
    ensures var ops := StretchOps(t, s, n, x, a) + StretchOps(t[s + n..], s' - (s + n), n', x', a');
            Ordered(ops) && ops != [] && ops[|ops| - 1].opcode != Keep
  {
    hide StretchOps, Ordered;
    var p, q := StretchOps(t, s, n, x, a), StretchOps(t[s + n..], s' - (s + n), n', x', a');
    StretchIsOrdered(t, s, n, x, a);
    StretchIsOrdered(t[s + n..], s' - (s + n), n', x', a');
    StretchEnds(t, s, n, x, a);
    StretchEnds(t[s + n..], s' - (s + n), n', x', a');
    OrderedConcat(p, q);
  }

  // The first op keeps, if something is kept, and the last does not.
  lemma StretchEnds(t: string, s: nat, n: nat, x: string, a: Attribs)
    requires s + n <= |t| && (n > 0 || x != "")
    ensures var ops := StretchOps(t, s, n, x, a);
            && ops != [] && ops[|ops| - 1].opcode != Keep
            && (s > 0 ==> ops[0].opcode == Keep)
  {
    hide TextOps, Ordered;
    PiecesOf(Keep, t[..s], []);
    PiecesOf(Delete, t[s..s + n], []);
    PiecesOf(Insert, x, a);
  }

  // ---------- three texts typed behind one another

  ghost predicate TypesThree(c: Changeset, t: string, s: nat, x: string, y: string, z: string, a: Attribs, b: Attribs) {
    && IsFor(c, t) && s <= |t|
    && ViewOf(c, t) == Untouched(t)[..s] + Typed(x, a) + Typed(y, b) + Typed(z, a) + Untouched(t)[s..]
  }

  lemma ThreeTexts(c: Changeset, t: string, s: nat, x: string, y: string, z: string, a: Attribs, b: Attribs)
    requires TypesThree(c, t, s, x, y, z, a, b) && a != b && y != ""
    ensures c.ops == StretchOps(t, s, 0, x, a) + TextOps(Insert, y, b) + TextOps(Insert, z, a)
  {
    hide Fits, Apply, Normal, Safe, Untouched, Typed, Effect, StretchOps, Ordered, Text, TextOps;
    var u := Untouched(t);
    TextOfUntouched(t);
    TextOfLength(u);
    StretchEffect(u, s, 0, x, a);
    TypedStretchOf(y, b);
    TypedStretchOf(z, a);
    EffectOf(Insert, y, b, y, []);
    EffectOf(Insert, z, a, z, []);
    var p, q, r := StretchOps(t, s, 0, x, a), TextOps(Insert, y, b), TextOps(Insert, z, a);
    EffectConcat(p, x, u[..s + 0], u[..s] + Typed(x, a), q, y, [], Typed(y, b));
    EffectConcat(p + q, x + y, u[..s + 0] + [], u[..s] + Typed(x, a) + Typed(y, b), r, z, [], Typed(z, a));
    EffectThen(p + q + r, x + y + z, u[..s + 0] + [] + [], u[..s] + Typed(x, a) + Typed(y, b) + Typed(z, a), u[s..]);
    assert u[..s + 0] + [] + [] + u[s..] == u;
    ThreeOrdered(t, s, x, y, z, a, b);
    OpsFromView(c, t, p + q + r, x + y + z);
  }

  lemma ThreeOrdered(t: string, s: nat, x: string, y: string, z: string, a: Attribs, b: Attribs)
    requires s <= |t| && a != b && y != ""
    ensures var ops := StretchOps(t, s, 0, x, a) + TextOps(Insert, y, b) + TextOps(Insert, z, a);
            Ordered(ops) && ops != [] && ops[|ops| - 1].opcode != Keep
  {
    hide StretchOps, TextOps, Ordered;
    var p, q, r := StretchOps(t, s, 0, x, a), TextOps(Insert, y, b), TextOps(Insert, z, a);
    StretchIsOrdered(t, s, 0, x, a);
    TypingEnd(t, s, x, a);
    PiecesOf(Insert, y, b);
    PiecesOf(Insert, z, a);
    OrderedConcat(p, q);
    OrderedConcat(p + q, r);
  }

  lemma TypingEnd(t: string, s: nat, x: string, a: Attribs)
    requires s <= |t|
    ensures var ops := StretchOps(t, s, 0, x, a);
            ops != [] ==> var op := ops[|ops| - 1]; op.opcode == Keep || (op.opcode == Insert && op.attribs == a)
  {
    hide TextOps, Ordered;
    assert t[s..s] == "";
    PiecesOf(Keep, t[..s], []);
    PiecesOf(Delete, "", []);
    PiecesOf(Insert, x, a);
  }

  // ---------- one action

  // A stretch that takes one op: there is nothing behind its last newline, if it has one.
  ghost predicate TakesOneOp(x: string) { x != "" && ('\n' in x ==> x[|x| - 1] == '\n') }

  lemma ReplacementDoes(c: Changeset, t: string, s: nat, n: nat, x: string, a: Attribs)
    requires Replaces(c, t, s, n, x, a) && (n > 0 || x != "")
    ensures Occurrences(c.ops, Insert) == Pieces(x) && Occurrences(c.ops, Delete) == Pieces(t[s..s + n])
  {
    hide StretchOps, Pieces, Occurrences;
    ReplacingOps(c, t, s, n, x, a);
    StretchOccurrences(t, s, n, x, a);
  }

  lemma TwoDo(c: Changeset, t: string, s: nat, n: nat, x: string, a: Attribs, s': nat, n': nat, x': string, a': Attribs)
    requires ReplacesTwo(c, t, s, n, x, a, s', n', x', a') && (n > 0 || x != "") && (n' > 0 || x' != "")
    ensures Occurrences(c.ops, Insert) + Occurrences(c.ops, Delete) > 1
  {
    hide StretchOps, Occurrences, Pieces, ReplacesTwo;
    TwoBounds(c, t, s, n, x, a, s', n', x', a');
    TwoStretches(c, t, s, n, x, a, s', n', x', a');
    SomePieces(t[s..s + n]);
    SomePieces(x);
    SomePieces(t[s + n..][s' - (s + n)..s' - (s + n) + n']);
    SomePieces(x');
    var p, q := StretchOps(t, s, n, x, a), StretchOps(t[s + n..], s' - (s + n), n', x', a');
    StretchOccurrences(t, s, n, x, a);
    StretchOccurrences(t[s + n..], s' - (s + n), n', x', a');
    OccurrencesConcat(p, q, Insert);
    OccurrencesConcat(p, q, Delete);
  }

  lemma TwoBounds(c: Changeset, t: string, s: nat, n: nat, x: string, a: Attribs, s': nat, n': nat, x': string,
      a': Attribs)
    requires ReplacesTwo(c, t, s, n, x, a, s', n', x', a')
    ensures s + n < s' && s' + n' <= |t|
  {}

  lemma SomePieces(x: string)
    ensures x != "" ==> Pieces(x) > 0
  {}

  lemma ThreeDo(c: Changeset, t: string, s: nat, x: string, y: string, z: string, a: Attribs, b: Attribs)
    requires TypesThree(c, t, s, x, y, z, a, b) && a != b && y != "" && (x != "" || z != "")
    ensures Occurrences(c.ops, Insert) > 1
  {
    hide StretchOps, Occurrences, TextOps;
    ThreeTexts(c, t, s, x, y, z, a, b);
    var p, q, r := StretchOps(t, s, 0, x, a), TextOps(Insert, y, b), TextOps(Insert, z, a);
    StretchOccurrences(t, s, 0, x, a);
    TextOccurrences(Insert, y, b);
    TextOccurrences(Insert, z, a);
    OccurrencesThrice(p, q, r, Insert);
  }

  // What the two do one after the other.
  lemma BothDone(c: Changeset, t: string, s: nat, n: nat, x: string, a: Attribs, e: Changeset, s': nat, n': nat,
      x': string, a': Attribs)
    requires Replaces(c, t, s, n, x, a) && (n > 0 || x != "") && (n' > 0 || x' != "")
    requires Replaces(e, SplicedText(t, s, n, x), s', n', x', a')
    ensures IsFor(Compose(c, e), t)
    ensures var v := Untouched(t)[..s] + Typed(x, a) + Untouched(t)[s + n..];
            s' + n' < |v| && ViewOf(Compose(c, e), t) == v[..s'] + Typed(x', a') + v[s' + n'..]
  {
    hide Fits, Apply, Normal, Safe, Untouched, Typed, Text, Compose, ApplyText;
    var u := Untouched(t);
    TextOfUntouched(t);
    ReplacingOn(c, t, s, n, x, a, u);
    var v := After(c, u);
    SplicedDocText(u, t, s, n, x, a);
    OnDocument(c, t, u);
    ReplacingOn(e, SplicedText(t, s, n, x), s', n', x', a', v);
    ComposeIsSequential(c, e, t);
  }

  // Two deletions are one action exactly if what the second deletes stood around the place of
  // the first, and no op more is needed for the newlines in it. They are one deletion then.
  lemma DeletionsMerge(c: Changeset, e: Changeset, t: string, p: nat, j: nat, q: nat, k: nat)
    requires DeletesAt(c, t, p, j) && DeletesAt(e, t[..p] + t[p + j..], q, k) && j > 0 && k > 0
    ensures OneAction(c, e) <==>
              && q <= p <= q + k && TakesOneOp(t[p..p + j]) && TakesOneOp((t[..p] + t[p + j..])[q..q + k])
              && TakesOneOp(t[q..q + j + k])
    ensures q <= p <= q + k ==> DeletesAt(Compose(c, e), t, q, j + k)
  {
    hide Typed, Untouched, Compose, IsFor, Occurrences, Replaces, ReplacesTwo;
    DeletedFirst(c, t, p, j);
    var t', m := t[..p] + t[p + j..], Compose(c, e);
    ReplacementDoes(c, t, p, j, "", []);
    ReplacementDoes(e, t', q, k, "", []);
    BothDeleted(c, e, t, p, j, q, k);
    if q <= p <= q + k {
      ReplacementDoes(m, t, q, j + k, "", []);
    } else if p < q {
      TwoDo(m, t, p, j, "", [], q + j, k, "", []);
    } else {
      TwoDo(m, t, q, k, "", [], p, j, "", []);
    }
  }

  lemma DeletedFirst(c: Changeset, t: string, p: nat, j: nat)
    requires DeletesAt(c, t, p, j)
    ensures p + j < |t| && SplicedText(t, p, j, "") == t[..p] + t[p + j..] && Typed("", []) == []
  {}

  lemma BothDeleted(c: Changeset, e: Changeset, t: string, p: nat, j: nat, q: nat, k: nat)
    requires DeletesAt(c, t, p, j) && p + j <= |t| && DeletesAt(e, t[..p] + t[p + j..], q, k) && j > 0 && k > 0
    ensures var m := Compose(c, e);
            && q + k < |t| - j
            && (q <= p <= q + k ==> DeletesAt(m, t, q, j + k))
            && (p < q ==> ReplacesTwo(m, t, p, j, "", [], q + j, k, "", []))
            && (q + k < p ==> ReplacesTwo(m, t, q, k, "", [], p, j, "", []))
  {
    hide Typed, Untouched, Compose, IsFor;
    DeletedFirst(c, t, p, j);
    BothDone(c, t, p, j, "", [], e, q, k, "", []);
    DeletedApart(Untouched(t), p, j, q, k);
  }

  lemma DeletedApart(u: Doc, p: nat, j: nat, q: nat, k: nat)
    requires p + j <= |u| && q + k <= |u| - j
    ensures var v := u[..p] + [] + u[p + j..];
            && |v| == |u| - j
            && (q <= p <= q + k ==> v[..q] + [] + v[q + k..] == u[..q] + [] + u[q + (j + k)..])
            && (p < q ==> v[..q] + [] + v[q + k..] == u[..p] + [] + u[p + j..q + j] + [] + u[q + j + k..])
            && (q + k < p ==> v[..q] + [] + v[q + k..] == u[..q] + [] + u[q + k..p] + [] + u[p + j..])
  {}

  // As events: `c` takes back the new one, and `e` the one on top.
  lemma DeletionEventsMerge(topEvent: Element, event: EditEvent, t: string, p: nat, j: nat, q: nat, k: nat)
    requires topEvent.Event? && topEvent.backset.Some? && event.backset.Some? && j > 0 && k > 0
    requires DeletesAt(event.backset.value, t, p, j) && DeletesAt(topEvent.backset.value, t[..p] + t[p + j..], q, k)
    ensures Merges(topEvent, event) <==>
              && topEvent.eventType == event.eventType
              && q <= p <= q + k && TakesOneOp(t[p..p + j]) && TakesOneOp((t[..p] + t[p + j..])[q..q + k])
              && TakesOneOp(t[q..q + j + k])
  {
    hide OneAction, Replaces;
    DeletedFirst(event.backset.value, t, p, j);
    DeletionsMerge(event.backset.value, topEvent.backset.value, t, p, j, q, k);
  }

  // Two insertions are one action exactly if the second is typed into or beside the first, with
  // the same attributes, and no op more is needed for the newlines in it. They are one
  // insertion then.
  lemma InsertionsMerge(c: Changeset, e: Changeset, t: string, p: nat, x: string, a: Attribs, q: nat, y: string,
      b: Attribs)
    requires TypesAt(c, t, p, x, a) && p <= |t| && TypesAt(e, t[..p] + x + t[p..], q, y, b) && x != "" && y != ""
    ensures OneAction(c, e) <==>
              && p <= q <= p + |x| && a == b && TakesOneOp(x) && TakesOneOp(y)
              && TakesOneOp(x[..q - p] + y + x[q - p..])
    ensures p <= q <= p + |x| && a == b ==> TypesAt(Compose(c, e), t, p, x[..q - p] + y + x[q - p..], a)
  {
    hide Typed, Untouched, Compose, IsFor, Occurrences, Replaces, ReplacesTwo, TypesThree;
    var m := Compose(c, e);
    TypedFirst(c, t, p, x, a);
    ReplacementDoes(c, t, p, 0, x, a);
    ReplacementDoes(e, t[..p] + x + t[p..], q, 0, y, b);
    BothTyped(c, e, t, p, x, a, q, y, b);
    if q < p {
      TwoDo(m, t, q, 0, y, b, p, 0, x, a);
    } else if q > p + |x| {
      TwoDo(m, t, p, 0, x, a, q - |x|, 0, y, b);
    } else if a == b {
      ReplacementDoes(m, t, p, 0, x[..q - p] + y + x[q - p..], a);
    } else {
      ThreeDo(m, t, p, x[..q - p], y, x[q - p..], a, b);
    }
  }

  lemma InsertionEventsMerge(topEvent: Element, event: EditEvent, t: string, p: nat, x: string, a: Attribs, q: nat,
      y: string, b: Attribs)
    requires topEvent.Event? && topEvent.backset.Some? && event.backset.Some? && x != "" && y != "" && p <= |t|
    requires TypesAt(event.backset.value, t, p, x, a) && TypesAt(topEvent.backset.value, t[..p] + x + t[p..], q, y, b)
    ensures Merges(topEvent, event) <==>
              && topEvent.eventType == event.eventType
              && p <= q <= p + |x| && a == b && TakesOneOp(x) && TakesOneOp(y)
              && TakesOneOp(x[..q - p] + y + x[q - p..])
  {
    hide OneAction, Replaces;
    InsertionsMerge(event.backset.value, topEvent.backset.value, t, p, x, a, q, y, b);
  }

  // An event is merged into one of its own kind only, and into one without changes always.
  // Where both replace a stretch, either both only type or both only delete.
  lemma OnlyAlikeMerge(topEvent: Element, event: EditEvent, t: string, p: nat, j: nat, x: string, a: Attribs,
      t': string, q: nat, k: nat, y: string, b: Attribs)
    requires topEvent.Event? && event.backset.Some?
    ensures topEvent.eventType != event.eventType ==> !Merges(topEvent, event)
    ensures topEvent.eventType == event.eventType && topEvent.backset.None? ==> Merges(topEvent, event)
    ensures topEvent.backset.Some? && Replaces(event.backset.value, t, p, j, x, a)
              && Replaces(topEvent.backset.value, t', q, k, y, b) && (j > 0 || x != "") && (k > 0 || y != "")
              && Merges(topEvent, event) ==>
                (j == 0 && k == 0) || (x == "" && y == "")
  {
    hide Replaces, Occurrences, Compose;
    if topEvent.backset.Some? && Replaces(event.backset.value, t, p, j, x, a)
        && Replaces(topEvent.backset.value, t', q, k, y, b) && (j > 0 || x != "") && (k > 0 || y != "") {
      ReplacementCounts(event.backset.value, t, p, j, x, a);
      ReplacementCounts(topEvent.backset.value, t', q, k, y, b);
    }
  }

  lemma ReplacementCounts(c: Changeset, t: string, s: nat, n: nat, x: string, a: Attribs)
    requires Replaces(c, t, s, n, x, a) && (n > 0 || x != "")
    ensures Occurrences(c.ops, Insert) > 0 <==> x != ""
    ensures Occurrences(c.ops, Delete) > 0 <==> n > 0
  {
    hide Occurrences, Pieces, IsFor, Typed, Untouched;
    ReplacementDoes(c, t, s, n, x, a);
    var gone := t[s..s + n];
    assert |gone| == n && (n == 0 ==> gone == "");
    SomePieces(x);
    SomePieces(gone);
    NoPieces();
  }

  lemma NoPieces()
    ensures Pieces("") == 0
  {}

  lemma TypedFirst(c: Changeset, t: string, p: nat, x: string, a: Attribs)
    requires TypesAt(c, t, p, x, a) && p <= |t|
    ensures p < |t| && t[p..p + 0] == "" && SplicedText(t, p, 0, x) == t[..p] + x + t[p..]
  {}

  lemma BothTyped(c: Changeset, e: Changeset, t: string, p: nat, x: string, a: Attribs, q: nat, y: string, b: Attribs)
    requires TypesAt(c, t, p, x, a) && p <= |t| && TypesAt(e, t[..p] + x + t[p..], q, y, b) && x != "" && y != ""
    ensures var m := Compose(c, e);
            && q < |t| + |x|
            && (q < p ==> ReplacesTwo(m, t, q, 0, y, b, p, 0, x, a))
            && (q > p + |x| ==> ReplacesTwo(m, t, p, 0, x, a, q - |x|, 0, y, b))
            && (p <= q <= p + |x| ==>
                  && TypesThree(m, t, p, x[..q - p], y, x[q - p..], a, b)
                  && (a == b ==> TypesAt(m, t, p, x[..q - p] + y + x[q - p..], a)))
  {
    hide Typed, Untouched, Compose, IsFor;
    TypedFirst(c, t, p, x, a);
    BothDone(c, t, p, 0, x, a, e, q, 0, y, b);
    TypedApart(Untouched(t), p, x, a, q, y, b);
  }

  lemma TypedApart(u: Doc, p: nat, x: string, a: Attribs, q: nat, y: string, b: Attribs)
    requires p <= |u| && q <= |u| + |x|
    ensures var v := u[..p] + Typed(x, a) + u[p + 0..];
            && |v| == |u| + |x|
            && var r := v[..q] + Typed(y, b) + v[q + 0..];
               && (q < p ==> r == u[..q] + Typed(y, b) + u[q + 0..p] + Typed(x, a) + u[p + 0..])
               && (q > p + |x| ==>
                     r == u[..p] + Typed(x, a) + u[p + 0..q - |x|] + Typed(y, b) + u[q - |x| + 0..])
               && (p <= q <= p + |x| ==>
                     r == u[..p] + Typed(x[..q - p], a) + Typed(y, b) + Typed(x[q - p..], a) + u[p..])
               && (p <= q <= p + |x| && a == b ==>
                     r == u[..p] + Typed(x[..q - p] + y + x[q - p..], a) + u[p + 0..])
  {
    hide Typed;
    if q < p {
      PutBefore(u, p, Typed(x, a), q, Typed(y, b));
    } else if q > p + |x| {
      PutBehind(u, p, Typed(x, a), q, Typed(y, b));
    } else {
      PutInside(u, p, Typed(x, a), q, Typed(y, b));
      TypedInTwo(x, a, q - p);
      if a == b {
        TypedInThree(x[..q - p], y, x[q - p..], a);
        ThreeRegroup(u[..p], Typed(x[..q - p], a), Typed(y, a), Typed(x[q - p..], a), u[p..]);
      }
    }
  }

  lemma PutBefore<T>(u: seq<T>, p: nat, x: seq<T>, q: nat, y: seq<T>)
    requires q < p <= |u|
    ensures var v := u[..p] + x + u[p + 0..];
            v[..q] + y + v[q + 0..] == u[..q] + y + u[q + 0..p] + x + u[p + 0..]
  {}

  lemma PutBehind<T>(u: seq<T>, p: nat, x: seq<T>, q: nat, y: seq<T>)
    requires p + |x| < q <= |u| + |x|
    ensures var v := u[..p] + x + u[p + 0..];
            v[..q] + y + v[q + 0..] == u[..p] + x + u[p + 0..q - |x|] + y + u[q - |x| + 0..]
  {}

  lemma PutInside<T>(u: seq<T>, p: nat, x: seq<T>, q: nat, y: seq<T>)
    requires p <= |u| && p <= q <= p + |x|
    ensures var v := u[..p] + x + u[p + 0..];
            v[..q] + y + v[q + 0..] == u[..p] + x[..q - p] + y + x[q - p..] + u[p..]
  {}

  lemma TypedInTwo(x: string, a: Attribs, i: nat)
    requires i <= |x|
    ensures Typed(x, a)[..i] == Typed(x[..i], a) && Typed(x, a)[i..] == Typed(x[i..], a)
  {}

  lemma TypedInThree(x: string, y: string, z: string, a: Attribs)
    ensures Typed(x + y + z, a) == Typed(x, a) + Typed(y, a) + Typed(z, a)
  {}

  lemma ThreeRegroup<T>(f: seq<T>, x: seq<T>, y: seq<T>, z: seq<T>, g: seq<T>)
    ensures f + x + y + z + g == f + (x + y + z) + g
  {}
}
