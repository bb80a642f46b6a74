/** `_correctMarkersInPad`: list markers that no longer stand at the start of a line are removed. */
module MarkerCorrection {
  import opened Attributes
  import opened Changesets
  import opened Composition
  import opened Following
  import opened NormalForm
  import opened Views
  import opened Algebra
  import opened Laws
  import opened Iterators
  import opened SmartAssembler
  import opened Building
  import opened Applying
  import opened Inversion
  import opened Inverting
  import opened Cleaning
  import opened Layers
  import opened Splicing
  import opened LineSplices

  // ---------- misplaced markers

  ghost function ListValue(a: Attribs): string { ValueIn(MapOf(a), "list") }

  // The character is part of a list, but does not stand at the start of a line.
  ghost predicate Misplaced(d: Doc, i: nat) {
    0 < i < |d| && ListValue(d[i].attribs) != "" && d[i - 1].ch != '\n'
  }

  // Of the first `n` characters.
  ghost function Misplacements(d: Doc, n: nat): seq<nat> {
    if n == 0 then [] else Misplacements(d, n - 1) + (if Misplaced(d, n - 1) then [n - 1] else [])
  }

  lemma {:induction false} MisplacementsAre(d: Doc, n: nat, p: nat)
    ensures p in Misplacements(d, n) <==> p < n && Misplaced(d, p)
  {
    hide Misplaced;
    if n > 0 { MisplacementsAre(d, n - 1, p); }
  }

  lemma {:induction false} NoneBetween(d: Doc, a: nat, b: nat)
    requires a <= b
    ensures Misplacements(d, a) <= Misplacements(d, b)
    ensures |Misplacements(d, a)| == |Misplacements(d, b)| ==>
              Misplacements(d, a) == Misplacements(d, b) && forall i: nat :: a <= i < b ==> !Misplaced(d, i)
    decreases b
  {
    hide Misplaced;
    if a < b { NoneBetween(d, a, b - 1); }
  }

  // The next one behind `a`.
  lemma {:induction false} NextMisplaced(d: Doc, a: nat, n: nat)
    requires a <= n && |Misplacements(d, a)| < |Misplacements(d, n)|
    ensures var k := |Misplacements(d, a)|;
            var p := Misplacements(d, n)[k];
            && a <= p < n && Misplaced(d, p) && (forall i: nat :: a <= i < p ==> !Misplaced(d, i))
            && Misplacements(d, p) == Misplacements(d, a) && Misplacements(d, p + 1) == Misplacements(d, n)[..k + 1]
    decreases n
  {
    hide Misplaced;
    var k := |Misplacements(d, a)|;
    NoneBetween(d, a, n - 1);
    if k < |Misplacements(d, n - 1)| {
      NextMisplaced(d, a, n - 1);
      assert Misplacements(d, n - 1)[..k + 1] == Misplacements(d, n)[..k + 1];
    } else {
      assert Misplacements(d, n)[..k + 1] == Misplacements(d, n);
    }
  }

  // ---------- finding them

  method BadMarkers(atext: AText) returns (badMarkers: seq<nat>)
    requires IsAText(atext)
    ensures badMarkers == Misplacements(DocOf(atext), |atext.text|)
  {
    hide Fits, Apply, Misplaced, Misplacements;
    ghost var d := DocOf(atext);
    DocOfText(atext);
    badMarkers := [];
    var offset: nat := 0;
    var iter := new OpIterator(atext.attribs);
    NoMarkersYet(atext);
    while iter.HasNext()
      invariant iter.Valid() && fresh(iter) && offset <= |atext.text|
      invariant Ahead(iter.Rest(), atext.text, offset, d) && badMarkers == Misplacements(d, offset)
      decreases |iter.Rest()|
    {
      ghost var ops := iter.Rest();
      var op := iter.Next();
      assert ops[0] == op && ops[1..] == iter.Rest();
      AheadNext(ops, atext.text, offset, d);
      var found := MarkersOf(op, atext.text, offset, d);
      badMarkers := badMarkers + found;
      offset := offset + op.chars;
    }
    AheadEnds(atext.text, offset, d);
  }

  // The rest of the attributes, from `offset` on.
  ghost predicate Ahead(ops: seq<Op>, text: string, offset: nat, d: Doc) {
    && |d| == |text| && offset <= |text| && Fits(ops, text[offset..], [])
    && Apply(ops, text[offset..], []) == d[offset..]
  }

  lemma NoMarkersYet(a: AText)
    requires IsAText(a) && |DocOf(a)| == |a.text|
    ensures Ahead(a.attribs, a.text, 0, DocOf(a)) && Misplacements(DocOf(a), 0) == []
  {
    hide Fits, Apply;
    assert a.text[0..] == a.text && DocOf(a)[0..] == DocOf(a);
  }

  lemma AheadNext(ops: seq<Op>, text: string, offset: nat, d: Doc)
    requires ops != [] && Ahead(ops, text, offset, d)
    ensures 0 < ops[0].chars && offset + ops[0].chars <= |text| && Ahead(ops[1..], text, offset + ops[0].chars, d)
    ensures forall i :: offset <= i < offset + ops[0].chars ==> d[i] == New(text[i], ops[0].attribs)
  {
    hide Fits, Apply, LinesTrue;
    var op := ops[0];
    Unfold(ops, text[offset..], []);
    assert op.opcode == Insert;
    var typed, rest := Typed(text[offset..][..op.chars], op.attribs), Apply(ops[1..], text[offset..][op.chars..], []);
    assert d[offset..] == typed + rest;
    assert text[offset..][op.chars..] == text[offset + op.chars..];
    forall i | offset <= i < offset + op.chars ensures d[i] == New(text[i], op.attribs) {
      assert d[i] == d[offset..][i - offset] == typed[i - offset];
    }
    assert d[offset + op.chars..] == d[offset..][op.chars..] == rest;
  }

  lemma AheadEnds(text: string, offset: nat, d: Doc)
    requires Ahead([], text, offset, d)
    ensures offset == |text|
  {}

  method MarkersOf(op: Op, text: string, offset: nat, ghost d: Doc) returns (found: seq<nat>)
    requires 0 < op.chars && offset + op.chars <= |text| == |d|
    requires forall i :: offset <= i < offset + op.chars ==> d[i] == New(text[i], op.attribs)
    requires forall i :: 0 <= i < |d| ==> d[i].ch == text[i]
    ensures Misplacements(d, offset + op.chars) == Misplacements(d, offset) + found
  {
    hide ValueIn, MapOf;
    found := [];
    var listValue := AttribsAttributeValue(op.attribs, "list");
    for i := 0 to op.chars
      invariant Misplacements(d, offset + i) == Misplacements(d, offset) + found
    {
      if listValue != "" && offset + i > 0 && text[offset + i - 1] != '\n' {
        found := found + [offset + i];
      }
    }
  }

  // ---------- what ops delete

  // The ops keep and delete, and nothing else.
  ghost predicate Removing(ops: seq<Op>) {
    forall i :: 0 <= i < |ops| ==> (ops[i].opcode == Keep || ops[i].opcode == Delete) && 0 < ops[i].chars
  }

  ghost function Reach(ops: seq<Op>): nat
    requires Removing(ops)
  {
    if ops == [] then 0 else ops[0].chars + Reach(ops[1..])
  }

  ghost function Positions(p: nat, n: nat): (r: seq<nat>)
    ensures |r| == n && forall i :: 0 <= i < n ==> r[i] == p + i
  {
    seq(n, i requires 0 <= i < n => p + i)
  }

  // The positions of the characters that are deleted, the first op being about position `p`.
  ghost function Gone(ops: seq<Op>, p: nat): seq<nat>
    requires Removing(ops)
  {
    if ops == [] then []
    else (if ops[0].opcode == Delete then Positions(p, ops[0].chars) else []) + Gone(ops[1..], p + ops[0].chars)
  }

  // The newlines that the deletions count.
  ghost function GoneLines(ops: seq<Op>): int {
    if ops == [] then 0 else (if ops[0].opcode == Delete then ops[0].lines else 0) + GoneLines(ops[1..])
  }

  ghost predicate SameGone(a: seq<Op>, b: seq<Op>, p: nat) {
    Removing(a) && Removing(b) && Gone(a, p) == Gone(b, p) && GoneLines(a) == GoneLines(b)
  }

  lemma GoneFront(op: Op, ops: seq<Op>, p: nat)
    requires Removing(ops) && (op.opcode == Keep || op.opcode == Delete) && 0 < op.chars
    ensures Removing([op] + ops)
    ensures Gone([op] + ops, p)
         == (if op.opcode == Delete then Positions(p, op.chars) else []) + Gone(ops, p + op.chars)
    ensures GoneLines([op] + ops) == (if op.opcode == Delete then op.lines else 0) + GoneLines(ops)
    ensures Reach([op] + ops) == op.chars + Reach(ops)
  {
    assert ([op] + ops)[1..] == ops;
  }

  lemma JoinGone(op: Op, ops: seq<Op>, p: nat)
    requires Removing(ops) && (op.opcode == Keep || op.opcode == Delete) && 0 < op.chars
    ensures SameGone(Join(op, ops), [op] + ops, p)
  {
    hide Gone, GoneLines, Reach;
    GoneFront(op, ops, p);
    if ops != [] && Mergeable(op, ops[0]) {
      var q, rest := ops[0], ops[1..];
      GoneFront(q, rest, p + op.chars);
      GoneFront(Merge2(op, q), rest, p);
      assert [q] + rest == ops;
      assert Positions(p, op.chars) + Positions(p + op.chars, q.chars) == Positions(p, op.chars + q.chars);
      Regroup(Positions(p, op.chars), Positions(p + op.chars, q.chars), Gone(rest, p + op.chars + q.chars));
    }
  }

  // The assembler deletes the same characters, and counts as many newlines.
  lemma {:induction false} NormalGone(ops: seq<Op>, p: nat)
    requires Removing(ops)
    ensures SameGone(Normal(ops, true), ops, p)
  {
    hide Gone, GoneLines, Join;
    if ops != [] {
      var op, n := ops[0], Normal(ops[1..], true);
      NormalGone(ops[1..], p + op.chars);
      GoneFront(op, ops[1..], p);
      GoneFront(op, n, p);
      JoinGone(op, n, p);
      assert [op] + ops[1..] == ops;
      NothingGone(p);
      NothingGone(p + op.chars);
    }
  }

  lemma NothingGone(p: nat)
    ensures Removing([]) && Gone([], p) == [] && GoneLines([]) == 0 && Reach([]) == 0
  {}

  ghost predicate NoNewlinesAt(qs: seq<nat>, t: string) {
    forall q :: q in qs ==> q < |t| && t[q] != '\n'
  }

  lemma NoNewlinesAtBoth(x: seq<nat>, y: seq<nat>, t: string)
    requires NoNewlinesAt(x, t) && NoNewlinesAt(y, t)
    ensures NoNewlinesAt(x + y, t)
  {}

  // Ops that fit and count no newline delete none.
  lemma {:induction false} NoNewlineGone(ops: seq<Op>, bank: string, t: string, p: nat)
    requires Removing(ops) && p <= |t| && Fits(ops, bank, From(t, p))
    ensures 0 <= GoneLines(ops) && (GoneLines(ops) == 0 ==> NoNewlinesAt(Gone(ops, p), t))
    decreases |ops|
  {
    hide OpFits, Fits, LinesTrue, Gone, GoneLines, From, Reach, NoNewlinesAt, Positions;
    if ops == [] {
      NothingGone(p);
      NoNewlinesNowhere(t);
    } else {
      var op := ops[0];
      RemovingHead(ops);
      Unfold(ops, bank, From(t, p));
      OldStretch(op, bank, t, p);
      NoNewlineGone(ops[1..], bank[BankUse(op)..], t, p + op.chars);
      GoneFront(op, ops[1..], p);
      assert [op] + ops[1..] == ops;
      NoNewlinesNowhere(t);
      if GoneLines(ops) == 0 {
        NoNewlinesAtBoth(if op.opcode == Delete then Positions(p, op.chars) else [], Gone(ops[1..], p + op.chars), t);
      }
    }
  }

  lemma RemovingHead(ops: seq<Op>)
    requires Removing(ops) && ops != []
    ensures (ops[0].opcode == Keep || ops[0].opcode == Delete) && 0 < ops[0].chars && Removing(ops[1..])
  {}

  lemma NoNewlinesNowhere(t: string)
    ensures NoNewlinesAt([], t)
  {}

  lemma OldStretch(op: Op, bank: string, t: string, p: nat)
    requires p <= |t| && OpFits(op, bank, From(t, p)) && (op.opcode == Keep || op.opcode == Delete)
    ensures DocUse(op) == op.chars && 0 < op.chars && p + op.chars <= |t|
    ensures From(t, p)[op.chars..] == From(t, p + op.chars)
    ensures 0 <= op.lines && (op.lines == 0 ==> NoNewlinesAt(Positions(p, op.chars), t))
  {
    hide LinesTrue;
    var x := t[p..p + op.chars];
    assert Text(From(t, p)[..op.chars]) == x;
    LinesCounted(op.lines, x);
    if op.lines == 0 {
      forall q | q in Positions(p, op.chars) ensures q < |t| && t[q] != '\n' { assert x[q - p] == t[q]; }
    }
  }

  lemma LinesCounted(lines: int, s: string)
    requires LinesTrue(lines, s)
    ensures 0 <= lines && (lines == 0 ==> forall i :: 0 <= i < |s| ==> s[i] != '\n')
  {
    if lines == 0 { NoNewlines(s); }
  }

  lemma {:induction false} NoNewlines(s: string)
    requires Newlines(s) == 0
    ensures forall i :: 0 <= i < |s| ==> s[i] != '\n'
  {
    if s != [] {
      NoNewlines(s[1..]);
      assert s == [s[0]] + s[1..];
    }
  }

  lemma {:induction false} GoneConcat(a: seq<Op>, b: seq<Op>, p: nat)
    requires Removing(a) && Removing(b)
    ensures Removing(a + b) && Gone(a + b, p) == Gone(a, p) + Gone(b, p + Reach(a))
    ensures GoneLines(a + b) == GoneLines(a) + GoneLines(b) && Reach(a + b) == Reach(a) + Reach(b)
  {
    hide Gone, GoneLines, Reach;
    NothingGone(p);
    if a == [] {
      assert a + b == b && [] + Gone(b, p) == Gone(b, p);
    } else {
      GoneConcat(a[1..], b, p + a[0].chars);
      GoneFront(a[0], a[1..], p);
      GoneFront(a[0], a[1..] + b, p);
      assert [a[0]] + a[1..] == a && [a[0]] + (a[1..] + b) == a + b;
      var x := if a[0].opcode == Delete then Positions(p, a[0].chars) else [];
      Regroup(x, Gone(a[1..], p + a[0].chars), Gone(b, p + a[0].chars + Reach(a[1..])));
    }
  }

  // ---------- the document without them

  // Of the first `n` characters of `g`, those that stand where `d` has no misplaced marker.
  ghost function Spare(g: Doc, d: Doc, n: nat): Doc
    requires n <= |g|
  {
    if n == 0 then [] else Spare(g, d, n - 1) + (if Misplaced(d, n - 1) then [] else [g[n - 1]])
  }

  ghost function Corrected(d: Doc): Doc { Spare(d, d, |d|) }

  lemma {:induction false} SpareStretch(g: Doc, d: Doc, a: nat, b: nat)
    requires a <= b <= |g| && forall i: nat :: a <= i < b ==> !Misplaced(d, i)
    ensures Spare(g, d, b) == Spare(g, d, a) + g[a..b] && Misplacements(d, b) == Misplacements(d, a)
    decreases b
  {
    hide Misplaced;
    if a == b {
      assert g[a..b] == [];
    } else {
      SpareStretch(g, d, a, b - 1);
      assert g[a..b] == g[a..b - 1] + [g[b - 1]];
    }
  }

  // No newline is part of a list and behind something in its line.
  ghost predicate NewlinesSpared(d: Doc, n: nat) {
    forall i: nat :: i < n && Misplaced(d, i) ==> d[i].ch != '\n'
  }

  ghost predicate WellPlaced(d: Doc) {
    forall i: nat :: !Misplaced(d, i)
  }

  // Where no newline goes, every marker that stays starts a line.
  lemma {:induction false} NoneIsLeft(d: Doc, n: nat)
    requires n <= |d| && NewlinesSpared(d, n)
    ensures WellPlaced(Spare(d, d, n))
    ensures n > 0 && d[n - 1].ch == '\n' ==> Spare(d, d, n) != [] && Spare(d, d, n)[|Spare(d, d, n)| - 1] == d[n - 1]
    decreases n
  {
    hide ListValue;
    if n > 0 {
      NoneIsLeft(d, n - 1);
      var e, e' := Spare(d, d, n - 1), Spare(d, d, n);
      forall i: nat ensures !Misplaced(e', i) {
        assert !Misplaced(e, i);
        if i < |e| { assert e'[i] == e[i]; }
      }
    }
  }

  // ---------- building the changeset

  ghost predicate Takes(raw: seq<Op>, d: Doc, n: nat, g: Doc) {
    n <= |g| && Effect(raw, "", g[..n], Spare(g, d, n))
  }

  ghost predicate TakesAlways(raw: seq<Op>, d: Doc, n: nat, t: string) {
    forall g: Doc | Text(g) == t :: Takes(raw, d, n, g)
  }

  // The ops so far delete the misplaced markers among the first `n` characters, as
  // characters that are no newlines.
  ghost predicate Built(raw: seq<Op>, d: Doc, t: string, n: nat) {
    && n <= |t| && Text(d) == t
    && Removing(raw) && Reach(raw) == n && Gone(raw, 0) == Misplacements(d, n) && GoneLines(raw) == 0
    && (NewlinesSpared(d, n) ==> TakesAlways(raw, d, n, t))
  }

  lemma NothingBuilt(d: Doc, t: string)
    requires Text(d) == t
    ensures Built([], d, t, 0)
  {
    hide Effect;
    NothingGone(0);
    EffectNone();
    forall g: Doc | Text(g) == t ensures Takes([], d, 0, g) { assert g[..0] == []; }
  }

  lemma KeptGone(n: nat, lines: int, p: nat)
    ensures var ops := Counted(Op(Keep, n, lines, []));
            Removing(ops) && Gone(ops, p) == [] && GoneLines(ops) == 0 && Reach(ops) == n
  {
    hide Gone, GoneLines, Reach;
    NothingGone(p);
    NothingGone(p + n);
    if n > 0 {
      GoneFront(Op(Keep, n, lines, []), [], p);
      assert [Op(Keep, n, lines, [])] + [] == [Op(Keep, n, lines, [])];
    }
  }

  lemma KeepTextGone(x: string, p: nat)
    ensures var ops := TextOps(Keep, x, []);
            Removing(ops) && Gone(ops, p) == [] && GoneLines(ops) == 0 && Reach(ops) == |x|
  {
    hide Gone, GoneLines, Reach, Newlines, Removing, Counted, LastNewlineIndex;
    var k := LastNewlineIndex(x);
    LastIndexBounds(x);
    if k < 0 {
      KeptGone(|x|, 0, p);
    } else {
      KeptGone(k + 1, Newlines(x), p);
      KeptGone(|x| - (k + 1), 0, p + k + 1);
      GoneConcat(Counted(Op(Keep, k + 1, Newlines(x), [])), Counted(Op(Keep, |x| - (k + 1), 0, [])), p);
    }
  }

  lemma LastIndexBounds(x: string)
    ensures -1 <= LastNewlineIndex(x) < |x|
  {}

  lemma BuildKeep(raw: seq<Op>, d: Doc, t: string, a: nat, b: nat)
    requires Built(raw, d, t, a) && a <= b <= |t| && forall i: nat :: a <= i < b ==> !Misplaced(d, i)
    ensures Built(raw + TextOps(Keep, t[a..b], []), d, t, b)
  {
    hide Effect, Gone, GoneLines, Reach, Removing, TextOps, Misplaced, Text, Spare;
    var x, ops := t[a..b], TextOps(Keep, t[a..b], []);
    TextLength(d);
    SpareStretch(d, d, a, b);
    KeepTextGone(x, a);
    GoneConcat(raw, ops, 0);
    if NewlinesSpared(d, b) {
      forall g: Doc | Text(g) == t ensures Takes(raw + ops, d, b, g) {
        assert Takes(raw, d, a, g);
        TakesKeep(raw, d, t, a, b, g);
      }
    }
  }

  lemma TakesKeep(raw: seq<Op>, d: Doc, t: string, a: nat, b: nat, g: Doc)
    requires Takes(raw, d, a, g) && Text(g) == t && a <= b <= |t|
    requires forall i: nat :: a <= i < b ==> !Misplaced(d, i)
    ensures Takes(raw + TextOps(Keep, t[a..b], []), d, b, g)
  {
    hide Effect, TextOps, Misplaced, Text, Spare;
    TextLength(g);
    TakenText(g, t, a, b);
    SpareStretch(g, d, a, b);
    EffectOf(Keep, t[a..b], [], "", g[a..b]);
    StyleNothing(g[a..b]);
    EffectConcat(raw, "", g[..a], Spare(g, d, a), TextOps(Keep, t[a..b], []), "", g[a..b], g[a..b]);
    assert g[..a] + g[a..b] == g[..b] && "" + "" == "";
  }

  lemma OneMoreMisplaced(d: Doc, p: nat)
    requires Misplaced(d, p)
    ensures Misplacements(d, p + 1) == Misplacements(d, p) + [p]
    ensures p < |d| && (NewlinesSpared(d, p + 1) ==> NewlinesSpared(d, p) && d[p].ch != '\n')
  {}

  lemma BuildRemove(raw: seq<Op>, d: Doc, t: string, p: nat)
    requires Built(raw, d, t, p) && p < |t| && Misplaced(d, p)
    ensures Built(raw + Counted(Op(Delete, 1, 0, [])), d, t, p + 1)
  {
    hide Effect, Gone, GoneLines, Reach, Removing, Text, Spare, Misplaced, Misplacements, NewlinesSpared;
    var op := Op(Delete, 1, 0, []);
    TextLength(d);
    OneMoreMisplaced(d, p);
    NothingGone(p);
    NothingGone(p + 1);
    GoneFront(op, [], p);
    assert [op] + [] == [op] && Positions(p, 1) == [p];
    GoneConcat(raw, [op], 0);
    if NewlinesSpared(d, p + 1) {
      assert t[p] == Text(d)[p] == d[p].ch;
      forall g: Doc | Text(g) == t ensures Takes(raw + [op], d, p + 1, g) {
        assert Takes(raw, d, p, g);
        TakesRemove(raw, d, t, p, g);
      }
    }
  }

  lemma TakesRemove(raw: seq<Op>, d: Doc, t: string, p: nat, g: Doc)
    requires Takes(raw, d, p, g) && Text(g) == t && p < |t| && t[p] != '\n' && Misplaced(d, p)
    ensures Takes(raw + [Op(Delete, 1, 0, [])], d, p + 1, g)
  {
    hide Effect, Text, Misplaced;
    TextLength(g);
    TakenText(g, t, p, p + 1);
    assert t[p..p + 1] == [t[p]] && [t[p]][1..] == [];
    assert Newlines([t[p]]) == 0;
    StretchEffect(Delete, 0, g[p..p + 1]);
    EffectConcat(raw, "", g[..p], Spare(g, d, p), Counted(Op(Delete, 1, 0, [])), "", g[p..p + 1], []);
    assert g[..p] + g[p..p + 1] == g[..p + 1] && "" + "" == "" && Spare(g, d, p) + [] == Spare(g, d, p);
  }

  // The changeset is one for the text exactly if no newline is among the misplaced markers;
  // then it takes those out of every document with the text, and nothing else.
  lemma Corrects(raw: seq<Op>, d: Doc, t: string, n: nat)
    requires Built(raw, d, t, n) && t != "" && t[|t| - 1] == '\n'
    requires Misplacements(d, n) == Misplacements(d, |d|)
    ensures var c := Changeset(|t|, |t| + LengthChange(raw), Normal(raw, true), "");
            && (IsFor(c, t) <==> NewlinesSpared(d, |d|))
            && (IsFor(c, t) ==> Applies(c, d) && Applied(c, d) == Corrected(d))
  {
    hide Effect, Fits, Apply, Normal, Safe, Text, Gone, GoneLines, Reach, Removing, Misplaced, Spare, Untouched,
         TakesAlways, LengthChange;
    var c, u := Changeset(|t|, |t| + LengthChange(raw), Normal(raw, true), ""), Untouched(t);
    TextLength(d);
    TextOfUntouched(t);
    TextLength(u);
    NoneBetween(d, n, |d|);
    NormalGone(raw, 0);
    if IsFor(c, t) {
      assert From(t, 0) == u;
      NoNewlineGone(c.ops, c.bank, t, 0);
      GoneAreSpared(d, t);
    }
    if NewlinesSpared(d, |d|) {
      ThenFits(raw, d, t, n, u);
      ThenFits(raw, d, t, n, d);
      NormalEffect(raw, true, "", d);
      LastIsPlaced(d, t);
    SparedLast(u, d, |d|);
      KeepsLastCell(u, Spare(u, d, |d|));
      AssembledIsFor(raw, "", t);
      ApplyLength(raw, "", u);
      RemovingIsClean(c.ops);
    }
  }

  lemma KeepsLastCell(u: Doc, e: Doc)
    requires u != [] && e != [] && e[|e| - 1] == u[|u| - 1]
    ensures KeepsLast(u, e)
  {}

  lemma RemovingIsClean(ops: seq<Op>)
    requires Removing(ops)
    ensures Clean(ops)
  {}

  lemma GoneAreSpared(d: Doc, t: string)
    requires Text(d) == t && NoNewlinesAt(Misplacements(d, |d|), t)
    ensures NewlinesSpared(d, |d|)
  {
    hide Misplaced;
    forall i: nat | i < |d| && Misplaced(d, i) ensures d[i].ch != '\n' { MisplacementsAre(d, |d|, i); }
  }

  lemma TakesNow(raw: seq<Op>, d: Doc, t: string, n: nat, g: Doc)
    requires Built(raw, d, t, n) && NewlinesSpared(d, |d|) && Text(g) == t
    ensures Text(d) == t && n <= |t| && n <= |g| && Effect(raw, "", g[..n], Spare(g, d, n))
  {
    hide Effect, Text, Gone, GoneLines, Reach, Removing, Misplaced, Spare;
    TextLength(d);
    assert Takes(raw, d, n, g);
  }

  lemma ThenFits(raw: seq<Op>, d: Doc, t: string, n: nat, g: Doc)
    requires Built(raw, d, t, n) && NewlinesSpared(d, |d|) && Text(g) == t
    requires forall i: nat :: n <= i < |d| ==> !Misplaced(d, i)
    ensures |g| == |d| && Fits(raw, "", g) && Apply(raw, "", g) == Spare(g, d, |d|)
  {
    hide Effect, Fits, Apply, Text, Misplaced, Spare, Built, NewlinesSpared, Misplacements;
    TextLength(g);
    TextLength(d);
    TakesNow(raw, d, t, n, g);
    EffectThen(raw, "", g[..n], Spare(g, d, n), g[n..]);
    SpareStretch(g, d, n, |g|);
    assert g[..n] + g[n..] == g && g[n..|g|] == g[n..];
  }

  lemma LastIsPlaced(d: Doc, t: string)
    requires Text(d) == t && t != "" && t[|t| - 1] == '\n' && NewlinesSpared(d, |d|)
    ensures |d| == |t| && !Misplaced(d, |d| - 1)
  {
    hide Misplaced;
    TextLength(d);
  }

  lemma SparedLast(g: Doc, d: Doc, n: nat)
    requires 0 < n <= |g| && !Misplaced(d, n - 1)
    ensures Spare(g, d, n) != [] && Spare(g, d, n)[|Spare(g, d, n)| - 1] == g[n - 1]
  {
    hide Misplaced;
  }

  // The markers are taken out, if there are any. Whether the changeset is one for the text is
  // told beside it.
  method CorrectMarkersInPad(atext: AText) returns (r: Option<Changeset>, wellFormed: bool)
    requires IsAText(atext) && atext.text != "" && atext.text[|atext.text| - 1] == '\n'
    ensures r.None? <==> WellPlaced(DocOf(atext))
    ensures wellFormed <==> NewlinesSpared(DocOf(atext), |DocOf(atext)|)
    ensures r.Some? ==> (IsFor(r.value, atext.text) <==> wellFormed)
    ensures r.Some? && wellFormed ==>
              Applies(r.value, DocOf(atext)) && Applied(r.value, DocOf(atext)) == Corrected(DocOf(atext))
  {
    hide Fits, Apply, Misplaced, Misplacements, Built, IsFor, Text, TextOps, Builder.Valid, Normal, LengthChange,
         NewlinesSpared, Applies, Applied, Corrected;
    ghost var d, t := DocOf(atext), atext.text;
    DocOfText(atext);
    TextLength(d);
    var badMarkers := BadMarkers(atext);
    AllOrNone(d);
    NoneAtFirst(d);
    r, wellFormed := None, true;
    if |badMarkers| == 0 { return; }
    var offset: nat := 0;
    var builder := new Builder(|atext.text|);
    NothingBuilt(d, t);
    for i := 0 to |badMarkers|
      invariant builder.Valid() && fresh(builder) && fresh(builder.assem.repr) && builder.oldLen == |t|
      invariant offset <= |t| && badMarkers[..i] == Misplacements(d, offset) && builder.charBank == ""
      invariant Built(builder.Ops(), d, t, offset) && (wellFormed <==> NewlinesSpared(d, offset))
    {
      var pos := badMarkers[i];
      NextMisplaced(d, offset, |d|);
      BuildKeep(builder.Ops(), d, t, offset, pos);
      builder.KeepText(atext.text[offset..pos], []);
      BuildRemove(builder.Ops(), d, t, pos);
      builder.Remove(1, 0);
      StillSpared(d, offset, pos);
      wellFormed := wellFormed && atext.text[pos] != '\n';
      offset := pos + 1;
    }
    assert badMarkers[..|badMarkers|] == badMarkers;
    NoneBetween(d, offset, |d|);
    SparedToTheEnd(d, offset);
    Corrects(builder.Ops(), d, t, offset);
    var cs := builder.ToString();
    r := Some(cs);
  }

  lemma StillSpared(d: Doc, a: nat, p: nat)
    requires a <= p < |d| && Misplaced(d, p) && forall i: nat :: a <= i < p ==> !Misplaced(d, i)
    ensures NewlinesSpared(d, p + 1) <==> NewlinesSpared(d, a) && d[p].ch != '\n'
  {
    hide Misplaced;
  }

  lemma SparedToTheEnd(d: Doc, n: nat)
    requires n <= |d| && forall i: nat :: n <= i < |d| ==> !Misplaced(d, i)
    ensures NewlinesSpared(d, |d|) <==> NewlinesSpared(d, n)
  {
    hide Misplaced;
  }

  // What is left starts lines, and still ends in a newline. Where all markers do, nothing is
  // taken out.
  lemma CorrectedIsRight(d: Doc)
    requires d != [] && d[|d| - 1].ch == '\n'
    ensures NewlinesSpared(d, |d|) ==>
              && WellPlaced(Corrected(d)) && Corrected(d) != []
              && Corrected(d)[|Corrected(d)| - 1] == d[|d| - 1]
    ensures WellPlaced(d) ==> NewlinesSpared(d, |d|) && Corrected(d) == d
  {
    hide Misplaced, Spare;
    if NewlinesSpared(d, |d|) { NoneIsLeft(d, |d|); }
    if WellPlaced(d) {
      SpareStretch(d, d, 0, |d|);
      NothingSpared(d);
    }
  }

  lemma NothingSpared(d: Doc)
    ensures Spare(d, d, 0) == [] && [] + d[0..|d|] == d
  {}

  lemma {:induction false} FirstStays(g: Doc, d: Doc, n: nat)
    requires 0 < n <= |g|
    ensures Spare(g, d, n) != []
  {
    if n > 1 { FirstStays(g, d, n - 1); }
  }

  lemma NoneAtFirst(d: Doc)
    ensures Misplacements(d, 0) == [] && NewlinesSpared(d, 0)
    ensures WellPlaced(d) ==> NewlinesSpared(d, |d|)
  {}

  lemma AllOrNone(d: Doc)
    ensures Misplacements(d, |d|) == [] <==> WellPlaced(d)
  {
    if Misplacements(d, |d|) == [] {
      forall i: nat ensures !Misplaced(d, i) { MisplacementsAre(d, |d|, i); }
    } else {
      var p := Misplacements(d, |d|)[0];
      MisplacementsAre(d, |d|, p);
    }
  }

  // It is enough that somebody makes the newline behind some text part of a list.
  lemma MarkedNewline(d: Doc, i: nat, v: string)
    requires 0 < i < |d| && d[i].ch == '\n' && d[i - 1].ch != '\n' && v != ""
    ensures var e := d[i := Restyled(d[i], [Pair("list", v)])]; !NewlinesSpared(e, |e|)
  {
    var a, e := [Pair("list", v)], d[i := Restyled(d[i], [Pair("list", v)])];
    assert a[..0] == [];
    ComposeAt(MapOf(d[i].attribs), MapOf(a), d[i].Old?, "list");
    assert Misplaced(e, i);
  }
}
