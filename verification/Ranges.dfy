/** `toSplices` and `characterRangeFollow`: a selection carried over a changeset. */
module Ranges {
  import opened Attributes
  import opened Changesets
  import opened Composition
  import opened NormalForm
  import opened Views
  import opened Algebra
  import opened Laws
  import opened Iterators
  import opened Zipping
  import opened Engine

  // ---------- characters by where they come from

  datatype Mark = Kept(pos: nat) | Fresh(ch: char)

  ghost function MarkOf(c: Cell): Mark { if c.Old? then Kept(c.pos) else Fresh(c.ch) }

  ghost function Marks(d: Doc): (r: seq<Mark>)
    ensures |r| == |d| && forall i :: 0 <= i < |d| ==> r[i] == MarkOf(d[i])
  {
    seq(|d|, i requires 0 <= i < |d| => MarkOf(d[i]))
  }

  ghost function FreshMarks(s: string): (r: seq<Mark>)
    ensures |r| == |s| && forall i :: 0 <= i < |s| ==> r[i] == Fresh(s[i])
  {
    seq(|s|, i requires 0 <= i < |s| => Fresh(s[i]))
  }

  lemma MarksConcat(d: Doc, e: Doc)
    ensures Marks(d + e) == Marks(d) + Marks(e)
  {}

  lemma MarksParts(d: Doc, k: nat)
    requires k <= |d|
    ensures Marks(d[..k]) == Marks(d)[..k] && Marks(d[k..]) == Marks(d)[k..]
  {}

  lemma EmitMarks(op: Op, bank: string, d: Doc)
    requires OpFits(op, bank, d)
    ensures Marks(Emit(op, bank, d))
         == match op.opcode case Insert => FreshMarks(bank[..op.chars]) case Keep => Marks(d)[..op.chars] case _ => []
  {
    hide ComposeAttributes, LinesTrue;
    if op.opcode == Keep { MarksParts(d, op.chars); }
  }

  // ---------- splices

  // From `start` up to `end` the old text is replaced by `text`.
  datatype Splice = Splice(start: nat, end: nat, text: string)

  // In order, not past `end`; nothing is left of the old text between two of them but what
  // lies between the end of one and the start of the next.
  ghost predicate InOrder(splices: seq<Splice>, from: nat, end: nat) {
    if splices == [] then from <= end
    else from <= splices[0].start <= splices[0].end && InOrder(splices[1..], splices[0].end, end)
  }

  // The old characters from `from` on, with the splices made.
  ghost function Spread(splices: seq<Splice>, from: nat, o: seq<Mark>): seq<Mark>
    requires InOrder(splices, from, |o|)
    decreases |splices|
  {
    if splices == [] then o[from..]
    else
      InOrderEnds(splices[1..], splices[0].end, |o|);
      o[from..splices[0].start] + FreshMarks(splices[0].text) + Spread(splices[1..], splices[0].end, o)
  }

  lemma {:induction false} InOrderEnds(splices: seq<Splice>, from: nat, end: nat)
    requires InOrder(splices, from, end)
    ensures from <= end
    decreases |splices|
  {
    if splices != [] { InOrderEnds(splices[1..], splices[0].end, end); }
  }

  lemma {:induction false} InOrderFurther(splices: seq<Splice>, from: nat, end: nat, end': nat)
    requires InOrder(splices, from, end) && end <= end'
    ensures InOrder(splices, from, end')
    decreases |splices|
  {
    if splices != [] { InOrderFurther(splices[1..], splices[0].end, end, end'); }
  }

  // More of the old text kept at the end.
  lemma {:induction false} SpreadMore(splices: seq<Splice>, from: nat, o: seq<Mark>, more: seq<Mark>)
    requires InOrder(splices, from, |o|)
    ensures InOrder(splices, from, |o + more|) && Spread(splices, from, o + more) == Spread(splices, from, o) + more
    decreases |splices|
  {
    InOrderFurther(splices, from, |o|, |o + more|);
    InOrderEnds(splices, from, |o|);
    if splices == [] {
      assert (o + more)[from..] == o[from..] + more;
    } else {
      var s := splices[0];
      InOrderEnds(splices[1..], s.end, |o|);
      SpreadMore(splices[1..], s.end, o, more);
      assert (o + more)[from..s.start] == o[from..s.start];
      Regroup(o[from..s.start] + FreshMarks(s.text), Spread(splices[1..], s.end, o), more);
    }
  }

  // A splice added behind the others, where the old text so far ends.
  lemma {:induction false} SpreadSnoc(splices: seq<Splice>, x: Splice, from: nat, o: seq<Mark>)
    requires InOrder(splices, from, x.start) && x.start <= x.end == |o|
    ensures InOrder(splices + [x], from, |o|) && InOrder(splices, from, |o[..x.start]|)
    ensures Spread(splices + [x], from, o) == Spread(splices, from, o[..x.start]) + FreshMarks(x.text)
    decreases |splices|
  {
    InOrderEnds(splices, from, x.start);
    if splices == [] {
      assert splices + [x] == [x] && [x][1..] == [];
      assert o[..x.start][from..] == o[from..x.start] && o[x.end..] == [];
      assert o[from..x.start] + FreshMarks(x.text) + [] == o[from..x.start] + FreshMarks(x.text);
    } else {
      var s := splices[0];
      assert (splices + [x])[0] == s && (splices + [x])[1..] == splices[1..] + [x];
      InOrderEnds(splices[1..], s.end, x.start);
      SpreadSnoc(splices[1..], x, s.end, o);
      assert o[..x.start][from..s.start] == o[from..s.start];
      Regroup(o[from..s.start] + FreshMarks(s.text), Spread(splices[1..], s.end, o[..x.start]), FreshMarks(x.text));
    }
  }

  // ---------- toSplices

  // Old text is left between any two.
  ghost predicate Apart(splices: seq<Splice>) {
    forall i :: 0 < i < |splices| ==> splices[i - 1].end < splices[i].start
  }

  // The splices so far make, of the old text up to `oldPos`, what the ops so far make.
  ghost predicate Collecting(splices: seq<Splice>, o: seq<Mark>, oldPos: nat, inSplice: bool, made: seq<Mark>) {
    && oldPos <= |o| && InOrder(splices, 0, oldPos) && Spread(splices, 0, o[..oldPos]) == made
    && Apart(splices) && (inSplice ==> splices != [] && splices[|splices| - 1].end == oldPos)
    && (!inSplice && splices != [] ==> splices[|splices| - 1].end < oldPos)
  }

  lemma CollectKeep(splices: seq<Splice>, o: seq<Mark>, oldPos: nat, inSplice: bool, made: seq<Mark>, n: nat)
    requires Collecting(splices, o, oldPos, inSplice, made) && oldPos + n <= |o| && 0 < n
    ensures Collecting(splices, o, oldPos + n, false, made + o[oldPos..oldPos + n])
  {
    hide InOrder, Spread, Apart;
    SpreadMore(splices, 0, o[..oldPos], o[oldPos..oldPos + n]);
    assert o[..oldPos] + o[oldPos..oldPos + n] == o[..oldPos + n];
  }

  lemma CollectOpen(splices: seq<Splice>, o: seq<Mark>, oldPos: nat, made: seq<Mark>)
    requires Collecting(splices, o, oldPos, false, made)
    ensures Collecting(splices + [Splice(oldPos, oldPos, "")], o, oldPos, true, made)
  {
    hide InOrder, Spread;
    SpreadSnoc(splices, Splice(oldPos, oldPos, ""), 0, o[..oldPos]);
    assert o[..oldPos][..oldPos] == o[..oldPos];
    assert made + FreshMarks("") == made;
  }

  lemma {:induction false} OrderOfPrefix(splices: seq<Splice>, from: nat, end: nat)
    requires splices != [] && InOrder(splices, from, end)
    ensures var x := splices[|splices| - 1]; InOrder(splices[..|splices| - 1], from, x.start) && x.start <= x.end <= end
    decreases |splices|
  {
    if |splices| == 1 {
      assert splices[..0] == [] && splices[1..] == [];
    } else {
      OrderOfPrefix(splices[1..], splices[0].end, end);
      assert splices[1..][..|splices[1..]| - 1] == splices[..|splices| - 1][1..];
    }
  }

  // The last splice grows.
  lemma CollectMore(splices: seq<Splice>, o: seq<Mark>, oldPos: nat, made: seq<Mark>, n: nat, text: string)
    requires Collecting(splices, o, oldPos, true, made) && oldPos + n <= |o|
    ensures splices != []
    ensures var x := splices[|splices| - 1];
            Collecting(splices[|splices| - 1 := Splice(x.start, x.end + n, x.text + text)], o, oldPos + n, true,
                made + FreshMarks(text))
  {
    hide InOrder, Spread;
    var before, x := splices[..|splices| - 1], splices[|splices| - 1];
    var x' := Splice(x.start, x.end + n, x.text + text);
    OrderOfPrefix(splices, 0, oldPos);
    assert splices == before + [x] && splices[|splices| - 1 := x'] == before + [x'];
    SpreadSnoc(before, x, 0, o[..oldPos]);
    SpreadSnoc(before, x', 0, o[..oldPos + n]);
    assert o[..oldPos][..x.start] == o[..oldPos + n][..x.start];
    assert FreshMarks(x.text + text) == FreshMarks(x.text) + FreshMarks(text);
    Regroup(Spread(before, 0, o[..oldPos][..x.start]), FreshMarks(x.text), FreshMarks(text));
  }

  // The ops to come make the rest.
  ghost predicate Coming(ops: seq<Op>, bank: string, d: Doc, o: seq<Mark>, oldPos: nat, made: seq<Mark>,
      all: seq<Mark>) {
    && Fits(ops, bank, d) && oldPos <= |o| && Marks(d) == o[oldPos..]
    && all == made + Marks(Apply(ops, bank, d))
  }

  lemma ComingNext(ops: seq<Op>, bank: string, d: Doc, o: seq<Mark>, oldPos: nat, made: seq<Mark>, all: seq<Mark>)
    requires ops != [] && Coming(ops, bank, d, o, oldPos, made, all)
    ensures var op := ops[0];
            && op.opcode != NoOp && 0 < op.chars && 0 <= BankUse(op) <= |bank| && 0 <= DocUse(op) <= |d|
            && oldPos + DocUse(op) <= |o|
            && var out := match op.opcode case Insert => FreshMarks(bank[..op.chars])
                                          case Keep => o[oldPos..oldPos + op.chars] case _ => [];
               Coming(ops[1..], bank[BankUse(op)..], d[DocUse(op)..], o, oldPos + DocUse(op), made + out, all)
  {
    hide Fits, Apply, OpFits, Emit, Marks;
    var op := ops[0];
    Unfold(ops, bank, d);
    FitBounds(op, bank, d);
    EmitMarks(op, bank, d);
    MarksParts(d, DocUse(op));
    MarksLength(d);
    MarksConcat(Emit(op, bank, d), Apply(ops[1..], bank[BankUse(op)..], d[DocUse(op)..]));
    TailSlices(o, oldPos, DocUse(op));
    Regroup(made, Marks(Emit(op, bank, d)), Marks(Apply(ops[1..], bank[BankUse(op)..], d[DocUse(op)..])));
  }

  lemma MarksLength(d: Doc)
    ensures |Marks(d)| == |d|
  {}

  lemma TailSlices<T>(o: seq<T>, p: nat, k: nat)
    requires p + k <= |o|
    ensures o[p..][..k] == o[p..p + k] && o[p..][k..] == o[p + k..]
  {}

  method ToSplices(cs: Changeset, ghost t: string) returns (splices: seq<Splice>)
    requires IsFor(cs, t)
    ensures InOrder(splices, 0, |t|) && Apart(splices)
    ensures Spread(splices, 0, Marks(Untouched(t))) == Marks(ViewOf(cs, t))
  {
    hide Fits, Apply, IsFor, InOrder, Spread, Apart, Collecting, Coming, Marks, Untouched, OpIterator.Rest,
         StringIterator.Rest, OpIterator.Valid, StringIterator.Valid;
    ghost var o, all := Marks(Untouched(t)), Marks(ViewOf(cs, t));
    ghost var d, made: seq<Mark> := Untouched(t), [];
    StartCollecting(cs, t);
    splices := [];
    var oldPos: nat := 0;
    var iter := new OpIterator(cs.ops);
    var charIter := new StringIterator(cs.bank);
    var inSplice := false;
    while iter.HasNext()
      invariant iter.Valid() && charIter.Valid() && fresh(iter) && fresh(charIter)
      invariant Coming(iter.Rest(), charIter.Rest(), d, o, oldPos, made, all)
      invariant Collecting(splices, o, oldPos, inSplice, made)
      decreases |iter.Rest()|
    {
      ghost var ops, bank := iter.Rest(), charIter.Rest();
      ComingNext(ops, bank, d, o, oldPos, made, all);
      var op := iter.Next();
      assert ops[0] == op && ops[1..] == iter.Rest();
      assert bank[0..] == bank;
      d := d[DocUse(op)..];
      if op.opcode == Keep {
        CollectKeep(splices, o, oldPos, inSplice, made, op.chars);
        made := made + o[oldPos..oldPos + op.chars];
        oldPos := oldPos + op.chars;
        inSplice := false;
      } else {
        if !inSplice {
          CollectOpen(splices, o, oldPos, made);
          splices := splices + [Splice(oldPos, oldPos, "")];
          inSplice := true;
        }
        if op.opcode == Delete {
          CollectMore(splices, o, oldPos, made, op.chars, "");
          NothingFresh(made, splices[|splices| - 1].text);
          oldPos := oldPos + op.chars;
          var last := splices[|splices| - 1];
          splices := splices[|splices| - 1 := Splice(last.start, last.end + op.chars, last.text)];
          made := made + [];
        } else {
          var text := charIter.Take(op.chars);
          CollectMore(splices, o, oldPos, made, 0, text);
          var last := splices[|splices| - 1];
          splices := splices[|splices| - 1 := Splice(last.start, last.end, last.text + text)];
          made := made + FreshMarks(text);
        }
      }
    }
    EndCollecting(charIter.Rest(), d, o, oldPos, made, all, splices, inSplice, t);
  }

  lemma NothingFresh(made: seq<Mark>, s: string)
    ensures made + FreshMarks("") == made && made + [] == made && s + "" == s
  {}

  lemma StartCollecting(cs: Changeset, t: string)
    requires IsFor(cs, t)
    ensures Coming(cs.ops, cs.bank, Untouched(t), Marks(Untouched(t)), 0, [], Marks(ViewOf(cs, t)))
    ensures Collecting([], Marks(Untouched(t)), 0, false, [])
  {
    hide Fits, Apply;
    var o := Marks(Untouched(t));
    assert o[0..] == o && o[..0] == [] && [] + Marks(ViewOf(cs, t)) == Marks(ViewOf(cs, t));
  }

  lemma EndCollecting(bank: string, d: Doc, o: seq<Mark>, oldPos: nat, made: seq<Mark>, all: seq<Mark>,
                      splices: seq<Splice>, inSplice: bool, t: string)
    requires Coming([], bank, d, o, oldPos, made, all) && Collecting(splices, o, oldPos, inSplice, made) && |o| == |t|
    ensures InOrder(splices, 0, |t|) && Spread(splices, 0, o) == all && Apart(splices)
  {
    hide InOrder, Spread, Apart, Fits, Apply, Marks;
    NothingToDo(bank, d);
    SpreadMore(splices, 0, o[..oldPos], o[oldPos..]);
    assert o[..oldPos] + o[oldPos..] == o;
  }

  // ---------- characterRangeFollow

  // On the same side of `e` and `e'`.
  predicate SameSide(x: int, e: int, x': int, e': int) { x < e <==> x' < e' }

  // Where a character behind a splice is when that is made.
  function Moved(x: int, spliceStart: int, spliceEnd: int, n: int): int { x + n - (spliceEnd - spliceStart) }

  // Both ends of the range keep their place between the characters in front of a splice and
  // behind it.
  ghost predicate CarriedOver(first: int, last: int, spliceStart: int, spliceEnd: int, n: int, first': int,
      last': int) {
    && (forall x: int :: x < spliceStart ==> SameSide(x, first, x, first') && SameSide(x, last, x, last'))
    && (forall x: int :: spliceEnd <= x ==>
          SameSide(x, first, Moved(x, spliceStart, spliceEnd, n), first')
          && SameSide(x, last, Moved(x, spliceStart, spliceEnd, n), last'))
  }

  // Both ends stand between the same old characters as `start` and `end` did.
  ghost predicate Holds(cur: seq<Mark>, first: int, last: int, start: int, end: int) {
    && 0 <= first <= last <= |cur|
    && forall q :: 0 <= q < |cur| && cur[q].Kept? ==>
         SameSide(cur[q].pos, start, q, first) && SameSide(cur[q].pos, end, q, last)
  }

  // A caret that stands where a splice is made goes to one end of the new text.
  function CaretOver(caret: int, spliceStart: int, spliceEnd: int, n: int, insertionsAfter: bool): int {
    if caret < spliceStart then caret
    else if spliceEnd < caret then caret + n - (spliceEnd - spliceStart)
    else if insertionsAfter then spliceStart
    else spliceStart + n
  }

  // All text typed at the caret is behind it, or all of it in front.
  ghost predicate CaretOk(cur: seq<Mark>, caret: int, insertionsAfter: bool) {
    && 0 <= caret <= |cur|
    && if insertionsAfter then caret == 0 || cur[caret - 1].Kept? else caret == |cur| || cur[caret].Kept?
  }

  // The range carried over a splice; it closes only where the splice is made.
  ghost predicate Followed(first: int, last: int, a: int, b: int, n: int, first': int, last': int,
                           insertionsAfter: bool)
  {
    && CarriedOver(first, last, a, b, n, first', last')
    && (first' == last' ==> (first < last ==> a <= first <= b) && first' == CaretOver(first, a, b, n, insertionsAfter))
  }

  // The text from `l` to `h` is in the range or out of it.
  predicate TextIn(l: int, h: int, first: int, last: int, inside: bool) {
    if inside then first <= l && h <= last else h <= first || last <= l
  }

  // What lies between `a` and `b` is in the range, and not just at one end of it.
  predicate Inside(a: int, b: int, first: int, last: int) { first <= a && b <= last && a < last && first < b }

  // One splice, of the characters from `spliceStart` to `spliceEnd`, which become `n`.
  method FollowSplice(startChar: int, endChar: int, spliceStart: int, spliceEnd: int, newTextLength: int,
      insertionsAfter: bool, ghost length: int)
    returns (newStartChar: int, newEndChar: int)
    requires 0 <= startChar <= endChar <= length && 0 <= spliceStart <= spliceEnd <= length && 0 <= newTextLength
    ensures 0 <= newStartChar <= newEndChar <= length + newTextLength - (spliceEnd - spliceStart)
    ensures Followed(startChar, endChar, spliceStart, spliceEnd, newTextLength, newStartChar, newEndChar,
                     insertionsAfter)
    ensures startChar == endChar ==> newStartChar == newEndChar
    ensures newStartChar < newEndChar ==>
              TextIn(spliceStart, spliceStart + newTextLength, newStartChar, newEndChar,
                     Inside(spliceStart, spliceEnd, startChar, endChar))
    ensures newStartChar < newEndChar ==> forall l, h, inside ::
              l <= h < spliceStart && TextIn(l, h, startChar, endChar, inside) ==>
                TextIn(l, h, newStartChar, newEndChar, inside)
  {
    newStartChar, newEndChar := startChar, endChar;
    var thisLengthChange := newTextLength - (spliceEnd - spliceStart);
    if spliceStart <= newStartChar && spliceEnd >= newEndChar {
      // splice fully replaces or deletes the range, or inserts at a collapsed selection
      if insertionsAfter {
        newStartChar, newEndChar := spliceStart, spliceStart;
      } else {
        newStartChar, newEndChar := spliceStart + newTextLength, spliceStart + newTextLength;
      }
    } else if spliceEnd <= newStartChar {
      // splice is before range
      newStartChar := newStartChar + thisLengthChange;
      newEndChar := newEndChar + thisLengthChange;
    } else if spliceStart >= newEndChar {
      // splice is after range
    } else if spliceStart >= newStartChar && spliceEnd <= newEndChar {
      // splice is inside range
      newEndChar := newEndChar + thisLengthChange;
    } else if spliceEnd < newEndChar {
      // splice overlaps beginning of range
      newStartChar := spliceStart + newTextLength;
      newEndChar := newEndChar + thisLengthChange;
    } else {
      // splice overlaps end of range
      newEndChar := spliceStart;
    }
  }

  // The splice made in the middle of a text keeps what the range holds.
  lemma SplicedHolds(x: seq<Mark>, gone: seq<Mark>, fresh_: seq<Mark>, y: seq<Mark>, first: int, last: int,
      first': int, last': int, start: int, end: int)
    requires Holds(x + gone + y, first, last, start, end)
    requires forall q :: 0 <= q < |fresh_| ==> fresh_[q].Fresh?
    requires 0 <= first' <= last' <= |x| + |fresh_| + |y|
    requires CarriedOver(first, last, |x|, |x| + |gone|, |fresh_|, first', last')
    ensures Holds(x + fresh_ + y, first', last', start, end)
  {
    var cur, cur' := x + gone + y, x + fresh_ + y;
    forall q | 0 <= q < |cur'| && cur'[q].Kept?
      ensures SameSide(cur'[q].pos, start, q, first') && SameSide(cur'[q].pos, end, q, last')
    {
      if q < |x| {
        assert cur[q] == cur'[q];
        assert SameSide(q, first, q, first') && SameSide(q, last, q, last');
      } else {
        var p := q - |fresh_| + |gone|;
        assert cur[p] == cur'[q];
        assert Moved(p, |x|, |x| + |gone|, |fresh_|) == q;
        assert SameSide(p, first, Moved(p, |x|, |x| + |gone|, |fresh_|), first');
        assert SameSide(p, last, Moved(p, |x|, |x| + |gone|, |fresh_|), last');
      }
    }
  }

  // ... and a caret where it belongs.
  lemma SplicedCaret(x: seq<Mark>, gone: seq<Mark>, fresh_: seq<Mark>, y: seq<Mark>, c: int, insertionsAfter: bool)
    requires forall q :: 0 <= q < |y| ==> y[q].Kept?
    requires x == [] || x[|x| - 1].Kept?
    requires |x| <= c <= |x| + |gone| || CaretOk(x + gone + y, c, insertionsAfter)
    ensures CaretOk(x + fresh_ + y, CaretOver(c, |x|, |x| + |gone|, |fresh_|, insertionsAfter), insertionsAfter)
  {
    var cur, cur' := x + gone + y, x + fresh_ + y;
    var c' := CaretOver(c, |x|, |x| + |gone|, |fresh_|, insertionsAfter);
    if |x| <= c <= |x| + |gone| {
      assert 0 < |x| ==> cur'[|x| - 1] == x[|x| - 1];
      assert 0 < |y| ==> cur'[|x| + |fresh_|] == y[0];
    } else {
      assert 0 < c ==> cur'[c' - 1] == cur[c - 1];
      assert c < |cur| ==> cur'[c'] == cur[c];
    }
  }

  lemma StartHolds(t: string, start: nat, end: nat, insertionsAfter: bool)
    requires start <= end <= |t|
    ensures Holds(Marks(Untouched(t)), start, end, start, end) && AllKept(Marks(Untouched(t)))
    ensures CaretOk(Marks(Untouched(t)), start, insertionsAfter)
  {}

  ghost predicate AllKept(o: seq<Mark>) { forall q :: 0 <= q < |o| ==> o[q].Kept? }

  // What is done ends in old text where the next splice begins.
  ghost predicate OpenEnd(splices: seq<Splice>, from: nat, done: seq<Mark>) {
    splices != [] ==> (from == 0 && done == []) || from < splices[0].start
  }

  // What the loop keeps: `done` is the text up to where the old text is untouched.
  ghost predicate Following(splices: seq<Splice>, from: nat, o: seq<Mark>, done: seq<Mark>, all: seq<Mark>, change: int,
                            first: int, last: int, start: int, end: int, insertionsAfter: bool)
  {
    && InOrder(splices, from, |o|) && from <= |o| && |done| == from + change
    && all == done + Spread(splices, from, o)
    && Holds(done + o[from..], first, last, start, end)
    && Apart(splices) && AllKept(o) && OpenEnd(splices, from, done)
    && (first == last ==> CaretOk(done + o[from..], first, insertionsAfter))
  }

  lemma FollowingHead(splices: seq<Splice>, from: nat, o: seq<Mark>, done: seq<Mark>, all: seq<Mark>, change: int,
                      first: int, last: int, start: int, end: int, insertionsAfter: bool)
    requires splices != []
    requires Following(splices, from, o, done, all, change, first, last, start, end, insertionsAfter)
    ensures var s := splices[0];
            && from <= s.start <= s.end <= |o| && 0 <= from + change && 0 <= first <= last <= |o| + change
  {
    hide CaretOk, AllKept, Apart, OpenEnd;
    InOrderEnds(splices[1..], splices[0].end, |o|);
  }

  lemma {:induction false} FollowingNext(splices: seq<Splice>, from: nat, o: seq<Mark>, done: seq<Mark>,
                      all: seq<Mark>, change: int, first: int, last: int, start: int, end: int, first': int, last': int,
                      insertionsAfter: bool)
    requires splices != []
    requires Following(splices, from, o, done, all, change, first, last, start, end, insertionsAfter)
    requires from <= splices[0].start <= splices[0].end <= |o|
    requires var s := splices[0];
             var n := |s.text|;
             && 0 <= first' <= last' <= |o| + change + n - (s.end - s.start)
             && Followed(first, last, s.start + change, s.end + change, n, first', last', insertionsAfter)
    ensures var s := splices[0];
            Following(splices[1..], s.end, o, done + o[from..s.start] + FreshMarks(s.text), all,
                      change + |s.text| - (s.end - s.start), first', last', start, end, insertionsAfter)
  {
    hide Holds, InOrder, Spread, CarriedOver, CaretOk, Apart, OpenEnd, AllKept, CaretOver;
    var s := splices[0];
    InOrderHead(splices, from, |o|);
    var x, gone, y := done + o[from..s.start], o[s.start..s.end], o[s.end..];
    ThreeSlices(done, o, from, s.start, s.end);
    SplicedHolds(x, gone, FreshMarks(s.text), y, first, last, first', last', start, end);
    if first' == last' {
      FollowingHead(splices, from, o, done, all, change, first, last, start, end, insertionsAfter);
      OldAround(splices, from, o, done);
      assert x + gone + y == done + o[from..] && |x| == s.start + change && |gone| == s.end - s.start;
      SplicedCaret(x, gone, FreshMarks(s.text), y, first, insertionsAfter);
    }
    ApartNext(splices, done + o[from..s.start] + FreshMarks(s.text));
    SpreadHead(splices, from, o);
    FourParts(done, o[from..s.start], FreshMarks(s.text), Spread(splices[1..], s.end, o));
  }

  lemma {:induction false} OldAround(splices: seq<Splice>, from: nat, o: seq<Mark>, done: seq<Mark>)
    requires splices != [] && AllKept(o) && OpenEnd(splices, from, done)
    requires from <= splices[0].start <= splices[0].end <= |o|
    ensures var x, y := done + o[from..splices[0].start], o[splices[0].end..];
            AllKept(y) && (x == [] || x[|x| - 1].Kept?)
  {}

  lemma ApartNext(splices: seq<Splice>, done: seq<Mark>)
    requires splices != [] && Apart(splices)
    ensures Apart(splices[1..]) && OpenEnd(splices[1..], splices[0].end, done)
  {}

  lemma InOrderHead(splices: seq<Splice>, from: nat, end: nat)
    requires splices != [] && InOrder(splices, from, end)
    ensures from <= splices[0].start <= splices[0].end && InOrder(splices[1..], splices[0].end, end)
  {}

  lemma {:induction false} SpreadHead(splices: seq<Splice>, from: nat, o: seq<Mark>)
    requires splices != [] && InOrder(splices, from, |o|)
    ensures from <= splices[0].start <= splices[0].end <= |o| && InOrder(splices[1..], splices[0].end, |o|)
    ensures Spread(splices, from, o)
         == o[from..splices[0].start] + FreshMarks(splices[0].text) + Spread(splices[1..], splices[0].end, o)
  {
    InOrderEnds(splices[1..], splices[0].end, |o|);
  }

  lemma ThreeSlices<T>(done: seq<T>, o: seq<T>, a: nat, b: nat, c: nat)
    requires a <= b <= c <= |o|
    ensures done + o[a..] == done + o[a..b] + o[b..c] + o[c..]
  {}

  lemma FourParts<T>(a: seq<T>, b: seq<T>, c: seq<T>, d: seq<T>)
    ensures a + (b + c + d) == a + b + c + d
  {}

  lemma FollowingEnds(splices: seq<Splice>, from: nat, o: seq<Mark>, done: seq<Mark>, all: seq<Mark>, change: int,
                      first: int, last: int, start: int, end: int, insertionsAfter: bool)
    requires splices == []
    requires Following(splices, from, o, done, all, change, first, last, start, end, insertionsAfter)
    ensures Holds(all, first, last, start, end) && (first == last ==> CaretOk(all, first, insertionsAfter))
  {
    hide Holds, CaretOk;
  }

  lemma NoMarksBefore(o: seq<Mark>)
    ensures [] + o == o && [] + o[0..] == o
  {}

  lemma FollowingStarts(splices: seq<Splice>, t: string, all: seq<Mark>, start: nat, end: nat, insertionsAfter: bool)
    requires InOrder(splices, 0, |t|) && Apart(splices)
    requires Spread(splices, 0, Marks(Untouched(t))) == all && start <= end <= |t|
    ensures Following(splices, 0, Marks(Untouched(t)), [], all, 0, start, end, start, end, insertionsAfter)
  {
    hide InOrder, Spread, Holds, Marks, Untouched, CaretOk, AllKept, Apart;
    var o := Marks(Untouched(t));
    StartHolds(t, start, end, insertionsAfter);
    NoMarksBefore(o);
    NoMarksBefore(all);
    MarksLength(Untouched(t));
  }

  // ---------- which of the new text is in the range

  // How much longer the text gets by the first `k` splices.
  ghost function LengthChangeBy(splices: seq<Splice>, k: nat): int
    requires k <= |splices|
  {
    if k == 0 then 0
    else LengthChangeBy(splices, k - 1) + |splices[k - 1].text| - (splices[k - 1].end - splices[k - 1].start)
  }

  // Where the text of a splice comes to stand.
  ghost function PlaceOf(splices: seq<Splice>, i: nat): int
    requires i < |splices|
  {
    splices[i].start + LengthChangeBy(splices, i)
  }

  // New text is in the range exactly if what it stands for was inside it.
  ghost predicate TextsIn(splices: seq<Splice>, k: nat, start: int, end: int, first: int, last: int)
    requires k <= |splices|
  {
    first < last ==> forall i :: 0 <= i < k ==>
      TextIn(PlaceOf(splices, i), PlaceOf(splices, i) + |splices[i].text|, first, last,
             Inside(splices[i].start, splices[i].end, start, end))
  }

  lemma {:induction false} PlacesInOrder(splices: seq<Splice>, i: nat, k: nat)
    requires i < k < |splices| && Apart(splices)
    requires forall j :: 0 <= j < |splices| ==> splices[j].start <= splices[j].end
    ensures PlaceOf(splices, i) + |splices[i].text| < PlaceOf(splices, k)
    decreases k - i
  {
    if i + 1 < k { PlacesInOrder(splices, i, k - 1); }
  }

  lemma {:induction false} OrderedSplices(splices: seq<Splice>, from: nat, end: nat)
    requires InOrder(splices, from, end)
    ensures forall j :: 0 <= j < |splices| ==> splices[j].start <= splices[j].end
    decreases |splices|
  {
    if splices != [] {
      OrderedSplices(splices[1..], splices[0].end, end);
      forall j | 0 < j < |splices| ensures splices[j].start <= splices[j].end {
        assert splices[j] == splices[1..][j - 1];
      }
    }
  }

  lemma TextsNext(splices: seq<Splice>, length: nat, k: nat, start: int, end: int, first: int, last: int, first': int,
      last': int)
    requires k < |splices| && InOrder(splices, 0, length) && Apart(splices)
    requires TextsIn(splices, k, start, end, first, last) && (first == last ==> first' == last') && first <= last
    requires first' <= last'
    requires first' < last' ==>
               && (forall l, h, inside :: l <= h < PlaceOf(splices, k) && TextIn(l, h, first, last, inside) ==>
                     TextIn(l, h, first', last', inside))
               && TextIn(PlaceOf(splices, k), PlaceOf(splices, k) + |splices[k].text|, first', last',
                         Inside(splices[k].start, splices[k].end, start, end))
    ensures TextsIn(splices, k + 1, start, end, first', last')
  {
    hide InOrder, TextIn, Inside, PlaceOf, Apart;
    OrderedSplices(splices, 0, length);
    forall i | 0 <= i < k ensures PlaceOf(splices, i) + |splices[i].text| < PlaceOf(splices, k) {
      PlacesInOrder(splices, i, k);
    }
  }

  // A border in the old text that is not yet changed, compared with an end of the range.
  lemma SameBorder(o: seq<Mark>, done: seq<Mark>, from: nat, b: nat, x: int, first: int)
    requires from <= b <= |o| && (b == from ==> from == 0 && done == []) && 0 <= x <= |o|
    requires forall q :: 0 <= q < |o| ==> o[q] == Kept(q)
    requires var cur := done + o[from..];
             && 0 <= first <= |cur|
             && forall q :: 0 <= q < |cur| && cur[q].Kept? ==> SameSide(cur[q].pos, x, q, first)
    ensures b <= x <==> b + |done| - from <= first
    ensures b < x <==> b + |done| - from < first
  {
    var cur := done + o[from..];
    if b < |o| { assert cur[b + |done| - from] == Kept(b); }
    if b > from { assert cur[b - 1 + |done| - from] == Kept(b - 1); }
  }

  lemma InsideSame(splices: seq<Splice>, from: nat, o: seq<Mark>, done: seq<Mark>, all: seq<Mark>, change: int,
                   first: int, last: int, start: int, end: int, insertionsAfter: bool, t: string)
    requires splices != [] && o == Marks(Untouched(t)) && 0 <= start <= end <= |o|
    requires Following(splices, from, o, done, all, change, first, last, start, end, insertionsAfter)
    ensures var s := splices[0];
            Inside(s.start + change, s.end + change, first, last) <==> Inside(s.start, s.end, start, end)
  {
    hide Spread, CaretOk, Apart;
    var s := splices[0];
    InOrderHead(splices, from, |o|);
    InOrderEnds(splices[1..], s.end, |o|);
    forall q | 0 <= q < |o| ensures o[q] == Kept(q) {}
    SameBorder(o, done, from, s.start, start, first);
    SameBorder(o, done, from, s.start, end, last);
    SameBorder(o, done, from, s.end, start, first);
    SameBorder(o, done, from, s.end, end, last);
  }

  lemma PlaceIs(splices: seq<Splice>, i: nat)
    requires i < |splices|
    ensures PlaceOf(splices, i) == splices[i].start + LengthChangeBy(splices, i)
  {}

  lemma NoTexts(splices: seq<Splice>, start: int, end: int, first: int, last: int)
    ensures TextsIn(splices, 0, start, end, first, last)
  {}

  // The new range is in order and inside the new text, and its two ends stand between the
  // old characters they stood between. A caret has all the text that was typed where it stood
  // behind it with `insertionsAfter`, and in front of it without; so has a range that
  // nothing is left of. What is left of a range has the new text in it that stands for old
  // text inside it, and no other: `made` are the splices of the changeset.
  method CharacterRangeFollow(cs: Changeset, startChar: int, endChar: int, insertionsAfter: bool, ghost t: string)
    returns (newStartChar: int, newEndChar: int, ghost made: seq<Splice>)
    requires IsFor(cs, t) && 0 <= startChar <= endChar <= |t|
    ensures 0 <= newStartChar <= newEndChar <= cs.newLen == |ViewOf(cs, t)|
    ensures forall q :: 0 <= q < |ViewOf(cs, t)| && ViewOf(cs, t)[q].Old? ==>
              && (ViewOf(cs, t)[q].pos < startChar <==> q < newStartChar)
              && (ViewOf(cs, t)[q].pos < endChar <==> q < newEndChar)
    ensures startChar == endChar ==> newStartChar == newEndChar
    ensures newStartChar == newEndChar && insertionsAfter ==>
              newStartChar == 0 || ViewOf(cs, t)[newStartChar - 1].Old?
    ensures newStartChar == newEndChar && !insertionsAfter ==>
              newStartChar == cs.newLen || ViewOf(cs, t)[newStartChar].Old?
    ensures InOrder(made, 0, |t|) && Apart(made) && Spread(made, 0, Marks(Untouched(t))) == Marks(ViewOf(cs, t))
    ensures TextsIn(made, |made|, startChar, endChar, newStartChar, newEndChar)
  {
    hide TextsIn, TextIn, Inside, PlaceOf;
    hide IsFor, Following, Followed, Spread, InOrder, Apart, Marks, Untouched, Fits, Apply, CarriedOver, CaretOver;
    newStartChar, newEndChar := startChar, endChar;
    var splices := ToSplices(cs, t);
    made := splices;
    ghost var o, all := Marks(Untouched(t)), Marks(ViewOf(cs, t));
    ghost var done: seq<Mark>, from: nat := [], 0;
    FollowingStarts(splices, t, all, startChar, endChar, insertionsAfter);
    var lengthChangeSoFar := 0;
    assert splices[0..] == splices;
    NoTexts(splices, startChar, endChar, startChar, endChar);
    for i := 0 to |splices|
      invariant Following(splices[i..], from, o, done, all, lengthChangeSoFar, newStartChar, newEndChar, startChar,
                          endChar, insertionsAfter)
      invariant startChar == endChar ==> newStartChar == newEndChar
      invariant lengthChangeSoFar == LengthChangeBy(splices, i)
      invariant TextsIn(splices, i, startChar, endChar, newStartChar, newEndChar)
    {
      var splice := splices[i];
      assert splices[i..][0] == splice && splices[i..][1..] == splices[i + 1..];
      FollowingHead(splices[i..], from, o, done, all, lengthChangeSoFar, newStartChar, newEndChar, startChar, endChar,
                    insertionsAfter);
      var spliceStart := splice.start + lengthChangeSoFar;
      var spliceEnd := splice.end + lengthChangeSoFar;
      var newTextLength := |splice.text|;
      ghost var first, last := newStartChar, newEndChar;
      InsideSame(splices[i..], from, o, done, all, lengthChangeSoFar, first, last, startChar, endChar,
                 insertionsAfter, t);
      PlaceIs(splices, i);
      newStartChar, newEndChar := FollowSplice(newStartChar, newEndChar, spliceStart, spliceEnd, newTextLength,
                                               insertionsAfter, |o| + lengthChangeSoFar);
      FollowingNext(splices[i..], from, o, done, all, lengthChangeSoFar, first, last, startChar, endChar, newStartChar,
                    newEndChar, insertionsAfter);
      TextsNext(splices, |t|, i, startChar, endChar, first, last, newStartChar, newEndChar);
      done := done + o[from..splice.start] + FreshMarks(splice.text);
      from := splice.end;
      lengthChangeSoFar := lengthChangeSoFar + (newTextLength - (spliceEnd - spliceStart));
    }
    FollowingEnds(splices[|splices|..], from, o, done, all, lengthChangeSoFar, newStartChar, newEndChar, startChar,
                  endChar, insertionsAfter);
    HoldsOnView(cs, t, newStartChar, newEndChar, startChar, endChar, insertionsAfter);
  }

  lemma HoldsOnView(cs: Changeset, t: string, first: int, last: int, start: int, end: int, insertionsAfter: bool)
    requires IsFor(cs, t) && Holds(Marks(ViewOf(cs, t)), first, last, start, end)
    requires first == last ==> CaretOk(Marks(ViewOf(cs, t)), first, insertionsAfter)
    ensures 0 <= first <= last <= cs.newLen == |ViewOf(cs, t)|
    ensures forall q :: 0 <= q < |ViewOf(cs, t)| && ViewOf(cs, t)[q].Old? ==>
              && (ViewOf(cs, t)[q].pos < start <==> q < first) && (ViewOf(cs, t)[q].pos < end <==> q < last)
    ensures first == last && insertionsAfter ==> first == 0 || ViewOf(cs, t)[first - 1].Old?
    ensures first == last && !insertionsAfter ==> first == cs.newLen || ViewOf(cs, t)[first].Old?
  {
    hide Fits, Apply, Normal, Safe, Text, Untouched, ApplyText;
    var v := ViewOf(cs, t);
    TextOfUntouched(t);
    OnDocument(cs, t, Untouched(t));
    MarksLength(v);
    forall q | 0 <= q < |v| && v[q].Old? ensures (v[q].pos < start <==> q < first) && (v[q].pos < end <==> q < last) {
      assert Marks(v)[q] == MarkOf(v[q]);
    }
  }
}
