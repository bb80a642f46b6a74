/** The editor takes over lines from the page: `doIncorpLineSplice`. */
module LineSplices {
  import opened Attributes
  import opened AttributeMerging
  import opened Changesets
  import opened Composition
  import opened Following
  import opened NormalForm
  import opened Views
  import opened Algebra
  import opened Laws
  import opened Zipping
  import opened Engine
  import opened SmartAssembler
  import opened Building
  import opened Covering
  import opened Inversion
  import opened Inverting
  import opened DocLines
  import opened LineMutation
  import opened TextLines
  import opened SettingText
  import opened Splicing
  import opened Cleaning
  import opened LineDiff

  // ---------- offsets and lines

  function OffsetOfIndex(lines: seq<string>, i: nat): nat
    requires i <= |lines|
  {
    |Flat(lines[..i])|
  }

  // The last line that starts at or before the offset.
  function IndexOfOffset(lines: seq<string>, offset: nat): (i: nat)
    ensures i <= |lines|
  {
    if lines == [] || offset < |lines[0]| then 0 else 1 + IndexOfOffset(lines[1..], offset - |lines[0]|)
  }

  // `line` lines end in front of `lineStart`, and none between it and `offset`.
  ghost predicate Position(t: string, offset: nat, line: nat, lineStart: nat) {
    lineStart <= offset <= |t| && LinesTrue(line, t[..lineStart]) && Newlines(t[lineStart..offset]) == 0
  }

  lemma {:induction false} OffsetPosition(lines: seq<string>, offset: nat)
    requires LinesOk(lines) && offset <= |Flat(lines)|
    ensures var i := IndexOfOffset(lines, offset); Position(Flat(lines), offset, i, OffsetOfIndex(lines, i))
  {
    hide LineOk, Newlines, LinesTrue;
    NoLinesBefore(lines);
    CountsNone();
    if lines != [] {
      var rest := lines[1..];
      FlatHeadIs(lines);
      LineCounts(lines[0]);
      if offset < |lines[0]| {
        PlainPrefix(lines[0], Flat(rest), offset);
      } else {
        OffsetPosition(rest, offset - |lines[0]|);
        var i := IndexOfOffset(rest, offset - |lines[0]|);
        NoLinesBefore(rest);
        OneLineMore(lines, i);
        PastFirst(lines[0], Flat(rest), OffsetOfIndex(rest, i), offset - |lines[0]|);
        LinesTrueFront(lines[0], Flat(rest)[..OffsetOfIndex(rest, i)], i);
      }
    } else {
      assert Flat(lines)[0..0] == "";
      NewlinesNone();
    }
  }

  lemma NewlinesNone()
    ensures Newlines("") == 0
  {}

  lemma NoLinesBefore(lines: seq<string>)
    ensures OffsetOfIndex(lines, 0) == 0 && Flat(lines)[..0] == ""
  {}

  lemma PlainPrefix(line: string, rest: string, offset: nat)
    requires LineOk(line) && offset < |line|
    ensures Newlines((line + rest)[0..offset]) == 0
  {
    assert (line + rest)[0..offset] == line[..offset];
    NewlinesSplit(line, offset);
    CountTail(line, offset);
  }

  lemma CountTail(line: string, k: nat)
    requires k < |line| && line[|line| - 1] == '\n'
    ensures Newlines(line[k..]) >= 1
    decreases |line| - k
  {
    if k + 1 < |line| {
      CountTail(line, k + 1);
      assert line[k..][1..] == line[k + 1..];
    }
  }

  lemma OneLineMore(lines: seq<string>, i: nat)
    requires lines != [] && i <= |lines| - 1
    ensures OffsetOfIndex(lines, i + 1) == |lines[0]| + OffsetOfIndex(lines[1..], i)
  {
    assert lines[..i + 1][1..] == lines[1..][..i] && lines[..i + 1][0] == lines[0];
  }

  lemma PastFirst(x: string, y: string, a: nat, b: nat)
    requires a <= b <= |y|
    ensures (x + y)[..|x| + a] == x + y[..a] && (x + y)[|x| + a..|x| + b] == y[a..b]
  {}

  // ---------- what becomes of the text

  // The place of the splice in the whole text, the text put there, the characters at the end
  // of the new lines that are not part of it, and whether it is typed in front of the final
  // newline with a newline in front instead of behind.
  datatype Plan = Plan(spliceStart: int, spliceEnd: int, inserted: string, commonEnd: int, shift: bool)

  function FirstPlan(startOldChar: nat, endOldChar: nat, oldText: string, newText: string, commonStart: nat,
      commonEnd: nat): Plan
    requires commonStart + commonEnd <= |oldText| && commonStart + commonEnd <= |newText|
  {
    var shortOldText := oldText[commonStart..|oldText| - commonEnd];
    var shortNewText := newText[commonStart..|newText| - commonEnd];
    var spliceStart, spliceEnd := startOldChar + commonStart, endOldChar - commonEnd;
    if shortOldText != "" && shortOldText[|shortOldText| - 1] == '\n' && shortNewText != ""
        && shortNewText[|shortNewText| - 1] == '\n' then
      Plan(spliceStart, spliceEnd - 1, shortNewText[..|shortNewText| - 1], commonEnd + 1, false)
    else Plan(spliceStart, spliceEnd, shortNewText, commonEnd, false)
  }

  // The final newline of the document is left alone.
  function Spared(p: Plan, allText: string): Plan {
    var p1 :=
      if p.spliceStart == p.spliceEnd && p.spliceStart == |allText| && |p.inserted| > 0 then
        Plan(p.spliceStart - 1, p.spliceEnd - 1, "\n" + p.inserted[..|p.inserted| - 1], p.commonEnd, true)
      else p;
    if p.spliceEnd == |allText| && p.spliceStart < p.spliceEnd && p1.inserted == ""
       && 0 < p1.spliceStart <= |allText| && allText[p1.spliceStart - 1] == '\n' then
      p1.(spliceStart := p1.spliceStart - 1, spliceEnd := p1.spliceEnd - 1)
    else p1
  }

  // A document and the lines `old_` in it, for which `new_` come.
  ghost predicate InDocument(all: string, before: string, old_: string, new_: string, after: string) {
    && all == before + old_ + after && all != "" && before + new_ + after != ""
    && EndsInNewline(before) && EndsInNewline(old_) && EndsInNewline(new_) && EndsInNewline(after)
  }

  ghost predicate PlanOk(p: Plan, all: string, result: string) {
    && 0 <= p.spliceStart <= p.spliceEnd <= |all|
    && all[..p.spliceStart] + p.inserted + all[p.spliceEnd..] == result
    && (p.spliceStart < p.spliceEnd || p.inserted != "" ==> p.spliceEnd < |all|)
  }

  lemma ReplacedBounds(x: string, y: string, s: int, e: int)
    requires MiddleReplaced(x, y, s, e)
    ensures 0 <= s && 0 <= e && s + e <= |x| && s + e <= |y|
  {}

  lemma SameEnds(before: string, old_: string, new_: string, after: string, s: nat, e: nat)
    requires MiddleReplaced(old_, new_, s, e)
    ensures var all := before + old_ + after;
            && all[..|before| + s] == before + new_[..s]
            && all[|before| + |old_| - e..] == new_[|new_| - e..] + after
            && all[..|before| + s] + new_[s..|new_| - e] + all[|before| + |old_| - e..] == before + new_ + after
  {
    hide MiddleReplaced;
    ReplacedBounds(old_, new_, s, e);
    FrontOf(before, old_, after, s);
    BackOf(before, old_, after, e);
    SameMiddle(old_, new_, s, e);
    InMiddle(before, new_, after, s, e);
  }

  lemma FrontOf<T>(x: seq<T>, y: seq<T>, z: seq<T>, s: nat)
    requires s <= |y|
    ensures (x + y + z)[..|x| + s] == x + y[..s]
  {}

  lemma BackOf<T>(x: seq<T>, y: seq<T>, z: seq<T>, e: nat)
    requires e <= |y|
    ensures (x + y + z)[|x| + |y| - e..] == y[|y| - e..] + z
  {}

  lemma SameMiddle(x: string, y: string, s: nat, e: nat)
    requires MiddleReplaced(x, y, s, e)
    ensures s <= |x| && e <= |x| && x[..s] == y[..s] && x[|x| - e..] == y[|y| - e..]
  {}

  lemma InMiddle<T>(x: seq<T>, y: seq<T>, z: seq<T>, s: nat, e: nat)
    requires s + e <= |y|
    ensures (x + y[..s]) + y[s..|y| - e] + (y[|y| - e..] + z) == x + y + z
  {
    assert y == y[..s] + y[s..|y| - e] + y[|y| - e..];
  }

  lemma FirstPlanIsRight(all: string, before: string, old_: string, new_: string, after: string, s: nat, e: nat)
    requires all == before + old_ + after && MiddleReplaced(old_, new_, s, e)
    ensures var p := FirstPlan(|before|, |before| + |old_|, old_, new_, s, e);
            && 0 <= p.spliceStart <= p.spliceEnd <= |all| && p.spliceStart == |before| + s
            && p.spliceEnd == |before| + |old_| - p.commonEnd
            && 0 <= p.commonEnd && s + p.commonEnd <= |old_| && s + p.commonEnd <= |new_|
            && MiddleReplaced(old_, new_, s, p.commonEnd) && p.inserted == new_[s..|new_| - p.commonEnd] && !p.shift
            && p.commonEnd >= e
  {
    var p := FirstPlan(|before|, |before| + |old_|, old_, new_, s, e);
    if p.commonEnd != e {
      MoreAtEnd(old_, new_, e);
      var shortNewText := new_[s..|new_| - e];
      assert shortNewText[..|shortNewText| - 1] == new_[s..|new_| - e - 1];
    }
  }

  lemma MoreAtEnd(x: string, y: string, e: nat)
    requires e < |x| && e < |y| && x[|x| - e..] == y[|y| - e..] && x[|x| - 1 - e] == y[|y| - 1 - e]
    ensures x[|x| - (e + 1)..] == y[|y| - (e + 1)..]
  {
    OneCharMore(x, e + 1);
    OneCharMore(y, e + 1);
  }

  // Typed behind the final newline, and in front of it.
  lemma SparedInsertion(p: Plan, all: string, result: string)
    requires all != "" && all[|all| - 1] == '\n' && p.inserted != "" && p.inserted[|p.inserted| - 1] == '\n'
    requires p.spliceStart == p.spliceEnd == |all| && all[..p.spliceStart] + p.inserted + all[p.spliceEnd..] == result
    ensures PlanOk(Spared(p, all), all, result) && Spared(p, all).shift
  {
    var x := p.inserted;
    assert x == x[..|x| - 1] + "\n" && all == all[..|all| - 1] + "\n";
    assert all[..|all| - 1] + ("\n" + x[..|x| - 1]) + all[|all| - 1..] == all[..|all|] + x + all[|all|..];
  }

  lemma SparedDeletion(p: Plan, all: string, result: string)
    requires all != "" && all[|all| - 1] == '\n' && p.inserted == "" && 0 < p.spliceStart < p.spliceEnd == |all|
    requires all[p.spliceStart - 1] == '\n' && all[..p.spliceStart] + p.inserted + all[p.spliceEnd..] == result
    ensures PlanOk(Spared(p, all), all, result) && !p.shift ==> !Spared(p, all).shift
    ensures PlanOk(Spared(p, all), all, result)
  {
    var k := p.spliceStart;
    assert all[..k] == all[..k - 1] + "\n" && all[|all| - 1..] == "\n";
    assert all[..k - 1] + "" + all[|all| - 1..] == all[..k] + "" + all[|all|..];
  }

  lemma SparedNothing(p: Plan, all: string, result: string)
    requires 0 <= p.spliceStart <= p.spliceEnd <= |all|
        && all[..p.spliceStart] + p.inserted + all[p.spliceEnd..] == result
    requires p.spliceEnd < |all| || (p.spliceStart == p.spliceEnd && p.inserted == "")
    ensures PlanOk(Spared(p, all), all, result) && Spared(p, all) == p
  {}

  // Where a plan reaches to the end of the document, one of the two texts is used up.
  lemma ReachesEnd(all: string, before: string, old_: string, new_: string, after: string, s: nat, e: nat)
    requires InDocument(all, before, old_, new_, after) && MiddleReplaced(old_, new_, s, e)
    requires (e == 0 ==> s == |old_| || s == |new_|) && |before| + |old_| - e == |all|
    ensures all[|all| - 1] == '\n' && e == 0
    ensures s == |old_| && s < |new_| ==> new_[s..][|new_| - s - 1] == '\n'
    ensures s < |old_| ==> s == |new_| && |before| + s > 0 && all[|before| + s - 1] == '\n'
  {
    if s < |old_| {
      var k := |before| + s;
      assert all[..k] == before + new_;
      assert (before + new_)[k - 1] == all[k - 1];
    }
  }

  // The plan makes the document with the new lines of the one with the old ones, and leaves
  // its last character out.
  lemma PlanIsRight(all: string, before: string, old_: string, new_: string, after: string, s: nat, e: nat)
    requires InDocument(all, before, old_, new_, after) && MiddleReplaced(old_, new_, s, e)
    requires e == 0 ==> s == |old_| || s == |new_|
    ensures var p := Spared(FirstPlan(|before|, |before| + |old_|, old_, new_, s, e), all);
            PlanOk(p, all, before + new_ + after)
  {
    hide Spared, PlanOk, FirstPlan, InDocument, MiddleReplaced;
    PlannedFirst(all, before, old_, new_, after, s, e);
    var q := FirstPlan(|before|, |before| + |old_|, old_, new_, s, e);
    if q.spliceEnd == |all| {
      ReachesEnd(all, before, old_, new_, after, s, q.commonEnd);
      if q.inserted == "" {
        if q.spliceStart < q.spliceEnd {
          SparedDeletion(q, all, before + new_ + after);
        } else {
          SparedNothing(q, all, before + new_ + after);
        }
      } else {
        SparedInsertion(q, all, before + new_ + after);
      }
    } else {
      SparedNothing(q, all, before + new_ + after);
    }
  }

  // A stretch of both texts ends in a newline, which is then left alone as well.
  ghost predicate NewlineStays(oldText: string, newText: string, s: nat, e: nat) {
    && s + e < |oldText| && s + e < |newText|
    && oldText[|oldText| - e - 1] == '\n' && newText[|newText| - e - 1] == '\n'
  }

  // What is replaced: the old lines but for the `s` and `e` characters left alone. What would
  // reach to the end of the document is moved to in front of the final newline.
  ghost predicate PlanReplaces(all: string, at: nat, oldText: string, newText: string, s: nat, e: nat, p: Plan) {
    var x := if NewlineStays(oldText, newText, s, e) then e + 1 else e;
    var moved := at + |oldText| - x == |all| && (s + x < |oldText| || s + x < |newText|);
    && s + x <= |oldText| && s + x <= |newText| && p.commonEnd == x
    && p.spliceStart == at + s - (if moved then 1 else 0)
    && p.spliceEnd == at + |oldText| - x - (if moved then 1 else 0)
    && (p.shift <==> moved && s + x < |newText|)
    && p.inserted == if p.shift then "\n" + newText[s..|newText| - x - 1] else newText[s..|newText| - x]
  }

  lemma WhatIsReplaced(all: string, before: string, old_: string, new_: string, after: string, s: nat, e: nat, p: Plan)
    requires InDocument(all, before, old_, new_, after) && MiddleReplaced(old_, new_, s, e)
    requires e == 0 ==> s == |old_| || s == |new_|
    ensures PlanReplaces(all, |before|, old_, new_, s, e, p)
       <==> p == Spared(FirstPlan(|before|, |before| + |old_|, old_, new_, s, e), all)
  {
    hide InDocument, MiddleReplaced, PlanReplaces, Spared, FirstPlan;
    ReplacedBounds(old_, new_, s, e);
    PlannedFirst(all, before, old_, new_, after, s, e);
    var q := FirstPlan(|before|, |before| + |old_|, old_, new_, s, e);
    if q.spliceEnd == |all| { ReachesEnd(all, before, old_, new_, after, s, q.commonEnd); }
    ReplacedFirst(all, |before|, old_, new_, s, e, p);
  }

  lemma ReplacedFirst(all: string, at: nat, old_: string, new_: string, s: nat, e: nat, p: Plan)
    requires s + e <= |old_| && s + e <= |new_|
    requires var q := FirstPlan(at, at + |old_|, old_, new_, s, e);
             q.spliceEnd == |all| ==>
                if q.inserted != "" then q.spliceStart == q.spliceEnd
                else q.spliceStart < q.spliceEnd ==> q.spliceStart > 0 && all[q.spliceStart - 1] == '\n'
    ensures PlanReplaces(all, at, old_, new_, s, e, p)
       <==> p == Spared(FirstPlan(at, at + |old_|, old_, new_, s, e), all)
  {
    var q := FirstPlan(at, at + |old_|, old_, new_, s, e);
    assert q.inserted == new_[s..|new_| - q.commonEnd];
  }

  lemma DocumentIs(all: string, before: string, old_: string, new_: string, after: string)
    requires InDocument(all, before, old_, new_, after)
    ensures all == before + old_ + after && all != ""
  {}

  lemma PlannedFirst(all: string, before: string, old_: string, new_: string, after: string, s: nat, e: nat)
    requires InDocument(all, before, old_, new_, after) && MiddleReplaced(old_, new_, s, e)
    requires e == 0 ==> s == |old_| || s == |new_|
    ensures s + e <= |old_| && s + e <= |new_| && all == before + old_ + after && all != ""
    ensures var p := FirstPlan(|before|, |before| + |old_|, old_, new_, s, e);
            && 0 <= p.spliceStart <= p.spliceEnd <= |all| && p.spliceStart == |before| + s
            && p.spliceEnd == |before| + |old_| - p.commonEnd
            && 0 <= p.commonEnd && MiddleReplaced(old_, new_, s, p.commonEnd) && s + p.commonEnd <= |new_|
            && p.inserted == new_[s..|new_| - p.commonEnd] && !p.shift
            && (p.commonEnd == 0 ==> s == |old_| || s == |new_|)
            && all[..p.spliceStart] + p.inserted + all[p.spliceEnd..] == before + new_ + after
            && (p.spliceEnd == |all| ==> p.commonEnd == 0)
  {
    hide FirstPlan, MiddleReplaced, EndsInNewline, InDocument;
    DocumentIs(all, before, old_, new_, after);
    ReplacedBounds(old_, new_, s, e);
    FirstPlanIsRight(all, before, old_, new_, after, s, e);
    var q := FirstPlan(|before|, |before| + |old_|, old_, new_, s, e);
    SameEnds(before, old_, new_, after, s, q.commonEnd);
  }

  // ---------- stretches of the new text with their attributes

  datatype AttribRun = AttribRun(start: int, end: int, attribs: Attribs)

  // The runs stand one behind the other, from `lo` to `hi`.
  ghost predicate Contiguous(runs: seq<AttribRun>, lo: int, hi: int) {
    if runs == [] then lo == hi
    else
      var r := runs[|runs| - 1];
      r.end == hi && r.start <= r.end && Contiguous(runs[..|runs| - 1], lo, r.start)
  }

  predicate InRun(runs: seq<AttribRun>, j: nat, k: int) { j < |runs| && runs[j].start <= k < runs[j].end }

  // The runs have the attributes that `ops` give the characters.
  ghost predicate Tell(runs: seq<AttribRun>, ops: seq<Op>)
    requires AreAttribs(ops)
  {
    forall j: nat, k: int :: InRun(runs, j, k) ==> 0 <= k < Total(ops) && AttribsAt(ops, k) == runs[j].attribs
  }

  function Clamped(x: int, lo: int, hi: int): int { if x < lo then lo else if x > hi then hi else x }

  lemma NextRun(runs: seq<AttribRun>, ops: seq<Op>, i: nat, lo: int, hi: int)
    requires AreAttribs(ops) && i < |ops| && lo <= hi
    requires var at := Total(ops[..i]); Contiguous(runs, lo, Clamped(at, lo, hi)) && Tell(runs, ops)
    ensures var at, next := Total(ops[..i]), Total(ops[..i]) + ops[i].chars;
            var r := AttribRun(Clamped(at, lo, hi), Clamped(next, lo, hi), ops[i].attribs);
            if next <= lo || at >= hi then Contiguous(runs, lo, Clamped(next, lo, hi))
            else Contiguous(runs + [r], lo, Clamped(next, lo, hi)) && Tell(runs + [r], ops)
  {
    hide Total, Tell, Contiguous;
    var at, next := Total(ops[..i]), Total(ops[..i]) + ops[i].chars;
    if !(next <= lo || at >= hi) {
      var r := AttribRun(Clamped(at, lo, hi), Clamped(next, lo, hi), ops[i].attribs);
      ContiguousMore(runs, lo, r);
      TellMore(runs, ops, i, r);
    }
  }

  lemma ContiguousMore(runs: seq<AttribRun>, lo: int, r: AttribRun)
    requires Contiguous(runs, lo, r.start) && r.start <= r.end
    ensures Contiguous(runs + [r], lo, r.end)
  {
    assert (runs + [r])[..|runs|] == runs;
  }

  lemma TellMore(runs: seq<AttribRun>, ops: seq<Op>, i: nat, r: AttribRun)
    requires AreAttribs(ops) && i < |ops| && Tell(runs, ops)
    requires Total(ops[..i]) <= r.start && r.end <= Total(ops[..i]) + ops[i].chars && r.attribs == ops[i].attribs
    ensures Tell(runs + [r], ops)
  {
    hide Total, AttribsAt;
    forall j: nat, k: int | InRun(runs + [r], j, k) ensures 0 <= k < Total(ops)
        && AttribsAt(ops, k) == (runs + [r])[j].attribs {
      if j < |runs| { assert InRun(runs, j, k); } else { AttribsInside(ops, i, k - Total(ops[..i])); }
    }
  }

  // Only where there is no text at all can there be a run without text, and one at most.
  ghost predicate SomeText(runs: seq<AttribRun>, lo: int, hi: int) {
    if lo < hi then forall j :: 0 <= j < |runs| ==> runs[j].start < runs[j].end else |runs| <= 1
  }

  lemma OpHasText(ops: seq<Op>, i: nat)
    requires AreAttribs(ops) && i < |ops|
    ensures 0 < ops[i].chars
  {}

  // What the callback is called with.
  method EachAttribRun(attribs: seq<Op>, newTextStart: nat, newTextEnd: nat) returns (runs: seq<AttribRun>)
    requires AreAttribs(attribs) && newTextStart <= newTextEnd <= Total(attribs)
    ensures Contiguous(runs, newTextStart, newTextEnd) && Tell(runs, attribs)
    ensures SomeText(runs, newTextStart, newTextEnd)
  {
    hide Total, AttribsAt, Contiguous, Tell;
    runs := [];
    var i, textIndex := 0, 0;
    NoRuns(attribs, newTextStart);
    while i < |attribs|
      invariant i <= |attribs| && textIndex == Total(attribs[..i])
      invariant Contiguous(runs, newTextStart, Clamped(textIndex, newTextStart, newTextEnd)) && Tell(runs, attribs)
      invariant SomeText(runs, newTextStart, newTextEnd) && (runs != [] ==> newTextStart < textIndex)
    {
      var op := attribs[i];
      var nextIndex := textIndex + op.chars;
      OpHasText(attribs, i);
      NextRun(runs, attribs, i, newTextStart, newTextEnd);
      OneMore(attribs, i);
      if !(nextIndex <= newTextStart || textIndex >= newTextEnd) {
        runs := runs + [AttribRun(if newTextStart > textIndex then newTextStart else textIndex,
                                  if newTextEnd < nextIndex then newTextEnd else nextIndex, op.attribs)];
      }
      textIndex := nextIndex;
      i := i + 1;
    }
    assert attribs[..|attribs|] == attribs;
  }

  lemma NoRuns(ops: seq<Op>, lo: nat)
    requires AreAttribs(ops)
    ensures Contiguous([], lo, lo) && Tell([], ops) && Total(ops[..0]) == 0
  {}

  ghost predicate RunsIn(runs: seq<AttribRun>, text: string) {
    forall j :: 0 <= j < |runs| ==> 0 <= runs[j].start <= runs[j].end <= |text|
  }

  lemma {:induction false} ContiguousIn(runs: seq<AttribRun>, lo: nat, hi: int, text: string)
    requires Contiguous(runs, lo, hi) && hi <= |text|
    ensures lo <= hi && RunsIn(runs, text) && forall j :: 0 <= j < |runs| ==> lo <= runs[j].start && runs[j].end <= hi
  {
    if runs != [] { ContiguousIn(runs[..|runs| - 1], lo, runs[|runs| - 1].start, text); }
  }

  // ---------- ops for runs

  ghost function RunOps(opcode: Opcode, runs: seq<AttribRun>, text: string): seq<Op>
    requires RunsIn(runs, text)
  {
    if runs == [] then []
    else
      var r := runs[|runs| - 1];
      RunOps(opcode, runs[..|runs| - 1], text) + TextOps(opcode, text[r.start..r.end], r.attribs)
  }

  ghost function RunDoc(runs: seq<AttribRun>, text: string): Doc
    requires RunsIn(runs, text)
  {
    if runs == [] then []
    else
      var r := runs[|runs| - 1];
      RunDoc(runs[..|runs| - 1], text) + Typed(text[r.start..r.end], r.attribs)
  }

  lemma {:induction false} TypedRuns(runs: seq<AttribRun>, text: string, lo: nat, hi: int)
    requires Contiguous(runs, lo, hi) && hi <= |text| && RunsIn(runs, text)
    ensures 0 <= lo <= hi && Effect(RunOps(Insert, runs, text), text[lo..hi], [], RunDoc(runs, text))
    decreases |runs|
  {
    hide Effect, TextOps, Typed;
    ContiguousIn(runs, lo, hi, text);
    if runs == [] {
      EffectNone();
      assert text[lo..lo] == "";
    } else {
      var n := |runs| - 1;
      var r := runs[n];
      TypedRuns(runs[..n], text, lo, r.start);
      var part := text[r.start..r.end];
      StretchTyped(part, r.attribs);
      EffectOf(Insert, part, r.attribs, part, []);
      EffectConcat(RunOps(Insert, runs[..n], text), text[lo..r.start], [], RunDoc(runs[..n], text),
                   TextOps(Insert, part, r.attribs), part, [], Typed(part, r.attribs));
      TwoSlices(text, lo, r.start, hi);
      NothingTwiceOver();
    }
  }

  lemma StretchTyped(text: string, a: Attribs)
    ensures StretchOf(Insert, text, a, text, [])
  {}

  lemma TwoSlices<T>(s: seq<T>, a: nat, b: nat, c: nat)
    requires a <= b <= c <= |s|
    ensures s[a..b] + s[b..c] == s[a..c]
  {}

  lemma LastIn(runs: seq<AttribRun>, text: string)
    requires runs != [] && RunsIn(runs, text)
    ensures var r := runs[|runs| - 1]; 0 <= r.start <= r.end <= |text| && RunsIn(runs[..|runs| - 1], text)
  {}

  // Character by character.
  lemma {:induction false} RunDocAt(runs: seq<AttribRun>, text: string, lo: nat, hi: int, k: int) returns (j: nat)
    requires Contiguous(runs, lo, hi) && hi <= |text| && RunsIn(runs, text) && lo <= k < hi
    ensures InRun(runs, j, k) && |RunDoc(runs, text)| == hi - lo
        && RunDoc(runs, text)[k - lo] == New(text[k], runs[j].attribs)
    decreases |runs|
  {
    hide Typed, RunsIn;
    var n := |runs| - 1;
    var r := runs[n];
    LastIn(runs, text);
    RunDocLength(runs[..n], text, lo, r.start);
    TypedCell(text[r.start..r.end], r.attribs);
    if k >= r.start {
      j := n;
    } else {
      j := RunDocAt(runs[..n], text, lo, r.start, k);
    }
  }

  lemma TypedCell(text: string, a: Attribs)
    ensures |Typed(text, a)| == |text| && forall i :: 0 <= i < |text| ==> Typed(text, a)[i] == New(text[i], a)
  {}

  lemma {:induction false} RunDocLength(runs: seq<AttribRun>, text: string, lo: nat, hi: int)
    requires Contiguous(runs, lo, hi) && hi <= |text| && RunsIn(runs, text)
    ensures lo <= hi && |RunDoc(runs, text)| == hi - lo
    decreases |runs|
  {
    ContiguousIn(runs, lo, hi, text);
    if runs != [] { RunDocLength(runs[..|runs| - 1], text, lo, runs[|runs| - 1].start); }
  }

  // ---------- up to the splice, and over what is removed

  ghost function KeepTo(offset: int, line: int, lineStart: int): seq<Op> {
    Counted(Op(Keep, lineStart, line, [])) + Counted(Op(Keep, offset - lineStart, 0, []))
  }

  lemma KeepToEffect(g: Doc, t: string, offset: nat, line: nat, lineStart: nat)
    requires Text(g) == t && Position(t, offset, line, lineStart)
    ensures offset <= |g| && Effect(KeepTo(offset, line, lineStart), "", g[..offset], g[..offset])
  {
    hide Effect, LinesTrue, Newlines, Counted, Text;
    TakenText(g, t, 0, lineStart);
    TakenText(g, t, lineStart, offset);
    PlainStretch(t[lineStart..offset]);
    StretchEffect(Keep, line, g[..lineStart]);
    StretchEffect(Keep, 0, g[lineStart..offset]);
    StyleNothing(g[..lineStart]);
    StyleNothing(g[lineStart..offset]);
    EffectConcat(Counted(Op(Keep, lineStart, line, [])), "", g[..lineStart], g[..lineStart],
                 Counted(Op(Keep, offset - lineStart, 0, [])), "", g[lineStart..offset], g[lineStart..offset]);
    FrontInTwo(g, lineStart, offset);
  }

  lemma FrontInTwo<T>(s: seq<T>, a: nat, b: nat)
    requires a <= b <= |s|
    ensures s[..a] + s[a..b] == s[..b] && "" + "" == "" && s[0..a] == s[..a]
  {}

  lemma TakenText(g: Doc, t: string, a: nat, b: nat)
    requires Text(g) == t && a <= b <= |t|
    ensures b <= |g| && Text(g[a..b]) == t[a..b] && |g[a..b]| == b - a && g[0..b] == g[..b] && t[0..b] == t[..b]
        && |g| == |t|
  {}

  // One op over a stretch of the document.
  lemma StretchEffect(opcode: Opcode, n: int, d: Doc)
    requires (opcode == Keep || opcode == Delete) && LinesTrue(n, Text(d))
    ensures Effect(Counted(Op(opcode, |d|, n, [])), "", d, if opcode == Keep then Restyle(d, []) else [])
  {
    hide Covers, Apply, LinesTrue, Counted;
    assert |Text(d)| == |d|;
    OneStretch(opcode, Text(d), n, [], "", d);
  }

  ghost function RemoveOps(p: Plan, line1: int, line2: int, lineStart2: int): seq<Op> {
    if lineStart2 > p.spliceStart then
      Counted(Op(Delete, lineStart2 - p.spliceStart, line2 - line1, []))
          + Counted(Op(Delete, p.spliceEnd - lineStart2, 0, []))
    else Counted(Op(Delete, p.spliceEnd - p.spliceStart, 0, []))
  }

  lemma LinesBetween(t: string, a: nat, line1: nat, start1: nat, b: nat, line2: nat, start2: nat)
    requires a <= b && Position(t, a, line1, start1) && Position(t, b, line2, start2)
    ensures start2 > a ==> LinesTrue(line2 - line1, t[a..start2])
    ensures start2 <= a ==> Newlines(t[a..b]) == 0
  {
    hide Newlines;
    NewlinesSplit(t[..a], start1);
    assert t[..a][..start1] == t[..start1] && t[..a][start1..] == t[start1..a];
    if start2 > a {
      NewlinesSplit(t[..start2], a);
      assert t[..start2][..a] == t[..a] && t[..start2][a..] == t[a..start2];
      assert t[a..start2][start2 - a - 1] == t[..start2][start2 - 1];
      SomeNewline(t[..start2]);
    } else {
      NewlinesSplit(t[start2..b], a - start2);
      assert t[start2..b][a - start2..] == t[a..b];
    }
  }

  lemma SomeNewline(s: string)
    ensures Newlines(s) >= 0
  {}

  lemma RemoveEffect(g: Doc, t: string, p: Plan, line1: nat, start1: nat, line2: nat, start2: nat)
    requires Text(g) == t && 0 <= p.spliceStart <= p.spliceEnd
    requires Position(t, p.spliceStart, line1, start1) && Position(t, p.spliceEnd, line2, start2)
    ensures p.spliceEnd <= |g| && Effect(RemoveOps(p, line1, line2, start2), "", g[p.spliceStart..p.spliceEnd], [])
  {
    hide Effect, LinesTrue, Newlines, Counted, Text;
    var a, b := p.spliceStart, p.spliceEnd;
    LinesBetween(t, a, line1, start1, b, line2, start2);
    if start2 > a {
      TakenText(g, t, a, start2);
      TakenText(g, t, start2, b);
      PlainStretch(t[start2..b]);
      StretchEffect(Delete, line2 - line1, g[a..start2]);
      StretchEffect(Delete, 0, g[start2..b]);
      EffectConcat(Counted(Op(Delete, start2 - a, line2 - line1, [])), "", g[a..start2], [],
                   Counted(Op(Delete, b - start2, 0, [])), "", g[start2..b], []);
      TwoSlices(g, a, start2, b);
      NothingTwiceOver();
      FrontInTwo(g, a, a);
    } else {
      TakenText(g, t, a, b);
      PlainStretch(t[a..b]);
      StretchEffect(Delete, 0, g[a..b]);
    }
  }

  // ---------- the changeset that puts the new text in

  ghost function NewlineOps(p: Plan, a: Attribs): seq<Op> { if p.shift then TextOps(Insert, "\n", a) else [] }

  ghost function NewlineDoc(p: Plan, a: Attribs): Doc { if p.shift then Typed("\n", a) else [] }

  ghost function NewlineText(p: Plan): string { if p.shift then "\n" else "" }

  lemma NewlineEffect(p: Plan, a: Attribs)
    ensures Effect(NewlineOps(p, a), NewlineText(p), [], NewlineDoc(p, a))
  {
    hide Effect, Typed;
    EffectNone();
    StretchTyped("\n", a);
    EffectOf(Insert, "\n", a, "\n", []);
  }

  // What stands at the two ends of the splice.
  datatype Ends = Ends(line1: nat, start1: nat, line2: nat, start2: nat)

  ghost predicate EndsOf(t: string, p: Plan, e: Ends) {
    && 0 <= p.spliceStart <= p.spliceEnd < |t|
    && Position(t, p.spliceStart, e.line1, e.start1) && Position(t, p.spliceEnd, e.line2, e.start2)
  }

  ghost function SpliceOps(p: Plan, e: Ends, inner: seq<Op>): seq<Op> {
    KeepTo(p.spliceStart, e.line1, e.start1) + RemoveOps(p, e.line1, e.line2, e.start2) + inner
  }

  lemma SpliceEffect(g: Doc, t: string, p: Plan, e: Ends, inner: seq<Op>, bank: string, typed: Doc)
    requires Text(g) == t && EndsOf(t, p, e) && Effect(inner, bank, [], typed)
    ensures p.spliceEnd < |g|
    ensures Fits(SpliceOps(p, e, inner), bank, g)
    ensures Apply(SpliceOps(p, e, inner), bank, g) == g[..p.spliceStart] + typed + g[p.spliceEnd..]
  {
    hide Effect, Fits, Apply, Text, KeepTo, RemoveOps, Position;
    var a, b := p.spliceStart, p.spliceEnd;
    TakenText(g, t, a, b);
    KeepToEffect(g, t, a, e.line1, e.start1);
    RemoveEffect(g, t, p, e.line1, e.start1, e.line2, e.start2);
    var keep, remove := KeepTo(a, e.line1, e.start1), RemoveOps(p, e.line1, e.line2, e.start2);
    EffectConcat(keep, "", g[..a], g[..a], remove, "", g[a..b], []);
    EffectConcat(keep + remove, "" + "", g[..a] + g[a..b], g[..a] + [], inner, bank, [], typed);
    EffectThen(keep + remove + inner, "" + "" + bank, g[..a] + g[a..b] + [], g[..a] + [] + typed, g[b..]);
    SpliceSeqs(g, a, b, typed, bank);
  }

  lemma SpliceSeqs(g: Doc, a: nat, b: nat, typed: Doc, bank: string)
    requires a <= b <= |g|
    ensures "" + "" + bank == bank && g[..a] + g[a..b] + [] + g[b..] == g && g[..a] + [] + typed == g[..a] + typed
  {}

  ghost predicate PutsOn(c: Changeset, p: Plan, typed: Doc, d: Doc) {
    && 0 <= p.spliceStart <= p.spliceEnd < |d|
    && Fits(c.ops, c.bank, d) && After(c, d) == d[..p.spliceStart] + typed + d[p.spliceEnd..]
  }

  // `c` puts `typed` in the place of a stretch, whatever the attributes of the document.
  ghost predicate Puts(c: Changeset, t: string, p: Plan, typed: Doc) {
    IsFor(c, t) && forall d: Doc | Text(d) == t :: PutsOn(c, p, typed, d)
  }

  lemma AssembledForText(t: string, p: Plan, e: Ends, inner: seq<Op>, bank: string, typed: Doc)
    requires EndsOf(t, p, e) && Effect(inner, bank, [], typed)
    ensures var ops := SpliceOps(p, e, inner); IsFor(Changeset(|t|, |t| + LengthChange(ops), Normal(ops, true), bank),
        t)
  {
    hide Fits, Apply, Text, Normal, Safe, Untouched, Effect, SpliceOps, Position;
    var ops := SpliceOps(p, e, inner);
    var u := Untouched(t);
    TextOfUntouched(t);
    SpliceEffect(u, t, p, e, inner, bank, typed);
    Splicing.SplicedLast(u, p.spliceStart, p.spliceEnd - p.spliceStart, typed, t);
    AssembledIsFor(ops, bank, t);
    ApplyLength(ops, bank, u);
  }

  lemma AssembledPutsOn(t: string, p: Plan, e: Ends, inner: seq<Op>, bank: string, typed: Doc, d: Doc)
    requires EndsOf(t, p, e) && Effect(inner, bank, [], typed) && Text(d) == t
    ensures var ops := SpliceOps(p, e, inner);
            PutsOn(Changeset(|t|, |t| + LengthChange(ops), Normal(ops, true), bank), p, typed, d)
  {
    hide Fits, Apply, Text, Normal, Safe, Effect, SpliceOps, Position;
    SpliceEffect(d, t, p, e, inner, bank, typed);
    NormalEffect(SpliceOps(p, e, inner), true, bank, d);
  }

  lemma AssembledPuts(t: string, p: Plan, e: Ends, inner: seq<Op>, bank: string, typed: Doc)
    requires EndsOf(t, p, e) && Effect(inner, bank, [], typed)
    ensures var ops := SpliceOps(p, e, inner);
            Puts(Changeset(|t|, |t| + LengthChange(ops), Normal(ops, true), bank), t, p, typed)
  {
    hide Fits, Apply, Text, Normal, Safe, Untouched, Effect, SpliceOps, EndsOf, PutsOn, IsFor;
    AssembledForText(t, p, e, inner, bank, typed);
    var ops := SpliceOps(p, e, inner);
    forall d: Doc | Text(d) == t ensures PutsOn(Changeset(|t|, |t| + LengthChange(ops), Normal(ops, true), bank), p,
        typed, d) {
      AssembledPutsOn(t, p, e, inner, bank, typed, d);
    }
  }

  // ---------- authors

  // The attribute of the author at the keyboard, and whether the page shows text of several.
  datatype Author = Author(att: Attribs, multi: bool)

  // Text keeps the authors it has in the page if there are several; if not it is this one's.
  ghost function Authorized(a: Attribs, who: Author): Attribs {
    if who.multi then ComposeAttributes(who.att, a, true) else ComposeAttributes(a, who.att, true)
  }

  function AuthorAttribs(thisAuthor: string): Attribs {
    if thisAuthor == "" then [] else [Pair("author", thisAuthor)]
  }

  method Authorizer(oldAtts: Attribs, who: Author) returns (r: Attribs)
    ensures r == Authorized(oldAtts, who)
  {
    hide ComposeAttributes;
    if who.multi {
      r := MergeCompose(who.att, oldAtts, true);
    } else {
      r := MergeCompose(oldAtts, who.att, true);
    }
  }

  lemma AuthorizedIs(a: Attribs, thisAuthor: string, multi: bool)
    requires NoEmptyValues(a)
    ensures NoEmptyValues(Authorized(a, Author(AuthorAttribs(thisAuthor), multi)))
  {
    var who := AuthorAttribs(thisAuthor);
    AuthorMap(thisAuthor);
    assert MapOf(ComposeAttributes(who, a, true)) == MapOf(who) + MapOf(a);
    assert MapOf(ComposeAttributes(a, who, true)) == MapOf(a) + MapOf(who);
  }

  lemma AuthorMap(thisAuthor: string)
    ensures MapOf(AuthorAttribs(thisAuthor)) == if thisAuthor == "" then map[] else map["author" := thisAuthor]
  {
    if thisAuthor != "" {
      var a := [Pair("author", thisAuthor)];
      assert a[..0] == [];
    }
  }

  // Where there is one author to write as, the text becomes theirs; where the page shows
  // several, text that has an author keeps it.
  lemma AuthorOfText(a: Attribs, thisAuthor: string, multi: bool)
    requires thisAuthor != ""
    ensures var m := MapOf(Authorized(a, Author(AuthorAttribs(thisAuthor), multi)));
            && "author" in m && m["author"]
                == (if multi && "author" in MapOf(a) then MapOf(a)["author"] else thisAuthor)
            && forall k :: k != "author" ==> (k in m <==> k in MapOf(a)) && (k in m ==> m[k] == MapOf(a)[k])
  {
    var who := AuthorAttribs(thisAuthor);
    AuthorMap(thisAuthor);
    assert MapOf(ComposeAttributes(who, a, true)) == MapOf(who) + MapOf(a);
    assert MapOf(ComposeAttributes(a, who, true)) == MapOf(a) + MapOf(who);
  }

  ghost function AuthorOf(r: AttribRun): string { ValueIn(MapOf(r.attribs), "author") }

  ghost predicate TwoAuthors(runs: seq<AttribRun>) {
    exists i, j :: 0 <= i < j < |runs| && AuthorOf(runs[i]) != "" && AuthorOf(runs[j]) != ""
        && AuthorOf(runs[i]) != AuthorOf(runs[j])
  }

  ghost function AuthorAt(ops: seq<Op>, k: nat): string
    requires AreAttribs(ops) && k < Total(ops)
  {
    ValueIn(MapOf(AttribsAt(ops, k)), "author")
  }

  // Of the characters from `lo` to `hi`, two have different authors.
  ghost predicate SeveralAuthors(ops: seq<Op>, lo: nat, hi: nat)
    requires AreAttribs(ops)
  {
    exists i: nat, j: nat :: DifferentAuthors(ops, lo, hi, i, j)
  }

  ghost predicate DifferentAuthors(ops: seq<Op>, lo: nat, hi: nat, i: nat, j: nat)
    requires AreAttribs(ops)
  {
    && lo <= i < hi && lo <= j < hi && hi <= Total(ops)
    && AuthorAt(ops, i) != "" && AuthorAt(ops, j) != "" && AuthorAt(ops, i) != AuthorAt(ops, j)
  }

  lemma {:induction false} RunOf(runs: seq<AttribRun>, lo: nat, hi: nat, k: nat) returns (j: nat)
    requires Contiguous(runs, lo, hi) && lo <= k < hi
    ensures InRun(runs, j, k)
    decreases |runs|
  {
    var n := |runs| - 1;
    if k >= runs[n].start {
      j := n;
    } else {
      RunStarts(runs[..n], lo, runs[n].start);
      j := RunOf(runs[..n], lo, runs[n].start, k);
    }
  }

  lemma {:induction false} RunStarts(runs: seq<AttribRun>, lo: int, hi: int)
    requires Contiguous(runs, lo, hi)
    ensures lo <= hi && forall j :: 0 <= j < |runs| ==> lo <= runs[j].start && runs[j].end <= hi
    decreases |runs|
  {
    if runs != [] { RunStarts(runs[..|runs| - 1], lo, runs[|runs| - 1].start); }
  }

  lemma RunsTellAuthors(runs: seq<AttribRun>, ops: seq<Op>, lo: nat, hi: nat)
    requires AreAttribs(ops) && hi <= Total(ops)
    requires Contiguous(runs, lo, hi) && Tell(runs, ops) && SomeText(runs, lo, hi)
    ensures TwoAuthors(runs) <==> SeveralAuthors(ops, lo, hi)
  {
    hide Total, AttribsAt, Contiguous, MapOf;
    RunStarts(runs, lo, hi);
    if TwoAuthors(runs) {
      var i, j :| 0 <= i < j < |runs| && AuthorOf(runs[i]) != "" && AuthorOf(runs[j]) != ""
        && AuthorOf(runs[i]) != AuthorOf(runs[j]);
      assert InRun(runs, i, runs[i].start) && InRun(runs, j, runs[j].start);
      assert DifferentAuthors(ops, lo, hi, runs[i].start, runs[j].start);
    }
    if SeveralAuthors(ops, lo, hi) {
      var i: nat, j: nat :| DifferentAuthors(ops, lo, hi, i, j);
      var x := RunOf(runs, lo, hi, i);
      var y := RunOf(runs, lo, hi, j);
      assert AuthorOf(runs[x]) == AuthorAt(ops, i) && AuthorOf(runs[y]) == AuthorAt(ops, j);
    }
  }

  method IsMultiauthor(runs: seq<AttribRun>) returns (isNewTextMultiauthor: bool)
    ensures isNewTextMultiauthor <==> TwoAuthors(runs)
  {
    hide AuthorOf;
    isNewTextMultiauthor := false;
    var foundDomAuthor := "";
    ghost var at := 0;
    for i := 0 to |runs|
      invariant foundDomAuthor == "" ==> forall j :: 0 <= j < i ==> AuthorOf(runs[j]) == ""
      invariant foundDomAuthor != "" ==> 0 <= at < i && AuthorOf(runs[at]) == foundDomAuthor
      invariant foundDomAuthor != "" ==> forall j :: 0 <= j < at ==> AuthorOf(runs[j]) == ""
      invariant isNewTextMultiauthor ==> TwoAuthors(runs)
      invariant !isNewTextMultiauthor ==>
                  forall j :: 0 <= j < i ==> AuthorOf(runs[j]) == "" || AuthorOf(runs[j]) == foundDomAuthor
    {
      var a := AttribsAttributeValue(runs[i].attribs, "author");
      AuthorIs(runs[i]);
      if a != "" && a != foundDomAuthor {
        if foundDomAuthor == "" {
          foundDomAuthor := a;
          at := i;
        } else {
          assert AuthorOf(runs[at]) != AuthorOf(runs[i]);
          isNewTextMultiauthor := true;
        }
      }
    }
  }

  lemma AuthorIs(r: AttribRun)
    ensures AuthorOf(r) == ValueIn(MapOf(r.attribs), "author")
  {}

  // ---------- building the changesets

  // The characters of `text` from `lo` to `hi`, with the attributes of the page.
  ghost predicate TypedAs(d: Doc, text: string, lo: int, hi: int, ops: seq<Op>, who: Author)
    requires AreAttribs(ops)
  {
    && |d| == hi - lo && 0 <= lo && hi <= |text| && hi <= Total(ops)
    && forall k: nat :: lo <= k < hi ==> CellAs(d, text, lo, ops, who, k)
  }

  ghost predicate CellAs(d: Doc, text: string, lo: int, ops: seq<Op>, who: Author, k: nat)
    requires AreAttribs(ops) && 0 <= lo <= k < |text| && k < Total(ops) && k - lo < |d|
  {
    d[k - lo] == New(text[k], Authorized(AttribsAt(ops, k), who))
  }

  ghost predicate Restated(done: seq<AttribRun>, runs: seq<AttribRun>, n: nat, who: Author) {
    && |done| == n <= |runs|
    && forall j :: 0 <= j < n ==> done[j] == runs[j].(attribs := Authorized(runs[j].attribs, who))
  }

  lemma {:induction false} RestatedContiguous(done: seq<AttribRun>, runs: seq<AttribRun>, n: nat, who: Author, lo: int,
      hi: int)
    requires Restated(done, runs, n, who) && Contiguous(runs[..n], lo, hi)
    ensures Contiguous(done, lo, hi)
    decreases n
  {
    hide Authorized;
    if n > 0 {
      assert runs[..n][..n - 1] == runs[..n - 1] && runs[..n][n - 1] == runs[n - 1];
      RestatedContiguous(done[..n - 1], runs, n - 1, who, lo, runs[n - 1].start);
    }
  }

  lemma TypedAsRuns(done: seq<AttribRun>, runs: seq<AttribRun>, who: Author, text: string, lo: nat, hi: int,
      ops: seq<Op>)
    requires AreAttribs(ops) && Restated(done, runs, |runs|, who) && Contiguous(runs, lo, hi) && Tell(runs, ops)
    requires lo <= hi <= |text| && hi <= Total(ops) && RunsIn(done, text)
    ensures TypedAs(RunDoc(done, text), text, lo, hi, ops, who)
  {
    hide Authorized, Total, AttribsAt, Contiguous, RunDoc;
    assert runs[..|runs|] == runs;
    RestatedContiguous(done, runs, |runs|, who, lo, hi);
    RunDocLength(done, text, lo, hi);
    forall k: nat | lo <= k < hi ensures CellAs(RunDoc(done, text), text, lo, ops, who, k) {
      var j := RunDocAt(done, text, lo, hi, k);
      assert InRun(runs, j, k);
    }
  }

  lemma RunOpsMore(opcode: Opcode, runs: seq<AttribRun>, r: AttribRun, text: string)
    requires RunsIn(runs, text) && 0 <= r.start <= r.end <= |text|
    ensures RunsIn(runs + [r], text)
    ensures RunOps(opcode, runs + [r], text) == RunOps(opcode, runs, text)
        + TextOps(opcode, text[r.start..r.end], r.attribs)
  {
    assert (runs + [r])[..|runs|] == runs;
  }

  // `startBuilder`
  method StartBuilder(lines: seq<string>, oldLen: nat, spliceStart: nat)
      returns (builder: Builder, line: nat, ghost lineStart: nat)
    requires LinesOk(lines) && spliceStart <= |Flat(lines)|
    ensures builder.Valid() && fresh(builder) && fresh(builder.assem) && fresh(builder.assem.repr)
        && builder.oldLen == oldLen
    ensures builder.Ops() == KeepTo(spliceStart, line, lineStart) && builder.charBank == ""
    ensures Position(Flat(lines), spliceStart, line, lineStart) && line == IndexOfOffset(lines, spliceStart)
  {
    hide Builder.Valid, LinesTrue, Newlines, Counted;
    OffsetPosition(lines, spliceStart);
    var spliceStartLine := IndexOfOffset(lines, spliceStart);
    var spliceStartLineStart := OffsetOfIndex(lines, spliceStartLine);
    line, lineStart := spliceStartLine, spliceStartLineStart;
    builder := NewBuilder(oldLen);
    builder.Keep(spliceStartLineStart, spliceStartLine, []);
    NothingAdded(Counted(Op(Keep, spliceStartLineStart, spliceStartLine, [])));
    builder.Keep(spliceStart - spliceStartLineStart, 0, []);
  }

  method NewBuilder(oldLen: nat) returns (builder: Builder)
    ensures builder.Valid() && fresh(builder) && fresh(builder.assem) && fresh(builder.assem.repr)
        && builder.oldLen == oldLen
    ensures builder.Ops() == [] && builder.charBank == ""
  {
    builder := new Builder(oldLen);
  }

  method RemoveSplice(builder: Builder, lines: seq<string>, p: Plan, spliceStartLine: nat)
      returns (ghost line2: nat, ghost start2: nat)
    requires builder.Valid() && LinesOk(lines) && 0 <= p.spliceStart <= p.spliceEnd <= |Flat(lines)|
    requires spliceStartLine == IndexOfOffset(lines, p.spliceStart)
    modifies builder.assem.repr
    ensures builder.Valid() && builder.charBank == old(builder.charBank)
        && Position(Flat(lines), p.spliceEnd, line2, start2)
    ensures builder.Ops() == old(builder.Ops()) + RemoveOps(p, spliceStartLine, line2, start2)
  {
    hide Builder.Valid, LinesTrue, Newlines, Counted;
    OffsetPosition(lines, p.spliceEnd);
    var spliceEndLine := IndexOfOffset(lines, p.spliceEnd);
    var spliceEndLineStart := OffsetOfIndex(lines, spliceEndLine);
    line2, start2 := spliceEndLine, spliceEndLineStart;
    LaterLine(lines, p.spliceStart, p.spliceEnd);
    if spliceEndLineStart > p.spliceStart {
      builder.Remove(spliceEndLineStart - p.spliceStart, spliceEndLine - spliceStartLine);
      builder.Remove(p.spliceEnd - spliceEndLineStart, 0);
    } else {
      builder.Remove(p.spliceEnd - p.spliceStart, 0);
    }
  }

  lemma {:induction false} LaterLine(lines: seq<string>, a: nat, b: nat)
    requires a <= b
    ensures IndexOfOffset(lines, a) <= IndexOfOffset(lines, b)
  {
    if lines != [] && a >= |lines[0]| { LaterLine(lines[1..], a - |lines[0]|, b - |lines[0]|); }
  }

  // The runs, each authorized, go into the builder.
  method InsertRuns(builder: Builder, runs: seq<AttribRun>, text: string, lo: nat, hi: nat, who: Author)
      returns (ghost done: seq<AttribRun>)
    requires builder.Valid() && Contiguous(runs, lo, hi) && hi <= |text|
    modifies builder, builder.assem.repr
    ensures builder.Valid() && Restated(done, runs, |runs|, who) && RunsIn(done, text)
    ensures builder.Ops() == old(builder.Ops()) + RunOps(Insert, done, text) && lo <= hi
    ensures builder.charBank == old(builder.charBank) + text[lo..hi]
  {
    hide Builder.Valid, Authorized, TextOps, Contiguous;
    ContiguousIn(runs, lo, hi, text);
    done := [];
    ghost var x := lo;
    NothingRun(old(builder.Ops()), old(builder.charBank), text, lo);
    ContiguousStart(runs, lo, hi);
    for i := 0 to |runs|
      invariant builder.Valid() && Restated(done, runs, i, who) && RunsIn(done, text)
      invariant builder.Ops() == old(builder.Ops()) + RunOps(Insert, done, text)
      invariant lo <= x <= hi && Contiguous(runs[..i], lo, x)
      invariant builder.charBank == old(builder.charBank) + text[lo..x]
    {
      var r := runs[i];
      ContiguousNext(runs, lo, hi, i, x);
      var att := Authorizer(r.attribs, who);
      builder.Insert(text[r.start..r.end], att);
      RunOpsMore(Insert, done, AttribRun(r.start, r.end, att), text);
      Regroup(old(builder.Ops()), RunOps(Insert, done, text), TextOps(Insert, text[r.start..r.end], att));
      TwoSlices(text, lo, r.start, r.end);
      Regroup(old(builder.charBank), text[lo..r.start], text[r.start..r.end]);
      done := done + [AttribRun(r.start, r.end, att)];
      x := r.end;
    }
    ContiguousEnd(runs, lo, hi, x);
  }

  lemma NothingRun(ops: seq<Op>, bank: string, text: string, lo: nat)
    requires lo <= |text|
    ensures RunsIn([], text) && ops == ops + RunOps(Insert, [], text) && bank == bank + text[lo..lo]
    ensures ops == ops + RunOps(Keep, [], text)
  {}

  lemma ContiguousStart(runs: seq<AttribRun>, lo: int, hi: int)
    ensures Contiguous(runs[..0], lo, lo)
  {}

  lemma {:induction false} ContiguousNext(runs: seq<AttribRun>, lo: int, hi: int, i: nat, x: int)
    requires Contiguous(runs, lo, hi) && i < |runs| && Contiguous(runs[..i], lo, x)
    ensures runs[i].start == x <= runs[i].end <= hi && Contiguous(runs[..i + 1], lo, runs[i].end)
    decreases |runs|
  {
    var n := |runs| - 1;
    if i == n {
      assert runs[..i + 1] == runs;
      SameReach(runs[..n], lo, x, runs[n].start);
    } else {
      assert runs[..n][..i] == runs[..i] && runs[..n][..i + 1] == runs[..i + 1] && runs[..n][i] == runs[i];
      ContiguousNext(runs[..n], lo, runs[n].start, i, x);
    }
  }

  lemma {:induction false} SameReach(runs: seq<AttribRun>, lo: int, x: int, y: int)
    requires Contiguous(runs, lo, x) && Contiguous(runs, lo, y)
    ensures x == y
  {}

  lemma ContiguousEnd(runs: seq<AttribRun>, lo: int, hi: int, x: int)
    requires Contiguous(runs, lo, hi) && Contiguous(runs[..|runs|], lo, x)
    ensures x == hi
  {
    assert runs[..|runs|] == runs;
    SameReach(runs, lo, x, hi);
  }

  // What is to be typed, and where it is in the new text.
  ghost predicate Typing(p: Plan, newText: string, lo: int, hi: int) {
    0 <= lo <= hi <= |newText| && p.inserted == NewlineText(p) + newText[lo..hi]
  }

  // The changeset that replaces text.
  method TypingChangeset(lines: seq<string>, p: Plan, newText: string, newAttribs: seq<Op>, lo: nat, hi: nat,
      thisAuthor: string)
    returns (c: Changeset, ghost typed: Doc, ghost who: Author)
    requires LinesOk(lines) && 0 <= p.spliceStart <= p.spliceEnd < |Flat(lines)|
    requires AreAttribs(newAttribs) && hi <= Total(newAttribs) && Typing(p, newText, lo, hi)
    ensures Puts(c, Flat(lines), p, NewlineDoc(p, Authorized([], who)) + typed)
    ensures TypedAs(typed, newText, lo, hi, newAttribs, who) && who.att == AuthorAttribs(thisAuthor)
    ensures who.multi <==> SeveralAuthors(newAttribs, lo, hi)
  {
    hide Builder.Valid, Authorized, TextOps, Contiguous, LinesTrue, Newlines, Counted, RunOps, RunDoc, Effect, Puts,
         Total, AttribsAt, Tell,
         RemoveOps, KeepTo, Position, TwoAuthors, SeveralAuthors, SomeText, TypedAs, Restated, Normal, LengthChange;
    ghost var t := Flat(lines);
    var builder, spliceStartLine, start1 := StartBuilder(lines, |Flat(lines)|, p.spliceStart);
    var line2, start2 := RemoveSplice(builder, lines, p, spliceStartLine);
    ghost var before := builder.Ops();
    var runs := EachAttribRun(newAttribs, lo, hi);
    RunsTellAuthors(runs, newAttribs, lo, hi);
    var multi := IsMultiauthor(runs);
    var author := Author(AuthorAttribs(thisAuthor), multi);
    who := author;
    if p.shift {
      var att := Authorizer([], author);
      builder.Insert("\n", att);
    }
    ghost var nl := NewlineOps(p, Authorized([], who));
    NoOpsLast(before);
    assert builder.Ops() == before + nl && builder.charBank == NewlineText(p);
    var done := InsertRuns(builder, runs, newText, lo, hi, author);
    typed := RunDoc(done, newText);
    ghost var inner := nl + RunOps(Insert, done, newText);
    Regroup(before, nl, RunOps(Insert, done, newText));
    InnerEffect(p, who, done, runs, newText, lo, hi);
    TypedAsRuns(done, runs, who, newText, lo, hi, newAttribs);
    AssembledPuts(t, p, Ends(spliceStartLine, start1, line2, start2), inner, p.inserted,
        NewlineDoc(p, Authorized([], who)) + typed);
    ghost var ends := Ends(spliceStartLine, start1, line2, start2);
    assert builder.Ops() == SpliceOps(p, ends, inner);
    assert builder.charBank == p.inserted;
    assert builder.oldLen == |t|;
    c := builder.ToString();
  }

  lemma NoOpsLast(ops: seq<Op>)
    ensures ops + [] == ops
  {}

  lemma InnerEffect(p: Plan, who: Author, done: seq<AttribRun>, runs: seq<AttribRun>, text: string, lo: nat, hi: int)
    requires Restated(done, runs, |runs|, who) && Contiguous(runs, lo, hi) && RunsIn(done, text)
        && Typing(p, text, lo, hi)
    ensures Effect(NewlineOps(p, Authorized([], who)) + RunOps(Insert, done, text), p.inserted, [],
                   NewlineDoc(p, Authorized([], who)) + RunDoc(done, text))
  {
    hide Effect, Authorized, RunOps, RunDoc, NewlineOps, NewlineDoc, NewlineText, Contiguous;
    assert runs[..|runs|] == runs;
    RestatedContiguous(done, runs, |runs|, who, lo, hi);
    NewlineEffect(p, Authorized([], who));
    TypedRuns(done, text, lo, hi);
    EffectConcat(NewlineOps(p, Authorized([], who)), NewlineText(p), [], NewlineDoc(p, Authorized([], who)),
                 RunOps(Insert, done, text), text[lo..hi], [], RunDoc(done, text));
    NothingTwiceOver();
  }
}
