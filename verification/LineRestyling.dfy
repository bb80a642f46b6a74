/** Text that stays but changes its style: the other half of `doIncorpLineSplice`. */
module LineRestyling {
  import opened Attributes
  import opened AttributeMerging
  import opened Changesets
  import opened Composition
  import opened Following
  import opened NormalForm
  import opened Views
  import opened Algebra
  import opened Laws
  import opened Zipping
  import opened Engine
  import opened SmartAssembler
  import opened Building
  import opened Covering
  import opened Inversion
  import opened Inverting
  import opened DocLines
  import opened LineMutation
  import opened TextLines
  import opened SettingText
  import opened Splicing
  import opened Cleaning
  import opened Layers
  import opened Editing
  import opened LineDiff
  import opened StyleClearing
  import opened LineSplices

  ghost predicate RunsWithin(runs: seq<AttribRun>, lo: int, n: int) {
    forall j :: 0 <= j < |runs| ==> lo <= runs[j].start <= runs[j].end <= lo + n
  }

  lemma LastWithin(runs: seq<AttribRun>, lo: int, n: int)
    requires RunsWithin(runs, lo, n) && runs != []
    ensures var r := runs[|runs| - 1]; lo <= r.start <= r.end <= lo + n && RunsWithin(runs[..|runs| - 1], lo, n)
  {}

  // The stretch `m`, which starts at `lo` in the new text, with the attributes of the runs put on.
  ghost function RunRestyled(runs: seq<AttribRun>, m: Doc, lo: nat): Doc
    requires RunsWithin(runs, lo, |m|)
  {
    if runs == [] then []
    else
      var r := runs[|runs| - 1];
      RunRestyled(runs[..|runs| - 1], m, lo) + Restyle(m[r.start - lo..r.end - lo], r.attribs)
  }

  lemma {:induction false} StyledRuns(runs: seq<AttribRun>, text: string, lo: nat, hi: int, m: Doc)
    requires Contiguous(runs, lo, hi) && lo <= hi <= |text| && hi - lo <= |m| && RunsIn(runs, text)
        && Text(m[..hi - lo]) == text[lo..hi]
    requires RunsWithin(runs, lo, |m|)
    ensures Effect(RunOps(Keep, runs, text), "", m[..hi - lo], RunRestyled(runs, m, lo))
    decreases |runs|
  {
    hide Effect, TextOps, Restyle, Text, RunsWithin, RunsIn;
    if runs == [] {
      EffectNone();
      assert m[..0] == [];
    } else {
      var n := |runs| - 1;
      var r := runs[n];
      LastWithin(runs, lo, |m|);
      LastIn(runs, text);
      ContiguousReach(runs[..n], lo, r.start, text);
      StretchInside(m, text, lo, r.start, hi);
      StyledRuns(runs[..n], text, lo, r.start, m);
      var part, d := text[r.start..r.end], m[r.start - lo..r.end - lo];
      StretchKept(part, r.attribs, d);
      EffectOf(Keep, part, r.attribs, "", d);
      EffectConcat(RunOps(Keep, runs[..n], text), "", m[..r.start - lo], RunRestyled(runs[..n], m, lo),
                   TextOps(Keep, part, r.attribs), "", d, Restyle(d, r.attribs));
      FrontInTwo(m, r.start - lo, hi - lo);
    }
  }

  lemma ContiguousReach(runs: seq<AttribRun>, lo: nat, hi: int, text: string)
    requires Contiguous(runs, lo, hi) && hi <= |text|
    ensures lo <= hi
  {
    ContiguousIn(runs, lo, hi, text);
  }

  lemma StretchInside(m: Doc, text: string, lo: nat, x: nat, hi: nat)
    requires lo <= x <= hi <= |text| && hi - lo <= |m| && Text(m[..hi - lo]) == text[lo..hi]
    ensures Text(m[..x - lo]) == text[lo..x] && Text(m[x - lo..hi - lo]) == text[x..hi]
  {
    var t := text[lo..hi];
    assert Text(m[..x - lo]) == t[..x - lo] && Text(m[x - lo..hi - lo]) == t[x - lo..];
  }

  lemma StretchKept(text: string, a: Attribs, d: Doc)
    requires Text(d) == text
    ensures StretchOf(Keep, text, a, "", d)
  {}

  lemma {:induction false} RunRestyledAt(runs: seq<AttribRun>, m: Doc, lo: nat, hi: int, k: int) returns (j: nat)
    requires Contiguous(runs, lo, hi) && lo <= k < hi && hi - lo <= |m|
    requires RunsWithin(runs, lo, |m|)
    ensures InRun(runs, j, k) && |RunRestyled(runs, m, lo)| == hi - lo
        && RunRestyled(runs, m, lo)[k - lo] == Restyled(m[k - lo], runs[j].attribs)
    decreases |runs|
  {
    hide Restyled, Restyle, RunsWithin;
    var n := |runs| - 1;
    var r := runs[n];
    LastWithin(runs, lo, |m|);
    RunRestyledLength(runs[..n], m, lo, r.start);
    RestyledCells(m[r.start - lo..r.end - lo], r.attribs);
    if k >= r.start {
      j := n;
    } else {
      j := RunRestyledAt(runs[..n], m, lo, r.start, k);
    }
  }

  lemma RestyledCells(d: Doc, a: Attribs)
    ensures |Restyle(d, a)| == |d| && forall i :: 0 <= i < |d| ==> Restyle(d, a)[i] == Restyled(d[i], a)
  {}

  lemma {:induction false} RunRestyledLength(runs: seq<AttribRun>, m: Doc, lo: nat, hi: int)
    requires Contiguous(runs, lo, hi) && hi - lo <= |m|
    requires RunsWithin(runs, lo, |m|)
    ensures lo <= hi && |RunRestyled(runs, m, lo)| == hi - lo
    decreases |runs|
  {
    hide Restyled, Restyle, RunsWithin;
    if runs != [] {
      var r := runs[|runs| - 1];
      LastWithin(runs, lo, |m|);
      RunRestyledLength(runs[..|runs| - 1], m, lo, r.start);
      RestyledCells(m[r.start - lo..r.end - lo], r.attribs);
    }
  }

  lemma {:induction false} RunRestyledText(runs: seq<AttribRun>, m: Doc, lo: nat, hi: int)
    requires Contiguous(runs, lo, hi) && lo <= hi && hi - lo <= |m|
    requires RunsWithin(runs, lo, |m|)
    ensures Text(RunRestyled(runs, m, lo)) == Text(m[..hi - lo])
  {
    hide Restyled, Text, RunsWithin, Contiguous, RunRestyled;
    RunRestyledLength(runs, m, lo, hi);
    forall i | 0 <= i < hi - lo ensures RunRestyled(runs, m, lo)[i].ch == m[i].ch {
      var j := RunRestyledAt(runs, m, lo, hi, lo + i);
      RestyledChar(m[i], runs[j].attribs);
    }
    SameChars(RunRestyled(runs, m, lo), m[..hi - lo]);
  }

  lemma RestyledChar(c: Cell, a: Attribs)
    ensures Restyled(c, a).ch == c.ch && (c.Old? ==> Restyled(c, a).Old?)
  {}

  lemma SameChars(d: Doc, e: Doc)
    requires |d| == |e| && forall i :: 0 <= i < |d| ==> d[i].ch == e[i].ch
    ensures Text(d) == Text(e)
  {}

  // `c` puts the attributes of the runs on a stretch, whatever the attributes of the document.
  ghost predicate RestylesOn(c: Changeset, p: Plan, runs: seq<AttribRun>, lo: nat, d: Doc) {
    && 0 <= p.spliceStart <= p.spliceEnd < |d| && Contiguous(runs, lo, lo + p.spliceEnd - p.spliceStart)
    && RunsWithin(runs, lo, p.spliceEnd - p.spliceStart)
    && Fits(c.ops, c.bank, d)
    && After(c, d) == d[..p.spliceStart] + RunRestyled(runs, d[p.spliceStart..p.spliceEnd], lo) + d[p.spliceEnd..]
  }

  ghost predicate Restyles(c: Changeset, t: string, p: Plan, runs: seq<AttribRun>, lo: nat) {
    IsFor(c, t) && forall d: Doc | Text(d) == t :: RestylesOn(c, p, runs, lo, d)
  }

  // The text of the runs is the text they are put on.
  ghost predicate Matching(t: string, p: Plan, runs: seq<AttribRun>, text: string, lo: nat, hi: int) {
    && 0 <= p.spliceStart <= p.spliceEnd < |t| && lo <= hi <= |text| && hi - lo == p.spliceEnd - p.spliceStart
    && t[p.spliceStart..p.spliceEnd] == text[lo..hi] && Contiguous(runs, lo, hi) && RunsIn(runs, text)
  }

  ghost function StyleOps(p: Plan, line: nat, start: nat, runs: seq<AttribRun>, text: string): seq<Op>
    requires RunsIn(runs, text)
  {
    KeepTo(p.spliceStart, line, start) + RunOps(Keep, runs, text)
  }

  lemma StyleEffect(g: Doc, t: string, p: Plan, line: nat, start: nat, runs: seq<AttribRun>, text: string, lo: nat,
      hi: int)
    requires Text(g) == t && Matching(t, p, runs, text, lo, hi) && Position(t, p.spliceStart, line, start)
    ensures p.spliceEnd < |g| && RunsWithin(runs, lo, p.spliceEnd - p.spliceStart)
    ensures var ops, m := StyleOps(p, line, start, runs, text), g[p.spliceStart..p.spliceEnd];
            && Fits(ops, "", g)
            && Apply(ops, "", g) == g[..p.spliceStart] + RunRestyled(runs, m, lo) + g[p.spliceEnd..]
  {
    hide Effect, Fits, Apply, Text, KeepTo, Position, Contiguous, RunOps, RunRestyled;
    var a, b := p.spliceStart, p.spliceEnd;
    var m := g[a..b];
    TakenText(g, t, a, b);
    ContiguousIn(runs, lo, hi, text);
    assert m[..hi - lo] == m;
    KeepToEffect(g, t, a, line, start);
    StyledRuns(runs, text, lo, hi, m);
    var keep, styled := KeepTo(a, line, start), RunOps(Keep, runs, text);
    EffectConcat(keep, "", g[..a], g[..a], styled, "", m, RunRestyled(runs, m, lo));
    EffectThen(keep + styled, "" + "", g[..a] + m, g[..a] + RunRestyled(runs, m, lo), g[b..]);
    StyleSeqs(g, a, b);
  }

  lemma StyleSeqs(g: Doc, a: nat, b: nat)
    requires a <= b <= |g|
    ensures "" + "" == "" && g[..a] + g[a..b] + g[b..] == g
  {}

  lemma AssembledRestyles(t: string, p: Plan, line: nat, start: nat, runs: seq<AttribRun>, text: string, lo: nat,
      hi: int)
    requires Matching(t, p, runs, text, lo, hi) && Position(t, p.spliceStart, line, start)
    ensures var ops := StyleOps(p, line, start, runs, text);
            Restyles(Changeset(|t|, |t| + LengthChange(ops), Normal(ops, true), ""), t, p, runs, lo)
  {
    hide Fits, Apply, Text, Normal, Safe, Untouched, StyleOps, Position, Matching, RestylesOn, IsFor;
    AssembledStyles(t, p, line, start, runs, text, lo, hi);
    var ops := StyleOps(p, line, start, runs, text);
    forall d: Doc | Text(d) == t ensures RestylesOn(Changeset(|t|, |t| + LengthChange(ops), Normal(ops, true), ""), p,
        runs, lo, d) {
      AssembledRestylesOn(t, p, line, start, runs, text, lo, hi, d);
    }
  }

  lemma AssembledStyles(t: string, p: Plan, line: nat, start: nat, runs: seq<AttribRun>, text: string, lo: nat, hi: int)
    requires Matching(t, p, runs, text, lo, hi) && Position(t, p.spliceStart, line, start)
    ensures RunsIn(runs, text)
    ensures var ops := StyleOps(p, line, start, runs,
        text); IsFor(Changeset(|t|, |t| + LengthChange(ops), Normal(ops, true), ""), t)
  {
    hide Fits, Apply, Text, Normal, Safe, Untouched, StyleOps, Position, RunRestyled, Contiguous;
    var ops := StyleOps(p, line, start, runs, text);
    var u := Untouched(t);
    TextOfUntouched(t);
    StyleEffect(u, t, p, line, start, runs, text, lo, hi);
    Splicing.SplicedLast(u, p.spliceStart, p.spliceEnd - p.spliceStart,
        RunRestyled(runs, u[p.spliceStart..p.spliceEnd], lo), t);
    AssembledIsFor(ops, "", t);
    ApplyLength(ops, "", u);
  }

  lemma AssembledRestylesOn(t: string, p: Plan, line: nat, start: nat, runs: seq<AttribRun>, text: string, lo: nat,
      hi: int, d: Doc)
    requires Matching(t, p, runs, text, lo, hi) && Position(t, p.spliceStart, line, start) && Text(d) == t
    ensures RunsIn(runs, text)
    ensures var ops := StyleOps(p, line, start, runs, text);
            RestylesOn(Changeset(|t|, |t| + LengthChange(ops), Normal(ops, true), ""), p, runs, lo, d)
  {
    hide Fits, Apply, Text, Normal, Safe, StyleOps, Position, RunRestyled, Contiguous;
    StyleEffect(d, t, p, line, start, runs, text, lo, hi);
    NormalEffect(StyleOps(p, line, start, runs, text), true, "", d);
  }

  method KeepRuns(builder: Builder, runs: seq<AttribRun>, text: string)
    requires builder.Valid() && RunsIn(runs, text)
    modifies builder.assem.repr
    ensures builder.Valid() && builder.Ops() == old(builder.Ops()) + RunOps(Keep, runs, text)
        && builder.charBank == old(builder.charBank)
  {
    hide Builder.Valid, TextOps;
    NothingRun(old(builder.Ops()), "", text, 0);
    NothingKept(text);
    ghost var bank := builder.charBank;
    for i := 0 to |runs|
      invariant builder.Valid() && builder.charBank == bank && RunsIn(runs[..i], text)
      invariant builder.Ops() == old(builder.Ops()) + RunOps(Keep, runs[..i], text)
    {
      var r := runs[i];
      builder.KeepText(text[r.start..r.end], r.attribs);
      RunOpsMore(Keep, runs[..i], r, text);
      assert runs[..i + 1] == runs[..i] + [r];
      Regroup(old(builder.Ops()), RunOps(Keep, runs[..i], text), TextOps(Keep, text[r.start..r.end], r.attribs));
    }
    assert runs[..|runs|] == runs;
  }

  lemma NothingKept(text: string)
    ensures RunsIn([], text) && RunOps(Keep, [], text) == []
  {}

  // A changeset that puts the attributes of the runs on the stretch.
  method StyleChangeset(lines: seq<string>, p: Plan, runs: seq<AttribRun>, text: string, ghost lo: nat, ghost hi: int)
      returns (c: Changeset)
    requires LinesOk(lines) && Matching(Flat(lines), p, runs, text, lo, hi)
    ensures Restyles(c, Flat(lines), p, runs, lo)
  {
    hide Builder.Valid, TextOps, LinesTrue, Newlines, Counted, RunOps, KeepTo, Position, Contiguous, Restyles, Normal,
         LengthChange;
    var builder, line, start := StartBuilder(lines, |Flat(lines)|, p.spliceStart);
    KeepRuns(builder, runs, text);
    AssembledRestyles(Flat(lines), p, line, start, runs, text, lo, hi);
    c := builder.ToString();
  }

  ghost predicate AreCleared(cleared: seq<AttribRun>, runs: seq<AttribRun>) {
    |cleared| == |runs| && forall j :: 0 <= j < |runs| ==> cleared[j] == runs[j].(attribs := Cleared(runs[j].attribs))
  }

  method ClearedRuns(runs: seq<AttribRun>) returns (cleared: seq<AttribRun>)
    ensures AreCleared(cleared, runs)
  {
    cleared := [];
    for i := 0 to |runs|
      invariant |cleared| == i && forall j :: 0 <= j < i ==> cleared[j] == runs[j].(attribs := Cleared(runs[j].attribs))
    {
      var clearer := StyleClearing.Clearing(runs[i].attribs);
      ClearingSorted(runs[i].attribs);
      cleared := cleared + [runs[i].(attribs := clearer)];
    }
  }

  lemma {:induction false} SameSpans(a: seq<AttribRun>, b: seq<AttribRun>, lo: int, hi: int)
    requires |a| == |b| && forall j :: 0 <= j < |a| ==> a[j].start == b[j].start && a[j].end == b[j].end
    requires Contiguous(a, lo, hi)
    ensures Contiguous(b, lo, hi)
  {
    if a != [] { SameSpans(a[..|a| - 1], b[..|b| - 1], lo, a[|a| - 1].start); }
  }

  lemma ClearedSpans(runs: seq<AttribRun>, cleared: seq<AttribRun>, lo: int, hi: int)
    requires AreCleared(cleared, runs) && Contiguous(runs, lo, hi)
    ensures Contiguous(cleared, lo, hi)
  {
    hide Contiguous, Cleared;
    SameSpans(runs, cleared, lo, hi);
  }

  // Character by character: the styles it has are cleared, and those of the page put on.
  ghost predicate StyledAs(e: Doc, m: Doc, lo: nat, oldAttribs: seq<Op>, newAttribs: seq<Op>)
    requires AreAttribs(oldAttribs) && AreAttribs(newAttribs)
  {
    && |e| == |m| && lo + |m| <= Total(oldAttribs) && lo + |m| <= Total(newAttribs)
    && forall i: nat :: i < |m| ==> StyledCell(e, m, lo, oldAttribs, newAttribs, i)
  }

  ghost predicate StyledCell(e: Doc, m: Doc, lo: nat, oldAttribs: seq<Op>, newAttribs: seq<Op>, i: nat)
    requires AreAttribs(oldAttribs) && AreAttribs(newAttribs) && lo + |m| <= Total(oldAttribs)
        && lo + |m| <= Total(newAttribs)
    requires i < |m| == |e|
  {
    e[i] == Restyled(Restyled(m[i], Cleared(AttribsAt(oldAttribs, lo + i))), AttribsAt(newAttribs, lo + i))
  }

  // `c` does that, whatever the attributes of the document.
  ghost predicate StylesOn(c: Changeset, p: Plan, lo: nat, oldAttribs: seq<Op>, newAttribs: seq<Op>, d: Doc)
    requires AreAttribs(oldAttribs) && AreAttribs(newAttribs)
  {
    && 0 <= p.spliceStart <= p.spliceEnd < |d| && Fits(c.ops, c.bank, d) && |After(c, d)| == |d|
    && After(c, d)[..p.spliceStart] == d[..p.spliceStart] && After(c, d)[p.spliceEnd..] == d[p.spliceEnd..]
    && StyledAs(After(c, d)[p.spliceStart..p.spliceEnd], d[p.spliceStart..p.spliceEnd], lo, oldAttribs, newAttribs)
  }

  ghost predicate Styles2(c: Changeset, t: string, p: Plan, lo: nat, oldAttribs: seq<Op>, newAttribs: seq<Op>)
    requires AreAttribs(oldAttribs) && AreAttribs(newAttribs)
  {
    IsFor(c, t) && forall d: Doc | Text(d) == t :: StylesOn(c, p, lo, oldAttribs, newAttribs, d)
  }

  // The changeset for a change of styles: one that clears, composed with one that puts on.
  method StylingChangeset(lines: seq<string>, p: Plan, newText: string, oldAttribs: seq<Op>, newAttribs: seq<Op>,
      lo: nat, hi: nat)
    returns (c: Changeset)
    requires LinesOk(lines) && AreAttribs(oldAttribs) && AreAttribs(newAttribs) && hi <= Total(oldAttribs)
        && hi <= Total(newAttribs)
    requires 0 <= p.spliceStart <= p.spliceEnd < |Flat(lines)| && lo <= hi <= |newText|
        && hi - lo == p.spliceEnd - p.spliceStart
    requires Flat(lines)[p.spliceStart..p.spliceEnd] == newText[lo..hi]
    ensures Styles2(c, Flat(lines), p, lo, oldAttribs, newAttribs)
  {
    hide Contiguous, Restyles, Tell, AreCleared, Flat, LinesOk, Compose, IsFor, Total, Styles2, ApplyText;
    ghost var t := Flat(lines);
    var oldRuns := EachAttribRun(oldAttribs, lo, hi);
    var clearedRuns := ClearedRuns(oldRuns);
    var newRuns := EachAttribRun(newAttribs, lo, hi);
    ContiguousIn(newRuns, lo, hi, newText);
    ClearedSpans(oldRuns, clearedRuns, lo, hi);
    ContiguousIn(clearedRuns, lo, hi, newText);
    var clearer := StyleChangeset(lines, p, clearedRuns, newText, lo, hi);
    var styler := StyleChangeset(lines, p, newRuns, newText, lo, hi);
    RestylesMeans(clearer, t, p, clearedRuns, lo);
    RestylesMeans(styler, t, p, newRuns, lo);
    var r := ComposeChangesets(clearer, styler, t, t);
    c := r.value;
    BothStyle(clearer, styler, t, p, oldRuns, clearedRuns, newRuns, lo, hi, oldAttribs, newAttribs);
  }

  lemma RestylesMeans(c: Changeset, t: string, p: Plan, runs: seq<AttribRun>, lo: nat)
    requires Restyles(c, t, p, runs, lo)
    ensures IsFor(c, t) && c.oldLen == |t| == c.newLen && TextAfter(c, t) == t
  {
    hide Fits, Apply, Text, Normal, Safe, Untouched, ApplyText, RunRestyled, Contiguous, RunsWithin;
    var u := Untouched(t);
    TextOfUntouched(t);
    assert RestylesOn(c, p, runs, lo, u);
    RestyledKeepsText(c, p, runs, lo, u);
    OnDocument(c, t, u);
    ApplyLength(c.ops, c.bank, u);
    TextSize(After(c, u));
    TextSize(u);
  }

  lemma RestyledKeepsText(c: Changeset, p: Plan, runs: seq<AttribRun>, lo: nat, d: Doc)
    requires RestylesOn(c, p, runs, lo, d)
    ensures Text(After(c, d)) == Text(d) && |After(c, d)| == |d|
    ensures After(c, d)[..p.spliceStart] == d[..p.spliceStart] && After(c, d)[p.spliceEnd..] == d[p.spliceEnd..]
    ensures After(c, d)[p.spliceStart..p.spliceEnd] == RunRestyled(runs, d[p.spliceStart..p.spliceEnd], lo)
    ensures |RunRestyled(runs, d[p.spliceStart..p.spliceEnd], lo)| == p.spliceEnd - p.spliceStart
  {
    hide Fits, Apply, Text, RunRestyled, Contiguous, RunsWithin;
    var a, b := p.spliceStart, p.spliceEnd;
    var m := d[a..b];
    RunRestyledLength(runs, m, lo, lo + b - a);
    RunRestyledText(runs, m, lo, lo + b - a);
    WholeAndParts(d, a, b);
    SameTextBetween(d[..a], m, RunRestyled(runs, m, lo), d[b..]);
    PartsOfThree(d[..a], RunRestyled(runs, m, lo), d[b..]);
  }

  lemma WholeAndParts<T>(d: seq<T>, a: nat, b: nat)
    requires a <= b <= |d|
    ensures d == d[..a] + d[a..b] + d[b..] && d[a..b][..b - a] == d[a..b]
  {}

  lemma SameTextBetween(x: Doc, m: Doc, e: Doc, y: Doc)
    requires Text(e) == Text(m)
    ensures Text(x + e + y) == Text(x + m + y) && |x + e + y| == |x + m + y|
  {
    hide Text;
    TextConcat(x, m);
    TextConcat(x + m, y);
    TextConcat(x, e);
    TextConcat(x + e, y);
    TextSize(e);
    TextSize(m);
  }

  lemma TextSize(d: Doc)
    ensures |Text(d)| == |d|
  {}

  lemma PartsOfThree<T>(x: seq<T>, y: seq<T>, z: seq<T>)
    ensures var s := x + y + z; s[..|x|] == x && s[|x|..|x| + |y|] == y && s[|x| + |y|..] == z
  {}

  lemma BothStyle(clearer: Changeset, styler: Changeset, t: string, p: Plan, oldRuns: seq<AttribRun>,
      clearedRuns: seq<AttribRun>,
                  newRuns: seq<AttribRun>, lo: nat, hi: nat, oldAttribs: seq<Op>, newAttribs: seq<Op>)
    requires AreAttribs(oldAttribs) && AreAttribs(newAttribs) && hi <= Total(oldAttribs) && hi <= Total(newAttribs)
    requires lo <= hi && hi - lo == p.spliceEnd - p.spliceStart
    requires Restyles(clearer, t, p, clearedRuns, lo) && Restyles(styler, t, p, newRuns, lo)
    requires AreCleared(clearedRuns, oldRuns)
    requires Tell(oldRuns, oldAttribs) && Tell(newRuns, newAttribs)
    ensures Styles2(Compose(clearer, styler), t, p, lo, oldAttribs, newAttribs)
  {
    hide Fits, Apply, Text, RunRestyled, Contiguous, RunsWithin, Cleared, Compose, IsFor, ApplyText, Tell, Total,
         StylesOn, RestylesOn, AreCleared;
    RestylesMeans(clearer, t, p, clearedRuns, lo);
    RestylesMeans(styler, t, p, newRuns, lo);
    ComposeIsSequential(clearer, styler, t);
    forall d: Doc | Text(d) == t ensures StylesOn(Compose(clearer, styler), p, lo, oldAttribs, newAttribs, d) {
      BothStyleOn(clearer, styler, t, p, oldRuns, clearedRuns, newRuns, lo, hi, oldAttribs, newAttribs, d);
    }
  }

  lemma BothStyleOn(clearer: Changeset, styler: Changeset, t: string, p: Plan, oldRuns: seq<AttribRun>,
      clearedRuns: seq<AttribRun>,
                    newRuns: seq<AttribRun>, lo: nat, hi: nat, oldAttribs: seq<Op>, newAttribs: seq<Op>, d: Doc)
    requires AreAttribs(oldAttribs) && AreAttribs(newAttribs) && hi <= Total(oldAttribs) && hi <= Total(newAttribs)
    requires lo <= hi && hi - lo == p.spliceEnd - p.spliceStart && Text(d) == t
    requires Restyles(clearer, t, p, clearedRuns, lo) && Restyles(styler, t, p, newRuns, lo)
    requires AreCleared(clearedRuns, oldRuns)
    requires Tell(oldRuns, oldAttribs) && Tell(newRuns, newAttribs)
    ensures StylesOn(Compose(clearer, styler), p, lo, oldAttribs, newAttribs, d)
  {
    hide Fits, Apply, Text, RunRestyled, Contiguous, RunsWithin, Cleared, Compose, IsFor, ApplyText, Tell, Total,
         Restyles, RestylesOn, StyledAs, AreCleared;
    RestylesMeans(clearer, t, p, clearedRuns, lo);
    RestylesMeans(styler, t, p, newRuns, lo);
    ComposeOn(clearer, styler, t, d);
    ComposeIsSequential(clearer, styler, t);
    OnDocument(Compose(clearer, styler), t, d);
    RestylesAt(clearer, t, p, clearedRuns, lo, d);
    RestyledKeepsText(clearer, p, clearedRuns, lo, d);
    var d1 := After(clearer, d);
    RestylesAt(styler, t, p, newRuns, lo, d1);
    RestyledKeepsText(styler, p, newRuns, lo, d1);
    var a, b := p.spliceStart, p.spliceEnd;
    RestylesSpans(clearer, p, clearedRuns, lo, d);
    RestylesSpans(styler, p, newRuns, lo, d1);
    StyledTwice(oldRuns, clearedRuns, newRuns, d[a..b], d1[a..b], lo, hi, oldAttribs, newAttribs);
  }

  lemma RestylesAt(c: Changeset, t: string, p: Plan, runs: seq<AttribRun>, lo: nat, d: Doc)
    requires Restyles(c, t, p, runs, lo) && Text(d) == t
    ensures RestylesOn(c, p, runs, lo, d)
  {
    hide RestylesOn, Text, IsFor;
  }

  lemma RestylesSpans(c: Changeset, p: Plan, runs: seq<AttribRun>, lo: nat, d: Doc)
    requires RestylesOn(c, p, runs, lo, d)
    ensures 0 <= p.spliceStart <= p.spliceEnd < |d|
    ensures Contiguous(runs, lo, lo + p.spliceEnd - p.spliceStart) && RunsWithin(runs, lo, p.spliceEnd - p.spliceStart)
  {}

  lemma StyledTwice(oldRuns: seq<AttribRun>, clearedRuns: seq<AttribRun>, newRuns: seq<AttribRun>, m: Doc, m1: Doc,
      lo: nat, hi: nat,
                    oldAttribs: seq<Op>, newAttribs: seq<Op>)
    requires AreAttribs(oldAttribs) && AreAttribs(newAttribs) && hi <= Total(oldAttribs) && hi <= Total(newAttribs)
    requires lo <= hi && |m| == hi - lo && RunsWithin(clearedRuns, lo, |m|) && RunsWithin(newRuns, lo, |m|)
    requires Contiguous(clearedRuns, lo, hi) && Contiguous(newRuns, lo, hi) && m1 == RunRestyled(clearedRuns, m, lo)
        && |m1| == |m|
    requires AreCleared(clearedRuns, oldRuns)
    requires Tell(oldRuns, oldAttribs) && Tell(newRuns, newAttribs)
    ensures StyledAs(RunRestyled(newRuns, m1, lo), m, lo, oldAttribs, newAttribs)
  {
    hide RunRestyled, Contiguous, RunsWithin, AreCleared, Tell, StyledCell, Total;
    RunRestyledLength(newRuns, m1, lo, hi);
    forall i: nat | i < |m| ensures StyledCell(RunRestyled(newRuns, m1, lo), m, lo, oldAttribs, newAttribs, i) {
      StyledTwiceAt(oldRuns, clearedRuns, newRuns, m, m1, lo, hi, oldAttribs, newAttribs, i);
    }
  }

  lemma StyledTwiceAt(oldRuns: seq<AttribRun>, clearedRuns: seq<AttribRun>, newRuns: seq<AttribRun>, m: Doc, m1: Doc,
      lo: nat, hi: nat,
                      oldAttribs: seq<Op>, newAttribs: seq<Op>, i: nat)
    requires AreAttribs(oldAttribs) && AreAttribs(newAttribs) && hi <= Total(oldAttribs) && hi <= Total(newAttribs)
    requires lo <= hi && |m| == hi - lo && RunsWithin(clearedRuns, lo, |m|) && RunsWithin(newRuns, lo, |m|) && i < |m|
    requires Contiguous(clearedRuns, lo, hi) && Contiguous(newRuns, lo, hi) && m1 == RunRestyled(clearedRuns, m, lo)
        && |m1| == |m|
    requires AreCleared(clearedRuns, oldRuns)
    requires Tell(oldRuns, oldAttribs) && Tell(newRuns, newAttribs) && |RunRestyled(newRuns, m1, lo)| == |m|
    ensures StyledCell(RunRestyled(newRuns, m1, lo), m, lo, oldAttribs, newAttribs, i)
  {
    hide RunRestyled, Contiguous, RunsWithin, Cleared, Total, AttribsAt, Restyled, AreCleared, Tell, AreAttribs;
    ClearedAt(oldRuns, clearedRuns, m, lo, hi, oldAttribs, i);
    PutOnAt(newRuns, m1, lo, hi, newAttribs, i);
  }

  lemma ClearedAt(oldRuns: seq<AttribRun>, clearedRuns: seq<AttribRun>, m: Doc, lo: nat, hi: nat, oldAttribs: seq<Op>,
      i: nat)
    requires AreAttribs(oldAttribs) && hi <= Total(oldAttribs) && lo <= hi && |m| == hi - lo
        && RunsWithin(clearedRuns, lo, |m|) && i < |m|
    requires Contiguous(clearedRuns, lo, hi) && AreCleared(clearedRuns, oldRuns) && Tell(oldRuns, oldAttribs)
    ensures |RunRestyled(clearedRuns, m, lo)| == |m|
    ensures RunRestyled(clearedRuns, m, lo)[i] == Restyled(m[i], Cleared(AttribsAt(oldAttribs, lo + i)))
  {
    hide RunRestyled, Contiguous, RunsWithin, Cleared, Total, AttribsAt, Restyled, AreCleared, Tell, AreAttribs;
    var j := RunRestyledAt(clearedRuns, m, lo, hi, lo + i);
    ClearedIs(clearedRuns, oldRuns, j, lo + i);
    ToldAt(oldRuns, oldAttribs, j, lo + i);
  }

  lemma PutOnAt(runs: seq<AttribRun>, m: Doc, lo: nat, hi: nat, ops: seq<Op>, i: nat)
    requires AreAttribs(ops) && hi <= Total(ops) && lo <= hi && |m| == hi - lo && RunsWithin(runs, lo, |m|) && i < |m|
    requires Contiguous(runs, lo, hi) && Tell(runs, ops)
    ensures |RunRestyled(runs, m, lo)| == |m| && RunRestyled(runs, m, lo)[i] == Restyled(m[i], AttribsAt(ops, lo + i))
  {
    hide RunRestyled, Contiguous, RunsWithin, Total, AttribsAt, Restyled, Tell, AreAttribs;
    var j := RunRestyledAt(runs, m, lo, hi, lo + i);
    ToldAt(runs, ops, j, lo + i);
  }

  lemma ClearedIs(cleared: seq<AttribRun>, runs: seq<AttribRun>, j: nat, k: int)
    requires AreCleared(cleared, runs) && InRun(cleared, j, k)
    ensures InRun(runs, j, k) && cleared[j].attribs == Cleared(runs[j].attribs)
  {
    hide Cleared;
  }

  lemma ToldAt(runs: seq<AttribRun>, ops: seq<Op>, j: nat, k: int)
    requires AreAttribs(ops) && Tell(runs, ops) && InRun(runs, j, k)
    ensures 0 <= k < Total(ops) && AttribsAt(ops, k) == runs[j].attribs
  {}
}
