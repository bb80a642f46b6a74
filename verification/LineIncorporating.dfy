/** The lines of the page go into the document. */
module LineIncorporating {
  import opened Attributes
  import opened AttributeMerging
  import opened Changesets
  import opened Composition
  import opened Following
  import opened NormalForm
  import opened Views
  import opened Algebra
  import opened Laws
  import opened Zipping
  import opened Engine
  import opened SmartAssembler
  import opened Building
  import opened Covering
  import opened Inversion
  import opened Inverting
  import opened DocLines
  import opened LineMutation
  import opened TextLines
  import opened SettingText
  import opened Splicing
  import opened Cleaning
  import opened Layers
  import opened Editing
  import opened LineDiff
  import opened StyleClearing
  import opened LineSplices
  import opened LineRestyling
  import opened AttributionJoining

  // ---------- the lines of the page

  const NEWLINE_OP := Op(Insert, 1, 1, [])

  // `lineAttribs.join('|1+1') + '|1+1'`
  function JoinLineAttribs(lineAttribs: seq<seq<Op>>): seq<Op> {
    if |lineAttribs| <= 1 then (if lineAttribs == [] then [] else lineAttribs[0]) + [NEWLINE_OP]
    else lineAttribs[0] + [NEWLINE_OP] + JoinLineAttribs(lineAttribs[1..])
  }

  ghost predicate CleanAttribs(ops: seq<Op>) { forall i :: 0 <= i < |ops| ==> NoEmptyValues(ops[i].attribs) }

  // A line, which ends in a newline, and the attributes of its other characters.
  ghost predicate PageLine(line: string, attribs: seq<Op>) {
    LineOk(line) && AreAttribs(attribs) && Total(attribs) == |line| - 1 && CleanAttribs(attribs)
  }

  ghost predicate PageLines(newLines: seq<string>, lineAttribs: seq<seq<Op>>) {
    |lineAttribs| == |newLines| && forall i :: 0 <= i < |newLines| ==> PageLine(newLines[i], lineAttribs[i])
  }

  lemma {:induction false} TotalConcat(a: seq<Op>, b: seq<Op>)
    requires AreAttribs(a) && AreAttribs(b)
    ensures AreAttribs(a + b) && Total(a + b) == Total(a) + Total(b)
        && (CleanAttribs(a) && CleanAttribs(b) ==> CleanAttribs(a + b))
  {
    if a == [] {
      assert a + b == b;
    } else {
      TotalConcat(a[1..], b);
      assert (a + b)[1..] == a[1..] + b;
    }
  }

  lemma OneNewline()
    ensures AreAttribs([NEWLINE_OP]) && Total([NEWLINE_OP]) == 1 && CleanAttribs([NEWLINE_OP])
  {
    assert [NEWLINE_OP][1..] == [];
    assert MapOf([]) == map[];
  }

  lemma {:induction false} JoinedFor(newLines: seq<string>, lineAttribs: seq<seq<Op>>)
    requires PageLines(newLines, lineAttribs)
    ensures var ops := JoinLineAttribs(lineAttribs);
            && AreAttribs(ops) && CleanAttribs(ops) && LinesOk(newLines)
            && Total(ops) == if newLines == [] then 1 else |Flat(newLines)|
  {
    hide LineOk, Total, AreAttribs, CleanAttribs;
    OneNewline();
    if newLines == [] {
      NoOpsFirst([NEWLINE_OP]);
    } else {
      assert PageLine(newLines[0], lineAttribs[0]);
      TotalConcat(lineAttribs[0], [NEWLINE_OP]);
      FlatHeadIs(newLines);
      JoinedFor(newLines[1..], lineAttribs[1..]);
      if |newLines| > 1 {
        TotalConcat(lineAttribs[0] + [NEWLINE_OP], JoinLineAttribs(lineAttribs[1..]));
      } else {
        FlatOne(newLines[0]);
        assert newLines == [newLines[0]];
      }
      assert newLines == [newLines[0]] + newLines[1..];
    }
  }

  lemma NoOpsFirst(ops: seq<Op>)
    ensures [] + ops == ops
  {}

  lemma {:induction false} FitTotal(ops: seq<Op>, bank: string)
    requires Fits(ops, bank, [])
    ensures AreAttribs(ops) && Total(ops) == |bank|
    decreases |ops|
  {
    hide LinesTrue;
    if ops != [] { FitTotal(ops[1..], bank[ops[0].chars..]); }
  }

  lemma {:induction false} OldAttribs(lines: seq<string>, alines: seq<seq<Op>>)
    requires AreLines(lines, alines)
    ensures AreAttribs(Flat(alines)) && Total(Flat(alines)) == |Flat(lines)|
  {
    hide LineOk, Fits, AreAttribs, Total;
    if lines == [] {
      NoAttribs();
    } else {
      FitTotal(alines[0], lines[0]);
      FlatHeadIs(lines);
      OldAttribs(lines[1..], alines[1..]);
      TotalConcat(alines[0], Flat(alines[1..]));
    }
  }

  lemma NoAttribs()
    ensures AreAttribs([]) && Total([]) == 0
  {}

  lemma {:induction false} FlatEnds(lines: seq<string>)
    requires LinesOk(lines)
    ensures EndsInNewline(Flat(lines)) && (Flat(lines) == "" <==> lines == [])
  {
    hide LineOk;
    if lines != [] {
      FlatHeadIs(lines);
      LineCounts(lines[0]);
      FlatEnds(lines[1..]);
      LastIsNewline(lines[0]);
    }
  }

  // The document cut at the lines that are replaced.
  lemma CutAtLines(lines: seq<string>, alines: seq<seq<Op>>, startLine: nat, deleteCount: nat, newLines: seq<string>)
    requires AreLines(lines, alines) && LinesOk(newLines) && startLine + deleteCount <= |lines|
    requires lines != [] && |lines| - deleteCount + |newLines| > 0
    ensures var b, e := OffsetOfIndex(lines, startLine), OffsetOfIndex(lines, startLine + deleteCount);
            && b <= e <= |Flat(lines)|
            && b == |Flat(lines[..startLine])| && e == b + |Flat(lines[startLine..startLine + deleteCount])|
            && Flat(lines)[b..e] == Flat(lines[startLine..startLine + deleteCount])
            && InDocument(Flat(lines), Flat(lines[..startLine]), Flat(lines[startLine..startLine + deleteCount]),
                Flat(newLines),
                          Flat(lines[startLine + deleteCount..]))
    ensures AreAttribs(Flat(alines[startLine..startLine + deleteCount]))
    ensures Total(Flat(alines[startLine..startLine + deleteCount])) == |Flat(lines[startLine..startLine + deleteCount])|
    ensures LinesOk(lines) && LinesOk(Spliced(lines, startLine, deleteCount, newLines))
    ensures Flat(Spliced(lines, startLine, deleteCount, newLines))
         == Flat(lines[..startLine]) + Flat(newLines) + Flat(lines[startLine + deleteCount..])
  {
    hide LineOk, Fits, AreAttribs, Total, EndsInNewline, InDocument, AreLines, LinesOk;
    var n := startLine + deleteCount;
    var x, y, z := lines[..startLine], lines[startLine..n], lines[n..];
    AreLinesOk(lines, alines);
    LinesCut(lines, alines, startLine, n);
    FlatCut(lines, startLine, n);
    LinesJoin(x, newLines, z);
    CutEnds(lines, x, y, z, newLines);
    OldAttribs(y, alines[startLine..n]);
  }

  lemma LinesCut(lines: seq<string>, alines: seq<seq<Op>>, a: nat, b: nat)
    requires AreLines(lines, alines) && a <= b <= |lines|
    ensures |alines| == |lines| && AreLines(lines[a..b], alines[a..b])
    ensures LinesOk(lines[..a]) && LinesOk(lines[a..b]) && LinesOk(lines[b..])
  {
    hide LineOk, Fits;
  }

  lemma FlatCut(lines: seq<string>, a: nat, b: nat)
    requires a <= b <= |lines|
    ensures var x, y, z := Flat(lines[..a]), Flat(lines[a..b]), Flat(lines[b..]);
            && Flat(lines) == x + y + z && OffsetOfIndex(lines, a) == |x| && OffsetOfIndex(lines, b) == |x| + |y|
            && Flat(lines)[|x|..|x| + |y|] == y
  {
    hide Flat;
    assert lines == lines[..a] + lines[a..b] + lines[b..] && lines[..b] == lines[..a] + lines[a..b];
    FlatConcat(lines[..a], lines[a..b]);
    FlatConcat(lines[..a] + lines[a..b], lines[b..]);
    PartsOfThree(Flat(lines[..a]), Flat(lines[a..b]), Flat(lines[b..]));
  }

  lemma LinesJoin(x: seq<string>, y: seq<string>, z: seq<string>)
    requires LinesOk(x) && LinesOk(y) && LinesOk(z)
    ensures LinesOk(x + y + z) && Flat(x + y + z) == Flat(x) + Flat(y) + Flat(z)
  {
    hide LineOk;
    FlatConcat(x, y);
    FlatConcat(x + y, z);
  }

  lemma CutEnds(lines: seq<string>, x: seq<string>, y: seq<string>, z: seq<string>, newLines: seq<string>)
    requires LinesOk(lines) && LinesOk(x) && LinesOk(y) && LinesOk(z) && LinesOk(newLines) && LinesOk(x + newLines + z)
    requires lines != [] && |x| + |newLines| + |z| > 0
    requires Flat(lines) == Flat(x) + Flat(y) + Flat(z) && Flat(x + newLines + z) == Flat(x) + Flat(newLines) + Flat(z)
    ensures InDocument(Flat(lines), Flat(x), Flat(y), Flat(newLines), Flat(z))
  {
    hide Flat, LinesOk, EndsInNewline;
    FlatEnds(lines);
    FlatEnds(x);
    FlatEnds(y);
    FlatEnds(z);
    FlatEnds(newLines);
    FlatEnds(x + newLines + z);
  }

  // ---------- the changesets apply

  lemma PutsApplies(c: Changeset, t: string, p: Plan, typed: Doc, d: Doc)
    requires Puts(c, t, p, typed) && Text(d) == t && NewClean(typed) && Text(typed) == p.inserted
    ensures Applies(c, d) && p.spliceEnd < |d| && Applied(c, d) == d[..p.spliceStart] + typed + d[p.spliceEnd..]
    ensures Text(Applied(c, d)) == t[..p.spliceStart] + p.inserted + t[p.spliceEnd..]
  {
    hide Fits, Apply, Text, IsFor, Clean, NewClean;
    PutsAt(c, t, p, typed, d);
    PutsClean(c, t, p, typed);
    SplicedTextOf(d, t, p, typed);
  }

  lemma PutsAt(c: Changeset, t: string, p: Plan, typed: Doc, d: Doc)
    requires Puts(c, t, p, typed) && Text(d) == t
    ensures PutsOn(c, p, typed, d)
  {
    hide PutsOn, Text, IsFor;
  }

  lemma PutsClean(c: Changeset, t: string, p: Plan, typed: Doc)
    requires Puts(c, t, p, typed) && NewClean(typed)
    ensures Clean(c.ops)
  {
    hide Fits, Apply, Text, IsFor, NewClean, Untouched, Clean;
    var u := Untouched(t);
    TextOfUntouched(t);
    PutsAt(c, t, p, typed, u);
    StillClean(t, p.spliceStart, p.spliceEnd, typed);
    CleanIfResult(c.ops, c.bank, u);
  }

  lemma StillClean(t: string, a: int, b: int, typed: Doc)
    requires NewClean(typed) && 0 <= a <= b <= |t|
    ensures NewClean(Untouched(t)[..a] + typed + Untouched(t)[b..])
  {
    hide NoEmptyValues;
  }

  lemma SplicedTextOf(d: Doc, t: string, p: Plan, typed: Doc)
    requires Text(d) == t && 0 <= p.spliceStart <= p.spliceEnd < |d| && Text(typed) == p.inserted
    ensures |d| == |t| && Text(d[..p.spliceStart] + typed + d[p.spliceEnd..]) == t[..p.spliceStart] + p.inserted
        + t[p.spliceEnd..]
  {
    hide Text;
    TextSize(d);
    TextParts(d, p.spliceStart);
    TextParts(d, p.spliceEnd);
    TextConcat(d[..p.spliceStart], typed);
    TextConcat(d[..p.spliceStart] + typed, d[p.spliceEnd..]);
  }

  lemma TypedAsText(typed: Doc, p: Plan, newText: string, lo: int, hi: int, ops: seq<Op>, who: Author,
      thisAuthor: string)
    requires AreAttribs(ops) && TypedAs(typed, newText, lo, hi, ops, who) && Typing(p, newText, lo, hi)
    requires CleanAttribs(ops) && who.att == AuthorAttribs(thisAuthor)
    ensures Text(NewlineDoc(p, Authorized([], who)) + typed) == p.inserted
    ensures NewClean(NewlineDoc(p, Authorized([], who)) + typed)
  {
    hide Text, Authorized, Total, AttribsAt, CellAs, CleanAttribs, NoEmptyValues, Typed;
    TypedAsCells(typed, newText, lo, hi, ops, who, thisAuthor);
    NewlineCells(p, who, thisAuthor);
    TextConcat(NewlineDoc(p, Authorized([], who)), typed);
    CleanBoth(NewlineDoc(p, Authorized([], who)), typed);
  }

  lemma CleanBoth(x: Doc, y: Doc)
    requires NewClean(x) && NewClean(y)
    ensures NewClean(x + y)
  {
    hide NoEmptyValues;
  }

  lemma NewlineCells(p: Plan, who: Author, thisAuthor: string)
    requires who.att == AuthorAttribs(thisAuthor)
    ensures Text(NewlineDoc(p, Authorized([], who))) == NewlineText(p) && NewClean(NewlineDoc(p, Authorized([], who)))
  {
    hide Authorized;
    assert MapOf([]) == map[];
    AuthorizedIs([], thisAuthor, who.multi);
  }

  lemma TypedAsCells(typed: Doc, newText: string, lo: int, hi: int, ops: seq<Op>, who: Author, thisAuthor: string)
    requires AreAttribs(ops) && TypedAs(typed, newText, lo, hi, ops, who) && lo <= hi && CleanAttribs(ops)
        && who.att == AuthorAttribs(thisAuthor)
    ensures Text(typed) == newText[lo..hi] && NewClean(typed)
  {
    hide Authorized, Total, AttribsAt, NoEmptyValues, CleanAttribs, AreAttribs;
    forall i | 0 <= i < |typed| ensures typed[i].ch == newText[lo + i] && typed[i].New?
        && NoEmptyValues(typed[i].attribs) {
      assert CellAs(typed, newText, lo, ops, who, lo + i);
      AttribsClean(ops, lo + i);
      AuthorizedIs(AttribsAt(ops, lo + i), thisAuthor, who.multi);
    }
    CharsAre(typed, newText, lo, hi);
  }

  lemma CharsAre(d: Doc, s: string, lo: nat, hi: nat)
    requires lo <= hi <= |s| && |d| == hi - lo && forall i :: 0 <= i < |d| ==> d[i].ch == s[lo + i]
    ensures Text(d) == s[lo..hi]
  {}

  lemma {:induction false} AttribsClean(ops: seq<Op>, k: nat)
    requires AreAttribs(ops) && k < Total(ops) && CleanAttribs(ops)
    ensures NoEmptyValues(AttribsAt(ops, k))
  {
    hide NoEmptyValues;
    if k >= ops[0].chars { AttribsClean(ops[1..], k - ops[0].chars); }
  }

  lemma StylesApplies(c: Changeset, t: string, p: Plan, lo: nat, oldAttribs: seq<Op>, newAttribs: seq<Op>, d: Doc)
    requires AreAttribs(oldAttribs) && AreAttribs(newAttribs) && Styles2(c, t, p, lo, oldAttribs, newAttribs)
        && Text(d) == t
    ensures Applies(c, d) && StylesOn(c, p, lo, oldAttribs, newAttribs, d) && Text(Applied(c, d)) == t
  {
    hide Fits, Apply, Text, IsFor, Clean, NewClean, Untouched, StylesOn, ApplyText;
    StylesAt(c, t, p, lo, oldAttribs, newAttribs, d);
    var u := Untouched(t);
    TextOfUntouched(t);
    StylesAt(c, t, p, lo, oldAttribs, newAttribs, u);
    StyledKeepsText(c, p, lo, oldAttribs, newAttribs, u);
    StyledKeepsText(c, p, lo, oldAttribs, newAttribs, d);
    UntouchedClean2(t, c, p, lo, oldAttribs, newAttribs);
    OldIsClean(After(c, u));
    CleanIfResult(c.ops, c.bank, u);
  }

  lemma StylesAt(c: Changeset, t: string, p: Plan, lo: nat, oldAttribs: seq<Op>, newAttribs: seq<Op>, d: Doc)
    requires AreAttribs(oldAttribs) && AreAttribs(newAttribs) && Styles2(c, t, p, lo, oldAttribs, newAttribs)
        && Text(d) == t
    ensures StylesOn(c, p, lo, oldAttribs, newAttribs, d) && Fits(c.ops, c.bank, d)
  {
    hide Text, IsFor, Fits;
  }

  ghost predicate AllOld(d: Doc) { forall i :: 0 <= i < |d| ==> d[i].Old? }

  lemma OldIsClean(d: Doc)
    requires AllOld(d)
    ensures NewClean(d)
  {}

  // A cell that is restyled keeps its character, and its kind.
  lemma StyledChar(e: Doc, m: Doc, lo: nat, oldAttribs: seq<Op>, newAttribs: seq<Op>, i: nat)
    requires AreAttribs(oldAttribs) && AreAttribs(newAttribs) && StyledAs(e, m, lo, oldAttribs, newAttribs) && i < |m|
    ensures e[i].ch == m[i].ch && (m[i].Old? ==> e[i].Old?)
  {
    hide Cleared, AttribsAt, Total, Restyled;
    assert StyledCell(e, m, lo, oldAttribs, newAttribs, i);
    RestyledChar(m[i], Cleared(AttribsAt(oldAttribs, lo + i)));
    RestyledChar(Restyled(m[i], Cleared(AttribsAt(oldAttribs, lo + i))), AttribsAt(newAttribs, lo + i));
  }

  lemma StyledCellsKeep(c: Changeset, p: Plan, lo: nat, oldAttribs: seq<Op>, newAttribs: seq<Op>, d: Doc, i: nat)
    requires AreAttribs(oldAttribs) && AreAttribs(newAttribs) && StylesOn(c, p, lo, oldAttribs, newAttribs, d)
        && i < |d|
    ensures |After(c, d)| == |d| && After(c, d)[i].ch == d[i].ch && (d[i].Old? ==> After(c, d)[i].Old?)
  {
    hide Fits, Apply, StyledAs;
    var a, b, e := p.spliceStart, p.spliceEnd, After(c, d);
    if i < a {
      assert e[..a][i] == d[..a][i];
    } else if i >= b {
      assert e[b..][i - b] == d[b..][i - b];
    } else {
      StyledChar(e[a..b], d[a..b], lo, oldAttribs, newAttribs, i - a);
    }
  }

  lemma StyledKeepsText(c: Changeset, p: Plan, lo: nat, oldAttribs: seq<Op>, newAttribs: seq<Op>, d: Doc)
    requires AreAttribs(oldAttribs) && AreAttribs(newAttribs) && StylesOn(c, p, lo, oldAttribs, newAttribs, d)
    ensures |After(c, d)| == |d| && Text(After(c, d)) == Text(d)
  {
    hide Fits, Apply, Text, StyledAs;
    forall i | 0 <= i < |d| ensures After(c, d)[i].ch
        == d[i].ch { StyledCellsKeep(c, p, lo, oldAttribs, newAttribs, d, i); }
    SameChars(After(c, d), d);
  }

  lemma UntouchedClean2(t: string, c: Changeset, p: Plan, lo: nat, oldAttribs: seq<Op>, newAttribs: seq<Op>)
    requires AreAttribs(oldAttribs) && AreAttribs(newAttribs)
        && StylesOn(c, p, lo, oldAttribs, newAttribs, Untouched(t))
    ensures AllOld(After(c, Untouched(t)))
  {
    hide Fits, Apply, StyledAs;
    var u := Untouched(t);
    forall i | 0 <= i < |After(c, u)| ensures After(c,
        u)[i].Old? { StyledCellsKeep(c, p, lo, oldAttribs, newAttribs, u, i); }
  }

  // ---------- taking the lines over

  // What became of the attributes. `styled` says that only styles changed.
  datatype Outcome = Outcome(p: Plan, lo: nat, hi: nat, styled: bool, who: Author)

  ghost predicate NothingPlanned(p: Plan) { p.spliceStart == p.spliceEnd && p.inserted == "" }

  ghost predicate TypedIn(d: Doc, e: Doc, o: Outcome, newText: string, newAttribs: seq<Op>)
    requires AreAttribs(newAttribs)
  {
    exists typed :: TypedAs(typed, newText, o.lo, o.hi, newAttribs, o.who)
        && ReplacedBy(d, e, o.p, NewlineDoc(o.p, Authorized([], o.who)) + typed)
  }

  // The text is the author's at the keyboard, or whose it is in the page where that shows
  // several authors.
  ghost predicate WrittenBy(who: Author, thisAuthor: string, newAttribs: seq<Op>, lo: nat, hi: nat)
    requires AreAttribs(newAttribs)
  {
    who.att == AuthorAttribs(thisAuthor) && (who.multi <==> SeveralAuthors(newAttribs, lo, hi))
  }

  ghost predicate ReplacedBy(d: Doc, e: Doc, p: Plan, middle: Doc) {
    0 <= p.spliceStart <= p.spliceEnd < |d| && e == d[..p.spliceStart] + middle + d[p.spliceEnd..]
  }

  ghost predicate StyledIn(d: Doc, e: Doc, o: Outcome, oldAttribs: seq<Op>, newAttribs: seq<Op>)
    requires AreAttribs(oldAttribs) && AreAttribs(newAttribs)
  {
    && 0 <= o.p.spliceStart <= o.p.spliceEnd < |d| && |e| == |d|
    && e[..o.p.spliceStart] == d[..o.p.spliceStart] && e[o.p.spliceEnd..] == d[o.p.spliceEnd..]
    && StyledAs(e[o.p.spliceStart..o.p.spliceEnd], d[o.p.spliceStart..o.p.spliceEnd], o.lo, oldAttribs, newAttribs)
  }

  // `s` and `e` are what is left alone at the beginning and the end of the two versions.
  ghost predicate Analyzed(o: Version, n: Version, optSelEndHint: Option<int>, s: nat, e: nat)
    requires IsWhole(o) && IsWhole(n)
  {
    exists start: nat, end: nat ::
      IsCommonStart(o, n, start) && IsCommonEnd(o, n, end) && LeftAlone(o, n, start, end, optSelEndHint, s, e)
  }

  // The plan for leaving `s` and `e` alone in the version `o`, which stands at `at` in the text.
  ghost predicate PlannedAt(all: string, at: nat, o: Version, n: Version, s: nat, e: nat, w: Outcome) {
    && s + e <= |o.text| && s + e <= |n.text| && PlanReplaces(all, at, o.text, n.text, s, e, w.p)
    && w.lo == s && w.hi == |n.text| - w.p.commonEnd - (if w.p.shift then 1 else 0)
    && (w.styled <==> w.p.inserted == o.text[s..|o.text| - w.p.commonEnd])
  }

  ghost predicate Planned(lines: seq<string>, startLine: nat, o: Version, n: Version, optSelEndHint: Option<int>,
                          w: Outcome) {
    && IsWhole(o) && IsWhole(n) && startLine <= |lines|
    && exists s: nat, e: nat ::
         Analyzed(o, n, optSelEndHint, s, e) && PlannedAt(Flat(lines), |Flat(lines[..startLine])|, o, n, s, e, w)
  }

  lemma PlannedWhoever(lines: seq<string>, startLine: nat, o: Version, n: Version, optSelEndHint: Option<int>,
                       w: Outcome, who: Author)
    requires Planned(lines, startLine, o, n, optSelEndHint, w)
    ensures Planned(lines, startLine, o, n, optSelEndHint, w.(who := who))
  {
    hide Analyzed, Flat, IsWhole;
    var at := |Flat(lines[..startLine])|;
    var s: nat, e: nat :| Analyzed(o, n, optSelEndHint, s, e) && PlannedAt(Flat(lines), at, o, n, s, e, w);
    assert PlannedAt(Flat(lines), at, o, n, s, e, w.(who := who));
  }

  lemma CommonIsUnique(o: Version, n: Version, x: nat, y: nat)
    requires IsWhole(o) && IsWhole(n)
    ensures IsCommonStart(o, n, x) && IsCommonStart(o, n, y) ==> x == y
    ensures IsCommonEnd(o, n, x) && IsCommonEnd(o, n, y) ==> x == y
  {
    hide SameFront, SameBack, Total;
  }

  // The versions, their place and the hint leave no choice: neither of what is replaced nor
  // of where its text comes from.
  lemma PlannedOnce(lines: seq<string>, startLine: nat, o: Version, n: Version, optSelEndHint: Option<int>,
                    w: Outcome, w': Outcome)
    requires Planned(lines, startLine, o, n, optSelEndHint, w) && Planned(lines, startLine, o, n, optSelEndHint, w')
    ensures w' == w.(who := w'.who)
  {
    hide IsCommonStart, IsCommonEnd, Total, Flat, IsWhole, LeftAlone, Analyzed, PlannedAt;
    var at := |Flat(lines[..startLine])|;
    var s: nat, e: nat :| Analyzed(o, n, optSelEndHint, s, e) && PlannedAt(Flat(lines), at, o, n, s, e, w);
    var s': nat, e': nat :| Analyzed(o, n, optSelEndHint, s', e') && PlannedAt(Flat(lines), at, o, n, s', e', w');
    AnalyzedOnce(o, n, optSelEndHint, s, e, s', e');
    PlannedAtOnce(Flat(lines), at, o, n, s, e, w, w');
  }

  lemma PlannedAtOnce(all: string, at: nat, o: Version, n: Version, s: nat, e: nat, w: Outcome, w': Outcome)
    requires PlannedAt(all, at, o, n, s, e, w) && PlannedAt(all, at, o, n, s, e, w')
    ensures w' == w.(who := w'.who)
  {}

  lemma AnalyzedOnce(o: Version, n: Version, optSelEndHint: Option<int>, s: nat, e: nat, s': nat, e': nat)
    requires IsWhole(o) && IsWhole(n)
    requires Analyzed(o, n, optSelEndHint, s, e) && Analyzed(o, n, optSelEndHint, s', e')
    ensures s == s' && e == e'
  {
    hide IsCommonStart, IsCommonEnd, Total, IsWhole, SplitsAtCursor;
    var start: nat, end: nat :| IsCommonStart(o, n, start) && IsCommonEnd(o, n, end)
      && LeftAlone(o, n, start, end, optSelEndHint, s, e);
    var start': nat, end': nat :| IsCommonStart(o, n, start') && IsCommonEnd(o, n, end')
      && LeftAlone(o, n, start', end', optSelEndHint, s', e');
    CommonIsUnique(o, n, start, start');
    CommonIsUnique(o, n, end, end');
  }

  // The plan for two versions of some lines in a text.
  method MakePlan(allText: string, startOldChar: nat, endOldChar: nat, oldText: string, newText: string,
      commonStart: nat, commonEnd: nat)
    returns (p: Plan, styled: bool)
    requires commonStart + commonEnd <= |oldText| && commonStart + commonEnd <= |newText|
        && endOldChar == startOldChar + |oldText|
    ensures p == Spared(FirstPlan(startOldChar, endOldChar, oldText, newText, commonStart, commonEnd), allText)
    ensures var q := FirstPlan(startOldChar, endOldChar, oldText, newText, commonStart, commonEnd);
            styled <==> p.inserted == oldText[commonStart..|oldText| - q.commonEnd]
  {
    var end := commonEnd;
    var shortOldText := oldText[commonStart..|oldText| - commonEnd];
    var shortNewText := newText[commonStart..|newText| - commonEnd];
    var spliceStart := startOldChar + commonStart;
    var spliceEnd := endOldChar - commonEnd;
    if shortOldText != "" && shortOldText[|shortOldText| - 1] == '\n' && shortNewText != ""
        && shortNewText[|shortNewText| - 1] == '\n' {
      shortOldText := shortOldText[..|shortOldText| - 1];
      shortNewText := shortNewText[..|shortNewText| - 1];
      spliceEnd := spliceEnd - 1;
      end := end + 1;
    }
    assert shortOldText == oldText[commonStart..|oldText| - end];
    p := SparePlan(allText, Plan(spliceStart, spliceEnd, shortNewText, end, false), |shortOldText|);
    styled := p.inserted == shortOldText;
  }

  // The same for the final newline of the document.
  method SparePlan(allText: string, q: Plan, oldLength: nat) returns (p: Plan)
    requires oldLength == q.spliceEnd - q.spliceStart && !q.shift
    ensures p == Spared(q, allText)
  {
    var spliceStart, spliceEnd, shortNewText := q.spliceStart, q.spliceEnd, q.inserted;
    var shiftFinalNewlineToBeforeNewText := false;
    if oldLength == 0 && spliceStart == |allText| && |shortNewText| > 0 {
      // inserting after the final newline
      spliceStart := spliceStart - 1;
      spliceEnd := spliceEnd - 1;
      shortNewText := "\n" + shortNewText[..|shortNewText| - 1];
      shiftFinalNewlineToBeforeNewText := true;
    }
    if spliceEnd == |allText| && oldLength > 0 && |shortNewText| == 0 {
      // deleting up to the end
      if 0 < spliceStart <= |allText| && allText[spliceStart - 1] == '\n' {
        spliceStart := spliceStart - 1;
        spliceEnd := spliceEnd - 1;
      }
    }
    p := Plan(spliceStart, spliceEnd, shortNewText, q.commonEnd, shiftFinalNewlineToBeforeNewText);
  }

  // What the plan inserts is a stretch of the new text, and where it only changes styles it
  // replaces a stretch by itself.
  lemma PlanTypes(all: string, before: string, old_: string, new_: string, after: string, s: nat, e: nat, p: Plan)
    requires all == before + old_ + after && MiddleReplaced(old_, new_, s, e)
    requires p == Spared(FirstPlan(|before|, |before| + |old_|, old_, new_, s, e), all)
    ensures 0 <= p.commonEnd && Typing(p, new_, s, |new_| - p.commonEnd - if p.shift then 1 else 0)
    ensures var q := FirstPlan(|before|, |before| + |old_|, old_, new_, s, e);
            && s + q.commonEnd <= |old_| && q.commonEnd >= 0
            && (p.inserted == old_[s..|old_| - q.commonEnd] && !NothingPlanned(p) ==>
                  var hi := |new_| - p.commonEnd;
                  !p.shift && 0 <= p.spliceStart <= p.spliceEnd <= |all| && hi - s == p.spliceEnd - p.spliceStart
                  && hi <= |old_| && all[p.spliceStart..p.spliceEnd] == new_[s..hi])
  {
    hide FirstPlan, MiddleReplaced, Spared, Typing;
    FirstPlanIsRight(all, before, old_, new_, after, s, e);
    var q := FirstPlan(|before|, |before| + |old_|, old_, new_, s, e);
    PlanCases(q, all);
    PlanTyping(q, p, new_, s);
    if p.shift {
      assert |old_[s..|old_| - q.commonEnd]| == q.spliceEnd - q.spliceStart;
    } else if p.inserted == old_[s..|old_| - q.commonEnd] && !NothingPlanned(p) {
      StyledPlan(all, before, old_, new_, after, s, e, p);
    }
  }

  lemma PlanTyping(q: Plan, p: Plan, new_: string, s: nat)
    requires 0 <= q.commonEnd == p.commonEnd && s + q.commonEnd <= |new_|
    requires q.inserted == new_[s..|new_| - q.commonEnd]
    requires if p.shift then q.inserted != "" && p.inserted == "\n" + q.inserted[..|q.inserted| - 1]
             else p.inserted == q.inserted
    ensures Typing(p, new_, s, |new_| - p.commonEnd - if p.shift then 1 else 0)
  {
    if p.shift {
      assert q.inserted[..|q.inserted| - 1] == new_[s..|new_| - q.commonEnd - 1];
    } else {
      NoOpsInFrontOf(p.inserted);
    }
  }

  lemma StyledPlan(all: string, before: string, old_: string, new_: string, after: string, s: nat, e: nat, p: Plan)
    requires all == before + old_ + after && MiddleReplaced(old_, new_, s, e)
    requires p == Spared(FirstPlan(|before|, |before| + |old_|, old_, new_, s, e), all) && !p.shift
        && !NothingPlanned(p)
    ensures var q := FirstPlan(|before|, |before| + |old_|, old_, new_, s, e);
            && s + q.commonEnd <= |old_| && q.commonEnd >= 0
            && (p.inserted == old_[s..|old_| - q.commonEnd] ==>
                  var hi := |new_| - p.commonEnd;
                  && 0 <= p.spliceStart <= p.spliceEnd <= |all| && hi - s == p.spliceEnd - p.spliceStart
                  && hi <= |old_| && s <= hi <= |new_| && all[p.spliceStart..p.spliceEnd] == new_[s..hi])
  {
    hide FirstPlan, MiddleReplaced, Spared;
    FirstPlanIsRight(all, before, old_, new_, after, s, e);
    var q := FirstPlan(|before|, |before| + |old_|, old_, new_, s, e);
    PlanCases(q, all);
    InsideDocument(before, old_, after, s, q.commonEnd);
  }

  lemma NoOpsInFrontOf(x: string)
    ensures "" + x == x
  {}

  lemma InsideDocument(before: string, old_: string, after: string, s: nat, e: nat)
    requires s + e <= |old_|
    ensures (before + old_ + after)[|before| + s..|before| + |old_| - e] == old_[s..|old_| - e]
  {}

  lemma PlanCases(q: Plan, all: string)
    requires 0 <= q.spliceStart <= q.spliceEnd <= |all| && !q.shift
    ensures var p := Spared(q, all);
            && p.commonEnd == q.commonEnd
            && (p.shift ==>
                  && q.inserted != "" && p.inserted == "\n" + q.inserted[..|q.inserted| - 1]
                  && q.spliceStart == q.spliceEnd)
            && (!p.shift ==> p.inserted == q.inserted && p.spliceEnd - p.spliceStart == q.spliceEnd - q.spliceStart)
            && (!p.shift && p != q ==> q.inserted == "" && q.spliceStart < q.spliceEnd)
  {}

  method SpliceChangeset(lines: seq<string>, p: Plan, styled: bool, newText: string, oldAttribs: seq<Op>,
      newAttribs: seq<Op>, lo: nat, hi: nat,
                         thisAuthor: string, ghost d: Doc) returns (c: Changeset, ghost who: Author)
    requires LinesOk(lines) && 0 <= p.spliceStart <= p.spliceEnd < |Flat(lines)| && Text(d) == Flat(lines)
    requires AreAttribs(oldAttribs) && AreAttribs(newAttribs) && CleanAttribs(newAttribs)
    requires hi <= Total(newAttribs) && Typing(p, newText, lo, hi)
    requires styled ==> hi <= Total(oldAttribs) && hi - lo == p.spliceEnd - p.spliceStart && !p.shift
                        && Flat(lines)[p.spliceStart..p.spliceEnd] == newText[lo..hi]
    ensures Applies(c, d) && Text(Applied(c, d)) == Flat(lines)[..p.spliceStart] + p.inserted
        + Flat(lines)[p.spliceEnd..]
    ensures var o := Outcome(p, lo, hi, styled, who);
            if styled then StyledIn(d, Applied(c, d), o, oldAttribs, newAttribs)
            else TypedIn(d, Applied(c, d), o, newText, newAttribs) && WrittenBy(who, thisAuthor, newAttribs, lo, hi)
  {
    hide LinesOk, Flat, Total, Fits, Apply, Text, IsFor, Clean, NewClean, TypedAs, StyledAs, Styles2, Puts,
         CleanAttribs, Authorized, NewlineDoc, AreAttribs, SeveralAuthors;
    ghost var t := Flat(lines);
    if styled {
      who := Author([], false);
      c := StylingChangeset(lines, p, newText, oldAttribs, newAttribs, lo, hi);
      StylesApplies(c, t, p, lo, oldAttribs, newAttribs, d);
      SameWhole(t, p, newText, lo, hi);
    } else {
      ghost var typed;
      c, typed, who := TypingChangeset(lines, p, newText, newAttribs, lo, hi, thisAuthor);
      TypedAsText(typed, p, newText, lo, hi, newAttribs, who, thisAuthor);
      PutsApplies(c, t, p, NewlineDoc(p, Authorized([], who)) + typed, d);
      assert ReplacedBy(d, Applied(c, d), p, NewlineDoc(p, Authorized([], who)) + typed);
    }
  }

  lemma SameWhole(t: string, p: Plan, newText: string, lo: nat, hi: nat)
    requires 0 <= p.spliceStart <= p.spliceEnd <= |t| && Typing(p, newText, lo, hi) && !p.shift
    requires t[p.spliceStart..p.spliceEnd] == newText[lo..hi]
    ensures t[..p.spliceStart] + p.inserted + t[p.spliceEnd..] == t
  {
    NoOpsInFrontOf(newText[lo..hi]);
  }

  // The lines the text of a document is split into.
  lemma SplicedLines(t: seq<string>, v: seq<seq<Op>>, expected: seq<string>)
    requires AreLines(t, v) && LinesOk(expected) && Text(DocFrom(t, v, 0)) == Flat(expected)
    ensures t == expected
  {
    hide LineOk, Fits, DocFrom, Text, LinesOk, AreLines, IsSplit;
    TextIsFlat(t, v);
    AreLinesOk(t, v);
    LinesAreSplit(t);
    LinesAreSplit(expected);
    SplitIsUnique(t, expected, Flat(t));
  }

  lemma SomeLines(t: seq<string>, v: seq<seq<Op>>)
    requires AreLines(t, v) && IsDoc(DocFrom(t, v, 0))
    ensures t != [] && |v| == |t|
  {}

  lemma WholeVersions(oldText: string, oldAttribs: seq<Op>, newText: string, newAttribs: seq<Op>, newLines: seq<string>)
    requires AreAttribs(oldAttribs) && Total(oldAttribs) == |oldText| && newText == Flat(newLines)
    requires AreAttribs(newAttribs) && Total(newAttribs) == if newLines == [] then 1 else |newText|
    ensures IsWhole(Version(oldText, oldAttribs)) && IsWhole(Version(newText, newAttribs))
        && |newText| <= Total(newAttribs)
  {}

  lemma DocumentEnds(all: string, before: string, old_: string, new_: string, after: string)
    requires InDocument(all, before, old_, new_, after)
    ensures EndsInNewline(old_) && EndsInNewline(new_) && all == before + old_ + after
  {}

  lemma PlanBounds(p: Plan, all: string, result: string, newText: string, lo: nat, hi: int)
    requires PlanOk(p, all, result) && Typing(p, newText, lo, hi)
    ensures 0 <= p.spliceStart <= p.spliceEnd <= |all| && lo <= hi <= |newText|
    ensures !NothingPlanned(p) ==> p.spliceEnd < |all|
    ensures all[..p.spliceStart] + p.inserted + all[p.spliceEnd..] == result
    ensures NothingPlanned(p) ==> result == all
  {
    if NothingPlanned(p) { assert all[..p.spliceStart] + "" + all[p.spliceStart..] == all; }
  }

  lemma PlanHasHead(all: string, before: string, old_: string, new_: string, after: string, s: nat, e: nat, p: Plan)
    requires all == before + old_ + after && MiddleReplaced(old_, new_, s, e)
    requires p == Spared(FirstPlan(|before|, |before| + |old_|, old_, new_, s, e), all)
    ensures s <= |new_| - p.commonEnd - if p.shift then 1 else 0
    ensures var q := FirstPlan(|before|, |before| + |old_|, old_, new_, s, e);
            s + q.commonEnd <= |old_| && 0 <= q.commonEnd == p.commonEnd
  {
    hide FirstPlan, MiddleReplaced, Spared;
    PlanTypes(all, before, old_, new_, after, s, e, p);
    FirstPlanIsRight(all, before, old_, new_, after, s, e);
    PlanCases(FirstPlan(|before|, |before| + |old_|, old_, new_, s, e), all);
  }

  // A plan that follows the analysis replaces the lines and nothing else.
  lemma PlanMeets(all: string, before: string, o: Version, n: Version, after: string, s: nat, e: nat, w: Outcome)
    requires InDocument(all, before, o.text, n.text, after) && MiddleReplaced(o.text, n.text, s, e)
    requires (e == 0 ==> s == |o.text| || s == |n.text|) && PlannedAt(all, |before|, o, n, s, e, w)
    ensures var p := w.p;
            && 0 <= p.spliceStart <= p.spliceEnd <= |all|
            && all[..p.spliceStart] + p.inserted + all[p.spliceEnd..] == before + n.text + after
            && (NothingPlanned(p) ==> before + n.text + after == all)
            && Typing(p, n.text, w.lo, w.hi)
            && (!NothingPlanned(p) ==>
                  && p.spliceEnd < |all| && w.hi <= |n.text|
                  && (w.styled ==> w.hi <= |o.text| && w.hi - w.lo == p.spliceEnd - p.spliceStart && !p.shift
                                   && all[p.spliceStart..p.spliceEnd] == n.text[w.lo..w.hi]))
  {
    hide InDocument, MiddleReplaced, FirstPlan, Spared, PlanOk, Typing, NothingPlanned, PlanReplaces;
    DocumentEnds(all, before, o.text, n.text, after);
    WhatIsReplaced(all, before, o.text, n.text, after, s, e, w.p);
    PlanIsRight(all, before, o.text, n.text, after, s, e);
    PlanTypes(all, before, o.text, n.text, after, s, e, w.p);
    PlanHasHead(all, before, o.text, n.text, after, s, e, w.p);
    PlanBounds(w.p, all, before + n.text + after, n.text, w.lo, w.hi);
  }

  // What the analysis of the page's lines leads to: a plan, and the stretch of the new text
  // that it is about.
  method PlanFor(t: seq<string>, v: seq<seq<Op>>, startLine: nat, deleteCount: nat, newLines: seq<string>,
      oldAttribs: seq<Op>,
                 newAttribs: seq<Op>, optSelEndHint: Option<int>) returns (p: Plan, styled: bool, lo: nat, hi: nat)
    requires AreLines(t, v) && t != [] && LinesOk(newLines) && startLine + deleteCount <= |t| == |v|
        && |t| - deleteCount + |newLines| > 0
    requires oldAttribs == Flat(v[startLine..startLine + deleteCount]) && AreAttribs(newAttribs)
    requires Total(newAttribs) == if newLines == [] then 1 else |Flat(newLines)|
    ensures 0 <= p.spliceStart <= p.spliceEnd <= |Flat(t)| && AreAttribs(oldAttribs)
    ensures Flat(t)[..p.spliceStart] + p.inserted + Flat(t)[p.spliceEnd..]
        == Flat(Spliced(t, startLine, deleteCount, newLines))
    ensures LinesOk(Spliced(t, startLine, deleteCount, newLines)) && LinesOk(t)
    ensures NothingPlanned(p) ==> Flat(Spliced(t, startLine, deleteCount, newLines)) == Flat(t)
    ensures Planned(t, startLine, Version(Flat(t[startLine..startLine + deleteCount]), oldAttribs),
                    Version(Flat(newLines), newAttribs), optSelEndHint, Outcome(p, lo, hi, styled, Author([], false)))
    ensures !NothingPlanned(p) ==>
              && p.spliceEnd < |Flat(t)| && hi <= Total(newAttribs) && Typing(p, Flat(newLines), lo, hi)
              && (styled ==> hi <= Total(oldAttribs) && hi - lo == p.spliceEnd - p.spliceStart && !p.shift
                             && Flat(t)[p.spliceStart..p.spliceEnd] == Flat(newLines)[lo..hi])
  {
    hide AreLines, LinesOk, Flat, Total, AreAttribs, InDocument, MiddleReplaced, FirstPlan, Spared, PlanOk,
         PlanReplaces,
         IsCommonStart, IsCommonEnd, LeftAlone, IsWhole, Planned,
         Typing, EndsInNewline, Spliced;
    CutAtLines(t, v, startLine, deleteCount, newLines);
    var allText := Flat(t);
    var startOldChar := OffsetOfIndex(t, startLine);
    var endOldChar := OffsetOfIndex(t, startLine + deleteCount);
    var newText := Flat(newLines);
    var oldText := allText[startOldChar..endOldChar];
    ghost var before, after := Flat(t[..startLine]), Flat(t[startLine + deleteCount..]);
    WholeVersions(oldText, oldAttribs, newText, newAttribs, newLines);
    var commonStart, commonEnd, start, end := AnalyzeChange(Version(oldText, oldAttribs), Version(newText, newAttribs),
        optSelEndHint);
    DocumentEnds(allText, before, oldText, newText, after);
    ReplacedInTheMiddle(Version(oldText, oldAttribs), Version(newText, newAttribs), start, end, optSelEndHint,
                        commonStart, commonEnd);
    ReplacedBounds(oldText, newText, commonStart, commonEnd);
    p, styled := MakePlan(allText, startOldChar, endOldChar, oldText, newText, commonStart, commonEnd);
    var stop := |newText| - p.commonEnd - if p.shift then 1 else 0;
    PlanHasHead(allText, before, oldText, newText, after, commonStart, commonEnd, p);
    lo, hi := commonStart, stop;
    ghost var w := Outcome(p, lo, hi, styled, Author([], false));
    WhatIsReplaced(allText, before, oldText, newText, after, commonStart, commonEnd, p);
    PlanMeets(allText, before, Version(oldText, oldAttribs), Version(newText, newAttribs), after, commonStart,
              commonEnd, w);
    PlanIsPlanned(t, startLine, Version(oldText, oldAttribs), Version(newText, newAttribs), optSelEndHint, start, end,
                  commonStart, commonEnd, w);
  }

  lemma PlanIsPlanned(lines: seq<string>, startLine: nat, o: Version, n: Version, optSelEndHint: Option<int>,
                      start: nat, end: nat, s: nat, e: nat, w: Outcome)
    requires IsWhole(o) && IsWhole(n) && startLine <= |lines|
    requires IsCommonStart(o, n, start) && IsCommonEnd(o, n, end)
    requires LeftAlone(o, n, start, end, optSelEndHint, s, e)
    requires PlannedAt(Flat(lines), |Flat(lines[..startLine])|, o, n, s, e, w)
    ensures Planned(lines, startLine, o, n, optSelEndHint, w)
  {
    hide IsWhole, IsCommonStart, IsCommonEnd, LeftAlone, PlannedAt, Flat, Total;
    assert Analyzed(o, n, optSelEndHint, s, e);
  }

  // The lines from `startLine` on are replaced by those of the page. `optSelEndHint` is where
  // the cursor stands in them.
  method DoIncorpLineSplice(editor: Editor, startLine: nat, deleteCount: nat, newLines: seq<string>,
                            lineAttribs: seq<seq<Op>>, optSelEndHint: Option<int>, thisAuthor: string)
    returns (ghost o: Outcome)
    requires editor.Valid() && PageLines(newLines, lineAttribs) && startLine + deleteCount <= |editor.lines.items|
    requires |editor.lines.items| - deleteCount + |newLines| > 0
    modifies editor`editEvent, editor.lines, editor.alines
    ensures editor.Valid() && editor.editEvent.eventType == old(editor.editEvent.eventType)
    ensures editor.lines.items == Spliced(old(editor.lines.items), startLine, deleteCount, newLines)
    ensures |old(editor.alines.items)| == |old(editor.lines.items)|
    ensures var oldAttribs, newAttribs := Flat(old(editor.alines.items)[startLine..startLine + deleteCount]),
        JoinLineAttribs(lineAttribs);
            && AreAttribs(oldAttribs) && AreAttribs(newAttribs)
            && Planned(old(editor.lines.items), startLine,
                       Version(Flat(old(editor.lines.items)[startLine..startLine + deleteCount]), oldAttribs),
                       Version(Flat(newLines), newAttribs), optSelEndHint, o)
            && (if NothingPlanned(o.p) then editor.Doc() == old(editor.Doc())
                else if o.styled then StyledIn(old(editor.Doc()), editor.Doc(), o, oldAttribs, newAttribs)
                else
                  && TypedIn(old(editor.Doc()), editor.Doc(), o, Flat(newLines), newAttribs)
                  && WrittenBy(o.who, thisAuthor, newAttribs, o.lo, o.hi))
  {
    hide AreLines, IsDoc, DocFrom, Records, LinesOk, Flat, Total, Fits, Apply, Text, IsFor, Clean, TypedIn, StyledIn,
         AreAttribs, CleanAttribs, PageLine,
         Typing, Spliced, JoinLineAttribs, Planned, WrittenBy;
    ghost var t, v := editor.lines.items, editor.alines.items;
    ghost var d := editor.Doc();
    TextIsFlat(t, v);
    SomeLines(t, v);
    JoinedFor(newLines, lineAttribs);
    var oldAttribs := Flat(editor.alines.items[startLine..startLine + deleteCount]);
    var newAttribs := JoinLineAttribs(lineAttribs);
    var p, styled, lo, hi := PlanFor(editor.lines.items, editor.alines.items, startLine, deleteCount, newLines,
        oldAttribs, newAttribs, optSelEndHint);
    o := Outcome(p, lo, hi, styled, Author([], false));
    ghost var was, is_ := Version(Flat(t[startLine..startLine + deleteCount]), oldAttribs),
                          Version(Flat(newLines), newAttribs);
    if p.spliceStart == p.spliceEnd && p.inserted == "" {
      SplicedLines(t, v, Spliced(t, startLine, deleteCount, newLines));
    } else {
      var changeset, who := SpliceChangeset(editor.lines.items, p, styled, Flat(newLines), oldAttribs, newAttribs, lo,
          hi, thisAuthor, d);
      o := Outcome(p, lo, hi, styled, who);
      PlannedWhoever(t, startLine, was, is_, optSelEndHint, Outcome(p, lo, hi, styled, Author([], false)), who);
      ghost var newItems := editor.DoRepApplyChangeset(changeset);
      SplicedLines(newItems, editor.alines.items, Spliced(t, startLine, deleteCount, newLines));
      AppliedDoc(changeset, d);
    }
    editor.lines.Splice(startLine, deleteCount, newLines);
  }
}
