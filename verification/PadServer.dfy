/** The server's side of a pad: revisions, and what becomes of a client's changes. */
module PadServer {
  import opened Attributes
  import opened Changesets
  import opened Composition
  import opened NormalForm
  import opened Algebra
  import opened Laws
  import opened Zipping
  import opened Engine
  import opened FollowEngine
  import opened Applying
  import opened Inversion
  import opened Cleaning
  import opened Layers
  import opened Network
  import opened Splicing
  import opened Tracking
  import opened MarkerCorrection

  // `text.lastIndexOf("\n\n") == text.length - 2`, when the text is longer than that
  predicate EndsBlank(text: string) {
    |text| >= 2 && text[|text| - 1] == '\n' && text[|text| - 2] == '\n'
  }

  // With a newline in front of the last character, unless the text ends in a blank line.
  ghost function EndingBlank(d: Doc): Doc
    requires d != []
  {
    if EndsBlank(Text(d)) then d else d[..|d| - 1] + [New('\n', [])] + d[|d| - 1..]
  }

  ghost predicate EndsLine(d: Doc) { d != [] && d[|d| - 1].ch == '\n' }

  // What became of a client's changes. `IllFormed`: they are a revision, but the correction that
  // follows counts the newlines it deletes wrong.
  datatype Verdict = Accepted | WrongLength | IllFormed

  class PadModel {
    var atext: AText
    var revs: seq<Changeset>
    ghost var docs: seq<Doc>

    ghost function History(): Pad
      reads this
    {
      Pad(docs, revs)
    }

    ghost predicate Valid()
      reads this
    {
      PadOk(History()) && IsAText(atext) && DocOf(atext) == docs[|revs|]
    }

    constructor (initial: AText)
      requires IsAText(initial) && IsDoc(DocOf(initial))
      ensures Valid() && History() == Pad([DocOf(initial)], [])
    {
      atext := initial;
      revs := [];
      docs := [DocOf(initial)];
    }

    // A new revision, applied to the pad's text.
    method AddRevision(c: Changeset)
      requires Valid() && Applies(c, docs[|revs|])
      modifies this
      ensures Valid() && History() == Appended(old(History()), c)
    {
      hide Applies, Applied, IsDoc, IsAText, DocOf, PadOk, Fits, Apply, Normal, IsFor, IsCleanFor, ApplyText;
      AppendedOk(History(), c);
      HeadMeans(History(), atext, c);
      atext := ApplyToAText(c, atext);
      revs := revs + [c];
      docs := docs + [DocOf(atext)];
    }

    // Carries a client's changes from the revision they were made on to the head.
    method CarryForward(baseRev: nat, c: Changeset) returns (changeset: Changeset)
      requires Valid() && baseRev <= |revs| && Applies(c, docs[baseRev])
      ensures changeset == Chain(revs[baseRev..], c) && Applies(changeset, docs[|revs|])
    {
      hide Applies, Applied, IsDoc, IsAText, DocOf, PadOk, Chain, Follow;
      changeset := c;
      var r := baseRev;
      ghost var p := History();
      StartChain(p, baseRev, c);
      while r < |revs|
        invariant baseRev <= r <= |revs| && PadOk(p) && changeset == Chain(revs[baseRev..r], c)
            && Applies(changeset, docs[r])
      {
        ChainStep(p, baseRev, r, c);
        r := r + 1;
        var f := FollowChangesets(revs[r - 1], changeset, false, Text(docs[r - 1]), Text(docs[r - 1]));
        changeset := f.value;
      }
      assert revs[baseRev..|revs|] == revs[baseRev..];
    }

    // The correction of the markers, if it is one for the text.
    method CorrectMarkers() returns (ok: bool)
      requires Valid() && |docs| == |revs| + 1 && EndsLine(docs[|revs|])
      modifies this
      ensures Valid() && |docs| == |revs| + 1 && |revs| >= |old(revs)| && old(docs) <= docs && old(revs) <= revs
      ensures ok <==> NewlinesSpared(old(docs[|revs|]), |old(docs[|revs|])|)
      ensures !ok ==> History() == old(History())
      ensures ok ==> docs[|revs|] == Corrected(old(docs[|revs|])) && WellPlaced(docs[|revs|]) && EndsLine(docs[|revs|])
      ensures ok ==> |revs| == |old(revs)| + if WellPlaced(old(docs[|revs|])) then 0 else 1
    {
      hide Applies, Applied, IsDoc, IsAText, DocOf, PadOk, Text, ApplyText, NewlinesSpared, WellPlaced, Corrected;
      ghost var p := History();
      HeadText(p, atext);
      LineEndOfText(p, atext);
      CorrectedIsRight(docs[|revs|]);
      var correctionChangeset, wellFormed := CorrectMarkersInPad(atext);
      if !wellFormed { return false; }
      if correctionChangeset.Some? {
        AddRevision(correctionChangeset.value);
        LastDoc(p, correctionChangeset.value);
      }
      ok := true;
    }

    // A blank line at the end.
    method EndInBlankLine()
      requires Valid() && |docs| == |revs| + 1 && EndsLine(docs[|revs|])
      modifies this
      ensures Valid() && |docs| == |revs| + 1 && |revs| >= |old(revs)| && old(docs) <= docs && old(revs) <= revs
      ensures docs[|revs|] == EndingBlank(old(docs[|revs|])) && EndsBlank(Text(docs[|revs|]))
      ensures |revs| == |old(revs)| + if EndsBlank(Text(old(docs[|revs|]))) then 0 else 1
    {
      hide Applies, Applied, IsDoc, IsAText, DocOf, PadOk, Text, Splices, SplicedText, ApplyText, EndsBlank;
      ghost var q := History();
      HeadText(q, atext);
      LineEndOfText(q, atext);
      if !EndsBlank(atext.text) {
        var nlChangeset := MakeSplice(atext.text, |atext.text| - 1, 0, "\n", []);
        BlankLine(q, atext, nlChangeset);
        AddRevision(nlChangeset);
        LastDoc(q, nlChangeset);
      }
    }

    // `applyUserChanges`: a revision is made of the changes; another takes out list markers
    // that do not start a line any more, and another makes the document end in a blank line.
    method ApplyUserChanges(baseRev: nat, c: Changeset) returns (r: Verdict)
      requires Valid() && |docs| == |revs| + 1 && baseRev <= |revs| && Applies(c, docs[baseRev])
      requires EndsLine(docs[|revs|])
      modifies this
      ensures Valid() && |docs| == |revs| + 1 && r != WrongLength
      ensures |revs| > |old(revs)| && old(revs) <= revs && old(docs) <= docs
      ensures revs[|old(revs)|] == Chain(old(revs[baseRev..]), c)
      ensures var d := docs[|old(revs)| + 1];
              && d != [] && Corrected(d) != []
              && (r.IllFormed? <==> !NewlinesSpared(d, |d|))
              && (r.IllFormed? ==> |revs| == |old(revs)| + 1)
              && (r.Accepted? ==>
                    && docs[|revs|] == EndingBlank(Corrected(d))
                    && WellPlaced(docs[|revs|]) && EndsBlank(Text(docs[|revs|]))
                    && |revs| == |old(revs)| + 1 + (if WellPlaced(d) then 0 else 1)
                                 + if EndsBlank(Text(Corrected(d))) then 0 else 1)
    {
      hide Applies, Applied, IsDoc, IsAText, DocOf, PadOk, Chain, Follow, Text, ApplyText, EndsBlank, EndingBlank,
           NewlinesSpared, WellPlaced, Corrected;
      var changeset := CarryForward(baseRev, c);
      ghost var p := History();
      HeadText(p, atext);
      CarriedFits(p, changeset, atext);
      if changeset.oldLen != |atext.text| {
        return WrongLength;
      }
      AddRevision(changeset);
      EndsInNewline(p, changeset, atext);
      LineEndOfText(History(), atext);
      CorrectedIsSome(docs[|revs|]);
      var ok := CorrectMarkers();
      if !ok { return IllFormed; }
      BlankIsPlaced(docs[|revs|]);
      EndInBlankLine();
      r := Accepted;
    }
  }

  lemma LineEndOfText(p: Pad, a: AText)
    requires PadOk(p) && IsAText(a) && DocOf(a) == p.docs[Head(p)]
    ensures |p.docs| == Head(p) + 1
    ensures EndsLine(p.docs[Head(p)]) <==> a.text != "" && a.text[|a.text| - 1] == '\n'
  {
    hide IsAText, DocOf, Text, IsDoc, Applies, Applied;
    HeadText(p, a);
    LastOfText(p.docs[Head(p)], a.text);
  }

  lemma CorrectedIsSome(d: Doc)
    requires d != []
    ensures Corrected(d) != []
  {
    FirstStays(d, d, |d|);
  }

  lemma BlankIsPlaced(d: Doc)
    requires WellPlaced(d) && EndsLine(d)
    ensures WellPlaced(EndingBlank(d))
  {
    hide Text, EndsBlank;
    var e, n := EndingBlank(d), |d|;
    assert MapOf([]) == map[];
    forall i: nat ensures !Misplaced(e, i) {
      assert !Misplaced(d, i);
      if e != d && i < n - 1 { assert e[i] == d[i]; }
    }
  }

  lemma LastDoc(p: Pad, c: Changeset)
    requires PadOk(p) && Applies(c, p.docs[Head(p)])
    ensures Appended(p, c).docs[Head(p) + 1] == Applied(c, p.docs[Head(p)])
  {
    hide Applied, Applies, IsDoc;
  }

  lemma HeadMeans(p: Pad, a: AText, c: Changeset)
    requires PadOk(p) && IsAText(a) && DocOf(a) == p.docs[Head(p)] && Applies(c, p.docs[Head(p)])
    ensures IsFor(c, a.text) && Fits(c.ops, c.bank, DocOf(a)) && Applied(c, p.docs[Head(p)]) == After(c, DocOf(a))
    ensures |p.docs| == |p.revs| + 1
  {
    hide Applied, IsDoc, IsAText, Fits, Apply, IsFor;
    DocOfText(a);
    AppliedIs(c, DocOf(a));
  }

  lemma StartChain(p: Pad, b: nat, c: Changeset)
    requires PadOk(p) && b <= Head(p)
    ensures |p.docs| == |p.revs| + 1 && Chain(p.revs[b..b], c) == c
  {
    assert p.revs[b..b] == [];
  }

  lemma ChainStep(p: Pad, b: nat, r: nat, c: Changeset)
    requires PadOk(p) && b <= r < Head(p) && Applies(Chain(p.revs[b..r], c), p.docs[r])
    ensures |p.docs| == |p.revs| + 1
    ensures Chain(p.revs[b..r + 1], c) == Follow(p.revs[r], Chain(p.revs[b..r], c), false)
    ensures IsFor(p.revs[r], Text(p.docs[r])) && IsFor(Chain(p.revs[b..r], c), Text(p.docs[r]))
    ensures p.revs[r].oldLen == Chain(p.revs[b..r], c).oldLen && Applies(Chain(p.revs[b..r + 1], c), p.docs[r + 1])
  {
    hide Applied, IsDoc, Follow, Text, IsFor;
    assert p.revs[b..r + 1] == p.revs[b..r] + [p.revs[r]];
    ChainSnoc(p.revs[b..r], p.revs[r], c);
    var x := Chain(p.revs[b..r], c);
    FollowApplied(p.revs[r], x, false, p.docs[r]);
    AppliedDoc(x, p.docs[r]);
    AppliedDoc(p.revs[r], p.docs[r]);
  }

  lemma HeadText(p: Pad, a: AText)
    requires PadOk(p) && IsAText(a) && DocOf(a) == p.docs[Head(p)]
    ensures Text(p.docs[Head(p)]) == a.text && |a.text| == |p.docs[Head(p)]| > 0
  {
    hide IsAText, Fits, Apply, DocOf, Applied, Applies;
    DocOfText(a);
    TextLength(DocOf(a));
  }

  // The length test never fails.
  lemma CarriedFits(p: Pad, c: Changeset, a: AText)
    requires PadOk(p) && IsAText(a) && DocOf(a) == p.docs[Head(p)] && Applies(c, p.docs[Head(p)])
    ensures c.oldLen == |a.text|
  {
    hide IsAText, Fits, Apply, DocOf, Applied, Applies;
    HeadText(p, a);
    AppliedDoc(c, p.docs[Head(p)]);
  }

  lemma EndsInNewline(p: Pad, c: Changeset, a': AText)
    requires PadOk(p) && Applies(c, p.docs[Head(p)]) && PadOk(Appended(p, c))
    requires IsAText(a') && DocOf(a') == Appended(p, c).docs[Head(p) + 1]
    requires p.docs[Head(p)] != [] && p.docs[Head(p)][|p.docs[Head(p)]| - 1].ch == '\n'
    ensures a'.text != "" && a'.text[|a'.text| - 1] == '\n'
  {
    hide IsAText, Fits, Apply, DocOf, Text, Normal, Safe, Clean;
    var d := p.docs[Head(p)];
    HeadText(Appended(p, c), a');
    OnDocument(c, Text(d), d);
    SafeOn(c, d);
    SafeKeepsLast(c.ops, c.bank, d);
    LastOfText(After(c, d), a'.text);
  }

  lemma SafeOn(c: Changeset, d: Doc)
    requires IsFor(c, Text(d))
    ensures Safe(c.ops, |d|)
  {
    hide Fits, Normal, Safe;
    TextLength(d);
  }

  lemma LastOfText(d: Doc, t: string)
    requires Text(d) == t && d != []
    ensures t != "" && t[|t| - 1] == d[|d| - 1].ch
  {}

  lemma BlankLine(p: Pad, a: AText, c: Changeset)
    requires PadOk(p) && IsAText(a) && DocOf(a) == p.docs[Head(p)] && a.text != "" && a.text[|a.text| - 1] == '\n'
    requires Splices(c, a.text, |a.text| - 1, 0, "\n", [])
        && TextAfter(c, a.text) == SplicedText(a.text, |a.text| - 1, 0, "\n")
    ensures Applies(c, p.docs[Head(p)]) && EndsBlank(TextAfter(c, a.text))
    ensures Text(Applied(c, p.docs[Head(p)])) == TextAfter(c, a.text)
    ensures p.docs[Head(p)] != []
    ensures !EndsBlank(a.text) ==> Applied(c, p.docs[Head(p)]) == EndingBlank(p.docs[Head(p)])
  {
    hide IsAText, DocOf, Text, IsFor, ApplyText, Clean, Splices, SplicedText, EndsBlank, Applied, IsDoc, Fits, Apply;
    HeadText(p, a);
    NewlineSpliced(c, a.text, p.docs[Head(p)]);
    SplicedClean(c, a.text);
    SpliceIsFor(c, a.text);
    AppliedDoc(c, p.docs[Head(p)]);
    AppliedIs(c, p.docs[Head(p)]);
    BlankLineAdded(a.text);
  }

  lemma NewlineSpliced(c: Changeset, t: string, d: Doc)
    requires t != "" && Splices(c, t, |t| - 1, 0, "\n", []) && Text(d) == t
    ensures d != [] && |d| == |t| && Fits(c.ops, c.bank, d)
    ensures After(c, d) == d[..|d| - 1] + [New('\n', [])] + d[|d| - 1..]
  {
    hide Fits, Apply, Splices, Text;
    TextLength(d);
    SplicedDoc(c, t, d);
    assert Typed("\n", []) == [New('\n', [])];
  }

  lemma SpliceIsFor(c: Changeset, t: string)
    requires t != "" && Splices(c, t, |t| - 1, 0, "\n", [])
    ensures IsFor(c, t)
  {
    hide IsFor, Fits, Apply;
  }

  lemma BlankLineAdded(t: string)
    requires t != "" && t[|t| - 1] == '\n'
    ensures EndsBlank(SplicedText(t, |t| - 1, 0, "\n"))
  {}

  lemma SplicedClean(c: Changeset, t: string)
    requires t != "" && Splices(c, t, |t| - 1, 0, "\n", [])
    ensures Clean(c.ops)
  {
    hide Fits, Apply, IsFor, Text, NewClean;
    var u := Untouched(t);
    TextOfUntouched(t);
    NewlineBetween(u, |t| - 1);
    SplicedDoc(c, t, u);
    CleanIfResult(c.ops, c.bank, u);
  }

  lemma SplicedDoc(c: Changeset, t: string, d: Doc)
    requires t != "" && Splices(c, t, |t| - 1, 0, "\n", []) && Text(d) == t
    ensures |t| - 1 < |d| && Fits(c.ops, c.bank, d) && After(c, d) == d[..|t| - 1] + Typed("\n", []) + d[|t| - 1..]
  {
    hide Fits, Apply, IsFor, Text, Typed;
  }

  lemma NewlineBetween(u: Doc, k: nat)
    requires k < |u| && forall i :: 0 <= i < |u| ==> u[i].Old?
    ensures NewClean(u[..k] + Typed("\n", []) + u[k..])
  {
    assert MapOf([]) == map[];
  }
}
