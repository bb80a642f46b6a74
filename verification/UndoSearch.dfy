/** The search for an event of the undo stack: what each of its steps keeps. */
module UndoSearch {
  import opened Changesets
  import opened Algebra
  import opened Laws
  import opened LineMutation
  import opened DocLines
  import opened Cleaning
  import opened Layers
  import opened UndoElements
  import opened UndoShapes

  // The documents the stack leads through, after a step.
  ghost function SwappedDocs(stack: seq<Element>, docs: seq<Doc>, idx: nat): seq<Doc>
    requires CanSink(stack, idx) && |docs| == |stack| + 1
  {
    docs[idx := Between(stack[idx - 1], stack[idx], docs[idx - 1], docs[idx + 1])]
  }

  ghost function SunkDocs(stack: seq<Element>, docs: seq<Doc>, idx: nat): seq<Doc>
    requires CanSink(stack, idx) && |docs| == |stack| + 1
  {
    var d := SwappedDocs(stack, docs, idx);
    if Meets(stack, idx) then d[..idx - 1] + d[idx..] else d
  }

  lemma SinkOnceLinked(stack: seq<Element>, docs: seq<Doc>, idx: nat)
    requires Linked(stack, docs) && CanSink(stack, idx)
    ensures |docs| == |stack| + 1 && Linked(SwappedAt(stack, idx), SwappedDocs(stack, docs, idx))
    ensures Linked(SinkOnce(stack, idx), SunkDocs(stack, docs, idx))
  {
    hide Linked, SunkExternal, SunkEvent, Compose, Between, Joined, Link, IsDoc;
    LinkedEnds(stack, docs);
    SunkKinds(stack[idx - 1], stack[idx]);
    SinkLinked(stack, docs, idx);
    if Meets(stack, idx) { JoinLinked(SwappedAt(stack, idx), SwappedDocs(stack, docs, idx), idx - 2); }
  }

  lemma SinkOnceExposes(stack: seq<Element>, orig: seq<Element>, target: nat, idx: nat, k: nat)
    requires Exposing(stack, orig, target, idx, k, false) && CanSink(stack, idx)
    ensures var met := Meets(stack, idx);
            && (if met then Exposing(SinkOnce(stack, idx), orig, target, idx - 1, if idx > target then k + 1
                else k, idx == target)
                else Exposing(SinkOnce(stack, idx), orig, target, idx, k, false))
  {
    hide Exposing, Swapped, SunkExternal, SunkEvent, Compose, Events, Joined;
    var sx, se := SunkExternal(stack[idx - 1], stack[idx]), SunkEvent(stack[idx - 1], stack[idx]);
    SunkKinds(stack[idx - 1], stack[idx]);
    SwapExposes(stack, orig, target, idx, k, sx, se);
    if Meets(stack, idx) {
      var s := SwappedAt(stack, idx);
      JoinExposes(s, orig, target, idx, k, Compose(s[idx - 2].changeset, s[idx - 1].changeset));
    }
  }

  lemma SinkOnceSameTop(stack: seq<Element>, docs: seq<Doc>, idx: nat)
    requires HasTop(stack, docs) && CanSink(stack, idx)
    ensures SameTop(stack, docs, SinkOnce(stack, idx), SunkDocs(stack, docs, idx))
  {
    hide SunkExternal, SunkEvent, Compose, Between, SinkOnce, SunkDocs;
    var m := |stack|;
    SunkKinds(stack[idx - 1], stack[idx]);
    SinkOnceEnd(stack, docs, idx);
    if idx < m - 1 {
      assert stack[m - 1].Event?;
      SunkAbove(stack, docs, idx, m - 1);
      LastTwo(stack, SinkOnce(stack, idx), docs, SunkDocs(stack, docs, idx));
    }
  }

  // With the external change on top, the event below it is on top then.
  lemma SinkOnceEnd(stack: seq<Element>, docs: seq<Doc>, idx: nat)
    requires CanSink(stack, idx) && |docs| == |stack| + 1
    ensures var s, d := SinkOnce(stack, idx), SunkDocs(stack, docs, idx);
            && |d| == |s| + 1 && s != []
            && (idx == |stack| - 1 ==>
                  && s[|s| - 1] == SunkEvent(stack[idx - 1], stack[idx])
                  && d[|s| - 1] == Between(stack[idx - 1], stack[idx], docs[idx - 1], docs[idx + 1]))
  {
    hide SunkExternal, SunkEvent, Compose, Between;
    SunkKinds(stack[idx - 1], stack[idx]);
  }

  lemma LastTwo(stack: seq<Element>, s: seq<Element>, docs: seq<Doc>, d: seq<Doc>)
    requires |docs| == |stack| + 1 && |d| == |s| + 1 && s != [] && stack != []
    requires s[|s| - 1..] == stack[|stack| - 1..] && d[|s| - 1..] == docs[|stack| - 1..]
    ensures s[|s| - 1] == stack[|stack| - 1] && d[|s| - 1] == docs[|stack| - 1]
  {
    assert s[|s| - 1..][0] == s[|s| - 1] && stack[|stack| - 1..][0] == stack[|stack| - 1];
    assert d[|s| - 1..][0] == d[|s| - 1] && docs[|stack| - 1..][0] == docs[|stack| - 1];
  }

  // The top `k` elements are events, the same as they were, between the same documents.
  ghost predicate SameAbove(stack: seq<Element>, docs: seq<Doc>, orig: seq<Element>, odocs: seq<Doc>, k: nat) {
    && TopEvents(stack, k) && k <= |orig| && |docs| == |stack| + 1 && |odocs| == |orig| + 1
    && stack[|stack| - k..] == orig[|orig| - k..] && docs[|stack| - k..] == odocs[|orig| - k..]
  }

  lemma SinkOnceSameAbove(stack: seq<Element>, docs: seq<Doc>, idx: nat, orig: seq<Element>, odocs: seq<Doc>, k: nat)
    requires SameAbove(stack, docs, orig, odocs, k) && CanSink(stack, idx)
    ensures SameAbove(SinkOnce(stack, idx), SunkDocs(stack, docs, idx), orig, odocs, k)
  {
    hide SunkExternal, SunkEvent, Compose, Between, SinkOnce, SunkDocs;
    var m := |stack|;
    assert idx < m - k by { assert !stack[idx].Event?; }
    SunkAbove(stack, docs, idx, m - k);
  }

  lemma SunkAbove(stack: seq<Element>, docs: seq<Doc>, idx: nat, j: nat)
    requires CanSink(stack, idx) && |docs| == |stack| + 1 && idx < j <= |stack|
    ensures var s, d, j' := SinkOnce(stack, idx), SunkDocs(stack, docs, idx), if Meets(stack, idx) then j - 1 else j;
            |d| == |s| + 1 && |s| - j' == |stack| - j && s[j'..] == stack[j..] && d[j'..] == docs[j..]
            && TopEvents(s, |stack| - j)
  {
    hide SunkExternal, SunkEvent, Compose, Between;
    SunkKinds(stack[idx - 1], stack[idx]);
    var s, d := SwappedAt(stack, idx), SwappedDocs(stack, docs, idx);
    assert s[j..] == stack[j..] && d[j..] == docs[j..];
    if Meets(stack, idx) {
      var e := External(Compose(s[idx - 2].changeset, s[idx - 1].changeset));
      WithoutOne(s[..idx - 2] + [e], s, idx, j);
      WithoutOne(d[..idx - 1], d, idx, j);
    }
    EventsFrom(stack, SinkOnce(stack, idx), j, if Meets(stack, idx) then j - 1 else j);
  }

  lemma WithoutOne<T>(low: seq<T>, s: seq<T>, i: nat, j: nat)
    requires i < j <= |s| && |low| == i - 1
    ensures (low + s[i..])[j - 1..] == s[j..]
  {}

  lemma EventsFrom(stack: seq<Element>, s: seq<Element>, j: nat, j': nat)
    requires j <= |stack| && j' <= |s| && s[j'..] == stack[j..] && forall i :: j <= i < |stack| ==> stack[i].Event?
    ensures TopEvents(s, |stack| - j)
  {
    assert |s| - j' == |s[j'..]| == |stack| - j;
    forall i | j' <= i < |s| ensures s[i].Event? { assert s[i] == s[j'..][i - j'] == stack[j + (i - j')]; }
  }

  ghost predicate SameEnds(docs: seq<Doc>, odocs: seq<Doc>) {
    docs != [] && odocs != [] && docs[0] == odocs[0] && docs[|docs| - 1] == odocs[|odocs| - 1]
  }

  // What holds all the time while the `n`th event is searched for; the top `k0` elements were
  // events when it began.
  ghost predicate Searching(stack: seq<Element>, docs: seq<Doc>, orig: seq<Element>, odocs: seq<Doc>, n: nat, k0: nat,
                            idx: int, k: nat, b: bool)
  {
    && n < |orig| && Exposing(stack, orig, |orig| - 1 - n, idx, k, b) && Sinking(stack, orig, |orig| - 1 - n, idx, b)
    && Linked(stack, docs) && SameEnds(docs, odocs) && SameTop(orig, odocs, stack, docs)
    && SameAbove(stack, docs, orig, odocs, k0) && Nth(stack, n, None) == Nth(orig, n, None)
  }

  lemma StartSearching(stack: seq<Element>, docs: seq<Doc>, n: nat, k0: nat)
    requires Linked(stack, docs) && Spaced(stack) && n < Events(stack) && TopEvents(stack, k0)
    ensures n < |stack| && Searching(stack, docs, stack, docs, n, k0, |stack| - 1, 0, false)
  {
    hide Linked, Exposing, TopEvent, BelowTop, Events;
    StartExposing(stack, n);
    LinkedEnds(stack, docs);
    EventsBound(stack);
    SomeTop(stack, docs);
  }

  lemma SearchSinks(stack: seq<Element>, docs: seq<Doc>, orig: seq<Element>, odocs: seq<Doc>, n: nat, k0: nat,
                    idx: int, k: nat, b: bool)
    requires Searching(stack, docs, orig, odocs, n, k0, idx, k, b) && 0 <= idx < |stack| && stack[idx].External?
    ensures CanSink(stack, idx) && !b && |docs| == |stack| + 1
    ensures var met := Meets(stack, idx);
            Searching(SinkOnce(stack, idx), SunkDocs(stack, docs, idx), orig, odocs, n, k0, if met then idx - 1
                else idx,
                      if met && idx > |orig| - 1 - n then k + 1 else k, met && idx == |orig| - 1 - n)
  {
    hide Exposing, Sinking, Linked, SinkOnce, SunkDocs, SameAbove, Nth, TopEvent, BelowTop;
    var target := |orig| - 1 - n;
    NotMergedYet(stack, orig, target, idx, k, b);
    ExposingEvents(stack, orig, target, idx, k, b);
    LinkedEnds(stack, docs);
    SinkOnceLinked(stack, docs, idx);
    SinkOnceExposes(stack, orig, target, idx, k);
    SinkSinking(stack, orig, target, idx, k);
    SinkOnceSameTop(stack, docs, idx);
    SinkOnceSameAbove(stack, docs, idx, orig, odocs, k0);
    SinkKeepsNth(stack, idx, n);
    SunkEnds(stack, docs, idx);
  }

  lemma ExposingEvents(stack: seq<Element>, orig: seq<Element>, target: nat, idx: int, k: nat, b: bool)
    requires Exposing(stack, orig, target, idx, k, b)
    ensures forall i :: idx < i < |stack| ==> stack[i].Event?
  {}

  lemma SunkEnds(stack: seq<Element>, docs: seq<Doc>, idx: nat)
    requires CanSink(stack, idx) && |docs| == |stack| + 1
    ensures SameEnds(SunkDocs(stack, docs, idx), docs)
  {
    hide Between;
  }

  lemma SearchSteps(stack: seq<Element>, docs: seq<Doc>, orig: seq<Element>, odocs: seq<Doc>, n: nat, k0: nat,
                    idx: int, k: nat, b: bool)
    requires Searching(stack, docs, orig, odocs, n, k0, idx, k, b)
    requires 0 <= idx < |stack| && stack[idx].Event? && idx > |orig| - 1 - n
    ensures Searching(stack, docs, orig, odocs, n, k0, idx - 1, k, b)
  {
    hide Exposing, Sinking, Linked, SameAbove, Nth, SameTop;
    var target := |orig| - 1 - n;
    AboveTarget(stack, orig, target, idx, k, b);
    StepDown(stack, orig, target, idx, k, b);
    StepSinking(stack, orig, target, idx, k);
  }

  lemma AboveTarget(stack: seq<Element>, orig: seq<Element>, target: nat, idx: int, k: nat, b: bool)
    requires Exposing(stack, orig, target, idx, k, b) && idx > target
    ensures !b
  {}

  lemma SearchIndex(stack: seq<Element>, docs: seq<Doc>, orig: seq<Element>, odocs: seq<Doc>, n: nat, k0: nat,
                    idx: int, k: nat, b: bool)
    requires Searching(stack, docs, orig, odocs, n, k0, idx, k, b)
    ensures 0 <= idx < |stack| && n < |orig| && idx + 1 >= |orig| - 1 - n
    ensures |docs| == |stack| + 1 && Spaced(stack) && Events(stack) == Events(orig) && |stack| <= |orig|
  {
    hide Exposing, Linked, SameAbove, Nth, SameTop, Sinking;
    ExposingMeans(stack, orig, |orig| - 1 - n, idx, k, b);
    LinkedEnds(stack, docs);
  }

  lemma EndSearching(stack: seq<Element>, docs: seq<Doc>, orig: seq<Element>, odocs: seq<Doc>, n: nat, k0: nat,
                     idx: int, k: nat, b: bool)
    requires Searching(stack, docs, orig, odocs, n, k0, idx, k, b) && 0 <= idx < |stack|
    requires stack[idx].Event? && idx <= |orig| - 1 - n && n < Events(stack)
    ensures Found(stack, docs, orig, odocs, n, k0)
  {
    hide Exposing, Linked, SameAbove, SameTop, Sinking, ExternalsFrom, Exposes, Events, Nth, Spaced;
    var target := |orig| - 1 - n;
    ExposingMeans(stack, orig, target, idx, k, b);
    EndExposing(stack, orig, n, idx, k, b);
    EndSinking(stack, orig, n, idx, k, b);
    ExposingEvents(stack, orig, target, idx, k, b);
    EventsAbove(stack, idx);
    if TopEvents(stack, n + 1) { NthOnTop(stack, n); }
  }

  lemma EventsAbove(stack: seq<Element>, idx: nat)
    requires idx < |stack| && stack[idx].Event? && forall i :: idx < i < |stack| ==> stack[i].Event?
    ensures stack[|stack| - 1].Event?
  {}

  // The search is over: with at most one external change in reach, the event is in its place;
  // with more there are not only events down to there.
  ghost predicate Found(stack: seq<Element>, docs: seq<Doc>, orig: seq<Element>, odocs: seq<Doc>, n: nat, k0: nat) {
    && Linked(stack, docs) && Spaced(stack) && Events(stack) == Events(orig)
    && SameEnds(docs, odocs) && SameTop(orig, odocs, stack, docs) && SameAbove(stack, docs, orig, odocs, k0)
    && Exposes(orig, stack, n) && stack != [] && stack[|stack| - 1].Event?
    && (TopEvents(stack, n + 1) <==> InReach(orig, n) <= 1)
    && (InReach(orig, n) <= 1 ==> n < |stack| && Nth(orig, n, None) == Some(stack[|stack| - 1 - n]))
  }

  lemma NthOnTop(stack: seq<Element>, n: nat)
    requires TopEvents(stack, n + 1)
    ensures Nth(stack, n, None) == Some(stack[|stack| - 1 - n])
  {
    hide Nth;
    var low, events := stack[..|stack| - 1 - n], stack[|stack| - 1 - n..];
    assert stack == low + events;
    NthOfEvents(low, events, n);
  }
}
