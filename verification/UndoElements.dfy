/** The elements of the undo stack, and what they lead to. */
module UndoElements {
  import opened Changesets
  import opened Algebra
  import opened Laws
  import opened LineMutation
  import opened DocLines
  import opened Cleaning
  import opened Layers

  // An undoable event leads from the document above it down to the one below; an external
  // change from the one below up to the one above.
  datatype Element =
    | Event(eventType: string, backset: Option<Changeset>)
    | External(changeset: Changeset)

  ghost predicate Link(e: Element, below: Doc, above: Doc) {
    match e
    case Event(_, None) => below == above
    case Event(_, Some(b)) => Applies(b, above) && Applied(b, above) == below
    case External(c) => Applies(c, below) && Applied(c, below) == above
  }

  // The stack, bottom first, leads through these documents.
  ghost predicate Linked(stack: seq<Element>, docs: seq<Doc>) {
    && |docs| == |stack| + 1
    && (forall i :: 0 <= i < |docs| ==> IsDoc(docs[i]))
    && (forall i :: 0 <= i < |stack| ==> Link(stack[i], docs[i], docs[i + 1]))
  }

  // No two external changes next to one another.
  ghost predicate Spaced(stack: seq<Element>) {
    forall i :: 0 < i < |stack| ==> stack[i - 1].Event? || stack[i].Event?
  }

  function Events(stack: seq<Element>): nat {
    if stack == [] then 0 else Events(stack[..|stack| - 1]) + if stack[|stack| - 1].Event? then 1 else 0
  }

  // The external changes from index `lo` on.
  ghost function ExternalsFrom(stack: seq<Element>, lo: nat): nat
    decreases |stack| - lo
  {
    if lo >= |stack| then 0 else (if stack[lo].External? then 1 else 0) + ExternalsFrom(stack, lo + 1)
  }

  // The top `k` elements are events.
  ghost predicate TopEvents(stack: seq<Element>, k: nat) {
    k <= |stack| && forall i :: |stack| - k <= i < |stack| ==> stack[i].Event?
  }

  // ---------- an external change sinks below an event

  ghost function SunkEvent(un: Element, ex: Element): Element
    requires un.Event? && ex.External?
  {
    if un.backset.None? then un else un.(backset := Some(Follow(ex.changeset, un.backset.value, false)))
  }

  ghost function SunkExternal(un: Element, ex: Element): Element
    requires un.Event? && ex.External?
  {
    if un.backset.None? then ex else External(Follow(un.backset.value, ex.changeset, true))
  }

  // The document between the two, after they have changed places.
  ghost function Between(un: Element, ex: Element, below: Doc, above: Doc): Doc
    requires un.Event? && ex.External?
  {
    if un.backset.Some? && Applies(Follow(un.backset.value, ex.changeset, true), below) then
      Applied(Follow(un.backset.value, ex.changeset, true), below)
    else above
  }

  lemma SinkLinks(un: Element, ex: Element, below: Doc, middle: Doc, above: Doc)
    requires un.Event? && ex.External? && IsDoc(below) && IsDoc(middle) && IsDoc(above)
    requires Link(un, below, middle) && Link(ex, middle, above)
    ensures var m := Between(un, ex, below, above);
            IsDoc(m) && Link(SunkExternal(un, ex), below, m) && Link(SunkEvent(un, ex), m, above)
  {
    hide Applies, Applied, IsDoc, Follow;
    if un.backset.Some? {
      FollowApplied(ex.changeset, un.backset.value, false, middle);
      AppliedDoc(SunkExternal(un, ex).changeset, below);
    }
  }

  lemma SinkLinked(stack: seq<Element>, docs: seq<Doc>, i: nat)
    requires Linked(stack, docs) && 0 < i < |stack| && stack[i].External? && stack[i - 1].Event?
    ensures var un, ex := stack[i - 1], stack[i];
            Linked(stack[i - 1 := SunkExternal(un, ex)][i := SunkEvent(un, ex)],
                docs[i := Between(un, ex, docs[i - 1], docs[i + 1])])
  {
    hide IsDoc, Link, SunkEvent, SunkExternal, Between;
    var un, ex := stack[i - 1], stack[i];
    assert Link(stack[i - 1], docs[i - 1], docs[i - 1 + 1]);
    SinkLinks(un, ex, docs[i - 1], docs[i], docs[i + 1]);
    var stack' := stack[i - 1 := SunkExternal(un, ex)][i := SunkEvent(un, ex)];
    var docs' := docs[i := Between(un, ex, docs[i - 1], docs[i + 1])];
    forall j | 0 <= j < |stack'| ensures Link(stack'[j], docs'[j], docs'[j + 1]) {
      assert j < i - 1 || j > i ==> Link(stack[j], docs[j], docs[j + 1]);
    }
  }

  // ---------- two external changes become one

  ghost function Joined(stack: seq<Element>, i: nat, c: Changeset): seq<Element>
    requires i + 1 < |stack|
  {
    stack[..i] + [External(c)] + stack[i + 2..]
  }

  lemma JoinLinks(c: Changeset, d: Changeset, below: Doc, middle: Doc, above: Doc)
    requires IsDoc(below) && IsDoc(middle) && Link(External(c), below, middle) && Link(External(d), middle, above)
    ensures Link(External(Compose(c, d)), below, above)
  {
    hide Applies, Applied, IsDoc, Compose;
    ComposeApplied(c, d, below);
  }

  lemma JoinLinked(stack: seq<Element>, docs: seq<Doc>, i: nat)
    requires Linked(stack, docs) && i + 1 < |stack| && stack[i].External? && stack[i + 1].External?
    ensures Linked(Joined(stack, i, Compose(stack[i].changeset, stack[i + 1].changeset)), docs[..i + 1] + docs[i + 2..])
  {
    hide IsDoc, Link, Compose;
    var c := Compose(stack[i].changeset, stack[i + 1].changeset);
    assert Link(stack[i], docs[i], docs[i + 1]) && Link(stack[i + 1], docs[i + 1], docs[i + 1 + 1]);
    JoinLinks(stack[i].changeset, stack[i + 1].changeset, docs[i], docs[i + 1], docs[i + 2]);
    var stack', docs' := Joined(stack, i, c), docs[..i + 1] + docs[i + 2..];
    forall j | 0 <= j < |stack'| ensures Link(stack'[j], docs'[j], docs'[j + 1]) {
      if j < i {
        assert Link(stack[j], docs[j], docs[j + 1]);
      } else if j > i {
        assert Link(stack[j + 1], docs[j + 1], docs[j + 1 + 1]);
      }
    }
  }

  // ---------- counting

  lemma {:induction false} EventsSame(a: seq<Element>, b: seq<Element>)
    requires |a| == |b| && forall i :: 0 <= i < |a| ==> a[i].Event? == b[i].Event?
    ensures Events(a) == Events(b)
  {
    if a != [] { EventsSame(a[..|a| - 1], b[..|b| - 1]); }
  }

  lemma {:induction false} EventsConcat(a: seq<Element>, b: seq<Element>)
    ensures Events(a + b) == Events(a) + Events(b)
    decreases |b|
  {
    if b == [] {
      assert a + b == a;
    } else {
      EventsConcat(a, b[..|b| - 1]);
      assert (a + b)[..|a + b| - 1] == a + b[..|b| - 1];
    }
  }

  lemma EventsOfTwo(x: Element, y: Element)
    ensures Events([x, y]) == Events([x]) + Events([y])
  {
    assert [x, y] == [x] + [y];
    EventsConcat([x], [y]);
  }

  lemma EventsSwapped(stack: seq<Element>, i: nat, x: Element, y: Element)
    requires 0 < i < |stack| && x.Event? == stack[i].Event? && y.Event? == stack[i - 1].Event?
    ensures Events(stack[i - 1 := x][i := y]) == Events(stack)
  {
    hide Events;
    var a, b := stack[..i - 1], stack[i + 1..];
    assert stack == a + [stack[i - 1], stack[i]] + b && stack[i - 1 := x][i := y] == a + [x, y] + b;
    EventsConcat(a + [stack[i - 1], stack[i]], b);
    EventsConcat(a + [x, y], b);
    EventsConcat(a, [stack[i - 1], stack[i]]);
    EventsConcat(a, [x, y]);
    EventsOfTwo(stack[i - 1], stack[i]);
    EventsOfTwo(x, y);
    EventsSame([x], [stack[i]]);
    EventsSame([y], [stack[i - 1]]);
  }

  lemma EventsJoined(stack: seq<Element>, i: nat, c: Changeset)
    requires i + 1 < |stack| && stack[i].External? && stack[i + 1].External?
    ensures Events(Joined(stack, i, c)) == Events(stack)
  {
    var a, b := stack[..i], stack[i + 2..];
    assert stack == a + [stack[i], stack[i + 1]] + b;
    EventsConcat(a + [stack[i], stack[i + 1]], b);
    EventsConcat(a + [External(c)], b);
    EventsConcat(a, [stack[i], stack[i + 1]]);
    EventsConcat(a, [External(c)]);
    EventsOfTwo(stack[i], stack[i + 1]);
    assert Events([]) == 0 && [External(c)][..0] == [] && [stack[i]][..0] == [] && [stack[i + 1]][..0] == [];
  }

  lemma {:induction false} EventsBound(stack: seq<Element>)
    ensures Events(stack) <= |stack|
    ensures Events(stack) == |stack| ==> forall i :: 0 <= i < |stack| ==> stack[i].Event?
  {
    if stack != [] {
      EventsBound(stack[..|stack| - 1]);
      assert stack == stack[..|stack| - 1] + [stack[|stack| - 1]];
    }
  }

  // From `hi` on the counts differ by `d`, and in front of it the kinds are the same.
  lemma {:induction false} ExternalsDiffer(a: seq<Element>, b: seq<Element>, lo: nat, hi: nat, d: int)
    requires lo <= hi <= |a| && hi <= |b| && ExternalsFrom(a, hi) == ExternalsFrom(b, hi) + d
    requires forall i :: lo <= i < hi ==> a[i].External? == b[i].External?
    ensures ExternalsFrom(a, lo) == ExternalsFrom(b, lo) + d
    decreases hi - lo
  {
    if lo < hi { ExternalsDiffer(a, b, lo + 1, hi, d); }
  }

  // The same kinds, `k` places further on.
  lemma {:induction false} ExternalsShift(a: seq<Element>, b: seq<Element>, lo: nat, k: nat)
    requires |b| == |a| + k && forall i :: lo <= i < |a| ==> a[i].External? == b[i + k].External?
    ensures ExternalsFrom(a, lo) == ExternalsFrom(b, lo + k)
    decreases |a| - lo
  {
    if lo < |a| { ExternalsShift(a, b, lo + 1, k); }
  }

  lemma ExternalsSwapped(a: seq<Element>, b: seq<Element>, i: nat, lo: nat)
    requires lo < i < |a| == |b| && a[i - 1].Event? && a[i].External? && b[i - 1].External? && b[i].Event?
    requires forall j :: 0 <= j < |a| && j != i - 1 && j != i ==> a[j] == b[j]
    ensures ExternalsFrom(b, lo) == ExternalsFrom(a, lo)
  {
    ExternalsShift(b, a, i + 1, 0);
    ExternalsDiffer(b, a, lo, i - 1, 0);
  }

  lemma ExternalsJoined(a: seq<Element>, i: nat, c: Changeset, lo: nat)
    requires i + 1 < |a| && a[i].External? && a[i + 1].External?
    ensures lo <= i ==> ExternalsFrom(Joined(a, i, c), lo) == ExternalsFrom(a, lo) - 1
    ensures lo == i + 1 ==> ExternalsFrom(Joined(a, i, c), lo) == ExternalsFrom(a, lo) - 1
  {
    var b := Joined(a, i, c);
    ExternalsShift(b, a, i + 1, 1);
    if lo <= i { ExternalsDiffer(b, a, lo, i, -1); }
  }

  lemma {:induction false} NoExternals(stack: seq<Element>, lo: nat)
    ensures ExternalsFrom(stack, lo) == 0 <==> forall i :: lo <= i < |stack| ==> stack[i].Event?
    decreases |stack| - lo
  {
    if lo < |stack| { NoExternals(stack, lo + 1); }
  }

  // ---------- the stack

  // Where the search for the `n`th event stands: everything above `idx` is an event; `k`
  // merges have been made above `target`, and `b` says that one was made at `target`.
  ghost predicate Exposing(stack: seq<Element>, orig: seq<Element>, target: nat, idx: int, k: nat, b: bool) {
    var lo := if target == 0 then 0 else target - 1;
    && 0 <= idx < |stack| && Spaced(stack) && Events(stack) == Events(orig) && target < |orig|
    && (forall i :: idx < i < |stack| ==> stack[i].Event?)
    && |stack| + k + (if b then 1 else 0) == |orig|
    && ExternalsFrom(stack, lo) + k + (if b then 1 else 0) == ExternalsFrom(orig, lo)
    && (if b then idx + 1 == target && stack[idx].Event? else idx >= target)
    && (k > 0 ==> stack[idx].External? || (idx > 0 && stack[idx - 1].External?))
    && (target == 0 ==> forall i :: 0 <= i < |stack| ==> stack[i].Event?)
  }

  lemma StartExposing(stack: seq<Element>, n: nat)
    requires Spaced(stack) && n < Events(stack)
    ensures n < |stack| && Exposing(stack, stack, |stack| - 1 - n, |stack| - 1, 0, false)
  {
    EventsBound(stack);
  }

  lemma SwapExposes(stack: seq<Element>, orig: seq<Element>, target: nat, idx: int, k: nat, x: Element, y: Element)
    requires Exposing(stack, orig, target, idx, k, false) && stack[idx].External? && x.External? && y.Event?
    ensures idx > 0 && stack[idx - 1].Event?
    ensures var stack' := stack[idx - 1 := x][idx := y];
            && (idx < 2 || stack'[idx - 2].Event? ==> Exposing(stack', orig, target, idx, k, false))
            && Swapped(stack', orig, target, idx, k)
  {
    hide Events;
    var stack' := stack[idx - 1 := x][idx := y];
    var lo := if target == 0 then 0 else target - 1;
    EventsSwapped(stack, idx, x, y);
    ExternalsSwapped(stack, stack', idx, lo);
  }

  // The same with an external change that may have come to lie on another.
  ghost predicate Swapped(stack: seq<Element>, orig: seq<Element>, target: nat, idx: int, k: nat) {
    var lo := if target == 0 then 0 else target - 1;
    && 0 < idx < |stack| && Events(stack) == Events(orig) && 0 < target <= idx && target < |orig|
    && stack[idx - 1].External? && stack[idx].Event?
    && (forall i :: 0 < i < |stack| && i != idx - 1 ==> stack[i - 1].Event? || stack[i].Event?)
    && (forall i :: idx < i < |stack| ==> stack[i].Event?)
    && |stack| + k == |orig| && ExternalsFrom(stack, lo) + k == ExternalsFrom(orig, lo)
  }

  lemma JoinExposes(stack: seq<Element>, orig: seq<Element>, target: nat, idx: int, k: nat, c: Changeset)
    requires Swapped(stack, orig, target, idx, k) && idx >= 2 && stack[idx - 2].External?
    ensures Exposing(Joined(stack, idx - 2, c), orig, target, idx - 1, if idx > target then k + 1 else k, idx == target)
  {
    hide Events;
    var stack' := Joined(stack, idx - 2, c);
    EventsJoined(stack, idx - 2, c);
    ExternalsJoined(stack, idx - 2, c, target - 1);
    forall i | 0 < i < |stack'| ensures stack'[i - 1].Event? || stack'[i].Event? {
      if i < idx - 2 {
        assert stack'[i] == stack[i] && stack'[i - 1] == stack[i - 1];
      } else if i == idx - 2 {
        assert stack'[i - 1] == stack[i - 1];
        assert stack[idx - 2 - 1].Event?;
      } else {
        assert stack'[i] == stack[i + 1];
      }
    }
  }

  // The search is over: the top `n + 1` elements are events unless changes had to be merged
  // on the way, which shortens the stack under the index the search was for.
  lemma EndExposing(stack: seq<Element>, orig: seq<Element>, n: nat, idx: int, k: nat, b: bool)
    requires n < |orig| && Exposing(stack, orig, |orig| - 1 - n, idx, k, b)
    requires idx <= |orig| - 1 - n && stack[idx].Event? && n < Events(stack)
    ensures TopEvents(stack, n + 1) <==> ExternalsFrom(orig, if n + 2 > |orig| then 0 else |orig| - 2 - n) <= 1
  {
    hide Events;
    var target := |orig| - 1 - n;
    var lo := if target == 0 then 0 else target - 1;
    EventsBound(stack);
    NoExternals(stack, idx);
    if lo < idx { assert ExternalsFrom(stack, lo) == (if stack[lo].External? then 1 else 0)
        + ExternalsFrom(stack, lo + 1); }
    if k > 0 {
      assert stack[idx - 1].External?;
    }
  }

  // An event is on top, or under one external change.
  ghost predicate HasTop(stack: seq<Element>, docs: seq<Doc>) {
    && |docs| == |stack| + 1 && stack != []
    && (stack[|stack| - 1].External? ==> |stack| >= 2 && stack[|stack| - 2].Event?)
  }

  // The event nearest to the top, with what lies above it carried over to below.
  ghost function TopEvent(stack: seq<Element>, docs: seq<Doc>): (e: Element)
    requires HasTop(stack, docs)
    ensures e.Event?
  {
    var m := |stack|;
    if stack[m - 1].Event? then stack[m - 1] else SunkEvent(stack[m - 2], stack[m - 1])
  }

  // The document without that event: what an external change above it makes of the document
  // that the event found.
  ghost function BelowTop(stack: seq<Element>, docs: seq<Doc>): Doc
    requires HasTop(stack, docs)
  {
    var m := |stack|;
    if stack[m - 1].Event? then docs[m - 1] else Between(stack[m - 2], stack[m - 1], docs[m - 2], docs[m])
  }

  ghost predicate SameTop(stack: seq<Element>, docs: seq<Doc>, stack': seq<Element>, docs': seq<Doc>) {
    && HasTop(stack, docs) && HasTop(stack', docs')
    && TopEvent(stack, docs) == TopEvent(stack', docs') && BelowTop(stack, docs) == BelowTop(stack', docs')
  }

  lemma SomeTop(stack: seq<Element>, docs: seq<Doc>)
    requires Linked(stack, docs) && Spaced(stack) && 1 <= Events(stack)
    ensures HasTop(stack, docs)
  {
    hide Link, IsDoc;
    if |stack| == 1 { assert stack[..0] == []; }
  }

  lemma LinkAt(stack: seq<Element>, docs: seq<Doc>, i: nat)
    requires Linked(stack, docs) && i < |stack|
    ensures |docs| == |stack| + 1 && IsDoc(docs[i]) && IsDoc(docs[i + 1]) && Link(stack[i], docs[i], docs[i + 1])
  {
    hide Link, IsDoc;
  }

  lemma CarryMeans(c: Changeset, b: Changeset, d: Doc)
    requires Applies(c, d) && Applies(b, d) && IsDoc(d)
    ensures IsFor(c, Text(d)) && IsFor(b, Text(d)) && c.oldLen == b.oldLen
  {
    hide IsFor, Applied, IsDoc, Text;
    AppliedDoc(c, d);
    AppliedDoc(b, d);
  }

  lemma SunkKinds(un: Element, ex: Element)
    requires un.Event? && ex.External?
    ensures SunkExternal(un, ex).External? && SunkEvent(un, ex).Event?
  {}

  lemma ExposingMeans(stack: seq<Element>, orig: seq<Element>, target: nat, idx: int, k: nat, b: bool)
    requires Exposing(stack, orig, target, idx, k, b)
    ensures 0 <= idx < |stack| && Spaced(stack) && Events(stack) == Events(orig) && |stack| <= |orig|
        && idx + 1 >= target
  {}

  lemma NotMergedYet(stack: seq<Element>, orig: seq<Element>, target: nat, idx: int, k: nat, b: bool)
    requires Exposing(stack, orig, target, idx, k, b) && stack[idx].External?
    ensures !b && idx > 0 && stack[idx - 1].Event?
    ensures exists i :: 0 <= i < |orig| && orig[i].External?
  {
    EventsBound(orig);
    EventsBound(stack);
    if forall i :: 0 <= i < |orig| ==> orig[i].Event? {
      AllEvents(orig);
    }
  }

  lemma {:induction false} AllEvents(stack: seq<Element>)
    requires forall i :: 0 <= i < |stack| ==> stack[i].Event?
    ensures Events(stack) == |stack|
  {
    if stack != [] { AllEvents(stack[..|stack| - 1]); }
  }

  lemma StepDown(stack: seq<Element>, orig: seq<Element>, target: nat, idx: int, k: nat, b: bool)
    requires Exposing(stack, orig, target, idx, k, b) && idx > target && stack[idx].Event?
    ensures Exposing(stack, orig, target, idx - 1, k, b)
  {
    hide Events;
  }

  lemma LinkedEnds(stack: seq<Element>, docs: seq<Doc>)
    requires Linked(stack, docs)
    ensures |docs| == |stack| + 1 && forall i :: 0 <= i < |docs| ==> IsDoc(docs[i])
    ensures forall i :: 0 <= i < |stack| ==> Link(stack[i], docs[i], docs[i + 1])
  {
    hide Link, IsDoc;
  }

  lemma JoinMeans(stack: seq<Element>, docs: seq<Doc>, i: nat)
    requires Linked(stack, docs) && i + 1 < |stack| && stack[i].External? && stack[i + 1].External?
    ensures |docs| == |stack| + 1
    ensures IsFor(stack[i].changeset, Text(docs[i])) && IsFor(stack[i + 1].changeset, Text(docs[i + 1]))
    ensures stack[i].changeset.newLen == stack[i + 1].changeset.oldLen
    ensures Text(docs[i + 1]) == TextAfter(stack[i].changeset, Text(docs[i]))
  {
    hide IsFor, Applied, IsDoc, Text, ApplyText;
    assert Link(stack[i], docs[i], docs[i + 1]) && Link(stack[i + 1], docs[i + 1], docs[i + 1 + 1]);
    AppliedDoc(stack[i].changeset, docs[i]);
    AppliedDoc(stack[i + 1].changeset, docs[i + 1]);
  }

  lemma SomeElement(stack: seq<Element>)
    requires Events(stack) >= 1
    ensures stack != []
  {}

  lemma PushLinked(stack: seq<Element>, docs: seq<Doc>, e: Element, above: Doc)
    requires Linked(stack, docs) && IsDoc(above) && Link(e, docs[|stack|], above)
    ensures Linked(stack + [e], docs + [above])
  {
    hide Link, IsDoc;
    var stack', docs' := stack + [e], docs + [above];
    forall j | 0 <= j < |stack'| ensures Link(stack'[j], docs'[j], docs'[j + 1]) {
      assert j < |stack| ==> Link(stack[j], docs[j], docs[j + 1]);
    }
  }

  lemma EventsPush(stack: seq<Element>, e: Element)
    ensures Events(stack + [e]) == Events(stack) + if e.Event? then 1 else 0
  {
    assert (stack + [e])[..|stack|] == stack;
  }

  lemma TopLink(stack: seq<Element>, docs: seq<Doc>, cs: Changeset)
    requires Linked(stack, docs) && stack != [] && Applies(cs, docs[|docs| - 1])
    ensures IsDoc(Applied(cs, docs[|docs| - 1])) && Link(External(cs), docs[|stack|], Applied(cs, docs[|docs| - 1]))
    ensures stack[|stack| - 1].External? ==>
              var c, i := stack[|stack| - 1].changeset, |stack| - 1;
              && IsFor(c, Text(docs[i])) && IsFor(cs, Text(docs[i + 1])) && c.newLen == cs.oldLen
              && Text(docs[i + 1]) == TextAfter(c, Text(docs[i]))
  {
    hide IsFor, Applied, IsDoc, Text, ApplyText;
    var i := |stack| - 1;
    AppliedDoc(cs, docs[i + 1]);
    assert Link(stack[i], docs[i], docs[i + 1]);
    if stack[i].External? { AppliedDoc(stack[i].changeset, docs[i]); }
  }

  lemma GrowLinked(stack: seq<Element>, docs: seq<Doc>, cs: Changeset)
    requires Linked(stack, docs) && stack != [] && stack[|stack| - 1].External? && Applies(cs, docs[|docs| - 1])
    ensures var i, above := |stack| - 1, Applied(cs, docs[|docs| - 1]);
            Linked(stack[i := External(Compose(stack[i].changeset, cs))], docs[i + 1 := above])
  {
    hide Link, IsDoc, Compose, Applies, Applied;
    var i, above := |stack| - 1, Applied(cs, docs[|docs| - 1]);
    TopLink(stack, docs, cs);
    assert Link(stack[i], docs[i], docs[i + 1]);
    JoinLinks(stack[i].changeset, cs, docs[i], docs[i + 1], above);
    var stack', docs' := stack[i := External(Compose(stack[i].changeset, cs))], docs[i + 1 := above];
    forall j | 0 <= j < |stack'| ensures Link(stack'[j], docs'[j], docs'[j + 1]) {
      assert j < i ==> Link(stack[j], docs[j], docs[j + 1]);
    }
  }

  lemma UnderTop(stack: seq<Element>, docs: seq<Doc>)
    requires HasTop(stack, docs) && stack[|stack| - 1].Event?
    ensures BelowTop(stack, docs) == docs[|stack| - 1] && TopEvent(stack, docs) == stack[|stack| - 1]
  {}
}
