/** Where external changes are on the undo stack, and what a search for an event makes of it. */
module UndoShapes {
  import opened Changesets
  import opened Laws
  import opened Layers
  import opened UndoElements

  // ---------- the events of a stack, with what lies above them carried over

  ghost function Met(e: Element, carry: Option<Element>): Element
    requires e.External? && (carry.Some? ==> carry.value.External?)
  {
    if carry.None? then e else External(Compose(e.changeset, carry.value.changeset))
  }

  ghost function Passed(e: Element, carry: Option<Element>): (r: Option<Element>)
    requires e.Event? && (carry.Some? ==> carry.value.External?)
    ensures r.Some? ==> r.value.External?
  {
    if carry.None? then None else Some(SunkExternal(e, carry.value))
  }

  ghost function Carried(e: Element, carry: Option<Element>): (r: Element)
    requires e.Event? && (carry.Some? ==> carry.value.External?)
    ensures r.Event?
  {
    if carry.None? then e else SunkEvent(e, carry.value)
  }

  // The `n`th event from the top, as it is once all external changes above it have been
  // carried to below it; `carry` lies on top.
  ghost function Nth(stack: seq<Element>, n: nat, carry: Option<Element>): (r: Option<Element>)
    requires carry.Some? ==> carry.value.External?
    ensures r.Some? ==> r.value.Event?
    decreases |stack|
  {
    if stack == [] then None
    else
      var t, rest := stack[|stack| - 1], stack[..|stack| - 1];
      if t.External? then Nth(rest, n, Some(Met(t, carry)))
      else if n == 0 then Some(Carried(t, carry))
      else Nth(rest, n - 1, Passed(t, carry))
  }

  lemma NthPush(stack: seq<Element>, t: Element, n: nat, carry: Option<Element>)
    requires carry.Some? ==> carry.value.External?
    ensures Nth(stack + [t], n, carry)
         == if t.External? then Nth(stack, n, Some(Met(t, carry)))
            else if n == 0 then Some(Carried(t, carry)) else Nth(stack, n - 1, Passed(t, carry))
  {
    assert (stack + [t])[..|stack|] == stack;
  }

  // Events on top are passed by as they are.
  lemma {:induction false} NthOfEvents(stack: seq<Element>, events: seq<Element>, n: nat)
    requires forall i :: 0 <= i < |events| ==> events[i].Event?
    ensures Nth(stack + events, n, None)
         == if n < |events| then Some(events[|events| - 1 - n]) else Nth(stack, n - |events|, None)
    decreases |events|
  {
    if events == [] {
      assert stack + events == stack;
    } else {
      var k := |events| - 1;
      assert stack + events == (stack + events[..k]) + [events[k]];
      NthPush(stack + events[..k], events[k], n, None);
      if n > 0 { NthOfEvents(stack, events[..k], n - 1); }
    }
  }

  // ---------- one step of the search

  ghost predicate CanSink(stack: seq<Element>, idx: nat) {
    && 0 < idx < |stack| && stack[idx].External? && stack[idx - 1].Event?
    && forall i :: idx < i < |stack| ==> stack[i].Event?
  }

  ghost function SwappedAt(stack: seq<Element>, idx: nat): seq<Element>
    requires CanSink(stack, idx)
  {
    stack[idx - 1 := SunkExternal(stack[idx - 1], stack[idx])][idx := SunkEvent(stack[idx - 1], stack[idx])]
  }

  // Whether the external change comes to lie on another.
  ghost predicate Meets(stack: seq<Element>, idx: nat)
    requires CanSink(stack, idx)
  {
    idx >= 2 && stack[idx - 2].External?
  }

  ghost function SinkOnce(stack: seq<Element>, idx: nat): seq<Element>
    requires CanSink(stack, idx)
  {
    var s := SwappedAt(stack, idx);
    if Meets(stack, idx) then Joined(s, idx - 2, Compose(s[idx - 2].changeset, s[idx - 1].changeset)) else s
  }

  lemma SwapParts(stack: seq<Element>, idx: nat)
    requires CanSink(stack, idx)
    ensures var low, un, ex, events := stack[..idx - 1], stack[idx - 1], stack[idx], stack[idx + 1..];
            && stack == low + [un] + [ex] + events
            && SwappedAt(stack, idx) == low + [SunkExternal(un, ex)] + [SunkEvent(un, ex)] + events
            && (Meets(stack, idx) ==>
                  var e := low[|low| - 1];
                  && low == low[..|low| - 1] + [e] && e.External?
                  && SinkOnce(stack, idx)
                     == low[..|low| - 1] + [External(Compose(e.changeset, SunkExternal(un, ex).changeset))]
                         + [SunkEvent(un, ex)] + events)
  {
    hide SunkExternal, SunkEvent, Compose;
  }

  // None of the events is any other for it.
  lemma SinkKeepsNth(stack: seq<Element>, idx: nat, n: nat)
    requires CanSink(stack, idx)
    ensures Nth(SinkOnce(stack, idx), n, None) == Nth(stack, n, None)
  {
    hide SunkExternal, SunkEvent, Compose, SwappedAt, Nth;
    var low, un, ex, events := stack[..idx - 1], stack[idx - 1], stack[idx], stack[idx + 1..];
    SwapParts(stack, idx);
    SunkKinds(un, ex);
    var se, sx := SunkEvent(un, ex), SunkExternal(un, ex);
    NthOfEvents(low + [un] + [ex], events, n);
    if n >= |events| {
      var m := n - |events|;
      NthPush(low + [un], ex, m, None);
      NthPush(low, un, m, Some(ex));
      if Meets(stack, idx) {
        var e, l := low[|low| - 1], low[..|low| - 1];
        var j := External(Compose(e.changeset, sx.changeset));
        NthOfEvents(l + [j] + [se], events, n);
        NthPush(l + [j], se, m, None);
        if m > 0 {
          NthPush(l, j, m - 1, None);
          NthPush(l, e, m - 1, Some(sx));
        }
      } else {
        NthOfEvents(low + [sx] + [se], events, n);
        NthPush(low + [sx], se, m, None);
        if m > 0 { NthPush(low, sx, m - 1, None); }
      }
    } else if Meets(stack, idx) {
      var l := low[..|low| - 1];
      NthOfEvents(l + [External(Compose(low[|low| - 1].changeset, sx.changeset))] + [se], events, n);
    } else {
      NthOfEvents(low + [sx] + [se], events, n);
    }
  }

  // ---------- what the search makes of the stack

  // How many external changes are among the top `n + 2` elements.
  ghost function InReach(stack: seq<Element>, n: nat): nat {
    ExternalsFrom(stack, if n + 2 > |stack| then 0 else |stack| - 2 - n)
  }

  // While the search goes on: once an external change has been moved, it lies at `idx` or
  // just below, and all is as it was below that.
  ghost predicate Sinking(stack: seq<Element>, orig: seq<Element>, target: nat, idx: int, b: bool) {
    && 0 <= idx < |stack| && target < |orig|
    && (stack == orig
        || (&& !TopEvents(orig, |orig| - target) && 1 <= idx <= |orig|
            && if stack[idx].Event? then stack[idx - 1].External? && stack[..idx - 1] == orig[..idx - 1]
               else stack[..idx] == orig[..idx]))
    && (b ==> 2 <= target && orig[target - 2].External?)
  }

  lemma SinkSinking(stack: seq<Element>, orig: seq<Element>, target: nat, idx: nat, k: nat)
    requires Exposing(stack, orig, target, idx, k, false) && Sinking(stack, orig, target, idx, false)
    requires CanSink(stack, idx)
    ensures var met := Meets(stack, idx);
            Sinking(SinkOnce(stack, idx), orig, target, if met then idx - 1 else idx, met && idx == target)
  {
    hide SunkExternal, SunkEvent, Compose, Events, Spaced, ExternalsFrom;
    SunkKinds(stack[idx - 1], stack[idx]);
    var s := SwappedAt(stack, idx);
    assert s[..idx - 1] == stack[..idx - 1];
    assert stack[..idx - 1] == stack[..idx][..idx - 1];
    if stack == orig {
      assert orig[idx].External? && |orig| - (|orig| - target) <= idx;
    } else {
      assert stack[..idx] == orig[..idx] && stack[..idx - 1] == orig[..idx - 1];
    }
    assert stack[..idx - 1] == orig[..idx - 1];
    if Meets(stack, idx) {
      var s' := SinkOnce(stack, idx);
      assert s'[..idx - 2] == s[..idx - 2] == stack[..idx - 1][..idx - 2] == orig[..idx - 1][..idx - 2]
          == orig[..idx - 2];
      assert orig[idx - 2] == orig[..idx - 1][idx - 2] == stack[idx - 2];
    }
  }

  lemma StepSinking(stack: seq<Element>, orig: seq<Element>, target: nat, idx: nat, k: nat)
    requires Exposing(stack, orig, target, idx, k, false) && Sinking(stack, orig, target, idx, false)
    requires idx > target && stack[idx].Event?
    ensures Sinking(stack, orig, target, idx - 1, false)
  {
    hide Events, ExternalsFrom;
  }

  // The search is over.
  ghost predicate Exposes(orig: seq<Element>, s: seq<Element>, n: nat) {
    if TopEvents(orig, n + 1) then s == orig
    else
      var e := InReach(orig, n);
      && 1 <= e <= n + 2
      && LiesAt(s, n + 2 - e)
      && |orig| - |s| <= e && e - 1 <= |orig| - |s|
      && (|orig| - |s| == e ==> Ext(orig, n + 2))
      && s[..|s| - 1 - (n + 2 - e)] == orig[..|s| - 1 - (n + 2 - e)]
  }

  // There is an external change `i` elements down.
  ghost predicate Ext(s: seq<Element>, i: nat) { i < |s| && s[|s| - 1 - i].External? }

  // The first is `q` elements down.
  ghost predicate LiesAt(s: seq<Element>, q: nat) { Ext(s, q) && TopEvents(s, q) }

  lemma EndSinking(stack: seq<Element>, orig: seq<Element>, n: nat, idx: int, k: nat, b: bool)
    requires n < |orig| && Exposing(stack, orig, |orig| - 1 - n, idx, k, b)
        && Sinking(stack, orig, |orig| - 1 - n, idx, b)
    requires idx <= |orig| - 1 - n && stack[idx].Event?
    ensures Exposes(orig, stack, n)
  {
    hide Events, Spaced;
    var target := |orig| - 1 - n;
    if stack == orig {
      assert !b;
    } else {
      assert stack[..idx - 1] == orig[..idx - 1];
      NoExternals(stack, idx);
      var lo := target - 1;
      if !b {
        assert ExternalsFrom(stack, lo) == 1 + ExternalsFrom(stack, idx);
      }
      assert |stack| - 1 - (n + 1 - k) == idx - 1;
    }
  }

  // ---------- where the external changes can be

  // Down to `p` elements there is none but at `j`.
  ghost predicate NoneBut(s: seq<Element>, p: nat, j: nat) {
    forall i: nat :: i <= p && Ext(s, i) ==> i == j
  }

  // Above the change that is to be undone next, `p` elements down, there are few external
  // changes: one that is new, and one that was left under the redone event on top.
  ghost predicate Arranged(s: seq<Element>, p: nat) {
    || p == 0
    || NoneBut(s, p, p)
    || NoneBut(s, p, 1)
    || (Ext(s, 0) && NoneBut(s, p, 0))
    || (Ext(s, 0) && forall i: nat :: i <= p + 1 && Ext(s, i) ==> i == 0 || i == 2)
  }

  lemma SpacedExt(s: seq<Element>, i: nat)
    requires Spaced(s) && Ext(s, i)
    ensures !Ext(s, i + 1)
  {
    if i + 1 < |s| { assert s[|s| - 2 - i].Event?; }
  }

  lemma TopEventsExt(s: seq<Element>, k: nat)
    requires TopEvents(s, k)
    ensures forall i: nat :: i < k ==> !Ext(s, i)
  {}

  lemma NoExtTopEvents(s: seq<Element>, k: nat)
    requires k <= |s| && forall i: nat :: i < k ==> !Ext(s, i)
    ensures TopEvents(s, k)
  {
    forall j | |s| - k <= j < |s| ensures s[j].Event? { assert !Ext(s, |s| - 1 - j); }
  }

  // Counting those that are at `i` or at `j`.
  lemma {:induction false} CountedAt(s: seq<Element>, lo: nat, i: nat, j: nat)
    requires lo <= |s| && i < j && forall x: nat :: x < |s| - lo && Ext(s, x) ==> x == i || x == j
    ensures ExternalsFrom(s, lo)
         == (if i < |s| - lo && Ext(s, i) then 1 else 0) + (if j < |s| - lo && Ext(s, j) then 1 else 0)
    decreases |s| - lo
  {
    if lo < |s| {
      assert s[lo].External? <==> Ext(s, |s| - 1 - lo);
      CountedAt(s, lo + 1, i, j);
    }
  }

  lemma InReachOf(s: seq<Element>, n: nat, i: nat, j: nat)
    requires i < j && forall x: nat :: x < n + 2 && Ext(s, x) ==> x == i || x == j
    ensures InReach(s, n) == (if i < n + 2 && Ext(s, i) then 1 else 0) + (if j < n + 2 && Ext(s, j) then 1 else 0)
  {
    hide ExternalsFrom;
    CountedAt(s, if n + 2 > |s| then 0 else |s| - 2 - n, i, j);
  }

  // What `Exposes` says of the places.
  lemma ExposedExt(orig: seq<Element>, s: seq<Element>, n: nat)
    requires Exposes(orig, s, n) && !TopEvents(orig, n + 1)
    ensures var e := InReach(orig, n);
            var q := n + 2 - e;
            && 1 <= e && Ext(s, q) && (forall i: nat :: i < q ==> !Ext(s, i))
            && |s| <= |orig| <= |s| + e && e - 1 <= |orig| - |s| && (|orig| - |s| == e ==> Ext(orig, n + 2))
            && forall i: nat :: i > q ==> (Ext(s, i) <==> Ext(orig, i + |orig| - |s|))
  {
    hide InReach;
    var q := n + 2 - InReach(orig, n);
    TopEventsExt(s, q);
    forall i: nat | i > q ensures Ext(s, i) <==> Ext(orig, i + |orig| - |s|) {
      if i < |s| {
        var j := |s| - 1 - i;
        assert s[..|s| - 1 - q][j] == s[j] && orig[..|s| - 1 - q][j] == orig[j];
      }
    }
  }

  // At most two are in reach: so the search reaches its event, or finds an external change
  // in its place.
  lemma FewInReach(s: seq<Element>, p: nat)
    requires Spaced(s) && Arranged(s, p) && p <= |s|
    ensures InReach(s, p) <= 2
  {
    hide ExternalsFrom, InReach, Ext;
    if Ext(s, 0) { SpacedExt(s, 0); }
    if Ext(s, p) { SpacedExt(s, p); }
    if p == 0 || NoneBut(s, p, p) {
      InReachOf(s, p, p, p + 1);
    } else if NoneBut(s, p, 1) {
      InReachOf(s, p, 1, p + 1);
    } else if NoneBut(s, p, 0) {
      InReachOf(s, p, 0, p + 1);
    } else {
      InReachOf(s, p, 0, 2);
    }
  }

  lemma KindsArranged(s: seq<Element>, s': seq<Element>, p: nat)
    requires Arranged(s, p) && forall i: nat :: Ext(s, i) <==> Ext(s', i)
    ensures Arranged(s', p)
  {
    hide Ext;
  }

  // Another change comes in.
  lemma PushedArranged(s: seq<Element>, e: Element, p: nat)
    requires Arranged(s, p) && Spaced(s) && s != [] && s[|s| - 1].Event? && e.External?
    ensures Arranged(s + [e], p)
  {
    hide Ext;
    ExtPushed(s, e);
    assert Ext(s + [e], 0);
    if p == 0 {
    } else if NoneBut(s, p, p) || NoneBut(s, p, 0) {
      assert NoneBut(s + [e], p, 0);
    } else if NoneBut(s, p, 1) {
      forall i: nat | i <= p + 1 && Ext(s + [e], i) ensures i == 0 || i == 2 { assert i == 0 || Ext(s, i - 1); }
    }
  }

  lemma ExtPushed(s: seq<Element>, e: Element)
    ensures forall i: nat :: Ext(s + [e], i) <==> if i == 0 then e.External? else Ext(s, i - 1)
    ensures s != [] ==> (s[|s| - 1].External? <==> Ext(s, 0))
  {
    forall i: nat ensures Ext(s + [e], i) <==> if i == 0 then e.External? else Ext(s, i - 1) {
      if 0 < i <= |s| { assert (s + [e])[|s| - i] == s[|s| - i]; }
    }
  }

  lemma ExtPopped(s: seq<Element>, s': seq<Element>)
    requires s != [] && s' == s[..|s| - 1]
    ensures forall i: nat :: Ext(s', i) <==> Ext(s, i + 1)
  {}

  // The top event is looked at.
  lemma ExposedArranged(orig: seq<Element>, s: seq<Element>, p: nat)
    requires Arranged(orig, p) && Spaced(orig) && Spaced(s) && orig != [] && Exposes(orig, s, 0)
    ensures Arranged(s, p)
  {
    hide Ext, InReach, Exposes, TopEvents, Spaced;
    if p > 0 {
      ExtPushed(orig[..|orig| - 1], orig[|orig| - 1]);
      if Ext(orig, 0) {
        TopOne(orig, s);
        if NoneBut(orig, p, 0) {
          assert NoneBut(s, p, 1);
        } else {
          SpacedExt(s, 1);
          assert NoneBut(s, p, 1);
        }
      } else {
        TopNone(orig, s);
      }
    }
  }

  lemma TopNone(orig: seq<Element>, s: seq<Element>)
    requires orig != [] && Exposes(orig, s, 0) && !Ext(orig, 0)
    ensures s == orig
  {
    hide InReach;
    NoExtTopEvents(orig, 1);
  }

  // The change on top goes under the event below it.
  lemma TopOne(orig: seq<Element>, s: seq<Element>)
    requires Spaced(orig) && orig != [] && Exposes(orig, s, 0) && Ext(orig, 0)
    ensures !Ext(s, 0) && Ext(s, 1) && |s| <= |orig| <= |s| + 1 && (|orig| == |s| + 1 ==> Ext(orig, 2))
    ensures forall i: nat :: i > 1 ==> (Ext(s, i) <==> Ext(orig, i + |orig| - |s|))
  {
    hide Ext, InReach, Exposes, TopEvents, Spaced;
    SpacedExt(orig, 0);
    InReachOf(orig, 0, 0, 1);
    if TopEvents(orig, 1) { TopEventsExt(orig, 1); }
    ExposedExt(orig, s, 0);
  }

  // The top two events are looked at, and the first of them is taken back.
  lemma RedoneArranged(orig: seq<Element>, s1: seq<Element>, s2: seq<Element>, p: nat)
    requires 2 <= p && Arranged(orig, p) && Spaced(orig) && Spaced(s1) && orig != [] && |s1| >= 2 && s2 != []
    requires Exposes(orig, s1, 0) && Exposes(s1, s2, 1)
    ensures Arranged(s2[..|s2| - 1], p - 2)
  {
    hide Ext, InReach, Exposes, TopEvents, Spaced;
    ExtPopped(s2, s2[..|s2| - 1]);
    ExposedArranged(orig, s1, p);
    if p > 2 {
      if !Ext(orig, 0) { TopNone(orig, s1); } else { TopOne(orig, s1); }
      if Ext(s1, 1) {
        SecondOne(s1, s2);
        assert NoneBut(s2[..|s2| - 1], p - 2, 1);
      } else {
        assert !Ext(s1, 0);
        NoExtTopEvents(s1, 2);
        AllThere(s1, s2, 1);
        assert NoneBut(s2[..|s2| - 1], p - 2, p - 2);
      }
    }
  }

  lemma AllThere(orig: seq<Element>, s: seq<Element>, n: nat)
    requires TopEvents(orig, n + 1) && Exposes(orig, s, n)
    ensures s == orig
  {}

  lemma SecondOne(orig: seq<Element>, s: seq<Element>)
    requires Spaced(orig) && |orig| >= 2 && Exposes(orig, s, 1) && Ext(orig, 1)
    ensures !Ext(s, 0) && !Ext(s, 1) && Ext(s, 2) && |s| <= |orig| <= |s| + 1
    ensures forall i: nat :: i > 2 ==> (Ext(s, i) <==> Ext(orig, i + |orig| - |s|))
  {
    hide Ext, InReach, Exposes, TopEvents, Spaced;
    SpacedExt(orig, 1);
    if Ext(orig, 0) { SpacedExt(orig, 0); }
    InReachOf(orig, 1, 0, 1);
    if TopEvents(orig, 2) { TopEventsExt(orig, 2); }
    ExposedExt(orig, s, 1);
  }

  // A change is undone: what it takes back is looked for, and the event before it.
  lemma PushedUndo(s: seq<Element>, p: nat, e: Element)
    requires NoneBut(s, p + 1, p + 1) && e.Event?
    ensures Arranged(s + [e], p + 2)
  {
    hide Ext;
    ExtPushed(s, e);
    assert NoneBut(s + [e], p + 2, p + 2);
  }

  // Then there is at most one in `p` places, and it is at the `p`th.
  lemma FirstSearch(orig: seq<Element>, s: seq<Element>, p: nat)
    requires Arranged(orig, p) && Spaced(orig) && p < |orig| && Exposes(orig, s, p)
    ensures NoneBut(s, p, p)
  {
    hide Ext, InReach, Exposes, TopEvents, Spaced;
    FewInReach(orig, p);
    if TopEvents(orig, p + 1) {
      AllThere(orig, s, p);
      TopEventsExt(orig, p + 1);
    } else {
      ExposedExt(orig, s, p);
    }
  }

  lemma SecondSearch(orig: seq<Element>, s: seq<Element>, p: nat)
    requires NoneBut(orig, p, p) && Spaced(orig) && p + 1 < |orig| && Exposes(orig, s, p + 1)
    ensures NoneBut(s, p + 1, p + 1)
  {
    hide Ext, InReach, Exposes, TopEvents, Spaced;
    if TopEvents(orig, p + 2) {
      AllThere(orig, s, p + 1);
      TopEventsExt(orig, p + 2);
    } else {
      if Ext(orig, p) {
        SpacedExt(orig, p);
        InReachOf(orig, p + 1, p, p + 2);
      } else {
        if Ext(orig, p + 1) { SpacedExt(orig, p + 1); }
        InReachOf(orig, p + 1, p + 1, p + 2);
      }
      ExposedExt(orig, s, p + 1);
    }
  }

  lemma SettledArranged(s: seq<Element>, p: nat)
    requires NoneBut(s, p + 1, p + 1)
    ensures Arranged(s, p)
  {
    hide Ext;
    assert NoneBut(s, p, p);
  }
}
