/** The older changesets of easysync 1: strips of the old text with new text behind each. */
module StripChangesets {

  datatype Strip = Strip(start: int, taken: int, text: string)

  datatype StripChangeset = StripChangeset(oldLen: int, newLen: int, strips: seq<Strip>)

  // One character of the new text: an old one, or a new one.
  datatype Unit = Taken(pos: int) | Typed(ch: char)

  ghost function TakenUnits(start: int, n: nat): (r: seq<Unit>)
    ensures |r| == n && forall i :: 0 <= i < n ==> r[i] == Taken(start + i)
  {
    seq(n, i requires 0 <= i < n => Taken(start + i))
  }

  ghost function TypedUnits(s: string): (r: seq<Unit>)
    ensures |r| == |s| && forall i :: 0 <= i < |s| ==> r[i] == Typed(s[i])
  {
    seq(|s|, i requires 0 <= i < |s| => Typed(s[i]))
  }

  ghost function StripUnits(s: Strip): seq<Unit>
    requires 0 <= s.taken
  {
    TakenUnits(s.start, s.taken) + TypedUnits(s.text)
  }

  ghost predicate AllTake(strips: seq<Strip>) { forall i :: 0 <= i < |strips| ==> 0 <= strips[i].taken }

  // What the strips, from the `i`th on, make up.
  ghost function Units(strips: seq<Strip>, i: nat): seq<Unit>
    requires AllTake(strips)
    decreases |strips| - i
  {
    if i >= |strips| then [] else StripUnits(strips[i]) + Units(strips, i + 1)
  }

  // `checkRep`: strips in order, apart from each other or with text between, all but the
  // first of them taking something.
  ghost predicate StripOk(strips: seq<Strip>, oldLen: int, i: nat)
    requires i < |strips|
  {
    var s := strips[i];
    && 0 <= s.taken && (i == 0 || s.taken > 0) && (s.taken > 0 || s.start == 0) && 0 <= s.start
    && s.start + s.taken <= oldLen
    && (s.taken > 0 || s.text != "" || |strips| == 1)
    && (i + 1 < |strips| ==>
          var gap := strips[i + 1].start - (s.start + s.taken);
          gap >= 0 && (gap > 0 || s.text != ""))
  }

  ghost predicate StripsOk(strips: seq<Strip>, oldLen: int) {
    strips != [] && forall i :: 0 <= i < |strips| ==> StripOk(strips, oldLen, i)
  }

  ghost predicate IsRep(c: StripChangeset) {
    0 <= c.oldLen && StripsOk(c.strips, c.oldLen) && AllTake(c.strips) && c.newLen == |Units(c.strips, 0)|
  }

  ghost function UnitsOf(c: StripChangeset): seq<Unit>
    requires IsRep(c)
  {
    Units(c.strips, 0)
  }

  // ---------- what units do to a text

  ghost predicate InText(units: seq<Unit>, n: int) {
    forall i :: 0 <= i < |units| && units[i].Taken? ==> 0 <= units[i].pos < n
  }

  ghost function ApplyUnits(units: seq<Unit>, text: string): (r: string)
    requires InText(units, |text|)
    ensures |r| == |units|
    ensures forall i :: 0 <= i < |units| ==> r[i] == match units[i] case Taken(p) => text[p] case Typed(c) => c
  {
    seq(|units|, i requires 0 <= i < |units| => match units[i] case Taken(p) => text[p] case Typed(c) => c)
  }

  // `b`, which takes from what `a` makes, on top of `a`.
  ghost function ComposeUnits(a: seq<Unit>, b: seq<Unit>): (r: seq<Unit>)
    requires InText(b, |a|)
    ensures |r| == |b|
    ensures forall i :: 0 <= i < |b| ==> r[i] == match b[i] case Taken(p) => a[p] case Typed(c) => b[i]
  {
    seq(|b|, i requires 0 <= i < |b| => match b[i] case Taken(p) => a[p] case Typed(c) => b[i])
  }

  lemma ComposedApply(a: seq<Unit>, b: seq<Unit>, text: string)
    requires InText(a, |text|) && InText(b, |a|)
    ensures InText(ComposeUnits(a, b), |text|)
    ensures ApplyUnits(ComposeUnits(a, b), text) == ApplyUnits(b, ApplyUnits(a, text))
  {}

  // ---------- merging

  predicate FrontTyped(u: seq<Unit>) { u != [] && u[0].Typed? }

  // What `follow` appends, for `b` after `a`, of which `i` characters are done.
  ghost function FollowUnits(a: seq<Unit>, b: seq<Unit>, i: nat, reverse: bool): seq<Unit>
    decreases |a| + |b|
  {
    if a == [] && b == [] then []
    else if FrontTyped(a) && !reverse then [Taken(i)] + FollowUnits(a[1..], b, i + 1, reverse)
    else if FrontTyped(b) then [b[0]] + FollowUnits(a, b[1..], i, reverse)
    else if FrontTyped(a) then [Taken(i)] + FollowUnits(a[1..], b, i + 1, reverse)
    else if b == [] then FollowUnits(a[1..], b, i + 1, reverse)
    else if a == [] then FollowUnits(a, b[1..], i, reverse)
    else if a[0].pos < b[0].pos then FollowUnits(a[1..], b, i + 1, reverse)
    else if b[0].pos < a[0].pos then FollowUnits(a, b[1..], i, reverse)
    else [Taken(i)] + FollowUnits(a[1..], b[1..], i + 1, reverse)
  }

  // The text of both: what is new in either, and what neither takes out.
  ghost function Merge(a: seq<Unit>, b: seq<Unit>, reverse: bool): seq<Unit>
    decreases |a| + |b|
  {
    if a == [] && b == [] then []
    else if FrontTyped(a) && !reverse then [a[0]] + Merge(a[1..], b, reverse)
    else if FrontTyped(b) then [b[0]] + Merge(a, b[1..], reverse)
    else if FrontTyped(a) then [a[0]] + Merge(a[1..], b, reverse)
    else if b == [] then Merge(a[1..], b, reverse)
    else if a == [] then Merge(a, b[1..], reverse)
    else if a[0].pos < b[0].pos then Merge(a[1..], b, reverse)
    else if b[0].pos < a[0].pos then Merge(a, b[1..], reverse)
    else [a[0]] + Merge(a[1..], b[1..], reverse)
  }

  lemma {:induction false} MergeIsSymmetric(a: seq<Unit>, b: seq<Unit>, reverse: bool)
    ensures Merge(a, b, reverse) == Merge(b, a, !reverse)
    decreases |a| + |b|
  {
    if a != [] { MergeIsSymmetric(a[1..], b, reverse); }
    if b != [] { MergeIsSymmetric(a, b[1..], reverse); }
    if a != [] && b != [] { MergeIsSymmetric(a[1..], b[1..], reverse); }
  }

  lemma ComposeFront(all: seq<Unit>, u: Unit, rest: seq<Unit>)
    requires InText(rest, |all|) && (u.Taken? ==> 0 <= u.pos < |all|)
    ensures InText([u] + rest, |all|)
    ensures ComposeUnits(all, [u] + rest) == [if u.Taken? then all[u.pos] else u] + ComposeUnits(all, rest)
  {}

  lemma ComposeNothing(all: seq<Unit>)
    ensures InText([], |all|) && ComposeUnits(all, []) == []
  {}

  // Composing with what `follow` gives is merging.
  lemma {:induction false} FollowMergesUnits(all: seq<Unit>, a: seq<Unit>, b: seq<Unit>, i: nat, reverse: bool)
    requires i + |a| == |all| && a == all[i..]
    ensures InText(FollowUnits(a, b, i, reverse), |all|)
    ensures ComposeUnits(all, FollowUnits(a, b, i, reverse)) == Merge(a, b, reverse)
    decreases |a| + |b|
  {
    hide InText, ComposeUnits;
    ComposeNothing(all);
    if a != [] {
      FollowMergesUnits(all, a[1..], b, i + 1, reverse);
      ComposeFront(all, Taken(i), FollowUnits(a[1..], b, i + 1, reverse));
    }
    if b != [] {
      FollowMergesUnits(all, a, b[1..], i, reverse);
      if b[0].Typed? { ComposeFront(all, b[0], FollowUnits(a, b[1..], i, reverse)); }
    }
    if a != [] && b != [] {
      FollowMergesUnits(all, a[1..], b[1..], i + 1, reverse);
      ComposeFront(all, Taken(i), FollowUnits(a[1..], b[1..], i + 1, reverse));
    }
  }

  // ---------- one way to write units as strips

  ghost predicate TypedAt(u: seq<Unit>, s: Strip, k: int) {
    0 <= k < |u| && s.taken <= k < s.taken + |s.text| && u[k] == Typed(s.text[k - s.taken])
  }

  // The units start with the strip, and the strip reaches as far as it can.
  ghost predicate Reads(u: seq<Unit>, s: Strip) {
    && 0 <= s.taken && s.taken + |s.text| <= |u|
    && (forall k :: 0 <= k < s.taken ==> u[k] == Taken(s.start + k))
    && (forall k :: s.taken <= k < s.taken + |s.text| ==> TypedAt(u, s, k))
    && (s.taken < |u| && s.text == "" ==> s.taken > 0 && u[s.taken].Taken? && u[s.taken].pos != s.start + s.taken)
    && (s.taken + |s.text| < |u| ==> u[s.taken + |s.text|].Taken?)
    && (s.taken == 0 ==> s.start == 0)
  }

  lemma UnitsAt(strips: seq<Strip>, oldLen: int, i: nat)
    requires StripsOk(strips, oldLen) && AllTake(strips) && i < |strips|
    ensures var s, u := strips[i], Units(strips, i);
            Reads(u, s) && u[s.taken + |s.text|..] == Units(strips, i + 1) && (i > 0 ==> u != [])
  {
    hide Reads, Units, StripUnits, StripsOk;
    NextUnit(strips, oldLen, i);
    UnitsFrom(strips, i);
    ReadsOf(strips[i], Units(strips, i + 1));
  }

  lemma UnitsFrom(strips: seq<Strip>, i: nat)
    requires AllTake(strips)
    ensures Units(strips, i) == if i >= |strips| then [] else StripUnits(strips[i]) + Units(strips, i + 1)
  {}

  // What stands behind a strip is a strip that takes something from further on.
  lemma {:induction false} NextUnit(strips: seq<Strip>, oldLen: int, i: nat)
    requires StripsOk(strips, oldLen) && AllTake(strips) && i < |strips|
    ensures var s, rest := strips[i], Units(strips, i + 1);
            && StripOk(strips, oldLen, i) && (i > 0 ==> s.taken > 0) && (s.taken == 0 ==> s.start == 0)
            && (rest != [] ==> rest[0].Taken? && (s.text == "" ==> rest[0].pos > s.start + s.taken && s.taken > 0))
  {
    assert StripOk(strips, oldLen, i);
    if i + 1 < |strips| {
      var t := strips[i + 1];
      assert StripOk(strips, oldLen, i + 1);
      assert TakenUnits(t.start, t.taken)[0] == Taken(t.start + 0);
    }
  }

  lemma {:induction false} ReadsOf(s: Strip, rest: seq<Unit>)
    requires 0 <= s.taken && (s.taken == 0 ==> s.start == 0)
    requires rest != [] ==> rest[0].Taken? && (s.text == "" ==> rest[0].pos > s.start + s.taken && s.taken > 0)
    ensures var u := StripUnits(s) + rest;
            Reads(u, s) && u[s.taken + |s.text|..] == rest && (s.taken > 0 ==> u != [])
  {
    var u := StripUnits(s) + rest;
    forall k | 0 <= k < s.taken ensures u[k] == Taken(s.start + k) { assert u[k] == TakenUnits(s.start, s.taken)[k]; }
    forall k | s.taken <= k < s.taken + |s.text| ensures TypedAt(u, s, k) {
      assert u[k] == TypedUnits(s.text)[k - s.taken];
    }
  }

  lemma TakesNoLess(u: seq<Unit>, s: Strip, t: Strip)
    requires Reads(u, s) && Reads(u, t)
    ensures s.taken >= t.taken
  {
    assert s.taken < t.taken ==> u[s.taken] == Taken(t.start + s.taken);
    assert 0 < t.taken ==> u[0] == Taken(t.start + 0);
    assert 0 < s.taken ==> u[0] == Taken(s.start + 0);
    assert s.text == "" || TypedAt(u, s, s.taken);
  }

  lemma TypesNoLess(u: seq<Unit>, s: Strip, t: Strip)
    requires Reads(u, s) && Reads(u, t) && s.taken == t.taken
    ensures |s.text| >= |t.text|
  {
    var k := s.taken + |s.text|;
    assert |s.text| >= |t.text| || TypedAt(u, t, k);
  }

  // A strip can be told from the units it starts.
  lemma SameStrip(u: seq<Unit>, s: Strip, t: Strip)
    requires Reads(u, s) && Reads(u, t)
    ensures s == t
  {
    TakesNoLess(u, s, t);
    TakesNoLess(u, t, s);
    TypesNoLess(u, s, t);
    TypesNoLess(u, t, s);
    if s.taken > 0 { assert u[0] == Taken(s.start + 0) && u[0] == Taken(t.start + 0); }
    forall k | 0 <= k < |s.text| ensures s.text[k] == t.text[k] {
      assert TypedAt(u, s, s.taken + k) && TypedAt(u, t, s.taken + k);
    }
  }

  lemma {:induction false} SameUnitsSameStrips(x: seq<Strip>, y: seq<Strip>, oldLen: int, i: nat)
    requires StripsOk(x, oldLen) && AllTake(x) && StripsOk(y, oldLen) && AllTake(y)
    requires i <= |x| && i <= |y| && Units(x, i) == Units(y, i) && (i == |x| || i == |y| ==> i > 0)
    ensures x[i..] == y[i..]
    decreases |x| - i
  {
    hide StripsOk, AllTake, Reads, StripUnits;
    if i < |x| && i < |y| {
      UnitsAt(x, oldLen, i);
      UnitsAt(y, oldLen, i);
      SameStrip(Units(x, i), x[i], y[i]);
      SameUnitsSameStrips(x, y, oldLen, i + 1);
      assert x[i..] == [x[i]] + x[i + 1..] && y[i..] == [y[i]] + y[i + 1..];
    } else if i < |x| {
      UnitsAt(x, oldLen, i);
    } else if i < |y| {
      UnitsAt(y, oldLen, i);
    }
  }

  // Two changesets that make the same of every text are the same.
  lemma RepIsUnique(c: StripChangeset, d: StripChangeset)
    requires IsRep(c) && IsRep(d) && c.oldLen == d.oldLen && UnitsOf(c) == UnitsOf(d)
    ensures c == d
  {
    SameUnitsSameStrips(c.strips, d.strips, c.oldLen, 0);
    assert c.strips[0..] == c.strips && d.strips[0..] == d.strips;
  }
}
