/** Finding out what changed between two versions of some lines: `analyzeChange`. */
module LineDiff {
  import opened Attributes
  import opened Changesets
  import opened Layers

  // ---------- styles

  const STYLE_ATTRIBS: set<string> := {"bold", "italic", "underline", "strikethrough", "list"}

  function Styles(a: seq<Pair>): seq<Pair> {
    if a == [] then [] else (if a[0].key in STYLE_ATTRIBS then [a[0]] else []) + Styles(a[1..])
  }

  // ---------- attributes character by character

  ghost predicate AreAttribs(ops: seq<Op>) { forall i :: 0 <= i < |ops| ==> 0 < ops[i].chars }

  ghost function Total(ops: seq<Op>): nat
    requires AreAttribs(ops)
  {
    if ops == [] then 0 else ops[0].chars + Total(ops[1..])
  }

  // The attributes of the character at `k`.
  ghost function AttribsAt(ops: seq<Op>, k: nat): Attribs
    requires AreAttribs(ops) && k < Total(ops)
  {
    if k < ops[0].chars then ops[0].attribs else AttribsAt(ops[1..], k - ops[0].chars)
  }

  ghost function StyleAt(ops: seq<Op>, k: nat): seq<Pair>
    requires AreAttribs(ops) && k < Total(ops)
  {
    Styles(AttribsAt(ops, k))
  }

  lemma {:induction false} TotalSplit(ops: seq<Op>, i: nat)
    requires AreAttribs(ops) && i <= |ops|
    ensures Total(ops) == Total(ops[..i]) + Total(ops[i..])
  {
    if i == 0 {
      assert ops[0..] == ops && ops[..0] == [];
    } else {
      assert ops[..i][1..] == ops[1..][..i - 1] && ops[1..][i - 1..] == ops[i..] && ops[..i][0] == ops[0];
      TotalSplit(ops[1..], i - 1);
    }
  }

  lemma {:induction false} AttribsInside(ops: seq<Op>, i: nat, j: nat)
    requires AreAttribs(ops) && i < |ops| && j < ops[i].chars
    ensures Total(ops[..i]) + j < Total(ops) && AttribsAt(ops, Total(ops[..i]) + j) == ops[i].attribs
  {
    TotalSplit(ops, i);
    assert ops[i..][0] == ops[i];
    if i > 0 {
      assert ops[..i][1..] == ops[1..][..i - 1] && ops[..i][0] == ops[0];
      AttribsInside(ops[1..], i - 1, j);
    }
  }

  lemma OneMore(ops: seq<Op>, i: nat)
    requires AreAttribs(ops) && i < |ops|
    ensures Total(ops[..i + 1]) == Total(ops[..i]) + ops[i].chars
        && Total(ops[i..]) == ops[i].chars + Total(ops[i + 1..])
  {
    TotalSplit(ops[..i + 1], i);
    assert ops[..i + 1][..i] == ops[..i] && ops[..i + 1][i..] == [ops[i]];
    assert ops[i..][1..] == ops[i + 1..];
  }

  // Steps through the characters of an attribution, from the front or from the back.
  class AttribIterator {
    const ops: seq<Op>
    const backward: bool
    var i: int
    var j: nat
    // how many were asked for
    ghost var k: nat

    ghost predicate Valid()
      reads this
    {
      && AreAttribs(ops) && k <= Total(ops)
      && (ops == [] || (0 <= i < |ops| && j <= ops[i].chars && k == j + if backward then Total(ops[i + 1..])
          else Total(ops[..i])))
    }

    constructor (o: seq<Op>, b: bool)
      requires AreAttribs(o)
      ensures Valid() && ops == o && backward == b && k == 0
    {
      ops, backward := o, b;
      i := if b then |o| - 1 else 0;
      j := 0;
      k := 0;
    }

    method Next() returns (a: seq<Pair>)
      requires Valid() && k < Total(ops)
      modifies this
      ensures Valid() && k == old(k) + 1
      ensures a == StyleAt(ops, if backward then Total(ops) - 1 - old(k) else old(k))
    {
      hide Total, AttribsAt, Styles;
      SomeOps(ops);
      while j >= ops[i].chars
        invariant Valid() && ops != [] && k == old(k) < Total(ops)
        decreases if backward then i else |ops| - i, j
      {
        NextRun();
      }
      a := Styles(ops[i].attribs);
      OneMore(ops, i);
      TotalSplit(ops, i);
      AttribsInside(ops, i, if backward then ops[i].chars - 1 - j else j);
      j := j + 1;
      k := k + 1;
      EndOfOps(ops, i);
    }

    method NextRun()
      requires Valid() && k < Total(ops) && ops != [] && j >= ops[i].chars
      modifies this`i, this`j
      ensures Valid() && i == old(i) + (if backward then -1 else 1) && j == 0
    {
      hide Total, StyleAt, Styles;
      OneMore(ops, i);
      NoTotal(ops);
      if backward {
        i := i - 1;
        OneMore(ops, i);
      } else {
        i := i + 1;
      }
      j := 0;
    }
  }

  lemma SomeOps(ops: seq<Op>)
    requires AreAttribs(ops) && 0 < Total(ops)
    ensures ops != []
  {}

  lemma NoTotal(ops: seq<Op>)
    requires AreAttribs(ops)
    ensures Total([]) == 0 && ops[..|ops|] == ops && ops[0..] == ops && ops[..0] == [] && ops[|ops|..] == []
  {}

  lemma EndOfOps(ops: seq<Op>, i: nat)
    requires AreAttribs(ops) && i < |ops|
    ensures Total(ops[..i]) + ops[i].chars <= Total(ops) && Total(ops[i + 1..]) + ops[i].chars <= Total(ops)
  {
    TotalSplit(ops, i);
    OneMore(ops, i);
  }

  // ---------- what is common

  // Two versions: texts with attributions for all of their characters.
  datatype Version = Version(text: string, attribs: seq<Op>)

  // (For no lines at all there is still an op, for a newline that is not there.)
  ghost predicate IsWhole(v: Version) { AreAttribs(v.attribs) && (v.text != "" ==> Total(v.attribs) == |v.text|) }

  ghost predicate SameFront(o: Version, n: Version, i: nat)
    requires IsWhole(o) && IsWhole(n) && i < |o.text| && i < |n.text|
  {
    o.text[i] == n.text[i] && StyleAt(o.attribs, i) == StyleAt(n.attribs, i)
  }

  ghost predicate SameBack(o: Version, n: Version, i: nat)
    requires IsWhole(o) && IsWhole(n) && i < |o.text| && i < |n.text|
  {
    var p, q := |o.text| - 1 - i, |n.text| - 1 - i;
    o.text[p] == n.text[q] && StyleAt(o.attribs, p) == StyleAt(n.attribs, q)
  }

  function Shorter(x: nat, y: nat): nat { if x <= y then x else y }

  // The longest common beginning.
  ghost predicate IsCommonStart(o: Version, n: Version, c: nat)
    requires IsWhole(o) && IsWhole(n)
  {
    var m := Shorter(|o.text|, |n.text|);
    c <= m && (forall i :: 0 <= i < c ==> SameFront(o, n, i)) && (c < m ==> !SameFront(o, n, c))
  }

  // The longest common end, but that the very last characters are taken to be the same.
  ghost predicate IsCommonEnd(o: Version, n: Version, c: nat)
    requires IsWhole(o) && IsWhole(n)
  {
    var m := Shorter(|o.text|, |n.text|);
    && c <= m && (m > 0 ==> c > 0) && (forall i :: 0 < i < c ==> SameBack(o, n, i)) && (c < m ==> !SameBack(o, n, c))
  }

  // Leaving out a stretch of the longer version, `s` characters from the beginning and `e`
  // from the end, leaves the shorter one, text and styles.
  ghost predicate Splits(o: Version, n: Version, s: int, e: int)
    requires IsWhole(o) && IsWhole(n)
  {
    && 0 <= s && 0 <= e && s + e == Shorter(|o.text|, |n.text|)
    && (forall i :: 0 <= i < s ==> SameFront(o, n, i)) && (forall i :: 0 < i < e ==> SameBack(o, n, i))
  }

  // The longer version can be split with what was typed ending at the cursor, or with what was
  // deleted having stood there.
  ghost predicate SplitsAtCursor(o: Version, n: Version, optSelEndHint: Option<int>)
    requires IsWhole(o) && IsWhole(n)
  {
    optSelEndHint.Some? && var e := |n.text| - optSelEndHint.value; Splits(o, n, Shorter(|o.text|, |n.text|) - e, e)
  }

  // What is left alone, given the longest common beginning and end. Where these overlap, one
  // version is the other with a stretch typed or deleted, and it is not clear which of several
  // equal ones: it is the one at the cursor if there is one, and the last one if not.
  ghost predicate LeftAlone(o: Version, n: Version, start: nat, end: nat, optSelEndHint: Option<int>, s: int, e: int)
    requires IsWhole(o) && IsWhole(n)
  {
    var m := Shorter(|o.text|, |n.text|);
    if start + end <= m then s == start && e == end
    else
      && s + e == m
      && if SplitsAtCursor(o, n, optSelEndHint) then e == |n.text| - optSelEndHint.value else s == start
  }

  method AnalyzeChange(o: Version, n: Version, optSelEndHint: Option<int>)
      returns (commonStart: int, commonEnd: int, ghost start: nat, ghost end: nat)
    requires IsWhole(o) && IsWhole(n)
    ensures IsCommonStart(o, n, start) && IsCommonEnd(o, n, end)
    ensures LeftAlone(o, n, start, end, optSelEndHint, commonStart, commonEnd)
  {
    hide Total, StyleAt, Splits, IsCommonStart, IsCommonEnd;
    var oldLen, newLen := |o.text|, |n.text|;
    var minLen := if oldLen <= newLen then oldLen else newLen;
    commonStart := CommonStart(o, n, minLen);
    commonEnd := CommonEnd(o, n, minLen);
    start, end := commonStart, commonEnd;
    CommonBounds(o, n, start, end);
    var hintedCommonEnd := -1;
    if optSelEndHint.Some? {
      hintedCommonEnd := newLen - optSelEndHint.value;
    }
    if commonStart + commonEnd > oldLen {
      var minCommonEnd := oldLen - commonStart;
      var maxCommonEnd := commonEnd;
      if hintedCommonEnd >= minCommonEnd && hintedCommonEnd <= maxCommonEnd {
        commonEnd := hintedCommonEnd;
      } else {
        commonEnd := minCommonEnd;
      }
      commonStart := oldLen - commonEnd;
    }
    if commonStart + commonEnd > newLen {
      var minCommonEnd := newLen - commonStart;
      var maxCommonEnd := commonEnd;
      if hintedCommonEnd >= minCommonEnd && hintedCommonEnd <= maxCommonEnd {
        commonEnd := hintedCommonEnd;
      } else {
        commonEnd := minCommonEnd;
      }
      commonStart := newLen - commonEnd;
    }
    if start + end > minLen && optSelEndHint.Some? {
      SplitsIff(o, n, start, end, minLen - hintedCommonEnd, hintedCommonEnd);
    }
  }

  method CommonStart(o: Version, n: Version, minLen: nat) returns (commonStart: nat)
    requires IsWhole(o) && IsWhole(n) && minLen == Shorter(|o.text|, |n.text|)
    ensures IsCommonStart(o, n, commonStart)
  {
    hide Total, StyleAt;
    commonStart := 0;
    var oldStartIter := new AttribIterator(o.attribs, false);
    var newStartIter := new AttribIterator(n.attribs, false);
    while commonStart < minLen
      invariant commonStart <= minLen && oldStartIter.Valid() && newStartIter.Valid() && oldStartIter != newStartIter
      invariant fresh(oldStartIter) && fresh(newStartIter)
      invariant oldStartIter.ops == o.attribs && newStartIter.ops == n.attribs && !oldStartIter.backward
          && !newStartIter.backward
      invariant oldStartIter.k == newStartIter.k == commonStart
      invariant forall i :: 0 <= i < commonStart ==> SameFront(o, n, i)
    {
      if o.text[commonStart] != n.text[commonStart] { break; }
      var x := oldStartIter.Next();
      var y := newStartIter.Next();
      if x != y { break; }
      commonStart := commonStart + 1;
    }
  }

  method CommonEnd(o: Version, n: Version, minLen: nat) returns (commonEnd: nat)
    requires IsWhole(o) && IsWhole(n) && minLen == Shorter(|o.text|, |n.text|)
    ensures IsCommonEnd(o, n, commonEnd)
  {
    hide Total, StyleAt;
    commonEnd := 0;
    var oldLen, newLen := |o.text|, |n.text|;
    var oldEndIter := new AttribIterator(o.attribs, true);
    var newEndIter := new AttribIterator(n.attribs, true);
    while commonEnd < minLen
      invariant commonEnd <= minLen && oldEndIter.Valid() && newEndIter.Valid() && oldEndIter != newEndIter
      invariant fresh(oldEndIter) && fresh(newEndIter)
      invariant oldEndIter.ops == o.attribs && newEndIter.ops == n.attribs && oldEndIter.backward && newEndIter.backward
      invariant oldEndIter.k == newEndIter.k == commonEnd
      invariant forall i :: 0 < i < commonEnd ==> SameBack(o, n, i)
    {
      if commonEnd == 0 {
        // the newlines are taken to be common
        var _ := oldEndIter.Next();
        var _ := newEndIter.Next();
        commonEnd := commonEnd + 1;
      } else {
        if o.text[oldLen - 1 - commonEnd] != n.text[newLen - 1 - commonEnd] { break; }
        var x := oldEndIter.Next();
        var y := newEndIter.Next();
        if x != y { break; }
        commonEnd := commonEnd + 1;
      }
    }
  }

  // ---------- what it is good for

  // The new text is the old one with its middle replaced.
  ghost predicate MiddleReplaced(o: string, n: string, start: int, end: int) {
    && 0 <= start && 0 <= end && start + end <= |o| && start + end <= |n|
    && o[..start] == n[..start] && o[|o| - end..] == n[|n| - end..]
  }

  ghost predicate EndsInNewline(s: string) { s == "" || s[|s| - 1] == '\n' }

  lemma FrontIsSame(o: Version, n: Version, start: nat, c: nat)
    requires IsWhole(o) && IsWhole(n) && IsCommonStart(o, n, start) && c <= start
    ensures c <= |o.text| && c <= |n.text| && o.text[..c] == n.text[..c]
  {
    hide StyleAt, Total;
    forall i | 0 <= i < c ensures o.text[i] == n.text[i] { assert SameFront(o, n, i); }
  }

  lemma {:induction false} BackIsSame(o: Version, n: Version, end: nat, c: nat)
    requires IsWhole(o) && IsWhole(n) && IsCommonEnd(o, n, end) && c <= end
    requires EndsInNewline(o.text) && EndsInNewline(n.text)
    ensures c <= |o.text| && c <= |n.text| && o.text[|o.text| - c..] == n.text[|n.text| - c..]
    decreases c
  {
    hide IsCommonEnd, IsWhole, EndsInNewline;
    if c > 0 {
      BackIsSame(o, n, end, c - 1);
      SameFromBack(o, n, end, c);
      OneCharMore(o.text, c);
      OneCharMore(n.text, c);
    }
  }

  lemma SameFromBack(o: Version, n: Version, end: nat, c: nat)
    requires IsWhole(o) && IsWhole(n) && IsCommonEnd(o, n, end) && 0 < c <= end
    requires EndsInNewline(o.text) && EndsInNewline(n.text)
    ensures c <= |o.text| && c <= |n.text| && o.text[|o.text| - c] == n.text[|n.text| - c]
  {
    hide StyleAt, Total;
    if c > 1 { assert SameBack(o, n, c - 1); }
  }

  lemma OneCharMore(x: string, c: nat)
    requires 0 < c <= |x|
    ensures x[|x| - c..] == [x[|x| - c]] + x[|x| - (c - 1)..]
  {}

  // Whatever the hint is, the answer describes a replacement in the middle.
  lemma ReplacedInTheMiddle(o: Version, n: Version, start: nat, end: nat, optSelEndHint: Option<int>, s: int, e: int)
    requires IsWhole(o) && IsWhole(n) && IsCommonStart(o, n, start) && IsCommonEnd(o, n, end)
    requires LeftAlone(o, n, start, end, optSelEndHint, s, e)
    requires EndsInNewline(o.text) && EndsInNewline(n.text)
    ensures MiddleReplaced(o.text, n.text, s, e) && s <= start && e <= end
    ensures e == 0 ==> s == |o.text| || s == |n.text|
  {
    hide StyleAt, Total, IsCommonStart, IsCommonEnd, Splits, SplitsAtCursor, EndsInNewline, IsWhole;
    CommonBounds(o, n, start, end);
    InBounds(o, n, start, end, optSelEndHint, s, e);
    FrontIsSame(o, n, start, s);
    BackIsSame(o, n, end, e);
  }

  lemma InBounds(o: Version, n: Version, start: nat, end: nat, optSelEndHint: Option<int>, s: int, e: int)
    requires IsWhole(o) && IsWhole(n) && IsCommonStart(o, n, start) && IsCommonEnd(o, n, end)
    requires LeftAlone(o, n, start, end, optSelEndHint, s, e)
    ensures 0 <= s <= start && 0 <= e <= end && s + e <= Shorter(|o.text|, |n.text|)
  {
    hide StyleAt, Total, IsCommonStart, IsCommonEnd, Splits, IsWhole;
    CommonBounds(o, n, start, end);
    if start + end > Shorter(|o.text|, |n.text|) { SplitsIff(o, n, start, end, s, e); }
  }

  // Where the common beginning and end overlap, the rest of the longer version is the shorter
  // one; no later stretch can be what was typed or deleted when there is none at the cursor.
  lemma TypedOrDeleted(o: Version, n: Version, start: nat, end: nat, optSelEndHint: Option<int>, s: int, e: int)
    requires IsWhole(o) && IsWhole(n) && IsCommonStart(o, n, start) && IsCommonEnd(o, n, end)
    requires EndsInNewline(o.text) && EndsInNewline(n.text) && start + end > Shorter(|o.text|, |n.text|)
    requires LeftAlone(o, n, start, end, optSelEndHint, s, e)
    ensures Splits(o, n, s, e)
    ensures SplitsAtCursor(o, n, optSelEndHint) ==> |n.text| - e == optSelEndHint.value
    ensures !SplitsAtCursor(o, n, optSelEndHint) ==> forall x, y :: Splits(o, n, x, y) ==> x <= s
    ensures |o.text| <= |n.text| ==> o.text == n.text[..s] + n.text[|n.text| - e..]
    ensures |n.text| <= |o.text| ==> n.text == o.text[..s] + o.text[|o.text| - e..]
  {
    hide StyleAt, Total, SameFront, SameBack, IsWhole, IsCommonStart, IsCommonEnd, EndsInNewline, MiddleReplaced,
         Splits;
    CommonBounds(o, n, start, end);
    ReplacedInTheMiddle(o, n, start, end, optSelEndHint, s, e);
    InBounds(o, n, start, end, optSelEndHint, s, e);
    SplitsIff(o, n, start, end, s, e);
    forall x, y | Splits(o, n, x, y) ensures x <= start {
      SplitsSum(o, n, x, y);
      SplitsIff(o, n, start, end, x, y);
    }
    TheRest(o.text, n.text, s, e);
  }

  lemma SplitsSum(o: Version, n: Version, s: int, e: int)
    requires IsWhole(o) && IsWhole(n) && Splits(o, n, s, e)
    ensures s + e == Shorter(|o.text|, |n.text|)
  {}

  lemma CommonBounds(o: Version, n: Version, start: nat, end: nat)
    requires IsWhole(o) && IsWhole(n) && IsCommonStart(o, n, start) && IsCommonEnd(o, n, end)
    ensures var m := Shorter(|o.text|, |n.text|); start <= m && end <= m && (m > 0 ==> end > 0)
  {
    hide SameFront, SameBack, Total;
  }

  // Common beginnings are at most as long as the longest, and so are common ends.
  lemma SplitsIff(o: Version, n: Version, start: nat, end: nat, s: int, e: int)
    requires IsWhole(o) && IsWhole(n) && IsCommonStart(o, n, start) && IsCommonEnd(o, n, end)
    requires var m := Shorter(|o.text|, |n.text|); m > 0 && s + e == m
    ensures Splits(o, n, s, e) <==> 0 <= s <= start && 0 <= e <= end
  {
    hide SameFront, SameBack, Total;
  }

  lemma TheRest(x: string, y: string, s: int, e: int)
    requires MiddleReplaced(x, y, s, e) && s + e == Shorter(|x|, |y|)
    ensures |x| <= |y| ==> x == y[..s] + y[|y| - e..]
    ensures |y| <= |x| ==> y == x[..s] + x[|x| - e..]
  {
    assert x == x[..|x| - e] + x[|x| - e..];
    assert y == y[..|y| - e] + y[|y| - e..];
  }
}
