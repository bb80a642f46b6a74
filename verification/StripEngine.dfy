/** easysync 1 at work: the builder, the traverser and `follow`. */
module StripEngine {
  import opened StripChangesets

  lemma {:induction false} UnitsConcat(a: seq<Strip>, b: seq<Strip>, i: nat)
    requires AllTake(a + b) && i <= |a|
    ensures AllTake(a) && AllTake(b) && Units(a + b, i) == Units(a, i) + Units(b, 0)
    decreases |a| - i
  {
    PartsTake(a, b);
    if i == |a| {
      UnitsShift(a, b, 0);
    } else {
      UnitsConcat(a, b, i + 1);
      assert (a + b)[i] == a[i];
    }
  }

  lemma PartsTake(a: seq<Strip>, b: seq<Strip>)
    requires AllTake(a + b)
    ensures AllTake(a) && AllTake(b)
  {
    forall i | 0 <= i < |a| ensures 0 <= a[i].taken { assert (a + b)[i] == a[i]; }
    forall i | 0 <= i < |b| ensures 0 <= b[i].taken { assert (a + b)[|a| + i] == b[i]; }
  }

  lemma {:induction false} UnitsShift(a: seq<Strip>, b: seq<Strip>, i: nat)
    requires AllTake(a + b) && AllTake(b) && i <= |b|
    ensures Units(a + b, |a| + i) == Units(b, i)
    decreases |b| - i
  {
    if i < |b| {
      UnitsShift(a, b, i + 1);
      assert (a + b)[|a| + i] == b[i];
    }
  }

  lemma OneStrip(s: Strip)
    requires 0 <= s.taken
    ensures AllTake([s]) && Units([s], 0) == StripUnits(s)
  {
    assert Units([s], 0) == StripUnits(s) + Units([s], 1);
  }

  lemma LastTakes(strips: seq<Strip>)
    requires AllTake(strips) && strips != []
    ensures 0 <= strips[|strips| - 1].taken && AllTake(strips[..|strips| - 1])
  {}

  lemma LastUnits(strips: seq<Strip>)
    requires AllTake(strips) && strips != []
    ensures var n := |strips| - 1;
            AllTake(strips[..n]) && Units(strips, 0) == Units(strips[..n], 0) + StripUnits(strips[n])
  {
    hide Units, StripUnits, AllTake;
    var n := |strips| - 1;
    assert strips == strips[..n] + [strips[n]];
    LastTakes(strips);
    UnitsConcat(strips[..n], [strips[n]], 0);
    OneStrip(strips[n]);
  }

  // The last strip changed, with what stays in order.
  lemma LastReplaced(strips: seq<Strip>, oldLen: int, s: Strip)
    requires StripsOk(strips, oldLen) && AllTake(strips)
    requires var n := |strips| - 1; var l := strips[n];
             && s.start >= l.start && 0 <= s.taken && (n > 0 ==> s.taken > 0) && (s.taken == 0 ==> s.start == 0)
             && (s.start == l.start || n == 0) && s.start + s.taken <= oldLen && (s.taken > 0 || s.text != "" || n == 0)
    ensures var n := |strips| - 1; var strips' := strips[n := s];
            StripsOk(strips', oldLen) && AllTake(strips') && AllTake(strips[..n])
                && Units(strips', 0) == Units(strips[..n], 0) + StripUnits(s)
  {
    hide Units, StripUnits;
    var n := |strips| - 1;
    var strips' := strips[n := s];
    forall i | 0 <= i < |strips'| ensures StripOk(strips', oldLen, i) { assert StripOk(strips, oldLen, i); }
    LastUnits(strips');
    assert strips'[..n] == strips[..n];
  }

  lemma OnePushed(strips: seq<Strip>, oldLen: int, s: Strip)
    requires StripsOk(strips, oldLen) && AllTake(strips) && s.taken > 0 && 0 <= s.start && s.start + s.taken <= oldLen
    requires var l := strips[|strips| - 1];
             && s.start >= l.start + l.taken
             && (s.start > l.start + l.taken || l.text != "") && (l.taken > 0 || l.text != "")
    ensures StripsOk(strips + [s], oldLen) && AllTake(strips + [s])
        && Units(strips + [s], 0) == Units(strips, 0) + StripUnits(s)
  {
    hide Units, StripUnits;
    var strips' := strips + [s];
    forall i | 0 <= i < |strips'| ensures StripOk(strips', oldLen,
        i) { if i < |strips| { assert StripOk(strips, oldLen, i); } }
    LastUnits(strips');
    assert strips'[..|strips|] == strips;
  }

  // ---------- the builder

  class StripBuilder {
    const oldLen: int
    var newLen: int
    var strips: seq<Strip>

    ghost predicate Valid()
      reads this
    {
      IsRep(StripChangeset(oldLen, newLen, strips))
    }

    ghost function Built(): seq<Unit>
      reads this
      requires Valid()
    {
      Units(strips, 0)
    }

    // Behind the last old character that was taken.
    function End(): int
      reads this
    {
      if strips == [] then 0 else strips[|strips| - 1].start + strips[|strips| - 1].taken
    }

    constructor (n: nat)
      ensures Valid() && Built() == [] && End() == 0 && oldLen == n
    {
      oldLen := n;
      newLen := 0;
      strips := [Strip(0, 0, "")];
      new;
      OneStrip(Strip(0, 0, ""));
    }

    method AppendNewText(str: string)
      requires Valid()
      modifies this
      ensures Valid() && Built() == old(Built()) + TypedUnits(str) && End() == old(End())
    {
      hide Units, StripUnits, StripsOk;
      ghost var was := strips;
      var n := |strips| - 1;
      SomeStrip(strips, oldLen);
      LastUnits(strips);
      TypedMore(strips[n], str);
      var s := strips[n].(text := strips[n].text + str);
      LastReplaced(strips, oldLen, s);
      strips := strips[n := s];
      newLen := newLen + |str|;
      Grouped(Units(was[..n], 0), StripUnits(was[n]), TypedUnits(str));
    }

    method AppendOldText(startIndex: int, numTaken: nat)
      requires Valid() && End() <= startIndex && startIndex + numTaken <= oldLen
      modifies this
      ensures Valid() && Built() == old(Built()) + TakenUnits(startIndex, numTaken)
      ensures End() == if numTaken == 0 then old(End()) else startIndex + numTaken
    {
      hide Units, StripUnits, StripsOk;
      SomeStrip(strips, oldLen);
      LastUnits(strips);
      NothingTaken(strips, startIndex);
      if numTaken == 0 { return; }
      ghost var was := strips;
      var n := |strips| - 1;
      var last := strips[n];
      if last.taken == 0 && last.text == "" {
        // still empty
        LastReplaced(strips, oldLen, Strip(startIndex, numTaken, ""));
        NothingIn(last);
        TakenAlone(Strip(startIndex, numTaken, ""));
        strips := strips[n := last.(start := startIndex, taken := numTaken)];
      } else if last.text == "" && last.start + last.taken == startIndex {
        // more of the same stretch
        TakenMore(last, numTaken);
        LastReplaced(strips, oldLen, last.(taken := last.taken + numTaken));
        strips := strips[n := last.(taken := last.taken + numTaken)];
      } else {
        OnePushed(strips, oldLen, Strip(startIndex, numTaken, ""));
        TakenAlone(Strip(startIndex, numTaken, ""));
        strips := strips + [Strip(startIndex, numTaken, "")];
      }
      newLen := newLen + numTaken;
      Grouped(Units(was[..n], 0), StripUnits(was[n]), TakenUnits(startIndex, numTaken));
    }

    method ToChangeset() returns (c: StripChangeset)
      requires Valid()
      ensures IsRep(c) && UnitsOf(c) == Built() && c.oldLen == oldLen
    {
      c := StripChangeset(oldLen, newLen, strips);
    }
  }

  lemma SomeStrip(strips: seq<Strip>, oldLen: int)
    requires StripsOk(strips, oldLen)
    ensures strips != []
    ensures var n := |strips| - 1;
            && StripOk(strips, oldLen, n)
            && (strips[n].taken == 0 && strips[n].text == "" ==> n == 0)
  {
    assert StripOk(strips, oldLen, |strips| - 1);
  }

  lemma Grouped<T>(x: seq<T>, y: seq<T>, z: seq<T>)
    ensures x + (y + z) == x + y + z
  {}

  lemma TypedMore(s: Strip, str: string)
    requires 0 <= s.taken
    ensures StripUnits(s.(text := s.text + str)) == StripUnits(s) + TypedUnits(str)
  {}

  lemma TakenMore(s: Strip, n: nat)
    requires 0 <= s.taken && s.text == ""
    ensures StripUnits(s.(taken := s.taken + n)) == StripUnits(s) + TakenUnits(s.start + s.taken, n)
  {}

  lemma TakenAlone(s: Strip)
    requires 0 <= s.taken && s.text == ""
    ensures StripUnits(s) == TakenUnits(s.start, s.taken)
  {}

  lemma NothingIn(s: Strip)
    requires s.taken == 0 && s.text == ""
    ensures StripUnits(s) == []
  {}

  lemma NothingTaken(strips: seq<Strip>, start: int)
    requires AllTake(strips)
    ensures Units(strips, 0) + TakenUnits(start, 0) == Units(strips, 0)
  {}

  // ---------- the traverser

  class Traverser {
    const c: StripChangeset
    var s: int
    var t: int
    var n: string
    var nextIndex: nat
    var indexIntoNewText: nat

    ghost predicate Valid()
      reads this
    {
      && IsRep(c) && 0 < nextIndex <= |c.strips| && 0 <= t && (t == 0 && n == "" ==> nextIndex == |c.strips|)
      && indexIntoNewText <= |UnitsOf(c)| && Rest() == UnitsOf(c)[indexIntoNewText..]
    }

    ghost function Rest(): seq<Unit>
      reads this
      requires IsRep(c) && 0 <= t
    {
      TakenUnits(s, t) + TypedUnits(n) + Units(c.strips, nextIndex)
    }

    constructor (cs: StripChangeset)
      requires IsRep(cs)
      ensures Valid() && c == cs && indexIntoNewText == 0
    {
      c := cs;
      s, t, n := cs.strips[0].start, cs.strips[0].taken, cs.strips[0].text;
      nextIndex := 1;
      indexIntoNewText := 0;
      new;
      assert StripOk(cs.strips, cs.oldLen, 0);
      assert UnitsOf(cs)[0..] == UnitsOf(cs);
    }

    // Taken characters in front.
    function NumTakenChars(): int
      reads this
    {
      if t > 0 then t else 0
    }

    // New characters in front.
    function NumNewChars(): nat
      reads this
    {
      if t == 0 && |n| > 0 then |n| else 0
    }

    predicate HasMore()
      reads this
    {
      NumTakenChars() > 0 || NumNewChars() > 0
    }

    lemma FrontIs()
      requires Valid()
      ensures HasMore() <==> Rest() != []
      ensures NumNewChars() > 0 <==> FrontTyped(Rest())
      ensures NumTakenChars() <= |Rest()| && Rest()[..NumTakenChars()] == TakenUnits(s, NumTakenChars())
      ensures NumNewChars() <= |Rest()| && (NumNewChars() > 0 ==> Rest()[..NumNewChars()] == TypedUnits(n))
      ensures indexIntoNewText + |Rest()| == |UnitsOf(c)| && (t == 0 && n == "" ==> Rest() == [])
    {}

    method AdvanceIfPossible()
      requires IsRep(c) && nextIndex <= |c.strips| && 0 <= t && 0 < nextIndex
      requires indexIntoNewText <= |UnitsOf(c)| && Rest() == UnitsOf(c)[indexIntoNewText..]
      modifies this`s, this`t, this`n, this`nextIndex
      ensures Valid() && Rest() == old(Rest())
    {
      if t == 0 && n == "" && nextIndex < |c.strips| {
        assert StripOk(c.strips, c.oldLen, nextIndex);
        assert Rest() == Units(c.strips, nextIndex);
        s, t, n := c.strips[nextIndex].start, c.strips[nextIndex].taken, c.strips[nextIndex].text;
        nextIndex := nextIndex + 1;
      }
    }

    method ConsumeTakenChars(x: nat)
      requires Valid() && NumTakenChars() > 0 && x <= NumTakenChars()
      modifies this`s, this`t, this`n, this`nextIndex, this`indexIntoNewText
      ensures Valid() && indexIntoNewText == old(indexIntoNewText) + x && x <= |old(Rest())|
          && Rest() == old(Rest())[x..]
    {
      hide Units;
      FrontIs();
      if x == 0 { return; }
      TakenTail(s, t, x, TypedUnits(n) + Units(c.strips, nextIndex));
      Grouped(TakenUnits(s, t), TypedUnits(n), Units(c.strips, nextIndex));
      ghost var rest := Rest();
      if t == x {
        s, t := 0, 0;
      } else {
        s, t := s + x, t - x;
      }
      Grouped(TakenUnits(s, t), TypedUnits(n), Units(c.strips, nextIndex));
      indexIntoNewText := indexIntoNewText + x;
      assert Rest() == rest[x..];
      AdvanceIfPossible();
    }

    method ConsumeNewChars(x: nat) returns (str: string)
      requires Valid() && NumNewChars() > 0 && x <= NumNewChars()
      modifies this`s, this`t, this`n, this`nextIndex, this`indexIntoNewText
      ensures Valid() && indexIntoNewText == old(indexIntoNewText) + x && str == old(n)[..x]
      ensures x <= |old(Rest())| && Rest() == old(Rest())[x..]
    {
      hide Units;
      FrontIs();
      if x == 0 { return ""; }
      ghost var rest := Rest();
      str := n[..x];
      TypedTail(s, n, x, Units(c.strips, nextIndex));
      n := n[x..];
      indexIntoNewText := indexIntoNewText + x;
      assert Rest() == rest[x..];
      AdvanceIfPossible();
    }
  }

  lemma TakenTail(s: int, t: nat, x: nat, rest: seq<Unit>)
    requires x <= t
    ensures (TakenUnits(s, t) + rest)[x..] == TakenUnits(s + x, t - x) + rest
    ensures x == t ==> TakenUnits(s + x, t - x) == TakenUnits(0, 0)
  {}

  lemma TypedTail(s: int, n: string, x: nat, rest: seq<Unit>)
    requires x <= |n|
    ensures (TakenUnits(s, 0) + TypedUnits(n) + rest)[x..] == TakenUnits(s, 0) + TypedUnits(n[x..]) + rest
  {}

  // ---------- follow

  // `k` new characters of the first changeset, which are kept.
  lemma {:induction false} FollowKeepsTyped(a: seq<Unit>, b: seq<Unit>, i: nat, reverse: bool, k: nat)
    requires k <= |a| && (forall j :: 0 <= j < k ==> a[j].Typed?) && (reverse ==> !FrontTyped(b))
    ensures FollowUnits(a, b, i, reverse) == TakenUnits(i, k) + FollowUnits(a[k..], b, i + k, reverse)
    decreases k
  {
    if k == 0 {
      assert a[0..] == a;
    } else {
      FollowKeepsTyped(a[1..], b, i + 1, reverse, k - 1);
      assert a[1..][k - 1..] == a[k..];
      assert TakenUnits(i, k) == [Taken(i)] + TakenUnits(i + 1, k - 1);
    }
  }

  lemma {:induction false} FollowTypes(a: seq<Unit>, b: seq<Unit>, i: nat, reverse: bool, k: nat)
    requires k <= |b| && (forall j :: 0 <= j < k ==> b[j].Typed?) && (FrontTyped(a) ==> reverse)
    ensures FollowUnits(a, b, i, reverse) == b[..k] + FollowUnits(a, b[k..], i, reverse)
    decreases k
  {
    if k == 0 {
      assert b[0..] == b;
    } else {
      FollowTypes(a, b[1..], i, reverse, k - 1);
      assert b[1..][k - 1..] == b[k..] && b[..k] == [b[0]] + b[1..][..k - 1];
    }
  }

  // `k` characters that the first takes and the second does not.
  lemma {:induction false} FollowSkipsFirst(a: seq<Unit>, b: seq<Unit>, i: nat, reverse: bool, x: int, k: nat)
    requires k <= |a| && a[..k] == TakenUnits(x, k) && !FrontTyped(b) && (b != [] ==> x + k <= b[0].pos)
    ensures FollowUnits(a, b, i, reverse) == FollowUnits(a[k..], b, i + k, reverse)
    decreases k
  {
    if k == 0 {
      assert a[0..] == a;
    } else {
      assert a[0] == a[..k][0] == Taken(x);
      TakenRest(a, x, k);
      FollowSkipsFirst(a[1..], b, i + 1, reverse, x + 1, k - 1);
      assert a[1..][k - 1..] == a[k..];
    }
  }

  lemma TakenRest(a: seq<Unit>, x: int, k: nat)
    requires 0 < k <= |a| && a[..k] == TakenUnits(x, k)
    ensures a[1..][..k - 1] == TakenUnits(x + 1, k - 1)
  {
    assert a[1..][..k - 1] == a[..k][1..];
    TakenTail(x, k, 1, []);
  }

  lemma {:induction false} FollowSkipsSecond(a: seq<Unit>, b: seq<Unit>, i: nat, reverse: bool, y: int, k: nat)
    requires k <= |b| && b[..k] == TakenUnits(y, k) && !FrontTyped(a) && (a != [] ==> y + k <= a[0].pos)
    ensures FollowUnits(a, b, i, reverse) == FollowUnits(a, b[k..], i, reverse)
    decreases k
  {
    if k == 0 {
      assert b[0..] == b;
    } else {
      assert b[0] == b[..k][0] == Taken(y);
      TakenRest(b, y, k);
      FollowSkipsSecond(a, b[1..], i, reverse, y + 1, k - 1);
      assert b[1..][k - 1..] == b[k..];
    }
  }

  lemma {:induction false} FollowKeepsBoth(a: seq<Unit>, b: seq<Unit>, i: nat, reverse: bool, x: int, k: nat)
    requires k <= |a| && k <= |b| && a[..k] == TakenUnits(x, k) && b[..k] == TakenUnits(x, k)
    ensures FollowUnits(a, b, i, reverse) == TakenUnits(i, k) + FollowUnits(a[k..], b[k..], i + k, reverse)
    decreases k
  {
    if k == 0 {
      assert a[0..] == a && b[0..] == b;
    } else {
      assert a[0] == a[..k][0] == Taken(x) && b[0] == b[..k][0] == Taken(x);
      TakenRest(a, x, k);
      TakenRest(b, x, k);
      FollowKeepsBoth(a[1..], b[1..], i + 1, reverse, x + 1, k - 1);
      assert a[1..][k - 1..] == a[k..] && b[1..][k - 1..] == b[k..];
      assert TakenUnits(i, k) == [Taken(i)] + TakenUnits(i + 1, k - 1);
    }
  }

  lemma TypedFront(a: seq<Unit>, n: string)
    requires |n| <= |a| && a[..|n|] == TypedUnits(n)
    ensures forall j :: 0 <= j < |n| ==> a[j].Typed?
  {
    assert forall j :: 0 <= j < |n| ==> a[..|n|][j] == Typed(n[j]);
  }

  lemma TakenInFront(a: seq<Unit>, x: int, n: nat, k: nat)
    requires 0 < k <= n <= |a| && a[..n] == TakenUnits(x, n)
    ensures a[0] == Taken(x) && a[..k] == TakenUnits(x, k)
  {
    assert a[..n][0] == Taken(x + 0);
    assert a[..k] == a[..n][..k];
  }

  // What the builder has, and what is still to come.
  ghost predicate Going(builder: StripBuilder, a: Traverser, b: Traverser, reverse: bool, all: seq<Unit>)
    reads builder, a, b
  {
    && builder.Valid() && a.Valid() && b.Valid() && a != b
    && builder.oldLen == |UnitsOf(a.c)| && builder.End() <= a.indexIntoNewText
    && all == builder.Built() + FollowUnits(a.Rest(), b.Rest(), a.indexIntoNewText, reverse)
  }

  method FollowOnce(builder: StripBuilder, a: Traverser, b: Traverser, reverseInsertOrder: bool, ghost all: seq<Unit>)
    requires Going(builder, a, b, reverseInsertOrder, all) && (a.HasMore() || b.HasMore())
    modifies builder, a, b
    ensures Going(builder, a, b, reverseInsertOrder, all)
    ensures |a.Rest()| + |b.Rest()| < old(|a.Rest()| + |b.Rest()|)
  {
    hide IsRep, FollowUnits, Units, StripBuilder.Built, StripBuilder.Valid;
    if a.NumNewChars() > 0 && !reverseInsertOrder {
      KeepNew(builder, a, b, reverseInsertOrder, all);
    } else if b.NumNewChars() > 0 {
      TypeNew(builder, a, b, reverseInsertOrder, all);
    } else if a.NumNewChars() > 0 && reverseInsertOrder {
      KeepNew(builder, a, b, reverseInsertOrder, all);
    } else if !b.HasMore() {
      SkipFirst(builder, a, b, reverseInsertOrder, a.NumTakenChars(), all);
    } else if !a.HasMore() {
      SkipSecond(builder, a, b, reverseInsertOrder, b.NumTakenChars(), all);
    } else {
      var x, y := a.s, b.s;
      if x < y {
        SkipFirst(builder, a, b, reverseInsertOrder, Smaller(a.NumTakenChars(), y - x), all);
      } else if y < x {
        SkipSecond(builder, a, b, reverseInsertOrder, Smaller(b.NumTakenChars(), x - y), all);
      } else {
        KeepBoth(builder, a, b, reverseInsertOrder, Smaller(a.NumTakenChars(), b.NumTakenChars()), all);
      }
    }
  }

  function Smaller(x: int, y: int): int { if x < y then x else y }

  // What the first has typed stays.
  method KeepNew(builder: StripBuilder, a: Traverser, b: Traverser, reverse: bool, ghost all: seq<Unit>)
    requires Going(builder, a, b, reverse, all) && a.NumNewChars() > 0 && (reverse ==> b.NumNewChars() == 0)
    modifies builder, a
    ensures Going(builder, a, b, reverse, all)
    ensures |a.Rest()| < old(|a.Rest()|) && b.Rest() == old(b.Rest())
  {
    hide IsRep, FollowUnits, Units, StripBuilder.Built, StripBuilder.Valid, Traverser.Rest;
    ghost var ra, i := a.Rest(), a.indexIntoNewText;
    ghost var built := builder.Built();
    a.FrontIs();
    b.FrontIs();
    TypedFront(ra, a.n);
    FollowKeepsTyped(ra, b.Rest(), i, reverse, |a.n|);
    builder.AppendOldText(a.indexIntoNewText, a.NumNewChars());
    var str := a.ConsumeNewChars(a.NumNewChars());
    Grouped(built, TakenUnits(i, |str|), FollowUnits(a.Rest(), b.Rest(), a.indexIntoNewText, reverse));
  }

  // What the second types comes next.
  method TypeNew(builder: StripBuilder, a: Traverser, b: Traverser, reverse: bool, ghost all: seq<Unit>)
    requires Going(builder, a, b, reverse, all) && b.NumNewChars() > 0 && (!reverse ==> a.NumNewChars() == 0)
    modifies builder, b
    ensures Going(builder, a, b, reverse, all)
    ensures |b.Rest()| < old(|b.Rest()|) && a.Rest() == old(a.Rest())
  {
    hide IsRep, FollowUnits, Units, StripBuilder.Built, StripBuilder.Valid, Traverser.Rest;
    ghost var rb, i := b.Rest(), a.indexIntoNewText;
    ghost var built := builder.Built();
    a.FrontIs();
    b.FrontIs();
    TypedFront(rb, b.n);
    FollowTypes(a.Rest(), rb, i, reverse, |b.n|);
    var str := b.ConsumeNewChars(b.NumNewChars());
    Grouped(built, TypedUnits(str), FollowUnits(a.Rest(), b.Rest(), i, reverse));
    builder.AppendNewText(str);
  }

  // Characters that the first takes, and the second does not.
  method SkipFirst(builder: StripBuilder, a: Traverser, b: Traverser, reverse: bool, k: nat, ghost all: seq<Unit>)
    requires Going(builder, a, b, reverse, all) && 0 < k <= a.NumTakenChars() && b.NumNewChars() == 0
    requires b.HasMore() ==> a.s + k <= b.s
    modifies a
    ensures Going(builder, a, b, reverse, all)
    ensures |a.Rest()| < old(|a.Rest()|) && b.Rest() == old(b.Rest())
  {
    hide IsRep, FollowUnits, Units, StripBuilder.Built, StripBuilder.Valid, Traverser.Rest;
    a.FrontIs();
    b.FrontIs();
    TakenInFront(a.Rest(), a.s, a.NumTakenChars(), k);
    if b.HasMore() { TakenInFront(b.Rest(), b.s, b.NumTakenChars(), 1); }
    FollowSkipsFirst(a.Rest(), b.Rest(), a.indexIntoNewText, reverse, a.s, k);
    a.ConsumeTakenChars(k);
  }

  // Characters that the second takes, and the first does not.
  method SkipSecond(builder: StripBuilder, a: Traverser, b: Traverser, reverse: bool, k: nat, ghost all: seq<Unit>)
    requires Going(builder, a, b, reverse, all) && 0 < k <= b.NumTakenChars() && a.NumNewChars() == 0
    requires a.HasMore() ==> b.s + k <= a.s
    modifies b
    ensures Going(builder, a, b, reverse, all)
    ensures |b.Rest()| < old(|b.Rest()|) && a.Rest() == old(a.Rest())
  {
    hide IsRep, FollowUnits, Units, StripBuilder.Built, StripBuilder.Valid, Traverser.Rest;
    a.FrontIs();
    b.FrontIs();
    TakenInFront(b.Rest(), b.s, b.NumTakenChars(), k);
    if a.HasMore() { TakenInFront(a.Rest(), a.s, a.NumTakenChars(), 1); }
    FollowSkipsSecond(a.Rest(), b.Rest(), a.indexIntoNewText, reverse, b.s, k);
    b.ConsumeTakenChars(k);
  }

  // Characters that both take.
  method KeepBoth(builder: StripBuilder, a: Traverser, b: Traverser, reverse: bool, k: nat, ghost all: seq<Unit>)
    requires Going(builder, a, b, reverse, all) && 0 < k <= a.NumTakenChars() && k <= b.NumTakenChars() && a.s == b.s
    modifies builder, a, b
    ensures Going(builder, a, b, reverse, all)
    ensures |a.Rest()| < old(|a.Rest()|) && |b.Rest()| < old(|b.Rest()|)
  {
    hide IsRep, FollowUnits, Units, StripBuilder.Built, StripBuilder.Valid, Traverser.Rest;
    ghost var built, i := builder.Built(), a.indexIntoNewText;
    a.FrontIs();
    b.FrontIs();
    TakenInFront(a.Rest(), a.s, a.NumTakenChars(), k);
    TakenInFront(b.Rest(), b.s, b.NumTakenChars(), k);
    FollowKeepsBoth(a.Rest(), b.Rest(), i, reverse, a.s, k);
    builder.AppendOldText(a.indexIntoNewText, k);
    a.ConsumeTakenChars(k);
    b.ConsumeTakenChars(k);
    Grouped(built, TakenUnits(i, k), FollowUnits(a.Rest(), b.Rest(), a.indexIntoNewText, reverse));
  }

  // The changeset that does `this_` after `prev`.
  method Follow(this_: StripChangeset, prev: StripChangeset, reverseInsertOrder: bool) returns (c: StripChangeset)
    requires IsRep(this_) && IsRep(prev) && prev.oldLen == this_.oldLen
    ensures IsRep(c) && c.oldLen == prev.newLen
        && UnitsOf(c) == FollowUnits(UnitsOf(prev), UnitsOf(this_), 0, reverseInsertOrder)
  {
    hide FollowUnits, Units, StripsOk;
    var builder := new StripBuilder(prev.newLen);
    var a := new Traverser(prev);
    var b := new Traverser(this_);
    ghost var all := FollowUnits(UnitsOf(prev), UnitsOf(this_), 0, reverseInsertOrder);
    assert UnitsOf(prev)[0..] == UnitsOf(prev) && UnitsOf(this_)[0..] == UnitsOf(this_);
    assert [] + all == all;
    while a.HasMore() || b.HasMore()
      invariant Going(builder, a, b, reverseInsertOrder, all) && fresh(builder) && fresh(a) && fresh(b)
      decreases |a.Rest()| + |b.Rest()|
    {
      FollowOnce(builder, a, b, reverseInsertOrder, all);
    }
    a.FrontIs();
    b.FrontIs();
    NothingFollows(a.indexIntoNewText, reverseInsertOrder, builder.Built());
    c := builder.ToChangeset();
  }

  lemma NothingFollows(i: nat, reverse: bool, built: seq<Unit>)
    ensures FollowUnits([], [], i, reverse) == [] && built + [] == built
  {}
}
