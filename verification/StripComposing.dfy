/** easysync 1 at work: applying, the slicer, `compose`, and what merging promises. */
module StripComposing {
  import opened Interleaving
  import opened Zipping
  import opened StripChangesets
  import opened StripEngine

  // ---------- applying

  method ApplyToText(c: StripChangeset, text: string) returns (r: Result<string>)
    requires IsRep(c)
    ensures InText(UnitsOf(c), c.oldLen)
    ensures r == if |text| == c.oldLen then Success(ApplyUnits(UnitsOf(c), text)) else Failure("mismatched apply")
  {
    hide StripsOk, StripUnits, AllTake, Units, InText, ApplyUnits;
    RepAscends(c);
    if |text| != c.oldLen { return Failure("mismatched apply"); }
    var buf := "";
    NothingInFrontOf(ApplyUnits(UnitsOf(c), text));
    for i := 0 to |c.strips|
      invariant InText(Units(c.strips, i), |text|)
      invariant buf + ApplyUnits(Units(c.strips, i), text) == ApplyUnits(UnitsOf(c), text)
    {
      StripStep(c, i, text, buf);
      var strip := c.strips[i];
      buf := buf + text[strip.start..strip.start + strip.taken] + strip.text;
    }
    NothingApplied(c.strips, text, buf);
    r := Success(buf);
  }

  lemma NothingApplied(strips: seq<Strip>, text: string, buf: string)
    requires AllTake(strips)
    ensures InText(Units(strips, |strips|), |text|) && buf + ApplyUnits(Units(strips, |strips|), text) == buf
  {}

  lemma NothingInFrontOf(x: string)
    ensures "" + x == x
  {}

  lemma ThreeRegrouped<T>(w: seq<T>, x: seq<T>, y: seq<T>, z: seq<T>)
    ensures w + (x + y + z) == w + x + y + z
  {}

  lemma StripAt(strips: seq<Strip>, oldLen: int, i: nat)
    requires StripsOk(strips, oldLen) && AllTake(strips) && i < |strips|
    ensures 0 <= strips[i].taken && 0 <= strips[i].start && strips[i].start + strips[i].taken <= oldLen
    ensures i + 1 < |strips| ==> strips[i].start + strips[i].taken <= strips[i + 1].start
    ensures Units(strips, i) == StripUnits(strips[i]) + Units(strips, i + 1)
  {
    assert StripOk(strips, oldLen, i);
  }

  lemma StripStep(c: StripChangeset, i: nat, text: string, buf: string)
    requires IsRep(c) && |text| == c.oldLen && i < |c.strips| && InText(Units(c.strips, i), |text|)
    ensures var s := c.strips[i];
            && 0 <= s.start <= s.start + s.taken <= |text| && InText(Units(c.strips, i + 1), |text|)
            && buf + text[s.start..s.start + s.taken] + s.text + ApplyUnits(Units(c.strips, i + 1), text)
               == buf + ApplyUnits(Units(c.strips, i), text)
  {
    hide StripsOk, StripUnits, AllTake, Units, InText, ApplyUnits;
    StripAt(c.strips, c.oldLen, i);
    var s := c.strips[i];
    StripApplies(s, Units(c.strips, i + 1), text);
    ThreeRegrouped(buf, text[s.start..s.start + s.taken], s.text, ApplyUnits(Units(c.strips, i + 1), text));
  }

  lemma StripApplies(s: Strip, rest: seq<Unit>, text: string)
    requires 0 <= s.taken && 0 <= s.start && s.start + s.taken <= |text| && InText(StripUnits(s) + rest, |text|)
    ensures InText(rest, |text|)
    ensures ApplyUnits(StripUnits(s) + rest, text) == text[s.start..s.start + s.taken] + s.text + ApplyUnits(rest, text)
  {
    InTextParts(StripUnits(s), rest, |text|);
  }

  lemma InTextParts(a: seq<Unit>, b: seq<Unit>, n: int)
    requires InText(a + b, n)
    ensures InText(a, n) && InText(b, n)
  {
    forall i | 0 <= i < |a| && a[i].Taken? ensures 0 <= a[i].pos < n { assert (a + b)[i] == a[i]; }
    forall i | 0 <= i < |b| && b[i].Taken? ensures 0 <= b[i].pos < n { assert (a + b)[|a| + i] == b[i]; }
  }

  // ---------- the order of what is taken

  // From `lo` on, each character further on than the one before.
  ghost predicate Ascending(u: seq<Unit>, lo: int, n: int) {
    if u == [] then true
    else if u[0].Typed? then Ascending(u[1..], lo, n)
    else lo <= u[0].pos < n && Ascending(u[1..], u[0].pos + 1, n)
  }

  lemma {:induction false} AscendingFrom(u: seq<Unit>, lo: int, lo': int, n: int)
    requires Ascending(u, lo, n) && lo' <= lo
    ensures Ascending(u, lo', n)
  {
    if u != [] && u[0].Typed? { AscendingFrom(u[1..], lo, lo', n); }
  }

  lemma {:induction false} AscendingTail(u: seq<Unit>, lo: int, n: int, k: nat)
    requires Ascending(u, lo, n) && k <= |u|
    ensures Ascending(u[k..], lo, n)
  {
    if k == 0 {
      assert u[0..] == u;
    } else if u[0].Typed? {
      AscendingTail(u[1..], lo, n, k - 1);
      assert u[1..][k - 1..] == u[k..];
    } else {
      AscendingFrom(u[1..], u[0].pos + 1, lo, n);
      AscendingTail(u[1..], lo, n, k - 1);
      assert u[1..][k - 1..] == u[k..];
    }
  }

  lemma {:induction false} AscendingInText(u: seq<Unit>, lo: int, n: int)
    requires Ascending(u, lo, n) && 0 <= lo
    ensures InText(u, n)
  {
    if u != [] {
      AscendingInText(u[1..], if u[0].Typed? then lo else u[0].pos + 1, n);
      assert u == [u[0]] + u[1..];
    }
  }

  // Taking the characters from `x` to `x + k` first.
  lemma {:induction false} AscendingTaken(x: int, k: nat, rest: seq<Unit>, lo: int, n: int)
    ensures Ascending(TakenUnits(x, k) + rest, lo, n)
       <==> if k == 0 then Ascending(rest, lo, n) else lo <= x && x + k <= n && Ascending(rest, x + k, n)
    decreases k
  {
    var u := TakenUnits(x, k) + rest;
    if k == 0 {
      assert u == rest;
    } else {
      assert u[0] == Taken(x + 0);
      TakenTail(x, k, 1, rest);
      AscendingTaken(x + 1, k - 1, rest, x + 1, n);
    }
  }

  lemma {:induction false} AscendingTyped(s: string, rest: seq<Unit>, lo: int, n: int)
    ensures Ascending(TypedUnits(s) + rest, lo, n) <==> Ascending(rest, lo, n)
  {
    var u := TypedUnits(s) + rest;
    if s == "" {
      assert u == rest;
    } else {
      assert u[0] == Typed(s[0]) && u[1..] == TypedUnits(s[1..]) + rest;
      AscendingTyped(s[1..], rest, lo, n);
    }
  }

  lemma {:induction false} UnitsAscend(strips: seq<Strip>, oldLen: int, i: nat)
    requires StripsOk(strips, oldLen) && AllTake(strips) && i <= |strips|
    ensures Ascending(Units(strips, i), if i < |strips| then strips[i].start else oldLen, oldLen)
    decreases |strips| - i
  {
    hide StripsOk, AllTake;
    if i < |strips| {
      UnitsAscend(strips, oldLen, i + 1);
      StripAt(strips, oldLen, i);
      var s, rest := strips[i], Units(strips, i + 1);
      var end := s.start + s.taken;
      AscendingFrom(rest, if i + 1 < |strips| then strips[i + 1].start else oldLen, end, oldLen);
      AscendingTyped(s.text, rest, end, oldLen);
      Grouped(TakenUnits(s.start, s.taken), TypedUnits(s.text), rest);
      AscendingTaken(s.start, s.taken, TypedUnits(s.text) + rest, s.start, oldLen);
    }
  }

  lemma RepAscends(c: StripChangeset)
    requires IsRep(c)
    ensures Ascending(UnitsOf(c), 0, c.oldLen) && InText(UnitsOf(c), c.oldLen) && AllTake(c.strips)
        && StripsOk(c.strips, c.oldLen)
  {
    SomeStrip(c.strips, c.oldLen);
    StripAt(c.strips, c.oldLen, 0);
    UnitsAscend(c.strips, c.oldLen, 0);
    AscendingFrom(UnitsOf(c), c.strips[0].start, 0, c.oldLen);
    AscendingInText(UnitsOf(c), 0, c.oldLen);
  }

  // ---------- the slicer

  class Slicer {
    const c: StripChangeset
    var charIndex: nat
    var stripIndex: nat
    var charWithinStrip: nat

    ghost predicate Valid()
      reads this
    {
      && IsRep(c) && stripIndex <= |c.strips| && charIndex <= |UnitsOf(c)|
      && (if stripIndex == |c.strips| then Rest() == []
          else
            var s := c.strips[stripIndex];
            && 0 <= s.taken && charWithinStrip <= s.taken + |s.text|
            && (charWithinStrip == s.taken + |s.text| ==> charWithinStrip == 0)
            && Rest() == StripUnits(s)[charWithinStrip..] + Units(c.strips, stripIndex + 1))
    }

    // What is behind the index.
    ghost function Rest(): seq<Unit>
      reads this
      requires IsRep(c) && charIndex <= |UnitsOf(c)|
    {
      UnitsOf(c)[charIndex..]
    }

    constructor (cs: StripChangeset)
      requires IsRep(cs)
      ensures Valid() && c == cs && charIndex == 0
    {
      c := cs;
      charIndex, stripIndex, charWithinStrip := 0, 0, 0;
      new;
      hide StripsOk;
      SomeStrip(cs.strips, cs.oldLen);
      StripAt(cs.strips, cs.oldLen, 0);
      WholeFront(StripUnits(cs.strips[0]), UnitsOf(cs));
    }

    lemma RestIs()
      requires Valid()
      ensures IsRep(c) && charIndex <= |UnitsOf(c)| && Rest() == UnitsOf(c)[charIndex..]
    {}

    function CurStripWidth(): int
      reads this
      requires stripIndex < |c.strips|
    {
      c.strips[stripIndex].taken + |c.strips[stripIndex].text|
    }

    method NextStrip()
      requires IsRep(c) && stripIndex < |c.strips| && charWithinStrip == CurStripWidth() && charIndex <= |UnitsOf(c)|
      requires Rest() == Units(c.strips, stripIndex + 1)
      modifies this`stripIndex, this`charWithinStrip
      ensures Valid() && Rest() == old(Rest()) && stripIndex == old(stripIndex) + 1
    {
      hide StripsOk;
      charWithinStrip := 0;
      stripIndex := stripIndex + 1;
      if stripIndex < |c.strips| {
        StripAt(c.strips, c.oldLen, stripIndex);
        WholeFront(StripUnits(c.strips[stripIndex]), Rest());
      }
    }

    // Passes over part of the strip, or all the rest of it.
    method ForwardInStrip(k: nat)
      requires Valid() && stripIndex < |c.strips| && charWithinStrip + k <= CurStripWidth() && 0 < k
      modifies this
      ensures Valid() && k <= |old(Rest())| && Rest() == old(Rest())[k..] && charIndex == old(charIndex) + k
    {
      hide Units, StripsOk;
      ghost var s, rest := c.strips[stripIndex], Rest();
      WidthOf(s);
      Further(StripUnits(s), charWithinStrip, k, Units(c.strips, stripIndex + 1));
      charWithinStrip := charWithinStrip + k;
      charIndex := charIndex + k;
      assert Rest() == rest[k..];
      if charWithinStrip == CurStripWidth() {
        NothingBehind(StripUnits(s), Units(c.strips, stripIndex + 1));
        NextStrip();
      }
    }

    method SkipChars(n: nat)
      requires Valid() && n <= |Rest()|
      modifies this
      ensures Valid() && Rest() == old(Rest())[n..] && charIndex == old(charIndex) + n
    {
      hide Units, IsRep, StripUnits;
      var leftToSkip := n;
      ghost var rest := Rest();
      while leftToSkip > 0
        invariant Valid() && 0 <= leftToSkip <= n && Rest() == rest[n - leftToSkip..]
            && charIndex == old(charIndex) + n - leftToSkip
      {
        InStrip();
        var leftInStrip := CurStripWidth() - charWithinStrip;
        ghost var done := n - leftToSkip;
        if leftToSkip >= leftInStrip {
          FurtherOn(rest, done, leftInStrip);
          ForwardInStrip(leftInStrip);
          leftToSkip := leftToSkip - leftInStrip;
        } else {
          FurtherOn(rest, done, leftToSkip);
          ForwardInStrip(leftToSkip);
          leftToSkip := 0;
        }
      }
    }

    // Where something is left, the strip is not used up.
    lemma InStrip()
      requires Valid() && Rest() != []
      ensures stripIndex < |c.strips| && 0 <= c.strips[stripIndex].taken && charWithinStrip < CurStripWidth()
    {
      hide StripsOk;
      SomeStrip(c.strips, c.oldLen);
      if stripIndex < |c.strips| {
        StripAt(c.strips, c.oldLen, stripIndex);
        EmptyStrip(c.strips, c.oldLen, stripIndex);
      }
    }

    // Hands the next `n` characters to the builder.
    method TakeChars(n: nat, output: StripBuilder)
      requires Valid() && n <= |Rest()| && output.Valid() && Ascending(Rest(), output.End(), output.oldLen)
      modifies this, output
      ensures Valid() && Rest() == old(Rest())[n..] && charIndex == old(charIndex) + n
      ensures output.Valid() && output.Built() == old(output.Built()) + old(Rest())[..n]
      ensures Ascending(Rest(), output.End(), output.oldLen)
    {
      hide Units, StripsOk, AllTake, StripUnits, Ascending, StripBuilder.Valid, StripBuilder.Built;
      var leftToTake := n;
      ghost var rest, built := Rest(), output.Built();
      NothingYet(rest, built);
      while leftToTake > 0
        invariant Valid() && 0 <= leftToTake <= n && Rest() == rest[n - leftToTake..]
            && charIndex == old(charIndex) + n - leftToTake
        invariant output.Valid() && output.Built() == built + rest[..n - leftToTake]
            && Ascending(Rest(), output.End(), output.oldLen)
      {
        ghost var done := n - leftToTake;
        var k := TakeInStrip(leftToTake, output);
        FurtherOn(rest, done, k);
        Grouped(built, rest[..done], rest[done..][..k]);
        leftToTake := leftToTake - k;
      }
    }

    method TakeInStrip(leftToTake: nat, output: StripBuilder) returns (toTake: nat)
      requires Valid() && 0 < leftToTake <= |Rest()| && output.Valid() && Ascending(Rest(), output.End(), output.oldLen)
      modifies this, output
      ensures Valid() && 0 < toTake <= leftToTake && Rest() == old(Rest())[toTake..]
          && charIndex == old(charIndex) + toTake
      ensures output.Valid() && output.Built() == old(output.Built()) + old(Rest())[..toTake]
      ensures Ascending(Rest(), output.End(), output.oldLen)
    {
      hide Units, StripsOk, AllTake, StripUnits, Ascending, StripBuilder.Valid, StripBuilder.Built;
      InStrip();
      if charWithinStrip < c.strips[stripIndex].taken {
        toTake := TakeOld(leftToTake, output);
      } else {
        toTake := TakeNew(leftToTake, output);
      }
    }

    method TakeOld(leftToTake: nat, output: StripBuilder) returns (toTake: nat)
      requires Valid() && 0 < leftToTake <= |Rest()| && output.Valid() && Ascending(Rest(), output.End(), output.oldLen)
      requires stripIndex < |c.strips| && charWithinStrip < c.strips[stripIndex].taken
      modifies this, output
      ensures Valid() && 0 < toTake <= leftToTake && Rest() == old(Rest())[toTake..]
          && charIndex == old(charIndex) + toTake
      ensures output.Valid() && output.Built() == old(output.Built()) + old(Rest())[..toTake]
      ensures Ascending(Rest(), output.End(), output.oldLen)
    {
      hide Units, StripsOk, AllTake, Ascending, StripBuilder.Valid, StripBuilder.Built;
      var s := c.strips[stripIndex];
      var leftInTaken := s.taken - charWithinStrip;
      toTake := Smaller(leftInTaken, leftToTake);
      ghost var rest := Rest();
      OldInStrip(s, charWithinStrip, toTake, Units(c.strips, stripIndex + 1));
      AscendingTaken(s.start + charWithinStrip, toTake, rest[toTake..], output.End(), output.oldLen);
      output.AppendOldText(s.start + charWithinStrip, toTake);
      ForwardInStrip(toTake);
    }

    method TakeNew(leftToTake: nat, output: StripBuilder) returns (toTake: nat)
      requires Valid() && 0 < leftToTake <= |Rest()| && output.Valid() && Ascending(Rest(), output.End(), output.oldLen)
      requires stripIndex < |c.strips| && c.strips[stripIndex].taken <= charWithinStrip < CurStripWidth()
      modifies this, output
      ensures Valid() && 0 < toTake <= leftToTake && Rest() == old(Rest())[toTake..]
          && charIndex == old(charIndex) + toTake
      ensures output.Valid() && output.Built() == old(output.Built()) + old(Rest())[..toTake]
      ensures Ascending(Rest(), output.End(), output.oldLen)
    {
      hide Units, StripsOk, AllTake, Ascending, StripBuilder.Valid, StripBuilder.Built;
      var s := c.strips[stripIndex];
      var leftInNewText := CurStripWidth() - charWithinStrip;
      toTake := Smaller(leftInNewText, leftToTake);
      ghost var rest := Rest();
      var from := charWithinStrip - s.taken;
      var newText := s.text[from..from + toTake];
      NewInStrip(s, charWithinStrip, toTake, Units(c.strips, stripIndex + 1));
      AscendingTyped(newText, rest[toTake..], output.End(), output.oldLen);
      output.AppendNewText(newText);
      ForwardInStrip(toTake);
    }
  }

  lemma WholeFront<T>(x: seq<T>, u: seq<T>)
    ensures x[0..] == x && u[0..] == u
  {}

  lemma WidthOf(s: Strip)
    requires 0 <= s.taken
    ensures |StripUnits(s)| == s.taken + |s.text|
  {}

  lemma Further<T>(x: seq<T>, i: nat, k: nat, y: seq<T>)
    requires i + k <= |x|
    ensures (x[i..] + y)[k..] == x[i + k..] + y
  {}

  lemma FurtherOn<T>(s: seq<T>, n: nat, k: nat)
    requires n <= |s|
    ensures k <= |s| - n ==> s[n..][k..] == s[n + k..] && s[..n] + s[n..][..k] == s[..n + k]
  {}

  lemma NothingBehind<T>(x: seq<T>, y: seq<T>)
    ensures x[|x|..] + y == y
  {}

  lemma NothingYet<T>(x: seq<T>, y: seq<T>)
    ensures x[0..] == x && y + x[..0] == y
  {}

  lemma EmptyStrip(strips: seq<Strip>, oldLen: int, i: nat)
    requires StripsOk(strips, oldLen) && AllTake(strips) && i < |strips|
    ensures strips[i].taken == 0 && strips[i].text == ""
        ==> Units(strips, i) == [] && Units(strips, i + 1) == [] && StripUnits(strips[i]) == []
  {
    assert StripOk(strips, oldLen, i);
  }

  lemma OldInStrip(s: Strip, i: nat, k: nat, rest: seq<Unit>)
    requires 0 <= s.taken && i + k <= s.taken
    ensures |StripUnits(s)| == s.taken + |s.text|
    ensures var u := StripUnits(s)[i..] + rest;
            && u[..k] == TakenUnits(s.start + i, k)
            && u == TakenUnits(s.start + i, k) + u[k..]
  {}

  lemma NewInStrip(s: Strip, i: nat, k: nat, rest: seq<Unit>)
    requires 0 <= s.taken <= i && i + k <= s.taken + |s.text|
    ensures |StripUnits(s)| == s.taken + |s.text|
    ensures var u := StripUnits(s)[i..] + rest;
            var x := TypedUnits(s.text[i - s.taken..i - s.taken + k]);
            u[..k] == x && u == x + u[k..]
  {}

  // ---------- compose

  // The units of a strip of the later changeset, looked up in those of the earlier one.
  lemma StripComposes(a: seq<Unit>, s: Strip, rest: seq<Unit>)
    requires 0 <= s.taken && 0 <= s.start && s.start + s.taken <= |a| && InText(StripUnits(s) + rest, |a|)
    ensures InText(rest, |a|)
    ensures ComposeUnits(a, StripUnits(s) + rest) == a[s.start..s.start + s.taken] + TypedUnits(s.text)
        + ComposeUnits(a, rest)
  {
    InTextParts(StripUnits(s), rest, |a|);
  }

  // Composed up to the character `from` of the earlier changeset, with `rest` of the later to do.
  ghost predicate Composing(
    builder: StripBuilder, slicer: Slicer, a: seq<Unit>, from: int, rest: seq<Unit>, all: seq<Unit>)
    reads builder, slicer
  {
    && builder.Valid() && slicer.Valid() && builder.oldLen == slicer.c.oldLen && UnitsOf(slicer.c) == a
    && slicer.charIndex <= from && Ascending(slicer.Rest(), builder.End(), builder.oldLen)
    && InText(rest, |a|) && all == builder.Built() + ComposeUnits(a, rest)
  }

  lemma ComposingFrom(
    builder: StripBuilder, slicer: Slicer, a: seq<Unit>, from: int, from': int, rest: seq<Unit>, all: seq<Unit>)
    requires Composing(builder, slicer, a, from, rest, all) && from <= from'
    ensures Composing(builder, slicer, a, from', rest, all)
  {
    hide StripBuilder.Valid, Slicer.Valid, Ascending, InText, ComposeUnits, IsRep;
  }

  lemma StartComposing(builder: StripBuilder, slicer: Slicer, rest: seq<Unit>)
    requires builder.Valid() && slicer.Valid() && builder.oldLen == slicer.c.oldLen
    requires slicer.charIndex == 0 && builder.Built() == [] && builder.End() == 0 && InText(rest, |UnitsOf(slicer.c)|)
    ensures Composing(builder, slicer, UnitsOf(slicer.c), 0, rest, ComposeUnits(UnitsOf(slicer.c), rest))
  {
    hide Units, StripsOk, AllTake, InText, ComposeUnits, Ascending;
    RepAscends(slicer.c);
    NothingYet(UnitsOf(slicer.c), ComposeUnits(UnitsOf(slicer.c), rest));
    NothingInFront(ComposeUnits(UnitsOf(slicer.c), rest));
  }

  lemma NothingInFront<T>(x: seq<T>)
    ensures [] + x == x
  {}

  lemma EndComposing(
    builder: StripBuilder, slicer: Slicer, a: seq<Unit>, from: int, strips: seq<Strip>, all: seq<Unit>)
    requires AllTake(strips) && Composing(builder, slicer, a, from, Units(strips, |strips|), all)
    ensures builder.Valid() && builder.Built() == all && builder.oldLen == slicer.c.oldLen
  {
    hide StripBuilder.Valid, Slicer.Valid, Ascending, IsRep;
  }

  method Compose(this_: StripChangeset, next: StripChangeset) returns (r: Result<StripChangeset>)
    requires IsRep(this_) && IsRep(next)
    ensures next.oldLen == this_.newLen ==> InText(UnitsOf(next), |UnitsOf(this_)|)
    ensures if next.oldLen != this_.newLen then r == Failure("mismatched composition")
            else r.Success? && IsComposition(r.value, this_, next)
  {
    hide StripsOk, AllTake, Units, StripUnits, InText, ComposeUnits, Composing, StripBuilder.Valid, StripBuilder.Built,
         Slicer.Valid;
    if next.oldLen != this_.newLen { return Failure("mismatched composition"); }
    RepAscends(next);
    SomeStrip(next.strips, next.oldLen);
    StripAt(next.strips, next.oldLen, 0);
    var builder := new StripBuilder(this_.oldLen);
    var slicer := new Slicer(this_);
    ghost var a := UnitsOf(this_);
    ghost var all := ComposeUnits(a, UnitsOf(next));
    StartComposing(builder, slicer, UnitsOf(next));
    ghost var from := next.strips[0].start;
    ComposingFrom(builder, slicer, a, 0, from, UnitsOf(next), all);
    for i := 0 to |next.strips|
      invariant fresh(builder) && fresh(slicer) && slicer.c == this_ && builder.oldLen == this_.oldLen
      invariant i < |next.strips| ==> from == next.strips[i].start
      invariant Composing(builder, slicer, a, from, Units(next.strips, i), all)
    {
      StripAt(next.strips, next.oldLen, i);
      var strip := next.strips[i];
      ghost var rest := Units(next.strips, i + 1);
      ComposeStrip(builder, slicer, strip, a, rest, all);
      from := if i + 1 < |next.strips| then next.strips[i + 1].start else strip.start + strip.taken;
      ComposingFrom(builder, slicer, a, strip.start + strip.taken, from, rest, all);
    }
    EndComposing(builder, slicer, a, from, next.strips, all);
    var c := builder.ToChangeset();
    r := Success(c);
  }

  // One strip: up to its start, what it takes, and what it types.
  method ComposeStrip(
    builder: StripBuilder, slicer: Slicer, strip: Strip, ghost a: seq<Unit>, ghost rest: seq<Unit>,
        ghost all: seq<Unit>)
    requires 0 <= strip.taken && 0 <= strip.start && strip.start + strip.taken <= |a|
    requires Composing(builder, slicer, a, strip.start, StripUnits(strip) + rest, all)
    modifies builder, slicer
    ensures Composing(builder, slicer, a, strip.start + strip.taken, rest, all)
  {
    hide StripsOk, AllTake, Units, StripUnits, InText, ComposeUnits, Ascending, StripBuilder.Valid, StripBuilder.Built;
    hide Slicer.Valid, IsRep;
    ghost var built := builder.Built();
    StripComposes(a, strip, rest);
    SkipTo(slicer, strip.start, a, builder.End(), builder.oldLen);
    TakeStrip(builder, slicer, strip, a);
    ThreeRegrouped(built, a[strip.start..strip.start + strip.taken], TypedUnits(strip.text), ComposeUnits(a, rest));
  }

  method SkipTo(slicer: Slicer, start: nat, ghost a: seq<Unit>, ghost lo: int, ghost n: int)
    requires slicer.Valid() && slicer.charIndex <= start <= |a| && UnitsOf(slicer.c) == a
        && Ascending(slicer.Rest(), lo, n)
    modifies slicer
    ensures slicer.Valid() && slicer.charIndex == start && slicer.Rest() == a[start..] && Ascending(a[start..], lo, n)
  {
    hide Units, Ascending, Slicer.Valid, IsRep;
    slicer.RestIs();
    AscendingTail(slicer.Rest(), lo, n, start - slicer.charIndex);
    FurtherOn(a, slicer.charIndex, start - slicer.charIndex);
    slicer.SkipChars(start - slicer.charIndex);
    slicer.RestIs();
  }

  method TakeStrip(builder: StripBuilder, slicer: Slicer, strip: Strip, ghost a: seq<Unit>)
    requires builder.Valid() && slicer.Valid() && UnitsOf(slicer.c) == a && slicer.charIndex == strip.start
    requires 0 <= strip.taken && 0 <= strip.start && strip.start + strip.taken <= |a|
        && slicer.Rest() == a[strip.start..]
    requires Ascending(slicer.Rest(), builder.End(), builder.oldLen)
    modifies builder, slicer
    ensures builder.Valid() && slicer.Valid() && slicer.charIndex == strip.start + strip.taken
    ensures Ascending(slicer.Rest(), builder.End(), builder.oldLen)
    ensures builder.Built() == old(builder.Built()) + a[strip.start..strip.start + strip.taken] + TypedUnits(strip.text)
  {
    hide Units, Ascending, Slicer.Valid, IsRep, StripBuilder.Valid, StripBuilder.Built;
    Inside(a, strip.start, strip.taken);
    slicer.TakeChars(strip.taken, builder);
    slicer.RestIs();
    builder.AppendNewText(strip.text);
  }

  lemma Inside<T>(s: seq<T>, i: nat, k: nat)
    requires i + k <= |s|
    ensures s[i..][..k] == s[i..i + k] && s[i..][k..] == s[i + k..]
  {}

  // ---------- what is promised

  // `c` does `a`, and then `b`.
  ghost predicate IsComposition(c: StripChangeset, a: StripChangeset, b: StripChangeset)
    requires IsRep(a) && IsRep(b) && InText(UnitsOf(b), |UnitsOf(a)|)
  {
    IsRep(c) && c.oldLen == a.oldLen && UnitsOf(c) == ComposeUnits(UnitsOf(a), UnitsOf(b))
  }

  // `c` is what `b` becomes after `a`.
  ghost predicate IsFollow(c: StripChangeset, b: StripChangeset, a: StripChangeset, reverse: bool)
    requires IsRep(a) && IsRep(b)
  {
    IsRep(c) && c.oldLen == a.newLen && UnitsOf(c) == FollowUnits(UnitsOf(a), UnitsOf(b), 0, reverse)
  }

  // Composing is applying the one changeset after the other.
  lemma ComposeAppliesBoth(c: StripChangeset, a: StripChangeset, b: StripChangeset, text: string)
    requires IsRep(a) && IsRep(b) && b.oldLen == a.newLen && InText(UnitsOf(b), |UnitsOf(a)|) && IsComposition(c, a, b)
        && |text| == a.oldLen
    ensures InText(UnitsOf(a), |text|) && InText(UnitsOf(c), |text|)
    ensures ApplyUnits(UnitsOf(c), text) == ApplyUnits(UnitsOf(b), ApplyUnits(UnitsOf(a), text))
  {
    hide StripsOk, AllTake, Units;
    RepAscends(a);
    ComposedApply(UnitsOf(a), UnitsOf(b), text);
  }

  // Merged either way round, two changesets for one text give the same changeset, which holds
  // the text of both.
  lemma MergesAreTheSame(a: StripChangeset, b: StripChangeset, ba: StripChangeset, ab: StripChangeset,
      x: StripChangeset, y: StripChangeset)
    requires IsRep(a) && IsRep(b) && a.oldLen == b.oldLen
    requires IsFollow(ba, b, a, false) && IsFollow(ab, a, b, true)
    ensures InText(UnitsOf(ba), |UnitsOf(a)|) && InText(UnitsOf(ab), |UnitsOf(b)|)
    ensures IsComposition(x, a, ba) && IsComposition(y, b, ab)
        ==> x == y && UnitsOf(x) == Merge(UnitsOf(a), UnitsOf(b), false)
  {
    hide StripsOk, AllTake, Units, FollowUnits, Merge;
    var u, v := UnitsOf(a), UnitsOf(b);
    assert u == u[0..] && v == v[0..];
    FollowMergesUnits(u, u, v, 0, false);
    FollowMergesUnits(v, v, u, 0, true);
    MergeIsSymmetric(u, v, false);
    if IsComposition(x, a, ba) && IsComposition(y, b, ab) {
      RepIsUnique(x, y);
    }
  }

  // So every text becomes the same.
  lemma MergesConverge(a: StripChangeset, b: StripChangeset, ba: StripChangeset, ab: StripChangeset, text: string)
    requires IsRep(a) && IsRep(b) && |text| == a.oldLen == b.oldLen
    requires IsFollow(ba, b, a, false) && IsFollow(ab, a, b, true)
    ensures InText(UnitsOf(a), |text|) && InText(UnitsOf(ba), |UnitsOf(a)|) && InText(UnitsOf(b), |text|)
        && InText(UnitsOf(ab), |UnitsOf(b)|)
    ensures ApplyUnits(UnitsOf(ba), ApplyUnits(UnitsOf(a), text))
        == ApplyUnits(UnitsOf(ab), ApplyUnits(UnitsOf(b), text))
  {
    hide StripsOk, AllTake, Units, FollowUnits, Merge;
    var u, v := UnitsOf(a), UnitsOf(b);
    RepAscends(a);
    RepAscends(b);
    assert u == u[0..] && v == v[0..];
    FollowMergesUnits(u, u, v, 0, false);
    FollowMergesUnits(v, v, u, 0, true);
    MergeIsSymmetric(u, v, false);
    ComposedApply(u, UnitsOf(ba), text);
    ComposedApply(v, UnitsOf(ab), text);
  }

  // Nothing either of them typed is lost, and an old character stays exactly if both take it.
  lemma {:induction false} MergeHas(a: seq<Unit>, b: seq<Unit>, reverse: bool, p: int, n: int)
    requires Ascending(a, 0, n) && Ascending(b, 0, n)
    ensures Taken(p) in Merge(a, b, reverse) <==> Taken(p) in a && Taken(p) in b
  {
    MergeTakes(a, b, reverse, p, 0, 0, n);
  }

  lemma {:induction false} MergeTakes(a: seq<Unit>, b: seq<Unit>, reverse: bool, p: int, lo: int, lo': int, n: int)
    requires Ascending(a, lo, n) && Ascending(b, lo', n)
    ensures Taken(p) in Merge(a, b, reverse) <==> Taken(p) in a && Taken(p) in b
    decreases |a| + |b|
  {
    if a != [] {
      assert a == [a[0]] + a[1..];
      var la := if a[0].Typed? then lo else a[0].pos + 1;
      NotBefore(a[1..], la, n, p);
      MergeTakes(a[1..], b, reverse, p, la, lo', n);
    }
    if b != [] {
      assert b == [b[0]] + b[1..];
      var lb := if b[0].Typed? then lo' else b[0].pos + 1;
      NotBefore(b[1..], lb, n, p);
      MergeTakes(a, b[1..], reverse, p, lo, lb, n);
    }
    if a != [] && b != [] {
      MergeTakes(a[1..], b[1..], reverse, p, if a[0].Typed? then lo else a[0].pos + 1, if b[0].Typed? then lo'
          else b[0].pos + 1, n);
    }
  }

  lemma {:induction false} NotBefore(u: seq<Unit>, lo: int, n: int, p: int)
    requires Ascending(u, lo, n)
    ensures p < lo ==> Taken(p) !in u
  {
    if u != [] {
      assert u == [u[0]] + u[1..];
      NotBefore(u[1..], if u[0].Typed? then lo else u[0].pos + 1, n, p);
    }
  }

  // The new text.
  ghost function TypedBy(u: seq<Unit>): string {
    if u == [] then "" else (if u[0].Typed? then [u[0].ch] else "") + TypedBy(u[1..])
  }

  lemma TypedByFront(u: Unit, rest: seq<Unit>)
    ensures u.Typed? ==> TypedBy([u] + rest) == [u.ch] + TypedBy(rest)
    ensures u.Taken? ==> TypedBy([u] + rest) == TypedBy(rest)
  {
    assert ([u] + rest)[1..] == rest;
    assert "" + TypedBy(rest) == TypedBy(rest);
  }

  // One more in front of either side is one more in front of what is made of both.
  lemma TypedFirst(u: Unit, a: seq<Unit>, b: seq<Unit>, m: seq<Unit>)
    requires Interleaved(TypedBy(m), TypedBy(a), TypedBy(b))
    ensures var m' := if u.Typed? then [u] + m else m; Interleaved(TypedBy(m'), TypedBy([u] + a), TypedBy(b))
  {
    hide TypedBy, Interleaved;
    TypedByFront(u, m);
    TypedByFront(u, a);
    if u.Typed? { InterleavedFirst(u.ch, TypedBy(m), TypedBy(a), TypedBy(b)); }
  }

  // Whether the next to go is one of `a` alone, or one of `b` alone.
  ghost predicate FirstIn(a: seq<Unit>, b: seq<Unit>, reverse: bool) {
    a != [] && if FrontTyped(a) then !reverse || !FrontTyped(b)
               else !FrontTyped(b) && (b == [] || a[0].pos < b[0].pos)
  }

  ghost predicate SecondIn(a: seq<Unit>, b: seq<Unit>, reverse: bool) {
    b != [] && !FirstIn(a, b, reverse) && (FrontTyped(b) || a == [] || b[0].pos < a[0].pos)
  }

  lemma MergeStep(a: seq<Unit>, b: seq<Unit>, reverse: bool)
    ensures Merge(a, b, reverse) ==
            if a == [] && b == [] then []
            else if FirstIn(a, b, reverse) then
              var m := Merge(a[1..], b, reverse);
              if a[0].Typed? then [a[0]] + m else m
            else if SecondIn(a, b, reverse) then
              var m := Merge(a, b[1..], reverse);
              if b[0].Typed? then [b[0]] + m else m
            else [a[0]] + Merge(a[1..], b[1..], reverse)
    ensures a == [] || b == [] || FirstIn(a, b, reverse) || SecondIn(a, b, reverse) || (a[0].Taken? && b[0].Taken?)
    ensures FirstIn(a, b, reverse) || SecondIn(a, b, reverse) || (a == [] && b == []) || (a != [] && b != [])
  {}

  lemma WithFirst<T>(x: seq<T>)
    requires x != []
    ensures x == [x[0]] + x[1..]
  {}

  // All the new text of both is in the merge, the text of each in its order.
  lemma {:induction false} MergeTypesBoth(a: seq<Unit>, b: seq<Unit>, reverse: bool)
    ensures Interleaved(TypedBy(Merge(a, b, reverse)), TypedBy(a), TypedBy(b))
    decreases |a| + |b|
  {
    hide TypedBy, Merge, Interleaved;
    MergeStep(a, b, reverse);
    if a == [] && b == [] {
      NothingTyped();
    } else if FirstIn(a, b, reverse) {
      MergeTypesBoth(a[1..], b, reverse);
      WithFirst(a);
      TypedFirst(a[0], a[1..], b, Merge(a[1..], b, reverse));
    } else if SecondIn(a, b, reverse) {
      MergeTypesBoth(a, b[1..], reverse);
      WithFirst(b);
      var m := Merge(a, b[1..], reverse);
      InterleavedSwaps(TypedBy(m), TypedBy(a), TypedBy(b[1..]));
      TypedFirst(b[0], b[1..], a, m);
      InterleavedSwaps(TypedBy(Merge(a, b, reverse)), TypedBy(b), TypedBy(a));
    } else {
      MergeTypesBoth(a[1..], b[1..], reverse);
      WithFirst(a);
      WithFirst(b);
      TypedByFront(a[0], a[1..]);
      TypedByFront(b[0], b[1..]);
      TypedByFront(a[0], Merge(a[1..], b[1..], reverse));
    }
  }

  lemma NothingTyped()
    ensures TypedBy([]) == "" && Interleaved<char>("", "", "")
  {}

  // ---------- who stands first

  ghost predicate OldOnly(u: seq<Unit>) { forall i :: 0 <= i < |u| ==> u[i].Taken? }

  ghost predicate NewOnly(u: seq<Unit>) { forall i :: 0 <= i < |u| ==> u[i].Typed? }

  lemma OldStep(u: Unit, a: seq<Unit>, b: seq<Unit>)
    requires u.Taken?
    ensures Merge([u] + a, [u] + b, false) == [u] + Merge(a, b, false)
  {
    assert ([u] + a)[1..] == a && ([u] + b)[1..] == b;
  }

  lemma NewStep(u: Unit, a: seq<Unit>, b: seq<Unit>)
    requires u.Typed?
    ensures Merge([u] + a, b, false) == [u] + Merge(a, b, false)
    ensures OldOnly(a) ==> Merge(a, [u] + b, false) == [u] + Merge(a, b, false)
  {
    assert ([u] + a)[1..] == a && ([u] + b)[1..] == b;
  }

  lemma {:induction false} OldTogether(p: seq<Unit>, a: seq<Unit>, b: seq<Unit>)
    requires OldOnly(p)
    ensures Merge(p + a, p + b, false) == p + Merge(a, b, false)
  {
    hide Merge;
    if p == [] {
      assert p + a == a && p + b == b;
    } else {
      OldTogether(p[1..], a, b);
      OldStep(p[0], p[1..] + a, p[1..] + b);
      assert p + a == [p[0]] + (p[1..] + a) && p + b == [p[0]] + (p[1..] + b);
    }
  }

  lemma {:induction false} NewOfFirst(x: seq<Unit>, a: seq<Unit>, b: seq<Unit>)
    requires NewOnly(x)
    ensures Merge(x + a, b, false) == x + Merge(a, b, false)
  {
    hide Merge;
    if x == [] {
      assert x + a == a;
    } else {
      NewOfFirst(x[1..], a, b);
      NewStep(x[0], x[1..] + a, b);
      assert x + a == [x[0]] + (x[1..] + a);
    }
  }

  lemma {:induction false} NewOfSecond(a: seq<Unit>, y: seq<Unit>, b: seq<Unit>)
    requires NewOnly(y) && OldOnly(a)
    ensures Merge(a, y + b, false) == y + Merge(a, b, false)
    decreases |y|
  {
    hide Merge;
    if y == [] {
      assert y + b == b;
    } else {
      NewOfSecond(a, y[1..], b);
      NewStep(y[0], a, y[1..] + b);
      assert y + b == [y[0]] + (y[1..] + b);
    }
  }

  // Where both type at one place, the text of the first stands first, and with the flag that of
  // the second.
  lemma WhoStandsFirst(p: seq<Unit>, x: seq<Unit>, y: seq<Unit>, r: seq<Unit>, reverse: bool)
    requires OldOnly(p) && NewOnly(x) && NewOnly(y) && OldOnly(r)
    ensures Merge(p + x + r, p + y + r, reverse) == p + (if reverse then y + x else x + y) + r
  {
    hide Merge, OldOnly, NewOnly;
    if reverse {
      MergeIsSymmetric(p + x + r, p + y + r, true);
      FirstStandsFirst(p, y, x, r);
    } else {
      FirstStandsFirst(p, x, y, r);
    }
  }

  lemma FirstStandsFirst(p: seq<Unit>, x: seq<Unit>, y: seq<Unit>, r: seq<Unit>)
    requires OldOnly(p) && NewOnly(x) && NewOnly(y) && OldOnly(r)
    ensures Merge(p + x + r, p + y + r, false) == p + (x + y) + r
  {
    hide Merge, OldOnly, NewOnly;
    OldTogether(p, x + r, y + r);
    NewOfFirst(x, r, y + r);
    NewOfSecond(r, y, r);
    OldTogether(r, [], []);
    NothingMerged();
    assert r + [] == r;
    assert p + (x + r) == p + x + r && p + (y + r) == p + y + r;
    assert p + (x + (y + r)) == p + (x + y) + r;
  }

  lemma NothingMerged()
    ensures Merge([], [], false) == []
  {}
}
