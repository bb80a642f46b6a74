/** `splitTextLines` and `mutateTextLines`: a text held as its lines. */
module TextLines {
  import opened Attributes
  import opened Changesets
  import opened Composition
  import opened Views
  import opened Algebra
  import opened Laws
  import opened Iterators
  import opened Zipping
  import opened Engine
  import opened Applying
  import opened InversionSteps
  import opened DocLines
  import opened LineMutation

  // ---------- lines

  ghost predicate LinesOk(v: seq<string>) {
    forall i :: 0 <= i < |v| ==> LineOk(v[i])
  }

  // A newline is there, at the end and nowhere else.
  predicate EndsOnce(s: string) {
    s != "" && s[|s| - 1] == '\n' && forall i :: 0 <= i < |s| - 1 ==> s[i] != '\n'
  }

  lemma LineOkIff(s: string)
    ensures LineOk(s) <==> EndsOnce(s)
  {
    if s != "" {
      NewlinesSplit(s, |s| - 1);
      var head, last := s[..|s| - 1], s[|s| - 1..];
      assert last == [s[|s| - 1]] && last[1..] == "";
      assert Newlines(last) == UnitLines(s[|s| - 1]);
      if Newlines(head) > 0 { HasNewline(head); }
      forall i | 0 <= i < |s| - 1 ensures s[i] == '\n' ==> Newlines(head) > 0 { NoNewline(head, i); }
    }
  }

  lemma PlainIff(s: string)
    ensures Newlines(s) == 0 <==> forall i :: 0 <= i < |s| ==> s[i] != '\n'
  {
    if Newlines(s) > 0 { HasNewline(s); }
    forall i | 0 <= i < |s| ensures s[i] == '\n' ==> Newlines(s) > 0 { NoNewline(s, i); }
  }

  lemma {:induction false} FlatConcat<T>(a: seq<seq<T>>, b: seq<seq<T>>)
    ensures Flat(a + b) == Flat(a) + Flat(b)
  {
    if a == [] {
      NothingBefore(b);
      NothingBefore(Flat(b));
    } else {
      FlatConcat(a[1..], b);
      ConcatTail(a, b);
      Regroup(a[0], Flat(a[1..]), Flat(b));
    }
  }

  lemma NothingBefore<T>(s: seq<T>)
    ensures [] + s == s
  {}

  lemma ConcatTail<T>(a: seq<T>, b: seq<T>)
    requires a != []
    ensures (a + b)[0] == a[0] && (a + b)[1..] == a[1..] + b
  {}

  lemma FlatOne<T>(line: seq<T>)
    ensures Flat([line]) == line
  {
    assert [line][1..] == [] && Flat([line]) == line + Flat([line][1..]);
  }

  // Characters up to a newline, or up to the end of the text.
  predicate Piece(s: string) {
    s != "" && forall j :: 0 <= j < |s| - 1 ==> s[j] != '\n'
  }

  // What `splitTextLines` makes of a text: pieces that each end at a newline, but for the
  // last one, which may have none.
  ghost predicate IsSplit(lines: seq<string>, text: string) {
    && Flat(lines) == text
    && (forall i :: 0 <= i < |lines| ==> Piece(lines[i]))
    && (forall i :: 0 <= i < |lines| - 1 ==> EndsOnce(lines[i]))
  }

  // There is only one way to split a text.
  lemma {:induction false} SplitIsUnique(a: seq<string>, b: seq<string>, text: string)
    requires IsSplit(a, text) && IsSplit(b, text)
    ensures a == b
    decreases |a|
  {
    SomePieces(a, text);
    SomePieces(b, text);
    if a != [] {
      FirstPiece(a, text);
      FirstPiece(b, text);
      IsSplitTail(a, text);
      IsSplitTail(b, text);
      SplitIsUnique(a[1..], b[1..], text[|a[0]|..]);
      assert a == [a[0]] + a[1..] && b == [b[0]] + b[1..];
    }
  }

  lemma SomePieces(a: seq<string>, text: string)
    requires IsSplit(a, text)
    ensures a == [] <==> text == ""
  {
    if a != [] { assert |Flat(a)| >= |a[0]|; }
  }

  // The first piece ends at the first newline.
  lemma FirstPiece(a: seq<string>, text: string)
    requires IsSplit(a, text) && a != []
    ensures 0 < |a[0]| <= |text| && a[0] == text[..|a[0]|]
    ensures forall j :: 0 <= j < |a[0]| - 1 ==> text[j] != '\n'
    ensures |a[0]| < |text| ==> text[|a[0]| - 1] == '\n'
  {
    assert text == a[0] + Flat(a[1..]);
    if |a| == 1 { assert a[1..] == []; }
  }

  lemma IsSplitTail(a: seq<string>, text: string)
    requires IsSplit(a, text) && a != []
    ensures |a[0]| <= |text| && IsSplit(a[1..], text[|a[0]|..])
  {
    var t := a[1..];
    assert text == a[0] + Flat(t);
    if t != [] { assert t[|t| - 1] == a[|a| - 1]; }
  }

  method SplitTextLines(text: string) returns (lines: seq<string>)
    ensures IsSplit(lines, text)
  {
    lines := [];
    var pos := 0;
    while pos < |text|
      invariant 0 <= pos <= |text| && Flat(lines) == text[..pos]
      invariant forall i :: 0 <= i < |lines| ==> Piece(lines[i])
      invariant forall i :: 0 <= i < |lines| - 1 ==> EndsOnce(lines[i])
      invariant lines != [] && pos < |text| ==> EndsOnce(lines[|lines| - 1])
    {
      var end := pos;
      while end < |text| && text[end] != '\n'
        invariant pos <= end <= |text| && forall i :: pos <= i < end ==> text[i] != '\n'
      {
        end := end + 1;
      }
      if end < |text| {
        end := end + 1;
      }
      FlatConcat(lines, [text[pos..end]]);
      FlatOne(text[pos..end]);
      assert text[..pos] + text[pos..end] == text[..end];
      lines := lines + [text[pos..end]];
      pos := end;
    }
    assert text[..|text|] == text;
  }

  // The pieces of a text that ends with a newline are lines.
  lemma {:induction false} SplitGivesLines(lines: seq<string>, text: string)
    requires IsSplit(lines, text) && (text == "" || text[|text| - 1] == '\n')
    ensures LinesOk(lines)
    decreases |lines|
  {
    hide LineOk;
    if lines != [] {
      IsSplitTail(lines, text);
      if |lines| == 1 {
        FlatOne(lines[0]);
        assert lines == [lines[0]];
      } else {
        var rest := text[|lines[0]|..];
        assert Flat(lines[1..]) == rest && lines[1..][0] == lines[1];
        assert rest != "" && rest[|rest| - 1] == text[|text| - 1];
      }
      SplitGivesLines(lines[1..], text[|lines[0]|..]);
      LineOkIff(lines[0]);
      assert lines == [lines[0]] + lines[1..];
    }
  }

  // Splitting joined lines gives the lines back.
  lemma {:induction false} LinesAreSplit(lines: seq<string>)
    requires LinesOk(lines)
    ensures IsSplit(lines, Flat(lines))
  {
    hide LineOk;
    forall i | 0 <= i < |lines| ensures EndsOnce(lines[i]) { LineOkIff(lines[i]); }
  }

  // ---------- positions

  ghost predicate Before<T>(v: seq<seq<T>>, l: nat, c: nat) {
    l <= |v| && (if l < |v| then c < |v[l]| else c == 0)
  }

  ghost function TextBehind(v: seq<string>, l: nat, c: nat): string
    requires InRange(v, l, c)
  {
    Flat(v[..l]) + if l < |v| then v[l][..c] else ""
  }

  ghost function TextAhead(v: seq<string>, l: nat, c: nat): string
    requires InRange(v, l, c)
  {
    if l < |v| then v[l][c..] + Flat(v[l + 1..]) else ""
  }

  lemma BehindAndAhead(v: seq<string>, l: nat, c: nat)
    requires InRange(v, l, c)
    ensures TextBehind(v, l, c) + TextAhead(v, l, c) == Flat(v)
  {
    hide Flat;
    FlatAt(v, l);
    if l < |v| {
      Cut(Flat(v[..l]), v[l], Flat(v[l + 1..]), c);
    }
  }

  lemma FlatAt<T>(v: seq<seq<T>>, l: nat)
    requires l <= |v|
    ensures Flat(v) == if l < |v| then Flat(v[..l]) + (v[l] + Flat(v[l + 1..])) else Flat(v[..l]) + []
  {
    hide Flat;
    if l < |v| {
      Around(v, l);
      FlatConcat(v[..l], [v[l]] + v[l + 1..]);
      FlatCons(v[l], v[l + 1..]);
    } else {
      assert v[..l] == v;
    }
  }

  lemma Around<T>(v: seq<T>, i: nat)
    requires i < |v|
    ensures v == v[..i] + ([v[i]] + v[i + 1..])
  {}

  lemma Cut<T>(x: seq<T>, y: seq<T>, z: seq<T>, c: nat)
    requires c <= |y|
    ensures x + y[..c] + (y[c..] + z) == x + (y + z)
  {}

  lemma AheadOfLine(v: seq<string>, l: nat)
    requires l <= |v|
    ensures TextAhead(v, l, 0) == Flat(v[l..]) && TextBehind(v, l, 0) == Flat(v[..l])
  {
    if l < |v| {
      assert v[l..] == [v[l]] + v[l + 1..];
      FlatCons(v[l], v[l + 1..]);
      assert v[l][0..] == v[l];
    } else {
      assert v[l..] == [];
    }
  }

  // Attributions without attributes, to borrow the facts about documents held as lines.
  ghost function PlainLines(v: seq<string>): (r: seq<seq<Op>>)
    ensures |r| == |v| && forall i :: 0 <= i < |v| ==> r[i] == [Op(Insert, |v[i]|, 1, [])]
  {
    seq(|v|, i requires 0 <= i < |v| => [Op(Insert, |v[i]|, 1, [])])
  }

  lemma PlainAttribution(s: string)
    requires LineOk(s)
    ensures Fits([Op(Insert, |s|, 1, [])], s, [])
  {
    var op := Op(Insert, |s|, 1, []);
    assert s[..|s|] == s && s[|s|..] == "" && [op][1..] == [];
  }

  lemma PlainAre(v: seq<string>)
    requires LinesOk(v)
    ensures AreLines(v, PlainLines(v))
  {
    hide Fits, LineOk;
    forall i | 0 <= i < |v| ensures Fits(PlainLines(v)[i], v[i], []) { PlainAttribution(v[i]); }
  }

  lemma {:induction false} TextFromFlat(v: seq<string>, i: nat)
    requires i <= |v|
    ensures TextFrom(v, i) == Flat(v[i..])
    decreases |v| - i
  {
    if i < |v| {
      TextFromFlat(v, i + 1);
      assert v[i..] == [v[i]] + v[i + 1..];
      FlatCons(v[i], v[i + 1..]);
    }
  }

  lemma AheadIs(v: seq<string>, l: nat, c: nat)
    requires LinesOk(v) && InRange(v, l, c)
    ensures AreLines(v, PlainLines(v)) && Text(DocAhead(v, PlainLines(v), l, c)) == TextAhead(v, l, c)
  {
    hide Fits, Apply, LineOk, Text;
    PlainAre(v);
    if l < |v| {
      InverseCursorAhead(v, PlainLines(v), l, c);
      TextFromFlat(v, l + 1);
    } else {
      NoText([]);
    }
  }

  lemma NoText(d: Doc)
    ensures d == [] ==> Text(d) == ""
  {}

  lemma InverseCursorAhead(lines: seq<string>, alines: seq<seq<Op>>, l: nat, c: nat)
    requires AreLines(lines, alines) && l < |lines| && c <= |lines[l]|
    ensures Text(DocAhead(lines, alines, l, c)) == lines[l][c..] + TextFrom(lines, l + 1)
  {
    hide Fits, Apply, Text;
    LineDocText(lines, alines, l);
    DocFromText(lines, alines, l + 1);
    TextParts(LineDoc(lines, alines, l), c);
    TextConcat(LineDoc(lines, alines, l)[c..], DocFrom(lines, alines, l + 1));
  }

  // Moving over a counted stretch of text.
  lemma Skipped(v: seq<string>, l: nat, c: nat, N: nat, L: int)
    requires LinesOk(v) && Before(v, l, c) && l < |v| && 0 < N <= |TextAhead(v, l, c)|
    requires LinesTrue(L, TextAhead(v, l, c)[..N])
    ensures 0 <= L
    ensures L == 0 ==> c + N < |v[l]|
    ensures L > 0 ==> l + L <= |v|
    ensures var l', c' := if L > 0 then l + L else l, if L > 0 then 0 else c + N;
            && Before(v, l', c')
            && TextAhead(v, l', c') == TextAhead(v, l, c)[N..]
            && TextBehind(v, l', c') == TextBehind(v, l, c) + TextAhead(v, l, c)[..N]
  {
    hide Fits, Apply, LineOk, Text, DocAhead, TextAhead, TextBehind, LinesTrue;
    AheadIs(v, l, c);
    TextParts(DocAhead(v, PlainLines(v), l, c), N);
    Skipping(v, PlainLines(v), l, c, N, L);
    var l', c' := if L > 0 then l + L else l, if L > 0 then 0 else c + N;
    AllNonEmpty(v);
    AheadIs(v, l', c');
    BehindAndAhead(v, l, c);
    BehindAndAhead(v, l', c');
    SameTotal(TextBehind(v, l, c), TextAhead(v, l, c), TextBehind(v, l', c'), N);
  }

  lemma SameTotal(x: string, y: string, x': string, N: nat)
    requires N <= |y| && x + y == x' + y[N..]
    ensures x' == x + y[..N]
  {
    assert |x'| == |x| + N;
    assert (x + y)[..|x'|] == x + y[..N] && (x' + y[N..])[..|x'|] == x';
  }

  lemma AllNonEmpty(v: seq<string>)
    requires LinesOk(v)
    ensures forall i :: 0 <= i < |v| ==> v[i] != ""
  {}

  // ---------- the operations on the text

  lemma AtLine(v: seq<string>, l: nat, c: nat)
    requires l < |v| && c <= |v[l]|
    ensures TextBehind(v, l, c) == Flat(v[..l]) + v[l][..c] && TextAhead(v, l, c) == v[l][c..] + Flat(v[l + 1..])
  {}

  // One line replaced.
  lemma LineReplaced(v: seq<string>, l: nat, line: string, c: nat)
    requires LinesOk(v) && l < |v| && LineOk(line) && c <= |line|
    ensures var v' := v[l := line];
            LinesOk(v') && TextBehind(v', l, c) == Flat(v[..l]) + line[..c]
                && TextAhead(v', l, c) == line[c..] + Flat(v[l + 1..])
  {
    hide LineOk, Flat, TextBehind, TextAhead;
    var v' := v[l := line];
    assert v'[..l] == v[..l] && v'[l + 1..] == v[l + 1..];
    AtLine(v', l, c);
  }

  lemma RemovedFromText(v: seq<string>, l: nat, c: nat, L: nat)
    requires LinesOk(v) && Before(v, l, c) && 0 < L && l + L <= |v| && (c > 0 ==> l + L < |v|)
    ensures var v' := LinesRemoved(v, l, c, L);
            && LinesOk(v') && Before(v', l, c)
            && TextBehind(v', l, c) == TextBehind(v, l, c) && TextAhead(v', l, c) == TextAhead(v, l + L, 0)
  {
    hide LineOk, LinesOk, Flat, LinesRemoved, TextBehind, TextAhead;
    AheadOfLine(v, l + L);
    if c == 0 {
      RemovedAtLine(v, l, L);
      AheadOfLine(v, l);
      StartOfSomeLine(LinesRemoved(v, l, 0, L), l);
    } else {
      RemovedInside(v, l, c, L);
      AtLine(v, l, c);
      AtLine(LinesRemoved(v, l, c, L), l, c);
    }
  }

  lemma RemovedAtLine(v: seq<string>, l: nat, L: nat)
    requires LinesOk(v) && l + L <= |v|
    ensures var v' := LinesRemoved(v, l, 0, L);
            LinesOk(v') && l <= |v'| && v'[..l] == v[..l] && v'[l..] == v[l + L..]
  {
    hide LineOk;
  }

  lemma RemovedInside(v: seq<string>, l: nat, c: nat, L: nat)
    requires LinesOk(v) && l < |v| && 0 < c < |v[l]| && 0 < L && l + L < |v|
    ensures var v' := LinesRemoved(v, l, c, L);
            && LinesOk(v') && l < |v'| && c < |v'[l]| && v'[..l] == v[..l]
            && v'[l][..c] == v[l][..c] && v'[l][c..] + Flat(v'[l + 1..]) == Flat(v[l + L..])
  {
    hide LineOk, Flat;
    var v' := LinesRemoved(v, l, c, L);
    LineJoined(v[l], c, v[l + L]);
    assert v'[l] == v[l][..c] + v[l + L] && v'[l + 1..] == v[l + L + 1..];
    TailOfLines(v, l + L);
  }

  lemma TailOfLines<T>(v: seq<seq<T>>, l: nat)
    requires l < |v|
    ensures Flat(v[l..]) == v[l] + Flat(v[l + 1..])
  {
    hide Flat;
    TailOf(v, l);
    FlatCons(v[l], v[l + 1..]);
  }

  lemma TailOf<T>(v: seq<T>, l: nat)
    requires l < |v|
    ensures v[l..] == [v[l]] + v[l + 1..]
  {}

  lemma LineJoined(s: string, c: nat, next: string)
    requires LineOk(s) && c < |s| && LineOk(next)
    ensures LineOk(s[..c] + next) && c < |s[..c] + next|
    ensures (s[..c] + next)[..c] == s[..c] && (s[..c] + next)[c..] == next
  {
    hide LineOk;
    LineOkIff(s);
    LineOkIff(next);
    LineOkIff(s[..c] + next);
  }

  ghost function Without(s: string, c: nat, N: nat): string
    requires c + N <= |s|
  {
    s[..c] + s[c + N..]
  }

  ghost function With(s: string, c: nat, text: string): string
    requires c <= |s|
  {
    s[..c] + text + s[c..]
  }

  lemma RemovedFromLine(v: seq<string>, l: nat, c: nat, N: nat)
    requires LinesOk(v) && l < |v| && c + N < |v[l]|
    ensures var v' := v[l := Without(v[l], c, N)];
            && LinesOk(v') && Before(v', l, c)
            && TextBehind(v', l, c) == TextBehind(v, l, c) && TextAhead(v', l, c) == TextAhead(v, l, c + N)
  {
    hide LineOk, LinesOk, Flat, TextBehind, TextAhead, Without;
    LineOkThere(v, l);
    LineWithout(v[l], c, N);
    LineReplaced(v, l, Without(v[l], c, N), c);
    AtLine(v, l, c);
    AtLine(v, l, c + N);
  }

  lemma LineOkThere(v: seq<string>, l: nat)
    requires LinesOk(v) && l < |v|
    ensures LineOk(v[l])
  {}

  lemma LineWithout(s: string, c: nat, N: nat)
    requires LineOk(s) && c + N < |s|
    ensures var line := Without(s, c, N); LineOk(line) && c < |line| && line[..c] == s[..c] && line[c..] == s[c + N..]
  {
    hide LineOk;
    LineOkIff(s);
    LineOkIff(Without(s, c, N));
  }

  lemma InsertedIntoLine(v: seq<string>, l: nat, c: nat, text: string)
    requires LinesOk(v) && l < |v| && c < |v[l]| && Newlines(text) == 0
    ensures var v', c' := v[l := With(v[l], c, text)], c + |text|;
            && LinesOk(v') && Before(v', l, c')
            && TextBehind(v', l, c') == TextBehind(v, l, c) + text && TextAhead(v', l, c') == TextAhead(v, l, c)
  {
    hide LineOk, LinesOk, Flat, Newlines, TextBehind, TextAhead, With;
    LineOkThere(v, l);
    LineWithText(v[l], c, text);
    AroundText(v[l], c, text);
    LineChanged(v, l, c, text, With(v[l], c, text));
  }

  lemma LineChanged(v: seq<string>, l: nat, c: nat, text: string, line: string)
    requires LinesOk(v) && l < |v| && c <= |v[l]| && LineOk(line) && c + |text| < |line|
    requires line[..c + |text|] == v[l][..c] + text && line[c + |text|..] == v[l][c..]
    ensures var v', c' := v[l := line], c + |text|;
            && LinesOk(v') && Before(v', l, c')
            && TextBehind(v', l, c') == TextBehind(v, l, c) + text && TextAhead(v', l, c') == TextAhead(v, l, c)
  {
    hide LineOk, LinesOk, Flat, TextBehind, TextAhead;
    LineReplaced(v, l, line, c + |text|);
    AtLine(v, l, c);
    Extended(Flat(v[..l]), v[l][..c], text, line[..c + |text|]);
  }

  lemma Extended(x: string, y: string, z: string, yz: string)
    requires yz == y + z
    ensures x + yz == x + y + z
  {}

  lemma AroundText(s: string, c: nat, text: string)
    requires c <= |s|
    ensures var line := With(s, c, text);
            c + |text| <= |line| && line[..c + |text|] == s[..c] + text && line[c + |text|..] == s[c..]
  {}

  lemma LineWithText(s: string, c: nat, text: string)
    requires LineOk(s) && c < |s| && Newlines(text) == 0
    ensures LineOk(With(s, c, text)) && c + |text| < |With(s, c, text)|
  {
    hide LineOk, Newlines;
    PlainIff(text);
    LineOkIff(s);
    var line := s[..c] + text + s[c..];
    forall i | 0 <= i < |line| - 1 ensures line[i] != '\n' {
      assert line[i] == if i < c then s[i] else if i < c + |text| then text[i - c] else s[i - |text|];
    }
    LineOkIff(line);
  }

  lemma InsertedIntoText(v: seq<string>, l: nat, c: nat, newLines: seq<string>)
    requires LinesOk(v) && Before(v, l, c) && newLines != [] && LinesOk(newLines)
    ensures var v', l' := LinesInserted(v, l, c, newLines), l + |newLines|;
            && LinesOk(v') && Before(v', l', 0)
            && TextBehind(v', l', 0) == TextBehind(v, l, c) + Flat(newLines)
            && TextAhead(v', l', 0) == TextAhead(v, l, c)
  {
    hide LineOk, LinesOk, Flat, LinesInserted, TextBehind, TextAhead;
    LinesPutIn(v, l, c, newLines);
    StartOfSomeLine(LinesInserted(v, l, c, newLines), l + |newLines|);
  }

  lemma LinesPutIn(v: seq<string>, l: nat, c: nat, newLines: seq<string>)
    requires LinesOk(v) && Before(v, l, c) && newLines != [] && LinesOk(newLines)
    ensures var v', l' := LinesInserted(v, l, c, newLines), l + |newLines|;
            && l' <= |v'| && LinesOk(v')
            && Flat(v'[..l']) == TextBehind(v, l, c) + Flat(newLines) && Flat(v'[l'..]) == TextAhead(v, l, c)
  {
    hide LineOk, LinesOk, Flat, LinesInserted, TextBehind, TextAhead;
    if c == 0 {
      InsertedAtLine(v, l, newLines);
      AheadOfLine(v, l);
    } else {
      InsertedInside(v, l, c, newLines);
    }
  }

  lemma StartOfSomeLine(v: seq<string>, l: nat)
    requires LinesOk(v) && l <= |v|
    ensures Before(v, l, 0) && TextBehind(v, l, 0) == Flat(v[..l]) && TextAhead(v, l, 0) == Flat(v[l..])
  {
    hide LineOk, Flat;
    AllNonEmpty(v);
    AheadOfLine(v, l);
  }

  lemma InsertedAtLine(v: seq<string>, l: nat, newLines: seq<string>)
    requires LinesOk(v) && l <= |v| && newLines != [] && LinesOk(newLines)
    ensures var v', l' := LinesInserted(v, l, 0, newLines), l + |newLines|;
            && l' <= |v'| && LinesOk(v') && Flat(v'[..l']) == Flat(v[..l]) + Flat(newLines) && v'[l'..] == v[l..]
  {
    hide LineOk, Flat;
    var v', l' := LinesInserted(v, l, 0, newLines), l + |newLines|;
    assert v'[..l'] == v[..l] + newLines && v'[l'..] == v[l..];
    FlatConcat(v[..l], newLines);
  }

  lemma InsertedInside(v: seq<string>, l: nat, c: nat, newLines: seq<string>)
    requires LinesOk(v) && Before(v, l, c) && 0 < c && newLines != [] && LinesOk(newLines)
    ensures var v', l' := LinesInserted(v, l, c, newLines), l + |newLines|;
            && l' <= |v'| && LinesOk(v')
            && Flat(v'[..l']) == TextBehind(v, l, c) + Flat(newLines) && Flat(v'[l'..]) == TextAhead(v, l, c)
  {
    hide LineOk, Flat;
    var v', l' := LinesInserted(v, l, c, newLines), l + |newLines|;
    var first, more, last := v[l][..c] + newLines[0], newLines[1..], v[l][c..];
    LineOkIff(v[l]);
    LineOkIff(newLines[0]);
    LineOkIff(first);
    LineOkIff(last);
    assert v' == v[..l] + ([first] + more + [last]) + v[l + 1..];
    assert v'[..l'] == v[..l] + ([first] + more) && v'[l'..] == [last] + v[l + 1..];
    FlatConcat(v[..l], [first] + more);
    FlatCons(first, more);
    FlatCons(last, v[l + 1..]);
    assert newLines == [newLines[0]] + more;
    FlatCons(newLines[0], more);
    assert Flat(v[..l]) + (v[l][..c] + newLines[0] + Flat(more)) == Flat(v[..l]) + v[l][..c]
        + (newLines[0] + Flat(more));
  }

  // ---------- mutateTextLines

  // The ops fit a document with this text.
  ghost predicate FitsText(ops: seq<Op>, bank: string, s: string) {
    Fits(ops, bank, Typed(s, []))
  }

  // The ops are still to be carried out on the text ahead; all told they give `all`.
  ghost predicate Mutating(ops: seq<Op>, bank: string, v: seq<string>, l: nat, c: nat, all: string) {
    && LinesOk(v) && Before(v, l, c)
    && FitsText(ops, bank, TextAhead(v, l, c))
    && Safe(ops, |TextAhead(v, l, c)|)
    && TextBehind(v, l, c) + ApplyText(ops, bank, TextAhead(v, l, c)) == all
  }

  // The first op, as far as the text is concerned.
  lemma FirstOp(ops: seq<Op>, bank: string, s: string)
    requires ops != [] && FitsText(ops, bank, s) && Safe(ops, |s|)
    ensures var op := ops[0];
            && op.opcode != NoOp && 0 < op.chars && 0 <= op.lines
            && BankUse(op) <= |bank| && DocUse(op) <= |s|
            && LinesTrue(op.lines, if op.opcode == Insert then bank[..op.chars] else s[..op.chars])
            && (op.opcode == Insert ==> 0 < |s|) && (op.opcode == Delete ==> op.chars < |s|)
    ensures FirstOpDone(ops, bank, s)
  {
    hide FitsText, Safe, LinesTrue, ApplyText, InText;
    SafeHead(ops, |s|);
    FirstOpFits(ops, bank, s);
    FirstOpText(ops, bank, s);
  }

  ghost predicate FirstOpDone(ops: seq<Op>, bank: string, s: string)
    requires ops != [] && 0 <= ops[0].chars && BankUse(ops[0]) <= |bank| && DocUse(ops[0]) <= |s|
  {
    var op := ops[0];
    && FitsText(ops[1..], bank[BankUse(op)..], s[DocUse(op)..])
    && Safe(ops[1..], |s| - DocUse(op))
    && ApplyText(ops, bank, s) == OpText(op, bank, s) + ApplyText(ops[1..], bank[BankUse(op)..], s[DocUse(op)..])
  }

  ghost function OpText(op: Op, bank: string, s: string): string
    requires 0 <= op.chars && BankUse(op) <= |bank| && DocUse(op) <= |s|
  {
    if op.opcode == Insert then bank[..op.chars] else if op.opcode == Keep then s[..op.chars] else ""
  }

  lemma FirstOpFits(ops: seq<Op>, bank: string, s: string)
    requires ops != [] && FitsText(ops, bank, s)
    ensures InText(ops, bank, s) && 0 <= ops[0].lines
    ensures 0 <= BankUse(ops[0]) <= |bank| && 0 <= DocUse(ops[0]) <= |s|
    ensures ops[0].chars <= (if ops[0].opcode == Insert then |bank| else |s|)
    ensures LinesTrue(ops[0].lines, if ops[0].opcode == Insert then bank[..ops[0].chars] else s[..ops[0].chars])
    ensures FitsText(ops[1..], bank[BankUse(ops[0])..], s[DocUse(ops[0])..])
  {
    hide Fits, Apply, Emit, Text, Typed, OpFits, LinesTrue, InText;
    TextOfTyped(s, []);
    FitsInText(ops, bank, Typed(s, []));
    Unfold(ops, bank, Typed(s, []));
    FirstOpCounts(ops[0], bank, s);
  }

  lemma OpTextIs(op: Op, bank: string, s: string)
    requires 0 <= op.chars && BankUse(op) <= |bank| && DocUse(op) <= |s|
    ensures OpText(op, bank, s)
        == (match op.opcode case Insert => bank[..op.chars] case Keep => s[..op.chars] case _ => "")
  {}

  lemma FirstOpText(ops: seq<Op>, bank: string, s: string)
    requires ops != [] && InText(ops, bank, s)
    ensures 0 <= ops[0].chars && BankUse(ops[0]) <= |bank| && DocUse(ops[0]) <= |s|
    ensures ApplyText(ops, bank, s)
         == OpText(ops[0], bank, s) + ApplyText(ops[1..], bank[BankUse(ops[0])..], s[DocUse(ops[0])..])
  {
    hide *;
    ApplyTextUnfold(ops, bank, s);
    OpTextIs(ops[0], bank, s);
  }

  lemma FirstOpCounts(op: Op, bank: string, s: string)
    requires OpFits(op, bank, Typed(s, []))
    ensures 0 <= op.lines && op.chars <= (if op.opcode == Insert then |bank| else |s|)
    ensures 0 <= DocUse(op) <= |s| && Typed(s, [])[DocUse(op)..] == Typed(s[DocUse(op)..], [])
    ensures LinesTrue(op.lines, if op.opcode == Insert then bank[..op.chars] else s[..op.chars])
  {
    hide LinesTrue;
    TextOfTyped(s, []);
    if op.opcode != Insert { TextParts(Typed(s, []), op.chars); }
    CountsAreNatural(op.lines, if op.opcode == Insert then bank[..op.chars] else s[..op.chars]);
  }

  // One op carried out: the text behind grows by what it puts there.
  ghost predicate Moved(v: seq<string>, l: nat, c: nat, v': seq<string>, l': nat, c': nat, text: string, used: int)
    requires Before(v, l, c)
  {
    && 0 <= used <= |TextAhead(v, l, c)| && LinesOk(v') && Before(v', l', c')
    && TextBehind(v', l', c') == TextBehind(v, l, c) + text && TextAhead(v', l', c') == TextAhead(v, l, c)[used..]
  }

  method MutInsert(mut: TextLinesMutator<char>, text: string, L: nat)
    requires mut.Valid() && LinesOk(mut.Current()) && Before(mut.Current(), mut.curLine, mut.curCol)
    requires text != "" && LinesTrue(L, text) && TextAhead(mut.Current(), mut.curLine, mut.curCol) != ""
    modifies mut
    ensures mut.Valid()
    ensures Moved(old(mut.Current()), old(mut.curLine), old(mut.curCol), mut.Current(), mut.curLine, mut.curCol, text,
        0)
  {
    hide LinesTrue, TextAhead, TextBehind, LinesOk, LinesInserted, Newlines, IsSplit, Flat,
         TextLinesMutator<char>.Valid, TextLinesMutator<char>.Current;
    ghost var v, l, c := mut.Current(), mut.curLine, mut.curCol;
    AheadMeansLine(v, l, c);
    ghost var s := TextAhead(v, l, c);
    assert s[0..] == s;
    if L > 0 {
      var newLines := SplitTextLines(text);
      LinesOfCounted(newLines, text, L);
      InsertedIntoText(v, l, c, newLines);
      mut.Insert(text, L, newLines);
    } else {
      CountedPlain(text, L);
      InsertedIntoLine(v, l, c, text);
      mut.Insert(text, L, []);
    }
  }

  method MutRemove(mut: TextLinesMutator<char>, N: nat, L: nat)
    requires mut.Valid() && LinesOk(mut.Current()) && Before(mut.Current(), mut.curLine, mut.curCol)
    requires 0 < N < |TextAhead(mut.Current(), mut.curLine, mut.curCol)|
    requires LinesTrue(L, TextAhead(mut.Current(), mut.curLine, mut.curCol)[..N])
    modifies mut
    ensures mut.Valid()
    ensures Moved(old(mut.Current()), old(mut.curLine), old(mut.curCol), mut.Current(), mut.curLine, mut.curCol, "", N)
  {
    hide LinesTrue, TextAhead, TextBehind, LinesOk, LinesRemoved, Newlines, Flat, RemovedText,
         TextLinesMutator<char>.Valid, TextLinesMutator<char>.Current;
    ghost var v, l, c := mut.Current(), mut.curLine, mut.curCol;
    AheadMeansLine(v, l, c);
    Skipped(v, l, c, N, L);
    NoMore(TextBehind(v, l, c));
    if L > 0 {
      AheadMeansLine(v, l + L, 0);
      RemovedFromText(v, l, c, L);
    } else {
      RemovedFromLine(v, l, c, N);
    }
    var _ := mut.Remove(N, L);
  }

  method MutSkip(mut: TextLinesMutator<char>, N: nat, L: nat, includeInSplice: bool)
    requires mut.Valid() && LinesOk(mut.Current()) && Before(mut.Current(), mut.curLine, mut.curCol)
    requires 0 < N <= |TextAhead(mut.Current(), mut.curLine, mut.curCol)|
    requires LinesTrue(L, TextAhead(mut.Current(), mut.curLine, mut.curCol)[..N])
    modifies mut, mut.lines
    ensures mut.Valid()
    ensures Moved(old(mut.Current()), old(mut.curLine), old(mut.curCol), mut.Current(), mut.curLine, mut.curCol,
                  old(TextAhead(mut.Current(), mut.curLine, mut.curCol)[..N]), N)
  {
    hide LinesTrue, TextAhead, TextBehind, LinesOk, Newlines, Flat,
         TextLinesMutator<char>.Valid, TextLinesMutator<char>.Current;
    ghost var v, l, c := mut.Current(), mut.curLine, mut.curCol;
    AheadMeansLine(v, l, c);
    Skipped(v, l, c, N, L);
    mut.Skip(N, L, includeInSplice);
  }

  lemma NoMore(s: string)
    ensures s + "" == s
  {}

  lemma {:induction false} MutatingNext(ops: seq<Op>, bank: string, v: seq<string>, l: nat, c: nat, all: string,
                     v': seq<string>, l': nat, c': nat)
    requires ops != [] && Mutating(ops, bank, v, l, c, all)
    requires 0 <= ops[0].chars && BankUse(ops[0]) <= |bank| && DocUse(ops[0]) <= |TextAhead(v, l, c)|
    requires Moved(v, l, c, v', l', c', OpText(ops[0], bank, TextAhead(v, l, c)), DocUse(ops[0]))
    ensures Mutating(ops[1..], bank[BankUse(ops[0])..], v', l', c', all)
  {
    hide FitsText, Safe, ApplyText, TextAhead, TextBehind, LinesOk, OpText, Flat;
    var op, s := ops[0], TextAhead(v, l, c);
    FirstOp(ops, bank, s);
    Regroup(TextBehind(v, l, c), OpText(op, bank, s), ApplyText(ops[1..], bank[BankUse(op)..], s[DocUse(op)..]));
  }

  lemma MutatingMeans(ops: seq<Op>, bank: string, v: seq<string>, l: nat, c: nat, all: string)
    requires ops != [] && Mutating(ops, bank, v, l, c, all)
    ensures var op, s := ops[0], TextAhead(v, l, c);
            && LinesOk(v) && op.opcode != NoOp && 0 < op.chars && 0 <= op.lines
            && BankUse(op) <= |bank| && DocUse(op) <= |s|
            && LinesTrue(op.lines, if op.opcode == Insert then bank[..op.chars] else s[..op.chars])
            && (op.opcode == Insert ==> 0 < |s|) && (op.opcode == Delete ==> op.chars < |s|)
  {
    hide FitsText, Safe, LinesTrue, ApplyText, TextAhead, TextBehind, LinesOk, Flat;
    FirstOp(ops, bank, TextAhead(v, l, c));
  }

  method MutateNext(csIter: OpIterator, bankIter: StringIterator, mut: TextLinesMutator<char>, ghost all: string)
    requires csIter.Valid() && bankIter.Valid() && mut.Valid() && csIter.HasNext()
    requires Mutating(csIter.Rest(), bankIter.Rest(), mut.Current(), mut.curLine, mut.curCol, all)
    modifies csIter, bankIter, mut, mut.lines
    ensures csIter.Valid() && bankIter.Valid() && mut.Valid() && |csIter.Rest()| < |old(csIter.Rest())|
    ensures Mutating(csIter.Rest(), bankIter.Rest(), mut.Current(), mut.curLine, mut.curCol, all)
  {
    hide FitsText, Safe, LinesTrue, ApplyText, TextAhead, TextBehind, LinesOk, Moved, Flat,
         TextLinesMutator<char>.Valid, TextLinesMutator<char>.Current, OpIterator.Rest, StringIterator.Rest;
    ghost var ops, bank, v, l, c := csIter.Rest(), bankIter.Rest(), mut.Current(), mut.curLine, mut.curCol;
    MutatingMeans(ops, bank, v, l, c, all);
    var op := csIter.Next();
    assert ops[0] == op && ops[1..] == csIter.Rest();
    assert bank[0..] == bank;
    match op.opcode {
      case Insert =>
        var text := bankIter.Take(op.chars);
        MutInsert(mut, text, op.lines);
      case Delete => MutRemove(mut, op.chars, op.lines);
      case Keep => MutSkip(mut, op.chars, op.lines, op.attribs != []);
      case NoOp =>
    }
    MutatingNext(ops, bank, v, l, c, all, mut.Current(), mut.curLine, mut.curCol);
  }

  lemma AheadMeansLine(v: seq<string>, l: nat, c: nat)
    requires InRange(v, l, c)
    ensures TextAhead(v, l, c) != "" ==> l < |v|
  {}

  lemma LinesOfCounted(lines: seq<string>, text: string, L: int)
    requires IsSplit(lines, text) && LinesTrue(L, text) && L > 0 && text != ""
    ensures LinesOk(lines) && lines != []
  {
    hide LinesOk;
    SplitGivesLines(lines, text);
  }

  lemma CountedPlain(text: string, L: int)
    requires LinesTrue(L, text) && L <= 0
    ensures L == 0 && Newlines(text) == 0
  {}

  // Line by line and in place: the lines become those of the changed text.
  method MutateTextLines(cs: Changeset, lines: LineList<char>)
    requires LinesOk(lines.items) && IsFor(cs, Flat(lines.items))
    modifies lines
    ensures LinesOk(lines.items)
    ensures Flat(lines.items) == TextAfter(cs, Flat(old(lines.items)))
    ensures IsSplit(lines.items, TextAfter(cs, Flat(old(lines.items))))
  {
    hide Fits, Apply, ApplyText, LinesOk, Mutating, IsSplit,
         TextLinesMutator<char>.Valid, TextLinesMutator<char>.Current, OpIterator.Rest, StringIterator.Rest;
    ghost var all := TextAfter(cs, Flat(lines.items));
    StartMutating(cs, lines.items);
    var csIter := new OpIterator(cs.ops);
    var bankIter := new StringIterator(cs.bank);
    var mut := new TextLinesMutator(lines);
    while csIter.HasNext()
      invariant csIter.Valid() && bankIter.Valid() && mut.Valid() && mut.lines == lines
      invariant fresh(csIter) && fresh(bankIter) && fresh(mut)
      invariant Mutating(csIter.Rest(), bankIter.Rest(), mut.Current(), mut.curLine, mut.curCol, all)
      decreases |csIter.Rest()|
    {
      MutateNext(csIter, bankIter, mut, all);
    }
    DoneMutating(bankIter.Rest(), mut.Current(), mut.curLine, mut.curCol, all);
    mut.Close();
    LinesAreSplit(lines.items);
  }

  lemma StartMutating(cs: Changeset, v: seq<string>)
    requires LinesOk(v) && IsFor(cs, Flat(v))
    ensures Mutating(cs.ops, cs.bank, v, 0, 0, TextAfter(cs, Flat(v)))
  {
    hide Fits, Apply, ApplyText, Text, Flat;
    var t := Flat(v);
    TextOfUntouched(t);
    assert Text(Typed(t, [])) == t by { TextOfTyped(t, []); }
    FitsByText(cs.ops, cs.bank, Untouched(t), Typed(t, []));
    AheadOfLine(v, 0);
    AllNonEmpty(v);
    assert v[..0] == [] && v[0..] == v;
    FlatNone();
    assert "" + TextAfter(cs, t) == TextAfter(cs, t);
  }

  lemma FlatNone()
    ensures Flat<char>([]) == []
  {}

  lemma TextOfTyped(s: string, a: Attribs)
    ensures Text(Typed(s, a)) == s
  {}

  lemma DoneMutating(bank: string, v: seq<string>, l: nat, c: nat, all: string)
    requires Mutating([], bank, v, l, c, all)
    ensures LinesOk(v) && Flat(v) == all
  {
    hide LineOk, Flat, FitsText;
    BehindAndAhead(v, l, c);
    ApplyTextDone(bank, TextAhead(v, l, c));
  }
}
