/** Wrapping overlong lines: `fixLongLines` in the content collector. */
module LineWrapping {
  import opened Changesets
  import opened InverseCursor
  import opened LineMutation
  import TextLines
  import opened Layers
  import opened Subattributing

  // ---------- wrapping

  const LINE_LIMIT := 2000
  // characters allowed over the limit before a line is wrapped
  const BUFFER := 10

  // What an overlong line is cut into.
  function Pieces(s: string): (r: seq<string>)
    ensures Flat(r) == s && (s != "" ==> r != [])
    ensures forall i :: 0 <= i < |r| ==> |r[i]| <= LINE_LIMIT
  {
    if |s| > LINE_LIMIT then
      assert s == s[..LINE_LIMIT] + s[LINE_LIMIT..];
      [s[..LINE_LIMIT]] + Pieces(s[LINE_LIMIT..])
    else if s == "" then [] else
      assert [s][1..] == [] && s + [] == s;
      [s]
  }

  function Wrapped(s: string): seq<string> { if |s| > LINE_LIMIT + BUFFER then Pieces(s) else [s] }

  function AllWrapped(lines: seq<string>): seq<string> {
    if lines == [] then [] else Wrapped(lines[0]) + AllWrapped(lines[1..])
  }

  lemma {:induction false} WrappedAreShort(lines: seq<string>)
    ensures forall i :: 0 <= i < |AllWrapped(lines)| ==> |AllWrapped(lines)[i]| <= LINE_LIMIT + BUFFER
  {
    hide Pieces;
    if lines != [] {
      WrappedAreShort(lines[1..]);
      OneIsShort(lines[0]);
    }
  }

  lemma OneIsShort(s: string)
    ensures forall i :: 0 <= i < |Wrapped(s)| ==> |Wrapped(s)[i]| <= LINE_LIMIT + BUFFER
  {
    assert forall i :: 0 <= i < |Pieces(s)| ==> |Pieces(s)[i]| <= LINE_LIMIT;
  }

  // A line of up to 2010 characters stays, and a longer one is cut into pieces of 2000 and what
  // is left.
  lemma WrappedIs(s: string)
    ensures Flat(Wrapped(s)) == s && Wrapped(s) != []
    ensures |s| <= 2010 ==> Wrapped(s) == [s]
    ensures |s| > 2010 ==> var r := Wrapped(s);
              && (forall i :: 0 <= i < |r| - 1 ==> |r[i]| == 2000) && 0 < |r[|r| - 1]| <= 2000
  {
    if |s| > LINE_LIMIT + BUFFER { PiecesAre(s); } else { assert [s][1..] == [] && s + [] == s; }
  }

  lemma {:induction false} PiecesAre(s: string)
    requires s != ""
    ensures var r := Pieces(s);
            r != [] && (forall i :: 0 <= i < |r| - 1 ==> |r[i]| == LINE_LIMIT) && 0 < |r[|r| - 1]| <= LINE_LIMIT
    decreases |s|
  {
    if |s| > LINE_LIMIT {
      PiecesAre(s[LINE_LIMIT..]);
      var rest := Pieces(s[LINE_LIMIT..]);
      assert Pieces(s) == [s[..LINE_LIMIT]] + rest;
    }
  }

  // Lines with their attributions and the documents they stand for.
  ghost predicate LineStands(text: string, attribs: seq<Op>, d: Doc) { OneLine(text) && Attributing(attribs, text, d) }

  ghost predicate LinesStand(lines: seq<string>, attribs: seq<seq<Op>>, docs: seq<Doc>) {
    |attribs| == |lines| == |docs| && forall i :: 0 <= i < |lines| ==> LineStands(lines[i], attribs[i], docs[i])
  }

  lemma LinesStandConcat(a: seq<string>, x: seq<seq<Op>>, d: seq<Doc>, b: seq<string>, y: seq<seq<Op>>, e: seq<Doc>)
    requires LinesStand(a, x, d) && LinesStand(b, y, e)
    ensures LinesStand(a + b, x + y, d + e)
  {
    hide LineStands;
  }

  lemma LinesStandParts(a: seq<string>, x: seq<seq<Op>>, d: seq<Doc>, i: nat)
    requires LinesStand(a, x, d) && i <= |a|
    ensures LinesStand(a[..i], x[..i], d[..i]) && LinesStand(a[i..], x[i..], d[i..])
  {
    hide LineStands;
  }

  lemma OneStands(s: string, x: seq<Op>, d: Doc)
    requires LineStands(s, x, d)
    ensures LinesStand([s], [x], [d])
  {}

  lemma {:induction false} FlatSnoc<T>(a: seq<seq<T>>, x: seq<T>)
    ensures Flat(a + [x]) == Flat(a) + x
  {
    if a == [] {
      assert a + [x] == [x] && [x][1..] == [] && x + [] == x && [] + x == x;
    } else {
      FlatSnoc(a[1..], x);
      assert (a + [x])[1..] == a[1..] + [x];
    }
  }

  // One overlong line is cut; its characters and their attributes stay.
  method WrapLine(line: string, attribString: seq<Op>, ghost d: Doc)
    returns (newStrings: seq<string>, newAttribStrings: seq<seq<Op>>, ghost docs: seq<Doc>)
    requires LineStands(line, attribString, d)
    ensures newStrings == Pieces(line) && LinesStand(newStrings, newAttribStrings, docs) && Flat(docs) == d
  {
    hide OneLine, Attributing, Pieces, LinesStand;
    var oldString, oldAttribString := line, attribString;
    ghost var rest := d;
    newStrings, newAttribStrings, docs := [], [], [];
    NoneStand();
    NoneWrapped(Pieces(line), d);
    while |oldString| > LINE_LIMIT
      invariant LineStands(oldString, oldAttribString, rest) && LinesStand(newStrings, newAttribStrings, docs)
      invariant newStrings + Pieces(oldString) == Pieces(line) && Flat(docs) + rest == d
      decreases |oldString|
    {
      var lengthToTake := LINE_LIMIT;
      AttributesLength(oldAttribString, oldString, rest);
      var taken := Subattribution(oldAttribString, 0, Some(lengthToTake), oldString, rest);
      var left := Subattribution(oldAttribString, lengthToTake, None, oldString, rest);
      CutLine(oldString, lengthToTake);
      CutSeq(oldString, lengthToTake);
      CutSeq(rest, lengthToTake);
      OneStands(oldString[..lengthToTake], taken, rest[..lengthToTake]);
      LinesStandConcat(newStrings, newAttribStrings, docs, [oldString[..lengthToTake]], [taken],
          [rest[..lengthToTake]]);
      FlatSnoc(docs, rest[..lengthToTake]);
      MorePieces(oldString);
      Regroup(newStrings, [oldString[..lengthToTake]], Pieces(oldString[lengthToTake..]));
      Regroup(Flat(docs), rest[..lengthToTake], rest[lengthToTake..]);
      newStrings := newStrings + [oldString[..lengthToTake]];
      newAttribStrings := newAttribStrings + [taken];
      docs := docs + [rest[..lengthToTake]];
      oldString, oldAttribString := oldString[lengthToTake..], left;
      rest := rest[lengthToTake..];
    }
    LastPiece(oldString, oldAttribString, rest);
    if |oldString| > 0 {
      OneStands(oldString, oldAttribString, rest);
      LinesStandConcat(newStrings, newAttribStrings, docs, [oldString], [oldAttribString], [rest]);
      FlatSnoc(docs, rest);
      newStrings := newStrings + [oldString];
      newAttribStrings := newAttribStrings + [oldAttribString];
      docs := docs + [rest];
    } else {
      NoneLeft(newStrings, Flat(docs));
    }
  }

  lemma NoneStand()
    ensures LinesStand([], [], []) && Flat<Cell>([]) == []
  {}

  lemma NoneWrapped(p: seq<string>, d: Doc)
    ensures [] + p == p && Flat([]) + d == d
  {}

  lemma NoneLeft(p: seq<string>, d: Doc)
    ensures p + [] == p && d + [] == d
  {}

  lemma CutLine(s: string, k: nat)
    requires OneLine(s) && k <= |s|
    ensures OneLine(s[..k]) && OneLine(s[k..])
  {
    hide LinesTrue;
    OneLineTail(s, k);
    forall n: nat | n < k ensures LinesTrue(0, s[..k][..n]) { assert s[..k][..n] == s[..n]; }
  }

  lemma CutSeq<T>(s: seq<T>, k: nat)
    requires k <= |s|
    ensures s[0..k] == s[..k] && s[k..|s|] == s[k..] && s == s[..k] + s[k..]
  {}

  lemma MorePieces(s: string)
    requires |s| > LINE_LIMIT
    ensures Pieces(s) == [s[..LINE_LIMIT]] + Pieces(s[LINE_LIMIT..])
  {}

  lemma LastPiece(s: string, attribs: seq<Op>, d: Doc)
    requires |s| <= LINE_LIMIT && LineStands(s, attribs, d)
    ensures Pieces(s) == if s == "" then [] else [s]
    ensures |d| == |s|
  {
    AttributesLength(attribs, s, d);
  }

  // ---------- the selection

  datatype LineChar = LineChar(line: int, column: int)

  // A place in the lines, or behind them; or none.
  ghost predicate IsPlace(p: LineChar, lines: seq<string>) {
    0 <= p.line ==> p.line <= |lines| && 0 <= p.column && (p.line < |lines| ==> p.column <= |lines[p.line]|)
  }

  // The characters in front of it.
  ghost function CharsBefore(p: LineChar, lines: seq<string>): int
    requires 0 <= p.line <= |lines|
  {
    |Flat(lines[..p.line])| + p.column
  }

  // `p'` is where `p` was, counted in characters.
  ghost predicate SamePlace(p: LineChar, lines: seq<string>, p': LineChar, lines': seq<string>) {
    && IsPlace(p, lines) && IsPlace(p', lines')
    && (if p.line < 0 then p' == p else 0 <= p'.line && CharsBefore(p', lines') == CharsBefore(p, lines))
  }

  ghost function Replaced(lines: seq<string>, i: nat, newStrings: seq<string>): seq<string>
    requires i < |lines|
  {
    lines[..i] + newStrings + lines[i + 1..]
  }

  method FixLineNumber(lineChar: LineChar, i: nat, newStrings: seq<string>, ghost lines: seq<string>)
      returns (p: LineChar)
    requires IsPlace(lineChar, lines) && i < |lines| && Flat(newStrings) == lines[i] && newStrings != []
    ensures SamePlace(lineChar, lines, p, Replaced(lines, i, newStrings))
  {
    hide Flat;
    if lineChar.line < 0 { return lineChar; }
    var n, c := lineChar.line, lineChar.column;
    if n > i {
      n := n + |newStrings| - 1;
      LaterPlace(lineChar, lines, i, newStrings);
    } else if n == i {
      var a := 0;
      NothingFlat(newStrings);
      assert newStrings[..|newStrings|] == newStrings;
      while c > |newStrings[a]|
        invariant 0 <= a < |newStrings| && 0 <= c && c + |Flat(newStrings[..a])| == lineChar.column
        decreases c, |newStrings| - a
      {
        OnePieceMore(newStrings, a);
        c := c - |newStrings[a]|;
        a := a + 1;
      }
      n := n + a;
      SplitPlace(lineChar, lines, i, newStrings, a, c);
    } else {
      EarlierPlace(lineChar, lines, i, newStrings);
    }
    p := LineChar(n, c);
  }

  lemma NothingFlat(s: seq<string>)
    ensures Flat(s[..0]) == ""
  {}

  lemma OnePieceMore(s: seq<string>, a: nat)
    requires a < |s|
    ensures |Flat(s[..a + 1])| == |Flat(s[..a])| + |s[a]|
  {
    FlatSnoc(s[..a], s[a]);
    assert s[..a + 1] == s[..a] + [s[a]];
  }

  lemma LaterPlace(p: LineChar, lines: seq<string>, i: nat, newStrings: seq<string>)
    requires IsPlace(p, lines) && i < |lines| && Flat(newStrings) == lines[i] && i < p.line
    ensures SamePlace(p, lines, LineChar(p.line + |newStrings| - 1, p.column), Replaced(lines, i, newStrings))
  {
    hide Flat, CharsBefore, Replaced, IsPlace;
    LaterIsPlace(p, lines, i, newStrings);
    LaterChars(lines, i, newStrings, p.line);
    CharsAre(p, lines);
    CharsAre(LineChar(p.line + |newStrings| - 1, p.column), Replaced(lines, i, newStrings));
  }

  lemma LaterIsPlace(p: LineChar, lines: seq<string>, i: nat, newStrings: seq<string>)
    requires IsPlace(p, lines) && i < p.line
    ensures p.line <= |lines|
    ensures IsPlace(LineChar(p.line + |newStrings| - 1, p.column), Replaced(lines, i, newStrings))
  {
    BehindReplaced(lines, i, newStrings, p.line);
  }

  lemma CharsAre(p: LineChar, lines: seq<string>)
    requires 0 <= p.line <= |lines|
    ensures CharsBefore(p, lines) == |Flat(lines[..p.line])| + p.column
  {}

  lemma LaterChars(lines: seq<string>, i: nat, newStrings: seq<string>, k: nat)
    requires i < k <= |lines| && Flat(newStrings) == lines[i]
    ensures |Replaced(lines, i, newStrings)| == |lines| + |newStrings| - 1
    ensures |Flat(Replaced(lines, i, newStrings)[..k + |newStrings| - 1])| == |Flat(lines[..k])|
  {
    hide Flat;
    var middle := lines[i + 1..k];
    BehindReplaced(lines, i, newStrings, k);
    TextLines.FlatConcat(lines[..i] + newStrings, middle);
    TextLines.FlatConcat(lines[..i], newStrings);
    TextLines.FlatConcat(lines[..i] + [lines[i]], middle);
    FlatSnoc(lines[..i], lines[i]);
  }

  lemma BehindReplaced<T>(s: seq<T>, i: nat, t: seq<T>, k: nat)
    requires i < k <= |s|
    ensures var r, k' := s[..i] + t + s[i + 1..], k + |t| - 1;
            && |r| == |s| + |t| - 1 && r[..k'] == s[..i] + t + s[i + 1..k]
            && s[..k] == s[..i] + [s[i]] + s[i + 1..k] && (k < |s| ==> r[k'] == s[k])
  {}

  lemma EarlierPlace(p: LineChar, lines: seq<string>, i: nat, newStrings: seq<string>)
    requires IsPlace(p, lines) && i < |lines| && 0 <= p.line < i
    ensures SamePlace(p, lines, p, Replaced(lines, i, newStrings))
  {
    hide Flat;
    assert Replaced(lines, i, newStrings)[..p.line] == lines[..p.line];
  }

  lemma SplitPlace(p: LineChar, lines: seq<string>, i: nat, newStrings: seq<string>, a: nat, c: int)
    requires IsPlace(p, lines) && i < |lines| && p.line == i && a < |newStrings| && 0 <= c <= |newStrings[a]|
    requires c + |Flat(newStrings[..a])| == p.column
    ensures SamePlace(p, lines, LineChar(i + a, c), Replaced(lines, i, newStrings))
  {
    hide Flat;
    assert Replaced(lines, i, newStrings)[..i + a] == lines[..i] + newStrings[..a];
    TextLines.FlatConcat(lines[..i], newStrings[..a]);
  }

  lemma SamePlaceTwice(p: LineChar, l: seq<string>, q: LineChar, m: seq<string>, r: LineChar, n: seq<string>)
    requires SamePlace(p, l, q, m) && SamePlace(q, m, r, n)
    ensures SamePlace(p, l, r, n)
  {}

  // ---------- all the lines

  // What the content collector has collected.
  class CollectedLines {
    var lineStrings: seq<string>
    var lineAttribs: seq<seq<Op>>
    var ss: LineChar
    var se: LineChar

    // `docs` are the attributed texts of the lines.
    ghost predicate Stands(docs: seq<Doc>)
      reads this
    {
      LinesStand(lineStrings, lineAttribs, docs) && IsPlace(ss, lineStrings) && IsPlace(se, lineStrings)
    }

    constructor (strings: seq<string>, attribs: seq<seq<Op>>, start: LineChar, end: LineChar)
      ensures lineStrings == strings && lineAttribs == attribs && ss == start && se == end
    {
      lineStrings, lineAttribs, ss, se := strings, attribs, start, end;
    }

    method FixLongLines(ghost docs: seq<Doc>) returns (linesWrapped: nat, numLinesAfter: nat, ghost docs': seq<Doc>)
      requires Stands(docs)
      modifies this
      ensures Stands(docs') && Flat(docs') == Flat(docs) && lineStrings == AllWrapped(old(lineStrings))
      ensures SamePlace(old(ss), old(lineStrings), ss, lineStrings)
          && SamePlace(old(se), old(lineStrings), se, lineStrings)
      ensures |lineStrings| == |old(lineStrings)| - linesWrapped + numLinesAfter
    {
      hide LinesStand, Flat, AllWrapped, SamePlace, IsPlace, LineStands, Wrapped, Replaced, CollectedLines.Stands;
      linesWrapped, numLinesAfter, docs' := 0, 0, docs;
      var i := |lineStrings| - 1;
      ghost var orig := lineStrings;
      PlacesStand(docs);
      StartWrapping(orig, ss, se);
      while i >= 0
        invariant -1 <= i < |orig| && Stands(docs') && Flat(docs') == Flat(docs)
        invariant lineStrings == orig[..i + 1] + AllWrapped(orig[i + 1..])
        invariant SamePlace(old(ss), orig, ss, lineStrings) && SamePlace(old(se), orig, se, lineStrings)
        invariant |lineStrings| == |orig| - linesWrapped + numLinesAfter
      {
        linesWrapped, numLinesAfter, docs' := FixLine(i, docs', orig, old(ss), old(se), linesWrapped, numLinesAfter);
        i := i - 1;
      }
      WrappedAll(orig);
    }

    lemma PlacesStand(docs: seq<Doc>)
      requires Stands(docs)
      ensures IsPlace(ss, lineStrings) && IsPlace(se, lineStrings)
    {}

    // One line, with those behind it done.
    method FixLine(i: nat, ghost docs: seq<Doc>, ghost orig: seq<string>, ghost ss0: LineChar, ghost se0: LineChar,
        wrapped: nat, after: nat)
      returns (linesWrapped: nat, numLinesAfter: nat, ghost docs': seq<Doc>)
      requires Stands(docs) && i < |orig| && lineStrings == orig[..i + 1] + AllWrapped(orig[i + 1..])
      requires SamePlace(ss0, orig, ss, lineStrings) && SamePlace(se0, orig, se, lineStrings)
      modifies this
      ensures Stands(docs') && Flat(docs') == Flat(docs) && lineStrings == orig[..i] + AllWrapped(orig[i..])
      ensures SamePlace(ss0, orig, ss, lineStrings) && SamePlace(se0, orig, se, lineStrings)
      ensures |lineStrings| - |old(lineStrings)| == (numLinesAfter - after) - (linesWrapped - wrapped)
    {
      hide LinesStand, Flat, AllWrapped, SamePlace, IsPlace, LineStands, Wrapped, Replaced, CollectedLines.Stands;
      linesWrapped, numLinesAfter, docs' := wrapped, after, docs;
      FrontLine(orig, i, lineStrings);
      if |lineStrings[i]| > LINE_LIMIT + BUFFER {
        ghost var was, p, q := lineStrings, ss, se;
        docs', numLinesAfter := WrapAt(i, docs', numLinesAfter);
        SamePlaceTwice(ss0, orig, p, was, ss, lineStrings);
        SamePlaceTwice(se0, orig, q, was, se, lineStrings);
        linesWrapped := linesWrapped + 1;
      }
    }

    method WrapAt(i: nat, ghost docs: seq<Doc>, numLinesAfter: nat) returns (ghost docs': seq<Doc>, n: nat)
      requires Stands(docs) && i < |lineStrings| && |lineStrings[i]| > LINE_LIMIT + BUFFER
      modifies this
      ensures Stands(docs') && Flat(docs') == Flat(docs)
          && lineStrings == Replaced(old(lineStrings), i, Wrapped(old(lineStrings)[i]))
      ensures SamePlace(old(ss), old(lineStrings), ss, lineStrings)
          && SamePlace(old(se), old(lineStrings), se, lineStrings)
      ensures n >= numLinesAfter && |lineStrings| == |old(lineStrings)| - 1 + (n - numLinesAfter)
    {
      hide LinesStand, Flat, IsPlace, LineStands, Pieces;
      LineAt(lineStrings, lineAttribs, docs, i);
      var newStrings, newAttribStrings, newDocs := WrapLine(lineStrings[i], lineAttribs[i], docs[i]);
      SomePieces(lineStrings[i]);
      ss := FixLineNumber(ss, i, newStrings, lineStrings);
      se := FixLineNumber(se, i, newStrings, lineStrings);
      n := numLinesAfter + |newStrings|;
      docs' := docs[..i] + newDocs + docs[i + 1..];
      SplicedStand(lineStrings, lineAttribs, docs, i, newStrings, newAttribStrings, newDocs);
      lineStrings := lineStrings[..i] + newStrings + lineStrings[i + 1..];
      lineAttribs := lineAttribs[..i] + newAttribStrings + lineAttribs[i + 1..];
    }
  }

  lemma StartWrapping(lines: seq<string>, p: LineChar, q: LineChar)
    requires IsPlace(p, lines) && IsPlace(q, lines)
    ensures lines == lines[..|lines|] + AllWrapped(lines[|lines|..]) && SamePlace(p, lines, p, lines)
        && SamePlace(q, lines, q, lines)
  {}

  lemma WrappedAll(lines: seq<string>)
    ensures lines[..0] + AllWrapped(lines[0..]) == AllWrapped(lines)
  {
    assert lines[0..] == lines;
  }

  lemma LineAt(lines: seq<string>, attribs: seq<seq<Op>>, docs: seq<Doc>, i: nat)
    requires LinesStand(lines, attribs, docs) && i < |lines|
    ensures |attribs| == |docs| == |lines| && LineStands(lines[i], attribs[i], docs[i])
  {}

  lemma SomePieces(s: string)
    requires s != ""
    ensures Pieces(s) != [] && Flat(Pieces(s)) == s
  {}

  lemma SplicedStand(lines: seq<string>, attribs: seq<seq<Op>>, docs: seq<Doc>, i: nat, s: seq<string>,
      x: seq<seq<Op>>, d: seq<Doc>)
    requires LinesStand(lines, attribs, docs) && i < |lines| && LinesStand(s, x, d) && |docs| == |lines| == |attribs|
        && Flat(d) == docs[i]
    ensures LinesStand(lines[..i] + s + lines[i + 1..], attribs[..i] + x + attribs[i + 1..],
        docs[..i] + d + docs[i + 1..])
    ensures Flat(docs[..i] + d + docs[i + 1..]) == Flat(docs)
  {
    hide LineStands, Flat, LinesStand;
    LinesStandParts(lines, attribs, docs, i);
    LinesStandParts(lines, attribs, docs, i + 1);
    LinesStandConcat(lines[..i], attribs[..i], docs[..i], s, x, d);
    LinesStandConcat(lines[..i] + s, attribs[..i] + x, docs[..i] + d, lines[i + 1..], attribs[i + 1..], docs[i + 1..]);
    TextLines.FlatConcat(docs[..i] + d, docs[i + 1..]);
    TextLines.FlatConcat(docs[..i], d);
    assert docs == docs[..i] + [docs[i]] + docs[i + 1..];
    TextLines.FlatConcat(docs[..i] + [docs[i]], docs[i + 1..]);
    FlatSnoc(docs[..i], docs[i]);
  }

  lemma FrontLine(orig: seq<string>, i: nat, lines: seq<string>)
    requires i < |orig| && lines == orig[..i + 1] + AllWrapped(orig[i + 1..])
    ensures i < |lines| && lines[i] == orig[i]
    ensures var lines' := if |orig[i]| > LINE_LIMIT + BUFFER then Replaced(lines, i, Wrapped(orig[i])) else lines;
            lines' == orig[..i] + AllWrapped(orig[i..])
  {
    hide Wrapped;
    assert orig[i..][0] == orig[i] && orig[i..][1..] == orig[i + 1..];
    FrontAndRest(orig, i, AllWrapped(orig[i + 1..]), Wrapped(orig[i]));
    if |orig[i]| <= LINE_LIMIT + BUFFER { NotWrapped(orig[i]); }
  }

  lemma NotWrapped(s: string)
    requires |s| <= LINE_LIMIT + BUFFER
    ensures Wrapped(s) == [s]
  {}

  lemma FrontAndRest<T>(s: seq<T>, i: nat, rest: seq<T>, w: seq<T>)
    requires i < |s|
    ensures var l := s[..i + 1] + rest;
            l[i] == s[i] && l[..i] == s[..i] && l[i + 1..] == rest && l == s[..i] + ([s[i]] + rest)
                && s[..i] + w + rest == s[..i] + (w + rest)
  {}
}
