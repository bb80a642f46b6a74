/** `textLinesMutator`: a list of lines edited in place through a splice buffer. */
module LineMutation {

  // A list that is edited in place. (Its elements are sequences of any kind: the lines of a
  // text, or those of an attribution.)
  class LineList<T> {
    var items: seq<seq<T>>

    constructor (s: seq<seq<T>>)
      ensures items == s
    {
      items := s;
    }

    method Splice(start: nat, count: nat, new_: seq<seq<T>>)
      requires start + count <= |items|
      modifies this
      ensures items == Spliced(old(items), start, count, new_)
    {
      items := items[..start] + new_ + items[start + count..];
    }
  }

  ghost function Spliced<T>(lines: seq<seq<T>>, start: nat, count: nat, new_: seq<seq<T>>): seq<seq<T>>
    requires start + count <= |lines|
  {
    lines[..start] + new_ + lines[start + count..]
  }

  // `lines.join('')`
  function Flat<T>(lines: seq<seq<T>>): seq<T> {
    if lines == [] then [] else lines[0] + Flat(lines[1..])
  }

  // ---------- what the operations do to the lines

  // `L` lines removed from column `c` of line `l` on.
  ghost function LinesRemoved<T>(v: seq<seq<T>>, l: nat, c: nat, L: nat): seq<seq<T>>
    requires l + L <= |v| && (c > 0 ==> l + L < |v| && c <= |v[l]|)
  {
    if c == 0 then v[..l] + v[l + L..] else v[..l] + [v[l][..c] + v[l + L]] + v[l + L + 1..]
  }

  ghost function RemovedText<T>(v: seq<seq<T>>, l: nat, c: nat, L: nat): seq<T>
    requires 0 < L && l + L <= |v| && c <= |v[l]|
  {
    v[l][c..] + Flat(v[l + 1..l + L])
  }

  // Lines inserted at column `c` of line `l`.
  ghost function LinesInserted<T>(v: seq<seq<T>>, l: nat, c: nat, newLines: seq<seq<T>>): seq<seq<T>>
    requires l <= |v| && newLines != [] && (c > 0 ==> l < |v| && c <= |v[l]|)
  {
    if c == 0 then v[..l] + newLines + v[l..]
    else v[..l] + ([v[l][..c] + newLines[0]] + newLines[1..] + [v[l][c..]]) + v[l + 1..]
  }

  // ---------- the splice buffer

  // The current line is the last one in the splice, or the one right after it.
  ghost predicate SpliceOk<T>(lines: seq<seq<T>>, start: nat, count: nat, buf: seq<seq<T>>, l: nat, c: nat) {
    && start + count <= |lines| && start <= l
    && (l == start + |buf| || l + 1 == start + |buf|)
    && (l == start + |buf| ==> c == 0)
  }

  ghost predicate InRange<T>(v: seq<seq<T>>, l: nat, c: nat) {
    l <= |v| && (if l < |v| then c <= |v[l]| else c == 0)
  }

  lemma BufferAt<T>(lines: seq<seq<T>>, start: nat, count: nat, buf: seq<seq<T>>, l: nat)
    requires start + count <= |lines| && start <= l
    ensures l < start + |buf|
        ==> l < |Spliced(lines, start, count, buf)| && Spliced(lines, start, count, buf)[l] == buf[l - start]
    ensures l == start + |buf| ==> (l < |Spliced(lines, start, count, buf)| <==> start + count < |lines|)
    ensures l == start + |buf| && start + count < |lines|
        ==> Spliced(lines, start, count, buf)[l] == lines[start + count]
  {}

  // Taking the current line into the buffer changes nothing.
  lemma PutLine<T>(lines: seq<seq<T>>, start: nat, count: nat, buf: seq<seq<T>>)
    requires start + count < |lines|
    ensures Spliced(lines, start, count + 1, buf + [lines[start + count]]) == Spliced(lines, start, count, buf)
  {}

  lemma EmptySplice<T>(lines: seq<seq<T>>, start: nat)
    requires start <= |lines|
    ensures Spliced(lines, start, 0, []) == lines
  {}

  // Replacing the line that is last in the buffer.
  lemma ReplaceLast<T>(lines: seq<seq<T>>, start: nat, count: nat, buf: seq<seq<T>>, line: seq<T>)
    requires start + count <= |lines| && buf != []
    ensures var l := start + |buf| - 1;
            && l < |Spliced(lines, start, count, buf)|
            && Spliced(lines, start, count, buf[|buf| - 1 := line]) == Spliced(lines, start, count, buf)[l := line]
  {}

  lemma RemoveBehind<T>(lines: seq<seq<T>>, start: nat, count: nat, buf: seq<seq<T>>, L: nat)
    requires start + count + L <= |lines|
    ensures var v := Spliced(lines, start, count, buf);
            && start + |buf| + L <= |v|
            && Spliced(lines, start, count + L, buf) == LinesRemoved(v, start + |buf|, 0, L)
            && v[start + |buf|..start + |buf| + L] == lines[start + count..start + count + L]
  {
    var v := Spliced(lines, start, count, buf);
    assert v[..start + |buf|] == lines[..start] + buf;
    assert v[start + |buf| + L..] == lines[start + count + L..];
  }

  // The lines around the last line of the buffer.
  lemma AroundLast<T>(lines: seq<seq<T>>, start: nat, count: nat, buf: seq<seq<T>>)
    requires start + count <= |lines| && buf != []
    ensures var v, l := Spliced(lines, start, count, buf), start + |buf| - 1;
            && l < |v| && v[..l] == lines[..start] + buf[..|buf| - 1]
            && v[l] == buf[|buf| - 1] && v[l + 1..] == lines[start + count..]
  {}

  lemma SliceBehind<T>(v: seq<T>, l: nat, lines: seq<T>, m: nat, k: nat)
    requires l <= |v| && m <= |lines| && v[l..] == lines[m..] && m + k <= |lines|
    ensures l + k <= |v| && v[l..l + k] == lines[m..m + k] && v[l + k..] == lines[m + k..]
    ensures m + k < |lines| ==> l + k < |v| && v[l + k] == lines[m + k]
  {
    assert |v[l..]| == |lines[m..]|;
    assert v[l..][..k] == v[l..l + k] && lines[m..][..k] == lines[m..m + k];
    assert v[l..][k..] == v[l + k..] && lines[m..][k..] == lines[m + k..];
    if m + k < |lines| { assert v[l..][k] == v[l + k] && lines[m..][k] == lines[m + k]; }
  }

  lemma RemoveLast<T>(lines: seq<seq<T>>, start: nat, count: nat, buf: seq<seq<T>>, L: nat)
    requires 0 < L && start + count + L - 1 <= |lines| && buf != []
    ensures var v, l := Spliced(lines, start, count, buf), start + |buf| - 1;
            && l + L <= |v|
            && Spliced(lines, start, count + L - 1, buf[..|buf| - 1]) == LinesRemoved(v, l, 0, L)
            && v[l..l + L] == [buf[|buf| - 1]] + lines[start + count..start + count + L - 1]
  {
    hide Spliced;
    var v, l, m := Spliced(lines, start, count, buf), start + |buf| - 1, start + count;
    AroundLast(lines, start, count, buf);
    SliceBehind(v, l + 1, lines, m, L - 1);
    assert v[l..l + L] == [v[l]] + v[l + 1..l + L];
    SplicedIs(lines, start, count + L - 1, buf[..|buf| - 1]);
  }

  lemma SplicedIs<T>(lines: seq<seq<T>>, start: nat, count: nat, buf: seq<seq<T>>)
    requires start + count <= |lines|
    ensures Spliced(lines, start, count, buf) == lines[..start] + buf + lines[start + count..]
  {}

  lemma RemoveInside<T>(lines: seq<seq<T>>, start: nat, count: nat, buf: seq<seq<T>>, c: nat, L: nat)
    requires 0 < L && start + count + L - 1 < |lines| && buf != [] && 0 < c <= |buf[|buf| - 1]|
    ensures var v, l := Spliced(lines, start, count, buf), start + |buf| - 1;
            && l + L < |v| && v[l] == buf[|buf| - 1]
            && Spliced(lines, start, count + L, buf[|buf| - 1 := buf[|buf| - 1][..c] + lines[start + count + L - 1]])
               == LinesRemoved(v, l, c, L)
            && v[l + 1..l + L] == lines[start + count..start + count + L - 1]
  {
    hide Spliced;
    var v, l, m := Spliced(lines, start, count, buf), start + |buf| - 1, start + count;
    AroundLast(lines, start, count, buf);
    SliceBehind(v, l + 1, lines, m, L - 1);
    SliceBehind(v, l + 1, lines, m, L);
    var line := buf[|buf| - 1][..c] + lines[m + L - 1];
    SplicedLast(lines, start, count + L, buf, line);
  }

  lemma SplicedLast<T>(lines: seq<seq<T>>, start: nat, count: nat, buf: seq<seq<T>>, line: seq<T>)
    requires start + count <= |lines| && buf != []
    ensures Spliced(lines, start, count, buf[|buf| - 1 := line])
         == lines[..start] + buf[..|buf| - 1] + [line] + lines[start + count..]
  {
    assert buf[|buf| - 1 := line] == buf[..|buf| - 1] + [line];
  }

  lemma InsertBehind<T>(lines: seq<seq<T>>, start: nat, count: nat, buf: seq<seq<T>>, newLines: seq<seq<T>>)
    requires start + count <= |lines| && newLines != []
    ensures var v := Spliced(lines, start, count, buf);
            && start + |buf| <= |v|
            && Spliced(lines, start, count, buf + newLines) == LinesInserted(v, start + |buf|, 0, newLines)
  {
    var v := Spliced(lines, start, count, buf);
    assert v[..start + |buf|] == lines[..start] + buf;
    assert v[start + |buf|..] == lines[start + count..];
  }

  lemma InsertInside<T>(lines: seq<seq<T>>, start: nat, count: nat, buf: seq<seq<T>>, c: nat, newLines: seq<seq<T>>)
    requires start + count <= |lines| && newLines != [] && buf != [] && c <= |buf[|buf| - 1]|
    ensures var v, l := Spliced(lines, start, count, buf), start + |buf| - 1;
            var last := buf[|buf| - 1];
            && l < |v| && v[l] == last
            && Spliced(lines, start, count, buf[|buf| - 1 := last[..c] + newLines[0]] + newLines[1..] + [last[c..]])
               == LinesInserted(v, l, c, newLines)
  {
    var v, l := Spliced(lines, start, count, buf), start + |buf| - 1;
    var last := buf[|buf| - 1];
    assert v[..l] == lines[..start] + buf[..|buf| - 1];
    assert v[l + 1..] == lines[start + count..];
    assert buf[|buf| - 1 := last[..c] + newLines[0]] == buf[..|buf| - 1] + [last[..c] + newLines[0]];
    if c == 0 {
      assert last[..c] + newLines[0] == newLines[0] && last[c..] == last;
      assert newLines == [newLines[0]] + newLines[1..];
      assert v[l..] == [last] + v[l + 1..];
    }
  }

  class TextLinesMutator<T> {
    const lines: LineList<T>
    var spliceStart: nat
    var spliceCount: nat
    var spliceLines: seq<seq<T>>
    var inSplice: bool
    // position in the lines after the splice has been applied
    var curLine: nat
    var curCol: nat

    // The lines as they will be.
    ghost function Current(): seq<seq<T>>
      reads this, lines
    {
      if inSplice && spliceStart + spliceCount <= |lines.items| then
        Spliced(lines.items, spliceStart, spliceCount, spliceLines)
      else lines.items
    }

    ghost predicate Valid()
      reads this, lines
    {
      && InRange(Current(), curLine, curCol)
      && (inSplice ==> SpliceOk(lines.items, spliceStart, spliceCount, spliceLines, curLine, curCol))
      && (!inSplice ==> spliceLines == [])
    }

    constructor (theLines: LineList<T>)
      ensures Valid() && lines == theLines && Current() == theLines.items && curLine == 0 && curCol == 0
    {
      lines := theLines;
      spliceStart, spliceCount, spliceLines, inSplice := 0, 0, [], false;
      curLine, curCol := 0, 0;
    }

    method EnterSplice()
      requires Valid() && !inSplice
      modifies this
      ensures Valid() && inSplice && Current() == old(Current()) && curLine == old(curLine) && curCol == old(curCol)
    {
      spliceStart := curLine;
      spliceCount := 0;
      EmptySplice(lines.items, curLine);
      if curCol > 0 {
        PutLine(lines.items, spliceStart, spliceCount, spliceLines);
        spliceLines := spliceLines + [lines.items[spliceStart + spliceCount]];
        spliceCount := spliceCount + 1;
      }
      inSplice := true;
    }

    method LeaveSplice()
      requires Valid() && inSplice
      modifies this, lines
      ensures Valid() && !inSplice && Current() == old(Current()) == lines.items
      ensures curLine == old(curLine) && curCol == old(curCol)
    {
      lines.Splice(spliceStart, spliceCount, spliceLines);
      spliceStart, spliceCount, spliceLines := 0, 0, [];
      inSplice := false;
    }

    predicate IsCurLineInSplice()
      reads this
    {
      curLine - spliceStart < |spliceLines|
    }

    method PutCurLineInSplice()
      requires Valid() && inSplice && curLine < |Current()|
      modifies this
      ensures Valid() && inSplice && IsCurLineInSplice() && Current() == old(Current())
      ensures curLine == old(curLine) && curCol == old(curCol)
      ensures spliceLines != [] && spliceLines[|spliceLines| - 1] == Current()[curLine]
          && curLine + 1 == spliceStart + |spliceLines|
    {
      BufferAt(lines.items, spliceStart, spliceCount, spliceLines, curLine);
      if !IsCurLineInSplice() {
        PutLine(lines.items, spliceStart, spliceCount, spliceLines);
        spliceLines := spliceLines + [lines.items[spliceStart + spliceCount]];
        spliceCount := spliceCount + 1;
      }
    }

    method SkipLines(L: nat, includeInSplice: bool)
      requires Valid() && curLine + L <= |Current()|
      modifies this, lines
      ensures Valid() && Current() == old(Current())
      ensures curLine == old(curLine) + L && curCol == if L > 0 then 0 else old(curCol)
    {
      hide Spliced;
      if L > 0 {
        if includeInSplice {
          if !inSplice {
            EnterSplice();
          }
          ghost var v := Current();
          for i := 0 to L
            invariant Valid() && inSplice && Current() == v && curLine == old(curLine) + i && (i > 0 ==> curCol == 0)
          {
            curCol := 0;
            PutCurLineInSplice();
            curLine := curLine + 1;
          }
        } else {
          if inSplice {
            if L > 1 {
              LeaveSplice();
            } else {
              PutCurLineInSplice();
            }
          }
          curLine := curLine + L;
          curCol := 0;
        }
      }
    }

    method Skip(N: nat, L: nat, includeInSplice: bool)
      requires Valid()
      requires N > 0 && L > 0 ==> curLine + L <= |Current()|
      requires N > 0 && L == 0 ==> curLine < |Current()| && curCol + N <= |Current()[curLine]|
      modifies this, lines
      ensures Valid() && Current() == old(Current())
      ensures curLine == old(curLine) + if N > 0 then L else 0
      ensures curCol == if N == 0 then old(curCol) else if L > 0 then 0 else old(curCol) + N
    {
      hide Spliced;
      if N > 0 {
        if L > 0 {
          SkipLines(L, includeInSplice);
        } else {
          if includeInSplice && !inSplice {
            EnterSplice();
          }
          if inSplice {
            PutCurLineInSplice();
          }
          curCol := curCol + N;
        }
      }
    }

    method NextKLinesText(k: nat) returns (text: seq<T>)
      requires spliceStart + spliceCount + k <= |lines.items|
      ensures text == Flat(lines.items[spliceStart + spliceCount..spliceStart + spliceCount + k])
    {
      var m := spliceStart + spliceCount;
      text := Flat(lines.items[m..m + k]);
    }

    method RemoveLines(L: nat) returns (removed: seq<T>)
      requires Valid() && curLine + L <= |Current()| && (curCol > 0 ==> curLine + L < |Current()|)
      modifies this
      ensures Valid() && curLine == old(curLine) && curCol == old(curCol)
      ensures L > 0 ==> Current() == LinesRemoved(old(Current()), curLine, curCol, L)
      ensures L == 0 ==> Current() == old(Current()) && removed == []
      ensures L > 0 ==> removed == RemovedText(old(Current()), curLine, curCol, L)
    {
      hide Spliced, LinesRemoved, RemovedText;
      removed := [];
      if L > 0 {
        if !inSplice {
          EnterSplice();
        }
        BufferAt(lines.items, spliceStart, spliceCount, spliceLines, curLine);
        SplicedLength(lines.items, spliceStart, spliceCount, spliceLines);
        if IsCurLineInSplice() {
          if curCol == 0 {
            removed := RemoveFromLast(L);
          } else {
            removed := RemoveFromInside(L);
          }
        } else {
          removed := RemoveFromBehind(L);
        }
      }
    }

    method RemoveFromLast(L: nat) returns (removed: seq<T>)
      requires Valid() && inSplice && IsCurLineInSplice() && curCol == 0 && L > 0 && curLine + L <= |Current()|
      modifies this
      ensures Valid() && inSplice && curLine == old(curLine) && curCol == old(curCol)
      ensures Current() == LinesRemoved(old(Current()), curLine, curCol, L)
      ensures removed == RemovedText(old(Current()), curLine, curCol, L)
    {
      hide Spliced, LinesRemoved, Flat;
      ghost var v, l := Current(), curLine;
      RemovedRange(v, l, curCol, L);
      BufferAt(lines.items, spliceStart, spliceCount, spliceLines, curLine);
      SplicedLength(lines.items, spliceStart, spliceCount, spliceLines);
      FlatHead(v, l, L);
      RemoveLast(lines.items, spliceStart, spliceCount, spliceLines, L);
      removed := spliceLines[|spliceLines| - 1];
      spliceLines := spliceLines[..|spliceLines| - 1];
      var more := NextKLinesText(L - 1);
      FlatCons(removed, lines.items[spliceStart + spliceCount..spliceStart + spliceCount + (L - 1)]);
      removed := removed + more;
      spliceCount := spliceCount + (L - 1);
    }

    method RemoveFromInside(L: nat) returns (removed: seq<T>)
      requires Valid() && inSplice && IsCurLineInSplice() && curCol > 0 && L > 0 && curLine + L < |Current()|
      modifies this
      ensures Valid() && inSplice && curLine == old(curLine) && curCol == old(curCol)
      ensures Current() == LinesRemoved(old(Current()), curLine, curCol, L)
      ensures removed == RemovedText(old(Current()), curLine, curCol, L)
    {
      hide Spliced, LinesRemoved, Flat;
      ghost var v, l := Current(), curLine;
      RemovedRange(v, l, curCol, L);
      BufferAt(lines.items, spliceStart, spliceCount, spliceLines, curLine);
      SplicedLength(lines.items, spliceStart, spliceCount, spliceLines);
      RemoveInside(lines.items, spliceStart, spliceCount, spliceLines, curCol, L);
      removed := NextKLinesText(L - 1);
      spliceCount := spliceCount + (L - 1);
      var sline := |spliceLines| - 1;
      removed := spliceLines[sline][curCol..] + removed;
      spliceLines := spliceLines[sline := spliceLines[sline][..curCol] + lines.items[spliceStart + spliceCount]];
      spliceCount := spliceCount + 1;
    }

    method RemoveFromBehind(L: nat) returns (removed: seq<T>)
      requires Valid() && inSplice && !IsCurLineInSplice() && L > 0 && curLine + L <= |Current()|
      modifies this
      ensures Valid() && inSplice && curLine == old(curLine) && curCol == old(curCol)
      ensures Current() == LinesRemoved(old(Current()), curLine, curCol, L)
      ensures removed == RemovedText(old(Current()), curLine, curCol, L)
    {
      hide Spliced, LinesRemoved, Flat;
      ghost var v, l := Current(), curLine;
      RemovedRange(v, l, curCol, L);
      BufferAt(lines.items, spliceStart, spliceCount, spliceLines, curLine);
      SplicedLength(lines.items, spliceStart, spliceCount, spliceLines);
      FlatHead(v, l, L);
      RemoveBehind(lines.items, spliceStart, spliceCount, spliceLines, L);
      removed := NextKLinesText(L);
      spliceCount := spliceCount + L;
    }

    method Remove(N: nat, L: nat) returns (removed: seq<T>)
      requires Valid()
      requires N > 0 && L > 0 ==> curLine + L <= |Current()| && (curCol > 0 ==> curLine + L < |Current()|)
      requires N > 0 && L == 0 ==> curLine < |Current()| && curCol + N <= |Current()[curLine]|
      modifies this
      ensures Valid() && curLine == old(curLine) && curCol == old(curCol)
      ensures N > 0 && L > 0 ==> Current() == LinesRemoved(old(Current()), curLine, curCol, L)
      ensures N > 0 && L == 0 ==>
                Current() == old(Current()[curLine := Current()[curLine][..curCol] + Current()[curLine][curCol + N..]])
      ensures N == 0 ==> Current() == old(Current())
      ensures removed == if N == 0 then []
                         else if L == 0 then old(Current()[curLine][curCol..curCol + N])
                         else RemovedText(old(Current()), curLine, curCol, L)
    {
      hide Spliced, LinesRemoved, RemovedText;
      removed := [];
      if N > 0 {
        if L > 0 {
          removed := RemoveLines(L);
        } else {
          if !inSplice {
            EnterSplice();
          }
          PutCurLineInSplice();
          var sline := |spliceLines| - 1;
          removed := spliceLines[sline][curCol..curCol + N];
          ReplaceLast(lines.items, spliceStart, spliceCount, spliceLines,
                      spliceLines[sline][..curCol] + spliceLines[sline][curCol + N..]);
          spliceLines := spliceLines[sline := spliceLines[sline][..curCol] + spliceLines[sline][curCol + N..]];
        }
      }
    }

    // `newLines` are the lines that `text` splits into.
    method Insert(text: seq<T>, L: nat, newLines: seq<seq<T>>)
      requires Valid() && (text != [] && L > 0 ==> newLines != [])
      requires text != [] && L == 0 ==> curLine < |Current()|
      modifies this
      ensures Valid()
      ensures text == [] ==> Current() == old(Current()) && curLine == old(curLine) && curCol == old(curCol)
      ensures text != [] && L > 0 ==> Current() == LinesInserted(old(Current()), old(curLine), old(curCol), newLines)
      ensures text != [] && L > 0 ==> curLine == old(curLine) + |newLines| && curCol == 0
      ensures text != [] && L == 0 ==> curLine == old(curLine) && curCol == old(curCol) + |text|
      ensures text != [] && L == 0 ==>
                Current() == old(Current()[curLine := Current()[curLine][..curCol] + text
                    + Current()[curLine][curCol..]])
    {
      if |text| > 0 {
        if !inSplice {
          EnterSplice();
        }
        if L > 0 {
          InsertLines(newLines);
        } else {
          InsertInLine(text);
        }
      }
    }

    method InsertLines(newLines: seq<seq<T>>)
      requires Valid() && inSplice && newLines != []
      modifies this
      ensures Valid() && inSplice
      ensures Current() == LinesInserted(old(Current()), old(curLine), old(curCol), newLines)
      ensures curLine == old(curLine) + |newLines| && curCol == 0
    {
      hide Spliced, LinesInserted;
      BufferAt(lines.items, spliceStart, spliceCount, spliceLines, curLine);
      InsertedRange(Current(), curLine, curCol, newLines);
      if IsCurLineInSplice() {
        InsertInside(lines.items, spliceStart, spliceCount, spliceLines, curCol, newLines);
        var sline := |spliceLines| - 1;
        var theLine := spliceLines[sline];
        var lineCol := curCol;
        spliceLines := spliceLines[sline := theLine[..lineCol] + newLines[0]];
        curLine := curLine + 1;
        var moreLines := newLines[1..];
        spliceLines := spliceLines + moreLines;
        curLine := curLine + |moreLines|;
        spliceLines := spliceLines + [theLine[lineCol..]];
        curCol := 0;
      } else {
        InsertBehind(lines.items, spliceStart, spliceCount, spliceLines, newLines);
        spliceLines := spliceLines + newLines;
        curLine := curLine + |newLines|;
      }
    }

    method InsertInLine(text: seq<T>)
      requires Valid() && inSplice && curLine < |Current()|
      modifies this
      ensures Valid() && inSplice && curLine == old(curLine) && curCol == old(curCol) + |text|
      ensures Current() == old(Current()[curLine := Current()[curLine][..curCol] + text + Current()[curLine][curCol..]])
    {
      hide Spliced;
      PutCurLineInSplice();
      var sline := |spliceLines| - 1;
      ReplaceLast(lines.items, spliceStart, spliceCount, spliceLines,
                  spliceLines[sline][..curCol] + text + spliceLines[sline][curCol..]);
      spliceLines := spliceLines[sline := spliceLines[sline][..curCol] + text + spliceLines[sline][curCol..]];
      curCol := curCol + |text|;
    }

    predicate HasMore()
      reads this, lines
      requires Valid()
      ensures HasMore() <==> curLine < |Current()|
      ensures curLine <= |Current()|
    {
      var docLines: int := |lines.items| + if inSplice then |spliceLines| - spliceCount else 0;
      curLine < docLines
    }

    method Close()
      requires Valid()
      modifies this, lines
      ensures lines.items == old(Current())
    {
      if inSplice {
        LeaveSplice();
      }
    }
  }

  lemma RemovedRange<T>(v: seq<seq<T>>, l: nat, c: nat, L: nat)
    requires InRange(v, l, c) && l + L <= |v| && (c > 0 ==> l + L < |v| && c <= |v[l]|)
    ensures InRange(LinesRemoved(v, l, c, L), l, c)
  {}

  lemma InsertedRange<T>(v: seq<seq<T>>, l: nat, c: nat, newLines: seq<seq<T>>)
    requires InRange(v, l, c) && newLines != []
    ensures InRange(LinesInserted(v, l, c, newLines), l + |newLines|, 0)
  {}

  lemma SplicedLength<T>(lines: seq<seq<T>>, start: nat, count: nat, buf: seq<seq<T>>)
    requires start + count <= |lines|
    ensures |Spliced(lines, start, count, buf)| == |lines| + |buf| - count
  {}

  lemma FlatCons<T>(line: seq<T>, lines: seq<seq<T>>)
    ensures Flat([line] + lines) == line + Flat(lines)
  {
    assert ([line] + lines)[1..] == lines;
  }

  lemma FlatHead<T>(v: seq<seq<T>>, l: nat, L: nat)
    requires 0 < L && l + L <= |v|
    ensures v[l..l + L] == [v[l]] + v[l + 1..l + L] && Flat(v[l..l + L]) == v[l] + Flat(v[l + 1..l + L])
    ensures v[l][0..] == v[l]
  {
    FlatCons(v[l], v[l + 1..l + L]);
  }
}
