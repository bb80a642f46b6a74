/** A document held as one string and one attribution a line. */
module DocLines {
  import opened Attributes
  import opened Changesets
  import opened Composition
  import opened Algebra

  // Exactly one newline, at the end.
  ghost predicate LineOk(s: string) {
    s != "" && LinesTrue(1, s)
  }

  ghost predicate AreLines(lines: seq<string>, alines: seq<seq<Op>>) {
    |lines| == |alines| && forall i :: 0 <= i < |lines| ==> LineOk(lines[i]) && Fits(alines[i], lines[i], [])
  }

  ghost function LineDoc(lines: seq<string>, alines: seq<seq<Op>>, i: nat): Doc
    requires AreLines(lines, alines) && i < |lines|
  {
    Apply(alines[i], lines[i], [])
  }

  // The document from line `i` on.
  ghost function DocFrom(lines: seq<string>, alines: seq<seq<Op>>, i: nat): Doc
    requires AreLines(lines, alines)
    decreases |lines| - i
  {
    if i >= |lines| then [] else LineDoc(lines, alines, i) + DocFrom(lines, alines, i + 1)
  }

  ghost function TextFrom(lines: seq<string>, i: nat): string
    decreases |lines| - i
  {
    if i >= |lines| then "" else lines[i] + TextFrom(lines, i + 1)
  }

  lemma LineDocText(lines: seq<string>, alines: seq<seq<Op>>, i: nat)
    requires AreLines(lines, alines) && i < |lines|
    ensures Text(LineDoc(lines, alines, i)) == lines[i] && |LineDoc(lines, alines, i)| == |lines[i]|
  {
    hide Fits, Apply, ApplyText;
    TextOfApply(alines[i], lines[i], []);
    TypedAsGivenText(alines[i], lines[i]);
    assert Text([]) == "";
  }

  lemma {:induction false} TypedAsGivenText(ops: seq<Op>, bank: string)
    requires Fits(ops, bank, [])
    ensures ApplyText(ops, bank, "") == bank
  {
    hide Apply, Emit, LinesTrue;
    if ops != [] {
      FitBounds(ops[0], bank, []);
      TypedAsGivenText(ops[1..], bank[ops[0].chars..]);
      assert bank == bank[..ops[0].chars] + bank[ops[0].chars..];
    }
  }

  lemma {:induction false} DocFromText(lines: seq<string>, alines: seq<seq<Op>>, i: nat)
    requires AreLines(lines, alines)
    ensures Text(DocFrom(lines, alines, i)) == TextFrom(lines, i)
    decreases |lines| - i
  {
    hide Fits, Apply;
    if i < |lines| {
      LineDocText(lines, alines, i);
      DocFromText(lines, alines, i + 1);
      TextConcat(LineDoc(lines, alines, i), DocFrom(lines, alines, i + 1));
    }
  }

  // ---------- positions

  // The document from column `c` of line `l` on.
  ghost function DocAhead(lines: seq<string>, alines: seq<seq<Op>>, l: nat, c: nat): Doc
    requires AreLines(lines, alines) && (l < |lines| ==> c <= |lines[l]|)
  {
    if l < |lines| then (LineDocText(lines, alines, l); LineDoc(lines, alines, l)[c..]) + DocFrom(lines, alines, l + 1)
    else []
  }

  lemma AheadAtLine(lines: seq<string>, alines: seq<seq<Op>>, l: nat)
    requires AreLines(lines, alines)
    ensures DocAhead(lines, alines, l, 0) == DocFrom(lines, alines, l)
    ensures l < |lines| ==> DocAhead(lines, alines, l, |lines[l]|) == DocFrom(lines, alines, l + 1)
  {
    hide Apply, Fits;
    if l < |lines| {
      LineDocText(lines, alines, l);
      assert LineDoc(lines, alines, l)[0..] == LineDoc(lines, alines, l);
      assert LineDoc(lines, alines, l)[|lines[l]|..] == [];
    }
  }

  // Newlines in what is left of a line: one, at its end.
  lemma RestOfLine(s: string, c: nat, n: nat)
    requires LineOk(s) && c < |s| && n <= |s| - c
    ensures Newlines(s[c..][..n]) == (if n == |s| - c then 1 else 0)
    ensures LinesTrue(1, s[c..]) && s[c..] != ""
    ensures n < |s| - c ==> LinesTrue(0, s[c..][..n])
  {
    NewlinesSplit(s, c);
    var r := s[c..];
    NewlinesSplit(r, n);
    if n < |r| {
      LastIsNewline(r[n..]);
    } else {
      LastIsNewline(r);
      assert r[..n] == r;
    }
  }

  lemma {:induction false} LastIsNewline(s: string)
    requires s != "" && s[|s| - 1] == '\n'
    ensures Newlines(s) >= 1
  {
    NewlinesSplit(s, |s| - 1);
    assert s[|s| - 1..] == ['\n'];
    assert Newlines(['\n']) == 1 + Newlines(['\n'][1..]);
  }

  lemma SplitPast<T>(x: seq<T>, y: seq<T>, n: nat)
    requires n <= |x| + |y|
    ensures n < |x| ==> (x + y)[..n] == x[..n] && (x + y)[n..] == x[n..] + y
    ensures n >= |x| ==> (x + y)[..n] == x + y[..n - |x|] && (x + y)[n..] == y[n - |x|..]
  {}

  lemma CountPast(first: string, rest: string, k: int)
    requires LinesTrue(1, first) && LinesTrue(k, first + rest)
    ensures LinesTrue(k - 1, rest) && (k == 1 <==> rest == "")
  {
    var s := first + rest;
    assert s[..|first|] == first && s[|first|..] == rest;
    LinesTrueSplit(k, 1, s, |first|);
    if k == 1 && rest != "" { LastIsNewline(rest); }
    NoNewlines();
  }

  // A counted stretch of a document that starts with (the rest of) a line.
  lemma PastFirstLine(first: Doc, rest: Doc, n: nat, k: int)
    requires first != [] && LinesTrue(1, Text(first)) && n <= |first| + |rest|
    requires n < |first| ==> Newlines(Text(first)[..n]) == 0
    requires LinesTrue(k, Text((first + rest)[..n]))
    ensures k == 0 <==> n < |first|
    ensures k == 0 ==> (first + rest)[n..] == first[n..] + rest
    ensures k != 0 ==> 0 < k && n >= |first| && LinesTrue(k - 1, Text(rest[..n - |first|]))
                       && (first + rest)[n..] == rest[n - |first|..] && (k == 1 <==> n == |first|)
  {
    hide LinesTrue, Newlines, Text;
    SplitPast(first, rest, n);
    CountsAreNatural(k, Text((first + rest)[..n]));
    if n < |first| {
      TextParts(first, n);
    } else {
      TextConcat(first, rest[..n - |first|]);
      CountPast(Text(first), Text(rest[..n - |first|]), k);
      CountsAreNatural(k - 1, Text(rest[..n - |first|]));
    }
  }

  lemma CountsAreNatural(k: int, s: string)
    requires LinesTrue(k, s)
    ensures 0 <= k == Newlines(s)
  {}

  // A stretch without newlines stays inside the line; one that counts `k` lines ends at
  // the start of the `k`th line from here.
  lemma {:induction false} Skipping(lines: seq<string>, alines: seq<seq<Op>>, l: nat, c: nat, n: nat, k: int)
    requires AreLines(lines, alines) && l < |lines| && c < |lines[l]| && 0 < n <= |DocAhead(lines, alines, l, c)|
    requires LinesTrue(k, Text(DocAhead(lines, alines, l, c)[..n]))
    ensures 0 <= k
    ensures k == 0 ==> c + n < |lines[l]| && DocAhead(lines, alines, l, c + n) == DocAhead(lines, alines, l, c)[n..]
    ensures k > 0 ==> l + k <= |lines| && DocAhead(lines, alines, l + k, 0) == DocAhead(lines, alines, l, c)[n..]
    decreases |lines| - l
  {
    hide Apply, Fits, Newlines, LineOk, LineDoc, LinesTrue, Text, DocFrom;
    LineDocText(lines, alines, l);
    var first, rest := LineDoc(lines, alines, l)[c..], DocFrom(lines, alines, l + 1);
    TextParts(LineDoc(lines, alines, l), c);
    RestOfLine(lines[l], c, if n < |first| then n else 0);
    PastFirstLine(first, rest, n, k);
    if k == 0 {
      DropTwice(LineDoc(lines, alines, l), c, n);
    } else {
      AheadAtLine(lines, alines, l + 1);
      var n' := n - |first|;
      if k == 1 {
        assert rest[0..] == rest;
      } else {
        NothingFrom(lines, alines, l + 1);
        LineOkNonEmpty(lines[l + 1]);
        Skipping(lines, alines, l + 1, 0, n', k - 1);
      }
    }
  }

  lemma NothingFrom(lines: seq<string>, alines: seq<seq<Op>>, i: nat)
    requires AreLines(lines, alines)
    ensures DocFrom(lines, alines, i) != [] ==> i < |lines|
  {}

  lemma NoNewlines()
    ensures Newlines("") == 0
  {}

  lemma LineOkNonEmpty(s: string)
    requires LineOk(s)
    ensures s != ""
  {}
}
