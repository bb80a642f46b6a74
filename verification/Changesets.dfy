/**
 Changesets and what they do to an attributed document.

 A document is a sequence of cells. A `New` cell is a character with its attributes. An
 `Old` cell stands for the character at a position of the document a changeset starts
 from, together with the attribute changes made to it so far; applying a changeset to a
 document of `Old` cells therefore shows what the changeset does to every character.
 */
module Changesets {
  import opened Attributes

  // ---------- documents

  datatype Cell =
    | Old(pos: nat, ch: char, attribs: Attribs)
    | New(ch: char, attribs: Attribs)

  type Doc = seq<Cell>

  ghost function Text(d: Doc): (s: string)
    ensures |s| == |d| && forall i :: 0 <= i < |d| ==> s[i] == d[i].ch
  {
    seq(|d|, i requires 0 <= i < |d| => d[i].ch)
  }

  ghost function Restyled(c: Cell, a: Attribs): Cell {
    c.(attribs := ComposeAttributes(c.attribs, a, c.Old?))
  }

  ghost function Restyle(d: Doc, a: Attribs): (r: Doc)
    ensures |r| == |d| && forall i :: 0 <= i < |d| ==> r[i] == Restyled(d[i], a)
  {
    seq(|d|, i requires 0 <= i < |d| => Restyled(d[i], a))
  }

  ghost function Typed(s: string, a: Attribs): (r: Doc)
    ensures |r| == |s| && forall i :: 0 <= i < |s| ==> r[i] == New(s[i], a)
  {
    seq(|s|, i requires 0 <= i < |s| => New(s[i], a))
  }

  // The document whose every character is still as the changeset finds it.
  ghost function Untouched(t: string): (r: Doc)
    ensures |r| == |t| && forall i :: 0 <= i < |t| ==> r[i] == Old(i, t[i], [])
  {
    seq(|t|, i requires 0 <= i < |t| => Old(i, t[i], []))
  }

  function Newlines(s: string): nat {
    if s == [] then 0 else (if s[0] == '\n' then 1 else 0) + Newlines(s[1..])
  }

  lemma {:induction false} NewlinesSplit(s: string, k: nat)
    requires k <= |s|
    ensures Newlines(s) == Newlines(s[..k]) + Newlines(s[k..])
  {
    if k == 0 {
      assert s[..k] == [] && s[k..] == s;
    } else {
      assert s[1..][..k - 1] == s[..k][1..] && s[1..][k - 1..] == s[k..];
      NewlinesSplit(s[1..], k - 1);
    }
  }

  // An op covering `s` counts its newlines and, if it has any, stops right after the last.
  ghost predicate LinesTrue(lines: int, s: string) {
    lines == Newlines(s) && (lines > 0 ==> s[|s| - 1] == '\n')
  }

  // Splitting a correctly counted stretch leaves two correctly counted stretches.
  lemma LinesTrueSplit(lines: int, l: int, s: string, k: nat)
    requires k <= |s| && LinesTrue(lines, s) && LinesTrue(l, s[..k])
    ensures LinesTrue(lines - l, s[k..])
  {
    NewlinesSplit(s, k);
    if lines - l > 0 {
      assert s[k..] != [];
      assert s[k..][|s[k..]| - 1] == s[|s| - 1];
    }
  }

  lemma LinesTrueJoin(lines: int, l: int, s: string, k: nat)
    requires k <= |s| && LinesTrue(l, s[..k]) && LinesTrue(lines, s[k..])
    requires lines == 0 && l > 0 ==> k == |s|
    ensures LinesTrue(l + lines, s)
  {
    NewlinesSplit(s, k);
    if lines > 0 {
      assert s[k..][|s[k..]| - 1] == s[|s| - 1];
    } else if l > 0 {
      assert s[..k] == s;
    }
  }

  // ---------- ops

  datatype Opcode = NoOp | Keep | Delete | Insert

  datatype Op = Op(opcode: Opcode, chars: int, lines: int, attribs: Attribs)

  datatype Changeset = Changeset(oldLen: int, newLen: int, ops: seq<Op>, bank: string)

  ghost function BankUse(op: Op): int { if op.opcode == Insert then op.chars else 0 }

  ghost function DocUse(op: Op): int { if op.opcode == Keep || op.opcode == Delete then op.chars else 0 }

  ghost predicate OpFits(op: Op, bank: string, doc: Doc) {
    && 0 < op.chars
    && op.opcode != NoOp
    && BankUse(op) <= |bank|
    && DocUse(op) <= |doc|
    && LinesTrue(op.lines, if op.opcode == Insert then bank[..op.chars] else Text(doc[..op.chars]))
    && (op.opcode == Delete ==> op.attribs == [])
  }

  // The ops use up the bank exactly, stay inside the document and count lines correctly.
  ghost predicate Fits(ops: seq<Op>, bank: string, doc: Doc) {
    if ops == [] then bank == ""
    else
      && OpFits(ops[0], bank, doc)
      && Fits(ops[1..], bank[BankUse(ops[0])..], doc[DocUse(ops[0])..])
  }

  ghost function Emit(op: Op, bank: string, doc: Doc): Doc
    requires OpFits(op, bank, doc)
  {
    match op.opcode
    case Insert => Typed(bank[..op.chars], op.attribs)
    case Keep => Restyle(doc[..op.chars], op.attribs)
    case Delete => []
    case NoOp => []
  }

  ghost function Apply(ops: seq<Op>, bank: string, doc: Doc): Doc
    requires Fits(ops, bank, doc)
  {
    if ops == [] then doc
    else Emit(ops[0], bank, doc) + Apply(ops[1..], bank[BankUse(ops[0])..], doc[DocUse(ops[0])..])
  }

  lemma Push(op: Op, rest: seq<Op>, bank: string, doc: Doc)
    requires OpFits(op, bank, doc) && Fits(rest, bank[BankUse(op)..], doc[DocUse(op)..])
    ensures Fits([op] + rest, bank, doc)
    ensures Apply([op] + rest, bank, doc)
         == Emit(op, bank, doc) + Apply(rest, bank[BankUse(op)..], doc[DocUse(op)..])
  {
    assert ([op] + rest)[1..] == rest;
  }

  // ---------- taking ops apart

  lemma Regroup<T>(x: seq<T>, y: seq<T>, z: seq<T>)
    ensures (x + y) + z == x + (y + z)
  {}

  // The part of an op that covers its first `k` characters, and what remains after it.
  function Part(op: Op, k: int, l: int): Op { Op(op.opcode, k, l, op.attribs) }

  function Remainder(op: Op, k: int, l: int): Op { Op(op.opcode, op.chars - k, op.lines - l, op.attribs) }

  function Chop(ops: seq<Op>, k: int, l: int): seq<Op>
    requires ops != []
  {
    if ops[0].chars == k then ops[1..] else [Remainder(ops[0], k, l)] + ops[1..]
  }

  lemma Unfold(ops: seq<Op>, bank: string, doc: Doc)
    requires Fits(ops, bank, doc) && ops != []
    ensures OpFits(ops[0], bank, doc)
    ensures 0 < ops[0].chars && 0 <= BankUse(ops[0]) <= |bank| && 0 <= DocUse(ops[0]) <= |doc|
    ensures Fits(ops[1..], bank[BankUse(ops[0])..], doc[DocUse(ops[0])..])
    ensures Apply(ops, bank, doc)
         == Emit(ops[0], bank, doc) + Apply(ops[1..], bank[BankUse(ops[0])..], doc[DocUse(ops[0])..])
  {}

  lemma TextParts(d: Doc, k: int)
    requires 0 <= k <= |d|
    ensures Text(d[..k]) == Text(d)[..k] && Text(d[k..]) == Text(d)[k..]
  {}

  lemma RestyleParts(d: Doc, k: int, a: Attribs)
    requires 0 <= k <= |d|
    ensures Restyle(d, a) == Restyle(d[..k], a) + Restyle(d[k..], a)
  {
    hide Restyled;
  }

  lemma TypedParts(s: string, k: int, a: Attribs)
    requires 0 <= k <= |s|
    ensures Typed(s, a) == Typed(s[..k], a) + Typed(s[k..], a)
  {}

  lemma TakeParts<T>(s: seq<T>, k: int, n: int)
    requires 0 <= k <= n <= |s|
    ensures s[..n][..k] == s[..k] && s[..n][k..] == s[k..][..n - k]
  {}

  lemma SplitInsert(op: Op, bank: string, doc: Doc, k: int, l: int)
    requires op.opcode == Insert && OpFits(op, bank, doc) && 0 < k < op.chars && OpFits(Part(op, k, l), bank, doc)
    ensures OpFits(Remainder(op, k, l), bank[k..], doc)
    ensures Emit(op, bank, doc) == Emit(Part(op, k, l), bank, doc) + Emit(Remainder(op, k, l), bank[k..], doc)
  {
    hide LinesTrue, Typed, Restyle, Text;
    TakeParts(bank, k, op.chars);
    TypedParts(bank[..op.chars], k, op.attribs);
    LinesTrueSplit(op.lines, l, bank[..op.chars], k);
  }

  lemma SplitOld(op: Op, bank: string, doc: Doc, k: int, l: int)
    requires op.opcode != Insert && OpFits(op, bank, doc) && 0 < k < op.chars && OpFits(Part(op, k, l), bank, doc)
    ensures OpFits(Remainder(op, k, l), bank, doc[k..])
    ensures Emit(op, bank, doc) == Emit(Part(op, k, l), bank, doc) + Emit(Remainder(op, k, l), bank, doc[k..])
  {
    hide LinesTrue, Typed, Restyle, Text;
    TakeParts(doc, k, op.chars);
    TextParts(doc[..op.chars], k);
    RestyleParts(doc[..op.chars], k, op.attribs);
    LinesTrueSplit(op.lines, l, Text(doc[..op.chars]), k);
  }

  lemma DropTwice<T>(s: seq<T>, i: int, j: int)
    requires 0 <= i && 0 <= j && i + j <= |s|
    ensures s[i..][j..] == s[i + j..]
  {}

  // Taking part of the first op off leaves ops that fit what that part did not use up.
  lemma {:induction false} CutHead(ops: seq<Op>, bank: string, doc: Doc, k: int, l: int)
    requires ops != [] && Fits(ops, bank, doc) && 0 < k <= ops[0].chars
    requires OpFits(Part(ops[0], k, l), bank, doc)
    ensures var p := Part(ops[0], k, l);
            && Fits(Chop(ops, k, l), bank[BankUse(p)..], doc[DocUse(p)..])
            && Apply(ops, bank, doc)
               == Emit(p, bank, doc) + Apply(Chop(ops, k, l), bank[BankUse(p)..], doc[DocUse(p)..])
  {
    var op := ops[0];
    if k == op.chars {
      assert Part(op, k, l) == op;
    } else {
      CutInside(op, ops[1..], bank, doc, k, l);
    }
  }

  // The facts about a fitting op that the proofs below use with the definitions hidden.
  lemma FitBounds(op: Op, bank: string, doc: Doc)
    requires OpFits(op, bank, doc)
    ensures op.opcode != NoOp && 0 < op.chars && BankUse(op) <= |bank| && DocUse(op) <= |doc|
  {}

  lemma CutInside(op: Op, rest: seq<Op>, bank: string, doc: Doc, k: int, l: int)
    requires OpFits(op, bank, doc) && Fits(rest, bank[BankUse(op)..], doc[DocUse(op)..])
    requires 0 < k < op.chars && OpFits(Part(op, k, l), bank, doc)
    ensures var p, q := Part(op, k, l), Remainder(op, k, l);
            && Fits([q] + rest, bank[BankUse(p)..], doc[DocUse(p)..])
            && Emit(op, bank, doc) + Apply(rest, bank[BankUse(op)..], doc[DocUse(op)..])
               == Emit(p, bank, doc) + Apply([q] + rest, bank[BankUse(p)..], doc[DocUse(p)..])
  {
    hide OpFits, Fits, Emit, Apply;
    var p, q := Part(op, k, l), Remainder(op, k, l);
    FitBounds(op, bank, doc);
    FitBounds(p, bank, doc);
    if op.opcode == Insert {
      SplitInsert(op, bank, doc, k, l);
      DropTwice(bank, k, op.chars - k);
      Push(q, rest, bank[k..], doc);
      Regroup(Emit(p, bank, doc), Emit(q, bank[k..], doc), Apply(rest, bank[op.chars..], doc));
    } else {
      SplitOld(op, bank, doc, k, l);
      DropTwice(doc, k, op.chars - k);
      Push(q, rest, bank, doc[k..]);
      Regroup(Emit(p, bank, doc), Emit(q, bank, doc[k..]), Apply(rest, bank, doc[op.chars..]));
    }
  }

  // ---------- sizes

  lemma {:induction false} ApplyLength(ops: seq<Op>, bank: string, doc: Doc)
    requires Fits(ops, bank, doc)
    ensures |Apply(ops, bank, doc)| == |doc| + LengthChange(ops)
  {
    if ops != [] {
      ApplyLength(ops[1..], bank[BankUse(ops[0])..], doc[DocUse(ops[0])..]);
    }
  }

  function Growth(op: Op): int {
    match op.opcode case Insert => op.chars case Delete => -op.chars case _ => 0
  }

  function LengthChange(ops: seq<Op>): int {
    if ops == [] then 0 else Growth(ops[0]) + LengthChange(ops[1..])
  }
}
