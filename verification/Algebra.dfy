/**
 The laws of changesets as values: composition is sequential application and is
 associative, and the two ways of merging concurrent changesets give the same changeset.
 */
module Algebra {
  import opened Attributes
  import opened Changesets
  import opened Composition
  import opened Following
  import opened NormalForm
  import opened Views

  // ---------- the text a changeset produces

  ghost function ApplyText(ops: seq<Op>, bank: string, s: string): string {
    if ops == [] then s
    else match ops[0].opcode
      case Insert => Take(bank, ops[0].chars) + ApplyText(ops[1..], Drop(bank, ops[0].chars), s)
      case Keep => Take(s, ops[0].chars) + ApplyText(ops[1..], bank, Drop(s, ops[0].chars))
      case Delete => ApplyText(ops[1..], bank, Drop(s, ops[0].chars))
      case NoOp => ApplyText(ops[1..], bank, s)
  }

  lemma EmitText(op: Op, bank: string, doc: Doc)
    requires OpFits(op, bank, doc)
    ensures Text(Emit(op, bank, doc))
         == match op.opcode case Insert => bank[..op.chars] case Keep => Text(doc)[..op.chars] case _ => ""
  {
    hide LinesTrue;
  }

  lemma TextConcat(d: Doc, e: Doc)
    ensures Text(d + e) == Text(d) + Text(e)
  {}

  // Text and attributes travel together: the text of the result depends on the text alone.
  lemma {:induction false} TextOfApply(ops: seq<Op>, bank: string, doc: Doc)
    requires Fits(ops, bank, doc)
    ensures Text(Apply(ops, bank, doc)) == ApplyText(ops, bank, Text(doc))
    decreases |ops|
  {
    hide OpFits, Fits, Apply, Emit;
    if ops == [] {
      NothingToDo(bank, doc);
    } else {
      Unfold(ops, bank, doc);
      FitBounds(ops[0], bank, doc);
      var bank', doc' := bank[BankUse(ops[0])..], doc[DocUse(ops[0])..];
      TextOfApply(ops[1..], bank', doc');
      EmitText(ops[0], bank, doc);
      TextParts(doc, DocUse(ops[0]));
      TextConcat(Emit(ops[0], bank, doc), Apply(ops[1..], bank', doc'));
    }
  }

  lemma OpFitsByText(op: Op, bank: string, d: Doc, e: Doc)
    requires OpFits(op, bank, d) && Text(d) == Text(e)
    ensures OpFits(op, bank, e) && Text(d[DocUse(op)..]) == Text(e[DocUse(op)..])
  {
    hide Text, LinesTrue;
    TextParts(d, DocUse(op));
    TextParts(e, DocUse(op));
  }

  // Whether a changeset fits a document depends on the text alone.
  lemma {:induction false} FitsByText(ops: seq<Op>, bank: string, d: Doc, e: Doc)
    requires Fits(ops, bank, d) && Text(d) == Text(e)
    ensures Fits(ops, bank, e)
    decreases |ops|
  {
    hide OpFits, Apply, Emit, Text;
    if ops != [] {
      Unfold(ops, bank, d);
      OpFitsByText(ops[0], bank, d, e);
      FitsByText(ops[1..], bank[BankUse(ops[0])..], d[DocUse(ops[0])..], e[DocUse(ops[0])..]);
    }
  }

  // ---------- the last character of the document

  // With `n` old characters ahead, the ops neither delete the last of them nor insert
  // behind it.
  predicate Safe(ops: seq<Op>, n: int) {
    if ops == [] then true
    else match ops[0].opcode
      case Insert => 0 < ops[0].chars && 0 < n && Safe(ops[1..], n)
      case Delete => 0 < ops[0].chars < n && Safe(ops[1..], n - ops[0].chars)
      case Keep => 0 < ops[0].chars <= n && Safe(ops[1..], n - ops[0].chars)
      case NoOp => false
  }

  lemma {:induction false} SafeLeaves(ops: seq<Op>, n: int)
    requires 0 <= n && Safe(ops, n)
    ensures n + LengthChange(ops) >= 0 && (n > 0 ==> n + LengthChange(ops) > 0)
  {
    if ops != [] {
      SafeLeaves(ops[1..], if ops[0].opcode == Insert then n else n - ops[0].chars);
    }
  }

  lemma {:induction false} SafeChop(ops: seq<Op>, n: int, k: int, l: int)
    requires ops != [] && Safe(ops, n) && ops[0].opcode != Insert && 0 < k <= ops[0].chars
    ensures Safe(Chop(ops, k, l), n - k)
    ensures LengthChange(Chop(ops, k, l)) == LengthChange(ops) + if ops[0].opcode == Delete then k else 0
  {
    assert Chop(ops, k, l)[if k == ops[0].chars then 0 else 1..] == ops[1..];
  }

  lemma SafePush(op: Op, ops: seq<Op>, n: int)
    requires 0 < op.chars
    requires match op.opcode
             case Insert => 0 < n && Safe(ops, n)
             case Delete => op.chars < n && Safe(ops, n - op.chars)
             case Keep => op.chars <= n && Safe(ops, n - op.chars)
             case NoOp => false
    ensures Safe([op] + ops, n)
  {
    assert ([op] + ops)[1..] == ops;
  }

  lemma SafeHead(ops: seq<Op>, n: int)
    requires ops != [] && Safe(ops, n)
    ensures ops[0].opcode != NoOp && 0 < ops[0].chars
    ensures Safe(ops[1..], n - DocUse(ops[0]))
    ensures LengthChange(ops) == Growth(ops[0]) + LengthChange(ops[1..])
    ensures match ops[0].opcode case Insert => 0 < n case Delete => ops[0].chars < n case _ => ops[0].chars <= n
  {}

  lemma {:induction false} SafeIff(ops: seq<Op>, n: int)
    requires ops != [] && ops[0].opcode != NoOp && 0 < ops[0].chars
    ensures LengthChange(ops) == Growth(ops[0]) + LengthChange(ops[1..])
    ensures Safe(ops, n) <==>
              (&& (if ops[0].opcode == Insert then 0 < n
                   else if ops[0].opcode == Delete then ops[0].chars < n
                   else ops[0].chars <= n)
               && Safe(ops[1..], n - DocUse(ops[0])))
  {}

  // What follows `a` leaves the last character alone when both changesets do.
  lemma {:induction false} FollowSafe(a: seq<Op>, ba: string, b: seq<Op>, bb: string, reverse: bool, n: int)
    requires 0 <= n && Safe(a, n) && Safe(b, n)
    ensures Safe(FollowRaw(a, ba, b, bb, reverse), n + LengthChange(a))
    decreases |a| + |b|
  {
    hide FollowAttributes, TakesFirst, Safe, LengthChange, FollowRaw;
    if a != [] { SafeHead(a, n); }
    if b != [] { SafeHead(b, n); }
    SafeEmpty(n);
    if a == [] && b == [] {
      FollowRawEmpty(ba, bb, reverse);
    } else if Inserting(a) || Inserting(b) {
      if TakesFirst(a, ba, b, bb, reverse) {
        TakesFirstInserts(a, ba, b, bb, reverse);
        FollowSafe(a[1..], Drop(ba, a[0].chars), b, bb, reverse, n);
        FollowSafeFirst(a, ba, b, bb, reverse, n);
      } else {
        TakesFirstInserts(a, ba, b, bb, reverse);
        FollowSafe(a, ba, b[1..], Drop(bb, b[0].chars), reverse, n);
        FollowSafeSecond(a, ba, b, bb, reverse, n);
      }
    } else if a == [] {
      SafeEmpty(n - b[0].chars);
      FollowSafe(a, ba, b[1..], bb, reverse, n - b[0].chars);
      FollowSafeTail(a, ba, b, bb, reverse, n);
    } else if b == [] {
      SafeEmpty(n - a[0].chars);
      FollowSafe(a[1..], ba, b, bb, reverse, n - a[0].chars);
      FollowSafeTail(a, ba, b, bb, reverse, n);
    } else {
      // on a tie `follow` uses the counts of the op it tests first
      var ofA := if a[0].opcode == Keep && b[0].opcode == Delete then a[0].chars < b[0].chars
                 else a[0].chars <= b[0].chars;
      var k, l := if ofA then a[0].chars else b[0].chars, if ofA then a[0].lines else b[0].lines;
      FollowSafeOverlap(a, b, n, k, l);
      FollowSafe(Chop(a, k, l), ba, Chop(b, k, l), bb, reverse, n - k);
      FollowRawOverlap(a, ba, b, bb, reverse, k, l);
      FollowSafeStep(a, b, n, k, l, FollowRaw(Chop(a, k, l), ba, Chop(b, k, l), bb, reverse));
    }
  }

  lemma FollowRawEmpty(ba: string, bb: string, reverse: bool)
    ensures FollowRaw([], ba, [], bb, reverse) == []
  {}

  lemma TakesFirstInserts(a: seq<Op>, ba: string, b: seq<Op>, bb: string, reverse: bool)
    requires Inserting(a) || Inserting(b)
    ensures if TakesFirst(a, ba, b, bb, reverse) then Inserting(a) else Inserting(b)
  {}

  lemma {:induction false} FollowRawFirst(a: seq<Op>, ba: string, b: seq<Op>, bb: string, reverse: bool)
    requires Inserting(a) && TakesFirst(a, ba, b, bb, reverse)
    ensures FollowRaw(a, ba, b, bb, reverse)
         == [Op(Keep, a[0].chars, a[0].lines, [])] + FollowRaw(a[1..], Drop(ba, a[0].chars), b, bb, reverse)
  {
    hide TakesFirst;
  }

  lemma {:induction false} FollowSafeFirst(a: seq<Op>, ba: string, b: seq<Op>, bb: string, reverse: bool, n: int)
    requires 0 <= n && Safe(a, n) && Inserting(a) && TakesFirst(a, ba, b, bb, reverse)
    requires Safe(FollowRaw(a[1..], Drop(ba, a[0].chars), b, bb, reverse), n + LengthChange(a[1..]))
    ensures Safe(FollowRaw(a, ba, b, bb, reverse), n + LengthChange(a))
  {
    hide Safe, LengthChange, TakesFirst, FollowRaw;
    SafeHead(a, n);
    SafeLeaves(a[1..], n);
    FollowRawFirst(a, ba, b, bb, reverse);
    SafePush(Op(Keep, a[0].chars, a[0].lines, []), FollowRaw(a[1..], Drop(ba, a[0].chars), b, bb, reverse),
             n + LengthChange(a));
  }

  lemma {:induction false} FollowSafeSecond(a: seq<Op>, ba: string, b: seq<Op>, bb: string, reverse: bool, n: int)
    requires 0 <= n && Safe(a, n) && Safe(b, n) && Inserting(b) && !TakesFirst(a, ba, b, bb, reverse)
    requires Safe(FollowRaw(a, ba, b[1..], Drop(bb, b[0].chars), reverse), n + LengthChange(a))
    ensures Safe(FollowRaw(a, ba, b, bb, reverse), n + LengthChange(a))
  {
    hide Safe, LengthChange, TakesFirst;
    SafeHead(b, n);
    SafeLeaves(a, n);
    SafePush(b[0], FollowRaw(a, ba, b[1..], Drop(bb, b[0].chars), reverse), n + LengthChange(a));
  }

  lemma {:induction false} FollowSafeTail(a: seq<Op>, ba: string, b: seq<Op>, bb: string, reverse: bool, n: int)
    requires 0 <= n && Safe(a, n) && Safe(b, n) && !Inserting(a) && !Inserting(b)
    requires (a == []) != (b == [])
    requires a == [] ==> Safe(FollowRaw(a, ba, b[1..], bb, reverse), n - b[0].chars + LengthChange(a))
    requires b == [] ==> Safe(FollowRaw(a[1..], ba, b, bb, reverse), n - a[0].chars + LengthChange(a[1..]))
    ensures Safe(FollowRaw(a, ba, b, bb, reverse), n + LengthChange(a))
  {
    hide Safe, LengthChange;
    if a == [] {
      SafeEmpty(n);
      SafeHead(b, n);
      SafePush(b[0], FollowRaw(a, ba, b[1..], bb, reverse), n);
    } else {
      SafeHead(a, n);
      SafeLeaves(a[1..], n - a[0].chars);
      if a[0].opcode == Keep {
        SafePush(a[0], FollowRaw(a[1..], ba, b, bb, reverse), n + LengthChange(a));
      }
    }
  }

  lemma {:induction false} FollowSafeStep(a: seq<Op>, b: seq<Op>, n: int, k: int, l: int, f: seq<Op>)
    requires 0 <= n && Safe(a, n) && Safe(b, n) && a != [] && b != [] && !Inserting(a) && !Inserting(b)
    requires 0 < k <= a[0].chars && k <= b[0].chars && Safe(f, n - k + LengthChange(Chop(a, k, l)))
    ensures Safe((if a[0].opcode == Delete then []
                  else if b[0].opcode == Delete then [Part(b[0], k, l)]
                  else [Op(Keep, k, l, FollowAttributes(a[0].attribs, b[0].attribs))]) + f,
                 n + LengthChange(a))
  {
    hide Safe, Chop, LengthChange, FollowAttributes;
    SafeHead(a, n);
    SafeHead(b, n);
    FollowSafeOverlap(a, b, n, k, l);
    if a[0].opcode == Delete {
      assert [] + f == f;
    } else {
      SafePush(Part(b[0], k, l), f, n + LengthChange(a));
      SafePush(Op(Keep, k, l, FollowAttributes(a[0].attribs, b[0].attribs)), f, n + LengthChange(a));
    }
  }

  lemma SafeEmpty(n: int)
    ensures Safe([], n) && LengthChange([]) == 0
  {}

  lemma {:induction false} FollowRawOverlap(a: seq<Op>, ba: string, b: seq<Op>, bb: string, reverse: bool, k: int,
      l: int)
    requires a != [] && b != [] && !Inserting(a) && !Inserting(b)
    requires a[0].opcode != NoOp && b[0].opcode != NoOp
    requires var ofA := if a[0].opcode == Keep && b[0].opcode == Delete then a[0].chars < b[0].chars
                        else a[0].chars <= b[0].chars;
             k == (if ofA then a[0].chars else b[0].chars) && l == if ofA then a[0].lines else b[0].lines
    ensures FollowRaw(a, ba, b, bb, reverse)
         == (if a[0].opcode == Delete then []
             else if b[0].opcode == Delete then [Part(b[0], k, l)]
             else [Op(Keep, k, l, FollowAttributes(a[0].attribs, b[0].attribs))])
            + FollowRaw(Chop(a, k, l), ba, Chop(b, k, l), bb, reverse)
  {
    hide FollowAttributes;
    if k == b[0].chars && l == b[0].lines { assert Part(b[0], k, l) == b[0]; }
  }

  lemma {:induction false} FollowSafeOverlap(a: seq<Op>, b: seq<Op>, n: int, k: int, l: int)
    requires 0 <= n && Safe(a, n) && Safe(b, n)
    requires a != [] && b != [] && !Inserting(a) && !Inserting(b)
    requires 0 < k <= a[0].chars && k <= b[0].chars
    ensures Safe(Chop(a, k, l), n - k) && Safe(Chop(b, k, l), n - k) && 0 <= n - k
    ensures LengthChange(Chop(a, k, l)) == LengthChange(a) + if a[0].opcode == Delete then k else 0
    ensures 0 <= n - k + LengthChange(Chop(a, k, l))
    ensures a[0].opcode == Delete || b[0].opcode == Delete ==> 0 < n - k + LengthChange(Chop(a, k, l))
  {
    hide Safe, Chop, LengthChange;
    SafeHead(a, n);
    SafeHead(b, n);
    SafeChop(a, n, k, l);
    SafeChop(b, n, k, l);
    SafeLeaves(Chop(a, k, l), n - k);
  }
}
