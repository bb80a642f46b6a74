/** `checkRep` and the changeset builder. */
module Building {
  import opened Attributes
  import opened Changesets
  import opened Composition
  import opened NormalForm
  import opened Views
  import opened Algebra
  import opened Laws
  import opened SmartAssembler
  import opened Iterators
  import opened Zipping
  import opened Engine

  // ---------- checkRep

  // The position tests of `checkRep`, from the given positions on.
  ghost predicate Inside(ops: seq<Op>, oldPos: int, newPos: int, oldLen: int, newLen: int) {
    ops == [] ||
    match ops[0].opcode
    case Keep => Inside(ops[1..], oldPos + ops[0].chars, newPos + ops[0].chars, oldLen, newLen)
    case Delete => oldPos + ops[0].chars < oldLen && Inside(ops[1..], oldPos + ops[0].chars, newPos, oldLen, newLen)
    case Insert => newPos + ops[0].chars < newLen && Inside(ops[1..], oldPos, newPos + ops[0].chars, oldLen, newLen)
    case NoOp => Inside(ops[1..], oldPos, newPos, oldLen, newLen)
  }

  // On ops that stay inside the document, those tests say that the last character is
  // neither deleted nor followed by an insertion.
  lemma {:induction false} InsideIsSafe(ops: seq<Op>, bank: string, doc: Doc, oldPos: int, newPos: int, oldLen: int,
      newLen: int)
    requires Fits(ops, bank, doc)
    requires oldPos + |doc| == oldLen && newLen == newPos + |doc| + LengthChange(ops)
    ensures Inside(ops, oldPos, newPos, oldLen, newLen) <==> Safe(ops, |doc|)
    decreases |ops|
  {
    hide OpFits, Fits, Apply, Emit, Inside, Safe, LengthChange;
    if ops == [] {
      NoOpsInside(oldPos, newPos, oldLen, newLen);
      SafeEmpty(|doc|);
    } else {
      var op := ops[0];
      Unfold(ops, bank, doc);
      FitBounds(op, bank, doc);
      SafeIff(ops, |doc|);
      InsideNext(ops, oldPos, newPos, oldLen, newLen);
      var bank', doc' := bank[BankUse(op)..], doc[DocUse(op)..];
      InsideIsSafe(ops[1..], bank', doc', oldPos + DocUse(op), newPos + Growth(op) + DocUse(op), oldLen, newLen);
      if Safe(ops[1..], |doc'|) {
        SafeLeaves(ops[1..], |doc'|);
        if doc' == [] {
          NothingAfterLast(ops[1..], bank', doc');
          SafeEmpty(0);
        }
      }
    }
  }

  lemma NoOpsInside(oldPos: int, newPos: int, oldLen: int, newLen: int)
    ensures Inside([], oldPos, newPos, oldLen, newLen)
  {}

  function Padded(bank: string, n: nat): string {
    if n <= |bank| then bank[..n] else bank + seq(n - |bank|, _ => '?')
  }

  // How many characters the ops insert.
  function Inserted(ops: seq<Op>): int {
    if ops == [] then 0 else (if ops[0].opcode == Insert then ops[0].chars else 0) + Inserted(ops[1..])
  }

  lemma {:induction false} InsertedFits(ops: seq<Op>, bank: string, doc: Doc)
    requires Fits(ops, bank, doc)
    ensures Inserted(ops) == |bank|
    decreases |ops|
  {
    hide Apply, Emit;
    if ops != [] {
      InsertedFits(ops[1..], bank[BankUse(ops[0])..], doc[DocUse(ops[0])..]);
    }
  }

  lemma {:induction false} InsertedSnoc(ops: seq<Op>, op: Op)
    ensures Inserted(ops + [op]) == Inserted(ops) + if op.opcode == Insert then op.chars else 0
  {
    if ops == [] {
      assert ops + [op] == [op];
    } else {
      InsertedSnoc(ops[1..], op);
      assert (ops + [op])[1..] == ops[1..] + [op];
    }
  }

  // What `checkRep` accepts: the tests of positions, and what it packs again is what it read.
  ghost predicate Accepts(cs: Changeset) {
    && Inside(cs.ops, 0, 0, cs.oldLen, cs.newLen) && 0 <= Inserted(cs.ops)
    && cs == Changeset(cs.oldLen, cs.oldLen + LengthChange(cs.ops), Normal(cs.ops, true),
                       Padded(cs.bank, Inserted(cs.ops)))
  }

  // A changeset is one for a text exactly if `checkRep` accepts it and, what that cannot
  // see, its keeps stay inside the text and its line counts are true there.
  method CheckRep(cs: Changeset) returns (ok: bool)
    requires AllParsed(cs.ops)
    ensures ok <==> Accepts(cs)
    ensures forall t: string | |t| == cs.oldLen ::
              IsFor(cs, t) <==> t != "" && ok && Fits(cs.ops, cs.bank, Untouched(t))
  {
    hide Fits, Apply, Normal, Safe, Inside, Inserted, LengthChange, SmartOpAssembler.Valid, SmartOpAssembler.Open,
         AllParsed, OpIterator.Rest, IsFor, Padded, Checking, Untouched;
    forall t: string | |t| == cs.oldLen
      ensures IsFor(cs, t) <==> t != "" && Accepts(cs) && Fits(cs.ops, cs.bank, Untouched(t))
    {
      AcceptedIsFor(cs, t);
    }
    InsertsSome(cs.ops);
    var assem := new SmartOpAssembler();
    var oldPos, calcNewLen, numInserted := 0, 0, 0;
    var iter := new OpIterator(cs.ops);
    StartsChecking(cs, iter.Rest());
    while iter.HasNext()
      invariant iter.Valid() && fresh(iter) && assem.Open() && fresh(assem.repr)
      invariant Checking(cs, assem.raw, iter.Rest(), oldPos, calcNewLen, numInserted)
      decreases |iter.Rest()|
    {
      var inside;
      inside, oldPos, calcNewLen, numInserted := CheckNext(cs, iter, assem, oldPos, calcNewLen, numInserted);
      if !inside { return false; }
    }
    AllChecked(cs, assem.raw, iter.Rest(), oldPos, calcNewLen, numInserted);
    calcNewLen := calcNewLen + (cs.oldLen - oldPos);
    var charBank := Padded(cs.bank, numInserted);
    assem.EndDocument();
    var ops := assem.ToString();
    ok := Changeset(cs.oldLen, calcNewLen, ops, charBank) == cs;
  }

  // `raw` has been looked at, and `rest` is to come.
  ghost predicate Checking(cs: Changeset, raw: seq<Op>, rest: seq<Op>, oldPos: int, newPos: int, numInserted: int) {
    && cs.ops == raw + rest && AllParsed(rest)
    && Inside(cs.ops, 0, 0, cs.oldLen, cs.newLen) == Inside(rest, oldPos, newPos, cs.oldLen, cs.newLen)
    && numInserted == Inserted(raw) && newPos - oldPos == LengthChange(raw)
  }

  // One op; whether it stays inside the document.
  method CheckNext(cs: Changeset, iter: OpIterator, assem: SmartOpAssembler, pos: int, length: int, inserted: int)
    returns (inside: bool, oldPos: int, calcNewLen: int, numInserted: int)
    requires iter.Valid() && iter.HasNext() && assem.Open() && iter !in assem.repr
    requires Checking(cs, assem.raw, iter.Rest(), pos, length, inserted)
    modifies iter, assem.repr
    ensures iter.Valid() && |iter.Rest()| < |old(iter.Rest())| && assem.Open()
    ensures inside ==> Checking(cs, assem.raw, iter.Rest(), oldPos, calcNewLen, numInserted)
    ensures !inside ==> !Inside(cs.ops, 0, 0, cs.oldLen, cs.newLen)
  {
    hide Inside, Inserted, LengthChange, SmartOpAssembler.Valid, SmartOpAssembler.Open, AllParsed, OpIterator.Rest;
    ghost var ahead := iter.Rest();
    inside, oldPos, calcNewLen, numInserted := true, pos, length, inserted;
    InsideNext(ahead, oldPos, calcNewLen, cs.oldLen, cs.newLen);
    var o := iter.Next();
    assert o == ahead[0] && iter.Rest() == ahead[1..];
    ParsedNext(ahead);
    InsertedSnoc(assem.raw, o);
    LengthSnoc(assem.raw, o);
    Regroup(assem.raw, [o], iter.Rest());
    match o.opcode {
      case Keep =>
        oldPos := oldPos + o.chars;
        calcNewLen := calcNewLen + o.chars;
      case Delete =>
        oldPos := oldPos + o.chars;
        inside := oldPos < cs.oldLen;
      case Insert =>
        calcNewLen := calcNewLen + o.chars;
        numInserted := numInserted + o.chars;
        inside := calcNewLen < cs.newLen;
      case NoOp =>
    }
    assem.Append(o);
  }

  lemma StartsChecking(cs: Changeset, rest: seq<Op>)
    requires rest == cs.ops && AllParsed(rest)
    ensures Checking(cs, [], rest, 0, 0, 0)
  {
    hide Inside, AllParsed;
    NothingRead(rest);
  }

  lemma AllChecked(cs: Changeset, raw: seq<Op>, rest: seq<Op>, oldPos: int, newPos: int, numInserted: int)
    requires Checking(cs, raw, rest, oldPos, newPos, numInserted) && rest == []
    ensures raw == cs.ops && Inside(cs.ops, 0, 0, cs.oldLen, cs.newLen)
    ensures numInserted == Inserted(cs.ops) && newPos - oldPos == LengthChange(cs.ops)
  {
    hide AllParsed, Inserted, LengthChange;
    AllRead(cs.ops, raw, rest, oldPos, newPos, cs.oldLen, cs.newLen);
  }

  lemma {:induction false} InsertsSome(ops: seq<Op>)
    requires AllParsed(ops)
    ensures 0 <= Inserted(ops)
  {
    if ops != [] { InsertsSome(ops[1..]); }
  }

  lemma AcceptedIsFor(cs: Changeset, t: string)
    requires |t| == cs.oldLen
    ensures IsFor(cs, t) <==> t != "" && Accepts(cs) && Fits(cs.ops, cs.bank, Untouched(t))
  {
    hide Fits, Apply, Normal, Safe, Inside, Inserted, LengthChange;
    if Fits(cs.ops, cs.bank, Untouched(t)) {
      InsertedFits(cs.ops, cs.bank, Untouched(t));
      assert cs.bank[..|cs.bank|] == cs.bank;
      if cs.newLen == |t| + LengthChange(cs.ops) {
        InsideIsSafe(cs.ops, cs.bank, Untouched(t), 0, 0, cs.oldLen, cs.newLen);
      }
    }
  }

  // Every changeset for a text can be asked about.
  lemma ForIsParsed(cs: Changeset, t: string)
    requires IsFor(cs, t)
    ensures AllParsed(cs.ops) && |t| == cs.oldLen
  {
    hide Fits, Normal, Safe, AllParsed;
    FitsParsed(cs.ops, cs.bank, Untouched(t));
  }

  lemma NothingRead(ops: seq<Op>)
    ensures [] + ops == ops && Inserted([]) == 0 && LengthChange([]) == 0
  {}

  lemma {:induction false} InsideNext(ops: seq<Op>, oldPos: int, newPos: int, oldLen: int, newLen: int)
    requires ops != []
    ensures Inside(ops, oldPos, newPos, oldLen, newLen) <==>
              (&& (ops[0].opcode == Delete ==> oldPos + ops[0].chars < oldLen)
               && (ops[0].opcode == Insert ==> newPos + ops[0].chars < newLen)
               && Inside(ops[1..], oldPos + DocUse(ops[0]), newPos + Growth(ops[0]) + DocUse(ops[0]), oldLen, newLen))
  {}

  lemma ParsedNext(ops: seq<Op>)
    requires ops != [] && AllParsed(ops)
    ensures Parsed(ops[0]) && AllParsed(ops[1..])
  {}

  lemma AllRead(ops: seq<Op>, raw: seq<Op>, rest: seq<Op>, oldPos: int, newPos: int, oldLen: int, newLen: int)
    requires ops == raw + rest && rest == []
    ensures ops == raw && Inside(rest, oldPos, newPos, oldLen, newLen)
  {}

  // ---------- the builder

  class Builder {
    const oldLen: int
    const assem: SmartOpAssembler
    var charBank: string

    ghost predicate Valid()
      reads this, assem, assem.repr
    {
      assem.Open() && this !in assem.repr
    }

    ghost function Ops(): seq<Op>
      reads assem
    {
      assem.raw
    }

    constructor (length: int)
      ensures Valid() && fresh(assem.repr) && oldLen == length && Ops() == [] && charBank == ""
    {
      oldLen := length;
      assem := new SmartOpAssembler();
      charBank := "";
    }

    method Keep(N: nat, L: nat, attribs: Attribs)
      requires Valid()
      modifies assem.repr
      ensures Valid() && charBank == old(charBank) && Ops() == old(Ops()) + Counted(Op(Opcode.Keep, N, L, attribs))
    {
      assem.Append(Op(Opcode.Keep, N, L, attribs));
    }

    method KeepText(text: string, attribs: Attribs)
      requires Valid()
      modifies assem.repr
      ensures Valid() && charBank == old(charBank) && Ops() == old(Ops()) + TextOps(Opcode.Keep, text, attribs)
    {
      assem.AppendOpWithText(Opcode.Keep, text, attribs);
    }

    method Insert(text: string, attribs: Attribs)
      requires Valid()
      modifies this, assem.repr
      ensures Valid() && charBank == old(charBank) + text
      ensures Ops() == old(Ops()) + TextOps(Opcode.Insert, text, attribs)
    {
      assem.AppendOpWithText(Opcode.Insert, text, attribs);
      charBank := charBank + text;
    }

    method Remove(N: nat, L: nat)
      requires Valid()
      modifies assem.repr
      ensures Valid() && charBank == old(charBank) && Ops() == old(Ops()) + Counted(Op(Delete, N, L, []))
    {
      assem.Append(Op(Delete, N, L, []));
    }

    method ToString() returns (cs: Changeset)
      requires Valid()
      modifies assem.repr
      ensures cs == Changeset(oldLen, oldLen + LengthChange(old(Ops())), Normal(old(Ops()), true), old(charBank))
    {
      assem.EndDocument();
      var ops := assem.ToString();
      var newLen := oldLen + assem.lengthChange;
      cs := Changeset(oldLen, newLen, ops, charBank);
    }
  }
}
