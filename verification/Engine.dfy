/** Composing, following and applying changesets: the loops over op streams. */
module Engine {
  import opened Attributes
  import opened AttributeMerging
  import opened Changesets
  import opened Composition
  import opened Following
  import opened NormalForm
  import opened Views
  import opened Algebra
  import opened Laws
  import opened SmartAssembler
  import opened Iterators
  import opened Zipping

  // ---------- facts about ops that fit

  ghost function BankTotal(ops: seq<Op>): int {
    if ops == [] then 0 else BankUse(ops[0]) + BankTotal(ops[1..])
  }

  lemma {:induction false} FitsParsed(ops: seq<Op>, bank: string, doc: Doc)
    requires Fits(ops, bank, doc)
    ensures AllParsed(ops) && BankTotal(ops) == |bank|
    decreases |ops|
  {
    hide Apply, Emit;
    if ops != [] {
      FitsParsed(ops[1..], bank[BankUse(ops[0])..], doc[DocUse(ops[0])..]);
      assert ops == [ops[0]] + ops[1..];
    }
  }

  lemma BankTotalCons(op: Op, ops: seq<Op>)
    ensures BankTotal([op] + ops) == BankUse(op) + BankTotal(ops)
  {
    assert ([op] + ops)[1..] == ops;
  }

  // ---------- the state of a loop over two streams

  // `raw` and `bank` are what has been written, `rest` is what is to come.
  ghost predicate Written(all: Raw, raw: seq<Op>, bank: string, rest: Raw) {
    all == Raw(raw + rest.ops, bank + rest.bank)
  }

  lemma WriteNext(all: Raw, raw: seq<Op>, bank: string, out: Op, text: string, rest: Raw)
    requires Written(all, raw, bank, Emission(out, text, rest)) && AllParsed(all.ops)
    ensures out.opcode != NoOp ==> Parsed(out) && Written(all, raw + [out], bank + text, rest)
    ensures out.opcode == NoOp ==> Written(all, raw, bank, rest)
  {
    if out.opcode != NoOp {
      Regroup(raw, [out], rest.ops);
      Regroup(bank, text, rest.bank);
      assert all.ops[|raw|] == out;
    }
  }

  // The streams hold only parsed ops, whose insertions the bank covers.
  ghost predicate Ahead(op: Op, rest: seq<Op>, bank: string) {
    && (op.opcode != NoOp ==> 0 < op.chars)
    && AllParsed(rest)
    && BankUse(op) + BankTotal(rest) == |bank|
  }

  // Loads the next op of a stream if the current one is used up.
  method Load(cur: Op, iter: OpIterator, ghost bank: string) returns (op: Op)
    requires iter.Valid() && Ahead(cur, iter.Rest(), bank)
    modifies iter
    ensures iter.Valid() && Ahead(op, iter.Rest(), bank)
    ensures Live(op) + iter.Rest() == Live(cur) + old(iter.Rest())
    ensures |Live(op)| + |iter.Rest()| == |Live(cur)| + |old(iter.Rest())|
    ensures op.opcode == NoOp ==> iter.Rest() == []
    ensures BankUse(op) <= |bank|
  {
    op := cur;
    if op.opcode == NoOp && iter.HasNext() {
      ghost var was := iter.Rest();
      op := iter.Next();
      assert was[0] == op && was[1..] == iter.Rest();
      BankTotalCons(op, iter.Rest());
    }
    BankTotalNonNegative(iter.Rest());
  }

  // ---------- compose

  lemma BankParts(bank: string, k: int)
    requires 0 <= k <= |bank|
    ensures Drop(bank, k) == bank[k..] && Take(bank, k) == bank[..k]
  {}

  // One call of the zipper, with the bank characters it uses.
  method ComposeStep(o1: Op, o2: Op, bankIter1: StringIterator, bankIter2: StringIterator,
                     ghost r1: seq<Op>, ghost r2: seq<Op>)
    returns (op1: Op, op2: Op, opOut: Op, text: string)
    requires bankIter1 != bankIter2 && bankIter1.Valid() && bankIter2.Valid()
    requires Ahead(o1, r1, bankIter1.Rest()) && Ahead(o2, r2, bankIter2.Rest())
    requires (o1.opcode == NoOp ==> r1 == []) && (o2.opcode == NoOp ==> r2 == [])
    requires o1.opcode != NoOp || o2.opcode != NoOp
    requires BankUse(o1) <= |bankIter1.Rest()| && BankUse(o2) <= |bankIter2.Rest()|
    modifies bankIter1, bankIter2
    ensures bankIter1.Valid() && bankIter2.Valid()
    ensures Ahead(op1, r1, bankIter1.Rest()) && Ahead(op2, r2, bankIter2.Rest())
    ensures |Live(op1)| + |Live(op2)| < |Live(o1)| + |Live(o2)|
    ensures ComposeRaw(Live(o1) + r1, old(bankIter1.Rest()), Live(o2) + r2, old(bankIter2.Rest()))
         == Emission(opOut, text, ComposeRaw(Live(op1) + r1, bankIter1.Rest(), Live(op2) + r2, bankIter2.Rest()))
    ensures opOut.opcode == NoOp ==> text == ""
  {
    hide ComposeRaw, BankTotal, Emission;
    ghost var b1, b2 := bankIter1.Rest(), bankIter2.Rest();
    var op1code, op2code := o1.opcode, o2.opcode;
    if op1code == Insert && op2code == Delete {
      bankIter1.Skip(Min(o1.chars, o2.chars));
    }
    op1, op2, opOut := SlicerZipper(o1, o2, r1, r2, b1, b2);
    BankParts(b1, BankStep1(o1, o2, opOut));
    BankParts(b2, BankStep2(o2, opOut));
    text := "";
    if opOut.opcode == Insert {
      if op2code == Insert {
        text := bankIter2.Take(opOut.chars);
      } else {
        text := bankIter1.Take(opOut.chars);
      }
    }
  }

  // One turn of the loop: load the current ops and zip them.
  method ComposeNext(o1: Op, o2: Op, iter1: OpIterator, iter2: OpIterator,
                     bankIter1: StringIterator, bankIter2: StringIterator)
    returns (op1: Op, op2: Op, opOut: Op, text: string)
    requires iter1 != iter2 && bankIter1 != bankIter2
    requires iter1.Valid() && iter2.Valid() && bankIter1.Valid() && bankIter2.Valid()
    requires Ahead(o1, iter1.Rest(), bankIter1.Rest()) && Ahead(o2, iter2.Rest(), bankIter2.Rest())
    requires o1.opcode != NoOp || iter1.HasNext() || o2.opcode != NoOp || iter2.HasNext()
    modifies iter1, iter2, bankIter1, bankIter2
    ensures iter1.Valid() && iter2.Valid() && bankIter1.Valid() && bankIter2.Valid()
    ensures Ahead(op1, iter1.Rest(), bankIter1.Rest()) && Ahead(op2, iter2.Rest(), bankIter2.Rest())
    ensures |Live(op1)| + |iter1.Rest()| + |Live(op2)| + |iter2.Rest()|
          < |Live(o1)| + |old(iter1.Rest())| + |Live(o2)| + |old(iter2.Rest())|
    ensures ComposeRaw(Live(o1) + old(iter1.Rest()), old(bankIter1.Rest()), Live(o2) + old(iter2.Rest()),
        old(bankIter2.Rest()))
         == Emission(opOut, text,
             ComposeRaw(Live(op1) + iter1.Rest(), bankIter1.Rest(), Live(op2) + iter2.Rest(), bankIter2.Rest()))
  {
    hide ComposeRaw, BankTotal, Emission, AllParsed, OpIterator.Rest, StringIterator.Rest;
    op1 := Load(o1, iter1, bankIter1.Rest());
    op2 := Load(o2, iter2, bankIter2.Rest());
    op1, op2, opOut, text := ComposeStep(op1, op2, bankIter1, bankIter2, iter1.Rest(), iter2.Rest());
  }

  method ComposeChangesets(c1: Changeset, c2: Changeset, ghost t1: string, ghost t2: string)
    returns (r: Result<Changeset>)
    requires IsFor(c1, t1) && IsFor(c2, t2)
    requires c1.newLen == c2.oldLen ==> t2 == TextAfter(c1, t1)
    ensures r == if c1.newLen == c2.oldLen then Success(Compose(c1, c2)) else Failure("mismatched composition")
  {
    hide Fits, Apply, Normal, Safe, ComposeRaw, ApplyText, SmartOpAssembler.Valid, SmartOpAssembler.Open, BankTotal,
         Written, Emission,
         IsFor, LengthChange, Ahead, AllParsed, OpIterator.Rest, StringIterator.Rest, OpIterator.Valid,
             StringIterator.Valid;
    if c1.newLen != c2.oldLen {
      return Failure("mismatched composition");
    }
    ghost var all := ComposeRaw(c1.ops, c1.bank, c2.ops, c2.bank);
    ComposedParsed(c1, c2, t1);
    var iter1 := new OpIterator(c1.ops);
    var iter2 := new OpIterator(c2.ops);
    var bankIter1 := new StringIterator(c1.bank);
    var bankIter2 := new StringIterator(c2.bank);
    var assem := new SmartOpAssembler();
    var op1, op2, opOut := CLEAR, CLEAR, CLEAR;
    var bankAssem := "";
    WrittenNothing(all);
    NoOpsInFront(c1.ops);
    NoOpsInFront(c2.ops);
    StartAhead(c1.ops, c1.bank);
    StartAhead(c2.ops, c2.bank);
    while op1.opcode != NoOp || iter1.HasNext() || op2.opcode != NoOp || iter2.HasNext()
      invariant iter1.Valid() && iter2.Valid() && bankIter1.Valid() && bankIter2.Valid()
      invariant assem.Open() && fresh(assem.repr)
      invariant Ahead(op1, iter1.Rest(), bankIter1.Rest()) && Ahead(op2, iter2.Rest(), bankIter2.Rest())
      invariant Written(all, assem.raw, bankAssem,
                        ComposeRaw(Live(op1) + iter1.Rest(), bankIter1.Rest(), Live(op2) + iter2.Rest(),
                            bankIter2.Rest()))
      decreases |Live(op1)| + |iter1.Rest()| + |Live(op2)| + |iter2.Rest()|
    {
      var text;
      op1, op2, opOut, text := ComposeNext(op1, op2, iter1, iter2, bankIter1, bankIter2);
      WriteNext(all, assem.raw, bankAssem, opOut, text,
                ComposeRaw(Live(op1) + iter1.Rest(), bankIter1.Rest(), Live(op2) + iter2.Rest(), bankIter2.Rest()));
      if opOut.opcode != NoOp {
        bankAssem := bankAssem + text;
        assem.Append(opOut);
      }
    }
    assert Live(op1) + iter1.Rest() == [] && Live(op2) + iter2.Rest() == [];
    NothingAhead(bankIter1.Rest(), bankIter2.Rest(), all, assem.raw, bankAssem);
    assem.EndDocument();
    var newOps := assem.ToString();
    r := Success(Changeset(c1.oldLen, c2.newLen, newOps, bankAssem));
  }

  lemma ComposedParsed(c1: Changeset, c2: Changeset, t: string)
    requires IsFor(c1, t) && IsFor(c2, TextAfter(c1, t))
    ensures AllParsed(ComposeRaw(c1.ops, c1.bank, c2.ops, c2.bank).ops)
    ensures AllParsed(c1.ops) && AllParsed(c2.ops)
    ensures BankTotal(c1.ops) == |c1.bank| && BankTotal(c2.ops) == |c2.bank|
  {
    hide Fits, Apply, Normal, Safe, ComposeRaw, ApplyText;
    var u := Untouched(t);
    TextOfUntouched(t);
    ComposeOn(c1, c2, t, u);
    var all := ComposeRaw(c1.ops, c1.bank, c2.ops, c2.bank);
    FitsParsed(all.ops, all.bank, u);
    FitsParsed(c1.ops, c1.bank, u);
    FitsParsed(c2.ops, c2.bank, After(c1, u));
  }

  lemma {:induction false} BankTotalNonNegative(ops: seq<Op>)
    requires AllParsed(ops)
    ensures BankTotal(ops) >= 0
  {
    if ops != [] {
      assert Parsed(ops[0]);
      assert AllParsed(ops[1..]);
      BankTotalNonNegative(ops[1..]);
    }
  }

  lemma StartAhead(ops: seq<Op>, bank: string)
    requires AllParsed(ops) && BankTotal(ops) == |bank|
    ensures Ahead(CLEAR, ops, bank)
  {}

  lemma WrittenNothing(all: Raw)
    ensures Written(all, [], "", all)
  {
    assert [] + all.ops == all.ops && "" + all.bank == all.bank;
  }

  lemma NothingAhead(ba: string, bb: string, all: Raw, raw: seq<Op>, bank: string)
    requires Written(all, raw, bank, ComposeRaw([], ba, [], bb))
    ensures all == Raw(raw, bank)
  {
    assert raw + [] == raw && bank + "" == bank;
  }
}
