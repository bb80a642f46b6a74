/** The loop behind `follow`. */
module FollowEngine {
  import opened Attributes
  import opened AttributeMerging
  import opened Changesets
  import opened Composition
  import opened Following
  import opened NormalForm
  import opened Views
  import opened Algebra
  import opened Laws
  import opened SmartAssembler
  import opened Iterators
  import opened Zipping
  import opened Engine

  predicate HasInsertFirst(a: Attribs) { INSERT_FIRST in a }

  // The part of the two banks a step uses: an insertion is skipped whole.
  ghost function SkipFirst(o1: Op, op1: Op, bank: string): string {
    if o1.opcode == Insert && op1.opcode == NoOp then Drop(bank, o1.chars) else bank
  }

  ghost predicate FollowStepOk(o1: Op, r1: seq<Op>, ba: string, o2: Op, r2: seq<Op>, bb: string, reverse: bool,
                               op1: Op, op2: Op, out: Op)
  {
    && FollowRaw(Live(o1) + r1, ba, Live(o2) + r2, bb, reverse)
       == Live(out) + FollowRaw(Live(op1) + r1, SkipFirst(o1, op1, ba), Live(op2) + r2, SkipFirst(o2, op2, bb), reverse)
    && |Live(op1)| + |Live(op2)| < |Live(o1)| + |Live(o2)|
    && (op1.opcode != NoOp ==> op1.opcode == o1.opcode && 0 < op1.chars && (o1.opcode == Insert ==> op1 == o1))
    && (op2.opcode != NoOp ==> op2.opcode == o2.opcode && 0 < op2.chars && (o2.opcode == Insert ==> op2 == o2))
  }

  ghost predicate Steppable(o1: Op, r1: seq<Op>, o2: Op, r2: seq<Op>) {
    && (o1.opcode == NoOp ==> r1 == []) && (o2.opcode == NoOp ==> r2 == [])
    && (o1.opcode != NoOp || o2.opcode != NoOp)
    && (o1.opcode != NoOp ==> 0 < o1.chars) && (o2.opcode != NoOp ==> 0 < o2.chars)
  }

  lemma Heads(o1: Op, r1: seq<Op>)
    ensures o1.opcode != NoOp ==> (Live(o1) + r1)[0] == o1 && (Live(o1) + r1)[1..] == r1
    ensures o1.opcode == NoOp ==> Live(o1) + r1 == r1
    ensures Inserting(Live(o1) + r1) ==> o1.opcode != NoOp || r1 != []
  {}

  lemma InsertStepOk(o1: Op, r1: seq<Op>, ba: string, o2: Op, r2: seq<Op>, bb: string, reverse: bool)
    requires Steppable(o1, r1, o2, r2) && (o1.opcode == Insert || o2.opcode == Insert)
    ensures var first := o1.opcode == Insert && (o2.opcode == Insert ==> FirstGoesFirst(o1, ba, o2, bb, reverse));
            if first then FollowStepOk(o1, r1, ba, o2, r2, bb, reverse, o1.(opcode := NoOp), o2,
                Op(Keep, o1.chars, o1.lines, []))
            else FollowStepOk(o1, r1, ba, o2, r2, bb, reverse, o1, o2.(opcode := NoOp), o2)
  {
    hide FirstGoesFirst, Chop;
    Heads(o1, r1);
    Heads(o2, r2);
    NoOpsInFront(r1);
    NoOpsInFront(r2);
  }

  // Ops that touch the old text, when one side has nothing left.
  lemma TailStepOk(o1: Op, r1: seq<Op>, ba: string, o2: Op, r2: seq<Op>, bb: string, reverse: bool)
    requires Steppable(o1, r1, o2, r2) && o1.opcode != Insert && o2.opcode != Insert
    requires o1.opcode == NoOp || o2.opcode == NoOp
    ensures o1.opcode == NoOp ==> FollowStepOk(o1, r1, ba, o2, r2, bb, reverse, o1, o2.(opcode := NoOp), o2)
    ensures o2.opcode == NoOp ==>
              FollowStepOk(o1, r1, ba, o2, r2, bb, reverse, o1.(opcode := NoOp), o2, if o1.opcode == Delete then CLEAR
                  else o1)
  {
    hide Chop;
    Heads(o1, r1);
    Heads(o2, r2);
    NoOpsInFront(r1);
    NoOpsInFront(r2);
    NoOpsInFront(FollowRaw(r1, ba, [], bb, reverse));
  }

  function Shrink(o: Op, cut: Op): Op {
    if o.chars == cut.chars then o.(chars := 0, lines := o.lines - cut.lines, opcode := NoOp)
    else o.(chars := o.chars - cut.chars, lines := o.lines - cut.lines)
  }

  // The shorter of two ops, and how much of the other is left.
  lemma ChopShrink(o: Op, r: seq<Op>, cut: Op)
    requires o.opcode != NoOp
    ensures Chop(Live(o) + r, cut.chars, cut.lines) == Live(Shrink(o, cut)) + r
    ensures cut == o ==> Chop(Live(o) + r, cut.chars, cut.lines) == Live(o.(opcode := NoOp)) + r
  {
    hide Chop;
    ChopLive(o, r, cut.chars, cut.lines);
    NoOpsInFront(r);
  }

  ghost predicate ByFirst(o1: Op, o2: Op) {
    if o1.opcode == Keep && o2.opcode == Delete then o1.chars < o2.chars else o1.chars <= o2.chars
  }

  ghost function OverlapOut(o1: Op, o2: Op, cut: Op): Op {
    if o1.opcode == Delete then CLEAR
    else if o2.opcode == Delete then Part(o2, cut.chars, cut.lines)
    else Op(Keep, cut.chars, cut.lines, FollowAttributes(o1.attribs, o2.attribs))
  }

  lemma OverlapRaw(o1: Op, r1: seq<Op>, ba: string, o2: Op, r2: seq<Op>, bb: string, reverse: bool)
    requires (o1.opcode == Keep || o1.opcode == Delete) && (o2.opcode == Keep || o2.opcode == Delete)
    ensures var cut := if ByFirst(o1, o2) then o1 else o2;
            FollowRaw(Live(o1) + r1, ba, Live(o2) + r2, bb, reverse)
            == Live(OverlapOut(o1, o2, cut))
               + FollowRaw(Chop(Live(o1) + r1, cut.chars, cut.lines), ba, Chop(Live(o2) + r2, cut.chars, cut.lines),
                   bb, reverse)
  {
    hide FollowAttributes, FollowRaw, Chop;
    var cut := if ByFirst(o1, o2) then o1 else o2;
    Heads(o1, r1);
    Heads(o2, r2);
    FollowRawOverlap(Live(o1) + r1, ba, Live(o2) + r2, bb, reverse, cut.chars, cut.lines);
  }

  lemma OverlapStepOk(o1: Op, r1: seq<Op>, ba: string, o2: Op, r2: seq<Op>, bb: string, reverse: bool)
    requires Steppable(o1, r1, o2, r2)
    requires (o1.opcode == Keep || o1.opcode == Delete) && (o2.opcode == Keep || o2.opcode == Delete)
    ensures if ByFirst(o1, o2)
            then FollowStepOk(o1, r1, ba, o2, r2, bb, reverse, o1.(opcode := NoOp), Shrink(o2, o1),
                OverlapOut(o1, o2, o1))
            else FollowStepOk(o1, r1, ba, o2, r2, bb, reverse, Shrink(o1, o2), o2.(opcode := NoOp),
                OverlapOut(o1, o2, o2))
  {
    hide FollowRaw, Chop, OverlapOut;
    OverlapRaw(o1, r1, ba, o2, r2, bb, reverse);
    if ByFirst(o1, o2) {
      ChopShrink(o1, r1, o1);
      ChopShrink(o2, r2, o1);
    } else {
      ChopShrink(o1, r1, o2);
      ChopShrink(o2, r2, o2);
    }
  }

  method FollowStep(o1: Op, o2: Op, chars1: StringIterator, chars2: StringIterator, reverseInsertOrder: bool,
                    ghost r1: seq<Op>, ghost r2: seq<Op>)
    returns (op1: Op, op2: Op, opOut: Op)
    requires chars1 != chars2 && chars1.Valid() && chars2.Valid() && Steppable(o1, r1, o2, r2)
    requires 0 <= BankUse(o1) <= |chars1.Rest()| && 0 <= BankUse(o2) <= |chars2.Rest()|
    modifies chars1, chars2
    ensures chars1.Valid() && chars2.Valid()
    ensures FollowStepOk(o1, r1, old(chars1.Rest()), o2, r2, old(chars2.Rest()), reverseInsertOrder, op1, op2, opOut)
    ensures chars1.Rest() == SkipFirst(o1, op1, old(chars1.Rest()))
    ensures chars2.Rest() == SkipFirst(o2, op2, old(chars2.Rest()))
  {
    hide FollowStepOk, StringIterator.Rest, FollowAttributes;
    ghost var ba, bb := chars1.Rest(), chars2.Rest();
    BankParts(ba, BankUse(o1));
    BankParts(bb, BankUse(o2));
    op1, op2, opOut := o1, o2, CLEAR;
    if op1.opcode == Insert || op2.opcode == Insert {
      InsertStepOk(o1, r1, ba, o2, r2, bb, reverseInsertOrder);
      var whichToDo := 0;
      if op2.opcode != Insert {
        whichToDo := 1;
      } else if op1.opcode != Insert {
        whichToDo := 2;
      } else {
        var firstChar1 := chars1.Peek(1);
        var firstChar2 := chars2.Peek(1);
        var insertFirst1 := HasInsertFirst(op1.attribs);
        var insertFirst2 := HasInsertFirst(op2.attribs);
        if insertFirst1 && !insertFirst2 {
          whichToDo := 1;
        } else if insertFirst2 && !insertFirst1 {
          whichToDo := 2;
        } else if firstChar1[0] == '\n' && firstChar2[0] != '\n' {
          whichToDo := 2;
        } else if firstChar1[0] != '\n' && firstChar2[0] == '\n' {
          whichToDo := 1;
        } else if reverseInsertOrder {
          whichToDo := 2;
        } else {
          whichToDo := 1;
        }
      }
      if whichToDo == 1 {
        chars1.Skip(op1.chars);
        opOut := Op(Keep, op1.chars, op1.lines, []);
        op1 := op1.(opcode := NoOp);
      } else {
        chars2.Skip(op2.chars);
        opOut := op2;
        op2 := op2.(opcode := NoOp);
      }
    } else if op1.opcode == Delete {
      if op2.opcode == NoOp {
        TailStepOk(o1, r1, ba, o2, r2, bb, reverseInsertOrder);
        op1 := op1.(opcode := NoOp);
      } else {
        OverlapStepOk(o1, r1, ba, o2, r2, bb, reverseInsertOrder);
        if op1.chars <= op2.chars {
          op2 := op2.(chars := op2.chars - op1.chars, lines := op2.lines - op1.lines);
          op1 := op1.(opcode := NoOp);
          if op2.chars == 0 { op2 := op2.(opcode := NoOp); }
        } else {
          op1 := op1.(chars := op1.chars - op2.chars, lines := op1.lines - op2.lines);
          op2 := op2.(opcode := NoOp);
        }
      }
    } else if op2.opcode == Delete {
      opOut := op2;
      if op1.opcode == NoOp {
        TailStepOk(o1, r1, ba, o2, r2, bb, reverseInsertOrder);
        op2 := op2.(opcode := NoOp);
      } else {
        OverlapStepOk(o1, r1, ba, o2, r2, bb, reverseInsertOrder);
        if op2.chars <= op1.chars {
          // delete part or all of a keep
          op1 := op1.(chars := op1.chars - op2.chars, lines := op1.lines - op2.lines);
          op2 := op2.(opcode := NoOp);
          if op1.chars == 0 { op1 := op1.(opcode := NoOp); }
        } else {
          // delete all of a keep, and keep going
          opOut := opOut.(lines := op1.lines, chars := op1.chars);
          op2 := op2.(lines := op2.lines - op1.lines, chars := op2.chars - op1.chars);
          op1 := op1.(opcode := NoOp);
        }
      }
    } else if op1.opcode == NoOp {
      TailStepOk(o1, r1, ba, o2, r2, bb, reverseInsertOrder);
      opOut := op2;
      op2 := op2.(opcode := NoOp);
    } else if op2.opcode == NoOp {
      TailStepOk(o1, r1, ba, o2, r2, bb, reverseInsertOrder);
      opOut := op1;
      op1 := op1.(opcode := NoOp);
    } else {
      // both keeps
      OverlapStepOk(o1, r1, ba, o2, r2, bb, reverseInsertOrder);
      var both := MergeFollow(op1.attribs, op2.attribs);
      if op1.chars <= op2.chars {
        opOut := Op(Keep, op1.chars, op1.lines, both);
        op2 := op2.(chars := op2.chars - op1.chars, lines := op2.lines - op1.lines);
        op1 := op1.(opcode := NoOp);
        if op2.chars == 0 { op2 := op2.(opcode := NoOp); }
      } else {
        opOut := Op(Keep, op2.chars, op2.lines, both);
        op1 := op1.(chars := op1.chars - op2.chars, lines := op1.lines - op2.lines);
        op2 := op2.(opcode := NoOp);
      }
    }
  }

  // One turn of the loop: load the current ops and merge them.
  method FollowNext(o1: Op, o2: Op, iter1: OpIterator, iter2: OpIterator,
                    chars1: StringIterator, chars2: StringIterator, reverseInsertOrder: bool)
    returns (op1: Op, op2: Op, opOut: Op)
    requires iter1 != iter2 && chars1 != chars2
    requires iter1.Valid() && iter2.Valid() && chars1.Valid() && chars2.Valid()
    requires Ahead(o1, iter1.Rest(), chars1.Rest()) && Ahead(o2, iter2.Rest(), chars2.Rest())
    requires o1.opcode != NoOp || iter1.HasNext() || o2.opcode != NoOp || iter2.HasNext()
    modifies iter1, iter2, chars1, chars2
    ensures iter1.Valid() && iter2.Valid() && chars1.Valid() && chars2.Valid()
    ensures Ahead(op1, iter1.Rest(), chars1.Rest()) && Ahead(op2, iter2.Rest(), chars2.Rest())
    ensures |Live(op1)| + |iter1.Rest()| + |Live(op2)| + |iter2.Rest()|
          < |Live(o1)| + |old(iter1.Rest())| + |Live(o2)| + |old(iter2.Rest())|
    ensures FollowRaw(Live(o1) + old(iter1.Rest()), old(chars1.Rest()), Live(o2) + old(iter2.Rest()),
        old(chars2.Rest()),
                      reverseInsertOrder)
         == Live(opOut) + FollowRaw(Live(op1) + iter1.Rest(), chars1.Rest(), Live(op2) + iter2.Rest(), chars2.Rest(),
                                    reverseInsertOrder)
  {
    hide FollowRaw, BankTotal, AllParsed, OpIterator.Rest, StringIterator.Rest;
    op1 := Load(o1, iter1, chars1.Rest());
    op2 := Load(o2, iter2, chars2.Rest());
    op1, op2, opOut := FollowStep(op1, op2, chars1, chars2, reverseInsertOrder, iter1.Rest(), iter2.Rest());
  }

  lemma OutNext(all: seq<Op>, raw: seq<Op>, out: Op, rest: seq<Op>)
    requires all == raw + (Live(out) + rest) && AllParsed(all)
    ensures out.opcode != NoOp ==> Parsed(out) && all == raw + [out] + rest
    ensures out.opcode == NoOp ==> all == raw + rest
  {
    if out.opcode != NoOp {
      assert all[|raw|] == out;
    } else {
      NoOpsInFront(rest);
    }
  }

  // Where the loop is: what it has given, and what is to come of the two streams.
  ghost predicate Under(all: seq<Op>, raw: seq<Op>, op1: Op, op2: Op, iter1: OpIterator, iter2: OpIterator,
                        chars1: StringIterator, chars2: StringIterator, reverse: bool)
    reads iter1, iter2, chars1, chars2
  {
    && iter1.Valid() && iter2.Valid() && chars1.Valid() && chars2.Valid()
    && Ahead(op1, iter1.Rest(), chars1.Rest()) && Ahead(op2, iter2.Rest(), chars2.Rest())
    && all == raw + FollowRaw(Live(op1) + iter1.Rest(), chars1.Rest(), Live(op2) + iter2.Rest(), chars2.Rest(), reverse)
  }

  ghost function ToDo(op1: Op, op2: Op, iter1: OpIterator, iter2: OpIterator): nat
    reads iter1, iter2
  {
    if iter1.Valid() && iter2.Valid() then |Live(op1)| + |iter1.Rest()| + |Live(op2)| + |iter2.Rest()| else 0
  }

  lemma UnderIsValid(all: seq<Op>, raw: seq<Op>, op1: Op, op2: Op, iter1: OpIterator, iter2: OpIterator,
                     chars1: StringIterator, chars2: StringIterator, reverse: bool)
    requires Under(all, raw, op1, op2, iter1, iter2, chars1, chars2, reverse)
    ensures iter1.Valid() && iter2.Valid()
    ensures op1.opcode == NoOp && !iter1.HasNext() && op2.opcode == NoOp && !iter2.HasNext() ==> all == raw
  {
    hide FollowRaw, Ahead, OpIterator.Rest, StringIterator.Rest, OpIterator.Valid, StringIterator.Valid;
    if op1.opcode == NoOp && !iter1.HasNext() && op2.opcode == NoOp && !iter2.HasNext() {
      NoOpsInFront(iter1.Rest());
      NoOpsInFront(iter2.Rest());
      FollowRawEmpty(chars1.Rest(), chars2.Rest(), reverse);
      assert raw + [] == raw;
    }
  }

  lemma StartsUnder(c1: Changeset, c2: Changeset, reverse: bool, iter1: OpIterator, iter2: OpIterator,
                    chars1: StringIterator, chars2: StringIterator)
    requires iter1.Valid() && iter2.Valid() && chars1.Valid() && chars2.Valid()
    requires iter1.Rest() == c1.ops && iter2.Rest() == c2.ops && chars1.Rest() == c1.bank && chars2.Rest() == c2.bank
    requires Ahead(CLEAR, c1.ops, c1.bank) && Ahead(CLEAR, c2.ops, c2.bank)
    ensures Under(FollowRaw(c1.ops, c1.bank, c2.ops, c2.bank, reverse), [], CLEAR, CLEAR,
                  iter1, iter2, chars1, chars2, reverse)
  {
    hide FollowRaw, Ahead, OpIterator.Rest, StringIterator.Rest, OpIterator.Valid, StringIterator.Valid;
    NoOpsInFront(c1.ops);
    NoOpsInFront(c2.ops);
    NoOpsInFront(FollowRaw(c1.ops, c1.bank, c2.ops, c2.bank, reverse));
  }

  // The op a turn gives goes to the assembler, and into the lengths.
  method PutOut(assem: SmartOpAssembler, opOut: Op, pos: int, length: int, ghost all: seq<Op>, ghost rest: seq<Op>)
    returns (oldPos: int, newLen: int)
    requires assem.Open() && all == assem.raw + (Live(opOut) + rest) && AllParsed(all)
    requires length - pos == LengthChange(assem.raw)
    modifies assem.repr
    ensures assem.Open() && all == assem.raw + rest && newLen - oldPos == LengthChange(assem.raw)
  {
    hide SmartOpAssembler.Valid, SmartOpAssembler.Open, LengthChange, AllParsed;
    oldPos, newLen := pos, length;
    OutNext(all, assem.raw, opOut, rest);
    LengthSnoc(assem.raw, opOut);
    match opOut.opcode {
      case Keep =>
        oldPos := oldPos + opOut.chars;
        newLen := newLen + opOut.chars;
      case Delete => oldPos := oldPos + opOut.chars;
      case Insert => newLen := newLen + opOut.chars;
      case NoOp =>
    }
    if opOut.opcode != NoOp {
      assem.Append(opOut);
    }
  }

  method FollowTurn(o1: Op, o2: Op, iter1: OpIterator, iter2: OpIterator, chars1: StringIterator,
      chars2: StringIterator,
                    reverseInsertOrder: bool, assem: SmartOpAssembler, pos: int, length: int, ghost all: seq<Op>)
    returns (op1: Op, op2: Op, oldPos: int, newLen: int)
    requires iter1 != iter2 && chars1 != chars2 && {iter1, iter2, chars1, chars2} !! assem.repr
    requires Under(all, assem.raw, o1, o2, iter1, iter2, chars1, chars2, reverseInsertOrder)
    requires o1.opcode != NoOp || iter1.HasNext() || o2.opcode != NoOp || iter2.HasNext()
    requires assem.Open() && AllParsed(all) && length - pos == LengthChange(assem.raw)
    modifies iter1, iter2, chars1, chars2, assem.repr
    ensures Under(all, assem.raw, op1, op2, iter1, iter2, chars1, chars2, reverseInsertOrder)
    ensures assem.Open() && newLen - oldPos == LengthChange(assem.raw)
    ensures ToDo(op1, op2, iter1, iter2) < old(ToDo(o1, o2, iter1, iter2))
  {
    hide FollowRaw, Ahead, AllParsed, SmartOpAssembler.Valid, SmartOpAssembler.Open, LengthChange,
         OpIterator.Rest, StringIterator.Rest, OpIterator.Valid, StringIterator.Valid;
    var opOut;
    op1, op2, opOut := FollowNext(o1, o2, iter1, iter2, chars1, chars2, reverseInsertOrder);
    ghost var rest := FollowRaw(Live(op1) + iter1.Rest(), chars1.Rest(), Live(op2) + iter2.Rest(), chars2.Rest(),
                                reverseInsertOrder);
    oldPos, newLen := PutOut(assem, opOut, pos, length, all, rest);
  }

  lemma FollowParsed(c1: Changeset, c2: Changeset, reverse: bool, t: string)
    requires IsFor(c1, t) && IsFor(c2, t)
    ensures AllParsed(FollowRaw(c1.ops, c1.bank, c2.ops, c2.bank, reverse))
    ensures Ahead(CLEAR, c1.ops, c1.bank) && Ahead(CLEAR, c2.ops, c2.bank)
  {
    hide Fits, Apply, Normal, Safe, FollowRaw, ApplyText;
    var u := Untouched(t);
    TextOfUntouched(t);
    OnDocument(c1, t, u);
    OnDocument(c2, t, u);
    FollowConverges(c1.ops, c1.bank, c2.ops, c2.bank, reverse, u);
    FitsParsed(FollowRaw(c1.ops, c1.bank, c2.ops, c2.bank, reverse), c2.bank, After(c1, u));
    FitsParsed(c1.ops, c1.bank, u);
    FitsParsed(c2.ops, c2.bank, u);
  }

  method Finished(assem: SmartOpAssembler) returns (ops: seq<Op>)
    requires assem.Open()
    modifies assem.repr
    ensures ops == Normal(old(assem.raw), true)
  {
    hide Normal, Safe, LengthChange;
    assem.EndDocument();
    ops := assem.ToString();
  }

  lemma FollowIs(c1: Changeset, c2: Changeset, reverse: bool)
    ensures var all := FollowRaw(c1.ops, c1.bank, c2.ops, c2.bank, reverse);
            Follow(c1, c2, reverse) == Changeset(c1.newLen, c1.newLen + LengthChange(all), Normal(all, true), c2.bank)
  {
    hide FollowRaw, Normal, LengthChange;
  }

  method FollowChangesets(c1: Changeset, c2: Changeset, reverseInsertOrder: bool, ghost t1: string, ghost t2: string)
    returns (r: Result<Changeset>)
    requires IsFor(c1, t1) && IsFor(c2, t2)
    requires c1.oldLen == c2.oldLen ==> t1 == t2
    ensures r == if c1.oldLen == c2.oldLen then Success(Follow(c1, c2, reverseInsertOrder))
        else Failure("mismatched follow")
  {
    hide Fits, Apply, Normal, Safe, FollowRaw, ApplyText, SmartOpAssembler.Valid, SmartOpAssembler.Open, BankTotal,
         IsFor, LengthChange, Ahead, AllParsed, OpIterator.Rest, StringIterator.Rest, OpIterator.Valid,
         StringIterator.Valid, Under, ToDo, Follow, Normal;
    FollowIs(c1, c2, reverseInsertOrder);
    if c1.oldLen != c2.oldLen {
      return Failure("mismatched follow");
    }
    ghost var all := FollowRaw(c1.ops, c1.bank, c2.ops, c2.bank, reverseInsertOrder);
    FollowParsed(c1, c2, reverseInsertOrder, t1);
    var iter1 := new OpIterator(c1.ops);
    var iter2 := new OpIterator(c2.ops);
    var chars1 := new StringIterator(c1.bank);
    var chars2 := new StringIterator(c2.bank);
    var assem := new SmartOpAssembler();
    var op1, op2, opOut := CLEAR, CLEAR, CLEAR;
    var oldLen, oldPos, newLen := c1.newLen, 0, 0;
    StartsUnder(c1, c2, reverseInsertOrder, iter1, iter2, chars1, chars2);
    SafeEmpty(0);
    UnderIsValid(all, assem.raw, op1, op2, iter1, iter2, chars1, chars2, reverseInsertOrder);
    while op1.opcode != NoOp || iter1.HasNext() || op2.opcode != NoOp || iter2.HasNext()
      invariant assem.Open() && fresh(assem.repr) && iter1.Valid() && iter2.Valid()
      invariant Under(all, assem.raw, op1, op2, iter1, iter2, chars1, chars2, reverseInsertOrder)
      invariant newLen - oldPos == LengthChange(assem.raw)
      decreases ToDo(op1, op2, iter1, iter2)
    {
      op1, op2, oldPos, newLen :=
        FollowTurn(op1, op2, iter1, iter2, chars1, chars2, reverseInsertOrder, assem, oldPos, newLen, all);
      UnderIsValid(all, assem.raw, op1, op2, iter1, iter2, chars1, chars2, reverseInsertOrder);
    }
    UnderIsValid(all, assem.raw, op1, op2, iter1, iter2, chars1, chars2, reverseInsertOrder);
    newLen := newLen + (oldLen - oldPos);
    var newOps := Finished(assem);
    r := Success(Changeset(c1.newLen, newLen, newOps, c2.bank));
  }
}
