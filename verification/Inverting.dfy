/** `inverse`: the changeset that takes a document back to what it was. */
module Inverting {
  import opened Attributes
  import opened AttributeMerging
  import opened Changesets
  import opened Composition
  import opened NormalForm
  import opened Views
  import opened Algebra
  import opened Laws
  import opened SmartAssembler
  import opened Iterators
  import opened Zipping
  import opened Engine
  import opened Building
  import opened Covering
  import opened Inversion
  import opened InversionSteps
  import opened DocLines
  import opened InverseCursor

  // ---------- attributes

  method AttribsAttributeValue(attribs: Attribs, key: Key) returns (value: string)
    ensures value == ValueIn(MapOf(attribs), key)
  {
    value := "";
    assert attribs[..0] == [];
    for i := 0 to |attribs|
      invariant value == ValueIn(MapOf(attribs[..i]), key)
    {
      MapOfPrefix(attribs, i);
      if attribs[i].key == key {
        value := attribs[i].value;
      }
    }
    assert attribs[..|attribs|] == attribs;
  }

  lemma UndoMapNext(x: AttribMap, a: AttribMap, p: Pair)
    requires p.key !in a
    ensures UndoMap(x, a[p.key := p.value])
         == if p.value != ValueIn(x, p.key) then UndoMap(x, a)[p.key := ValueIn(x, p.key)] else UndoMap(x, a)
  {}

  lemma NotUndone(back: seq<Pair>, x: AttribMap, a: AttribMap, k: Key)
    requires DistinctKeys(back) && MapOf(back) == UndoMap(x, a) && k !in a
    ensures forall i :: 0 <= i < |back| ==> back[i].key != k
  {
    MapOfHas(back);
    forall i | 0 <= i < |back| ensures back[i].key != k {
      assert back[i] in back && Binds(MapOf(back), back[i]);
    }
  }

  method UndoBackToAttribs(applied: Attribs, attribs: Attribs) returns (r: Attribs)
    ensures r == UndoAttributes(attribs, applied)
  {
    hide MapOf, UndoMap, Sort;
    var backAttribs := [];
    ghost var x := MapOf(attribs);
    NothingToUndo(x, applied);
    for i := 0 to |applied|
      invariant DistinctKeys(backAttribs) && MapOf(backAttribs) == UndoMap(x, MapOf(applied[..i]))
    {
      ghost var a := MapOf(applied[..i]);
      MapOfPrefix(applied, i);
      KeysAhead(applied, i);
      UndoMapNext(x, a, applied[i]);
      var oldValue := AttribsAttributeValue(attribs, applied[i].key);
      if applied[i].value != oldValue {
        NotUndone(backAttribs, x, a, applied[i].key);
        MapOfSnoc(backAttribs, Pair(applied[i].key, oldValue));
        backAttribs := backAttribs + [Pair(applied[i].key, oldValue)];
      }
    }
    assert applied[..|applied|] == applied;
    SortCorrect(backAttribs);
    r := Sort(backAttribs);
    ListingOfMap(r);
  }

  lemma NothingToUndo(x: AttribMap, applied: Attribs)
    ensures DistinctKeys([]) && MapOf([]) == UndoMap(x, MapOf(applied[..0]))
  {}

  // ---------- one op of the changeset

  lemma KeepOpsNext(runs: seq<Run>, i: nat, a: Attribs)
    requires i < |runs|
    ensures KeepOps(runs[..i + 1], a) == KeepOps(runs[..i], a) + [KeepOp(runs[i], a)]
  {
    hide KeepOp;
    KeepOpsSnoc(runs[..i], runs[i], a);
    assert runs[..i + 1] == runs[..i] + [runs[i]];
  }

  lemma {:induction false} KeepOpsSnoc(runs: seq<Run>, r: Run, a: Attribs)
    ensures KeepOps(runs + [r], a) == KeepOps(runs, a) + [KeepOp(r, a)]
  {
    hide KeepOp;
    if runs == [] {
      assert runs + [r] == [r] && [r][1..] == [];
    } else {
      KeepOpsSnoc(runs[1..], r, a);
      assert (runs + [r])[1..] == runs[1..] + [r];
    }
  }

  // Keeps the characters, each run with the attributes that undo `applied`.
  method KeepBack(builder: Builder, runs: seq<Run>, applied: Attribs, ghost d: Doc)
    requires builder.Valid() && AreRuns(runs, d)
    modifies builder.assem.repr
    ensures builder.Valid() && builder.charBank == old(builder.charBank)
    ensures builder.Ops() == old(builder.Ops()) + KeepOps(runs, applied)
  {
    hide Builder.Valid, IsRun, KeepOp, AreRuns;
    ghost var before := builder.Ops();
    assert runs[..0] == [] && before + [] == before;
    for i := 0 to |runs|
      invariant builder.Valid() && builder.charBank == old(builder.charBank)
      invariant builder.Ops() == before + KeepOps(runs[..i], applied)
    {
      RunAt(runs, d, i);
      KeepOpsNext(runs, i, applied);
      var back := UndoBackToAttribs(applied, runs[i].attribs);
      KeepOpIs(runs[i], applied);
      Regroup(before, KeepOps(runs[..i], applied), [KeepOp(runs[i], applied)]);
      builder.Keep(runs[i].len, if runs[i].endsLine then 1 else 0, back);
    }
    assert runs[..|runs|] == runs;
  }

  lemma KeepOpIs(r: Run, a: Attribs)
    requires 0 < r.len
    ensures Counted(Op(Keep, r.len, if r.endsLine then 1 else 0, UndoAttributes(r.attribs, a))) == [KeepOp(r, a)]
  {
    hide UndoAttributes;
  }

  lemma {:induction false} RunAt(runs: seq<Run>, d: Doc, i: nat)
    requires AreRuns(runs, d) && i < |runs|
    ensures 0 < runs[i].len
    decreases i
  {
    hide IsRun;
    RunLength(runs[0], d[..runs[0].len]);
    if i > 0 { RunAt(runs[1..], d[runs[0].len..], i - 1); }
  }

  // Types the characters again, each run with the attributes it had.
  method TypeBack(builder: Builder, runs: seq<Run>, textBank: string, ghost d: Doc)
    requires builder.Valid() && AreRuns(runs, d) && textBank == Text(d)
    modifies builder, builder.assem.repr
    ensures builder.Valid() && builder.charBank == old(builder.charBank) + textBank
    ensures builder.Ops() == old(builder.Ops()) + TypeOps(runs, textBank)
  {
    hide Builder.Valid, IsRun, TextOps, TypeOps, AreRuns, Text;
    ghost var before, all := builder.Ops(), TypeOps(runs, textBank);
    var textBankIndex := 0;
    StartTyping(runs, d, textBank, before, builder.charBank);
    for i := 0 to |runs|
      invariant builder.Valid() && 0 <= textBankIndex <= |d| == |textBank|
      invariant AreRuns(runs[i..], d[textBankIndex..]) && textBank[textBankIndex..] == Text(d[textBankIndex..])
      invariant builder.charBank == old(builder.charBank) + textBank[..textBankIndex]
      invariant before + all == builder.Ops() + TypeOps(runs[i..], textBank[textBankIndex..])
    {
      ghost var was := builder.Ops();
      ghost var k := textBankIndex;
      assert runs[i..][0] == runs[i] && runs[i..][1..] == runs[i + 1..];
      TypeOpsHead(runs[i..], d[k..]);
      RunLength(runs[i], d[k..][..runs[i].len]);
      TypeStep(textBank, d, k, runs[i].len);
      var text := textBank[textBankIndex..textBankIndex + runs[i].len];
      builder.Insert(text, runs[i].attribs);
      textBankIndex := textBankIndex + runs[i].len;
      Regroup(was, TextOps(Insert, text, runs[i].attribs), TypeOps(runs[i + 1..], textBank[textBankIndex..]));
      Regroup(old(builder.charBank), textBank[..k], text);
    }
    DoneTyping(runs, d, textBank, textBankIndex, builder.Ops());
  }

  lemma StartTyping(runs: seq<Run>, d: Doc, text: string, before: seq<Op>, bank: string)
    requires text == Text(d)
    ensures runs[0..] == runs && d[0..] == d && text[0..] == text && bank + text[..0] == bank
  {}

  lemma TypeStep(text: string, d: Doc, i: nat, n: nat)
    requires text == Text(d) && i + n <= |text|
    ensures text[i..][..n] == text[i..i + n] && d[i..][n..] == d[i + n..]
    ensures Text(d[i..][..n]) == text[i..i + n] && Text(d[i + n..]) == text[i + n..]
    ensures text[..i] + text[i..i + n] == text[..i + n]
  {}

  lemma DoneTyping(runs: seq<Run>, d: Doc, text: string, i: nat, ops: seq<Op>)
    requires i <= |d| == |text| && AreRuns(runs[|runs|..], d[i..])
    ensures text[..i] == text && ops + TypeOps(runs[|runs|..], text[i..]) == ops
  {}

  // What one op of the changeset adds to its inverse.
  method InverseOp(op: Op, cursor: Cursor, builder: Builder, ghost bank: string)
    returns (ghost raw: seq<Op>, ghost text: string)
    requires cursor.Valid() && builder.Valid() && OpFits(op, bank, cursor.Rest())
    requires cursor !in builder.assem.repr
    modifies cursor, builder, builder.assem.repr
    ensures cursor.Valid() && builder.Valid()
    ensures builder.Ops() == old(builder.Ops()) + raw && builder.charBank == old(builder.charBank) + text
    ensures 0 <= DocUse(op) <= |old(cursor.Rest())| && 0 <= BankUse(op) <= |bank|
    ensures cursor.Rest() == old(cursor.Rest())[DocUse(op)..]
    ensures Undoes(raw, text, [op], bank[..BankUse(op)], old(cursor.Rest())[..DocUse(op)])
  {
    hide Cursor.Loose, Cursor.Rest, Builder.Valid, OpFits, Undoes, KeepOps, TypeOps, LinesTrue, Text, AreRuns;
    ghost var d := cursor.Rest();
    FitBounds(op, bank, d);
    CutOut(op, bank, d);
    ghost var part := d[..DocUse(op)];
    text := "";
    NoMore(builder.charBank);
    match op.opcode {
      case Keep =>
        if op.attribs != [] {
          var runs := cursor.ConsumeAttribRuns(op.chars);
          KeepBack(builder, runs, op.attribs, part);
          raw := KeepOps(runs, op.attribs);
          KeepStyledUndoes(op, runs, part);
        } else {
          cursor.Skip(op.chars, op.lines);
          builder.Keep(op.chars, op.lines, []);
          raw := [op];
          KeepPlainUndoes(op, part);
        }
      case Insert =>
        builder.Remove(op.chars, op.lines);
        raw := [Op(Delete, op.chars, op.lines, [])];
        InsertUndoes(op, bank[..op.chars]);
      case Delete =>
        var textBank := cursor.NextText(op.chars);
        var runs := cursor.ConsumeAttribRuns(op.chars);
        TypeBack(builder, runs, textBank, part);
        raw := TypeOps(runs, textBank);
        text := textBank;
        DeleteUndoes(op, runs, part);
    }
  }

  lemma NoMore(s: string)
    ensures s + "" == s
  {}

  lemma CutOut(op: Op, bank: string, d: Doc)
    requires OpFits(op, bank, d)
    ensures 0 <= DocUse(op) <= |d| && 0 <= BankUse(op) <= |bank| && 0 <= op.lines
    ensures op.opcode == Insert
        ==> d[..DocUse(op)] == [] && d[DocUse(op)..] == d && LinesTrue(op.lines, bank[..op.chars])
    ensures op.opcode != Insert
        ==> OpOver(op, d[..DocUse(op)]) && bank[..BankUse(op)] == "" && bank[BankUse(op)..] == bank
    ensures op.opcode != Insert ==> LinesTrue(op.lines, Text(d[..op.chars]))
  {}

  // ---------- the whole changeset

  // `raw` undoes the ops done so far, which cover `d` and `cb`; the others fit what is left.
  ghost predicate Undoing(cs: Changeset, doc: Doc, raw: seq<Op>, bank: string,
                          ops: seq<Op>, cb: string, d: Doc, ops': seq<Op>, cb': string, d': Doc)
  {
    && cs.ops == ops + ops' && cs.bank == cb + cb' && doc == d + d'
    && Undoes(raw, bank, ops, cb, d) && Fits(ops', cb', d')
  }

  lemma UndoingNext(cs: Changeset, doc: Doc, raw: seq<Op>, bank: string,
                    ops: seq<Op>, cb: string, d: Doc, ops': seq<Op>, cb': string, d': Doc, raw': seq<Op>, text: string)
    requires Undoing(cs, doc, raw, bank, ops, cb, d, ops', cb', d') && ops' != []
    requires 0 <= BankUse(ops'[0]) <= |cb'| && 0 <= DocUse(ops'[0]) <= |d'|
    requires Undoes(raw', text, [ops'[0]], cb'[..BankUse(ops'[0])], d'[..DocUse(ops'[0])])
    ensures Undoing(cs, doc, raw + raw', bank + text, ops + [ops'[0]], cb + cb'[..BankUse(ops'[0])],
        d + d'[..DocUse(ops'[0])],
                    ops'[1..], cb'[BankUse(ops'[0])..], d'[DocUse(ops'[0])..])
  {
    hide Undoes, Fits, Apply, OpFits;
    var op := ops'[0];
    Unfold(ops', cb', d');
    UndoesConcat(raw, bank, ops, cb, d, raw', text, [op], cb'[..BankUse(op)], d'[..DocUse(op)]);
    assert ops + ops' == ops + [op] + ops'[1..];
    assert cb + cb' == cb + cb'[..BankUse(op)] + cb'[BankUse(op)..];
    assert d + d' == d + d'[..DocUse(op)] + d'[DocUse(op)..];
  }

  // The effect on any document with the text the inverse was computed for.
  lemma UndoingDone(cs: Changeset, doc: Doc, raw: seq<Op>, bank: string, cb: string, d: Doc, cb': string, d': Doc,
      g: Doc)
    requires Undoing(cs, doc, raw, bank, cs.ops, cb, d, [], cb', d') && Text(g) == Text(doc)
    ensures Fits(cs.ops, cs.bank, g) && |g| == |doc|
    ensures Fits(raw, bank, After(cs, g)) && Apply(raw, bank, After(cs, g)) == Undone(cs.ops, cs.bank, g, doc)
  {
    hide UndoesOn, Fits, Apply, Undone, Text;
    var g1, g2 := g[..|d|], g[|d|..];
    TextParts(g, |d|);
    TextParts(doc, |d|);
    assert doc[..|d|] == d && doc[|d|..] == d' && g == g1 + g2;
    assert UndoesOn(raw, bank, cs.ops, cb, d, g1);
    UndoesOnMeans(raw, bank, cs.ops, cb, d, g1);
    NothingToDo(cb', d');
    var none: seq<Op> := [];
    assert cs.ops + none == cs.ops && raw + none == raw && cb + "" == cb && bank + "" == bank;
    EmptyFits(g2);
    CoverThen(cs.ops, cb, g1, [], "", g2);
    CoverThen(raw, bank, Apply(cs.ops, cb, g1), [], "", g2);
    UndoneConcat(cs.ops, cb, g1, d, [], "", g2, d');
    UndoneNone("", g2, d');
  }

  lemma EmptyFits(g: Doc)
    ensures Fits([], "", g) && Apply([], "", g) == g
  {}

  lemma UndoesOnMeans(raw: seq<Op>, bank: string, ops: seq<Op>, cb: string, d: Doc, g: Doc)
    requires UndoesOn(raw, bank, ops, cb, d, g)
    ensures Covers(ops, cb, g) && Covers(raw, bank, Apply(ops, cb, g)) && Fits(ops, cb, g)
    ensures |g| == |d| && Apply(raw, bank, Apply(ops, cb, g)) == Undone(ops, cb, g, d)
  {}

  // ---------- the inverse is a changeset

  lemma {:induction false} MarkedAfter(ops: seq<Op>, bank: string, doc: Doc, p: nat)
    requires Fits(ops, bank, doc) && Safe(ops, |doc|) && Marked(doc, p)
    ensures Marked(Apply(ops, bank, doc), p)
    decreases |ops|
  {
    hide OpFits, Fits, Apply, Emit, Safe, Marked;
    if ops == [] {
      NothingToDo(bank, doc);
    } else {
      var op := ops[0];
      Unfold(ops, bank, doc);
      FitBounds(op, bank, doc);
      SafeHead(ops, |doc|);
      var bank', doc' := bank[BankUse(op)..], doc[DocUse(op)..];
      MarkedSplit(op, bank, doc, p);
      if doc' != [] {
        MarkedAfter(ops[1..], bank', doc', p);
        MarkedBehind(Emit(op, bank, doc), Apply(ops[1..], bank', doc'), p);
      } else {
        NothingAfterLast(ops[1..], bank', doc');
        assert Emit(op, bank, doc) + [] == Emit(op, bank, doc);
      }
    }
  }

  lemma MarkedSplit(op: Op, bank: string, doc: Doc, p: nat)
    requires OpFits(op, bank, doc) && Marked(doc, p) && (op.opcode == Keep || DocUse(op) < |doc|)
    ensures DocUse(op) < |doc| ==> Marked(doc[DocUse(op)..], p) && NotThere(Emit(op, bank, doc), p)
    ensures DocUse(op) == |doc| ==> Marked(Emit(op, bank, doc), p)
  {
    hide ComposeAttributes, LinesTrue;
  }

  ghost predicate NotThere(d: Doc, p: nat) {
    forall j :: 0 <= j < |d| ==> !(d[j].Old? && d[j].pos == p)
  }

  lemma MarkedBehind(d: Doc, e: Doc, p: nat)
    requires NotThere(d, p) && Marked(e, p)
    ensures Marked(d + e, p)
  {}

  lemma UntouchedMarked(t: string)
    requires t != ""
    ensures Marked(Untouched(t), |t| - 1)
  {}

  lemma {:induction false} UndoneKeepsLast(ops: seq<Op>, bank: string, g: Doc, d: Doc)
    requires Fits(ops, bank, g) && Safe(ops, |g|) && |g| == |d| && g != []
    ensures KeepsLast(g, Undone(ops, bank, g, d))
    decreases |ops|
  {
    hide OpFits, Fits, Apply, Emit, Safe, Undone, UndoneBy;
    if ops == [] {
      UndoneNone(bank, g, d);
    } else {
      var op := ops[0];
      Unfold(ops, bank, g);
      FitBounds(op, bank, g);
      SafeHead(ops, |g|);
      UndoneHead(ops, bank, g, d);
      var bank', g', d' := bank[BankUse(op)..], g[DocUse(op)..], d[DocUse(op)..];
      if g' != [] {
        UndoneKeepsLast(ops[1..], bank', g', d');
      } else {
        NothingAfterLast(ops[1..], bank', g');
        UndoneNone(bank', g', d');
        UndoneLast(op, g, d);
      }
    }
  }

  lemma UndoneLast(op: Op, g: Doc, d: Doc)
    requires op.opcode == Keep && op.chars == |g| == |d| && g != []
    ensures KeepsLast(g, UndoneBy(op, g, d) + [])
  {
    hide ComposeAttributes, UndoAttributes;
    assert g[..op.chars] == g && d[..op.chars] == d;
  }

  // `r` undoes `cs` on the document `d` it was computed for, and tells apart the characters
  // `cs` kept from those it has to type again on every document with the text of `d`.
  ghost predicate Inverts(r: Changeset, cs: Changeset, d: Doc)
    requires IsFor(cs, Text(d))
  {
    OnAll(cs, d);
    && IsFor(r, TextAfter(cs, Text(d)))
    && forall g: Doc | Text(g) == Text(d) ::
         && |g| == |d| && Fits(cs.ops, cs.bank, g) && Fits(r.ops, r.bank, After(cs, g))
         && After(r, After(cs, g)) == Undone(cs.ops, cs.bank, g, d)
  }

  lemma OnAll(cs: Changeset, d: Doc)
    requires IsFor(cs, Text(d))
    ensures forall g: Doc | Text(g) == Text(d) :: Fits(cs.ops, cs.bank, g)
  {
    hide Fits, IsFor, Text;
    forall g: Doc | Text(g) == Text(d) ensures Fits(cs.ops, cs.bank, g) { OnDocument(cs, Text(d), g); }
  }

  // Whatever the attributes of the characters.
  ghost predicate UndoesAll(cs: Changeset, doc: Doc, raw: seq<Op>, bank: string) {
    forall g: Doc | Text(g) == Text(doc) ::
      && Fits(cs.ops, cs.bank, g) && |g| == |doc|
      && Fits(raw, bank, After(cs, g)) && Apply(raw, bank, After(cs, g)) == Undone(cs.ops, cs.bank, g, doc)
  }

  lemma AssembledInverts(cs: Changeset, doc: Doc, raw: seq<Op>, bank: string)
    requires IsFor(cs, Text(doc))
    requires UndoesAll(cs, doc, raw, bank)
    ensures Inverts(Changeset(cs.newLen, cs.newLen + LengthChange(raw), Normal(raw, true), bank), cs, doc)
  {
    hide Fits, Apply, Safe, Normal, Text, ApplyText, Undone, Marked, KeepsLast, LengthChange;
    var t := Text(doc);
    var u, t' := Untouched(t), TextAfter(cs, t);
    TextOfUntouched(t);
    TextOfUntouched(t');
    OnDocument(cs, t, u);
    FitsByText(raw, bank, After(cs, u), Untouched(t'));
    UntouchedMarked(t);
    MarkedAfter(cs.ops, cs.bank, u, |t| - 1);
    UndoneKeepsLast(cs.ops, cs.bank, u, doc);
    LastIsMarked(u, |t| - 1, Undone(cs.ops, cs.bank, u, doc));
    LastKeptIsSafe(raw, bank, After(cs, u), |t| - 1);
    SafeMeansLastKept(raw, bank, t');
    AssembledIsFor(raw, bank, t');
    ApplyLength(raw, bank, Untouched(t'));
    forall g: Doc | Text(g) == Text(doc)
      ensures && Fits(Normal(raw, true), bank, After(cs, g))
              && Apply(Normal(raw, true), bank, After(cs, g)) == Undone(cs.ops, cs.bank, g, doc)
    {
      NormalEffect(raw, true, bank, After(cs, g));
    }
  }

  lemma LastIsMarked(d: Doc, p: nat, e: Doc)
    requires Marked(d, p) && KeepsLast(d, e)
    ensures e != [] && e[|e| - 1].Old? && e[|e| - 1].pos == p
  {}

  // Applying a changeset and then its inverse gives back the document, text and attributes.
  lemma InverseUndoes(r: Changeset, cs: Changeset, d: Doc)
    requires IsFor(cs, Text(d)) && Styled(d) && Inverts(r, cs, d)
    ensures Fits(cs.ops, cs.bank, d) && Fits(r.ops, r.bank, After(cs, d))
    ensures After(r, After(cs, d)) == d
    ensures TextAfter(r, TextAfter(cs, Text(d))) == Text(d)
  {
    hide Fits, Apply, IsFor, Text, Undone, Styled;
    OnDocument(cs, Text(d), d);
    UndoneIsOriginal(cs.ops, cs.bank, d);
    OnDocument(r, TextAfter(cs, Text(d)), After(cs, d));
  }

  // A character the changeset kept is still that character after the inverse, in its old
  // place; only what was deleted is typed again, as it was.
  lemma InverseKeeps(r: Changeset, cs: Changeset, d: Doc)
    requires IsFor(cs, Text(d)) && Styled(d) && Inverts(r, cs, d)
    ensures IsFor(Compose(cs, r), Text(d)) && PutBack(ViewOf(Compose(cs, r), Text(d)), d, 0)
  {
    hide Fits, Apply, IsFor, Text, Undone, Styled, Compose;
    var t := Text(d);
    var u := Untouched(t);
    TextOfUntouched(t);
    assert From(t, 0) == u;
    OnDocument(cs, t, u);
    UndoneKeeps(cs.ops, cs.bank, t, 0, d);
    ComposeIsSequential(cs, r, t);
    ViewIsAfter(Compose(cs, r), t);
  }

  lemma ViewIsAfter(c: Changeset, t: string)
    requires IsFor(c, t)
    ensures Fits(c.ops, c.bank, Untouched(t)) && ViewOf(c, t) == After(c, Untouched(t))
  {}

  lemma StartUndoing(cs: Changeset, doc: Doc)
    requires IsFor(cs, Text(doc))
    ensures UndoingSo(cs, doc, [], "", Done([], "", [], cs.bank), cs.ops, doc)
  {
    hide IsFor, Fits, Undoes;
    OnDocument(cs, Text(doc), doc);
    UndoesNothing();
    assert [] + cs.ops == cs.ops && "" + cs.bank == cs.bank && [] + doc == doc;
  }

  // The part of the changeset that has been handled, and what is left of its bank.
  datatype Done = Done(ops: seq<Op>, cb: string, d: Doc, cbLeft: string)

  ghost predicate UndoingSo(cs: Changeset, doc: Doc, raw: seq<Op>, bank: string, done: Done, ops': seq<Op>, d': Doc) {
    Undoing(cs, doc, raw, bank, done.ops, done.cb, done.d, ops', done.cbLeft, d')
  }

  method InverseNext(csIter: OpIterator, cursor: Cursor, builder: Builder, ghost cs: Changeset, ghost doc: Doc,
      ghost done: Done)
    returns (ghost done': Done)
    requires csIter.Valid() && cursor.Valid() && builder.Valid() && csIter.HasNext()
    requires csIter !in builder.assem.repr && cursor !in builder.assem.repr
    requires UndoingSo(cs, doc, builder.Ops(), builder.charBank, done, csIter.Rest(), cursor.Rest())
    modifies csIter, cursor, builder, builder.assem.repr
    ensures csIter.Valid() && cursor.Valid() && builder.Valid() && |csIter.Rest()| < |old(csIter.Rest())|
    ensures UndoingSo(cs, doc, builder.Ops(), builder.charBank, done', csIter.Rest(), cursor.Rest())
  {
    hide Fits, Apply, IsFor, Text, Undoes, Undoing, AreLines,
         Cursor.Rest, Cursor.Loose, Builder.Valid, OpIterator.Valid, OpIterator.Rest;
    ghost var raw0, bank0, ops', d' := builder.Ops(), builder.charBank, csIter.Rest(), cursor.Rest();
    UndoingFits(cs, doc, raw0, bank0, done.ops, done.cb, done.d, ops', done.cbLeft, d');
    var csOp := csIter.Next();
    assert ops'[0] == csOp && ops'[1..] == csIter.Rest();
    ghost var raw, text := InverseOp(csOp, cursor, builder, done.cbLeft);
    UndoingNext(cs, doc, raw0, bank0, done.ops, done.cb, done.d, ops', done.cbLeft, d', raw, text);
    done' := Done(done.ops + [csOp], done.cb + done.cbLeft[..BankUse(csOp)], done.d + d'[..DocUse(csOp)],
                  done.cbLeft[BankUse(csOp)..]);
  }

  // The inverse computed from the lines of a document.
  method Inverse(cs: Changeset, lines: seq<string>, alines: seq<seq<Op>>) returns (r: Changeset)
    requires AreLines(lines, alines) && IsFor(cs, TextFrom(lines, 0))
    ensures Text(DocFrom(lines, alines, 0)) == TextFrom(lines, 0)
    ensures Inverts(r, cs, DocFrom(lines, alines, 0))
  {
    hide Fits, Apply, IsFor, Text, Undoes, Undoing, AreLines, DocFrom, TextFrom, UndoesAll, UndoingSo, LinesTrue,
         Normal, LengthChange, Inverts,
         Cursor.Rest, Cursor.Loose, Builder.Valid, OpIterator.Valid, OpIterator.Rest;
    ghost var doc := DocFrom(lines, alines, 0);
    DocFromText(lines, alines, 0);
    StartUndoing(cs, doc);
    var csIter := new OpIterator(cs.ops);
    var cursor := new Cursor(lines, alines);
    var builder := new Builder(cs.newLen);
    ghost var done := Done([], "", [], cs.bank);
    while csIter.HasNext()
      invariant csIter.Valid() && cursor.Valid() && builder.Valid() && fresh(csIter) && fresh(cursor) && fresh(builder)
      invariant fresh(builder.assem.repr) && csIter !in builder.assem.repr && cursor !in builder.assem.repr
      invariant builder.oldLen == cs.newLen
      invariant UndoingSo(cs, doc, builder.Ops(), builder.charBank, done, csIter.Rest(), cursor.Rest())
      decreases |csIter.Rest()|
    {
      done := InverseNext(csIter, cursor, builder, cs, doc, done);
    }
    ghost var raw, bank := builder.Ops(), builder.charBank;
    AllDone(cs, doc, raw, bank, done, csIter.Rest(), cursor.Rest());
    AssembledInverts(cs, doc, raw, bank);
    r := builder.ToString();
    InvertsIsFor(r, cs, doc);
    ForIsParsed(r, TextAfter(cs, Text(doc)));
    var ok := CheckRep(r);
    assert ok;
  }

  lemma UndoingFits(cs: Changeset, doc: Doc, raw: seq<Op>, bank: string,
                    ops: seq<Op>, cb: string, d: Doc, ops': seq<Op>, cb': string, d': Doc)
    requires Undoing(cs, doc, raw, bank, ops, cb, d, ops', cb', d') && ops' != []
    ensures OpFits(ops'[0], cb', d')
  {}

  lemma AllDone(cs: Changeset, doc: Doc, raw: seq<Op>, bank: string, done: Done, ops': seq<Op>, d': Doc)
    requires UndoingSo(cs, doc, raw, bank, done, ops', d') && ops' == []
    ensures UndoesAll(cs, doc, raw, bank)
  {
    hide Fits, Apply, Text, Undoes, Undone;
    assert done.ops + ops' == done.ops;
    forall g: Doc | Text(g) == Text(doc)
      ensures && Fits(cs.ops, cs.bank, g) && |g| == |doc|
              && Fits(raw, bank, After(cs, g)) && Apply(raw, bank, After(cs, g)) == Undone(cs.ops, cs.bank, g, doc)
    {
      UndoingDone(cs, doc, raw, bank, done.cb, done.d, done.cbLeft, d', g);
    }
  }

  lemma InvertsIsFor(r: Changeset, cs: Changeset, doc: Doc)
    requires IsFor(cs, Text(doc)) && Inverts(r, cs, doc)
    ensures IsFor(r, TextAfter(cs, Text(doc)))
  {
    hide Fits, Apply, Text, Undone, Normal, Safe;
  }
}
