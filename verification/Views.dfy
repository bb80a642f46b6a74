/**
 The view of a changeset: what it does to every character of a text. Two changesets for
 the same text have the same normal form exactly when they have the same view.
 */
module Views {
  import opened Attributes
  import opened Changesets
  import opened NormalForm

  // ---------- rebuilding ops from a view, one character at a time

  function UnitLines(ch: char): int { if ch == '\n' then 1 else 0 }

  function Unit(opcode: Opcode, ch: char, a: Attribs): Op { Op(opcode, 1, UnitLines(ch), a) }

  // The changeset from the characters of `t` from position `i` on to the cells `v`.
  ghost function Units(v: Doc, t: string, i: nat): seq<Op>
    decreases |v|, |t| - i
  {
    if v != [] && v[0].New? then [Unit(Insert, v[0].ch, v[0].attribs)] + Units(v[1..], t, i)
    else if i < |t| && (v == [] || i < v[0].pos) then [Unit(Delete, t[i], [])] + Units(v, t, i + 1)
    else if v != [] && i < |t| then [Unit(Keep, t[i], v[0].attribs)] + Units(v[1..], t, i + 1)
    else []
  }

  ghost function TypedText(v: Doc): string {
    if v == [] then "" else (if v[0].New? then [v[0].ch] else "") + TypedText(v[1..])
  }

  // The untouched document from position `i` on.
  ghost function From(t: string, i: nat): Doc
    requires i <= |t|
  {
    Untouched(t)[i..]
  }

  // The old cells of `v` all come from position `i` of `t` or later.
  ghost predicate OldFrom(v: Doc, t: string, i: nat) {
    forall j :: 0 <= j < |v| && v[j].Old? ==> i <= v[j].pos < |t|
  }

  // ---------- one character at a time

  function Size(ops: seq<Op>): nat {
    if ops == [] then 0 else (if ops[0].chars > 0 then ops[0].chars else 0) + Size(ops[1..])
  }

  // The part of the first op that handles a single character.
  lemma FirstUnit(ops: seq<Op>, bank: string, doc: Doc) returns (ch: char)
    requires ops != [] && Fits(ops, bank, doc)
    ensures ops[0].opcode == Insert ==> bank != "" && ch == bank[0]
    ensures ops[0].opcode != Insert ==> doc != [] && ch == doc[0].ch
    ensures OpFits(Part(ops[0], 1, UnitLines(ch)), bank, doc)
    ensures ops[0].opcode == Delete ==> ops[0].attribs == []
    ensures ops[0].opcode != NoOp
    ensures Size(Chop(ops, 1, UnitLines(ch))) < Size(ops)
    ensures ops[0].chars > 1 ==> UnitLines(ch) == 0 || ops[0].lines - UnitLines(ch) > 0
    ensures ops[0].chars > 1 ==> ops[0].lines - UnitLines(ch) >= 0
    ensures ops[0].chars == 1 ==> Part(ops[0], 1, UnitLines(ch)) == ops[0]
  {
    hide Fits, Apply, Emit;
    Unfold(ops, bank, doc);
    FirstUnitOf(ops[0], bank, doc);
    ch := if ops[0].opcode == Insert then bank[0] else doc[0].ch;
    if ops[0].chars > 1 {
      assert Chop(ops, 1, UnitLines(ch))[1..] == ops[1..];
    }
  }

  lemma FirstUnitOf(op: Op, bank: string, doc: Doc)
    requires OpFits(op, bank, doc)
    ensures op.opcode == Insert ==> bank != ""
    ensures op.opcode != Insert ==> doc != []
    ensures var ch := if op.opcode == Insert then bank[0] else doc[0].ch;
            && OpFits(Part(op, 1, UnitLines(ch)), bank, doc)
            && (op.chars > 1 ==> UnitLines(ch) == 0 || op.lines - UnitLines(ch) > 0)
            && op.lines - UnitLines(ch) >= 0
            && (op.chars == 1 ==> Part(op, 1, UnitLines(ch)) == op)
  {
    hide Text;
    var s := if op.opcode == Insert then bank[..op.chars] else Text(doc[..op.chars]);
    var u := if op.opcode == Insert then bank[..1] else Text(doc[..1]);
    var ch := if op.opcode == Insert then bank[0] else doc[0].ch;
    assert s == [ch] + s[1..] && u == [ch];
    assert Newlines(u) == UnitLines(ch) + Newlines(u[1..]);
    assert Newlines(s) == UnitLines(ch) + Newlines(s[1..]);
    assert s[1..] == [] ==> op.chars == 1;
    if op.chars > 1 && UnitLines(ch) > 0 {
      LastNewline(s[1..]);
    }
  }

  lemma {:induction false} LastNewline(s: string)
    requires s != [] && s[|s| - 1] == '\n'
    ensures Newlines(s) > 0
  {
    if |s| > 1 { LastNewline(s[1..]); }
  }

  // ---------- the normal form of an op is that of its characters

  lemma {:induction false} JoinSplit(p: Op, q: Op, n: seq<Op>)
    requires p.opcode == q.opcode && p.attribs == q.attribs && 0 <= p.lines && 0 <= q.lines
        && (p.lines == 0 || q.lines > 0)
    requires n != [] ==> n[0].lines >= 0
    ensures Join(p, Join(q, n)) == Join(Merge2(p, q), n)
  {
    assert Join(q, n)[1..] == if n != [] && Mergeable(q, n[0]) then n[1..] else n;
  }

  lemma {:induction false} InsertPastSplit(p: Op, q: Op, n: seq<Op>)
    requires p.opcode == Insert == q.opcode && p.attribs == q.attribs && 0 <= p.lines && 0 <= q.lines
        && (p.lines == 0 || q.lines > 0)
    requires LinesNonNegative(n)
    ensures InsertPast(p, InsertPast(q, n)) == InsertPast(Merge2(p, q), n)
    decreases |n|
  {
    if n != [] && n[0].opcode == Delete {
      InsertPastSplit(p, q, n[1..]);
      var m := InsertPast(q, n[1..]);
      assert InsertPast(q, n) == [n[0]] + m;
      assert ([n[0]] + m)[1..] == m;
    } else {
      JoinSplit(p, q, n);
      assert Join(q, n)[0].opcode == Insert;
    }
  }

  ghost predicate LinesNonNegative(ops: seq<Op>) {
    forall i :: 0 <= i < |ops| ==> ops[i].lines >= 0
  }

  lemma {:induction false} InsertPastLines(p: Op, n: seq<Op>)
    requires p.lines >= 0 && LinesNonNegative(n)
    ensures LinesNonNegative(InsertPast(p, n))
    decreases |n|
  {
    if n != [] && n[0].opcode == Delete { InsertPastLines(p, n[1..]); }
  }

  lemma AddFrontLines(p: Op, n: seq<Op>, trim: bool)
    requires p.lines >= 0 && LinesNonNegative(n)
    ensures LinesNonNegative(AddFront(p, n, trim))
  {
    InsertPastLines(p, n);
  }

  lemma AddFrontSplit(op: Op, l: int, n: seq<Op>, trim: bool)
    requires op.chars > 1 && 0 <= l && (l == 0 || op.lines - l > 0) && op.lines - l >= 0 && LinesNonNegative(n)
    ensures AddFront(op, n, trim) == AddFront(Part(op, 1, l), AddFront(Remainder(op, 1, l), n, trim), trim)
  {
    var p, q := Part(op, 1, l), Remainder(op, 1, l);
    assert Merge2(p, q) == op;
    if op.opcode == Insert {
      InsertPastSplit(p, q, n);
    } else {
      JoinSplit(p, q, n);
    }
  }

  lemma {:induction false} NormalLines(ops: seq<Op>, bank: string, doc: Doc, trim: bool)
    requires Fits(ops, bank, doc)
    ensures LinesNonNegative(Normal(ops, trim))
    decreases |ops|
  {
    if ops != [] {
      NormalLines(ops[1..], bank[BankUse(ops[0])..], doc[DocUse(ops[0])..], trim);
      AddFrontLines(ops[0], Normal(ops[1..], trim), trim);
    }
  }

  // Splitting off the first character does not change the normal form.
  lemma {:induction false} NormalFirstUnit(ops: seq<Op>, bank: string, doc: Doc, trim: bool, l: int)
    requires ops != [] && Fits(ops, bank, doc)
    requires ops[0].chars > 1 ==> 0 <= l && (l == 0 || ops[0].lines - l > 0) && ops[0].lines - l >= 0
    requires ops[0].chars == 1 ==> Part(ops[0], 1, l) == ops[0]
    ensures Normal(ops, trim) == AddFront(Part(ops[0], 1, l), Normal(Chop(ops, 1, l), trim), trim)
  {
    hide OpFits, Fits, Apply, Emit, AddFront;
    Unfold(ops, bank, doc);
    if ops[0].chars > 1 {
      NormalLines(ops[1..], bank[BankUse(ops[0])..], doc[DocUse(ops[0])..], trim);
      AddFrontSplit(ops[0], l, Normal(ops[1..], trim), trim);
      assert Chop(ops, 1, l)[1..] == ops[1..];
    }
  }

  // ---------- a deletion commutes with the insertions in front of it

  lemma {:induction false} DeleteCommutes(p: Op, d: Op, n: seq<Op>)
    requires p.opcode == Insert && d.opcode == Delete
    ensures InsertPast(p, Join(d, n)) == Join(d, InsertPast(p, n))
  {
    if n != [] && n[0].opcode == Delete {
      var m := InsertPast(p, n[1..]);
      assert InsertPast(p, n) == [n[0]] + m;
      assert ([n[0]] + m)[1..] == m;
      var j := Join(d, n);
      assert j[0].opcode == Delete;
      assert j[1..] == n[1..] || j[1..] == n;
    } else {
      assert ([d] + n)[1..] == n;
      assert Join(p, n)[0].opcode == Insert;
    }
  }

  lemma {:induction false} DeletePassesInsertions(v: Doc, t: string, i: nat)
    requires i < |t| && OldFrom(v, t, i + 1)
    ensures Normal(Units(v, t, i), true) == AddFront(Unit(Delete, t[i], []), Normal(Units(v, t, i + 1), true), true)
    decreases |v|
  {
    hide Join, InsertPast;
    var d := Unit(Delete, t[i], []);
    if v != [] && v[0].New? {
      var p := Unit(Insert, v[0].ch, v[0].attribs);
      DeletePassesInsertions(v[1..], t, i);
      assert Units(v, t, i) == [p] + Units(v[1..], t, i);
      assert Units(v, t, i)[1..] == Units(v[1..], t, i);
      assert Units(v, t, i + 1)[1..] == Units(v[1..], t, i + 1);
      DeleteCommutes(p, d, Normal(Units(v[1..], t, i + 1), true));
    } else {
      assert Units(v, t, i) == [d] + Units(v, t, i + 1);
      assert Units(v, t, i)[1..] == Units(v, t, i + 1);
    }
  }

  // ---------- the normal form is a function of the view

  lemma {:induction false} UntouchedTail(t: string, i: nat)
    requires i <= |t|
    ensures Normal(Units(From(t, i), t, i), true) == []
    decreases |t| - i
  {
    if i < |t| {
      UntouchedTail(t, i + 1);
      var v := From(t, i);
      assert v[1..] == From(t, i + 1);
      assert Units(v, t, i) == [Unit(Keep, t[i], [])] + Units(v[1..], t, i + 1);
      assert Units(v, t, i)[1..] == Units(v[1..], t, i + 1);
    } else {
      assert From(t, i) == [];
    }
  }

  lemma {:induction false} NormalOfView(ops: seq<Op>, bank: string, t: string, i: nat)
    requires i <= |t| && Fits(ops, bank, From(t, i))
    ensures var v := Apply(ops, bank, From(t, i));
            && OldFrom(v, t, i)
            && Normal(ops, true) == Normal(Units(v, t, i), true)
            && bank == TypedText(v)
    decreases Size(ops)
  {
    hide OpFits, Fits, Apply, Emit, Normal, AddFront, Units, TypedText, OldFrom;
    var doc := From(t, i);
    if ops == [] {
      UntouchedTail(t, i);
      NothingChanged(bank, t, i);
    } else {
      var ch := FirstUnit(ops, bank, doc);
      var l := UnitLines(ch);
      var p, rest := Part(ops[0], 1, l), Chop(ops, 1, l);
      CutHead(ops, bank, doc, 1, l);
      NormalFirstUnit(ops, bank, doc, true, l);
      var i' := i + DocUse(p);
      var bank' := bank[BankUse(p)..];
      assert doc[DocUse(p)..] == From(t, i');
      NormalOfView(rest, bank', t, i');
      UnitOfView(p, ch, bank, t, i, Apply(rest, bank', From(t, i')), Normal(rest, true));
      assert Rebuilds(p, bank, t, i, Apply(ops, bank, doc), Normal(rest, true));
    }
  }

  lemma NothingChanged(bank: string, t: string, i: nat)
    requires i <= |t| && Fits([], bank, From(t, i))
    ensures Apply([], bank, From(t, i)) == From(t, i) && OldFrom(From(t, i), t, i)
    ensures bank == "" == TypedText(From(t, i))
    ensures Normal([], true) == []
  {
    NoTypedText(From(t, i));
  }

  lemma {:induction false} NoTypedText(v: Doc)
    requires forall j :: 0 <= j < |v| ==> v[j].Old?
    ensures TypedText(v) == ""
  {
    if v != [] { NoTypedText(v[1..]); }
  }

  // A single-character op in front of what rebuilds the rest of the view.
  ghost predicate Rebuilds(p: Op, bank: string, t: string, i: nat, w: Doc, n: seq<Op>) {
    && OldFrom(w, t, i)
    && AddFront(p, n, true) == Normal(Units(w, t, i), true)
    && bank == TypedText(w)
  }

  lemma InsertUnit(p: Op, bank: string, t: string, i: nat, v: Doc, n: seq<Op>)
    requires i <= |t| && bank != "" && p == Unit(Insert, bank[0], p.attribs)
    requires OldFrom(v, t, i) && n == Normal(Units(v, t, i), true) && bank[1..] == TypedText(v)
    ensures Rebuilds(p, bank, t, i, [New(bank[0], p.attribs)] + v, n)
  {
    hide AddFront, Normal;
    var w := [New(bank[0], p.attribs)] + v;
    assert w[1..] == v;
    NormalCons(p, Units(v, t, i));
    assert bank == [bank[0]] + bank[1..];
  }

  lemma NormalCons(p: Op, ops: seq<Op>)
    ensures Normal([p] + ops, true) == AddFront(p, Normal(ops, true), true)
  {
    hide AddFront;
    assert ([p] + ops)[1..] == ops;
  }

  lemma KeepUnit(p: Op, bank: string, t: string, i: nat, v: Doc, n: seq<Op>)
    requires i < |t| && p == Unit(Keep, t[i], p.attribs)
    requires OldFrom(v, t, i + 1) && n == Normal(Units(v, t, i + 1), true) && bank == TypedText(v)
    ensures Rebuilds(p, bank, t, i, [Old(i, t[i], p.attribs)] + v, n)
  {
    hide AddFront, Normal, Units, TypedText, OldFrom;
    KeptUnits(t, i, p.attribs, v);
    NormalCons(p, Units(v, t, i + 1));
  }

  // A kept character in front of a view.
  lemma KeptUnits(t: string, i: nat, attribs: Attribs, v: Doc)
    requires i < |t| && OldFrom(v, t, i + 1)
    ensures var w := [Old(i, t[i], attribs)] + v;
            && OldFrom(w, t, i) && TypedText(w) == TypedText(v)
            && Units(w, t, i) == [Unit(Keep, t[i], attribs)] + Units(v, t, i + 1)
  {
    var w := [Old(i, t[i], attribs)] + v;
    assert w[0] == Old(i, t[i], attribs) && w[1..] == v;
    assert "" + TypedText(v) == TypedText(v);
    assert OldFrom(w, t, i) by {
      forall j | 0 <= j < |w| && w[j].Old? ensures i <= w[j].pos < |t| { assert j == 0 || w[j] == v[j - 1]; }
    }
  }

  lemma DeleteUnit(p: Op, bank: string, t: string, i: nat, v: Doc, n: seq<Op>)
    requires i < |t| && p == Unit(Delete, t[i], [])
    requires OldFrom(v, t, i + 1) && n == Normal(Units(v, t, i + 1), true) && bank == TypedText(v)
    ensures Rebuilds(p, bank, t, i, v, n)
  {
    hide AddFront, Normal, Units;
    DeletePassesInsertions(v, t, i);
  }

  lemma UnitEmits(p: Op, ch: char, bank: string, t: string, i: nat)
    requires i <= |t| && p.chars == 1 && OpFits(p, bank, From(t, i))
    requires p.opcode == Insert ==> bank != "" && ch == bank[0]
    requires p.opcode != Insert ==> i < |t| && ch == t[i]
    ensures Emit(p, bank, From(t, i))
         == match p.opcode case Insert => [New(ch, p.attribs)] case Keep => [Old(i, ch, p.attribs)] case _ => []
  {
    hide LinesTrue, ComposeAttributes;
    ComposeUnits(p.attribs, true);
    if p.opcode == Insert {
      assert bank[..1] == [ch];
    } else {
      assert From(t, i)[..1] == [Old(i, ch, [])];
    }
  }

  lemma UnitOfView(p: Op, ch: char, bank: string, t: string, i: nat, v: Doc, n: seq<Op>)
    requires i <= |t| && p == Unit(p.opcode, ch, p.attribs) && p.opcode != NoOp
    requires p.opcode == Insert ==> bank != "" && ch == bank[0]
    requires p.opcode != Insert ==> i < |t| && ch == t[i]
    requires p.opcode == Delete ==> p.attribs == []
    requires OpFits(p, bank, From(t, i))
    requires OldFrom(v, t, i + DocUse(p)) && n == Normal(Units(v, t, i + DocUse(p)), true)
    requires bank[BankUse(p)..] == TypedText(v)
    ensures Rebuilds(p, bank, t, i, Emit(p, bank, From(t, i)) + v, n)
  {
    hide AddFront, OpFits, Emit, Rebuilds, Normal, Units, OldFrom, TypedText, From;
    UnitEmits(p, ch, bank, t, i);
    match p.opcode
    case Insert => InsertUnit(p, bank, t, i, v, n);
    case Keep => KeepUnit(p, bank, t, i, v, n);
    case Delete =>
      assert [] + v == v;
      DeleteUnit(p, bank, t, i, v, n);
  }

  // ---------- the theorem

  ghost function View(ops: seq<Op>, bank: string, t: string): Doc
    requires Fits(ops, bank, Untouched(t))
  {
    Apply(ops, bank, Untouched(t))
  }

  // Two changesets for the same text do the same to every character if and only if they
  // have the same normal form and the same char bank.
  lemma SameViewSameForm(a: seq<Op>, ba: string, b: seq<Op>, bb: string, t: string)
    requires Fits(a, ba, Untouched(t)) && Fits(b, bb, Untouched(t))
    ensures View(a, ba, t) == View(b, bb, t) <==> Normal(a, true) == Normal(b, true) && ba == bb
  {
    hide Fits, Apply, Normal;
    assert From(t, 0) == Untouched(t);
    NormalOfView(a, ba, t, 0);
    NormalOfView(b, bb, t, 0);
    NormalEffect(a, true, ba, Untouched(t));
    NormalEffect(b, true, bb, Untouched(t));
  }

  // Assembling again what was assembled changes nothing.
  lemma NormalIdempotent(ops: seq<Op>, bank: string, t: string)
    requires Fits(ops, bank, Untouched(t))
    ensures Normal(Normal(ops, true), true) == Normal(ops, true)
  {
    hide Fits, Apply, Normal;
    NormalEffect(ops, true, bank, Untouched(t));
    SameViewSameForm(Normal(ops, true), bank, ops, bank, t);
  }
}
