/**
 The laws of changesets as values: composition is sequential application and is
 associative, and the two ways of merging concurrent changesets give one and the same
 changeset.
 */
module Laws {
  import opened Attributes
  import opened Changesets
  import opened Composition
  import opened Following
  import opened NormalForm
  import opened Views
  import opened Algebra

  // ---------- changesets for a text

  // `c` is a changeset for `t`: its ops stay inside the text and count its lines, its
  // lengths and bank agree with its ops, it leaves the last character in last place, and
  // it is in normal form.
  ghost predicate IsFor(c: Changeset, t: string) {
    && t != "" && c.oldLen == |t| && c.newLen == |t| + LengthChange(c.ops)
    && Fits(c.ops, c.bank, Untouched(t))
    && Safe(c.ops, |t|)
    && Normal(c.ops, true) == c.ops
  }

  // The document after `c`.
  ghost function After(c: Changeset, d: Doc): Doc
    requires Fits(c.ops, c.bank, d)
  {
    Apply(c.ops, c.bank, d)
  }

  ghost function TextAfter(c: Changeset, t: string): string {
    ApplyText(c.ops, c.bank, t)
  }

  lemma TextOfUntouched(t: string)
    ensures Text(Untouched(t)) == t
  {}

  // What a changeset for `t` does to any document with that text.
  lemma OnDocument(c: Changeset, t: string, d: Doc)
    requires IsFor(c, t) && Text(d) == t
    ensures Fits(c.ops, c.bank, d) && Text(After(c, d)) == TextAfter(c, t)
    ensures |After(c, d)| == c.newLen == |TextAfter(c, t)| && TextAfter(c, t) != ""
  {
    hide Fits, Apply, Normal, Text, Untouched, ApplyText;
    TextOfUntouched(t);
    FitsByText(c.ops, c.bank, Untouched(t), d);
    TextOfApply(c.ops, c.bank, d);
    ApplyLength(c.ops, c.bank, d);
    SafeLeaves(c.ops, |t|);
  }

  ghost function ViewOf(c: Changeset, t: string): Doc
    requires IsFor(c, t)
  {
    View(c.ops, c.bank, t)
  }

  // A changeset for a text is determined by what it does to its characters.
  lemma SameViewSameChangeset(c: Changeset, e: Changeset, t: string)
    requires IsFor(c, t) && IsFor(e, t)
    ensures ViewOf(c, t) == ViewOf(e, t) <==> c == e
  {
    hide Fits, Apply, Normal;
    SameViewSameForm(c.ops, c.bank, e.ops, e.bank, t);
  }

  // ---------- the last character

  ghost predicate SameOrigin(c: Cell, d: Cell) {
    c.ch == d.ch && if c.Old? then d.Old? && c.pos == d.pos else d.New?
  }

  ghost predicate KeepsLast(d: Doc, e: Doc) {
    d != [] && e != [] && SameOrigin(d[|d| - 1], e[|e| - 1])
  }

  lemma {:induction false} SafeKeepsLast(ops: seq<Op>, bank: string, doc: Doc)
    requires Fits(ops, bank, doc) && Safe(ops, |doc|) && doc != []
    ensures KeepsLast(doc, Apply(ops, bank, doc))
    decreases |ops|
  {
    hide OpFits, Fits, Apply, Emit, Safe;
    if ops == [] {
      NothingToDo(bank, doc);
    } else {
      Unfold(ops, bank, doc);
      FitBounds(ops[0], bank, doc);
      SafeHead(ops, |doc|);
      var bank', doc' := bank[BankUse(ops[0])..], doc[DocUse(ops[0])..];
      if doc' != [] {
        SafeKeepsLast(ops[1..], bank', doc');
      } else {
        NothingAfterLast(ops[1..], bank', doc');
        LastRestyled(ops[0], bank, doc);
      }
    }
  }

  lemma NothingAfterLast(ops: seq<Op>, bank: string, doc: Doc)
    requires Fits(ops, bank, doc) && doc == [] && Safe(ops, 0)
    ensures ops == [] && Apply(ops, bank, doc) == []
  {
    if ops != [] { SafeHead(ops, 0); }
  }

  lemma LastRestyled(op: Op, bank: string, doc: Doc)
    requires OpFits(op, bank, doc) && op.opcode == Keep && op.chars == |doc|
    ensures KeepsLast(doc, Emit(op, bank, doc) + [])
  {
    hide ComposeAttributes, LinesTrue;
    assert doc[..op.chars] == doc;
  }

  // The last cell of `doc` is the old cell at `p`, and no other cell is.
  ghost predicate Marked(doc: Doc, p: nat) {
    && doc != [] && doc[|doc| - 1].Old? && doc[|doc| - 1].pos == p
    && forall j :: 0 <= j < |doc| - 1 ==> !(doc[j].Old? && doc[j].pos == p)
  }

  lemma {:induction false} OnlyTyped(ops: seq<Op>, bank: string)
    requires Fits(ops, bank, [])
    ensures forall j :: 0 <= j < |Apply(ops, bank, [])| ==> Apply(ops, bank, [])[j].New?
    decreases |ops|
  {
    hide LinesTrue;
    if ops != [] {
      OnlyTyped(ops[1..], bank[BankUse(ops[0])..]);
    }
  }

  lemma {:induction false} LastKeptIsSafe(ops: seq<Op>, bank: string, doc: Doc, p: nat)
    requires Fits(ops, bank, doc) && (doc == [] || Marked(doc, p))
    requires var v := Apply(ops, bank, doc);
             if doc == [] then v == [] else v != [] && v[|v| - 1].Old? && v[|v| - 1].pos == p
    ensures Safe(ops, |doc|)
    decreases |ops|
  {
    hide OpFits, Fits, Apply, Emit, Safe;
    if ops == [] {
      SafeEmpty(|doc|);
    } else {
      Unfold(ops, bank, doc);
      FitBounds(ops[0], bank, doc);
      var bank', doc' := bank[BankUse(ops[0])..], doc[DocUse(ops[0])..];
      if doc' == [] { OnlyTyped(ops[1..], bank'); }
      EmittedLast(ops[0], bank, doc, p, Apply(ops[1..], bank', doc'));
      LastKeptIsSafe(ops[1..], bank', doc', p);
      assert ops == [ops[0]] + ops[1..];
      SafePush(ops[0], ops[1..], |doc|);
    }
  }

  lemma EmittedLast(op: Op, bank: string, doc: Doc, p: nat, v: Doc)
    requires OpFits(op, bank, doc) && (doc == [] || Marked(doc, p))
    requires DocUse(op) == |doc| ==> forall j :: 0 <= j < |v| ==> v[j].New?
    requires var w := Emit(op, bank, doc) + v;
             if doc == [] then w == [] else w != [] && w[|w| - 1].Old? && w[|w| - 1].pos == p
    ensures op.opcode == Insert ==> 0 < |doc|
    ensures op.opcode == Delete ==> op.chars < |doc|
    ensures DocUse(op) < |doc| ==> Marked(doc[DocUse(op)..], p)
    ensures if DocUse(op) == |doc| then v == [] else v != [] && v[|v| - 1].Old? && v[|v| - 1].pos == p
  {
    hide ComposeAttributes, LinesTrue;
    var e := Emit(op, bank, doc);
    if op.opcode == Insert {
      assert e != [] && e[|e| - 1].New?;
    } else if op.opcode == Keep {
      assert e[|e| - 1] == Restyled(doc[op.chars - 1], op.attribs);
    }
  }

  // For a changeset, leaving the last character alone can be read off its view.
  lemma SafeMeansLastKept(ops: seq<Op>, bank: string, t: string)
    requires t != "" && Fits(ops, bank, Untouched(t))
    ensures Safe(ops, |t|) <==> KeepsLast(Untouched(t), View(ops, bank, t))
  {
    hide Fits, Apply, Safe;
    assert From(t, 0) == Untouched(t);
    if Safe(ops, |t|) {
      SafeKeepsLast(ops, bank, Untouched(t));
    }
    if KeepsLast(Untouched(t), View(ops, bank, t)) {
      LastKeptIsSafe(ops, bank, Untouched(t), |t| - 1);
    }
  }

  // ---------- compose

  ghost function Compose(c1: Changeset, c2: Changeset): Changeset {
    var r := ComposeRaw(c1.ops, c1.bank, c2.ops, c2.bank);
    Changeset(c1.oldLen, c2.newLen, Normal(r.ops, true), r.bank)
  }

  // What the assembler makes of safe ops that fit a text is a changeset for that text.
  lemma AssembledIsFor(ops: seq<Op>, bank: string, t: string)
    requires t != "" && Fits(ops, bank, Untouched(t)) && KeepsLast(Untouched(t), View(ops, bank, t))
    ensures var c := Changeset(|t|, |View(ops, bank, t)|, Normal(ops, true), bank);
            IsFor(c, t) && ViewOf(c, t) == View(ops, bank, t)
  {
    hide Fits, Apply, Safe, Normal, KeepsLast;
    NormalEffect(ops, true, bank, Untouched(t));
    NormalIdempotent(ops, bank, t);
    SafeMeansLastKept(Normal(ops, true), bank, t);
    ApplyLength(Normal(ops, true), bank, Untouched(t));
  }

  // Composing is applying one changeset after the other, on every document.
  lemma ComposeIsSequential(a: Changeset, b: Changeset, t: string)
    requires IsFor(a, t) && IsFor(b, TextAfter(a, t))
    ensures IsFor(Compose(a, b), t)
    ensures TextAfter(Compose(a, b), t) == TextAfter(b, TextAfter(a, t))
    ensures forall d: Doc | Text(d) == t ::
              && Fits(a.ops, a.bank, d) && Fits(b.ops, b.bank, After(a, d))
              && Fits(Compose(a, b).ops, Compose(a, b).bank, d)
              && After(Compose(a, b), d) == After(b, After(a, d))
  {
    hide Fits, Apply, Safe, Normal, KeepsLast, ApplyText, Text, ComposeRaw;
    var u := Untouched(t);
    TextOfUntouched(t);
    var r := ComposeRaw(a.ops, a.bank, b.ops, b.bank);
    ComposeOn(a, b, t, u);
    OnDocument(a, t, u);
    OnDocument(b, TextAfter(a, t), After(a, u));
    SafeKeepsLast(a.ops, a.bank, u);
    SafeKeepsLast(b.ops, b.bank, After(a, u));
    KeepsLastTwice(u, After(a, u), After(b, After(a, u)));
    AssembledIsFor(r.ops, r.bank, t);
    OnDocument(Compose(a, b), t, u);
    forall d: Doc | Text(d) == t
      ensures && Fits(a.ops, a.bank, d) && Fits(b.ops, b.bank, After(a, d))
              && Fits(Compose(a, b).ops, Compose(a, b).bank, d)
              && After(Compose(a, b), d) == After(b, After(a, d))
    {
      ComposeOn(a, b, t, d);
    }
  }

  lemma KeepsLastTwice(d: Doc, e: Doc, f: Doc)
    requires KeepsLast(d, e) && KeepsLast(e, f)
    ensures KeepsLast(d, f)
  {}

  lemma ComposeOn(a: Changeset, b: Changeset, t: string, d: Doc)
    requires IsFor(a, t) && IsFor(b, TextAfter(a, t)) && Text(d) == t
    ensures Fits(a.ops, a.bank, d) && Fits(b.ops, b.bank, After(a, d))
    ensures var r := ComposeRaw(a.ops, a.bank, b.ops, b.bank);
            && Fits(r.ops, r.bank, d) && Apply(r.ops, r.bank, d) == After(b, After(a, d))
            && Fits(Compose(a, b).ops, r.bank, d)
            && After(Compose(a, b), d) == After(b, After(a, d))
  {
    hide Fits, Apply, Safe, Normal, ApplyText, Text, ComposeRaw;
    OnDocument(a, t, d);
    OnDocument(b, TextAfter(a, t), After(a, d));
    ComposeRawCorrect(a.ops, a.bank, b.ops, b.bank, d);
    var r := ComposeRaw(a.ops, a.bank, b.ops, b.bank);
    NormalEffect(r.ops, true, r.bank, d);
  }

  // Composition is associative: the two results are one and the same changeset.
  lemma ComposeIsAssociative(a: Changeset, b: Changeset, c: Changeset, t: string)
    requires IsFor(a, t) && IsFor(b, TextAfter(a, t)) && IsFor(c, TextAfter(b, TextAfter(a, t)))
    ensures IsFor(Compose(a, b), t) && IsFor(Compose(b, c), TextAfter(a, t))
    ensures Compose(Compose(a, b), c) == Compose(a, Compose(b, c))
  {
    hide Fits, Apply, Safe, Normal, ApplyText, Text, Compose, IsFor;
    var u := Untouched(t);
    TextOfUntouched(t);
    ComposeIsSequential(a, b, t);
    ComposeIsSequential(b, c, TextAfter(a, t));
    ComposeIsSequential(Compose(a, b), c, t);
    ComposeIsSequential(a, Compose(b, c), t);
    OnDocument(a, t, u);
    assert Text(After(a, u)) == TextAfter(a, t);
    assert ViewOf(Compose(Compose(a, b), c), t) == After(c, After(b, After(a, u)));
    SameViewSameChangeset(Compose(Compose(a, b), c), Compose(a, Compose(b, c)), t);
  }

  ghost function Identity(n: int): Changeset { Changeset(n, n, [], "") }

  lemma IdentityIsUnit(c: Changeset, t: string)
    requires IsFor(c, t)
    ensures IsFor(Identity(|t|), t) && IsFor(Identity(c.newLen), TextAfter(c, t))
    ensures TextAfter(Identity(|t|), t) == t
    ensures Compose(Identity(|t|), c) == c && Compose(c, Identity(c.newLen)) == c
  {
    hide Normal, Compose, ComposeRaw;
    var u := Untouched(t);
    TextOfUntouched(t);
    OnDocument(c, t, u);
    IdentityIsFor(t);
    IdentityIsFor(TextAfter(c, t));
    ComposeIsSequential(Identity(|t|), c, t);
    ComposeIsSequential(c, Identity(c.newLen), t);
    SameViewSameChangeset(Compose(Identity(|t|), c), c, t);
    SameViewSameChangeset(Compose(c, Identity(c.newLen)), c, t);
  }

  lemma IdentityIsFor(t: string)
    requires t != ""
    ensures IsFor(Identity(|t|), t) && TextAfter(Identity(|t|), t) == t
    ensures forall d: Doc :: Fits([], "", d) && After(Identity(|t|), d) == d
  {}

  // ---------- follow

  ghost function Follow(c1: Changeset, c2: Changeset, reverse: bool): Changeset {
    var f := FollowRaw(c1.ops, c1.bank, c2.ops, c2.bank, reverse);
    Changeset(c1.newLen, c1.newLen + LengthChange(f), Normal(f, true), c2.bank)
  }

  lemma FollowOn(a: Changeset, b: Changeset, reverse: bool, t: string, d: Doc)
    requires IsFor(a, t) && IsFor(b, t) && Text(d) == t
    ensures Fits(a.ops, a.bank, d) && Fits(b.ops, b.bank, d)
    ensures var f, g := Follow(a, b, reverse), Follow(b, a, !reverse);
            && Fits(f.ops, f.bank, After(a, d)) && Fits(g.ops, g.bank, After(b, d))
            && After(f, After(a, d)) == After(g, After(b, d))
  {
    hide Fits, Apply, Safe, Normal, ApplyText, Text, FollowRaw;
    OnDocument(a, t, d);
    OnDocument(b, t, d);
    FollowConverges(a.ops, a.bank, b.ops, b.bank, reverse, d);
    var f := FollowRaw(a.ops, a.bank, b.ops, b.bank, reverse);
    var g := FollowRaw(b.ops, b.bank, a.ops, a.bank, !reverse);
    NormalEffect(f, true, b.bank, After(a, d));
    NormalEffect(g, true, a.bank, After(b, d));
  }

  // What follows `a` is a changeset for the text `a` produces.
  lemma FollowIsFor(a: Changeset, b: Changeset, reverse: bool, t: string)
    requires IsFor(a, t) && IsFor(b, t)
    ensures IsFor(Follow(a, b, reverse), TextAfter(a, t))
  {
    hide Fits, Apply, Safe, Normal, ApplyText, Text, FollowRaw, KeepsLast;
    var u := Untouched(t);
    TextOfUntouched(t);
    OnDocument(a, t, u);
    OnDocument(b, t, u);
    FollowConverges(a.ops, a.bank, b.ops, b.bank, reverse, u);
    var f, t' := FollowRaw(a.ops, a.bank, b.ops, b.bank, reverse), TextAfter(a, t);
    TextOfUntouched(t');
    FitsByText(f, b.bank, After(a, u), Untouched(t'));
    FollowSafe(a.ops, a.bank, b.ops, b.bank, reverse, |t|);
    SafeMeansLastKept(f, b.bank, t');
    AssembledIsFor(f, b.bank, t');
    ApplyLength(f, b.bank, Untouched(t'));
  }

  // Convergence: both ways around, the concurrent changesets merge into one and the same
  // changeset, with every tie between them broken the same way; and on every document the
  // two orders meet, text and attributes.
  lemma FollowMerges(a: Changeset, b: Changeset, reverse: bool, t: string)
    requires IsFor(a, t) && IsFor(b, t)
    ensures var f, g := Follow(a, b, reverse), Follow(b, a, !reverse);
            && IsFor(f, TextAfter(a, t)) && IsFor(g, TextAfter(b, t))
            && Compose(a, f) == Compose(b, g) && IsFor(Compose(a, f), t)
            && TextAfter(f, TextAfter(a, t)) == TextAfter(g, TextAfter(b, t))
            && forall d: Doc | Text(d) == t ::
                 && Fits(a.ops, a.bank, d) && Fits(b.ops, b.bank, d)
                 && Fits(f.ops, f.bank, After(a, d)) && Fits(g.ops, g.bank, After(b, d))
                 && After(f, After(a, d)) == After(g, After(b, d))
  {
    hide Fits, Apply, Safe, Normal, ApplyText, Text, Compose, Follow, IsFor;
    var u := Untouched(t);
    TextOfUntouched(t);
    var f, g := Follow(a, b, reverse), Follow(b, a, !reverse);
    FollowIsFor(a, b, reverse, t);
    FollowIsFor(b, a, !reverse, t);
    FollowOn(a, b, reverse, t, u);
    ComposeIsSequential(a, f, t);
    ComposeIsSequential(b, g, t);
    SameViewSameChangeset(Compose(a, f), Compose(b, g), t);
    forall d: Doc | Text(d) == t
      ensures && Fits(a.ops, a.bank, d) && Fits(b.ops, b.bank, d)
              && Fits(f.ops, f.bank, After(a, d)) && Fits(g.ops, g.bank, After(b, d))
              && After(f, After(a, d)) == After(g, After(b, d))
    {
      FollowOn(a, b, reverse, t, d);
    }
  }
}
