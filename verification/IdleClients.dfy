/**
 Clients that do nothing. When somebody else restyles text, `follow` copies the styling into
 the changeset of a client that has made no change, as if it were the client's own.
 */
module IdleClients {
  import opened Ordering
  import opened Attributes
  import opened Changesets
  import opened Composition
  import opened Following
  import opened NormalForm
  import opened Algebra
  import opened Laws
  import opened Inversion
  import opened Cleaning
  import opened Layers
  import opened Network
  import opened NetworkRuns
  import opened Repeating
  import opened Reconnecting

  // ---------- what follows from nothing

  ghost predicate RestylesNothing(ops: seq<Op>) {
    forall i :: 0 <= i < |ops| && ops[i].opcode == Keep ==> ops[i].attribs == []
  }

  ghost predicate Proper(ops: seq<Op>) {
    forall i :: 0 <= i < |ops| ==> 0 < ops[i].chars && ops[i].opcode != NoOp
  }

  // The assembler drops everything only if there is nothing but plain keeps.
  lemma {:induction false} OnlyPlainVanishes(ops: seq<Op>)
    requires Proper(ops)
    ensures Normal(ops, true) == [] <==> PlainKeeps(ops)
  {
    if ops != [] {
      OnlyPlainVanishes(ops[1..]);
      assert ops == [ops[0]] + ops[1..];
    }
  }

  lemma {:induction false} FitsProper(ops: seq<Op>, bank: string, d: Doc)
    requires Fits(ops, bank, d)
    ensures Proper(ops)
    decreases |ops|
  {
    hide LinesTrue;
    if ops != [] { FitsProper(ops[1..], bank[BankUse(ops[0])..], d[DocUse(ops[0])..]); }
  }

  lemma PlainFirst(op: Op, ops: seq<Op>)
    requires 0 < op.chars && op.opcode != NoOp && Proper(ops)
    ensures Proper([op] + ops) && LengthChange([op] + ops) == Growth(op) + LengthChange(ops)
    ensures PlainKeeps([op] + ops) <==> op.opcode == Keep && op.attribs == [] && PlainKeeps(ops)
  {
    assert ([op] + ops)[1..] == ops;
  }

  lemma TailOf(ops: seq<Op>)
    requires ops != [] && Proper(ops)
    ensures 0 < ops[0].chars && ops[0].opcode != NoOp && Proper(ops[1..])
    ensures RestylesNothing(ops) <==> (ops[0].opcode == Keep ==> ops[0].attribs == []) && RestylesNothing(ops[1..])
  {
    assert ops == [ops[0]] + ops[1..];
  }

  lemma {:induction false} FollowedByNothing(a: seq<Op>, ba: string, reverse: bool)
    requires Proper(a)
    ensures var f := FollowRaw(a, ba, [], "", reverse);
            Proper(f) && LengthChange(f) == 0 && (PlainKeeps(f) <==> RestylesNothing(a))
    decreases |a|
  {
    hide Proper, PlainKeeps, RestylesNothing, LengthChange, Drop;
    if a == [] {
      NothingAtAll();
    } else {
      TailOf(a);
      var ba' := if Inserting(a) then Drop(ba, a[0].chars) else ba;
      FollowedByNothing(a[1..], ba', reverse);
      var rest := FollowRaw(a[1..], ba', [], "", reverse);
      PlainFirst(Op(Keep, a[0].chars, a[0].lines, []), rest);
      PlainFirst(a[0], rest);
    }
  }

  lemma NothingAtAll()
    ensures Proper([]) && PlainKeeps([]) && RestylesNothing([]) && LengthChange([]) == 0
  {}

  // Nothing follows from nothing exactly if nothing was restyled.
  lemma IdentityFollows(c: Changeset, reverse: bool, t: string)
    requires IsFor(c, t)
    ensures IsIdentity(Follow(c, Identity(|t|), reverse)) <==> RestylesNothing(c.ops)
  {
    hide Fits, Safe, Normal, LengthChange, FollowRaw, RestylesNothing, PlainKeeps;
    FitsProper(c.ops, c.bank, Untouched(t));
    FollowedByNothing(c.ops, c.bank, reverse);
    OnlyPlainVanishes(FollowRaw(c.ops, c.bank, [], "", reverse));
  }

  // ---------- a client that has changed nothing

  ghost predicate Idle(s: Layers) {
    s.submitted.None? && IsIdentity(s.user)
  }

  // Somebody else's changes arrive at a client that has changed nothing: it shows the new
  // document, but it has nothing to submit exactly if they restyle nothing.
  lemma IdleStays(s: Layers, c: Changeset)
    requires Coherent(s) && Idle(s) && Applies(c, s.base)
    ensures Coherent(Rebased(s, c)) && Shown(Rebased(s, c)) == Applied(c, s.base)
    ensures ToSubmit(s).None?
    ensures ToSubmit(Rebased(s, c)).None? <==> RestylesNothing(c.ops)
    ensures Idle(Rebased(s, c)) <==> RestylesNothing(c.ops)
  {
    hide Applies, Applied, IsDoc, Follow, Coherent, Shown, RestylesNothing;
    RebaseShows(s, c);
    NothingUncommitted(s);
    IdleUser(s);
    NothingCrossed(s, c);
  }

  lemma IdleUser(s: Layers)
    requires Coherent(s) && Idle(s)
    ensures s.user == Identity(|s.base|)
  {
    hide Apply, Safe, Normal, Text, Clean, Styled, Untouched;
    TextLength(s.base);
  }

  lemma NothingCrossed(s: Layers, c: Changeset)
    requires s.submitted.None? && s.user == Identity(|s.base|) && Applies(c, s.base)
    ensures PostChange(s, c) == c
    ensures IsIdentity(Rebased(s, c).user) <==> RestylesNothing(c.ops)
  {
    hide IsFor, Follow, Clean, Text, Applied, RestylesNothing;
    TextLength(s.base);
    FollowIdentity(c, false, Text(s.base));
    IdentityFollows(c, true, Text(s.base));
  }

  // ---------- a run that ends with a client out of step

  // The first character gets the value `v` for the key.
  function First(k: Key, v: string, n: nat): Changeset {
    Changeset(n, n, [Op(Keep, 1, 0, [Pair(k, v)])], "")
  }

  lemma {:induction false} FirstFits(op: Op, d: Doc)
    requires d != [] && d[0].ch != '\n' && op.opcode == Keep && op.chars == 1 && op.lines == 0
    ensures Fits([op], "", d) && Apply([op], "", d) == [Restyled(d[0], op.attribs)] + d[1..]
  {
    hide Restyled, Fits, Apply;
    OneChar(d, op.attribs);
    NoMore(d[1..]);
    Push(op, [], "", d);
    assert [op] + [] == [op];
  }

  lemma NoMore(d: Doc)
    ensures Fits([], "", d) && Apply([], "", d) == d
  {}

  lemma OneChar(d: Doc, a: Attribs)
    requires d != []
    ensures Restyle(d[..1], a) == [Restyled(d[0], a)]
    ensures Text(d[..1]) == [d[0].ch] && Newlines([d[0].ch]) == if d[0].ch == '\n' then 1 else 0
  {
    assert [d[0].ch][1..] == [];
  }

  lemma OneNormal(op: Op)
    requires op.opcode == Keep && 0 < op.chars
    ensures Normal([op], true) == if op.attribs == [] then [] else [op]
    ensures LengthChange([op]) == 0
  {
    assert [op][1..] == [];
  }

  lemma {:induction false} FirstApplies(k: Key, v: string, d: Doc)
    requires IsDoc(d) && |d| >= 2 && d[0].ch != '\n'
    ensures Applies(First(k, v, |d|), d)
    ensures Applied(First(k, v, |d|), d) == [Restyled(d[0], [Pair(k, v)])] + d[1..]
  {
    hide Restyled, Styled, Fits, Apply, Normal;
    var op := Op(Keep, 1, 0, [Pair(k, v)]);
    FirstFits(op, d);
    FirstFits(op, Untouched(Text(d)));
    OneNormal(op);
    assert [op][1..] == [];
    var c, t := First(k, v, |d|), Text(d);
    assert Safe(c.ops, |t|) && Fits(c.ops, c.bank, Untouched(t)) && Clean(c.ops);
  }

  lemma OneKeepFollows(a: Op, b: Op, reverse: bool)
    requires a.opcode == b.opcode == Keep && 0 < a.chars == b.chars
    ensures FollowRaw([a], "", [b], "", reverse) == [Op(Keep, a.chars, a.lines, FollowAttributes(a.attribs, b.attribs))]
    ensures FollowRaw([a], "", [], "", reverse) == [a]
  {
    hide FollowAttributes;
    assert [a][1..] == [] && Chop([b], a.chars, a.lines) == [];
  }

  lemma EarlierWins(k: Key, v: string, w: string)
    requires StrLe(v, w)
    ensures FollowAttributes([Pair(k, v)], [Pair(k, w)]) == []
  {
    OneBinding(k, v);
    OneBinding(k, w);
    assert FollowMaps(map[k := v], map[k := w]) == map[] == MapOf([]);
    ListingOfMap([]);
  }

  lemma OneBinding(k: Key, v: string)
    ensures MapOf([Pair(k, v)]) == map[k := v]
  {
    assert [Pair(k, v)][..0] == [];
  }

  lemma FirstFollows(k: Key, v: string, w: string, n: nat)
    requires StrLe(v, w)
    ensures Follow(First(k, v, n), Identity(n), true) == First(k, v, n)
    ensures Follow(First(k, v, n), First(k, w, n), false) == Identity(n)
  {
    hide Normal, FollowRaw, LengthChange;
    var a, b := First(k, v, n).ops[0], First(k, w, n).ops[0];
    OneKeepFollows(a, b, true);
    OneKeepFollows(a, b, false);
    EarlierWins(k, v, w);
    OneNormal(a);
    OneNormal(a.(attribs := []));
  }

  // The two changes leave different documents.
  lemma Differs(c: Cell, k: Key, v: string, w: string)
    requires v != w
    ensures Restyled(c, [Pair(k, v)]) != Restyled(Restyled(c, [Pair(k, v)]), [Pair(k, w)])
  {
    var m, s := MapOf(c.attribs), c.Old?;
    OneBinding(k, v);
    OneBinding(k, w);
    var m' := ComposeMaps(m, map[k := v], s);
    ComposeAt(m, map[k := v], s, k);
    ComposeAt(m', map[k := w], s, k);
    assert MapOf(Restyled(c, [Pair(k, v)]).attribs) == m';
  }

  // What the client makes of the two changes.
  lemma {:induction false} LayersApart(d: Doc, k: Key, v: string, w: string)
    requires IsDoc(d) && |d| >= 2 && d[0].ch != '\n' && StrLe(v, w) && v != w
    ensures var c1, c2 := First(k, v, |d|), First(k, w, |d|);
            && Applies(c1, d) && IsDoc(Applied(c1, d)) && Applies(c2, Applied(c1, d))
            && var s1 := Rebased(Start(d), c1);
               && s1.base == Applied(c1, d)
               && var s2 := Rebased(s1, c2);
                  && Coherent(s2) && s2.base == Applied(c2, Applied(c1, d))
                  && Shown(s2) == Applied(c1, d) != s2.base && ToSubmit(s2).Some?
  {
    hide Applies, Applied, IsDoc, Coherent, Shown, Follow, First;
    var c1, c2, s := First(k, v, |d|), First(k, w, |d|), Start(d);
    FirstApplies(k, v, d);
    AppliedDoc(c1, d);
    var d1 := Applied(c1, d);
    FirstApplies(k, w, d1);
    Differs(d[0], k, v, w);
    StartShows(d);
    IdleStays(s, c1);
    var s1 := Rebased(s, c1);
    RebaseShows(s1, c2);
    FirstFollows(k, v, w, |d|);
    IdentityApplies(d1);
    var s2 := Rebased(s1, c2);
    if ToSubmit(s2).None? { NothingUncommitted(s2); }
  }

  // A client opens a pad, and two revisions are made by others.
  lemma TwoRevisions(d: Doc, c1: Changeset, c2: Changeset)
    requires IsDoc(d) && Applies(c1, d) && Applies(c2, Applied(c1, d))
    ensures var d1 := Applied(c1, d);
            Reaches(d, [Join] + [Revise(c1)] + [Revise(c2)],
                    Net(Pad([d, d1, Applied(c2, d1)], [c1, c2]),
                        [Client(Start(d), 0, false, [NewChanges(1, c1), NewChanges(2, c2)], None)]))
  {
    hide Applies, Applied, IsDoc, Reaches, PadOk, Start;
    var d1 := Applied(c1, d);
    var p0, p1 := Pad([d], []), Pad([d, d1], [c1]);
    var k0 := Client(Start(d), 0, false, [], None);
    var k1 := k0.(inbox := [NewChanges(1, c1)]);
    Joined(d);
    StillOk(d, [Join], p0, k0);
    assert [] + [NewChanges(1, c1)] == [NewChanges(1, c1)] && [d] + [d1] == [d, d1] && [] + [c1] == [c1];
    GoesRevised(d, [Join], p0, k0, c1);
    StillOk(d, [Join] + [Revise(c1)], p1, k1);
    assert k1.inbox + [NewChanges(2, c2)] == [NewChanges(1, c1), NewChanges(2, c2)];
    assert [d, d1] + [Applied(c2, d1)] == [d, d1, Applied(c2, d1)] && [c1] + [c2] == [c1, c2];
    GoesRevised(d, [Join] + [Revise(c1)], p1, k1, c2);
  }

  // A client opens a pad and does nothing. Two others, or one twice, give the first
  // character a value and then a later one; both changes arrive. The client shows the
  // earlier value, the server has the later one, and the client takes the earlier one for a
  // change of its own that it has still to submit.
  lemma {:induction false} OutOfStep(d: Doc, k: Key, v: string, w: string) returns (n: Net)
    requires IsDoc(d) && |d| >= 2 && d[0].ch != '\n' && Earlier(v, w)
    ensures Reaches(d, [Join, Revise(First(k, v, |d|)), Revise(First(k, w, |d|)), Deliver(0), Deliver(0)], n)
    ensures |n.clients| == 1 && n.clients[0].inbox == [] && n.clients[0].rev == Head(n.pad)
    ensures var s := n.clients[0].layers;
            && Coherent(s) && s.base == n.pad.docs[Head(n.pad)] && Shown(s) != s.base && ToSubmit(s).Some?
  {
    hide Applies, Applied, IsDoc, Coherent, Shown, Reaches, Follow, First, Rebased, ToSubmit, PadOk, Earlier, StrLe;
    EarlierIs(v, w);
    LayersApart(d, k, v, w);
    var c1, c2 := First(k, v, |d|), First(k, w, |d|);
    var d1 := Applied(c1, d);
    var p := Pad([d, d1, Applied(c2, d1)], [c1, c2]);
    var s1 := Rebased(Start(d), c1);
    var k2 := Client(Start(d), 0, false, [NewChanges(1, c1), NewChanges(2, c2)], None);
    var k3 := Client(s1, 1, false, [NewChanges(2, c2)], None);
    var k4 := Client(Rebased(s1, c2), 2, false, [], None);
    TwoRevisions(d, c1, c2);
    assert k2.inbox[1..] == k3.inbox && k3.inbox[1..] == [];
    var steps := [Join] + [Revise(c1)] + [Revise(c2)];
    GoesAlone(d, steps, p, k2, k3, Deliver(0));
    GoesAlone(d, steps + [Deliver(0)], p, k3, k4, Deliver(0));
    n := Net(p, [k4]);
    assert steps + [Deliver(0)] + [Deliver(0)] == [Join, Revise(c1), Revise(c2), Deliver(0), Deliver(0)];
  }

  lemma StillOk(d: Doc, steps: seq<Step>, p: Pad, k: Client)
    requires Reaches(d, steps, Net(p, [k]))
    ensures PadOk(p)
  {
    hide PadOk, ClientOk, Network.Run;
  }
}
