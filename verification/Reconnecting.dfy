/**
 Clients that lose their connection. What is expected of a client is the document with its
 submission in it; delivery and acceptance keep it, and coming back types text twice
 exactly if the submission was already made a revision and types text.
 */
module Reconnecting {
  import opened Attributes
  import opened Changesets
  import opened Composition
  import opened Following
  import opened NormalForm
  import opened Algebra
  import opened Laws
  import opened Inversion
  import opened Cleaning
  import opened Layers
  import opened Network
  import opened NetworkRuns
  import opened Repeating

  // ---------- what is still to be submitted

  ghost function Carried(c: Changeset, submitted: Option<Changeset>): Option<Changeset> {
    if submitted.None? then None else Some(Follow(c, submitted.value, false))
  }

  // What is left of the submission once the messages under way are handled.
  ghost function Outstanding(inbox: seq<Message>, submitted: Option<Changeset>): Option<Changeset>
    decreases |inbox|
  {
    if inbox == [] then submitted
    else match inbox[0]
      case NewChanges(r, c) => Outstanding(inbox[1..], Carried(c, submitted))
      case AcceptCommit(r) => Outstanding(inbox[1..], None)
      case NoCommitPending => Outstanding(inbox[1..], submitted)
  }

  // Carried over every revision, unless it is accepted on the way.
  lemma {:induction false} OutstandingIs(p: Pad, rev: nat, s: Option<Changeset>, inbox: seq<Message>, due: bool,
      lost: bool)
    requires PadOk(p) && rev <= Head(p) && Arriving(p, rev, s, inbox, due, lost)
    ensures Outstanding(inbox, s)
         == if due || s.None? then None else Some(Chain(p.revs[rev..], s.value))
    decreases |inbox|
  {
    hide Follow, PadOk;
    if inbox == [] {
      assert p.revs[rev..] == [];
    } else {
      match inbox[0]
      case NewChanges(r, c) =>
        OutstandingIs(p, rev + 1, Carried(c, s), inbox[1..], due, lost);
        assert p.revs[rev..][0] == c && p.revs[rev..][1..] == p.revs[rev + 1..];
      case AcceptCommit(r) => OutstandingIs(p, rev + 1, None, inbox[1..], false, false);
      case NoCommitPending => OutstandingIs(p, rev, s, inbox[1..], false, false);
    }
  }

  // The revision that the client's submission has become.
  lemma {:induction false} Accepted(p: Pad, rev: nat, s: Option<Changeset>, inbox: seq<Message>, lost: bool)
      returns (j: nat)
    requires PadOk(p) && rev <= Head(p) && Arriving(p, rev, s, inbox, true, lost)
    ensures s.Some? && rev <= j < Head(p) && AcceptCommit(j + 1) in inbox
    ensures p.revs[j] == Chain(p.revs[rev..j], s.value)
    decreases |inbox|
  {
    hide Follow, PadOk;
    match inbox[0]
    case NewChanges(r, c) =>
      j := Accepted(p, rev + 1, Carried(c, s), inbox[1..], lost);
      assert p.revs[rev..j][0] == c && p.revs[rev..j][1..] == p.revs[rev + 1..j];
    case AcceptCommit(r) =>
      j := rev;
      assert p.revs[rev..rev] == [];
  }

  lemma OutstandingOf(p: Pad, k: Client)
    requires PadOk(p) && ClientOk(p, k)
    ensures var o := Outstanding(k.inbox, k.layers.submitted);
            && o == (if HasAccept(k.inbox) || k.layers.submitted.None? then None
                     else Some(Chain(p.revs[k.rev..], k.layers.submitted.value)))
            && (o.Some? ==> Applies(o.value, p.docs[Head(p)]))
  {
    hide Applies, Applied, IsDoc, Coherent, Arriving, Chain, HasAccept, Outstanding, SubmittedFits;
    OutstandingIs(p, k.rev, k.layers.submitted, k.inbox, HasAccept(k.inbox),
                  k.committing && k.outbox.None? && !HasAccept(k.inbox));
    CoherentFits(k.layers);
    if k.layers.submitted.Some? {
      SubmittedIs(k.layers);
      assert p.revs[k.rev..] == p.revs[k.rev..Head(p)];
      ChainApplies(p, k.rev, Head(p), k.layers.submitted.value);
    }
  }

  lemma SubmittedIs(s: Layers)
    requires SubmittedFits(s) && s.submitted.Some?
    ensures Applies(s.submitted.value, s.base)
  {}

  // The pad's document once the messages under way are handled and what the client has
  // submitted is in it.
  ghost function Expected(p: Pad, k: Client): Doc
    requires PadOk(p) && ClientOk(p, k)
  {
    OutstandingOf(p, k);
    var o := Outstanding(k.inbox, k.layers.submitted);
    if o.None? then p.docs[Head(p)] else Applied(o.value, p.docs[Head(p)])
  }

  // Handling a message keeps it, and with no message left it is what the client holds.
  lemma HandlingKeeps(n: Net, i: nat)
    requires NetOk(n) && i < |n.clients|
    ensures n.clients[i].inbox != [] ==>
              var n' := Stepped(n, Deliver(i));
              && NetOk(n') && i < |n'.clients| && n'.pad == n.pad
              && Expected(n'.pad, n'.clients[i]) == Expected(n.pad, n.clients[i])
    ensures n.clients[i].inbox == [] ==>
              Coherent(n.clients[i].layers) && Expected(n.pad, n.clients[i]) == Sent(n.clients[i].layers)
  {
    hide Applies, Applied, IsDoc, Coherent, Arriving, Chain, HasAccept, SubmittedFits, Handled, Outstanding;
    var p, k := n.pad, n.clients[i];
    if k.inbox != [] {
      StepKeeps(n, Deliver(i));
      MessageIsGood(p, k);
      DeliverKeeps(p, k);
      HandledOutstanding(k);
      OutstandingOf(p, k);
      OutstandingOf(p, Handled(k));
    } else {
      NothingUnderWay(p, k);
      CoherentFits(k.layers);
      NothingOutstanding(k);
    }
  }

  lemma NothingOutstanding(k: Client)
    requires k.inbox == []
    ensures Outstanding(k.inbox, k.layers.submitted) == k.layers.submitted
  {}

  lemma {:induction false} HandledOutstanding(k: Client)
    requires k.inbox != []
    requires k.inbox[0].NewChanges? ==> Applies(k.inbox[0].c, k.layers.base)
    requires k.inbox[0].AcceptCommit? ==> k.layers.submitted.Some? && SubmittedFits(k.layers)
    ensures Outstanding(Handled(k).inbox, Handled(k).layers.submitted) == Outstanding(k.inbox, k.layers.submitted)
  {
    hide Applies, Applied, SubmittedFits, Follow;
  }

  lemma NothingUnderWay(p: Pad, k: Client)
    requires PadOk(p) && ClientOk(p, k) && k.inbox == []
    ensures k.rev == Head(p)
  {}

  // The server's making a revision of it keeps it.
  lemma TakingKeeps(n: Net, i: nat)
    requires NetOk(n) && i < |n.clients| && n.clients[i].outbox.Some?
    ensures var n' := Stepped(n, Take(i));
            && NetOk(n') && i < |n'.clients| && Expected(n'.pad, n'.clients[i]) == Expected(n.pad, n.clients[i])
            && n'.pad.docs[Head(n'.pad)] == Expected(n.pad, n.clients[i])
  {
    hide Applies, Applied, IsDoc, Coherent, Arriving, Chain, HasAccept, PadOk, ClientOk, Taken, Outstanding;
    var p, k := n.pad, n.clients[i];
    TakenApplies(n, i);
    StepKeeps(n, Take(i));
    AppendedOk(p, Taken(n, i));
    SubmissionUnderWay(p, k);
    OutstandingOf(p, k);
    var n' := Stepped(n, Take(i));
    assert n'.clients[i] == Announced(k, Head(p) + 1, Taken(n, i), true);
    AcceptSnoc(k.inbox, AcceptCommit(Head(p) + 1));
    HeadDoc(p);
    HeadDoc(n'.pad);
    OutstandingOf(n'.pad, n'.clients[i]);
    assert Expected(n'.pad, n'.clients[i]) == n'.pad.docs[Head(n'.pad)];
  }

  lemma SubmissionUnderWay(p: Pad, k: Client)
    requires PadOk(p) && ClientOk(p, k) && k.outbox.Some?
    ensures k.layers.submitted.Some? && !HasAccept(k.inbox)
  {
    hide Applies, Applied, IsDoc, Coherent, Arriving, Chain, HasAccept;
  }

  // ---------- coming back

  // The submission has been made a revision, of which the client has not heard, and it
  // types text.
  ghost predicate TypesTwice(k: Client) {
    HasAccept(k.inbox) && k.layers.submitted.Some? && k.layers.submitted.value.bank != ""
  }

  lemma {:induction false} ChainTypes(p: Pad, b: nat, r: nat, c: Changeset)
    requires PadOk(p) && b <= r <= Head(p) && Applies(c, p.docs[b])
    ensures var e := Chain(p.revs[b..r], c);
            && e.bank == c.bank && Applies(e, p.docs[r])
            && (c.newLen == c.oldLen + |c.bank| ==> e.newLen == e.oldLen + |e.bank|)
    decreases r
  {
    hide Applies, Applied, IsDoc, Follow;
    if b == r {
      assert p.revs[b..r] == [];
    } else {
      ChainTypes(p, b, r - 1, c);
      assert p.revs[b..r] == p.revs[b..r - 1] + [p.revs[r - 1]];
      ChainSnoc(p.revs[b..r - 1], p.revs[r - 1], c);
      FollowTypes(p.revs[r - 1], Chain(p.revs[b..r - 1], c), p.docs[r - 1]);
    }
  }

  lemma FollowTypes(a: Changeset, c: Changeset, d: Doc)
    requires Applies(a, d) && Applies(c, d) && IsDoc(d)
    ensures var f := Follow(a, c, false);
            && f.bank == c.bank && Applies(f, Applied(a, d))
            && (c.newLen == c.oldLen + |c.bank| ==> f.newLen == f.oldLen + |f.bank|)
  {
    hide IsFor, Clean, Styled, Text, FollowRaw, Normal, LengthChange;
    FollowApplied(a, c, false, d);
    if c.newLen == c.oldLen + |c.bank| { TypingStays(a, c, false, Text(d)); }
  }

  lemma {:induction false} RestyledOnly(ops: seq<Op>, bank: string, d: Doc)
    requires Fits(ops, bank, d) && bank == "" && DeletesNothing(ops)
    ensures Text(Apply(ops, bank, d)) == Text(d)
    decreases |ops|
  {
    hide OpFits, Fits, Apply, Text, DeletesNothing;
    if ops == [] {
      NothingToDo(bank, d);
    } else {
      Unfold(ops, bank, d);
      FitBounds(ops[0], bank, d);
      DeletesNothingTail(ops);
      var k := ops[0].chars;
      var rest := Apply(ops[1..], bank, d[k..]);
      RestyledOnly(ops[1..], bank, d[k..]);
      RestyledText(d[..k], ops[0].attribs);
      TextConcat(Restyle(d[..k], ops[0].attribs), rest);
      TextConcat(d[..k], d[k..]);
      assert d[..k] + d[k..] == d;
    }
  }

  // A changeset that adds its bank to the length leaves the text alone exactly if the
  // bank is empty.
  lemma TypingShows(c: Changeset, d: Doc)
    requires Applies(c, d) && IsDoc(d) && c.newLen == c.oldLen + |c.bank|
    ensures |Applied(c, d)| == |d| + |c.bank|
    ensures Text(Applied(c, d)) == Text(d) <==> c.bank == ""
  {
    hide Fits, Apply, Safe, Normal, LengthChange, Clean, Styled, ApplyText;
    AppliedDoc(c, d);
    TextLength(d);
    TextLength(Applied(c, d));
    if c.bank == "" {
      OnDocument(c, Text(d), d);
      TypedLength(c.ops, c.bank, Untouched(Text(d)));
      RestyledOnly(c.ops, c.bank, d);
    }
  }

  // What is expected of a client that comes back is what was expected before, unless the
  // submission has been accepted already: then all its text is to be typed once more.
  lemma ReconnectTypesTwice(n: Net, i: nat)
    requires NetOk(n) && i < |n.clients|
    ensures var n' := Stepped(n, Reconnect(i));
            NetOk(n') && i < |n'.clients| && n'.pad == n.pad
    ensures var p, k, k' := n.pad, n.clients[i], Stepped(n, Reconnect(i)).clients[i];
            && (Text(Expected(p, k')) == Text(Expected(p, k)) <==> !TypesTwice(k))
            && (!HasAccept(k.inbox) ==> Expected(p, k') == Expected(p, k))
            && (HasAccept(k.inbox) ==>
                  && k.layers.submitted.Some? && Expected(p, k) == p.docs[Head(p)]
                  && |Expected(p, k')| == |Expected(p, k)| + |k.layers.submitted.value.bank|
                  && var o := Outstanding(k'.inbox, k'.layers.submitted);
                     && o.Some? && o.value.bank == k.layers.submitted.value.bank
                     && exists j: nat | j < Head(p) && AcceptCommit(j + 1) in k.inbox ::
                          o.value == Chain(p.revs[j + 1..], Follow(p.revs[j], p.revs[j], false)))
  {
    hide Applies, Applied, IsDoc, Coherent, Arriving, Chain, HasAccept, PadOk, ClientOk, Outstanding, Follow, CatchUp,
         Text;
    StepKeeps(n, Reconnect(i));
    var p, k := n.pad, n.clients[i];
    var k' := Stepped(n, Reconnect(i)).clients[i];
    assert k' == Reconnected(p, k);
    BackAgain(p, k);
    OutstandingOf(p, k);
    OutstandingOf(p, k');
    if HasAccept(k.inbox) {
      var j := OutstandingTwice(p, k);
      var o := Outstanding(k'.inbox, k'.layers.submitted).value;
      HeadDoc(p);
      TypingShows(o, p.docs[Head(p)]);
    }
  }

  lemma HeadDoc(p: Pad)
    requires PadOk(p)
    ensures |p.docs| == Head(p) + 1 && IsDoc(p.docs[Head(p)])
  {
    hide IsDoc, Applies, Applied;
  }

  lemma BackAgain(p: Pad, k: Client)
    requires PadOk(p) && ClientOk(p, k)
    ensures ClientOk(p, Reconnected(p, k)) && !HasAccept(Reconnected(p, k).inbox)
  {
    hide Applies, Applied, IsDoc, Coherent, Arriving, Chain, CatchUp;
    ReconnectKeeps(p, k);
    ArrivingCatchUp(p, k.rev, k.layers.submitted, if k.committing then [NoCommitPending] else [], k.committing);
  }

  lemma OutstandingTwice(p: Pad, k: Client) returns (j: nat)
    requires PadOk(p) && ClientOk(p, k) && HasAccept(k.inbox)
    ensures k.layers.submitted.Some? && k.rev <= j < Head(p) && AcceptCommit(j + 1) in k.inbox
    ensures var o := Chain(p.revs[k.rev..], k.layers.submitted.value);
            && o == Chain(p.revs[j + 1..], Follow(p.revs[j], p.revs[j], false))
            && o.bank == k.layers.submitted.value.bank
            && o.newLen == o.oldLen + |o.bank| && Applies(o, p.docs[Head(p)])
  {
    hide Applies, Applied, IsDoc, Coherent, Arriving, Chain, HasAccept, Follow, SubmittedFits;
    j := Accepted(p, k.rev, k.layers.submitted, k.inbox, false);
    var s := k.layers.submitted.value;
    CoherentFits(k.layers);
    SubmittedIs(k.layers);
    ChainTypes(p, k.rev, j, s);
    var own := p.revs[j];
    assert p.revs[k.rev..] == p.revs[k.rev..j] + p.revs[j..];
    ChainConcat(p.revs[k.rev..j], p.revs[j..], s);
    ChainCons(p, j, own);
    SelfFollowApplied(own, p.docs[j]);
    assert p.revs[j + 1..] == p.revs[j + 1..Head(p)];
    ChainTypes(p, j + 1, Head(p), Follow(own, own, false));
  }

  lemma ChainCons(p: Pad, j: nat, c: Changeset)
    requires j < Head(p)
    ensures Chain(p.revs[j..], c) == Chain(p.revs[j + 1..], Follow(p.revs[j], c, false))
  {
    hide Follow;
    assert p.revs[j..][1..] == p.revs[j + 1..];
  }

  lemma SelfFollowApplied(c: Changeset, d: Doc)
    requires Applies(c, d) && IsDoc(d)
    ensures var f := Follow(c, c, false);
            Applies(f, Applied(c, d)) && f.bank == c.bank && f.newLen == f.oldLen + |f.bank|
  {
    hide IsFor, Clean, Styled, Text, Follow;
    FollowApplied(c, c, false, d);
    SelfFollow(c, false, Text(d));
  }

  // ---------- a run in which it happens

  lemma FollowIdentity(c: Changeset, reverse: bool, t: string)
    requires IsFor(c, t)
    ensures Follow(Identity(|t|), c, reverse) == c
  {
    hide Fits, Apply, Safe, Normal, LengthChange, FollowRaw;
    FollowNothing(c.ops, c.bank, reverse);
  }

  // The layers of a client whose submission `c`, and nothing else, comes back to it.
  lemma OwnComesBack(d: Doc, c: Changeset)
    requires IsDoc(d) && Applies(c, d)
    ensures var s := Layers(d, Some(c), Identity(c.newLen));
            && Coherent(s) && Coherent(Rebased(s, c))
            && Applies(Follow(c, c, false), Applied(c, d))
            && Shown(Rebased(s, c)) == Applied(Follow(c, c, false), Applied(c, d))
  {
    hide Applies, Applied, IsDoc, Follow, Coherent, Shown, SubmittedFits;
    var s := Layers(d, Some(c), Identity(c.newLen));
    WithOwn(d, c);
    RebaseShows(s, c);
    FollowApplied(c, c, false, d);
    CrossedIs(d, c);
  }

  lemma WithOwn(d: Doc, c: Changeset)
    requires IsDoc(d) && Applies(c, d)
    ensures var s := Layers(d, Some(c), Identity(c.newLen)); Coherent(s) && Shown(s) == Applied(c, d)
  {
    hide Applies, Applied, IsDoc;
    AppliedDoc(c, d);
    IdentityApplies(Applied(c, d));
  }

  lemma CrossedIs(d: Doc, c: Changeset)
    requires IsDoc(d) && Applies(c, d)
    ensures PostChange(Layers(d, Some(c), Identity(c.newLen)), c) == Follow(c, c, true)
  {
    hide IsDoc, Follow, IsFor, Clean, Text, Applied;
    AppliedDoc(c, d);
    FollowApplied(c, c, true, d);
    TextLength(Applied(c, d));
    FollowIdentity(Follow(c, c, true), false, Text(Applied(c, d)));
  }

  lemma EditedFirst(d: Doc, c: Changeset)
    requires IsDoc(d) && Applies(c, d)
    ensures Coherent(Start(d)) && Shown(Start(d)) == d && Edited(Start(d), c) == Layers(d, None, c)
  {
    hide IsDoc, Applied, IsFor, Clean, Text, Compose, Coherent, Shown;
    StartShows(d);
    TextLength(d);
    IdentityIsUnit(c, Text(d));
  }

  // The pad with its one client, whose change has been made a revision.
  ghost function MadeOnce(d: Doc, c: Changeset): Net
    requires Applies(c, d)
  {
    Net(Pad([d, Applied(c, d)], [c]),
        [Client(Layers(d, Some(c), Identity(c.newLen)), 0, true, [AcceptCommit(1)], None)])
  }

  lemma FirstTime(d: Doc, c: Changeset)
    requires IsDoc(d) && Applies(c, d) && !IsIdentity(c)
    ensures Reaches(d, [Join, Step.Edit(0, c), Submit(0), Take(0)], MadeOnce(d, c))
  {
    hide Applies, Applied, IsDoc, Coherent, Shown, Reaches, Compose;
    var p, k := Pad([d], []), Client(Start(d), 0, false, [], None);
    Joined(d);
    EditedFirst(d, c);
    var k2 := k.(layers := Layers(d, None, c));
    GoesAlone(d, [Join], p, k, k2, Step.Edit(0, c));
    var k3 := Submitting(k2);
    GoesAlone(d, [Join] + [Step.Edit(0, c)], p, k2, k3, Submit(0));
    GoesTaken(d, [Join] + [Step.Edit(0, c)] + [Submit(0)], p, k3);
    assert [Join] + [Step.Edit(0, c)] + [Submit(0)] + [Take(0)] == [Join, Step.Edit(0, c), Submit(0), Take(0)];
    assert [] + [AcceptCommit(1)] == [AcceptCommit(1)];
    assert [d] + [Applied(c, d)] == [d, Applied(c, d)] && [] + [c] == [c];
  }

  // Somebody opens a pad, makes a change and submits it; the server makes a revision of it,
  // and the connection is lost. The client comes back, is told its own change as somebody
  // else's and that nothing is pending, submits again, and what it typed is in the pad twice.
  lemma TypedTwice(d: Doc, c: Changeset) returns (n: Net)
    requires IsDoc(d) && Applies(c, d) && !IsIdentity(c)
    ensures Reaches(d, [Join, Step.Edit(0, c), Submit(0), Take(0), Reconnect(0), Deliver(0), Deliver(0), Submit(0),
                        Take(0)], n)
    ensures |n.pad.docs| == 3 && n.pad.docs[1] == Applied(c, d)
    ensures Applies(Follow(c, c, false), n.pad.docs[1]) && n.pad.docs[2] == Applied(Follow(c, c, false), n.pad.docs[1])
    ensures |n.pad.docs[2]| == |n.pad.docs[1]| + |c.bank|
  {
    hide Applies, Applied, IsDoc, Coherent, Shown, Reaches, Follow, SubmittedFits;
    FirstTime(d, c);
    var p, k := MadeOnce(d, c).pad, MadeOnce(d, c).clients[0];
    var first := [Join, Step.Edit(0, c), Submit(0), Take(0)];
    var k1 := k.(inbox := [NewChanges(1, c), NoCommitPending]);
    CaughtUp(p, k, c);
    GoesAlone(d, first, p, k, k1, Reconnect(0));
    OwnComesBack(d, c);
    var k2 := Client(Rebased(k.layers, c), 1, true, [NoCommitPending], None);
    assert k1.inbox[1..] == [NoCommitPending];
    GoesAlone(d, first + [Reconnect(0)], p, k1, k2, Deliver(0));
    var k3 := k2.(committing := false, inbox := []);
    assert k2.inbox[1..] == [];
    GoesAlone(d, first + [Reconnect(0)] + [Deliver(0)], p, k2, k3, Deliver(0));
    PrepareShows(k3.layers);
    var k4 := Submitting(k3);
    GoesAlone(d, first + [Reconnect(0)] + [Deliver(0)] + [Deliver(0)], p, k3, k4, Submit(0));
    GoesTaken(d, first + [Reconnect(0)] + [Deliver(0)] + [Deliver(0)] + [Submit(0)], p, k4);
    var c2 := k4.outbox.value.c;
    n := Net(Appended(p, c2), [k4.(inbox := k4.inbox + [AcceptCommit(2)], outbox := None)]);
    assert first + [Reconnect(0)] + [Deliver(0)] + [Deliver(0)] + [Submit(0)] + [Take(0)]
        == [Join, Step.Edit(0, c), Submit(0), Take(0), Reconnect(0), Deliver(0), Deliver(0), Submit(0), Take(0)];
    SelfFollowApplied(c, d);
    AppliedDoc(c, d);
    AppliedDoc(Follow(c, c, false), Applied(c, d));
  }

  lemma CaughtUp(p: Pad, k: Client, c: Changeset)
    requires p.revs == [c] && k.rev == 0 && k.committing
    ensures Reconnected(p, k).inbox == [NewChanges(1, c), NoCommitPending]
  {
    assert CatchUp(p, 1) == [];
    assert [NewChanges(1, c)] + [] + [NoCommitPending] == [NewChanges(1, c), NoCommitPending];
  }
}
