/**
 A pad and its clients: every interleaving of edits, submissions, acceptances, lost
 connections and deliveries over first-in first-out channels.
 */
module Network {
  import opened Attributes
  import opened Changesets
  import opened Composition
  import opened NormalForm
  import opened Algebra
  import opened Laws
  import opened Cleaning
  import opened Layers

  // ---------- the server

  // `docs[r]` is the document after revision r, `revs[r]` is the changeset of revision r + 1.
  datatype Pad = Pad(docs: seq<Doc>, revs: seq<Changeset>)

  ghost function Head(p: Pad): nat { |p.revs| }

  ghost predicate PadOk(p: Pad) {
    && |p.docs| == |p.revs| + 1
    && (forall r :: 0 <= r < |p.docs| ==> IsDoc(p.docs[r]))
    && (forall r :: 0 <= r < |p.revs| ==>
          Applies(p.revs[r], p.docs[r]) && p.docs[r + 1] == Applied(p.revs[r], p.docs[r]))
  }

  ghost function Appended(p: Pad, c: Changeset): Pad
    requires PadOk(p) && Applies(c, p.docs[Head(p)])
  {
    Pad(p.docs + [Applied(c, p.docs[Head(p)])], p.revs + [c])
  }

  lemma AppendedOk(p: Pad, c: Changeset)
    requires PadOk(p) && Applies(c, p.docs[Head(p)])
    ensures PadOk(Appended(p, c)) && Head(Appended(p, c)) == Head(p) + 1
    ensures forall r :: 0 <= r <= Head(p) ==> Appended(p, c).docs[r] == p.docs[r]
    ensures forall r :: 0 <= r < Head(p) ==> Appended(p, c).revs[r] == p.revs[r]
    ensures Appended(p, c).revs[Head(p)] == c
  {
    hide Applies, Applied, IsDoc;
    AppliedDoc(c, p.docs[Head(p)]);
  }

  // A changeset carried over the given revisions, as `applyUserChanges` does it.
  ghost function Chain(revs: seq<Changeset>, c: Changeset): Changeset {
    if revs == [] then c else Chain(revs[1..], Follow(revs[0], c, false))
  }

  lemma {:induction false} ChainSnoc(revs: seq<Changeset>, x: Changeset, c: Changeset)
    ensures Chain(revs + [x], c) == Follow(x, Chain(revs, c), false)
    decreases |revs|
  {
    hide Follow;
    if revs == [] {
      assert revs + [x] == [x] && [x][1..] == [];
    } else {
      ChainSnoc(revs[1..], x, Follow(revs[0], c, false));
      assert (revs + [x])[1..] == revs[1..] + [x];
    }
  }

  // Carried from revision `b` on, a changeset fits every later revision.
  lemma {:induction false} ChainApplies(p: Pad, b: nat, r: nat, c: Changeset)
    requires PadOk(p) && b <= r <= Head(p) && Applies(c, p.docs[b])
    ensures Applies(Chain(p.revs[b..r], c), p.docs[r])
    decreases r
  {
    hide Applies, Applied, IsDoc, Follow;
    if b == r {
      assert p.revs[b..r] == [];
    } else {
      ChainApplies(p, b, r - 1, c);
      assert p.revs[b..r] == p.revs[b..r - 1] + [p.revs[r - 1]];
      ChainSnoc(p.revs[b..r - 1], p.revs[r - 1], c);
      FollowApplied(p.revs[r - 1], Chain(p.revs[b..r - 1], c), false, p.docs[r - 1]);
    }
  }

  // ---------- the clients

  datatype Message =
    | NewChanges(rev: nat, c: Changeset)
    | AcceptCommit(rev: nat)
    | NoCommitPending

  datatype Submission = Submission(baseRev: nat, c: Changeset)

  // `inbox` is on its way to the client, `outbox` on its way to the server.
  datatype Client = Client(layers: Layers, rev: nat, committing: bool, inbox: seq<Message>, outbox: Option<Submission>)

  // The messages bring the client from revision `rev` to the head, one revision each, and
  // when the acceptance arrives (`due`), what is submitted has become that revision.
  // `lost` is whether the client may be told that its commit will not be accepted.
  ghost predicate Arriving(p: Pad, rev: nat, submitted: Option<Changeset>, inbox: seq<Message>, due: bool, lost: bool)
    decreases |inbox|
  {
    if inbox == [] then rev == Head(p) && !due
    else match inbox[0]
      case NewChanges(r, c) =>
        && rev < Head(p) && r == rev + 1 && c == p.revs[rev]
        && Arriving(p, rev + 1, if submitted.None? then None else Some(Follow(c, submitted.value, false)),
                    inbox[1..], due, lost)
      case AcceptCommit(r) =>
        && rev < Head(p) && r == rev + 1 && due && submitted == Some(p.revs[rev])
        && Arriving(p, rev + 1, None, inbox[1..], false, false)
      case NoCommitPending =>
        lost && !due && Arriving(p, rev, submitted, inbox[1..], false, false)
  }

  ghost predicate HasAccept(inbox: seq<Message>) {
    exists i :: 0 <= i < |inbox| && inbox[i].AcceptCommit?
  }

  ghost predicate ClientOk(p: Pad, k: Client)
    requires PadOk(p)
  {
    && k.rev <= Head(p) && k.layers.base == p.docs[k.rev] && Coherent(k.layers)
    && (k.committing ==> k.layers.submitted.Some?)
    && Arriving(p, k.rev, k.layers.submitted, k.inbox, HasAccept(k.inbox),
                k.committing && k.outbox.None? && !HasAccept(k.inbox))
    && (HasAccept(k.inbox) ==> k.committing && k.outbox.None?)
    && (k.outbox.Some? ==>
          && k.committing && k.outbox.value.baseRev <= k.rev
          && Applies(k.outbox.value.c, p.docs[k.outbox.value.baseRev])
          && k.layers.submitted == Some(Chain(p.revs[k.outbox.value.baseRev..k.rev], k.outbox.value.c)))
  }

  datatype Net = Net(pad: Pad, clients: seq<Client>)

  ghost predicate NetOk(n: Net) {
    PadOk(n.pad) && forall i :: 0 <= i < |n.clients| ==> ClientOk(n.pad, n.clients[i])
  }

  // ---------- the steps

  datatype Step =
    | Edit(i: nat, c: Changeset)          // somebody types
    | Submit(i: nat)                      // the client sends its changes
    | Take(i: nat)                        // the server makes a revision of them
    | Refuse(i: nat)                      // ... or throws them away
    | Revise(c: Changeset)                // the server changes the pad on its own account
    | Deliver(i: nat)                     // the client handles a message
    | Reconnect(i: nat)                   // everything under way is lost, the client comes back
    | Join                                // somebody opens the pad

  ghost function Submitting(k: Client): Client {
    match ToSubmit(k.layers)
    case None => k
    case Some(c) => k.(layers := Prepared(k.layers), committing := true, outbox := Some(Submission(k.rev, c)))
  }

  // A revision made by client `author` (or by the server) is announced to everybody.
  ghost function Announced(k: Client, rev: nat, c: Changeset, own: bool): Client {
    if own then k.(inbox := k.inbox + [AcceptCommit(rev)], outbox := None)
    else k.(inbox := k.inbox + [NewChanges(rev, c)])
  }

  ghost function AnnouncedAll(clients: seq<Client>, rev: nat, c: Changeset, author: int): (r: seq<Client>)
    ensures |r| == |clients| && forall i :: 0 <= i < |clients| ==> r[i] == Announced(clients[i], rev, c, i == author)
  {
    seq(|clients|, i requires 0 <= i < |clients| => Announced(clients[i], rev, c, i == author))
  }

  ghost function Handled(k: Client): Client
    requires k.inbox != []
    requires k.inbox[0].NewChanges? ==> Applies(k.inbox[0].c, k.layers.base)
    requires k.inbox[0].AcceptCommit? ==> k.layers.submitted.Some? && SubmittedFits(k.layers)
  {
    var rest := k.inbox[1..];
    match k.inbox[0]
    case NewChanges(r, c) => k.(layers := Rebased(k.layers, c), rev := r, inbox := rest)
    case AcceptCommit(r) => k.(layers := Committed(k.layers), rev := r, committing := false, inbox := rest)
    case NoCommitPending => k.(committing := false, inbox := rest)
  }

  // What the server sends a client that comes back at revision `rev`: to a new socket every
  // revision is somebody else's.
  ghost function CatchUp(p: Pad, rev: nat): seq<Message>
    decreases Head(p) - rev
  {
    if rev >= Head(p) then [] else [NewChanges(rev + 1, p.revs[rev])] + CatchUp(p, rev + 1)
  }

  ghost function Reconnected(p: Pad, k: Client): Client {
    k.(inbox := CatchUp(p, k.rev) + (if k.committing then [NoCommitPending] else []), outbox := None)
  }

  // The step can happen.
  ghost predicate Enabled(n: Net, s: Step)
    requires NetOk(n)
  {
    match s
    case Edit(i, c) => i < |n.clients| && Applies(c, Shown(n.clients[i].layers))
    case Submit(i) => i < |n.clients| && !n.clients[i].committing
    case Take(i) => i < |n.clients| && n.clients[i].outbox.Some?
    case Refuse(i) => i < |n.clients| && n.clients[i].outbox.Some?
    case Revise(c) => Applies(c, n.pad.docs[Head(n.pad)])
    case Deliver(i) => i < |n.clients| && n.clients[i].inbox != []
    case Reconnect(i) => i < |n.clients|
    case Join => true
  }

  ghost function Taken(n: Net, i: nat): Changeset
    requires NetOk(n) && i < |n.clients| && n.clients[i].outbox.Some?
  {
    var m := n.clients[i].outbox.value;
    assert ClientOk(n.pad, n.clients[i]);
    Chain(n.pad.revs[m.baseRev..], m.c)
  }

  ghost function Stepped(n: Net, s: Step): Net
    requires NetOk(n) && Enabled(n, s)
  {
    match s
    case Edit(i, c) =>
      var k := n.clients[i];
      n.(clients := n.clients[i := k.(layers := Edited(k.layers, c))])
    case Submit(i) => n.(clients := n.clients[i := Submitting(n.clients[i])])
    case Take(i) =>
      TakenApplies(n, i);
      Net(Appended(n.pad, Taken(n, i)), AnnouncedAll(n.clients, Head(n.pad) + 1, Taken(n, i), i))
    case Refuse(i) => n.(clients := n.clients[i := n.clients[i].(outbox := None)])
    case Revise(c) => Net(Appended(n.pad, c), AnnouncedAll(n.clients, Head(n.pad) + 1, c, -1))
    case Deliver(i) =>
      MessageIsGood(n.pad, n.clients[i]);
      n.(clients := n.clients[i := Handled(n.clients[i])])
    case Reconnect(i) => n.(clients := n.clients[i := Reconnected(n.pad, n.clients[i])])
    case Join => n.(clients := n.clients + [Client(Start(n.pad.docs[Head(n.pad)]), Head(n.pad), false, [], None)])
  }

  // ---------- nothing goes wrong

  // Changes that reach the server fit the document as it is by then: `applyUserChanges`
  // never has to turn them down.
  lemma TakenApplies(n: Net, i: nat)
    requires NetOk(n) && i < |n.clients| && n.clients[i].outbox.Some?
    ensures Applies(Taken(n, i), n.pad.docs[Head(n.pad)])
    ensures Taken(n, i).oldLen == |Text(n.pad.docs[Head(n.pad)])|
    // it is what the submitting client will have as its submitted changeset once it catches up
    ensures Taken(n, i) == Chain(n.pad.revs[n.clients[i].rev..], n.clients[i].layers.submitted.value)
  {
    hide Applies, Applied, IsDoc, Coherent, Arriving;
    var p, k := n.pad, n.clients[i];
    var m := k.outbox.value;
    assert ClientOk(p, k);
    assert p.revs[m.baseRev..] == p.revs[m.baseRev..Head(p)];
    ChainApplies(p, m.baseRev, Head(p), m.c);
    AppliedDoc(Taken(n, i), p.docs[Head(p)]);
    TextLength(p.docs[Head(p)]);
    assert p.revs[m.baseRev..] == p.revs[m.baseRev..k.rev] + p.revs[k.rev..];
    ChainConcat(p.revs[m.baseRev..k.rev], p.revs[k.rev..], m.c);
  }

  lemma {:induction false} ChainConcat(x: seq<Changeset>, y: seq<Changeset>, c: Changeset)
    ensures Chain(x + y, c) == Chain(y, Chain(x, c))
    decreases |x|
  {
    hide Follow;
    if x == [] {
      assert x + y == y;
    } else {
      assert (x + y)[1..] == x[1..] + y;
      ChainConcat(x[1..], y, Follow(x[0], c, false));
    }
  }

  // The next message has the revision number the client waits for, and can be acted upon.
  lemma {:induction false} MessageIsGood(p: Pad, k: Client)
    requires PadOk(p) && ClientOk(p, k) && k.inbox != []
    ensures k.inbox[0].NewChanges? ==> k.inbox[0].rev == k.rev + 1 && Applies(k.inbox[0].c, k.layers.base)
    ensures k.inbox[0].AcceptCommit? ==>
              k.inbox[0].rev == k.rev + 1 && k.committing && k.layers.submitted.Some? && SubmittedFits(k.layers)
    ensures k.inbox[0].NoCommitPending? ==> k.committing
  {
    hide Applies, Applied, IsDoc, Follow, SubmittedFits;
    CoherentFits(k.layers);
    if k.inbox[0].AcceptCommit? { assert HasAccept(k.inbox); }
  }

  lemma CoherentFits(s: Layers)
    requires Coherent(s)
    ensures SubmittedFits(s) && IsDoc(s.base)
  {}

  // ---------- every step keeps the network in order

  // Only what is expected matters.
  lemma {:induction false} ArrivingAnyway(p: Pad, rev: nat, a: Option<Changeset>, b: Option<Changeset>,
      inbox: seq<Message>, lost: bool)
    requires Arriving(p, rev, a, inbox, false, lost)
    ensures Arriving(p, rev, b, inbox, false, lost)
    decreases |inbox|
  {
    hide Follow;
    if inbox != [] {
      match inbox[0]
      case NewChanges(r, c) =>
        ArrivingAnyway(p, rev + 1, if a.None? then None else Some(Follow(c, a.value, false)),
                       if b.None? then None else Some(Follow(c, b.value, false)), inbox[1..], lost);
      case AcceptCommit(r) =>
      case NoCommitPending => ArrivingAnyway(p, rev, a, b, inbox[1..], false);
    }
  }

  lemma {:induction false} ArrivingNoSurprise(p: Pad, rev: nat, s: Option<Changeset>, inbox: seq<Message>)
    requires Arriving(p, rev, s, inbox, false, false)
    ensures forall i :: 0 <= i < |inbox| ==> inbox[i].NewChanges?
    ensures Arriving(p, rev, s, inbox, false, true)
    decreases |inbox|
  {
    hide Follow;
    if inbox != [] {
      match inbox[0]
      case NewChanges(r, c) =>
        ArrivingNoSurprise(p, rev + 1, if s.None? then None else Some(Follow(c, s.value, false)), inbox[1..]);
        assert inbox == [inbox[0]] + inbox[1..];
      case AcceptCommit(r) =>
      case NoCommitPending =>
    }
  }

  // A new revision by somebody else joins the queue.
  lemma {:induction false} ArrivingMore(p: Pad, c: Changeset, rev: nat, s: Option<Changeset>, inbox: seq<Message>,
      due: bool, lost: bool)
    requires PadOk(p) && Applies(c, p.docs[Head(p)]) && Arriving(p, rev, s, inbox, due, lost) && rev <= Head(p)
    ensures Arriving(Appended(p, c), rev, s, inbox + [NewChanges(Head(p) + 1, c)], due, lost)
    decreases |inbox|
  {
    hide Follow, Applies, Applied, IsDoc;
    AppendedOk(p, c);
    var m := NewChanges(Head(p) + 1, c);
    if inbox == [] {
      assert inbox + [m] == [m] && [m][1..] == [];
    } else {
      assert (inbox + [m])[0] == inbox[0] && (inbox + [m])[1..] == inbox[1..] + [m];
      match inbox[0]
      case NewChanges(r, d) =>
        ArrivingMore(p, c, rev + 1, if s.None? then None else Some(Follow(d, s.value, false)), inbox[1..], due, lost);
      case AcceptCommit(r) => ArrivingMore(p, c, rev + 1, None, inbox[1..], false, false);
      case NoCommitPending => ArrivingMore(p, c, rev, s, inbox[1..], false, false);
    }
  }

  // The revision made of the client's own changes: its acceptance joins the queue.
  lemma {:induction false} ArrivingAccept(p: Pad, rev: nat, s: Changeset, inbox: seq<Message>)
    requires PadOk(p) && rev <= Head(p) && Arriving(p, rev, Some(s), inbox, false, false)
    requires Applies(Chain(p.revs[rev..], s), p.docs[Head(p)])
    ensures Arriving(Appended(p, Chain(p.revs[rev..], s)), rev, Some(s), inbox + [AcceptCommit(Head(p) + 1)], true,
        false)
    decreases |inbox|
  {
    hide Follow, Applies, Applied, IsDoc;
    var c := Chain(p.revs[rev..], s);
    AppendedOk(p, c);
    var m := AcceptCommit(Head(p) + 1);
    if inbox == [] {
      assert inbox + [m] == [m] && [m][1..] == [] && p.revs[rev..] == [];
    } else {
      assert (inbox + [m])[0] == inbox[0] && (inbox + [m])[1..] == inbox[1..] + [m];
      match inbox[0]
      case NewChanges(r, d) =>
        assert p.revs[rev..][0] == d && p.revs[rev..][1..] == p.revs[rev + 1..];
        ArrivingAccept(p, rev + 1, Follow(d, s, false), inbox[1..]);
      case AcceptCommit(r) =>
      case NoCommitPending =>
    }
  }

  lemma {:induction false} ArrivingCatchUp(p: Pad, rev: nat, s: Option<Changeset>, tail: seq<Message>, lost: bool)
    requires rev <= Head(p) && (if lost then tail == [NoCommitPending] else tail == [])
    ensures Arriving(p, rev, s, CatchUp(p, rev) + tail, false, lost)
    ensures forall i :: 0 <= i < |CatchUp(p, rev) + tail| ==> !(CatchUp(p, rev) + tail)[i].AcceptCommit?
    decreases Head(p) - rev
  {
    hide Follow;
    var q := CatchUp(p, rev) + tail;
    if rev >= Head(p) {
      assert q == tail;
      if lost { assert [NoCommitPending][1..] == []; }
    } else {
      var c := p.revs[rev];
      ArrivingCatchUp(p, rev + 1, if s.None? then None else Some(Follow(c, s.value, false)), tail, lost);
      assert q == [NewChanges(rev + 1, c)] + (CatchUp(p, rev + 1) + tail);
      assert q[1..] == CatchUp(p, rev + 1) + tail;
    }
  }

  lemma AcceptTail(inbox: seq<Message>)
    requires inbox != []
    ensures HasAccept(inbox) <==> inbox[0].AcceptCommit? || HasAccept(inbox[1..])
  {
    assert inbox == [inbox[0]] + inbox[1..];
    if HasAccept(inbox[1..]) {
      var i :| 0 <= i < |inbox[1..]| && inbox[1..][i].AcceptCommit?;
      assert inbox[i + 1].AcceptCommit?;
    }
  }

  lemma AcceptSnoc(inbox: seq<Message>, m: Message)
    ensures HasAccept(inbox + [m]) <==> HasAccept(inbox) || m.AcceptCommit?
  {
    if HasAccept(inbox) {
      var i :| 0 <= i < |inbox| && inbox[i].AcceptCommit?;
      assert (inbox + [m])[i].AcceptCommit?;
    }
    if m.AcceptCommit? { assert (inbox + [m])[|inbox|].AcceptCommit?; }
  }

  lemma {:induction false} NoAcceptExpected(p: Pad, rev: nat, s: Option<Changeset>, inbox: seq<Message>, lost: bool)
    requires Arriving(p, rev, s, inbox, false, lost)
    ensures !HasAccept(inbox)
    decreases |inbox|
  {
    hide Follow;
    if inbox != [] {
      AcceptTail(inbox);
      match inbox[0]
      case NewChanges(r, c) =>
        NoAcceptExpected(p, rev + 1, if s.None? then None else Some(Follow(c, s.value, false)), inbox[1..], lost);
      case AcceptCommit(r) =>
      case NoCommitPending => NoAcceptExpected(p, rev, s, inbox[1..], false);
    }
  }

  lemma EditKeeps(p: Pad, k: Client, c: Changeset)
    requires PadOk(p) && ClientOk(p, k) && Applies(c, Shown(k.layers))
    ensures ClientOk(p, k.(layers := Edited(k.layers, c)))
  {
    hide Applies, Applied, IsDoc, Coherent, Shown, Arriving, Compose;
    EditShows(k.layers, c);
  }

  lemma SubmitKeeps(p: Pad, k: Client)
    requires PadOk(p) && ClientOk(p, k) && !k.committing
    ensures ClientOk(p, Submitting(k))
  {
    hide Applies, Applied, IsDoc, Coherent, Shown, Arriving, Compose, ToSubmit;
    PrepareShows(k.layers);
    var k' := Submitting(k);
    if ToSubmit(k.layers).Some? {
      ArrivingAnyway(p, k.rev, k.layers.submitted, k'.layers.submitted, k.inbox, false);
      assert p.revs[k.rev..k.rev] == [];
      PreparedSubmitted(k.layers);
    }
  }

  lemma PreparedSubmitted(s: Layers)
    ensures ToSubmit(s).Some? ==> Prepared(s).submitted == ToSubmit(s)
  {}

  lemma RefuseKeeps(p: Pad, k: Client)
    requires PadOk(p) && ClientOk(p, k) && k.outbox.Some?
    ensures ClientOk(p, k.(outbox := None))
  {
    hide Applies, Applied, IsDoc, Coherent, Shown, Arriving, Chain;
    ArrivingNoSurprise(p, k.rev, k.layers.submitted, k.inbox);
  }

  lemma ReconnectKeeps(p: Pad, k: Client)
    requires PadOk(p) && ClientOk(p, k)
    ensures ClientOk(p, Reconnected(p, k))
  {
    hide Applies, Applied, IsDoc, Coherent, Shown, Arriving, Chain, CatchUp;
    ArrivingCatchUp(p, k.rev, k.layers.submitted, if k.committing then [NoCommitPending] else [], k.committing);
  }

  lemma SameRevs(p: Pad, c: Changeset, b: nat, r: nat)
    requires PadOk(p) && Applies(c, p.docs[Head(p)]) && b <= r <= Head(p)
    ensures Appended(p, c).revs[b..r] == p.revs[b..r]
  {
    hide Applies, Applied, IsDoc;
  }

  lemma AnnounceKeeps(p: Pad, k: Client, c: Changeset)
    requires PadOk(p) && ClientOk(p, k) && Applies(c, p.docs[Head(p)])
    ensures PadOk(Appended(p, c)) && ClientOk(Appended(p, c), Announced(k, Head(p) + 1, c, false))
  {
    hide Applies, Applied, IsDoc, Coherent, Shown, Arriving, Chain, Appended, HasAccept;
    AppendedOk(p, c);
    var m := NewChanges(Head(p) + 1, c);
    AcceptSnoc(k.inbox, m);
    ArrivingMore(p, c, k.rev, k.layers.submitted, k.inbox, HasAccept(k.inbox),
                 k.committing && k.outbox.None? && !HasAccept(k.inbox));
    if k.outbox.Some? { SameRevs(p, c, k.outbox.value.baseRev, k.rev); }
  }

  lemma AcceptKeeps(p: Pad, k: Client)
    requires PadOk(p) && ClientOk(p, k) && k.outbox.Some?
    requires Applies(Chain(p.revs[k.rev..], k.layers.submitted.value), p.docs[Head(p)])
    ensures var c := Chain(p.revs[k.rev..], k.layers.submitted.value);
            PadOk(Appended(p, c)) && ClientOk(Appended(p, c), Announced(k, Head(p) + 1, c, true))
  {
    hide Applies, Applied, IsDoc, Coherent, Shown, Arriving, Chain, Appended, HasAccept;
    var s := k.layers.submitted.value;
    var c := Chain(p.revs[k.rev..], s);
    AppendedOk(p, c);
    AcceptSnoc(k.inbox, AcceptCommit(Head(p) + 1));
    ArrivingAccept(p, k.rev, s, k.inbox);
  }

  lemma {:induction false} DeliverKeeps(p: Pad, k: Client)
    requires PadOk(p) && ClientOk(p, k) && k.inbox != []
    requires k.inbox[0].NewChanges? ==> Applies(k.inbox[0].c, k.layers.base)
    requires k.inbox[0].AcceptCommit? ==> k.layers.submitted.Some? && SubmittedFits(k.layers)
    ensures ClientOk(p, Handled(k))
  {
    hide Applies, Applied, IsDoc, Coherent, Shown, Chain, HasAccept, SubmittedFits, Arriving;
    AcceptTail(k.inbox);
    var k' := Handled(k);
    if k.inbox[0].NewChanges? {
      NewChangesKeep(p, k);
    } else if k.inbox[0].AcceptCommit? {
      AcceptanceKeeps(p, k);
    } else {
      NoCommitKeeps(p, k);
    }
  }

  lemma {:induction false} NewChangesKeep(p: Pad, k: Client)
    requires PadOk(p) && ClientOk(p, k) && k.inbox != [] && k.inbox[0].NewChanges?
        && Applies(k.inbox[0].c, k.layers.base)
    ensures ClientOk(p, Handled(k))
  {
    hide Applies, Applied, IsDoc, Coherent, Shown, Chain, HasAccept, Follow;
    var c := k.inbox[0].c;
    AcceptTail(k.inbox);
    RebaseShows(k.layers, c);
    RebasedBase(k.layers, c);
    if k.outbox.Some? {
      var b := k.outbox.value.baseRev;
      assert p.revs[b..k.rev + 1] == p.revs[b..k.rev] + [p.revs[k.rev]];
      ChainSnoc(p.revs[b..k.rev], c, k.outbox.value.c);
    }
  }

  lemma RebasedBase(s: Layers, c: Changeset)
    requires Applies(c, s.base)
    ensures Rebased(s, c).base == Applied(c, s.base)
    ensures Rebased(s, c).submitted == if s.submitted.None? then None else Some(Follow(c, s.submitted.value, false))
  {}

  lemma AcceptanceKeeps(p: Pad, k: Client)
    requires PadOk(p) && ClientOk(p, k) && k.inbox != [] && k.inbox[0].AcceptCommit?
    requires k.layers.submitted.Some? && SubmittedFits(k.layers)
    ensures ClientOk(p, Handled(k))
  {
    hide Applies, Applied, IsDoc, Coherent, Shown, Chain, HasAccept;
    AcceptTail(k.inbox);
    CommitShows(k.layers);
    NoAcceptExpected(p, k.rev + 1, None, k.inbox[1..], false);
    SentIs(k.layers);
  }

  lemma SentIs(s: Layers)
    requires s.submitted.Some? && SubmittedFits(s)
    ensures Sent(s) == Applied(s.submitted.value, s.base)
  {}

  lemma NoCommitKeeps(p: Pad, k: Client)
    requires PadOk(p) && ClientOk(p, k) && k.inbox != [] && k.inbox[0].NoCommitPending?
    ensures ClientOk(p, Handled(k))
  {
    hide Applies, Applied, IsDoc, Coherent, Shown, Chain, HasAccept;
    AcceptTail(k.inbox);
    NoAcceptExpected(p, k.rev, k.layers.submitted, k.inbox[1..], false);
  }

  lemma JoinKeeps(p: Pad)
    requires PadOk(p)
    ensures ClientOk(p, Client(Start(p.docs[Head(p)]), Head(p), false, [], None))
  {
    hide Applies, Applied, IsDoc, Coherent, Shown, Chain;
    StartShows(p.docs[Head(p)]);
  }

  // Every step leads from a network in order to one in order.
  lemma StepKeeps(n: Net, s: Step)
    requires NetOk(n) && Enabled(n, s)
    ensures NetOk(Stepped(n, s))
  {
    hide Applies, PadOk, ClientOk, Appended, Chain, Announced, Submitting, Reconnected, Handled, Shown, Coherent,
         SubmittedFits, Start, Edited;
    match s
    case Edit(i, c) => EditKeeps(n.pad, n.clients[i], c);
    case Submit(i) => SubmitKeeps(n.pad, n.clients[i]);
    case Take(i) =>
      TakenApplies(n, i);
      TakeKeeps(n, i);
    case Refuse(i) => RefuseKeeps(n.pad, n.clients[i]);
    case Revise(c) => ReviseKeeps(n, c);
    case Deliver(i) =>
      MessageIsGood(n.pad, n.clients[i]);
      DeliverKeeps(n.pad, n.clients[i]);
    case Reconnect(i) => ReconnectKeeps(n.pad, n.clients[i]);
    case Join => JoinKeeps(n.pad);
  }

  lemma ReviseKeeps(n: Net, c: Changeset)
    requires NetOk(n) && Applies(c, n.pad.docs[Head(n.pad)])
    ensures NetOk(Net(Appended(n.pad, c), AnnouncedAll(n.clients, Head(n.pad) + 1, c, -1)))
  {
    hide Applies, PadOk, ClientOk, Appended, Announced;
    AppendedOk(n.pad, c);
    forall i | 0 <= i < |n.clients| ensures ClientOk(Appended(n.pad, c),
        Announced(n.clients[i], Head(n.pad) + 1, c, false)) {
      AnnounceKeeps(n.pad, n.clients[i], c);
    }
  }

  lemma TakeKeeps(n: Net, i: nat)
    requires NetOk(n) && i < |n.clients| && n.clients[i].outbox.Some? && Applies(Taken(n, i), n.pad.docs[Head(n.pad)])
    ensures NetOk(Net(Appended(n.pad, Taken(n, i)), AnnouncedAll(n.clients, Head(n.pad) + 1, Taken(n, i), i)))
  {
    hide Applies, PadOk, ClientOk, Appended, Announced, Taken, Chain;
    var c := Taken(n, i);
    TakenApplies(n, i);
    AppendedOk(n.pad, c);
    forall j | 0 <= j < |n.clients| ensures ClientOk(Appended(n.pad, c),
        Announced(n.clients[j], Head(n.pad) + 1, c, j == i)) {
      if j == i {
        AcceptKeeps(n.pad, n.clients[j]);
      } else {
        AnnounceKeeps(n.pad, n.clients[j], c);
      }
    }
  }

  // ---------- every run

  ghost predicate Run(n: Net, steps: seq<Step>, n': Net)
    decreases |steps|
  {
    if steps == [] then n' == n
    else NetOk(n) && Enabled(n, steps[0]) && Run(Stepped(n, steps[0]), steps[1..], n')
  }

  lemma {:induction false} RunKeeps(n: Net, steps: seq<Step>, n': Net)
    requires NetOk(n) && Run(n, steps, n')
    ensures NetOk(n')
    decreases |steps|
  {
    hide NetOk, Enabled, Stepped;
    if steps != [] {
      StepKeeps(n, steps[0]);
      RunKeeps(Stepped(n, steps[0]), steps[1..], n');
    }
  }

  // A pad nobody has opened yet.
  ghost function Opened(d: Doc): Net { Net(Pad([d], []), []) }

  // A client with nothing under way and nothing uncommitted.
  ghost predicate Settled(k: Client) {
    k.inbox == [] && k.layers.submitted.None? && IsIdentity(k.layers.user)
  }

  // Convergence: after any run from the opening of a pad, every client shows the revision
  // it has reached with its own changes on top, and every settled client shows the
  // document of the server, so settled clients show one and the same document, text and
  // attributes.
  lemma AllConverge(d: Doc, steps: seq<Step>, n: Net)
    requires IsDoc(d) && Run(Opened(d), steps, n)
    ensures NetOk(n)
    ensures forall i :: 0 <= i < |n.clients| ==>
              var k := n.clients[i];
              && ClientOk(n.pad, k) && Coherent(k.layers) && k.rev <= Head(n.pad) && k.layers.base == n.pad.docs[k.rev]
              && (Settled(k) ==> Shown(k.layers) == n.pad.docs[Head(n.pad)])
  {
    hide Applies, Applied, Shown, Coherent, Run, Settled, IsDoc, ClientOk;
    OpenedOk(d);
    RunKeeps(Opened(d), steps, n);
    forall i | 0 <= i < |n.clients|
      ensures var k := n.clients[i];
              && ClientOk(n.pad, k) && Coherent(k.layers) && k.rev <= Head(n.pad) && k.layers.base == n.pad.docs[k.rev]
              && (Settled(k) ==> Shown(k.layers) == n.pad.docs[Head(n.pad)])
    {
      SettledShows(n.pad, n.clients[i]);
    }
  }

  lemma OpenedOk(d: Doc)
    requires IsDoc(d)
    ensures NetOk(Opened(d))
  {
    hide IsDoc, Applies, Applied;
  }

  lemma SettledShows(p: Pad, k: Client)
    requires PadOk(p) && ClientOk(p, k)
    ensures Coherent(k.layers) && k.rev <= Head(p) && k.layers.base == p.docs[k.rev]
    ensures Settled(k) ==> Shown(k.layers) == p.docs[Head(p)]
  {
    hide IsDoc, Applies, Applied, Shown, Coherent;
    if Settled(k) { NothingUncommitted(k.layers); }
  }
}
