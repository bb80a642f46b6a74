/**
 `revisionSockets`: from which connection the server took each revision, and what that
 tells about the clients.
 */
module RevisionSockets {
  import opened Changesets
  import opened Layers
  import opened Network
  import opened Reconnecting

  // A connection is a client and how often it has come back.
  datatype Maker = Server | Socket(client: nat, connection: nat)

  // `makers[r]` is who made revision r + 1.
  datatype Sockets = Sockets(makers: seq<Maker>, connections: seq<nat>)

  ghost function Own(r: Sockets, i: nat): Maker
    requires i < |r.connections|
  {
    Socket(i, r.connections[i])
  }

  ghost function Noted(r: Sockets, s: Step): Sockets {
    match s
    case Take(i) => if i < |r.connections| then r.(makers := r.makers + [Own(r, i)]) else r
    case Revise(c) => r.(makers := r.makers + [Server])
    case Reconnect(i) =>
      if i < |r.connections| then r.(connections := r.connections[i := r.connections[i] + 1]) else r
    case Join => r.(connections := r.connections + [0])
    case _ => r
  }

  ghost function NotedAll(r: Sockets, steps: seq<Step>): Sockets
    decreases |steps|
  {
    if steps == [] then r else NotedAll(Noted(r, steps[0]), steps[1..])
  }

  // Of the revisions still to be announced to the client, `own` made those whose acceptance
  // is under way.
  ghost predicate Tells(makers: seq<Maker>, own: Maker, k: Client) {
    && (forall m: nat :: k.rev <= m < |makers| ==> (makers[m] == own <==> AcceptCommit(m + 1) in k.inbox))
    && (forall m: nat :: AcceptCommit(m) in k.inbox ==> m <= |makers|)
  }

  ghost function Used(r: Sockets, i: nat): nat {
    if i < |r.connections| then r.connections[i] + 1 else 0
  }

  // Nothing was made over a connection of client `i` from the `n`-th on.
  ghost predicate Unused(makers: seq<Maker>, i: nat, n: nat) {
    forall m :: 0 <= m < |makers| && makers[m].Socket? && makers[m].client == i ==> makers[m].connection < n
  }

  ghost predicate SocketsOk(n: Net, r: Sockets) {
    && |r.makers| == Head(n.pad) && |r.connections| == |n.clients|
    && (forall i: nat :: i < |n.clients| ==> Tells(r.makers, Own(r, i), n.clients[i]))
    && (forall i: nat :: Unused(r.makers, i, Used(r, i)))
  }

  // ---------- every step keeps it

  lemma TellsMore(makers: seq<Maker>, own: Maker, maker: Maker, k: Client, rev: nat, c: Changeset)
    requires Tells(makers, own, k) && rev == |makers| + 1
    ensures Tells(makers + [maker], own, Announced(k, rev, c, maker == own))
  {
    var after, k' := makers + [maker], Announced(k, rev, c, maker == own);
    forall j: nat | k.rev <= j < |after| ensures after[j] == own <==> AcceptCommit(j + 1) in k'.inbox {
      if j < |makers| { assert after[j] == makers[j]; }
    }
  }

  lemma {:induction false} TellsLess(p: Pad, makers: seq<Maker>, own: Maker, k: Client)
    requires PadOk(p) && ClientOk(p, k) && k.inbox != [] && Tells(makers, own, k)
    requires k.inbox[0].NewChanges? ==> Applies(k.inbox[0].c, k.layers.base)
    requires k.inbox[0].AcceptCommit? ==> k.layers.submitted.Some? && SubmittedFits(k.layers)
    ensures Tells(makers, own, Handled(k))
  {
    hide PadOk, ClientOk, SubmittedFits, Applies, Applied, Rebased, Committed;
    MessageIsGood(p, k);
    assert k.inbox == [k.inbox[0]] + k.inbox[1..];
  }

  lemma TellsAnew(p: Pad, makers: seq<Maker>, own: Maker, k: Client)
    requires PadOk(p) && ClientOk(p, k) && own !in makers
    ensures Tells(makers, own, Reconnected(p, k))
  {
    hide PadOk, Applies, Applied, Coherent, Arriving, CatchUp;
    ArrivingCatchUp(p, k.rev, k.layers.submitted, if k.committing then [NoCommitPending] else [], k.committing);
  }

  lemma SameInbox(makers: seq<Maker>, own: Maker, k: Client, k': Client)
    requires Tells(makers, own, k) && k'.inbox == k.inbox && k'.rev == k.rev
    ensures Tells(makers, own, k')
  {}

  lemma UnusedMore(makers: seq<Maker>, maker: Maker, i: nat, n: nat)
    requires Unused(makers, i, n) && (maker.Socket? && maker.client == i ==> maker.connection < n)
    ensures Unused(makers + [maker], i, n)
  {}

  lemma UnusedStill(r: Sockets, connections: seq<nat>)
    requires forall i: nat :: Unused(r.makers, i, Used(r, i))
    requires forall i: nat :: Used(r, i) <= Used(r.(connections := connections), i)
    ensures forall i: nat :: Unused(r.makers, i, Used(r.(connections := connections), i))
  {
    forall i: nat ensures Unused(r.makers, i, Used(r.(connections := connections), i)) {
      assert Unused(r.makers, i, Used(r, i));
    }
  }

  lemma NeverUsed(makers: seq<Maker>, i: nat, n: nat)
    requires Unused(makers, i, n)
    ensures Socket(i, n) !in makers
  {}

  lemma RevisionTold(n: Net, r: Sockets, maker: Maker, c: Changeset, author: int)
    requires SocketsOk(n, r)
    requires if 0 <= author < |n.clients| then maker == Own(r, author) else maker == Server && author == -1
    ensures var r' := r.(makers := r.makers + [maker]);
            && (forall i: nat :: i < |n.clients| ==>
                  Tells(r'.makers, Own(r', i), AnnouncedAll(n.clients, Head(n.pad) + 1, c, author)[i]))
            && (forall i: nat :: Unused(r'.makers, i, Used(r', i)))
  {
    hide Tells, Unused, Announced;
    var r' := r.(makers := r.makers + [maker]);
    forall i: nat | i < |n.clients|
      ensures Tells(r'.makers, Own(r', i), AnnouncedAll(n.clients, Head(n.pad) + 1, c, author)[i])
    {
      TellsMore(r.makers, Own(r, i), maker, n.clients[i], Head(n.pad) + 1, c);
    }
    forall i: nat ensures Unused(r'.makers, i, Used(r', i)) {
      UnusedMore(r.makers, maker, i, Used(r, i));
    }
  }

  lemma SocketsKept(n: Net, r: Sockets, s: Step)
    requires NetOk(n) && Enabled(n, s) && SocketsOk(n, r)
    ensures SocketsOk(Stepped(n, s), Noted(r, s))
  {
    hide PadOk, ClientOk, Applies, Applied, Tells, Unused, Taken, Announced, Reconnected, Handled, SubmittedFits,
         Edited, Shown, Coherent, ToSubmit, Prepared;
    match s
    case Edit(i, c) => SameInbox(r.makers, Own(r, i), n.clients[i], Stepped(n, s).clients[i]);
    case Submit(i) => SameInbox(r.makers, Own(r, i), n.clients[i], Submitting(n.clients[i]));
    case Refuse(i) => SameInbox(r.makers, Own(r, i), n.clients[i], n.clients[i].(outbox := None));
    case Take(i) =>
      TakenApplies(n, i);
      RevisionTold(n, r, Own(r, i), Taken(n, i), i);
    case Revise(c) => RevisionTold(n, r, Server, c, -1);
    case Deliver(i) =>
      MessageIsGood(n.pad, n.clients[i]);
      TellsLess(n.pad, r.makers, Own(r, i), n.clients[i]);
    case Reconnect(i) =>
      assert Unused(r.makers, i, Used(r, i));
      NeverUsed(r.makers, i, Used(r, i));
      TellsAnew(n.pad, r.makers, Own(Noted(r, s), i), n.clients[i]);
      UnusedStill(r, Noted(r, s).connections);
    case Join =>
      NothingToTell(r.makers, Own(Noted(r, s), |n.clients|), Stepped(n, s).clients[|n.clients|]);
      UnusedStill(r, Noted(r, s).connections);
  }

  lemma NothingToTell(makers: seq<Maker>, own: Maker, k: Client)
    requires k.rev == |makers| && k.inbox == []
    ensures Tells(makers, own, k)
  {}

  // ---------- every run

  lemma {:induction false} SocketsStay(n: Net, r: Sockets, steps: seq<Step>, n': Net)
    requires NetOk(n) && SocketsOk(n, r) && Network.Run(n, steps, n')
    ensures NetOk(n') && SocketsOk(n', NotedAll(r, steps))
    decreases |steps|
  {
    hide NetOk, Enabled, Stepped, SocketsOk, Noted;
    if steps != [] {
      StepKeeps(n, steps[0]);
      SocketsKept(n, r, steps[0]);
      SocketsStay(Stepped(n, steps[0]), Noted(r, steps[0]), steps[1..], n');
    }
  }

  // After any run from the opening of a pad, the server can tell from its sockets whether
  // the acceptance of a client's changes is under way: exactly if one of the revisions
  // the client does not know of came over its connection.
  lemma SocketsTell(d: Doc, steps: seq<Step>, n: Net)
    requires IsDoc(d) && Network.Run(Opened(d), steps, n)
    ensures NetOk(n)
    ensures var r := NotedAll(Sockets([], []), steps);
            && |r.makers| == Head(n.pad) && |r.connections| == |n.clients|
            && forall i: nat :: i < |n.clients| ==>
                 (HasAccept(n.clients[i].inbox) <==> MadeSince(r.makers, Own(r, i), n.clients[i].rev))
  {
    hide NetOk, Enabled, Stepped, Noted, IsDoc, Tells, Unused, Network.Run, HasAccept, MadeSince;
    var r := Sockets([], []);
    OpenedOk(d);
    NothingMade(d, r);
    SocketsStay(Opened(d), r, steps, n);
    var r' := NotedAll(r, steps);
    forall i: nat | i < |n.clients|
      ensures HasAccept(n.clients[i].inbox) <==> MadeSince(r'.makers, Own(r', i), n.clients[i].rev)
    {
      InOrder(n, i);
      SocketsTellClient(n.pad, r'.makers, Own(r', i), n.clients[i]);
    }
  }

  ghost predicate MadeSince(makers: seq<Maker>, own: Maker, rev: nat) {
    exists m :: rev <= m < |makers| && makers[m] == own
  }

  lemma NothingMade(d: Doc, r: Sockets)
    requires r == Sockets([], [])
    ensures SocketsOk(Opened(d), r)
  {}

  lemma InOrder(n: Net, i: nat)
    requires NetOk(n) && i < |n.clients|
    ensures PadOk(n.pad) && ClientOk(n.pad, n.clients[i])
  {}

  lemma SocketsTellClient(p: Pad, makers: seq<Maker>, own: Maker, k: Client)
    requires PadOk(p) && ClientOk(p, k) && Tells(makers, own, k) && |makers| == Head(p)
    ensures HasAccept(k.inbox) <==> MadeSince(makers, own, k.rev)
  {
    hide PadOk, Applies, Applied, Coherent, Arriving, Chain;
    if HasAccept(k.inbox) {
      var j := Accepted(p, k.rev, k.layers.submitted, k.inbox, false);
      assert makers[j] == own;
    }
    if MadeSince(makers, own, k.rev) {
      var m :| k.rev <= m < |makers| && makers[m] == own;
      assert AcceptCommit(m + 1) in k.inbox;
    }
  }

  // So the server could tell, before it answers a client that comes back, whether the
  // answer makes text be typed twice.
  lemma ReconnectBySockets(d: Doc, steps: seq<Step>, n: Net, i: nat)
    requires IsDoc(d) && Network.Run(Opened(d), steps, n) && i < |n.clients|
    ensures var r, k := NotedAll(Sockets([], []), steps), n.clients[i];
            && NetOk(n) && i < |r.connections| && NetOk(Stepped(n, Reconnect(i)))
            && var k' := Reconnected(n.pad, k);
               && ClientOk(n.pad, k')
               && (Text(Expected(n.pad, k')) != Text(Expected(n.pad, k)) <==>
                     && MadeSince(r.makers, Own(r, i), k.rev)
                     && k.layers.submitted.Some? && k.layers.submitted.value.bank != "")
  {
    hide IsDoc, Network.Run, HasAccept, MadeSince, Expected, Text, Reconnected, CatchUp, Outstanding, Noted, ClientOk;
    SocketsTell(d, steps, n);
    ReconnectTypesTwice(n, i);
  }
}
