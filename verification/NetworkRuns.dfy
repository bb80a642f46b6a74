/** Runs of the network step by step, in particular with a single client. */
module NetworkRuns {
  import opened Changesets
  import opened Laws
  import opened Layers
  import opened Network

  lemma {:induction false} RunFurther(n: Net, steps: seq<Step>, m: Net, s: Step)
    requires Network.Run(n, steps, m) && NetOk(m) && Enabled(m, s)
    ensures Network.Run(n, steps + [s], Stepped(m, s))
    decreases |steps|
  {
    hide NetOk, Enabled, Stepped;
    if steps == [] {
      assert [] + [s] == [s] && [s][1..] == [];
    } else {
      RunFurther(Stepped(n, steps[0]), steps[1..], m, s);
      assert (steps + [s])[1..] == steps[1..] + [s];
    }
  }

  // The steps lead from the opening of the pad to `n`.
  ghost predicate Reaches(d: Doc, steps: seq<Step>, n: Net) {
    NetOk(n) && Network.Run(Opened(d), steps, n)
  }

  lemma Goes(d: Doc, steps: seq<Step>, n: Net, s: Step)
    requires Reaches(d, steps, n) && Enabled(n, s)
    ensures Reaches(d, steps + [s], Stepped(n, s))
  {
    hide NetOk, Enabled, Stepped, Network.Run;
    StepKeeps(n, s);
    RunFurther(Opened(d), steps, n, s);
  }

  // A step of the only client of a pad.
  lemma {:induction false} GoesAlone(d: Doc, steps: seq<Step>, p: Pad, k: Client, k': Client, s: Step)
    requires Reaches(d, steps, Net(p, [k]))
    requires match s
             case Edit(i, c) =>
               i == 0 && Coherent(k.layers) && Applies(c, Shown(k.layers)) && k' == k.(layers := Edited(k.layers, c))
             case Submit(i) => i == 0 && !k.committing && k' == Submitting(k)
             case Deliver(i) =>
               && i == 0 && k.inbox != []
               && (k.inbox[0].NewChanges? ==> Applies(k.inbox[0].c, k.layers.base))
               && (k.inbox[0].AcceptCommit? ==> k.layers.submitted.Some? && SubmittedFits(k.layers))
               && k' == Handled(k)
             case Reconnect(i) => i == 0 && k' == Reconnected(p, k)
             case _ => false
    ensures Reaches(d, steps + [s], Net(p, [k']))
  {
    hide Applies, Applied, Coherent, Shown, SubmittedFits, PadOk, Submitting, Handled, Reconnected, Network.Run;
    assert ClientOk(p, [k][0]);
    assert [k][0 := k'] == [k'];
    Goes(d, steps, Net(p, [k]), s);
  }

  lemma GoesTaken(d: Doc, steps: seq<Step>, p: Pad, k: Client)
    requires Reaches(d, steps, Net(p, [k])) && k.outbox.Some? && k.outbox.value.baseRev == Head(p)
    ensures var c := k.outbox.value.c;
            && PadOk(p) && Applies(c, p.docs[Head(p)])
            && Reaches(d, steps + [Take(0)],
                       Net(Appended(p, c), [k.(inbox := k.inbox + [AcceptCommit(Head(p) + 1)], outbox := None)]))
  {
    hide Applies, Applied, Coherent, Network.Run, Appended, PadOk, ClientOk;
    var n := Net(p, [k]);
    assert k == n.clients[0];
    TakenApplies(n, 0);
    assert p.revs[Head(p)..] == [];
    Goes(d, steps, n, Take(0));
    var k' := Announced(k, Head(p) + 1, Taken(n, 0), true);
    assert AnnouncedAll(n.clients, Head(p) + 1, Taken(n, 0), 0) == [k'];
  }

  lemma GoesRevised(d: Doc, steps: seq<Step>, p: Pad, k: Client, c: Changeset)
    requires Reaches(d, steps, Net(p, [k])) && PadOk(p) && Applies(c, p.docs[Head(p)])
    ensures Reaches(d, steps + [Revise(c)],
                    Net(Appended(p, c), [k.(inbox := k.inbox + [NewChanges(Head(p) + 1, c)])]))
  {
    hide Applies, Applied, Coherent, Network.Run, Appended, PadOk, ClientOk;
    Goes(d, steps, Net(p, [k]), Revise(c));
    assert AnnouncedAll([k], Head(p) + 1, c, -1) == [Announced(k, Head(p) + 1, c, false)];
  }

  lemma Joined(d: Doc)
    requires IsDoc(d)
    ensures Reaches(d, [Join], Net(Pad([d], []), [Client(Start(d), 0, false, [], None)]))
  {
    hide IsDoc, Applies, Applied;
    OpenedOk(d);
    Goes(d, [], Opened(d), Join);
    assert [] + [Join] == [Join];
    assert [] + [Client(Start(d), 0, false, [], None)] == [Client(Start(d), 0, false, [], None)];
  }
}
