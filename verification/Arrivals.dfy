/** Somebody else's text arrives where one has typed oneself: which flag goes with which side. */
module Arrivals {
  import opened Attributes
  import opened Changesets
  import opened Composition
  import opened Following
  import opened NormalForm
  import opened Views
  import opened Algebra
  import opened Laws
  import opened Inversion
  import opened Layers
  import opened Network
  import opened Stretches
  import opened TypingTogether
  import opened UndoElements

  // Two changesets that type at one place in `d`, and the second made to follow the first.
  lemma BothType(a: Changeset, b: Changeset, reverse: bool, d: Doc, k: nat, x: string, p: Attribs, y: string,
      q: Attribs)
    requires IsDoc(d) && Applies(a, d) && Applies(b, d) && x != "" && y != ""
    requires TypesAt(a, Text(d), k, x, p) && TypesAt(b, Text(d), k, y, q)
    ensures Applies(Follow(a, b, reverse), Applied(a, d))
    ensures StandInOrder(Applied(Follow(a, b, reverse), Applied(a, d)), d, k, x, p, y, q, !reverse)
  {
    hide Fits, Apply, Text, Follow, IsDoc, TypesAt, StandInOrder, ApplyText;
    FollowApplied(a, b, reverse, d);
    WhoStandsFirst(a, b, reverse, Text(d), k, x, p, y, q, d);
  }

  // In a tie the client shows what the user has typed in front of what arrives.
  lemma UserStandsFirst(s: Layers, c: Changeset, k: nat, x: string, p: Attribs, y: string, q: Attribs)
    requires Coherent(s) && Applies(c, s.base) && x != "" && y != ""
    requires TypesAt(Crossed(s, c), Text(Sent(s)), k, x, p) && TypesAt(s.user, Text(Sent(s)), k, y, q)
    ensures Coherent(Rebased(s, c)) && StandInOrder(Shown(Rebased(s, c)), Sent(s), k, x, p, y, q, false)
  {
    hide Applies, Applied, Text, Follow, IsDoc, TypesAt, StandInOrder, Crossed;
    RebaseShows(s, c);
    SentDoc(s);
    CrossedApplies(s, c);
    BothType(Crossed(s, c), s.user, true, Sent(s), k, x, p, y, q);
  }

  // What was submitted comes behind what arrives before it is accepted.
  lemma SubmittedStandsSecond(s: Layers, c: Changeset, k: nat, x: string, p: Attribs, y: string, q: Attribs)
    requires Coherent(s) && Applies(c, s.base) && s.submitted.Some? && x != "" && y != ""
    requires TypesAt(c, Text(s.base), k, x, p) && TypesAt(s.submitted.value, Text(s.base), k, y, q)
    ensures SubmittedFits(Rebased(s, c)) && StandInOrder(Sent(Rebased(s, c)), s.base, k, x, p, y, q, true)
  {
    hide Applies, Applied, Text, Follow, IsDoc, TypesAt, StandInOrder;
    CrossedApplies(s, c);
    BothType(c, s.submitted.value, false, s.base, k, x, p, y, q);
  }

  // And so it does on the server: an earlier revision stands in front of a changeset that is
  // carried over it.
  lemma RevisionStandsFirst(revs: seq<Changeset>, r: Changeset, c: Changeset, d: Doc, k: nat, x: string, p: Attribs,
      y: string, q: Attribs)
    requires IsDoc(d) && Applies(r, d) && Applies(Chain(revs, c), d) && x != "" && y != ""
    requires TypesAt(r, Text(d), k, x, p) && TypesAt(Chain(revs, c), Text(d), k, y, q)
    ensures Applies(Chain(revs + [r], c), Applied(r, d))
    ensures StandInOrder(Applied(Chain(revs + [r], c), Applied(r, d)), d, k, x, p, y, q, true)
  {
    hide Applies, Applied, Text, Follow, IsDoc, TypesAt, StandInOrder, Chain;
    ChainSnoc(revs, r, c);
    BothType(r, Chain(revs, c), false, d, k, x, p, y, q);
  }

  // What an undo types again comes behind what somebody else typed there since.
  lemma TypedAgainStandsSecond(un: Element, ex: Element, d: Doc, k: nat, x: string, p: Attribs, y: string, q: Attribs)
    requires un.Event? && un.backset.Some? && ex.External? && IsDoc(d) && x != "" && y != ""
    requires Applies(ex.changeset, d) && Applies(un.backset.value, d)
    requires TypesAt(ex.changeset, Text(d), k, x, p) && TypesAt(un.backset.value, Text(d), k, y, q)
    ensures var c := SunkEvent(un, ex).backset.value;
            && Applies(c, Applied(ex.changeset, d))
            && StandInOrder(Applied(c, Applied(ex.changeset, d)), d, k, x, p, y, q, true)
    ensures var c := SunkExternal(un, ex).changeset;
            && Applies(c, Applied(un.backset.value, d))
            && StandInOrder(Applied(c, Applied(un.backset.value, d)), d, k, y, q, x, p, false)
  {
    hide Applies, Applied, Text, Follow, IsDoc, TypesAt, StandInOrder;
    BothType(ex.changeset, un.backset.value, false, d, k, x, p, y, q);
    BothType(un.backset.value, ex.changeset, true, d, k, y, q, x, p);
  }
}
