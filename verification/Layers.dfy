/**
 The three layers of a client's document: the base text agreed with the server, the
 changeset that was submitted, and the changes made since.
 */
module Layers {
  import opened Attributes
  import opened Changesets
  import opened Composition
  import opened NormalForm
  import opened Views
  import opened Algebra
  import opened Laws
  import opened Inversion
  import opened Cleaning

  datatype Option<+T> = None | Some(value: T)

  // `base` is the base document; its text is Text(base).
  datatype Layers = Layers(base: Doc, submitted: Option<Changeset>, user: Changeset)

  // ---------- a document that changesets are applied to

  // `d` is a document of a pad: its characters have attributes with values, and there are some.
  ghost predicate IsDoc(d: Doc) {
    d != [] && Styled(d)
  }

  ghost predicate Applies(c: Changeset, d: Doc) {
    IsCleanFor(c, Text(d))
  }

  ghost function Applied(c: Changeset, d: Doc): Doc
    requires Applies(c, d)
  {
    OnDocument(c, Text(d), d);
    After(c, d)
  }

  // What `Applied` is used for below, with the definitions hidden.
  lemma AppliedDoc(c: Changeset, d: Doc)
    requires Applies(c, d) && IsDoc(d)
    ensures IsDoc(Applied(c, d)) && Text(Applied(c, d)) == TextAfter(c, Text(d)) && |Applied(c, d)| == c.newLen
        && |d| == c.oldLen
  {
    hide Fits, Apply, Normal, Safe, Text, ApplyText, Clean, Styled;
    OnDocument(c, Text(d), d);
    StyledAfter(c, d);
  }

  lemma IdentityApplies(d: Doc)
    requires IsDoc(d)
    ensures Applies(Identity(|d|), d) && Applied(Identity(|d|), d) == d
  {
    hide Text, Styled;
    TextLength(d);
    IdentityIsFor(Text(d));
  }

  lemma TextLength(d: Doc)
    ensures |Text(d)| == |d|
  {}

  lemma ComposeApplied(a: Changeset, b: Changeset, d: Doc)
    requires Applies(a, d) && Applies(b, Applied(a, d)) && IsDoc(d)
    ensures Applies(Compose(a, b), d) && Applied(Compose(a, b), d) == Applied(b, Applied(a, d))
  {
    hide Fits, Apply, IsFor, Text, ApplyText, Clean, Styled, Compose;
    AppliedDoc(a, d);
    ComposeIsSequential(a, b, Text(d));
    ComposeIsClean(a, b, Text(d));
  }

  // The two orders of two concurrent changesets.
  lemma FollowApplied(a: Changeset, b: Changeset, reverse: bool, d: Doc)
    requires Applies(a, d) && Applies(b, d) && IsDoc(d)
    ensures Applies(Follow(a, b, reverse), Applied(a, d)) && Applies(Follow(b, a, !reverse), Applied(b, d))
    ensures Applied(Follow(a, b, reverse), Applied(a, d)) == Applied(Follow(b, a, !reverse), Applied(b, d))
  {
    hide Fits, Apply, IsFor, Text, ApplyText, Clean, Styled, Follow;
    AppliedDoc(a, d);
    AppliedDoc(b, d);
    FollowIsClean(a, b, reverse, Text(d));
    FollowIsClean(b, a, !reverse, Text(d));
    FollowMerges(a, b, reverse, Text(d));
  }

  // ---------- the layers

  ghost predicate SubmittedFits(s: Layers) {
    s.submitted.Some? ==> Applies(s.submitted.value, s.base)
  }

  // The base with the submitted changes.
  ghost function Sent(s: Layers): Doc
    requires SubmittedFits(s)
  {
    if s.submitted.None? then s.base else Applied(s.submitted.value, s.base)
  }

  // Every layer is a changeset for the text of the layers below it.
  ghost predicate Coherent(s: Layers) {
    IsDoc(s.base) && SubmittedFits(s) && Applies(s.user, Sent(s))
  }

  // What the editor shows.
  ghost function Shown(s: Layers): Doc
    requires Coherent(s)
  {
    Applied(s.user, Sent(s))
  }

  lemma SentDoc(s: Layers)
    requires IsDoc(s.base) && SubmittedFits(s)
    ensures IsDoc(Sent(s))
  {
    hide Applies, Applied, IsDoc;
    if s.submitted.Some? { AppliedDoc(s.submitted.value, s.base); }
  }

  lemma ShownDoc(s: Layers)
    requires Coherent(s)
    ensures IsDoc(Shown(s)) && IsDoc(Sent(s)) && |Sent(s)| == s.user.oldLen && |Shown(s)| == s.user.newLen
  {
    hide Applies, Applied, IsDoc;
    SentDoc(s);
    AppliedDoc(s.user, Sent(s));
  }

  // ---------- the operations

  ghost function Start(base: Doc): Layers { Layers(base, None, Identity(|base|)) }

  ghost function Edited(s: Layers, c: Changeset): Layers {
    s.(user := Compose(s.user, c))
  }

  // `c`, from somebody else, arrives for the base. The submitted and the user's changes
  // give way to it, each with the tie break its own way round.
  ghost function Crossed(s: Layers, c: Changeset): Changeset {
    if s.submitted.None? then c else Follow(s.submitted.value, c, true)
  }

  ghost function PostChange(s: Layers, c: Changeset): Changeset {
    Follow(s.user, Crossed(s, c), false)
  }

  ghost function Rebased(s: Layers, c: Changeset): Layers
    requires Applies(c, s.base)
  {
    Layers(Applied(c, s.base),
           if s.submitted.None? then None else Some(Follow(c, s.submitted.value, false)),
           Follow(Crossed(s, c), s.user, true))
  }

  predicate IsIdentity(c: Changeset) { c.ops == [] && c.oldLen == c.newLen }

  ghost function ToSubmit(s: Layers): Option<Changeset> {
    if s.submitted.Some? then Some(Compose(s.submitted.value, s.user))
    else if IsIdentity(s.user) then None
    else Some(s.user)
  }

  ghost function Prepared(s: Layers): Layers {
    match ToSubmit(s)
    case None => s
    case Some(c) => s.(submitted := Some(c), user := Identity(c.newLen))
  }

  ghost function Committed(s: Layers): Layers
    requires s.submitted.Some? && SubmittedFits(s)
  {
    Layers(Sent(s), None, s.user)
  }

  // ---------- what they keep

  lemma StartShows(d: Doc)
    requires IsDoc(d)
    ensures Coherent(Start(d)) && Shown(Start(d)) == d
  {
    hide Applies, Applied, IsDoc;
    IdentityApplies(d);
  }

  lemma EditShows(s: Layers, c: Changeset)
    requires Coherent(s) && Applies(c, Shown(s))
    ensures Coherent(Edited(s, c)) && Shown(Edited(s, c)) == Applied(c, Shown(s)) && Sent(Edited(s, c)) == Sent(s)
  {
    hide Applies, Applied, IsDoc, Compose;
    ShownDoc(s);
    ComposeApplied(s.user, c, Sent(s));
  }

  lemma CrossedApplies(s: Layers, c: Changeset)
    requires Coherent(s) && Applies(c, s.base)
    ensures Applies(Crossed(s, c), Sent(s)) && IsDoc(Applied(c, s.base))
    ensures var r := Rebased(s, c);
            SubmittedFits(r) && Sent(r) == Applied(Crossed(s, c), Sent(s)) && r.base == Applied(c, s.base)
  {
    hide Applies, Applied, IsDoc, Follow;
    AppliedDoc(c, s.base);
    if s.submitted.Some? {
      FollowApplied(c, s.submitted.value, false, s.base);
    }
  }

  // The document that is shown moves by exactly the post change, and is again what the
  // layers stand for.
  lemma RebaseShows(s: Layers, c: Changeset)
    requires Coherent(s) && Applies(c, s.base)
    ensures Coherent(Rebased(s, c)) && Applies(PostChange(s, c), Shown(s))
    ensures Shown(Rebased(s, c)) == Applied(PostChange(s, c), Shown(s))
  {
    hide Applies, Applied, IsDoc, Follow;
    SentDoc(s);
    CrossedApplies(s, c);
    FollowApplied(Crossed(s, c), s.user, true, Sent(s));
  }

  lemma IdentityShows(s: Layers)
    requires Coherent(s) && IsIdentity(s.user)
    ensures Shown(s) == Sent(s)
  {
    hide Applies, IsDoc, IsFor;
    ShownDoc(s);
    IdentityAppliedIs(s.user, Sent(s));
  }

  lemma IdentityAppliedIs(c: Changeset, d: Doc)
    requires Applies(c, d) && c.ops == []
    ensures Applied(c, d) == d
  {
    hide Safe, Normal, Text;
    OnDocument(c, Text(d), d);
  }

  // Preparing a submission changes neither the base nor what is shown.
  lemma PrepareShows(s: Layers)
    requires Coherent(s)
    ensures Coherent(Prepared(s)) && Shown(Prepared(s)) == Shown(s) && Prepared(s).base == s.base
    ensures ToSubmit(s).Some? ==> Applies(ToSubmit(s).value, s.base) && Applied(ToSubmit(s).value, s.base) == Shown(s)
    ensures ToSubmit(s).None? ==> Shown(s) == s.base
  {
    hide Applies, Applied, IsDoc, Compose;
    ShownDoc(s);
    if s.submitted.Some? {
      ComposeApplied(s.submitted.value, s.user, s.base);
      AppliedDoc(ToSubmit(s).value, s.base);
      IdentityApplies(Shown(s));
    } else if IsIdentity(s.user) {
      IdentityShows(s);
    } else {
      IdentityApplies(Shown(s));
    }
  }

  // An accepted submission becomes part of the base; nothing the user sees changes.
  lemma CommitShows(s: Layers)
    requires Coherent(s) && s.submitted.Some?
    ensures Coherent(Committed(s)) && Shown(Committed(s)) == Shown(s) && Committed(s).base == Sent(s)
  {
    hide Applies, Applied, IsDoc;
    SentDoc(s);
  }

  // With nothing uncommitted the editor shows the base.
  lemma NothingUncommitted(s: Layers)
    requires Coherent(s) && s.submitted.None? && IsIdentity(s.user)
    ensures Shown(s) == s.base
  {
    IdentityShows(s);
  }

  // ---------- every run

  datatype Event = Edit(c: Changeset) | Arrive(c: Changeset) | Prepare | Commit

  // The event can happen now: changesets are for the text they meet, and only what was
  // submitted is accepted.
  ghost predicate Possible(s: Layers, e: Event)
    requires Coherent(s)
  {
    match e
    case Edit(c) => Applies(c, Shown(s))
    case Arrive(c) => Applies(c, s.base)
    case Prepare => true
    case Commit => s.submitted.Some?
  }

  ghost function Happened(s: Layers, e: Event): Layers
    requires Coherent(s) && Possible(s, e)
  {
    match e
    case Edit(c) => Edited(s, c)
    case Arrive(c) => Rebased(s, c)
    case Prepare => Prepared(s)
    case Commit => Committed(s)
  }

  // What the event does to the document in the editor.
  ghost function OnScreen(s: Layers, e: Event, d: Doc): Doc
    requires Coherent(s) && Possible(s, e) && d == Shown(s)
  {
    match e
    case Edit(c) => Applied(c, d)
    case Arrive(c) => RebaseShows(s, c); Applied(PostChange(s, c), d)
    case Prepare => d
    case Commit => d
  }

  lemma EventShows(s: Layers, e: Event)
    requires Coherent(s) && Possible(s, e)
    ensures Coherent(Happened(s, e)) && Shown(Happened(s, e)) == OnScreen(s, e, Shown(s))
  {
    hide Applies, Applied, IsDoc, Compose, Follow;
    match e
    case Edit(c) => EditShows(s, c);
    case Arrive(c) => RebaseShows(s, c);
    case Prepare => PrepareShows(s);
    case Commit => CommitShows(s);
  }

  ghost predicate Run(s: Layers, d: Doc, events: seq<Event>, s': Layers, d': Doc)
    decreases |events|
  {
    if events == [] then s' == s && d' == d
    else
      && Coherent(s) && d == Shown(s) && Possible(s, events[0])
      && Run(Happened(s, events[0]), OnScreen(s, events[0], d), events[1..], s', d')
  }

  // After any run of edits, arrivals, submissions and acceptances the editor shows the
  // base, then what was submitted, then what the user did since.
  lemma {:induction false} RunShows(s: Layers, d: Doc, events: seq<Event>, s': Layers, d': Doc)
    requires Coherent(s) && d == Shown(s) && Run(s, d, events, s', d')
    ensures Coherent(s') && d' == Shown(s')
    decreases |events|
  {
    hide Coherent, Shown, Happened, OnScreen, Possible;
    if events != [] {
      EventShows(s, events[0]);
      RunShows(Happened(s, events[0]), OnScreen(s, events[0], d), events[1..], s', d');
    }
  }
}
