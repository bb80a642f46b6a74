/** The changeset tracker: a client's three layers, kept in step with the document in its editor. */
module Tracking {
  import opened Attributes
  import opened Changesets
  import opened Composition
  import opened NormalForm
  import opened Views
  import opened Algebra
  import opened Laws
  import opened SmartAssembler
  import opened Zipping
  import opened Engine
  import opened FollowEngine
  import opened Applying
  import opened Inversion
  import opened InversionSteps
  import opened DocLines
  import opened LineMutation
  import opened Cleaning
  import opened Layers
  import opened Pools
  import Numbers = NumberedEngine
  import opened NumberedTexts
  import opened SettingText
  import opened Splicing
  import opened Editing

  // ---------- texts without attributes

  // `makeAttribution`
  method MakeAttribution(text: string) returns (r: seq<Op>)
    ensures Fits(r, text, []) && Apply(r, text, []) == Typed(text, [])
  {
    hide Fits, Apply, Typed, Normal, SmartOpAssembler.Valid, Newlines;
    TypingAll(text);
    var assem := new SmartOpAssembler();
    assem.AppendOpWithText(Insert, text, []);
    assert [] + TextOps(Insert, text, []) == TextOps(Insert, text, []);
    r := assem.ToString();
    NormalEffect(TextOps(Insert, text, []), false, text, []);
  }

  lemma TypingAll(text: string)
    ensures Fits(TextOps(Insert, text, []), text, []) && Apply(TextOps(Insert, text, []), text, []) == Typed(text, [])
  {
    hide Fits, Apply, Typed, TextOps;
    NoDocText();
    TextOpsDo(Insert, text, [], text, []);
  }

  // ---------- the tracker

  // Changesets act on texts: on a document with the same text they apply alike.
  lemma AppliesByText(c: Changeset, d: Doc, e: Doc)
    requires Applies(c, d) && Text(d) == Text(e) && IsDoc(d) && IsDoc(e)
    ensures Applies(c, e) && Text(Applied(c, e)) == Text(Applied(c, d))
  {
    hide Applied, IsDoc, Text, ApplyText, IsCleanFor;
    AppliedDoc(c, d);
    AppliedDoc(c, e);
  }

  lemma LengthOfText(d: Doc)
    ensures |Text(d)| == |d|
  {}

  class ChangesetTracker {
    // latest official text from the server
    var baseAText: AText
    // changes applied to the base text that have been submitted
    var submittedChangeset: Option<Changeset>
    // changes since
    var userChangeset: Changeset
    var tracking: bool
    var applyingNonUserChanges: bool

    ghost function State(): Layers
      reads this
    {
      Layers(if IsAText(baseAText) then DocOf(baseAText) else [], submittedChangeset, userChangeset)
    }

    ghost predicate Valid()
      reads this
    {
      IsAText(baseAText) && Coherent(State())
    }

    // The editor shows the three layers.
    ghost predicate InStep(editor: Editor)
      reads this, editor.lines, editor.alines
      requires Valid()
    {
      tracking ==> editor.Doc() == Shown(State())
    }

    // ... as far as the text is concerned.
    ghost predicate TextInStep(editor: Editor)
      reads this, editor.lines, editor.alines
      requires Valid()
    {
      tracking ==> Text(editor.Doc()) == Text(Shown(State()))
    }

    constructor ()
      ensures Valid() && !tracking && !applyingNonUserChanges && State() == Start(Typed("\n", []))
    {
      baseAText := AText("\n", [Op(Insert, 1, 1, [])]);
      submittedChangeset := None;
      userChangeset := Changeset(1, 1, [], "");
      tracking, applyingNonUserChanges := false, false;
      new;
      NewlineDoc();
      StartShows(Typed("\n", []));
    }

    // Somebody changed the document: the user, unless a change of ours is being applied.
    method ComposeUserChangeset(c: Changeset)
      requires Valid() && (tracking && !applyingNonUserChanges ==> Applies(c, Shown(State())))
      modifies this`userChangeset
      ensures Valid()
      ensures State() == if tracking && !applyingNonUserChanges && !IsIdentity(c) then Edited(old(State()), c)
          else old(State())
    {
      hide Applies, Applied, IsAText, DocOf, Coherent, Shown, Compose, IsFor, Text;
      if !tracking { return; }
      if applyingNonUserChanges { return; }
      if IsIdentity(c) { return; }
      EditShows(State(), c);
      UserMeans(State(), c);
      var r := ComposeChangesets(userChangeset, c, Text(Sent(State())), Text(Shown(State())));
      userChangeset := r.value;
    }

    // The document changes, and the tracker is told.
    method ChangeDocument(c: Changeset, editor: Editor)
      requires Valid() && editor.Valid() && Applies(c, editor.Doc()) && TextInStep(editor)
      modifies this`userChangeset, editor`editEvent, editor.lines, editor.alines
      ensures Valid() && editor.Valid() && editor.Doc() == old(Applied(c, editor.Doc()))
      ensures editor.editEvent.eventType == old(editor.editEvent.eventType)
      ensures tracking && !applyingNonUserChanges && !IsIdentity(c) ==> State() == Edited(old(State()), c)
      ensures !tracking || applyingNonUserChanges || IsIdentity(c) ==> State() == old(State())
      ensures !applyingNonUserChanges ==> TextInStep(editor) && (old(InStep(editor)) ==> InStep(editor))
    {
      hide Applies, Applied, IsAText, DocOf, Coherent, Shown, Edited, Text, IsDoc, Records, AreLines, DocFrom;
      ghost var s, d := State(), editor.Doc();
      if tracking && !applyingNonUserChanges { EditInStep(s, c, d); }
      editor.PerformDocumentApplyChangeset(c);
      if tracking {
        ComposeUserChangeset(c);
      }
    }

    // Changes by somebody else arrive for the base text, their attributes numbered in a pool
    // of their own if one comes with them.
    method ApplyChangesToBase(n: Numbers.NumChangeset, apoolJsonObj: Option<PoolData>, ghost wire: seq<Pair>,
                              apool: AttribPool, editor: Editor)
      requires Valid() && editor.Valid() && apool.Valid() && !applyingNonUserChanges && TextInStep(editor)
      requires if apoolJsonObj.Some? then IsPoolData(apoolJsonObj.value, wire) else wire == apool.Contents()
      requires tracking ==> Readable(wire, n.ops) && Applies(Numbers.Meaning(wire, n), State().base)
      modifies this, apool, editor`editEvent, editor`eventStart, editor.lines, editor.alines
      ensures Valid() && editor.Valid() && apool.Valid() && tracking == old(tracking) && !applyingNonUserChanges
      ensures tracking ==> State() == Rebased(old(State()), Numbers.Meaning(wire, n))
      ensures !tracking ==> State() == old(State()) && editor.Doc() == old(editor.Doc())
      ensures TextInStep(editor) && (old(InStep(editor)) ==> InStep(editor))
      ensures old(apool.Contents()) <= apool.Contents()
    {
      hide Applies, Applied, IsAText, DocOf, Coherent, Shown, Text, IsDoc, Records, AreLines, DocFrom, Rebased,
           AttribPool.Valid, AttribPool.Contents, Readable, IsPoolData, MovedOps, Editor.Valid, Editor.Doc;
      if !tracking { return; }
      var ops := TranslatedOps(n.ops, apoolJsonObj, wire, apool);
      ApplyTranslatedChanges(Changeset(n.oldLen, n.newLen, ops, n.bank), editor);
    }

    // The rest of it, once the attributes are those of the client's pool.
    method ApplyTranslatedChanges(c: Changeset, editor: Editor)
      requires Valid() && editor.Valid() && !applyingNonUserChanges && TextInStep(editor)
      requires tracking ==> Applies(c, State().base)
      modifies this, editor`editEvent, editor`eventStart, editor.lines, editor.alines
      ensures Valid() && editor.Valid() && tracking == old(tracking) && !applyingNonUserChanges
      ensures tracking ==> State() == Rebased(old(State()), c)
      ensures !tracking ==> State() == old(State()) && editor.Doc() == old(editor.Doc())
      ensures TextInStep(editor) && (old(InStep(editor)) ==> InStep(editor))
    {
      hide Applies, Applied, IsAText, DocOf, Coherent, Shown, Text, IsDoc, Records, AreLines, DocFrom, Rebased, Follow,
           Fits, Apply, IsFor, Normal, ApplyText, IsCleanFor;
      if !tracking { return; }
      ghost var s, d := State(), editor.Doc();
      RebaseMeans(s, c, baseAText);
      RebaseShows(s, c);
      ShownDoc(s);
      AppliesByText(PostChange(s, c), Shown(s), d);
      baseAText := ApplyToAText(c, baseAText);
      var c2 := c;
      if submittedChangeset.Some? {
        var oldSubmittedChangeset := submittedChangeset.value;
        var r := FollowChangesets(c, oldSubmittedChangeset, false, Text(s.base), Text(s.base));
        submittedChangeset := Some(r.value);
        r := FollowChangesets(oldSubmittedChangeset, c, true, Text(s.base), Text(s.base));
        c2 := r.value;
      }
      var preferInsertingAfterUserChanges := true;
      var oldUserChangeset := userChangeset;
      var r := FollowChangesets(c2, oldUserChangeset, preferInsertingAfterUserChanges, Text(Sent(s)), Text(Sent(s)));
      userChangeset := r.value;
      r := FollowChangesets(oldUserChangeset, c2, !preferInsertingAfterUserChanges, Text(Sent(s)), Text(Sent(s)));
      var postChange := r.value;
      RebasedIs(s, c, State());
      applyingNonUserChanges := true;
      ApplyChangesetToDocument(postChange, editor);
      applyingNonUserChanges := false;
    }

    // The callback: the change is not for the user to undo.
    method ApplyChangesetToDocument(changeset: Changeset, editor: Editor)
      requires Valid() && editor.Valid() && Applies(changeset, editor.Doc()) && applyingNonUserChanges
      modifies this`userChangeset, editor`editEvent, editor`eventStart, editor.lines, editor.alines
      ensures Valid() && editor.Valid() && editor.Doc() == old(Applied(changeset, editor.Doc()))
      ensures userChangeset == old(userChangeset)
    {
      hide Applies, Applied, IsAText, DocOf, Coherent, Shown, Text, IsDoc, Records, AreLines, DocFrom, Compose;
      var oldEvent := editor.StartNewEvent("nonundoable");
      editor.PerformDocumentApplyChangeset(changeset);
      if tracking {
        ComposeUserChangeset(changeset);
      }
      var _ := editor.StartNewEvent(oldEvent.eventType);
    }

    // What is to be sent to the server, if anything, with a pool that has its attributes.
    method PrepareUserChangeset(apool: AttribPool)
      returns (changeset: Option<Numbers.NumChangeset>, pool: Option<PoolData>, ghost wire: seq<Pair>)
      requires Valid() && apool.Valid()
      modifies this`submittedChangeset, this`userChangeset, apool
      ensures Valid() && apool.Valid() && State() == Prepared(old(State())) && Shown(State()) == old(Shown(State()))
      ensures State().base == old(State().base) && old(apool.Contents()) <= apool.Contents()
      ensures changeset.Some? <==> ToSubmit(old(State())).Some?
      ensures changeset.Some? <==> pool.Some?
      ensures changeset.Some? ==>
                && IsPoolData(pool.value, wire) && Readable(wire, changeset.value.ops)
                && Numbers.Meaning(wire, changeset.value) == ToSubmit(old(State())).value
    {
      hide Applies, Applied, IsAText, DocOf, Coherent, Shown, Prepared, ToSubmit,
           AttribPool.Valid, AttribPool.Contents, Readable, IsPoolData, MovedOps;
      var cs := TakeUserChangeset();
      changeset, pool, wire := None, None, [];
      if cs.Some? {
        var ops, data;
        ops, data, wire := OpsForWire(cs.value.ops, apool);
        changeset := Some(Numbers.NumChangeset(cs.value.oldLen, cs.value.newLen, ops, cs.value.bank));
        pool := Some(data);
      }
    }

    // What there is to submit becomes what is submitted.
    method TakeUserChangeset() returns (cs: Option<Changeset>)
      requires Valid()
      modifies this`submittedChangeset, this`userChangeset
      ensures Valid() && cs == ToSubmit(old(State())) && State() == Prepared(old(State()))
      ensures Shown(State()) == old(Shown(State())) && State().base == old(State().base)
    {
      hide Applies, Applied, IsAText, DocOf, Coherent, Shown, Compose, Text, IsFor, Identity;
      ghost var s := State();
      PrepareShows(s);
      var toSubmit := None;
      if submittedChangeset.Some? {
        // the submission was canceled; the new changeset includes the old one
        SubmittedMeans(s);
        var r := ComposeChangesets(submittedChangeset.value, userChangeset, Text(s.base), Text(Sent(s)));
        toSubmit := Some(r.value);
      } else {
        if IsIdentity(userChangeset) { toSubmit := None; } else { toSubmit := Some(userChangeset); }
      }
      cs := None;
      if toSubmit.Some? {
        submittedChangeset := toSubmit;
        userChangeset := Changeset(toSubmit.value.newLen, toSubmit.value.newLen, [], "");
        cs := toSubmit;
        IdentityIs(toSubmit.value.newLen);
      }
    }

    // The server accepted what was submitted.
    method ApplyPreparedChangesetToBase() returns (r: Result<()>)
      requires Valid()
      modifies this`baseAText, this`submittedChangeset
      ensures Valid() && (r.Success? <==> old(submittedChangeset).Some?)
      ensures r.Failure? ==> State() == old(State())
      ensures r.Success? ==> State() == Committed(old(State())) && Shown(State()) == old(Shown(State()))
    {
      hide Applies, Applied, IsAText, DocOf, Coherent, Shown, Text, IsFor, Fits, Apply, Normal, ApplyText;
      if submittedChangeset.None? {
        return Failure("applySubmittedChangesToBase: no submitted changes to apply");
      }
      ghost var s := State();
      CommitMeans(s, baseAText);
      CommitShows(s);
      baseAText := ApplyToAText(submittedChangeset.value, baseAText);
      submittedChangeset := None;
      r := Success(());
    }

    method HasUncommittedChanges() returns (b: bool)
      requires Valid()
      ensures !b ==> Shown(State()) == State().base
      ensures b <==> submittedChangeset.Some? || !IsIdentity(userChangeset)
    {
      hide Applies, Applied, IsAText, DocOf, Coherent, Shown;
      b := submittedChangeset.Some? || !IsIdentity(userChangeset);
      if !b { NothingUncommitted(State()); }
    }

    // The pad is opened. The base text is renumbered for the client's pool, while the editor is
    // handed the numbers as they came, and reads them in that pool. So the two are in step
    // exactly if renumbering changes nothing, and the document has kept the right final
    // newline. (Numbers that say nothing at all in the client's pool have been changed too.)
    method SetBaseAttributedText(
      text: string, attribs: seq<NumOp>, apoolJsonObj: PoolData, ghost wire: seq<Pair>, apool: AttribPool,
          editor: Editor)
      returns (readable: bool)
      requires Valid() && editor.Valid() && apool.Valid() && IsPoolData(apoolJsonObj, wire)
      requires WellRead(wire, attribs) && IsNumbered(wire, attribs, text) && text != "" && text[|text| - 1] == '\n'
      modifies this, apool, editor`editEvent, editor.lines, editor.alines
      ensures Valid() && editor.Valid() && apool.Valid() && tracking && !applyingNonUserChanges
      ensures State() == Start(Meant(wire, attribs, text)) && Shown(State()) == Meant(wire, attribs, text)
      ensures var (moved, pool) := MovedOps(wire, old(apool.Contents()), attribs);
              && apool.Contents() == pool && readable == WellRead(pool, attribs)
              && (moved == attribs ==> readable)
              && (readable ==>
                    && TextInStep(editor)
                    && (InStep(editor) <==>
                          NothingRenumbered(attribs, moved)
                              && SameFinal(old(editor.Doc()), Meant(wire, attribs, text))))
    {
      hide Applied, IsAText, DocOf, Coherent, Shown, Text, Records, AreLines, DocFrom, Styled, Applies, SameFinal,
           Replaced,
           AttribPool.Valid, AttribPool.Contents, MovedOps, WellRead, NothingRenumbered, Editor.Valid, Editor.Doc,
           Meant, IsNumbered, Readable, Distinct, IsPoolData;
      tracking := true;
      ghost var local, d := apool.Contents(), editor.Doc();
      var base, shown := ReadTwice(text, attribs, apoolJsonObj, wire, apool, d);
      OpeningIs(base, shown, wire, local, attribs, text, d);
      baseAText := AText(text, base);
      submittedChangeset := None;
      userChangeset := Changeset(|text|, |text|, [], "");
      applyingNonUserChanges := true;
      IdentityIs(|text|);
      readable := shown.Some?;
      if shown.Some? {
        editor.SetDocAText(AText(text, shown.value));
      }
      applyingNonUserChanges := false;
    }
  }

  // Ops that came from the server, as they read in the client's pool.
  method TranslatedOps(ops: seq<NumOp>, apoolJsonObj: Option<PoolData>, ghost wire: seq<Pair>, apool: AttribPool)
    returns (r: seq<Op>)
    requires apool.Valid() && Readable(wire, ops)
    requires if apoolJsonObj.Some? then IsPoolData(apoolJsonObj.value, wire) else wire == apool.Contents()
    modifies apool
    ensures apool.Valid() && old(apool.Contents()) <= apool.Contents() && r == Read(wire, ops)
  {
    hide AttribPool.Valid, AttribPool.Contents, MovedOps, Readable, Distinct;
    var moved := ops;
    ReadableIsKnown(wire, ops);
    if apoolJsonObj.Some? {
      ghost var local := apool.Contents();
      apool.PairsAreDistinct();
      var wireApool := new AttribPool();
      wireApool.FromJsonable(apoolJsonObj.value, wire);
      MovedOpsMean(wire, local, ops);
      MovingKeepsMeaning(wire, local, ops);
      moved := MoveOpsToNewPool(ops, wireApool, apool);
    }
    r := Numbers.LookUpOps(moved, apool);
  }

  lemma ReadableIsKnown(pool: seq<Pair>, ops: seq<NumOp>)
    requires Readable(pool, ops)
    ensures AllKnown(pool, ops)
  {}

  // Ops on their way to the server, with a pool of just their own attributes.
  method OpsForWire(ops: seq<Op>, apool: AttribPool)
    returns (translated: seq<NumOp>, data: PoolData, ghost wire: seq<Pair>)
    requires apool.Valid()
    modifies apool
    ensures apool.Valid() && old(apool.Contents()) <= apool.Contents()
    ensures IsPoolData(data, wire) && Readable(wire, translated) && Read(wire, translated) == ops
  {
    hide AttribPool.Valid, AttribPool.Contents, MovedOps, Readable, Distinct;
    var numbered := Numbers.FileOps(ops, apool);
    ReadableIsKnown(apool.Contents(), numbered);
    var newPool;
    translated, newPool := PrepareForWire(numbered, apool);
    NothingDistinct();
    MovingKeepsMeaning(apool.Contents(), [], numbered);
    wire := newPool.Contents();
    data := newPool.ToJsonable();
    DataOfPool(newPool);
  }

  lemma NothingDistinct()
    ensures Distinct([])
  {}

  lemma DataOfPool(pool: AttribPool)
    requires pool.Valid()
    ensures IsPoolData(PoolData(pool.numToAttrib, pool.nextNum), pool.Contents())
  {
    pool.PairsAreDistinct();
  }

  // The attributes once for the base text, renumbered, and once as they came.
  method ReadTwice(text: string, attribs: seq<NumOp>, apoolJsonObj: PoolData, ghost wire: seq<Pair>, apool: AttribPool,
      ghost d: Doc)
    returns (base: seq<Op>, shown: Option<seq<Op>>)
    requires apool.Valid() && IsPoolData(apoolJsonObj, wire)
    requires WellRead(wire, attribs) && IsNumbered(wire, attribs, text) && text != ""
    modifies apool
    ensures apool.Valid() && Opening(base, shown, wire, old(apool.Contents()), attribs, text, d)
    ensures AllKnown(wire, attribs) && apool.Contents() == MovedOps(wire, old(apool.Contents()), attribs).1
  {
    hide AttribPool.Valid, AttribPool.Contents, MovedOps, WellRead, Meant, IsNumbered, Readable, Distinct;
    ghost var local := apool.Contents();
    apool.PairsAreDistinct();
    var wireApool := new AttribPool();
    wireApool.FromJsonable(apoolJsonObj, wire);
    OpeningReads(wire, local, attribs, text, d);
    var moved := MoveOpsToNewPool(attribs, wireApool, apool);
    var r := ReadIn(apool, moved);
    base := r.value;
    shown := ReadIn(apool, attribs);
  }

  // ---------- what the methods above need, with the definitions hidden

  lemma NewlineDoc()
    ensures var a := AText("\n", [Op(Insert, 1, 1, [])]);
            IsAText(a) && DocOf(a) == Typed("\n", []) && IsDoc(Typed("\n", []))
                && Changeset(1, 1, [], "") == Identity(|Typed("\n", [])|)
  {
    var op := Op(Insert, 1, 1, []);
    assert "\n"[..1] == "\n" && "\n"[1..] == "" && [op][1..] == [];
    assert Newlines("\n") == 1 by { assert "\n"[1..] == ""; }
    assert Typed("\n", []) + [] == Typed("\n", []);
    assert MapOf([]) == map[];
  }

  lemma UserMeans(s: Layers, c: Changeset)
    requires Coherent(s) && Applies(c, Shown(s))
    ensures SubmittedFits(s) && IsFor(s.user, Text(Sent(s))) && IsFor(c, Text(Shown(s)))
    ensures s.user.newLen == c.oldLen && Text(Shown(s)) == TextAfter(s.user, Text(Sent(s)))
  {
    hide IsFor, Text, ApplyText, Applied, IsDoc;
    ShownDoc(s);
    AppliedDoc(s.user, Sent(s));
    AppliedDoc(c, Shown(s));
  }

  lemma EditInStep(s: Layers, c: Changeset, d: Doc)
    requires Coherent(s) && IsDoc(d) && Applies(c, d) && Text(d) == Text(Shown(s))
    ensures Applies(c, Shown(s)) && Coherent(Edited(s, c))
    ensures Text(Applied(c, d)) == Text(Shown(Edited(s, c))) && (d == Shown(s) ==> Applied(c, d) == Shown(Edited(s, c)))
    ensures IsIdentity(c) ==> Applied(c, d) == d
  {
    hide IsDoc, Text, Applied, Applies, Compose;
    ShownDoc(s);
    AppliesByText(c, d, Shown(s));
    EditShows(s, c);
    if IsIdentity(c) { IdentityAppliedIs(c, d); }
  }

  lemma RebaseMeans(s: Layers, c: Changeset, a: AText)
    requires Coherent(s) && Applies(c, s.base) && IsAText(a) && s.base == DocOf(a)
    ensures Text(s.base) == a.text && IsFor(c, Text(s.base)) && Fits(c.ops, c.bank, DocOf(a))
        && Applied(c, s.base) == After(c, DocOf(a))
    ensures SubmittedFits(s) && IsDoc(s.base)
    ensures s.submitted.Some? ==> IsFor(s.submitted.value, Text(s.base)) && c.oldLen == s.submitted.value.oldLen
    ensures IsFor(s.user, Text(Sent(s))) && IsFor(Crossed(s, c), Text(Sent(s))) && Crossed(s, c).oldLen == s.user.oldLen
  {
    hide IsFor, Text, Fits, Apply, Applied, IsDoc, Follow, IsAText;
    DocOfText(a);
    AppliedIs(c, s.base);
    CrossedApplies(s, c);
    ShownDoc(s);
    AppliedDoc(Crossed(s, c), Sent(s));
    AppliedDoc(c, s.base);
    if s.submitted.Some? { AppliedDoc(s.submitted.value, s.base); }
  }

  lemma AppliedIs(c: Changeset, d: Doc)
    requires Applies(c, d)
    ensures Fits(c.ops, c.bank, d) && Applied(c, d) == After(c, d)
  {
    hide Fits, Apply, IsFor, Text;
    OnDocument(c, Text(d), d);
  }

  lemma RebasedIs(s: Layers, c: Changeset, s': Layers)
    requires Applies(c, s.base) && s'.base == Applied(c, s.base)
    requires s'.submitted == if s.submitted.None? then None else Some(Follow(c, s.submitted.value, false))
    requires s'.user == Follow(Crossed(s, c), s.user, true)
    ensures s' == Rebased(s, c)
  {}

  lemma SubmittedMeans(s: Layers)
    requires Coherent(s) && s.submitted.Some?
    ensures SubmittedFits(s) && IsFor(s.submitted.value, Text(s.base)) && IsFor(s.user, Text(Sent(s)))
    ensures s.submitted.value.newLen == s.user.oldLen && Text(Sent(s)) == TextAfter(s.submitted.value, Text(s.base))
  {
    hide IsFor, Text, ApplyText, Applied, IsDoc;
    ShownDoc(s);
    AppliedDoc(s.submitted.value, s.base);
  }

  lemma IdentityIs(n: int)
    ensures Changeset(n, n, [], "") == Identity(n)
  {}

  lemma CommitMeans(s: Layers, a: AText)
    requires Coherent(s) && s.submitted.Some? && IsAText(a) && s.base == DocOf(a)
    ensures SubmittedFits(s) && IsFor(s.submitted.value, a.text)
        && Fits(s.submitted.value.ops, s.submitted.value.bank, DocOf(a))
    ensures Sent(s) == After(s.submitted.value, DocOf(a))
  {
    hide IsFor, Text, Fits, Apply, Applied, IsDoc, IsAText;
    DocOfText(a);
    AppliedIs(s.submitted.value, s.base);
  }

  // The pool as it was written.
  ghost predicate IsPoolData(data: PoolData, pool: seq<Pair>) {
    && Distinct(pool) && data.nextNum == |pool|
    && (forall n: nat :: n in data.numToAttrib <==> n < |pool|)
    && forall n: nat :: n < |pool| ==> data.numToAttrib[n] == pool[n]
  }

  ghost predicate IsNumbered(pool: seq<Pair>, ops: seq<NumOp>, text: string) {
    Readable(pool, ops) && IsAText(AText(text, Read(pool, ops)))
  }

  // The document the numbers stand for in their own pool.
  ghost function Meant(pool: seq<Pair>, ops: seq<NumOp>, text: string): Doc
    requires IsNumbered(pool, ops, text)
  {
    DocOf(AText(text, Read(pool, ops)))
  }

  ghost predicate SameFinal(a: Doc, d: Doc) {
    a != [] && d != [] && a[|a| - 1] == d[|d| - 1]
  }

  lemma OpeningMeans(atext: AText, shown: AText, d: Doc)
    requires IsAText(atext) && IsAText(shown) && shown.text == atext.text && atext.text != "" && Styled(DocOf(atext))
    ensures Coherent(Start(DocOf(atext))) && Shown(Start(DocOf(atext))) == DocOf(atext)
        && |DocOf(atext)| == |atext.text|
    ensures Text(DocOf(atext)) == atext.text && DocOf(shown) != []
    ensures d != [] ==>
              (Replaced(DocOf(shown), d) == DocOf(atext) <==>
                 SameButFinal(DocOf(shown), DocOf(atext)) && SameFinal(d, DocOf(atext)))
  {
    hide Fits, Apply, Text, Styled, Coherent, Shown, IsAText, DocOf;
    DocOfText(atext);
    DocOfText(shown);
    LengthOfText(DocOf(atext));
    LengthOfText(DocOf(shown));
    StartShows(DocOf(atext));
    if d != [] { ReplacedParts(DocOf(shown), d, DocOf(atext)); }
  }

  // Documents of ops that can be read are documents of a pad.
  lemma {:induction false} ReadIsStyled(ops: seq<Op>, text: string)
    requires Fits(ops, text, []) && forall i :: 0 <= i < |ops| ==> NoEmptyValues(ops[i].attribs)
    ensures Styled(Apply(ops, text, []))
  {
    hide NoEmptyValues, LinesTrue;
    if ops != [] {
      NothingToKeep(ops[0], text);
      ReadIsStyled(ops[1..], text[ops[0].chars..]);
    }
  }

  lemma WellReadIsStyled(pool: seq<Pair>, ops: seq<NumOp>, text: string)
    requires WellRead(pool, ops) && IsNumbered(pool, ops, text)
    ensures Styled(Meant(pool, ops, text))
  {
    hide NoEmptyValues, Sorted, Pairs, Fits, Apply, Styled;
    var r := Read(pool, ops);
    forall i | 0 <= i < |r| ensures NoEmptyValues(r[i].attribs) { assert NumsWellRead(pool, ops[i].nums); }
    ReadIsStyled(r, text);
  }

  lemma MovedIsWellRead(wire: seq<Pair>, local: seq<Pair>, ops: seq<NumOp>)
    requires WellRead(wire, ops) && Distinct(local)
    ensures var (moved, pool) := MovedOps(wire, local, ops); WellRead(pool, moved)
  {
    hide NoEmptyValues, Sorted, Pairs, MovedOps, Distinct;
    WellReadIsReadable(wire, ops);
    MovedOpsMean(wire, local, ops);
    var (moved, pool) := MovedOps(wire, local, ops);
    forall i | 0 <= i < |moved| ensures NumsWellRead(pool, moved[i].nums) {
      assert NumsWellRead(wire, ops[i].nums) && SameOp(wire, ops[i], pool, moved[i]);
    }
  }

  // The base text and the one for the editor; what becomes of the document `d`.
  ghost predicate Opening(base: seq<Op>, shown: Option<seq<Op>>, wire: seq<Pair>, local: seq<Pair>, ops: seq<NumOp>,
      text: string, d: Doc)
  {
    && AllKnown(wire, ops)
    && var (moved, pool) := MovedOps(wire, local, ops);
       && IsNumbered(wire, ops, text) && base == Read(wire, ops)
       && (shown.Some? <==> WellRead(pool, ops)) && (moved == ops ==> shown.Some?)
       && (shown.Some? ==>
             && Readable(pool, ops) && shown.value == Read(pool, ops)
             && Shows(shown.value, base, ops, moved, text, d))
  }

  ghost predicate Shows(shown: seq<Op>, base: seq<Op>, ops: seq<NumOp>, moved: seq<NumOp>, text: string, d: Doc) {
    && IsAText(AText(text, base)) && IsAText(AText(text, shown))
    && var a, b := DocOf(AText(text, base)), DocOf(AText(text, shown));
       && Styled(b) && b != [] && a != [] && Text(a) == text
       && (d != [] ==> (Replaced(b, d) == a <==> NothingRenumbered(ops, moved) && SameFinal(d, a)))
  }

  lemma OpeningReads(wire: seq<Pair>, local: seq<Pair>, ops: seq<NumOp>, text: string, d: Doc)
    requires WellRead(wire, ops) && Distinct(local) && IsNumbered(wire, ops, text) && text != ""
    ensures AllKnown(wire, ops)
    ensures var (moved, pool) := MovedOps(wire, local, ops);
            && WellRead(pool, moved) && Readable(pool, moved) && Read(pool, moved) == Read(wire, ops)
            && (WellRead(pool, ops) ==> Readable(pool, ops))
            && Opening(Read(wire, ops), if WellRead(pool, ops) then Some(Read(pool, ops))
                else None, wire, local, ops, text, d)
  {
    hide NoEmptyValues, Sorted, Pairs, MovedOps, Distinct, Fits, Apply, Styled, Coherent, Shown, WellRead, Text,
         Readable,
         NothingRenumbered, SameFinal, SameButFinal, Replaced;
    WellReadIsReadable(wire, ops);
    WellReadIsStyled(wire, ops, text);
    MovedIsWellRead(wire, local, ops);
    SomeOps(Read(wire, ops), text);
    ReadInOther(wire, local, ops, text);
    var (moved, pool) := MovedOps(wire, local, ops);
    var a := AText(text, Read(wire, ops));
    OpeningMeans(a, a, d);
    if WellRead(pool, ops) {
      WellReadIsReadable(pool, ops);
      var b := AText(text, Read(pool, ops));
      WellReadIsStyled(pool, ops, text);
      OpeningMeans(a, b, d);
    }
  }

  // The same, of the layers the tracker starts from.
  lemma OpeningIs(base: seq<Op>, shown: Option<seq<Op>>, wire: seq<Pair>, local: seq<Pair>, ops: seq<NumOp>,
      text: string, d: Doc)
    requires Opening(base, shown, wire, local, ops, text, d) && WellRead(wire, ops) && text != ""
    ensures var (moved, pool) := MovedOps(wire, local, ops);
            && IsNumbered(wire, ops, text) && IsAText(AText(text, base))
            && DocOf(AText(text, base)) == Meant(wire, ops, text)
            && (shown.Some? <==> WellRead(pool, ops)) && (moved == ops ==> shown.Some?)
            && var e := Meant(wire, ops, text);
               && Coherent(Start(e)) && Shown(Start(e)) == e && |e| == |text|
               && (shown.Some? ==>
                     && IsAText(AText(text, shown.value))
                     && var b := DocOf(AText(text, shown.value));
                        && Styled(b) && b != [] && Text(e) == text
                        && (d != [] ==> (Replaced(b, d) == e <==> NothingRenumbered(ops, moved) && SameFinal(d, e))))
  {
    hide NoEmptyValues, Sorted, Pairs, MovedOps, Fits, Apply, Styled, Coherent, Shown, WellRead, Text,
         NothingRenumbered, SameFinal, Replaced;
    WellReadIsStyled(wire, ops, text);
    OpeningMeans(AText(text, base), AText(text, base), d);
  }

  lemma SomeOps(ops: seq<Op>, text: string)
    requires Fits(ops, text, []) && text != ""
    ensures ops != []
  {}

  lemma ReplacedParts(a: Doc, d: Doc, e: Doc)
    requires a != [] && d != [] && |a| == |e|
    ensures Replaced(a, d) == e <==> SameButFinal(a, e) && SameFinal(d, e)
  {
    var r := Replaced(a, d);
    assert e == e[..|e| - 1] + [e[|e| - 1]];
    assert r[..|a| - 1] == a[..|a| - 1] && r[|a| - 1] == d[|d| - 1];
  }
}
