/**
 The undo module: a stack of what takes the user's edits back, between which other
 people's changes are carried over.
 */
module UndoStack {
  import opened Attributes
  import opened Changesets
  import opened Composition
  import opened NormalForm
  import opened Algebra
  import opened Following
  import opened Laws
  import opened Zipping
  import opened Engine
  import opened FollowEngine
  import opened Inversion
  import opened LineMutation
  import opened DocLines
  import opened Cleaning
  import opened Layers
  import opened Editing
  import opened UndoElements
  import opened UndoShapes
  import opened UndoSearch

  // ---------- what an undo can come to

  // It is done; or the document has another length than the changeset is for, and the editor
  // throws; or just the lines are not where the changeset has them, which the editor does not
  // look at.
  datatype Outcome = Done | LengthMismatch | LinesMismatch

  // Whether the newlines are where the ops count them.
  predicate LinesFit(ops: seq<Op>, text: string) {
    if ops == [] then true
    else
      && OpLinesFit(ops[0], text)
      && LinesFit(ops[1..], if ops[0].opcode == Insert then text else Drop(text, ops[0].chars))
  }

  predicate OpLinesFit(op: Op, text: string) {
    op.opcode != Insert ==>
      var s := Take(text, op.chars);
      op.lines == Newlines(s) && (op.lines > 0 ==> s != "" && s[|s| - 1] == '\n')
  }

  lemma OpElsewhere(op: Op, bank: string, d: Doc, e: Doc)
    requires OpFits(op, bank, d) && |d| == |e|
    ensures OpFits(op, bank, e) <==> OpLinesFit(op, Text(e))
    ensures op.opcode != Insert ==> 0 <= op.chars <= |e| && Drop(Text(e), op.chars) == Text(e[op.chars..])
  {
    if op.opcode != Insert { TextParts(e, op.chars); }
  }

  // A changeset for one document is one for another of the same length if the newlines fit,
  // and only then.
  lemma {:induction false} FitsElsewhere(ops: seq<Op>, bank: string, d: Doc, e: Doc)
    requires Fits(ops, bank, d) && |d| == |e|
    ensures Fits(ops, bank, e) <==> LinesFit(ops, Text(e))
  {
    hide OpFits, OpLinesFit, Text, Drop;
    if ops != [] {
      var op := ops[0];
      OpElsewhere(op, bank, d, e);
      OpUses(op, bank, d);
      if op.opcode == Insert { WholeDoc(d, e); }
      FitsElsewhere(ops[1..], bank[BankUse(op)..], d[DocUse(op)..], e[DocUse(op)..]);
    }
  }

  lemma WholeDoc(d: Doc, e: Doc)
    ensures d[0..] == d && e[0..] == e
  {}

  lemma OpUses(op: Op, bank: string, d: Doc)
    requires OpFits(op, bank, d)
    ensures 0 <= BankUse(op) <= |bank| && 0 <= DocUse(op) <= |d| && (op.opcode == Insert ==> DocUse(op) == 0)
    ensures op.opcode != Insert ==> DocUse(op) == op.chars
  {}

  lemma TextParts(e: Doc, k: nat)
    requires k <= |e|
    ensures |Text(e)| == |e| && Text(e[..k]) == Text(e)[..k] && Text(e[k..]) == Text(e)[k..]
  {}

  lemma AppliesElsewhere(c: Changeset, d: Doc, e: Doc)
    requires Applies(c, d) && IsDoc(d) && IsDoc(e) && |d| == |e|
    ensures Applies(c, e) <==> LinesFit(c.ops, Text(e))
  {
    hide Fits, Safe, Normal, Styled, LinesFit, Text;
    TextLength(d);
    TextLength(e);
    TextOfUntouched(Text(e));
    FitsElsewhere(c.ops, c.bank, Untouched(Text(d)), Untouched(Text(e)));
  }

  ghost function OutcomeOf(b: Option<Changeset>, d: Doc): Outcome {
    if b.None? then Done
    else if b.value.oldLen != |d| then LengthMismatch
    else if LinesFit(b.value.ops, Text(d)) then Done
    else LinesMismatch
  }

  lemma OutcomeIs(b: Option<Changeset>, at: Doc, d: Doc)
    requires IsDoc(at) && IsDoc(d) && (b.Some? ==> Applies(b.value, at))
    ensures OutcomeOf(b, d) == Done <==> b.None? || Applies(b.value, d)
    ensures b.Some? ==> b.value.oldLen == |at|
  {
    hide IsFor, Styled, LinesFit, Text, IsCleanFor;
    if b.Some? {
      AppliedDoc(b.value, at);
      if |at| == |d| { AppliesElsewhere(b.value, at, d); }
      if Applies(b.value, d) { AppliedDoc(b.value, d); }
    }
  }

  ghost function AppliedIf(b: Option<Changeset>, d: Doc): Doc {
    if b.Some? && Applies(b.value, d) then Applied(b.value, d) else d
  }

  // What an undo hands to the editor: the backset of the event that is `p` events down, with
  // all that lies above carried over; nothing if more than one external change is in reach.
  ghost function BacksetToUndo(stack: seq<Element>, p: nat): Option<Changeset> {
    var e := Nth(stack, p, None);
    if InReach(stack, p) <= 1 && e.Some? then e.value.backset else None
  }

  class UndoModule {
    var stackElements: seq<Element>
    var numUndoableEvents: nat
    // zero-index from the top of the stack
    var undoPtr: nat
    ghost var docs: seq<Doc>

    ghost predicate Valid()
      reads this
    {
      && Linked(stackElements, docs) && Spaced(stackElements)
      && numUndoableEvents == Events(stackElements) && undoPtr < numUndoableEvents
    }

    // Between two calls.
    ghost predicate Ready()
      reads this
    {
      Valid() && Arranged(stackElements, undoPtr)
    }

    // Each step taken back or taken again mirrors another, so the document now is the one
    // `undoPtr` elements down.
    ghost predicate Mirrored()
      reads this
    {
      TopEvents(stackElements, undoPtr) && MirrorImage(docs, |stackElements|, undoPtr)
    }

    // The document the stack starts from: that of the editor.
    ghost function Top(): Doc
      reads this
      requires docs != []
    {
      docs[|docs| - 1]
    }

    constructor (d: Doc)
      requires IsDoc(d)
      ensures Ready() && Mirrored() && undoPtr == 0 && docs == [d, d] && stackElements == [Event("bottom", None)]
    {
      stackElements := [Event("bottom", None)];
      numUndoableEvents := 1;
      undoPtr := 0;
      docs := [d, d];
      new;
      assert stackElements[..0] == [];
    }

    method PushEvent(e: Element, ghost above: Doc)
      requires Valid() && e.Event? && IsDoc(above) && Link(e, Top(), above)
      modifies this`stackElements, this`numUndoableEvents, this`docs
      ensures Valid() && stackElements == old(stackElements) + [e] && docs == old(docs) + [above] && Top() == above
      ensures numUndoableEvents == old(numUndoableEvents) + 1
    {
      hide Link, IsDoc;
      assert (stackElements + [e])[..|stackElements|] == stackElements;
      PushLinked(stackElements, docs, e, above);
      stackElements := stackElements + [e];
      docs := docs + [above];
      numUndoableEvents := numUndoableEvents + 1;
    }

    method PushExternalChange(cs: Changeset)
      requires Ready() && Applies(cs, Top())
      modifies this`stackElements, this`docs
      ensures Ready() && Top() == Applied(cs, old(Top())) && docs[0] == old(docs[0]) && Ext(stackElements, 0)
      ensures numUndoableEvents == old(numUndoableEvents)
      ensures old(stackElements[|stackElements| - 1]).Event? ==>
                stackElements == old(stackElements) + [External(cs)] && docs == old(docs) + [old(Applied(cs, Top()))]
    {
      hide Link, IsDoc, Applies, Applied, Compose, Events, Arranged;
      var idx := |stackElements| - 1;
      ghost var above := Applied(cs, Top());
      SomeElement(stackElements);
      TopLink(stackElements, docs, cs);
      if stackElements[idx].External? {
        var c := stackElements[idx].changeset;
        var r := ComposeChangesets(c, cs, Text(docs[idx]), Text(docs[idx + 1]));
        GrowLinked(stackElements, docs, cs);
        EventsSame(stackElements, stackElements[idx := External(r.value)]);
        KindsArranged(stackElements, stackElements[idx := External(r.value)], undoPtr);
        stackElements := stackElements[idx := External(r.value)];
        docs := docs[idx + 1 := above];
      } else {
        PushLinked(stackElements, docs, External(cs), above);
        EventsPush(stackElements, External(cs));
        PushedArranged(stackElements, External(cs), undoPtr);
        stackElements := stackElements + [External(cs)];
        docs := docs + [above];
      }
    }

    // Brings the `n`th event from the top within reach: external changes sink below it. The
    // documents at the two ends of the stack stay what they are, and so does what the events
    // take back.
    method ExposeEvent(n: nat, ghost k0: nat)
      requires Valid() && n < numUndoableEvents && TopEvents(stackElements, k0)
      modifies this`stackElements, this`docs
      ensures Valid() && Found(stackElements, docs, old(stackElements), old(docs), n, k0)
    {
      hide Events, Searching, Linked, Found, Spaced, TopEvents;
      ghost var orig, odocs := stackElements, docs;
      StartSearching(stackElements, docs, n, k0);
      var targetIndex := |stackElements| - 1 - n;
      var idx := |stackElements| - 1;
      ghost var k, b := 0, false;
      SearchIndex(stackElements, docs, orig, odocs, n, k0, idx, k, b);
      while idx > targetIndex || stackElements[idx].External?
        invariant Searching(stackElements, docs, orig, odocs, n, k0, idx, k, b)
        invariant 0 <= idx < |stackElements|
        decreases idx, stackElements[idx].External?
      {
        if stackElements[idx].External? {
          idx, k, b := Sink(orig, odocs, n, k0, idx, k, b);
        } else {
          SearchSteps(stackElements, docs, orig, odocs, n, k0, idx, k, b);
          idx := idx - 1;
        }
        SearchIndex(stackElements, docs, orig, odocs, n, k0, idx, k, b);
      }
      SearchIndex(stackElements, docs, orig, odocs, n, k0, idx, k, b);
      EndSearching(stackElements, docs, orig, odocs, n, k0, idx, k, b);
      FoundIsValid(stackElements, docs, orig, odocs, n, k0);
    }

    // One external change sinks below one event, and joins one it meets.
    method Sink(ghost orig: seq<Element>, ghost odocs: seq<Doc>, n: nat, ghost k0: nat, idx0: int, ghost k: nat,
        ghost b: bool)
      returns (idx: int, ghost k': nat, ghost b': bool)
      requires Searching(stackElements, docs, orig, odocs, n, k0, idx0, k, b)
      requires 0 <= idx0 < |stackElements| && stackElements[idx0].External?
      modifies this`stackElements, this`docs
      ensures Searching(stackElements, docs, orig, odocs, n, k0, idx, k', b')
      ensures 0 <= idx < |stackElements| && idx <= idx0 && stackElements[idx].Event?
    {
      hide Searching, Linked, Link, IsDoc, Compose, Joined, SunkExternal, SunkEvent, SinkOnce, SunkDocs, CanSink, Meets,
           IsFor, ApplyText;
      ghost var s, d := stackElements, docs;
      SearchSinks(s, d, orig, odocs, n, k0, idx0, k, b);
      SearchLinked(s, d, orig, odocs, n, k0, idx0, k, b);
      SinkMeans(s, d, idx0);
      idx := idx0;
      ghost var met := Meets(s, idx0);
      k', b' := if met && idx0 > |orig| - 1 - n then k + 1 else k, met && idx0 == |orig| - 1 - n;
      var ex, un := CarryOver(stackElements[idx - 1], stackElements[idx], docs[idx - 1], docs[idx], docs[idx + 1]);
      stackElements := stackElements[idx - 1 := ex][idx := un];
      if idx >= 2 && stackElements[idx - 2].External? {
        ghost var t1, t2 := JoinTexts(s, d, idx);
        var r := ComposeChangesets(stackElements[idx - 2].changeset, stackElements[idx - 1].changeset, t1, t2);
        stackElements := stackElements[..idx - 2] + [External(r.value)] + stackElements[idx..];
        idx := idx - 1;
      }
      docs := SunkDocs(s, d, idx0);
    }

    // An edit event has come to an end: `d` is the document it led to.
    method ReportEvent(event: EditEvent, ghost d: Doc)
      requires Ready() && IsDoc(d) && event.eventType != "nonundoable" && Records(event, Top(), d)
      modifies this
      ensures Ready() && Top() == d
      ensures old(HasTop(stackElements, docs)) && HasTop(stackElements, docs)
      ensures event.backset.None? || IsIdentity(event.backset.value) ==>
                && undoPtr == old(undoPtr) && numUndoableEvents == old(numUndoableEvents)
                && BelowTop(stackElements, docs) == old(BelowTop(stackElements, docs))
      ensures event.backset.Some? && !IsIdentity(event.backset.value) ==>
                var merges := Merges(old(TopEvent(stackElements, docs)), event);
                && undoPtr == 0
                && numUndoableEvents == old(numUndoableEvents) + (if merges then 0 else 1)
                && BelowTop(stackElements, docs) == if merges then old(BelowTop(stackElements, docs)) else old(Top())
      ensures old(Mirrored()) || undoPtr == 0 ==> Mirrored()
    {
      hide Linked, IsDoc, Link, Spaced, Events, Records, TopEvent, BelowTop, IsIdentity, Merges, Found, MirrorImage,
           Arranged,
           HasTop, TopEvents;
      ghost var s, ds, mirrored := stackElements, docs, Mirrored();
      ghost var k0 := if mirrored then undoPtr else 0;
      SomeTop(s, ds);
      StackStart(s, ds);
      ExposeEvent(0, k0);
      TopIsFound(stackElements, docs, s, ds, undoPtr, k0);
      ReportedLinks(event, Top(), d);
      if event.backset.None? || IsIdentity(event.backset.value) {
        // only the selection is new
      } else {
        MergeOrPush(event, d);
        StackStart(stackElements, docs);
      }
    }

    // With an event on top: the new one goes into it, or on it.
    method MergeOrPush(event: EditEvent, ghost d: Doc)
      requires Valid() && stackElements != [] && stackElements[|stackElements| - 1].Event?
      requires IsDoc(d) && event.backset.Some? && Link(Event(event.eventType, event.backset), Top(), d)
      modifies this
      ensures Valid() && Top() == d && undoPtr == 0
      ensures HasTop(stackElements, docs) && stackElements[|stackElements| - 1].Event? && docs != []
      ensures var top := old(stackElements)[|old(stackElements)| - 1];
              && numUndoableEvents == old(numUndoableEvents) + (if Merges(top, event) then 0 else 1)
              && BelowTop(stackElements, docs) == if Merges(top, event) then old(docs[|stackElements| - 1])
                  else old(Top())
    {
      hide Linked, IsDoc, Link, Spaced, Events, Merges, BelowTop;
      var top := |stackElements| - 1;
      LinkAt(stackElements, docs, top);
      var topEvent := stackElements[top];
      var merge := MergeWithTop(topEvent, event, docs[top], docs[top + 1], d);
      if merge.Some? {
        ReplaceTop(stackElements, docs, topEvent.(backset := merge), d);
        stackElements := stackElements[top := topEvent.(backset := merge)];
        docs := docs[top + 1 := d];
      } else {
        PushEvent(Event(event.eventType, event.backset), d);
      }
      UnderTop(stackElements, docs);
      undoPtr := 0;
    }

    method ReportExternalChange(changeset: Changeset)
      requires Ready() && Applies(changeset, Top())
      modifies this`stackElements, this`docs
      ensures Ready() && Top() == Applied(changeset, old(Top())) && undoPtr == old(undoPtr)
      ensures numUndoableEvents == old(numUndoableEvents)
      ensures IsIdentity(changeset) ==> stackElements == old(stackElements) && docs == old(docs)
      ensures !IsIdentity(changeset) ==> Ext(stackElements, 0)
      ensures !IsIdentity(changeset) && old(stackElements != [] && stackElements[|stackElements| - 1].Event?) ==>
                stackElements == old(stackElements) + [External(changeset)] && docs == old(docs) + [Top()]
    {
      hide Linked, IsDoc, Applies, Applied, Events, Arranged;
      LinkedEnds(stackElements, docs);
      SomeElement(stackElements);
      if !IsIdentity(changeset) {
        PushExternalChange(changeset);
      } else {
        IdentityAppliedIs(changeset, Top());
      }
    }

    // Takes the change behind the undo pointer back, in the editor. As long as the documents
    // mirror each other, that is the change that was made before all that was undone. More
    // than one external change in reach, and nothing is taken back, though the pointer moves.
    method PerformUndo(editor: Editor) returns (r: Outcome)
      requires Ready() && editor.Valid() && editor.Doc() == Top()
      requires editor.editEvent == EditEvent("undo", None, None) && editor.eventStart == editor.Doc()
      modifies this, editor`editEvent, editor`eventStart, editor.lines, editor.alines
      ensures Ready() && editor.Valid() && editor.Doc() == Top()
      ensures old(undoPtr + 1 >= numUndoableEvents) ==>
                && r == Done && undoPtr == old(undoPtr) && editor.Doc() == old(editor.Doc())
                && stackElements == old(stackElements) && docs == old(docs)
      ensures old(undoPtr + 1 < numUndoableEvents) ==>
                var b := BacksetToUndo(old(stackElements), old(undoPtr));
                && r == OutcomeOf(b, old(editor.Doc()))
                && undoPtr == old(undoPtr) + (if r == Done then 2 else 0)
                && editor.Doc() == if r == Done then AppliedIf(b, old(editor.Doc())) else old(editor.Doc())
      ensures old(Mirrored()) ==> r == Done && Mirrored()
      ensures old(undoPtr + 1 < numUndoableEvents && Mirrored() && TopEvents(stackElements, undoPtr + 1)) ==>
                old(|docs| == |stackElements| + 1 && |stackElements| > undoPtr)
                && editor.Doc() == old(docs[|stackElements| - undoPtr - 1])
      ensures old(undoPtr) == 0 && old(numUndoableEvents) >= 2 ==>
                old(HasTop(stackElements, docs)) && editor.Doc() == old(BelowTop(stackElements, docs))
    {
      hide Linked, IsDoc, Link, Spaced, Events, TopEvent, BelowTop, MirrorImage, Editor.Valid, Editor.Doc, Arranged,
           TopEvents,
           InReach, OutcomeOf, AppliedIf, BacksetToUndo, HasTop, NoneBut;
      r := Done;
      StackStart(stackElements, docs);
      if undoPtr < numUndoableEvents - 1 {
        ghost var mirrored, p := Mirrored(), undoPtr;
        var backset, at := FindUndo();
        var undoEvent;
        r, undoEvent := ApplyBackset(editor, backset, at);
        AfterUndo(stackElements, docs, p, Event(undoEvent.eventType, undoEvent.backset), editor.Doc());
        if r == Done {
          PushEvent(Event(undoEvent.eventType, undoEvent.backset), editor.Doc());
          undoPtr := undoPtr + 2;
        }
      }
    }

    // The two events an undo asks for: the one to take back, and the one whose selection is to
    // be restored. `at` is the document the backset is for.
    method FindUndo() returns (backset: Option<Changeset>, ghost at: Doc)
      requires Ready() && undoPtr + 1 < numUndoableEvents
      modifies this`stackElements, this`docs
      ensures Valid() && Top() == old(Top()) && NoneBut(stackElements, undoPtr + 1, undoPtr + 1)
          && |docs| == |stackElements| + 1
      ensures backset == BacksetToUndo(old(stackElements), undoPtr)
      ensures IsDoc(at) && (backset.Some? ==> Applies(backset.value, at))
      ensures old(Mirrored()) ==>
                && TopEvents(stackElements, undoPtr + 1) && MirrorImage(docs, |stackElements|, undoPtr)
                && undoPtr + 1 < |stackElements|
                && OutcomeOf(backset, Top()) == Done && AppliedIf(backset, Top()) == docs[|stackElements| - 1 - undoPtr]
      ensures old(Mirrored() && TopEvents(stackElements, undoPtr + 1)) ==>
                |old(stackElements)| > undoPtr
                    && AppliedIf(backset, Top()) == old(docs)[|old(stackElements)| - 1 - undoPtr]
      ensures undoPtr == 0 ==>
                && old(HasTop(stackElements, docs))
                && AppliedIf(backset, Top()) == old(BelowTop(stackElements, docs))
    {
      hide Linked, IsDoc, Spaced, Events, TopEvent, BelowTop, MirrorImage, Found, Arranged, Applies,
           InReach, OutcomeOf, AppliedIf, BacksetToUndo, HasTop, TopEvents, NoneBut;
      ghost var s, ds, p, mirrored := stackElements, docs, undoPtr, Mirrored();
      ghost var k0 := if !mirrored then 0 else if TopEvents(s, p + 1) then p + 1 else p;
      StackStart(s, ds);
      ExposeEvent(undoPtr, k0);
      ghost var s1, ds1 := stackElements, docs;
      UndoReaches(s1, ds1, s, ds, p, k0);
      if mirrored { UndoIsEvent(s1, ds1, s, ds, p, k0); }
      var backsetEvent := stackElements[|stackElements| - 1 - undoPtr];
      backset := if backsetEvent.Event? then backsetEvent.backset else None;
      at := ds1[|s1| - p];
      ghost var k1 := if backsetEvent.Event? then p + 1 else 0;
      ExposeEvent(undoPtr + 1, k1);
      UndoArranges(s1, ds1, s, ds, p, k0, stackElements, docs, k1);
      if mirrored { UndoMirrored(s1, ds1, s, ds, p, k0, stackElements, docs); }
      if p == 0 { UndoneFirst(s1, ds1, s, ds, k0); }
    }

    // Takes an undo back.
    method PerformRedo(editor: Editor)
      requires Ready() && editor.Valid() && editor.Doc() == Top()
      requires editor.editEvent == EditEvent("redo", None, None) && editor.eventStart == editor.Doc()
      modifies this, editor`editEvent, editor`eventStart, editor.lines, editor.alines
      ensures Ready() && editor.Valid() && editor.Doc() == Top()
      ensures undoPtr == old(undoPtr) - if old(undoPtr) >= 2 then 2 else 0
      ensures numUndoableEvents == old(numUndoableEvents) - if old(undoPtr) >= 2 then 1 else 0
      ensures old(undoPtr) < 2 ==> editor.Doc() == old(editor.Doc())
      ensures old(undoPtr) >= 2
          ==> old(HasTop(stackElements, docs)) && editor.Doc() == old(BelowTop(stackElements, docs))
      ensures old(undoPtr) >= 2 && Ext(old(stackElements), 0) ==> !Ext(stackElements, 0) && Ext(stackElements, 1)
      ensures old(Mirrored()) ==> Mirrored()
    {
      hide Linked, IsDoc, Link, Spaced, Events, TopEvent, BelowTop, MirrorImage, Editor.Valid, Editor.Doc, Arranged,
           TopEvents,
           OutcomeOf, AppliedIf, HasTop, Ext, Applies;
      StackStart(stackElements, docs);
      if undoPtr >= 2 {
        var backset := FindRedo();
        var r, event := ApplyBackset(editor, backset, Top());
        PopLinked(stackElements, docs);
        stackElements := stackElements[..|stackElements| - 1];
        docs := docs[..|docs| - 1];
        numUndoableEvents := numUndoableEvents - 1;
        undoPtr := undoPtr - 2;
      }
    }

    // The event that is taken back by a redo, on top of the stack.
    method FindRedo() returns (backset: Option<Changeset>)
      requires Ready() && undoPtr >= 2
      modifies this`stackElements, this`docs
      ensures Valid() && Top() == old(Top()) && |stackElements| >= 2 && stackElements[|stackElements| - 1].Event?
      ensures IsDoc(Top()) && (backset.Some? ==> Applies(backset.value, Top())) && OutcomeOf(backset, Top()) == Done
      ensures old(HasTop(stackElements, docs)) && AppliedIf(backset, Top()) == old(BelowTop(stackElements, docs))
      ensures |docs| == |stackElements| + 1 && AppliedIf(backset, Top()) == docs[|stackElements| - 1]
      ensures var s := stackElements[..|stackElements| - 1];
              && Arranged(s, undoPtr - 2) && (Ext(old(stackElements), 0) ==> !Ext(s, 0) && Ext(s, 1))
              && (old(Mirrored()) ==>
                    && TopEvents(s, undoPtr - 2)
                    && MirrorImage(docs[..|stackElements|], |s|, undoPtr - 2))
    {
      hide Linked, IsDoc, Spaced, Events, TopEvent, BelowTop, MirrorImage, Found, Arranged, Applies,
           InReach, OutcomeOf, AppliedIf, HasTop, TopEvents, NoneBut, Ext;
      ghost var s, ds, p, mirrored := stackElements, docs, undoPtr, Mirrored();
      ghost var k0 := if mirrored then p else 0;
      StackStart(s, ds);
      ExposeEvent(0, k0);
      ghost var s1, ds1 := stackElements, docs;
      FoundEnds(s1, ds1, s, ds, 0, k0);
      ExposeEvent(1, k0);
      FoundEnds(stackElements, docs, s1, ds1, 1, k0);
      RedoLinks(stackElements, docs, s1, ds1, s, ds, p, k0);
      backset := stackElements[|stackElements| - 1].backset;
    }

    // What the editor is asked to do; the event it makes of it. `at` is the document that the
    // backset is meant for.
    method ApplyBackset(editor: Editor, backset: Option<Changeset>, ghost at: Doc)
        returns (r: Outcome, event: EditEvent)
      requires editor.Valid() && IsDoc(at) && (backset.Some? ==> Applies(backset.value, at))
      requires editor.editEvent.changeset.None? && editor.editEvent.backset.None?
          && editor.editEvent.eventType != "nonundoable"
      requires editor.eventStart == editor.Doc()
      modifies editor`editEvent, editor`eventStart, editor.lines, editor.alines
      ensures editor.Valid() && IsDoc(editor.Doc()) && r == OutcomeOf(backset, old(editor.Doc()))
      ensures r != Done ==> editor.Doc() == old(editor.Doc())
      ensures r == Done ==>
                && editor.Doc() == AppliedIf(backset, old(editor.Doc()))
                && event.eventType == old(editor.editEvent.eventType)
                && Link(Event(event.eventType, event.backset), old(editor.Doc()), editor.Doc())
    {
      hide IsDoc, Applies, Applied, AreLines, DocFrom, LinesFit, Flat;
      event := EditEvent("", None, None);
      OutcomeIs(backset, at, editor.Doc());
      if backset.Some? {
        var b := backset.value;
        TextIsFlat(editor.lines.items, editor.alines.items);
        TextLength(editor.Doc());
        if b.oldLen != |Flat(editor.lines.items)| { return LengthMismatch, event; }
        if !LinesFit(b.ops, Flat(editor.lines.items)) { return LinesMismatch, event; }
        editor.PerformDocumentApplyChangeset(b);
      }
      r := Done;
      event := editor.StartNewEvent("");
    }
  }

  lemma FoundIsValid(stack: seq<Element>, docs: seq<Doc>, orig: seq<Element>, odocs: seq<Doc>, n: nat, k0: nat)
    requires Found(stack, docs, orig, odocs, n, k0)
    ensures Linked(stack, docs) && Spaced(stack) && Events(stack) == Events(orig)
  {
    hide Linked, Spaced, Events;
  }

  lemma FoundMeans(stack: seq<Element>, docs: seq<Doc>, orig: seq<Element>, odocs: seq<Doc>, n: nat, k0: nat)
    requires Found(stack, docs, orig, odocs, n, k0)
    ensures Linked(stack, docs) && Spaced(stack) && Events(stack) == Events(orig) && stack != []
        && stack[|stack| - 1].Event?
    ensures |docs| == |stack| + 1 && |odocs| == |orig| + 1 && docs[0] == odocs[0] && docs[|stack|] == odocs[|orig|]
    ensures SameTop(orig, odocs, stack, docs) && SameAbove(stack, docs, orig, odocs, k0) && Exposes(orig, stack, n)
    ensures TopEvents(stack, n + 1) <==> InReach(orig, n) <= 1
    ensures InReach(orig, n) <= 1 ==> n < |stack| && Nth(orig, n, None) == Some(stack[|stack| - 1 - n])
  {
    hide Linked, Spaced, Events, Exposes, InReach, TopEvent, BelowTop, Nth;
    LinkedEnds(stack, docs);
  }

  lemma SearchLinked(stack: seq<Element>, docs: seq<Doc>, orig: seq<Element>, odocs: seq<Doc>, n: nat, k0: nat,
                     idx: int, k: nat, b: bool)
    requires Searching(stack, docs, orig, odocs, n, k0, idx, k, b)
    ensures Linked(stack, docs)
  {}

  lemma SinkMeans(stack: seq<Element>, docs: seq<Doc>, idx: nat)
    requires Linked(stack, docs) && CanSink(stack, idx)
    ensures 0 < idx < |stack| && |docs| == |stack| + 1 && stack[idx].External? && stack[idx - 1].Event?
    ensures IsDoc(docs[idx - 1]) && IsDoc(docs[idx]) && IsDoc(docs[idx + 1])
    ensures Link(stack[idx - 1], docs[idx - 1], docs[idx]) && Link(stack[idx], docs[idx], docs[idx + 1])
    ensures var s := stack[idx - 1 := SunkExternal(stack[idx - 1], stack[idx])][idx := SunkEvent(stack[idx - 1],
        stack[idx])];
            && s[idx - 1].External? && s[idx].Event?
            && SinkOnce(stack, idx)
               == (if idx >= 2 && s[idx - 2].External?
                   then s[..idx - 2] + [External(Compose(s[idx - 2].changeset, s[idx - 1].changeset))] + s[idx..]
                       else s)
            && (Meets(stack, idx) <==> idx >= 2 && s[idx - 2].External?)
            && (Meets(stack, idx) ==> SinkOnce(stack, idx)[idx - 1].Event?)
  {
    hide Compose, SunkExternal, SunkEvent, Linked, Link, IsDoc;
    LinkAt(stack, docs, idx - 1);
    LinkAt(stack, docs, idx);
    SunkKinds(stack[idx - 1], stack[idx]);
  }

  lemma JoinTexts(stack: seq<Element>, docs: seq<Doc>, idx: nat) returns (t1: string, t2: string)
    requires Linked(stack, docs) && CanSink(stack, idx) && Meets(stack, idx)
    ensures SunkExternal(stack[idx - 1], stack[idx]).External?
    ensures var c, d := stack[idx - 2].changeset, SunkExternal(stack[idx - 1], stack[idx]).changeset;
            IsFor(c, t1) && IsFor(d, t2) && c.newLen == d.oldLen && t2 == TextAfter(c, t1)
  {
    hide SunkExternal, SunkEvent, Linked, IsFor, Between, Text, ApplyText;
    SunkKinds(stack[idx - 1], stack[idx]);
    SinkOnceLinked(stack, docs, idx);
    JoinMeans(SwappedAt(stack, idx), SwappedDocs(stack, docs, idx), idx - 2);
    t1, t2 := Text(SwappedDocs(stack, docs, idx)[idx - 2]), Text(SwappedDocs(stack, docs, idx)[idx - 1]);
  }

  // The two changesets, each carried over the other.
  method CarryOver(un: Element, ex: Element, ghost below: Doc, ghost middle: Doc, ghost above: Doc)
      returns (ex': Element, un': Element)
    requires un.Event? && ex.External? && IsDoc(below) && IsDoc(middle) && IsDoc(above)
    requires Link(un, below, middle) && Link(ex, middle, above)
    ensures ex' == SunkExternal(un, ex) && un' == SunkEvent(un, ex)
  {
    hide Follow, Applies, Applied, IsDoc;
    ex', un' := ex, un;
    if un.backset.Some? {
      var excs := ex.changeset;
      var unbs := un.backset.value;
      CarryMeans(excs, unbs, middle);
      var r := FollowChangesets(excs, unbs, false, Text(middle), Text(middle));
      un' := un.(backset := Some(r.value));
      r := FollowChangesets(unbs, ex.changeset, true, Text(middle), Text(middle));
      ex' := External(r.value);
    }
  }

  // ---------- undoing and redoing

  lemma StackStart(stack: seq<Element>, docs: seq<Doc>)
    requires Linked(stack, docs) && 0 < Events(stack)
    ensures stack != [] && Events(stack) <= |stack| && |docs| == |stack| + 1 && IsDoc(docs[|stack|])
    ensures TopEvents(stack, 0) && MirrorImage(docs, |stack|, 0) && Arranged(stack, 0)
  {
    hide Link, IsDoc, MirrorImage;
    EventsBound(stack);
    NothingUndone(stack, docs);
  }

  lemma FoundEnds(stack: seq<Element>, docs: seq<Doc>, orig: seq<Element>, odocs: seq<Doc>, n: nat, k0: nat)
    requires Found(stack, docs, orig, odocs, n, k0)
    ensures Events(stack) == Events(orig) && stack != [] && stack[|stack| - 1].Event?
    ensures |docs| == |stack| + 1 && |odocs| == |orig| + 1 && docs[|stack|] == odocs[|orig|]
    ensures TopEvents(stack, k0) && Events(stack) <= |stack|
  {
    hide Linked, Spaced, Events, Exposes, InReach, SameTop, Nth;
    FoundMeans(stack, docs, orig, odocs, n, k0);
    EventsBound(stack);
  }

  lemma TopIsFound(stack: seq<Element>, docs: seq<Doc>, orig: seq<Element>, odocs: seq<Doc>, p: nat, k0: nat)
    requires Linked(orig, odocs) && Spaced(orig) && Arranged(orig, p) && p < Events(orig)
        && Found(stack, docs, orig, odocs, 0, k0)
    ensures stack != [] && stack[|stack| - 1].Event? && |docs| == |stack| + 1 && |odocs| == |orig| + 1
        && docs[|stack|] == odocs[|orig|]
    ensures Arranged(stack, p) && Events(stack) == Events(orig)
    ensures HasTop(orig, odocs) && HasTop(stack, docs)
    ensures BelowTop(stack, docs) == docs[|stack| - 1] == BelowTop(orig, odocs)
    ensures TopEvent(stack, docs) == stack[|stack| - 1] == TopEvent(orig, odocs)
    ensures k0 == p && MirrorImage(odocs, |orig|, p) ==> TopEvents(stack, p) && MirrorImage(docs, |stack|, p)
  {
    hide Linked, Spaced, Events, Exposes, InReach, TopEvent, BelowTop, Nth, Arranged, MirrorImage, SameAbove, Found,
         HasTop;
    FoundMeans(stack, docs, orig, odocs, 0, k0);
    EventsBound(orig);
    EventsBound(stack);
    ExposedArranged(orig, stack, p);
    UnderTop(stack, docs);
    if k0 == p && MirrorImage(odocs, |orig|, p) { StaysMirrored(stack, docs, orig, odocs, p, k0); }
  }

  // After the first search the event is in its place, or else an external change is.
  lemma UndoReaches(stack: seq<Element>, docs: seq<Doc>, orig: seq<Element>, odocs: seq<Doc>, p: nat, k0: nat)
    requires Linked(orig, odocs) && Spaced(orig) && Arranged(orig, p) && p + 1 < Events(orig)
        && Found(stack, docs, orig, odocs, p, k0)
    ensures p + 1 < |stack| && |docs| == |stack| + 1 && Events(stack) == Events(orig) && |odocs| == |orig| + 1
    ensures docs[|stack|] == odocs[|orig|]
    ensures var e := stack[|stack| - 1 - p];
            && BacksetToUndo(orig, p) == (if e.Event? then e.backset else None)
            && TopEvents(stack, 0) && (e.Event? ==> TopEvents(stack, p + 1))
            && IsDoc(docs[|stack| - p]) && (e.Event? && e.backset.Some? ==> Applies(e.backset.value, docs[|stack| - p]))
  {
    hide Linked, Spaced, Events, Arranged, InReach, Nth, IsDoc, SameTop, Applies, Applied;
    FoundMeans(stack, docs, orig, odocs, p, k0);
    EventsBound(stack);
    EventsBound(orig);
    FewInReach(orig, p);
    LinkAt(stack, docs, |stack| - 1 - p);
  }

  lemma UndoIsEvent(stack: seq<Element>, docs: seq<Doc>, orig: seq<Element>, odocs: seq<Doc>, p: nat, k0: nat)
    requires Spaced(orig) && TopEvents(orig, p) && Found(stack, docs, orig, odocs, p, k0)
    ensures p < |stack| && stack[|stack| - 1 - p].Event?
  {
    hide Linked, Spaced, Events, Exposes, InReach, Nth, SameTop, SameAbove, Found;
    FoundMeans(stack, docs, orig, odocs, p, k0);
    OneInReach(orig, p);
  }

  // After the second there is none above the place next to it.
  lemma UndoArranges(s1: seq<Element>, ds1: seq<Doc>, s: seq<Element>, ds: seq<Doc>, p: nat, k0: nat,
                     s2: seq<Element>, ds2: seq<Doc>, k1: nat)
    requires Spaced(s) && Arranged(s, p) && p + 1 < Events(s)
    requires Found(s1, ds1, s, ds, p, k0) && Found(s2, ds2, s1, ds1, p + 1, k1)
    ensures NoneBut(s2, p + 1, p + 1) && |ds2| == |s2| + 1 && |ds1| == |s1| + 1 && ds2[|s2|] == ds1[|s1|]
        && Events(s2) == Events(s)
  {
    hide Arranged, Exposes, Spaced, Ext, Linked, SameTop, SameAbove, Nth, InReach, TopEvents, Found, Events, NoneBut;
    FoundMeans(s1, ds1, s, ds, p, k0);
    FoundMeans(s2, ds2, s1, ds1, p + 1, k1);
    EventsBound(s);
    EventsBound(s1);
    FirstSearch(s, s1, p);
    SecondSearch(s1, s2, p);
  }

  lemma AfterUndo(stack: seq<Element>, docs: seq<Doc>, p: nat, e: Element, d: Doc)
    requires NoneBut(stack, p + 1, p + 1) && e.Event? && |docs| == |stack| + 1
    ensures Arranged(stack, p) && Arranged(stack + [e], p + 2)
    ensures TopEvents(stack, p + 1) && p + 1 < |stack| && MirrorImage(docs, |stack|, p) ==>
              d == docs[|stack| - 1 - p] ==>
                TopEvents(stack + [e], p + 2) && MirrorImage(docs + [d], |stack| + 1, p + 2)
  {
    hide Arranged, Ext, MirrorImage;
    SettledArranged(stack, p);
    PushedUndo(stack, p, e);
    if p + 1 < |stack| && d == docs[|stack| - 1 - p] { MirrorMore(docs, |stack|, p, d); }
  }

  lemma UndoneFirst(stack: seq<Element>, docs: seq<Doc>, orig: seq<Element>, odocs: seq<Doc>, k0: nat)
    requires Linked(orig, odocs) && Spaced(orig) && 1 < Events(orig) && Found(stack, docs, orig, odocs, 0, k0)
    ensures HasTop(orig, odocs) && |docs| == |stack| + 1 && stack != []
    ensures BelowTop(orig, odocs) == docs[|stack| - 1]
  {
    hide Linked, Spaced, Events, Exposes, InReach, TopEvent, BelowTop, Nth, SameAbove, Found, HasTop;
    FoundMeans(stack, docs, orig, odocs, 0, k0);
    UnderTop(stack, docs);
  }

  lemma NothingUndone(stack: seq<Element>, docs: seq<Doc>)
    requires |docs| == |stack| + 1 && stack != []
    ensures TopEvents(stack, 0) && MirrorImage(docs, |stack|, 0)
  {
    forall j: nat | 2 * j <= 0 ensures MirrorAt(docs, |stack|, 0, j) {}
  }

  // The top elements are as they were, and so are the documents: they mirror each other still.
  lemma StaysMirrored(stack: seq<Element>, docs: seq<Doc>, orig: seq<Element>, odocs: seq<Doc>, p: nat, k0: nat)
    requires SameAbove(stack, docs, orig, odocs, k0) && p <= k0 && p < |stack| && MirrorImage(odocs, |orig|, p)
    ensures TopEvents(stack, p) && MirrorImage(docs, |stack|, p)
  {
    var m, om := |stack|, |orig|;
    forall j: nat | 2 * j <= p ensures MirrorAt(docs, m, p, j) {
      assert MirrorAt(odocs, om, p, j);
      assert docs[m - p + j] == docs[m - k0..][k0 - p + j] && docs[m - j] == docs[m - k0..][k0 - j];
    }
  }

  lemma SameDoc(stack: seq<Element>, docs: seq<Doc>, orig: seq<Element>, odocs: seq<Doc>, k0: nat, x: nat)
    requires SameAbove(stack, docs, orig, odocs, k0) && x <= k0
    ensures docs[|stack| - x] == odocs[|orig| - x]
  {
    assert docs[|stack| - k0..][k0 - x] == odocs[|orig| - k0..][k0 - x];
  }

  // Where the documents mirror each other, the event is for the document of the editor, and
  // leads to the one before the event.
  lemma UndoMirrored(s1: seq<Element>, ds1: seq<Doc>, s: seq<Element>, ds: seq<Doc>, p: nat, k0: nat,
                     s2: seq<Element>, ds2: seq<Doc>)
    requires Linked(s, ds) && Spaced(s) && p + 1 < Events(s) && TopEvents(s, p) && MirrorImage(ds, |s|, p)
    requires k0 == (if TopEvents(s, p + 1) then p + 1 else p) && Found(s1, ds1, s, ds, p, k0)
        && Found(s2, ds2, s1, ds1, p + 1, p + 1)
    ensures |ds1| == |s1| + 1 && p + 1 < |s1| && |ds2| == |s2| + 1 && p + 1 < |s2|
    ensures var e, d := s1[|s1| - 1 - p], ds1[|s1|];
            && e.Event? && OutcomeOf(e.backset, d) == Done
            && AppliedIf(e.backset, d) == ds1[|s1| - 1 - p] == ds2[|s2| - 1 - p]
    ensures TopEvents(s2, p + 1) && MirrorImage(ds2, |s2|, p)
    ensures TopEvents(s, p + 1) ==> |ds| == |s| + 1 && p + 1 < |s| && ds1[|s1| - 1 - p] == ds[|s| - 1 - p]
  {
    hide Linked, Spaced, Events, Nth, IsDoc, SameTop, MirrorImage, OutcomeOf, Applies, Applied, Found, SameAbove,
         Exposes, InReach, Ext;
    FoundMeans(s1, ds1, s, ds, p, k0);
    FoundMeans(s2, ds2, s1, ds1, p + 1, p + 1);
    EventsBound(s);
    EventsBound(s1);
    EventsBound(s2);
    OneInReach(s, p);
    StaysMirrored(s1, ds1, s, ds, p, k0);
    StaysMirrored(s2, ds2, s1, ds1, p, p + 1);
    SameDoc(s2, ds2, s1, ds1, p + 1, p + 1);
    FoundEnds(s2, ds2, s1, ds1, p + 1, p + 1);
    TopIsMirrored(ds1, |s1|, p);
    LinkAt(s1, ds1, |s1| - 1 - p);
    OutcomeIs(s1[|s1| - 1 - p].backset, ds1[|s1|], ds1[|s1|]);
    if TopEvents(s, p + 1) { SameDoc(s1, ds1, s, ds, k0, p + 1); }
  }

  lemma OneInReach(s: seq<Element>, p: nat)
    requires Spaced(s) && TopEvents(s, p)
    ensures InReach(s, p) <= 1
  {
    hide Spaced, Ext, InReach;
    TopEventsExt(s, p);
    if Ext(s, p) { SpacedExt(s, p); }
    InReachOf(s, p, p, p + 1);
  }

  // The two searches before a redo.
  lemma RedoLinks(s2: seq<Element>, ds2: seq<Doc>, s1: seq<Element>, ds1: seq<Doc>, s: seq<Element>, ds: seq<Doc>,
      p: nat, k0: nat)
    requires Linked(s, ds) && Spaced(s) && Arranged(s, p) && 2 <= p < Events(s)
    requires Found(s1, ds1, s, ds, 0, k0) && Found(s2, ds2, s1, ds1, 1, k0)
    ensures |s2| >= 2 && |ds2| == |s2| + 1 && Arranged(s2[..|s2| - 1], p - 2)
    ensures var e := s2[|s2| - 1];
            && e.Event? && IsDoc(ds2[|s2|]) && OutcomeOf(e.backset, ds2[|s2|]) == Done
            && (e.backset.Some? ==> Applies(e.backset.value, ds2[|s2|]))
            && AppliedIf(e.backset, ds2[|s2|]) == ds2[|s2| - 1]
    ensures HasTop(s, ds) && BelowTop(s, ds) == ds2[|s2| - 1]
    ensures Ext(s, 0) ==> !Ext(s2[..|s2| - 1], 0) && Ext(s2[..|s2| - 1], 1)
    ensures k0 == p && MirrorImage(ds, |s|, p)
        ==> TopEvents(s2[..|s2| - 1], p - 2) && MirrorImage(ds2[..|s2|], |s2| - 1, p - 2)
  {
    hide Linked, Spaced, Events, Nth, IsDoc, SameAbove, MirrorImage, OutcomeOf, Applies, Applied, Found, Exposes,
         InReach, Ext, Arranged,
         TopEvent, BelowTop;
    FoundMeans(s1, ds1, s, ds, 0, k0);
    FoundMeans(s2, ds2, s1, ds1, 1, k0);
    EventsBound(s);
    EventsBound(s1);
    EventsBound(s2);
    RedoneArranged(s, s1, s2, p);
    UnderTop(s2, ds2);
    LinkAt(s2, ds2, |s2| - 1);
    OutcomeIs(s2[|s2| - 1].backset, ds2[|s2|], ds2[|s2|]);
    if Ext(s, 0) {
      TopOne(s, s1);
      SecondOne(s1, s2);
      ExtPopped(s2, s2[..|s2| - 1]);
    }
    if k0 == p && MirrorImage(ds, |s|, p) { RedoMirrors(s2, ds2, s1, ds1, s, ds, p); }
  }

  lemma RedoMirrors(s2: seq<Element>, ds2: seq<Doc>, s1: seq<Element>, ds1: seq<Doc>, s: seq<Element>, ds: seq<Doc>,
      p: nat)
    requires SameAbove(s1, ds1, s, ds, p) && SameAbove(s2, ds2, s1, ds1, p) && 2 <= p < |s1| && p < |s2|
        && MirrorImage(ds, |s|, p)
    ensures TopEvents(s2[..|s2| - 1], p - 2) && MirrorImage(ds2[..|s2|], |s2| - 1, p - 2)
  {
    hide MirrorImage;
    StaysMirrored(s1, ds1, s, ds, p, p);
    StaysMirrored(s2, ds2, s1, ds1, p, p);
    MirrorLess(ds2, |s2|, p);
  }

  // ---------- merging events of one kind

  function Occurrences(ops: seq<Op>, opcode: Opcode): nat {
    if ops == [] then 0 else (if ops[0].opcode == opcode then 1 else 0) + Occurrences(ops[1..], opcode)
  }

  ghost predicate Does(c: Changeset, insertions: nat, deletions: nat) {
    Occurrences(c.ops, Insert) == insertions && Occurrences(c.ops, Delete) == deletions
  }

  // Two steps are one action if each does one insertion, or one deletion, and both together
  // do too.
  ghost predicate OneAction(c: Changeset, d: Changeset) {
    || (Does(c, 1, 0) && Does(d, 1, 0) && Does(Compose(c, d), 1, 0))
    || (Does(c, 0, 1) && Does(d, 0, 1) && Does(Compose(c, d), 0, 1))
  }

  method MergeChangesets(cs1: Changeset, cs2: Changeset, ghost t1: string, ghost t2: string)
      returns (merge: Option<Changeset>)
    requires IsFor(cs1, t1) && IsFor(cs2, t2) && cs1.newLen == cs2.oldLen && t2 == TextAfter(cs1, t1)
    ensures merge == if OneAction(cs1, cs2) then Some(Compose(cs1, cs2)) else None
  {
    hide IsFor, Compose, Occurrences, ApplyText;
    merge := None;
    var plusCount1 := Occurrences(cs1.ops, Insert);
    var plusCount2 := Occurrences(cs2.ops, Insert);
    var minusCount1 := Occurrences(cs1.ops, Delete);
    var minusCount2 := Occurrences(cs2.ops, Delete);
    if plusCount1 == 1 && plusCount2 == 1 && minusCount1 == 0 && minusCount2 == 0 {
      var r := ComposeChangesets(cs1, cs2, t1, t2);
      if Occurrences(r.value.ops, Insert) == 1 && Occurrences(r.value.ops, Delete) == 0 {
        merge := Some(r.value);
      }
    } else if plusCount1 == 0 && plusCount2 == 0 && minusCount1 == 1 && minusCount2 == 1 {
      var r := ComposeChangesets(cs1, cs2, t1, t2);
      if Occurrences(r.value.ops, Insert) == 0 && Occurrences(r.value.ops, Delete) == 1 {
        merge := Some(r.value);
      }
    }
  }

  ghost predicate Merges(topEvent: Element, event: EditEvent)
    requires topEvent.Event? && event.backset.Some?
  {
    && topEvent.eventType == event.eventType
    && (topEvent.backset.Some? ==> OneAction(event.backset.value, topEvent.backset.value))
  }

  // The top event with a new one of its kind merged into it, if they are one action.
  method MergeWithTop(topEvent: Element, event: EditEvent, ghost below: Doc, ghost start: Doc, ghost d: Doc)
    returns (merge: Option<Changeset>)
    requires topEvent.Event? && event.backset.Some? && IsDoc(start) && IsDoc(d)
    requires Link(topEvent, below, start) && Link(Event(event.eventType, event.backset), start, d)
    ensures merge.Some? ==> Link(topEvent.(backset := merge), below, d)
    ensures merge.Some? <==> Merges(topEvent, event)
  {
    hide IsDoc, Applies, Applied, Compose, IsFor, Text, OneAction;
    merge := None;
    if topEvent.eventType == event.eventType {
      if topEvent.backset.Some? {
        BacksetMeans(topEvent, below, start, event.backset.value, d);
        merge := MergeChangesets(event.backset.value, topEvent.backset.value, Text(d), Text(start));
      } else {
        merge := event.backset;
      }
      if merge.Some? { MergedLinks(topEvent, below, start, event.backset.value, d, merge.value); }
    }
  }

  lemma ReportedLinks(event: EditEvent, start: Doc, d: Doc)
    requires event.eventType != "nonundoable" && Records(event, start, d) && IsDoc(d)
    ensures Link(Event(event.eventType, event.backset), start, d)
    ensures event.backset.None? || IsIdentity(event.backset.value) ==> start == d
  {
    hide Applied, Applies, IsDoc;
    if event.backset.Some? && IsIdentity(event.backset.value) { IdentityAppliedIs(event.backset.value, d); }
  }

  lemma BacksetMeans(e: Element, below: Doc, start: Doc, b: Changeset, d: Doc)
    requires e.Event? && e.backset.Some? && Link(e, below, start) && Link(Event(e.eventType, Some(b)), start, d)
    requires IsDoc(start) && IsDoc(d)
    ensures IsFor(b, Text(d)) && IsFor(e.backset.value, Text(start)) && b.newLen == e.backset.value.oldLen
    ensures Text(start) == TextAfter(b, Text(d))
  {
    hide IsFor, Applied, IsDoc, Text, ApplyText;
    AppliedDoc(b, d);
    AppliedDoc(e.backset.value, start);
  }

  lemma MergedLinks(e: Element, below: Doc, start: Doc, b: Changeset, d: Doc, merge: Changeset)
    requires e.Event? && Link(e, below, start) && Link(Event(e.eventType, Some(b)), start, d) && IsDoc(d)
    requires merge == if e.backset.Some? then Compose(b, e.backset.value) else b
    ensures Link(e.(backset := Some(merge)), below, d)
  {
    hide Applied, Applies, IsDoc, Compose;
    if e.backset.Some? { ComposeApplied(b, e.backset.value, d); }
  }

  lemma ReplaceTop(stack: seq<Element>, docs: seq<Doc>, e: Element, d: Doc)
    requires Linked(stack, docs) && stack != [] && IsDoc(d) && Link(e, docs[|stack| - 1], d)
    ensures Linked(stack[|stack| - 1 := e], docs[|stack| := d])
    ensures Spaced(stack) && e.Event? && stack[|stack| - 1].Event? ==>
              Spaced(stack[|stack| - 1 := e]) && Events(stack[|stack| - 1 := e]) == Events(stack)
  {
    hide Link, IsDoc;
    var i := |stack| - 1;
    var stack', docs' := stack[i := e], docs[i + 1 := d];
    assert stack'[..i] == stack[..i];
    forall j | 0 <= j < |stack'| ensures Link(stack'[j], docs'[j], docs'[j + 1]) {
      assert j < i ==> Link(stack[j], docs[j], docs[j + 1]);
    }
  }

  // ---------- mirrored documents

  ghost predicate MirrorImage(docs: seq<Doc>, m: nat, p: nat) {
    |docs| == m + 1 && p < m && p % 2 == 0 && forall j: nat :: 2 * j <= p ==> MirrorAt(docs, m, p, j)
  }

  ghost predicate MirrorAt(docs: seq<Doc>, m: nat, p: nat, j: nat)
    requires |docs| == m + 1 && p <= m && 2 * j <= p
  {
    docs[m - p + j] == docs[m - j]
  }

  lemma TopIsMirrored(docs: seq<Doc>, m: nat, p: nat)
    requires |docs| == m + 1 && p < m
    ensures p == 0 || MirrorImage(docs, m, p) ==> docs[m - p] == docs[m]
  {
    if MirrorImage(docs, m, p) { assert MirrorAt(docs, m, p, 0); }
  }

  // One step further back.
  lemma MirrorMore(docs: seq<Doc>, m: nat, p: nat, d: Doc)
    requires |docs| == m + 1 && p + 1 < m + 1 && d == docs[m - 1 - p]
    ensures MirrorImage(docs, m, p) && p + 1 < m ==> MirrorImage(docs + [d], m + 1, p + 2)
  {
    if MirrorImage(docs, m, p) && p + 1 < m {
      var docs' := docs + [d];
      forall j: nat | 2 * j <= p + 2 ensures MirrorAt(docs', m + 1, p + 2, j) {
        if j > 0 { assert MirrorAt(docs, m, p, j - 1); }
      }
    }
  }

  lemma MirrorLess(docs: seq<Doc>, m: nat, p: nat)
    requires |docs| == m + 1 && 2 <= p
    ensures MirrorImage(docs, m, p) ==> MirrorImage(docs[..m], m - 1, p - 2)
  {
    if MirrorImage(docs, m, p) {
      forall j: nat | 2 * j <= p - 2 ensures MirrorAt(docs[..m], m - 1, p - 2, j) {
        assert MirrorAt(docs, m, p, j + 1);
      }
    }
  }

  lemma PopLinked(stack: seq<Element>, docs: seq<Doc>)
    requires Linked(stack, docs) && stack != [] && stack[|stack| - 1].Event?
    ensures Linked(stack[..|stack| - 1], docs[..|docs| - 1]) && Events(stack[..|stack| - 1]) == Events(stack) - 1
    ensures Spaced(stack) ==> Spaced(stack[..|stack| - 1])
  {
    hide Link, IsDoc;
    var stack', docs' := stack[..|stack| - 1], docs[..|docs| - 1];
    forall j | 0 <= j < |stack'| ensures Link(stack'[j], docs'[j], docs'[j + 1]) {
      assert Link(stack[j], docs[j], docs[j + 1]);
    }
  }

  // ---------- an undo that finds nothing

  // Two undos or more; somebody else's change; a redo; again somebody else's change: the two
  // changes now lie on either side of the event on top, in reach of the next undo, which
  // meets one of them where its event should be. It does nothing to the document.
  method UndoThatDoesNothing(undo: UndoModule, editor: Editor, x1: Changeset, x2: Changeset)
    requires undo.Ready() && undo.undoPtr >= 4 && undo.Mirrored() && editor.Valid() && editor.Doc() == undo.Top()
    requires !IsIdentity(x1) && !IsIdentity(x2) && Applies(x1, editor.Doc())
    requires var s, d := undo.stackElements + [External(x1)], undo.docs + [Applied(x1, undo.Top())];
             HasTop(s, d) && Applies(x2, BelowTop(s, d))
    modifies undo, editor`editEvent, editor`eventStart, editor.lines, editor.alines
    ensures undo.Ready() && editor.Valid() && editor.Doc() == undo.Top() && undo.undoPtr == old(undo.undoPtr)
    ensures editor.Doc() == old(var s, d := undo.stackElements + [External(x1)], undo.docs + [Applied(x1, undo.Top())];
                                Applied(x2, BelowTop(s, d)))
  {
    hide Arranged, Linked, IsDoc, Spaced, Events, BelowTop, TopEvent, Applies, Applied, MirrorImage, IsIdentity,
         Editor.Valid, Editor.Doc,
         InReach, OutcomeOf, AppliedIf, BacksetToUndo, Ext;
    TopEventOfMany(undo.stackElements, undo.undoPtr);
    Elsewhere(editor, "redo", x1);
    undo.ReportExternalChange(x1);
    undo.PerformRedo(editor);
    StackStart(undo.stackElements, undo.docs);
    NoExtOnTop(undo.stackElements);
    Elsewhere(editor, "undo", x2);
    ghost var s := undo.stackElements;
    undo.ReportExternalChange(x2);
    ExtPushed(s, External(x2));
    TwoInReach(undo.stackElements, undo.undoPtr);
    NothingDone(undo.Top());
    var r := undo.PerformUndo(editor);
  }

  // Somebody else's change goes into the document; then a new event begins.
  method Elsewhere(editor: Editor, next: string, x: Changeset)
    requires editor.Valid() && Applies(x, editor.Doc()) && next != "nonundoable"
    modifies editor`editEvent, editor`eventStart, editor.lines, editor.alines
    ensures editor.Valid() && editor.Doc() == old(Applied(x, editor.Doc()))
    ensures editor.editEvent == EditEvent(next, None, None) && editor.eventStart == editor.Doc()
  {
    hide Applies, Applied, Editor.Valid;
    var _ := editor.StartNewEvent("nonundoable");
    editor.PerformDocumentApplyChangeset(x);
    var _ := editor.StartNewEvent(next);
  }

  lemma TopEventOfMany(stack: seq<Element>, k: nat)
    requires TopEvents(stack, k) && 0 < k
    ensures stack != [] && stack[|stack| - 1].Event?
  {}

  lemma NoExtOnTop(stack: seq<Element>)
    requires stack != [] && !Ext(stack, 0)
    ensures stack[|stack| - 1].Event?
  {}

  lemma TwoInReach(stack: seq<Element>, p: nat)
    requires Arranged(stack, p) && 2 <= p && Ext(stack, 0) && Ext(stack, 2)
    ensures InReach(stack, p) == 2 && BacksetToUndo(stack, p) == None
  {
    hide Ext, InReach;
    InReachOf(stack, p, 0, 2);
  }

  lemma NothingDone(d: Doc)
    ensures OutcomeOf(None, d) == Done && AppliedIf(None, d) == d
  {}

  // ---------- an undo after somebody else's change

  // An external change, carried through the top `k` events.
  ghost function Through(stack: seq<Element>, k: nat, x: Element): (r: Element)
    requires TopEvents(stack, k) && x.External?
    ensures r.External?
    decreases k
  {
    if k == 0 then x else Through(stack[..|stack| - 1], k - 1, SunkExternal(stack[|stack| - 1], x))
  }

  lemma {:induction false} NthThrough(stack: seq<Element>, k: nat, x: Element)
    requires TopEvents(stack, k + 1) && x.External?
    ensures Nth(stack, k, Some(x)) == Some(SunkEvent(stack[|stack| - 1 - k], Through(stack, k, x)))
    decreases k
  {
    hide SunkExternal, SunkEvent;
    if k > 0 {
      SunkKinds(stack[|stack| - 1], x);
      NthThrough(stack[..|stack| - 1], k - 1, SunkExternal(stack[|stack| - 1], x));
    }
  }

  lemma {:induction false} ThroughLinks(stack: seq<Element>, docs: seq<Doc>, k: nat, x: Element)
    requires Linked(stack, docs) && TopEvents(stack, k) && x.External? && Applies(x.changeset, docs[|stack|])
    ensures |docs| == |stack| + 1 && Applies(Through(stack, k, x).changeset, docs[|stack| - k])
    decreases k
  {
    hide Applies, Applied, IsDoc, SunkExternal, SunkEvent, Between;
    LinkedEnds(stack, docs);
    if k > 0 {
      var m := |stack|;
      var above := Applied(x.changeset, docs[m]);
      AppliedDoc(x.changeset, docs[m]);
      SinkLinks(stack[m - 1], x, docs[m - 1], docs[m], above);
      SunkKinds(stack[m - 1], x);
      assert Link(SunkExternal(stack[m - 1], x), docs[m - 1], Between(stack[m - 1], x, docs[m - 1], above));
      PopLinked(stack, docs);
      ThroughLinks(stack[..m - 1], docs[..m], k - 1, SunkExternal(stack[m - 1], x));
    }
  }

  // `p` changes were undone and redone, and then somebody else's change `x` came in. Carried
  // through all that was undone it has become `z`. The next undo then throws exactly if `x`
  // and `z` leave different lengths. If they do the same to the document, as when the change
  // came back unchanged, the undo is done, and leaves what somebody else's change makes of
  // the document from before the event.
  lemma UndoAfterAnother(stack: seq<Element>, docs: seq<Doc>, p: nat, x: Changeset)
    requires Linked(stack, docs) && TopEvents(stack, p + 1) && MirrorImage(docs, |stack|, p)
        && Applies(x, docs[|stack|])
    ensures var d, z, e := docs[|stack|], Through(stack, p, External(x)).changeset, stack[|stack| - 1 - p];
            && Applies(z, d) && |docs| == |stack| + 1
            && BacksetToUndo(stack + [External(x)], p) == SunkEvent(e, External(z)).backset
            && (e.backset.Some? ==>
                  var b := BacksetToUndo(stack + [External(x)], p);
                  && (OutcomeOf(b, Applied(x, d)) == LengthMismatch <==> z.newLen != x.newLen)
                  && (Applied(z, d) == Applied(x, d) ==>
                        && OutcomeOf(b, Applied(x, d)) == Done
                        && Applies(Follow(e.backset.value, z, true), docs[|stack| - 1 - p])
                        && AppliedIf(b, Applied(x, d))
                            == Applied(Follow(e.backset.value, z, true), docs[|stack| - 1 - p])))
  {
    hide Applies, Applied, IsDoc, Nth, Linked, MirrorImage, Follow, OutcomeOf, InReach, Ext;
    var m := |stack|;
    LinkedEnds(stack, docs);
    var d, z, e := docs[m], Through(stack, p, External(x)), stack[m - 1 - p];
    TopIsMirrored(docs, m, p);
    ThroughLinks(stack, docs, p, External(x));
    NthThrough(stack, p, External(x));
    NthPush(stack, External(x), p, None);
    OnlyOneInReach(stack, External(x), p);
    LinkAt(stack, docs, m - 1 - p);
    AppliedDoc(x, d);
    AppliedDoc(z.changeset, d);
    if e.backset.Some? {
      var b := Follow(z.changeset, e.backset.value, false);
      FollowApplied(z.changeset, e.backset.value, false, d);
      OutcomeIs(Some(b), Applied(z.changeset, d), Applied(x, d));
      OutcomeThrows(b, Applied(z.changeset, d), Applied(x, d));
    }
  }

  lemma OutcomeThrows(b: Changeset, at: Doc, d: Doc)
    requires b.oldLen == |at|
    ensures OutcomeOf(Some(b), d) == LengthMismatch <==> |at| != |d|
  {
    hide LinesFit, Text;
  }

  lemma OnlyOneInReach(stack: seq<Element>, x: Element, p: nat)
    requires TopEvents(stack, p + 1) && x.External?
    ensures InReach(stack + [x], p) <= 1
  {
    hide Ext, InReach;
    TopEventsExt(stack, p + 1);
    ExtPushed(stack, x);
    InReachOf(stack + [x], p, 0, p + 2);
  }

  // "a" was deleted, and the deletion undone; then somebody else deleted the "a". Carried
  // through the undo and the event it took back, that change has nothing left to do: so the
  // event below waits for a document with the "a", and the next undo throws.
  const DELETE_A := Changeset(2, 1, [Op(Delete, 1, 0, [])], "")
  const TYPE_A := Changeset(1, 2, [Op(Insert, 1, 0, [])], "a")

  const DOC_A: Doc := [New('a', []), New('\n', [])]
  const DOC_NO_A: Doc := [New('\n', [])]

  lemma DeletesA()
    ensures Applies(DELETE_A, DOC_A) && Applied(DELETE_A, DOC_A) == DOC_NO_A
  {
    var t := "a\n";
    assert Text(DOC_A) == t;
    assert Text(Untouched(t)[..1]) == "a" && Text(DOC_A[..1]) == "a" && Newlines("a"[1..]) == 0;
    assert DELETE_A.ops[1..] == [] && IsFor(DELETE_A, t);
    OnDocument(DELETE_A, t, DOC_A);
    assert DOC_A[1..] == DOC_NO_A;
  }

  lemma TypesA()
    ensures Applies(TYPE_A, DOC_NO_A) && Applied(TYPE_A, DOC_NO_A) == DOC_A
  {
    var t := "\n";
    assert Text(DOC_NO_A) == t;
    assert "a"[..1] == "a" && "a"[1..] == "" && Newlines("a"[1..]) == 0;
    assert TYPE_A.ops[1..] == [] && IsFor(TYPE_A, t);
    OnDocument(TYPE_A, t, DOC_NO_A);
    assert Typed("a", []) == [New('a', [])] && DOC_NO_A[0..] == DOC_NO_A;
    assert Apply(TYPE_A.ops, TYPE_A.bank, DOC_NO_A) == Typed("a"[..1], [])
        + Apply(TYPE_A.ops[1..], "a"[1..], DOC_NO_A[0..]);
    assert [New('a', [])] + DOC_NO_A == DOC_A;
  }

  lemma FollowsOfA()
    ensures Follow(DELETE_A, DELETE_A, true) == Changeset(1, 1, [], "")
    ensures Follow(TYPE_A, Changeset(1, 1, [], ""), true) == Changeset(2, 2, [], "")
  {
    var del, ins := [Op(Delete, 1, 0, [])], [Op(Insert, 1, 0, [])];
    assert del[1..] == [] && ins[1..] == [];
    assert FollowRaw(del, "", del, "", true) == FollowRaw(del[1..], "", Chop(del, 1, 0), "", true);
    assert FollowRaw(ins, "a", [], "", true) == [Op(Keep, 1, 0, [])] + FollowRaw([], Drop("a", 1), [], "", true);
    assert [Op(Keep, 1, 0, [])][1..] == [];
  }

  lemma UndoCanThrow(b: Changeset, below: Doc)
    requires IsDoc(below) && Applies(b, DOC_A) && Applied(b, DOC_A) == below
    ensures var stack := [Event("first", Some(b)), Event("typing", Some(TYPE_A)), Event("undo", Some(DELETE_A))];
            var docs := [below, DOC_A, DOC_NO_A, DOC_A];
            && Linked(stack, docs) && TopEvents(stack, 3) && MirrorImage(docs, 3, 2) && Applies(DELETE_A, DOC_A)
            && OutcomeOf(BacksetToUndo(stack + [External(DELETE_A)], 2), Applied(DELETE_A, DOC_A)) == LengthMismatch
  {
    hide Applies, Applied, OutcomeOf, BacksetToUndo, Fits, Normal, Safe, FollowRaw, Follow;
    var stack := [Event("first", Some(b)), Event("typing", Some(TYPE_A)), Event("undo", Some(DELETE_A))];
    var docs := [below, DOC_A, DOC_NO_A, DOC_A];
    DeletesA();
    TypesA();
    FollowsOfA();
    assert MirrorImage(docs, 3, 2) by {
      forall j: nat | 2 * j <= 2 ensures MirrorAt(docs, 3, 2, j) { assert j == 0 || j == 1; }
    }
    assert stack[..2][..1] == [Event("first", Some(b))] && stack[..2][1] == stack[1];
    assert Through(stack, 2, External(DELETE_A)) == External(Changeset(2, 2, [], ""));
    UndoAfterAnother(stack, docs, 2, DELETE_A);
  }
}
