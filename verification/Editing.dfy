/** The editor's document: its lines, their attributions, and the undo record of an edit event. */
module Editing {
  import opened Attributes
  import opened Changesets
  import opened Composition
  import opened NormalForm
  import opened Views
  import opened Algebra
  import opened Laws
  import opened Zipping
  import opened Engine
  import opened Applying
  import opened Building
  import opened Inversion
  import opened Inverting
  import opened DocLines
  import opened LineMutation
  import opened TextLines
  import opened AttributionSteps
  import opened AttributionLines
  import opened AttributionJoining
  import opened SmartAssembler
  import opened ATexts
  import opened SettingText
  import opened Cleaning
  import opened Layers

  // ---------- undo accumulation, as values

  // What is recorded of one edit event: for one that cannot be undone, the changeset that
  // makes the document what it is; for one that can, the changeset that takes it back.
  datatype EditEvent = EditEvent(eventType: string, changeset: Option<Changeset>, backset: Option<Changeset>)

  // `start` is the document when the event began, `d` the document now.
  ghost predicate Records(e: EditEvent, start: Doc, d: Doc) {
    if e.eventType == "nonundoable" then
      e.backset.None?
      && match e.changeset
         case None => start == d
         case Some(c) => Applies(c, start) && Applied(c, start) == d
    else
      e.changeset.None?
      && match e.backset
         case None => start == d
         case Some(b) => Applies(b, d) && Applied(b, d) == start
  }

  // `inverse` takes `Applied(c, d)` back to `d`.
  ghost predicate TakesBack(inverse: Changeset, c: Changeset, d: Doc)
    requires Applies(c, d)
  {
    Applies(inverse, Applied(c, d)) && Applied(inverse, Applied(c, d)) == d
  }

  ghost function Recorded(e: EditEvent, c: Changeset, inverse: Changeset): EditEvent {
    if e.eventType == "nonundoable" then
      e.(changeset := Some(if e.changeset.None? then c else Compose(e.changeset.value, c)))
    else
      e.(backset := Some(if e.backset.None? then inverse else Compose(inverse, e.backset.value)))
  }

  // Whatever is done during an event, the record leads from the start to the document, or
  // back.
  lemma RecordKeeps(e: EditEvent, start: Doc, d: Doc, c: Changeset, inverse: Changeset)
    requires IsDoc(start) && IsDoc(d) && Records(e, start, d) && Applies(c, d)
    requires e.eventType != "nonundoable" ==> TakesBack(inverse, c, d)
    ensures Records(Recorded(e, c, inverse), start, Applied(c, d))
  {
    hide Applies, Applied, IsDoc, Compose;
    AppliedDoc(c, d);
    if e.eventType == "nonundoable" {
      if e.changeset.Some? { ComposeApplied(e.changeset.value, c, start); }
    } else {
      if e.backset.Some? { ComposeApplied(inverse, e.backset.value, Applied(c, d)); }
    }
  }

  lemma InverseTakesBack(r: Changeset, c: Changeset, d: Doc)
    requires IsDoc(d) && Applies(c, d) && Inverts(r, c, d)
    ensures TakesBack(r, c, d)
  {
    hide Fits, Apply, IsFor, Text, ApplyText, Styled, Inverts, Clean;
    InverseUndoes(r, c, d);
    InverseIsClean(r, c, d);
    OnDocument(c, Text(d), d);
  }

  // ---------- the lines of a text and of an attribution, changed separately

  // Both are split the same way, so they still belong together.
  lemma SeparatelyChanged(cs: Changeset, t: seq<string>, v: seq<seq<Op>>, t1: seq<string>, v': seq<seq<Op>>,
      t2: seq<string>)
    requires AreLines(t, v) && IsFor(cs, Flat(t)) && Fits(cs.ops, cs.bank, DocFrom(t, v, 0))
    requires AreLines(t1, v') && DocFrom(t1, v', 0) == After(cs, DocFrom(t, v, 0))
    requires IsSplit(t2, TextAfter(cs, Flat(t)))
    ensures t1 == t2
  {
    hide Fits, Apply, Normal, LineOk, DocFrom, ApplyText, IsFor, IsSplit;
    LinesRefineJoined(cs, t, v, t1, v');
    SplitIsUnique(t1, t2, TextAfter(cs, Flat(t)));
  }

  lemma TextIsFlat(t: seq<string>, v: seq<seq<Op>>)
    requires AreLines(t, v)
    ensures Text(DocFrom(t, v, 0)) == Flat(t) == TextFrom(t, 0)
  {
    hide Fits, Apply, LineOk, Text;
    DocFromText(t, v, 0);
    TextFromFlat(t, 0);
    assert t[0..] == t;
  }

  class Editor {
    const lines: LineList<char>
    const alines: LineList<Op>
    var editEvent: EditEvent
    ghost var eventStart: Doc

    ghost predicate Valid()
      reads this, lines, alines
    {
      AreLines(lines.items, alines.items) && IsDoc(Doc()) && IsDoc(eventStart) && Records(editEvent, eventStart, Doc())
    }

    ghost function Doc(): Doc
      reads lines, alines
    {
      if AreLines(lines.items, alines.items) then DocFrom(lines.items, alines.items, 0) else []
    }

    constructor (textLines: LineList<char>, attribLines: LineList<Op>)
      requires AreLines(textLines.items, attribLines.items) && IsDoc(DocFrom(textLines.items, attribLines.items, 0))
      ensures Valid() && lines == textLines && alines == attribLines
      ensures Doc() == DocFrom(textLines.items, attribLines.items, 0)
    {
      lines, alines := textLines, attribLines;
      editEvent := EditEvent("setup", None, None);
      eventStart := DocFrom(textLines.items, attribLines.items, 0);
    }

    // A new event; the old one is for the undo module.
    method StartNewEvent(eventType: string) returns (oldEvent: EditEvent)
      requires Valid()
      modifies this`editEvent, this`eventStart
      ensures Valid() && oldEvent == old(editEvent) && Doc() == old(Doc())
      ensures editEvent == EditEvent(eventType, None, None) && eventStart == Doc()
    {
      oldEvent := editEvent;
      editEvent := EditEvent(eventType, None, None);
      eventStart := Doc();
    }

    method RecordUndoInformation(changes: Changeset)
      requires Valid() && Applies(changes, Doc())
      modifies this`editEvent
      ensures Records(editEvent, eventStart, Applied(changes, Doc())) && editEvent.eventType == old(editEvent.eventType)
    {
      hide AreLines, IsDoc, Applies, Applied, DocFrom, Compose, Records, Recorded, TextFrom, Inverts, TakesBack, IsFor;
      TextIsFlat(lines.items, alines.items);
      AppliesMeans(changes, Doc());
      if editEvent.eventType == "nonundoable" {
        RecordKeeps(editEvent, eventStart, Doc(), changes, changes);
        RecordedIs(editEvent, changes, changes);
        RecordsMeans(editEvent, eventStart, Doc());
        if editEvent.changeset.None? {
          editEvent := editEvent.(changeset := Some(changes));
        } else {
          var r := ComposeChangesets(editEvent.changeset.value, changes, Text(eventStart), Text(Doc()));
          editEvent := editEvent.(changeset := Some(r.value));
        }
      } else {
        var inverseChangeset := Inverse(changes, lines.items, alines.items);
        InverseTakesBack(inverseChangeset, changes, Doc());
        RecordKeeps(editEvent, eventStart, Doc(), changes, inverseChangeset);
        RecordedIs(editEvent, changes, inverseChangeset);
        RecordsMeans(editEvent, eventStart, Doc());
        TakesBackMeans(inverseChangeset, changes, Doc());
        if editEvent.backset.None? {
          editEvent := editEvent.(backset := Some(inverseChangeset));
        } else {
          var r := ComposeChangesets(inverseChangeset, editEvent.backset.value, Text(Applied(changes, Doc())),
              Text(Doc()));
          editEvent := editEvent.(backset := Some(r.value));
        }
      }
    }

    // The attribution lines are changed here; the text lines are changed next.
    method DoRepApplyChangeset(changes: Changeset) returns (ghost newLines: seq<string>)
      requires Valid() && Applies(changes, Doc())
      modifies this`editEvent, alines
      ensures AreLines(newLines, alines.items) && DocFrom(newLines, alines.items, 0) == old(Applied(changes, Doc()))
      ensures Records(editEvent, eventStart, old(Applied(changes, Doc())))
          && editEvent.eventType == old(editEvent.eventType)
    {
      hide AreLines, IsDoc, DocFrom, Records, TextFrom, IsFor, Fits, Apply, Clean, Text, ApplyText;
      TextIsFlat(lines.items, alines.items);
      OnDocument(changes, Text(Doc()), Doc());
      ForIsParsed(changes, Text(Doc()));
      var ok := CheckRep(changes);
      assert ok;
      RecordUndoInformation(changes);
      newLines := MutateAttributionLines(changes, alines, lines.items);
    }

    // Changes the document, lines and attributions in place.
    method PerformDocumentApplyChangeset(changes: Changeset)
      requires Valid() && Applies(changes, Doc())
      modifies this`editEvent, lines, alines
      ensures Valid() && Doc() == old(Applied(changes, Doc())) && editEvent.eventType == old(editEvent.eventType)
    {
      hide AreLines, IsDoc, DocFrom, Records, TextFrom, IsFor, Fits, Apply, Clean, Text, ApplyText, IsSplit, LinesOk;
      ghost var d, t, v := Doc(), lines.items, alines.items;
      TextIsFlat(t, v);
      AreLinesOk(t, v);
      OnDocument(changes, Text(d), d);
      AppliedDoc(changes, d);
      ghost var newLines := DoRepApplyChangeset(changes);
      MutateTextLines(changes, lines);
      SeparatelyChanged(changes, t, v, newLines, alines.items, lines.items);
    }

    // Puts an attributed text in the place of the document, whose final newline stays.
    method SetDocAText(atext: AText)
      requires Valid() && IsAText(atext) && Styled(DocOf(atext))
      requires atext.text != "" && atext.text[|atext.text| - 1] == '\n'
      modifies this`editEvent, lines, alines
      ensures Valid() && old(Doc()) != [] && DocOf(atext) != [] && Doc() == Replaced(DocOf(atext), old(Doc()))
      ensures Text(Doc()) == atext.text && editEvent.eventType == old(editEvent.eventType)
      // the document is the new one exactly if the final newlines have the same attributes
      ensures Doc() == DocOf(atext) <==>
                old(Doc())[|old(Doc())| - 1] == DocOf(atext)[|DocOf(atext)| - 1]
    {
      hide AreLines, IsDoc, DocFrom, Records, TextFrom, IsFor, Fits, Apply, Clean, Text, IsSplit, LinesOk, IsAText,
           DocOf,
           SmartOpAssembler.Valid, Normal, LengthChange, Counted, Styled, AllButFinal, Applies, Applied, Flat,
               IsCleanFor;
      ghost var d, t := Doc(), lines.items;
      SettingFrom(t, alines.items);
      var oldLen := |Flat(lines.items)|;
      var numLines := |lines.items|;
      var upToLastLine := |Flat(lines.items[..numLines - 1])|;
      var lastLineLength := |lines.items[numLines - 1]| - 1;
      var assem := new SmartOpAssembler();
      assem.Append(Op(Delete, upToLastLine, numLines - 1, []));
      assem.Append(Op(Delete, lastLineLength, 0, []));
      ghost var typed := AppendATextToAssembler(atext, assem);
      ClearingIs(t, assem.raw, typed);
      var change := assem.GetLengthChange();
      var newLen := oldLen + change;
      var ops := assem.ToString();
      var changeset := Changeset(oldLen, newLen, ops, atext.text[..|atext.text| - 1]);
      ReplacementSets(t, alines.items, typed, atext, changeset);
      ForIsParsed(changeset, Text(d));
      var ok := CheckRep(changeset);
      assert ok;
      ReplacedIsNew(DocOf(atext), d);
      PerformDocumentApplyChangeset(changeset);
    }
  }

  lemma AppliesMeans(c: Changeset, d: Doc)
    requires Applies(c, d) && IsDoc(d)
    ensures IsFor(c, Text(d)) && Text(Applied(c, d)) == TextAfter(c, Text(d)) && |Text(d)| == c.oldLen
    ensures |TextAfter(c, Text(d))| == c.newLen && |Applied(c, d)| == c.newLen && |d| == c.oldLen
  {
    hide IsFor, Applied, IsDoc, Text, ApplyText;
    AppliedDoc(c, d);
    TextLength(d);
    TextLength(Applied(c, d));
  }

  lemma RecordedIs(e: EditEvent, c: Changeset, inverse: Changeset)
    ensures Recorded(e, c, inverse)
         == if e.eventType == "nonundoable" then
              e.(changeset := Some(if e.changeset.None? then c else Compose(e.changeset.value, c)))
            else
              e.(backset := Some(if e.backset.None? then inverse else Compose(inverse, e.backset.value)))
  {}

  // What composing the record with something else needs to know.
  lemma RecordsMeans(e: EditEvent, start: Doc, d: Doc)
    requires Records(e, start, d) && IsDoc(start) && IsDoc(d)
    ensures e.eventType == "nonundoable" && e.changeset.Some? ==>
              && IsFor(e.changeset.value, Text(start)) && e.changeset.value.newLen == |Text(d)|
              && Text(d) == TextAfter(e.changeset.value, Text(start))
    ensures e.eventType != "nonundoable" && e.backset.Some? ==>
              IsFor(e.backset.value, Text(d)) && e.backset.value.oldLen == |Text(d)|
  {
    hide IsDoc, Applied, Text, Applies, ApplyText, IsFor;
    TextLength(d);
    if e.eventType == "nonundoable" && e.changeset.Some? { AppliesMeans(e.changeset.value, start); }
    if e.eventType != "nonundoable" && e.backset.Some? { AppliesMeans(e.backset.value, d); }
  }

  lemma TakesBackMeans(r: Changeset, c: Changeset, d: Doc)
    requires IsDoc(d) && Applies(c, d) && TakesBack(r, c, d)
    ensures IsFor(r, Text(Applied(c, d))) && r.newLen == |Text(d)| && Text(d) == TextAfter(r, Text(Applied(c, d)))
  {
    hide IsDoc, Applied, Text, Applies, ApplyText, IsFor;
    AppliedDoc(c, d);
    AppliesMeans(r, Applied(c, d));
    TextLength(d);
  }

  // ---------- setting the document

  lemma SettingFrom(t: seq<string>, v: seq<seq<Op>>)
    requires AreLines(t, v) && IsDoc(DocFrom(t, v, 0))
    ensures t != [] && t[|t| - 1] != "" && LinesOk(t)
  {
    hide Fits, Apply, LineOk, Text, Styled;
    NothingFrom(t, v, 0);
    AreLinesOk(t, v);
    LineOkNonEmpty(t[|t| - 1]);
  }

  lemma ClearingIs(t: seq<string>, raw: seq<Op>, typed: seq<Op>)
    requires t != [] && t[|t| - 1] != ""
    requires raw == [] + Counted(Op(Delete, |Flat(t[..|t| - 1])|, |t| - 1, []))
        + Counted(Op(Delete, |t[|t| - 1]| - 1, 0, [])) + typed
    ensures raw == Clearing(t) + typed
  {
    hide Flat, Counted;
    NoOpsInFront(Counted(Op(Delete, |Flat(t[..|t| - 1])|, |t| - 1, [])));
  }

  lemma ReplacementSets(t: seq<string>, v: seq<seq<Op>>, typed: seq<Op>, a: AText, c: Changeset)
    requires AreLines(t, v) && t != [] && t[|t| - 1] != "" && LinesOk(t)
    requires IsAText(a) && Styled(DocOf(a)) && a.text != "" && a.text[|a.text| - 1] == '\n' && AllButFinal(typed, a)
    requires c == Replacement(t, typed, a)
    ensures var d := DocFrom(t, v, 0);
            && Applies(c, d) && d != [] && DocOf(a) != [] && Applied(c, d) == Replaced(DocOf(a), d)
            && Text(Replaced(DocOf(a), d)) == a.text && IsFor(c, Text(d))
  {
    hide Fits, Apply, LineOk, Text, Styled, Replacement, Clean, Flat, DocOf, DocFrom;
    var d := DocFrom(t, v, 0);
    TextIsFlat(t, v);
    ReplacementIsFor(t, typed, a);
    ReplacementApplied(t, typed, a, d);
    DocEndsLine(t, v, 0);
    ReplacedText(a, d);
  }
}
