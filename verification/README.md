# Etherpad: operational transformation, from the changeset to the network

The project models the parts of Etherpad that let several people type into one pad and end
up with the same document.

* **The engine.** Attribute lists, op streams, the assemblers and their normal form, `compose`,
  `follow`, `inverse`, applying to texts, attributions and attributed texts, and the same work
  done line by line and in place (`Attributes` to `Subattributing`); whose text stands first where two
  type at one place (`Stretches`, `TypingTogether`, `Arrivals`).
* **Pools and strings.** Attribute numbers, moving ops from pool to pool, and the strings that
  changesets travel as (`Pools`, `NumberedTexts`, `NumberedEngine`, `Wire`, `WireFormat`).
* **The client.** The three layers of a client's document, the tracker that keeps the editor in
  step with them, the editor's lines, undo and redo among other people's changes (`Layers`,
  `Tracking`, `Editing`, the five `Undo` modules), and how lines of the page get into the
  document (`LineDiff` to `LineWrapping`).
* **The server and the network.** Revisions, missed changes, message queues, reconnection, and
  convergence over every run (`PadServer`, `MarkerCorrection`, `Network`); what goes wrong with lost
  connections and idle clients (`Reconnecting`, `RevisionSockets`, `IdleClients`); the framing of the
  message stream (`Comet`).
* **Beside it.** The balanced tree of `bbtree.js` on values and on linked nodes
  (`BalancedTree`, `TreeNodes`), and the older changesets of easysync 1 (the four `Strip` modules).

A document is a sequence of characters with attributes. A character is either an old one of the
document a changeset is for, with its position, or a new one; so "does the same" speaks of every
single character. Ops are records, attributes are the pairs that the numbers stand for; `Wire` and
`Pools` carry the results over to strings and numbers. What the code changes in place (assemblers,
iterators, mutators, the editor, the tracker, the undo module, tree nodes) is a class whose methods
are proved against functions on values; lines are lists in a shared object that methods change.

`IsFor(c, t)` says that `c` is a changeset for the text `t` in the form `checkRep` insists on, with true
line counts. Most laws have it as their one condition, and `Building.CheckRep` ties it to the code.

## Model

| member | source | states |
|---|---|---|
| Attributes.ComposeAssociative | infrastructure/ace/www/easysync2.js:842-901 | applying two attribute changes in turn equals applying their composition, for a pending mutation and for the style of a character alike |
| Attributes.AttributesConverge | infrastructure/ace/www/easysync2.js:1933-1968 | merging two concurrent attribute changes in either order gives the same attributes, which for every key are those of the merge: all changes of both, and the lexically earlier value where both set the key |
| AttributeMerging.MergeCompose | infrastructure/ace/www/easysync2.js:842-901 | the list edited in place and sorted has exactly the pairs of the second change (without those that clear, unless the result is a mutation) and those of the first whose keys the second does not speak of |
| AttributeMerging.MergeFollow | infrastructure/ace/www/easysync2.js:1933-1968 | what is left of the second change are exactly the pairs whose value comes before the one the first gives their key, if it gives one: a clearing value wins against every other; still sorted without sorting |
| Ordering.StrLeIs | infrastructure/ace/www/easysync2.js:1933-1968 | the order of the values: a text comes before another exactly if it is a beginning of it or has the smaller character where the two first differ |
| Attributes.SortedIs | infrastructure/ace/www/easysync2.js:842-901 | attribute lists are sorted by their texts key,value in that order |
| NormalForm.NormalEffect | infrastructure/ace/www/easysync2.js:240-338 | whatever ops the smart assembler is fed, the ops it gives out do the same to every document |
| SmartAssembler.SmartOpAssembler.Append | infrastructure/ace/www/easysync2.js:240-338 | the three buffered assemblers, flushed as the code does, keep in step with the normal form of all ops fed so far |
| SmartAssembler.SmartOpAssembler.ToString | infrastructure/ace/www/easysync2.js:240-338 | the string given out is the normal form of the ops: deletions before insertions, like ops merged, no plain keep at the end |
| Views.SameViewSameForm | infrastructure/ace/www/easysync2.js:240-338 | two op lists do the same to every character of a text if and only if their normal forms and char banks are equal |
| Views.NormalIdempotent | infrastructure/ace/www/easysync2.js:199-238 | assembling what was assembled changes nothing, so the canonical-form test of checkRep cannot refuse assembled ops |
| Laws.SameViewSameChangeset | infrastructure/ace/www/easysync2.js:199-238 | a changeset for a text is determined by what it does to its characters |
| Building.CheckRep | infrastructure/ace/www/easysync2.js:199-238 | accepted are the canonical changesets with the right lengths whose last character is neither deleted nor followed; a changeset is one for a text exactly if it is accepted and, which checkRep cannot see, its keeps stay inside the text and its line counts are true there |
| Building.Builder.ToString | infrastructure/ace/www/easysync2.js:1478-1520 | the built changeset is the normal form of the pieces handed in, with the char bank typed |
| Zipping.SlicerZipper | infrastructure/ace/www/easysync2.js:903-990 | one step of the slicer zipper emits the next op of the composition of the two streams and leaves exactly the rest of them |
| Engine.ComposeChangesets | infrastructure/ace/www/easysync2.js:1159-1201 | the loop over both op streams and both banks computes the composition, or fails on mismatched lengths |
| Laws.ComposeIsSequential | infrastructure/ace/www/easysync2.js:1159-1201 | composing is applying one changeset after the other: same text, and on every document the same characters and attributes |
| Laws.ComposeIsAssociative | infrastructure/ace/www/easysync2.js:1159-1201 | both ways of composing three changesets give one and the same changeset, op for op |
| Laws.IdentityIsUnit | infrastructure/ace/www/easysync2.js:1224-1226 | the identity is a changeset for every text and is neutral on both sides of compose |
| FollowEngine.FollowChangesets | infrastructure/ace/www/easysync2.js:1782-1931 | the loop computes the follow of the second changeset, op by op with the tie breaks of the code, or fails on mismatched lengths |
| TypingTogether.WhoStandsFirst | infrastructure/ace/www/easysync2.js:1805-1850 | where both changesets type at one place, both texts stand there whole, in every document: first the one marked to be inserted first if just one is, then the one that starts with no newline if just one does, then that of the first changeset unless the order is reversed |
| TypingTogether.WhoStandsFirstMerged | infrastructure/ace/www/easysync2.js:1805-1850 | the same of the two merged into one changeset |
| Laws.FollowIsFor | infrastructure/ace/www/easysync2.js:1782-1931 | what follows a changeset is a well-formed changeset for the text that one produces |
| Laws.FollowMerges | infrastructure/ace/www/easysync2.js:1782-1931 | convergence: A then follow(A, B) and B then follow(B, A, reversed) compose to one and the same changeset, and every document becomes the same, text and attributes |
| Merging.MergeHasAll | infrastructure/ace/www/easysync2.js:1782-1931 | the merge loses nothing and adds nothing: the text either side types is in it, each in its order and with its attributes, and an old character is there exactly if both keep it, with the attribute changes of both |
| Repeating.SelfFollow | infrastructure/ace/www/easysync2.js:1782-1931 | what follows itself types its text once more behind it, and deletes and restyles nothing; nothing is left to do exactly if it types nothing |
| Applying.ApplyToText | infrastructure/ace/www/easysync2.js:806-824 | gives the changed text, or fails when the length does not match |
| Applying.ApplyToAttribution | infrastructure/ace/www/easysync2.js:992-1004 | gives the one canonical attribution of the changed document |
| Applying.ApplyToAText | infrastructure/ace/www/easysync2.js:1402-1405 | text and attribution are changed together: the result is the attributed text of the changed document |
| Inverting.UndoBackToAttribs | infrastructure/ace/www/easysync2.js:1596-1780 | for each key a keep changed, the old value comes back, and a key that was absent is cleared |
| Inverting.Inverse | infrastructure/ace/www/easysync2.js:1596-1780 | computed from the lines of a document, the inverse retypes what was deleted, deletes what was typed and restyles what was kept |
| Inverting.InverseUndoes | infrastructure/ace/www/easysync2.js:1596-1780 | a changeset followed by its inverse gives back the document, text and attributes |
| Inverting.InverseKeeps | infrastructure/ace/www/easysync2.js:1596-1780 | a character the changeset kept is the same character after the inverse, in its old place; only what was deleted is typed anew |
| TextLines.SplitTextLines | infrastructure/ace/www/easysync2.js:1155-1157 | the pieces are the lines of the text, each ending at its newline, and nothing else is lost or added |
| TextLines.MutateTextLines | infrastructure/ace/www/easysync2.js:507-756 | changed line by line through the splice buffer, the lines become exactly the lines of the changed text |
| AttributionLines.MutateAttributionLines | infrastructure/ace/www/easysync2.js:1006-1103 | rewritten in place, the attribution lines are those of the changed document, one a line |
| AttributionJoining.JoinAttributionLines | infrastructure/ace/www/easysync2.js:1105-1115 | joining merges the lines into the canonical op list of all of them |
| AttributionJoining.SplitAttributionLines | infrastructure/ace/www/easysync2.js:1117-1153 | splitting gives one attribution a line, which together stand for the same document and join again to the canonical form |
| AttributionJoining.LinesRefineJoined | infrastructure/ace/www/easysync2.js:1006-1115 | changing line by line and joining is, op for op, joining and changing the whole attribution |
| AttributionJoining.LinesRefineAttribution | infrastructure/ace/www/easysync2.js:992-1115 | joined, the rewritten lines are what applyToAttribution makes of the whole |
| Subattributing.Subattribution | infrastructure/ace/www/easysync2.js:1547-1594 | the attribution of a stretch of a line gives each of its characters the attributes it had |
| Splicing.MakeSplice | infrastructure/ace/www/easysync2.js:1228-1246 | the changeset replaces just the stretch asked for, cut back so that the final character stays, and types the new text with the given attributes |
| Ranges.ToSplices | infrastructure/ace/www/easysync2.js:1248-1280 | the splices, in order and with old text between any two, make of the old text what the changeset makes of it |
| Ranges.CharacterRangeFollow | infrastructure/ace/www/easysync2.js:1282-1330 | each end of the range stands between the surviving characters it stood between; what is left of a range has just that new text in it that stands for old text inside the range; a caret, and a range of which nothing is left, has all the text typed in its place behind it with insertionsAfter, and in front of it without |
| ATexts.AppendATextToAssembler | infrastructure/ace/www/easysync2.js:1416-1449 | the ops appended type all of the attributed text but its final newline |
| Editing.Editor.SetDocAText | infrastructure/ace/www/ace2_inner.js:667-700 | the document becomes the new text with the old final newline, changed in place and recorded for undo; it is the new document exactly if the two final newlines have the same attributes |
| Pools.AttribPool.PutAttrib | infrastructure/ace/www/easysync2.js:29-42 | a known pair keeps its number, a new one gets the next, and the two tables stay inverse to each other |
| Pools.AttribPool.FromJsonable | infrastructure/ace/www/easysync2.js:73-81 | the reverse table rebuilt from the stored one gives the same pool |
| Pools.MoveOpsToNewPool | infrastructure/ace/www/easysync2.js:1332-1347 | translating ops number by number, the new pool growing as needed, is moving them in one go; the old pool is untouched |
| Pools.MovingKeepsMeaning | infrastructure/ace/www/easysync2.js:1332-1347 | moved ops stand for the same pairs, still sorted, in every pool |
| Pools.WireFormIsStable | infrastructure/ace/www/easysync2.js:1451-1455 | what prepareForWire makes is a fixed point: moved again into an empty pool, ops and pool are unchanged |
| Pools.ReadUntranslated | infrastructure/ace/www/changesettracker.js:59-77 | read by their old numbers in the pool they were moved to, ops mean what they meant exactly if moving changed no number |
| NumberedEngine.ComposeNums | infrastructure/ace/www/easysync2.js:842-901 | composing attribute strings by number gives the numbers of the composed pairs and adds none to the pool |
| NumberedEngine.FollowNums | infrastructure/ace/www/easysync2.js:1933-1968 | the same for following |
| NumberedEngine.EngineStaysInPool | infrastructure/ace/www/easysync2.js:1159-1201 | composition and follow of changesets numbered in one pool have exactly one writing in the numbers of that pool, which need not grow |
| Wire.ReadWritten | infrastructure/ace/www/easysync2.js:779-804 | unpacking and parsing the string of a changeset gives the changeset, ops, lengths, numbers and bank |
| Wire.SameStringSameChangeset | infrastructure/ace/www/easysync2.js:199-238 | two changesets are written alike exactly if they are equal, so comparing strings is comparing changesets |
| Wire.MovingStrings | infrastructure/ace/www/easysync2.js:1332-1347 | replacing the starred numbers in the string, in front of the bank only, translates the ops and touches nothing else |
| Wire.ReadAll | infrastructure/ace/www/easysync2.js:113-167 | the regular-expression iterator reads an op string to the end, or stops at the first thing that is no op |
| WireFormat.NumbersAre | infrastructure/ace/www/easysync2.js:96-97 | numbers are written in the digits 0-9a-z worth 36 times those behind them, with no needless zero in front, and digits are read for what they are worth |
| WireFormat.OpIsWritten | infrastructure/ace/www/easysync2.js:440-475 | the letter + is in an op exactly if it inserts, - if it deletes, = if it keeps, with a bar in front of a line count and a star in front of each attribute number |
| WireFormat.OpIsRead | infrastructure/ace/www/easysync2.js:113-167 | the letters with digits behind them are read as an op that inserts, deletes or keeps, and ? fails |
| WireFormat.ChangesetIsWritten | infrastructure/ace/www/easysync2.js:779-804 | Z: and the old length, > or < and by how much the text becomes longer or shorter, the ops, $ and the bank |
| WireFormat.KeepingTypingAndDeleting | infrastructure/ace/www/easysync2.js:113-167 | one string with all of that in it, letter by letter, both ways |
| Layers.RunShows | infrastructure/ace/www/changesettracker.js:78-161 | over every run of edits, arrivals, submissions and acceptances the editor shows base, submitted and user changes on top of each other |
| Tracking.ChangesetTracker.ApplyChangesToBase | infrastructure/ace/www/changesettracker.js:86-121 | a foreign change, translated from the pool it came with, is carried through submitted and user changes; the layers stay coherent and the editor stays in step |
| Arrivals.UserStandsFirst | infrastructure/ace/www/changesettracker.js:86-121 | in a tie, what the user has typed stands in front of what arrives at the same place |
| Arrivals.SubmittedStandsSecond | infrastructure/ace/www/changesettracker.js:86-121 | what was submitted stands behind what arrives before it is accepted |
| Tracking.ChangesetTracker.PrepareUserChangeset | infrastructure/ace/www/changesettracker.js:122-152 | what is sent, read in the pool sent with it, leads from the base to what is shown, and preparing it changes neither |
| Tracking.ChangesetTracker.ApplyPreparedChangesetToBase | infrastructure/ace/www/changesettracker.js:153-161 | an accepted submission goes into the base and nothing on the screen changes; without one the call fails |
| Tracking.ChangesetTracker.SetBaseAttributedText | infrastructure/ace/www/changesettracker.js:59-77 | the base is renumbered for the client's pool while the editor reads the old numbers there: the two are in step exactly if no number but the final newline's changed and the kept newline has the right attributes |
| NumberedTexts.ReadInOther | infrastructure/ace/www/changesettracker.js:59-77 | for every pair of pools: the text read by untranslated numbers is the one meant exactly if nothing was renumbered |
| NumberedTexts.FallsOutOfStep | infrastructure/ace/www/changesettracker.js:59-77 | two concrete pools at which a number changes and the editor falls out of step |
| PadServer.PadModel.AddRevision | etherpad/src/etherpad/pad/model.js:127-146 | a revision is appended and the pad's text and attributes become the changed ones |
| PadServer.PadModel.ApplyUserChanges | etherpad/src/etherpad/collab/collab_server.js:124-178 | the loop over the missed revisions makes the revision that follows them all; then one revision takes out the list markers that start no line, if there are any, and one makes the text end in a blank line, if it does not |
| Arrivals.RevisionStandsFirst | etherpad/src/etherpad/collab/collab_server.js:124-178 | in a tie, what an earlier revision types stands in front of what a changeset carried over it types |
| MarkerCorrection.BadMarkers | etherpad/src/etherpad/collab/collab_server.js:758-780 | the loop over the runs finds exactly the characters of lists that stand behind something in their line |
| MarkerCorrection.CorrectMarkersInPad | etherpad/src/etherpad/collab/collab_server.js:758-795 | the changeset takes out those characters and nothing else; it is one for the text exactly if none of them is a newline |
| MarkerCorrection.NoneIsLeft | etherpad/src/etherpad/collab/collab_server.js:758-795 | where no newline is taken out, every marker that stays starts a line |
| MarkerCorrection.MarkedNewline | etherpad/src/etherpad/collab/collab_server.js:782-794 | whoever makes the newline of a line with text part of a list makes the correction one that is for no text |
| Network.StepKeeps | etherpad/src/etherpad/collab/collab_server.js:124-214 | every step of server or client (edit, submit, take, refuse, revise, deliver, reconnect, join) keeps every client's layers, queue and outbox in order |
| Network.AllConverge | etherpad/src/static/js/collab_client.js:98-337 | after any run from the opening of a pad every client shows its revision with its own changes on top, and all settled clients show the document of the server |
| Reconnecting.HandlingKeeps | etherpad/src/static/js/collab_client.js:98-337 | the document expected of a client, the pad's with the client's submission in it, is kept by handling any message, and is what the client holds when there are none left |
| Reconnecting.TakingKeeps | etherpad/src/etherpad/collab/collab_server.js:124-178 | the revision the server makes of a submission is the document that was expected |
| Reconnecting.ReconnectTypesTwice | etherpad/src/etherpad/collab/collab_server.js:596-632 | in every state of the network: the text expected of a client that comes back changes exactly if its submission has been accepted without its knowing and types text; then all of that text is to be typed once more, and nothing is deleted |
| Reconnecting.TypedTwice | etherpad/src/etherpad/collab/collab_server.js:596-632 | a run from the opening of any pad, for any change, at whose end the pad has the typed text twice |
| RevisionSockets.SocketsTell | etherpad/src/etherpad/collab/collab_server.js:115-123 | after any run: the acceptance of a client's changes is under way exactly if the server has a revision, made since the one the client knows, from the socket of the client |
| RevisionSockets.ReconnectBySockets | etherpad/src/etherpad/collab/collab_server.js:180-206 | so from revisionSockets the server could tell beforehand exactly which of its answers make text be typed twice |
| IdleClients.IdentityFollows | infrastructure/ace/www/easysync2.js:1782-1931 | the identity follows a changeset as the identity exactly if the changeset restyles nothing |
| IdleClients.IdleStays | infrastructure/ace/www/changesettracker.js:86-152 | a client that has changed nothing shows the new document when somebody else's changes arrive, and has still nothing to submit exactly if they restyle nothing |
| IdleClients.OutOfStep | infrastructure/ace/www/changesettracker.js:86-152 | a run at whose end a client that never did anything shows something else than the server and has it to submit |
| Editing.Editor.PerformDocumentApplyChangeset | infrastructure/ace/www/ace2_inner.js:1794-1945 | text lines and attribution lines changed separately stay the lines of one document, and the undo record leads back to the start of the event |
| UndoShapes.SinkKeepsNth | infrastructure/ace/www/undomodule.js:56-91 | no step of the search for an event changes what any event takes back |
| Arrivals.TypedAgainStandsSecond | infrastructure/ace/www/undomodule.js:56-91 | in a tie, what an undo types again stands behind what somebody else has typed there since, whichever is done first |
| UndoStack.UndoModule.ExposeEvent | infrastructure/ace/www/undomodule.js:56-97 | external changes sink below the event asked for; the stack leads through documents as before, and the event is in its place exactly if at most one external change was in reach |
| UndoStack.UndoModule.ReportEvent | infrastructure/ace/www/undomodule.js:174-205 | an event that changes something is merged with the top one exactly if the two merge (the next rows say when), or pushed; the pointer returns to the top |
| UndoMerging.DeletionsMerge | infrastructure/ace/www/undomodule.js:140-172 | on texts: two deletions are one action exactly if what the second deletes stood around or beside the place of the first, and the stretches each take one op (nothing behind a newline); together they are one deletion then |
| UndoMerging.InsertionsMerge | infrastructure/ace/www/undomodule.js:140-172 | two insertions are one action exactly if the second is typed into or beside the first with the same attributes, and each takes one op; together they are one insertion then |
| UndoMerging.DeletionEventsMerge | infrastructure/ace/www/undomodule.js:140-205 | so two events that delete merge exactly if they are of one type and that holds of their backsets |
| UndoMerging.InsertionEventsMerge | infrastructure/ace/www/undomodule.js:140-205 | and two events that insert |
| UndoMerging.OnlyAlikeMerge | infrastructure/ace/www/undomodule.js:140-205 | events of different types never merge, one without changes always takes in one of its type, and one that types never merges with one that deletes |
| UndoStack.UndoModule.ReportExternalChange | infrastructure/ace/www/undomodule.js:207-211 | the change is composed with one on top or pushed, and nothing else on the stack moves |
| UndoStack.UndoModule.PerformUndo | infrastructure/ace/www/undomodule.js:229-238 | for every undo pointer and stack that calls can produce: which backset is handed to the editor, when it throws, and that with mirroring documents the change made before all undone ones is taken back |
| UndoStack.UndoModule.PerformRedo | infrastructure/ace/www/undomodule.js:240-249 | the latest undo is taken back, with everybody else's changes kept |
| UndoStack.UndoAfterAnother | infrastructure/ace/www/undomodule.js:229-238 | undo after somebody else's change: it throws exactly if that change, carried through all that was undone, leaves another length; if it does the same as before, only the event is taken back |
| UndoStack.UndoThatDoesNothing | infrastructure/ace/www/undomodule.js:56-97 | undo twice, foreign change, redo, foreign change: the next undo finds an external change in the place of its event and does nothing |
| UndoStack.UndoCanThrow | infrastructure/ace/www/ace2_inner.js:1900-1906 | a concrete history at which the next undo hands the editor a changeset of the wrong length |
| UndoStack.AppliesElsewhere | infrastructure/ace/www/ace2_inner.js:1872-1909 | a changeset for one document is one for another of its length exactly if the newlines are where its ops count them, which is not looked at |
| LineDiff.AnalyzeChange | infrastructure/ace/www/ace2_inner.js:2345-2442 | finds the longest common start and end, in characters and styles; where they overlap, what was typed ends at the cursor, and what was deleted stood there, exactly if leaving that stretch out of the longer version leaves the shorter one; if not, or without a cursor, all of the common start stays and what was typed or deleted stands as late as it can |
| LineDiff.ReplacedInTheMiddle | infrastructure/ace/www/ace2_inner.js:2345-2442 | whatever the hint is, the answer describes a replacement in the middle of the two versions |
| LineDiff.TypedOrDeleted | infrastructure/ace/www/ace2_inner.js:2345-2442 | where common start and end overlap, the rest of the longer version is the shorter one, and without a fitting cursor no later stretch can be what was typed or deleted |
| StyleClearing.StylesReplaced | infrastructure/ace/www/ace2_inner.js:2243-2271 | clearing the styles of a character and putting on those of the page leaves it the page's styles, and of other attributes those the page does not set |
| LineSplices.PlanIsRight | infrastructure/ace/www/ace2_inner.js:2165-2210 | the planned splice makes the document with the new lines of the one with the old ones and leaves its last character alone |
| LineSplices.WhatIsReplaced | infrastructure/ace/www/ace2_inner.js:2165-2210 | the plan replaces the old lines but for what is left alone at both ends, a newline at the end of both what goes and what comes included, and is moved to in front of the final newline exactly if it would reach to the end of the document |
| LineSplices.TypingChangeset | infrastructure/ace/www/ace2_inner.js:2274-2320 | the changeset built line by line types the new stretch run by run, with the author filled in: the user, or whoever the page says if it shows two authors in the stretch |
| LineSplices.AuthorOfText | infrastructure/ace/www/ace2_inner.js:2286-2299 | text becomes the user's, unless the page shows several authors and the text has one |
| LineRestyling.StylingChangeset | infrastructure/ace/www/ace2_inner.js:2243-2271 | clearing composed with styling changes the attributes of each character of the stretch as the page says, and nothing else |
| LineIncorporating.DoIncorpLineSplice | infrastructure/ace/www/ace2_inner.js:2145-2333 | after incorporating lines of the page the editor's lines are the spliced ones; what differs between the longest common beginning and end, settled by the cursor, is typed anew with the attributes of the page and the author, or only restyled if the text is the same; every other character is untouched |
| LineIncorporating.PlannedOnce | infrastructure/ace/www/ace2_inner.js:2145-2210 | texts, attributes and cursor leave one choice of what is replaced, and by what |
| LineWrapping.CollectedLines.FixLongLines | infrastructure/ace/www/contentcollector.js:454-511 | long lines are cut without losing a character or an attribute, and both ends of the selection stay at their characters |
| LineWrapping.WrappedAreShort | infrastructure/ace/www/contentcollector.js:454-511 | no line is longer than the limit and its buffer |
| LineWrapping.WrappedIs | infrastructure/ace/www/contentcollector.js:454-480 | a line of up to 2010 characters stays, and a longer one is cut into pieces of 2000 and what is left |
| BalancedTree.InsertionKeeps | infrastructure/ace/www/bbtree.js:59-83 | inserting keeps the AA-tree balanced, sized and ordered, and adds just the item if its key is new |
| BalancedTree.RemovalKeeps | infrastructure/ace/www/bbtree.js:85-128 | removing keeps all that, and removes just the item with the key |
| BalancedTree.DepthIsLogarithmic | infrastructure/ace/www/bbtree.js:26-51 | a balanced tree has no path longer than twice the logarithm of its size |
| TreeNodes.BBTree.Insert | infrastructure/ace/www/bbtree.js:59-83 | on linked nodes, in place: the items in order become the old ones with the new one placed |
| TreeNodes.BBTree.Remove | infrastructure/ace/www/bbtree.js:85-128 | on linked nodes, in place, with the item moved out of the way: the items in order become the old ones without the key |
| TreeNodes.BBTree.Find | infrastructure/ace/www/bbtree.js:130-146 | finds the node of a key exactly if it is there, looking at no more nodes than twice the logarithm of their number |
| Comet.PayloadIsRead | infrastructure/net.appjet.ajstdlib/streaming.scala:447-466 | every message the server frames is read back, whatever its body holds |
| Comet.MessageAsSent | infrastructure/net.appjet.ajstdlib/streaming.scala:447-466 | a numbered message letter by letter: its length, its number, 0 and its body, between colons |
| Comet.ChunksDoNotMatter | infrastructure/net.appjet.ajstdlib/streaming-client.js:472-513 | however the stream is cut into chunks, the messages read are those it holds |
| Comet.PrefixIsRead | infrastructure/net.appjet.ajstdlib/streaming-client.js:489-513 | of the text that has come in, exactly the complete messages are read |
| Comet.SocketClient.DataHandler | infrastructure/net.appjet.ajstdlib/streaming-client.js:231-250 | a message is passed on exactly if its number is the next, or a number is missing on either side |
| Comet.SocketClient.HandleBatch | infrastructure/net.appjet.ajstdlib/streaming-client.js:515-540 | messages are delivered in order, once each, exactly as long as no out-of-band message without text is among those looked at |
| Comet.SocketClient.HandleMessages | infrastructure/net.appjet.ajstdlib/streaming-client.js:515-540 | what has come in on a channel is read from the cursor on and delivered in order, once each, under just that condition; the cursor for next time stands behind the last complete message |
| Comet.EmptyTextIsDelivered | infrastructure/net.appjet.ajstdlib/streaming-client.js:515-540 | a concrete frame at which the message handler is called with nothing |
| StripChangesets.RepIsUnique | infrastructure/ace/www/easy_sync.js:70-99 | changesets in strip form that make the same of every text are equal |
| StripEngine.StripBuilder.AppendOldText | infrastructure/ace/www/easy_sync.js:143-191 | strips are extended or opened so that the form stays canonical, and the units built are those appended |
| StripEngine.Follow | infrastructure/ace/www/easy_sync.js:525-563 | the two traversers give the changeset that follows, with the tie break of the flag |
| StripComposing.ApplyToText | infrastructure/ace/www/easy_sync.js:101-108 | gives each old stretch and each new text in turn, or fails on a text of another length |
| StripComposing.Slicer.TakeChars | infrastructure/ace/www/easy_sync.js:361-399 | the slicer hands over exactly the next characters, old stretches and new text, and stays in order |
| StripComposing.Compose | infrastructure/ace/www/easy_sync.js:411-434 | the composition does first the one changeset and then the other, in canonical form |
| StripComposing.ComposeAppliesBoth | infrastructure/ace/www/easy_sync.js:411-434 | composing is applying in turn, on every text |
| StripComposing.MergesAreTheSame | infrastructure/ace/www/easy_sync.js:525-531 | A.compose(B.follow(A)) and B.compose(A.follow(B, true)) are one and the same changeset |
| StripComposing.MergesConverge | infrastructure/ace/www/easy_sync.js:525-531 | so both orders make the same of every text |
| StripComposing.MergeHas | infrastructure/ace/www/easy_sync.js:525-563 | an old character is in the merge exactly if both sides keep it |
| StripComposing.MergeTypesBoth | infrastructure/ace/www/easy_sync.js:525-563 | the merge types all that either side typed, the text of each in its order |
| StripComposing.WhoStandsFirst | infrastructure/ace/www/easy_sync.js:525-563 | where both type at one place the text of the first stands first, and with the flag that of the second |
| StripCodes.ArrayIsRead | infrastructure/ace/www/easy_sync.js:735-778 | a list of numbers is read back exactly if none of them has more than 28 bits |
| StripCodes.ChangesetIsRead | infrastructure/ace/www/easy_sync.js:565-588 | in its binary form a changeset is decoded to itself exactly if it has no number of more than 28 bits |
| StripCodes.TextIsRead | infrastructure/ace/www/easy_sync.js:565-581 | in its readable form every changeset is decoded to itself |
| StripCodes.DecodeFromString | infrastructure/ace/www/easy_sync.js:673-733 | by the first letter one of the three forms is read; the loop over the numbers cuts the text into the strips they ask for, or fails if text is left or missing |
| StripCodes.EscapeIsRead | infrastructure/ace/www/easy_sync.js:583-588 | unescaping undoes escaping, for every string of code units |
| StripCodes.EscapedHasNone | infrastructure/ace/www/easy_sync.js:583-588 | what is sent has no surrogates in it |
| StripCodes.CompressedIsRead | infrastructure/ace/www/easy_sync.js:903-922 | run-length compression of at most 64 is undone by decompression |
| StripCodes.ChangesetAsWritten | infrastructure/ace/www/easy_sync.js:565-588 | a changeset in its binary form, unit by unit |
| StripCodes.ChangesetAsText | infrastructure/ace/www/easy_sync.js:565-581 | and in its readable form |
| StripCodes.NumsAsRead | infrastructure/ace/www/easy_sync.js:755-778 | numbers in one unit, in two of 15 bits, and in two of 16 bits as they were written before, are read for what they are |

## Findings

Where the code does not do what it is for, the failing input and the exact condition are stated.

* **An undo that does nothing.** `_exposeEvent` does not correct its target when it merges two external
  changes. With two of them among the top `undoPtr + 2` elements, as after undo, undo, a foreign change, redo, a
  foreign change, the next undo finds an external change in the place of its event: nothing is taken
  back, though an empty event is pushed and the pointer moves (`UndoStack.UndoThatDoesNothing`; the
  condition is the second clause of `PerformUndo`).
* **An undo that throws.** A foreign change is carried through the undone events and may come back with
  less to do. The next backset then fits another document; the editor throws exactly if the lengths differ
  (`UndoStack.UndoAfterAnother`, and `UndoCanThrow` for an instance: type or delete "a", undo, somebody
  deletes the "a"). With equal lengths the newlines decide (`UndoStack.AppliesElsewhere`), and the editor's test for that is
  switched off.
* **Opening a pad with numbers in the pool.** `setBaseAttributedText` renumbers the base text but hands the
  editor the old numbers: they agree exactly if no number changes
  (`Tracking.ChangesetTracker.SetBaseAttributedText`, `NumberedTexts.FallsOutOfStep`). With an empty pool, as when a pad is first opened,
  they do (`Pools.FreshClientReadsRight`).
* **The final newline keeps its attributes** when a document is set, so it is the new document exactly if the
  two newlines have the same (`Editing.Editor.SetDocAText`).
* **An out-of-band message without text** is taken for a data message without a number: the handler is called
  with nothing, and the number of the next message is not looked at (`Comet.SocketClient.HandleBatch`, `Comet.EmptyTextIsDelivered`).
* **A reconnecting client submits again.** The server does not look at `isReconnectOf` (collab_server.js:604). The text
  that is expected of a client changes when it comes back exactly if its submission has been made a revision,
  the answer has not got through, and the submission types text: then all of that text is typed a second time
  (`Reconnecting.ReconnectTypesTwice`; `Reconnecting.TypedTwice` is a run). The server could tell from its
  `revisionSockets` (`RevisionSockets.ReconnectBySockets`). Clients still converge: the doubled text is part of the document.
* **Idle clients adopt styling.** For what it has nothing to follow with, `follow` copies the attributes of the
  first changeset. A client that has changed nothing thus takes somebody else's restyling for its own change:
  it has something to submit exactly if the arriving changes restyle something (`IdleClients.IdleStays`), and when
  another value follows it may go on showing the one before (`IdleClients.OutOfStep` is a run).
* **A newline that is a list marker.** The correction of list markers deletes characters that it counts as no
  newlines. It is a changeset for the text exactly if no newline is among them
  (`MarkerCorrection.CorrectMarkersInPad`; `MarkerCorrection.MarkedNewline` says how to get there).
* **Numbers of more than 28 bits** are cut when an easysync 1 changeset is written (`StripCodes.ChangesetIsRead`).

## Left out

- Attributes: keys hold no comma, as the pool files a pair under its key and value joined by one.
- Characters are compared by code point; the code compares UTF-16 units. They differ for characters outside the basic plane.
- MergingOpAssembler: its Clear does not reset the count of held-back characters, as in the code; nothing calls it in between.
- Building.CheckRep: ops that cover no character are not modelled; a changeset with one is never canonical.
- FollowEngine.FollowChangesets: requires that both changesets be for one text when their lengths agree; what is made of changesets for different texts of one length is not modelled.
- TextLines.SplitTextLines: the empty text has no lines; the code gives null.
- LineMutation.TextLinesMutator.Insert: takes the lines of the inserted text as a parameter; its caller splits them.
- Callbacks of consumeAttribRuns and of the runs of an attribution are modelled as the list of the calls.
- PadServer.PadModel.ApplyUserChanges: where the correction of the markers is no changeset for the text, what becomes of the pad is not modelled; the verdict says so and the pad is left as it is by then.
- Network: a NEW_CHANGES broadcast is one step for each client that gets it; user info, chat and guests are not modelled.
- Undo events: their selections are not modelled, only their changesets.
- UndoStack.UndoModule.PerformUndo: where the length fits and the newlines do not, what the editor makes of its lines is not modelled; the outcome says so and the document is left alone.
- LineIncorporating.DoIncorpLineSplice: requires that a line be left; with none the final newline would be deleted, which checkRep refuses.
- LineIncorporating: selection and the marking of dirty lines are not modelled.
- Tracking.ChangesetTracker.SetBaseAttributedText: where the numbers say nothing at all in the client's pool, what the editor shows is not modelled.
- BBTree: references between nodes are numbers into a store, the item of a node is set when it is inserted, and comparisons are of keys; makeBBList is left out, and so is the skip list but for its offsets.
- Comet: numbers are decimal digits; other forms that JavaScript reads as numbers are not modelled. The transports, their timers and reconnection are left out. A streaming channel whose cursor is undefined reads from the front again, which is modelled; that a control message other than "kill" ends its batch is too.
- Strip modules: authors are left out, so text only.
- StripCodes.DecodeFromString: a list of numbers that ends too early, or one in the readable form that has other than decimal digits, gives a failure; the code goes on with what is not a number, or reads it in another way. The name in front of the readable form is not kept. Escapes that are not four hexadecimal digits are read as character 0, also where JavaScript would trim spaces.
- makeAttribsString, filterAttribNumbers, attributeTester and the other small accessors of easysync2.js are left out.
- The parts of the editor that deal with the page itself (magicdom, dom walking, rendering), lexers, storage, accounts and HTTP are left out.
