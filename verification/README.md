# Verified models of the core algorithms

Dafny models, with proofs, of the parts of this repository that carry unbounded properties:

- **Batch pipeline** (`Tracking`, `Sink`, `Pipeline`, `VentWork`, `CharFreq`): a vent numbers the words of a batch,
  workers forward one result per word, and the sink decides with a bucketed bitset when a batch is whole and then
  reports once. The whole system is a state machine over queues, for any number of workers and any interleaving.
- **Streaming XML splitter** (`XmlSplitter`, `XmlLossless`, `XmlTree`, `XmlConfusion`): a four-state character machine
  drives a path matcher that keeps one integer and one buffer; it is compared with a recursive search over element
  trees.
- **Algorithms of processing.js** (`HashMaps`, `Atoms`, `AtomKinds`, `ClassWeight`): the chained hash map with its
  iterator, the bracket-to-atom splitter and the worklist that ranks classes.
- **HTTP request parser** (`HttpRequest`, `HttpRoundTrip`, `Decimal`): the incremental byte machine, following
  sections 2.2, 4.2 and 5 of RFC 1945, compared with a printer of requests.
- **JSON** (`JsonEscape`, `Json`, `JsonWriter`, `JsonLayout`, `JsonReader`, `JsonBuilder`, `JsonTrees`,
  `JsonRoundTrip`, `JsonLanguage`, `JsonActions`): printer, grammar and semantic actions, the accepted language, and
  that reading undoes writing (the format is that of sections 2 to 7 of RFC 8259, with comments and two integer
  widths).
- **JSON paths** (`JsonPath`): tokenising, following and updating.

`dafny verify dfyconfig.toml` checks everything. Code that changes state is a method or a class here, proved against a
specification function; the properties are then lemmas about that function.

## Where the code differs from what one might expect

Each of these is proved, with the exact condition under which the code behaves as hoped:

- Data that reaches the sink before `first` makes it report at once, and so does the seventh empty poll in a row
  (`Pipeline.ReportsExactlyWhenTimely`, with runs that get there in `Pipeline.UntimelyReachable`); every later empty
  poll reports again until a message comes (`Sink.IdlePollsReport`).
- If `last` overtakes `first` in a batch whose last id is 999 modulo 1000, the batch never completes
  (`Tracking.ReorderedTracking`, with such runs in `Tracking.OvertakenNeverComplete`).
- A letter is counted exactly up to fifteen times in a word (`CharFreq.DigitIsCount`). At the sixteenth the source
  prints two digits and an end mark into a buffer of two characters, and the guard meant for this never fires; the
  model keeps the first digit, but only the at-most-fifteen side is about defined behaviour.
- The splitter loses its position in elements that repeat the last matched name without advancing the match
  (`XmlTree.PositionIsGreedyExactly`, with such a document in `XmlTree.ConfusedDocument`). For what is emitted the
  condition is exact for paths of one name (`XmlConfusion.OneNameExactly`); for longer ones such an element cuts a
  match short or makes the splitter miss what may come behind it (`XmlConfusion.ConfusedCutsShort`,
  `XmlConfusion.MissedBehindConfused`). Processing instructions inside an element are missing from what is emitted for
  it (`XmlTree.DriveEmits`). The byte read at the end of the input is scanned like any other.
- The hash map keeps its load bound from 2 * loadFactor * initialCapacity >= 1 on (`HashMaps.LoadWithinExactly`).
- The atom splitter also gives back texts whose first bracket alone stays open; a closing bracket without an opening
  one puts the word undefined into the atoms (`Atoms.ExpansionGivesBackCode`, `AtomKinds.NothingToClose`).
- Folded HTTP header values are joined without the blank that section 2.2 of RFC 1945 reads a fold as; the two agree
  exactly for values that are not folded (`HttpRoundTrip.JoinedAsSpacedExactly`).
- An unsigned JSON integer that fits the signed type comes back signed (`JsonRoundTrip.RoundTrip`). The option to
  escape what is not ASCII escapes printable ASCII as well, contrary to its comment (`JsonEscape.AsciiEscapedToo`).
- A name at the start of a path, or behind an index without a '.', is not checked: a missing member gives a null
  pointer. It is used exactly if another name or index follows, or if the path is for setting
  (`JsonPath.CrashExactly`, `JsonPath.SetCrashesExactly`, with inputs in `JsonPath.MissingNameCrashes`).

## Model

| member | source | states |
|---|---|---|
| Tracking.MsgTracker.constructor | src/core/MsgTracker.cpp:17-23 | a new tracker has neither end and no buckets |
| Tracking.MsgTracker.Grow | src/core/MsgTracker.cpp:25-35 | buckets are only added, all of them empty, up to the number asked for |
| Tracking.MsgTracker.Track | src/core/MsgTracker.cpp:6-15 | the whole new state after marking an id, relative to `first` as it is at that moment |
| Tracking.MsgTracker.Reset | src/core/MsgTracker.cpp:17-23 | back to the state of a new tracker |
| Tracking.MsgTracker.SetFirst | src/core/MsgTracker.cpp:37-44 | only `first` changes, also when it was set before |
| Tracking.MsgTracker.SetLast | src/core/MsgTracker.cpp:46-58 | `last` is set and the buckets reach up to it |
| Tracking.MsgTracker.IsComplete | src/core/MsgTracker.cpp:60-105 | the loops over buckets and bits answer exactly the predicate `Complete` |
| Tracking.CountIsLengthIffAllSet | src/core/MsgTracker.cpp:85-90 | a bucket's count reaches its size if and only if every bit is set |
| Tracking.CompleteMeansAllToHorizon | src/core/MsgTracker.cpp:60-105 | with both ends set, complete holds if and only if every position up to the last one examined is set |
| Tracking.TrackSetsOneBit | src/core/MsgTracker.cpp:6-15 | tracking sets the bit of the id and leaves every other bit, across the growth of the buckets |
| Tracking.RunReflects | src/core/MsgTracker.cpp:6-58 | over any run of operations the bits hold exactly the late ids at their own place and the early ids one place too high |
| Tracking.InOrderBits | src/core/MsgTracker.cpp:6-15 | with `first` set beforehand: bit (b, i) is set if and only if id first + 1000 b + i was tracked, in any order and with repeats |
| Tracking.InOrderCompletion | src/core/MsgTracker.cpp:46-105 | with `first` set beforehand: complete if and only if `last` has come and every id of the batch was tracked |
| Tracking.ReorderedTracking | src/core/MsgTracker.cpp:6-105 | with `first`, `last` and the ids in any order, each id at most once: the exact answer of complete; it never says yes when an id is missing or was tracked early, and it says no for ever if `last` overtook `first` in a batch that fills its buckets to the brim |
| Tracking.OvertakenNeverComplete | src/core/MsgTracker.cpp:46-105 | for a batch that fills its buckets, as one of ids 0 to 999 does: with `last` before `first` and then every id once, complete is never said on the way or at the end; with `first` before `last` the same messages complete it |
| Tracking.AllLate | src/core/MsgTracker.cpp:6-15 | if the positions of the whole batch are set, each holds its own id: an early id would have taken a place from below |
| Sink.Process | src/core/Sink.cpp:18-144 | the event loop makes exactly the calls, and returns exactly the verdict, of the loop specification, for any sequence of polls |
| Sink.IdlePollsReport | src/core/Sink.cpp:117-135 | over any number of empty polls in a row: the seventh reports and so does every later one, since a report leaves the retry counter as it is and only makes the tracker start afresh |
| Sink.LoopEndsAtStop | src/core/Sink.cpp:27-144 | the loop ends at the first kill message with true, or at the first unknown message with false, whatever follows, and with true when the polls run out; up to there the worker is told of just the messages polled, in order, and control messages with another value make no difference |
| Pipeline.TakeOutcome | src/core/Sink.cpp:37-96 | taking one message of a batch reports, and resets the tracker, if and only if that message completes the batch |
| Pipeline.StepKeepsInv | src/core/Sink.cpp:18-136 | every step of vent, workers and sink that the schedule allows keeps the invariant of the whole system |
| Pipeline.VentSendKeepsInv | src/core/Vent.cpp:54-78 | a word sent to any worker adds exactly its id to what is under way |
| Pipeline.WorkerKeepsFlow | src/core/Work.cpp:34-47 | a worker's receive and forward keep the number of copies of every id |
| Pipeline.NotWholeWhileInOutbox | src/core/Sink.cpp:85-95 | while a worker still has a result to deliver the batch has not been reported |
| Pipeline.DrainedIsWhole | src/core/Sink.cpp:85-95 | once the vent has ended and all channels are empty, everything has arrived: no interleaving loses a message |
| Pipeline.ReportsExactlyWhenTimely | src/core/Sink.cpp:85-135 | in every reachable state the next step reports exactly when it completes the batch, if and only if that step is timely (no data before `first`, fewer than seven empty polls in a row) |
| Pipeline.UntimelyReports | src/core/Sink.cpp:85-135 | an untimely step reports, and completes nothing |
| Pipeline.RunKeepsInv | src/core/Sink.cpp:18-144 | the invariant holds at the end of every timely run, over any number of batches |
| Pipeline.ReportsOf | src/core/Sink.cpp:85-95 | the number of reports so far: one for each earlier batch and one more if and only if this one is whole |
| Pipeline.EndToEnd | src/core/Sink.cpp:18-144 | for any number of workers, batches and any timely interleaving: results are asked for exactly once per batch, when all of it was shown to the worker; ids sent are queued, held, in flight or processed, each exactly once |
| Pipeline.UntimelyReachable | src/core/Sink.cpp:85-135 | both kinds of untimely step can occur in a run that was timely before, and then report a batch that is not whole |
| Pipeline.Progress | src/core/Sink.cpp:18-136 | in every state of a timely run with at least one worker and something left to do, vent, worker or sink can take a timely step that gets on with the batch |
| Pipeline.StepsFall | src/core/Sink.cpp:18-136 | each such step leaves exactly one step fewer to do, and an empty poll none fewer |
| Pipeline.DrainedExactly | src/core/Sink.cpp:18-136 | a batch has drained if and only if no step is left |
| Pipeline.CanFinish | src/core/Sink.cpp:18-136 | no state of a timely run is a dead end: as many steps as are left lead to the batch being whole and drained |
| Pipeline.RunUsesUpSteps | src/core/Sink.cpp:18-136 | a timely run of one batch has, apart from empty polls, just as many steps as it uses up: it cannot go on for ever |
| Pipeline.StepIsATurn | src/core/Sink.cpp:27-135 | each step of the system shows the sink's loop at most one poll, and changes the sink as the loop's turn on that poll does |
| Pipeline.SinkLoopEndToEnd | src/core/Sink.cpp:18-144 | for any number of workers and batches, the sink's loop fed with what it polls in a timely run makes exactly the calls of the system's sink |
| VentWork.Vent.SendOne | src/core/Vent.cpp:54-78 | one message is sent; it is counted unless there was an interrupt, and the answer says which |
| VentWork.Vent.SendAll | src/vent/ventwords.cpp:59-77 | the words go out under ids from 0 up, and the last id is returned |
| VentWork.Vent.Process | src/core/Vent.cpp:14-52 | `first` 0, then all words, then `last` with the last id |
| VentWork.VentLoopIsARun | src/core/Vent.cpp:14-52 | for any number of workers and any way of handing out the words, the vent's loop is a run of the system model and leaves just these messages in the channels |
| VentWork.ShareIsSubsequence | src/vent/ventwords.cpp:59-68 | what goes to a worker is, in order, just those of the numbered words that are assigned to it |
| VentWork.Work | src/core/Work.cpp:14-76 | the worker loop sends exactly the replies to the jobs polled, until it is stopped or meets a word it cannot count |
| VentWork.RepliesEndAtHalt | src/core/Work.cpp:14-76 | the worker answers every job before the first kill message or word with a character outside a to z, with the digits of its word, and nothing from there on |
| VentWork.RepliesAreForwards | src/core/Work.cpp:34-47 | so up to there the loop's replies are the messages that the system model forwards |
| CharFreq.CountLetters | src/work/workcharfreq.cpp:48-71 | 26 digits rewritten in place: each is the count of its letter, up to fifteen; a character outside a to z is refused |
| CharFreq.WrappedStep | src/work/workcharfreq.cpp:60-70 | counting on in one hexadecimal digit: exact up to fifteen; the guard against more than sixteen never fires |
| CharFreq.DigitIsCount | src/work/workcharfreq.cpp:50-71 | a digit is the exact number of occurrences if and only if there are at most fifteen |
| CharFreq.HexDigitIs | src/work/workcharfreq.cpp:60-70 | digits are written in lower case, and read in either case, for their value |
| CharFreq.SWorker.constructor | src/sink/sinkcharfreq.cpp:38 | all totals start at zero |
| CharFreq.SWorker.Init | src/sink/sinkcharfreq.cpp:52-59 | all totals are zero |
| CharFreq.SWorker.Process | src/sink/sinkcharfreq.cpp:61-80 | each total grows by the value of its hexadecimal digit |
| CharFreq.SWorker.Results | src/sink/sinkcharfreq.cpp:82-103 | the totals are handed over and start again from zero |
| CharFreq.SWorker.Perform | src/sink/sinkcharfreq.cpp:52-103 | any sequence of calls leads to the totals, and hands over the results, of the specification |
| CharFreq.CountsOfTaken | src/sink/sinkcharfreq.cpp:61-103 | the totals after the calls of one batch are the sums over the messages taken, in whatever order they came |
| CharFreq.LettersOfWhole | src/sink/sinkcharfreq.cpp:61-80 | when a batch is whole each total is the sum of the digits of all its words |
| CharFreq.LetterCounts | src/sink/sinkcharfreq.cpp:82-103 | end to end: totals are handed over once per batch, and those of a batch hold for a letter its number of occurrences over all words if and only if no word has more than fifteen of it; afterwards the total is zero |
| XmlSplitter.XPathSplitterElem.constructor | src/vent/XPathSplitter.cpp:33-40 | position 0 and an empty chunk |
| XmlSplitter.XPathSplitterElem.HandleStartTag | src/vent/XPathSplitter.cpp:42-54 | state after a start tag, as the specification `Handle` says |
| XmlSplitter.XPathSplitterElem.HandleAttr | src/vent/XPathSplitter.cpp:56-61 | state after an attribute |
| XmlSplitter.XPathSplitterElem.HandleEndAttr | src/vent/XPathSplitter.cpp:63-68 | state after the end of a start tag |
| XmlSplitter.XPathSplitterElem.HandleEndTag | src/vent/XPathSplitter.cpp:70-92 | state after an end tag, with the chunk emitted if it completes the path; false if its receiver does not go on |
| XmlSplitter.XPathSplitterElem.HandleContent | src/vent/XPathSplitter.cpp:94-99 | state after text |
| XmlSplitter.XmlParser.Process | src/vent/XmlParser.cpp:9-139 | the character loop drives the handler exactly as the state machine says, the end-of-file character included, up to a free '>' or the first chunk whose receiver does not go on |
| XmlSplitter.XmlParser.Consume | src/vent/XmlParser.cpp:21-135 | one character: the next state and the handler's calls |
| XmlSplitter.Stops | src/vent/XmlParser.cpp:86-121 | where the loop stops early, what was emitted is what the whole input would emit up to the first refusal |
| XmlSplitter.SplitInput | src/vent/XPathSplitter.cpp:101-107 | what the splitter emits for a path, an input and a receiver of the chunks: all of it, or up to the first refusal |
| XmlSplitter.PathNamesRoundTrip | src/vent/XPathSplitter.cpp:36 | splitting a path at its slashes gives back the names it was joined from |
| XmlSplitter.SposInPath | src/vent/XPathSplitter.cpp:42-92 | the position never leaves the path, whatever the events |
| XmlSplitter.InstructionScanned | src/vent/XmlParser.cpp:44-129 | a processing instruction yields one call with what stands in the tag but for its first '?' and any '<', and the parser is then in text again |
| XmlLossless.ChunkRebuilds | src/vent/XPathSplitter.cpp:42-99 | a splitter whose first path name is never opened collects just the text its events stand for, and emits nothing |
| XmlLossless.StepRebuilds | src/vent/XmlParser.cpp:18-136 | one clean character adds just itself to the text rebuilt; any other adds nothing |
| XmlLossless.LosslessExactlyIfClean | src/vent/XmlParser.cpp:18-136 | after every character the events so far and the pending token make up the input consumed, if and only if the input has no '<' inside a tag, no processing instruction and no free '>' |
| XmlTree.GreedyIsBest | src/vent/XPathSplitter.cpp:42-54 | the greedy match is the longest prefix of the path that embeds, in order and with gaps, in the open names |
| XmlTree.SearchHits | src/vent/XPathSplitter.cpp:70-92 | the hits of the position-based recursion are those of a search by open names |
| XmlTree.DriveStartTag | src/vent/XmlParser.cpp:58-121 | the text of a start tag reaches the handler as name, attributes and end |
| XmlTree.DriveEndTag | src/vent/XmlParser.cpp:105-121 | the text of an end tag reaches the handler as one call |
| XmlTree.DriveSpos | src/vent/XPathSplitter.cpp:42-92 | the position after the text of any element, confused or not |
| XmlTree.RestoresIffNoConfusion | src/vent/XPathSplitter.cpp:42-92 | every element leaves the position as it found it if and only if no element carries the last matched name without advancing the match |
| XmlTree.PositionIsGreedyExactly | src/vent/XPathSplitter.cpp:42-92 | before and behind every node of a document the position is the greedy match of the open names, exactly under that condition |
| XmlTree.GreedyAllIffNoConfusion | src/vent/XPathSplitter.cpp:42-92 | the same inside any open names |
| XmlTree.ConfusedDocument | src/vent/XPathSplitter.cpp:70-92 | a document in which the splitter misses the one element the search finds |
| XmlTree.DriveEmits | src/vent/XPathSplitter.cpp:42-99 | the text of a node emits its hits, restores the position and extends the chunk by exactly that text without processing instructions |
| XmlTree.SplitterFindsElements | src/vent/XPathSplitter.cpp:42-107 | the splitter emits, in document order, the text (without processing instructions) of each element at which the open names complete the path, and nothing else, unless an element confuses it |
| XmlTree.ShownIsText | src/vent/XPathSplitter.cpp:42-99 | the text emitted is the exact text where no processing instruction is in it |
| XmlTree.DriveInstruction | src/vent/XmlParser.cpp:44-129 | a processing instruction anywhere in text leaves position and chunk as they are |
| XmlTree.SplitterPassesProlog | src/vent/XmlParser.cpp:44-129 | behind a prolog of processing instructions and text the splitter emits what it emits without it |
| XmlTree.FreeCloseStops | src/vent/XmlParser.cpp:86-92 | a '>' in text behind a document ends the parse: the same is emitted, whatever follows |
| XmlTree.SplitterFindsElementsUnnested | src/vent/XPathSplitter.cpp:42-107 | the same for documents in which no path name is nested inside itself |
| XmlConfusion.OneNameExactly | src/vent/XPathSplitter.cpp:42-107 | for a path of one name: what is emitted is what the search finds if and only if no element confuses the splitter |
| XmlConfusion.ConfusedCutsShort | src/vent/XPathSplitter.cpp:70-92 | confusion inside a match, for any path: a chunk is emitted there, at most as long as the text so far, where the search finds nothing |
| XmlConfusion.MissedBehindConfused | src/vent/XPathSplitter.cpp:42-92 | confusion on the way to a match: the rest of the path, put right behind the element, is found by the search and not emitted |
| XmlConfusion.TooFewElements | src/vent/XPathSplitter.cpp:42-92 | an element with fewer elements in it than path names are missing emits nothing, whatever it confuses |
| HashMaps.HashMap.constructor | processing-1.4.1.js:407-413 | an empty map with the initial number of buckets |
| HashMaps.HashMap.EnsureLoad | processing-1.4.1.js:420-433 | the same entries, with twice the buckets if and only if the count is above the load |
| HashMaps.HashMap.Refill | processing-1.4.1.js:424-432 | entries put into fresh buckets by their hash, none lost or doubled |
| HashMaps.HashMap.Append | processing-1.4.1.js:427-431 | one entry at the end of the bucket of its hash |
| HashMaps.HashMap.AllEntries | processing-1.4.1.js:422-423 | all entries in bucket order |
| HashMaps.HashMap.Clear | processing-1.4.1.js:546-550 | no entries, initial number of buckets |
| HashMaps.HashMap.ContainsKey | processing-1.4.1.js:556-562 | membership in the mathematical map |
| HashMaps.HashMap.Get | processing-1.4.1.js:586-592 | the value in the mathematical map, or null |
| HashMaps.HashMap.Size | processing-1.4.1.js:681-683 | the size of the mathematical map |
| HashMaps.HashMap.Put | processing-1.4.1.js:625-648 | the map with the class of the key updated (an equal key already there stays), the value before, how many buckets there are afterwards, and the count within the load if there was room for one entry at the start |
| HashMaps.HashMap.Remove | processing-1.4.1.js:656-669 | the map without the class of the key, and the value before |
| HashMaps.HashMap.PutRest | processing-1.4.1.js:649-655 | everything an iterator over another map still yields is merged in |
| HashMaps.HashMap.PutAll | processing-1.4.1.js:649-655 | the union with another map, its values winning, whatever the two capacities and any rehashing on the way |
| HashMaps.HashMap.Clone | processing-1.4.1.js:551-555 | a fresh map with the same contents |
| HashMaps.HashMap.RetainAllKeys | processing-1.4.1.js:504-513 | the map restricted to the keys kept, and whether that changed it |
| HashMaps.Iterator.constructor | processing-1.4.1.js:434-466 | a new iterator still has every entry to yield |
| HashMaps.BucketIndexIsRest | processing-1.4.1.js:416-419 | the bucket of a hash, negative ones included, is its remainder modulo the number of buckets |
| HashMaps.Iterator.StepOn | processing-1.4.1.js:440-449 | one step of the search for the next entry: found, or nothing skipped |
| HashMaps.Iterator.FindNext | processing-1.4.1.js:440-449 | moves to the next entry, past empty buckets, and terminates |
| HashMaps.Iterator.HasNext | processing-1.4.1.js:450-452 | whether an entry is left |
| HashMaps.Iterator.Next | processing-1.4.1.js:453-457 | yields the first remaining entry and leaves the others |
| HashMaps.Iterator.Collect | processing-1.4.1.js:517-522 | running to the end yields exactly what remained |
| HashMaps.ToArray | processing-1.4.1.js:517-522 | every entry exactly once |
| HashMaps.InsertedHolds | processing-1.4.1.js:625-647 | adding an entry to the bucket of its hash keeps buckets and map in step |
| HashMaps.OverwrittenHolds | processing-1.4.1.js:637-641 | replacing the value of an equal key keeps buckets and map in step |
| HashMaps.RemovedHolds | processing-1.4.1.js:660-667 | removing an entry from its bucket keeps buckets and map in step |
| HashMaps.FlattenEnumerates | processing-1.4.1.js:420-433 | the buckets together list every class once |
| HashMaps.EnumerationIsMap | processing-1.4.1.js:420-433 | such a list determines the map and its size |
| HashMaps.LoadWithinExactly | processing-1.4.1.js:420-433 | over every sequence of the operations as the methods of the map perform them, the count is within loadFactor times the number of buckets after each put if and only if 2 * loadFactor * initialCapacity >= 1 |
| HashMaps.OpKeepsLoad | processing-1.4.1.js:420-433 | every operation keeps the load bound, and every put establishes it |
| Atoms.SplitToAtoms | processing-1.4.1.js:8574-8594 | the loop over the split items computes the atoms of the specification |
| Atoms.SplitterInvariant | processing-1.4.1.js:8579-8591 | after every character, expanding what is stacked and current gives back the text read, level by level |
| Atoms.AtomsReferDownward | processing-1.4.1.js:8584-8592 | each atom but the first refers only to atoms of smaller index, so that expanding ends |
| AtomKinds.LettersNameBrackets | processing-1.4.1.js:8584-8592 | in every atom a placeholder with letter A, B or C refers to an atom that ends with '}', ')' or ']' |
| AtomKinds.AtomsArePairs | processing-1.4.1.js:8579-8593 | the atoms behind the first are the bracket pairs of the text in the order in which they close, each from its open to its closing bracket |
| AtomKinds.WellMatchedExactly | processing-1.4.1.js:8579-8593 | the kinds of brackets are not compared: all atoms are in brackets of one kind if and only if the text is matched so |
| AtomKinds.ThreeKinds | processing-1.4.1.js:8579-8593 | the atoms of a text with all three kinds of brackets |
| AtomKinds.NothingToClose | processing-1.4.1.js:8584-8592 | the atoms of a closing bracket alone, with the word that stands for what was popped |
| Atoms.ExpansionGivesBackCode | processing-1.4.1.js:8574-8594 | for text without quotes, expanding the placeholders of atom 0 gives back the text if and only if the brackets balance, or the first character is an opening bracket that alone stays open |
| ClassWeight.Ranking.RemoveDependentAndCheck | processing-1.4.1.js:9757-9766 | one occurrence of the dependant is removed; true if and only if none is left to wait for |
| ClassWeight.Ranking.Visit | processing-1.4.1.js:9770-9777 | what one used class goes through when a class leaves the queue |
| ClassWeight.Ranking.VisitInterfaces | processing-1.4.1.js:9778-9785 | the same for the interfaces in order, unresolved ones skipped |
| ClassWeight.Ranking.SetWeight | processing-1.4.1.js:9741-9787 | the worklist computes the run of the specification |
| ClassWeight.TurnKeepsBetween | processing-1.4.1.js:9767-9786 | each turn keeps the invariant: who waits for whom, sorted queue, right weights |
| ClassWeight.LastVisitWeight | processing-1.4.1.js:9762-9773 | the class that leaves last among those waited for is the heaviest |
| ClassWeight.UsedExactly | processing-1.4.1.js:9767-9786 | the classes visited from a class are its scope, its base and its interfaces |
| ClassWeight.OrderIsDistinct | processing-1.4.1.js:9767-9786 | no class is taken off the queue twice |
| ClassWeight.ClassRanking | processing-1.4.1.js:9741-9787 | for every class graph: each class is queued at most once and each weight is one more than the largest weight of the inner and derived classes; every class gets a weight if and only if the graph has no cycle |
| ClassWeight.BasesComeFirst | processing-1.4.1.js:9076-9080 | sorted by falling weight, every scope, base and interface stands before the classes that use it |
| HttpRequest.RequestParser.constructor | src/ui/request_parser.cpp:17-20 | the parser starts at the method |
| HttpRequest.RequestParser.Reset | src/ui/request_parser.cpp:22-25 | the parser starts again at the method; the request is untouched |
| HttpRequest.RequestParser.Consume | src/ui/request_parser.cpp:27-283 | one byte: next state, request and answer, as the step specification says |
| HttpRequest.RequestParser.ParseBytes | src/ui/request_parser.hpp:36-48 | the driver loop gives the outcome of the specification, with the number of bytes consumed |
| HttpRequest.StepKeepsReachable | src/ui/request_parser.cpp:186-276 | in every reachable state that uses the last header there is one |
| HttpRequest.ParseAppend | src/ui/request_parser.hpp:36-48 | parsing a concatenation is parsing the parts one after the other |
| HttpRequest.PiecesAgree | src/ui/request_parser.hpp:36-48 | any cut of the bytes into pieces gives the same result, request and number of bytes consumed |
| HttpRoundTrip.StepGrows | src/ui/request_parser.cpp:27-283 | each byte not refused extends the partial request text that the parser's state stands for |
| HttpRoundTrip.PartialIsRead | src/ui/request_parser.cpp:27-283 | every partial request text leads to its state |
| HttpRoundTrip.RequestRoundTrip | src/ui/request_parser.cpp:27-283 | a printed request, values folded or not, is parsed back with the folded pieces joined; true right behind the last line feed whatever follows, indeterminate on every proper prefix |
| HttpRoundTrip.AcceptedIsRequest | src/ui/request_parser.cpp:27-283 | whatever is accepted is the text of a request, and the request built is its meaning |
| HttpRoundTrip.AcceptsExactlyRequests | src/ui/request_parser.cpp:27-283 | accepted if and only if the text starts with the text of a request |
| HttpRoundTrip.TokenChars | src/ui/request_parser.cpp:285-310 | tokens are made of letters, digits and the fifteen marks that section 2.2 of RFC 1945 leaves, and of nothing else |
| HttpRoundTrip.TargetsAndValuesAre | src/ui/request_parser.cpp:290-293 | values are free of the control characters 0 to 31 and 127, targets of blanks as well |
| HttpRoundTrip.FirstByte | src/ui/request_parser.cpp:27-40 | the first byte of a request is accepted if and only if it is such a character |
| HttpRoundTrip.VersionRoundTrip | src/ui/request_parser.cpp:112-175 | version numbers printed in decimal come back as numbers |
| HttpRoundTrip.JoinedAsSpacedExactly | src/ui/request_parser.cpp:196-262 | the values built are those with one blank for each fold if and only if nothing is folded |
| JsonEscape.AddEscChar | src/json_spirit_v4.06/json_spirit/json_spirit_writer_template.h:51-66 | appends the short escape of a character if it has one, and says so |
| JsonEscape.AddEscChars | src/json_spirit_v4.06/json_spirit/json_spirit_writer_template.h:68-104 | the loop writes the escaped text of the specification |
| JsonEscape.NonPrintableRead | src/json_spirit_v4.06/json_spirit/json_spirit_writer_template.h:34-49 | the six characters written for a byte, and that the reader takes them for that byte |
| JsonEscape.AppendEscCharAndIncrIter | src/json_spirit_v4.06/json_spirit/json_spirit_reader_template.h:88-124 | one escape: what it appends and where the iterator ends |
| JsonEscape.SubstituteEscChars | src/json_spirit_v4.06/json_spirit/json_spirit_reader_template.h:126-160 | the loop over stretches between backslashes computes the recursive unescaping |
| JsonEscape.FourDigits | src/json_spirit_v4.06/json_spirit/json_spirit_reader_template.h:74-86 | `\u` and four hexadecimal digits of either case stand for their value modulo 256, whatever follows; other characters count as the digit 0 |
| JsonEscape.TwoDigits | src/json_spirit_v4.06/json_spirit/json_spirit_reader_template.h:65-72 | `\x` and two digits likewise |
| JsonEscape.TooFewDigits | src/json_spirit_v4.06/json_spirit/json_spirit_reader_template.h:107-122 | with too few characters left the two letters stand for nothing |
| JsonEscape.ShortEscapeMeans | src/json_spirit_v4.06/json_spirit/json_spirit_reader_template.h:97-106 | the eight short escapes by letter and character |
| JsonEscape.UnknownEscapeVanishes | src/json_spirit_v4.06/json_spirit/json_spirit_reader_template.h:97-122 | a backslash before any other letter: both disappear |
| JsonEscape.PlainMeans | src/json_spirit_v4.06/json_spirit/json_spirit_reader_template.h:126-160 | any other character, and a backslash at the very end, stands for itself |
| JsonEscape.ShortEscapeWritten | src/json_spirit_v4.06/json_spirit/json_spirit_writer_template.h:51-66 | the seven short escapes that are written, whatever the options |
| JsonEscape.OthersWritten | src/json_spirit_v4.06/json_spirit/json_spirit_writer_template.h:34-101 | any other byte is written as it is or with its two upper-case hexadecimal digits, by the options |
| JsonEscape.EscapeRoundTrip | src/json_spirit_v4.06/json_spirit/json_spirit_reader_template.h:126-160 | unescaping the escaped text gives back the bytes, for every printability predicate and all options |
| JsonEscape.EscapedTokenEndsAtQuote | src/json_spirit_v4.06/json_spirit/json_spirit_reader_template.h:490-500 | no quote in the escaped text ends the string token early |
| JsonEscape.UnchangedExactly | src/json_spirit_v4.06/json_spirit/json_spirit_writer_template.h:78-101 | a string is written as it is if and only if each character lacks a short escape and is raw, or printable without the escape-nonascii option |
| JsonEscape.AsciiEscapedToo | src/json_spirit_v4.06/json_spirit/json_spirit_writer_options.h:22-24 | with the escape-nonascii option even the letter a is written as an escape, unlike the option's comment |
| JsonWriter.Generator.constructor | src/json_spirit_v4.06/json_spirit/json_spirit_writer_template.h:173-184 | the text of the value is appended to the stream |
| JsonWriter.Generator.Output | src/json_spirit_v4.06/json_spirit/json_spirit_writer_template.h:188-201 | appends the text of any value at the current indentation, which is restored |
| JsonWriter.Generator.OutputStr | src/json_spirit_v4.06/json_spirit/json_spirit_writer_template.h:227-230 | appends the quoted, escaped string |
| JsonWriter.Generator.OutputMember | src/json_spirit_v4.06/json_spirit/json_spirit_writer_template.h:208-213 | appends name, colon and value |
| JsonWriter.Generator.OutputCompositeItem | src/json_spirit_v4.06/json_spirit/json_spirit_writer_template.h:274-283 | appends an item, with a comma unless it is the last |
| JsonWriter.Generator.OutputArray | src/json_spirit_v4.06/json_spirit/json_spirit_writer_template.h:285-304 | appends an array on one line or in rows |
| JsonWriter.Generator.OutputObj | src/json_spirit_v4.06/json_spirit/json_spirit_writer_template.h:306-325 | appends an object in rows |
| JsonWriter.Generator.Indent | src/json_spirit_v4.06/json_spirit/json_spirit_writer_template.h:327-335 | four blanks per level when pretty |
| JsonWriter.HasComposite | src/json_spirit_v4.06/json_spirit/json_spirit_writer_template.h:258-272 | whether an item is an array or an object |
| JsonLayout.TextSqueezes | src/json_spirit_v4.06/json_spirit/json_spirit_writer_template.h:285-345 | in any layout, without the white space outside string tokens only the tokens remain |
| JsonLayout.LayoutsAddOnlyWhite | src/json_spirit_v4.06/json_spirit/json_spirit_writer_template.h:285-345 | layouts add only white space outside strings, and without the layout options there is none |
| JsonLayout.PrettyText | src/json_spirit_v4.06/json_spirit/json_spirit_writer_template.h:307-345 | pretty text consists of the rows of the value: each item, member and bracket on a line of its own behind four blanks per open container, but for arrays on one line |
| JsonLayout.RowsAreLines | src/json_spirit_v4.06/json_spirit/json_spirit_writer_template.h:307-345 | no row contains the end of a line, or starts with a further blank |
| JsonReader.SkipBlanks | src/json_spirit_v4.06/json_spirit/json_spirit_reader_template.h:567-569 | white space and comments in any number and order are skipped |
| JsonReader.SkippedAreBlanks | src/json_spirit_v4.06/json_spirit/json_spirit_reader_template.h:567-569 | what is skipped is exactly a run of white space and comments, and no further one follows |
| JsonReader.BlanksBeforeValue | src/json_spirit_v4.06/json_spirit/json_spirit_reader_template.h:454-462 | white space and comments before a value make no difference |
| JsonReader.ParseValue | src/json_spirit_v4.06/json_spirit/json_spirit_reader_template.h:454-462 | a match consumes at least one character, so that the grammar terminates |
| JsonReader.ParseItems | src/json_spirit_v4.06/json_spirit/json_spirit_reader_template.h:464-488 | the items of a container never fail to match; at most they throw |
| JsonReader.ParseJson | src/json_spirit_v4.06/json_spirit/json_spirit_reader_template.h:450-452 | the start rule matches or throws |
| JsonBuilder.SemanticActions.AddFirst | src/json_spirit_v4.06/json_spirit/json_spirit_reader_template.h:297-304 | the first value becomes the root and the current one |
| JsonBuilder.SemanticActions.AddValue | src/json_spirit_v4.06/json_spirit/json_spirit_reader_template.h:333-349 | the value is pushed to the current array, or to the current object under the pending name |
| JsonBuilder.SemanticActions.BeginContainer | src/json_spirit_v4.06/json_spirit/json_spirit_reader_template.h:306-321 | an empty container is added and becomes current, its parent stacked |
| JsonBuilder.SemanticActions.EndContainer | src/json_spirit_v4.06/json_spirit/json_spirit_reader_template.h:323-331 | the parent becomes current again, except at the root |
| JsonBuilder.SemanticActions.Perform | src/json_spirit_v4.06/json_spirit/json_spirit_reader_template.h:216-290 | each semantic action has the effect of the specification |
| JsonTrees.BuildValue | src/json_spirit_v4.06/json_spirit/json_spirit_reader_template.h:216-349 | inside a container the events of any tree add exactly that tree under the pending name, pointer and stack as before |
| JsonTrees.BuildMember | src/json_spirit_v4.06/json_spirit/json_spirit_reader_template.h:244-249 | a member gets its own name, whatever names nested objects have left pending |
| JsonTrees.BuildTree | src/json_spirit_v4.06/json_spirit/json_spirit_reader_template.h:216-349 | from the start, whatever the target held before, the events of any tree build exactly that tree and leave no parent stacked |
| JsonActions.StackIsOpenContainers | src/json_spirit_v4.06/json_spirit/json_spirit_reader_template.h:306-331 | at every point the stack holds the places around the current one, one fewer than containers are open; so no stacked pointer lies below a container that still grows |
| JsonActions.ApplyKeepsChain | src/json_spirit_v4.06/json_spirit/json_spirit_reader_template.h:306-349 | every action keeps the stack a chain from the root to the current container |
| JsonLanguage.SpellingIsRead | src/json_spirit_v4.06/json_spirit/json_spirit_reader_template.h:454-506 | every spelling of a tree, with any white space and comments between its tokens, leading zeros and either sign, matches up to its end, and the actions fired are the events of that tree |
| JsonLanguage.ReadIsSpelling | src/json_spirit_v4.06/json_spirit/json_spirit_reader_template.h:454-506 | whatever the grammar matches, the text consumed is a spelling, and the actions fired are the events of the tree it spells |
| JsonLanguage.ReadsExactlySpellings | src/json_spirit_v4.06/json_spirit/json_spirit_reader_template.h:454-506 | so the grammar matches, with these actions and this rest, if and only if the text before the rest spells a tree with these events |
| JsonLanguage.AcceptedExactly | src/json_spirit_v4.06/json_spirit/json_spirit_reader_template.h:560-578 | the accepted texts are those that start with a spelling |
| JsonLanguage.QuoteRead | src/json_spirit_v4.06/json_spirit/json_spirit_reader_template.h:484-494 | what stands between quotes with every inner quote and backslash behind a backslash is one string token |
| JsonActions.AcceptedIsBuilt | src/json_spirit_v4.06/json_spirit/json_spirit_reader_template.h:560-578 | for every text accepted, no assertion in the actions fails and the value built is the meaning of what the text consumed spells |
| JsonActions.ReadRange | src/json_spirit_v4.06/json_spirit/json_spirit_reader_template.h:589-601 | success if and only if the text starts with a spelling, with the value it stands for and the text behind it |
| JsonRoundTrip.SignedDigitsRead | src/json_spirit_v4.06/json_spirit/json_spirit_reader_template.h:502-506 | digits behind a sign, leading zeros allowed, are the signed number if it fits 64 bits, else no match |
| JsonRoundTrip.UnsignedDigitsRead | src/json_spirit_v4.06/json_spirit/json_spirit_reader_template.h:502-506 | digits without sign are the signed number if it fits, otherwise the unsigned one, otherwise no match |
| JsonRoundTrip.StringRead | src/json_spirit_v4.06/json_spirit/json_spirit_reader_template.h:490-500 | the token of a quoted string is found whole |
| JsonRoundTrip.ReadText | src/json_spirit_v4.06/json_spirit/json_spirit_reader_template.h:454-506 | the text of a value in any layout is taken for exactly that value, and reading stops right behind it |
| JsonRoundTrip.NormSame | src/json_spirit_v4.06/json_spirit/json_spirit_value.h:297-311 | a tree survives the change of small unsigned integers into signed ones if and only if it has none |
| JsonRoundTrip.RoundTrip | src/json_spirit_v4.06/json_spirit/json_spirit_writer_template.h:363-385 | every tree, in every layout and with every escaping, is read back from the whole text; unchanged if and only if no unsigned integer in it fits the signed type |
| JsonPath.NextToken | src/config/JsonPath.cpp:18-31 | the text splits before the next '.' or '[', nothing lost |
| JsonPath.GetCondition | src/config/JsonPath.cpp:33-44 | the text splits around the next ']', or there is none |
| JsonPath.Find | src/config/JsonPath.cpp:46-55 | the first member of the name, or none |
| JsonPath.TextOfTokens | src/config/JsonPath.cpp:18-44 | tokenising loses nothing: the segments print to the path |
| JsonPath.TokensOfText | src/config/JsonPath.cpp:18-44 | tokenising a printed path gives its segments back if and only if they are canonical |
| JsonPath.IndexRead | src/config/JsonPath.cpp:136 | a printed index is read as that index |
| JsonPath.GetPath | src/config/JsonPath.cpp:109-159 | the loop over the remaining text leads where walking the segments leads, with every exception and null pointer |
| JsonPath.LeadsExactly | src/config/JsonPath.cpp:109-159 | a path ends at a place if and only if its segments mean that place: at each step the item of the index, or the first member of the name, an object where the name is dotted |
| JsonPath.PrintedPathLeads | src/config/JsonPath.cpp:109-159 | the same for the text of any canonical segments |
| JsonPath.SaysIndexRead | src/config/JsonPath.cpp:137 | a subscript is read as an index if and only if it is digits, perhaps behind a sign, of that value |
| JsonPath.StopsAsDescribed | src/config/JsonPath.cpp:117-156 | where the segments stop before the end: exception, null pointer or null pointer used, by the segment that selects nothing and the one behind it |
| JsonPath.LeadsOrStops | src/config/JsonPath.cpp:109-159 | in every value every path leads to a place or stops at one |
| JsonPath.ThrowsExactly | src/config/JsonPath.cpp:117-156 | an exception comes if and only if the path stops where one is described: index out of range or not a number, not an array, not an object, no bracket end |
| JsonPath.NilExactly | src/config/JsonPath.cpp:149-157 | a path gives the null pointer if and only if its last segment is an unchecked name of no member of the object before it |
| JsonPath.CrashExactly | src/config/JsonPath.cpp:115-155 | following a path uses a null pointer if and only if an unchecked name of no member is followed by a name or an index |
| JsonPath.SetCrashesExactly | src/config/JsonPath.cpp:168-178 | setting uses a null pointer if and only if some name without check names a missing member and is followed by a name or an index, or is last |
| JsonPath.TargetExactly | src/config/JsonPath.cpp:168-178 | what is set is the object that the segments mean; an exception comes if and only if following the path throws or leads to something else |
| JsonPath.MissingNameCrashes | src/config/JsonPath.cpp:149-178 | the paths a and a.b on an object without members |
| JsonPath.JsonObject.SetPathInt | src/config/JsonPath.cpp:168-178 | every member of the name in the object found is set; on any failure nothing changes |
| JsonPath.SetThenGet | src/config/JsonPath.cpp:109-178 | afterwards the path leads to the same object, with those members set, the others and the order kept, and every place outside it as before |
| JsonPath.OtherPathsKept | src/config/JsonPath.cpp:109-178 | any other path to something not being set leads to the same place as before, with the same value outside the object |
| JsonPath.ShapeAt | src/config/JsonPath.cpp:168-178 | replacing a value by one of the same shape changes no other value and no shape |
| Decimal.ReadPrint | src/json_spirit_v4.06/json_spirit/json_spirit_writer_template.h:215-225 | a number printed in decimal is read back |

## Left out

- Sockets, messages on the wire, logging, clocks, files, interrupts and process control: polls and messages are an
  input sequence, sends are appended to queues; send and receive errors that the loops swallow do not occur.
- Batches without words, ids below `first`, and overflow of 32-bit ids: the sink model takes only messages whose id is
  at least the `first` it knows.
- Tracking.MsgTracker.Track: does not model ids below `first`, because their difference, taken as unsigned, asks for
  more than a billion buckets.
- Tracking.MsgTracker.SetLast: does not model a `last` below `first`, for the same reason.
- Sink.Process: does not model polls with an id below the `first` known at that moment, for the same reason.
- CharFreq.CountLetters: does not model the overrun of a two-character buffer at the sixteenth occurrence of a letter.
- CharFreq.WrappedStep: above fifteen it says what the first character of the overrun buffer is.
- CharFreq.DigitIsCount: above fifteen it says what the first character of the overrun buffer is.
- CharFreq.SWorker.Process: does not model data other than the 26 digits a worker sends, because reading past them is
  undefined in the source.
- VentWork.Vent.SendAll: does not model an interrupt between two words, after which the source stops sending.
- VentWork.Vent.Process: does not model a failed send to the sink, after which the source gives up.
- The word splitter that produces the words, and the text of the results message.
- XML comments and declarations, which the parser takes for tags.
- HashMap `removeByValue`, `containsValue`, the iterator's `remove`, a map put into itself, construction from another
  map, and the other operations on its key, value and entry sets; a class of equal keys stands for `equals` and
  `hashCode`, which must agree.
- HashMaps.HashMap.constructor: does not model an initial capacity of 0, because bucket indices are then not numbers.
- HashMaps.HashMap.PutAll: does not model a map put into itself, because the iterator then runs over buckets that
  change.
- How the metadata of classes is collected (`inScope`, `derived`, `base`, `interfaces`): taken as input that mirrors
  itself, as the collecting code leaves it. The rest of processing.js.
- HttpRequest.RequestParser.Consume: does not model overflow of the version numbers, because the request's integers
  are unbounded here.
- The HTTP server, its connections and the REST handlers.
- JSON reals: the writer has none, and where the grammar would take a number for a real (a '.' or an exponent letter
  behind the digits) the model says so and stops. Source positions and error texts; wide strings; objects kept as
  maps.
- JsonWriter.Generator.Output: does not model reals.
- JsonReader.ParseValue: does not model what follows once the grammar takes a number for a real.
- JsonBuilder.SemanticActions.Perform: does not model the action for reals.
- JsonActions.ReadRange: does not model texts with reals, and says nothing about what a refused text leaves in the
  value.
- JsonBuilder.SemanticActions.AddValue: pointers are places in the value, because Dafny values have no addresses; that
  no stacked pointer lies below a growing container is proved (`JsonActions.StackIsOpenContainers`).
- JsonPath.JsonObject.SetPathInt: does not model `[key=value]` conditions; it sets nothing and says so.
- JsonPath.GetPath: does not model `[key=value]` conditions, because the member that selects may be the one updated;
  it reports them as outside the model.
