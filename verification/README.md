# Acceptance and evidence layer: a verified model

The repository drives a 1C runtime through notebooks, a language server and MCP tools, and proves to
itself that it did so correctly: it keeps hash-chained journals, watches a file tree it edits,
measures under failure and cancellation, and publishes evidence records. This project models that
acceptance layer in Dafny and proves what the rest of the repository takes for granted about it.

`dafny verify dfyconfig.toml` checks everything.

| module | program part |
|---|---|
| `TextSearch`, `PathMoves`, `ModuleRename` | the source-write oracle and the module rename with its reverse |
| `GeneratedSection` | the marker-delimited section rewriter |
| `CanonicalJson`, `PrivateJournal`, `CallScan` | canonical JSON lines, the hash-chained private journal, the replay of its calls |
| `MeasurementFailures`, `MeasurementDriver` | bounded failure evidence and the measurement driver under failures and cancellations |
| `PopulationProbe` | the work-done-progress state machine that admits an initial population |
| `DiagnosticRouting` | the diagnostic hold, replay and drain window |
| `ColdSchedule` | the counterbalanced schedule and its crash-resumable run |
| `NearestRank`, `CompactEvidence` | percentiles; building, verifying and filing the compact record |
| `LengthFraming` | length-framed identity digests |
| `PaletteArguments`, `Palette` | the arguments of palette calls, the offline palette runtime and its scripted evaluation |
| `Wrappers`, `TextOrder` | outcome types and shared small definitions, the order of Python strings |

Objects whose methods update fields are classes with those fields; loops that build results are
methods proved against functions or predicates; expression code is functions and lemmas. Environments
(the operating system, child processes, the language server, callers that cancel) are adversaries: a
script, a flag or an oracle function that the theorems quantify over. SHA-256 is an arbitrary function;
where the program relies on it having no collisions, the theorem returns the collision instead of
assuming there is none. Floats are exact reals; in JSON a float is its text, and which texts are the
shortest of their float is an arbitrary predicate.

## What the proofs found

- **Rename and back.** Replacing x by y and then y by x restores a text exactly when, after each piece
  without x, the first y is the one put there, and the last piece holds no y (`TextSearch.RestoredIff`).
  The names for which every text is restored are characterised by `TextSearch.RestoredAlwaysIff`; every
  extension of x by a suffix is among them (`TextSearch.ReplaceExtensionUndone`), the pair "a", "b" is not
  (`TextSearch.NewNameInText`). The whole tree is restored exactly when the module
  had its metadata file (`ModuleRename.RenameBackRestoresIff`); only the suffix `.xml` in the Designer
  layout can rename a module without one, and `ModuleRename.RenameNotUndone` is such a rename, which the
  reverse does not undo. The program's own suffix is `Renamed`.
- **What a replacement leaves.** Where the new name begins with the old one, a replacement can also create the
  old name anew across the end of an inserted one: replacing "ab" by "aba" in "abb" gives "abab"
  (`TextSearch.BornAgain`). It never does for exactly the names that fit onto no later part of the new one
  (`TextSearch.OnlyNewIff`).
- **The oracle in step.** An atomic save keeps the oracle in step with the tree if and only if the scratch
  path, the same path with suffix `.tmp`, did not name another file (`SourceWriteOracle.Save`); an atomic save
  of `a.bsl` beside `a.tmp` destroys the latter and is reported (`ModuleRename.ScratchOverwrites`). Save, delete
  and rename change the expectation before the tree, so a failed system call leaves them apart, except a
  failed save of what already stands there and a failed rename of a path to itself. `SourceWriteOracle.Run`
  says over every run of operations when they stay in step, and that everything is refused afterwards.
- **Journal loader and writer.** The prefix loader compares with Python's `==`, so a first entry whose
  attempt is the float 2.0 passes although no append writes one
  (`PrivateJournal.LoaderAcceptsFloatAttempt`, given that "2.0" is the shortest text of its float).
  `PrivateJournal.WriterFilesExactly` says exactly which accepted files the writer can have left.
- **Counterbalancing.** The position sums of the two modes differ by 0 for an even and by 1 for an odd
  number of reloads. At a cut inside a pair they do not stay within 2: `ColdSchedule.ImbalanceAt` gives
  the exact value, which grows with the cut.
- **Foreign checkpoints.** Resuming checks the new identities against the stored ones but not the stored
  ones against each other. Processes end up distinct if and only if those of the starting checkpoint
  were (`ColdSchedule.DistinctIffStartDistinct`); `ColdSchedule.ForeignCheckpointMayRepeat` is an
  accepted checkpoint that repeats one. A run that starts without a checkpoint is always distinct.
- **Lost messages.** `from_server` reads a message before its try block. One that is not a JSON object, has
  an id that cannot be a dictionary key, or publishes diagnostics with parameters that are not an object,
  raises there: it is neither held nor sent, and no failure is recorded, against the intent stated at
  tools/check_jupyter_lsp_browser.py:282-283. Every received message is attempted or queued if and only if
  none is of that kind (`DiagnosticRouting.NothingLostIff`); `DiagnosticRouting.LosesUnroutable` loses one.
- **Out of turn.** An anchor whose sending fails has left the queue without being selected, and the next
  one is replayed in its place. A replay is out of turn only when an older arrival is still held: the
  replayed arrivals behind the first one that cannot serve as the anchor are the ones out of turn
  (`DiagnosticRouting.LateBehindLead`). So as many messages leave out of turn as there were replays beyond
  the arrivals in front of that one, and at most one does if and only if the failed replays and the
  replayed anchor exceed those arrivals by at most one (`DiagnosticRouting.OutOfTurnIff`). In
  `DiagnosticRouting.TwoOutOfTurn` two messages pass a stale one that arrived before them. `begin` on a
  window that has already failed raises and leaves the window open.
- **Percentile inputs.** The benchmark's summary takes any iterable, a bool as 0.0 or 1.0, and whatever else
  `float` converts to a finite number; the acceptance run takes ints and floats in a Sequence that is not
  text or bytes. The summary accepts more exactly when the samples it accepts do not come as such a
  Sequence or hold a bool or another convertible value (`NearestRank.AcceptanceDiffersIff`); on everything
  the acceptance run accepts they agree.
- **Palette faults.** Only the fault values `malformed_result` and `noop` have an effect; any other value
  is ignored. Task success means that none of the profile's scripted tools carries one of those two.

## Model

| member | source | states |
|---|---|---|
| `TextSearch.Find` | tools/generate_bsl_semantic_parser.py:69-70 | the index found is the leftmost occurrence, -1 means there is none |
| `TextSearch.ReplaceExtensionUndone` | tools/check_jupyter_bsl_lsp.py:132-142 | replacing x by x+e and then x+e by x, leftmost and non-overlapping, restores every text, for every nonempty x and every e |
| `TextSearch.RestoredIff` | tools/check_jupyter_bsl_lsp.py:132-142 | for every text and every two nonempty names: the reverse replacement restores the text exactly when every inserted name is the first one found after the piece before it and no other stands in the text |
| `TextSearch.RestoredAlwaysIff` | tools/check_jupyter_bsl_lsp.py:132-142 | the pairs of names for which every text is restored, characterised by the names alone |
| `TextSearch.PiecesOf` | tools/check_jupyter_bsl_lsp.py:132-142 | every text is its pieces between the leftmost occurrences of a name, none of which reaches across a piece |
| `TextSearch.ReplaceCut` | tools/check_jupyter_bsl_lsp.py:132-142 | replacing puts the new name exactly where the old one stood between those pieces and keeps the pieces |
| `TextSearch.OnlyNewIff` | tools/check_jupyter_bsl_lsp.py:132-142 | the names for which, in every text, what is left of the old name afterwards is only the head of the new, longer one: exactly those that fit onto no later part of it |
| `PathMoves.SiblingsApart` | tools/check_jupyter_bsl_lsp.py:103-111 | two different names in one directory are never at or below one another, even when one is a prefix of the other |
| `PathMoves.MoveOneMore` | tools/check_jupyter_bsl_lsp.py:103-111 | popping one affected key and inserting it under its new name extends the set of moved entries, whatever the order of the keys |
| `PathMoves.EntryFollowsMove` | tools/check_jupyter_bsl_lsp.py:103-111 | with a free target every entry is found, unchanged, where its path went |
| `PathMoves.EntryCameFrom` | tools/check_jupyter_bsl_lsp.py:103-111 | with a free target every entry after the rename came from exactly one old path, and nothing stays at or below the old one |
| `PathMoves.RelabelBack` | tools/check_jupyter_bsl_lsp.py:103-111 | renaming a directory onto a free name and back is the identity on the map |
| `ModuleRename.FingerprintsRelabel` | tools/check_jupyter_bsl_lsp.py:66-111 | fingerprints of the renamed tree are the renamed fingerprints |
| `ModuleRename.SourceWriteOracle.constructor` | tools/check_jupyter_bsl_lsp.py:78-80 | a new oracle expects exactly the tree's fingerprints |
| `ModuleRename.SourceWriteOracle.Save` | tools/check_jupyter_bsl_lsp.py:85-95 | the expectation gains the payload's hash; the tree gains the payload; after the write the two agree if and only if an atomic save's scratch file overwrote nothing, and otherwise the save reports an unplanned change; after a failed write, if and only if the file already had that hash |
| `ModuleRename.SourceWriteOracle.Delete` | tools/check_jupyter_bsl_lsp.py:97-101 | removes the path from expectation and tree; an unknown path is refused with nothing changed; a failed unlink leaves the two apart |
| `ModuleRename.SourceWriteOracle.MoveKeys` | tools/check_jupyter_bsl_lsp.py:103-111 | the pop-and-insert loop computes the relabelled expectation |
| `ModuleRename.SourceWriteOracle.Rename` | tools/check_jupyter_bsl_lsp.py:103-111 | tree and expectation are relabelled alike and stay in step; renaming nothing is refused with nothing changed; a failed rename leaves the two apart unless it is of a path to itself |
| `ModuleRename.SourceWriteOracle.Apply` | tools/check_jupyter_bsl_lsp.py:85-111 | an operation keeps an oracle in step exactly when it does not fail after changing the expectation; out of step everything is refused and nothing changes |
| `ModuleRename.SourceWriteOracle.Run` | tools/check_jupyter_bsl_lsp.py:82-111 | over every run of saves, deletes and renames the oracle stays in step exactly when no operation breaks it, the tree is then the one the operations make, and after the first break every operation is refused |
| `ModuleRename.SourceWriteOracle.RenameModule` | tools/check_jupyter_bsl_lsp.py:132-142 | a rename that returns leaves exactly the tree of the specification, in step with the expectation, and it returns whenever the steps can be carried out |
| `ModuleRename.RenameSucceedsIff` | tools/check_jupyter_bsl_lsp.py:132-142 | a module rename onto free names can be carried out exactly when the module, its metadata file and the configuration file are there, at the paths of its layout |
| `ModuleRename.ForwardShape` | tools/check_jupyter_bsl_lsp.py:132-142 | a module rename moves the directory and the metadata file and changes the text of exactly two files |
| `ModuleRename.RenamedFiles` | tools/check_jupyter_bsl_lsp.py:132-142 | a rename rewrites the metadata file, which moves along, and the configuration file, at the paths of both layouts; every other file is found unchanged where its path went |
| `ModuleRename.OnlyNewNames` | tools/check_jupyter_bsl_lsp.py:132-142 | for names that fit onto no later part of the longer one, both files hold the old name afterwards only as the head of the new one |
| `ModuleRename.RenameBackRestores` | tools/check_jupyter_bsl_lsp.py:348-386 | the reverse rename restores the whole tree, every path and every byte, in both layouts |
| `ModuleRename.RenameBackRestoresIff` | tools/check_jupyter_bsl_lsp.py:348-386 | of the renames that succeed onto free names, exactly those of a module with its metadata file are undone; without one the layout is Designer and the suffix `.xml` |
| `ModuleRename.RenameNotUndone` | tools/check_jupyter_bsl_lsp.py:348-386 | for every name, a concrete tree without a metadata file that renames with the suffix `.xml` and is not restored by the reverse |
| `ModuleRename.ScratchOverwrites` | tools/check_jupyter_bsl_lsp.py:85-95 | a concrete atomic save whose scratch file destroys another file: the oracle ends out of step and reports an unplanned change |
| `ModuleRename.ScratchOfSuffixed` | tools/check_jupyter_bsl_lsp.py:85-95 | the scratch file of a file with a suffix has `.tmp` in its place |
| `GeneratedSection.CountOneIff` | tools/generate_bsl_semantic_parser.py:66-68 | for markers, a non-overlapping count of one means a single occurrence, overlaps included |
| `GeneratedSection.AcceptsAnyName` | tools/generate_bsl_semantic_parser.py:58-77 | for every section name: accepted are exactly the texts in which each marker stands once, up to occurrences overlapping its first one, the open marker first; the other order is told from a wrong count |
| `GeneratedSection.AcceptsExactlyOneSection` | tools/generate_bsl_semantic_parser.py:58-77 | the rewriter with a plain name, accepts exactly the texts holding the section once with its markers in order, and tells a wrong count from a wrong order |
| `GeneratedSection.MarkerKept` | tools/generate_bsl_semantic_parser.py:58-77 | any marker standing once outside the section still stands exactly once: the inserted line breaks rule out straddling occurrences |
| `GeneratedSection.RewriteKeepsTheRest` | tools/generate_bsl_semantic_parser.py:58-77 | every character up to the open marker's end and from the close marker on is kept, the body stands between, each marker stands once |
| `GeneratedSection.RewriteIs` | tools/generate_bsl_semantic_parser.py:70-77 | a nonempty replacement without a line feed at its end stands on lines of its own between the markers; an empty one leaves one line feed |
| `GeneratedSection.TrailingNewline` | tools/generate_bsl_semantic_parser.py:70-77 | for every text, name and replacement: a line feed at the end of the replacement changes nothing |
| `GeneratedSection.PlainModule` | tools/generate_bsl_semantic_parser.py:58-77 | in a text without other `#`, written out in full: what stood in the section goes and the replacement comes |
| `GeneratedSection.LastRewriteWins` | tools/generate_bsl_semantic_parser.py:58-77 | rewriting twice equals the second rewrite alone; with equal replacements, idempotence |
| `GeneratedSection.DisjointRewritesCommute` | tools/generate_bsl_semantic_parser.py:58-77 | rewrites of disjoint sections succeed and commute |
| `GeneratedSection.CallerRewritesCommute` | tools/generate_bsl_semantic_parser.py:165-183 | the caller's two successive rewrites succeed on every module that holds both sections side by side, in either order of rewriting |
| `CanonicalJson.ReadPrinted` | integration/evidence/capture_private_replay.py:1212-1265 | reading undoes canonical printing of every well-formed value, whatever text follows |
| `CanonicalJson.ReadIffCanonical` | integration/evidence/capture_private_replay.py:1212-1229 | for any notion of shortest float text: the canonical reader accepts exactly the canonical texts, each as its own value; number tokens follow section 6 of RFC 8259 |
| `CanonicalJson.CanonicalInjective` | integration/evidence/capture_private_replay.py:1252-1265 | different values have different canonical texts |
| `TextOrder.LessIff` | integration/evidence/capture_private_replay.py:1252-1265 | the order of keys: at the first difference the code point is smaller, or the text ends there |
| `CanonicalJson.PrintOneLine` | integration/evidence/capture_private_replay.py:1252-1265 | a printed value holds no raw line feed or carriage return (section 7 of RFC 8259: control characters are escaped) |
| `CanonicalJson.EscapeIs` | integration/evidence/capture_private_replay.py:1252-1265 | exactly quotes, backslashes and control characters are escaped (section 7 of RFC 8259) |
| `PrivateJournal.JoinSplit` | integration/evidence/capture_private_replay.py:144-203 | splitting a journal into lines loses nothing, whatever line ends it has |
| `PrivateJournal.SplitJoin` | integration/evidence/capture_private_replay.py:144-203 | lines with one line feed, at the end, are what splitting their concatenation gives back |
| `PrivateJournal.CheckLineIff` | integration/evidence/capture_private_replay.py:144-203 | one line passes exactly when it is the canonical line of an entry that passes the chain checks |
| `PrivateJournal.ChainIff` | integration/evidence/capture_private_replay.py:157-203 | entries form a chain exactly when each has a known kind, the schema, attempt 2, its own number, the hash of its predecessor and a true hash of its own |
| `PrivateJournal.UnsignedIs` | integration/evidence/capture_private_replay.py:187-192 | what is hashed is the entry without its hash field |
| `PrivateJournal.PyEqualIs` | integration/evidence/capture_private_replay.py:180-188 | what the loader's `==` with an integer takes: that integer, its float, and for 1 and 0 a bool |
| `PrivateJournal.LoadedIff` | integration/evidence/capture_private_replay.py:144-203 | a journal text loads as a list of entries if and only if it is the concatenation of their canonical lines, chained and bound to the fixture |
| `PrivateJournal.LoadPrefix` | integration/evidence/capture_private_replay.py:144-203 | the loader's loop over entries and previous hash decides exactly that |
| `PrivateJournal.AcceptedOnce` | integration/evidence/capture_private_replay.py:144-203 | one text has at most one list of entries |
| `PrivateJournal.HeadCommits` | integration/evidence/capture_private_replay.py:157-203 | two chained journals with the same last hash agree entry by entry, or the lemma hands out a collision of the hash |
| `PrivateJournal.HeadDeterminesFile` | integration/evidence/capture_private_replay.py:157-203 | two accepted files with the same last hash are the same bytes for the same fixture digest, or a collision is at hand |
| `PrivateJournal.WrittenIsAccepted` | integration/evidence/capture_private_replay.py:115-203 | create and any valid appends leave a file that loads as the fixture entry and then exactly those events in order |
| `PrivateJournal.AcceptedIsWritten` | integration/evidence/capture_private_replay.py:1129-1144 | a chained journal of writer-like entries is the one the writer makes of its events |
| `PrivateJournal.WriterFilesExactly` | integration/evidence/capture_private_replay.py:115-203 | a text is what create and valid appends leave if and only if it loads and its entries are writer-like |
| `PrivateJournal.LoaderAcceptsFloatAttempt` | integration/evidence/capture_private_replay.py:144-203 | a concrete accepted journal that no append writes: its attempt is the float 2.0 |
| `PrivateJournal.PrivateAttempt.Create` | integration/evidence/capture_private_replay.py:115-141 | creates fixture, manifest and first entry once, for a valid fixture; a refusal changes nothing |
| `PrivateJournal.PrivateAttempt.Load` | integration/evidence/capture_private_replay.py:144-203 | reads the entries of the stored files and changes nothing |
| `PrivateJournal.PrivateAttempt.Append` | integration/evidence/capture_private_replay.py:524-558 | a refused append changes nothing; success adds exactly one line; an intact journal stays what create and the appends so far write, and refuses a valid event exactly when it is complete |
| `CallScan.ProperStep` | integration/evidence/capture_private_replay.py:900-973 | one more event keeps a call journal proper exactly when the scanner's tests on it pass |
| `CallScan.ScanCalls` | integration/evidence/capture_private_replay.py:900-973 | the scan accepts exactly the journals whose starts are numbered 1..n, whose calls are each answered once and later by the same identity, and whose raw files are exactly those referenced; it returns the labels in journal order |
| `CallScan.ResponsesMatchStarts` | integration/evidence/capture_private_replay.py:900-973 | in an accepted journal responses carry exactly the indices of the starts |
| `CallScan.OneEventIff` | integration/evidence/capture_private_replay.py:889-897 | an event is found exactly when it is the only one of its kind |
| `CallScan.CompletionOrderIff` | integration/evidence/capture_private_replay.py:370-382 | completion is in order exactly when one cleanup, one postflight, one outcome and one complete event stand in that order, the last at the end |
| `CallScan.MethodNameIff` | integration/evidence/capture_private_replay.py:55 | a method name is a small letter followed by at most 127 small letters, digits, underscores and dots |
| `CallScan.StartedIff` | integration/evidence/capture_private_replay.py:561-578 | a call start is decoded from exactly the payloads that state, key by key, its index, method, stage, public label and operation group, and hold arguments |
| `CallScan.ResponseIff` | integration/evidence/capture_private_replay.py:579-607 | a call response is decoded from exactly the payloads that state, key by key, its call, its acceptance and its raw file with path and hash |
| `CallScan.StageIff` | integration/evidence/capture_private_replay.py:608-618 | a stage is decoded from exactly the payloads with an identifier as name and no label, null or a nonempty one |
| `CallScan.VerdictIff` | integration/evidence/capture_private_replay.py:661-677 | outcome and complete events are decoded from exactly the payloads that state their result, the outcome with its failure or observations |
| `CallScan.LabelsByKey` | integration/evidence/capture_private_replay.py:910-963 | the labels are, entry by entry, the public labels of stages and of accepted responses |
| `CallScan.RawPathIs` | integration/evidence/capture_private_replay.py:598-605 | a raw file is named by the call number in at least four digits and the method with dashes for dots |
| `CallScan.RawPathsApart` | integration/evidence/capture_private_replay.py:598-605 | calls with different numbers have different raw files |
| `CallScan.EveryResponseBacked` | integration/evidence/capture_private_replay.py:938-956 | in an acceptable replay every response entry names a raw file that is there, has the named hash, is canonical, and is a success envelope if the entry says accepted |
| `CallScan.OneCallAccepted` | integration/evidence/capture_private_replay.py:370-497 | an attempt with one accepted call that then failed with a sanitized failure is an acceptable replay, whatever the call |
| `CallScan.CheckReplay` | integration/evidence/capture_private_replay.py:370-497 | decoded events make a replay exactly when completion is in order, calls are proper, labels are a prefix of the contract, and outcome and complete event agree on a result that the outcome bears out |
| `CallScan.LoadReplay` | integration/evidence/capture_private_replay.py:362-497 | from the journal's bytes: a replay loads, with the labels of accepted responses and stages in order, exactly when the bytes load, every entry is a valid event, and the events pass the checks of CheckReplay; the labels are those the payloads state under `public_label` |
| `MeasurementFailures.BoundedTwice` | tools/check_jupyter_lsp_zup.py:114-131 | cutting a failure item down to its published form is idempotent |
| `MeasurementFailures.BoundedIs` | tools/check_jupyter_lsp_zup.py:114-131 | what bounding keeps: allowed phase, type and code, else the fallback; pair, enabled and warm-up exactly for a full place; the process diagnostic exactly for a surviving process |
| `MeasurementFailures.RecordedAs` | tools/check_jupyter_lsp_zup.py:145-156 | what a failure is published as: phase, type, code and place, each when it is known |
| `MeasurementFailures.MergedAs` | tools/check_jupyter_lsp_zup.py:133-144 | a merged item takes on the place of the arm at hand exactly when it has none and that place is given in full |
| `MeasurementFailures.FirstsMerge` | tools/check_jupyter_lsp_zup.py:133-162 | splicing in only the first six failures of a nested evidence gives the same view as splicing in all of them |
| `MeasurementFailures.FailureEvidence.constructor` | tools/check_jupyter_lsp_zup.py:107-109 | a new evidence views the empty log |
| `MeasurementFailures.FailureEvidence.Merge` | tools/check_jupyter_lsp_zup.py:133-156 | the log grows by the nested log, each item placed at the arm at hand unless it has a place |
| `MeasurementFailures.FailureEvidence.AppendAll` | tools/check_jupyter_lsp_zup.py:133-162 | appending the items of another log one by one leaves the first six of both logs together, and the overflow exactly when there are more |
| `MeasurementFailures.FailureEvidence.Record` | tools/check_jupyter_lsp_zup.py:133-156 | recording keeps the fields an exact bounded view of the unbounded log: first six items, overflow exactly beyond six, cancelled exactly if some failure was a cancellation |
| `MeasurementFailures.FailureEvidence.RaiseIfFailed` | tools/check_jupyter_lsp_zup.py:164-169 | raises exactly when something was recorded, as a cancellation exactly when one was recorded, even past the bound |
| `MeasurementFailures.FailureEvidence.Payload` | tools/check_jupyter_lsp_zup.py:111-112 | publishes the first six items unchanged; overflow means exactly six |
| `MeasurementDriver.OwnedOperation` | tools/check_jupyter_lsp_zup.py:172-190 | however many cancellations arrive, the operation runs to its own end, its result is kept, and every cancellation and its failure are logged in order |
| `MeasurementDriver.LoadArm` | tools/check_jupyter_lsp_zup.py:352-396 | the measured load logs exactly its failures and keeps a handle exactly when the load returned one |
| `MeasurementDriver.SetUpArm` | tools/check_jupyter_lsp_zup.py:352-396 | the try block of an arm logs its failure and lets handle and duration survive it |
| `MeasurementDriver.RunArm` | tools/check_jupyter_lsp_zup.py:352-396 | an arm is released if it has a handle and always closed; its log and its trace are exactly those of its script |
| `MeasurementDriver.RunPairs` | tools/check_jupyter_lsp_zup.py:352-396 | it returns normally if and only if no arm recorded a failure, and then reports all arms and timings; an error carries exactly the log of the first arm that had one, and no later arm was started |
| `MeasurementDriver.CleanIff` | tools/check_jupyter_lsp_zup.py:352-396 | an arm records nothing exactly when no step of it failed and no cancellation arrived |
| `MeasurementDriver.PairsAlternate` | tools/check_jupyter_lsp_zup.py:352-358 | each pair runs both modes and the first mode changes from pair to pair |
| `MeasurementDriver.ArmTraceLegal` | tools/check_jupyter_lsp_zup.py:352-396 | every arm takes the resource protocol from idle to idle, whatever its script |
| `MeasurementDriver.EveryRunKeepsProtocol` | tools/check_jupyter_lsp_zup.py:352-396 | every run keeps at most one arm open, one operation under way, releases before the close, and ends idle |
| `MeasurementDriver.ProtocolBalance` | tools/check_jupyter_lsp_zup.py:172-190 | any trace the protocol allows releases each obtained handle once, but for one still held, and ends each operation begun, but for one under way |
| `MeasurementDriver.EveryRunReleases` | tools/check_jupyter_lsp_zup.py:352-396 | in every run each handle obtained is released exactly once, each operation begun ends, each arm is closed once |
| `MeasurementDriver.TimingsCounted` | tools/check_jupyter_lsp_zup.py:352-396 | warm-up aside, both modes are timed equally often at every pair boundary |
| `MeasurementDriver.CompleteMeasurement` | tools/check_jupyter_lsp_zup.py:352-396 | a complete measurement has 46 arms and 20 timings a mode |
| `PopulationProbe.AcceptKeeps` | tools/check_jupyter_lsp_zup.py:256-311 | every accepted message keeps tokens, phases and times consistent and withdraws nothing recorded |
| `PopulationProbe.CreateIff` | tools/check_jupyter_lsp_zup.py:266-275 | a create message with just a token is accepted exactly for a fresh one of 1 to 160 characters while fewer than eight exist |
| `PopulationProbe.ValueIff` | tools/check_jupyter_lsp_zup.py:282-295 | a progress value is usable exactly when each of its entries is allowed under its key |
| `PopulationProbe.RunConsistent` | tools/check_jupyter_lsp_zup.py:247-311 | every run is consistent, rejected messages included |
| `PopulationProbe.RunGrows` | tools/check_jupyter_lsp_zup.py:247-311 | along a run nothing recorded is withdrawn or overwritten |
| `PopulationProbe.PopulationWasSeen` | tools/check_jupyter_lsp_zup.py:256-336 | a recorded population end means that find begin, find end, population begin and population end were seen in this order on two different created tokens in one locale (LSP 3.17, "Work Done Progress"), at the recorded times |
| `PopulationProbe.TimesInOrder` | tools/check_jupyter_lsp_zup.py:256-336 | with a clock that does not run backwards the recorded phase times are in order |
| `PopulationProbe.FailureFreezes` | tools/check_jupyter_lsp_zup.py:247-254 | once a run has failed, no later message changes any part of the state |
| `PopulationProbe.FirstRejection` | tools/check_jupyter_lsp_zup.py:247-254 | a failed run is a run of accepted messages up to a first rejected one, and differs from that prefix in the failure alone |
| `PopulationProbe.UnfailedIff` | tools/check_jupyter_lsp_zup.py:247-311 | a run has not failed exactly when every message was accepted in the state it met |
| `PopulationProbe.AdmittedRunSaw` | tools/check_jupyter_lsp_zup.py:256-336 | whatever is admitted saw the initialize result and the four progress messages in order on two created tokens in one locale, rejected nothing, ended below the timeout, and under a forward clock has its times in order |
| `PopulationProbe.SessionAccepted` | tools/check_jupyter_lsp_zup.py:247-336 | an initialize result and then any pieces of work with distinct tokens and phases, reports included, no population before the file search, in either locale and with any clock readings: accepted in full, every phase on record with its times |
| `PopulationProbe.SessionAdmissible` | tools/check_jupyter_lsp_zup.py:329-336 | such a session is admissible when its population ends below the timeout |
| `PopulationProbe.OrdinaryAdmission` | tools/check_jupyter_lsp_zup.py:329-336 | a probe that observes such a session admits it, with the population time it took |
| `PopulationProbe.InitialPopulation.Observe` | tools/check_jupyter_lsp_zup.py:247-254 | the fields become the state of the run extended by the message |
| `PopulationProbe.InitialPopulation.ObserveChecked` | tools/check_jupyter_lsp_zup.py:256-281 | accepts exactly what the specification accepts and changes nothing otherwise |
| `PopulationProbe.InitialPopulation.ObserveProgress` | tools/check_jupyter_lsp_zup.py:282-311 | the progress branch accepts exactly what the specification accepts and changes nothing otherwise |
| `PopulationProbe.InitialPopulation.Check` | tools/check_jupyter_lsp_zup.py:313-327 | passes exactly for an unfailed run on an unchanged identity below the timeout; a timeout is recorded as the failure |
| `PopulationProbe.InitialPopulation.Admit` | tools/check_jupyter_lsp_zup.py:329-336 | admits exactly an unfailed, initialized run on an unchanged identity whose population ended below the timeout, and reports initialization, locale, counts and times of its own state, the state of the run AdmittedRunSaw speaks of |
| `DiagnosticRouting.WithoutOne` | tools/check_jupyter_lsp_browser.py:98-131 | taking one message out of the queue takes one arrival out of the arrival order |
| `DiagnosticRouting.QueueBytesDrop` | tools/check_jupyter_lsp_browser.py:98-131 | the byte count of the queue shrinks by exactly the size of the message taken out |
| `DiagnosticRouting.NothingLostIff` | tools/check_jupyter_lsp_browser.py:266-286 | every received message is attempted or held exactly when from_server could read every one of them |
| `DiagnosticRouting.LateBehindLead` | tools/check_jupyter_lsp_browser.py:98-131 | the messages that leave while an older one is held are exactly the replayed arrivals behind the first arrival that cannot serve as the anchor |
| `DiagnosticRouting.OutOfTurnIff` | tools/check_jupyter_lsp_browser.py:98-131 | the number of messages that leave while an older one is held is the number of failed replays plus a replayed anchor, less the arrivals before the first that cannot serve as the anchor; none, or at most one, under exactly the stated conditions on these counts |
| `DiagnosticRouting.LosesUnroutable` | tools/check_jupyter_lsp_browser.py:266-271 | a concrete message that is neither held nor sent and leaves no failure |
| `DiagnosticRouting.TwoOutOfTurn` | tools/check_jupyter_lsp_browser.py:98-131 | a concrete run: received stale, first, second; first fails to send and second succeeds as the anchor; attempted first, second, stale |
| `DiagnosticRouting.ForgetAt` | tools/check_jupyter_lsp_browser.py:53-61 | forgetting a document takes out its entry and keeps the others in order |
| `DiagnosticRouting.LookupIff` | tools/check_jupyter_lsp_browser.py:98-106 | a document is looked up exactly where it is remembered |
| `DiagnosticRouting.KeptIff` | tools/check_jupyter_lsp_browser.py:53-61 | dropping the oldest entries one by one leaves exactly the longest recent part within the bounds |
| `DiagnosticRouting.LastSentIsNewest` | tools/check_jupyter_lsp_browser.py:119-131 | after a drain the last message sent successfully is the newest one remembered |
| `DiagnosticRouting.Reselect` | tools/check_jupyter_lsp_browser.py:76-106 | a window opened on the document delivered last selects that message without sending it again |
| `DiagnosticRouting.DeliveredOnce` | tools/check_jupyter_lsp_browser.py:63-131 | a concrete run: held in one window, delivered by its drain, selected by the next, attempted once |
| `DiagnosticRouting.DiagnosticIff` | tools/check_jupyter_lsp_browser.py:83-87 | which held list names one diagnostic, and which |
| `DiagnosticRouting.DiagnosticWindow.Remember` | tools/check_jupyter_lsp_browser.py:53-61 | the memory becomes the longest recent part, newest document last, that fits both bounds |
| `DiagnosticRouting.DiagnosticWindow.Server` | tools/check_jupyter_lsp_browser.py:63-74 | holds a diagnostic exactly when the window is open and both bounds allow it; on a closed window remembers it as the newest |
| `DiagnosticRouting.DiagnosticWindow.FromServer` | tools/check_jupyter_lsp_browser.py:266-286 | a message from_server can read is either held or attempted at once, never both; a diagnostic sent on while the window is closed is remembered as the newest; any other message is lost with nothing else changed; bounds, byte count, order and anchor stay right |
| `DiagnosticRouting.DiagnosticWindow.Begin` | tools/check_jupyter_lsp_browser.py:76-81 | opens only a closed window, on a known version; on an already failed window it opens and raises |
| `DiagnosticRouting.DiagnosticWindow.BeginHeld` | tools/check_jupyter_lsp_browser.py:83-89 | opens on the document of the single held diagnostic exactly when there is one, it is well typed, its document has a version, and the window is closed and unfailed; every other input is refused, with nothing changed unless the window had failed |
| `DiagnosticRouting.DiagnosticWindow.Anchor` | tools/check_jupyter_lsp_browser.py:98-117 | a selected anchor never changes; a remembered one is selected without sending; otherwise exactly the first matching held message leaves the queue and is attempted; the anchor is a received nonempty publication for target socket, document and version |
| `DiagnosticRouting.DiagnosticWindow.Replay` | tools/check_jupyter_lsp_browser.py:98-117 | the replayed message is attempted once, is remembered if its send succeeds, and leaves the queue even when sending fails; it counts as out of turn exactly when an older message is held |
| `DiagnosticRouting.DiagnosticWindow.SendOldest` | tools/check_jupyter_lsp_browser.py:119-131 | one drain round attempts exactly the oldest message and remembers it as the newest if the send succeeds |
| `DiagnosticRouting.DiagnosticWindow.Drain` | tools/check_jupyter_lsp_browser.py:119-131 | the drain attempts every held message once, first in first out, empties the queue whatever the sends do, and remembers exactly the successful sends, in order |
| `DiagnosticRouting.DiagnosticWindow.Finish` | tools/check_jupyter_lsp_browser.py:119-131 | closing empties the queue and forgets target and anchor; it succeeds exactly when every send did; the last successful send is the newest remembered |
| `ColdSchedule.BuildColdSchedule` | tools/minimal_worker_reload_benchmark.py:257-282 | the loop builds the schedule and refuses any other count or mode list |
| `ColdSchedule.RequestAt` | tools/minimal_worker_reload_benchmark.py:257-282 | position i holds request number i+1 of its pair's order |
| `ColdSchedule.EachSampleOnce` | tools/minimal_worker_reload_benchmark.py:257-282 | each mode and ordinal stands at exactly one position |
| `ColdSchedule.ImbalanceAt` | tools/minimal_worker_reload_benchmark.py:257-282 | the exact difference of the modes' position sums at every cut |
| `ColdSchedule.Counterbalanced` | tools/minimal_worker_reload_benchmark.py:257-282 | over the whole schedule it is 0 for an even count and 1 in size for an odd one |
| `ColdSchedule.ConfigurationRecovers` | tools/minimal_worker_reload_benchmark.py:839-852 | the checkpoint configuration of a built schedule is the one it was built from |
| `ColdSchedule.ResumesIff` | tools/minimal_worker_reload_benchmark.py:855-887 | a built schedule resumes from exactly the checkpoints of its own configuration whose samples, one by one, have the number, mode and ordinal of the first positions, are no warm-up, carry a process hash and both identities and a stable database; the rest is pending |
| `ColdSchedule.HonestCompletes` | tools/minimal_worker_reload_benchmark.py:902-956 | with children that answer each in a process of their own a run stores as many samples as its budget allows, or the whole schedule |
| `ColdSchedule.CheckpointFile.RunColdParentSchedule` | tools/minimal_worker_reload_benchmark.py:902-956 | one run, interrupted or not, stores and returns exactly what the specification of the run says; a refused checkpoint is left alone |
| `ColdSchedule.ExtendSound` | tools/minimal_worker_reload_benchmark.py:902-956 | a run keeps stored samples, answers the schedule prefix one by one with fresh identities, and is complete when it returns |
| `ColdSchedule.ResumesStaySound` | tools/minimal_worker_reload_benchmark.py:855-956 | from no checkpoint, after any crashes and resumes, stored samples answer the schedule prefix with distinct processes and the next resume accepts them |
| `ColdSchedule.ExtendTwice` | tools/minimal_worker_reload_benchmark.py:902-956 | a crash and a resume store what one run with the combined budget stores |
| `ColdSchedule.ResumesEqualOneRun` | tools/minimal_worker_reload_benchmark.py:902-956 | if samples depend on the stored prefix alone, any pattern of crashes that completes equals the uninterrupted run |
| `ColdSchedule.DistinctIffStartDistinct` | tools/minimal_worker_reload_benchmark.py:855-956 | stored processes end up distinct exactly when those of the starting checkpoint were |
| `ColdSchedule.ForeignCheckpointMayRepeat` | tools/minimal_worker_reload_benchmark.py:855-887 | a concrete accepted checkpoint that repeats a process identity |
| `NearestRank.RankInRange` | integration/zup_worker_universe_acceptance.py:454-455 | the rank ceil(q n) lies in 1..n for every n > 0 and 0 < q <= 1 |
| `NearestRank.NearestRank` | integration/zup_worker_universe_acceptance.py:437-455 | accepts exactly nonempty Sequences, other than text and bytes, of finite nonnegative ints and floats with a float quantile in (0, 1], and returns the least sample with at least that fraction of the samples at or below it |
| `NearestRank.ValuesIff` | integration/zup_worker_universe_acceptance.py:447-453 | the values ranked are those of the samples, one by one |
| `NearestRank.PercentileIff` | integration/zup_worker_universe_acceptance.py:454-455 | the percentile passes a downward closed test exactly when at least the fraction q of the samples does |
| `NearestRank.PercentileIsQuantile` | integration/zup_worker_universe_acceptance.py:454-455 | the percentile is the quantile, and the only one |
| `NearestRank.OrderIndependent` | integration/zup_worker_universe_acceptance.py:437-455 | samples in any other order have the same percentile |
| `NearestRank.PercentilesOrdered` | integration/zup_worker_universe_acceptance.py:437-455 | a larger quantile never has a smaller percentile |
| `NearestRank.SummaryCorrect` | tools/minimal_worker_reload_benchmark.py:328-343 | whatever it accepts, the summary reports count, the number the first sample reads as, both quantiles and the greatest sample, p50 <= p95 <= max |
| `NearestRank.AcceptanceDiffersIff` | tools/minimal_worker_reload_benchmark.py:328-331 | the summary accepts what the acceptance run refuses exactly when it accepts it and it is no Sequence (or is text or bytes), or holds a bool or another value that float converts; never the other way round |
| `NearestRank.ImplementationsAgree` | tools/minimal_worker_reload_benchmark.py:328-343 | on whatever the acceptance run accepts both implementations give the quantiles at 0.50 and 0.95 |
| `CompactEvidence.DominantIff` | integration/zup_worker_universe_acceptance.py:734-737 | max by (p50, name) is the one component with the greatest p50, the later name among equals |
| `CompactEvidence.BuildMode` | integration/zup_worker_universe_acceptance.py:691-748 | accepts exactly accountable, nonnegative samples with one parse per iteration; the section it builds holds those samples, their quantiles, sums, remainders and the dominant component |
| `CompactEvidence.SumLaws` | integration/zup_worker_universe_acceptance.py:698-701 | component sums: nothing for no part, a part for itself, and additive, so each part counts once |
| `CompactEvidence.LonePart` | integration/zup_worker_universe_acceptance.py:698-705 | in every true section a part that alone takes time in an iteration is its component sum, and the rest of the end-to-end time is unattributed |
| `CompactEvidence.LonePartRefused` | integration/zup_worker_universe_acceptance.py:702-707 | a part that alone exceeds its end-to-end time by more than the tolerance is refused |
| `CompactEvidence.OneParseIff` | integration/zup_worker_universe_acceptance.py:721-727 | the parser counters read 1, 0 and 0 in every iteration |
| `CompactEvidence.Build` | integration/zup_worker_universe_acceptance.py:751-816 | accepts exactly complete inputs of 3 and 60 iterations, and the record carries them truthfully |
| `CompactEvidence.CheckMode` | integration/zup_worker_universe_acceptance.py:1089-1156 | passes a mode section if and only if all its recorded numbers are true and its p95 is below 2500, and reports the missed limit if and only if all but the dominant phase is true and p95 is not below it |
| `CompactEvidence.Verify` | integration/zup_worker_universe_acceptance.py:994-1164 | accepts a PASS record if and only if its sections are valid and every mode passes; reports the missed limit if and only if a first mode misses it after the earlier ones pass |
| `CompactEvidence.FastIff` | integration/zup_worker_universe_acceptance.py:1146-1150 | the recorded p95 is below 2500 exactly when at least 57 of the 60 end-to-end times are |
| `CompactEvidence.BuilderVerifierAgree` | integration/zup_worker_universe_acceptance.py:691-1164 | on every record the builder makes with valid sections verification succeeds exactly when both modes are fast, and the only other verdict is the missed limit |
| `CompactEvidence.Conclude` | integration/zup_worker_universe_acceptance.py:3127-3164 | the pass file is written exactly for usable inputs with valid sections and at least 57 of 60 fast times in each mode; the nonpass file exactly when only the times fall short; each holds those samples |
| `LengthFraming.BigEndianRoundTrip` | integration/evidence/live_evidence.py:272-283 | a length is read back from its field exactly when it fits |
| `LengthFraming.ParseStream` | integration/evidence/live_evidence.py:272-283 | a reader of length fields recovers exactly the parts from the framed stream |
| `LengthFraming.StreamInjective` | integration/evidence/live_evidence.py:272-283 | framed streams are equal exactly when the part lists are, for any fixed pattern of field widths |
| `LengthFraming.FramedDigest` | integration/evidence/capture_live_evidence.py:372-384 | the update loop hashes exactly the framed stream and fails exactly when a length does not fit |
| `LengthFraming.EvidenceIdentity` | integration/evidence/live_evidence.py:272-283 | an empty salt is refused; otherwise the identity is the hash of the framed salt and parts |
| `LengthFraming.IdentityCommits` | integration/evidence/live_evidence.py:272-283 | equal identities come from equal salts and parts, or the lemma hands out a collision |
| `LengthFraming.ProcessIdentityDecides` | integration/evidence/capture_live_evidence.py:372-384 | the stream fixes attempt, role, process number, creation time and case-folded path |
| `LengthFraming.IdentityReads` | integration/evidence/capture_live_evidence.py:372-384 | a reader of the stream finds tag, attempt, role, process number, creation time and path in this order; of a database stream tag, key and size |
| `LengthFraming.DatabaseIdentityDecides` | integration/evidence/capture_private_replay.py:1093-1103 | the stream fixes the filesystem key and the size |
| `LengthFraming.IdentityKindsApart` | integration/evidence/capture_private_replay.py:1093-1103 | a process and a database never share a stream |
| `LengthFraming.SourceDigest` | integration/jupyter_bsl_fixture/extension.py:55-64 | the update loop hashes exactly the stream with 4-byte path and 8-byte payload lengths |
| `LengthFraming.SourceDigestDecides` | integration/jupyter_bsl_fixture/extension.py:55-64 | the stream fixes the files, their order, paths and contents |
| `Palette.OnePath` | tools/eval_mcp_palettes.py:135-394 | the reachable runtimes of a profile form one path: how far along determines the whole state |
| `PaletteArguments.ScriptMeetsDemands` | tools/eval_mcp_palettes.py:421-525 | for every task and both profiles, the script's arguments, with the named budget of capture-profile value.to_df expanded by the server, are exactly what the runtime demands of the tool |
| `PaletteArguments.DemandsAreScript` | tools/eval_mcp_palettes.py:149-373 | the runtime takes arguments for a task exactly when they agree with what the script's own become on every key the tool looks at |
| `Palette.NextAdvances` | tools/eval_mcp_palettes.py:145-394 | every call, fault and lost acknowledgement keeps the evidence in order and either changes nothing or takes the one next step; no stage is skipped or left backwards |
| `Palette.RunSound` | tools/eval_mcp_palettes.py:145-394 | in every run hypothesis implies bounded implies inspected, and capture B or later implies all three |
| `Palette.StepsTaken` | tools/eval_mcp_palettes.py:145-394 | a run that got to a milestone contains the events of all earlier steps in order; a closed runtime went through all nine |
| `Palette.NeverBack` | tools/eval_mcp_palettes.py:145-394 | along every run stage and milestone never decrease |
| `Palette.OfflineClient.SuccessfulValue` | tools/eval_mcp_palettes.py:149-373 | a call is refused with nothing changed, or takes its step and answers for it; it is accepted exactly when profile, arguments and state allow it |
| `Palette.OfflineClient.Call` | tools/eval_mcp_palettes.py:375-389 | the call is logged; the two known faults answer without touching the state; other fault values are ignored |
| `Palette.FaultedFails` | tools/eval_mcp_palettes.py:536-615 | no fault's answer, and no missing answer, ever counts as task success |
| `Palette.OnlyItsStep` | tools/eval_mcp_palettes.py:536-615 | a task counts as successful only when the runtime took that task's own step |
| `Palette.HonestTaskSucceeds` | tools/eval_mcp_palettes.py:536-615 | from the milestone before a task its scripted arguments are forwarded, meet the tool's demands, succeed and lead to the milestone before the next |
| `Palette.ExecuteProfile` | tools/eval_mcp_palettes.py:634-698 | task success holds exactly when no choice was invalid, whatever is sent, rewritten, blocked or dropped; with the script's own arguments delivered to a fresh runtime, exactly when none of the profile's scripted tools is faulted |

## Left out

- GeneratedSection.RewriteKeepsTheRest: stated for section names without `#` and line feeds, as the program's two constant names are; a name with `#` can make a marker that overlaps itself.
- GeneratedSection.AcceptsExactlyOneSection: stated for the same plain section names.
- GeneratedSection.MarkerKept: stated for the same plain section names.
- GeneratedSection.LastRewriteWins: stated for the same plain section names.
- GeneratedSection.DisjointRewritesCommute: stated for the same plain section names.
- CompactEvidence.Verify: which of several faults is reported first is stated only for the missed limit; the sections that hold no measurements enter as given verdicts.
- CanonicalJson.ReadIffCanonical: the reader knows only the escapes a canonical text can contain; other JSON is refused either way, because its printed form differs.
- CanonicalJson.CanonicalInjective: a float is its decimal text, and the loader's `==` with an integer knows the form n.0 only; which texts are shortest is not computed, and integers beyond Python's limit of 4300 digits are not refused.
- LengthFraming.ProcessIdentityDecides: paths that fold to the same text share an identity, as in the program; argument validation before the digest is not modelled.
- PaletteArguments.Forwarded: models the server on arguments its schemas accept as they stand; schema checks and coercions, and the shape in which answers come back, are an adversary that may rewrite or block a call or drop its answer.
- ModuleRename.SourceWriteOracle.Rename: of the expectation after a refused rename into or over its own subtree it is stated only that it is out of step; the exact map depends on the order of the keys.
- DiagnosticRouting.DiagnosticWindow.FromServer: other callers' holds, transitions and the re-entrancy of browser callbacks are not modelled.
- MeasurementDriver.RunPairs: the progress callback, a failing arm factory, exceptions outside `Exception` other than cancellation, and profiler phases are not modelled.
- Text encoding: one character stands for one byte or code point; UTF-8, case folding and path normalisation are not modelled.
- Partial operating-system failures inside a write, rename or sync: each is atomic.
- CallScan.LoadReplay: payloads of private markers, cleanups and postflights, and str.isidentifier, enter as arbitrary predicates; the fixture and the cleanup facts checked against it are not read.
- Fixture validation, and the language server's own behaviour, enter as arbitrary predicates and scripts.
- Reading the cleanup facts, private markers, raw-response recording, and publishing and verifying replay bundles.
- `aggregate_phase_events`, `cold_phase_accounting`, `_assert_external_private_absent` and the public-evidence scans: field-by-field checks.
- Object identity in the population probe: whether the monitored root changed is a boolean.
- Notebook, browser, MCP, subprocess and 1C calls, command lines, waiting loops, privacy patterns and fixed schemas.
