# Verified models of the gem5 and McPAT tooling in this repository

This Dafny project models the self-contained algorithms around the runahead simulator and proves
what they promise, for all inputs, all runs and all reachable states. `dafny verify dfyconfig.toml`
checks everything.

**The micro-assembler's parser** (`LrMachine`, `LrTheory`, `LrPrefix`, `LrDriver`, `MicroAsmTables`,
`MicroAsmCertificate`, `MicroAsmTheorems`). The generated 46-state table for a 31-rule grammar is
loaded by its own loops and run by the shift/reduce driver of the bundled parser generator. A theory
for any table with a certificate (items, first and follow sets, weights) gives soundness,
completeness, safety, halting and early error detection; the certificate of this table is checked
entry by entry, so the theory is about tables that exist: `MicroAsmTables.Load` builds them. The
result: the parser returns a tree for a token string exactly when that tree derives it, the grammar
is unambiguous, a run takes at most five steps per token and three more, no run pops below the start
state or misses a goto, and a syntax error is reported at the first token that cannot continue any
sentence.

**The pipeline viewer** (`PipeviewSort`, `PipeviewQueue`, `PipeviewTrace`, `PipeviewTimeline`,
`PipeviewLayout`, `PipeviewViewer`). At any time the bounded sorting queue has printed all but the largest
instructions of those that had come at its last flush, whatever their order; so its output is the
stable sort of all instructions exactly when none of them has more larger ones before that flush than
are held back. The documented bound on disorder is enough, for all thresholds, and one place more is
not. The same holds for any window of the trace, and with it for skipping ahead and stopping early:
they print what reading, sorting and filtering the whole trace would exactly when nothing wanted is
left unread or comes too late. Every trace as the simulator writes it comes out with each value in its
own field, and the printed rows are described character by character in terms of these fields.

**The checkpoint upgrader** (`UpgraderSchedule`, `UpgraderMigrate`, `Upgrader`). Loading succeeds
exactly when all dependencies resolve. A migration succeeds exactly when the missing upgrades have no
dependency cycle, whatever order each round uses; each tag is applied once with its dependencies in
place; legacy versions are applied in ascending order. Running again
leaves the file alone exactly when it had no older tag list, or an upgrade of the run moves that list,
or the list needs nothing by itself.

**The trace codecs** (`Protolib`, `Text`, `InstDepTrace`). Framed message streams come back as they
were written; a printed dependency record is read back exactly when its fields fit its kind.

**Smaller programs.** Merging checkpoints (`AggregatorNames`, `Aggregator`), finding copyright
notices (`CopyrightBlocks`, `CopyrightYears`), the rolling log (`Logroll`) and the search for a
memory array (`ArraySearch`).

Where a promise is not met on all inputs, the model keeps the code's behaviour, one lemma states
exactly when the promise holds, and another one shows an input on which it fails: `StreamingExact`
with `AssumptionIsTight`, `ViewerExact` with `EarlyStopExample`, `BlankExactly` with `BlankExample`,
`RerunOnInput` with `RerunExample`, `FrameExactly` with `EmptyMessageStops`, the two
`RoundTripExactly` with `BareLoadIsLost` and `OddPairIsLost`, `RelocationExact` with
`ShortFileMisplaces`, and `TornDump` and `TornFill` with `TornExample`. For dependencies on
downgraded tags the upgrader's header comment and its code disagree; the model follows the code,
`DocumentationAgreesExactly` says for which graphs the two are the same, and
`DocumentedDowngradeFails` shows a checkpoint on which they differ.

## Model

| member | source | states |
|---|---|---|
| MicroAsmTables.Nest | gem5/parsetab.py:12-26 | The loading loops build the nested dictionary in which a lookup gives exactly the last entry of the item lists for that state and symbol |
| MicroAsmTables.Load | gem5/parsetab.py:10-26 | What is loaded agrees with the action and goto tables entry by entry, for every state and symbol |
| MicroAsmTables.ActionLookup | gem5/parsetab.py:10-16 | For every integer state and every terminal the item lists give the entry of the action table, or none where the table has none |
| MicroAsmTables.GotoLookup | gem5/parsetab.py:19-25 | The same for the goto table and the nonterminals |
| MicroAsmTables.SomeEntry | gem5/parsetab.py:10-16 | Every one of the 46 states has an action row |
| MicroAsmCertificate.TableIsCertified | gem5/parsetab.py:10-59 | The loaded table satisfies every local condition the theory needs, checked for all entries and productions |
| LrMachine.OneOutcome | gem5/ext/ply/ply/yacc.py:869-1022 | A run has one outcome, however many turns of the driver loop it is observed for |
| LrTheory.SpellsItem | gem5/parsetab.py:10-59 | On a valid stack, the symbols read of a production under way are the topmost stacked symbols, and the state below them is where it was started |
| LrTheory.StepSound | gem5/ext/ply/ply/yacc.py:869-1022 | One turn from a valid stack never fails on a table lookup or a pop, keeps the stack valid, loses no token and lowers the potential; acceptance yields a derivation of all tokens consumed |
| LrTheory.ExecSound | gem5/ext/ply/ply/yacc.py:869-1022 | The same over whole runs of any length, which end within their potential |
| LrTheory.RunTree | gem5/ext/ply/ply/yacc.py:869-1022 | Reading a derivable string where its symbol is expected pushes exactly the given tree, in one step per node, and stops before the next token |
| LrTheory.CompleteFromInit | gem5/parsetab.py:10-59 | Every derivation from `file` is the one the machine returns on its token string |
| LrTheory.RunDecides | gem5/parsetab.py:10-59 | With enough turns a tree is returned if and only if it derives the input |
| LrPrefix.Finish | gem5/parsetab.py:10-59 | Every valid stack can be completed to a sentence that begins with the tokens consumed |
| LrPrefix.RunIsLocal | gem5/ext/ply/ply/yacc.py:869-1022 | A run up to a point depends only on the tokens consumed and the kind of the next one |
| LrPrefix.StopsOutsideSentences | gem5/ext/ply/ply/yacc.py:869-1022 | No sentence continues the consumed tokens with a token of the kind at which the machine stops |
| LrDriver.Parse | gem5/ext/ply/ply/yacc.py:869-1022 | The imperative driver, with its two stacks, returns a tree exactly when it derives the input, within a linear number of turns, and no lookup or pop fails |
| MicroAsmTheorems.EveryRunHalts | gem5/parsetab.py:10-26 | Every run of the loaded table ends within 5n + 3 turns on n tokens, despite empty and single-symbol productions, and never fails on a lookup or a pop |
| MicroAsmTheorems.EveryStepSound | gem5/parsetab.py:10-59 | In every reachable configuration the stack spells a path of the automaton and its trees derive exactly the tokens consumed |
| MicroAsmTheorems.ParserDecides | gem5/parsetab.py:10-59 | Soundness and completeness: the machine returns a tree on a token string if and only if the tree derives it from `file` |
| MicroAsmTheorems.TreesAreLinear | gem5/parsetab.py:27-59 | Every derivation tree has at most linearly many nodes in its tokens |
| MicroAsmTheorems.DerivationIsUnique | gem5/parsetab.py:27-59 | The grammar is unambiguous: two derivations of the same tokens are the same tree |
| MicroAsmTheorems.GrammarIsProductive | gem5/parsetab.py:27-59 | Every symbol used in a production derives some token string |
| MicroAsmTheorems.ConsumedIsViable | gem5/parsetab.py:10-59 | At any point of any run the tokens consumed are the beginning of some sentence |
| MicroAsmTheorems.ErrorIsEarliest | gem5/src/arch/micro_asm.py:478-482 | The token reported in a syntax error is the first one that no sentence can continue with; at the end of the input, the input is no sentence |
| MicroAsmTheorems.ParseMicroAsm | gem5/ext/ply/ply/yacc.py:869-1022 | Loading the table and parsing: a tree exactly when one derives the input, an error exactly when none does |
| PipeviewSort.SortPermutes | gem5/util/o3-pipeview.py:164-165 | Sorting the queue keeps every instruction as often as it occurs |
| PipeviewSort.SortSorted | gem5/util/o3-pipeview.py:164-165 | The queue comes out ascending by sequence number |
| PipeviewSort.SortKeepsOrder | gem5/util/o3-pipeview.py:164-165 | Instructions with equal sequence numbers keep their order of arrival |
| PipeviewSort.SortIsUnique | gem5/util/o3-pipeview.py:164-165 | Any ascending sequence that keeps each group of equal numbers in order of arrival is this sort |
| PipeviewSort.SortFilter | gem5/util/o3-pipeview.py:162-184 | Sorting and selecting the window commute |
| PipeviewQueue.StreamBalanced | gem5/util/o3-pipeview.py:154-184 | What has been popped and what is waiting are together exactly the arrivals |
| PipeviewQueue.PoppedAre | gem5/util/o3-pipeview.py:154-184 | At any time, whatever the order of arrival, what has been popped is exactly the arrivals up to the last flush without their `min_threshold` largest |
| PipeviewQueue.WindowExact | gem5/util/o3-pipeview.py:154-184 | For any selection and all thresholds, what is printed is the sorted selection if and only if no selected instruction arrives after a larger selected one that is not among the `min_threshold` largest of the arrivals up to the last flush |
| PipeviewQueue.StreamingExact | gem5/util/o3-pipeview.py:154-184 | For all thresholds, the output of all partial flushes and the final one is the stable sort of all arrivals if and only if every instruction has at most `min_threshold` larger ones among the arrivals up to the last flush before it |
| PipeviewQueue.StreamingEqualsBatch | gem5/util/o3-pipeview.py:45-56 | It is, if every instruction has at most `min_threshold` earlier arrivals with a larger number |
| PipeviewQueue.AssumptionIsTight | gem5/util/o3-pipeview.py:49-50 | For all thresholds with the lower not above the upper there is a trace that exceeds the bound by one place and is printed out of order |
| PipeviewTrace.NoStaleFields | gem5/util/o3-pipeview.py:124-149 | On traces as the simulator writes them, no field of a queued instruction is left over from an earlier one although the record is reused |
| PipeviewTrace.ReportArrives | gem5/util/o3-pipeview.py:125-143 | For any values, the seven lines of an instruction arrive as the record with each of these values in its own field; the text of an abandoned one is prefixed with five dashes, and the store is taken where asked for |
| PipeviewTrace.TraceIsReported | gem5/util/o3-pipeview.py:124-149 | Every trace as the simulator writes it consists of such groups of seven lines, with other lines in between, and its instructions are one for each group, in order and with its values |
| PipeviewTrace.StageIsLatest | gem5/util/o3-pipeview.py:127-128 | On any trace, well-formed or not, a stage has the tick of the latest line of that stage |
| PipeviewTrace.LacksExactly | gem5/util/o3-pipeview.py:125-128 | A record lacks exactly the stages of which no line has been read |
| PipeviewTrace.FetchIsLatest | gem5/util/o3-pipeview.py:128-136 | Tick, number and address are those of the latest fetch line |
| PipeviewTrace.RetireArrives | gem5/util/o3-pipeview.py:138-143 | Every retire line queues one instruction, with the tick and, where asked for, the store of that line |
| PipeviewTrace.RegionIs | gem5/util/o3-pipeview.py:81-137 | Reading starts at the first fetch behind the first line in reach of the window, and ends at the first fetch from there that is beyond the window by more than the drift or the upper threshold |
| PipeviewTrace.TraceSplits | gem5/util/o3-pipeview.py:81-149 | Skipped, processed and unread lines hold together exactly the instructions of the whole trace, in order |
| PipeviewTrace.SkippedIsBefore | gem5/util/o3-pipeview.py:81-105 | Every skipped instruction lies before the window asked for |
| PipeviewTrace.UnreadIsAfter | gem5/util/o3-pipeview.py:124-149 | If later instructions fall behind by at most `max_threshold` numbers and `tick_drift` ticks, everything behind the early stop lies after the window |
| PipeviewTrace.ViewerExact | gem5/util/o3-pipeview.py:68-184 | The viewer prints what reading, sorting and filtering the whole trace would if and only if nothing behind the early stop was wanted and no wanted instruction arrived after a larger wanted one had been popped |
| PipeviewTrace.ViewerLosesNothing | gem5/util/o3-pipeview.py:45-66 | The documented assumptions on disorder and drift suffice for that |
| PipeviewTrace.EarlyStopExample | gem5/util/o3-pipeview.py:124-137 | A trace and a window for which, with the program's own thresholds and drift, the early stop loses an instruction |
| PipeviewTrace.NothingLacks | gem5/util/o3-pipeview.py:124-149 | On traces as the simulator writes them, every queued instruction has a tick for each stage, so printing finds all it looks up |
| PipeviewViewer.Viewer.PrintInsts | gem5/util/o3-pipeview.py:162-184 | The queue is sorted and popped down to the lower threshold, or to the first wanted instruction that cannot be printed; exactly the popped instructions in the window are printed |
| PipeviewViewer.Viewer.QueueInst | gem5/util/o3-pipeview.py:154-159 | One more arrival, with a partial flush when the upper threshold is passed, which may end in that failure |
| PipeviewViewer.Viewer.SkipAhead | gem5/util/o3-pipeview.py:81-105 | The first fetch line at or after the start of the window |
| PipeviewViewer.Viewer.ReadRegion | gem5/util/o3-pipeview.py:124-149 | Exactly the retired instructions between the skip and the early stop are queued, unless printing fails before; then only instructions of the final output have been popped |
| PipeviewViewer.Viewer.ProcessTrace | gem5/util/o3-pipeview.py:68-184 | What is printed is the specified output up to the first instruction that cannot be printed, and the run fails exactly if there is one; it has, each as often as it was read, exactly the instructions with number and fetch tick on the right side of every positive bound, and committed if only those are asked for; within the documented bounds, with fetches at non-zero ticks, it never fails and prints all such instructions of the whole trace, in order |
| PipeviewViewer.UpToIs | gem5/util/o3-pipeview.py:187-263 | What is printed ends right before the first wanted instruction that cannot be printed, and is all that is wanted if and only if there is none |
| PipeviewViewer.PrintableExactly | gem5/util/o3-pipeview.py:187-263 | An instruction can be printed if and only if width and cycle are positive, a line was read for each stage, and some field has a non-zero tick not before the row of the fetch |
| PipeviewViewer.FailureIsFinal | gem5/util/o3-pipeview.py:162-184 | Whatever is popped after a failure, the output stays what it was |
| PipeviewViewer.ReferenceIsPrintable | gem5/util/o3-pipeview.py:187-263 | Traces as the simulator writes them, with fetches at non-zero ticks, never make printing fail |
| PipeviewTimeline.RowLength | gem5/util/o3-pipeview.py:261-278 | A row is `width` long plus one for every mark that shares its cell with an earlier one |
| PipeviewTimeline.MarkPosition | gem5/util/o3-pipeview.py:261-278 | Every mark stands at its cell plus the number of shared marks up to it |
| PipeviewTimeline.OneRowExactly | gem5/util/o3-pipeview.py:223-250 | A tick is covered by exactly one row if it is not before the base of the timeline, and by none otherwise |
| PipeviewTimeline.DrawnExactlyOnce | gem5/util/o3-pipeview.py:223-278 | Every stage reached at or after fetch is drawn exactly once over all rows, in both forms |
| PipeviewTimeline.NeverDrawn | gem5/util/o3-pipeview.py:223-278 | A stage not reached, and a dispatch at the tick of issue, is drawn in no row |
| PipeviewTimeline.DrawnInItsCell | gem5/util/o3-pipeview.py:223-278 | In its row a stage stands at cell (tick mod row)/cycle, displaced only by shared marks |
| PipeviewTimeline.BlankExactly | gem5/util/o3-pipeview.py:223-263 | The compact form finds no event, and fails, exactly when no stage is in its row, so never for an instruction fetched at a non-zero tick |
| PipeviewTimeline.BlankExample | gem5/util/o3-pipeview.py:259-263 | An instruction with no tick at all makes the compact form fail |
| PipeviewTimeline.CollectEvents | gem5/util/o3-pipeview.py:251-258 | The events of a row are exactly the stages whose ticks lie in it |
| PipeviewTimeline.DrawEvents | gem5/util/o3-pipeview.py:261-278 | The drawing loop produces the specified row from sorted events |
| PipeviewLayout.PrintInst | gem5/util/o3-pipeview.py:187-290 | A failure exactly where the compact form has no event; otherwise so many rows of width times cycle ticks as reach the last event, or one that wraps around; each row shows f, d, n, p, i, c, r and s for the fields whose ticks lie in it, without a dispatch at the tick of issue, in order of offset and then of name, each as many places behind the one before as it is cells behind it and at least one, and is otherwise dots, of the kind for abandoned or committed instructions |
| PipeviewLayout.FieldsDrawn | gem5/util/o3-pipeview.py:192-278 | Each of the eight letters stands once over all rows, in cell (tick mod row)/cycle of its own field, displaced only by shared marks, if that field is at or after the fetch, and nowhere if it is zero |
| PipeviewLayout.RankIsAlphabetical | gem5/util/o3-pipeview.py:259 | Events at the same offset are ordered by the names of their stages |
| UpgraderSchedule.SucceedsExactly | gem5/util/cpt_upgrader.py:242-254 | If no tag depends on a downgraded one, all rounds succeed if and only if the missing upgrades have no dependency cycle |
| UpgraderSchedule.StuckHasCycle | gem5/util/cpt_upgrader.py:244-248 | Where no tag is ready, the missing upgrades contain a cycle |
| UpgraderSchedule.CycleStaysBlocked | gem5/util/cpt_upgrader.py:242-254 | No tag of a cycle is ever ready, in any round |
| UpgraderSchedule.TargetIsDone | gem5/util/cpt_upgrader.py:242-254 | A migrated tag set leaves nothing to apply |
| UpgraderSchedule.AbsentDowngradeBlocks | gem5/util/cpt_upgrader.py:138-142 | A tag that depends on an absent tag without an upgrader is never applied |
| UpgraderSchedule.DocumentedDowngradeFails | gem5/util/cpt_upgrader.py:56-61 | A checkpoint on which a dependency on a downgraded tag is met as documented and the migration still aborts |
| UpgraderSchedule.DocumentationAgreesExactly | gem5/util/cpt_upgrader.py:56-61 | Readiness as documented and as coded agree on all tag sets if and only if no tag depends on a downgraded one |
| UpgraderMigrate.ApplyRound | gem5/util/cpt_upgrader.py:250-252 | For every order of the ready tags: each is applied once, its dependencies are in the tag set at that moment, and the set after the round is the same |
| UpgraderMigrate.Migrate | gem5/util/cpt_upgrader.py:240-254 | Succeeds exactly without a cycle; then the tags are those before and all upgrades, minus all downgrades, each scheduled tag applied exactly once with its dependencies in place |
| UpgraderMigrate.VersionsAscend | gem5/util/cpt_upgrader.py:165-169 | In every run, a legacy upgrade is applied only after all earlier missing versions |
| Text.WordsJoined | gem5/util/cpt_upgrader.py:223-260 | Tags without white space, joined by blanks in any order and split again, are the same list |
| UpgraderMigrate.JoinTags | gem5/util/cpt_upgrader.py:256-260 | The text written reads back as the tag set |
| UpgraderMigrate.ProcessFile | gem5/util/cpt_upgrader.py:208-264 | For any bodies of the upgraders: an unknown version and a missing one fail; the tags of the file are those of the versions 2 up to its number, or those of the list that is read; only upgrades it lacks and downgrades of tags it has are applied, each once, and all of them unless dependencies abort the run; in particular no upgrade of its own or an earlier version; the tags written are those it had and all upgrades, without the downgraded ones; a file is left alone exactly if it has no version number and nothing to apply |
| UpgraderMigrate.ReadTagsAre | gem5/util/cpt_upgrader.py:208-230 | A file has a tag if and only if a version from 2 up to its number has it, or the list that is read names it |
| UpgraderMigrate.BodiesInOrder | gem5/util/cpt_upgrader.py:250-252 | The bodies of a run are executed one on the result of the other, in the order of the log |
| UpgraderMigrate.DependencyRunsFirst | gem5/util/cpt_upgrader.py:138-152 | When a body runs, the body of every dependency the file lacked has run before it |
| UpgraderMigrate.RerunOnInput | gem5/util/cpt_upgrader.py:208-260 | Where each applied body moves the older tag list or keeps it, a second run leaves the written file alone if and only if the file had no older list, or a scheduled upgrade moves it, or it needs nothing by itself |
| UpgraderMigrate.BodiesLeave | gem5/util/cpt_upgrader.py:144-152 | After the bodies of a run there is no version number, and the older list is gone exactly if some applied body moves it and unchanged otherwise |
| UpgraderMigrate.RerunAfterMove | gem5/util/cpt_upgraders/globals-to-root.py:2-10 | Where some applied body moves the older list away and none brings it back, a second run does nothing |
| UpgraderMigrate.OldListIsReread | gem5/util/cpt_upgrader.py:223-224 | A run on a file whose older list lacks an upgrade, with no scheduled body that moves it, writes a file with the same older list, from which the next run finds the upgrade missing again |
| UpgraderMigrate.RerunExample | gem5/util/cpt_upgrader.py:223-224 | Such a run: the older list names the moving upgrader as applied and lacks another, and the file written has something left to do |
| Upgrader.Registry.Register | gem5/util/cpt_upgrader.py:90-136 | One more script, with its tag in the set of upgrades or of downgrades, its version and its dependencies; a script with a tag already taken becomes the owner of the tag, which keeps its place in the order |
| Upgrader.Registry.ChainLegacy | gem5/util/cpt_upgrader.py:165-169 | Consecutive versions from 3 on depend on exactly their predecessor, all others keep their dependencies; it fails exactly when version 3 has no version 2 |
| Upgrader.Registry.AddForward | gem5/util/cpt_upgrader.py:172-178 | Appends the tag to the owner of every tag it names, once per mention, and fails exactly when one of them is unknown |
| Upgrader.Registry.ResolveAll | gem5/util/cpt_upgrader.py:171-183 | Succeeds exactly when every forward and every audited dependency is known, although lists still grow while they are audited |
| Upgrader.Registry.LoadAll | gem5/util/cpt_upgrader.py:159-183 | Succeeds if and only if all declared, chained and forward dependencies of the owners name scripts, also where scripts share a tag; then every dependency, also an appended one, is registered, and the graph is valid exactly if no tag both upgrades and downgrades |
| Upgrader.Registry.LegacyIsChain | gem5/util/cpt_upgrader.py:165-169 | The loaded legacy upgrades form the chain that the ascending order needs, as far as the versions are consecutive and no later script takes their tags |
| Upgrader.AddAllIs | gem5/util/cpt_upgrader.py:171-178 | The dependencies of a tag's owner end as its own followed by the tags of all owners that name it |
| Upgrader.OwnerIs | gem5/util/cpt_upgrader.py:136 | A tag belongs to the last script read with it |
| Upgrader.ForwardIs | gem5/util/cpt_upgrader.py:171-178 | The forward dependencies of a tag are exactly the tags whose owners name it |
| Upgrader.DistinctTags | gem5/util/cpt_upgrader.py:60-61 | Where a tag is used once only, every script owns its tag and no tag both upgrades and downgrades |
| Protolib.DecodeVarint | gem5/util/protolib.py:98-126 | A varint reads back as its value masked to 32 bits, or fails from ten bytes on |
| Protolib.DecodeCongruent | gem5/util/protolib.py:98-126 | On any bytes at most ten are taken, and a result is congruent modulo 2^32 to the base-128 value |
| Protolib.VarintLength | gem5/util/protolib.py:143-155 | A varint has as many bytes as the value has base-128 digits |
| Protolib.FrameExactly | gem5/util/protolib.py:128-163 | A framed payload reads back if and only if its length is non-zero and fits, or one characterised exception at the end of the stream |
| Protolib.EmptyMessageStops | gem5/util/protolib.py:128-141 | An empty message is taken for the end of the stream, whatever follows |
| Protolib.StreamRoundTrip | gem5/util/protolib.py:128-163 | Reading a stream of framed non-empty payloads returns exactly that sequence and then stops |
| Protolib.DecodeVarint32 | gem5/util/protolib.py:98-126 | The reading loop computes the specified result and leaves the cursor right behind the bytes taken |
| Protolib.EncodeVarint32 | gem5/util/protolib.py:143-155 | The writing loop appends exactly the varint |
| Protolib.EncodeMessage | gem5/util/protolib.py:157-163 | Appends the length and the payload |
| Protolib.DecodeMessage | gem5/util/protolib.py:128-141 | Returns the next payload and moves behind it, or nothing where no message can be read; the cursor is then behind the bytes of the length that were read |
| InstDepTrace.RoundTripExactly | gem5/util/encode_inst_dep_trace.py:147-194 | A printed record parses back, with pc and weight filled in, if and only if its fields fit its kind |
| InstDepTrace.BareLoadIsLost | gem5/util/encode_inst_dep_trace.py:167-174 | A load printed without its address is on a line that cannot be parsed |
| InstDepTrace.TraceRoundTrip | gem5/util/decode_inst_dep_trace.py:154-203 | The same for any number of records and dependency lists of any length |
| InstDepTrace.PrintTrace | gem5/util/decode_inst_dep_trace.py:154-203 | The printing loop produces the specified text |
| InstDepTrace.PrintRecord | gem5/util/decode_inst_dep_trace.py:160-203 | One record as one line |
| InstDepTrace.ParseTrace | gem5/util/encode_inst_dep_trace.py:147-194 | The parsing loop returns the specified records; on a text printed from consistent records these are the records with defaults filled in |
| InstDepTrace.ParseLine | gem5/util/encode_inst_dep_trace.py:147-194 | One line, or nothing where it is malformed |
| Text.SplitJoined | gem5/util/find_copyrights.py:99-100 | Splitting undoes joining when no part holds the separator |
| Text.StripIs | gem5/util/find_copyrights.py:100 | Stripping takes away white space at both ends, and all of it |
| Text.ParseIntExactly | gem5/util/find_copyrights.py:110-115 | A number is read from exactly the strings that are an optional sign and at least one digit |
| CopyrightYears.RunsAre | gem5/util/find_copyrights.py:175-199 | The printed ranges are non-empty, ascending, separated by gaps, and hold exactly the years |
| CopyrightYears.FewestParts | gem5/util/find_copyrights.py:175-199 | No list of ranges with the same years is shorter |
| CopyrightYears.RunRoundTrip | gem5/util/find_copyrights.py:98-116 | A printed range never reads back as other years, and as all of its years exactly when it is one year or within four digits |
| CopyrightYears.MatchRangeIs | gem5/util/find_copyrights.py:98-108 | A range is read from exactly the strings that begin with four digits, a hyphen with any white space around it and four digits, and it has those two years |
| CopyrightYears.RoundTripExactly | gem5/util/find_copyrights.py:98-199 | The printed years read back as the same set if and only if any two consecutive ones both have four digits |
| CopyrightYears.FourDigitYearsRoundTrip | gem5/util/find_copyrights.py:98-199 | In particular for all sets of four-digit years |
| CopyrightYears.OddPairIsLost | gem5/util/find_copyrights.py:98-116 | Two consecutive years not both of four digits are not read back |
| CopyrightYears.PrintYears | gem5/util/find_copyrights.py:175-199 | Prints a set of years as its maximal runs; fails exactly on the empty set |
| CopyrightYears.ReadYears | gem5/util/find_copyrights.py:98-116 | The reading loop returns the union of the years of all items |
| CopyrightBlocks.FindRuns | gem5/util/find_copyrights.py:15-46 | For scripts and lisp: ascending disjoint blocks, all before the first code line that does not follow a comment, which cover every comment line up to there; only a run that reaches the end of the file is lost |
| CopyrightBlocks.RunsExactly | gem5/util/find_copyrights.py:15-46 | A block is found if and only if it is a maximal run of comments before the point where the scan ends |
| CopyrightBlocks.RunsUnique | gem5/util/find_copyrights.py:15-46 | There is exactly one block list of that kind |
| CopyrightBlocks.FindCBlocks | gem5/util/find_copyrights.py:48-93 | For the C family: ascending disjoint blocks before the stop, each a block comment up to the first closing mark after its first line or a group of line comments up to the next copyright line or code; every line passed is in a block or blank; of the assertions only the one against both comment marks on a line can fail; only a comment open at the end, or before code on a comment line, is lost |
| CopyrightBlocks.CUnique | gem5/util/find_copyrights.py:48-93 | There is exactly one block list of that kind, and one verdict on the assertion |
| CopyrightBlocks.FindBlocks | gem5/util/find_copyrights.py:15-96 | The result of the scan for the language of the file: its blocks, or nothing exactly on a failed assertion or an unknown language |
| CopyrightBlocks.ScanIsUnique | gem5/util/find_copyrights.py:15-96 | What the scan gives is determined by the file |
| CopyrightBlocks.LooksLike | gem5/util/find_copyrights.py:10-14 | What the scan sees of a line: a script comment has # behind white space only, a lisp comment has a semicolon anywhere, code stands before the first double slash, and a notice begins with Copyright behind it and white space |
| CopyrightBlocks.BaseIs | gem5/util/find_copyrights.py:19-52 | Exactly a first line is passed over that is a mode line or, in a script, begins with #! |
| CopyrightBlocks.ModeLineIs | gem5/util/find_copyrights.py:9 | A mode line has -*-, blanks, mode: and -*- again on the same line |
| CopyrightBlocks.OneLineText | gem5/util/find_copyrights.py:130 | The text of a block of one line is that line |
| CopyrightBlocks.BlockTextIs | gem5/util/find_copyrights.py:130 | The text of a block is that of its first lines followed by that of the others |
| CopyrightBlocks.SearchFinds | gem5/util/find_copyrights.py:130-131 | The search is made in exactly the concatenation of the lines of the block |
| CopyrightBlocks.CutBlock | gem5/util/find_copyrights.py:157-166 | The cut is at the first blank line or line comment with text, and keeps at least the line before |
| CopyrightBlocks.Authors | gem5/util/find_copyrights.py:147-168 | The authors are the first author line and all that follow without a break; the cut block is non-empty and inside its block, for any patterns |
| CopyrightBlocks.GetData | gem5/util/find_copyrights.py:126-173 | One notice for each block of the scan in whose lines, one directly behind the other, the pattern is found, in order, with cut blocks still ascending and disjoint; nothing exactly where the scan fails |
| CopyrightBlocks.StillOrdered | gem5/util/find_copyrights.py:126-173 | Leaving out blocks and cutting others short keeps them ascending and disjoint |
| Logroll.Run | gem5/util/logroll.py:52-81 | At every point where the next line is awaited, and at the end, the dump is exactly the last lines in order of arrival, as many as asked for or as there are |
| Logroll.Overwrite | gem5/util/logroll.py:78-79 | Overwriting the oldest line and moving on turns the latest lines into the latest lines of the longer input |
| Logroll.TornDump | gem5/util/logroll.py:78-79 | A signal between overwriting a line and moving on prints the new line first; it is right exactly when the lines kept all equal the new one |
| Logroll.TornFill | gem5/util/logroll.py:70-76 | The same between appending a line and moving on, while the buffer fills |
| Logroll.TornExample | gem5/util/logroll.py:78-79 | A buffer of two and three different lines for which such a signal prints the newest first |
| ArraySearch.CandidatesAre | parsing_data/mcpat/array.cc:129-158 | The candidates are exactly the results worth keeping, once each, in order of search |
| ArraySearch.AtMostOneCandidate | parsing_data/mcpat/array.cc:129-158 | With non-zero associativity there is at most one candidate, the last search, and it meets both timing bounds |
| ArraySearch.ArrayST.Search | parsing_data/mcpat/array.cc:129-168 | For any results of the model at most eight searches, ending the first time both bounds are settled; only results that are not candidates are freed |
| ArraySearch.ArrayST.Choose | parsing_data/mcpat/array.cc:196-219 | The earliest candidate of least read energy, not freed, if one is below the limit; otherwise nothing changes |
| ArraySearch.ArrayST.OptimizeArray | parsing_data/mcpat/array.cc:81-222 | Both together: at most nine searches in all, and the final result is that candidate with its storage in place |
| AggregatorNames.RenameInjective | gem5/util/checkpoint_aggregator.py:64-67 | With tags of one width, equal new names come from the same name and, if "cpu" occurs in it, the same tag |
| AggregatorNames.RenameIs | gem5/util/checkpoint_aggregator.py:65-66 | The number goes right behind the first "cpu" and so on in the rest of the name; without one the name is kept |
| AggregatorNames.HasCpuIs | gem5/util/checkpoint_aggregator.py:65 | A processor section has "cpu" anywhere in its name |
| AggregatorNames.TagNumbers | gem5/util/checkpoint_aggregator.py:56-66 | The number is that of the checkpoint, in as many digits as the last one needs |
| AggregatorNames.NewNamesDiffer | gem5/util/checkpoint_aggregator.py:56-67 | The pair of checkpoint and processor section can be told from the new name |
| AggregatorNames.UnpaddedMeet | gem5/util/checkpoint_aggregator.py:56-67 | Without the zeros two sections would get the same name |
| AggregatorNames.AllAndClosing | gem5/util/checkpoint_aggregator.py:58-134 | All sections of the merged configuration have different names, the two added at the end included |
| Aggregator.CopiedIs | gem5/util/checkpoint_aggregator.py:69-74 | A copied section has the options of the section and no others, each with the value written for it |
| Aggregator.OptionMoves | gem5/util/checkpoint_aggregator.py:69-77 | Option by option: a physical address reads as the old one plus 4096 times the pages before, the process number of a section that ends in workload, any character, FdMap256 reads as the number of the checkpoint, and every other option is the same string |
| Aggregator.RelocationExact | gem5/util/checkpoint_aggregator.py:94-112 | An address finds at its new place the byte that stands further on by exactly the bytes missing from earlier memory files; none is missing if and only if they all hold all their pages |
| Aggregator.SameByte | gem5/util/checkpoint_aggregator.py:69-112 | Then every address within its pages finds the same byte at its new place |
| Aggregator.AddressFindsItsByte | gem5/util/checkpoint_aggregator.py:69-126 | An address read from a section as it is written finds, in the memory as it is written, the byte that the address in the checkpoint had |
| Aggregator.ShortFileMisplaces | gem5/util/checkpoint_aggregator.py:94-112 | One byte missing from the first memory file: address 0 of the second checkpoint finds the byte of address 1 |
| Aggregator.AddressesDiffer | gem5/util/checkpoint_aggregator.py:69-96 | Two checkpoints share a new address only if they are the same |
| Aggregator.ConfigsExactly | gem5/util/checkpoint_aggregator.py:58-96 | All checkpoints can be merged exactly if each has a page count and numbers for its addresses and ticks |
| Aggregator.PagesAre | gem5/util/checkpoint_aggregator.py:94-95 | The pages of a checkpoint are the number in the option pagePtr of its section system |
| Aggregator.TickAllIs | gem5/util/checkpoint_aggregator.py:81-84 | The tick written is one of the checkpoints' ticks and not below any of them, or zero |
| Aggregator.CopyPages | gem5/util/checkpoint_aggregator.py:99-112 | The page loop copies the first pages, or the whole file where it is shorter |
| Aggregator.MergeSections | gem5/util/checkpoint_aggregator.py:64-89 | The section loop writes what is specified for each section and keeps the largest tick |
| Aggregator.Pad | gem5/util/checkpoint_aggregator.py:118-126 | The fewest pages of "0" that reach the size asked for are appended |
| Aggregator.Aggregate | gem5/util/checkpoint_aggregator.py:41-142 | Fails exactly on no checkpoints, an unreadable one, or a last one without the memory section; otherwise names differ, every processor section of every checkpoint is there under its number with its address moved by 4096 times the pages before it and all other options kept, every other section of the last checkpoint has the same options but for the new memory size, the closing sections hold all pages, the number of checkpoints and the largest tick, the memory is the merged one padded, and its size is recorded |

## Left out

- The lexer, the semantic actions and the error recovery of the parser generator: the error function of this grammar exits the program.
- Parsing the text of a pipeline trace into numbers, terminal colours and the columns beside the timeline.
- The bodies of upgraders and downgraders are a parameter, and what is proved holds for all bodies that do not raise an error. Scripts with values of the wrong type are not modelled.
- UpgraderMigrate.Migrate: does not cover a tag that has both an upgrader and a downgrader, because the header comment demands that a tag is used once; `Upgrader.Registry.LoadAll` says when that is so.
- UpgraderMigrate.RerunOnInput: does not cover a body that rewrites the older tag list, or removes it from some files only; `RerunAfterMove` and `RerunExactly` hold for those too.
- Message serialisation, compression, the configuration file format with its interpolation, and file handles: bytes, lines and sections are values.
- The difference between text and bytes, and between numbers and strings as option values, of Python 3: the aggregator and the trace converters are modelled as their code means them.
- Numbers are read as an optional sign and decimal digits; Python also accepts underscores and other digits and white space. A negative page count is not modelled.
- InstDepTrace.RoundTripExactly: does not cover the virtual address and address space fields of a record, because the printer does not write them.
- The regular expressions for a copyright notice and for author lines are parameters: what is proved holds for all patterns.
- CopyrightBlocks.GetData: does not model the global set of owners and the printing of a report.
- ArraySearch.ArrayST.OptimizeArray: says nothing about the storage of the final result where no candidate is below the energy limit, and does not model the validity flag, the warnings, the assertion that times are positive or the scaling after the search.
- Power and area formulas, the array model itself, and the other analysis and packaging scripts: fits over unseen libraries, or easy members only.
- The packet trace converters, which lose information by design.
- The simulator sources of the runahead processors.
