# CodeDB: a verified model of its compiler and database cores

CodeDB stores programs as content-addressed objects, compiles them and keeps
their history. This project models seven of its parts in Dafny and proves what
they are for. Each imperative part is a class or a method with the loops and
fields of the source, proved equal to a specification function or relation;
the laws are then proved about the specification.

**CIR codec** (`Cir*.dfy`). The flat binary form of lowered functions: interned
string and data pools shared by the file, value and type tables per function,
nested blocks and places for all 56 opcodes, consumer columns recomputed by the
reader, and a section table. The tail of a section is encoded first, and the
head that lists the tables it filled is written ahead of it. The encoder's and
the reader's operation layouts are two separate tables, as in the source.

**Printer and parser** (`Syntax.dfy`, `Grammar.dfy`, `Printer*.dfy`,
`ParserMachine.dfy`). A precedence-climbing parser whose arm flag turns `|` into
a separator, against a printer driven by the precedence of the context.

**Evaluator** (`Eval*.dfy`). A store of cells, a return slot with a sentinel
error, a stack of locals and two ceilings, against a big-step semantics in which
an early return is an outcome of its own. Aggregates hold the cells of their
parts, so aliasing through places, references, slices and enum payloads is kept.

**Projection order** (`Graphs.dfy`, `Projection.dfy`). The depth-first order in
which symbols and types are written out, with cycles.

**Type layout** (`Layout*.dfy`). Offsets, sizes and strides with 64-bit overflow
as an error, recursion found by the set of types being computed, and the
ownership class found by a second search that cuts instead of failing.

**Merge** (`Lists.dfy`, `Merge*.dfy`), **jobs** (`Job*.dfy`), **build plan**
(`BuildPlan.dfy`), **bundles** (`Bundle*.dfy`) and **batches** (`Batch.dfy`):
the three-way merge of roots edited in place, the job table under any
interleaving of workers and evictions, the impact of replacing a root, the
closure and replay of bundles, and all-or-nothing application of operations.

## What turned out false

The model keeps the code as it is. Each of these has a lemma with an input that
shows it and one saying, for all inputs, exactly when the property holds.

- A printed tree does not always re-parse. An index bracket is read with the arm
  flag as it stands (src/expr.rs:7046-7062), although the comment on
  `parse_primary` (src/expr.rs:7071-7076) and the printer take it that brackets
  clear it. `case s of v => a[x | y]` prints and is then a syntax error
  (`PrinterTheorem.IndexInArmBody`). `|` and `=` have the same precedence, so an
  assignment to the left of `|` prints without parentheses and comes back as
  another tree (`PrinterNormal.AssignmentLeftOfBar`). A tree comes back exactly
  when it has no assignment left of a `|`, at any depth, and exposes no bare `|`
  to an enclosing arm body (`PrinterNormal.ComesBackExactly`); otherwise it comes
  back as its normal form or is refused (`PrinterNormal.EveryPrintParses`).
- The layout class of a type and the class the search computes for it can differ
  where a slice is laid out directly. They agree exactly when no such slice's
  elements own anything the class does not say (`LayoutAgreement.AgreementExactly`).
- The definitions recorded with a layout leave out those behind a box, although
  its class depends on them (`LayoutKeys.BoxedDefinitionsAreNotRecorded`). Equal
  recorded definitions always fix size, alignment and offsets, and fix the class
  exactly when the payloads of the boxes and vectors laid out directly add the
  same flags (`LayoutKeys.RecordedDefinitionsFixLayout`).
- Swapping the branches of a merge can change whether it is accepted, never what
  it contains (`MergeLaws.DanglingBreaksSymmetry`). It is symmetric exactly when,
  the states merging, the target's leftover bindings of undefined symbols fit if
  and only if the source's do (`MergeLaws.SymmetryExactly`). A deletion takes its
  symbol's names along (src/migrations.rs:5333-5335), and merging into a target
  without leftovers leaves none (`MergeLaws.MergeMakesNoDangling`).

## Model

| member | source | states |
|---|---|---|
| CirFileRoundTrip.RoundTrip | src/cir.rs:2341-2347 | whenever a target, entry index and function list encode, decoding the bytes returns exactly them, so the emitter's re-decode check never fires; nested blocks and places, pools and tables filled while the tail is encoded, and the section table are all covered |
| CirJsonWitness.SomeEnvIsLossless | src/cir.rs:2090-2092 | the one demand the round trips make of their environment, that JSON text read back gives the value printed, is met by a codec given here, whatever the operator columns and scalar table |
| CirFileRoundTrip.EncodingIsInjective | src/cir.rs:1413-1476 | equal CIR files come from equal programs |
| CirFileRoundTrip.AcceptedFilesArePrefixFree | src/cir.rs:2198-2280 | no file the decoder accepts is a strict prefix of another it accepts |
| CirFileRoundTrip.TruncatedEncodingsAreRejected | src/cir.rs:2198-2280 | every strict prefix of an encoded file is refused |
| CirFileRoundTrip.SectionsTile | src/cir.rs:2245-2274 | each accepted section starts where the lengths before it end, and together they fill the region to the last byte |
| CirFileRoundTrip.HeaderInverts | src/cir.rs:1443-1471 | the header written for completed pools and section lengths reads back to them |
| CirSectionRoundTrip.SectionRoundTrip | src/cir.rs:1308-1408 | a section whose tail was encoded before its head decodes to the function, against any pools grown since |
| CirSectionRoundTrip.HeadRoundTrip | src/cir.rs:1308-1408 | the head interns into the file pools only, so it reads back before the function tables exist |
| CirSectionRoundTrip.LayoutRowInverts | src/cir.rs:264-285 | a layout row with its five buffer columns reads back, the columns recomputed |
| CirSectionRoundTrip.TypeRowsInvert | src/cir.rs:245-262 | type rows with their layout links and meta columns read back, the columns recomputed |
| CirAcceptance.AcceptedFileIsClosed | src/cir.rs:2198-2286 | an accepted file, whatever its bytes, names an existing entry and lays its sections end to end; each function has dense slots, and every string, data blob, type, value, layout link and callee it refers to is in the header's pools, in the tables its own section's head stores, or in the file's function table, with every stored column the recomputed one |
| CirAcceptance.AcceptedSectionIsGrounded | src/cir.rs:2062-2195 | the same for one section and the tables its head decodes to |
| CirAcceptance.OpsResolve | src/cir.rs:1496-1584 | every reference of a decoded operation, however deeply nested, was resolved in a table |
| CirAcceptance.OpsColumns | src/cir.rs:1568-1574 | the operator entries met in the bytes of accepted operations, nested ones included, are in order those of the decoded operations, each with the recomputed consumer columns |
| CirAcceptance.LayoutHasColumns | src/cir.rs:2085-2115 | an accepted layout row stores its layout's own fields and the five recomputed buffer columns |
| CirAcceptance.TypeHasColumns | src/cir.rs:2118-2139 | an accepted type row links to no layout or to an existing one of its own type, and stores the meta columns that follow from it |
| CirFunction.DecodeSection | src/cir.rs:2062-2195 | an accepted section has dense parameter and local slots |
| CirFieldRoundTrip.OpsRoundTrip | src/cir.rs:601-1285 | operations encoded against tables still growing decode against any later tables, nested blocks included |
| CirFieldRoundTrip.FieldRoundTrip | src/cir.rs:484-600 | each kind of field reads back from what was written, with exactly the rest of the input left |
| CirFieldRoundTrip.ShapesAgree | src/cir.rs:1586-2026 | the reader's table of field orders is the writer's, opcode by opcode and place by place |
| CirFieldRoundTrip.TrapInverts | src/cir.rs:505-514 | optional traps read back |
| CirFieldRoundTrip.OperatorInverts | src/cir.rs:1568-1574 | an operator kind reads back, its three consumer columns compared with their recomputation |
| CirBytes.FromLeInvertsLe | src/cir.rs:346-366 | a number that fits its width reads back from its little-endian bytes |
| CirEncoderMachine.Pools.Istr | src/cir.rs:423-432 | interning returns the first index of the string, appends only a new one, and keeps the index map in step with the list |
| CirEncoderMachine.Pools.Idata | src/cir.rs:433-442 | the same for data blobs |
| CirEncoderMachine.FnTables.Vref | src/cir.rs:453-462 | the same for the values of a function |
| CirEncoderMachine.FnTables.Tref | src/cir.rs:463-472 | the same for its types |
| CirEncoderMachine.FnEncoder.EncodePlace | src/cir.rs:525-590 | the recursive place encoder appends what the specification writes and fills the tables alike |
| CirEncoderMachine.FnEncoder.EncodeOperations | src/cir.rs:516-524 | the operation loop appends what the specification writes and fills pools and tables alike |
| CirEncoderMachine.FnEncoder.EncodeFieldList | src/cir.rs:601-1285 | one operation's fields, in order, as the specification writes them |
| CirEmit.EncodeFunction | src/cir.rs:1308-1408 | tail first, then the head over the completed tables: the bytes and pools of the section specification |
| CirEmit.IndexFunctions | src/cir.rs:1424-1430 | succeeds exactly on a strictly ascending table and maps each symbol to its index |
| CirEmit.EncodeCir | src/cir.rs:1413-1476 | the encoder as it runs is the file specification |
| CirDecoderMachine.Reader.Take | src/cir.rs:378-387 | advances by the length, or fails and leaves the position |
| CirDecoderMachine.FnDecoder.ROps | src/cir.rs:1576-1584 | the recursive reader consumes and returns what the specification does, and ends on every input |
| CirDecoderMachine.FnDecoder.RField | src/cir.rs:1625-2026 | one field, likewise |
| CirEmit.DecodeFunction | src/cir.rs:2062-2195 | the section reader as it runs is the section specification |
| CirEmit.DecodeCir | src/cir.rs:2198-2286 | the decoder as it runs is the file specification, on every byte string |
| CirEmit.Emit | src/cir.rs:2339-2347 | the emitter fails only where the encoder does: the comparison with the re-decoded program always succeeds |
| PrinterNormal.EveryPrintParses | src/expr.rs:2874-4295 | for every tree of the model at every precedence the printer uses, parsing the printed tokens gives its normal form, in which each assignment left of a `\|` has taken the `\|` into its value, or is refused exactly when a bare `\|` is exposed to an enclosing arm body |
| PrinterNormal.ComesBackExactly | src/expr.rs:2874-4295 | the tree itself comes back if and only if no assignment stands left of a `\|` and none is exposed |
| PrinterNormal.NormalExactlyWhenStrict | src/op_registry.rs:143-156 | a tree is its own normal form exactly when no assignment stands left of a `\|` in it, at any depth |
| PrinterTheorem.PrintThenParse | src/expr.rs:2874-4295 | the case of the trees that are their own normal form: they come back, or are refused exactly when a `\|` is exposed |
| PrinterTheorem.PrintingIsInjective | src/expr.rs:2874-4295 | two trees that print alike are equal, unless a separator is exposed |
| PrinterTheorem.IndexInArmBody | src/expr.rs:7046-7062 | `case s of v => a[x or y]`, with bitwise or, is well-formed and prints to text that does not parse |
| PrinterNormal.AssignmentLeftOfBar | src/op_registry.rs:143-156 | an assignment left of `\|`, whatever its parts and context, never comes back as itself but as the assignment of the `\|` |
| PrinterTheorem.BinaryParses | src/expr.rs:6939-6993 | climbing from any minimum up to the context's precedence reads a printed operator tree to its end, left-associative, with two-token shifts |
| PrinterTheorem.UnaryParses | src/expr.rs:7013-7044 | prefix operators and borrows read back and take exactly their operand |
| PrinterTheorem.PostfixParses | src/expr.rs:7046-7069 | chains of indexes and fields read back, however the first dots were grouped |
| PrinterTheorem.ArmsParse | src/expr.rs:6738-6864 | case arms with guards and separators read back, or fail exactly when one exposes a `\|` |
| PrinterTheorem.FullParses | src/expr.rs:6635-6736 | a complete expression followed by what its context allows reads back in either flag |
| PrinterRoundTrip.PathThenFields | src/expr.rs:7361-7367 | collecting the dotted words first or one field at a time gives the same tree |
| PrinterRoundTrip.ArmPatternParses | src/expr.rs:6745-6839 | printed arm patterns read back: catch-alls, integers, ranges, booleans and nested variants |
| ParserMachine.ParseText | src/expr.rs:6320-6325 | the parser object reads a whole source exactly as the grammar does |
| ParserMachine.Parser.ReadBinary | src/expr.rs:6939-6993 | the climbing loop reads what the grammar reads and leaves the arm flag as it was |
| ParserMachine.Parser.ReadArm | src/expr.rs:6738-6864 | an arm sets the flag for its body only and restores it, also on failure |
| ParserMachine.Parser.ReadPrimary | src/expr.rs:7071-7077 | clears the flag inside and restores it, also on failure |
| ParserMachine.Parser.ReadPostfix | src/expr.rs:7046-7069 | the postfix loop, its index read under the flag as it stands |
| EvalMachine.Evaluator.RunExpr | src/expr.rs:1577-2272 | with one slot, a sentinel and a shared stack of locals, evaluation ends with the store and outcome of the big-step semantics, the same locals and call depth, and the slot full exactly while a return is under way |
| EvalMachine.Evaluator.RunSymbol | src/expr.rs:1104-1151 | a call never ends in the sentinel or in an empty slot, and the call counter is restored on every way out |
| EvalMachine.Evaluator.TakeReturn | src/expr.rs:774-782 | the sentinel becomes the slot's value and empties it; other errors pass |
| EvalMachine.Evaluator.RunLoopSteps | src/expr.rs:1308-1361 | one local per round, popped on every exit; the ceiling is hit after the iteration that exceeds it |
| EvalMachine.Evaluator.RunFoldSteps | src/expr.rs:2017-2047 | two locals per element, popped before the outcome is looked at |
| EvalMachine.Evaluator.RunCase | src/expr.rs:2165-2269 | enum arms alias the payload cell; boolean and integer arms follow their own order |
| EvalMachine.Evaluator.RunIntArms | src/expr.rs:2220-2251 | a false guard falls through to the next arm |
| EvalMachine.Evaluator.RunPlace | src/expr.rs:2274-2337 | places of names, fields and elements, with effects of index expressions |
| EvalMachine.Evaluator.RunAssign | src/expr.rs:1950-1964 | the value is evaluated before the place |
| EvalLaws.DivergentNeverYields | src/expr.rs:182-196 | an expression of a diverging shape never yields a value to its context |
| EvalLaws.CeilingsOnlyDecline | src/expr.rs:883-928 | raising the call or the loop ceiling never changes a result, or a store, that was already produced |
| EvalLaws.CeilingsAgree | src/expr.rs:883-928 | any two ceilings that let a call finish give it the same result and store |
| EvalLaws.TailReturnIsValue | src/expr.rs:198-210 | where its value is the block's result, a return can be replaced by its operand without a caller noticing |
| EvalSemantics.FindArm | src/expr.rs:2252-2266 | the first arm with a given test, or none has it |
| Projection.ProjectionOrder | src/expr.rs:2534-2563 | every bound symbol once, and each bound dependency that does not lead back comes before its dependent, in graphs with cycles |
| Projection.Walk.Visit | src/expr.rs:2627-2668 | keeps the order lawful and the visiting set unchanged; afterwards the symbol is listed or still being visited |
| Projection.AcyclicOrder | src/expr.rs:2587-2625 | without cycles the order is topological along whole paths |
| Graphs.GatherIsReachability | src/layout.rs:760-825 | a search that cuts at its own stack finds exactly what the reachable nodes contribute |
| LayoutRegions.PlacesAreDisjoint | src/layout.rs:573-604 | two places of one value that part at a record or an array never overlap |
| LayoutRegions.PlacesFit | src/layout.rs:639-758 | every part of a value lies inside it, at an offset aligned to its own type |
| LayoutRegions.PlacesAreAligned | src/layout.rs:941-950 | wherever an aligned value starts, all its parts are aligned |
| LayoutRegions.TagIsApart | src/layout.rs:691-758 | nothing inside an enum, wherever it sits, overlaps its tag |
| LayoutRegions.LayoutIsSound | src/layout.rs:639-689 | alignment is 1, 2, 4 or 8, the size is a multiple of it and fits 64 bits, and members have their own types' sizes |
| LayoutRegions.StrideIsSize | src/layout.rs:573-582 | rounding a sound size up changes nothing, so the stride is the element size |
| LayoutModel.AlignUp | src/layout.rs:941-950 | the least multiple at or above the value, or an overflow |
| LayoutRecursion.RecursionIsACycle | src/layout.rs:293-300 | a layout means no cycle of direct parts is reachable, and a recursion error names a type on a reachable one |
| LayoutErrors.OnlyRecursionOrOverflow | src/layout.rs:243-300 | over a table whose types have a layout of their own and mention only each other, nothing but recursion or a 64-bit overflow refuses a layout |
| LayoutErrors.RefusedExactlyWhenUnbounded | src/layout.rs:293-300 | there, short of an overflow, refusal is exactly reachable recursion; boxes and references cut it |
| LayoutRecursion.FewerActive | src/layout.rs:293-300 | a layout does not depend on which types are being computed around it |
| LayoutClasses.ClassIsReachability | src/layout.rs:760-825 | the class search sets a flag exactly when some owned type sets it, and fails exactly when one has no meaning |
| LayoutAgreement.LayoutClassIsSearchClass | src/layout.rs:417-437 | where no slice is laid out directly the layout's class is the class the search computes |
| LayoutAgreement.AgreementExactly | src/layout.rs:531-535 | for every type with a layout, its class is the searched one exactly when no slice laid out directly hides a flag the class lacks |
| LayoutKeys.RecordedDefinitionsFixLayout | src/layout.rs:258-276 | for two roots over the same content with equal recorded definitions, size, alignment and offsets are equal, and the whole layout is exactly when the heap payloads add the same flags |
| LayoutKeys.NoHeapNoSurprise | src/layout.rs:258-276 | without a box or vector laid out directly, equal recorded definitions mean equal layouts |
| LayoutKeys.BoxedDefinitionsAreNotRecorded | src/layout.rs:258-276 | redefining a record behind a box, everything else kept, changes the layout and not the recorded definitions |
| LayoutMachine.LayoutComputer.LayoutType | src/layout.rs:293-300 | the recursive computation returns the specified layout, restores the active set and records the definitions met |
| LayoutMachine.LayoutComputer.LayoutRecord | src/layout.rs:639-689 | the field loop |
| LayoutMachine.LayoutComputer.LayoutEnum | src/layout.rs:691-758 | the variant loop and the tag |
| LayoutMachine.LayoutComputer.ClassFlags | src/layout.rs:760-825 | the cut search restores its own stack |
| LayoutMachine.ComputeTypeLayout | src/layout.rs:243-276 | the layout, and as dependencies exactly the definitions of the types laid out inside |
| MergeMachine.MergeRoots | src/merge.rs:520-610 | on every input, succeeds exactly when each symbol, type, test list and metadata merges and no name clashes, and then every symbol and type has its merged state and the bindings are exactly those of the states and the leftovers |
| MergeMachine.Draft.ReplaceSymbolState | src/merge.rs:778-791 | the symbol gets the state; every other symbol and every type keep theirs |
| MergeMachine.Draft.ReplaceTypeState | src/merge.rs:853-860 | the same for types |
| MergeMachine.MergeSymbols | src/merge.rs:530-548 | the loop over every symbol any root mentions, and no other binding touched |
| MergeMachine.CheckNames | src/merge.rs:970-992 | passes exactly when no name stands for two symbols |
| MergeMachine.CheckExports | src/merge.rs:994-1015 | passes exactly when no exported name stands for two symbols |
| MergeLaws.NoChangeIsLost | src/merge.rs:612-717 | per symbol, type and facet: what a side changed is in the result, and what neither changed stays |
| MergeLaws.SymbolFacets | src/merge.rs:612-717 | the facet law for one symbol |
| MergeLaws.AcceptsExactly | src/merge.rs:520-610 | a merge is accepted exactly when the states merge, which does not depend on the order of the branches, and the target's leftover bindings of undefined symbols fit them |
| MergeLaws.MergeContentIsSymmetric | src/merge.rs:520-610 | swapping the branches gives the same content, on every input |
| MergeLaws.SymmetryExactly | src/merge.rs:520-610 | swapping the branches succeeds on the same inputs exactly when the states do not merge or both branches' leftovers fit or neither's do |
| MergeLaws.MergeIsSymmetric | src/merge.rs:520-610 | in particular acceptance is symmetric for roots without bindings of undefined symbols |
| MergeLaws.MergeMakesNoDangling | src/merge.rs:741-776 | the merge of a target without leftover bindings has none, so such roots stay such |
| MergeLaws.DanglingBreaksSymmetry | src/merge.rs:741-776 | with a name left over for an undefined symbol the order of the branches decides |
| MergeLaws.UnchangedSource | src/merge.rs:530-540 | a source with nothing new leaves the target, and is refused exactly when the target's own names clash |
| MergeLaws.UnchangedTarget | src/merge.rs:541-545 | a target with nothing new takes the source, and is refused exactly when the source's names clash or the target's leftovers do not fit them |
| MergeLaws.EqualSides | src/merge.rs:541-547 | equal branches merge to what they say, refused exactly when their names clash or their leftovers do not fit |
| JobLaws.ClaimsBalanceFinishes | src/jobs.rs:118-237 | over every run, successful claims minus successful finishes of a job is one exactly while it is running |
| JobLaws.NeverTwoOwners | src/jobs.rs:118-237 | from an empty table the difference is never anything but zero or one |
| JobLaws.OwnerKeepsRow | src/jobs.rs:118-237 | between a claim and the owner's own finish no step of anyone changes the row |
| JobLaws.OwnerFinishesFirst | src/jobs.rs:118-175 | between two successful claims of a job its first owner finished it |
| JobLaws.OwnershipComesFromClaim | src/jobs.rs:177-237 | a worker owns a job only through a claim it has not finished, so nobody else's finish is accepted |
| JobLaws.KindNeverChanges | src/jobs.rs:77-116 | a job keeps its kind over every run |
| JobLaws.RowsStayWellFormed | src/jobs.rs:63-292 | which columns are filled follows from the status, over every run |
| JobProgress.ClaimAnswer | src/jobs.rs:118-175 | after any run from an empty table, a claim is refused exactly when the job was first named with another kind, or a worker holds an unfinished claim, whom the answer names, or it was completed or observed since its last claim and its artifact is still cached; in every other case it succeeds |
| JobProgress.FinishAnswer | src/jobs.rs:177-237 | after any run, a finish is accepted exactly from the worker with an unfinished claim |
| JobProgress.FreedJobIsClaimedNext | src/jobs.rs:118-237 | after an accepted failure or abandonment, and any steps that neither claim nor observe the job, the next claim of its kind gets it: no job is stranded |
| JobMachine.JobStore.EnsureJobForCacheState | src/jobs.rs:77-116 | the two observing statements, and the comparison of kinds |
| JobMachine.JobStore.ClaimJob | src/jobs.rs:118-175 | the claim transaction and its four answers |
| JobMachine.JobStore.FinishRow | src/jobs.rs:177-237 | finishing changes the row exactly for its owner |
| JobMachine.JobStore.PollOnce | src/jobs.rs:239-292 | one round of waiting: a success without its artifact is queued again, a running job is never touched |
| BuildPlan.PlanBuildImpact | src/build_plan.rs:182-363 | the whole plan: a function of the new root is left alone exactly when it, its dependencies and the signatures of everything it needs in either root are unchanged; the changed symbols, the direct and transitive dependents of each changed interface, and the reasons are exactly those of the two roots; the kind is what the gravest reason asks for, and a plan without relink means no symbol, type or export changed |
| BuildPlan.DependentsForSignatureChange | src/build_plan.rs:365-387 | dependents in either root that the new root still has |
| BuildPlan.TransitiveDependents | src/store.rs:659-679 | the worklist finds exactly the functions that need the symbol through one or more dependencies |
| BuildPlan.Planner.VisitSymbol | src/build_plan.rs:219-318 | what one symbol adds to the plan, whatever was there |
| BundleClosure.ClosureFromMap | src/bundle.rs:1272-1297 | the reachable objects, or a reachable one that is missing |
| BundleClosure.ReachedIsLeast | src/bundle.rs:1272-1297 | the reachable objects are the least set with the roots and closed under references |
| BundleClosure.ValidateObjectClosure | src/bundle.rs:1180-1210 | accepts exactly the objects reachable from roots and artifact inputs, what only the inputs need being of a supported kind |
| BundleClosure.ExpectedObjects | src/bundle.rs:1212-1248 | the expected set, computed from the roots' closure |
| BundleHistory.HistorySlice | src/bundle.rs:351-439 | on any store, returns the one chain to the head in order of application, and fails exactly when there is none |
| BundleHistory.Importer.ValidateAndInsert | src/bundle.rs:624-752 | advances exactly on a row admissible where it stands that does not conflict with the store |
| BundleHistoryLaws.AdmittedExactlyWhenCommitted | src/migrations.rs:1597-1728 | a row is admissible and changes the root exactly when committing its operation there records it; one that leaves the root as it was is admitted although committing it records nothing |
| BundleHistory.Importer.Replay | src/bundle.rs:264-273 | the loop accepts exactly the rows admissible one after the other from the first root |
| BundleHistoryLaws.ReplaysExactlyCommits | src/bundle.rs:264-273 | replay accepts rows that all change the root exactly when trying their operations one after the other records those rows |
| BundleHistoryLaws.CommittedHistoryRoundTrips | src/migrations.rs:1597-1728 | whatever operations are tried, applied or not, the rows they record are exported by the walk back and accepted by replay |
| BundleHistoryLaws.ImportThenExport | src/bundle.rs:754-862 | exporting from the store an import leaves gives the imported rows |
| BundleHistoryLaws.HeadDeterminesHistory | src/bundle.rs:737-747 | replayed rows with the same end are the same rows: the head names the whole history |
| Batch.ApplyBatch | src/api.rs:476-508 | the store ends as the hook left the folded operations, or exactly as it began |
| Batch.PreviewBatch | src/api.rs:510-525 | restores the store always, and its flag is whether the batch would have committed; when it fails, it would not |
| Batch.ApplyBatchInTx | src/api.rs:527-688 | the loop with its counters, status and savepoints reports what the sequential meaning says |
| Batch.ApplyOne | src/api.rs:548-650 | one savepoint per operation: kept if it applied, undone in every other case |
| Batch.FinishedIsFold | src/api.rs:527-688 | a finished batch is the sequential fold of exactly its applied operations |
| Batch.ReportIsHonest | src/api.rs:1301-1319 | an operation is reported as applied exactly when the batch commits |
| Batch.AggregateMeans | src/api.rs:1321-1331 | the merged status is a conflict if there was one, else applied if anything was |

## Left out

- Hashing, SQLite text, JSON parsing, the lexer, the HTTP server and formatting: ids are opaque or the parts they hash, tables are maps, JSON text is a codec required to lose nothing, and programs arrive as tokens.
- The type checker, borrow checker, lowering and native backend; operator meanings, operator columns and the run-time type check of arguments are parameters.
- CIR errors are one refusal without message; a pool or table that outgrows 32 bits, which aborts the original, is refused; reserving capacity is not modelled. A value whose fields do not suit its opcode, which the original's structs cannot hold, is refused.
- Printed forms with several spellings: built-in calls print as calls, types are single words, structural enum types as constructors and parameter references are not modelled, and comments are dropped. A borrow of a borrow would print as one token and is excluded; so is an integer literal with a sign, which comes back as a negation.
- PrinterNormal.EveryPrintParses: stated on trees in which names are not keywords, lists the grammar wants non-empty are, and an unguarded catch-all arm is last.
- PrinterTheorem.PrintThenParse: only for trees without an assignment left of a `|`; PrinterNormal.EveryPrintParses covers the others.
- The evaluator's retry that evaluates an array target again after any failure to find it as a place is kept only for targets without an index inside, where the failed attempt has no effect; elsewhere the failure is passed on. Vectors, strings, sub-slices, casts, raw pointers and process arguments are not modelled, and integer widths are not.
- A cyclic chain of references or of owned cells, on which the original would not return, is a run-time error.
- Recursion groups of roots, which the merge copies from the target; and the order in which symbols are visited, which only decides the conflict reported: the model visits them in any order.
- MergeLaws.MergeIsSymmetric: for roots without bindings of undefined symbols; MergeLaws.SymmetryExactly has no such condition.
- The waiter's clock and sleep: one round of waiting is modelled, and time is a parameter of each step.
- Of the build plan, the list of unchanged definitions, whose content depends on the order of symbol ids; and no claim that a full rebuild lists every function, which an unclassified change of root does not. Body hashes are a parameter.
- The kinds of references an object may hold: closure is proved over one reference relation, so it is not claimed that every exported bundle imports.
- Of bundles, the schema strings, operation kind names and audit hashes of rows, and the export closure over all hash strings.
- Of committing, the answer given when preconditions fail: a conflict and an operation recorded earlier are one refusal, since neither records anything.
- The structural diff, the C backend, the ABI and artifact printers and the debugger are not modelled.
