# Verified models of parts of GNU Data Language

GNU Data Language (GDL) is an interpreter for an array language.  This project models the parts of
it where a mistake is hardest to see, keeps their form (loops over flat memory, classes whose methods
update fields, tree walkers), and proves what they promise for all inputs, all runs or all interleavings.

`dafny verify --verification-time-limit 0 dfyconfig.toml` checks everything in a few minutes; no proof needs more than
seconds, so the default time limit does as well on a machine that is not busy.

| files | what they model |
|---|---|
| `Matrices`, `FlatMemory`, `Loops`, `Kernels`, `BlockSums`, `Assembly`, `Division`, `Strassen`, `StrassenChecked`, `StrassenTop` | Strassen multiplication in place on one flat memory, with strides, result windows, blocks that stick out of their matrix and a scratch buffer whose cells outside the window are stale |
| `RefCounts`, `HeapVariables`, `HeapRuns` | the reference-counted heap of pointer and object variables, cascades of releases, and whole runs |
| `SourceTree`, `LoweredTree`, `TreeLowering`, `EvaluationOrder`, `LoweringMeaning`, `SteadyTargets`, `LoopLaws`, `NormalForm`, `CompileErrors`, `LabelRanges`, `LoopWarnings`, `TreeParser` | the compiler pass from statement trees to the trees the interpreter runs: what it keeps and when, the shape of its trees, which programs it refuses, the label ranges of loops, its warnings |
| `Formats`, `FormatScripts`, `FormatEndings`, `FormatOutput`, `FormatLexer` | output formats with nested groups and reversion, and the strings inside formats |
| `Unwinding` | where a run goes on after an error (CATCH, ON_IOERROR, ON_ERROR) |
| `RandomFill`, `RandomState`, `Binomial` | filling an array with random numbers by several threads, saving and restoring the generators, Knuth's binomial algorithm |

## How the model is set up

- **Strassen.** All matrices and buffers are pieces of one `array<int>`; a pointer is an index, and
  integers stand for the element type (a commutative ring is all the algorithm needs).
  Offsets of operand blocks inside a matrix are added to the base address once, so where the
  program passes a matrix and a corner for an operand that needs no checks, the model passes the
  corner's address. Buffers that the program allocates are regions the caller names. `Halves(n)` says that n can be halved
  without remainder until it is at most 32, as every power of two can. `Holds(mem, base, stride, rows, cols, f)` says
  that a window of a block holds the entries of the matrix f; a product is always compared with the naive
  sum `Mul(f, g, n)`. The sums and differences `SMAdd`, `SMSub1` and `SMSub2` may write scratch cells beyond
  their window, so their frame is the whole destination block. The recursion never relies on those cells.
- **Reference counts.** A heap variable is a list of the ids its value refers to, a count and a
  garbage collection flag. As in `src/objects.hpp`, a new count is 1 and lowering reports whether it
  reached zero; the destructor of a value releases its references in order (`src/datatypes.cpp:292-296`).
  Lowering a zero count wraps, as it would with the program's assertion compiled out.
- **Lowering.** Source trees have a meaning of their own: left to right, the target of an assignment
  before its value, and once. Lowered trees have the interpreter's meaning: value first, then target,
  every node where the tree has it. Operations on values are parameters. Loops consume fuel, one unit
  a round, in both; a statement's outcome is compared for every amount of fuel, so not ending is
  preserved as well. `InOrder(e, s)` says that when e is evaluated from s each assignment comes to the same place, value
  and store whether its target is evaluated first and once (source) or in the interpreter's order;
  `SameAfter` spells out, element by element, when storing at two places in two stores comes to the same. `RunInOrder` says it of all
  assignments made in one run of a statement. `LoopLaws` says where break and continue end and how often a counting loop runs.
- **Formats.** A format tree has a first child and a next sibling, as the program's nodes have. How many
  values one call of an argument's formatting function takes is left open between 1 and what it was
  asked for; no result depends on it. What is printed is stated as a script, the format with all repetitions written out:
  `Script(t)` for a node, `Output(fmt, n)` for a whole output with n values, `Fill(p, xs)` for a script with values in its slots.
- **Random numbers.** A generator is anything that draws a value and moves on. Threads take steps in
  any order, drawing and writing being separate steps.

## What the source says and what it does

- `x = x` is removed whether or not `x` is defined; the lowered statement means the same exactly
  when `x` is defined (`LoweringMeaning.SelfAssignmentExact`). `x = (x)` is never removed
  (`LoweringMeaning.BracedValue`).
- A lowered assignment evaluates its value before its target. It keeps its meaning exactly when both orders come to the
  same (`LoweringMeaning.AssignExact`); with an index without side effects, exactly when the index still names the same
  element behind the value, or both elements hold the value there (`SteadyTargets.ElementAssignExact`).
- An `op=` evaluates its target twice, as the grammar itself warns. It keeps its meaning exactly when the second
  evaluation comes to the same (`LoweringMeaning.OpAssignExact`, `SteadyTargets.ElementOpAssignExact`): `a[j = 1] += 1` does,
  in any store (`SteadyTargets.RepeatedIndex`); `a[i++] += 1` increments `i` twice and stores in the wrong element
  (`SteadyTargets.UnsteadyTarget`). Whole runs in which every assignment made meets its condition keep their meaning.
- Saving the random state leaves out the last two words of each generator. A restored generator is whole
  exactly when those are unchanged (`RandomState.RestoredWhole`); until the saved words are used up it gives
  the same numbers either way (`RandomState.SameNumbers`).
- Freeing a variable explicitly leaves no dangling reference exactly when every reference counted for it comes from its own
  value or from variables that the cascade frees with it (`HeapRuns.FreeExact`). A run leaves nothing dangling at any point
  exactly when every free in it is of that kind and pointers are made only to what is there (`HeapRuns.NeverDangling`).
- Releasing what was just taken restores the heap exactly when no collected variable among it stood at count zero
  (`RefCounts.ReleaseUndoesRetain`).
- Format output fails exactly when values are left after the first pass and the last group entered takes
  none (`Formats.StreamOrFailure`). Section 13.4 of ISO/IEC 1539-1:2018 reverts to the group closed by the last
  but one right parenthesis instead. The two are the same group exactly when a pass enters no group inside that one
  (`Formats.FortranExact`); in `(a,(b,(c)))` they differ (`Formats.FortranDiffers`).
- Behind the last value a format still prints the texts that follow directly, with the slashes between them, in the group of the
  last value and in each group around it, and nothing else (`FormatEndings.WholePrinted`). A pass of a reversion in which the group
  itself takes the last value goes on to one more item behind the group.
- Two assignments into one another, `(a[0] = 1) = 2`, are refused, but only when the inner one is into an element:
  `CompileErrors.StmtsCompile` says exactly what compiles.

## Model

| member | source | states |
|---|---|---|
| Matrices.Strassen11 | obsolete/strassenmatrix.hpp:805 | p1 + p4 - p5 + p7 is the upper left quadrant of the naive product |
| Matrices.Strassen12 | obsolete/strassenmatrix.hpp:806 | p3 + p5 is the upper right quadrant |
| Matrices.Strassen21 | obsolete/strassenmatrix.hpp:807 | p2 + p4 is the lower left quadrant |
| Matrices.Strassen22 | obsolete/strassenmatrix.hpp:808 | p1 - p2 + p3 + p6 is the lower right quadrant |
| Matrices.UnitRow | obsolete/strassenmatrix.hpp:596 | a row of the left matrix that is 1 in one column and 0 elsewhere picks that row of the right matrix |
| Matrices.UnitColumn | obsolete/strassenmatrix.hpp:596 | a column of the right matrix that is 1 in one row and 0 elsewhere picks that column of the left matrix |
| Kernels.NeedExact | obsolete/strassenmatrix.hpp:639-648 | the recursion needs exactly 3 n² less 3 leaf² scratch cells, so 3 n² is enough at every depth |
| Kernels.SMMNoCheckAB | obsolete/strassenmatrix.hpp:576-602 | the naive kernel fills the window with the product and changes only the window |
| Kernels.SMM | obsolete/strassenmatrix.hpp:496-573 | the checking kernel gives the product of the zero-extended blocks for every overlap of block, matrix and window |
| BlockSums.SMAdd | obsolete/strassenmatrix.hpp:28-153 | the window of the destination holds the sum of two zero-extended blocks |
| BlockSums.SMSub1 | obsolete/strassenmatrix.hpp:175-299 | the difference, when the subtrahend has the greater indices |
| BlockSums.SMSub2 | obsolete/strassenmatrix.hpp:301-424 | the difference, when the minuend has the greater indices |
| BlockSums.SMNegate | obsolete/strassenmatrix.hpp:426-486 | the window holds the negated zero-extended block |
| Assembly.Assemble | obsolete/strassenmatrix.hpp:907-945 | one quadrant is put together from the products its recipe names, and no other cell of the result changes |
| Assembly.AssembleAll | obsolete/strassenmatrix.hpp:797-812 | the single loop nest over the full block gives all four quadrants |
| Division.PromiseQuadrant | obsolete/strassenmatrix.hpp:838-1010 | from the products known in their windows, leaving out those that vanish, every cell a quadrant's window reaches is the naive sum |
| Division.WindowProduct | obsolete/strassenmatrix.hpp:666-694 | a product in a window depends only on the window's rows of the left and columns of the right operand, so stale cells cancel |
| Strassen.SMNoCheckAB | obsolete/strassenmatrix.hpp:615-1011 | every cell of the window is the naive sum of the operands' old contents; only scratch [buf, buf + Need) and the window change, for any scratch contents |
| StrassenChecked.VanishingZero | obsolete/strassenmatrix.hpp:1567-1844 | the products left out because quadrants of B lie outside are zero |
| StrassenChecked.SMCheckB | obsolete/strassenmatrix.hpp:1509-2010 | the window is the product with B zero beyond its rows and columns, in all four cases of which quadrants lie outside |
| StrassenTop.SMCheckA | obsolete/strassenmatrix.hpp:1019-1045 | for a block inside A the window is the product; for a block outside A it is zero |
| StrassenTop.Job | obsolete/strassenmatrix.hpp:2068-2228 | each of the seven jobs gives its product from the operands alone and writes only its own buffers |
| StrassenTop.ScratchFits | obsolete/strassenmatrix.hpp:2075-2077 | the recursion's scratch fits in the three blocks in front of a_cum |
| StrassenTop.RunJobs | obsolete/strassenmatrix.hpp:2068-2228 | all seven products are there after the jobs ran in any order |
| StrassenTop.SM1 | obsolete/strassenmatrix.hpp:2041-2388 | every cell of C is the naive sum, for any order of the jobs, and nothing else but products and scratch changes; with the identity in A, C is a copy of B |
| RefCounts.ReleaseLeast | src/GDLInterpreter.hpp:383-419 | a cascade frees the least set of variables whose counts the released references and the freed variables' references use up; the others lose exactly those |
| RefCounts.ReleasedOnce | src/GDLInterpreter.hpp:383-419 | there is only one heap with that property |
| RefCounts.ReleaseOrder | src/GDLInterpreter.hpp:411-419 | releasing an array does not depend on the order of its elements, on any graph |
| RefCounts.ReleaseFlat | src/GDLInterpreter.hpp:411-419 | for variables without references a release subtracts multiplicities and frees exactly those that reach zero; 0 and dangling ids are ignored |
| RefCounts.RetainAdds | src/GDLInterpreter.hpp:459-475 | taking references adds each live id's multiplicity |
| RefCounts.ReleaseUndoesRetain | src/GDLInterpreter.hpp:411-419 | releasing what was taken restores the heap if and only if no collected variable among it stood at zero |
| RefCounts.ReferredStays | src/GDLInterpreter.hpp:383-410 | a variable referred to from outside or from a surviving value survives a cascade |
| RefCounts.ReleaseCounted | src/GDLInterpreter.hpp:383-419 | a release keeps every count equal to the number of references, leaves no dangling reference and no collected variable without one |
| RefCounts.ReleaseUntouched | src/GDLInterpreter.hpp:383-419 | a variable neither released nor referred to by a freed one is unchanged |
| HeapVariables.Heaps.NewHeap | src/GDLInterpreter.hpp:244-251 | n new variables from the counter on, the first id returned |
| HeapVariables.Heaps.NewObjHeap | src/GDLInterpreter.hpp:236-243 | the same for objects, from the same counter |
| HeapVariables.Heaps.FreeHeapDirect | src/GDLInterpreter.hpp:269-274 | the variable is erased before its references are released; ends on every graph, cycles included |
| HeapVariables.Heaps.FreeHeap | src/GDLInterpreter.hpp:275-285 | an unknown id or 0 is ignored |
| HeapVariables.FreedAllLeast | src/GDLInterpreter.hpp:294-302 | freeing an array takes away exactly the least set of variables that goes with those named, what stays loses the references from it, and counts stay right |
| HeapVariables.FreedAllGone | src/GDLInterpreter.hpp:294-302 | whatever the counts are, the variables named are gone and the others keep value and flag |
| HeapVariables.FreedAllFlat | src/GDLInterpreter.hpp:294-302 | without references in the values exactly the variables named go and nothing else changes |
| HeapVariables.FreedAllUntouched | src/GDLInterpreter.hpp:294-302 | a variable not named that no freed variable refers to is unchanged |
| HeapVariables.Heaps.FreeHeaps | src/GDLInterpreter.hpp:294-302 | the loop over the array does all of this |
| HeapVariables.CollectionSwitched | src/GDLInterpreter.hpp:341-348 | a variable that is not collected survives every release and is collected again once it is switched on |
| HeapVariables.Heaps.FreeObjHeap | src/GDLInterpreter.hpp:252-268 | the object goes and the pointers in it are released |
| HeapVariables.Heaps.HeapErase | src/GDLInterpreter.hpp:286-292 | the variable goes, and counts stay right if whoever takes its value takes over the value's references |
| HeapVariables.Heaps.DecRef | src/GDLInterpreter.hpp:383-410 | one reference is released |
| HeapVariables.Heaps.DecRefs | src/GDLInterpreter.hpp:411-419 | the references of an array are released, through all cascades |
| HeapVariables.Heaps.IncRefs | src/GDLInterpreter.hpp:510-518 | a reference is taken to each id of an array |
| HeapVariables.Heaps.AddRef | src/GDLInterpreter.hpp:476-490 | after raising a count by a number, counts are right for that many more references from the program |
| HeapVariables.Heaps.AssignAtIx | src/datatypesref.cpp:297-305 | storing a pointer in an array on the heap changes that one element and keeps the counts right |
| HeapVariables.AssignedCounted | src/datatypesref.cpp:297-305 | the array survives the release of the old element, even if it refers to itself, and counts, dangling and lost references stay in order |
| HeapRuns.RunSound | src/GDLInterpreter.hpp:236-518 | in every run every count is the number of references from the program and from values, and pointer and object ids are disjoint, nonzero and below the counter |
| HeapRuns.CarefulExact | src/GDLInterpreter.hpp:236-518 | an operation leaves nothing dangling if and only if it is careful |
| HeapRuns.NeverDangling | src/GDLInterpreter.hpp:236-518 | a run leaves nothing dangling at any point if and only if every operation in it is careful, safe explicit frees included |
| HeapRuns.NeverLost | src/GDLInterpreter.hpp:383-410 | a collected variable nothing refers to is gone, at every point of every run |
| HeapRuns.NeverReused | src/GDLInterpreter.hpp:236-251 | the ids handed out in a run ascend strictly, whatever is freed |
| HeapRuns.FreeExact | src/GDLInterpreter.hpp:269-285 | freeing a variable leaves no dangling reference if and only if every reference to it comes from its own value or from variables that go with it |
| HeapRuns.FreePtrsExact | src/GDLInterpreter.hpp:294-302 | freeing an array leaves no dangling reference if and only if every reference to a variable in it comes from variables that go with them all |
| HeapRuns.FreeFlatExact | src/GDLInterpreter.hpp:275-285 | a variable whose value refers to nothing is safe to free if and only if nothing refers to it |
| HeapRuns.RunsFromStart | src/GDLInterpreter.hpp:236-518 | all of this for every run from the empty heaps |
| LoweringMeaning.EvalMeaning | src/GDLTreeParser.cpp:2070-2894 | an evaluation in which no assignment depends on the order gives the same value and store when lowered, and fails when the source fails |
| LoweringMeaning.AssignExact | src/GDLTreeParser.cpp:5354-5403 | a lowered assignment means the same if and only if the two orders come to the same place, value and store, or both fail |
| LoweringMeaning.OpAssignExact | src/GDLTreeParser.cpp:2132-2894 | a lowered op= means the same if and only if evaluating its target again before storing comes to the same |
| SteadyTargets.ElementAssignExact | src/GDLTreeParser.cpp:5354-5403 | with an index without side effects: if and only if it names the same element after the value, or both elements hold the value then |
| SteadyTargets.ElementOpAssignExact | src/GDLTreeParser.cpp:2132-2894 | with an index that changes nothing when evaluated again: if and only if it names the same element again, or both hold the result |
| SteadyTargets.RepeatedIndex | src/GDLTreeParser.cpp:2132-2894 | a[j = n] op= r keeps its meaning in any store |
| SteadyTargets.EvalWrites | src/GDLTreeParser.cpp:2070-2894 | evaluation changes only the places an expression writes |
| SteadyTargets.SteadyTarget | src/GDLTreeParser.cpp:2070-2119 | a steady target is the same location before and after the value is evaluated |
| LoweringMeaning.SelfAssignmentExact | src/GDLTreeParser.cpp:2104-2119 | leaving out a variable's assignment to itself is right if and only if the variable is defined |
| LoweringMeaning.PeeledTarget | src/GDLTreeParser.cpp:5310-5350 | parentheses around a target, however many, make no difference |
| LoweringMeaning.WrappedMeaning | src/GDLTreeParser.cpp:3747-3759 | wrapping the first branch of an if with else in a block changes nothing |
| LoweringMeaning.ExecMeaning | src/GDLTreeParser.cpp:963-3759 | in every run in which no assignment depends on the order a statement ends the same way when lowered, for every number of rounds, failures included |
| NormalForm.StmtTidy | src/GDLTreeParser.cpp:3747-3759 | in every lowered tree the first branch of an if with else is a block, and assignments, parentheses and minus signs have their final form |
| NormalForm.ExprTidy | src/GDLTreeParser.cpp:6884-6932 | no lowered expression has a minus before a constant, double parentheses or a variable assigned to itself, and exactly whole variables are replaced |
| SteadyTargets.CarefulRun | src/GDLTreeParser.cpp:963-3759 | if no index of a target has side effects or depends on what the value changes, no run depends on the order |
| SteadyTargets.CarefulMeaning | src/GDLTreeParser.cpp:963-3759 | such a statement keeps its meaning when lowered, unless the source fails and a variable is assigned to itself |
| CompileErrors.ExprCompiles | src/GDLTreeParser.cpp:5310-5350 | an expression compiles if and only if no assignment into an element is assigned to |
| CompileErrors.StmtsCompile | src/GDLTreeParser.cpp:2027-2068 | statements compile if and only if all targets are allowed and no label is there twice; the labels are those of the text in order |
| LoopWarnings.StmtWarned | src/GDLTreeParser.hpp:50-78 | each kept assignment to a loop variable in a loop over it is reported once, each empty repeat once, and nothing else |
| LabelRanges.LowerNumbers | src/GDLTreeParser.cpp:2055-2057 | labels are numbered in the order of the text, none twice, and every range covers its node's labels |
| LabelRanges.InsideIffInRange | src/GDLTreeParser.cpp:3064-3376 | a label is inside a loop, case or switch if and only if its number is in the node's range |
| LabelRanges.RangesNest | src/GDLTreeParser.cpp:1634-1721 | ranges of nested nodes are nested, ranges of other nodes have no label in common |
| TreeParser.GDLTreeParser.ForStatement | src/GDLTreeParser.cpp:3053-3198 | the loop variable is on the stack for the statement only, and a step changes the node |
| TreeParser.GDLTreeParser.ForeachStatement | src/GDLTreeParser.cpp:3200-3284 | the same for one or two loop variables |
| TreeParser.GDLTreeParser.Statement | src/GDLTreeParser.cpp:963-1280 | the walk builds exactly the tree, labels and warnings the lemmas above are about, and leaves the loop variable stack as it was |
| TreeParser.GDLTreeParser.StatementList | src/GDLTreeParser.cpp:834-961 | statements are lowered in order |
| TreeParser.GDLTreeParser.ProcedureDef | src/GDLTreeParser.cpp:203-432 | a routine compiles if and only if its targets are allowed and its labels different; its tree does what the source means and has the shape the interpreter needs, every range covers its node's labels, and exactly the warnings due are given |
| Formats.OneFilled | src/FMTOut.cpp:52-97 | the values a node sends go one after the other into its slots with all repetitions written out |
| Formats.OneAnchor | src/FMTOut.cpp:50-97 | after a pass that the values outlast the group to revert to is the last one entered |
| Formats.RevertInnermost | src/FMTOut.cpp:599-661 | from that group on no other group is entered |
| Formats.FortranExact | src/FMTOut.cpp:599-661 | the group reverted to is the one section 13.4 of ISO/IEC 1539-1:2018 names if and only if a pass enters no group inside that one |
| Formats.StableAnchor | src/FMTOut.hpp:57-74 | a further pass that the values outlast reverts to the same group |
| Formats.RerunStream | src/FMTOut.hpp:60-74 | the passes after the first send every value left, in order, to endless copies of the reversion's slots |
| Formats.StreamOrFailure | src/FMTOut.hpp:52-74 | value k goes to slot k of the format followed by endless copies of the reversion's slots; it fails if and only if values are left and the reversion has no slot |
| FormatScripts.OneWritten | src/FMTOut.cpp:52-97 | a node the values outlast prints its script: texts, blanks, newlines and values with all repetitions written out |
| FormatScripts.ReversionWritten | src/FMTOut.cpp:599-661 | a further pass the values outlast prints the reversion group and what follows it |
| FormatScripts.PrintFill | src/FMTOut.cpp:52-97 | printing a script gives its texts, blanks and newlines with the next values in its slots, and suppresses the last newline if and only if it has a dollar sign |
| FormatEndings.WholePrinted | src/FMTOut.hpp:52-74 | a whole output is the format and the reversions, each on a new line, up to the last value, then the texts directly behind it, and nothing else; without values it is the format up to a colon |
| FormatEndings.ItemsCut | src/FMTOut.cpp:66-93 | the repetition in which the values run out prints its script up to the last value and then what follows it |
| FormatEndings.PassCut | src/FMTOut.cpp:599-661 | the same for a pass from the reversion group |
| FormatOutput.RestOnce | src/FMTOut.hpp:70-74 | a position in the arguments is known by the number of values left, so comparing positions detects a pass without progress |
| FormatOutput.FMTOut.NextVal | src/FMTOut.hpp:115-120 | n values are used, and at the end of an argument the next one follows |
| FormatOutput.FMTOut.Data | src/FMTOut.cpp:277-296 | a data descriptor sends as many values as its count, however many each transfer takes, and sets the flag when they run out |
| FormatOutput.FMTOut.Format | src/FMTOut.cpp:19-101 | a group becomes the group to revert to and is repeated unless the values run out |
| FormatOutput.FMTOut.Q | src/FMTOut.cpp:103-172 | an optional slash or dollar sign |
| FormatOutput.FMTOut.F | src/FMTOut.cpp:174-296 | one item |
| FormatOutput.FMTOut.FormatReversion | src/FMTOut.cpp:599-661 | the reversion group and its later siblings, up to the last value |
| FormatOutput.FMTOut.Passes | src/FMTOut.hpp:57-74 | one look at the position after the first pass is enough: either every pass takes a value or the first takes none and the output fails |
| FormatOutput.FMTOut.Run | src/FMTOut.hpp:27-91 | the whole output ends, sends every value once and in order to the right slot, prints exactly the text of WholePrinted with a last newline unless a dollar sign was passed, or fails exactly when it should |
| FormatLexer.QuotedRoundTrip | src/FMTLexer.cpp:349-426 | a text between quotes, quotes doubled, reads back unless the same quote follows |
| FormatLexer.DoubledQuotes | src/FMTLexer.cpp:349-426 | between quotes only the quote itself is written twice |
| FormatLexer.BodyIsDoubled | src/FMTLexer.cpp:349-426 | only texts with doubled quotes are accepted, and up to the last closing quote |
| FormatLexer.CountedRoundTrip | src/FMTLexer.cpp:1620-1680 | a counted text reads back whatever follows |
| FormatLexer.FMTLexer.MString | src/FMTLexer.cpp:349-426 | the lexer adds exactly the text to the token |
| FormatLexer.FMTLexer.MNumber | src/FMTLexer.cpp:1620-1680 | a number, or the counted text it begins |
| Unwinding.SomeStop | src/GDLInterpreter.cpp:517-595 | the frame where an error stops is always on the stack |
| Unwinding.StopsOnce | src/GDLInterpreter.cpp:517-595 | there is one such frame |
| Unwinding.OneWayOut | src/GDLInterpreter.cpp:454-642 | the stack and the kind of error decide where the run goes on |
| Unwinding.PassedToMain | src/GDLInterpreter.cpp:540-548 | when every routine passes errors to its caller they stop in the lowest frame |
| Unwinding.Interpreter.FindTarget | src/GDLInterpreter.cpp:514-596 | the highest frame with ON_ERROR set decides; none if there is none |
| Unwinding.Interpreter.CallerFrame | src/GDLInterpreter.cpp:540-548 | the nearest lower frame that does not pass errors on, or the lowest |
| Unwinding.Interpreter.Handle | src/GDLInterpreter.cpp:454-642 | an I/O error goes to the frame's ON_IOERROR node if it has one, else the error goes to its CATCH node; a frame with neither passes it on, to the frame to stop at |
| Unwinding.Interpreter.Unwind | src/GDLInterpreter.cpp:454-642 | a run goes on in the highest frame at or above the frame to stop at that takes the error, at its ON_IOERROR node for an I/O error and else at its CATCH node, else it halts there; frames below are untouched and the lowest is never passed |
| RandomFill.AnyInterleaving | resource/randomgenerators_parallel.cpp:94-116 | whatever the interleaving, array and generators are those of the threads running one after the other, and each element is written exactly once |
| RandomFill.TwoInterleavings | resource/randomgenerators_parallel.cpp:94-116 | two interleavings give the same array and generators |
| RandomFill.FinishedExactly | resource/randomgenerators_parallel.cpp:99-113 | the threads are finished if and only if each had two steps for each of its elements |
| RandomFill.FilledOnce | resource/randomgenerators_parallel.cpp:99-113 | the chunks cover the array, so there is one result |
| RandomFill.ChunkSizes | resource/randomgenerators_parallel.cpp:98-108 | all chunks but the last are equal, and the last is longer by less than the number of threads |
| RandomFill.DrawnInOrder | resource/randomgenerators_parallel.cpp:113 | the values of a chunk are those its generator gives one after the other, from the first on |
| RandomFill.Fill | resource/randomgenerators_parallel.cpp:94-116 | the loops of the threads fill every chunk from its own generator |
| RandomState.GetRandomState | resource/randomgenerators_parallel.cpp:661-675 | the seed, then position and words of every generator |
| RandomState.SetRandomState | resource/randomgenerators_parallel.cpp:654-659 | the saved words and the position of one generator, the rest of it unchanged |
| RandomState.RestoreRandomState | resource/randomgenerators_parallel.cpp:768-780 | restoring a saved array gives back the seed and every generator's saved words and position; other lengths are not restored |
| RandomState.RestoredWhole | resource/randomgenerators_parallel.cpp:654-675 | a generator comes back whole if and only if its unsaved words are unchanged |
| RandomState.SameNumbers | src/dSFMT/dSFMT.h:300-311 | until its saved words are used up a restored generator gives the saved one's numbers: the words from its position on |
| Binomial.BinomialKnuth | resource/randomgenerators_parallel.cpp:407-435 | it ends, keeps p between 0 and 1, and returns the successes of the stream; at most n, 0 for p = 0, n for p = 1 |
| Binomial.SuccessBounds | resource/randomgenerators_parallel.cpp:407-435 | the same bounds for every stream |
| Binomial.CountsTrials | resource/randomgenerators_parallel.cpp:407-435 | when the beta numbers are the medians of n trials, the result is the number of trials below p |

## Left out

- StrassenTop.SMCheckA: only blocks of A that lie inside or entirely outside A; for a block that sticks out of A the program hands it to the unchecked kernel at one place and negates a different block than its mirror at another, so the product is not claimed.
- StrassenTop.SM1: only for an A that is square of the size multiplied; for a smaller A it rests on the branches of SMCheckA above. Its seven jobs run one after the other in any order; interleaving their steps is not modelled.
- Strassen multiplication: floating-point rounding and NaN, sizes above 32 that do not halve evenly, allocation and release of the buffers, and the debugging output.
- Heap: object reference counts reaching zero (they run cleanup methods), references to objects inside values, RESET, counts and ids beyond a machine word except for lowering a zero count.
- HeapVariables.Heaps.NewHeap: several variables created at once share no value, because the program passes one only with a single variable.
- Lowering: calls, structures, pointers and array index lists, jumps to labels, and resolving names to variables; which error is raised when a statement fails, and the interpreter's error on entering a loop with an empty body. The warning about loop variables is taken to be switched on.
- TreeParser.GDLTreeParser.AssignReplace: the only target modelled that is replaced is a plain variable; calls, library calls and dereferenced pointers, which are replaced too, and the marking of method calls that may be array elements, need those expressions.
- FormatOutput.FMTOut.Run: calendar codes, the cursor moves T and TL, journal comments, arguments without values or of pointer type, and the text of formatted numbers.
- FormatLexer: C-style strings in formats and numbers too long for a machine word.
- Unwinding: printing, the inner interactive loop, debugger stepping, wrapped nodes, and line numbers.
- RandomFill: the distributions, the choice of the number of threads, and fewer threads running than were asked for.
- RandomState: the generator's recurrence and the jump polynomials; a regenerating function stands for the former.
- Input formats, graphics, the remaining lexers and parsers, and library lookup would repeat easier versions of the above.
