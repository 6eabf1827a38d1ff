# Asteron, proved

Asteron is a small language with a bytecode compiler, a stack machine, a tree-walking reference
interpreter, a reactive runtime, a parallel scheduler and several analyses, written in C.  This
project models its core in Dafny and proves what the parts promise, alone and together.

| Area | Files | Main results |
|---|---|---|
| Compiler, machine, interpreter | `Ast`, `Values`, `Bytecode`, `CodeShape`, `Programs`, `Compiler`, `Interpreter`, `Preservation`, `Divergence`, `Scoping`, `Correctness` | Compiled code halts with an output exactly when the interpreter finishes with that output |
| What is computed | `OperatorLaws`, `WholePrograms` | The operators obey the laws of arithmetic, order, equality and truth; compiled programs print the result of an operator, the branch that a condition chooses, and the rounds of a counting loop |
| Code layout | `LayoutFacts`, `Spans`, `SpanPlaces` | Each recorded range is exactly where the code of its node stands; ranges nest as the tree does; a slice run can leave its range only at the end |
| Code as a tree | `CodeTree`, `CodeRuns` | On the code of any program the machine halts, fails or goes on exactly as that code read as a tree, without addresses |
| Types | `Sorts`, `TypeChecker` | The checker is silent exactly on expressions all of whose operators have operands they are written for; an expression of literals and operators that the checker passes can go wrong only by dividing by zero, if no operand is missing, and with operands missing exactly if the kinds still fit |
| Last uses | `Ssa`, `SsaLaws`, `SsaPass`, `Release`, `ReleaseLimits`, `ReleaseOverflows`, `ReleaseBlindSpots` | Versions count definitions and the marks are exactly on last uses; inserted releases cannot be noticed in any program none of whose loads can find its variable released; straight-line programs with at most a hundred declared names, or with one storage class, are such programs |
| Objects and scopes | `Scopes`, `Ownership`, `Balance`, `Machine` | The machine with counted objects does what the machine on values does, and every count equals the references there are |
| Reactive graph | `ReactiveGraph`, `ReactiveSteps`, `ReactiveRollback`, `Reactive`, `Batching`, `Rollbacks`, `Operations` | Clean nodes show what their formulas mean; a change makes exactly the clean nodes that rest on it be computed afresh, once each; a transaction equals its writes; exactly what a rollback restores; any sequence of operations has the state values of a plain account, and its reads the meaning |
| Scheduler | `Scheduler`, `SchedulerProgress`, `SchedulerExit` | Over every interleaving tasks run at most once and after their dependencies, and none is lost |
| Front end | `Lexer`, `Grammar`, `Precedence`, `Parser` | Tokens and trivia partition the source, each the longest there is; a row of operands groups as the six classes of operators say; the parser undoes the printer exactly on trees without empty texts |
| Analyses | `FlowGraph`, `FlowPaths`, `FlowHooks`, `FlowExact`, `FlowLabels`, `FlowEdges`, `FlowOutcomes`, `FlowSelfEdges`, `FlowBuilder`, `Parallelism` | The control-flow graph covers every run of every program whose text hooks each statement where it runs, and for straight-line programs of no other; exactly which programs have every step drawn with its outcome, and which have no stray edge; the access test justifies any order, and what it refuses beyond that |
| Memory | `Allocators`, `Growth` | Blocks never overlap and are aligned; vector growth is amortised |

How the pieces fit.  What the C code changes in place is a class whose methods carry the loops of
the source (`Compiler.Compiler`, `Machine.Vm`, `Reactive.Runtime`, `Lexer.Scanner`,
`Parser.ExpressionParser`, `FlowBuilder.Builder`, `SsaPass.Versions`, `TypeChecker.Checker`, the
allocators).  Each method is proved against a specification function or relation, and the results
are theorems about those.  The worker protocol is a state machine whose steps are what one thread
does between two points where another can come in.

Conventions.  Doubles are `real`.  The `%g` rendering of a number in a string is an arbitrary
function, the parameter `fmt`.  Lengths and counters are unbounded.  A NULL operand that the parser
leaves behind is the expression `Absent`.  There are two copies of the machine and of the
interpreter in the repository; `src/vm` and `src/interpreter` are the ones modelled.

Where code and documentation, or two parts of the code, disagree, the model follows the code.

* The interpreter and the machine read operators differently outside numbers and strings: the
  machine orders booleans and strings, the interpreter answers nil.  `Values` states both, and
  `EnginesAgreeExactlyOnAgreeable` says where they agree.
* Outside the operands that both are written for the two engines part as `OperatorLaws.EnginesPart`,
  `OperatorLaws.SumsPart` and `OperatorLaws.OppositesPart` say.
* The checker lets a fraction be compared with a whole number on its right, and reports the same
  comparison the other way round (`Sorts.WrittenFor`).
* An empty string literal comes back from the parser with its quotes.  `Grammar.ParserRequotes` says
  what every tree comes back as, and `Grammar.ParserUndoesPrinter` that a tree comes back as itself if
  and only if no text in it is empty.
* A block has an entry only if its first statement has one.  A block that begins with an empty block
  has none wherever it stands, and one that begins with an assignment has none when nothing comes
  before it.  What follows such a block inside another is then attached to the place before it, or to
  nothing, and the graph misses the run (`FlowHooks.EmptyBeginningHasNoEntry`,
  `FlowExact.NestedBarrenBeginningBreaksThePath`, `FlowExact.ProgramsWithMissedRuns`).
  `FlowHooks.HookedTop` is the condition on the text: it is enough for every program
  (`FlowHooks.HookedProgramIsCovered`), and for straight-line programs it is exact
  (`FlowExact.ProgramCoveredExactlyWhenHooked`).
* What is attached to a node is attached by an edge labelled for plain succession, so the way into a
  branch is drawn twice (`FlowSelfEdges.BranchesAreAttachedTwice`).  A branch that begins with an
  assignment or an empty block is not led into by the outcome that takes it: there the condition leads
  to itself, or the way past the branch carries no outcome (`FlowSelfEdges.BranchFromAnAssignment`,
  `FlowSelfEdges.EmptyBranch`).  A `for` that counts by an assignment makes the last node of its body
  lead to itself (`FlowSelfEdges.CountingByAssignment`).  `FlowEdges.Labelled` is the condition on the
  text under which every step is drawn with its outcome, and `FlowSelfEdges.Plain` the one under which
  there is no other edge; both are exact.
* The access test refuses, besides the pairs for which the order can matter, those in which one
  function reads what the other writes and writes nothing (`Parallelism.RefusedExactly`).
* A missing operand, which the parser leaves behind without an error, passes the checker as a value of
  unknown type: `1 +` is passed as a string and fails when run
  (`TypeChecker.MissingOperandPassesAndFails`), while `"a" == "b" +` is passed as a boolean and leaves
  one (`TypeChecker.MissingOperandPassesAndDelivers`).
  `TypeChecker.SilenceIsSoundExactlyWhenKindsFit` gives the exact condition over any stack: the kinds of
  the operands, told from the text with nil under an empty stack, fit.  They do if no operand is
  missing, and over a stack that is not empty only then.
* The release of a variable after its last use can be noticed.  The marking pass does not see uses
  below a unary operator or in a branch, and it counts one round of a loop for all
  (`ReleaseBlindSpots.NegatedUseIsNoticed`, `ReleaseBlindSpots.ConditionalUseIsNoticed`,
  `ReleaseBlindSpots.LoopReleaseIsNoticed`).  A declaration that the full symbol table turns away can
  leave loads looking for the released value (`ReleaseOverflows.TurnedAwayIsNoticed`), and a release
  can make room in a frame that is full in the run without it (`ReleaseOverflows.OverfullIsNoticed`).
  `Release.Readable` is the condition on the text under which no load finds its variable released, and
  then the releases are invisible in every program (`Release.ReleasesAreInvisible`).  Straight-line
  programs meet it with at most a hundred declared names, or with any number in one storage class
  (`ReleaseLimits.FewNamesOrOneClass`); where a straight-line program does not, a load gets nil in
  place of what was released (`ReleaseLimits.UnreadableLoadsNil`).
* The worker protocol, over dependency lists, can bring the exit test of `scheduler_execute` to pass
  before all tasks have run, because a worker's scan and another scan can both put a task in the
  queue (`SchedulerExit.ExitTestCanPassEarly`).  The code never meets such a plan: the builder sets
  every dependency list to empty, and for those plans the test is exact
  (`SchedulerExit.ExitTestIsExact`).  It is also safe where a single task depends on all the others
  (`SchedulerExit.ExitTestIsSafe`).
* A rollback gives each changed node its value from before the last write that changed it.  That is its
  first value if and only if no write changed it or it had that value by then
  (`ReactiveRollback.RollbackRestoresExactly`, `Rollbacks.WriteAndRollBack`).
* A rollback does not invalidate.  A derived node computed inside the transaction from a changed node
  stays clean with the value that was taken back (`Rollbacks.RollbackLeavesStale`), and then reads are
  not consistent until that node is invalidated by a later write.  `ReactiveRollback.RolledBackSound`
  says exactly when the graph is consistent again, and `ReactiveRollback.UndoneIsUpToDate` that it is
  enough for every changed node to come back to its first value with no derived node computed from one
  since the transaction began.
* Beginning a transaction inside another forgets the changes noted so far, and nothing is ever
  invalidated for them.  `ReactiveRollback.ForgottenSound` says exactly when the graph stays consistent,
  and `Rollbacks.SecondBeginLeavesStale` is a run that ends, after the commit, outside a transaction
  with a clean node that is behind.  `Operations.Execute` excludes such beginnings, and rollbacks after
  reads, where it promises consistency; the state values it promises for all sequences.
* The mark of the task arena is aligned after each block and may end up past the capacity; the
  blocks themselves do not (`Allocators.TaskArena.Alloc`).

## Model

| member | source | states |
|---|---|---|
| `Correctness.CompilationPreservesMeaning` | src/vm/compiler.c:118-439 | for every program that declares names before mentioning them: the compiled code halts with an output if and only if the interpreter finishes, with that output |
| `Divergence.HaltsExactlyWhenInterpreterFinishes` | src/vm/vm.c:439-455 | the machine and the interpreter stop on the same programs and print the same, both directions |
| `Divergence.MeaningPreserved` | src/interpreter/interpreter.c:740-882 | a finished interpretation is matched by a halting run that prints the same |
| `Divergence.StmtLasts` | src/interpreter/interpreter.c:801-870 | while the interpreter goes round a loop the machine keeps running: at least one step for each round |
| `Preservation.StmtPreserved` | src/vm/compiler.c:207-391 | the code of a statement, run from its start on an empty stack, arrives at its end on an empty stack with the interpreter's output and variables |
| `Preservation.ExprPreserved` | src/vm/compiler.c:124-206 | the code of an expression pushes the interpreter's value and changes nothing else |
| `Preservation.StoreKept` | src/vm/vm.c:153-174 | a store keeps registers and environment together equal to one flat variable map |
| `Preservation.RoomFor` | src/interpreter/interpreter.c:70-97 | one frame has room for every name of a fitting program, so no binding is dropped |
| `Scoping.OrderlySettlesS` | src/vm/compiler.c:210-236 | declared before mentioned, with one storage class each, makes the compiler choose the same store for all mentions of a name |
| `Scoping.AddSymbolFromIsUpdate` | src/vm/compiler.c:25-37 | registering a symbol changes the class of that name and of no other |
| `Values.EnginesAgreeExactlyOnAgreeable` | src/interpreter/interpreter.c:574-737 | machine and interpreter give an operator the same value exactly on numbers, on numbers and strings under `+`, and without a zero divisor |
| `OperatorLaws.Sums` | src/vm/vm.c:176-237 | addition of numbers is commutative, associative and has zero |
| `OperatorLaws.Differences` | src/vm/vm.c:238-257 | the difference added back to the right operand gives the left one |
| `OperatorLaws.Products` | src/vm/vm.c:238-257 | multiplication is commutative, has one, and distributes over addition |
| `OperatorLaws.Quotients` | src/vm/vm.c:238-257 | the quotient times its divisor gives the dividend, and zero alone divides nothing |
| `OperatorLaws.Greater` | src/vm/vm.c:275-334 | one number is greater than another if and only if it is the other plus something positive |
| `OperatorLaws.Orders` | src/vm/vm.c:275-334 | between any values: less is the converse of greater, and the other two are the negations |
| `OperatorLaws.TextsAndTruths` | src/vm/vm.c:275-334 | a text is greater if it is longer, and true is greater than false |
| `OperatorLaws.ComparedAsNumbers` | src/vm/vm.c:275-334 | any two values compare as a number each: themselves, a length, one or zero |
| `OperatorLaws.Texts` | src/vm/vm.c:176-237 | a text goes before what is added to it, and numbers are rendered |
| `OperatorLaws.Additions` | src/vm/vm.c:176-237 | addition takes two numbers, or a text with a text or a number, and nothing else |
| `OperatorLaws.Equalities` | src/vm/vm.c:258-274 | equal are values of one kind with equal contents: numbers with difference zero, the same text, the same truth value, nil and nil |
| `OperatorLaws.Truths` | src/vm/vm.c:346-353 | false, zero, the empty text and nil count as false, and nothing else does |
| `OperatorLaws.Connectives` | src/vm/vm.c:335-345 | the two logical operators are the connectives of what their operands count as |
| `OperatorLaws.Opposites` | src/vm/vm.c:354-361 | a number and its opposite cancel; nothing else has one |
| `OperatorLaws.EnginesPart` | src/interpreter/interpreter.c:619-737 | outside the shared operands the interpreter answers nil where the machine compares, connects or reports an error |
| `OperatorLaws.SumsPart` | src/interpreter/interpreter.c:579-617 | where the machine refuses to add, the interpreter leaves out what it cannot add |
| `WholePrograms.PrintsResult` | src/vm/vm.c:176-345 | a compiled program that prints an operator between two literals halts having printed what the operator gives |
| `WholePrograms.ChoosesByTruth` | src/vm/compiler.c:271-302 | a compiled conditional on a literal prints the first branch if the literal counts as true, the second if not |
| `WholePrograms.CountingHalts` | src/vm/compiler.c:303-324 | a compiled `while` that counts to n prints 0 up to n - 1 and halts, in a register or in the environment |
| `WholePrograms.ForHalts` | src/vm/compiler.c:325-371 | so does the compiled `for` |
| `Interpreter.AgreementIsDefined` | src/interpreter/interpreter.c:437-738 | an expression that meets only such operators has a value |
| `Compiler.CompilerCompile` | src/vm/compiler.c:393-439 | the whole program is the patched code of the tree and a halt, over tables without repetition, and the range recorded for each node is exactly where its code stands |
| `Compiler.Compiler.AddConstant` | src/vm/compiler.c:48-80 | the pool only grows, holds nothing twice, and has the constant at the index returned |
| `Compiler.Compiler.AddVariable` | src/vm/compiler.c:82-101 | the variable table gains the name at its end unless it is there already |
| `Compiler.Compiler.AddCompilerSymbol` | src/vm/compiler.c:25-37 | updates the entry of the name or appends one while there is room |
| `Compiler.Compiler.CompilerIsLocal` | src/vm/compiler.c:39-46 | the storage class of the latest declaration, and environment for unknown names |
| `Compiler.Compiler.CompileExpr` | src/vm/compiler.c:124-256 | appends the code of the expression and records its range and the ranges below |
| `Compiler.Compiler.CompileStatement` | src/vm/compiler.c:118-391 | appends the code of the statement with its final jump targets, whatever was compiled before |
| `Compiler.Compiler.CompileIf` | src/vm/compiler.c:271-302 | both jumps patched: past the `then` branch, and past the `else` branch |
| `Compiler.Compiler.CompileWhile` | src/vm/compiler.c:303-324 | the exit jump is patched to the end, the back jump goes to the test |
| `Compiler.Compiler.CompileFor` | src/vm/compiler.c:325-371 | initialisation, optional test, body, increment with its pop, back jump |
| `Compiler.Compiler.CompileBlock` | src/vm/compiler.c:372-378 | statements in order, each seeing the symbols of those before |
| `Compiler.Compiler.Patch` | src/vm/compiler.c:282-296 | overwriting one operand leaves all other code as it is |
| `Compiler.GrownTwice` | src/vm/compiler.c:103-115 | code appended after code holds both, under the grown tables |
| `CodeShape.HoldsStable` | src/vm/compiler.c:103-115 | finished code is not disturbed by later code or by growing tables |
| `LayoutFacts.SliceLeavesOnlyAtItsEnd` | src/scheduler/scheduler.c:232-247 | a slice run started anywhere in a node's range stays in it, with valid operands, until its end |
| `LayoutFacts.StepInside` | src/vm/vm.c:90-437 | one step inside a range stays inside it or at its end, and a fault stays in place |
| `LayoutFacts.InsideS` | src/vm/compiler.c:271-371 | every jump emitted inside a statement targets inside its range or its end |
| `Spans.NestedS` | src/vm/compiler.c:118-123 | the ranges of a tree nest as its nodes do, all within the range of the root |
| `SpanPlaces.OccupyS` | src/vm/compiler.c:118-123 | the range recorded for each node, in the order of recording, begins and ends exactly where its code stands in the program |
| `TypeChecker.SilenceIsSound` | src/typechecker/typechecker.c:193-318 | if nothing is reported on an identifier-free, call-free expression with no operand missing, then after as many steps as it has instructions its code has pushed one value of the announced type, or it has stopped at one of its own divisions, by zero |
| `TypeChecker.SilentExactlyOnWellSorted` | src/typechecker/typechecker.c:193-318 | nothing is reported if and only if every operator has operands of the sorts it is written for, told from the tree, and then the sort of the whole is announced |
| `TypeChecker.OneReportEach` | src/typechecker/typechecker.c:193-318 | no operator is reported twice |
| `TypeChecker.SilenceIsSoundExactlyWhenKindsFit` | src/typechecker/typechecker.c:165-166 | with operands missing too, over any stack, the empty one of a statement included: the code of an expression that is passed pushes one value of the announced type if and only if the kinds fit and nothing is divided by zero; they fit if no operand is missing, and over a stack that is not empty only then |
| `TypeChecker.KindsForetell` | src/vm/vm.c:176-361 | the kinds of value that such code leaves, and whether an operator refuses, are told from the text, division by zero apart |
| `TypeChecker.AllOperandsFit` | src/typechecker/typechecker.c:193-318 | with no operand missing the kinds of a passed expression fit over every stack |
| `TypeChecker.MissingOperandPassesAndFails` | src/parser/parser.c:179-187 | `1 +` is passed as a string and stops at the addition |
| `TypeChecker.MissingOperandPassesAndDelivers` | src/parser/parser.c:179-210 | `"a" == "b" +` is passed as a boolean with an operand missing, and from an empty stack leaves one boolean |
| `TypeChecker.CodeComputes` | src/vm/vm.c:176-361 | step for step, what the code of such an expression leaves on the stack or where it stops |
| `TypeChecker.BinarySound` | src/vm/vm.c:176-345 | on operands of accepted types an operator gives the announced type, and fails exactly when dividing by zero |
| `TypeChecker.Checker.CheckNode` | src/typechecker/typechecker.c:165-318 | reports an error if and only if some operator has operands it is not written for, and otherwise announces the sort of the expression; the errors are counted |
| `Ssa.AnnotatedLastUsesAreLast` | src/optimizer/ssa.c:166-242 | between a marked use and a later use of the same name there is always a definition, past the version and variable limits too |
| `SsaLaws.MarksAreExactlyLastUses` | src/optimizer/ssa.c:166-242 | in straight-line code of any size a use is marked if and only if it has a version and is the last to have it |
| `SsaLaws.VersionsCountDefinitions` | src/optimizer/ssa.c:58-134 | with at most a hundred names the version of a use is the number of definitions of its name before it, less one, up to nine |
| `SsaLaws.UsedExactlyWhenMentioned` | src/optimizer/ssa.c:137-163 | the search in a loop's condition finds the variables that it mentions, calls apart |
| `Ssa.NumberSEvents` | src/optimizer/ssa.c:76-134 | each use gets the version that is current where it stands |
| `Ssa.MarkSEvents` | src/optimizer/ssa.c:166-228 | walking backwards marks the last use of the version in each part and changes nothing else |
| `Ssa.ConditionsKeepVariables` | src/optimizer/ssa.c:166-176 | however deep a loop is, a variable that its condition uses is not marked inside it |
| `SsaPass.MarkBackward` | src/optimizer/ssa.c:166-228 | the sweep over any tree with its loop flag marks what the sweep that leaves such loops out marks |
| `SsaPass.Versions.FindOrCreateVar` | src/optimizer/ssa.c:34-47 | finds the entry, appends one, or answers that the table is full |
| `SsaPass.Versions.PushVersion` | src/optimizer/ssa.c:58-66 | pushes a fresh version unless the stack of ten is full |
| `SsaPass.Versions.CurrentVersion` | src/optimizer/ssa.c:68-74 | the version on top, or -1 |
| `SsaPass.Versions.Transform` | src/optimizer/ssa.c:76-134 | the tree and the table after numbering |
| `SsaPass.AnalyzeLiveness` | src/optimizer/ssa.c:230-242 | over any tree: one sweep for every variable and version in turn |
| `SsaPass.AnnotateTree` | src/optimizer/ssa.c:129-242 | over any tree: both passes one after the other on a fresh table |
| `CodeTree.LaidIsItems` | src/vm/compiler.c:118-391 | the emitted code of any statement is its tree of rows, choices and loops laid out with jumps |
| `CodeRuns.LaidRuns` | src/vm/vm.c:90-437 | run from where it is laid out, such a tree ends with the memory, or the error and output, that the tree says, or keeps the machine busy for as many steps as it had rounds |
| `CodeRuns.StopsAsTheTree` | src/vm/vm.c:439-455 | for every program: the machine halts, or fails, with an output if and only if the tree does within some number of rounds |
| `Release.ReleasesAreInvisible` | src/vm/compiler.c:144-160 | for every program, loops and branches included, none of whose loads can find its variable released: with and without the inserted releases the machine halts, fails or goes on alike, and prints the same |
| `Release.SameCode` | src/vm/vm.c:375-391 | step through any code with releases and the same without, loops included: the memories agree on stack, output and everything not released |
| `Release.StripCode` | src/vm/compiler.c:144-160 | the code of a tree without marks is that of the marked tree without the release instructions |
| `ReleaseLimits.FewNamesOrOneClass` | src/vm/compiler.c:19-37 | straight-line programs with at most a hundred declared names, or with any number in one storage class: the releases are invisible, and both runs come to an end |
| `ReleaseLimits.AdmittedProgramIsReadable` | src/optimizer/ssa.c:129-242 | in a straight-line program whose declarations all go where loads look, no load finds its variable released, whatever tables of the passes overflow |
| `ReleaseLimits.UnreadableLoadsNil` | src/vm/vm.c:375-391 | in any other straight-line program with marks some load is of a released variable, and gets nil if the run comes to it |
| `ReleaseOverflows.TurnedAwayIsNoticed` | src/vm/compiler.c:25-37 | a hundred escaping declarations, then a register declaration of a name assigned and released before: the runs print differently |
| `ReleaseOverflows.OverfullIsNoticed` | src/interpreter/interpreter.c:70-97 | one name more than a frame holds: the release makes room for the last, which the run without it drops |
| `ReleaseBlindSpots.NegatedUseIsNoticed` | src/optimizer/ssa.c:76-121 | a use below a negation after the marked one: the run with releases fails, the other prints |
| `ReleaseBlindSpots.ConditionalUseIsNoticed` | src/optimizer/ssa.c:76-121 | a use in a branch after the marked one prints nil with releases |
| `ReleaseBlindSpots.LoopReleaseIsNoticed` | src/optimizer/ssa.c:166-222 | a variable used in a loop whose condition does not mention it is released in the first round |
| `Release.LastUsesAreSound` | src/optimizer/ssa.c:230-242 | no use finds its variable released |
| `Release.StripAnnotate` | src/optimizer/ssa.c:129-242 | the passes change nothing but versions and marks |
| `Scopes.GetIsLookup` | src/interpreter/interpreter.c:99-120 | reading the chain is reading one flat map |
| `Scopes.SetIsUpdate` | src/interpreter/interpreter.c:70-97 | setting is updating that map, and no name becomes bound in two frames |
| `Scopes.RemoveIsSubtraction` | src/interpreter/interpreter.c:122-142 | removing is removing from that map, and no name becomes bound in two frames |
| `Scopes.PopDropsExactlyTheNewNames` | src/interpreter/interpreter.c:145-155 | after any updates and removals, in further scopes too, a pop drops the names first bound since the push and keeps updates to older ones |
| `Machine.Vm.constructor` | src/vm/vm.c:11-53 | an empty machine owns nothing and starts in the initial state |
| `Machine.Vm.Step` | src/vm/vm.c:90-437 | with counted objects a step does what it does on values, error returns included, and each object's count equals its occurrences in stack, registers, environment and snapshots |
| `Machine.Vm.ExecuteFor` | src/vm/vm.c:439-455 | the same over any number of steps |
| `Machine.Vm.Retain` | src/interpreter/interpreter.c:260-265 | one more reference |
| `Machine.Vm.Release` | src/interpreter/interpreter.c:267-274 | one reference less, and the object goes with the last |
| `Machine.Vm.Push` | src/vm/vm.c:69-71 | the reference in hand moves to the stack |
| `Machine.Vm.Pop` | src/vm/vm.c:73-75 | the reference on the stack moves to the caller; an empty stack gives nil |
| `Machine.Vm.Peek` | src/vm/vm.c:77-83 | a further reference to the top value |
| `Machine.Vm.EnvironmentSet` | src/interpreter/interpreter.c:70-97 | the old value loses a reference, the new one gains one, balanced also where the binding is dropped |
| `Machine.Vm.EnvironmentGet` | src/interpreter/interpreter.c:99-120 | the caller gets a reference of its own |
| `Machine.Vm.EnvironmentRemove` | src/interpreter/interpreter.c:122-142 | the binding goes with its reference |
| `Machine.Vm.ChainSet` | src/interpreter/interpreter.c:70-97 | the same over a chain of frames |
| `Machine.Vm.ChainRemove` | src/interpreter/interpreter.c:122-142 | the same over a chain of frames |
| `Machine.Vm.FramePush` | src/interpreter/interpreter.c:145-148 | an empty frame in front; counts unchanged |
| `Machine.Vm.FramePop` | src/interpreter/interpreter.c:150-155 | the innermost frame goes with all its references |
| `Machine.Vm.LoadVariable` | src/vm/vm.c:115-133 | the value of the name, or nil |
| `Machine.Vm.StoreVariable` | src/vm/vm.c:153-167 | binds the popped value; the stack's reference is given up |
| `Machine.Vm.LoadRegister` | src/vm/vm.c:134-152 | a copy with a reference of its own, or an error past the registers |
| `Machine.Vm.StoreRegister` | src/vm/vm.c:168-175 | the reference moves from stack to register and the old one is released |
| `Machine.Vm.ReleaseVariable` | src/vm/vm.c:375-391 | the name leaves the environment and its register, if it has one, becomes nil |
| `Machine.Vm.Add` | src/vm/vm.c:176-237 | sum, concatenation into a new object, or an error, with both operands given up |
| `Machine.Vm.Calculate` | src/vm/vm.c:238-257 | difference, product, quotient or error, as `OperatorLaws.Differences`, `OperatorLaws.Products` and `OperatorLaws.Quotients` describe them |
| `Machine.Vm.Compare` | src/vm/vm.c:258-274 | equality of values of any kinds |
| `Machine.Vm.Order` | src/vm/vm.c:275-334 | order of magnitudes, with strings by length |
| `Machine.Vm.Connect` | src/vm/vm.c:335-345 | conjunction and disjunction of truth values |
| `Machine.Vm.Complement` | src/vm/vm.c:346-353 | negation of the truth value |
| `Machine.Vm.Minus` | src/vm/vm.c:354-361 | the opposite number, or an error that balances |
| `Machine.Vm.Branch` | src/vm/vm.c:412-425 | the condition is popped and given up on both ways |
| `Machine.Vm.TakeSnapshot` | src/vm/vm.c:484-497 | the registers are shared with the snapshot, each with one more reference |
| `Machine.Vm.RestoreSnapshot` | src/vm/vm.c:499-509 | the registers show what they showed when the snapshot was taken; counts balance |
| `Machine.Vm.DestroySnapshot` | src/vm/vm.c:511-517 | the snapshot gives up its references |
| `Machine.Vm.Destroy` | src/vm/vm.c:55-67 | with no live snapshot nothing is left on the heap |
| `Ownership.ReleasedCounts` | src/interpreter/interpreter.c:267-274 | releasing lowers one count by one and disturbs no other object |
| `Balance.ReleaseBalances` | src/interpreter/interpreter.c:267-274 | giving up a value in hand restores the balance of counts and places |
| `Balance.CreateBalances` | src/interpreter/interpreter.c:215-225 | a new object has the one reference in hand |
| `Balance.EmptyHeap` | src/vm/vm.c:55-67 | when no place holds anything no object is left |
| `ReactiveGraph.CleanIsCurrent` | src/reactive/reactive.c:200-214 | a clean node shows what its formula means over the current state values |
| `ReactiveGraph.MeaningIsUnique` | src/reactive/reactive.c:362-395 | the meaning depends on formulas and state values alone |
| `ReactiveGraph.LayeredGraphHasMeaning` | src/reactive/reactive.c:362-395 | every graph whose formulas mention only lower layers has a meaning |
| `ReactiveSteps.RestoredOrigin` | src/reactive/reactive.c:458-469 | a node changed at most once gets back its value from the beginning of the transaction |
| `ReactiveSteps.RollbackAfterTwoWrites` | src/reactive/reactive.c:458-469 | a node changed twice gets back the value between the writes, which is not its first |
| `ReactiveRollback.RollbackRestoresExactly` | src/reactive/reactive.c:458-469 | over any sequence of writes, a node gets back its value from before the last write that changed it, and its first value if and only if that was it or nothing changed it |
| `ReactiveRollback.VersionsCountChanges` | src/reactive/reactive.c:216-251 | over any sequence of writes a node's version grows by the number of writes that changed it, and a state node has the value written last |
| `ReactiveRollback.RolledBackSound` | src/reactive/reactive.c:458-469 | after a rollback the graph is consistent if and only if the clean nodes that read a changed node are up to date over the restored values |
| `ReactiveRollback.UndoneIsUpToDate` | src/reactive/reactive.c:458-469 | they are if all changed nodes come back to their first values and what read one was computed before the transaction began |
| `Rollbacks.WriteAndRollBack` | src/reactive/reactive.c:437-469 | a transaction of writes from its beginning to its rollback: which nodes come back, both directions, and consistency if all do |
| `Rollbacks.RollbackLeavesStale` | src/reactive/reactive.c:458-469 | a run that ends outside a transaction with a clean derived node that shows a value taken back |
| `ReactiveRollback.ForgottenSound` | src/reactive/reactive.c:437-440 | when noted changes are forgotten the graph is consistent if and only if the clean nodes that read one of them are up to date as they are |
| `Rollbacks.SecondBeginLeavesStale` | src/reactive/reactive.c:437-456 | a run with a second beginning and a commit that ends outside a transaction with a clean node that is behind |
| `Operations.Execute` | src/reactive/reactive.c:102-469 | any sequence of creations, reads, writes, beginnings, commits and rollbacks on a new runtime has the state values of a plain account of it; if formulas mention older nodes, no beginning forgets a change, and rollbacks of changes follow no read and bring every changed node back to its first value, it is consistent and every read outside a transaction was answered with the meaning at the time |
| `Operations.Perform` | src/reactive/reactive.c:102-469 | the same for one operation |
| `Operations.WorthSolves` | src/reactive/reactive.c:362-395 | computing the nodes in the order of their creation gives the meaning of a graph whose formulas mention older nodes |
| `Reactive.Runtime.constructor` | src/reactive/reactive.c:52-76 | an empty runtime at rest |
| `Reactive.Runtime.CreateNode` | src/reactive/reactive.c:102-149 | a new node keeps the invariant; a derived one starts dirty |
| `Reactive.Runtime.AddDep` | src/reactive/reactive.c:268-292 | edges stay mutual and without repetition |
| `Reactive.Runtime.RemoveDep` | src/reactive/reactive.c:294-316 | the edge goes from both sides, all others stay |
| `Reactive.Runtime.ClearDeps` | src/reactive/reactive.c:318-335 | all edges of the node go from both sides |
| `Reactive.Runtime.Get` | src/reactive/reactive.c:200-214 | a read inside a computation makes the edge; where reads are acyclic it answers with the meaning and leaves the node clean |
| `Reactive.Runtime.Recompute` | src/reactive/reactive.c:362-395 | the node ends clean on the dependencies read now; nodes clean before are as they were; nested computations end |
| `Reactive.Runtime.Compute` | src/reactive/reactive.c:362-395 | evaluating a formula reads exactly the nodes of the branches taken |
| `Reactive.Runtime.Query` | src/reactive/reactive.c:200-214 | outside a transaction every read of an acyclic graph answers with the meaning |
| `Reactive.Runtime.Set` | src/reactive/reactive.c:216-251 | every clean node is current afterwards, however long the queue; outside a transaction the queue is empty, and if it has room for the derived nodes that were clean all of them are clean again: those that rest on the changed node computed afresh exactly once, the others as they were; inside a transaction only the write is noted |
| `Reactive.Runtime.Invalidate` | src/reactive/reactive.c:341-360 | ends on cyclic graphs too; dirt spreads to all dependents and to nothing that does not rest on the node, and what falls is queued unless the queue is full |
| `Reactive.Runtime.Propagate` | src/reactive/reactive.c:397-431 | ends on cyclic graphs too, with the queue empty and everything queued computed |
| `Reactive.Runtime.Begin` | src/reactive/reactive.c:437-440 | starts a transaction with no changes, forgetting those of one that is open: the graph stays consistent if and only if the clean nodes that read a node changed so far are up to date |
| `Reactive.Runtime.Commit` | src/reactive/reactive.c:442-456 | the queue is empty afterwards and every clean node is current; if the queue has room for the derived nodes that were clean, all of them are clean again: those that rest on a changed node computed afresh exactly once, the others as they were |
| `Reactive.Runtime.Rollback` | src/reactive/reactive.c:458-469 | each changed node has its value from before its last change, the one from the beginning if and only if that was it; the graph is consistent if and only if the nodes that read a changed one are up to date |
| `Batching.BatchEqualsImmediate` | src/reactive/reactive.c:216-251 | at most 256 changing writes inside a transaction, and the same writes one by one, leave the same state values and versions on every graph, and the same meaning where formulas are layered |
| `Batching.WriteEach` | src/reactive/reactive.c:216-251 | any sequence of writes has the state values and versions of the writes on every graph, and keeps consistency where formulas are layered or a transaction is open |
| `Scheduler.EveryRunIsSafe` | src/scheduler/scheduler.c:165-304 | over every interleaving no task body runs twice and each runs after all its dependencies have completed |
| `Scheduler.WorkerStepSafe` | src/scheduler/scheduler.c:165-304 | each step of a worker keeps that |
| `SchedulerProgress.NoTaskIsLost` | src/scheduler/scheduler.c:257-300 | with enqueuing done, the queue empty and all workers idle, a task has completed if and only if its dependencies are acyclic |
| `SchedulerProgress.SomeoneCanMove` | src/scheduler/scheduler.c:165-304 | until then some thread can take a step |
| `SchedulerProgress.EveryRunEnds` | src/scheduler/scheduler.c:165-304 | every interleaving is finite, with a bound that the plan and the number of workers give |
| `SchedulerProgress.FinalRunCompletesAll` | src/scheduler/scheduler.c:428-451 | a run that cannot go on has completed every task with acyclic dependencies |
| `SchedulerExit.ExitTestIsExact` | src/scheduler/scheduler.c:439-447 | with the empty lists that the plan builds, the exit test passes if and only if every task has completed and is counted |
| `SchedulerExit.ExitTestIsSafe` | src/scheduler/scheduler.c:439-447 | where at most one task has dependencies, and it has all the others, the test passes only after every task has completed |
| `SchedulerExit.ExitTestCanPassEarly` | src/scheduler/scheduler.c:257-300 | over a chain of three tasks, which the builder never makes, the worker protocol has a run in which the test passes before the third has started |
| `Lexer.Scanner.NextToken` | src/lexer/lexer.c:221-289 | skips all the blanks and comments there are, then cuts off the longest token there is, of the kind that spells it; it advances unless at the end |
| `Lexer.Scanner.Tokenize` | src/lexer/lexer.c:221-289 | scanning ends; trivia and tokens laid end to end are the source, each as long as it can be; each token's line is one plus the newlines up to its end |
| `Lexer.Scanner.SkipWhitespace` | src/lexer/lexer.c:69-98 | only blanks and comments are skipped, and all of them |
| `Lexer.TriviaGoesNoFarther` | src/lexer/lexer.c:69-98 | where no blank and no comment begins, and comments skipped have come to the end of their lines, no longer text from the start is blanks and comments |
| `Lexer.Scanner.Identifier` | src/lexer/lexer.c:162-168 | the longest name, classified |
| `Lexer.Scanner.IdentifierType` | src/lexer/lexer.c:100-160 | the keyword table, by first letter and length |
| `Lexer.Scanner.Number` | src/lexer/lexer.c:170-185 | digits, and a point only before more digits |
| `Lexer.NumberIsLongest` | src/lexer/lexer.c:170-185 | where a number stops no longer text is a token: digits, or a point with a digit after it, would have gone on |
| `Lexer.Scanner.StringToken` | src/lexer/lexer.c:187-201 | up to the next quote, or an error up to the end of the source |
| `Lexer.Scanner.Symbol` | src/lexer/lexer.c:238-287 | the longest operator, or an error |
| `Grammar.ParserUndoesPrinter` | src/parser/parser.c:121-236 | parsing the minimally parenthesised tokens of a tree consumes exactly them and gives the tree, if and only if no text in it is empty |
| `Precedence.RowIsRead` | src/parser/parser.c:121-236 | a row of literals, names, negations, calls and rows in parentheses groups by the last of its loosest operators, the six classes being given, and its tokens are all that is consumed |
| `Precedence.ThreeOperands` | src/parser/parser.c:168-232 | `a p b q c` is `a p (b q c)` if `q` binds tighter than `p`, and `(a p b) q c` otherwise |
| `Grammar.ParserRequotes` | src/parser/parser.c:121-236 | for every tree: what comes back is the tree with two quotes in place of each empty text |
| `Grammar.EmptyTextKeepsItsQuotes` | src/parser/parser.c:132-138 | the smallest tree that does not come back |
| `Grammar.RequotedKeepsExactly` | src/parser/parser.c:132-138 | that is the tree itself exactly if it has no empty text |
| `Grammar.ShowThenLoop` | src/parser/parser.c:168-232 | a level has the printed expression in hand and goes on with its own operators |
| `Parser.ExpressionParser.Advance` | src/parser/parser.c:19-26 | the next token, and the error flag if it is an error token |
| `Parser.ExpressionParser.ParseFactor` | src/parser/parser.c:121-166 | literals, names, calls, negations and parentheses, as the grammar function says |
| `Parser.ExpressionParser.ParseTerm` | src/parser/parser.c:168-177 | left-associative products and quotients of factors |
| `Parser.ExpressionParser.ParseComparison` | src/parser/parser.c:190-199 | left-associative comparisons |
| `Parser.ExpressionParser.ParseExpression` | src/parser/parser.c:223-236 | any row of operands and operators is read as the classes of the operators group it |
| `FlowBuilder.Builder.BuildControlFlow` | src/graph/graph.c:582-844 | the nodes and edges made by walking a program are those of the specification |
| `FlowBuilder.Builder.Process` | src/graph/graph.c:595-828 | the same for one statement, with its entry and exit |
| `FlowBuilder.Builder.ProcessIf` | src/graph/graph.c:639-687 | condition, branches and merge node; `FlowEdges.DrawsExactlyWhenLabelled` says which branch each outcome leads to |
| `FlowBuilder.Builder.ProcessWhile` | src/graph/graph.c:688-725 | entry, test, body, back edge and exit |
| `FlowBuilder.Builder.ProcessFor` | src/graph/graph.c:726-784 | initialisation, entry, test, body, increment, back edge and exit |
| `FlowBuilder.Builder.ProcessBlock` | src/graph/graph.c:785-798 | statements in a row; one without an entry leaves the place of attachment as it was |
| `FlowBuilder.Builder.AddEdge` | src/graph/graph.c:180-225 | an edge only between two nodes that exist |
| `FlowPaths.GraphCoversEveryRun` | src/graph/graph.c:582-844 | for programs without functions, returns and empty blocks that begin with a let, print, if or while, the nodes a terminating run visits form a path |
| `FlowPaths.TopAlong` | src/graph/graph.c:831-842 | the same for every program whose statements are attached where they run |
| `FlowHooks.CoherentIsHooked` | src/graph/graph.c:595-828 | whether the builder attaches every statement where it runs can be told from the text |
| `FlowHooks.HookedProgramIsCovered` | src/graph/graph.c:831-842 | every terminating run of every program whose text hooks its statements is a path in its graph, branches and loops included |
| `FlowHooks.EmptyBeginningHasNoEntry` | src/graph/graph.c:785-798 | a block that begins with an empty block has no entry, and a statement with nodes in it is not hooked, whatever comes before |
| `FlowExact.CoveredExactlyWhenHooked` | src/graph/graph.c:595-798 | a run of a straight-line statement goes along the graph to the exit if and only if by its text every statement with nodes has an entry within its block |
| `FlowExact.ProgramCoveredExactlyWhenHooked` | src/graph/graph.c:831-842 | the same for whole straight-line programs, both directions |
| `FlowExact.NestedBarrenBeginningBreaksThePath` | src/graph/graph.c:785-798 | programs that begin with two nested blocks and a statement without a node: the run visits two nodes and there are no edges |
| `FlowExact.ProgramsWithMissedRuns` | src/graph/graph.c:785-842 | three programs whose finished runs are no paths: with an empty block, with an assignment, and with a declaration before the blocks |
| `FlowLabels.RunTakesItsSteps` | src/interpreter/interpreter.c:740-882 | each step of a finished run is one of the steps told from the text, under the label of the outcome that takes it: whether the condition held in the store at that moment, and going back to a test |
| `FlowLabels.FlowIsShapely` | src/graph/graph.c:639-784 | those steps stay within the statement, never leave its last node, and from each node there is at most one for a false condition and one for anything else |
| `FlowEdges.DrawsExactlyWhenLabelled` | src/graph/graph.c:595-828 | the builder draws every such step with its label, and ends where the runs end, if and only if the text is as `Labelled` says |
| `FlowEdges.TopDrawsExactlyWhenLabelled` | src/graph/graph.c:831-842 | the same for whole programs |
| `FlowOutcomes.RunsGoByTheirOutcomes` | src/graph/graph.c:582-844 | in such programs every step of every finished run goes over an edge labelled with the outcome that takes it |
| `FlowOutcomes.NoOtherEdges` | src/graph/graph.c:595-828 | a hooked program without functions and returns has no edge but those steps, steps out of a condition drawn once more for plain succession, and edges from a node to itself |
| `FlowSelfEdges.SelflessExactlyWhenPlain` | src/graph/graph.c:639-784 | there is no edge from a node to itself, but back to a test, if and only if every branch and every part of a loop that has an entry begins with a node |
| `FlowSelfEdges.NoStrayEdgesExactlyWhenPlain` | src/graph/graph.c:582-844 | in a hooked program without functions and returns every edge is a step that an outcome takes, or such a step out of a condition once more, if and only if that is so |
| `FlowSelfEdges.BranchesAreAttachedTwice` | src/graph/graph.c:651-657 | the way into a branch that begins with a node is drawn for its outcome and for plain succession |
| `FlowSelfEdges.BranchFromAnAssignment` | src/graph/graph.c:651-657 | all the edges of a conditional whose branch begins with an assignment: from the condition to itself where it holds, and not into the branch |
| `FlowSelfEdges.EmptyBranch` | src/graph/graph.c:668-677 | all the edges of a conditional with an empty branch: none where the condition holds |
| `FlowSelfEdges.CountingByAssignment` | src/graph/graph.c:762-770 | a `for` that counts by an assignment: every step is drawn with its outcome, and the last node of the body leads to itself besides |
| `Parallelism.CanParallelize` | src/vm/module_vm.c:217-245 | yes exactly if neither function writes what the other reads or writes |
| `Parallelism.TestJustifiesAnyOrder` | src/vm/module_vm.c:217-258 | if all functions pass pairwise, every permutation leaves the same variables |
| `Parallelism.Commute` | src/vm/module_vm.c:217-245 | two functions that pass can be swapped |
| `Parallelism.OrderCanMatter` | src/vm/module_vm.c:217-245 | where both write a variable, or one reads it and writes another, there are functions with those variables that cannot be swapped |
| `Parallelism.OrderCannotMatter` | src/vm/module_vm.c:217-245 | in all other pairs every two functions can be swapped |
| `Parallelism.ScheduleParallel` | src/vm/module_vm.c:247-258 | the functions run in the order of the list |
| `Allocators.AlignUpIsLeastMultiple` | src/sys/runtime.c:84-86 | the mask computes the least multiple of a power of two that is not below its input |
| `Allocators.BumpAllocator.Alloc` | src/sys/runtime.c:88-109 | in bounds, aligned, apart from all blocks since the reset, refused exactly when it does not fit |
| `Allocators.BumpAllocator.Reset` | src/sys/runtime.c:111-113 | nothing is handed out; the high-water mark stays |
| `Allocators.ChainedArena.constructor` | src/sys/runtime.c:119-138 | one empty block |
| `Allocators.ChainedArena.Alloc` | src/sys/runtime.c:140-183 | aligned and apart from all others, in the current block exactly if it fits there, else first in a new one |
| `Allocators.ChainedArena.Reset` | src/sys/runtime.c:185-200 | the first block stays, empty |
| `Allocators.ChainedArena.Accounting` | src/sys/runtime.c:140-200 | requested bytes, used bytes, block sizes and total never decrease in this order, across resets |
| `Allocators.TaskArena.Alloc` | src/utils/utils.c:58-71 | pointer-aligned, in bounds and apart from all others, refused exactly when it does not fit at the mark |
| `Allocators.TaskArena.Reset` | src/utils/utils.c:73-77 | empty again |
| `Growth.Vec.Push` | src/sys/runtime.c:329-342 | appends, keeps all earlier elements in order, and stays within the amortised bounds |
| `Growth.Vec.Grow` | src/sys/runtime.c:330-338 | doubles the capacity, or starts with eight, and copies every element once |
| `Growth.PushAll` | src/sys/runtime.c:316-342 | n pushes onto an empty vector copy fewer than 2n elements and take at most 4n + 8 slots |

## Left out

- Function calls, returns and recursion in the machine and the interpreter: the call and return opcodes only advance the program counter.
- Preservation.StmtPreserved: assignment has the meaning of a declaration, because the interpreter has no case for it (src/interpreter/interpreter.c:878); expressions with calls and release marks are excluded.
- Correctness.CompilationPreservesMeaning: programs on which the interpreter meets an operator outside the shared fragment are excluded, since the two engines differ there; where is stated by Values.EnginesAgreeExactlyOnAgreeable.
- Interpreter.AgreementIsDefined: what the interpreter reads out of a boolean under `+` is left undefined, as in the code.
- Loops in the interpreter carry a bound on their rounds; the theorems quantify over all bounds.
- Compiler.Compiler.CompileStatement: function declarations emit nothing here, as they emit no code in the source; the registration of functions is not modelled.
- Machine.Vm.Step: printing is an output sequence of values; profiling, the heat map, native code and the diagnostic line of the release opcode are not modelled.
- Machine.Vm.ChainSet: the frames are held as one value in a field, so aliasing of frames is not captured.
- TypeChecker.SilenceIsSound: identifiers and calls have no known type in the checker, so the claim is for expressions without them; nor has a missing operand, and there TypeChecker.SilenceIsSoundExactlyWhenKindsFit says when the claim holds; statements and annotations are not modelled.
- Ssa.AnnotatedLastUsesAreLast: straight-line code only; beyond it the claim is false (ReleaseBlindSpots.NegatedUseIsNoticed, ReleaseBlindSpots.ConditionalUseIsNoticed, ReleaseBlindSpots.LoopReleaseIsNoticed).
- Release.ReleasesAreInvisible: the condition on loads is sufficient; a load that does find its variable released is still not noticed where the variable held nil or where nothing printed depends on it.  Programs with more than 256 names are excluded, since there a release can make room that the other run lacks (ReleaseOverflows.OverfullIsNoticed).
- Reactive effects, when-blocks, triggers, disposal and collection: they do not keep the invariant.
- Operations.Execute: consistency after a rollback that follows a read inside its transaction is left to Reactive.Runtime.Rollback, which says exactly when it holds.
- Reactive.Runtime.Set: the 257th change of a transaction is excluded by a precondition, since src/reactive/reactive.c:237 writes it past the end of an array of 256 entries without a check; change callbacks, timestamps and user equality are not modelled.
- Reactive.Runtime.Recompute: a compute function is an expression over node reads with a conditional.
- Scheduler.WorkerStepSafe: a task body is one step; shutdown, statistics, native code and the conflict heuristics are not modelled.
- FlowLabels.RunTakesItsSteps: functions and returns are excluded; a loop without nodes in it goes back to its test at once, by one edge.
- Parallelism.RefusedExactly: that the test refuses such pairs is the code's choice; the order does not matter for them.
- Lexer.Scanner.NextToken: an error token carries the text it stands for in place of a message, and the end token carries no text.
- Parser.ExpressionParser.ParseExpression: tokens come from a sequence; statements, types, annotations and error messages are not modelled.
- FlowBuilder.Builder.AddEdge: the result is stated on edges as a relation, so their order and repetitions are not; node names and labels for export are not modelled.
- FlowPaths.GraphCoversEveryRun: functions and returns are excluded.
- FlowExact.CoveredExactlyWhenHooked: with branches and loops only one direction is proved (FlowHooks.HookedProgramIsCovered), since a badly attached statement that never runs does no harm.
- SchedulerExit.ExitTestIsSafe: the converse, that every other plan has a run with an early exit, is not proved.
- Parallelism.TestJustifiesAnyOrder: a function is its two access lists and an effect that respects them.
- Allocators.ChainedArena.constructor: a block size below the size of a header, for which the source's subtraction wraps around, is excluded by a precondition.
- Allocators.ChainedArena.Alloc: exhaustion of memory and wrap-around of sizes are not modelled; the contents of blocks are not either.
- Growth.Vec.Push: growable strings, popping and indexing are not modelled.
- Module cache, sockets, cluster, file formats, just-in-time compilation, debuggers, command line and the optimiser passes that change nothing.
