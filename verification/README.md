# The front end and compile-time interpreter of `eval`, verified

This project models the part of the `eval` compiler that turns source text into values at
compile time, and proves it right: the expression parser, the flat AST pool, name resolution with
closure conversion, the bytecode compiler, the stack interpreter, the compile-time heap, the
on-demand evaluation of globals, the completion of impls and the layout of the memory reservation.
`dafny verify dfyconfig.toml` checks everything.

Where the source works in place, the model does: `AstPool`, the iterators, `OpcodePool`,
`Interpreter`, `LexicalAnalyser`, `ScopeMap`, `CompHeap`, `ExprParser` with its `OperatorStack` and
`GlobalInterpreter` are classes over arrays and sequences. Every method is tied to a
function or relation on values, and the main theorems are about those.

| component | files | main results |
|---|---|---|
| AST pool | `Ast*.dfy`, `TreeBuilder` | `CompleteAst`, `PostorderIsPushOrder`, `FlatMatchesPreorder` |
| bytecode compiler and interpreter | `Lang`, `Machine`, `Coding`, `Refilling`, `Emission*`, `Emitter`, `Acceptance`, `Accounting`, `Exactness`, `Segments`, `Worklist`, `OpcodePool`, `Relation`, `Steps`, `Blocks`, `Calls`, `Simulation`, `Definedness`, `Operations`, `Correctness`, `Interpreter`, `Evaluation`, `Miscounting`, `Failures` | `Simulate`, `MachineStops`, `EvalDefined`, `CountedExactly`, `CompleteFixups` |
| name resolution | `Named`, `Resolve`, `Closures`, `Conversion`, `Preservation`, `Ranges`, `Naming`, `Resolvability`, `LexicalAnalyser`, `ScopeMap`, `Toolchain` | `Preserve`, `ResolvedExactly`, `RunText` |
| compile-time heap | `HeapBlocks`, `HeapSpace`, `HeapSweep`, `CompHeap`, `HeapDefects` | `AllocInternal`, `GcEnd`, `GlobalMemberType` |
| expression parser | `Operators`, `ExprText`, `ExprRoundTrip`, `ExprPrinter`, `ExprSources`, `ExprFuture`, `ExprAgreement`, `ExprNecessity`, `OperatorNames`, `ExprLevels`, `ExprAccepted`, `Partition`, `ExprParser`, `Frontend` | `ParsedAsMeant`, `InfixGrouped`, `AcceptParse` |
| globals, impls, layout | `Globals`, `Demand`, `GlobalMeaning`, `GlobalRuns`, `GlobalInterpreter`, `ImplMerge`, `MemoryLayout` | `DemandIsMeaning`, `ProgramMeans`, `CompleteImpl`, `PlaceRanges` |

`Basics` and `Rounding` hold what several of them share.

How to read the results about the compiler: `Lang.Eval` gives resolved expressions a meaning with
places and temporaries, as loads in the interpreter push places; its bound on nested iterations
and calls makes it total, and the theorems quantify over all bounds. `Undefined` is the behaviour
of programs with addresses that lead nowhere, or with a block whose value is a place of its own
scope; `Definedness` gives a condition on the expression under which it cannot occur, and `Ranges`
shows that resolution meets the part of it that is about addresses.
The compiler tracks depths of values and write contexts instead of types, and is not always right
about them. `Emitter` says what it emits for every expression; `Coding.Sound` is a condition on the
expression under which its accounting is right, and `CountedExactly` shows that it is the exact one.
`Simulate` and what follows from it are about such expressions, as two defects below show that the
others may be compiled into code that fails.

`Named.NEval` is the reference for names: a function copies the values that are visible when it is
created, so no addresses occur in it.

The code decides where it disagrees with its comments. The comment at `core/parse.cpp:292-300`
calls the flag of the operator table right-associativity; set, it makes an operator pop its
equals, which is left-associativity, and the model follows the behaviour.

Defects of the source that the model keeps, with the members that show them on an input and those
that say when they occur:

| defect | input | condition |
|---|---|---|
| the header of an aligned allocation lies in padding that is on a free list | `CompHeaps.PaddedMember` | `AllocInternal` |
| begin bits and marks behind the pages a collection covers stay | `CompHeaps.StaleBegin` | `GcEnd`, `BeginsSwept`, `MarksLeft` |
| header bits of collected members stay | `CollectedMembers`, `StaleHeader` | `GcEnd`, `HeadersSwept`, `AllocGlobalMember` |
| empty members of a global are marked wrongly | `EmptyMember`, `LastMember` | `GcMark` |
| a collection of a heap without a free slot moves `used` beyond the heap | `FullHeap`, `BehindTheEnd` | `GcEnd` |
| blocks inside another write context or behind an open value | `MiscountedBlock`, `CompileMiscounted` | `OpcodesFromBlock`, `CountedExactly` |
| branches of a conditional that leave no value where one is taken for granted | `ValuelessBranch`, `CompileValueless` | `CompleteFixup`, `CountedExactly` |
| operands, conditions and values of definitions that leave no value | `ValuelessOperand`, `CompileOperandless` | `CountedExactly` |
| a block whose value is a place of its own scope | `EscapedPlace`, `EscapedOperand`, `RunUntidy` | sufficient: `EvalDefined` |
| the assertion about the depth of the postorder iterator admits one level too many | `ChainOverruns` | `OverrunExactly`, `PostorderVisitsAll` |
| runs of `.&` and `.*` come out in reverse | `x.&.*` (`PostfixRun`) | `PostfixRun` |
| `eval`, `try` and `defer` behind a tighter operator | `TightEval` | `PrefixOperand`, `ParsedAsMeant` |
| a parenthesis that is not closed is accepted | `UnclosedParen` | `AcceptParse` |
| temporary data of untyped globals stays | `UntypedLeaves` | `GlobalLoad`, `LeftNothing` |
| the error named for an unexpected impl member | `MisleadingInput` | `MisleadingMissing` |
| the order of odd-sized memory ranges | `OddSizes` | `PlaceRanges`, `LosesExactly` |

## Model

| member | source | states |
|---|---|---|
| AstPool.AstPool.CompleteAst | core/ast_pool.cpp:416-429 | The whole conversion, in place: a builder that holds the postorder of any tree ends as exactly the preorder layout of that tree behind the nodes stored before (attachments, sources, first/last/no-children marks, subtree sizes); it panics if and only if more than `MAX_AST_DEPTH` sibling lists are open at once |
| AstPool.AstPool.PushNode | core/ast_pool.cpp:378-414 | A push appends one record at the returned token, with the first child as link and without sibling marks, and leaves everything before it alone |
| AstPool.AstPool.SetFlags | core/ast_pool.cpp:36-73 | The first pass turns the raw postorder layout of a tree into the flagged layout of the same tree |
| AstFlags.FlagWhole | core/ast_pool.cpp:36-73 | Afterwards exactly the first and the last child of every node carry their marks, and the root, marked last, carries both; the assertions of the pass hold |
| AstPool.AstPool.BuildTraversalList | core/ast_pool.cpp:76-158 | The second pass turns the flagged layout into the threaded layout of the same tree and returns the root, or panics |
| AstThreading.ThreadWhole | core/ast_pool.cpp:76-158 | The pass panics exactly when the tree opens more sibling lists than the index stack has entries; otherwise the index stack ends empty |
| AstThreading.ThreadedIsChained | core/ast_pool.cpp:76-158 | The reused offset field is one list that leads through the nodes in preorder |
| AstThreading.PreorderDistinct | core/ast_pool.cpp:76-158 | No node occurs twice on that list, so it is acyclic |
| AstThreading.PreorderCoversHeaders | core/ast_pool.cpp:76-158 | Every node of the builder occurs on that list |
| Ast.OpenListsBelowHeight | core/ast_pool.cpp:104-118 | A tree never has as many open sibling lists as levels, so the height bound implies that the panic cannot happen |
| Ast.ChainHasNoOpenLists | core/ast_pool.cpp:113-113 | The converse fails: the panic counts open lists only, and a chain of any height has none |
| AstPool.AstPool.CopyPostorderToPreorder | core/ast_pool.cpp:162-249 | The third pass, following the list with its own index stack, stores the tree in preorder with subtree sizes and its sources beside it |
| AstCopy.CopyWhole | core/ast_pool.cpp:162-249 | Its index stack, indexed by true depth, suffices exactly for trees of at most `MAX_AST_DEPTH` levels; then the copy and the final draining of the stack give the preorder layout |
| AstCopy.CopySources | core/ast_pool.cpp:162-249 | Every source arrives at the preorder index of its node |
| TreeBuilder.PushTree | core/ast_pool.cpp:378-414 | Pushing the children from left to right and then the node, with the token of its first child, leaves the postorder layout of the tree behind what the builder held |
| TreeBuilder.PushAndComplete | core/ast_pool.cpp:378-429 | Any tree that fits, its nodes pushed one by one in postorder into an empty builder and completed, is stored in preorder behind what the pool held; the conversion panics exactly for too many open sibling lists |
| Ast.StoredUnique | core/ast_pool.cpp:162-249 | The preorder layout of a tree fixes every cell of its range |
| AstIterators.PreorderVisitsAll | core/ast_pool.cpp:478-543 | The preorder iterator hands out every descendant once, in preorder, with its true depth, and is then exhausted; it stays within its stack exactly up to the depth bound |
| AstIterators.PostorderVisitsAll | core/ast_pool.cpp:546-608 | The postorder iterator hands out every descendant once, in postorder, with its true depth, and is then exhausted; it stays within its array if and only if there are at most `MAX_AST_DEPTH` levels below the node |
| AstIterators.OverrunExactly | core/ast_pool.cpp:546-563 | The assertion of the first descent stands before the depth is increased, so it admits one level more than the array has: the descent writes behind its array, with all assertions holding, if and only if the path of first children is `MAX_AST_DEPTH + 1` long |
| AstIterators.ChainOverruns | core/ast_pool.cpp:546-563 | An input: the descendants of the first of `MAX_AST_DEPTH + 2` nodes in a chain |
| AstIterators.PostorderIsPushOrder | core/ast_pool.cpp:546-608 | Round trip: on a completed tree the postorder iterator followed by the root gives the nodes in the order in which they were pushed |
| AstIterators.FlatMatchesPreorder | core/ast_pool.cpp:611-630 | The flat iterator hands out the start and then the same nodes in the same order as the preorder iterator, and ends at the end of the subtree |
| AstIterators.DescendantsAreSubtree | core/ast_pool.cpp:347-350 | `is_descendant_of` holds exactly for the nodes of the subtree, the root included |
| AstWalk.PreorderIterator.Next | core/ast_pool.cpp:498-538 | One step of the iterator object, with its fields changed in place, is one step of the walk the lemmas speak about |
| AstWalk.CollectPreorder | core/ast_pool.cpp:478-543 | Running the iterator object to its end collects the preorder of the descendants |
| AstWalk.PostorderIterator.Next | core/ast_pool.cpp:567-603 | One step of the postorder iterator object is one step of the postorder walk |
| Simulation.Simulate | core/opcode_pool.cpp:1204-2465 | Compiler correctness, in both modes and for every expression of the fragment from any machine state in the relation: running the emitted code ends just behind it with the value pushed, or stored through the consumed top write context, all other stacks and the activations as before and the variables of both sides still related; an error is reported where the evaluation fails, and a bounded evaluation that is cut off corresponds to at least that many instructions |
| Correctness.ProgramHalts | core/opcode_pool.cpp:2904-2966 | If the evaluation of a compiled program ends, the machine halts with that value as the only thing on its stacks |
| Correctness.ProgramFaults | core/interpreter.cpp:6603-6660 | If the evaluation fails, the machine stops with an error |
| Correctness.ProgramGoesOn | core/interpreter.cpp:6603-6660 | If the evaluation has not ended within a bound on nested iterations and calls, the machine is still running after as many instructions |
| Correctness.MachineStops | core/interpreter.cpp:6603-6660 | Conversely, whenever the machine stops, the evaluation ends the same way, with the same value or with an error; for expressions that are not safe it may instead be undefined |
| Correctness.NeverStuck | core/interpreter.cpp:2147-2470 | No assertion of a handler (operand counts, kinds of values, addresses in range) is violated in any run of a compiled program that is safe: addresses in range, no loop where a value is stored, no block for a value that may leave a place of its own scope |
| Definedness.EvalDefined | core/interpreter.cpp:2214-2245 | A safe expression is defined from every environment of its shape, for every bound: it keeps the number and types of all variables, leaves a place only of a scope that is still open, and delivers a value of the type its context asks for |
| Definedness.UntidyUndefined | core/interpreter.cpp:2214-2245 | The condition on blocks is needed for the meaning: the value of `{ let x = n; x }` is a place whose scope is gone |
| Failures.EscapedPlace | core/interpreter.cpp:2214-2245 | And for the machine: only temporaries are moved when a scope ends, so the compiled block `{ let x = n; x }` halts with the place of a variable that no longer exists |
| Failures.EscapedOperand | core/interpreter.cpp:2214-2245 | Whoever uses that place violates an assertion, as the compiled `-{ let x = n; x }` does |
| Failures.RunUntidy | core/interpreter.cpp:2214-2245 | Both are compiled without any assertion failing, and run to these ends |
| Correctness.Compile | core/opcode_pool.cpp:2904-2966 | Every expression is compiled unless a loop stands where a value is stored or a block ends in a definition, and into what `Emitter` says; where the accounting is right (`Sound`), no assertion of the compiler fails and the result is a program the theorems above apply to |
| Failures.MiscountedBlock | core/opcode_pool.cpp:1535-1537 | The test on the absolute number of open write contexts is wrong inside another write context: the body `x = { 1 }` of a function without result, which has a meaning, ends with an instruction that finds no write context |
| Miscounting.CompileMiscounted | core/opcode_pool.cpp:1482-1548 | The compiler emits just that code for this body, and its own assertion that no depth is negative fails behind the last instruction that stores |
| Failures.ValuelessBranch | core/opcode_pool.cpp:2636-2660 | The branches of a conditional need not leave a value, but one is discarded behind it: `{ mut x = 1; if 1 == 1 then x = 2 else x = 3; 5 }` is safe, accepted and has a meaning, and its code violates an assertion of the interpreter |
| Miscounting.CompileValueless | core/opcode_pool.cpp:1549-1600 | The compiler emits just that code for this block; its assertion that such a branch leaves one value fails |
| Failures.ValuelessOperand | core/opcode_pool.cpp:2385-2403 | Nor need operands leave a value: evaluating `{ mut x = 1; -(x = 2) }` is an error, but its code violates an assertion of the interpreter instead of reporting it |
| Miscounting.CompileOperandless | core/opcode_pool.cpp:1523-1531 | The compiler emits just that code for this block, and none of its assertions fails |
| Exactness.CountedExactly | core/opcode_pool.cpp:1204-2465 | The exact condition: emission goes through and every operand, condition, callee, type and definition value leaves one value, every stored value uses up its write context, every block and every branch ends at the depths its context takes for granted, if and only if the expression is `Sound` and accepted |
| OpcodePools.OpcodePool.OpcodesFromExpression | core/opcode_pool.cpp:1204-2530 | In place, emission does what `ExprFrom` says, for every expression; where the accounting is right, that appends the code of the expression, changes the tracked depths by exactly its net effect, fails no assertion, and stops only for expressions that are not accepted |
| OpcodePools.OpcodePool.OpcodesFromBlock | core/opcode_pool.cpp:1482-1548 | A block opens a scope, emits its items and the tail its absolute tests choose; that is right exactly when the block finds the depths those tests expect (no other open value or write context); otherwise the value of an empty block is missing, or one `ValueVoid` too many is emitted, and no assertion of the block itself fails |
| OpcodePools.OpcodePool.OpcodesFromOpSet | core/opcode_pool.cpp:2405-2465 | The target is duplicated to a write context before the operand is compiled, and the operator stores through it |
| OpcodePools.OpcodePool.OpcodesFromFor | core/opcode_pool.cpp:1602-1653 | A loop emits its condition and a hole for the body, and is refused where a value is to be stored |
| OpcodePools.OpcodePool.OpcodesFromSet | core/opcode_pool.cpp:2385-2403 | The target is compiled first and becomes the write context the value is compiled into |
| OpcodePools.OpcodePool.OpcodesFromIfElse | core/opcode_pool.cpp:1549-1600 | A condition and two holes, filled later with branches in the mode of the whole; this is right whatever the branches are |
| OpcodePools.OpcodePool.OpcodesFromFunc | core/opcode_pool.cpp:1655-1688 | Signature, captured values in order, and a hole for the body that knows whether there is a closure |
| OpcodePools.OpcodePool.OpcodesFromCall | core/opcode_pool.cpp:2069-2082 | The callee, then one hole per argument, in order, and the call in the mode of the whole |
| OpcodePools.OpcodePool.EmitClosureValues | core/opcode_pool.cpp:782-793 | One load for each captured value, in the order of the closure list |
| OpcodePools.OpcodePool.EmitOpcode | core/opcode_pool.cpp:584-605 | An instruction is appended, all four tracked depths change by its table entry, and it is recorded whether the assertion behind it holds, that no depth becomes negative |
| OpcodePools.OpcodePool.CompleteFixup | core/opcode_pool.cpp:2532-2832 | Completing a segment from depth zero emits the code of its kind and ends at depth zero; a branch of a conditional gets its code in any case, and ends at depth zero, with the assertion behind it satisfied, exactly when there is a write context or it leaves a value |
| OpcodePools.OpcodePool.CompleteLastFixup | core/opcode_pool.cpp:2840-2860 | The hole taken from the worklist is patched with the address of the segment compiled next, from depth zero |
| OpcodePools.OpcodePool.CompleteFixups | core/opcode_pool.cpp:2834-2863 | For every expression the worklist ends; then no operand of the code lacks its address, every hole was patched once with the start of its own segment, and the segments fill the code one behind the other, each ending in an instruction that leaves it; where all deferred segments are sound, they hold the code of their expressions |
| OpcodePools.OpcodePool.OpcodesFromValue | core/opcode_pool.cpp:2904-2966 | Compiling a value succeeds exactly for accepted expressions in which no block ends in a definition, names a reason that holds where it stops, and leaves contiguous segments behind the code emitted before and no operand without its address; where the accounting is right, the code is that of the expression and no assertion fails |
| Acceptance.ValueDone | core/opcode_pool.cpp:2904-2966 | Whether an expression is compiled does not depend on the accounting: only on loops where a value is stored and on blocks that end in a definition |
| Accounting.ExprSpec | core/opcode_pool.cpp:1204-2530 | From a state in which no assertion has failed, emitting a sound expression leads to such a state again, with its code appended and its net effect on the depths |
| Accounting.BlockExact | core/opcode_pool.cpp:1482-1548 | The tests on absolute depths at the end of a block decide rightly if and only if they fit |
| Segments.BranchSpec | core/opcode_pool.cpp:2636-2660 | The assertion behind a branch of a conditional holds if and only if there is a write context or the branch leaves a value |
| Worklist.FixupsTiled | core/opcode_pool.cpp:2834-2863 | From any worklist that lists the open holes, each hole is patched once, with the start of its own segment, and in the end no operand of the code lacks its address |
| Worklist.FixupsSpec | core/opcode_pool.cpp:2834-2863 | Where everything deferred is sound, the finished segments hold the code of their expressions, and the work fails only at a loop where a value is stored |
| Emission.EffectsExact | core/opcode_pool.cpp:176-549 | For every instruction that does not transfer control, the effects table is what one step of the interpreter does to the numbers of values, scopes, write contexts and closures |
| Emission.BranchExact | core/opcode_pool.cpp:176-549 | For branches and the end of a segment the table is what the instruction does at once together with what the branch of a conditional leaves behind it |
| Interpreters.Interpreter.InterpretOpcodes | core/interpreter.cpp:6603-6660 | The interpreter object, whose handlers change its stacks in place, runs as the step function does |
| Interpreters.Interpreter.Dispatch | core/interpreter.cpp:6447-6601 | Every opcode is handled by the handler of its name, with the popped write context passed on |
| Interpreters.Interpreter.PushLocationValue | core/interpreter.cpp:253-265 | Without a write context the location itself is pushed; with one, its current value is stored there |
| Interpreters.Interpreter.PushTemporaryValue | core/interpreter.cpp:267-281 | Without a write context the value is pushed as a new temporary; with one, it is stored there, if the types agree |
| Interpreters.Interpreter.PopScope | core/interpreter.cpp:1401-1421 | The innermost scope, its members and its data go; with `preserve_top` a temporary of the scope on top of the stack is moved down first |
| Interpreters.Interpreter.HandleLoad | core/interpreter.cpp:2455-2480 | Loads push places, not copies: of a member of the scope `out` levels up, of a closure, or of a global |
| Interpreters.Interpreter.HandleBindBody | core/interpreter.cpp:3085-3134 | The closure gets the captured values in order |
| Interpreters.Interpreter.HandleCall | core/interpreter.cpp:3432-3550 | The callee gets the argument scope, its closure if it has one, and the place of its result as write context |
| Interpreters.Interpreter.HandleReturn | core/interpreter.cpp:3552-3575 | Everything the call opened goes, and control returns behind the call |
| Interpreters.Interpreter.Branch | core/interpreter.cpp:4173-4277 | Branches and loop bodies run as activations: the place to come back to is pushed before the jump |
| Evaluation.EvaluateExpression | core/interpreter.cpp:7610-7636 | Compiling and running an expression, for every expression; where the accounting of the compiler is right and the run ends, it ends as the evaluation does, which for safe expressions is defined; the run of an operator applies it, in the sense of `Operations`, to the values of its operands |
| Operations.BinaryExact | core/interpreter.cpp:4703-5436 | A binary operator gives what it means and nothing else: sums and differences that undo each other, repeated addition, quotients and remainders toward zero with an error exactly for the divisor zero, the orders by which of two numbers is less, equality of values of one type, truth tables; it is an error on all other operands |
| Operations.UnaryExact | core/interpreter.cpp:5359-5557 | A unary operator likewise: the number that cancels the operand, the operand, the other truth value |
| Operations.BinaryEvaluated | core/interpreter.cpp:4703-5436 | In every environment and for every mode, a binary expression whose operands have values delivers what its operator means for them |
| Operations.UnaryEvaluated | core/interpreter.cpp:5359-5557 | The same for unary expressions |
| Operations.NBinaryEvaluated | core/interpreter.cpp:4703-5436 | The same before names are resolved |
| Operations.GlobalEvaluated | core/interpreter.cpp:2482-2511 | A global that is used stands for its content and cannot be assigned to |
| Operations.TypesTell | core/interpreter.cpp:4713-4720 | The type by which operands are dispatched tells what kind of value they are |
| Preservation.Preserve | core/lexical_analyser.cpp:642-972 | Closure conversion preserves meaning, for every expression, through any nesting of functions and blocks: evaluating the resolved expression with addresses and copied closure values ends as evaluating the named expression does in the environment its names stand for, captured by value, with related values and environments |
| Toolchain.ResolutionPreserves | core/lexical_analyser.cpp:974-1037 | For whole programs: a resolved text means what the text means |
| Closures.ExprSteady | core/lexical_analyser.cpp:642-972 | Resolution only adds captures at the end of closures, keeps all scopes otherwise as they were, and never changes the rank of a capture |
| Ranges.ResolvedInRange | core/lexical_analyser.cpp:642-972 | All addresses that resolution produces lead to something: ranks are below the number of members defined so far, closure slots below the final length of the closure list, captures to members of the scopes around the function |
| LexicalAnalysers.LexicalAnalyser.ResolveIdentifier | core/lexical_analyser.cpp:652-748 | The search from the inside out finds the innermost definition; a function in between makes it a capture with a rank in the innermost closure; it is rejected if and only if the name is neither in sight nor global, or used in its own definition. The last is a restriction: in its own value the source flags such a use and resolves it |
| LexicalAnalysers.LexicalAnalyser.AddNameToClosures | core/lexical_analyser.cpp:425-475 | Every function between the definition and the use gets one entry, whose source is the entry of the next function outwards or, at the outermost, the definition itself; an entry found already there is for the same definition, so the assertion of the source holds |
| LexicalAnalysers.LexicalAnalyser.ClosureList | core/lexical_analyser.cpp:383-423 | Whatever hash slots the entries of a closure are in, each is written to its rank, relative to the scope around the function |
| LexicalAnalysers.LexicalAnalyser.ResolveNames | core/lexical_analyser.cpp:642-972 | The analyser object, with its scope stack, resolves exactly as the specification does, and fails if and only if the text has a fault: a name that is neither in sight nor global, a name used in its own definition, a second definition in one scope, or a type in a signature that is not global; definitions that use their own name and types in signatures that are no globals are rejected here |
| Resolvability.ResolvedExactly | core/lexical_analyser.cpp:642-972 | A whole text is resolved if and only if it has no fault, said without addresses, closures or an analyser, and otherwise the first fault in the order of the text is reported |
| Resolvability.ExprFollows | core/lexical_analyser.cpp:642-972 | The same in any open scopes: resolution follows the list of everything that is wrong with the names of an expression, given what is in sight |
| Resolvability.SignatureFollows | core/lexical_analyser.cpp:786-860 | The same for parameters and the types of a signature |
| Named.World.Index | core/lexical_analyser.cpp:709-722 | A global has the rank of its name among those of the prelude and the file, and a name of the file hides one of the prelude |
| LexicalAnalysers.LexicalAnalyser.BeginDefinition | core/lexical_analyser.cpp:317-334 | A definition is entered into its scope before its parts are resolved, and refused if and only if the scope has the name already |
| ScopeMaps.ScopeMap.Get | core/lexical_analyser.cpp:259-315 | Open addressing finds a name exactly if the map has it, with its entry |
| ScopeMaps.ScopeMap.FindSlot | core/lexical_analyser.cpp:152-209 | Probing ends, because a free slot remains, at the slot of the name or at the first free one |
| ScopeMaps.ScopeMap.AddNoGrow | core/lexical_analyser.cpp:152-209 | A new name extends the map by one entry; a duplicate is reported and leaves the table as it was |
| ScopeMaps.ScopeMap.Grow | core/lexical_analyser.cpp:211-246 | A table of twice the size with the same entries |
| ScopeMaps.ScopeMap.Add | core/lexical_analyser.cpp:317-334 | Adding refines the map: growth, duplicates and the limit of 2^15 definitions included |
| ScopeMaps.Insert | core/lexical_analyser.cpp:152-209 | Taking the first free slot of a probe sequence keeps every entry reachable from its home |
| Toolchain.TextStops | core/interpreter.cpp:6603-6660 | When the compiled program of a resolved text stops, the text has that meaning; it has one unless a block for a value may leave a place of its own scope |
| Toolchain.SameData | core/interpreter.cpp:6603-6660 | Numbers and truth values arrive unchanged on the value stack |
| Toolchain.RunText | core/interpreter.cpp:7610-7636 | End to end: resolution, emission and interpretation of a text; where the accounting of the compiler is right, that gives its named, captured-by-value meaning, which is defined for every accepted text whose blocks for a value leave no place of their own scope. It is rejected if and only if something is wrong with its names (`WellNamed`) |
| CompHeaps.CompHeap.AddToFreelist | core/comp_heap.cpp:20-68 | A range is cut into one block per set bit of its size and the rest into largest blocks, linked through the first word of each block; memory outside the range is not written |
| HeapBlocks.CarveOwners | core/comp_heap.cpp:20-68 | Conservation: the new blocks cover the range exactly once, and no other slot gains or loses an owner |
| HeapBlocks.CarveSizes | core/comp_heap.cpp:20-68 | A block on list i has 2^i slots of 16 bytes; only the last list also holds blocks of twice that size |
| HeapBlocks.ChainsPush | core/comp_heap.cpp:20-68 | Linking a block of unowned memory leaves all lists intact |
| HeapBlocks.Acyclic | core/comp_heap.cpp:20-68 | No two blocks of a list start at the same slot, so no list can run into itself |
| CompHeaps.CompHeap.TakeFree | core/comp_heap.cpp:143-168 | A block leaves its list and becomes the allocation; of two slots the one not needed goes back; every slot keeps exactly one owner |
| CompHeaps.CompHeap.Bump | core/comp_heap.cpp:170-190 | The bump path: fails only beyond the reservation; padding goes to the free lists |
| CompHeaps.CompHeap.AllocInternal | core/comp_heap.cpp:130-191 | Small allocations take the head of the list for their size, all others the least aligned bytes behind everything in use, and they fail only where these end behind the reservation. The slots of an allocation have room for its bytes and none to spare; allocations, free blocks and slot 0 stay pairwise disjoint and below `used`, the result is aligned, no slot below the old `used` is lost and every new one has one owner, if and only if it is not the case that an allocation with a header had to be padded |
| HeapSpace.BumpedExactly | core/comp_heap.cpp:168-191 | Counting in slots is counting in bytes: aligned begin, rounded end and the test against the reservation are those of the source |
| HeapSpace.RequestsApart | core/comp_heap.cpp:130-191 | No byte belongs to two allocations, whatever was asked for |
| CompHeaps.PaddedMember | core/comp_heap.cpp:183-188 | The failing case exists: after one slot, allocating a member with 32-byte alignment puts its header inside the padding that goes to the free lists |
| HeapSpace.SpaceBumped | core/comp_heap.cpp:170-190 | Exactly then the header slot is owned by a free block and by the allocation |
| CompHeaps.CompHeap.AllocGlobalMember | core/comp_heap.cpp:335-351 | As above, and the header records the type of the member; the assertion that its header bit is clear holds if and only if it is, which it is as long as header bits are exact |
| CompHeaps.CompHeap.Dealloc | core/comp_heap.cpp:403-428 | The last allocation lowers `used`, any other goes to the free lists with all its slots; the assertions hold if and only if the header bit is clear and the allocation is the last or a multiple of a slot |
| CompHeaps.CompHeap.FindHeader | core/comp_heap.cpp:193-226 | The scan, 64 slots at a time, finds the greatest start not above the address |
| HeapSpace.InteriorStart | core/comp_heap.cpp:193-226 | That start is the start of the allocation the address lies in |
| CompHeaps.CompHeap.GlobalMemberType | core/comp_heap.cpp:353-361 | For every address inside an allocation with a header the type is the one stored at allocation, also after collections |
| CompHeaps.CompHeap.FindNoHeader | core/comp_heap.cpp:193-226 | Inside an allocation without a header none is found, as long as header bits are exact |
| CompHeaps.CompHeap.GcBegin | core/comp_heap.cpp:432-457 | Slot 0 and the sentinel are marked and the free lists forgotten; the marks are exact for nothing kept if and only if none are left from an earlier collection |
| CompHeaps.CompHeap.GcMark | core/comp_heap.cpp:459-497 | Marks the slots of the allocation with its header and reports whether it is new, except for an empty member of a global whose address, the slot behind its header, is marked or begins another allocation; then that slot is marked and nothing kept. An address behind everything in use is that of the sentinel, so it is marked already |
| CompHeaps.CompHeap.GcEnd | core/comp_heap.cpp:499-572 | Every slot that was in use is either marked or in exactly one free block; the dead runs are maximal before they are cut; marked memory is not written; `used` grows by the sentinel. The begin bits that survive are exactly those of marked allocations if and only if no dead allocation starts behind the slots the page-rounded loop covers, and the marks are all cleared if and only if the loop covers the sentinel; header bits stay exact if and only if every typed allocation was marked. In a heap that is used completely `used` moves beyond its end, and then only |
| HeapSweep.SweptAll | core/comp_heap.cpp:522-555 | Conservation of the sweep, slot by slot |
| HeapSweep.BeginsSwept | core/comp_heap.cpp:503-514 | Starts survive the conjunction with the marks exactly for the allocations kept, if and only if no dead allocation starts at or behind slot 8 * RoundUp(used / 128, page) |
| HeapSweep.CoveredAll | core/comp_heap.cpp:501-503 | The loops cover all slots in use and the sentinel, unless the bitmap bytes for them just fill their pages; then the slots of the last, incomplete byte are left out |
| HeapSweep.MarksLeft | core/comp_heap.cpp:432-571 | The marks left behind are clean for the next collection if and only if the sentinel was covered |
| CompHeaps.StaleBegin | core/comp_heap.cpp:503-514 | The failing case exists: in a fresh heap, collecting one dead 16-byte allocation leaves its begin bit set while its slot is on a free list |
| HeapDefects.CollectedMembers | core/comp_heap.cpp:499-572 | A collection that keeps neither of two members leaves their header bits set in a heap that is right otherwise |
| HeapDefects.StaleHeader | core/comp_heap.cpp:119-128 | The next member takes the slot of one of them, and the assertion of the source that its header bit is clear fails |
| HeapDefects.FullHeap | core/comp_heap.cpp:499-572 | A collection of a heap whose slots are all in use moves `used` beyond its end; the next collection that keeps the allocation puts a block behind the end on a free list, and the source writes a link into it |
| HeapDefects.BehindTheEnd | core/comp_heap.cpp:522-555 | After such a collection, for any heap and any marks: the slot behind the end is in a free block, and the block starts there if the last slot is marked |
| HeapDefects.LastMember | core/comp_heap.cpp:459-497 | An empty member that was allocated last has the address of the sentinel; it is not kept |
| HeapDefects.EmptyMember | core/comp_heap.cpp:459-497 | An empty member whose address is that of the next allocation: after marking both, only the allocation is kept, and the slot of the header is in a free block after the collection |
| HeapSweep.HeadersSwept | core/comp_heap.cpp:499-572 | The sweep leaves header bits alone, so they stay exact only if every typed allocation was kept |
| HeapSweep.MarkBlock | core/comp_heap.cpp:109-117 | Marking one more allocation keeps the marks the union of the allocations kept |
| ExprRoundTrip.Whole | core/parse.cpp:2249-2825 | The text of any well-formed expression, followed by a token that ends it, is parsed to exactly its tree and up to its end; if it needs more than 64 open operators or 127 open operands it is an error, and only then |
| ExprNecessity.ParsedAsMeant | core/parse.cpp:2249-2825 | The exact condition for being parsed as meant: for every expression of operators in their places, whose tokens have different sources, parsing its text gives its tree up to its end if and only if the text is well-formed (every operand has parentheses where precedence and associativity require them) and fits on the stacks |
| ExprNecessity.PrintedAsMeant | core/parse.cpp:2249-2825 | The same for the printed text: it needs no further parentheses exactly if it is well-formed |
| ExprLevels.InfixGrouped | core/parse.cpp:333-395 | The text `x op1 y op2 z` is grouped to the left if and only if `op1` is of a tighter level, or both are of one level that is not assignment; levels are sets of operators, and each operator builds the node of its name |
| ExprLevels.PrefixGrouped | core/parse.cpp:338-355 | The same for a prefix in front of `x op y` |
| ExprLevels.NamesGrouped | core/parse.cpp:333-395 | For any three names and any two operators the parser gives that tree, without further conditions |
| ExprLevels.FormNodes | core/parse.cpp:2249-2825 | Each form of expression builds the node of its name |
| ExprLevels.ArrayTable | core/parse.cpp:2390-2401 | An element count in front of a type is as tight as the other prefixes |
| ExprAccepted.AcceptParse | core/parse.cpp:2249-2825 | Whatever the parser accepts, on any tokens, is an expression of the language, under some grouping, that ends where no operator follows; parentheses may be open at its end |
| ExprAccepted.UnclosedParen | core/parse.cpp:1507-1516 | An input: `(x` is accepted as `x` |
| ExprNecessity.PrefixOperand | core/parse.cpp:333-390 | For all operands that are well-formed where they stand, every binary operator and every prefix: a prefix expression as a right operand is parsed as meant exactly unless the prefix is `eval`, `try` or `defer` and the operator is no assignment |
| ExprFuture.FutureLoop | core/parse.cpp:2249-2825 | From anywhere in the loop, the result has every node that is on the stacks, unchanged, and one for every operator on them, made before those of the operators below it; all its sources are those of tokens read |
| ExprPrinter.RoundTrip | core/parse.cpp:2249-2825 | Parser round trip: writing any operator tree with the parentheses its precedences and associativities require and parsing the tokens gives the tree back, exactly within the limits of the two stacks |
| ExprPrinter.ParenthesizeProper | core/parse.cpp:333-390 | Adding the required parentheses makes any tree well-formed and leaves it alone otherwise |
| ExprPrinter.ParenthesizeMinimal | core/parse.cpp:333-390 | No parentheses are added to a text that needs none |
| ExprPrinter.Unambiguous | core/parse.cpp:1507-1588 | Two well-formed readings of one text have the same tree |
| ExprPrinter.TightEval | core/parse.cpp:335-337 | An input for it: `x = a * eval b` silently becomes the tree of `x * a = eval b` |
| ExprPrinter.PostfixRun | core/parse.cpp:362-363 | A run of `.&` and `.*` behind an operand comes out in reverse; it has the meant tree if and only if it reads the same backwards |
| ExprRoundTrip.Reduce | core/parse.cpp:1535-1548 | An operator that may pop what an expression left on the stacks finds the finished tree, and pops on as if it had been there |
| ExprRoundTrip.ConsumeArgs | core/parse.cpp:2591-2625 | Arguments are parsed on stacks of their own; the call has them in order or fails with one of them |
| Operators.ParseExpr | core/parse.cpp:2249-2825 | On any tokens the loop ends, at a position between its start and the end of the input |
| ExprParsers.ExprParser.ParseExpr | core/parse.cpp:2249-2825 | The parser object follows the loop on values; whatever the tokens, success leaves exactly one complete subtree in postorder behind what the builder held |
| ExprParsers.ExprParser.PopOperator | core/parse.cpp:1507-1533 | The operator takes its operands from the end of the row; the row of complete subtrees stays contiguous |
| ExprParsers.ExprParser.PopTo | core/parse.cpp:1535-1548 | Pops exactly the operators that give way |
| ExprParsers.ExprParser.PushOperator | core/parse.cpp:1560-1571 | Pops first, then fails at 64 operators |
| ExprParsers.ExprParser.PushOperand | core/parse.cpp:1550-1558 | A complete subtree behind the row becomes one more operand, at most 127 |
| ExprParsers.ExprParser.PopRemaining | core/parse.cpp:1580-1589 | What is left is one complete subtree, or an error |
| ExprParsers.ExprParser.Arguments | core/parse.cpp:2591-2625 | The arguments form a row of complete subtrees behind the callee |
| Partition.WrapTop | core/parse.cpp:2627-2629 | A node pushed behind the last operand and the trees after it completes a subtree of all of them |
| Partition.JoinTop | core/parse.cpp:1526-1532 | The two last operands become one subtree |
| Frontend.ParseAndComplete | core/parse.cpp:2905-2923 | Text to tree: parsing the written form of an operator tree and completing the builder stores that tree in preorder |
| Globals.Exec | core/interpreter.cpp:6603-6660 | Every run of the machine of on-demand globals ends, whatever the globals refer to; initializers may load globals depending on the values of others |
| Demand.Retry | core/interpreter.cpp:2514-2525 | A load without a value runs the initializer and comes back to the same instruction with the value stack, the write contexts, the activations and the running initializations as at the first attempt, and with the temporary data grown by exactly what untyped initializers left; or the run ends in a circular initialization |
| Demand.RunExpr | core/opcode_pool.cpp:2904-2966 | The code of an initializer or any other expression delivers its value, on the stack or through the write context, and changes nothing else but the globals needed and the temporary data left |
| GlobalMeaning.DemandIsMeaning | core/interpreter.cpp:2313-2336 | Initialising on demand, with memory and the test for circularity, succeeds exactly for the expressions that have a value when every use of a global evaluates its definition again, and gives that value |
| GlobalMeaning.GlobalLoad | core/interpreter.cpp:2482-2526 | A load from anywhere delivers the value that the definition means, and changes nothing else but the globals needed and the temporary data left, which is none if and only if the run outside typed definitions meets only names; without such a value the run ends in `CircularGlobalInitialization` |
| GlobalMeaning.LeftNothing | core/interpreter.cpp:2408-2442 | Temporary data is left exactly where an untyped initializer, begun outside typed ones, computes anything |
| GlobalRuns.UntypedLeaves | core/interpreter.cpp:2408-2442 | An input for it: `let a = 1` leaves its number on the temporary data of whoever loads it first |
| GlobalRuns.ProgramMeans | core/interpreter.cpp:6603-6660 | A whole program over the globals halts exactly if all its expressions have a value, whatever they share and in whatever order globals are needed, and then has shown and stored these values; otherwise it ends with the error for circular initializations |
| GlobalRuns.ReachedOnce | core/interpreter.cpp:2313-2336 | In every state any code reaches, each initializer has been begun at most once, and the pending globals are the running initializations; the error stops a run only at an initializer that is running |
| GlobalRuns.ProgramOnce | core/interpreter.cpp:2313-2336 | So in every run of a program, of any length and however it goes on, each initializer is begun at most once |
| GlobalInterpreters.GlobalInterpreter.HandleLoadGlobal | core/interpreter.cpp:2482-2526 | The handler, with the popped write context pushed back, is the step on values |
| GlobalInterpreters.GlobalInterpreter.HandlePrepare | core/interpreter.cpp:2313-2336 | A global being initialised is refused; otherwise it is pending and on the stack of initializations, with the height of the temporary data |
| GlobalInterpreters.GlobalInterpreter.HandleAllocUntyped | core/interpreter.cpp:2408-2442 | The top value becomes the value of the innermost initialization, whose temporary data stays |
| GlobalInterpreters.GlobalInterpreter.HandleAllocTyped | core/interpreter.cpp:2358-2406 | The type is taken from the stack and the memory of the global becomes the write context of its value; the global stays pending |
| GlobalInterpreters.GlobalInterpreter.HandleAllocComplete | core/interpreter.cpp:2338-2356 | The global has the value stored, and the temporary data goes back to the recorded height |
| GlobalInterpreters.GlobalInterpreter.Run | core/interpreter.cpp:6603-6660 | The loop ends and ends as the run on values does |
| ImplMerge.CompleteImpl | core/interpreter.cpp:5846-5987 | Completing an impl from name-sorted lists succeeds if and only if the impl names are names of the trait, every trait member left out has a default and mutabilities agree; the body then has all trait members in order with the impl value or the default; the error is the one of the first impl member at fault |
| ImplMerge.MisleadingMissing | core/interpreter.cpp:5886-5926 | When no member is missing, a missing member is reported exactly if the first impl member at fault is one the trait does not have and some trait member without a default comes behind all earlier impl members |
| ImplMerge.MisleadingInput | core/interpreter.cpp:5886-5926 | An input for it, run through `CompleteImpl` |
| MemoryLayout.PlaceRanges | core/core.cpp:204-247 | The loop succeeds if and only if every range fits behind the page-rounded sizes of those before it; then ranges are page-aligned, disjoint, behind the header and each within its `max_offset`; in an order that loses nothing, as the sorted one for sizes that are multiples of a page, it panics only if there is no placement at all. What is reserved ends with the last range, and is the least that covers the header and all ranges |
| MemoryLayout.PossibleExactly | core/core.cpp:237-246 | For an order that is ascending in deadlines, there is a placement of any kind if and only if every range fits behind the page-rounded sizes of those before it |
| MemoryLayout.AscendingDeadlines | core/core.cpp:237-246 | There always is such an order |
| MemoryLayout.LosesExactly | core/core.cpp:237-246 | So the sorted order panics although there is a placement if and only if the ranges do not fit in it and fit in the order of their deadlines |
| MemoryLayout.DeadlineExact | core/core.cpp:237-246 | At the beginning of a page, a range of any size meets its limit exactly if its whole pages meet its deadline, RoundDown(max_offset - size) + RoundUp(size) |
| MemoryLayout.NoRoom | core/core.cpp:235-247 | For all sizes: ascending deadlines lose nothing, since the ranges up to the one that failed have deadlines no later than its own, and together they do not fit below it in any placement |
| MemoryLayout.PagesLossless | core/core.cpp:235-247 | Ascending limits are ascending deadlines if all sizes are multiples of a page |
| MemoryLayout.Packed | core/core.cpp:235-247 | Disjoint ranges between two bounds are together no longer than the distance |
| MemoryLayout.OddSizes | core/core.cpp:237-246 | For other sizes the sorted order can lose: of two ranges with the same limit, the loop fails in one order and succeeds in the other |

## Left out

- Files, lexing, source mappings, printing, configuration, native calls, floats, strings as values: no state the properties depend on.
- Committing and decommitting memory, address-space reservations and their panics: only the builder's reservation (`PushNode`, `Full`) and the heap's (`None`) are modelled, and the page-rounded byte count of the bitmap loops at the end of a collection. Record sizes and ids are unbounded integers.
- Opcode bytes: the model addresses instructions, not bytes; `SourceMapping` entries are not kept.
- Integer types and their conversions: the values of the fragment are unbounded integers, truth values, void, types and functions. `core/comp_values.cpp` and `SeenSet` are not part of this model.
- Compiler fragment: no `return`, `where`, `for` with `finally`, `switch`, `catch`, composite and array literals, pointers and slices, traits, circular definitions (uses of a name in its own definition are rejected), templated, defaulted, variadic or named parameters, and a definition as the last item of a block stops the compiler (`Undecided`, a TODO panic in the source).
- Correctness.Compile: code in general terms, run correctly, is promised only where the accounting is right (`CountedExactly`); for the rest the contract gives the code instruction by instruction, and `Failures` shows what it can lead to.
- OpcodePools.OpcodePool.OpcodesFromValue: the instructions that prepare and allocate the global a definition is for are in the separate model of globals (`Globals`, `GlobalInterpreter`); here the value is consumed where they would take it.
- Operations.BinaryExact: integers are unbounded; the source panics where a result leaves the 63 bits it stores (`core/comp_values.cpp:748-785`).
- Evaluation.EvaluateExpression: likewise, the value is left on the stack instead of being stored in a global; nothing is promised about how the run ends where the accounting is not right.
- Toolchain.RunText: nothing is promised about how the run ends where the accounting is not right.
- Correctness.MachineStops: where the evaluation is `Undefined` nothing is promised about the run; `EscapedPlace` and `EscapedOperand` show what can happen.
- Toolchain.TextStops: the same for texts.
- Correctness.NeverStuck: for safe expressions; a block that may end in a place of its own scope can be harmless in a given run.
- Definedness.UntidyUndefined: about the meaning only; `EscapedPlace` is about the machine.
- Emission.EffectsExact: branches are in `BranchExact`; calls, their arguments and returns are left to `Simulate`, which fixes the depths behind everything they run.
- Definedness.EvalDefined: the condition on blocks is sufficient; whether a block that may leave a place of its own scope does so depends on its run.
- Simulation.Simulate: for sound expressions only, because the others may be compiled into code that fails (`ValuelessBranch`, `MiscountedBlock`); says nothing after the evaluation is `Undefined`, which safe expressions never are (`EvalDefined`).
- LexicalAnalysers.LexicalAnalyser.ResolveNames: `close_in_innermost` is always true; types in signatures are names of globals; definitions that use their own name are rejected.
- LexicalAnalysers.LexicalAnalyser.ResolveIdentifier: a use of a name in its own value is rejected, where the source flags the definition as circular and resolves it (`core/lexical_analyser.cpp:686-748`).
- LexicalAnalysers.LexicalAnalyser.BeginDefinition: scopes are ordered lists of names here, the map that `ScopeMap` is proved to refine; the limit on definitions and the 16-bit limit on closures are stated there or not at all.
- CompHeaps.CompHeap.Dealloc: where an assertion of the source fails, it does nothing and says so.
- The leak bitmap, and growing and shrinking the heap's commit.
- Parser: sub-parsers of blocks, `if`, `for`, `switch`, `func`, `trait`, initializers, `catch`, `impl`, slices and definitions as arguments end the model with `NotModelled`; diagnostics that do not stop the parser (variadic types, more than 64 arguments) are not recorded.
- ExprAccepted.AcceptParse: one direction; texts that are not well-formed may be refused, as `a * eval b` is, whose `*` is popped before its second operand is there.
- ExprNecessity.ParsedAsMeant: sources tell the tokens of a text apart, as the source ids of one file do.
- Globals.Exec: initializers are numbers, names, operators and conditionals over integers, in typed and untyped definitions; functions, blocks and loops in initializers, assignments to globals, and definitions that refer to themselves are not part of this model.
- ImplMerge.CompleteImpl: starts from sorted, duplicate-free member lists, as emission of impls never advances its AST index (`core/opcode_pool.cpp:1897-1917`).
- MemoryLayout.PlaceRanges: takes the sorted order as an argument; the sort of the source is not part of this model.
- Traits, type pool, shadow store, foreign functions and builtins.
