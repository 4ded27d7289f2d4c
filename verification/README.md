# A verified model of the Newt compiler front end

Newt is a compiler written in C.  This project models the algorithms of its front
end and of its lowering pass in Dafny and proves what they are for.  Code that
updates fields, arrays or cursors step by step is modelled by classes and methods
with loops; each such method is proved equal to a function, and the theorems are
about those functions.

`dafny verify dfyconfig.toml` checks everything.

| files | part of the compiler |
|---|---|
| `StatementSemantics`, `EmittedSemantics`, `ControlFlowGraph` | what structured statements mean by the manual, with `defer`; what the emitted code makes of them; the machine its blocks run on |
| `StatementLowering`, `StatementCodegen` | the lowering to blocks, as a function and as the recursive method over builder state |
| `LoweringFrame`, `LoweringShape`, `LoweringTargets`, `LoweringReturns`, `LoweringScopes`, `LoweringCorrect` | what lowering keeps, well-formed output, which returns it emits, which names are in scope, what the blocks do |
| `LoweringTheorems`, `Histories`, `JumpLimits`, `LoweringExamples` | preservation of meaning, where and how the code departs from the manual, small functions that show it |
| `ModuleLoader`, `ModuleOrder`, `ModuleExits` | loading modules depth first, their order, what each exit code means |
| `HashMaps`, `Interners`, `TypeStores` | open-addressing hash map, dense interner, hash-consed types |
| `Lexing`, `LexerState`, `LexerTheorems`, `LexicalForms` | the lexer, its positions, tiling, independence of layout, the texts each kind of token stands for |
| `IntegerLiterals`, `Syntax`, `Grammar`, `RecursiveDescent`, `Printer`, `Speculation`, `ParserRoundTrip`, `Misreading`, `Precedence`, `FrontEnd` | integer literals, the expression and type parsers, which operators bind tighter, round trips from tree to tokens and to text |
| `Overloads`, `Inference`, `StructCycles`, `Monomorphization`, `Folding` | overload choice, type-argument inference, by-value cycles, the instantiation worklist, constant folding |

## What is worth knowing first

* **`defer`.**  Expressions are atomic actions: evaluating one extends a history, and
  an oracle gives its value from the history so far, so any computation fits.  The
  structured meaning follows `docs/lang/memory.md`: deferred bodies run last in first
  out at every exit, an abrupt body overrides the pending exit, the returned value is
  saved first.  What the code really does is told by a second structured meaning,
  `Emitted`: a natural exit inside a deferred body overwrites the pending exit, and a
  jump out of a loop goes to the active cleanup even if that belongs to a block around
  the loop.  For every body that compiles (`Compiles`: of the grammar's shape, sound in
  the sense below, with returns that suit the function) the emitted blocks are well formed
  and halt with an observation if and only if `Emitted` finishes with it (`LoweringMeans`).
  The two meanings agree on the fragment `InFragment`: a body that compiles, where a
  `break` or `continue` under an active cleanup belongs to a loop inside that cleanup's
  block, deferred bodies hold no `defer` and no `for` is initialised by one.  There the
  blocks do what the manual says (`LoweringPreservesMeaning`).  Outside it the code departs
  from its manual.  A deferred body that begins with a `defer` loses the returned value:
  manual and code agree if and only if that value is zero (`NestedDeferLosesReturn`).  A
  jump out of a loop under an active cleanup skips what is left of the block.  In any
  surroundings, and in any world in which the jump is taken, the manual goes on with the
  next action of the program and the code with the first action of the body deferred last;
  where these are different actions, the code never shows what the manual shows
  (`JumpUnderCleanupDiffers`).  Where they are the same the lengths of the two histories
  can still tell (`JumpUnderDeferSkipsRest`).
  The fragment is a sufficient condition: a body outside it can still happen to be lowered
  to code with the right behaviour.
* **Well-formed blocks.**  The parser takes any statement as the initialiser of a `for` and
  as the body of a `defer`, so `for (return 1; ; ) { }` and `defer defer x;` are accepted.
  In the first, the jump to the test is appended behind the end of its block; in the
  second, the inner action is registered while the chain is being emitted, and its block
  stays empty.  Every block ends with its only terminator if and only if the body is
  `Sound`: no initialiser that is lowered ends its block, and no deferred body that is
  lowered registers an action with the block around it (`FunctionWellFormed`).
* **Returns.**  The type checker lets `return;` pass in a function with a result, and
  `return f();` in a function without one if `f` has none either.  The code then emits a
  return without an operand, or with the call as its operand, and LLVM refuses both; a
  `print` leaves no operand behind, and under an active cleanup only a branch is emitted.
  Every return instruction suits the function if and only if no `return` that is lowered
  outside an active cleanup is of one of these two forms (`ReturnsFit`).
* **Hash map.**  `docs/hashmap.md` describes separate chaining; the code is open
  addressing with tombstones, and the model follows the code.  After every put at most
  three quarters of the slots are used, except that a map rehashed by hand to a single
  slot may be full.
* **Lexer.**  The comment at `src/lexing/lexer.c:449-451` speaks of interning the empty
  string, but an empty literal has no unescaped text and keeps no record.
* **Exit codes.**  A failing load answers EXIT_LEX only if the entry reaches a module that
  does not lex, EXIT_PARSE only if it reaches one that does not parse, and EXIT_IO only if
  something it reaches cannot be found or read, or lies beyond the depth limit
  (`FailureIsExplained`); where all faults are of one kind, that is the code
  (`ExitIsTheFault`).  With faults of several kinds the first in the order of loading decides.
* **Precedence.**  `Precedence` gives the ladder as a list of token sets and reads a chain of
  operands by splitting it at its loosest operator, the last of several; the printer and the
  parser's own tables do not occur in the statement (`ChainReads`).  Suffixes bind tighter
  than prefixes, those tighter than casts, and casts tighter than any binary operator.
* **Lexical forms.**  `LexicalForms` lists the texts of every kind of token.  Words, numbers
  and operators are the longest text of their form at their place; quoted texts come back
  as they were.
* **Parser.**  At every `<` behind an operand the parser guesses, by reading type
  arguments, whether a generic instance starts.  `Clear` says that in a given print the
  guess comes out right at every `<`: it fails where the tree compares, and is confirmed
  where the tree has an instance.  Printing with the fewest parentheses and parsing gives
  the tree back if and only if the print is clear (`RoundTripIff`), for every tree the
  parser can produce.  Prints without `>` are always clear, and so are all trees over
  literals; `a < b > (e)` is not (`ComparisonReadAsCall`).  The printer puts a cast in front
  of `<` or `*` in parentheses, because the type parser would take the operator
  (`CastTakesStar`, `CastTakesLess`).
* **Instantiation depth.**  The drain leaves the depth counter where the last job put
  it.  Every request that makes something new therefore leaves it deeper, and a request
  beyond the limit is refused however shallow it is (`TypeChecker.Request`): of all the
  requests in the types of a program's bodies at most 65 are granted something new
  (`TypeChecker.ResolveEach`).
* **Folding.**  Constants fold in 64 bits and are truncated when emitted.  That agrees
  with wrapping arithmetic for sums, differences, products, negation and narrowing casts;
  division, remainder, comparison and widening casts also need operands in range, and
  `NarrowingCastIsNotTruncated` shows for every out-of-range value what goes wrong.  What the
  folded operators and the truncation mean is stated on literals and integers alone
  (`LiteralComparisons`, `LiteralDivisions`, `WrapIsSigned`).  A minus
  on a truth value would be marked as folded with whatever its node held before; the type
  checker refuses such a minus first (`Folding.Node.CheckUnary`).

## Model

| member | source | states |
|---|---|---|
| StatementSemantics.StackInOrder | docs/lang/memory.md:167-225 | the stack that a block's exit pops holds exactly the bodies whose defer was reached, in that order: all of them on the natural way out, else those before the statement that left |
| StatementCodegen.CodegenContext.Statement | src/codegen/codegen_stmt.c:28-349 | the recursive method over blocks, cursor, loop targets, cleanup target, locals and deferred actions ends in exactly the state the lowering function gives |
| StatementCodegen.CodegenContext.BlockStatement | src/codegen/codegen_stmt.c:54-145 | statements, cleanup chain built from the last action to the first, dispatch on exit_dest, everything restored |
| StatementCodegen.CodegenContext.CleanupChain | src/codegen/codegen_stmt.c:66-137 | the end of a block with registered actions: natural entry into the chain, the chain, the dispatch, and the old count of actions |
| StatementCodegen.CodegenContext.ChainBodies | src/codegen/codegen_stmt.c:78-92 | the loop over the deferred actions fills their blocks from the last to the first and links each to the one before |
| StatementCodegen.CodegenContext.DispatchOnExit | src/codegen/codegen_stmt.c:94-137 | the switch behind the chain: outer cleanup or return for 0, loop targets or outer cleanup for 1 and 2, on for 3 |
| StatementCodegen.CodegenContext.IfStatement | src/codegen/codegen_stmt.c:147-171 | both branches and the merge block, the else block also without an else |
| StatementCodegen.CodegenContext.WhileStatement | src/codegen/codegen_stmt.c:172-203 | test, body and end blocks; the loop targets of the enclosing loop come back |
| StatementCodegen.CodegenContext.ForStatement | src/codegen/codegen_stmt.c:204-250 | initialiser, test, body, post and end blocks; continue goes to post |
| StatementCodegen.CodegenContext.ReturnStatement | src/codegen/codegen_stmt.c:252-287 | the value goes to the slot first, then to the cleanup if one is active, else out: with an operand exactly if the expression has a value and the result is not returned through a pointer, whatever the function is declared to return |
| StatementCodegen.CodegenContext.JumpStatement | src/codegen/codegen_stmt.c:289-311 | break and continue: nothing outside a loop, through the cleanup if one is active |
| StatementCodegen.CodegenContext.FunctionBody | src/codegen/codegen_decl.c:136-195 | a fresh function's blocks, closed by a null or void return when the body falls off its end |
| LoweringFrame.LowerRestores | src/codegen/codegen_stmt.c:54-145 | lowering any statement restores loop targets, locals and, but for the one action that a defer or the initialiser of a for registers, cleanup target and deferred actions; it writes to no earlier block except at the end of the current one |
| LoweringShape.LowerShape | src/codegen/codegen_stmt.c:28-349 | from an open block, all blocks created are closed by exactly one terminator if the statement is sound, but for the block of an action just registered, and one is broken if it is not |
| LoweringTargets.LowerTargets | src/codegen/codegen_stmt.c:28-349 | every jump, switch and branch goes to a block that has been created |
| LoweringTheorems.FunctionWellFormed | src/codegen/codegen_stmt.c:66-250 | a lowered function is a well-formed graph if and only if no initialiser that is lowered ends its block and no deferred body that is lowered registers an action; its jumps have destinations in any case |
| LoweringReturns.ReturnsFit | src/codegen/codegen_stmt.c:252-287 | every return instruction suits the function's result if and only if no return that is lowered outside an active cleanup lacks its value in a function that returns one, or has one in a function that does not |
| LoweringScopes.SeqScope | src/codegen/codegen_stmt.c:54-145 | behind the statements of a block the names in scope are those from outside and those declared on the way, up to the statement that leaves it |
| LoweringScopes.ScopeBehind | src/codegen/codegen_stmt.c:204-325 | behind any statement exactly its own declarations are new: blocks and loops take theirs away |
| LoweringExamples.ReturnAsInitialiser | src/parsing/parse_statements.c:193-196 | `for (return 1; ; ) { }` is accepted and lowered to a block that goes on behind its terminator |
| LoweringExamples.DeferredDefer | src/parsing/parse_statements.c:83 | `defer defer x;` is accepted and leaves a block empty |
| LoweringExamples.ReturnOfVoidCall | src/sema/typecheck.c:1274-1283 | a call without a result, returned from a function without one, becomes a return with an operand; not behind a defer, and not if it is a print |
| LoweringExamples.ChoiceReturns | src/codegen/codegen_stmt.c:147-287 | `if (c) { return a; } else { return b; }` evaluates the condition and then one expression, the second if the condition is zero, leaves its value in the slot and returns it unless the caller passed the slot |
| LoweringExamples.FallingOffReturnsZero | src/codegen/codegen_decl.c:136-195 | a function that falls off its end returns zero, or nothing |
| LoweringCorrect.Simulate | src/codegen/codegen_stmt.c:28-349 | the blocks of one statement lead where its emitted meaning leads, with the same state and exit_dest, or run at least as long as its fuel |
| LoweringCorrect.SimulateDefers | src/codegen/codegen_stmt.c:69-92 | entering the chain at the m-th action runs exactly the first m bodies, last first, whatever each comes to |
| LoweringCorrect.LoweringMeans | src/codegen/codegen_stmt.c:28-349 | for every body that compiles, oracle and start state: the blocks are well formed, return as the function does, and halt with a trace, slot and value if and only if the emitted meaning finishes with them |
| LoweringTheorems.Agrees | src/codegen/codegen_stmt.c:54-311 | inside the fragment the emitted meaning is the manual's, statement by statement and for any fuel, with the pending exit kept in exit_dest |
| LoweringTheorems.LoweringPreservesMeaning | src/codegen/codegen_stmt.c:28-349 | for every body in the fragment, oracle and start state: the blocks are well formed, return as the function does, and halt with a trace, slot and value if and only if the structured function finishes with them |
| LoweringTheorems.NestedDeferLosesReturn | src/codegen/codegen_stmt.c:73-76 | when a deferred body itself starts by deferring, the returned value is lost: zero is returned where the manual returns the saved value, so the code does what the manual says if and only if that value is zero |
| LoweringTheorems.JumpUnderDeferSkipsRest | src/codegen/codegen_stmt.c:289-311 | a break or continue in a loop under an active cleanup leaves the enclosing block and skips its remaining statements, which the manual runs: the code shows the manual's result if they do nothing, and never if they perform an action and the deferred body performs as many either way |
| LoweringExamples.BreakSkipsOneAction | src/codegen/codegen_stmt.c:289-299 | one function on which manual and code differ by one action |
| LoweringExamples.NestedDeferReturnsZero | src/codegen/codegen_stmt.c:73-76 | one function that returns zero where the manual returns a value |
| JumpLimits.JumpUnderCleanupDiffers | src/codegen/codegen_stmt.c:289-311 | in any surroundings, for any loop with a body in the fragment and any world in which its jump is taken under an active cleanup: what the manual shows goes on with the next action of the program, what the code shows with the first action of the body deferred last, and if these differ the code never shows what the manual shows |
| LoweringExamples.SurroundedDiffers | src/codegen/codegen_stmt.c:289-299 | a break two levels inside the block with the defer, itself in a loop: the two go on with different actions |
| ModuleLoader.Loader.LoadModuleRecursive | src/core/module_loader.c:136-344 | the search over maps and the ordered list ends in exactly the state and exit code of the specification |
| ModuleLoader.LoadKeeps | src/core/module_loader.c:228-339 | at any depth and on any outcome: registered modules are the ordered ones plus the disjoint in-progress stack, a path of the import graph no longer than the limit |
| ModuleOrder.LoadOrder | src/core/module_loader.c:170-339 | on success the ordered list holds exactly the reachable modules, each once, every import before its importer unless it leads back to it |
| ModuleOrder.TopologicalOrder | src/core/module_loader.c:251-339 | on acyclic imports the order is topological |
| ModuleOrder.NothingLeftInProgress | src/core/module_loader.c:324-339 | after any sequence of top-level calls, failing or not, only finished modules are registered |
| ModuleOrder.LoadSucceedsIff | src/core/module_loader.c:136-339 | unless a chain of more than 256 imports through distinct modules starts at the entry, loading succeeds if and only if every reachable module parses and every import resolves |
| ModuleExits.FailureIsExplained | src/core/module_loader.c:136-208 | every exit code other than success has its reason in the files: a reachable module that does not lex, one that does not parse, one that is not found or read, or a chain beyond the depth limit |
| ModuleExits.ExitIsTheFault | src/core/module_loader.c:136-344 | within the depth limit the load succeeds if and only if nothing reachable is faulty, and where all faults are of one kind the exit code is that kind's |
| ModuleExits.ImportFinds | src/core/module_loader.c:314-322 | an import means the regular file of its name, and `module.nt` in the directory only where there is none |
| ModuleExits.EntryFinds | src/core/module_loader.c:142-159 | a path that does not exist is looked for as a directory with a `module.nt` |
| HashMaps.LookupPut | src/datastructures/hash_map.c:99-143 | looking a key up after a put: the new value for equal keys, what was there for others |
| HashMaps.LookupRemove | src/datastructures/hash_map.c:170-201 | looking a key up after a remove: nothing for equal keys, what was there for others |
| HashMaps.HashMap.Put | src/datastructures/hash_map.c:99-143 | the contents become those of an abstract put; keys stay distinct and reachable from their home slot; the load bound holds and the final failure return is not reached |
| HashMaps.HashMap.Get | src/datastructures/hash_map.c:146-168 | the value of the abstract map, in a probe that always stops |
| HashMaps.HashMap.Remove | src/datastructures/hash_map.c:170-201 | the contents become those of an abstract remove, leaving a tombstone |
| HashMaps.HashMap.Rehash | src/datastructures/hash_map.c:60-96 | the same contents in a new table without tombstones |
| HashMaps.InsertKeeps | src/datastructures/hash_map.c:116-143 | occupying the first free slot of a key's probe sequence keeps every other key reachable and all keys distinct |
| Interners.DenseInterner.Intern | src/datastructures/dense_arena_interner.c:66-111 | an equal key gives the identical record, a new one the next dense index |
| Interners.DenseInterner.Peek | src/datastructures/dense_arena_interner.c:127-133 | what interning would find, with nothing changed |
| Interners.DenseInterner.GetResult | src/datastructures/dense_arena_interner.c:159-169 | the record at a dense index, nothing outside 0..n-1 |
| Interners.IndexIsStable | src/datastructures/dense_arena_interner.c:66-111 | a key keeps its index whatever is interned later |
| Interners.SameIndexIffEqual | src/datastructures/dense_arena_interner.c:66-111 | two keys have one index if and only if they are equal |
| TypeStores.ComparatorLawful | src/sema/type.c:23-169 | the comparator is equality of nodes, and equal nodes hash alike |
| TypeStores.SamePointerIffSameType | src/sema/type.c:233-244 | two type pointers are equal if and only if the type trees they stand for are |
| TypeStores.TypesAreStable | src/sema/type.c:233-244 | interning more types changes the tree of no type |
| TypeStores.TypeStore.InternType | src/sema/type.c:233-244 | the pointer of the node, the nodes growing only when it is new |
| TypeStores.TypeStore.MakeGenericInst | src/sema/type.c:456-489 | the cache in front of the interner returns the pointer that interning would |
| IntegerLiterals.ParseIntLit | src/parsing/parse_expressions.c:34-66 | succeeds exactly on digits of the detected base with underscores, at least one digit and a value below 2^64, and returns the value |
| IntegerLiterals.GuardIsExact | src/parsing/parse_expressions.c:53-56 | the division-based guard stops exactly the steps that would overflow |
| IntegerLiterals.PrintedLiteralParses | src/parsing/parse_expressions.c:13-66 | any value printed in base 2, 10 or 16 with underscores among its digits is read back, and refused if it exceeds 64 bits |
| IntegerLiterals.CaseDoesNotMatter | src/parsing/parse_expressions.c:13-34 | a literal in upper case is read as in lower case, digits and prefix |
| RecursiveDescent.Parser.ParseExpression | src/parsing/parse_expressions.c:154-166 | the cursor-based parser agrees with the grammar function in result and in tokens left |
| RecursiveDescent.Parser.ParseLadder | src/parsing/parse_expressions.c:118-152 | the left-associative loop on every rung of the precedence ladder |
| RecursiveDescent.Parser.ParsePostfixGenericInst | src/parsing/parse_expressions.c:330-369 | when the speculative type arguments do not work out the cursor is back where it was |
| RecursiveDescent.Parser.ParsePostfixed | src/parsing/parse_expressions.c:435-511 | the postfix loop, ending at a comparison when speculation fails |
| RecursiveDescent.Parser.ParseArgumentList | src/parsing/parse_expressions.c:527-562 | arguments with an optional trailing comma |
| RecursiveDescent.Parser.ParsePrimaryNode | src/parsing/parse_expressions.c:564-767 | literals, names, type keywords that start expressions, parentheses |
| RecursiveDescent.Parser.ParseTypeNode | src/parsing/parse_types.c:43-170 | stars counted first and applied last, arguments, dimensions, suffix stars |
| RecursiveDescent.Parser.ParseDimensions | src/parsing/parse_types.c:92-136 | dimensions listed and applied from the last to the first, so the first written is outermost |
| RecursiveDescent.Parser.ParseFunction | src/parsing/parse_types.c:246-308 | function types, with and without parameters and result |
| Precedence.ChainReads | src/parsing/parse_expressions.c:118-328 | a chain of operands of any length, with prefixes, suffixes and casts, is read by splitting it at the loosest operator, the last of several, on a ladder given as a list |
| Precedence.ThreeOperands | src/parsing/parse_expressions.c:208-276 | of two operators the second takes the middle operand if and only if it stands on a later rung |
| Precedence.AssignmentReads | src/parsing/parse_expressions.c:154-206 | an operand that is a place takes all of the expression behind the assignment, so that assignments group to the right; behind anything else it is an error |
| Precedence.AssignmentTargets | src/parsing/parse_expressions.c:183-186 | names, elements, fields and pointees are assigned to, and nothing else |
| Precedence.KeywordsInExpressions | src/parsing/parse_expressions.c:674-677 | which type keywords may stand in an expression |
| Precedence.TrailingComma | src/parsing/parse_expressions.c:548-554 | a comma may trail the last argument |
| Precedence.ClosersAreRequired | src/parsing/parse_expressions.c:435-767 | a parenthesis or bracket that is opened has to be closed by its own kind |
| Precedence.TypeClosersAreRequired | src/parsing/parse_types.c:43-308 | the same for types, whose lists allow no trailing comma |
| ParserRoundTrip.ExprRoundTrip | src/parsing/parse_expressions.c:118-511 | where every guess at `<` comes out right, parsing at a rung the print made for that rung leaves that rung with the tree as its first operand |
| ParserRoundTrip.ExpressionRoundTrip | src/parsing/parse_expressions.c:118-511 | parsing the minimally parenthesised print of a tree gives the tree and consumes exactly the print, if every guess comes out right |
| Misreading.RoundTripIff | src/parsing/parse_expressions.c:313-369 | for every tree and whatever closes it: the print is parsed back to the tree if and only if the speculative reading fails at each comparison `<` and is confirmed at each generic instance |
| Misreading.Misread | src/parsing/parse_expressions.c:313-511 | one wrong guess anywhere, in arguments, indices or array sizes of types too, and no rung can return the tree: it fails, or puts something else above the same leftmost operand |
| Misreading.TypeRoundTripIff | src/parsing/parse_types.c:43-308 | the print of a type tree is parsed back to it, consuming exactly the print, if and only if the guesses in its array sizes come out right |
| ParserRoundTrip.LiteralTreeRoundTrip | src/parsing/parse_expressions.c:118-369 | the round trip with no condition for all trees of binary and prefix operators over 64-bit literals |
| ParserRoundTrip.NoCloserRoundTrip | src/parsing/parse_expressions.c:118-511 | the round trip for all trees whose print, and what follows, has no `>` |
| ParserRoundTrip.TypePrintRoundTrip | src/parsing/parse_types.c:43-308 | parsing the print of a type tree gives the tree and consumes exactly the print, if the guesses in array sizes come out right |
| ParserRoundTrip.PrintIsInjective | src/parsing/parse_expressions.c:118-511 | distinct trees with clear prints have distinct prints |
| Misreading.ComparisonReadAsCall | src/parsing/parse_expressions.c:330-369 | two comparisons that look like generic arguments are parsed as a call, for all names and operands |
| Misreading.CastTakesStar | src/parsing/parse_types.c:140-153 | without parentheses the star after a cast goes to the type and the right operand is left over |
| Misreading.CastTakesLess | src/parsing/parse_types.c:62-88 | without parentheses a `<` after a cast opens type arguments, and the comparison never comes back, whatever follows |
| LexerState.Lexer.Advance | src/lexing/lexer.c:73-84 | one character further; position, line and column stay those of the text consumed |
| LexerState.Lexer.SkipWhitespace | src/lexing/lexer.c:103-143 | ends at the first character that is neither blank nor in a comment |
| LexerState.Lexer.LexNumber | src/lexing/lexer.c:167-213 | kind and end of a number, the point taken only before a digit |
| LexerState.Lexer.LexString | src/lexing/lexer.c:216-238 | the end of a string with escapes skipped, or the end of the source |
| LexerState.Lexer.LexChar | src/lexing/lexer.c:241-281 | kind, end and code of a character literal |
| LexerState.Lexer.UnescapeString | src/lexing/lexer.c:286-317 | the content of a string with its escapes resolved |
| LexerState.Lexer.Next | src/lexing/lexer.c:394-544 | the next token with its positions |
| LexerState.Lexer.LexAll | src/lexing/lexer.c:553-567 | all tokens of the source |
| LexerTheorems.SkipsBlank | src/lexing/lexer.c:103-143 | what is skipped is blanks and comments, and as many as there are |
| LexerTheorems.TokensTileTheSource | src/lexing/lexer.c:394-567 | one end-of-file token, last; tokens in order, disjoint, not empty, with maximal blank gaps between them; every position that of the text before it |
| LexerTheorems.RenderedWordsLexBack | src/lexing/lexer.c:394-567 | words that are tokens alone are the tokens of any text that separates them by white space |
| LexicalForms.CharacterClasses | src/lexing/lexer.c:86-92 | the classes of characters, by listing them |
| LexicalForms.WordIsLongest | src/lexing/lexer.c:416-425 | a word is the longest run of its characters, with the kind of its keyword or an identifier's |
| LexicalForms.NumberIsLongest | src/lexing/lexer.c:167-213 | a number has one of the written forms, whole, based or with a fraction and exponent, and no longer text from its start has |
| LexicalForms.OperatorIsLongest | src/lexing/lexer.c:474-537 | of the operators whose text stands there the longest is taken; with none the character is unknown |
| LexicalForms.StringLexesBack | src/lexing/lexer.c:216-317 | any text that is not empty, written in double quotes with its escapes, is one token whose record is the text |
| LexicalForms.CharacterLexesBack | src/lexing/lexer.c:241-281 | any character written in single quotes is one token with its code |
| LexicalForms.UnclosedString | src/lexing/lexer.c:230-233 | without a closing quote a string is unknown and runs to the end |
| LexicalForms.PositionsAdvance | src/lexing/lexer.c:73-84 | positions start at line one, column one; a newline starts a line, every other character a column |
| FrontEnd.SourceRoundTrip | src/parsing/parse_expressions.c:154-166 | tree to text and back: a tree printed, spelled and laid out with any white space is lexed and parsed back to itself if and only if every guess at `<` comes out right |
| Overloads.ResolveOverloadCandidate | src/sema/typecheck_expr.c:336-422 | returns the viable candidate that strictly dominates every other, reports an ambiguity when there is none such and no match when none is viable |
| Overloads.OneLeftIffGreatest | src/sema/typecheck_expr.c:389-416 | the filter leaves exactly one candidate if and only if it dominates all the others |
| Overloads.OrderDoesNotMatter | src/sema/typecheck_expr.c:336-422 | the outcome is the same for every order of declaration |
| Overloads.ExactMatchWins | src/sema/typecheck_expr.c:336-422 | with distinct signatures an all-exact match of a plain call is always chosen |
| Overloads.ReceiverIsSkipped | src/sema/typecheck_expr.c:352-365 | whatever its receiver, a method matches in an instance call as the function without it does in a plain one, with the same match kinds |
| Overloads.InstanceCallIsPlainCall | src/sema/typecheck_expr.c:336-422 | an instance call chooses as the plain call of the functions without their receivers |
| Overloads.ExactMethodWins | src/sema/typecheck_expr.c:336-422 | the method that takes exactly the arguments behind its receiver is chosen if no other does |
| Overloads.SingleCandidate | src/sema/typecheck_expr.c:363-376 | a single candidate is chosen exactly if the count is right and every argument is or casts to its parameter |
| Overloads.CrossedCandidates | src/sema/typecheck_expr.c:389-416 | two candidates each better in one argument are ambiguous |
| Overloads.NotAddedTwice | src/datastructures/scope.c:43-74 | what counts as a duplicate: the same declaration while a type is not resolved, equal parameters afterwards |
| Overloads.OverloadSet.Add | src/datastructures/scope.c:43-74 | refuses exactly the duplicates and keeps signatures distinct |
| Inference.InferTypeArgs | src/sema/typecheck_expr.c:1766-1815 | the method over the shared array gives the result and the bindings of the specification, also on failure |
| Inference.BindingsStay | src/sema/typecheck_expr.c:1769-1779 | no attempt, successful or not, changes a binding |
| Inference.InferenceIsSound | src/sema/typecheck_expr.c:1766-1815 | success binds every variable, and the instance equals the provided type up to array-to-slice decay and leaves of one kind |
| Inference.InferenceIsExact | src/sema/typecheck_expr.c:1766-1815 | success if and only if some extension of the bindings fits, and then the least one is found |
| Inference.MatchingSubstitutionIsFound | src/sema/typecheck_expr.c:1766-1815 | a substitution that makes the types equal is found, and the instance is then the provided type itself |
| Inference.InstanceIsExactIff | src/sema/typecheck_expr.c:1782-1815 | when inference succeeds the instance is exactly the provided type if and only if the two types, walked together down to the variables, have equal leaves and no array where a slice is expected |
| Inference.LeavesOfOneKindPass | src/sema/typecheck_expr.c:1812-1813 | different primitives pass for one another |
| Inference.SubstitutesIff | src/sema/typecheck_expr.c:425-450 | the substitution applied to parameters is the full one if and only if the element type under pointers, arrays and slices is a variable or unaffected |
| StructCycles.CycleChecker.Check | src/sema/typecheck.c:397-426 | answers as the search specification does and leaves the path unchanged when there is no cycle |
| StructCycles.SearchIsExact | src/sema/typecheck.c:397-426 | the search finds a cycle if and only if by-value fields lead back to a struct already passed |
| StructCycles.StructIsCyclic | src/sema/typecheck.c:645-655 | the check of one declaration is exact |
| StructCycles.HeldIff | src/sema/typecheck.c:408-424 | a field holds a struct by value exactly if its type is that struct or arrays, however deep, of it |
| Monomorphization.TypeChecker.Instantiate | src/sema/typecheck.c:1713-1767 | refused on a wrong count or beyond the depth limit; else queued once, one deeper, if not known |
| Monomorphization.TypeChecker.ResolveType | src/sema/typecheck.c:82-360 | the resolved type, every instance in it queued, at most one new job for each application written |
| Monomorphization.TypeChecker.Monomorphize | src/sema/typecheck.c:1781-1853 | the concrete type gets its resolved fields, and only jobs one level deeper are added |
| Monomorphization.TypeChecker.Drain | src/sema/typecheck.c:1770-1856 | terminates although the queue grows, never meets a half-computed struct, leaves every queued instance concrete and the depth at exactly that of the last job worked on |
| Monomorphization.TypeChecker.Request | src/sema/typecheck.c:341-345 | an instantiation with its drain: every request that makes something new leaves the depth greater, and one beyond the limit is refused |
| Monomorphization.TypeChecker.ResolveOutside | src/sema/typecheck.c:308-347 | a type written in a body, inner applications first, each a request with its drain: what it stands for, unless the depth has run out |
| Monomorphization.TypeChecker.ResolveEach | src/sema/typecheck.c:308-347 | over all the types of a program's bodies the depth is at least the number of requests granted something new, so at most 65 ever are |
| Monomorphization.Shrinks | src/sema/typecheck.c:1774-1855 | a job outweighs all the jobs it can queue: the measure for which the drain terminates |
| Monomorphization.KnownIsConcrete | src/sema/typecheck.c:1770-1856 | after a drain every instance inside a resolved type, at any nesting, is concrete |
| Monomorphization.OwnInstance | src/sema/typecheck.c:1826-1830 | inside a struct its application to its own parameters, in order, is the instance itself |
| Monomorphization.ResolvingComposes | src/sema/typecheck.c:308-347 | resolving with resolved arguments is resolving the term with those arguments put in for the parameters |
| Monomorphization.WrittenResolves | src/sema/typecheck.c:82-360 | a type written out resolves to itself, wherever it stands |
| Monomorphization.FieldsSubstitute | src/sema/typecheck.c:1844-1849 | each field of an instance is the declared field with the arguments put in |
| Monomorphization.FaultIffUnresolved | src/sema/typecheck.c:82-360 | resolving reports one error if it fails and none if it succeeds |
| Monomorphization.FaultIsReal | src/sema/typecheck.c:82-360 | the error reported is true of some part of the term |
| Folding.Node.CheckExpression | src/sema/typecheck_expr.c:1713-1762 | the recursive walk over a tree of nodes finds the type or an error, and leaves every node below marked as constant exactly where the folding function folds, with its value |
| Folding.Node.Generate | src/codegen/codegen_expr.c:317-325 | reading a checked tree, a marked node becomes its constant; what is emitted computes what the unfolded expression computes, under the range condition |
| Folding.Node.FoldUnaryOp | src/sema/typecheck_expr.c:66-88 | negation of integers and of truth values; a minus on anything else marks the node and leaves its union as it was |
| Folding.Node.FoldArithOp | src/sema/typecheck_expr.c:126-158 | integer arithmetic, not folded when dividing by zero |
| Folding.Node.FoldCompareOp | src/sema/typecheck_expr.c:126-158 | integer comparisons |
| Folding.Node.FoldCastNode | src/sema/type_coerce.c:138-170 | casts between integers and from truth values, without truncation |
| Folding.FoldingPreservesMeaning | src/codegen/codegen_expr.c:317-325 | the code emitted with folding computes what the unfolded expression computes, for all values of variables, undefined divisions included |
| Folding.RingTreesFoldExactly | src/codegen/codegen_ops.c:138-144 | constants of + - * and negation: 64-bit folding truncated at the end is wrapping at every step |
| Folding.LiteralComparisons | src/sema/typecheck_expr.c:138-143 | a comparison of two literals folds to whether they stand in the relation written, for each of the six operators |
| Folding.LiteralDivisions | src/sema/typecheck_expr.c:136-137 | division and remainder of literals are the one pair with a remainder smaller than the divisor and signed as the dividend |
| Folding.WrapIsSigned | src/codegen/codegen_expr.c:317-325 | truncation gives the one value of the signed range that differs by a multiple of the modulus |
| Folding.ValuesHaveTheirType | src/codegen/codegen_ops.c:138-168 | what checks has at run time its type, in range |
| Folding.MixedOperandsRefused | src/sema/typecheck_expr.c:1350-1450 | operands of different types are refused; a minus takes integers and a negation truth values |
| Folding.NarrowingCastIsNotTruncated | src/sema/type_coerce.c:164-169 | a comparison sees the untruncated value of a narrowing cast: folded and run-time results differ exactly for values that do not fit |

## Left out

- LLVM itself, calling conventions, object files, the JIT and linking: blocks, branches, the switch, exit_dest and the return slot are kept.
- Code generation for expressions, types and aggregates: expressions are atomic actions.
- The manual gives no meaning to an action registered by the initialiser of a `for`: `InFragment` leaves such bodies out, `LoweringMeans` says what the code makes of them.
- JumpUnderDeferSkipsRest: says nothing about a deferred body that performs more actions the later it runs, where the two histories can happen to have equal length; if it begins with another action than the program goes on with, JumpUnderCleanupDiffers does.
- JumpUnderCleanupDiffers: the loop is reached in the first round of each loop around it, not inside a deferred body, and the first action of each side has to be plain from the text.
- Folding.Node.CheckExpression: the code retypes a literal operand to the type of the other side before it compares them (`src/sema/typecheck_expr.c:1421-1427`); here a literal has the type it ends up with, and a literal of another type is an error.
- Name lookup of variables inside deferred bodies: bodies are closed actions.
- ModuleLoader.Loader.LoadModuleRecursive: the map from logical module names to units and the project root are not modelled, because nothing the order depends on reads them; a file system is a map from path to parse result, with an import's target file as a function of its text, in place of file reading and path arithmetic.
- Arenas and dynamic arrays: allocation never fails, sequences grow.
- HashMaps.HashMap.Rehash: asked for fewer slots than there are live entries, the code would probe without end; the model asks callers for room, as the only caller, put, gives it.
- LoadSucceedsIff: where a chain of more than 256 imports starts at the entry, success also depends on the order of imports, through the depth limit; no condition shorter than the search itself is given, only that success is never wrong (`LoadedIsLoadable`).
- RecursiveDescent.Parser.ParsePrimaryNode: no struct literals, initializer lists, intrinsics or float literals; the token alphabet of the parser has no braces, `@` or float literals.
- RecursiveDescent.Parser.ParsePostfixGenericInst: an opening brace, which also confirms an instance, is not a token of the model.
- RecursiveDescent.Parser.ParsePostfixed: no struct literal behind an operand, for the same reason.
- RecursiveDescent.Parser.ParseArgumentList: no initializer list as an argument, for the same reason.
- FrontEnd.SourceRoundTrip: character and string literals are not spelled, because their tokens hold the value and not the text.
- The signed reading of an integer literal's 64 bits in the syntax tree: the tree holds the value that was parsed.
- Bytes above 127 in source text: characters are compared with ASCII ones only, as `isalpha` and its kin do in the C locale.
- Spans in syntax trees; diagnostics; the text of error messages; the cursor after a failed parse, except where speculation puts it back.
- The list of keywords: the lexer takes any table of words.
- TypeStores.ComparatorLawful: no comparison of struct, enum or void types, which are made once for each declaration and stand in the model as opaque leaves; neither hasher nor comparator reads the mutable concrete_type of an instance.
- Overload sets with types not resolved yet: signatures resolved later can coincide, which the code does not look for either.
- Cast rules: overload resolution is proved for any relation of implicit casts, so the matrix of primitive casts is not modelled.
- Folding.Node.FoldUnaryOp: no negation of float constants.
- Folding.Node.FoldArithOp: no float operands.
- Folding.Node.FoldCompareOp: no float operands.
- Folding.Node.FoldCastNode: no casts to or from floats and characters.
- Unsigned types, for which the generated code uses signed division and comparison; `&&` and `||`, which the type checker allows on truth values only and which are then not folded.
- Monomorphization.TypeChecker.ResolveType: no function types, aliases or dotted paths in the fields of generic structs; a name that is not found is an error.
- Monomorphization.TypeChecker.Monomorphize: no field map, instance scope or mangled name (mangling is not injective), and no generic methods.
- Alias chains, visibility, import binding, allocator checks.
