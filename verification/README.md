# slop, verified

A model in Dafny of the slop compiler's middle and front end, and proofs about
it. slop is a small language with a compiler in C99 (lexer, parser, checker,
lowering to a control-flow graph, a structural verifier of the resulting IR) and
a second front end written in slop itself under `stage1/`.

Routines that update state in the source are methods of classes here, each proved
equal to a function of the old state; what the source promises is proved about
those functions. The second front end is modelled as well, and the theorems that
it agrees with the first hold for all inputs.

The main results, and where they are:

- **Lowering preserves meaning** (`Correctness.LoweringCorrect`). For every
  checked function of the scalar fragment, all arguments and every environment
  that answers calls, the behaviours of the IR (the value returned, the calls
  made, or running for ever) are exactly those of the program.
- **Lowered code is clean** (`VerifyStmt.LoweredClean`). The IR verifier finds no
  problem in any function lowered from a checked tree, and lowering reports none.
  What no problem means is stated about runs (`IrVerify.RunGoesOn`): they stay
  inside the function and stop only with a result, or where the machine goes wrong.
- **Lowered code is well formed** (`CfgShape.LoweredWellFormed`). Whatever the
  function, checked or not, every block has one terminator, at its end, and no
  branch leaves the function.
- **Nothing is read before it is defined** (`Dominance.ReadAfterDefined`), on any
  path through the generated code.
- **`unreachable` is unreachable** (`CfgReach.UnreachableIsUnreachable`,
  `Reachability.NeverFallsOff`). In any body whose jumps are inside loops and that
  the check says diverges, no path of the graph reaches the final `unreachable`,
  and no run of the source falls off the end. The second compiler's check gives
  the same verdict (`Reachability.TwinsAgree`).
- **The parser is total and honest** (`Parsing.ParseProgram`): it stops at the
  end of every token stream, reports every error token it passes once, balances
  its nesting counter, and a program without reports has no missing child.
- **The parser accepts exactly the grammar** (`ProgramSound.AcceptsTheGrammar`). An
  input gets no report exactly when some program of GRAMMAR.md within the nesting
  limit is spelled like it, and the tree returned is that program's; so no input has
  two trees. Every tree with nothing missing can be written (`Writing`).
- **The second parser accepts the grammar and a little more**
  (`Stage1Sound.AcceptsTheGrammar`, `Stage1Sound.AcceptsLittleMore`), with the same
  trees (`TwinParsers.ParsersAgree`, `Stage1ParserClass.ParseTwice`).
- **The two scanners agree on every text** (`Stage1Lexer.ScanTwice`), tokens tile
  the text (`LexerLaws.LexerTiles`), punctuation is the longest entry that fits,
  and numbers, names, characters and strings are exactly what their texts spell.
- **Struct layout** (`LayoutClass.LayoutProgram`, `LayoutAgreement`): the walk
  ends, reports a struct exactly when its edges have a cycle, counts an error exactly
  when something is at fault, and the four places that compute offsets and sizes
  agree, 32-bit wrap-around included.
- **Names** (`Scopes.FnDeclares`, `Scopes.FnAgrees`), **conversions**
  (`Coercion.CoerceKeepsValue`, `Coercion.CoerceRejects`),
  **types** (`Interning`) and **the probing map** (`ProbingMap`).

Where the code does something else than its documentation says, there is a
concrete input and the condition under which it does not matter: `Findings` and
`UntypedArith` throughout, `Scopes.MatchAgreesIff` with
`Findings.ArmDeclarationLost`, `LayoutRules.ApartIffFits` with
`LayoutRules.HugeFields`, `LayoutClass.ReportsIffCyclic` with
`LayoutOrder.PointerToArrayOfItself`, `Conversions.CommonTypeSymmetric` with
`Conversions.PoisonBreaksOrder`, and `Reachability.TwinsAgree` with
`Reachability.TwinsDifferOnStrayJump`. The condition is exact everywhere but in
the last, where it is sufficient.

## How the files fit together

- `Words`, `Types`: machine words, the types and which values they hold.
- `Tree`, `Typing`: the checked tree, its meaning with fuel and a trace of calls,
  and what the checker has established about it.
- `Ir`: instructions, blocks and a machine that runs them one step at a time.
- `Lowering`, `LowerClass`: the lowerer as functions of its state, and as the
  routines that update it.
- `LoweringShape`, `LoweringTypes`, `SimWords`, `SimExpr`, `SimStmt`, `SimFlow`,
  `Simulation`, `Correctness`: the simulation, from opcodes up to whole functions.
- `Reachability`, `CfgReach`: what diverges, in the source and in the graph.
- `CfgShape`, `Dominance`: the graph's form, and what is defined along its paths.
- `IrVerify`, `VerifyExpr`, `VerifyStmt`: the IR verifier and what it is given.
- `Sample`: a checked function with every construct in it.
- `Findings`, `UntypedArith`: inputs on which code and documentation part.
- `Tokens`, `Lexing`, `LexerLaws`, `LexerClass`, `Stage1Lexer`: the scanners.
- `Syntax`, `Parsing`, `ParserClass`, `Stage1Parsing`, `Stage1ParserClass`,
  `TwinParsers`: the parsers and their agreement. `Recovery`: where the first one
  goes on after an error.
- `Grammar`: the grammar as derivations. `ParserRoundTrip`, `ProgramRoundTrip`: all of
  it is accepted. `ParserSound`, `ProgramSound`, `Stage1Sound`: nothing else is, or
  little else. `Writing`: every proper tree has a derivation.
- `Scopes`, `ScopesClass`, `Conversions`, `Constants`, `Coercion`, `Retyping`, `Interning`,
  `LayoutRules`, `LayoutOrder`, `LayoutSteps`, `LayoutFaults`, `LayoutClass`,
  `LayoutAgreement`: the checker. `ProbingMap`: the map under its symbol tables.

`dafny verify dfyconfig.toml` checks everything.

## Preconditions

A tree counts as checked when it satisfies `Typing.TypedFn`: operands of the types
the checker gives them, `break` and `continue` inside loops, and names resolved
to the declarations in scope. Five things the checker accepts are outside it,
because the later passes treat them differently, and each has its input and its
exact condition:

- an arm whose body is a bare `let` whose name is used after the match
  (`Scopes.MatchAgreesIff`, `Findings.ArmDeclarationLost`);
- a match label that a local shadows (`Findings.LabelIsConstantUnlessShadowed`);
- a match label of an enum narrower than the scrutinee (`Findings.LabelWidths`);
- a literal label that an enum scrutinee cannot hold (`Findings.LiteralLabelTests`);
- an untyped left operand of a shift whose amount is not 64 bits wide
  (`Findings.UntypedShiftWidth`; `Findings.UntypedShiftLeft` and
  `Findings.UntypedShiftRight` say when the number is right all the same).

`Dominance.ReadAfterDefined` asks of the tree only what the grammar gives it, that
an `else` is a block or an `if`.

What an undefined operation does (division by zero, the overflowing division, a
shift by the width or more) is left to the IR's consumers, so
`LoweringCorrect` is about programs that perform none; `LoweringPreserves` needs
no such condition.

## Model

| member | source | states |
|---|---|---|
| Correctness.LoweringCorrect | src/backend/lowering.c:875-1099 | for a checked function whose runs perform no undefined operation, the behaviours of the lowered code (result and calls, or divergence) are exactly the program's |
| Correctness.LoweringPreserves | src/backend/lowering.c:875-1099 | whatever a checked function does, returning after some calls or running for ever, the lowered code does, whether or not other runs go wrong |
| Correctness.FunctionSim | src/backend/lowering.c:1063-1099 | every outcome of a run of the body is reached by steps of the code from its entry block: same result, same calls; a run out of fuel takes at least that many steps |
| Correctness.ParamsSim | src/backend/lowering.c:1074-1088 | the code that spills the parameters leaves each in a slot of its own, holding its argument |
| Correctness.IrBehavesOnce | src/ir/ir.c:322-493 | the code has at most one behaviour |
| Correctness.SomeBehaviour | src/backend/lowering.c:875-1099 | a program without undefined operations returns or runs for ever |
| Simulation.StmtSim | src/backend/lowering.c:975-1021 | each statement outcome (fall through, break, continue, return, fuel used up) is simulated by the blocks lowered for it, with the same variables, calls and destination |
| Simulation.LoopSim | src/backend/lowering.c:901-923 | any number of iterations of a `while`, by induction on the fuel, from the top of its condition block |
| Simulation.IfSim | src/backend/lowering.c:875-899 | both branches of an `if` meet at its end block with the variables and calls of the branch that ran |
| Simulation.SelectSim | src/backend/lowering.c:927-973 | the chain of tests jumps to the body of the arm the language selects, or past all of them |
| Simulation.ArmSim | src/backend/lowering.c:954-966 | an arm's body runs away from the chain, leaves for the end of the match and drops what it declared |
| SimFlow.ChainSim | src/backend/lowering.c:943-953 | the tests reach the body of the first arm without `_` that has an equal label, or fall off the end of the chain |
| SimFlow.WildBlock | src/backend/lowering.c:940-942 | the wildcard block remembered is that of the last arm with `_` |
| SimStmt.AssignSim | src/backend/lowering.c:822-873 | `x = e` writes the one slot of the innermost `x` and nothing else |
| SimStmt.CompoundSim | src/backend/lowering.c:822-873 | `x op= e` combines the current value with the right side at the target's type and writes it back |
| SimStmt.TestSim | src/backend/lowering.c:317-322 | a condition is evaluated once and decides the branch |
| SimExpr.ExprSim | src/backend/lowering.c:703-780 | running the code of an expression reaches its end with the value in the operand, the same calls in the same order, and no older temporary or slot changed |
| Tree.MemberIsFirst | src/backend/lowering.c:241-256 | a name has the value of the first member of the enum spelled so, and none exactly when no member is |
| Lowering.MemberLowers | src/backend/lowering.c:746-752 | a name that no local has is lowered to the number of the first member spelled so, and reported when there is none |
| Lowering.FailuresReported | src/backend/lowering.c:782-1019 | a `break` or `continue` outside every loop, and an assignment to what is no local, are reported |
| Tree.TruncDivRem | src/ir/ir.c:322-493 | quotient and remainder are the truncated ones: the remainder is smaller than the divisor and has the dividend's sign |
| Words.AndOrXor | src/ir/ir.c:322-493 | `and` and `or` of two patterns add up to both, and `xor` is their difference |
| SimExpr.LogicalExprSim | src/backend/lowering.c:480-506 | `&&` and `||` run the right operand exactly when the left does not decide; the result slot holds what the branch that ran wrote |
| SimExpr.BinarySim | src/backend/lowering.c:508-557 | arithmetic and comparisons compute the program's value, wrap-around at the width and signedness of the type included |
| SimExpr.CallSim | src/backend/lowering.c:670-701 | a call records the callee and the argument patterns, widened to the parameter types, and takes the answer's low bits |
| SimWords.ArithSim | src/backend/lowering.c:410-424 | the opcode chosen for an operator and a type computes the pattern of the mathematical result, where that is defined |
| SimWords.CompareSim | src/backend/lowering.c:436-445 | the predicate chosen compares the numbers, signed or not by the type |
| SimWords.CastSim | src/backend/lowering.c:346-363 | extension by the source's signedness, or truncation, keeps the number modulo the target's width |
| LoweringShape.StmtShapes | src/backend/lowering.c:975-1021 | lowering a statement changes only the block it starts in and new ones, restores the loop stack, and leaves at most its own declaration on the locals |
| LoweringShape.ExprShape | src/backend/lowering.c:703-780 | lowering an expression leaves the locals and loops alone and ends in an open block |
| LowerClass.Lower.LowerExpr | src/backend/lowering.c:703-780 | the routine's new state and result are the specification function's |
| LowerClass.Lower.LowerCall | src/backend/lowering.c:670-701 | the loop over the arguments evaluates them in order and coerces each to its parameter; the state is the specification function's |
| LowerClass.Lower.FindLocal | src/backend/lowering.c:210-219 | the backward loop finds the innermost binding of a name |
| LowerClass.Lower.LowerMatch | src/backend/lowering.c:927-973 | the loop over the arms builds the chain, the bodies and the final jump that the specification function builds |
| LowerClass.Lower.LowerArm | src/backend/lowering.c:935-967 | the loop over the labels and the body leave the builder back on the chain, in the state specified |
| LowerClass.Lower.LowerStmt | src/backend/lowering.c:975-1021 | the statement's effect on the whole state is the specification function's |
| LowerClass.Lower.LowerBlock | src/backend/lowering.c:1023-1030 | the loop over the statements, after which the locals are cut back to the mark |
| LowerClass.Lower.LowerFunction | src/backend/lowering.c:1063-1099 | the finished blocks are those of the specification, with the final `ret` or `unreachable` where the last block is open |
| Reachability.TwinsAgree | stage1/sema.slop:618-664 | on statements whose jumps are inside loops the two compilers' checks give the same verdict; a stray jump only makes the first say yes |
| Reachability.TwinsDifferOnStrayJump | src/sema/sema.c:1361-1409 | a body that is one `break` is where they differ |
| Reachability.DivergesSound | src/sema/sema.c:1361-1409 | a statement judged to diverge never falls through, whatever it computes |
| Reachability.NeverFallsOff | src/sema/sema.c:1413-1450 | no run of a body whose jumps are all inside loops ends in a jump, and none falls off the end of one the check says diverges |
| Reachability.NoStrayResult | src/sema/sema.c:1317-1323 | where no jump is stray, no run of the statement ends in one |
| Reachability.CheckStmt | src/sema/sema.c:1361-1399 | the loops over arms and labels compute the divergence specified |
| Reachability.CheckBlock | src/sema/sema.c:1401-1409 | some statement of the block diverges |
| Reachability.CheckReturns | stage1/sema.slop:618-664 | stage1's loops compute the verdict specified for it |
| CfgReach.LiveBlocks | src/backend/lowering.c:786-790 | a body that diverges, its jumps all inside loops, has a set of blocks, closed under jumps and containing the entry, none of them `unreachable` |
| CfgReach.UnreachableIsUnreachable | src/backend/lowering.c:1090-1098 | for such a body no path of the control-flow graph leads from the entry to a block with an `unreachable` instruction |
| IrVerify.Verify | src/ir/ir.c:653-696 | the two loops count exactly the specified problems, whose absence `RunGoesOn` and `StoreFits` give a meaning |
| IrVerify.BlockClean | src/ir/ir.c:672-692 | a block without problems ends in its one terminator and every instruction in it passes its own check |
| IrVerify.ExecutesUnlessWrong | src/ir/ir.c:571-650 | an instruction nothing is reported of, with operands that hold what their types say, stops the machine exactly where the operation has no meaning, at `unreachable`, or on memory unwritten or of another type |
| IrVerify.StepStaysInside | src/ir/ir.c:571-650 | in a function without problems every step lands on an instruction of the function, or ends in a `ret` of the return type |
| IrVerify.RunGoesOn | src/ir/ir.c:653-696 | so does every run of it: wherever it gets there is a next step or a result, unless it goes wrong there |
| IrVerify.StoreFits | src/ir/ir.c:551-569 | a store to a visible slot is reported exactly when it writes more bits than the slot has |
| VerifyExpr.ExprOk | src/backend/lowering.c:703-780 | lowering a checked expression adds no problem and closes every block it opened but the one it stands in |
| VerifyStmt.LoweredClean | src/ir/ir.c:571-696 | lowering a checked function reports nothing and its code has no problem: types of stores, operands, conditions and returns, argument counts, terminators and branch targets |
| Sample.SampleIsChecked | src/backend/lowering.c:875-1099 | a function with every statement and kind of expression of the fragment in it is one the theorems about checked functions speak of |
| CfgShape.LoweredWellFormed | src/ir/ir.c:672-692 | whatever the function, checked or not: every block that lowering makes is terminated once, at its end, and every branch lands in the function |
| CfgShape.StmtFormed | src/backend/lowering.c:975-1021 | lowering any statement finishes every block it opened except the one it leaves the builder in |
| Dominance.ReadAfterDefined | src/backend/lowering.c:1063-1099 | on every path through the code of a function whose `else` parts are blocks or `if`s, as the grammar has them, each temporary an instruction reads is a parameter's or was defined before, in a block the path came through or earlier in the same one |
| Dominance.ExprYields | src/backend/lowering.c:703-780 | what the code of an expression leaves in its operand is defined on every way to its end |
| Findings.LabelIsConstantUnlessShadowed | src/backend/lowering.c:733-745 | a named match label is lowered to its constant exactly when no local has its name, while the checker looks among the globals only |
| Findings.ShadowedLabelReadsVariable | src/backend/lowering.c:943-950 | with a local of that name the test loads the variable |
| Findings.LabelWidths | src/backend/lowering.c:943-951 | the verifier accepts the test of a named label exactly when the label's enum is as wide as the scrutinee |
| Findings.NarrowLabel | src/sema/sema.c:1238-1246 | a u8 enum's member as the label of a u32 match is assignable, and the function it is in lowers to code with a problem |
| Findings.LiteralLabelTests | src/sema/sema.c:498-529 | on an enum the test of a literal label is equality of the numbers, for every value of the enum, exactly when the enum holds the literal |
| Findings.LabelThreeHundred | src/sema/sema.c:498-529 | on a u8 enum the checker takes the label 300, which then matches 44 |
| UntypedArith.UntypedCompare | src/backend/lowering.c:508-557 | each comparison of two untyped integers is that of the numbers exactly when their signs are equal; tests for equality always are |
| UntypedArith.MinusOneIsNotLess | src/backend/lowering.c:508-557 | `-1 < 2` is false |
| UntypedArith.UntypedDivide | src/backend/lowering.c:410-424 | for every pair of 64-bit numbers, exactly when dividing untyped integers gives the program's quotient |
| UntypedArith.UntypedRemainder | src/backend/lowering.c:410-424 | the same for the remainder |
| UntypedArith.NegativesGoWrong | src/backend/lowering.c:410-424 | `-6 / 2`, `-5 % 3` and `-4 >> 1` on untyped integers come out wrong |
| Findings.UntypedShiftWidth | src/backend/lowering.c:508-557 | an untyped left operand is shifted at the width of the amount, with the unsigned operator, and the result has its own type's width exactly when the amount is 64 bits wide |
| Findings.UntypedShiftLeft | src/backend/lowering.c:508-557 | at that width the left shift gives the number exactly when the 64-bit result fits it |
| Findings.UntypedShiftRight | src/backend/lowering.c:508-557 | and the right shift exactly when the shifted number fits it; a negative one only at 64 bits and by nothing |
| Findings.NarrowShift | src/backend/lowering.c:508-557 | with an 8-bit amount `2 << 7` and `256 >> 1` are 0 |
| Findings.EnumWidening | src/sema/types.c:183-185 | widening an enum on a signed base keeps the number exactly when it is not negative |
| Findings.NegativeEnumWidens | src/sema/types.c:183-185 | a -1 in an i32 enum widens to 2^32 - 1 |
| Findings.LabelsBesideWildcard | src/backend/lowering.c:935-953 | the first arm that lists the value is the one that runs, exactly when it has no `_`, or nothing after it lists the value or has a `_` |
| Findings.WildcardArmLosesItsLabels | src/backend/lowering.c:935-953 | a label beside `_` loses to a later arm with the same label |
| Findings.ArmDeclarationLost | src/sema/sema.c:1217-1259 | `match x { 1 => let i32 y = 2; } return y;` declares nothing twice and has `y` in the checker's scope at the return; lowering it reports an error |
| Tree.SelectArm | src/backend/lowering.c:924-926 | the first arm without `_` that lists the value runs; when there is none the last with a `_`, and otherwise nothing |
| Tree.FirstHit | src/backend/lowering.c:927-973 | the first arm without `_` that has an equal label, and none before it |
| Tree.LastWildcard | src/backend/lowering.c:936-942 | the last arm with a `_`, and none after it |
| Parsing.ParseProgram | src/parser/parser.c:1063-1104 | ends at an end-of-file token with the nesting counter at zero, having reported each error token on the way once; no reports implies no missing child anywhere in the tree |
| Parsing.ParseStmt | src/parser/parser.c:753-802 | keeps the cursor off error tokens and moving forward, restores the nesting counter, and yields a whole statement or a report; which inputs it takes is `ProgramRoundTrip.StmtReads` and `ProgramSound.StmtSound` |
| Parsing.ParseBlock | src/parser/parser.c:550-577 | recovery always makes progress, and the block is whole if nothing was reported |
| Parsing.ParseExpr | src/parser/parser.c:515-526 | an expression or a report, at any nesting depth |
| Parsing.ParseItem | src/parser/parser.c:1038-1059 | an item or a report, and progress |
| Parsing.Advance | src/parser/parser.c:84-99 | never passes the end of file, never rests on an error token, reports each error token passed |
| Parsing.Forced | src/parser/parser.c:169-222 | a resynchronisation that did not move is made to move |
| ParserRoundTrip.ExprReads | src/parser/parser.c:281-526 | what a derivation of an expression spells, within the nesting limit and followed by any token that cannot continue it, is parsed as its tree, up to exactly that token, without a report |
| ParserRoundTrip.LevelReads | src/parser/parser.c:415-513 | the same at every level of the ladder, whatever comes after |
| ParserRoundTrip.PostfixReads | src/parser/parser.c:330-380 | postfix operators associate to the left onto the primary |
| ParserRoundTrip.TypeReads | src/parser/parser.c:232-266 | the text of a type is read back as that type, whatever suffix comes after |
| ProgramRoundTrip.StmtReads | src/parser/parser.c:753-802 | what a derivation of a statement spells, followed by anything but `else`, is parsed as its tree without a report, `else if` chains and arms included |
| ProgramRoundTrip.BlockReads | src/parser/parser.c:550-577 | a block of statements likewise, up to and including its brace |
| ProgramRoundTrip.FnReads | src/parser/parser.c:812-880 | a function likewise, with or without a return type, extern and variadic ones included |
| ProgramRoundTrip.ItemReads | src/parser/parser.c:1038-1059 | every kind of item likewise, with or without an enum's base type and last comma |
| ProgramRoundTrip.ProgramReads | GRAMMAR.md:75-163 | a token stream that a derivation of a program spells, within the nesting limit, is parsed to the program's tree without a report |
| ParserSound.ExprSound | src/parser/parser.c:281-526 | an expression read without a report is spelled by some derivation of the tree returned, within the nesting limit |
| ProgramSound.StmtSound | src/parser/parser.c:753-802 | a statement read without a report is spelled by some derivation of the tree returned |
| ProgramSound.AcceptsTheGrammar | GRAMMAR.md:56-215 | the parser reports nothing, and returns given items, exactly when the input is spelled by a program of the grammar, within the nesting limit, whose tree they are |
| ProgramSound.Unambiguous | GRAMMAR.md:186-240 | no input stands for two trees |
| Writing.ExprWritten | GRAMMAR.md:186-215 | every expression with nothing missing has a derivation, parentheses put only where an operand binds less tightly than its place asks |
| Writing.WrittenReadsBack | src/parser/parser.c:1063-1104 | every proper program, written and tokenised within the nesting limit, is parsed back to itself |
| Writing.ParsedIsProper | src/parser/parser.c:1063-1104 | what is returned without a report has nothing missing and only the operators, labels, literals and base types of the grammar |
| Recovery.SyncStmtStops | src/parser/parser.c:169-193 | a broken statement is given up at the first brace, statement or item start, or semicolon, and after it if it is a semicolon |
| Recovery.SyncMemberStops | src/parser/parser.c:197-207 | a broken member is given up at the closing brace, or after the first semicolon or comma |
| Recovery.SyncItemStops | src/parser/parser.c:209-222 | a broken item is given up where the next item starts |
| TwinParsers.ParsersAgree | stage1/parser.slop:104-944 | every token stream the first parser accepts without a report gives the same tree from the second, which reports nothing |
| TwinParsers.LabelsTwin | stage1/parser.slop:509-574 | labels read as whole expressions by the second parser are the first's labels |
| TwinParsers.GlobalInitTwin | stage1/parser.slop:855-872 | initializers read as whole expressions by the second parser are the first's literals |
| Stage1Sound.AcceptsTheGrammar | stage1/parser.slop:920-944 | the second parser reads every program of the grammar within the first one's nesting limit, with its tree and without an error |
| Stage1Sound.AcceptsLittleMore | stage1/parser.slop:104-944 | what it reads without an error is spelled by a derivation of the tree it returns, in the grammar widened by any expression as a label or first value of a global, any token as an enum's base type and `...` in any function |
| Stage1Sound.StmtSound | stage1/parser.slop:455-640 | the same statement by statement |
| ParserClass.Parser.Advance | src/parser/parser.c:84-99 | the loop over error tokens gives the cursor and report counts of the specification function |
| ParserClass.Parser.SyncStmt | src/parser/parser.c:169-193 | stops where `Recovery.SyncStmtStops` says |
| ParserClass.Parser.SyncMember | src/parser/parser.c:197-207 | stops where `Recovery.SyncMemberStops` says |
| ParserClass.Parser.SyncItem | src/parser/parser.c:209-222 | stops where `Recovery.SyncItemStops` says |
| ParserClass.Parser.ParseType | src/parser/parser.c:232-266 | the loop over the suffixes gives the state and tree of the specification function |
| ParserClass.Parser.ParsePostfix | src/parser/parser.c:330-380 | the loop over calls, indexes, fields and casts gives the state and tree of the specification function |
| ParserClass.Parser.ParseLevel | src/parser/parser.c:415-513 | the loop of one level of the ladder gives the state and tree of the specification function |
| ParserClass.Parser.ParseBlock | src/parser/parser.c:550-577 | statements up to the closing brace, with recovery |
| ParserClass.Parser.ParseMatch | src/parser/parser.c:686-714 | arms up to the closing brace, with recovery |
| ParserClass.Parser.ParseFnDecl | src/parser/parser.c:812-880 | the loop over the parameters stops where the specification function does, with its state and tree |
| ParserClass.Parser.ParseStruct | src/parser/parser.c:884-917 | members up to the closing brace, with recovery: state and tree of the specification function |
| ParserClass.Parser.ParseEnum | src/parser/parser.c:924-975 | members up to the closing brace, with recovery: state and tree of the specification function |
| ParserClass.Parser.ParseExtern | src/parser/parser.c:1001-1034 | declarations up to the closing brace, with recovery: state and tree of the specification function |
| ParserClass.ParseProgram | src/parser/parser.c:1063-1104 | the routine returns the specified items and number of reports |
| Stage1ParserClass.ParseTwice | stage1/parser.slop:920-944 | both parsers on the same tokens: when the first reports nothing, neither does the second, and it builds the same tree |
| Stage1ParserClass.Parser.ParseType | stage1/parser.slop:104-151 | the loop over the suffixes gives the cursor, errors and tree of the specification function |
| Stage1ParserClass.Parser.ParsePostfix | stage1/parser.slop:228-308 | the loop over the postfix operators gives the cursor, errors and tree of the specification function |
| Stage1ParserClass.Parser.ParseLevel | stage1/parser.slop:338-438 | the loop of one level of the ladder gives the cursor, errors and tree of the specification function |
| Stage1ParserClass.Parser.ParseBlock | stage1/parser.slop:455-485 | statements up to the closing brace or the first error |
| Stage1ParserClass.Parser.ParseMatch | stage1/parser.slop:509-574 | arms up to the closing brace or the first error |
| Stage1ParserClass.Parser.ParseLabels | stage1/parser.slop:530-552 | labels are whole expressions, `_` aside |
| Stage1ParserClass.Parser.ParseParams | stage1/parser.slop:671-698 | stops at the first error, at `...`, or where no comma follows |
| Stage1ParserClass.Parser.ParseProgram | stage1/parser.slop:920-944 | items up to the end of file or the first error |
| Lexing.Next | src/lexer/lexer.c:350-392 | the token starts where the trivia ends, covers the text up to where the scanner stops, carries the line and column of its first byte, is empty exactly at the end, and is counted exactly when it is an error |
| Lexing.SkipTrivia | src/lexer/lexer.c:129-146 | stops at the first byte that is neither blank nor in a comment, with the line counters right |
| Lexing.Digits | src/lexer/lexer.c:284-301 | takes the whole run of digits and stays within 64 bits |
| LexerLaws.LexerTiles | src/lexer/lexer.c:394-419 | the tokens and the trivia between them are the text, each token at the line and column it says |
| LexerLaws.MaximalMunch | src/lexer/lexer.c:377-385 | a punctuator is the longest table entry the text begins with |
| LexerLaws.OneDigit | src/lexer/lexer.c:284-301 | the test before the multiplication fires exactly when the number leaves 64 bits |
| LexerLaws.IntegersAreExact | src/lexer/lexer.c:273-332 | an integer token carries exactly the number its digits spell, which is below 2^64 |
| LexerLaws.OverflowIsExact | src/lexer/lexer.c:322-328 | an integer that no identifier character runs on from is an error exactly when it is 2^64 or more; a dot after it that no digit follows belongs to the next token |
| LexerLaws.UnitReads | src/lexer/lexer.c:175-213 | one quoted byte is read back as that byte |
| LexerLaws.UnitIsExact | src/lexer/lexer.c:175-213 | the scanner finds a byte exactly where one is written (as itself, by one of the seven short escapes, or as `\\x` and two digits), and finds that byte |
| LexerLaws.CharIsExact | src/lexer/lexer.c:215-235 | a character literal is one byte between quotes, with its value; anything else after a quote is an error |
| LexerLaws.StringIsExact | src/lexer/lexer.c:237-271 | a string literal is exactly the bytes its text spells, up to the first quote not escaped; anything else is an error |
| LexerLaws.NumberKinds | src/lexer/lexer.c:273-332 | which texts that begin with a digit are integers, floats and errors, how far they go and what value they have |
| LexerLaws.IdentIsExact | src/lexer/lexer.c:334-346 | an identifier takes every identifier character there is, and is a keyword exactly when its whole text is one |
| LexerLaws.CharClasses | src/lexer/lexer.c:46-68 | letters, digits, identifier characters and blanks, by their codes |
| LexerLaws.EscapesRoundTrip | src/ast/ast_dump.c:13-43 | scanning what the tree dump writes for a byte string consumes all of it and decodes to exactly those bytes |
| LexerClass.Lexer.SkipTrivia | src/lexer/lexer.c:129-146 | the loop over blanks and comments leaves the cursor and the line counters where the specification function does |
| LexerClass.Lexer.LexString | src/lexer/lexer.c:237-271 | cursor, token and error count as specified; the buffer is never overrun |
| LexerClass.Lexer.LexNumber | src/lexer/lexer.c:273-332 | the digit loops and their overflow flag give the token, cursor and error count of the specification function |
| LexerClass.Lexer.LexIdent | src/lexer/lexer.c:334-346 | the whole run, and the keyword table's kind |
| LexerClass.Lexer.LexPunct | src/lexer/lexer.c:377-391 | the first table entry that fits, or an error |
| LexerClass.Lexer.LexAll | src/lexer/lexer.c:394-419 | all tokens up to the end of file, and one error counted for each that is one |
| Stage1Lexer.ScanTwice | stage1/lexer.slop:341-707 | both scanners, on any text: the same tokens (kind, start, length, line, column, value, decoded bytes) and the same number of errors |
| Stage1Lexer.NameIs | stage1/lexer.slop:193-202 | comparing with a NUL-terminated spelling is equality |
| Stage1Lexer.KeywordKind | stage1/lexer.slop:204-238 | the chain of comparisons finds what the table does |
| Stage1Lexer.TreeIsTable | stage1/lexer.slop:576-670 | the decision tree on three bytes takes the table's first entry that fits, and errs exactly when none does |
| Stage1Lexer.Lexer.SkipTrivia | stage1/lexer.slop:341-362 | its loop leaves the cursor and line counters where the first scanner's does |
| Stage1Lexer.Lexer.LexString | stage1/lexer.slop:446-484 | its loop with a flag decodes the bytes the first scanner's does, and never overruns the buffer |
| Stage1Lexer.Lexer.LexNumber | stage1/lexer.slop:486-562 | its digit loops give the first scanner's token and extent, a float's value aside |
| Stage1Lexer.Lexer.LexIdent | stage1/lexer.slop:564-571 | its loop takes the first scanner's run and kind |
| Stage1Lexer.Lexer.LexAll | stage1/parser.slop:26-45 | its loop gives the first scanner's tokens and number of errors |
| LayoutRules.RoundingsAgree | src/ir/ir.c:101-103 | rounding by division and by mask give the same word, wrap-around included |
| LayoutRules.Aligned | src/sema/sema.c:286-302 | offsets are multiples of the fields' alignments, which divide the struct's; the size is a multiple of the alignment |
| LayoutRules.CommonPrefix | src/sema/sema.c:286-302 | structs that share their first fields share those fields' offsets |
| LayoutRules.ApartIffFits | src/sema/sema.c:286-302 | fields are ascending and disjoint and inside the struct, exactly when the unbounded size is below 2^32 |
| LayoutRules.HugeFields | src/sema/sema.c:286-302 | a struct of two fields of 2^31 bytes has size zero, and its fields overlap |
| LayoutRules.TyLayoutStruct | stage1/types.slop:253-274 | the second implementation's loop gives the same offsets, size and alignment |
| LayoutOrder.RankedIsAcyclic | src/sema/sema.c:241-304 | an order in which every struct comes after those it needs leaves no cycle |
| LayoutOrder.HoldsItselfIsCycle | src/sema/sema.c:241-304 | a struct that contains itself at any depth is on a cycle of the edges followed |
| LayoutOrder.RankedHoldsFirst | src/sema/sema.c:241-304 | an order by the edges followed is one in which every struct comes after those it has inside |
| LayoutOrder.PointerToArrayOfItself | src/sema/sema.c:212-222 | a struct with a pointer to an array of itself is reported though it holds nothing |
| LayoutSteps.ReportIsCycle | src/sema/sema.c:252-256 | a struct met again while in progress lies on a cycle of the edges followed |
| LayoutClass.Layouts.Resolve | src/sema/sema.c:192-239 | ends; lays out the elements of arrays on the way; without errors the size is right; the first error is counted exactly when a struct or the type itself is at fault |
| LayoutClass.Layouts.LayFields | src/sema/sema.c:262-295 | the fields are placed by the rules, what they need is completed first; an error is counted for a field of `void`, of a type at fault or of a name there already, and for nothing else |
| LayoutClass.Layouts.LayoutStruct | src/sema/sema.c:241-304 | ends and keeps the walk's invariants: order, sizes, and reports that witness cycles |
| LayoutClass.ReportsIffCyclic | src/sema/sema.c:241-304 | a struct is reported exactly when the edges have a cycle |
| LayoutClass.LayoutProgram | src/sema/sema.c:376-420 | the whole pass over structs, signatures, globals and extern declarations in any order: reports exactly on cycles; unless it does, every struct is completed after those it needs and those it has inside; no errors at all exactly when, besides, no type is at fault, no field repeats a name and every signature and global is fit for use, and then every size and offset is right |
| LayoutClass.Layouts.ResolveProgram | src/sema/sema.c:376-420 | the loop over the items completes every struct, however the items ask for them, unless one was reported |
| LayoutAgreement.IrTypeAlign | src/ir/ir.c:105-124 | the IR's alignment is the one in the checker's table, and the recursion ends |
| LayoutAgreement.IrTypeSize | src/ir/ir.c:126-145 | the IR's size is the one in the checker's table, and the recursion ends |
| LayoutAgreement.FieldOffset | src/backend/backend_c.c:137-149 | the C backend's offset is the one in the checker's table |
| LayoutAgreement.SecondLayout | stage1/types.slop:253-274 | the second implementation gives the checker's table entry |
| Scopes.FnAgrees | src/sema/sema.c:1413-1430 | in a function without redeclarations both passes have the same declarations in scope at every expression, match labels aside, exactly when none follows a match that leaves a declaration behind, in its scope or in a later arm |
| Scopes.StmtAgrees | src/sema/sema.c:1261-1345 | the same statement by statement, from stacks that are equal or have parted |
| Scopes.FnDeclares | src/sema/sema.c:1413-1430 | a function is free of redeclaration errors exactly when no scope in it, its parameters' or a block's with its arms and else branches, declares a name twice |
| Scopes.StmtDeclares | src/sema/sema.c:1181-1215 | statement by statement: a redeclaration is reported exactly when a block inside declares a name twice, or the statement declares a name twice or one of the scope it stands in |
| Scopes.MatchAgreesIff | src/sema/sema.c:1217-1259 | after a match the two stacks are equal exactly when no arm declares something outside a block |
| Scopes.StmtLeaves | src/sema/sema.c:1181-1215 | what a statement leaves on the checker's stack |
| ScopesClass.Checker.ScopeFind | src/sema/scope.c:65-74 | the innermost declaration, over all scopes |
| ScopesClass.Checker.ScopeFindCurrent | src/sema/scope.c:76-86 | only in the scope opened last |
| ScopesClass.Checker.CheckStmt | src/sema/sema.c:1261-1345 | the walk's new stacks and count of redeclarations are the specification function's, which `Scopes.StmtDeclares` gives a meaning |
| ScopesClass.Checker.CheckMatch | src/sema/sema.c:1217-1259 | no scope is opened around an arm's body |
| ScopesClass.Checker.CheckBlock | src/sema/sema.c:1347-1355 | one scope around the statements |
| ScopesClass.Checker.CheckFn | src/sema/sema.c:1413-1430 | parameters get a scope of their own |
| ScopesClass.FindSame | src/backend/lowering.c:210-219 | on the same declarations both lookups find the same one |
| ScopesClass.LoweringFollows | src/backend/lowering.c:975-1021 | the locals lowering leaves are those walked, and those the rest is typed in |
| Conversions.AssignableOrder | src/sema/sema.c:428-462 | implicit conversion is a partial order away from the error type |
| Conversions.PoisonBreaksOrder | src/sema/sema.c:432-434 | the error type is in no order with the rest |
| Conversions.CommonTypeSymmetric | src/sema/sema.c:464-475 | the common type does not depend on the order exactly when neither or both are the error type |
| Conversions.CommonTypeIsJoin | src/sema/sema.c:464-475 | it is the least type both convert to, and there is one exactly when one converts to the other |
| Conversions.TargetHolds | src/sema/sema.c:451-460 | the target holds whatever the source holds, enums aside |
| Conversions.IntegersConvertIff | src/sema/sema.c:451-460 | one integer type converts to another exactly when the signedness is the same and the target holds all that the source holds |
| Conversions.OthersConvertIff | src/sema/sema.c:428-460 | truth value types convert exactly to wider ones, enums exactly where their base type does, and nothing else to an enum |
| Conversions.MemberHeld | src/sema/sema.c:96-101 | a member's number fits whatever its enum converts to |
| Conversions.WideningKeepsValue | src/backend/lowering.c:346-363 | the extension lowering picks reads back as the same number, exactly when the target holds it |
| Coercion.CoerceKeepsValue | src/sema/sema.c:531-561 | a conversion the checker inserts without an error is between types that convert, and gives a well-typed tree with the same value and calls; for an enum exactly when the target holds its value |
| Coercion.CoerceRejects | src/sema/sema.c:531-561 | a type that does not convert costs exactly one error and leaves the error type; one that does costs nothing, literals that do not fit aside |
| Coercion.RetypeCounts | src/sema/sema.c:498-529 | retyping reports nothing exactly when every literal that takes the type fits it |
| Coercion.FitsInRange | src/sema/types.c:220-242 | a literal fits an integer type exactly when the type holds its number |
| Coercion.CoerceUntyped | src/sema/sema.c:498-561 | an untyped tree, shifts by amounts of any width included, becomes a well-typed tree of the target type, or a literal in it did not fit |
| Coercion.RetypeTyped | src/sema/sema.c:498-529 | retyping without an error gives a tree whose every node has a type that holds it |
| Retyping.RetypeKeepsValue | src/sema/sema.c:498-529 | a retyped tree of negations, complements, sums, products, bitwise operators and left shifts has the value and calls of the 64-bit tree converted to the type |
| Retyping.RingStep | src/sema/sema.c:498-529 | each of those operators gives, on operands wrapped to the type, its 64-bit result wrapped to it |
| Retyping.DivisionKeepsNot | src/sema/sema.c:498-529 | a division does not: `-1 / 2` is 0 as an i32 and -1 when converted after |
| Coercion.RetypeBoolTyped | src/sema/sema.c:498-529 | untyped truth values take a type without an error |
| Coercion.EvalInRange | src/sema/sema.c:1020-1162 | a well-typed expression's value is one its type holds |
| Constants.ConstSignedReads | src/ir/ir.c:180-196 | masking and filling in the sign by hand reads the low bits as a signed number |
| Constants.LiteralReadsBack | src/sema/types.c:220-242 | a literal that fits reads back unchanged exactly when its top bit is clear, which in a signed type is always |
| Interning.TypeTable.constructor | src/sema/types.c:38-51 | one object for each core type, of the size and alignment of the table |
| Interning.CoreSizes | src/sema/types.c:17-28 | the bits of each core type fill its bytes, and its alignment is its size |
| Interning.TypeTable.Ptr | src/sema/types.c:99-115 | the pointer type to an element, found or made, of eight bytes; entries keep their meaning and no two objects mean the same type |
| Interning.TypeTable.Array | src/sema/types.c:117-134 | the array type, found or made, likewise |
| Interning.TypeTable.Declare | src/sema/types.c:136-154 | every declaration is a type of its own, a struct's without a size yet, an enum's of its base type's |
| Interning.TypeTable.SameStructureSameObject | src/sema/types.c:99-134 | pointer types are one object exactly when their elements are, array types exactly when elements and lengths are |
| ProbingMap.Map.Get | src/support/map.c:72-79 | the value bound to the key, or none exactly when there is no binding |
| ProbingMap.Map.Put | src/support/map.c:81-97 | binds a new key and says so, or leaves the old binding; all else is kept, and the table never fills beyond three quarters |
| ProbingMap.Map.Grow | src/support/map.c:48-70 | doubles the table and keeps every binding |
| ProbingMap.Map.Rehash | src/support/map.c:57-63 | reinserts every binding and no other |
| ProbingMap.EmptyMeansAbsent | src/support/map.c:39-46 | a probe that ends at an empty slot proves the key absent |
| ProbingMap.PlaceNew | src/support/map.c:39-46 | filling that slot keeps every other key where its probe finds it |
| ProbingMap.MaskIsRemainder | src/support/map.c:40-44 | and-ing with the mask is the remainder, for any hash |

## Left out

- Floating point everywhere, in types, literals, conversions and code: there is no useful exact model of it. The two scanners compute a float literal's value differently; everything else about the token is the same.
- Pointers, arrays and structs as values in lowering: dereferences, field and index addresses, pointer arithmetic, `sizeof`, strings and the copying and zeroing of aggregates. Lowering is modelled for integers, truth values and enums held in scalar slots.
- Globals, and functions other than the one being lowered: a call is an event whose answer comes from an arbitrary environment, which covers every callee, extern and variadic ones included.
- The names of temporaries, slots and blocks: values are identified by number, as the source does not draw them from one table.
- The IR verifier's check that instructions outside functions are absent, its messages, and the printing of the IR, C and LLVM.
- The checker's typing of expressions is taken as the predicate `Typing.TypedFn`, not as a run of check_expr; scopes, conversions, divergence, layout and interning are modelled as code.
- Coercion.Coerce: rewrites a tree and returns it, where the source rewrites nodes in place; two pointers to one node do not occur in the tree.
- Stage1ParserClass.Parser.ParseLevel: here too the ten routines of the ladder are one with a level. The growable buffers are sequences.
- Stage1Sound.AcceptsLittleMore: one direction. That every program of the wider grammar is also read is stated for the grammar itself, within the first parser's nesting limit (Stage1Sound.AcceptsTheGrammar).
- IrVerify.ExecutesUnlessWrong: about instructions on integers and addresses of slots, as the machine has no floats and compares, passes and returns no pointers; the checks of `gep` and of float operations are left out with them.
- ParserClass.Parser.ParseLevel: the ten routines of the ladder, which differ only in their operators, are one routine with a level; the nesting limit is that of the source.
- Parsing.ParseProgram: the wording of reports is left out, and how deep chains of unary operators and `else if` nest, which the source does not limit.
- LexerClass.Lexer.LexAll: the token array's doubling is a sequence; positions and columns are unbounded numbers.
- Stage1Lexer.Lexer.LexNumber: the fraction of a float literal is not computed.
- Interning.TypeTable.Add: the table is a sequence of objects; its growth and the arena are left out.
- ProbingMap.Map.Put: keys are strings and the hash is any function; capacities are unbounded, so the doubling never overflows.
- LayoutClass.LayoutProgram: the initializer of a global is a literal and asks for no type, so only its presence is modelled; enums and declarations that lost their name to an earlier one are items with nothing to do. Casts, `sizeof` and local declarations lay structs out later, when all are done.
- LayoutClass.Layouts.Resolve: an array type is made anew where the source returns the one in the table; they differ only after a struct has been reported.
- Scopes.FnAgrees: match labels are not among the expressions compared. The checker resolves a label among the globals only, lowering among the locals first; Findings.LabelIsConstantUnlessShadowed says when that matters.
- Enum numbering, duplicate top-level declarations, casts between pointers, and the rest of the checker's diagnostics: nothing stated here depends on them, as the trees and types they reject never reach the later passes.
- Files, the driver, the command line, memory allocation and the dump formats other than the quoting of strings.
