# Touched variables and gas expectations

This project models two pieces of the Solidity compiler repository and proves properties about them. Both are written in Dafny.

**The touched-variable analysis of the SMT checker** (`VariableUsage`). It is asked which variable declarations may be written while a syntax subtree executes. The question comes with the call stack of functions the checker is inside. The analysis walks the subtree as a visitor. Along the way:

- an identifier used as an l-value records its variable. A state variable is always recorded. A local is recorded only when it belongs to the outer function, the last function on the stack given by the caller.
- a call that the checker would inline is followed into the callee, unless the callee is already on the current function path. That check is the cycle guard.
- a modifier invocation is followed into the modifier's body.
- a placeholder `_` is followed into the body of the innermost function on the path.

The model keeps the object's mutable state: the touched set, the function path and the outer function. It lives in `class VariableUsage`, whose visitor methods are proved against a recursive specification `Touched`. Lemmas then establish what that specification means:

- which writes are recorded, in both directions for locals;
- that a qualifying write is recorded exactly when the visit reaches it through some chain of inlined calls (the callee's modifiers and body), function definitions, modifier bodies and placeholders;
- what the cycle guard does;
- that a placeholder behaves like the spliced-in function body;
- that the scratch state is reset on every query;
- worked examples, among them two mutually recursive functions whose analysis terminates.

**The expectation section of a gas test** (`GasTest`). A gas test file ends with comment lines that give:

- the creation cost, written as `execution + code deposit = total`;
- under `external:` and `internal:` headers, one gas cost per function.

`parseUnsignedInteger` and `GasTest::parseExpectations` read these lines into the test object's fields. The model has two layers:

- the parser as functions over each line and the line loop;
- the imperative reading as methods that walk each line with an index and update the fields of `class GasTest` in place.

Each method is proved equal to its function. The function layer is then related to the printer `printUpdatedExpectations` and to malformed input:

- whatever the printer writes parses back to the same costs;
- whitespace around the creation numbers is optional, and each malformed creation or entry line fails with its own error;
- a section without a creation line is rejected;
- a section with an entry before any header is rejected.

Files:

- `wrappers.dfy` holds `Option`, `Result` and `Outcome`.
- `ast.dfy` holds the syntax tree the analysis visits, with the termination measures.
- `variable_usage.dfy` holds the specification and the visitor class.
- `variable_usage_lemmas.dfy` holds its properties.
- `gas_test.dfy` holds the parsers and the test object.
- `gas_test_lemmas.dfy` holds the printer and the round trip.

Syntax trees are a closed datatype. Function and modifier definitions sit in tables indexed by id. The SMT checker's inlining decision `SMTChecker::inlinedFunctionCallToDefinition` is not part of this model. It is a parameter of the program: a total function `inlinedCallee` from call sites to optional function ids. A variable declaration's identity is its value, just as the source compares declaration pointers.

A few things the gas parser does that are easy to overlook:

- Anything after the total on a creation line is ignored.
- A separator other than the expected '+' or '=' is an error. When the line ends where a separator should be, the model also reports that error (see "## Left out").
- A later entry for the same function name replaces an earlier one.

## Model

| member | source | states |
|---|---|---|
| VariableUsage.VariableUsage.TouchedVariables | libsolidity/formal/VariableUsage.cpp:89-97 | The result is exactly the specification `Touched` for the node, with the given stack as path and its last element as outer function. Whatever an earlier query left in the fields plays no part. The path afterwards is the stack and the outer function is its last element. |
| VariableUsage.VariableUsage.Accept | libsolidity/formal/VariableUsage.cpp:28-87 | Visiting a node adds exactly `Touched` to the touched set and leaves the function path as it found it. This also holds through inlined calls, modifiers and placeholders. |
| VariableUsage.VariableUsage.AcceptAll | libsolidity/formal/VariableUsage.cpp:28-87 | Visiting children in order adds the union of what each adds, `TouchedAll`. The path is unchanged. |
| VariableUsage.VariableUsage.AcceptFunction | libsolidity/formal/VariableUsage.cpp:61-71 | Visiting a function definition pushes it, visits its modifiers and body, and pops it. It adds exactly `TouchedFunction` and restores the path. |
| VariableUsage.VariableUsage.EndVisitIdentifier | libsolidity/formal/VariableUsage.cpp:28-52 | An identifier adds its variable exactly when it is an l-value and is either non-local or a local, return parameter or parameter of the outer function. Otherwise nothing is added. |
| VariableUsage.VariableUsage.EndVisitFunctionCall | libsolidity/formal/VariableUsage.cpp:54-59 | A call adds `CallExpansion`: the touched set of the callee the inlining policy names, and nothing when there is no such callee or it is already on the path. The path is restored. |
| VariableUsage.VariableUsage.VisitFunctionDefinition | libsolidity/formal/VariableUsage.cpp:61-65 | The function is appended to the path. |
| VariableUsage.VariableUsage.EndVisitFunctionDefinition | libsolidity/formal/VariableUsage.cpp:67-71 | On a non-empty path, the last entry is removed. |
| VariableUsage.VariableUsage.EndVisitModifierInvocation | libsolidity/formal/VariableUsage.cpp:73-78 | An invocation of a modifier adds what its body adds. An invoked name that is not a modifier adds nothing. |
| VariableUsage.VariableUsage.EndVisitPlaceholder | libsolidity/formal/VariableUsage.cpp:80-87 | A placeholder adds what the innermost function's body adds under the same path, and nothing when that function is not implemented. |
| VariableUsage.VariableUsage.constructor | libsolidity/formal/VariableUsage.cpp:89-92 | A new analysis object starts with an empty touched set, an empty path and no outer function. |
| VariableUsage.Touched | libsolidity/formal/VariableUsage.cpp:28-87 | Every variable a visit adds qualifies: it is non-local or declared by the outer function. It is also written by an identifier of the node itself or of some function or modifier of the program, so nothing is invented. |
| VariableUsage.TouchedAll | libsolidity/formal/VariableUsage.cpp:28-52 | The same two bounds hold for a sequence of children. |
| VariableUsage.CallExpansion | libsolidity/formal/VariableUsage.cpp:54-59 | What an inlined call adds qualifies and is written somewhere in the program. |
| VariableUsage.TouchedFunction | libsolidity/formal/VariableUsage.cpp:61-71 | What a function definition adds qualifies and is written somewhere in the program. |
| VariableUsage.ModifierExpansion | libsolidity/formal/VariableUsage.cpp:73-78 | What a modifier body adds qualifies and is written somewhere in the program. |
| VariableUsage.PlaceholderExpansion | libsolidity/formal/VariableUsage.cpp:80-87 | What a placeholder adds qualifies and is written somewhere in the program. |
| Ast.UnseenPush | libsolidity/formal/VariableUsage.cpp:54-58 | Pushing a function that is not yet on the path strictly shrinks the set of functions not on it. So the cycle guard makes every visit terminate. |
| VariableUsageProperties.WriteTouched | libsolidity/formal/VariableUsage.cpp:34-50 | A written identifier adds its variable exactly when the write qualifies (`Qualifies`): the variable is non-local, or it is a local, return parameter or parameter of the outer function (`InOuterFunction`). Otherwise it adds nothing. |
| VariableUsageProperties.ReadTouched | libsolidity/formal/VariableUsage.cpp:46-50 | An identifier that is only read adds nothing, whatever its variable, the path and the outer function. |
| VariableUsageProperties.DirectWritesTouched | libsolidity/formal/VariableUsage.cpp:46-50 | Every qualifying variable written by an identifier inside the node is in its touched set. |
| VariableUsageProperties.DirectWritesTouchedAll | libsolidity/formal/VariableUsage.cpp:46-50 | The same holds for a sequence of nodes. |
| VariableUsageProperties.StateWriteTouched | libsolidity/formal/VariableUsage.cpp:34-50 | A write to a state (non-local) variable is always recorded, whatever the path and the outer function. |
| VariableUsageProperties.LocalWriteTouchedIff | libsolidity/formal/VariableUsage.cpp:36-50 | A write to a local is recorded if and only if the outer function declares it as a local, return parameter or parameter. |
| VariableUsageProperties.CalleeLocalNeverTouched | libsolidity/formal/VariableUsage.cpp:36-50 | A local the outer function does not declare, such as a local of an inlined callee, is never recorded. |
| VariableUsageProperties.ReadOnlyNeverTouched | libsolidity/formal/VariableUsage.cpp:46-50 | A variable that no identifier of the node or the program writes is never recorded. Reads alone touch nothing. |
| VariableUsageProperties.TouchedAllIncludes | libsolidity/formal/VariableUsage.cpp:28-87 | What any one child adds is part of what the whole list adds. |
| VariableUsageProperties.ContainedTouched | libsolidity/formal/VariableUsage.cpp:28-87 | What a node occurring anywhere inside another adds is part of what the outer node adds. |
| VariableUsageProperties.FunctionCodeTouched | libsolidity/formal/VariableUsage.cpp:58-71 | Visiting a function, whether as a definition node or as an inlined callee, is visiting its modifier list and then its body with the function pushed onto the path. |
| VariableUsageProperties.ChainTouched | libsolidity/formal/VariableUsage.cpp:54-87 | Any code reached through a chain of steps contributes its touched set to the starting node's. A step enters the modifiers and body of an inlined callee or of a function definition, a modifier's body, or the innermost function's body at a placeholder. |
| VariableUsageProperties.NestedStateWriteTouched | libsolidity/formal/VariableUsage.cpp:34-87 | A state-variable write at any depth of such a chain is recorded for the starting node. |
| VariableUsageProperties.CalleeModifierWriteTouched | libsolidity/formal/VariableUsage.cpp:54-78 | A state write inside a modifier of an inlined callee is recorded for the node that makes the call. |
| VariableUsageProperties.TouchedIsReached | libsolidity/formal/VariableUsage.cpp:28-87 | Every recorded variable is written by an identifier at the end of some such chain from the node. |
| VariableUsageProperties.TouchedCharacterised | libsolidity/formal/VariableUsage.cpp:28-87 | A variable is recorded if and only if its write qualifies and an identifier writing it sits at the end of some such chain from the node. |
| VariableUsageProperties.CallOnPathNotExpanded | libsolidity/formal/VariableUsage.cpp:57-58 | A call whose callee is already on the path adds only what its own children add. |
| VariableUsageProperties.OpaqueCallNotExpanded | libsolidity/formal/VariableUsage.cpp:56 | A call the inlining policy does not resolve adds only what its children add. |
| VariableUsageProperties.NonModifierInvocationNotExpanded | libsolidity/formal/VariableUsage.cpp:75-77 | An invocation whose name is not a modifier, such as a base constructor, adds only what its arguments add. |
| VariableUsageProperties.PlaceholderIsSplicedBody | libsolidity/formal/VariableUsage.cpp:80-87 | A node with placeholders touches exactly what it would touch with the innermost function's body spliced in at each placeholder. An empty block stands in when the function is unimplemented. |
| VariableUsageProperties.PlaceholderIsSplicedBodyAll | libsolidity/formal/VariableUsage.cpp:80-87 | The same holds for a sequence of nodes. |
| VariableUsageProperties.SinglePlaceholderModifierTransparent | libsolidity/formal/VariableUsage.cpp:73-87 | A function whose only modifier has the body `_` touches exactly what its own body touches. |
| VariableUsageProperties.RepeatedAnalysisAgrees | libsolidity/formal/VariableUsage.cpp:89-97 | Asking one analysis object the same question twice gives the same answer, whatever it was asked in between. |
| VariableUsageProperties.CallerCalleeTouched | libsolidity/formal/VariableUsage.cpp:28-59 | Example: a caller that writes its locals x and y and calls a callee writing its own local z and the state variable s touches exactly {x, y, s}. |
| VariableUsageProperties.CalleeBodyTouched | libsolidity/formal/VariableUsage.cpp:28-52 | Example: with the caller as outer function, the callee's body touches only the state variable s, not its own local z. |
| VariableUsageProperties.CallOfCalleeTouched | libsolidity/formal/VariableUsage.cpp:54-59 | Example: the call to the callee touches {s}. |
| VariableUsageProperties.PlaceholderInCallerTouched | libsolidity/formal/VariableUsage.cpp:80-87 | Example: a placeholder inside the caller touches what the caller's body touches, {x, y, s}. |
| VariableUsageProperties.ModifierOfCallerTouched | libsolidity/formal/VariableUsage.cpp:73-87 | Example: a modifier that reads x and then runs `_` touches {x, y, s} when invoked on the caller. |
| VariableUsageProperties.MutualRecursionTouched | libsolidity/formal/VariableUsage.cpp:54-59 | Example: two functions calling each other, each writing one state variable, touch both variables, and the analysis terminates. |
| GasTest.RunEnd | test/libsolidity/GasTest.cpp:47-54 | The end of the longest run of matching characters from a position: everything before it matches, and the character at it does not, or the line has ended. |
| GasTest.RunEndUnique | test/libsolidity/GasTest.cpp:47-54 | Any position where a run of matching characters first stops is the one `RunEnd` finds. |
| GasTest.UnsignedAt | test/libsolidity/GasTest.cpp:43-55 | It fails with "source location expected" exactly when no digit starts at the position. Otherwise the number ends strictly after the position and within the line. |
| GasTest.DigitsValueDecimal | test/libsolidity/GasTest.cpp:47-54 | The value the digit loop accumulates, most significant digit first, is the decimal value (`DecimalValue`) of the digits it passes. |
| GasTest.UnsignedAtReads | test/libsolidity/GasTest.cpp:45-54 | A number read at a position is the decimal value of the digits from there up to the first non-digit or the end of the line. |
| GasTest.ParseUnsignedInteger | test/libsolidity/GasTest.cpp:43-55 | The digit loop computes what `UnsignedAt` specifies: the same error, or the same value and end position. |
| GasTest.SkipWhitespace | test/libsolidity/GasTest.cpp:84 | Advances to the end of the whitespace run. |
| GasTest.Expect | test/libsolidity/GasTest.cpp:108-114 | Succeeds exactly when the expected character is at the position, and then steps past it. Otherwise it fails naming the character. |
| GasTest.NumberAfter | test/libsolidity/GasTest.cpp:84-85 | On success, the number ends strictly after the starting position. |
| GasTest.SeparatorAfter | test/libsolidity/GasTest.cpp:86-88 | On success, the character just consumed is the separator. On failure, the error is the one given for that separator. |
| GasTestProperties.NumberAfterSpec | test/libsolidity/GasTest.cpp:84-85 | Reading a number after whitespace fails exactly when the whitespace is followed by the end of the line or by a non-digit. |
| GasTestProperties.SeparatorAfterSpec | test/libsolidity/GasTest.cpp:86-88 | The separator is found exactly when it is the first character after the whitespace. Reading then resumes right after it. |
| GasTest.ParseCreation | test/libsolidity/GasTest.cpp:81-96 | A creation line fails only with "source location expected", "expected +" or "expected =". |
| GasTest.ParseEntry | test/libsolidity/GasTest.cpp:105-118 | A parsed entry has the entry shape: "//" and three spaces, the name up to the first ':', whitespace, then a non-empty cost that does not start with whitespace. It fails only with the four entry errors. |
| GasTest.ParseLine | test/libsolidity/GasTest.cpp:81-119 | After an accepted line, the creation flag is set exactly when it was already set or the line is a creation line. The selected kind is the one the line's header names, or else unchanged. A line other than a creation line or a header is accepted only once a kind is selected. No line fails with "no creation costs". |
| GasTest.ParseExpectationsSpec | test/libsolidity/GasTest.cpp:70-123 | An accepted section contains a creation line. |
| GasTest.FlagNeedsCreationLine | test/libsolidity/GasTest.cpp:79-96 | Lines none of which is a creation line leave the creation flag as it was. |
| GasTest.ReadNumber | test/libsolidity/GasTest.cpp:84-85 | Skipping whitespace and then reading a number is `NumberAfter`. |
| GasTest.ReadSeparator | test/libsolidity/GasTest.cpp:86-88 | Skipping whitespace and then consuming a separator is `SeparatorAfter`. |
| GasTest.ParseCreationLine | test/libsolidity/GasTest.cpp:81-96 | Reading a creation line step by step gives the three costs `ParseCreation` gives, or its first error. |
| GasTest.ParseEntryLine | test/libsolidity/GasTest.cpp:103-119 | Reading an entry line step by step gives `ParseEntry`: the name up to the first ':' and the cost after the following whitespace, or the first error. |
| GasTest.Record | test/libsolidity/GasTest.cpp:113-118 | An entry maps its name to its cost in the map of the current kind. Every other name of that map keeps its cost, and the other map and the creation cost are unchanged. |
| GasTest.FailureIsFinal | test/libsolidity/GasTest.cpp:79-120 | Once some prefix of the lines fails, adding more lines does not change the result: the first error aborts the loop. |
| GasTest.FailureEndsRun | test/libsolidity/GasTest.cpp:79-120 | A failure on the first i lines is the failure of the whole run. |
| GasTest.FoldStep | test/libsolidity/GasTest.cpp:79-120 | The loop over one more line is one more step from the state after the earlier ones. |
| GasTest.GasTest.constructor | test/libsolidity/GasTest.h:37-42 | A new test object has zero creation costs and empty cost maps. |
| GasTest.GasTest.ParseLineInto | test/libsolidity/GasTest.cpp:81-119 | Handling one line in place leaves the fields, the creation flag and the current kind exactly as `ParseLine` specifies, or reports its error. |
| GasTest.GasTest.ParseExpectations | test/libsolidity/GasTest.cpp:70-123 | The outcome is a pass exactly when the specification accepts the lines. On a pass, the fields hold the costs it gives. On a failure, the error is the specification's error. |
| GasTestProperties.DigitChar | test/libsolidity/GasTest.cpp:128-130 | A printed digit is a digit and not whitespace. |
| GasTestProperties.NatToDecimal | test/libsolidity/GasTest.cpp:128-130 | A printed cost is a non-empty string of digits. |
| GasTestProperties.DecimalRoundTrip | test/libsolidity/GasTest.cpp:47-54 | Reading back the printed digits of n gives n. |
| GasTestProperties.NumberAt | test/libsolidity/GasTest.cpp:84-85 | A space followed by a numeral that ends at a non-digit reads as the numeral's value, ending right after it. |
| GasTestProperties.SeparatorAt | test/libsolidity/GasTest.cpp:86-88 | A space followed by the separator reads as that separator. |
| GasTestProperties.CreationFromFields | test/libsolidity/GasTest.cpp:81-96 | A creation line whose number, '+', number, '=', number steps read as given parses to those three costs. |
| GasTestProperties.CreationLayoutParses | test/libsolidity/GasTest.cpp:81-96 | A line laid out as the printer lays it out parses to the values of its three numerals. |
| GasTestProperties.NumberAfterBlank | test/libsolidity/GasTest.cpp:84-85 | Optional whitespace, then a maximal run of digits, reads as the value of those digits and ends after them. |
| GasTestProperties.NumberMissing | test/libsolidity/GasTest.cpp:84-85 | Optional whitespace, then the end of the line or a character that is neither a digit nor whitespace, fails with "source location expected". |
| GasTestProperties.SeparatorFound | test/libsolidity/GasTest.cpp:86-88 | Optional whitespace, then the separator, reads as that separator and resumes after it. |
| GasTestProperties.SeparatorMissing | test/libsolidity/GasTest.cpp:86-88 | Optional whitespace, then the end of the line or another non-whitespace character, fails with that separator's error. |
| GasTestProperties.CreationParses | test/libsolidity/GasTest.cpp:81-96 | With any whitespace, or none, around each number and separator, a creation line parses to the values of its three digit runs. Whatever follows the total is ignored. |
| GasTestProperties.ExecutionMissingFails | test/libsolidity/GasTest.cpp:83-85 | A creation line with no digit after the prefix and optional whitespace fails with "source location expected". |
| GasTestProperties.PlusMissingFails | test/libsolidity/GasTest.cpp:85-88 | A creation line whose execution cost is followed, after optional whitespace, by anything but '+' fails with "expected +". |
| GasTestProperties.EqualsMissingFails | test/libsolidity/GasTest.cpp:85-93 | A creation line whose code deposit cost is followed, after optional whitespace, by anything but '=' fails with "expected =". |
| GasTestProperties.CreationRoundTrip | test/libsolidity/GasTest.cpp:128-130 | The creation line the printer writes is recognised as a creation line and parses back to the same three costs. |
| GasTestProperties.EntryRoundTrip | test/libsolidity/GasTest.cpp:138 | An entry line the printer writes parses back to its name and cost, when the name has no ':' and the cost does not start with whitespace. |
| GasTestProperties.EntryShapeParses | test/libsolidity/GasTest.cpp:105-118 | An entry line parses to a given name and cost if and only if it has the entry shape for them. |
| GasTestProperties.EntryWithoutCommentFails | test/libsolidity/GasTest.cpp:105-106 | An entry line that does not start with "// " fails with "expected // ". |
| GasTestProperties.EntryIndentFails | test/libsolidity/GasTest.cpp:107-109 | An entry line that starts with "// " but not with "//" and three spaces fails, expecting a space. |
| GasTestProperties.EntryWithoutColonFails | test/libsolidity/GasTest.cpp:110-114 | An entry line with no ':' after its indentation fails, expecting ':'. |
| GasTestProperties.EntryWithoutCostFails | test/libsolidity/GasTest.cpp:114-117 | An entry line with only whitespace after its first ':' fails with "expected gas cost". |
| GasTestProperties.EntryLineIsEntry | test/libsolidity/GasTest.cpp:97-103 | A printed entry line is neither a creation line nor a header. |
| GasTestProperties.FoldAppend | test/libsolidity/GasTest.cpp:79 | The loop over two consecutive pieces runs over the first, then over the second from where the first ended. |
| GasTestProperties.Names | test/libsolidity/GasTest.cpp:113 | Every entry's name is among the names. |
| GasTestProperties.Updated | test/libsolidity/GasTest.cpp:113-118 | After adding entries, the map's keys are the old keys plus the entries' names. |
| GasTestProperties.UpdatedLastWins | test/libsolidity/GasTest.cpp:113-118 | The cost recorded for a name is the one in the last entry for that name. |
| GasTestProperties.EntryLines | test/libsolidity/GasTest.cpp:135-138 | One printed line per entry, in order. |
| GasTestProperties.EntriesParse | test/libsolidity/GasTest.cpp:103-119 | Printed entries under a selected kind add exactly those entries, in order, to that kind's map. |
| GasTestProperties.SectionParses | test/libsolidity/GasTest.cpp:97-119 | A printed header followed by its entries parses, extends that kind's map with the entries, and leaves the creation flag alone. |
| GasTestProperties.CreationLineParses | test/libsolidity/GasTest.cpp:81-96 | A printed creation line sets the creation cost and the creation flag. |
| GasTestProperties.FormatParseRoundTrip | test/libsolidity/GasTest.cpp:125-140 | The whole section the printer writes parses back: the creation cost, and each map extended by its printed entries, with the last entry for a name winning. |
| GasTestProperties.CreationLinesKeepKind | test/libsolidity/GasTest.cpp:81-96 | Valid creation lines parse and select no function kind. |
| GasTestProperties.LineErrorEndsSection | test/libsolidity/GasTest.cpp:79-120 | The first line that fails decides the section's error, whatever lines follow it. |
| GasTestProperties.EntryBeforeHeaderFails | test/libsolidity/GasTest.cpp:101-102 | A line that is neither a creation line nor a header, coming before any header, makes the section fail with "no function kind specified", whatever follows. |

## Left out

- The visitor framework (`ASTNode::accept`, `ASTConstVisitor`) is not part of this model. Its traversal is written out as `Accept`/`AcceptAll`. Only the node kinds the analysis reacts to are distinct; every other node is a `Compound` of its children. Parameter and return-parameter declarations are visited by the source, but they record nothing, so they are not modelled.
- `SMTChecker::inlinedFunctionCallToDefinition` is not part of this model. It is the program's `inlinedCallee` parameter.
- `solAssert` calls (VariableUsage.cpp:31, :38, :69, :82, :84) become preconditions: a valid, resolved program, a non-empty call stack, and a visitor state (`Visiting`) that has an outer function.
- The SMT encoding that consumes the touched set is out of scope.
- `TouchedVariables` requires a non-empty call stack, because VariableUsage.cpp:94 reads its last element.
- A function body reached both as a node and through a placeholder is visited twice, as in the source. The touched set is a set, so that is harmless and not modelled separately.
- The `skipWhitespace` and `expect` helpers are not part of this model (they are defined outside GasTest.cpp). They are modelled by their names' meaning: skip the characters C's `isspace` accepts, and consume one given character or fail.
- GasTest.ParseUnsignedInteger: the source accumulates into a 32-bit `int` and can overflow on long numerals. The model reads an unbounded `nat`, and the cost fields it feeds are 256-bit in the source (GasTest.h:37-42).
- GasTest.ParseCreationLine: the source's `*it++` reads past the end of the line when a separator is missing at the very end, which is undefined behaviour in C++. The model treats it as the "expected +" or "expected =" error.
- GasTest.ParseCreationLine: the source gives the '=' error the same message text as the '+' error. The model keeps them apart as `PlusExpected` and `EqualsExpected`, one per throw site.
- GasTest.GasTest.ParseExpectations: on failure the fields are left unspecified. The source may already have written part of the creation cost, or inserted an entry with an empty cost before the ':' check (GasTest.cpp:113). The exception then aborts the test object's construction, so those fields are never observed.
- The test file reading (`ifstream`, `getline`, `parseSourceAndSettings`), running the compiler, and `printSource` are I/O and are not modelled. Lines arrive as a sequence of strings without their line terminators.
- `printUpdatedExpectations` is modelled only as the format partner of the parser (`FormatExpectations`), with the line prefix "// ". The gas estimates it prints come from the compiler's JSON output, which is not part of this model. A kind with no entries is omitted, and the JSON object's iteration order is the order of the given entry lists.
