# Verified models of the toolkit's core algorithms

The repository bundles a Lua 5.3.3 compiler, an SVG parser and rasteriser, a G-code scanner and
parser, an OBJ loader, a DXF reader and an ASCII85 codec. This project models the algorithms in
them that are easy to get wrong, and proves what they are for. Each source file that works by
changing state is a class or a method with loops; each such method is proved equal to a
specification function, and the theorems are about these functions.

`dafny verify dfyconfig.toml` checks everything.

## What is proved

**Lua code generator** (`LuaVM`, `LuaExpr`, `Lcode*`, `FuncState`). `LcodeSpec` holds every
function of `lcode.c` that takes part in compiling call-free expressions, as a function on a state
(code with jump lists threaded through it, register level, constant table and its cache) and an
expression descriptor. `LuaVM` is the instruction set as `lvm.c` executes it, on an abstract
machine: arithmetic on numbers, metamethods, string coercions and comparisons are arbitrary
functions that may fail and that record every operation in a history, so that the order of effects
is part of every theorem. The central idea is to run code whose jumps are still pending and to
treat the pending positions as exits: `CompileSound` says that the code built for an expression
delivers its value whichever exit it takes, with nothing below the register level changed.
`FunctionSound` closes the argument: a function body of local declarations, assignments and a
return is compiled to code that the machine runs to the RETURN in at most one step per
instruction, with the value, the locals, the errors and the history that the source text means.
`AcceptedExactly` says which bodies of moderate length are refused: those that nest deeper than the
C levels, those with more than 200 locals, and those whose stack reaches 255. `FunctionBounded`
says that the code emitted stays within its stack and its constant table. The class
`FuncStates.FuncState` is `FuncState` of `lparser.h` with its fields `code`, `pc`, `jpc`,
`lasttarget`, `freereg`, `nactvar` and the constant table; every method walks the real jump offsets
and is proved equal to its specification.

A result of its own: `codebinexpval` brings its *first* operand into R/K form after the second has
been compiled. A numeral that no longer fits one of the 256 indices of an operand is loaded only
then, behind the code of the second operand, whose jumps may skip the load (`LcodeLate`).
`FullTableFails` says what comes of it, for every second operand and every run: a run that leaves
that operand by a jump of its lists or by its comparison gets the operation on the old contents of
the register, any other run gets it on the numeral; and so the code is right for a run if and only
if the operand fails, is not left by a jump, or the operation makes no difference between the two.
`LimitNeeded` exhibits a whole function of 257 constants that the compiler accepts and the machine
runs to a wrong end. `FunctionSound` therefore has one condition (`LcodeMain.Loadable`), the guard
of that branch: a numeral that is a first operand can be named, or the second operand has no
jumps. Every body of at most 256 leaves and negations meets it (`SmallLoadable`). Everything else
holds without it: well-formedness, bounds, acceptance, and the equality of every method with its
specification.

**Rasteriser** (`RastCover`, `RastList`, `RastSweep`, `RastPaint`, `RastWinding`, `RastDrift`,
`RastFlatten`, `RastNear`, `RastShape`, `RastExact`).
Fixed-point positions are integers, coordinates are reals, the coverage cells wrap at 256. The
active edges are a linked list of heap records that are relinked in place and recycled through the
free list. `RasterizeSortedEdges` paints every row so that each pixel has exactly what its five
sub-scanlines add, from lists that hold exactly the edges crossing them, sorted; the sum never
reaches 256. For closed paths `ClosedPathsExact` says that the filled set is exactly what the fill
rule of section 11.3 of SVG 1.1 asks for, with the edges at the positions that the sweep has stepped
them to. `RastDrift.Position` bounds how far these are from the edges themselves: by less than a
unit at the start and one more for every step, and by nothing more if the step is not rounded.
`RastShape` defines the winding number of closed paths in literal coordinates of their segments and
shows that the edges built from them turn where the segments do. `PaintedExact` puts all together,
over the paths alone: every painted pixel has the area in which the paths wind around its points as
the fill rule asks for, up to the rounding of the spans and the drift of the edges.
`FlattenSound` shows that the subdivision of a curve hands on points of that curve only, at strictly
increasing parameters, and `RastNear.FlattenNear` how near the line between them is to it: the curve
between two of them is nowhere farther from their chord than four ninths of the square root of the
tolerance, and what they leave out is what the depth guard has cut off. `EndKept` gives a condition
on the control points under which the end is among them.

**ASCII85** (`Ascii85`). `RoundTrip` holds for every byte string, including `z` groups and partial
groups, and `TextSpelled` says what the text in between is, digit by digit. The numeric reason is
`RoundUp`: supplying the digit 85 for each missing one rounds up by less than a unit of the bytes
that are dropped.

**G-code** (`GcodeBuffer`, `GcodeTable`, `GcodeScan`, `GcodeScanner`, `GcodeExpr`). A windowed
buffer refines a cursor in a file; the hash tables refine maps; the scanner is proved to split
every input into tokens and gaps without losing a byte, each token being the longest piece of its
shape and carrying the right line. It is delivered with the text that is stored for it, which shows
the bytes of the token unless something in it follows a zero, up to the first token that is too
long. `WordKind` and `SignKind` give the kinds of words and of signs by their characters. The
expression parser inverts a precedence-aware printer, with numerals, parameters and bracketed names
as operands; `NumberSigned` says what any number of signs before an operand comes to.

**OBJ** (`ObjLine`, `ObjAttrib`, `ObjShapes`). Reading a face line gives the corners that were
written, with any blanks between them, unless there are more than the 16 that the array of the
reader has room for; the second pass fills every array that the first one measured, completely and
in order, and the index stored for a vertex, a texture point or a normal, counted from the first
line or back from the face, is the slot of the line that it names; the shapes partition the faces,
and every face is in a group with the name of the last o or g line before it.

**Lua reference list** (`RefList`), **DXF input** (`DxfInput`), **SVG paths** (`SvgPath`). A free list
threaded through table slots never hands out a live reference; a block reader with a push-back
stack refines a cursor, and the position it reports is right exactly if nothing was put back by
moving the index; the points of a path are a start point and whole cubics exactly if every curve
has a start point, which path data with a moveto before each subpath ensures; and for each command
the points that it adds and the point where it ends are given in the coordinates of its arguments.

## Where the code and its description differ

- `codebinexpval` (`lua-5.3.3/src/lcode.c:1018`) expects its first operand to need no code any
  more; a numeral beyond the indices of an operand does (`LcodeLimit.LimitNeeded`).
- `addk` (`lua-5.3.3/src/lcode.c:425`) caches under a key that does not separate all values; the
  proof shows that the type and equality check on a hit makes up for it (`LcodePlace.AddKSound`), and
  that a NaN is never found again (`LcodePlace.AddKAgain`).
- The sweep inserts a record before others at the same position, but behind the first one; the
  order is ascending in either case (`RastList.Insert`).
- The edges are stepped by a rounded slope, so the position of a long one drifts off it:
  `RastDrift.Position` says how far at most, `RastDrift.DriftInput` gives an edge that does.
- The recursion of `nsvg__flattenCubicBez` may drop the end of the curve: `RastFlatten.EndHanded`
  says exactly when, `RastFlatten.PointDropped` and `RastFlatten.ArcEndDropped` show curves for
  which it does, and `RastFlatten.EndKept` curves for which it does not.
- `Ldecode` reads past the end of a text that nothing stops: `Ascii85.OverrunExactly`.
- `UTF8Buffer::Read` returns U+10000 for the character U+10000, which is the value that reports the
  end of the file: `GcodeBuffer.Utf8RoundTrip`.
- `Buffer::Buffer` leaves an empty stream at the position that marks an empty window, not at 0
  (`GcodeBuffer.Buffer.FromStream`), and `Peek` on it ends the program.
- `Scanner::AppendVal` copies the text of a token up to its first zero only (`GcodeScan.ZeroInput`),
  and ends the program at a token of 16384 characters or more (`GcodeScan.TooLongInput`).
- A face line of more than 16 corners is written past the array that holds them, before the
  assertion that would forbid it: `ObjLine.ParseFace`, `ObjLine.OverrunInput`.
- A vertex component that is not written in an OBJ face is stored as the invalid index plus the
  number of such lines before it: `ObjAttrib.MissingComponent`, `ObjAttrib.WrongComponent`.
- The file position of a binary DXF file counts a character again that was put back by moving the
  index and read again: `DxfInput.PositionExact`, `DxfInput.WrongPosition`.
- Curves before the first moveto give a path without a start point: `SvgPath.WholeExactly`.

## Model

| member | source | states |
|---|---|---|
| LcodeInv.LinkChain | lua-5.3.3/src/lcode.c:116-127 | Concatenating two disjoint chains gives the chain of exactly both, and no instruction but jumps of the first list changes |
| LcodeInv.PatchListPatched | lua-5.3.3/src/lcode.c:224-234 | Exactly the listed jumps are redirected, those controlled by a TESTSET to the value target and the others to the default target; only their controlling tests change besides |
| LcodeRun.RunPatch | lua-5.3.3/src/lcode.c:195-234 | Patching a list turns every run that stopped at one of its jumps into one that goes on at its target, with the value of the test copied if a register was given, and leaves all other runs as they were |
| LcodePlace.AddKSound | lua-5.3.3/src/lcode.c:428-452 | Whatever the cache holds, the index is in the table and holds a constant of the same type that is raw-equal to the one asked for, which is no NaN; earlier indices keep their meaning |
| LcodePlace.AddKExact | lua-5.3.3/src/lcode.c:428-452 | While the table has no NaN and no minus zero, the constant is the very one asked for |
| LcodePlace.AddKAgain | lua-5.3.3/src/lcode.c:428-452 | A second request for a constant returns the same index and leaves everything as it is, unless it is a NaN, which is added again |
| LcodePlace.ConstantsOnce | lua-5.3.3/src/lcode.c:428-452 | For any sequence of requests, with whatever other functions left in the cache: every answer is the index of the constant asked for, two answers are the same if and only if the constants are, and the table has none twice and none that was not asked for |
| LcodePlace.MergeNilSound | lua-5.3.3/src/lcode.c:64-83 | A merged LOADNIL sets the same registers as the two separate instructions |
| LcodePlace.PlaceNil | lua-5.3.3/src/lcode.c:64-83 | With or without a merge, every run that ended before now ends with nil in the register and all else as it was: the merge is never made where a jump could enter between the two |
| LcodePlace.PlaceValue | lua-5.3.3/src/lcode.c:595-635 | Discharging a delayed value puts the value it stood for into the register, on every run, and changes no other register |
| LcodeClose.PatchRun | lua-5.3.3/src/lcode.c:224-234 | Runs that stopped at a jump of a list patched to the current end go on to its target |
| LcodeClose.LoadBoolsRun | lua-5.3.3/src/lcode.c:683-688 | The LOADBOOL pair is passed by runs that do not come from a test, and loads false for those that do |
| LcodeClose.FinishList | lua-5.3.3/src/lcode.c:689-692 | Every run that stopped at a jump of the list now ends at the end of the code with the value of that jump in the register |
| LcodeExpr.Exp2RegSound | lua-5.3.3/src/lcode.c:675-696 | Whichever way out the code of an expression takes, the finished code ends at its end with the value in the register, other jumps untouched |
| LcodeOps.NextRegKeeps | lua-5.3.3/src/lcode.c:703-708 | The value is in the first free register, no jumps are left, the meaning and the register level are kept |
| LcodeOps.AnyRegKeeps | lua-5.3.3/src/lcode.c:715-727 | The value is in some register, no jumps are left, the meaning and the register level are kept |
| LcodeOps.RKKeeps | lua-5.3.3/src/lcode.c:758-776 | The value is a register or constant operand of the same meaning |
| LcodeCond.NegateRun | lua-5.3.3/src/lcode.c:825-830 | Negating a comparison exchanges its two ways out and nothing else |
| LcodeCond.BranchNot | lua-5.3.3/src/lcode.c:839-851 | Taking back a NOT and testing its operand branches as testing its result would |
| LcodeCond.GoIfSound | lua-5.3.3/src/lcode.c:857-904 | Runs whose value decides stop at the remaining list with that value; all others come to the end of the code, at the old register level |
| LcodeValue.CodeNotSound | lua-5.3.3/src/lcode.c:910-939 | The code of e, negated, means not e, on every way out, and the invariant and register level are kept |
| LcodeBinary.CodeUnSound | lua-5.3.3/src/lcode.c:1003-1009 | A unary instruction applies the operation to the value of the operand |
| LcodeLate.CodeBinSound | lua-5.3.3/src/lcode.c:1018-1026 | Whatever the operands, the instruction is emitted and both registers are freed; if a first numeral can be named, or no jump leads around its load, the instruction applies the operation to both operands in source order |
| LcodeLate.CodeBinLate | lua-5.3.3/src/lcode.c:758-776 | If the numeral has to be loaded behind the second operand, the instruction applies the operation to it, or, on runs that left that operand by a jump, to what was in the register before |
| LcodeBinary.CodeCompSound | lua-5.3.3/src/lcode.c:1033-1056 | The test jumps exactly when the comparison of the source holds, operands exchanged for > and >= and the sense inverted for ~= |
| LcodeBinary.CodeConcatSound | lua-5.3.3/src/lcode.c:1137-1151 | A concatenation means that of both operands, whether emitted or merged into the one just compiled |
| LcodeCompile.FoldJoins | lua-5.3.3/src/lcode.c:978-995 | A folded operation has the value that the machine would have computed |
| LcodeCompile.FoldsAway | lua-5.3.3/src/lcode.c:978-995 | Numerals under arithmetic operators that cannot fail and give no NaN and no float zero are computed by the compiler: no code, no register, no constant, and the numeral of the value |
| LcodeCompile.CompileSound | lua-5.3.3/src/lparser.c:1047-1074 | Compiler correctness for every expression in every context: the code is well-formed and leaves every other jump and register alone; and unless a jump can skip the load of a numeral, it delivers the value, short-circuit values included, in the same order of operations, and raises the same errors |
| LcodeMain.ExecRun | lua-5.3.3/src/lvm.c:1176-1189 | Closed code followed by a RETURN halts within one step per instruction, as its run says |
| LcodeMain.FunctionSound | lua-5.3.3/src/lparser.c:1444-1536 | If every numeral that is a first operand can be named, or comes before an operand without jumps, then, unless a limit is exceeded, the machine halts having returned the value, left the locals and done the operations that the function body means, or having raised its error |
| LcodeMain.SmallLoadable | lua-5.3.3/src/lcode.c:758-776 | A body of at most 256 leaves and negations meets that condition, whatever the cache holds |
| LcodeLimit.FullTableFails | lua-5.3.3/src/lcode.c:1018-1026 | Where a numeral cannot be named, for every operation, every second operand and every run that comes to it: the code gives the operation on the numeral, or, if the run leaves the second operand by a jump, on the contents of the free register; it is right for that run if and only if the operand fails, is not left by a jump, or the operation makes no difference between the two |
| LcodeLimit.LimitNeeded | lua-5.3.3/src/lcode.c:769 | A function of two parameters and 257 constants is accepted, and the machine, whatever its primitives do, does not do what it means: the condition of FunctionSound cannot be dropped |
| LcodeSteps.CompileWF | lua-5.3.3/src/lcode.c:386-391 | After every expression the lists are disjoint chains through the code, and the register level is the one before it |
| LcodeSteps.BothStacked | lua-5.3.3/src/lcode.c:386-418 | Two operands are freed from the top of the stack down, as the assertion demands, in either order |
| LcodeSteps.BinSteps | lua-5.3.3/src/lcode.c:1018-1026 | The first operand of an arithmetic operation needs no code when it is brought into R/K form, or is loaded while the jumps of the second one wait; both can be freed then |
| LcodeSteps.HeadsDiffer | lua-5.3.3/src/lcode.c:36 | Comparing the two list heads decides whether an expression has jumps |
| LcodeSteps.ConcatSteps | lua-5.3.3/src/lcode.c:1139-1145 | A merged concatenation starts right above its new first operand |
| LcodeRegs.CompileBounded | lua-5.3.3/src/lcode.c:361-369 | While an expression is compiled every instruction stays below the stack size and within the constant table; only tests with a pending jump lack a register |
| LcodeRegs.FunctionBounded | lua-5.3.3/src/lcode.c:361-418 | In the finished code every register is below the stack size, every constant index is in the table, and no TESTSET lacks a register |
| LcodeFits.CompileFits | lua-5.3.3/src/lcode.c:361-378 | An expression takes no more registers than one for each strict operator it is nested to the right of, and nothing is refused below the limits |
| LcodeFits.FunctionFits | lua-5.3.3/src/lcode.c:361-378 | The code is no longer than the size of its text, the stack no higher than its nesting and the constants no more than its leaves and negations; the generator refuses a function if its stack reaches the limit, and only at a limit |
| LcodeFits.AcceptedExactly | lua-5.3.3/src/lparser.c:174-183 | A body of moderate length is accepted if and only if it nests no deeper than the C levels left, has at most 200 locals, and its stack stays below 255 |
| LcodeFits.RefusedInputs | lua-5.3.3/src/lparser.c:329-333 | 250 nested negations are too deep, and 240 locals too many |
| LcodeFits.SmallFunctionSound | lua-5.3.3/src/lparser.c:596-605 | A body of moderate size, nesting and number of locals is accepted, and the machine does what it means |
| FuncStates.FuncState.Concat | lua-5.3.3/src/lcode.c:116-127 | Walks to the last jump of the first list and links it to the second one |
| FuncStates.FuncState.PatchTestReg | lua-5.3.3/src/lcode.c:195-207 | Gives the controlling TESTSET its register, or turns it into a TEST, and says whether there was one |
| FuncStates.FuncState.NeedValue | lua-5.3.3/src/lcode.c:659-665 | Tells whether some jump of the list does not produce a value |
| FuncStates.FuncState.PatchListAux | lua-5.3.3/src/lcode.c:224-234 | Walks the stored offsets while it overwrites them, and patches the whole list |
| FuncStates.FuncState.DischargeJpc | lua-5.3.3/src/lcode.c:242-245 | The jumps pending to the current position are patched to it and forgotten |
| FuncStates.FuncState.PatchToHere | lua-5.3.3/src/lcode.c:252-255 | The list joins the jumps pending to the current position |
| FuncStates.FuncState.Jump | lua-5.3.3/src/lcode.c:136-143 | The jumps to the new jump are kept on hold in its own list |
| FuncStates.FuncState.Nil | lua-5.3.3/src/lcode.c:64-83 | Merges with the previous instruction exactly if no jump leads to the current position and the ranges meet |
| FuncStates.FuncState.ReserveRegs | lua-5.3.3/src/lcode.c:361-378 | The level rises and the stack size follows; too many registers are an error |
| FuncStates.FuncState.FreeRegister | lua-5.3.3/src/lcode.c:386-391 | Frees a temporary register; the assertion that it is the topmost one holds at every call |
| FuncStates.FuncState.FreeExpressions | lua-5.3.3/src/lcode.c:407-418 | Frees both operands in the order in which the assertion holds |
| FuncStates.FuncState.AddConstant | lua-5.3.3/src/lcode.c:428-452 | Looks the constant up, checks the hit, or appends it |
| FuncStates.FuncState.DischargeToReg | lua-5.3.3/src/lcode.c:595-635 | Every kind of expression goes to the register as LcodePlace.PlaceValue describes; only a pending test is left alone |
| FuncStates.FuncState.ExpToReg | lua-5.3.3/src/lcode.c:675-696 | In every state that satisfies the invariant the code and the jump lists become those of LcodeExpr.Exp2RegSound |
| FuncStates.FuncState.ExpToAnyReg | lua-5.3.3/src/lcode.c:715-727 | Equal to its specification; the register returned is the one in the descriptor |
| FuncStates.FuncState.ExpToRK | lua-5.3.3/src/lcode.c:758-776 | Equal to its specification, operand included |
| FuncStates.FuncState.StoreVar | lua-5.3.3/src/lcode.c:782-803 | The value goes to the register of the local, and its own register is freed |
| FuncStates.FuncState.JumpIf | lua-5.3.3/src/lcode.c:839-851 | Takes a NOT back from the code, or tests the value in a register |
| FuncStates.FuncState.GoThrough | lua-5.3.3/src/lcode.c:857-904 | Both goiftrue and goiffalse: the new jump joins one list, the other ends here |
| FuncStates.FuncState.CodeNegation | lua-5.3.3/src/lcode.c:910-939 | Negates the value, exchanges the lists, removes their values |
| FuncStates.FuncState.Fold | lua-5.3.3/src/lcode.c:978-995 | Folds exactly the operations that cannot fail and whose result is no NaN and no float zero |
| FuncStates.FuncState.FirstToRK | lua-5.3.3/src/lcode.c:1020 | The first operand goes into R/K form, while the jumps and the waiting instruction of the second one are left as they are |
| FuncStates.FuncState.CodeArith | lua-5.3.3/src/lcode.c:1018-1026 | Equal to its specification for all operands, the second operand freed before the first if it is above it |
| FuncStates.FuncState.CodeConcatenation | lua-5.3.3/src/lcode.c:1137-1151 | Extends the concatenation just emitted, or emits one |
| FuncStates.FuncState.CodeCompare | lua-5.3.3/src/lcode.c:1033-1056 | Equal to its specification, leaving the pending test in the first descriptor |
| FuncStates.FuncState.Prefix | lua-5.3.3/src/lcode.c:1062-1075 | Folds or emits a unary operation |
| FuncStates.FuncState.Infix | lua-5.3.3/src/lcode.c:1082-1111 | Prepares the first operand as its operator needs it |
| FuncStates.FuncState.Posfix | lua-5.3.3/src/lcode.c:1120-1167 | Joins lists, merges, folds or emits, the result in the first descriptor |
| FuncStates.FuncState.SubExpr | lua-5.3.3/src/lparser.c:1047-1074 | Drives the generator over an expression tree; every assertion of the generator holds on the way, and the text is refused if and only if its levels exceed the C levels left |
| FuncStates.LexState.EnterLevel | lua-5.3.3/src/lparser.c:329-333 | One more C level is in use; more than there are refuse the text |
| FuncStates.FuncState.Operand | lua-5.3.3/src/lparser.c:1051-1071 | An operand and the operators behind it at one level: unary chains and second operands take a further level each, first operands none |
| FuncStates.FuncState.Statement | lua-5.3.3/src/lparser.c:1539-1605 | Code and locals of a statement, and its refusals: too deep, or one local too many |
| FuncStates.CompileFunction | lua-5.3.3/src/lparser.c:596-605 | An error is raised if and only if the body nests too deep, has too many locals, or needs too many registers, as long as jumps reach through it; otherwise the code is that of the specification, and does, for all arguments and histories, what the body means, if no jump can skip the load of a numeral |
| Ascii85.RoundUp | ascii85/lascii85.c:99-105 | A truncated group, rounded up by one unit of its last digit, still has the same leading bytes |
| Ascii85.TextSpelled | ascii85/lascii85.c:19-54 | The text is <~, the groups, ~>; a group of n bytes is z for four zero bytes, and otherwise the first n + 1 of the five base-85 digits of its big-endian number, most significant first, each as the character 33 plus the digit |
| Ascii85.GroupRound | ascii85/lascii85.c:56-67 | Decoding the digits of a group of one to four bytes gives these bytes |
| Ascii85.RoundTrip | ascii85/lascii85.c:36-114 | Decoding what was encoded gives it back, for every byte string |
| Ascii85.BlankIgnored | ascii85/lascii85.c:108-110 | A blank anywhere but after a tilde can be left out of a text without changing what it decodes to |
| Ascii85.OverrunExactly | ascii85/lascii85.c:80-112 | The decoder runs past the text exactly if it consists of digits, z and blanks only |
| Ascii85.Encode | ascii85/lascii85.c:19-34 | Appends the digits of the number of four bytes, one more than n, or z for four zero bytes |
| Ascii85.Lencode | ascii85/lascii85.c:36-54 | The text of all groups between the marks, spelled as in Ascii85.TextSpelled |
| Ascii85.Decode | ascii85/lascii85.c:56-68 | Appends the leading bytes of the number that five digits stand for |
| Ascii85.Ldecode | ascii85/lascii85.c:70-114 | Decodes texts and rejects the others as the code does, reading no further than the terminating zero unless it overruns |
| RastCover.SpansExact | luaSVG/nanosvgrast.h:916-948 | The filled spans are exactly the points of nonzero (or odd) winding if and only if all edges cancel out |
| RastCover.GainRounds | luaSVG/nanosvgrast.h:886-911 | Rounding loses less than one unit of a cell for each span |
| RastCover.OverlapIsArea | luaSVG/nanosvgrast.h:886-911 | The overlaps of a pixel with all spans add up to its covered area |
| RastCover.LineBound | luaSVG/nanosvgrast.h:916-948 | A sub-scanline adds at most 51 to a pixel, and 51/1024 of its covered area up to rounding |
| RastCover.FillScanline | luaSVG/nanosvgrast.h:886-911 | Each pixel in range gains floor(51 * overlap / 1024), the others nothing; the extent covers the span |
| RastList.InversionsSwap | luaSVG/nanosvgrast.h:1145-1155 | Exchanging two neighbours in the wrong order leaves fewer inversions |
| RastList.BubblePass | luaSVG/nanosvgrast.h:1143-1155 | A pass relinks the same records; it changes nothing only if they are sorted, and otherwise removes inversions |
| RastList.Resort | luaSVG/nanosvgrast.h:1141-1157 | The loop ends, and leaves the same records in ascending order |
| RastList.Insert | luaSVG/nanosvgrast.h:1164-1179 | The new record joins the list, which stays in ascending order |
| RastSweep.Rasterizer.FreeActive | luaSVG/nanosvgrast.h:880-884 | The record becomes the head of the free list |
| RastSweep.Rasterizer.AddActive | luaSVG/nanosvgrast.h:850-878 | A recycled or new record, apart from all others, at the position of its edge |
| RastSweep.Rasterizer.Expire | luaSVG/nanosvgrast.h:1127-1139 | Exactly the edges that have ended go to the free list, the others move on one step; no record is lost |
| RastSweep.Rasterizer.InsertEdges | luaSVG/nanosvgrast.h:1159-1182 | Afterwards the records are exactly those of the edges begun and not ended, sorted; no record is lost |
| RastSweep.Expired | luaSVG/nanosvgrast.h:1127-1139 | Removing the edges that end before the centre leaves one record for each of the others |
| RastSweep.RecordsAdd | luaSVG/nanosvgrast.h:1160-1182 | Taking in the next edge keeps one record for each live edge |
| RastPaint.ActiveExact | luaSVG/nanosvgrast.h:1122-1187 | When a sub-scanline is filled, the active list is exactly the edges with y0 <= centre < y1 |
| RastPaint.FillActiveEdges | luaSVG/nanosvgrast.h:916-948 | Every cell gains what the spans of the sorted list add to its pixel, within the extent |
| RastPaint.PaintRow | luaSVG/nanosvgrast.h:1119-1193 | The painted row has, at every pixel of the bitmap, the sum over its five sub-scanlines |
| RastPaint.RowNext | luaSVG/nanosvgrast.h:1115-1122 | After n sub-scanlines a cell is at most 51 n, so no sum wraps, and nonzero cells are within the extent |
| RastPaint.RasterizeSortedEdges | luaSVG/nanosvgrast.h:1110-1196 | All rows are painted from sorted lists of exactly the crossing edges |
| RastWinding.ShapeSum | luaSVG/nanosvgrast.h:283-313 | The edges of closed paths cancel out on every sub-scanline |
| RastWinding.TallySorted | luaSVG/nanosvgrast.h:839-847 | Sorting the edges changes no sum over them |
| RastWinding.PartAll | luaSVG/nanosvgrast.h:916-948 | The winding sum of a list of the crossing edges does not depend on their order |
| RastWinding.ClosedPathsExact | luaSVG/nanosvgrast.h:916-948 | For closed paths a point of a sub-scanline is filled exactly if the crossing edges that the sweep has stepped to it or to its left wind around it, or are odd in number |
| RastDrift.Position | luaSVG/nanosvgrast.h:864-871 | The stepped position of an edge is off the edge by less than one unit at the start and one more for every step; only by rounding down if the step is whole |
| RastDrift.DriftInput | luaSVG/nanosvgrast.h:864-871 | The edge from (0, 0) to (0.9, 1000) is stepped straight down, nine tenths of a pixel off at its end |
| RastDrift.CountBound | luaSVG/nanosvgrast.h:1127-1139 | An edge is on another side of no more points than its drift |
| RastDrift.DifferingBound | luaSVG/nanosvgrast.h:1127-1139 | The points of a pixel for which some edge is on another side than it should be are no more than the drift of all crossing edges |
| RastExact.LineExact | luaSVG/nanosvgrast.h:886-948 | What a sub-scanline of closed paths adds to a pixel is 51/1024 of the extent in which the winding number of the paths satisfies the fill rule, up to half a unit for each edge and the drift of the edges |
| RastExact.PaintedExact | luaSVG/nanosvgrast.h:1110-1196 | Every painted pixel of closed paths has, up to that rounding and drift, 51/1024 of the extent of its five sub-scanlines in which the winding number of the paths, moved by (tx, ty), satisfies the fill rule, in whatever order the active edges came |
| RastFlatten.BernsteinForm | luaSVG/nanosvg.h:543-547 | The curve in its parametric form |
| RastFlatten.HandedOnCurve | luaSVG/nanosvgrast.h:328-364 | Every point handed on by the recursion is on the original curve, at the parameter of its interval |
| RastFlatten.FlattenSound | luaSVG/nanosvgrast.h:328-364 | At most 1024 points, all on the curve, at strictly increasing dyadic parameters in (0, 1] |
| RastFlatten.EndHanded | luaSVG/nanosvgrast.h:336-355 | The end of the curve is handed on exactly if the depth guard does not cut off its last part |
| RastFlatten.PointDropped | luaSVG/nanosvgrast.h:347-355 | A curve that is a single point is dropped altogether, for every tolerance |
| RastFlatten.ArcEndDropped | luaSVG/nanosvgrast.h:336-355 | A symmetric arc 3 * 2^20 wide at tolerance 1/4 is drawn without its end |
| RastFlatten.EndKept | luaSVG/nanosvgrast.h:336-355 | The end is handed on if the legs of the control polygon differ little enough for the tolerance and the last leg is not too short |
| RastFlatten.AddedSpaced | luaSVG/nanosvgrast.h:235-258 | The points stored before stay, new ones were handed on, neighbours are apart, and every point handed on coincides with a stored one, which has its flags |
| RastNear.FlatExactly | luaSVG/nanosvgrast.h:347-355 | The flatness test holds if and only if the distances of both inner control points from the chord add up to less than the square root of the tolerance |
| RastNear.FlatNear | luaSVG/nanosvgrast.h:347-355 | Then every point of the curve is nearer to the line of its ends than 4/9 of that root |
| RastNear.FlattenNear | luaSVG/nanosvgrast.h:328-364 | The points handed on end parts of the curve that follow each other; each part is that near to the line between its ends, and what is in no part was cut off by the depth guard |
| RastShape.Rasterizer.AddPathPoint | luaSVG/nanosvgrast.h:235-258 | Appends the point, or merges its flags into the last one if they coincide |
| RastShape.Rasterizer.FlattenCubicBez | luaSVG/nanosvgrast.h:328-364 | Adds the points that the subdivision hands on, in order |
| RastShape.Rasterizer.AddSegment | luaSVG/nanosvgrast.h:283-313 | Appends the edge of a segment, none if it is horizontal |
| RastShape.Rasterizer.FlattenPath | luaSVG/nanosvgrast.h:371-382 | The points of a path: its scaled start, those of each cubic, its start again |
| RastShape.Rasterizer.BuildEdges | luaSVG/nanosvgrast.h:383-385 | The edges around the points, the first one from the last point |
| RastShape.Rasterizer.FlattenShape | luaSVG/nanosvgrast.h:366-387 | The edges of the outlines of all paths |
| RastShape.Rasterizer.PlaceEdges | luaSVG/nanosvgrast.h:1394-1401 | Every edge is moved to its place on the bitmap |
| RastShape.EdgeTurn | luaSVG/nanosvgrast.h:283-313 | An edge counts for the winding number to the right of the very place where its segment is at that height, with the sign of its direction |
| RastShape.ShapeTurns | luaSVG/nanosvgrast.h:366-387 | So the edges of closed paths sum up to the winding number of their segments |
| RastShape.EdgesWind | luaSVG/nanosvgrast.h:1392-1404 | On the bitmap the sorted edges wind around a point as the segments of the paths wind around it before they are moved |
| GcodeBuffer.Buffer.FromStream | gcode-parser/Scanner.cpp:230-250 | The cursor is at 0, unless the stream is empty; then it is at the mark of an empty window |
| GcodeBuffer.Buffer.Read | gcode-parser/Scanner.cpp:290-301 | The byte at the cursor, which advances, wherever the window is; the end of the file is reported without moving |
| GcodeBuffer.Buffer.Peek | gcode-parser/Scanner.cpp:303-310 | The byte at the cursor, which stays; on an empty stream the program ends |
| GcodeBuffer.Buffer.SetPos | gcode-parser/Scanner.cpp:328-354 | The cursor is at the position asked for, whether the window has to move or not; the program ends if and only if it is outside the file |
| GcodeBuffer.Buffer.ReadUtf8 | gcode-parser/Scanner.cpp:383-412 | Refines decoding at a cursor in the file |
| GcodeBuffer.EncodeRead | gcode-parser/Scanner.cpp:383-412 | Decoding the encoding (section 3 of RFC 3629) of any scalar value gives that value and stops behind it |
| GcodeBuffer.EncodeExamples | gcode-parser/Scanner.cpp:383-412 | The encoding is that of the examples in section 7 of RFC 3629 |
| GcodeBuffer.Utf8RoundTrip | gcode-parser/Scanner.cpp:383-412 | Reading an encoded text to the end gives the text if and only if it does not contain U+10000 |
| GcodeTable.Table.Set | gcode-parser/Scanner.h:173-177 | The chained table refines a map |
| GcodeTable.Table.Get | gcode-parser/Scanner.h:179-183 | The last value set for the key, or the default |
| GcodeScan.StartKnown | gcode-parser/Scanner.cpp:454-483 | Every character starts a token, and only the end of the file starts the last one |
| GcodeScan.SkipGap | gcode-parser/Scanner.cpp:650-653 | What is skipped before a token is blanks and comments, each comment up to its line end |
| GcodeScan.LongestMatch | gcode-parser/Scanner.cpp:654-744 | A token has the shape of its kind, and no longer piece of the input from the same place has it |
| GcodeScan.WordKind | gcode-parser/Scanner.cpp:484-508 | In the tokens of an input, a word of one of the 25 letters in either case has the kind of that letter, any other word is an identifier, and the next token begins behind it |
| GcodeScan.SignKind | gcode-parser/Scanner.cpp:471-482 | Each of ( ) % = + - / * ^ [ ] is a token of its own kind, whatever comes behind it |
| GcodeScan.Lossless | gcode-parser/Scanner.cpp:649-744 | Tokens and gaps tile the input to its end; every token carries the text that is stored for its bytes, and the number of its line |
| GcodeScan.StoredExactly | gcode-parser/Scanner.cpp:645-646 | The text stored is the one scanned if and only if nothing in it comes after a zero |
| GcodeScan.ShownExactly | gcode-parser/Scanner.cpp:633-647 | All tokens of an input show their own bytes if and only if none of them has something after a zero |
| GcodeScan.ShownWithoutZero | gcode-parser/Scanner.cpp:633-647 | So they do if the input has no zero byte |
| GcodeScan.ZeroInput | gcode-parser/Scanner.cpp:645 | The three bytes 3A 00 3A are one token that shows only the first |
| GcodeScan.DeliveredExactly | gcode-parser/Scanner.cpp:634-640 | The tokens before the first that is too long are delivered; all of them if and only if none is |
| GcodeScan.TooLongInput | gcode-parser/Scanner.cpp:634-640 | A word of 16384 letters or more is never delivered |
| GcodeScanner.InitStart | gcode-parser/Scanner.cpp:454-483 | The hash table agrees with the start state of every character |
| GcodeScanner.InitKeywords | gcode-parser/Scanner.cpp:484-508 | The hash table agrees with the kind of every word |
| GcodeScanner.Scanner.NextCh | gcode-parser/Scanner.cpp:545-558 | Advances one character, a lone CR read as LF, counting lines; replays a line end that ended a comment |
| GcodeScanner.Scanner.Comment0 | gcode-parser/Scanner.cpp:575-586 | Stops at the line end behind the comment, which is still to be read |
| GcodeScanner.Scanner.ScanToken | gcode-parser/Scanner.cpp:654-744 | The automaton finds the token that the specification does |
| GcodeScanner.Scanner.AppendVal | gcode-parser/Scanner.cpp:633-647 | The text up to its first zero, padded with zeros; the program ends if it does not fit a block |
| GcodeScanner.Scanner.NextToken | gcode-parser/Scanner.cpp:649-744 | The next token with its stored text, and the position behind it; none if and only if it is too long |
| GcodeScanner.Scanner.ScanAll | gcode-parser/Scanner.cpp:754-761 | Scanning ends, with the tokens that tile the input, or with those before the first one that is too long |
| GcodeExpr.ParseTree | gcode-parser/Parser.cpp:496-568 | A tree printed at a precedence level is taken by the function of that level |
| GcodeExpr.ParseOfPrint | gcode-parser/Parser.cpp:496-568 | Parsing the text of any tree of numerals, parameters #n, bracketed names and parameters takes exactly that text, reports no error and returns its value, signs binding tighter than ^ and + - * / associating to the left; a name or parameter is worth the stored text |
| GcodeExpr.NumberSigned | gcode-parser/Parser.cpp:331-342 | Behind any signs a numeral is read with a minus in front if and only if the number of minuses is odd; a parameter is read as what is stored for it, without a sign |
| GcodeExpr.NumberOfLeaf | gcode-parser/Parser.cpp:473-494 | A numeral, #n, [name] and [#n] are each taken to their end, the last three as what is stored for them |
| GcodeExpr.SignsScanned | gcode-parser/Scanner.cpp:471-482 | The characters of the operators, parentheses and brackets are scanned to the tokens that the grammar takes for them |
| GcodeExpr.Parser.Error | gcode-parser/Parser.cpp:37-40 | Errors close to the last one are not reported |
| GcodeExpr.Parser.Require | gcode-parser/Parser.cpp:67-69 | Takes the expected token, or reports an error and takes nothing |
| GcodeExpr.Parser.Number | gcode-parser/Parser.cpp:473-494 | The text of a number, with a minus in front unless its sign is 1, or that of a parameter, without its sign |
| GcodeExpr.Parser.NumberSign | gcode-parser/Parser.cpp:331-342 | The same behind any number of signs |
| GcodeExpr.Parser.Add | gcode-parser/Parser.cpp:496-516 | Equal to its specification on every token sequence, well-formed or not |
| GcodeExpr.Parser.Power | gcode-parser/Parser.cpp:535-544 | Takes one exponent only |
| GcodeExpr.Parser.Single | gcode-parser/Parser.cpp:546-568 | Signs, parentheses, numbers and parameters |
| ObjLine.MyAtoi | luaObjLoader/tinyobj_loader_c.h:156-169 | The value of an optional sign and the digits behind it |
| ObjLine.ParseRawTriple | luaObjLoader/tinyobj_loader_c.h:179-225 | The components of a corner, in any of the four forms, and the place behind it |
| ObjLine.CornerRead | luaObjLoader/tinyobj_loader_c.h:179-225 | A corner written in one of the four forms i, i/j, i//k, i/j/k is read back |
| ObjLine.CornersOfWritten | luaObjLoader/tinyobj_loader_c.h:816-826 | Reading the corners of a face line gives those that were written, with any blanks, tabs and carriage returns after each, up to the end of the line |
| ObjLine.FaceOfWritten | luaObjLoader/tinyobj_loader_c.h:812-826 | So it is for the whole line behind the f |
| ObjLine.ReadCorners | luaObjLoader/tinyobj_loader_c.h:816-826 | The loop fills the slots of the array with the corners of the line, or runs past its end exactly if there are more corners |
| ObjLine.FanAt | luaObjLoader/tinyobj_loader_c.h:840-851 | A polygon of k corners becomes k - 2 triangles, corner 0 with each later edge |
| ObjLine.ParseFace | luaObjLoader/tinyobj_loader_c.h:812-866 | The command of a face line, triangulated or not; refused where an assertion fails; an overrun exactly if there are more than 16 corners |
| ObjLine.OverrunInput | luaObjLoader/tinyobj_loader_c.h:814-826 | Any 17 or more corners, written as a line, overrun |
| ObjAttrib.CountAll | luaObjLoader/tinyobj_loader_c.h:1003-1026 | The first pass finds exactly the sizes of the data |
| ObjAttrib.Attrib.StorePoint | luaObjLoader/tinyobj_loader_c.h:1092-1105 | The next attribute slots are written, those before stay |
| ObjAttrib.Attrib.StoreFace | luaObjLoader/tinyobj_loader_c.h:1106-1125 | The corners are resolved against the lines before the face |
| ObjAttrib.Construct | luaObjLoader/tinyobj_loader_c.h:1050-1127 | Both passes agree: every array is filled completely, in the order of the lines |
| ObjAttrib.StoredCorner | luaObjLoader/tinyobj_loader_c.h:1106-1125 | The slot of corner j of line i, and each of its indices there: one less than written, or, if negative, counted back from the lines of its kind before the face |
| ObjAttrib.RelativeIndex | luaObjLoader/tinyobj_loader_c.h:1106-1125 | Counted from the first line or back from the face, the stored index of a vertex is the slot that holds the coordinates of its line |
| ObjAttrib.RelativeTexture | luaObjLoader/tinyobj_loader_c.h:1106-1125 | The same for the coordinates of a vt line |
| ObjAttrib.RelativeNormal | luaObjLoader/tinyobj_loader_c.h:1106-1125 | The same for the coordinates of a vn line |
| ObjAttrib.StoredSizes | luaObjLoader/tinyobj_loader_c.h:1118-1121 | The numbers of vertices of the faces of a line are stored in order behind those before it |
| ObjAttrib.MissingComponent | luaObjLoader/tinyobj_loader_c.h:1106-1125 | A component that is not written is stored as invalid if and only if there is no such line before the face |
| ObjAttrib.WrongComponent | luaObjLoader/tinyobj_loader_c.h:172-177 | After one vt line a face without texture indices is stored with an index that is neither valid nor the invalid one |
| ObjShapes.BuildShapes | luaObjLoader/tinyobj_loader_c.h:1129-1224 | The shapes are nonempty, contiguous, in order and tile the faces; each has the faces and the name of one group; there are at most as many as were allocated |
| ObjShapes.FaceName | luaObjLoader/tinyobj_loader_c.h:1160-1224 | A face is in a group with the name of the last o or g line before it, or with none if there is none |
| ObjShapes.FaceApart | luaObjLoader/tinyobj_loader_c.h:1160-1224 | Two faces are in different groups if and only if an o or g line is between them |
| RefList.BorderUnique | lua-5.3.3/src/lauxlib.c:611 | With an empty free list the length of the table is determined, and the slot behind it is fresh |
| RefList.RefKeeps | lua-5.3.3/src/lauxlib.c:596-614 | A new reference is positive and not live, the live ones keep their values, and the free list loses its first slot |
| RefList.UnrefKeeps | lua-5.3.3/src/lauxlib.c:617-625 | The freed slot becomes the head of the list, and the other references stay |
| RefList.RunsSafe | lua-5.3.3/src/lauxlib.c:596-625 | After every run that frees live references only, the live ones hold their values and the list is acyclic and exactly the freed slots |
| RefList.Registry.LRef | lua-5.3.3/src/lauxlib.c:596-614 | The reference is fresh and holds the value; nil has a fixed reference |
| RefList.Registry.LUnref | lua-5.3.3/src/lauxlib.c:617-625 | The reference is live no more; a negative one is ignored |
| DxfInput.Input.DoBufferRead | dimeDXF/src/Input.cpp:640-671 | The next block; the cursor stays |
| DxfInput.Input.Get | dimeDXF/src/Input.cpp:717-744 | The character at the cursor, from the push-back stack, the block or the next block |
| DxfInput.Input.PutBack | dimeDXF/src/Input.cpp:678-684 | The cursor retreats by one, in the block or on the stack |
| DxfInput.Input.PutBackString | dimeDXF/src/Input.cpp:691-700 | The cursor retreats by the whole string, across a block boundary too |
| DxfInput.PositionExact | dimeDXF/src/Input.cpp:608-611 | After any run of reads and put-backs the position reported for a binary file is that of the next character if and only if the stack is empty and no put-back moved the index |
| DxfInput.WrongPosition | dimeDXF/src/Input.cpp:678-684 | Reading a character, putting it back and reading it again reports two |
| DxfInput.Input.SkipWhiteSpace | dimeDXF/src/Input.cpp:751-764 | To the first character that is no blank |
| DxfInput.Input.NextLine | dimeDXF/src/Input.cpp:767-784 | Behind the next line end: an LF, or a run of CRs with an LF if one follows |
| DxfInput.LineEndIs | dimeDXF/src/Input.cpp:767-784 | The line ends at the first LF or CR: behind the LF, or behind the run of CRs and an LF that follows it; it is not complete if there is none, or nothing behind the CRs |
| DxfInput.Input.ReadChar | dimeDXF/src/Input.cpp:878-899 | Takes the character if and only if it is the one wanted |
| DxfInput.Input.ReadDigits | dimeDXF/src/Input.cpp:855-870 | The longest run of digits; the character behind it is put back |
| SvgPath.PerformCount | luaSVG/nanosvg.h:2139-2191 | A command keeps start point and whole cubics if and only if it does not draw a curve without a start point; an arc that degenerates to a line is none |
| SvgPath.WholeExactly | luaSVG/nanosvg.h:2127-2225 | The points are none, or a start point and whole cubics, in every state of a run if and only if every curve of the path data has a start point |
| SvgPath.PathsWhole | luaSVG/nanosvg.h:1013-1060 | Then every path that is committed is a start point and whole cubics |
| SvgPath.PathDataWhole | luaSVG/nanosvg.h:2102-2231 | So it is for path data in which every subpath begins with a moveto and its coordinates, or where the one before it was closed |
| SvgPath.CubicsFit | luaSVG/nanosvg.h:1041-1055 | Going on by three points finds whole cubics all the way if and only if the points are a start point and whole cubics |
| SvgPath.CubicsOf | luaSVG/nanosvgrast.h:370-377 | The loop visits the cubics of a whole path, each once and in order, and reads no point behind them |
| SvgPath.LineIsCubic | luaSVG/nanosvg.h:703-715 | The cubic stored for a line is the line at every parameter |
| SvgPath.QuadIsCubic | luaSVG/nanosvg.h:1900-1932 | The cubic stored for a quadratic curve is that curve at every parameter |
| SvgPath.LineCommands | luaSVG/nanosvg.h:1811-1839 | L x y, H x and V y draw a line to (x, y), (x, cur.y) and (cur.x, y), which becomes the current point and the last control point |
| SvgPath.CubicCommand | luaSVG/nanosvg.h:1841-1868 | C adds its three points; the second is the last control point |
| SvgPath.ShortCubicCommand | luaSVG/nanosvg.h:1870-1898 | S adds the last control point, mirrored in the current point, and its two points |
| SvgPath.QuadraticCommand | luaSVG/nanosvg.h:1900-1932 | Q adds the cubic of its quadratic curve, whose control point becomes the last one |
| SvgPath.ShortQuadraticCommand | luaSVG/nanosvg.h:1934-1965 | T does so with the last control point, mirrored in the current point |
| SvgPath.MoveCommand | luaSVG/nanosvg.h:1799-1809 | M commits what is open, not closed, and leaves its point as the only one, the current point and the last control point; further coordinates are lines |
| SvgPath.CloseCommand | luaSVG/nanosvg.h:2208-2223 | Z commits the path with a line back to its first point, where the next one starts |
| SvgPath.FinishCommits | luaSVG/nanosvg.h:2226-2228 | What is open at the end of the data is committed, not closed |
| SvgPath.ArcCommand | luaSVG/nanosvg.h:1983-2020 | A draws a line to (x, y) exactly if that is where it begins, or a radius is nothing, and ends there in any case |
| SvgPath.RelativeCommands | luaSVG/nanosvg.h:1799-1965 | m, l, c, s, q and t draw what the upper-case command does with the current point added to every coordinate |
| SvgPath.RelativeLines | luaSVG/nanosvg.h:1823-1839 | h and v add their argument to one coordinate |
| SvgPath.RelativeArc | luaSVG/nanosvg.h:1983-2020 | a is A with its end counted from the current point |
| SvgPath.Repeated | luaSVG/nanosvg.h:2138-2191 | Further arguments repeat the command |
| SvgPath.Parser.LineToPoint | luaSVG/nanosvg.h:703-715 | Adds nothing without a start point, else three points |
| SvgPath.Parser.ArcToPoint | luaSVG/nanosvg.h:1976-2020 | A degenerate arc is a line; any other one is cubics |
| SvgPath.Parser.CommitPath | luaSVG/nanosvg.h:1013-1060 | Too few points are no path; a closed one gets its last line first |
| SvgPath.Parser.ParsePath | luaSVG/nanosvg.h:2102-2231 | Equal to its specification on every sequence of items |

## Left out

Lua:
- Upvalues, tables, calls, varargs, SETLIST, control statements and multiple assignment: they need more of the parser and of the machine.
- Lexing and operator priorities: the generator is driven over a tree, in the order in which `subexpr` does it.
- `OP_LOADKX`: the constants of a function fit the 2^18 indices of `OP_LOADK`.
- Locals changed by a metamethod while an expression is evaluated, and garbage collection.
- Integer overflow and IEEE rounding: arithmetic on numbers is an arbitrary function, the same when folding and when running.
- Line information, and the names of locals.
- LcodeMain.FunctionSound: says nothing of the runs of a body that is not `LcodeMain.Loadable`; for each of its operations `LcodeLimit.FullTableFails` decides them.
- FuncStates.FuncState.SubExpr: carries on after a limit is exceeded, and reports it at the end; the code raises the error at once.

Rasteriser:
- Stroking, joins and caps, clipping of the bitmap, blending and paints: the model ends with the coverage of a row.
- The page pool behind `nsvg__alloc` and failing allocations: a new record is a new object.
- Float rounding of coordinates and slopes: they are reals.

ASCII85:
- Integer width: five digits fit the 64 bits of a `long`.

G-code:
- The switch to the UTF-8 buffer at a byte order mark, streams that cannot seek, and `GetString`.
- Wide characters of any size but four bytes, with which `GcodeScan.TooLong` limits a token to 16383 characters (it would be 32767 with two).
- Columns and character positions of tokens, tokens looked ahead by `Peek`, and which heap block a token and its text lie in.
- The commands of the grammar outside expressions, parameters set and read, and the value of a number's text: an arbitrary function.

OBJ:
- Splitting the file into lines, parsing of floats, MTL files and the other commands.
- `my_atoi` on numbers that overflow an `int`.

SVG:
- The points of an arc: the model takes any nonempty sequence of cubics for one that does not degenerate. Splitting path data into items.
- Bounds, transformation and `nsvg__addShape`.

DXF:
- Compressed files, hexadecimal digits, numbers and group codes, and the callback at every block.

Everything else:
- Bindings to Lua, entities and model of the DXF library, the G-code callbacks and the user interface.
