# GrokLang toolchain, verified model

GrokLang programs are parsed, compiled to 32-bit register code, perhaps obfuscated, stored as bytes, and run by the
GLVM register machine.  This project models that toolchain and the self-contained algorithms the repository ships
beside it, and proves what they promise for all inputs, all runs and all random draws.

The centre is one theorem, `Pipeline.WholeToolchain`: compile, obfuscate, encode, decode and run, and the outcome,
the globals and the sequence of operations and native calls, which may never end, are those of a big-step semantics of
the source (`Semantics.dfy`) that knows nothing of the compiler, of registers, jumps or the constant pool.  What both
sides take for granted, the operators, truth, names and the first line of an error, is stated on its own in `Language`
and `ExprCorrect`, and what each instruction does in `Instructions`.

| files | what they model |
|---|---|
| `Bytecode`, `Ast`, `Vm`, `Traces`, `Semantics` | instructions and chunks; the syntax tree; the machine as a step function; what can be seen of a run; what a program means |
| `VmImpl` | the execute loop on frame objects updated in place, proved against the step function |
| `Compiler`, `CompilerImpl` | what each method of `funcCompiler` does to its fields; those methods themselves, on a class |
| `CompilerShape`, `StmtShape` | register allocation, back-patching, what compiling keeps |
| `MachineSteps`, `ExprBase`, `ExprCorrect`, `StmtBase`, `StmtSimple`, `StmtConds`, `StmtCorrect`, `CompilerCorrect` | compiler correctness, from one machine step to whole programs |
| `Language`, `Instructions` | truth, statements and names in the language's words; the instruction set one by one |
| `CompilerEdges` | where compiled code does not mean what the source says, exactly |
| `Handlers`, `HandlersExact`, `TryFree` | the handler discipline of compiled code, and when it holds; compiled code without try |
| `Obfus`, `ObfusImpl`, `ObfusPool`, `Strip`, `ObfusApply`, `ObfusEdges` | code expansion, constant pool shuffling, wiped names, the whole obfuscator, its edges |
| `Serialize` | the byte format |
| `Pipeline` | all of it together |
| `Grammar`, `ParserImpl`, `Precedence` | the expression parser; its grammar without numbers for the operators |
| `Word32`, `ScriptGuard`, `GuardDrive`, `GuardSamples` | 32-bit arithmetic; the SG1 and SG2 decryptors; what drives them in closed form; their steps on small numbers |
| `Bpe`, `BpeGreedy`, `Broadcast` | the tokenizer; which pairs training takes; broadcasting |
| `Loader`, `Tables`, `Schema` | imports; .NET metadata tables; their columns by the standard |
| `Upx`, `FilterCalls`, `NrvStream`, `NrvWriter` | the UPX filter and NRV2B; what the filter moves; the bit stream from the writer's side; a compressor |
| `Futures`, `Pigeonhole` | the futures protocol; a list longer than its range repeats an element |

How things are modelled:

- Arithmetic, comparison, containers and natives are an arbitrary environment: an operation is an event answered from
  the events before it, so equal traces mean the same operations with the same operands in the same order.  A native
  may call back into the machine any number of times.
- The obfuscator's randomness is a plan, or a function of draws; the theorems hold for every one.
- Code that updates state is a method or a class proved against a function of the old state; the theorems are about
  that function.
- 16-bit jump offsets, 8- and 16-bit operands and 32-bit words wrap as they do in Go.

Hypotheses of the compiler theorem, which a caller can check: the compiler reported no error, used at most 254
registers, put the field names and constant keys among the first 256 constants, and emitted fewer than 32768
instructions a function and at most 65536 constants and functions (`CompilerCorrect.Fits`); an assignment does not
read its own local after it was first overwritten, inside a try assigns only a value computed in one instruction, and no
break or continue leaves a try (`CompilerCorrect.Safe`).
For each clause of `Safe`, and for the field names, `CompilerEdges` and `HandlersExact` have programs outside it and
exactly when these still work.

Where the code and its description differ, the model follows the code: `internal/upx/nrv.go` announces the public
NRV2B bit stream, but its bit buffer yields nine bits a byte, or one for a byte of 0 or 1 (`NrvStream.ByteYields`);
the comment at `internal/bytecode/opcode.go:115` makes B the upper byte of the wide operand, the code makes it the lower
(`Instructions.WideExact`); falling off the end of a function ends the whole execute call, not only the frame
(`internal/vm/vm.go:258-261`);
`internal/module/loader.go:233` says that the entry's own import of an alias wins, but a library compiled later that
imports another under that alias takes it away (`Loader.EntryWinsExact`, `Loader.EntryShadowed`).

## Model

| member | source | states |
|---|---|---|
| `Pipeline.WholeToolchain` | internal/obfus/obfus.go:33-71 | For functions without try: compiled, names wiped, pool padded and permuted, code expanded with whatever was drawn, encoded, and decoded from a buffer with anything behind, the chunk ends with an outcome, a trace and globals (but for function names, old and new) exactly when the source semantics does, and its run, finite or not, begins with exactly the operations and native calls the semantics begins with |
| `Pipeline.TryFreeToolchain` | internal/obfus/obfus.go:44-71 | The same without wiping, with all globals equal |
| `Pipeline.ToolchainCorrect` | internal/bytecode/serialize.go:72-196 | The same for any compiled chunk the obfuscator handles faithfully |
| `Pipeline.CompiledObfuscable` | internal/compiler/compiler.go:41-145 | Compiled functions without try are such chunks: no TRY, every jump into the code, every constant operand in the pool |
| `Pipeline.CompiledMeans` | internal/compiler/compiler.go:148-154 | A compiled chunk ends as a state says if and only if the source semantics, given enough fuel, does; and a list of events is a beginning of its run, which may never end, if and only if it is one of the semantics |
| `Pipeline.CompiledOverlooks` | internal/compiler/compiler.go:927-935 | Compiled code never loads a global under the name of a function of the unit, nor under a made-up name that is no string of the program |
| `Traces.OneHistory` | internal/vm/vm.go:252-262 | Of two beginnings of a run one is a beginning of the other: no step takes back an event |
| `CompilerCorrect.ProgramCorrect` | internal/compiler/compiler.go:100-122 | Compiler correctness: VM.Run on the compiled chunk halts with the result or first-line error, the globals, and the trace of operations and native calls in order that the big-step semantics gives; while the semantics needs more fuel the machine is still running after at least as many steps, with the globals and the trace of the semantics so far |
| `CompilerCorrect.ProgramExact` | internal/vm/vm.go:108-136 | The converse: however the compiled program halts, the semantics halts the same way |
| `CompilerCorrect.AllCalls` | internal/vm/vm.go:926-992 | Every call of every compiled function, from any frame and at any callback depth, returns or raises as its body means |
| `ExprCorrect.ExpressionCorrect` | internal/compiler/compiler.go:669-781 | Run from its first instruction, the code of compileExpr(e, dest) ends right behind itself with the value in dest, or raises the same error; `&&`, logical or, and `?:` short-circuit; every live register but dest is unchanged |
| `StmtCorrect.StatementCorrect` | internal/compiler/compiler.go:367-431 | The code of a statement reaches its end, the break target, the loop test, the return or the raised error as the semantics says, with the new values in the registers of their names and every other register in use unchanged |
| `CompilerShape.ShapeExpr` | internal/compiler/compiler.go:268-302 | Compiling an expression keeps the allocator invariant: code and pool only grow, registers in use stay in use, locals and loops are the same |
| `StmtShape.SShapeStmt` | internal/compiler/compiler.go:345-431 | The same for statements, where besides every break recorded on the way is an unpatched jump in the new code |
| `StmtShape.PatchAllAims` | internal/compiler/compiler.go:327-336 | PopLoop: every waiting jump in the list ends up aimed at the target |
| `StmtCorrect.PopBytes` | internal/compiler/compiler.go:509-523 | Leaving a loop aims exactly the loop's own breaks and changes no other instruction |
| `CompilerEdges.AliasExact` | internal/compiler/compiler.go:954-969 | `x = y && x` (and the same with logical or) overwrites x before reading it: the code leaves y's value in x, which is what the statement means if and only if y alone decides the outcome or x had y's value already |
| `CompilerEdges.AliasCode` | internal/compiler/compiler.go:433-438 | What is compiled for such an assignment: the copy of y over x and the jump, and nothing else |
| `CompilerEdges.SelfMapExact` | internal/compiler/compiler.go:749-780 | `m = {key: m}` puts the new map in m before it reads m: the code stores the map in itself, which is what the statement means, with the same trace, if and only if m was that map already |
| `CompilerEdges.SelfMapCode` | internal/compiler/compiler.go:749-780 | What is compiled for that assignment: NEWMAP into m, a copy of m, SETK |
| `CompilerEdges.GuardedExact` | internal/compiler/compiler.go:954-969 | `try { x = y && -z } catch e {}` (and the same with logical or): x keeps its meaning for the handler if and only if y alone decides, or the negation succeeds, or x had y's value already |
| `CompilerEdges.GuardedCode` | internal/compiler/compiler.go:954-969 | What is compiled for that assignment: y copied over x, the jump, and the second operand into x |
| `CompilerEdges.FilledFails` | internal/compiler/compiler.go:749-780 | `try { m = {key: -z} } catch e {}` when the negation fails: the handler finds the unfinished map in m, where the meaning leaves m alone; they agree if and only if m was that map already |
| `CompilerEdges.FilledCode` | internal/compiler/compiler.go:749-780 | What is compiled for that assignment |
| `CompilerEdges.WideExact` | internal/compiler/compiler.go:697-709 | A field name that is not among the first 256 constants is fetched by GETI, which fails where GETK gives null: the code does what `x.name` means if and only if x is a map |
| `CompilerEdges.WideCode` | internal/compiler/compiler.go:697-709 | What is compiled for such a field: the name into a register, then GETI |
| `CompilerEdges.BreakLeavesHandler` | internal/compiler/compiler.go:403-410 | `try { break } catch e {}` in a loop: the machine leaves the loop with the handler still open, so a later error in that frame goes to the abandoned handler |
| `CompilerEdges.BreakCode` | internal/compiler/compiler.go:642-667 | What is compiled for such a statement: the TRY, directly followed by the jump that is recorded as a break of the loop |
| `HandlerDiscipline.DisciplineKept` | internal/vm/vm.go:875-892 | For functions in which no break or continue leaves a try body: at every step of every run, every frame, suspended ones included, has on its handler stack exactly the catch points of the TRYs its ip stands between, innermost last |
| `HandlerDiscipline.CaughtInnermost` | internal/vm/vm.go:900-924 | Hence an error raised at any step is caught, if at all, in the innermost frame with a TRY around its ip, at the handler of the innermost of those, with its first line in that handler's register |
| `HandlerDiscipline.SafeInside` | internal/compiler/compiler.go:403-418 | What the compiler theorem asks of a program implies that no break or continue leaves a try body |
| `HandlersExact.BalancedExact` | internal/compiler/compiler.go:642-667 | A function compiled without an error has every jump and handler land between the same TRYs it comes from if and only if no break or continue in it leaves the body of a try |
| `HandlerDiscipline.ChunkExact` | internal/compiler/compiler.go:403-418 | The same for a whole compiled chunk |
| `HandlersCompiled.BodyBalanced` | internal/compiler/compiler.go:485-523 | Every jump and every handler in a compiled body lands between the same TRYs it comes from, if no break or continue leaves a try body |
| `HandlersCompiled.NeatTry` | internal/compiler/compiler.go:642-667 | A compiled try statement closes what it opens, and its handler is compiled between the TRYs around the whole statement |
| `HandlersCompiled.NeatWhile` | internal/compiler/compiler.go:509-523 | A compiled loop: breaks, continues and the jump back stay between the same TRYs |
| `Handlers.StepOk` | internal/vm/vm.go:875-892 | For any code whose jumps and handlers land between the same TRYs, one step of the machine keeps every frame's handler stack equal to the catch points read off the code |
| `Handlers.ResumesInnermost` | internal/vm/vm.go:900-924 | HandleTry resumes at the innermost enclosing handler, or finds none exactly where no frame has one |
| `Language.TruthExact` | internal/vm/value.go:67-91 | A value is false if and only if it is null, false, 0, the empty string, or an empty container or zero float as the environment says |
| `Language.JumpExact` | internal/vm/vm.go:489-498 | One step of the machine on JMP, JT or JF, said without the machine's own notion of truth: JF goes by its offset exactly on a false register, JT exactly on one that is not, JMP always, and nothing else changes |
| `Language.IfExact` | internal/compiler/compiler.go:485-507 | An if runs its first branch exactly when the value of the condition is not false, else the other, if there is one |
| `Language.WhileExact` | internal/compiler/compiler.go:509-523 | A loop ends exactly when its condition is false; else its body decides: break ends it, an error or a return leaves it, anything else asks again |
| `Language.TernaryExact` | internal/compiler/compiler.go:783-796 | The value is that of the branch the condition selects; the other is not evaluated |
| `Language.LogicExact` | internal/compiler/compiler.go:954-969 | `&&` stops at a false left side, logical or at a true one, with that side's value; else the value is the right side's |
| `Language.CaseExact` | internal/compiler/compiler.go:600-640 | A case is taken exactly when the answer for its values is not false, else the next one is tried |
| `Language.FunctionExact` | internal/compiler/compiler.go:63-74 | A name that several functions have means the last of them |
| `Language.FirstLineExact` | internal/vm/vm.go:900-924 | What a handler is given of an error: the longest beginning without a line end |
| `Language.CatchExact` | internal/compiler/compiler.go:642-667 | `try { throw e } catch x {..}` runs the handler with the first line of the thrown string under x |
| `ExprCorrect.BinaryMeant` | internal/compiler/compiler.go:974-1014 | Each of the sixteen binary operators compiles to the opcode of the operation it means; the meanings are written down in `Semantics`, which does not know the compiler |
| `ExprCorrect.UnaryMeant` | internal/compiler/compiler.go:938-952 | The same for the three unary operators |
| `Instructions.Numbered` | internal/bytecode/opcode.go:7-83 | The opcodes have the numbers of their declarations |
| `Instructions.OperandsExact` | internal/bytecode/opcode.go:15-68 | Which registers each operation is asked on, in which order: its answer goes to R[A], its error is raised |
| `Instructions.ArrayExact` | internal/bytecode/opcode.go:39-39 | NEWARR and LIST are asked on the C registers from B on |
| `Instructions.MoveExact` | internal/vm/vm.go:306-307 | MOVE and DUP: R[A] becomes R[B] and every other register stays |
| `Instructions.SwapExact` | internal/vm/vm.go:873-874 | SWAP exchanges two registers and leaves all others |
| `Instructions.LoadExact` | internal/vm/vm.go:313-318 | LOADI, LOADN, LOADB: the value in the instruction, and no other register changes |
| `Instructions.ClosureExact` | internal/vm/vm.go:758-770 | CLOSURE makes cells of its own, holding what R[A+1] to R[A+C] held; no other closure's cells change |
| `Instructions.CellExact` | internal/vm/vm.go:771-780 | GETUPV and SETUPV read and write the running closure's cells, for later readers, and no others; out of range the call ends |
| `Instructions.AssertExact` | internal/vm/vm.go:838-845 | ASSERT ends the call, with the constant's text, exactly on a false register |
| `Instructions.ImportExact` | internal/vm/vm.go:862-872 | IMPORT puts a known module into R[A] and the globals; an unknown one ends the call |
| `Instructions.EndExact` | internal/vm/vm.go:301-303 | HALT ends the call with null, an opcode without a meaning with an error |
| `CompilerImpl.FuncCompiler.constructor` | internal/compiler/compiler.go:229-246 | NewFuncCompiler: parameters in the first registers, nothing emitted |
| `CompilerImpl.FuncCompiler.Alloc` | internal/compiler/compiler.go:268-293 | Takes the last register of the free list, else the next one, else reports overflow |
| `CompilerImpl.FuncCompiler.Free` | internal/compiler/compiler.go:295-302 | Gives a register back unless a local lives in it |
| `CompilerImpl.FuncCompiler.PatchSbx` | internal/compiler/compiler.go:261-266 | Rewrites the offset of one instruction, truncated to 16 bits |
| `CompilerImpl.FuncCompiler.PopLoop` | internal/compiler/compiler.go:327-336 | Aims the breaks of the innermost loop at the end and drops the loop |
| `CompilerImpl.FuncCompiler.CompileBlock` | internal/compiler/compiler.go:345-357 | A block gives back its locals and registers |
| `CompilerImpl.FuncCompiler.CompileStmt` | internal/compiler/compiler.go:367-431 | The new compiler state is the one the specification gives, by kind of statement |
| `CompilerImpl.FuncCompiler.CompileAssign` | internal/compiler/compiler.go:433-483 | Assignment to a name, an element, a field, or nothing assignable |
| `CompilerImpl.FuncCompiler.CompileIf` | internal/compiler/compiler.go:485-507 | Code, pool, registers, loops and errors after an if |
| `CompilerImpl.FuncCompiler.CompileWhile` | internal/compiler/compiler.go:509-523 | After a while, with its breaks aimed |
| `CompilerImpl.FuncCompiler.CompileSwitch` | internal/compiler/compiler.go:600-640 | After a switch, with the jumps out of its cases aimed |
| `CompilerImpl.FuncCompiler.CompileTry` | internal/compiler/compiler.go:642-667 | After a try |
| `CompilerImpl.FuncCompiler.CompileExpr` | internal/compiler/compiler.go:669-781 | After an expression into dest |
| `CompilerImpl.FuncCompiler.CompileTernary` | internal/compiler/compiler.go:783-796 | After a ternary |
| `CompilerImpl.FuncCompiler.CompileLiteral` | internal/compiler/compiler.go:887-911 | After a literal: immediate or interned constant |
| `CompilerImpl.FuncCompiler.CompileIdent` | internal/compiler/compiler.go:913-936 | After a name: local, function or global |
| `CompilerImpl.FuncCompiler.CompileBinary` | internal/compiler/compiler.go:954-1016 | After a binary operation; logical and and or by jumps |
| `CompilerImpl.FuncCompiler.CompileCall` | internal/compiler/compiler.go:1018-1035 | After a call: callee and arguments in fresh consecutive registers |
| `CompilerImpl.FuncCompiler.ArrayRegs` | internal/compiler/compiler.go:716-741 | The registers of an array literal: a run off the allocator, or fresh ones |
| `CompilerImpl.FuncCompiler.CompileArray` | internal/compiler/compiler.go:710-748 | After an array literal |
| `CompilerImpl.FuncCompiler.CompileEntry` | internal/compiler/compiler.go:751-776 | After one entry of a map literal |
| `CompilerImpl.FuncCompiler.GetField` | internal/compiler/compiler.go:697-709 | GETK when the key index fits 8 bits, else through a register |
| `CompilerImpl.FuncCompiler.SetKey` | internal/compiler/compiler.go:767-774 | SETK likewise |
| `CompilerImpl.FuncCompiler.CompileBody` | internal/compiler/compiler.go:119-121 | A function body and its implicit return |
| `CompilerImpl.FuncCompiler.Finish` | internal/compiler/compiler.go:304-321 | The register count of the finished function |
| `CompilerImpl.FuncCompiler.AddConst` | internal/bytecode/chunk.go:70-98 | An equal constant is reused, otherwise one is appended: the index names the constant |
| `CompilerImpl.CompileUnit` | internal/compiler/compiler.go:41-145 | All functions of a unit into one pool: pool, functions and error count are those the theorems above are about |
| `Vm.HaltsOnce` | internal/vm/vm.go:252-262 | A run has one end: outcome, globals and trace do not depend on when one looks |
| `VmImpl.Machine.Turn` | internal/vm/vm.go:252-896 | One turn of the execute loop on objects updated in place is one step of the machine the theorems are about |
| `VmImpl.Machine.Execute` | internal/vm/vm.go:252-896 | N turns are n steps |
| `VmImpl.Machine.HandleTry` | internal/vm/vm.go:900-924 | The innermost handler of the innermost frame that has one takes the error; frames above are gone; nothing else changed |
| `VmImpl.Machine.RaiseError` | internal/vm/vm.go:885-892 | An error goes to a handler, or ends this execute call |
| `VmImpl.Machine.CallRegister` | internal/vm/vm.go:926-972 | DoCall: a closure gets a frame, a native is entered, anything else raises |
| `VmImpl.Machine.ReturnValue` | internal/vm/vm.go:974-992 | DoReturn: the frame is released and its caller receives the value, or the call ends |
| `VmImpl.Machine.End` | internal/vm/vm.go:254-261 | The end of an execute call, for Run or for the native that called back |
| `VmImpl.Machine.EnterNative` | internal/vm/vm.go:144-158 | A native answers, fails, or calls back into a saved-and-restored frame stack, any number of times |
| `VmImpl.Machine.Suspend` | internal/vm/vm.go:144-158 | CallClosure puts the running stack aside |
| `VmImpl.Machine.UseConstant` | internal/vm/vm.go:526-556 | Instructions that name a constant in the pool |
| `VmImpl.Machine.NoConstant` | internal/vm/vm.go:846-850 | And out of the pool |
| `VmImpl.Machine.Jump` | internal/vm/vm.go:489-498 | JMP, JT and JF |
| `VmImpl.Machine.Primitive` | internal/vm/vm.go:319-488 | An operation on registers: its answer goes to a register or raises |
| `VmImpl.Machine.Rest` | internal/vm/vm.go:875-892 | TRY and ENDTRY, moves, loads, returns and throws |
| `VmImpl.Machine.MakeClosure` | internal/vm/vm.go:758-770 | CLOSURE takes the values it captures out of the registers |
| `VmImpl.Machine.LoadCell` | internal/vm/vm.go:771-775 | GETUPV |
| `VmImpl.Machine.StoreCell` | internal/vm/vm.go:776-780 | SETUPV |
| `VmImpl.Machine.MakeFrame` | internal/vm/vm.go:160-175 | A new frame |
| `Bytecode.UnpackPack` | internal/bytecode/opcode.go:117-138 | Unpacking the four fields of a packed instruction gives them back |
| `Bytecode.PackUnpack` | internal/bytecode/opcode.go:117-138 | And packing what was unpacked gives the word back: packing is a bijection |
| `Bytecode.SBxOf` | internal/bytecode/opcode.go:128-138 | The signed 16-bit operand is read back as written |
| `Instructions.WideExact` | internal/bytecode/opcode.go:133-138 | The wide operand is the upper half of the stored word, read as a number or in two's complement |
| `Instructions.MadeExact` | internal/bytecode/opcode.go:122-131 | MakeABx and MakeAsBx put it there |
| `ObfusApply.ApplyCorrect` | internal/obfus/obfus.go:33-71 | The whole obfuscator, names wiped: for every draw, a chunk without TRY whose jumps and operands are in range, and which loads no global under an old or new function name, has the same outcome, the same events, finite run or not, and the same globals under all other names |
| `ObfusApply.ObfuscationCorrect` | internal/obfus/obfus.go:44-71 | The same for every such chunk without wiping, with all globals equal |
| `ObfusApply.StripMeta` | internal/obfus/obfus.go:38-53 | The loop changes names and line tables and nothing else; main loses its name |
| `Strip.WipedCorrect` | internal/obfus/obfus.go:38-53 | Wiping names keeps outcome, events and all other globals of a chunk that loads no global under an old or new function name |
| `Strip.LoadExact` | internal/vm/vm.go:846-855 | Where it shows: after loading a global the two machines differ in no more than those names if and only if the name had the same value in both |
| `Strip.StartLike` | internal/vm/vm.go:117-128 | VM.Run starts the two chunks with globals that differ under function names only |
| `ObfusSim.ExpansionCorrect` | internal/obfus/obfus.go:195-293 | For every number of NOPs, junk blocks and dead tail, every run of the expanded chunk, finite or not, stutter-simulates the original, across nested calls and callbacks |
| `ObfusSim.StepMatch` | internal/obfus/obfus.go:195-253 | One step of the original is matched by one or more of the expansion |
| `ObfusImpl.ExpandProto` | internal/obfus/obfus.go:195-293 | The loops that fill pieces, positions and code produce an expansion for the positions drawn, and change nothing of the function but code, line table and register count; they give up only if some offset no longer fits |
| `ObfusImpl.Lead` | internal/obfus/obfus.go:210-228 | What goes in front of an instruction is a sled: NOPs, then perhaps a jump over junk |
| `ObfusImpl.Retarget` | internal/obfus/obfus.go:247-277 | Exactly the original jumps are rewritten, in place, to where their targets went |
| `ObfusApply.Apply` | internal/obfus/obfus.go:33-71 | The whole obfuscator: what it returns is a change of names, if asked for, then a pool change, then expansions, for whatever was drawn |
| `ObfusPool.SameRun` | internal/obfus/obfus.go:105-152 | Chunks whose operands find the same constants run in lockstep |
| `ObfusPool.RemapSame` | internal/obfus/obfus.go:154-190 | A remapped operand finds its constant again |
| `ObfusPool.PadKeeps` | internal/obfus/obfus.go:96-103 | Padding the pool changes no instruction's constant |
| `ObfusPool.PadShows` | internal/obfus/obfus.go:96-103 | Exactly when the operand was in the pool: one beyond it stopped with an error before padding and no longer does |
| `ObfusPoolImpl.RandPerm` | internal/obfus/obfus.go:311-325 | For any draws the result is a permutation |
| `ObfusPoolImpl.Buffer.PadBogusConsts` | internal/obfus/obfus.go:96-103 | The pool keeps its entries and gains n |
| `ObfusPoolImpl.Buffer.Fits` | internal/obfus/obfus.go:112-136 | Says whether every 8-bit operand still fits |
| `ObfusPoolImpl.Buffer.ShuffleConsts` | internal/obfus/obfus.go:105-152 | Either every operand is remapped along a permutation of the pool, or the chunk is untouched, and that only if some 8-bit operand would not fit |
| `ObfusEdges.JumpExact` | internal/obfus/obfus.go:247-277 | A relocated jump lands where it should if and only if its target was not before the start of the code |
| `ObfusEdges.TryExact` | internal/obfus/obfus.go:231-258 | TRY is not relocated: its handler is found for every draw the code can make, which puts at least one NOP behind the last instruction, if and only if it is the next instruction or the TRY itself |
| `Serialize.RoundTrip` | internal/bytecode/serialize.go:20-196 | Decoding an encoded chunk, with anything behind it, takes exactly the encoding and gives the chunk back if and only if its main index is a 32-bit number |
| `Serialize.PrefixRejected` | internal/bytecode/serialize.go:222-286 | No strict prefix of an encoding decodes: the format is self-delimiting |
| `Serialize.LocalDecode` | internal/bytecode/serialize.go:72-196 | Decoding depends on the bytes of the chunk only |
| `SerializeImpl.Encode` | internal/bytecode/serialize.go:20-69 | The appending loops produce that encoding |
| `SerializeImpl.Decode` | internal/bytecode/serialize.go:72-196 | The cursor loops read as specified, every failure included |
| `Serialize.DecodeExact` | internal/bytecode/serialize.go:72-196 | The converse of RoundTrip: a buffer decodes to c, taking n bytes, if and only if c is a chunk the format can hold and the first n bytes are an encoding of it, in which any byte but 0 may stand for true; everything else is refused |
| `Serialize.DecodePlain` | internal/bytecode/serialize.go:101-106 | The bytes taken are the encoder's own if and only if every true in them is written as 1 |
| `Serialize.PlainExact` | internal/bytecode/serialize.go:30-35 | An encoding with other bytes for true is the encoder's if and only if they are 1 |
| `Serialize.RefusedAtOnce` | internal/bytecode/serialize.go:72-78 | Too short means fewer than eight bytes; bad magic means eight or more that do not begin with GLKB |
| `Serialize.SampleBytes` | internal/bytecode/serialize.go:20-69 | One chunk, byte by byte |
| `Grammar.ParserExact` | internal/parser/parser.go:334-536 | From any position the parser finds tree t and stops at j if and only if t respects precedence and left association, its tokens, brackets included, are the ones from there to j, and the token at j cannot continue an expression |
| `Grammar.ParsesWhole` | internal/parser/parser.go:35-44 | A token list parses as a whole to t if and only if t is well shaped and flattens to it |
| `Grammar.OneReading` | internal/parser/parser.go:352-435 | Two well shaped trees with the same tokens are equal |
| `ParserImpl.ParseAll` | internal/parser/parser.go:35-44 | The mutable parser reports no error if and only if the token list starts with an expression, and then returns its tree without brackets |
| `ParserImpl.Parser.ParseExpr` | internal/parser/parser.go:334-350 | Parser and tree at once: on success the parser stands where the grammar stops, on failure an error was added |
| `ParserImpl.Parser.CondTail` | internal/parser/parser.go:339-350 | From the question mark on |
| `ParserImpl.Parser.Binary` | internal/parser/parser.go:422-435 | Precedence climbing |
| `ParserImpl.Parser.Unary` | internal/parser/parser.go:437-447 | Prefix operators |
| `ParserImpl.Parser.Postfix` | internal/parser/parser.go:449-483 | Calls, indices and fields |
| `ParserImpl.Parser.Primary` | internal/parser/parser.go:485-536 | Literals, names, brackets, arrays, maps |
| `ParserImpl.Parser.Array` | internal/parser/parser.go:595-611 | Array literals, perhaps with a last comma |
| `ParserImpl.Parser.MapLit` | internal/parser/parser.go:613-643 | Map literals |
| `Precedence.ShapeProper` | internal/parser/parser.go:352-377 | The trees the parser makes, defined by numbers for the operators, are those of a grammar with ten classes of operators and no numbers |
| `Precedence.ParserFinds` | internal/parser/parser.go:334-536 | The parser, said of that grammar: from any position it finds t and stops at j if and only if t is a tree of the grammar, its tokens are the ones between, and the token at j cannot continue an expression |
| `Precedence.ParserFindsAll` | internal/parser/parser.go:35-44 | The same for a whole token list |
| `Precedence.ThreeOperands` | internal/parser/parser.go:352-435 | `x o1 y o2 z` is read as x o1 (y o2 z) exactly when o2 is of a later class than o1, for all operands and operators |
| `Precedence.OneOperand` | internal/parser/parser.go:422-427 | An operand stands alone when the token behind it is no operator, question mark, opening bracket or dot |
| `Precedence.OperatorKept` | internal/parser/parser.go:379-420 | The operator in the tree is the one that was written |
| `Precedence.LiteralMeans` | internal/parser/parser.go:485-510 | Literal tokens mean their values, in the semantics that the compiler is proved against |
| `ScriptGuard.FourRounds` | internal/scriptguard/sg2.go:158-179 | The mixing loop, left only when edx equals r11 in 32-bit arithmetic, does four rounds and no fewer, wherever r11 is |
| `ScriptGuard.MixBijective` | internal/scriptguard/sg2.go:164-179 | The mixing is undone by mixing backwards |
| `ScriptGuard.RoundBijective` | internal/scriptguard/sg2.go:106-186 | DecryptRound is a bijection on buffers of every length: the explicit inverse undoes passes D, C, B, A, in both orders |
| `ScriptGuard.Decrypt2Injective` | internal/scriptguard/sg2.go:222-228 | From two words on, plain bytes and IV determine the input |
| `ScriptGuard.Decrypt2Onto` | internal/scriptguard/sg2.go:189-228 | Every non-empty text of whole words, with any IV, is the decryption of something |
| `ScriptGuard.Decrypt1Bijective` | internal/scriptguard/sg1.go:7-32 | With a key of 10000 bytes or more, decryption is a bijection between word lists and texts of whole words; with less it fails |
| `GuardDrive.DriveExact` | internal/scriptguard/sg2.go:151-186 | The four registers before turn j of word i in closed form: which key starts which, and how far each has moved |
| `GuardDrive.MaskExact` | internal/scriptguard/sg2.go:67-79 | Word i of the prelayer in closed form, from the multiplier and increment of the C standard's sample rand |
| `GuardSamples.MixSample` | internal/scriptguard/sg2.go:164-176 | One turn of the mixing on small numbers: which register's entry is subtracted, exclusive-ored, turned by, and in which order |
| `GuardSamples.MixFour` | internal/scriptguard/sg2.go:158-180 | The mixing of a word is four turns, the registers moving on between them |
| `GuardSamples.OffsetsSample` | internal/scriptguard/sg2.go:112-149 | What passes B and C take off, from the entries of r15 and p58 |
| `GuardSamples.PassesSample` | internal/scriptguard/sg2.go:123-149 | Passes A, B and C on two words |
| `GuardSamples.XorshiftSample` | internal/scriptguard/sg2.go:92-104 | One step of the generator, its three shifts each to be seen |
| `GuardSamples.ScheduleStart` | internal/scriptguard/sg1.go:12-18 | The state after four and five words of any key: it starts from the letters o, q, u, w, and the fifth word comes to the first again |
| `GuardSamples.StreamOn` | internal/scriptguard/sg1.go:20-24 | Each word of the keystream is 131 times the state it comes from plus its number, and goes back into that state |
| `GuardSamples.OpenSample` | internal/scriptguard/sg1.go:25-28 | One word opened: turned left, less the key, twice |
| `ScriptGuardImpl.BuildXorshiftTable` | internal/scriptguard/sg2.go:92-104 | The table of 256 generator states |
| `ScriptGuardImpl.MixWord` | internal/scriptguard/sg2.go:159-180 | The loop that compares edx with r11 is the four-fold mixing |
| `ScriptGuardImpl.DecryptRound` | internal/scriptguard/sg2.go:106-186 | The four passes over the array in place are the round |
| `ScriptGuardImpl.LCGUnmask` | internal/scriptguard/sg2.go:67-79 | The first word is the IV, the rest is unmasked |
| `ScriptGuardImpl.ShellcodeDecrypt` | internal/scriptguard/sg2.go:189-198 | The rounds in their order with their keys, on a copy |
| `ScriptGuardImpl.DwordsToBytes` | internal/scriptguard/sg2.go:201-207 | Words as little-endian bytes |
| `ScriptGuardImpl.DecryptSG2Dwords` | internal/scriptguard/sg2.go:222-228 | The whole decryption, nothing for fewer than two words |
| `ScriptGuardImpl.KeySchedule` | internal/scriptguard/sg1.go:12-18 | The four-word state from the key |
| `ScriptGuardImpl.DecryptSG1` | internal/scriptguard/sg1.go:7-32 | Keystream and rounds |
| `Bpe.RoundTrip` | internal/native/tensor.go:2355-2405 | Decode(encode(text, rules), rules) == text for every text and any rules whatever, and the recursion is no deeper than their number |
| `Bpe.ExpandExact` | internal/native/tensor.go:2387-2397 | For any rules, the recursion that expands a token ends if and only if no walk of rule mentions from the token comes to a token twice; then it is no deeper than there are rules |
| `Bpe.ExpandAllExact` | internal/native/tensor.go:2399-2404 | For a list of tokens: if and only if this holds of each of them |
| `Bpe.GroundedEnds` | internal/native/tensor.go:2387-2397 | If every rule mentions only bytes and earlier rules, every token can be expanded |
| `Bpe.SelfRuleNeverEnds` | internal/native/tensor.go:2387-2397 | A rule either of whose two parts is the rule itself, wherever in the list it stands, is expanded for ever |
| `Bpe.TrainingSound` | internal/native/tensor.go:2201-2283 | Trained rules are such; encoding the training text gives the very tokens training ended with; they decode to the text; each merge shortened them |
| `Bpe.TrainedGrounded` | internal/native/tensor.go:2239-2280 | Rule i mentions only ids from 0 to 255+i; there are no more rules than asked for |
| `Bpe.TrainedEncodes` | internal/native/tensor.go:2321-2344 | The encoder, replaying the merges, goes through the same token lists as training |
| `Bpe.PassShortens` | internal/native/tensor.go:2265-2277 | A pass shortens the tokens if and only if its pair occurs |
| `Bpe.PassClears` | internal/native/tensor.go:2321-2344 | After a pass its pair is nowhere side by side |
| `Bpe.BestIs` | internal/native/tensor.go:2249-2257 | The pair with the highest count, lexicographically first among equals, is unique |
| `BpeGreedy.TrainingGreedy` | internal/native/tensor.go:2239-2280 | Every rule is, on the tokens made so far, the most frequent pair, lexicographically first among equals, and stands at least twice; training stops when there are enough rules or no pair stands twice |
| `BpeGreedy.PassApart` | internal/native/tensor.go:2265-2277 | A pass over a pair of different tokens replaces every place it stands at |
| `BpeGreedy.PassStretch` | internal/native/tensor.go:2265-2277 | A stretch of one token is replaced in twos from the left |
| `BpeGreedy.PlainTokens` | internal/native/tensor.go:2387-2397 | An id below 256 is its low byte, an id without a rule a question mark |
| `BpeImpl.MostFrequent` | internal/native/tensor.go:2249-2257 | Visiting the counts in any order finds that pair |
| `BpeImpl.CountPairs` | internal/native/tensor.go:2242-2247 | The map holds exactly the adjacent pairs, with their numbers |
| `BpeImpl.MergePass` | internal/native/tensor.go:2265-2277 | The rebuilding loop is one pass of the rule |
| `BpeImpl.TrainBPE` | internal/native/tensor.go:2201-2283 | Vocabulary sizes out of range are refused, a negative max_chars panics, else the rules of training on the text cut at max_chars |
| `BpeImpl.EncodeBPE` | internal/native/tensor.go:2287-2351 | Rule after rule over the bytes of the text cut at max_chars; a negative one panics |
| `BpeImpl.DecodeBPE` | internal/native/tensor.go:2355-2405 | The expansions one after the other, for tokens whose expansion ends |
| `Broadcast.IndexExact` | internal/native/tensor.go:525-537 | For every flat index from 0 up the index computed from strides is the position that broadcasting asks for: the last coordinates, 0 along dimensions of size 1 |
| `Broadcast.IndexMirrored` | internal/native/tensor.go:525-537 | For a negative flat index, where Go divides towards 0, it is minus the position for the opposite index |
| `Broadcast.SourceInRange` | internal/native/tensor.go:525-537 | It is inside the operand |
| `Broadcast.SourceSelf` | internal/native/tensor.go:557-559 | For equal shapes it is the identity, which is what the shortcuts return |
| `Broadcast.FlatWithin` | internal/native/tensor.go:588-611 | Coordinates within a shape and positions below its total correspond one to one |
| `Broadcast.JoinedStretches` | internal/native/tensor.go:561-586 | Both operands stretch to the joint shape |
| `Broadcast.LargestExact` | internal/native/tensor.go:185-211 | The shape broadcastShapes takes by maximum is the joint shape of simpleBroadcast if and only if no dimension 1 meets a smaller one, such as the 0 of an empty tensor |
| `BroadcastImpl.BroadcastShapes` | internal/native/tensor.go:185-211 | For any dimensions: fails if and only if the shapes are incompatible, else the larger dimension everywhere |
| `BroadcastImpl.BroadcastDims` | internal/native/tensor.go:561-586 | The shape loop of simpleBroadcast: fails if and only if the shapes are incompatible, else the joint shape |
| `BroadcastImpl.BroadcastIndexLoop` | internal/native/tensor.go:525-537 | The loop computes that index |
| `BroadcastImpl.Position` | internal/native/tensor.go:590-609 | The mixed-radix walk computes the same position |
| `BroadcastImpl.SimpleBroadcast` | internal/native/tensor.go:556-613 | Shortcuts and empty tensors included: the joint shape, and element i is the operand's element at the position broadcasting asks for, which is in range |
| `Loader.CycleExact` | internal/module/loader.go:161-247 | Loading fails if and only if the entry imports its way into a cycle |
| `Loader.LoadComplete` | internal/module/loader.go:161-247 | Otherwise exactly the libraries the entry reaches are compiled, each once and after all it imports, and every import is set up with the library it names |
| `Loader.MergeKeeps` | internal/module/loader.go:249-262 | After merging, one setup an alias is left and replaying gives the same globals |
| `Loader.VisitAllAdds` | internal/module/loader.go:190-211 | Following a list of imports adds the setups of those imports and of the libraries compiled on the way, and no others |
| `Loader.EntryWinsExact` | internal/module/loader.go:230-234 | What an alias of the entry stands for when it runs: its own import if no library compiled behind that import gives the alias to another; when those that give it away all give it to others, exactly then |
| `Loader.EntryShadowed` | internal/module/loader.go:230-234 | The entry imports x as m, then y, which imports z as m: m is z |
| `LoaderImpl.ImportLoader.CompileUnit` | internal/module/loader.go:161-247 | The recursion over stack, compiled and setups is that walk, and leaves the stack as it was |
| `LoaderImpl.ImportLoader.MergeSetups` | internal/module/loader.go:249-262 | The loop that overwrites slots is that merge |
| `LoaderImpl.ImportLoader.CompileEntry` | internal/module/loader.go:133-150 | A whole load |
| `Tables.RowsApart` | internal/dotnet/tables.go:91-157 | After a successful parse all rows of all tables are inside the data, behind header and counts, and pairwise disjoint |
| `Tables.RowInside` | internal/dotnet/tables.go:334-344 | A row read by number is the bytes at its place, of the size the schema gives |
| `Tables.AccessorsRead` | internal/dotnet/tables.go:457-540 | TypeDef, MethodDef, TypeRef, MemberRef and Field accessors: the columns returned, written back at the widths of the schema, are the row of that number in that table, byte for byte; there is nothing if and only if there is no such row |
| `Tables.SingleRowsRead` | internal/dotnet/tables.go:415-447 | The same for the columns read of the assembly and the module row |
| `Tables.BytesAre` | internal/dotnet/tables.go:334-344 | Those bytes are the stretch of the data at the row's offset, inside it and of the schema's size |
| `Tables.TypeDefWhole` | internal/dotnet/tables.go:457-474 | Reading the columns of a type row loses and invents no byte |
| `Tables.MethodDefWhole` | internal/dotnet/tables.go:476-492 | The same for a method row |
| `Tables.MethodsComplete` | internal/dotnet/assembly.go:131-164 | For method lists that never decrease: every method from the first list up is listed once, in order, under its declaring type |
| `Tables.OwnerExact` | internal/dotnet/assembly.go:261-268 | The type looked up for a method is its declaring type, and there is none if and only if no list starts at or before it |
| `Tables.DataMethods` | internal/dotnet/assembly.go:131-164 | Of parsed data whose MethodList column never decreases: every method row from the first list up is there and is listed once, in order, under its declaring type row |
| `Tables.DataOwner` | internal/dotnet/assembly.go:261-268 | Of parsed data: the type looked up for a method row is the one that declares it, and none if and only if no list starts at or before it |
| `Tables.StopsExact` | internal/dotnet/assembly.go:148-148 | A loop of a 32-bit counter up to and including a bound ends if and only if the bound is not the largest word |
| `Tables.MethodsEnds` | internal/dotnet/assembly.go:131-164 | Methods("") ends if and only if no list of 0 directly follows a list that is not 0, and, if the last list is not 0, there are fewer than 2^32 - 1 methods |
| `Tables.GapCounts` | internal/dotnet/tables.go:542-561 | With lists 1, 0 and one method the first range ends at the largest word and is counted for ever; lists 0, 0, 1 end |
| `Schema.SizeExact` | internal/dotnet/tables.go:175-332 | The row size of every table is that of its columns as ECMA-335, partition II, section 22 lists them: constants, heap indices, simple and coded indices at their widths |
| `Schema.PresentExact` | internal/dotnet/tables.go:114-123 | Table t is there if and only if bit t mod 8 of byte 8 + t / 8 is set |
| `TablesImpl.ParseTablesHeap` | internal/dotnet/tables.go:91-157 | Counts, sizes and offsets by loops, or the error |
| `TablesImpl.MethodRange` | internal/dotnet/tables.go:542-561 | From a type's list to just before the next one's |
| `TablesImpl.ReadMethodLists` | internal/dotnet/assembly.go:102-129 | The MethodList column, read row by row |
| `TablesImpl.Methods` | internal/dotnet/assembly.go:131-164 | Where they end, the nested append loops, with their 32-bit counter, produce that list |
| `TablesImpl.DataMethodList` | internal/dotnet/assembly.go:131-164 | The same on parsed data |
| `TablesImpl.TypeForMethod` | internal/dotnet/assembly.go:261-268 | The scan finds that type |
| `UpxFilter.FilterBijective` | internal/upx/filter.go:5-22 | For every filter id the filter is a bijection on images: adding undoes subtracting, and the reverse |
| `UpxFilter.ScanBack` | internal/upx/filter.go:24-47 | The bytes the scan decides by are never bytes it rewrites |
| `UpxFilter.FilterE8E9` | internal/upx/filter.go:24-47 | The loop over the array in place is that scan |
| `UpxFilter.ApplyFilter` | internal/upx/filter.go:5-22 | The dispatch on the filter id |
| `FilterCalls.FilterExact` | internal/upx/filter.go:5-47 | For every id and image: unfiltering takes from the operand of every branch the address behind it, modulo 2^32, and leaves every other byte alone; branches are the opcodes of that id that no earlier branch covers |
| `FilterCalls.ScanMoves` | internal/upx/filter.go:24-47 | The scan, either way and from any point, moves exactly those operands |
| `Nrv.DecompressExplained` | internal/upx/nrv.go:7-112 | A successful output is no longer than asked for and is a prefix of the one text that the tokens on the bit stream describe, all of them unless the length was reached; every copy refers to bytes already written |
| `Nrv.ExplainsOnce` | internal/upx/nrv.go:98-103 | Tokens describe at most one text |
| `Nrv.ByteGives` | internal/upx/nrv.go:235-247 | A loaded byte yields nine bits, or one when it is 0 or 1, before the next is loaded |
| `NrvWriter.RoundTrip` | internal/upx/nrv.go:7-112 | A compressor: tokens of any 32-bit distances and lengths, written with a repeat code exactly when the distance is that of the copy before, are read back as those tokens, and the text they stand for comes out |
| `NrvWriter.EveryText` | internal/upx/nrv.go:7-112 | Every text is the decompression of something |
| `NrvWriter.SampleText` | internal/upx/nrv.go:50-63 | Seven bytes and their text, with a repeat code behind a copy and a literal |
| `NrvStream.CodeRead` | internal/upx/nrv.go:35-97 | A code for a literal, a new distance or the last one is read as the token it says, at the length it says; a copy's distance is remembered, a literal leaves it |
| `NrvStream.CodeWritten` | internal/upx/nrv.go:35-97 | The converse: whatever token is read was written as such a code |
| `NrvStream.StreamRead` | internal/upx/nrv.go:14-107 | Codes written one after the other, with an end mark, are read back |
| `NrvStream.StreamWritten` | internal/upx/nrv.go:14-107 | The tokens of any data whatever are those of some codes that stand there |
| `NrvStream.AgainCopiesLast` | internal/upx/nrv.go:50-63 | What a code says depends on what comes before only by the distance of the last copy, 1 at the start |
| `NrvStream.EndExact` | internal/upx/nrv.go:57-61 | An end mark is read if and only if one is written |
| `NrvStream.LiteralsExact` | internal/upx/nrv.go:29-32 | Literals may run sixteen bytes past the length asked for and are then cut; one more is an overflow |
| `NrvStream.BadCopy` | internal/upx/nrv.go:98-100 | A copy from before the start, or from 0 back, is refused with its distance |
| `NrvStream.ByteYields` | internal/upx/nrv.go:235-247 | The bits of a loaded byte: a byte of 2 or more yields its eight bits, lowest first, and then a 1; 0 and 1 yield one bit |
| `NrvImpl.Nrv2bDecompress` | internal/upx/nrv.go:7-112 | The nested loops end on every input with that output or that error |
| `NrvImpl.BitBuf.TakeBit` | internal/upx/nrv.go:235-247 | One bit off the buffer, or the end of the data |
| `NrvImpl.BitBuf.TakeByte` | internal/upx/nrv.go:249-256 | One byte off the data |
| `NrvImpl.BitBuf.TakeNumber` | internal/upx/nrv.go:35-49 | A number in interleaved bits |
| `NrvImpl.BitBuf.TakeDistance` | internal/upx/nrv.go:35-64 | The distance of a copy: new, repeated, or the end mark |
| `NrvImpl.BitBuf.TakeLength` | internal/upx/nrv.go:66-97 | The length of a copy |
| `Futures.ResultWrittenOnce` | internal/vm/async.go:20-26 | Once a future has a result it keeps it in every continuation of every interleaving, whatever settle is called with afterwards |
| `Futures.AwaitsAgree` | internal/native/async.go:117-133 | Every await on a future returns the one result it was settled with |
| `Futures.ParallelInOrder` | internal/native/async.go:370-394 | A parallel call that ends well has one value an item, the i-th being the result of the closure spawned for item i by that goroutine; one that fails has the error of the first closure, in the order of the items, that failed |
| `Futures.MapsEmptyAtRest` | internal/vm/async.go:144-213 | All futures maps are empty if and only if every goroutine still at work was spawned by a VM that has been released; so when all is quiet they are empty, and empty maps mean quiet exactly when there is no such orphan |
| `Futures.MapExact` | internal/vm/async.go:144-160 | One VM's map is empty if and only if the VM was released or every goroutine it spawned is gone |
| `Futures.OrphansMade` | internal/vm/vm.go:213-231 | Orphans are made by releasing a VM whose map is not empty, and by no other move |
| `Futures.OrphanRun` | internal/vm/async.go:192-213 | A run: a closure spawns another and returns; all maps are empty while the inner one is at work |
| `Futures.StuckExact` | internal/vm/async.go:28-31 | No goroutine can go on if and only if every goroutine still at work waits in an await, or in a parallel call, for a future that is not settled |
| `Futures.StuckInRing` | internal/vm/async.go:28-31 | If nothing can go on while somebody is at work, some goroutines wait for each other in a ring |
| `Futures.RingForEver` | internal/vm/async.go:28-31 | A ring stays in every continuation, and none of its futures is ever settled |
| `Futures.SelfAwaitRun` | internal/native/async.go:117-133 | A run: a closure awaits the handle of its own future, the script awaits it too, and nothing can go on |
| `Futures.StepInv` | internal/vm/async.go:192-213 | Every move keeps the invariant all this rests on |

## Left out

- CompilerCorrect.ProgramCorrect: the safety condition is sufficient, not necessary; each clause has its failing program, with the exact condition, in `CompilerEdges` and `HandlersExact`.
- Pipeline.WholeToolchain: globals under function names are not compared; VM.Run puts every named function there, and wiping changes the names.
- Pipeline.ToolchainCorrect: whether a chunk with try is one the obfuscator handles is a hypothesis; `ObfusEdges.TryExact` shows that none compiled from a try statement is.
- HandlersExact.BalancedExact: is about where jumps and handlers land; whether a given run takes the jump that breaks the discipline depends on the run.
- Broadcast.SourceInRange: dimensions are not negative.
- BroadcastImpl.SimpleBroadcast: the second operand's data, which the source takes and does not use, is not a parameter; dimensions are not negative.
- BroadcastImpl.BroadcastIndexLoop: the two results the source computes first and overwrites are not computed; 64-bit overflow of element counts is not modelled.  The result shape has no 0, by which the source would divide.
- BpeImpl.DecodeBPE: on tokens outside its condition the source recurses for ever.  Argument-type errors are not modelled.
- TablesImpl.Methods: on method lists outside its condition the source counts for ever.
- Futures.StuckExact: a goroutine that is in no await may finish its closure; that it ever does is up to the closure.
- Vm.HaltsOnce: errors are their first line; stack traces, the operation counter and its limit are not modelled.
- CompilerImpl.CompileUnit: for-in loops, function literals with captured variables, file-level statements and imports inside a compiled unit are not compiled by the model, so that `CompilerCorrect.ProgramCorrect` does not speak of them; the machine and the obfuscator do have closures and cells.
- VmImpl.Machine.Turn: register files grow without limit; the maximum of registers a frame and panics past it are left out, as are nil functions in a chunk and the operation limit.
- CompilerImpl.FuncCompiler.AddConst: floats are bit patterns: constants equal as floats but not as bits (0.0 and -0.0, NaN) are told apart when interned.
- Aliasing of byte constants, garbage collection and the release of memory; line tables of compiled functions.
- Natives see the machine only through the events; a native that reads globals directly is not modelled.
- ObfusApply.ApplyCorrect: for a chunk that does load a global under a function name, which compiled units do not, `Strip.LoadExact` says what it sees; the theorem leaves such chunks out.
- Grammar.ParserExact: statements, function literals and interpolated strings; the lexer, and number conversion, whose results tokens carry.
- SG1 and SG2: finding the words in a script text by regular expression.  Rotations are written as sums of disjoint parts.
- Loader: resolving paths, reading, parsing and compiling one file are taken to succeed.
- .NET: string, blob and user string heaps (rows keep indices), the type filter of Methods, signatures and IL.
- NrvWriter.RoundTrip: the compressor spends a byte on every bit, which the decompressor allows; a denser one would have to place its bits around the ninth of each byte.
- NRV2B: running out of memory; the 2D and 2E variants.
- Futures: channels, mutexes, wait groups, drop; the Go memory model (each move is atomic); timeouts.
- GUI, HTTP, sockets, proxies, file I/O, command line, cryptographic libraries, archive formats, floating-point tensor operations and heuristics for packers.
