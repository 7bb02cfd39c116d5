# Quant, verified

Quant is a small native compiler. This project models its middle end, its
x86-64 back end and the allocator of its standard library, and proves that they
do what they are for.

- **IR.** `Ir`, `Semantics` and `WellFormed` give the flat intermediate
  representation a meaning. Registers are 64-bit words, arithmetic wraps, comparison
  and division follow the kind. Memory and the outside world are an arbitrary
  environment that answers from the history of effects. Runs are cut off after a
  number of jumps and calls, so what is proved for every number covers endless runs
  too. Runs that trap are not promised anything.
- **Optimizer.** `Simulation` says when one body may replace another, by a
  certificate that is checked instruction by instruction. The passes (`FoldPass`,
  `DeadInstPass`, `DeadStorePass` with its liveness fixpoint, `Pruning`, `Tables`,
  `LabelPass`) rewrite IR objects in place and hand over such certificates, and
  `Optimizer` composes them. `AddressUse` states the result by a condition on the
  program that goes in.
- **Lowering.** `Ast` gives structured programs a meaning, `Lowering` says what code
  the generator emits, `LoweringAccepts` and `LoweringEntry` say of the source what is
  accepted, kept and started, `IrGenerator` is the generator object, and the
  `Lowering...` modules prove the code right and well formed.
- **Allocator.** `HeapBlocks` and `HeapSpec` describe the blocks and what the three
  calls do to them; `HeapMemory` and `HeapAllocator` do the same through headers,
  links and guards in memory.
- **Back end.** `X86` is the processor, `X86Encoding` its code, `X86Select` the
  instruction selection. `X86Frame` to `X86Layout` prove that the patched bytes,
  fetched, decoded and executed, follow the IR. `X86Emitter` and `X86Isel` are the
  objects that write them. `MachineCode` puts all stages together, from source to
  running bytes.
- **Object files.** `ElfObject` says what bytes the ELF writer produces, `ElfReader` is
  an independent reader after chapter 4 of the System V gABI, and `ElfReadBack` to
  `ElfRoundTrip` prove that the reader recovers the object. `ElfWriter`, `ElfOutput`
  and `ElfFile` are the writer with its buffers.
- **Smaller parts.** `ExprSyntax` to `ExprParser` and `ExprGrouping` are the expression parser,
  `ModuleOrder` the order of modules, `DecimalFormat` the formatting of integers.

Where code and documentation differ the code is modelled: `heap_realloc` returns a
block that is too small when the block behind is free but not big enough; an
initialiser sees the variable it initialises; the dead-store pass stops after 512
sweeps and may erase stores that are read; unsigned comparisons are selected as
signed ones; `imul`, `setcc` and `movzx` are encoded properly only for some
registers; a symbol of an empty text is written as one of the data. Each of these
has the exact condition under which the code does what one expects.

`dafny verify dfyconfig.toml` checks the whole project.

## Model

| member | source | states |
|---|---|---|
| Simulation.RunSimulates | src/ir/opt.cpp:521-674 | One certified rewriting of every function keeps every run that does not trap: same effects in the same order, same result, cut off after the same number of jumps and calls; the certificate is checked instruction by instruction |
| FoldPass.FoldConstants | src/ir/opt.cpp:521-674 | Folding, the absorbing rules and the erased identities with their renaming over the whole body yield a certified rewriting; afterwards no integer operation is left on two constants that would not trap, nor one with a neutral or absorbing constant |
| FoldPass.FoldIntExact | src/ir/opt.cpp:360-415 | Compile-time folding of two constants computes what the instruction computes at run time, for every operator and kind, and does not fold exactly where the instruction traps |
| FoldPass.IdentityCopies | src/ir/opt.cpp:594-672 | An operation with its identity copies the other operand for every kind and every run-time value |
| FoldPass.UnfoldableIs | src/ir/opt.cpp:555-672 | What the pass leaves alone, operator by operator: exactly the operations that have no two constants, or trap on them, and no 0 or 1 in a place where it is neutral or absorbing |
| FoldPass.FoldKinds | src/ir/opt.cpp:32-47 | Which kinds are folded at all, which as signed and which as unsigned numbers |
| DeadInstPass.RemoveDeadInstructions | src/ir/opt.cpp:161-194 | One backward scan with one flag per register is enough, loops included: a certified rewriting, after which every removable definition is used by a later kept instruction |
| DeadInstPass.RemovableMeans | src/ir/opt.cpp:69-146 | Exactly the twelve kinds of instructions that only compute a register can be removed |
| DeadStorePass.RemoveDeadLocals | src/ir/opt.cpp:196-353 | For every function: erases exactly the private stores of which 512 sweeps find no read; if all reads are found in time, as in at most 512 blocks, these are exactly the dead stores and the result is a certified rewriting |
| DeadStorePass.ErasesOnlyDead | src/ir/opt.cpp:299-345 | Dead stores always go; only they go if and only if each read of a private store is reached on a path that enters at most 511 further blocks not in front of the one it comes from |
| NearReads.SweptMeans | src/ir/opt.cpp:307-329 | The flag of a block after f sweeps in place, over paths: set if and only if a read is reached by entering fewer than f blocks that are not in front of the one come from |
| SweepCap.ChainErased | src/ir/opt.cpp:299-345 | A store, n labels and the read: the store is live, and it is erased if and only if n is above 512 |
| SweepCap.ChainBreaks | src/ir/opt.cpp:196-353 | Such a function returns 7; after the pass it still does with at most 512 labels, and with more it returns what the local held before, in every environment |
| LivenessSolver.SolveLiveness | src/ir/opt.cpp:299-330 | When the loop stops, by convergence or at the cap, the table holds exactly what 512 sweeps find; with at most 512 blocks a bit is set if and only if some path reads the local before an unescaped store overwrites it |
| Liveness.Saturated | src/ir/opt.cpp:299-330 | As many sweeps as there are blocks reach the least solution, by counting the blocks that a live local reaches |
| BlockScan.BuildCfg | src/ir/opt.cpp:203-264 | The scan finds the leaders, the escaped locals and, for every block, exactly the blocks control may go to next |
| Simulation.LabelMoves | src/ir/opt.cpp:148-159 | A label that some jump names is found after compaction at its compacted position |
| Compaction.CompactAt | src/ir/opt.cpp:148-159 | Every kept element lands at the index that counts the kept elements before it |
| Compaction.KeptOrigin | src/ir/opt.cpp:148-159 | Every element of the compacted result is a kept one, in the original order |
| IrObjects.CompactBody | src/ir/opt.cpp:148-159 | The read and write cursors over the one body leave exactly the unmarked instructions in order |
| Rewriting.StepKeepsShape | src/ir/opt.cpp:161-353 | Every pass before label compaction keeps the form: one definition per register, uses later in the same block, unique labels, jumps and returns last; no new address is taken and the calls stay |
| Pruning.MarkReachable | src/ir/opt.cpp:685-715 | The worklist ends and marks exactly the functions that calls reach from the roots |
| Pruning.RemoveUnusedFunctions | src/ir/opt.cpp:685-746 | Keeps exactly the function objects that a chain of calls reaches from an entry, external, system-call, exported or imported function or one named like main, in order, calls renumbered; ids are indices afterwards |
| Pruning.PrunedIds | src/ir/opt.cpp:685-746 | Whenever a function is erased every id is the index of its function; otherwise the ids stay |
| Relabeling.RunRelabel | src/ir/opt.cpp:716-746 | Consistent new numbers for functions, strings and globals change no run |
| Tables.CompactStrings | src/ir/opt.cpp:748-796 | Only the strings that some instruction names stay, renumbered |
| Tables.CompactGlobals | src/ir/opt.cpp:798-856 | Only the globals that some instruction names stay, renumbered |
| Tables.MentionedMeans | src/ir/opt.cpp:748-856 | A string is named by an instruction that loads it, a global by one that reads, writes or takes the address of it |
| LabelPass.CompactLabels | src/ir/opt.cpp:858-904 | Exactly the labels that no jump of their function names are removed |
| LabelPass.UnusedMeans | src/ir/opt.cpp:858-904 | A label goes exactly if no jump goes to it and no branch names it on either side |
| LabelPass.LabelsRefine | src/ir/opt.cpp:858-904 | Removing them keeps every run |
| Optimizer.Optimize | src/ir/opt.cpp:906-935 | At every level, with any passes switched off: every entry, external, system-call, exported and imported function and every one named like main is kept; from O2 on, unless all are to be kept, the others exactly if a chain of calls leads to them; the order stays, and every run of a kept function that does not trap is the same run of its counterpart. Level O0 changes nothing; the rounds are at most four, fewer only after a round without change, each fold, dead, store, dead; O2 and O3 then prune and compact |
| Optimizer.SameEntry | src/backend/isel.cpp:112-123 | The entry search picks the same function before and after |
| AddressUse.RunsKeptFromSource | src/ir/opt.cpp:906-935 | The same for a condition on the program given to the optimizer: memory effects touch only locals whose address is handed to an instruction that lasts |
| LoweringCorrect.StmtSim | src/ir/ir_gen.cpp:857-1131 | Every statement: normal end, return, break, continue and endless looping of the source are matched by its code started with related locals |
| LoweringCorrect.IfSim | src/ir/ir_gen.cpp:999-1081 | if, else-if chains and else, with the termination flag of every branch |
| LoweringCorrect.WhileSim | src/ir/ir_gen.cpp:1083-1126 | while and for: continue runs the step, break leaves, and a source that keeps looping keeps the code running |
| LoweringExprs.ExprSim | src/ir/ir_gen.cpp:1375-1640 | The code of an expression computes its value and performs its assignments, operands left to right |
| LoweringShape.FuncShape | src/ir/ir_gen.cpp:807-833 | A lowered function is well formed, its jump targets exist, and its labels come from its own range |
| LoweringProgram.LowerWf | src/ir/ir_gen.cpp:342-400 | Lowered programs have the form that every optimizer pass needs |
| LoweringProgram.LowerLabels | src/ir/ir_gen.cpp:342-356 | Labels are unique across functions and every jump stays in its function |
| LoweringProgram.FuncSim | src/ir/ir_gen.cpp:699-833 | A whole function: for every argument list, a source that returns makes the code return the same value, and one that does not end keeps the code running |
| LoweringProgram.CompiledAndOptimized | src/ir/opt.cpp:906-935 | A source function still does what its source says after any optimization |
| LoweringProgram.Compile | src/ir/ir_gen.cpp:342-660 | Generation by one generator object and optimization. Fails exactly if a function breaks a rule of the source: names, loops, returns. The program starts at the first function marked as the entry or else the last one named like main; at O2 exactly the functions that calls reach from marked, exported or main functions are kept |
| LoweringProgram.AcceptedIs | src/ir/ir_gen.cpp:342-833 | A program is accepted exactly if every name is visible where it is used, break and continue stand in loops, and a function that is not void leaves on every path |
| LoweringEntry.LoweredShell | src/ir/ir_gen.cpp:699-760 | Name, number of arguments, entry and export marks of every lowered function are those of the source, the id is the index, and nothing else marks it |
| LoweringEntry.StartIsKept | src/backend/isel.cpp:112-123 | The entry of the optimized program is the counterpart of the first marked source function, or of the last one named like main, or there is none |
| LoweringEntry.FunctionsKept | src/ir/opt.cpp:676-746 | Which source functions are kept, said of the source: all, or those at the ends of call chains from marked, exported or main functions |
| IrGenerator.Generator.GenerateFunction | src/ir/ir_gen.cpp:699-833 | The generator object, with its counters, flag, label stacks and scopes, leaves exactly the specified function, with the name, arguments and marks of the source function |
| IrGenerator.Generator.GenerateStmt | src/ir/ir_gen.cpp:857-1131 | One statement appends exactly the specified code and leaves the counters, flag and scopes as specified |
| LoweringSelfInit.InitSeesOutside | src/ir/ir_gen.cpp:878-917 | About generated code, not runs: an initialiser is generated as if it stood outside the declaration exactly if it does not mention the declared name |
| LoweringSelfInit.ShadowingRuns | src/ir/ir_gen.cpp:878-917 | A run that goes wrong, for one concrete function whose initialiser mentions its own name: the source returns 6, the code one more than the junk in the new local |
| HeapSpec.AlignRoom | std/heap/heap.qu:36-41 | The rounded size leaves room for header and payload exactly if the sum does not wrap around |
| HeapMemory.AlignIs | std/heap/heap.qu:36-41 | The arithmetic rounding is the masking of the source |
| HeapAllocator.Allocator.UnlinkFree | std/heap/heap.qu:45-62 | Removes the block from the list if it is there and says so |
| HeapAllocator.Allocator.AllocFromList | std/heap/heap.qu:66-94 | Null exactly if no free block is big enough; otherwise the first that fits is taken whole or from its end |
| HeapAllocator.Allocator.Refill | std/heap/heap.qu:99-110 | A new chunk with its guard becomes one free block, or nothing changes |
| HeapAllocator.Allocator.Malloc | std/heap/heap.qu:113-121 | The memory after the call is laid out as the specified heap says, and every payload in use is unchanged |
| HeapAllocator.Allocator.Free | std/heap/heap.qu:125-145 | Likewise, with the block behind joined if it is free |
| HeapAllocator.Allocator.Realloc | std/heap/heap.qu:149-210 | Likewise on all paths; the first bytes of the payload, as many as fit both sizes, are kept |
| HeapAllocator.Allocator.ServeAll | std/heap/heap.qu:45-210 | Every finite sequence of valid calls keeps the invariant, and the pointers the program holds are in use and distinct |
| HeapBlocks.ChunkTiled | std/heap/heap.qu:96-110 | The blocks of a chunk tile it from its start to its guard |
| HeapBlocks.TilesAddUp | std/heap/heap.qu:96-110 | Their sizes add up to the chunk size, each a multiple of 16 and at least 32 |
| HeapBlocks.PayloadsApart | std/heap/heap.qu:66-94 | Payloads of different blocks in use have no byte in common |
| HeapSpec.MallocContract | std/heap/heap.qu:113-121 | The invariant is kept, the block handed out is new and big enough, every block in use stays as it was |
| HeapSpec.MallocSucceeds | std/heap/heap.qu:113-121 | A request that fits a chunk succeeds with at most one mapping unless the kernel refuses |
| HeapSpec.MallocTooBig | std/heap/heap.qu:113-121 | A request that fits no chunk fails, after mapping until the kernel refuses |
| HeapSpec.MallocEnough | std/heap/heap.qu:113-121 | A block handed out has room for the request exactly if rounding up did not wrap around |
| HeapSpec.MallocTooSmall | std/heap/heap.qu:113-121 | A request of 2^64 - 1 bytes on the empty heap is given a block with room for 16 |
| HeapSpec.MallocFirst | std/heap/heap.qu:66-94 | The first block of the list that is big enough serves the request, from its end or whole when less than 32 bytes would be left, and nothing is mapped |
| HeapSpec.FreeContract | std/heap/heap.qu:125-145 | Exactly the freed block leaves use |
| HeapSpec.FreeJoins | std/heap/heap.qu:125-145 | A free block behind the freed one becomes part of it and is no block any more; the freed block heads the list |
| HeapSpec.ReallocContract | std/heap/heap.qu:149-210 | One block in place of the old one, or failure and the old one kept; no other block in use is touched |
| HeapSpec.ReallocEnough | std/heap/heap.qu:149-210 | The block has room for the request exactly if rounding did not wrap and it is not so that the old block is too small, the one behind is free, and both together are too small |
| HeapSpec.ReallocInPlace | std/heap/heap.qu:149-192 | A block that is big enough, or is with the free block behind it, an exact fit included, stays where it is with less than 32 bytes to spare, and nothing is mapped |
| HeapSpec.ReallocTooSmall | std/heap/heap.qu:174-192 | Three calls that lead to a block with room for 16 bytes when 100 were asked for |
| X86Encoding.MemBack | src/backend/x86_64.cpp:16-82 | Every memory operand is read back from its ModRM, SIB and displacement bytes, sections 2.1.5 and 2.2.1 of volume 2A of the Intel manual |
| X86Encoding.ListBack | src/backend/x86_64.cpp:50-290 | Decoding the bytes of any list of encodable instructions gives the list back |
| X86Encoding.TwoBack | src/backend/x86_64.cpp:183-247 | imul, setcc and movzx are read back exactly if their registers are of the forms the emitter encodes properly |
| X86Encoding.ImulFails | src/backend/x86_64.cpp:217-225 | imul r8, rax is read back as imul rax, r8 |
| X86Encoding.SubRspBack | src/backend/x86_64.cpp:206-208 | The processor extends the sign of the immediate: a frame size is read back exactly below 2^31, others as if 2^32 had been taken off |
| X86Encoding.SubRspFails | src/backend/x86_64.cpp:206-208 | 2^31 bytes are read back as minus 2^31 |
| X86.CompareOrder | src/backend/isel.cpp:302-318 | After a comparison the signed conditions compare the signed values although the difference may overflow |
| X86Frame.OperateComputes | src/backend/isel.cpp:248-322 | The instructions of every integer operation leave in rax what the IR operation computes, touching only rax, rbx, rdx and flags |
| X86Frame.UnsignedOrder | src/backend/isel.cpp:302-318 | The instructions selected for an ordering of an unsigned kind, executed, leave what the IR asks for in rax exactly if both operands have the same top bit, and change only scratch registers and flags |
| X86Frame.UnsignedOrderFails | src/backend/isel.cpp:302-318 | For 2^63 < 1 the IR asks for 0 and the executed instructions leave 1 |
| X86Frame.AreasApart | src/backend/isel.cpp:125-132 | Locals, temporaries and stack objects lie in the frame and do not overlap |
| X86Correct.StraightSim | src/backend/isel.cpp:478-503 | Each straight instruction is matched by its code: temporaries and locals stay in their slots, the stack pointer returns, memory above the frame is untouched |
| X86Functions.BodyRuns | src/backend/isel.cpp:504-528 | From any instruction on: when the IR returns so does the code, with the same value; while the IR runs the code runs; every jump lands on its label |
| X86Entry.PrologueRuns | src/backend/isel.cpp:747-782 | The prologue opens the frame and brings every argument, from its System V register or from the stack, to its local |
| X86Entry.FnRuns | src/backend/isel.cpp:747-792 | A whole call by the System V convention, registers by number: result in rax, control behind the call, stack and frame pointer and all memory above as before |
| X86Select.PatchIs | src/backend/isel.cpp:852-861 | Patching resolves every recorded jump and changes no other byte |
| X86Layout.ProgramPlaced | src/backend/isel.cpp:863-907 | In the patched text of a program every function decodes to its code, with every label at the address of its mark |
| X86Emitter.Emitter.EmitModRmMem | src/backend/x86_64.cpp:66-82 | The bytes appended one by one are those of the specified encoding |
| X86Isel.ISel.EmitBinop | src/backend/isel.cpp:198-323 | Appends exactly the selected instructions |
| X86Isel.ISel.PatchFixups | src/backend/isel.cpp:852-861 | Patches in place, and reports a missing label exactly if there is one |
| X86Isel.ISel.Generate | src/backend/isel.cpp:863-907 | The text of a whole program from the start, its jumps patched |
| MachineFit.TrimmedEmittable | src/ir/opt.cpp:906-935 | The optimizer keeps programs fit for the back end |
| MachineCode.Build | src/backend/isel.cpp:863-907 | Generate, optimize, select and patch: fails exactly when a function breaks a rule of the source, never for want of a label; entry and kept functions as the source says |
| MachineCode.MachineRuns | src/backend/isel.cpp:863-907 | Calling the machine code of a kept source function does what its source says: for every accepted program, every optimization level, every argument list, every machine state that follows the calling convention and every number of loop turns |
| MachineCode.BuildRuns | src/backend/isel.cpp:863-907 | The same for the bytes that Build returns, wherever they are loaded |
| ExprRoundTrip.ReadBack | src/frontend/parser.cpp:961-1244 | Written with as few parentheses as the levels ask for, an expression is parsed back exactly if no `<` among its tokens opens type arguments; otherwise the parser takes type arguments |
| ExprRoundTrip.RoundTrip | src/frontend/parser.cpp:961-1244 | With parentheses round every `<` every expression is parsed back, whatever follows that is no operator and does not belong to an operand: binary operators to the left, assignment to the right |
| ExprRoundTrip.WriteInjective | src/frontend/parser.cpp:961-1244 | Different expressions are written differently |
| ExprRoundTrip.BareLessFails | src/frontend/parser.cpp:279-314 | The tokens of a < b > (c > d), written without the guard, are not parsed back |
| ExprRoundTrip.GuardedClean | src/frontend/parser.cpp:279-314 | No `<` written with the guard looks like the start of type arguments |
| ExprGrouping.TighterRight | src/frontend/parser.cpp:85-129 | x p y q z is x p (y q z) when q is of a tighter tier, for all pairs of the eight tiers of operators |
| ExprGrouping.TighterLeft | src/frontend/parser.cpp:85-129 | x q y p z is (x q y) p z when q is of a tighter or the same tier |
| ExprGrouping.AssignLoosest | src/frontend/parser.cpp:961-1009 | x = y p z assigns the whole right side |
| ExprGrouping.AssignRight | src/frontend/parser.cpp:961-1009 | x = y = z assigns from right to left |
| ExprGrouping.NoTarget | src/frontend/parser.cpp:972-981 | x p y = z is an error |
| ExprGrouping.CompoundMeans | src/frontend/parser.cpp:983-1000 | x += y p z is x = x + (y p z), and so for all six |
| ExprGrouping.CompoundAtom | src/frontend/parser.cpp:983-1000 | x += y is x = x + y, and so for all six |
| ExprGrouping.StepMeans | src/frontend/parser.cpp:1206-1220 | x++ is x = x + 1 and x-- is x = x - 1 |
| ExprGrouping.StepTarget | src/frontend/parser.cpp:1206-1220 | Stepping anything but a variable, field or element is an error |
| ExprGrouping.PrefixTighter | src/frontend/parser.cpp:1011-1058 | Prefix operators bind tighter than all tiers |
| ExprGrouping.PostfixTighter | src/frontend/parser.cpp:1115-1213 | Postfix operators bind tighter than prefix ones |
| ExprGrouping.OpensMeans | src/frontend/parser.cpp:279-314 | A `<` opens type arguments exactly if a name or type follows and the matching `>`, with only such tokens in between, has `(` or `{` behind it |
| ExprParser.Parser.ParseExprAt | src/frontend/parser.cpp:961-1009 | The parser object, with current token, look-ahead buffer and lexer, returns what the specification says and leaves the position behind it |
| ExprParser.Parser.LooksLikeGenericArgs | src/frontend/parser.cpp:279-314 | The look-ahead answers as specified and consumes nothing |
| ModuleOrder.ModuleSorter.TopoSort | src/modules/modules.cpp:262-302 | Ends; every module exactly once; an error exactly if there is a cycle; without one every module behind its dependencies |
| ModuleOrder.OrderedAcyclic | src/modules/modules.cpp:262-302 | A graph whose modules can all be put in order has no cycle |
| DecimalFormat.DigitsU64 | std/format/format.qu:53-69 | The digits end at index 30 and nothing else in the 32 bytes changes |
| DecimalFormat.Finish | std/format/format.qu:73-85 | The move to the front overwrites no digit before it is read, and the text ends with NUL |
| DecimalFormat.FormatI64 | std/format/format.qu:88-101 | Reading the text gives the number back, the least one included, without needless zeros |
| DecimalFormat.FormatU64 | std/format/format.qu:104-109 | Reading the text gives the number back |
| ElfFile.Write | src/backend/elf_writer.cpp:88-398 | The writer with its buffers produces exactly the specified bytes, or fails exactly if a relocation in a section names an unknown symbol; if file offsets fit 32 bits, reading the result gives the object back |
| ElfRoundTrip.ReadWritten | src/backend/elf_writer.cpp:88-398 | A reader of 64-bit relocatable files recovers text, data, every relocation with its offset, symbol, type and addend, every symbol with its place and name, and the index of the first global, in whatever order symbols at the same place were sorted |
| ElfRoundTrip.RecoveredSame | src/backend/elf_writer.cpp:88-171 | The recovered symbols are the object's; the recovered relocations are the object's if and only if all of them lie in the text, as others are dropped |
| ElfRoundTrip.SymbolsExact | src/backend/elf_writer.cpp:255-285 | All fields of all symbols come back if and only if undefined symbols carry no place and, without text, no symbol lies in the text: such a symbol is written with the section number of the data |
| ElfRoundTrip.RelocDropped | src/backend/elf_writer.cpp:159-171 | One byte of text and a relocation at offset 1: it is dropped |
| ElfRoundTrip.EmptyTextSymbol | src/backend/elf_writer.cpp:255-285 | A symbol at the start of an empty text comes back as one of the data |
| ElfRoundTrip.LinkedMeans | src/backend/elf_writer.cpp:319-336 | Writing succeeds if and only if each relocation in the text names a symbol |
| ElfRoundTrip.SortedSame | src/backend/elf_writer.cpp:89-99 | Each symbol once, all locals in front of the first global and no global among them |
| ElfRoundTrip.NamesBack | src/backend/elf_writer.cpp:173-205 | A reader finds the names of the text sections and of their relocation sections through the string table that the file header names |
| ElfRoundTrip.TablesNamed | src/backend/elf_writer.cpp:173-195 | The last three sections are named .symtab, .strtab and .shstrtab |
| ElfRoundTrip.SecsAligned | src/backend/elf_writer.cpp:218-253 | Every section starts in the file at a multiple of the alignment in its header, text sections at one of 16 |
| ElfObject.SectionsTile | src/backend/elf_writer.cpp:101-157 | The text sections tile the text: not empty, without gap and overlap, for all symbol positions |
| ElfReadBack.RangesApart | src/backend/elf_writer.cpp:207-253 | No two sections overlap in the file and none overlaps the file header |
| ElfReadBack.FileParts | src/backend/elf_writer.cpp:253-373 | The section headers lie behind all sections; nothing else is in the file |
| ElfReadBack.LoadBack | src/backend/elf_writer.cpp:287-395 | All section headers and contents are found where the file header says |
| ElfRelocs.AllKept | src/backend/elf_writer.cpp:159-171 | Splitting the relocations keeps each one once, exactly if all lie in the text |
| ElfWriter.AssignRelocs | src/backend/elf_writer.cpp:159-171 | Each relocation goes to the first section that holds it, relative to its start, in order |
| ElfWriter.StringTable.Add | src/backend/elf_writer.cpp:53-69 | A new name goes behind the others with a NUL, a known one keeps its offset |

## Left out

- Floating point: float instructions are answered by the environment and never folded, as folding of 32-bit floats in double precision is not modelled.
- Optimizer.Optimize: functions of more than 512 basic blocks. The dead-store pass alone is modelled for all sizes (`DeadStorePass.ErasesOnlyDead`); whether reads are still found in time after another pass has erased some of them is not.
- Switch, calls, structs, pointers, casts, generics and regions in lowering: the source fragment has one integer type at a time, variables, operators, assignment and structured control flow. Regions in the IR are opaque effects, and a jump followed by the end of a region is not well formed.
- LoweringCorrect.StmtSim: an initialiser that mentions the name it declares is excluded; `LoweringSelfInit` says exactly what it leads to.
- AddressUse.RunsKeptFromSource: a local whose address only travels through other locals is not covered; `Optimizer.Optimize` covers it by a condition on the optimized program.
- HeapAllocator.Allocator.CopyPayload: copies word by word where the source copies byte by byte, as memory is a map of aligned words; payload sizes are multiples of 16.
- HeapAllocator.Allocator.Refill: the kernel is a list of mapping results; unmapping does not occur.
- Back end: calls, memory and global instructions, casts, floats, regions, system-call stubs, the start code and the Windows convention are not selected. Stack objects and addresses of locals are, as addresses only. Texts are below 2^31 bytes, frames below 2^30.
- X86Entry.FnRuns: nothing is promised about rbx, which the code uses without saving it.
- IrGenerator.Generator.GenerateFunction: attributes other than `@entry` and `@export`, external functions, methods and generic functions. Function objects are created complete, not field by field.
- ExprParser.Parser.ParseExprAt: recovery after an error, struct initialisers, type arguments, scoped names, `sizeof`, types as expressions, and string, character and float literals; the model says when the parser reaches one.
- ModuleOrder.ModuleSorter.TopoSort: the order of the roots by name is a parameter.
- Decimal formatting of floats and the copy of the text to the heap.
- ElfFile.Write: file offsets are not cut to 32 bits, so files from 4 GiB on come out other than in the source; more than 65,279 sections are written but not promised to be readable. `std::sort` is a parameter: any order of the text symbols by value. Text symbols behind the end of the text, which the source would read past, are excluded.
- The PE writer, the AArch64 back end, the linker, the lexer, the statement parser, the semantic pass, name mangling, file lookup, diagnostics and options.
