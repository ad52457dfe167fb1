# libcpu, verified

A Dafny model of libcpu, a dynamic recompiler, and of the tools around it, with proofs. The centre is
the recompiler: guest code is tagged depth first, the tags are turned into functions made of basic
blocks, and a loop runs these functions and tags and translates more whenever it meets an address none
of them knows. The proofs say that all this is invisible: what a guest program does is what a machine
does that executes one instruction at a time.

| file | what it models |
|---|---|
| `Guest.dfy` | the guest: its tags, the contract of a frontend, and the one-instruction reference machine |
| `DelaySlot.dfy` | that machine in the terms of a machine with delay slots |
| `Tagging.dfy` | the depth-first search that marks code and block starts |
| `Ir.dfy` | the small instruction set that stands for LLVM, and its interpreter |
| `Translate.dfy` | turning tags into functions: labels, dispatch, block filling, delay slots, external exits |
| `Simulation.dfy` | translated functions against the reference machine |
| `Interface.dfy` | the cache of functions: run, miss, tag, translate, retry, flush |
| `FlushedClient.dfy` | a client that flushes in the middle of a run, and what becomes of it |
| `SingleStep.dfy` | one function per instruction, as the debugger uses it |
| `Registers.dfy` | local copies of registers and flags on entry to and return from a function |
| `Memory.dfy` | byte and half-word accesses by way of 32-bit words, in every pair of byte orders |
| `Sha1.dfy` | the hash that keys the entry cache, against FIPS PUB 180-1 |
| `Sha1Vectors.dfy` | the standard's test vectors, worked through round by round |
| `X86Tables.dfy`, `X86Decode.dfy`, `X86Format.dfy` | the x86 instruction decoder |
| `X86TableLaws.dfy`, `X86Lengths.dfy` | what its tables hold, by opcode byte, and how long common encodings are |
| `Arithmetic.dfy` | multiplication and division in small steps, for the proofs about numbers |
| `BitFields.dfy` | shifts and truncation of lists of bit fields |
| `NatCompare.dfy` | natural-order string comparison |
| `NatLaws.dfy` | what that order amounts to: first differences, numbers, fractions, case and spaces |
| `OpcodeTable.dfy` | opcode tables made from bit patterns, and the first match in them |

## How it is modelled

The guest is abstract: a `Frontend` holds the functions a frontend supplies (tags, condition, effect,
length, copying registers in and out). `Contract` is what they must satisfy, as the comments of
`libcpu/tag.h` ask: exactly one base tag, delay slots only at calls, returns and branches, an
instruction in a delay slot that is plain, and returns, traps and computed branches that store PC
themselves. One clause the source does not spell out is that a plain instruction is followed by one at
a higher address (`TagContinue ==> nextPc > pc`): with a cycle of plain instructions the do-while loop
of `cpu_translate_all` would run for ever. Tag words are sets of tag bits. A function is a sequence of
blocks of operations that end in one terminator; its interpreter counts steps. Classes keep the fields
the source updates in place: `TagMap` the tag array, `Builder` the function under construction, `Cpu`
the functions and the state of the guest, `Stepper` the same for single stepping.

`Cpu.Run` takes an amount of fuel, since guest programs need not end. What it finds with enough fuel
is proved to be there, and with too little it is proved that the guest has not ended within the
instructions the fuel is enough for, unless a flush gets in the way (below).

`tag_recursive` is one function with a loop that recurses from the middle. The class has it as
`TagRecursive` for the loop, with `Enter`, `Fork`, `ForkTrap` and `ForkCall` for the parts of its body. A
functional description of the search connects the class with the fixed-point lemmas.

`cpu_flush` clears the functions but not the marks on their labels, so every label is lost: it is marked
as translated, and no function has it. The invariants of the cache (`Ownership`) hold in spite of that,
and what a run returns is right in spite of that. What fails is progress, and `Cpu.Run` says when: given
enough fuel a run comes back if and only if the reference machine, up to its end, never stands at a lost
address. When it does, the loop misses, tags and translates for ever, because no tagging and no
translating finds a lost address again. So progress holds from every guest state if and only if nothing
is lost (`ClearIffNothingLost`), and nothing is lost after a flush if and only if nothing was before it
and no function had a label (`FlushLoses`). `FlushedClient.RunFlushRun` is a guest of one instruction and a client for which it
happens; `test/m88k/run88.cpp:401-405` is such a client outside single stepping. Single stepping uses no
tags, and there flushing is right.

`Registers.dfy` discharges the law `load(spill(s)) == s` that the frontend contract asks for. The guest
state of the contract is what it calls `State`: the registers of all classes, a value for each flag, and
the rest of the register file, but no XR 0 of its own. The local copy of XR 0 is overwritten with the
encoded flags when a function returns, so the effects of a frontend may set flags, but may not keep
anything in, or read anything from, the local copy of XR 0. A register file is what spilling its state
gives if and only if its status register has no bits set besides the flags (`SpilledIff`).

The x86 decoder is proved for any tables that fit (`Tables.Fit`), and those of the source do. The
decoder's flag words are sets of named bits. The format it is compared with is given by addressing
modes and by the ModRM and SIB rules, not by flags.

The natural comparison is proved to be a total preorder. The opcode tables are proved for any table
file, including those with several lines of the same pattern, of which the earliest wins.

## Model

| member | source | states |
|---|---|---|
| Guest.Frontend.OneKind | libcpu/tag.h:4-12 | with exactly one base tag an instruction is of exactly one kind: continue, branch, call, return or trap |
| Guest.UntilIsUnique | libcpu/interface.cpp:408-449 | the first state of the reference machine outside the area or at a trap does not depend on how long one waits |
| Guest.StepsThenUntil | libcpu/interface.cpp:408-449 | instructions performed inside the area can be taken off the front of a run without changing its outcome |
| Guest.StepsMeansNotYet | libcpu/interface.cpp:408-449 | while instructions run inside the area the run has not ended |
| DelaySlot.StepByKind | libcpu/translate.cpp:19-78 | kind by kind what a step does, in tags, length, effect and condition alone: the instruction in a delay slot is the one `length` bytes further on, executed taken or not; which of the two addresses or the stored PC comes next |
| DelaySlot.StepFlows | libcpu/translate.cpp:35-57 | a step is one instruction of a machine with a PC and a next PC, or two where there is a delay slot |
| DelaySlot.RunsFlow | libcpu/translate.cpp:35-57 | every state the reference machine comes to in n steps that machine comes to in between n and 2n instructions, outside delay slots |
| Tagging.TaggingFindsReachable | libcpu/tag.cpp:116-217 | with the depth limit off, after any sequence of starts the code found is exactly the least set that holds the entries inside the area and is closed under the successors |
| Tagging.CodeByKind | libcpu/tag.cpp:138-187 | for every code address and each kind, which of target, next and second next instruction inside the area is code too: both for a call, the second next only if traps return twice |
| Tagging.CodeHasReason | libcpu/tag.cpp:138-187 | conversely every code address that is no entry is one of these places of another code address; nothing follows a return, an unconditional branch or a trap that does not return |
| Tagging.CodeIsPaths | libcpu/tag.cpp:116-189 | code is exactly what a path of such places leads to from an entry |
| Tagging.LimitIsSix | libcpu/tag.cpp:123-125 | with the limit on, of a chain of jumps exactly six are found, less the depth at which the search begins |
| Tagging.MarkIffReason | libcpu/tag.cpp:138-187 | a mark that begins a block is at an address if and only if the instruction of some code address puts it there |
| Tagging.LimitedTaggingFindsEntries | libcpu/tag.cpp:116-217 | with the limit on, every entry is found, all marks are consistent, and only reachable addresses are code |
| Tagging.MarkKeepsConsistent | libcpu/tag.cpp:138-187 | marking an instruction's places keeps every code address marked as its instruction demands |
| Tagging.SearchFinds | libcpu/tag.cpp:116-189 | one call of the search from any depth, entered in the middle of another, finds what it must and leaves only the pending places of its callers unexplored |
| Tagging.WalkFinds | libcpu/tag.cpp:127-188 | the same for the loop inside it |
| Tagging.SearchReaches | libcpu/tag.cpp:116-189 | one more entry makes the code set the least closed set for one more entry |
| Tagging.TagMap.OrTag | libcpu/tag.cpp:91-96 | bits are added at an address inside the area, and nothing changes otherwise |
| Tagging.TagMap.TagRecursive | libcpu/tag.cpp:116-189 | the search in place on the tag array computes the described search and terminates |
| Tagging.TagMap.Enter | libcpu/tag.cpp:138-142 | the marks of the instruction itself and of what follows a conditional one |
| Tagging.TagMap.Fork | libcpu/tag.cpp:144-182 | the recursive searches one instruction starts, in their order |
| Tagging.TagMap.ForkTrap | libcpu/tag.cpp:144-168 | what trap hints add: the next instruction and the one after it |
| Tagging.TagMap.ForkCall | libcpu/tag.cpp:170-175 | a call marks the subroutine and the return place and searches the subroutine |
| Tagging.TagMap.InitTagging | libcpu/tag.cpp:36-83 | a fresh array without marks; the entries of the cache file are started at if the limit is off |
| Tagging.TagMap.TagStart | libcpu/tag.cpp:191-217 | after any history the marks are consistent, the code set is least and closed, old marks stay, and an entry inside the area is code and marked as entry |
| Translate.Builder.CreateBasicblock | libcpu/basicblock.cpp:46-58 | a new empty block; a normal one becomes the label of its address |
| Translate.Builder.EmitStorePcReturn | libcpu/basicblock.cpp:39-44 | a block that stores PC and returns, complete with its terminator |
| Translate.Builder.LookupBasicblock | libcpu/basicblock.cpp:60-73 | a block from which PC's address is reached: the label, or a new external block that stores PC and returns |
| Translate.Builder.TranslateInstr | libcpu/translate.cpp:19-78 | the blocks of the conditional, delay-slot and plain shapes, and the open block in which control continues |
| Translate.Builder.TranslateDelaySlot | libcpu/translate.cpp:35-57 | instruction, delay slot, target when taken; delay slot, next instruction when not |
| Translate.InstrBlocksTranslate | libcpu/translate.cpp:19-78 | those blocks execute condition, instruction and delay slot in the order of the reference machine, with one terminator each |
| Translate.Builder.LookupTargets | libcpu/translate_all.cpp:72-83 | the blocks for target and not-taken side lead where the instruction's tag says |
| Translate.Builder.FillRound | libcpu/translate_all.cpp:60-96 | one round of the filling loop: an instruction is translated at the open end of the block, and the open end is still the block's own |
| Translate.Builder.TranslateBlock | libcpu/translate_all.cpp:60-103 | a label's block holds plain instructions up to one that leaves it or to the next block start, where it is linked; no block start lies inside it; all blocks made are finished |
| Translate.NotConditional | libcpu/tag.cpp:141-142 | after a conditional instruction a block starts, which is why the loop may keep filling the same block |
| Translate.StartsExactly | libcpu/tag.cpp:138-187 | a code address is a block start if and only if it is an entry, follows a conditional instruction, is the target or the return place of a call, the target of a branch, or follows a trap under the hints |
| Translate.Builder.Link | libcpu/translate_all.cpp:98-103 | a block that runs on is ended by a branch to the block of the next address |
| Translate.Builder.CreateLabels | libcpu/translate_all.cpp:22-33 | the labels are exactly the block starts no function has translated yet, in ascending order |
| Translate.Builder.TranslateLabel | libcpu/translate_all.cpp:44-104 | one round over the labels: the address is marked as translated, gets its switch case, and its block is right |
| Translate.Builder.TranslateAll | libcpu/translate_all.cpp:19-107 | the whole function: every label has a right block, the dispatch switch has a case for each label and no other, every block has exactly one terminator at its end, and exactly the labels are marked as translated |
| Translate.ExternalsAreMinimal | libcpu/basicblock.cpp:61-73 | with the limit off, an address inside the area that does not get a label, but is referred to, is one translated before or the not-taken side of a conditional return or trap |
| Translate.ReferredToStarts | libcpu/tag.cpp:138-187 | code that a call, a branch or the not-taken side of a conditional instruction leads to is where a block starts |
| Simulation.FunctionSimulates | libcpu/translate_all.cpp:19-107 | from any state and PC, for any fuel: the function never gets stuck, performs instructions of the reference machine, and returns with its state and pc; at a trap exit the next instruction traps; none of the instructions is at an address the function was made to avoid |
| Simulation.LeavesItsLabels | libcpu/interface.cpp:423-442 | a call that returns FUNCNOTFOUND leaves a PC that is none of the function's labels, has moved exactly if it was called at one, and has done nothing otherwise |
| Simulation.NeverIdle | libcpu/translate_all.cpp:36-58 | if the guest ends within n instructions the function returns within a linear number of steps |
| Simulation.BlockRuns | libcpu/translate.cpp:19-78 | from a label's block the function performs at least one instruction and gets to the next block, to a return, or to the trap block |
| Simulation.BlocksRun | libcpu/translate_all.cpp:36-58 | the same for any number of blocks, by way of the dispatch switch |
| Interface.Cpu.TranslateFunction | libcpu/interface.cpp:324-383 | one more function, right and with all blocks finished, whose labels are the unowned block starts; ownership still holds and what is lost is the same; with the limit off it has only the external exits it needs |
| Interface.Cpu.Translate | libcpu/interface.cpp:385-394 | a function is added exactly if tags have changed |
| Interface.Cpu.Tag | libcpu/interface.cpp:316-322 | tagging leaves ownership, unowned and lost addresses as they are |
| Interface.Cpu.Flush | libcpu/interface.cpp:451-460 | all functions go; the invariants hold; lost is then what was lost before and every label there was |
| Interface.Cpu.Call | libcpu/interface.cpp:426-435 | one call of a function on the register file performs instructions of the reference machine, none of them at a lost address |
| Interface.Cpu.TryFunction | libcpu/interface.cpp:426-442 | one round of the inner loop: the call settles it, or has changed nothing |
| Interface.Cpu.TryFunctions | libcpu/interface.cpp:423-442 | the inner loop hits exactly if some function owns PC, and otherwise leaves state and PC as they were |
| Interface.Cpu.RunRound | libcpu/interface.cpp:417-448 | one round of the loop keeps the books of hits, misses and steps, or the run stands at a lost address |
| Interface.Cpu.Run | libcpu/interface.cpp:407-449 | after any history of tagging, translating, running and flushing: what it returns is the reference machine's end, with code, memory and PC; with enough fuel for a run that ends it returns if and only if the machine never stands at a lost address before its end; from a lost address it never returns, with any fuel; unless it ends up at one it never misses twice in a row, nor more often than there are unowned addresses (once more for a start outside the area) |
| Interface.StrategyIndependence | libcpu/interface.cpp:407-460 | two runs from the same state and PC return the same code, memory and PC, whatever had been tagged, translated and flushed before and whatever the options |
| Interface.NewOwner | libcpu/translate_all.cpp:26-58 | a new function takes over the unowned block starts; labels are marked and belong to one function only, and what is lost stays the same |
| Interface.KeepsOwners | libcpu/tag.cpp:91-96 | tagging more does not change who owns what, and finds no lost address again |
| Interface.ExternalsAreNeeded | libcpu/basicblock.cpp:60-73 | with the limit off every function's external exits lead outside the area, to addresses translated before, or to the not-taken side of a conditional return or trap |
| Interface.FlushLoses | libcpu/interface.cpp:451-460 | flushing keeps the invariants and loses exactly the labels; nothing is lost afterwards if and only if nothing was and no function had a label |
| Interface.ClearIffNothingLost | libcpu/interface.cpp:407-460 | runs keep off lost addresses from every guest state if and only if nothing is lost; those that end do if and only if none that begins at a lost address ends |
| Interface.CallSettles | libcpu/interface.cpp:431-442 | the tests of the return code, of the area and of a changed PC tell the four ways a call comes back apart |
| FlushedClient.FlushAndRun | test/m88k/run88.cpp:401-405 | tag, flush and translate, then run an address translated before: control never comes back, for any guest and any fuel |
| FlushedClient.RunFlushRun | test/m88k/run88.cpp:369-405 | a guest of one instruction whose first run comes back and whose run after the flush does not |
| Stepping.Stepper.CreateReturnBasicblock | libcpu/translate_singlestep.cpp:22-28 | a block that stores the address and returns |
| Stepping.Stepper.CreateTargets | libcpu/translate_singlestep.cpp:45-52 | taken and not-taken side return with the right PC |
| Stepping.Stepper.TranslateFunction | libcpu/translate_singlestep.cpp:30-61 | a function that performs the instruction PC points to |
| Stepping.StepsOnce | libcpu/translate_singlestep.cpp:30-61 | such a function performs exactly one step of the reference machine, delay slot included, whatever PC says when it is called |
| Stepping.Stepper.Run | libcpu/interface.cpp:407-449 | with no function left over one instruction is performed and PC is exact; with one left over, the instruction that was made for is performed again |
| Stepping.Stepper.StepTimes | libcpu/idbg.cpp:751-757 | n rounds of run and flush perform exactly n reference steps, or stop at the first trap with the machine's state |
| Registers.Frame.EncodeBit | libcpu/frontend.cpp:385-392 | the flag is or-ed into its bit, the other bits stay |
| Registers.Frame.FlagsEncode | libcpu/frontend.cpp:404-416 | the status register holds each flag at its position and zero elsewhere |
| Registers.Frame.FlagsDecode | libcpu/frontend.cpp:418-427 | every flag gets its bit, slots of no flag keep their value |
| Registers.Frame.LoadClass | libcpu/function.cpp:93-115 | the local copies of a register class are the registers of the file |
| Registers.Frame.SpillClass | libcpu/function.cpp:221-231 | the registers of the class become the local copies, the rest of the file stays |
| Registers.Frame.LoadFp | libcpu/function.cpp:122-160 | register by register and half by half the local copies are those of the file; which widths take two words on which hosts is written out |
| Registers.Frame.SpillFp | libcpu/function.cpp:233-254 | register by register and half by half the file gets the local copies, and the rest of it stays |
| Registers.Frame.Enter | libcpu/function.cpp:164-219 | entering a function loads the registers of all classes and the flags; the locals then stand for the loaded state |
| Registers.Frame.Leave | libcpu/function.cpp:258-281 | leaving it stores them; the file then is the spilled state of the locals |
| Registers.EnterThenLeave | libcpu/function.cpp:164-281 | entering and leaving keeps the file, up to the bits of the status register that are no flags |
| Registers.LeaveThenEnter | libcpu/function.cpp:164-281 | leaving and entering keeps all registers and all flags, except that XR 0 comes back as the encoded flags and not as its local copy was |
| Registers.EnteringLoads | libcpu/function.cpp:164-219 | what the locals hold on entry is the loaded state of the file |
| Registers.LeavingSpills | libcpu/function.cpp:258-281 | what leaving makes of the file is the spilled state of the locals |
| Registers.LoadsSpilled | libcpu/function.cpp:164-281 | loading what was spilled gives the same state, for every state of the layout: the law of the frontend contract |
| Registers.SpillsLoaded | libcpu/function.cpp:164-281 | spilling what was loaded keeps the file, with the status register projected onto its flags |
| Registers.SpilledIff | libcpu/function.cpp:164-281 | a file is the spilling of its state if and only if its status register holds nothing but flags |
| Registers.Frame.EnterAndLeave | libcpu/function.cpp:164-281 | the same in place, for a function that executes nothing |
| Memory.Ram.Load32Aligned | libcpu/frontend.cpp:192-200 | the word's bytes in guest order are those in memory, whatever the order of the host |
| Memory.Ram.Store32Aligned | libcpu/frontend.cpp:202-207 | the bytes in memory become the word's, in guest order |
| Memory.Ram.LoadByte | libcpu/frontend.cpp:231-236 | the byte at the address |
| Memory.Ram.LoadHalf | libcpu/frontend.cpp:238-243 | the half word at the address, in guest order; bit 0 of the address is ignored |
| Memory.Ram.StoreByte | libcpu/frontend.cpp:245-253 | only the byte at the address changes |
| Memory.Ram.StoreHalf | libcpu/frontend.cpp:255-263 | only the two bytes of the half word change |
| Memory.PicksByte | libcpu/frontend.cpp:213-220 | the shift picks the byte at the address in either order |
| Memory.ReplacesByte | libcpu/frontend.cpp:245-253 | read, mask, or and write replace one byte |
| Memory.PicksHalf | libcpu/frontend.cpp:222-229 | the shift picks the half word at the address in either order |
| Memory.ReplacesHalf | libcpu/frontend.cpp:255-263 | read, mask, or and write replace one half word |
| Memory.Ram.Run | libcpu/frontend.cpp:192-263 | any run of byte, half-word and word loads and stores gives and leaves what it does on a plain array of bytes, for all pairs of byte orders |
| Memory.StoreChangesOwnBytes | libcpu/frontend.cpp:202-263 | a store leaves all other bytes alone |
| Memory.LoadsStoredByte | libcpu/frontend.cpp:231-253 | a byte stored is the byte loaded |
| Memory.LoadsStoredHalf | libcpu/frontend.cpp:238-263 | a half word stored is the half word loaded |
| Memory.LoadsStoredWord | libcpu/frontend.cpp:192-207 | a word stored is the word loaded |
| Sha1.SwapIsBig | libcpu/sha1.cpp:30-37 | the two rotations and masks turn a little-endian load into the big-endian word |
| Sha1.ChoiceForm | libcpu/sha1.cpp:43-44 | the rewritten choice function is the standard's |
| Sha1.MajorityForm | libcpu/sha1.cpp:46-46 | the rewritten majority function is the standard's |
| Sha1.Blk0 | libcpu/sha1.cpp:30-37 | the first sixteen words of the schedule, swapped in place |
| Sha1.Blk | libcpu/sha1.cpp:39-40 | the sixteen-word circular schedule gives word t of the 80-word schedule |
| Sha1.R0 | libcpu/sha1.cpp:43-43 | a round of the first kind with rotated register names is a round of the standard |
| Sha1.R1 | libcpu/sha1.cpp:44-44 | the same past the first sixteen words |
| Sha1.R2 | libcpu/sha1.cpp:45-45 | a round of the second kind |
| Sha1.R3 | libcpu/sha1.cpp:46-46 | a round of the third kind |
| Sha1.R4 | libcpu/sha1.cpp:47-47 | a round of the fourth kind |
| Sha1.AllRounds | libcpu/sha1.cpp:76-96 | the unrolled rounds are the 80 rounds over the 80-word schedule |
| Sha1.Transform | libcpu/sha1.cpp:50-108 | the compression of one block in place, on hosts of either byte order |
| Sha1.CountAdds | libcpu/sha1.cpp:132-136 | the two-word counter with its carry counts bits modulo 2^64 |
| Sha1.OverrunsOnWrap | libcpu/sha1.cpp:137-146 | when the 32-bit test for a full buffer says there is room, the copy stays inside the buffer exactly if the sum did not wrap |
| Sha1.PadPosition | libcpu/sha1.cpp:182-185 | the padding loop's test is true exactly after the standard's number of zeros |
| Sha1.Context.Init | libcpu/sha1.cpp:111-122 | an empty message |
| Sha1.Context.Update | libcpu/sha1.cpp:125-147 | the context holds the message so far and the data after it |
| Sha1.Context.Blocks | libcpu/sha1.cpp:140-142 | the loop hashes all whole blocks of the data |
| Sha1.Context.PadOut | libcpu/sha1.cpp:180-185 | the loop ends and has added the one bit and the zeros of the standard |
| Sha1.Context.FinalCount | libcpu/sha1.cpp:175-178 | the length in bits as eight bytes |
| Sha1.And504 | libcpu/sha1.cpp:182-182 | the mask of the loop test takes the byte count modulo 64, three bits up |
| Sha1.CountByte | libcpu/sha1.cpp:175-178 | shift and mask give the byte of the counter the standard asks for |
| Sha1.DigestByte | libcpu/sha1.cpp:187-190 | shift and mask give the byte of the state the standard asks for |
| Sha1.Context.Final | libcpu/sha1.cpp:150-194 | the digest of FIPS PUB 180-1 of the message; the context is wiped |
| Sha1.HashPieces | libcpu/sha1.cpp:113-194 | however a message of less than 2^64 bits is cut up, the digest is that of the whole |
| Sha1Vectors.AbcDigest | libcpu/sha1.cpp:9-11 | the digest of the first test vector |
| Sha1Vectors.LettersDigest | libcpu/sha1.cpp:12-13 | the digest of the second one, of 56 bytes in two blocks |
| Sha1Vectors.RootsOfSmallNumbers | libcpu/sha1.cpp:43-47 | the constants of the rounds are the square roots of 2, 3, 5 and 10, times 2^30 and rounded down |
| Sha1Vectors.CountingDigits | libcpu/sha1.cpp:115-121 | the bytes of the first chaining value count up and down |
| X86Tables.TableOne | arch/x86/x86_decode.cpp:53-310 | only 0F switches tables and only 62 has its width looked up; group references have a ModRM byte; every defined entry has an addressing mode |
| X86Tables.TableTwo | arch/x86/x86_decode.cpp:312-569 | the second table has no prefixes, and every defined entry an addressing mode |
| X86Tables.GroupEntry | arch/x86/x86_decode.cpp:571-668 | group entries are operations or undefined, and a mode of their own has a ModRM byte too |
| X86Tables.TablesFit | arch/x86/x86_decode.cpp:53-682 | the source's tables satisfy all that the decoder needs of them |
| X86TableLaws.OneSegmentPrefixes | arch/x86/x86_decode.cpp:53-310 | which bytes are the six segment prefixes, with their values, and which are undefined |
| X86TableLaws.OneOtherPrefixes | arch/x86/x86_decode.cpp:53-310 | which bytes are the other prefixes, what each of them sets, and to what |
| X86TableLaws.OneGroups | arch/x86/x86_decode.cpp:53-310 | which bytes refer to which group, and which have two syntaxes |
| X86TableLaws.OneModrmModes | arch/x86/x86_decode.cpp:53-310 | the exact set of bytes of each addressing mode with a ModRM byte |
| X86TableLaws.OneImmediateModes | arch/x86/x86_decode.cpp:53-310 | the exact set of bytes of each mode with an immediate operand |
| X86TableLaws.OneAddressModes | arch/x86/x86_decode.cpp:53-310 | the exact set of bytes of the modes with a target or an address |
| X86TableLaws.OneNarrowWidthsLow | arch/x86/x86_decode.cpp:53-181 | the exact sets of bytes below 80 of byte and word width |
| X86TableLaws.OneNarrowWidthsHigh | arch/x86/x86_decode.cpp:182-310 | the exact sets of bytes from 80 on of byte and word width |
| X86TableLaws.OneDwordsLow | arch/x86/x86_decode.cpp:53-181 | the exact set of bytes below 80 of doubleword width |
| X86TableLaws.OneDwordsHigh | arch/x86/x86_decode.cpp:182-310 | the exact set of bytes from 80 on of doubleword width |
| X86TableLaws.TwoKinds | arch/x86/x86_decode.cpp:312-569 | which bytes of the second table are undefined, refer to which group, or have two syntaxes |
| X86TableLaws.TwoModrmModes | arch/x86/x86_decode.cpp:312-569 | the exact set of bytes of each mode with a ModRM byte |
| X86TableLaws.TwoPlainModes | arch/x86/x86_decode.cpp:312-569 | the exact set of bytes of each mode without one |
| X86TableLaws.TwoWidths | arch/x86/x86_decode.cpp:312-569 | the exact set of bytes of each width |
| X86TableLaws.ArithmeticRows | arch/x86/x86_decode.cpp:54-117 | in the arithmetic rows bit 0 is the width and bit 1 the direction |
| X86TableLaws.GroupKinds | arch/x86/x86_decode.cpp:571-668 | which encodings of the nine groups are undefined and which have two syntaxes |
| X86TableLaws.GroupModes | arch/x86/x86_decode.cpp:571-668 | TEST alone has a mode of its own, and three encodings of the seventh group a width |
| X86Decode.Instr.FindEntry | arch/x86/x86_decode.cpp:1265-1305 | the loop ends after the prefixes, the 0F and one group step, with the entry the format describes |
| X86Decode.Instr.DecodeModrmAddrModes | arch/x86/x86_decode.cpp:1165-1250 | the flag bookkeeping leaves the one flag of the ModRM operand's form, and SIB exactly if there is a SIB byte |
| X86Decode.OverrideReplaces | arch/x86/x86_decode.cpp:1315-1324 | a group entry's mode replaces the reference's mode and its width the reference's width, each only if it has one |
| X86Decode.Instr.SetFlags | arch/x86/x86_decode.cpp:1307-1334 | after the tables and the ModRM byte the flags are exactly those of mode, width and form |
| X86Decode.Instr.DecodeSibByte | arch/x86/x86_decode.cpp:1116-1133 | base 5 without displacement becomes a 32-bit displacement, other bases change nothing |
| X86Decode.Instr.DecodeDisp | arch/x86/x86_decode.cpp:1085-1102 | the displacement, sign extended, of the form's size |
| X86Decode.Instr.DecodeImm | arch/x86/x86_decode.cpp:1004-1053 | the immediates of the mode, in their order and sizes |
| X86Decode.Instr.DecodeRel | arch/x86/x86_decode.cpp:1055-1072 | the relative target, sign extended |
| X86Decode.Instr.DecodeSrcOperand | arch/x86/x86_decode.cpp:839-920 | the source operand of the mode; the switch never reaches its default |
| X86Decode.Instr.DecodeDstOperand | arch/x86/x86_decode.cpp:754-816 | the destination operand of the mode; the switch never reaches its default |
| X86Decode.Instr.DecodeThirdOperand | arch/x86/x86_decode.cpp:711-731 | the third operand of the mode; the switch never reaches its default |
| X86Decode.Instr.DecodeInstr | arch/x86/x86_decode.cpp:1252-1360 | the decoder succeeds exactly if the format describes an instruction, and every field is then the described one |
| X86Decode.OnlyOperands | arch/x86/x86_decode.h:69-124 | in any mask of operand flags an instruction has the flags of its source, its destination and its third operand, and no others |
| X86Decode.OneSource | arch/x86/x86_decode.h:69-92 | exactly one source class is left, and which |
| X86Decode.OneTarget | arch/x86/x86_decode.h:94-111 | exactly one destination class is left, and which |
| X86Decode.OneThird | arch/x86/x86_decode.h:113-121 | exactly one class of third operand is left, and which |
| X86Decode.OneDisplacement | arch/x86/x86_decode.h:123-124 | at most one displacement flag is left, that of the ModRM operand |
| X86Format.ClassesAreUnique | arch/x86/x86_decode.cpp:1307-1340 | for every byte stream that decodes, one flag of each operand class and at most one displacement flag |
| X86Format.LengthIsExact | arch/x86/x86_decode.cpp:1252-1360 | the length is prefixes, opcode, ModRM, SIB, displacement and immediates, at most eleven more than the prefixes |
| X86Format.DecodingIsLocal | arch/x86/x86_decode.cpp:1252-1360 | the same bytes decode to the same instruction, whatever follows |
| X86Format.NoProperPrefix | arch/x86/x86_decode.cpp:1252-1360 | no encoding is a proper prefix of another |
| X86Format.SizePrefixes | arch/x86/x86_decode.cpp:1277-1285 | operand and address size are overridden exactly if 66 or 67 is among the prefixes |
| X86Format.UnsignedSums | arch/x86/x86_decode.cpp:922-986 | the numbers in the byte stream are little-endian sums of byte values |
| X86Format.SignedSums | arch/x86/x86_decode.cpp:933-970 | the signed ones are less by 2^8 or 2^16 if their top bit is set |
| X86Lengths.ShortJumps | arch/x86/x86_decode.cpp:166-181 | 70 to 7F, E0 to E3 and EB are two bytes, and the target is the second one with its sign |
| X86Lengths.NearJumps | arch/x86/x86_decode.cpp:286-287 | E8 and E9 are five bytes |
| X86Lengths.NearConditionals | arch/x86/x86_decode.cpp:441-456 | 0F 80 to 0F 8F are six bytes |
| X86Lengths.SizedConditionals | arch/x86/x86_decode.cpp:1055-1072 | after a 66 they are four bytes and the prefix, and the target is signed |
| X86Lengths.SizedShortJumps | arch/x86/x86_decode.cpp:1055-1072 | a 66 changes the length of a short jump by its own byte only |
| X86Lengths.FarPointers | arch/x86/x86_decode.cpp:1011-1018 | far calls and jumps are seven bytes, offset before selector |
| X86Lengths.LongAddresses | arch/x86/x86_decode.cpp:1085-1133 | by the value of the ModRM byte, whether a SIB byte follows and how many bytes of displacement, with 32-bit addresses |
| X86Lengths.ShortAddresses | arch/x86/x86_decode.cpp:1085-1102 | the same with 16-bit addresses |
| BitFields.ShiftRight | upcl/c/bit_combine_expression.cpp:594-638 | for every shift the list has the old width and the value divided by 2^n, rounded down |
| BitFields.ShiftLeft | upcl/c/bit_combine_expression.cpp:640-666 | for shifts up to the width the list has the old width and the value times 2^n modulo 2^width; for greater ones the count wraps around and the list grows instead |
| BitFields.Truncate | upcl/c/bit_combine_expression.cpp:451-472 | the fields collected have the value modulo 2^n |
| BitFields.SliceBits | upcl/c/bit_combine_expression.cpp:609-618 | bit k of a slice is bit from + k of the field, with bits taken by halving |
| BitFields.ShiftedBits | upcl/c/bit_combine_expression.cpp:594-666 | bit by bit what shifting right, shifting left within a width, and truncating do |
| BitFields.ValueBits | upcl/c/bit_combine_expression.cpp:594-638 | the bits of a list are those of its fields, the last field lowest |
| BitFields.CutField | upcl/c/bit_combine_expression.cpp:609-618 | a field that is cut while shifting right |
| BitFields.LowFields | upcl/c/bit_combine_expression.cpp:459-470 | low bits of a list depend only on its last fields |
| BitFields.Ilog2 | upcl/c/bit_combine_expression.cpp:335-344 | the position of the highest bit |
| NatCompare.CompareRight | upcl/strnatcmp.c:65-92 | longer runs are greater, runs of one length compare by value; nothing is read past a terminator |
| NatCompare.CompareLeft | upcl/strnatcmp.c:95-114 | runs compare like fractions, digit by digit |
| NatCompare.CompareHeads | upcl/strnatcmp.c:136-162 | the tests of one round, in their order, decide what the characters and the runs they begin decide |
| NatCompare.StrNatCmp | upcl/strnatcmp.c:117-166 | it terminates, reads nothing past a terminator, and gives the natural order |
| NatCompare.ByLengthIsNumeric | upcl/strnatcmp.c:65-92 | without leading zeros the result is the sign of the difference of the decimal values |
| NatCompare.NaturalIsReflexive | upcl/strnatcmp.c:117-166 | a string equals itself |
| NatCompare.NaturalIsAntisymmetric | upcl/strnatcmp.c:117-166 | swapping the strings negates the result |
| NatCompare.NaturalIsTransitive | upcl/strnatcmp.c:117-166 | the order is transitive, with or without folding case, so sorting by it is well defined |
| NatLaws.FirstDifference | upcl/strnatcmp.c:159-162 | strings without digits and spaces compare as the first characters that differ do, as numbers |
| NatLaws.HasDifference | upcl/strnatcmp.c:117-166 | and different strings have a first difference |
| NatLaws.NumbersDecide | upcl/strnatcmp.c:135-146 | after a common beginning numbers without leading zeros compare by value |
| NatLaws.LexicalIsFractional | upcl/strnatcmp.c:95-114 | runs with a leading zero compare as fractions, and equal fractions by length |
| NatLaws.FractionsDecide | upcl/strnatcmp.c:135-146 | and so they do after a common beginning |
| NatLaws.FoldingIsCapitals | upcl/strnatcmp.c:154-157 | for all strings, folding compares them with every small letter replaced by its capital |
| NatLaws.CaseDoesNotMatter | upcl/strnatcmp.c:154-157 | strings that differ in the case of letters only are equal with folding |
| NatLaws.SpaceDoesNotMatter | upcl/strnatcmp.c:128-133 | a space put in anywhere but inside a number changes nothing |
| OpcodeTable.MaskFromDesc | arch/m68k/opcode_id.py:22-27 | the bits that are fixed, as a number |
| OpcodeTable.ValueFromDesc | arch/m68k/opcode_id.py:19-20 | the bits that are one, as a number |
| OpcodeTable.TestIsMatch | arch/m68k/opcode_id.py:74-81 | the test with mask and value is the match of the pattern, character by character |
| OpcodeTable.MoreFixedIsGreater | arch/m68k/opcode_id.py:15-17 | a pattern that fixes more bits has the greater precision |
| OpcodeTable.SortedIs | arch/m68k/opcode_id.py:87-89 | the sort is a permutation, by falling precision, stable |
| OpcodeTable.IdentifyOpcode | arch/m68k/opcode_id.py:74-81 | the search ends at the first row that matches or is named UNKNOWN |
| OpcodeTable.FindsMostSpecific | arch/m68k/opcode_id.py:74-89 | what is found matches, and no other match fixes a strict superset of its bits |
| OpcodeTable.UnknownIffNothingMatches | arch/m68k/opcode_id.py:74-89 | the answer is UNKNOWN if and only if nothing else matches, apart from patterns without fixed bits that stand after UNKNOWN |
| OpcodeTable.Identify | arch/m68k/opcode_id.py:15-89 | script and matcher together give the name of a most specific matching line |

## Left out

- LLVM itself: modules, contexts, the JIT, the optimizer and `verifyFunction`; a small instruction set and its interpreter stand for what translated code does.
- The entry cache file, the temporary directory, logging, timing, disassembly and the debugger's user interface: input and output. The entries of a cache file are a parameter of `TagMap`.
- The fixed arrays of 1024 functions: a sequence that grows.
- Self-modifying guest code: tags and effects depend on the address only.
- Concrete frontends: the guest is abstract. Those for 6502, MIPS, fapra and x86 do not meet the contract in all places (`arch/6502/6502_translate.cpp:95-101`, `arch/mips/mips_translate.cpp:121-128`, `arch/fapra/fapra_translate.cpp:99-117`).
- `libcpu/translate_singlestep_bb.cpp`: it goes on in the same block after a conditional instruction and leaves a block open when code runs off the area, so the blocks it makes are not well formed.
- Truncation of PC to the guest's address size in the dispatch switch: addresses are numbers below 2^64.
- Tagging.TagMap.InitTagging: the digest of the code that names the cache file is not part of it; the hash is modelled by itself.
- The third test vector of `libcpu/sha1.cpp:14-15`, a million repetitions of one letter: 15626 blocks.
- Interface.Cpu.Run: without enough fuel the run is given up, because a guest need not end; the bound on the fuel says what that means.
- Interface.StrategyIndependence: the register file is compared in the form in which it is spilled; the bits of the status register that are no flags are covered by Registers.EnterThenLeave.
- The synthesis of 80-bit floating point in `libcpu/fp.cpp`: packing and unpacking is not a round trip for all exponents.
- X86 mnemonics: of an opcode number the decoder only uses whether it is zero. Addresses do not wrap around at 2^64.
- X86Decode.Instr.DecodeInstr: the bytes must hold one that is no prefix, since the source's loop has no bound on prefixes and would not end; `use_intel` is a truth value.
- Memory alignment of words: 32-bit accesses are aligned, as the source's name for them demands.
- The rest of the upcl simplifier, in particular constant folding, negation of combined fields, the layout of two lists, masking, and the mask applied to shift counts in `shift_by` (`upcl/c/bit_combine_expression.cpp:563-566`), which do not preserve values.
- BitFields.Truncate: the simplification of the list it returns is not part of it.
- Parsing of the opcode table file: lines are given as pattern and name.
- The disassemblers and the AST dumper: printing and tables.
