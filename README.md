# LVM in Dafny

A model of the three generations of LVM, a small stack-based bytecode virtual
machine written as single-header C libraries, with proofs about the model.

- **Lvm1** (`lvm1.dfy`) models `LVM/src/LVM.h`, the oldest generation. It has
  a 1024-word stack, a fixed array of 1024 operations with a count, and a
  native table. Thirteen operations are handled. NOP is declared but
  unhandled, so it traps as illegal. Programs are saved as the bare
  16-byte operation images.
- **Lvm2** (`lvm2.dfy`) models `lvm/src/LVM.h`, the middle generation. It
  adds a 640 000-byte memory, 59 operation codes (integer, float, logic,
  bitwise, rotate, call/return, memory reads and writes of 1, 2, 4 and 8
  bytes) and the "melf" file format: a packed 22-byte header (magic
  `0x45564F4C`, version, program size, memory size) followed by the
  instruction images.
- **Lvm3** (`lvm3.dfy`) models `lvm/src/lvm.h`, the newest generation. A
  program is an instruction array plus a memory image. Every operand comes
  off the stack, jump targets included. Stack access goes through push/pop
  helpers that trap.

Four shared modules carry what the generations have in common:

- **Words** (`words.dfy`): the 8-byte word as `bv64`, its signed view, C's
  truncating division and remainder, little-endian byte images, and
  loads/stores on a byte memory.
- **Alu** (`alu.dfy`): the value computations of the arithmetic, comparison,
  logic, bitwise, rotate and conversion operations.
- **Bytecode** (`bytecode.dfy`): an instruction and its 16-byte image.
- **Runs** (`runs.dfy`): the budgeted run loop, stated once over an abstract
  step.

Each generation is written twice:

- as **functions on a `State` value** (`Step`, `RunOf`, the loaders), with a
  lemma per operation that states its effect and its traps;
- as a **`Machine` class** whose arrays are updated in place. Each of its
  methods is proved to produce exactly the state and trap that the function
  gives.

The step functions follow the C code as written, including its oddities:

- the newest generation computes `top OP second`, the older two
  `second OP top`;
- Lvm3's POP checks the stack but never shrinks it;
- Lvm3's binary operations pop before they check, so a one-word stack is
  emptied and then traps;
- Lvm3's READw loads one byte whatever the width;
- Lvm3's WRITEw refuses the last in-bounds address;
- Lvm2's SWAP depth check is unsigned and never fires;
- Lvm2 reports memory faults as ILLEGAL_OP_ACCESS;
- Lvm2 saves and loads the "memory" block through the instruction array, and
  loads it with the instruction count;
- HLT advances `ip` in the two older generations but not in the newest.

Undefined behaviour in C is given one fixed meaning, listed under "Left out".

## Model

| member | source | states |
|---|---|---|
| Words.ToInt | lvm/src/LVM.h:44-49 | the `as_i64` view of a word lies in the signed 64-bit range and is negative exactly when the sign bit is set |
| Words.TDivRem | lvm/src/LVM.h:486-497 | C's truncating `/` and `%`: `q*b + r == a`, `\|r\| < \|b\|`, `r` has the sign of `a`, `\|q\| == \|a\|/\|b\|` |
| Words.Bool01 | LVM/src/LVM.h:254-261 | a C comparison result is 0 or 1, and 1 exactly when the condition holds |
| Words.ShrS | lvm/src/LVM.h:664-671 | `>>` on an `int64_t` keeps the sign bit, and agrees with the logical shift on non-negative words |
| Words.LEBytes | lvm/src/LVM.h:770-785 | reading back the little-endian image of the low `n` bytes of a word gives the word truncated to `n` bytes |
| Words.LoadStore | lvm/src/LVM.h:835-850 | a load after a store of width `n` at the same address returns the stored value truncated to `n` bytes |
| Words.StoreEffect | lvm/src/lvm.h:308-318 | a store of width `n` puts the `n`-byte little-endian image of the value at `addr..addr+n-1` and leaves every other byte unchanged |
| Words.LoadStoreDisjoint | lvm/src/lvm.h:308-318 | a store leaves a load from a disjoint range unchanged |
| Words.WordOf | lvm/src/LVM.h:952-957 | the instruction count written into the header as a `uint64_t` is the count itself |
| Alu.Binary | lvm/src/LVM.h:438-705 | a two-operand result is missing exactly for an integer division or remainder by zero, and every comparison and logical AND/OR yields 0 or 1 |
| Alu.NotIsBoolean | lvm/src/LVM.h:610-616 | logical NOT yields 1 exactly for a zero word, and otherwise 0 |
| Alu.NotBComplements | lvm/src/LVM.h:633-639 | bitwise NOT gives the complement: disjoint from the word, and together with it all ones |
| Alu.RotateLeftNonNegative | lvm/src/LVM.h:672-688 | ROTL by a nonzero amount (mod 64) on a word with a clear sign bit is the rotation `x << n \| x >> (64-n)` |
| Alu.RotateLeftNegative | lvm/src/LVM.h:672-688 | ROTL on a negative word is not a rotation: the arithmetic `>>` fills with ones, so rotating the sign bit gives all ones instead of 1 |
| Bytecode.DecodeEncodeInst | lvm/src/LVM.h:138-141 | an instruction read back from its 16-byte image is the same instruction |
| Bytecode.DecodeEncode | lvm/src/LVM.h:966 | a sequence of instructions read back from the images written by one `fwrite` is the same sequence |
| Bytecode.EncodeAppend | lvm/src/LVM.h:966 | the image of two instruction sequences is the concatenation of their images |
| Bytecode.EncodePrefix | lvm/src/LVM.h:973 | the first `16k` bytes of an array's image are the image of its first `k` instructions |
| Runs.Loop | lvm/src/LVM.h:906-923 | a run takes at most `limit` steps when the limit is not negative, and at most `fuel` otherwise; it returns OK only when the machine halted or the budget ran out |
| Runs.LoopUnfold | lvm/src/lvm.h:387-403 | a run with budget left takes one step; a trap ends the run with that trap, and OK continues with the budget less one (a negative budget stays negative) |
| Runs.LoopTrap | lvm/src/lvm.h:392-396 | a run that returns a trap other than OK took at least one step, and its final state and trap are the outcome of a step |
| Runs.LoopFuelIrrelevant | lvm/src/lvm.h:387-403 | a run with a non-negative limit does not depend on the cut-off that bounds runs with a negative limit |
| Runs.LoopSplit | lvm/src/lvm.h:387-403 | a run of `a + b` steps is a run of `a` steps followed by a run of `b` from where it stopped |
| Lvm1.IllegalCodes | LVM/src/LVM.h:39-54 | exactly value 0 (the declared NOP) and the values from 14 up fall to the `default` case |
| Lvm1.Step | LVM/src/LVM.h:166-169 | an `ip` at or past the operation count traps ILLEGAL_OP_ACCESS with no change |
| Lvm1.IllegalStep | LVM/src/LVM.h:282-284 | NOP and every value past PRINT_DEBUG trap ILLEGAL_OP with the machine unchanged |
| Lvm1.RunOf | LVM/src/LVM.h:291-305 | step count within a non-negative limit, OK only when halted or out of budget, nothing done at limit 0 or when halted |
| Lvm1.RunUnfold | LVM/src/LVM.h:292-302 | a trap ends the run with it; an OK step continues with a positive limit decremented |
| Lvm1.RunTrapped | LVM/src/LVM.h:295-297 | a run that does not return OK returns the trap of a step |
| Lvm1.RunHalts | LVM/src/LVM.h:262-264 | a HLT reached with budget left ends the run after one step, halted and past the HLT |
| Lvm1.LoadFromMemory | LVM/src/LVM.h:344-348 | loading fewer than 1024 operations from memory puts them at the front of the array and makes their number the count; the rest of the array and the machine are unchanged |
| Lvm1.Boot | LVM/src/LVM.h:344-348 | a zeroed machine with a program loaded has that program, an empty stack, `ip` 0 and is not halted |
| Lvm1.PushStep | LVM/src/LVM.h:175-181 | PUSH appends its operand and advances; on a full stack it traps STACK_OVERFLOW with no change |
| Lvm1.PopStep | LVM/src/LVM.h:182-188 | POP (and PRINT_DEBUG after printing) drops the top and advances; on an empty stack it traps STACK_UNDERFLOW with no change |
| Lvm1.PushThenPop | LVM/src/LVM.h:175-188 | a PUSH followed by a POP restores the stack size and moves `ip` on by two; only the free slot keeps the pushed word |
| Lvm1.DupStep | LVM/src/LVM.h:189-204 | DUP k pushes a copy of slot `size-1-k`; it refuses `k >= size` with ILLEGAL_OPERAND and a full stack with STACK_OVERFLOW, with no change, and never underflows |
| Lvm1.ArithStep | LVM/src/LVM.h:205-261 | ADD, SUB, MULT, DIV and EQ replace slot `size-2` with `second OP top` and drop the top; fewer than two words trap STACK_UNDERFLOW with no change |
| Lvm1.DivideByZero | LVM/src/LVM.h:229-240 | a two-word step traps DIV_BY_ZERO exactly for DIV on a zero top, and then leaves the machine unchanged |
| Lvm1.EqResult | LVM/src/LVM.h:254-261 | EQ succeeds, drops one word and leaves 1 for equal words and 0 otherwise |
| Lvm1.ArithAgrees | LVM/src/LVM.h:205-261 | ADD, SUB, MULT, DIV and EQ compute what the middle generation's ADDI, SUBI, MULTI, DIVI and EQ compute |
| Lvm1.JmpStep | LVM/src/LVM.h:241-243 | JMP continues at the operand |
| Lvm1.JmpIfStep | LVM/src/LVM.h:244-253 | JMP_IF pops a nonzero top and continues at the operand; a zero top stays and `ip` advances; an empty stack traps |
| Lvm1.HltStep | LVM/src/LVM.h:262-264 | HLT sets the halt flag and advances |
| Lvm1.NativeStep | LVM/src/LVM.h:265-273 | NATIVE k runs native k on the machine, advances `ip` past whatever it returns and returns its trap; an empty stack traps first, and an unregistered `k` traps ILLEGAL_OPERAND |
| Lvm1.OkAdvances | LVM/src/LVM.h:287 | every successful step of an operation other than JMP, JMP_IF and NATIVE moves `ip` on by exactly one |
| Lvm1.NopProgram | LVM/src/LVM.h:282-284 | a program of one NOP stops at once with ILLEGAL_OP |
| Lvm1.EqProgram | LVM/src/LVM.h:175-264 | `push 7; push 7; eq; hlt` halts after four steps with the single word 1 |
| Lvm1.LoadFile | LVM/src/LVM.h:375-379 | a file loads exactly when its size is a multiple of 16 and at most 1024 operations; the decoded operations fill the front of the array, the count becomes the size over 16 and the array past it is unchanged; a size that is not a multiple of 16 is reported as such |
| Lvm1.SaveThenLoad | LVM/src/LVM.h:326-382 | a saved program loads back: the saved operations over the reader's array, with the saved count |
| Lvm1.Machine.constructor | LVM/src/LVM.h:65-80 | a new machine is the zeroed machine with no native registered |
| Lvm1.Machine.ExecPush | LVM/src/LVM.h:175-181 | the in-place PUSH gives `PushInst` |
| Lvm1.Machine.ExecPop | LVM/src/LVM.h:182-188 | the in-place POP gives `PopInst` |
| Lvm1.Machine.ExecDup | LVM/src/LVM.h:189-204 | the in-place DUP gives `DupInst` |
| Lvm1.Machine.ExecArith | LVM/src/LVM.h:205-261 | the in-place ADD, SUB, MULT, DIV and EQ give `ArithInst` |
| Lvm1.Machine.ExecJmp | LVM/src/LVM.h:241-243 | the in-place JMP sets `ip` to the operand less one, then advances |
| Lvm1.Machine.ExecJmpIf | LVM/src/LVM.h:244-253 | the in-place JMP_IF gives `JmpIfInst` |
| Lvm1.Machine.ExecHlt | LVM/src/LVM.h:262-264 | the in-place HLT sets the flag, then advances |
| Lvm1.Machine.ExecNative | LVM/src/LVM.h:265-273 | the in-place NATIVE gives `NativeInst` |
| Lvm1.Machine.ExecuteOperation | LVM/src/LVM.h:166-289 | one in-place step gives exactly the state and trap of `Step` |
| Lvm1.Machine.ExecuteProgram | LVM/src/LVM.h:291-305 | the in-place loop ends in the state and with the trap of `RunOf` |
| Lvm1.Machine.PushNative | LVM/src/LVM.h:307-310 | a native is appended to the table, so natives are numbered in registration order, and nothing else changes |
| Lvm1.Machine.LoadProgramFromMemory | LVM/src/LVM.h:344-348 | the in-place copy gives `LoadFromMemory` |
| Lvm1.Machine.LoadProgramFromFile | LVM/src/LVM.h:350-382 | a refused file returns its error with the machine unchanged; an accepted one replaces the array and the count as `LoadFile` says |
| Lvm1.Machine.SaveProgramToFile | LVM/src/LVM.h:336 | the bytes written are `SaveFile` of the array and the count |
| Lvm2.IllegalCodes | lvm/src/LVM.h:896-899 | exactly the values from `NUMBER_OF_OPERATIONS` (59) up fall to the `default` case |
| Lvm2.Step | lvm/src/LVM.h:360-362 | an `ip` at or past the instruction count traps ILLEGAL_OP_ACCESS with no change |
| Lvm2.IllegalStep | lvm/src/LVM.h:896-899 | an unknown value traps ILLEGAL_OP with the machine unchanged |
| Lvm2.RunOf | lvm/src/LVM.h:906-923 | step count within a non-negative limit, OK only when halted or out of budget, nothing done at limit 0 or when halted |
| Lvm2.RunUnfold | lvm/src/LVM.h:907-919 | a trap ends the run with it; an OK step continues with a positive limit decremented |
| Lvm2.RunTrapped | lvm/src/LVM.h:913-915 | a run that does not return OK returns the trap of a step |
| Lvm2.RunHalts | lvm/src/LVM.h:883-885 | a HLT reached with budget left ends the run after one step, halted and past the HLT |
| Lvm2.LoadFromMemory | lvm/src/LVM.h:983-987 | fewer than 1024 instructions are copied to the front of the array and become the count; memory, stack and the rest are unchanged |
| Lvm2.Boot | lvm/src/LVM.h:983-987 | a zeroed machine with a program loaded has it, an empty stack, `ip` 0 and is not halted |
| Lvm2.NopStep | lvm/src/LVM.h:368-369 | NOP only advances |
| Lvm2.PushStep | lvm/src/LVM.h:370-376 | PUSH appends its operand and advances; on a full stack it traps STACK_OVERFLOW with no change |
| Lvm2.PopStep | lvm/src/LVM.h:377-383 | POP drops the top and advances; on an empty stack it traps STACK_UNDERFLOW with no change |
| Lvm2.PushThenPop | lvm/src/LVM.h:370-383 | a PUSH followed by a POP restores the size and moves `ip` on by two |
| Lvm2.DupStep | lvm/src/LVM.h:384-399 | DUP k with `k < size` below a full stack pushes a copy of slot `size-1-k` and advances |
| Lvm2.DupRefused | lvm/src/LVM.h:385-391 | DUP refuses `k >= size` with ILLEGAL_OPERAND and a full stack with STACK_OVERFLOW, both with no change |
| Lvm2.DupZero | lvm/src/LVM.h:384-399 | DUP 0 leaves the top two slots equal to the old top, one word more |
| Lvm2.SwapStep | lvm/src/LVM.h:400-409 | SWAP k on a stack deeper than `k+1` exchanges slots `size-1-k` and `size-2-k` and changes nothing else |
| Lvm2.SwapUnderflow | lvm/src/LVM.h:401-403 | SWAP refuses only a stack of fewer than two words, with no change |
| Lvm2.SwapPastTop | lvm/src/LVM.h:401-407 | the unsigned depth check lets `k = 2^64-1` through: SWAP then exchanges the top with the stale slot just above it |
| Lvm2.UnaryStep | lvm/src/LVM.h:410-437 | INCx, DECx, NOT, NOTB and the casts replace the top by its transform; an empty stack traps |
| Lvm2.BinaryStep | lvm/src/LVM.h:438-705 | a two-operand instruction replaces slot `size-2` with `second OP top` and drops the top; fewer than two words trap; an integer division by zero traps DIV_BY_ZERO with no change |
| Lvm2.DivideByZero | lvm/src/LVM.h:486-513 | DIVI, and MODI which has no check of its own, trap DIV_BY_ZERO on a zero top with no change |
| Lvm2.BooleanResult | lvm/src/LVM.h:522-624 | a comparison or logical AND/OR on two words succeeds, drops one word and leaves 0 or 1 |
| Lvm2.CallStep | lvm/src/LVM.h:706-713 | CALL pushes its own address and continues at the operand; on a full stack it traps STACK_OVERFLOW |
| Lvm2.ReturnStep | lvm/src/LVM.h:722-728 | RETURN pops `r` and continues at `r + 1`; an empty stack traps |
| Lvm2.CallThenReturn | lvm/src/LVM.h:706-728 | a CALL to a RETURN comes back to the instruction after the CALL with the stack as it was, but for the stale slot |
| Lvm2.JmpStep | lvm/src/LVM.h:729-731 | JMP continues at the operand |
| Lvm2.JmpIfStep | lvm/src/LVM.h:732-741 | JMP_IF pops a nonzero top and continues at the operand; a zero top stays and `ip` advances; an empty stack traps |
| Lvm2.NativeStep | lvm/src/LVM.h:714-721 | NATIVE k runs native k on the machine, advances past whatever it returns and returns its trap; an empty stack traps first, and an unregistered `k` traps ILLEGAL_OPERAND |
| Lvm2.ReadStep | lvm/src/LVM.h:754-818 | READw replaces an address below `640000-(w-1)` with the `w`-byte little-endian value there; a larger address traps ILLEGAL_OP_ACCESS with no change |
| Lvm2.WriteStep | lvm/src/LVM.h:819-882 | WRITEw pops the address, then the value, and stores its low `w` bytes; a refused address traps ILLEGAL_OP_ACCESS after its own pop |
| Lvm2.MemoryUnderflow | lvm/src/LVM.h:754-882 | READw on an empty stack and WRITEw on fewer than two words trap STACK_UNDERFLOW with no change |
| Lvm2.WriteStores | lvm/src/LVM.h:819-882 | after an in-bounds WRITEw the `w` bytes read back as the value truncated to `w` bytes, and no other byte changed |
| Lvm2.HltStep | lvm/src/LVM.h:883-885 | HLT sets the halt flag and advances |
| Lvm2.PrintDebugStep | lvm/src/LVM.h:886-895 | PRINT_DEBUG pops the word it prints; an empty stack traps |
| Lvm2.OkAdvances | lvm/src/LVM.h:902 | every successful step of an instruction other than CALL, NATIVE, RETURN, JMP and JMP_IF moves `ip` on by exactly one |
| Lvm2.DivProgram | lvm/src/LVM.h:486-497 | `push 10; push 2; divi; hlt` halts after four steps with the single word 5 |
| Lvm2.CallProgram | lvm/src/LVM.h:706-728 | a call to a subroutine that returns at once comes back and reaches the HLT after it |
| Lvm2.DecodeEncodeHeader | lvm/src/LVM.h:143-148 | a header read back from its packed 22-byte image is the same header |
| Lvm2.CheckHeader | lvm/src/LVM.h:1006-1024 | a header passes exactly when the magic is `0x45564F4C`, the version at most 0, the program size at most 1024 and the memory size at most 640000; a failing header gets the error of the first failing check, in the order magic, version, program size, memory size |
| Lvm2.LoadFile | lvm/src/LVM.h:989-1042 | a file shorter than the 22-byte header is refused as short; a header that fails its checks is refused with the check's error; a file loads only when its header is whole and passes the checks, and the count becomes the declared program size |
| Lvm2.LoadFileShortMemory | lvm/src/LVM.h:1033-1038 | a file whose header passes and whose instruction images are all there is refused as SHORT_MEMORY when reading `program_size` bytes after them does not yield `memory_size` bytes |
| Lvm2.LoadFileAccepted | lvm/src/LVM.h:1026-1038 | otherwise the file loads: the images are decoded over the front of the array, the `memory_size` bytes after them are read over the front of that, and the count is the declared program size |
| Lvm2.TruncatedProgram | lvm/src/LVM.h:1026-1031 | a file that passes the header checks but holds fewer instructions than it declares is refused |
| Lvm2.SaveLayout | lvm/src/LVM.h:944-981 | a saved file is a header with the magic, version 0, the current count and `memory_size`, then the images of the first `count` instructions, then `memory_size` bytes from the start of the instruction array |
| Lvm2.SaveThenLoad | lvm/src/LVM.h:944-1042 | with a memory block no longer than the instruction count, a saved program loads back over the reader's array with its count, and the machine's memory is not restored |
| Lvm2.SaveThenLoadShort | lvm/src/LVM.h:1033-1038 | a saved file whose memory block is longer than its instruction count is refused on reading it back |
| Lvm2.Machine.constructor | lvm/src/LVM.h:154-172 | a new machine is the zeroed machine with no native registered |
| Lvm2.Machine.ExecNop | lvm/src/LVM.h:368-369 | the in-place NOP only advances |
| Lvm2.Machine.ExecPush | lvm/src/LVM.h:370-376 | the in-place PUSH gives `PushInst` |
| Lvm2.Machine.ExecPop | lvm/src/LVM.h:377-383 | the in-place POP gives `PopInst` |
| Lvm2.Machine.ExecDup | lvm/src/LVM.h:384-399 | the in-place DUP gives `DupInst` |
| Lvm2.Machine.ExecSwap | lvm/src/LVM.h:400-409 | the in-place SWAP gives `SwapInst` |
| Lvm2.Machine.ExecUnary | lvm/src/LVM.h:410-437 | the in-place one-operand instructions give `UnaryInst` |
| Lvm2.Machine.ExecBinary | lvm/src/LVM.h:438-705 | the in-place two-operand instructions give `BinaryInst` |
| Lvm2.Machine.ExecCall | lvm/src/LVM.h:706-713 | the in-place CALL gives `CallInst` |
| Lvm2.Machine.ExecNative | lvm/src/LVM.h:714-721 | the in-place NATIVE gives `NativeInst` |
| Lvm2.Machine.ExecReturn | lvm/src/LVM.h:722-728 | the in-place RETURN gives `ReturnInst` |
| Lvm2.Machine.ExecJmp | lvm/src/LVM.h:729-731 | the in-place JMP sets `ip` to the operand less one, then advances |
| Lvm2.Machine.ExecJmpIf | lvm/src/LVM.h:732-741 | the in-place JMP_IF gives `JmpIfInst` |
| Lvm2.Machine.ExecRead | lvm/src/LVM.h:754-818 | the in-place READw gives `ReadInst` |
| Lvm2.Machine.ExecWrite | lvm/src/LVM.h:819-882 | the in-place WRITEw gives `WriteInst` |
| Lvm2.Machine.ExecHlt | lvm/src/LVM.h:883-885 | the in-place HLT sets the flag, then advances |
| Lvm2.Machine.ExecuteOperation | lvm/src/LVM.h:359-904 | one in-place step gives exactly the state and trap of `Step` |
| Lvm2.Machine.ExecuteProgram | lvm/src/LVM.h:906-923 | the in-place loop ends in the state and with the trap of `RunOf` |
| Lvm2.Machine.PushNative | lvm/src/LVM.h:925-928 | a native is appended to the table and nothing else changes |
| Lvm2.Machine.LoadProgramFromMemory | lvm/src/LVM.h:983-987 | the in-place copy gives `LoadFromMemory` |
| Lvm2.Machine.LoadProgramFromFile | lvm/src/LVM.h:989-1042 | a refused file returns its error with the machine unchanged; an accepted one replaces the array and the count as `LoadFile` says |
| Lvm2.Machine.SaveProgramToFile | lvm/src/LVM.h:944-981 | the bytes written are `SaveFile` of the array, the count and `memory_size` |
| Lvm3.CreateProgram | lvm/src/lvm.h:332-345 | a program of at most 640000 memory bytes holds the instructions and the memory image given |
| Lvm3.CreateMachine | lvm/src/lvm.h:347-355 | a new machine is all zeros: empty stack, zero memory, `ip` 0, not halted |
| Lvm3.LoadProgram | lvm/src/lvm.h:357-369 | loading sets the program, clears `hlt`, `ip` and the stack size, copies the memory image over the front of memory and leaves the bytes past it untouched |
| Lvm3.StackPush | lvm/src/lvm.h:749-759 | push traps STACK_OVERFLOW exactly when the stack is full, with no change, and otherwise appends the word |
| Lvm3.StackPop | lvm/src/lvm.h:761-773 | pop traps STACK_UNDERFLOW exactly on an empty stack, with no change, and otherwise returns the top and shrinks the stack |
| Lvm3.StackDrop | lvm/src/lvm.h:761-773 | pop without a destination checks for underflow and never shrinks the stack |
| Lvm3.PushThenPop | lvm/src/lvm.h:749-773 | a push followed by a pop returns the pushed word and restores the size |
| Lvm3.TwoPops | lvm/src/lvm.h:761-773 | two pops on two or more words return the top, then the second, and shrink the stack by two |
| Lvm3.IllegalCodes | lvm/src/lvm.h:739-744 | exactly value 0 (`LVM_INST_ILLEGAL`) and the values from `LVM_MAX_INSTS` up fall to the `default` case |
| Lvm3.Step | lvm/src/lvm.h:410-415 | an `ip` outside the program traps ILLEGAL_INST_ACCESS with no change |
| Lvm3.IllegalStep | lvm/src/lvm.h:739-744 | an illegal instruction traps ILLEGAL_INST with no change |
| Lvm3.RunOf | lvm/src/lvm.h:387-403 | step count within a non-negative limit, OK only when halted or out of budget, nothing done at limit 0 or when halted |
| Lvm3.RunUnfold | lvm/src/lvm.h:390-400 | a trap ends the run with it; an OK step continues with a positive limit decremented |
| Lvm3.RunTrapped | lvm/src/lvm.h:392-396 | a run that does not return OK returns the trap of a step |
| Lvm3.RunHalts | lvm/src/lvm.h:729-731 | a HLT reached with budget left ends the run after one step, halted and with `ip` still on the HLT |
| Lvm3.NopStep | lvm/src/lvm.h:417-419 | NOP only advances |
| Lvm3.PushStep | lvm/src/lvm.h:420-423 | PUSH appends its operand and advances; on a full stack it traps with no change |
| Lvm3.PopStep | lvm/src/lvm.h:424-427 | POP advances without shrinking the stack; an empty stack traps |
| Lvm3.DupStep | lvm/src/lvm.h:428-436 | DUP pushes a copy of the top and advances; an empty stack traps STACK_UNDERFLOW and a full one STACK_OVERFLOW, both with no change |
| Lvm3.UnaryStep | lvm/src/lvm.h:453-468 | INCx, DECx, NOT, NOTB and the casts replace the top by its transform; an empty stack traps |
| Lvm3.BinaryStep | lvm/src/lvm.h:469-617 | a two-operand instruction replaces the top two words by `top OP second`; on one word it pops that word and traps; an integer division by zero leaves both popped and traps DIV_BY_ZERO |
| Lvm3.BooleanResult | lvm/src/lvm.h:526-593 | a comparison or logical AND/OR on two words succeeds, drops one word and leaves 0 or 1 |
| Lvm3.SwapGuard | lvm/src/lvm.h:438-440 | the unsigned guard refuses exactly `top < 2` and `top-2 < k < 2^64-2` |
| Lvm3.SwapStep | lvm/src/lvm.h:437-451 | SWAP k on a stack deeper than `k+1` exchanges slots `top-1` and `top-2-k` and changes nothing else |
| Lvm3.SwapUnderflow | lvm/src/lvm.h:438-440 | a refused SWAP traps STACK_UNDERFLOW with no change |
| Lvm3.SwapWithItself | lvm/src/lvm.h:437-451 | `k = 2^64-1` slips through the guard and swaps the top with itself |
| Lvm3.SwapAboveTop | lvm/src/lvm.h:437-451 | `k = 2^64-2` slips through the guard and swaps the top with the stale slot above it, or traps at a full stack where that slot is outside the array |
| Lvm3.CallStep | lvm/src/lvm.h:618-628 | CALL pops a target, pushes the address after the CALL in its place and continues at the target; an empty stack traps |
| Lvm3.JumpStep | lvm/src/lvm.h:641-654 | RETURN and JMP pop a target and continue there, with no advance; an empty stack traps |
| Lvm3.CallThenReturn | lvm/src/lvm.h:618-647 | a CALL to a RETURN resumes at the instruction after the CALL with the target gone from the stack; its slot keeps the stale return address |
| Lvm3.BranchStep | lvm/src/lvm.h:655-680 | JZ and JNZ pop the address, then the condition; they jump when the condition is zero (JZ) or nonzero (JNZ) and otherwise advance by one; fewer than two words empty the stack and trap |
| Lvm3.NativeStep | lvm/src/lvm.h:629-640 | NATIVE pops the index, runs the native on the machine, advances whatever it returns and returns its trap; an unregistered index traps ILLEGAL_OPERAND after the pop |
| Lvm3.ReadStep | lvm/src/lvm.h:298-306 | READw pops the address and pushes the single byte there when the address is below `640000-(w-1)`; a larger one traps ILLEGAL_MEMORY_ACCESS after the pop |
| Lvm3.ReadIsOneByte | lvm/src/lvm.h:305 | READ16 does not return the two-byte value when the second byte is not zero |
| Lvm3.WriteStep | lvm/src/lvm.h:308-318 | WRITEw pops the value, then the address, and stores the low `w` bytes when the address is below `640000-w`; otherwise it traps ILLEGAL_MEMORY_ACCESS after both pops |
| Lvm3.WriteRefusesLastSlot | lvm/src/lvm.h:314 | the write bound refuses the last address at which the value still fits |
| Lvm3.WriteThenLoad | lvm/src/lvm.h:725-728 | after an in-bounds WRITE64 the eight bytes read back as the value and no other byte changed |
| Lvm3.HltStep | lvm/src/lvm.h:729-731 | HLT sets the halt flag without advancing |
| Lvm3.PrintDebugStep | lvm/src/lvm.h:732-738 | PRINT_DEBUG pops the word it prints and advances; an empty stack traps |
| Lvm3.DivProgram | lvm/src/lvm.h:493-496 | `push 2; push 10; divi; hlt` halts after four steps with the single word 5, `ip` on the HLT |
| Lvm3.DivZeroProgram | lvm/src/lvm.h:493-496 | a division by zero stops the run with DIV_BY_ZERO and both operands popped |
| Lvm3.CallProgram | lvm/src/lvm.h:618-647 | a call to a subroutine that returns at once comes back and reaches the HLT after it |
| Lvm3.Machine.constructor | lvm/src/lvm.h:347-355 | a new machine is `CreateMachine()` with no native registered |
| Lvm3.Machine.Push | lvm/src/lvm.h:749-759 | the in-place push gives `StackPush` |
| Lvm3.Machine.Pop | lvm/src/lvm.h:761-773 | the in-place pop gives `StackPop` |
| Lvm3.Machine.Drop | lvm/src/lvm.h:761-773 | the in-place pop without a destination gives `StackDrop` |
| Lvm3.Machine.Advance | lvm/src/lvm.h:775-779 | advancing moves `ip` on by one and changes nothing else |
| Lvm3.Machine.ExecUnary | lvm/src/lvm.h:282-288 | the in-place one-operand instructions give `UnaryInst` |
| Lvm3.Machine.ExecBinary | lvm/src/lvm.h:272-280 | the in-place two-operand instructions give `BinaryInst` |
| Lvm3.Machine.ExecDup | lvm/src/lvm.h:428-436 | the in-place DUP gives `DupInst` |
| Lvm3.Machine.ExecSwap | lvm/src/lvm.h:437-451 | the in-place SWAP gives `SwapInst` |
| Lvm3.Machine.ExecCall | lvm/src/lvm.h:618-628 | the in-place CALL gives `CallInst` |
| Lvm3.Machine.ExecJump | lvm/src/lvm.h:641-654 | the in-place RETURN and JMP give `JumpInst` |
| Lvm3.Machine.ExecBranch | lvm/src/lvm.h:655-680 | the in-place JZ and JNZ give `BranchInst` |
| Lvm3.Machine.ExecNative | lvm/src/lvm.h:629-640 | the in-place NATIVE gives `NativeInst` |
| Lvm3.Machine.ExecRead | lvm/src/lvm.h:298-306 | the in-place READw gives `ReadInst` |
| Lvm3.Machine.ExecWrite | lvm/src/lvm.h:308-318 | the in-place WRITEw gives `WriteInst` |
| Lvm3.Machine.ExecuteInst | lvm/src/lvm.h:407-747 | one in-place step gives exactly the state and trap of `Step` |
| Lvm3.Machine.Run | lvm/src/lvm.h:387-403 | the in-place loop ends in the state and with the trap of `RunOf` |
| Lvm3.Machine.Load | lvm/src/lvm.h:357-369 | the in-place load gives `LoadProgram` |

## Left out

- Printing: PRINT_DEBUG's `printf` and the stack dumps. Only PRINT_DEBUG's pop is modelled.
- The trap and operation name tables and their lookups: they are diagnostics only.
- File and OS plumbing: `fopen`, `fseek`, `ftell` and `exit`. The loaders and savers are modelled on the file's bytes. Where C prints and exits, the model returns an error value. Failed `fwrite` and `fclose` are not modelled.
- Lvm1.LoadFile and Lvm1.Machine.LoadProgramFromFile: the two `assert`s on the file size become the errors `NotWholeOperations` and `TooManyOperations`; C aborts instead.
- Lvm1.LoadFromMemory, Lvm1.Boot, Lvm1.Machine.LoadProgramFromMemory, Lvm2.LoadFromMemory, Lvm2.Boot and Lvm2.Machine.LoadProgramFromMemory: the C `assert` that fewer than 1024 instructions are loaded becomes a `requires`.
- Lvm1.Machine.PushNative and Lvm2.Machine.PushNative: the C `assert` that the native table has room becomes a `requires`.
- Lvm3.CreateProgram, Lvm3.LoadProgram, Lvm3.Boot and Lvm3.Machine.Load: the C `assert` that a program's memory image is at most 640000 bytes becomes a `requires` (`ValidProgram`).
- Floating point: the float instructions use a `FloatUnit` of host-supplied functions on the word's bits; IEEE-754 itself is not modelled.
- Native bodies: a native is a host function from machine to machine and trap. Natives cannot change the native table. Lvm2's natives cannot change the float unit.
- The native-compile stubs and the unused `registers` field of the middle generation; the unused `heap` of the oldest.
- The `as_ptr` view of a word.
- The two command-line drivers (the disassembler and the example driver).
- Undefined behaviour in C, given one meaning each:
  - signed overflow wraps round in 64 bits, and so does `INT64_MIN / -1`;
  - a shift amount is masked to its low 6 bits;
  - an integer division or remainder by zero that the code does not check (Lvm2 MODI; Lvm3 DIVI, DIVU, MODI, MODU) traps DIV_BY_ZERO, in Lvm3 after both pops;
  - a NATIVE index with no native registered traps ILLEGAL_OPERAND, in Lvm3 after the pop;
  - a SWAP slot outside the stack array traps STACK_UNDERFLOW with no change;
  - Lvm3's fetch at an `ip` outside the instruction array traps ILLEGAL_INST_ACCESS with no change, although the C code has no check there.
- Byte layout: instruction images are little-endian with zero padding bytes. So reading a file whose padding bytes are not zero and writing it back does not give the same bytes.
- Lvm2.SaveFile: the `memory_size` bytes that C copies from the start of the instruction array may run past the array. What lies beyond the array is a parameter `after`.
- Lvm1.RunOf, Lvm2.RunOf, Lvm3.RunOf: a run with a negative limit runs until a trap or a halt, which may never come. The model cuts it off after `fuel` steps and then returns OK.
- Lvm2.Machine.LoadProgramFromFile: a refused file leaves the machine unchanged. C has by then overwritten part of the instruction array, but it exits at once.
- Where the names suggest one thing and the code does another, the model follows the code:
  - the newest generation's binary operations compute `top OP second`, the operand popped first on the left;
  - Lvm2 reports memory faults as ILLEGAL_OP_ACCESS, although the trap ILLEGAL_MEMORY_ACCESS exists;
  - Lvm3's SWAP guard lets `k = 2^64-1` and `k = 2^64-2` through, so it does not refuse exactly the `k` with `top < k + 2`.
