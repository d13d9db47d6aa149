/**
 * The middle generation of the VM (`lvm/src/LVM.h`): a machine with a
 * 1024-word operand stack, a 640 000-byte memory, a fixed array of 1024
 * instructions with a count, and a native table. PUSH, DUP, SWAP, CALL,
 * NATIVE, JMP and JMP_IF take their operand from the instruction; two-operand
 * instructions compute `second OP top` into the slot of the second operand.
 * Programs are saved to and loaded from "melf" files: a packed header
 * followed by the instruction images.
 *
 * The step semantics are functions on a `State` value, followed by lemmas
 * about each instruction, the run loop and the file format; the `Machine`
 * class at the end updates the arrays in place and is proved to follow the
 * functions.
 */
module Lvm2 {
  import opened Words
  import opened Alu
  import opened Bytecode
  import opened Runs

  /** `LVM_ExceptionType`. */
  datatype Trap =
    | Ok
    | IllegalOp
    | IllegalOpAccess
    | IllegalOperand
    | StackOverflow
    | StackUnderflow
    | DivByZero
    | IllegalMemoryAccess

  /** The instruction set, grouped by how an instruction uses the stack. */
  datatype Op =
    | Nop
    | Push
    | Pop
    | Dup
    | Swap
    | Un(u: UnOp)
    | Bin(b: BinOp)
    | Call
    | Native
    | Return
    | Jmp
    | JmpIf
    | Read(rw: Width)
    | Write(ww: Width)
    | Hlt
    | PrintDebug

  /**
   * `LVM_OperationType` values 0 to 31 (`LVM_OP_NOP` to `LVM_OP_OR`). STx and
   * SEx are "smaller than" and "smaller or equal".
   */
  const LOW_OPS: seq<Op> := [
    Nop, Push, Pop, Dup, Swap,
    Un(IncI), Un(IncF), Un(DecI), Un(DecF),
    Bin(AddI), Bin(AddF), Bin(SubI), Bin(SubF), Bin(MulI), Bin(MulF),
    Bin(DivI), Bin(DivF), Bin(ModI), Bin(ModF),
    Bin(Eq), Bin(Neq), Bin(GtI), Bin(GtF), Bin(GeI), Bin(GeF),
    Bin(LtI), Bin(LtF), Bin(LeI), Bin(LeF),
    Bin(And), Un(Not), Bin(Or)]

  /**
   * Values 32 to 58 (`LVM_OP_ANDB` to `LVM_OP_PRINT_DEBUG`). SHR shifts an
   * `int64_t`, so it is arithmetic; F2U converts through `int64_t`, as F2I does.
   */
  const HIGH_OPS: seq<Op> := [
    Bin(AndB), Un(NotB), Bin(OrB), Bin(Xor), Bin(Shl), Bin(ShrS), Bin(RotL), Bin(RotR),
    Call, Native, Return, Jmp, JmpIf,
    Un(I2F), Un(U2F), Un(F2I), Un(F2I),
    Read(W8), Read(W16), Read(W32), Read(W64),
    Write(W8), Write(W16), Write(W32), Write(W64),
    Hlt, PrintDebug]

  /** `NUMBER_OF_OPERATIONS`: the first value that is not an operation. */
  const NUMBER_OF_OPERATIONS: bv32 := 59

  /** The `switch` on `operation.type`: `None` for the `default` case. */
  function OpOf(code: bv32): Option<Op>
  {
    if code >= NUMBER_OF_OPERATIONS then None
    else if code < 32 then Some(LOW_OPS[code as int])
    else Some(HIGH_OPS[code as int - 32])
  }

  // ---------------------------------------------------------------------------
  // Machine state

  /**
   * `LVM` without its native table: the whole stack array (slots at and above
   * `top` keep stale values), the stack size, the memory, the whole instruction
   * array and the count of instructions in it, `ip` and the halt flag.
   */
  datatype Config = Config(
    stack: seq<Word>, top: int, memory: seq<Byte>, program: seq<Inst>, size: int, ip: Word, hlt: bool)

  predicate WF(c: Config)
  {
    && |c.stack| == STACK_MAX && 0 <= c.top <= STACK_MAX
    && |c.memory| == MEMORY_MAX
    && |c.program| == PROGRAM_MAX && 0 <= c.size <= PROGRAM_MAX
  }

  /** A machine whose arrays have their sizes and whose counters are in range. */
  type State = c: Config | WF(c)
    witness Config(seq(STACK_MAX, _ => 0), 0, seq(MEMORY_MAX, _ => 0), seq(PROGRAM_MAX, _ => Inst(0, 0)), 0, 0, false)

  /** `LVM_Native`: a host function of the whole machine that returns a trap. */
  datatype NativeFn = NativeFn(call: State -> Outcome<State, Trap>)

  /** What the host supplies: the registered natives and its floating point. */
  datatype Env = Env(natives: seq<NativeFn>, fu: FloatUnit)

  // ---------------------------------------------------------------------------
  // The instructions

  /** The `lvm->ip++` after the `switch`, reached by every case that does not return early. */
  function Next(s: State): Outcome<State, Trap>
  {
    Outcome(s.(ip := s.ip + 1), Ok)
  }

  /** PUSH. */
  function PushInst(s: State, w: Word): Outcome<State, Trap>
  {
    if s.top >= STACK_MAX then Outcome(s, StackOverflow)
    else Next(s.(stack := s.stack[s.top := w], top := s.top + 1))
  }

  /** POP, and PRINT_DEBUG once it has printed. */
  function PopInst(s: State): Outcome<State, Trap>
  {
    if s.top < 1 then Outcome(s, StackUnderflow)
    else Next(s.(top := s.top - 1))
  }

  /** `(uint64_t)x`: an integer wrapped to 64 bits. */
  function Wrap(x: int): int
  {
    x % TWO_64
  }

  /**
   * DUP k: copy slot `size - 1 - k` to the top. The third check, an unsigned
   * `size - k <= 0`, follows the first and so never refuses anything.
   */
  function DupInst(s: State, k: Word): Outcome<State, Trap>
  {
    if k & SIGN_BIT != 0 || k as int >= s.top then Outcome(s, IllegalOperand)
    else if s.top >= STACK_MAX then Outcome(s, StackOverflow)
    else if Wrap(s.top - k as int) == 0 then Outcome(s, StackUnderflow)
    else Next(s.(stack := s.stack[s.top := s.stack[s.top - 1 - k as int]], top := s.top + 1))
  }

  /** `size - d - k` in `uint64_t`: the slots SWAP exchanges, for `d` of 1 and 2. */
  function SwapSlot(top: int, k: Word, d: int): int
  {
    Wrap(top - d - k as int)
  }

  /**
   * SWAP k: exchange slots `size - 1 - k` and `size - 2 - k`, computed in
   * `uint64_t`. The depth check `(size - 2 - k) < 0` is on an unsigned value
   * and never holds, so only a stack of fewer than two words is refused. A slot
   * outside the array is undefined behaviour in C; the model refuses it with
   * STACK_UNDERFLOW and no change.
   */
  function SwapInst(s: State, k: Word): Outcome<State, Trap>
  {
    if s.top < 2 then Outcome(s, StackUnderflow)
    else
      var i, j := SwapSlot(s.top, k, 1), SwapSlot(s.top, k, 2);
      if i >= STACK_MAX || j >= STACK_MAX then Outcome(s, StackUnderflow)
      else Next(s.(stack := s.stack[i := s.stack[j]][j := s.stack[i]]))
  }

  /** INCx, DECx, NOT, NOTB and the casts: the top is replaced by its transform. */
  function UnaryInst(s: State, op: UnOp, fu: FloatUnit): Outcome<State, Trap>
  {
    if s.top < 1 then Outcome(s, StackUnderflow)
    else Next(s.(stack := s.stack[s.top - 1 := Unary(op, s.stack[s.top - 1], fu)]))
  }

  /**
   * The two-operand instructions: `second OP top` replaces the second word and
   * the size drops by one. DIVI checks for a zero divisor first; MODI does not,
   * and the model gives it the same DIV_BY_ZERO with no change.
   */
  function BinaryInst(s: State, op: BinOp, fu: FloatUnit): Outcome<State, Trap>
  {
    if s.top < 2 then Outcome(s, StackUnderflow)
    else
      match Binary(op, s.stack[s.top - 2], s.stack[s.top - 1], fu)
      case None => Outcome(s, DivByZero)
      case Some(v) => Next(s.(stack := s.stack[s.top - 2 := v], top := s.top - 1))
  }

  /** CALL: push the CALL's own address and set `ip` to one before the target. */
  function CallInst(s: State, target: Word): Outcome<State, Trap>
  {
    if s.top >= STACK_MAX then Outcome(s, StackOverflow)
    else Next(s.(stack := s.stack[s.top := s.ip], top := s.top + 1, ip := target - 1))
  }

  /**
   * NATIVE k: call native k on the machine, stack untouched, then advance
   * whatever it returned. The index is not checked in C; an index with no
   * native registered is reported as ILLEGAL_OPERAND, with no change.
   */
  function NativeInst(s: State, env: Env, k: Word): Outcome<State, Trap>
  {
    if s.top < 1 then Outcome(s, StackUnderflow)
    else if k as int >= |env.natives| then Outcome(s, IllegalOperand)
    else
      var o := env.natives[k as int].call(s);
      Outcome(o.state.(ip := o.state.ip + 1), o.trap)
  }

  /** RETURN: pop the address to continue one after. */
  function ReturnInst(s: State): Outcome<State, Trap>
  {
    if s.top < 1 then Outcome(s, StackUnderflow)
    else Next(s.(top := s.top - 1, ip := s.stack[s.top - 1]))
  }

  /** JMP_IF: a nonzero top is popped and the jump taken; a zero top stays. */
  function JmpIfInst(s: State, target: Word): Outcome<State, Trap>
  {
    if s.top < 1 then Outcome(s, StackUnderflow)
    else if s.stack[s.top - 1] != 0 then Next(s.(top := s.top - 1, ip := target - 1))
    else Next(s)
  }

  /**
   * READw: the address on top is replaced by the `w`-byte value stored there.
   * An address from `MEMORY_MAX - (w - 1)` up traps, with the code for an
   * illegal operation access.
   */
  function ReadInst(s: State, w: Width): Outcome<State, Trap>
  {
    if s.top < 1 then Outcome(s, StackUnderflow)
    else
      var addr := s.stack[s.top - 1] as int;
      if addr >= MEMORY_MAX - (Size(w) - 1) then Outcome(s, IllegalOpAccess)
      else Next(s.(stack := s.stack[s.top - 1 := Load(s.memory, addr, Size(w))]))
  }

  /**
   * WRITEw: pop the address, check it as READw does, pop the value and store
   * its `w` low bytes. A refused address has already been popped.
   */
  function WriteInst(s: State, w: Width): Outcome<State, Trap>
  {
    if s.top < 2 then Outcome(s, StackUnderflow)
    else
      var addr := s.stack[s.top - 1] as int;
      if addr >= MEMORY_MAX - (Size(w) - 1) then Outcome(s.(top := s.top - 1), IllegalOpAccess)
      else Next(s.(top := s.top - 2, memory := Store(s.memory, addr, Size(w), s.stack[s.top - 2])))
  }

  /** One operation, the body of the `switch` in `LVM_execute_operation`. */
  function Execute(s: State, env: Env, op: Op, operand: Word): Outcome<State, Trap>
  {
    match op
    case Nop => Next(s)
    case Push => PushInst(s, operand)
    case Pop => PopInst(s)
    case Dup => DupInst(s, operand)
    case Swap => SwapInst(s, operand)
    case Un(u) => UnaryInst(s, u, env.fu)
    case Bin(b) => BinaryInst(s, b, env.fu)
    case Call => CallInst(s, operand)
    case Native => NativeInst(s, env, operand)
    case Return => ReturnInst(s)
    case Jmp => Next(s.(ip := operand - 1))
    case JmpIf => JmpIfInst(s, operand)
    case Read(w) => ReadInst(s, w)
    case Write(w) => WriteInst(s, w)
    case Hlt => Next(s.(hlt := true))
    case PrintDebug => PopInst(s)
  }

  /** `LVM_execute_operation`: the fetch is checked against the instruction count. */
  function Step(s: State, env: Env): (o: Outcome<State, Trap>)
    ensures s.ip as int >= s.size ==> o == Outcome(s, IllegalOpAccess)
  {
    if s.ip as int >= s.size then Outcome(s, IllegalOpAccess)
    else
      var inst := s.program[s.ip as int];
      match OpOf(inst.code)
      case None => Outcome(s, IllegalOp)
      case Some(op) => Execute(s, env, op, inst.operand)
  }

  /** The machine fetches `op` next. */
  predicate At(s: State, op: Op)
  {
    s.ip as int < s.size && OpOf(s.program[s.ip as int].code) == Some(op)
  }

  function Operand(s: State): Word
    requires s.ip as int < s.size
  {
    s.program[s.ip as int].operand
  }

  // ---------------------------------------------------------------------------
  // The run loop

  function StepperOf(env: Env): Stepper<State, Trap>
  {
    Stepper((s: State) => Step(s, env), (s: State) => s.hlt, Ok)
  }

  /**
   * `LVM_execute_program`: at most `limit` steps when the limit is not
   * negative, until halted otherwise (cut off after `fuel` steps); an OK
   * result means the machine halted or the budget ran out.
   */
  function RunOf(s: State, env: Env, limit: int, fuel: nat): (r: Result<State, Trap>)
    ensures limit >= 0 ==> r.steps <= limit
    ensures r.trap == Ok ==> r.state.hlt || r.steps == (if limit >= 0 then limit else fuel)
    ensures limit == 0 || s.hlt ==> r == Result(s, Ok, 0)
  {
    Loop(StepperOf(env), s, limit, fuel)
  }

  /** One step of a run that has budget left: a trap ends the run, OK goes on with one step less. */
  lemma RunUnfold(s: State, env: Env, limit: int, fuel: nat)
    requires !s.hlt && limit != 0 && (limit > 0 || fuel > 0)
    ensures var o := Step(s, env);
      var r := RunOf(s, env, limit, fuel);
      && (o.trap != Ok ==> r == Result(o.state, o.trap, 1))
      && (o.trap == Ok ==>
            var rest := RunOf(o.state, env, NextLimit(limit), NextFuel(limit, fuel));
            r == Result(rest.state, rest.trap, rest.steps + 1))
  {
    LoopUnfold(StepperOf(env), s, limit, fuel);
  }

  /** A halted machine, a spent budget or spent fuel ends the run with OK and no step. */
  lemma RunNothing(s: State, env: Env, limit: int, fuel: nat)
    requires s.hlt || limit == 0 || (limit < 0 && fuel == 0)
    ensures RunOf(s, env, limit, fuel) == Result(s, Ok, 0)
  {}

  /** A run that does not return OK returns the trap of the step it stopped at. */
  lemma RunTrapped(s: State, env: Env, limit: int, fuel: nat)
    requires RunOf(s, env, limit, fuel).trap != Ok
    ensures var r := RunOf(s, env, limit, fuel);
      r.steps >= 1 && exists p: State :: Step(p, env) == Outcome(r.state, r.trap)
  {
    LoopTrap(StepperOf(env), s, limit, fuel);
  }

  /** One OK step of a run that has budget left. */
  lemma RunStep(s: State, env: Env, limit: int, fuel: nat)
    requires !s.hlt && limit != 0 && (limit > 0 || fuel > 0) && Step(s, env).trap == Ok
    ensures var rest := RunOf(Step(s, env).state, env, NextLimit(limit), NextFuel(limit, fuel));
      RunOf(s, env, limit, fuel) == Result(rest.state, rest.trap, rest.steps + 1)
  {
    LoopUnfold(StepperOf(env), s, limit, fuel);
  }

  // ---------------------------------------------------------------------------
  // Loading from memory

  /**
   * `LVM_load_program_from_memory`, which asserts that fewer than
   * `LVM_PROGRAM_MAX` instructions come: they are copied over the front of the
   * instruction array and become the program. Nothing else changes.
   */
  function LoadFromMemory(s: State, insts: seq<Inst>): (r: State)
    requires |insts| < PROGRAM_MAX
    ensures r.size == |insts| && r.program[..|insts|] == insts
    ensures r.program[|insts|..] == s.program[|insts|..]
    ensures r.stack == s.stack && r.top == s.top && r.memory == s.memory && r.ip == s.ip && r.hlt == s.hlt
  {
    s.(program := insts + s.program[|insts|..], size := |insts|)
  }

  // ---------------------------------------------------------------------------
  // What each operation does
  //
  // Each `...Step` lemma about `Step` goes through a link lemma (`Step` is the
  // instruction function) and an effect lemma about the instruction function
  // alone.

  /** Every value from `NUMBER_OF_OPERATIONS` up decodes as illegal, and no other value does. */
  lemma IllegalCodes(code: bv32)
    ensures OpOf(code).None? <==> code >= NUMBER_OF_OPERATIONS
  {
    assert |LOW_OPS| == 32 && |HIGH_OPS| == 27;
  }

  /** An illegal opcode traps with the machine unchanged. */
  lemma IllegalStep(s: State, env: Env)
    requires s.ip as int < s.size && s.program[s.ip as int].code >= NUMBER_OF_OPERATIONS
    ensures Step(s, env) == Outcome(s, IllegalOp)
  {
    IllegalCodes(s.program[s.ip as int].code);
  }

  lemma StepIsNext(s: State, env: Env)
    requires At(s, Nop)
    ensures Step(s, env) == Next(s)
  {}

  /** NOP only advances. */
  lemma NopStep(s: State, env: Env)
    requires At(s, Nop)
    ensures Step(s, env) == Outcome(s.(ip := s.ip + 1), Ok)
  {
    StepIsNext(s, env);
  }

  lemma StepIsPush(s: State, env: Env)
    requires At(s, Push)
    ensures Step(s, env) == PushInst(s, Operand(s))
  {}

  lemma PushEffect(s: State, w: Word)
    ensures s.top < STACK_MAX ==>
      PushInst(s, w) == Outcome(s.(stack := s.stack[s.top := w], top := s.top + 1, ip := s.ip + 1), Ok)
    ensures s.top == STACK_MAX ==> PushInst(s, w) == Outcome(s, StackOverflow)
  {}

  /** PUSH appends its operand; on a full stack it traps and the machine stays put. */
  lemma PushStep(s: State, env: Env)
    requires At(s, Push)
    ensures s.top < STACK_MAX ==>
      Step(s, env) == Outcome(s.(stack := s.stack[s.top := Operand(s)], top := s.top + 1, ip := s.ip + 1), Ok)
    ensures s.top == STACK_MAX ==> Step(s, env) == Outcome(s, StackOverflow)
  {
    StepIsPush(s, env);
    PushEffect(s, Operand(s));
  }

  lemma StepIsPop(s: State, env: Env)
    requires At(s, Pop) || At(s, PrintDebug)
    ensures Step(s, env) == PopInst(s)
  {}

  lemma PopEffect(s: State)
    ensures s.top >= 1 ==> PopInst(s) == Outcome(s.(top := s.top - 1, ip := s.ip + 1), Ok)
    ensures s.top == 0 ==> PopInst(s) == Outcome(s, StackUnderflow)
  {}

  /** POP drops the top; on an empty stack it traps and the machine stays put. */
  lemma PopStep(s: State, env: Env)
    requires At(s, Pop)
    ensures s.top >= 1 ==> Step(s, env) == Outcome(s.(top := s.top - 1, ip := s.ip + 1), Ok)
    ensures s.top == 0 ==> Step(s, env) == Outcome(s, StackUnderflow)
  {
    StepIsPop(s, env);
    PopEffect(s);
  }

  /** A PUSH followed by a POP restores the size; only the free slot keeps the pushed word. */
  lemma PushThenPop(s: State, w: Word)
    requires s.top < STACK_MAX
    ensures PopInst(PushInst(s, w).state) == Outcome(s.(stack := s.stack[s.top := w], ip := s.ip + 2), Ok)
  {
    PushEffect(s, w);
    PopEffect(PushInst(s, w).state);
  }

  /** A word with its sign bit set is at least `2^63`, so above any stack size. */
  lemma SignBitLarge(k: Word)
    requires k & SIGN_BIT != 0
    ensures k as int >= 0x8000_0000_0000_0000
  {
    var i := ToInt(k);
  }

  /** `x % 2^64` for an `x` that already fits. */
  lemma WrapSmall(x: int)
    requires 0 <= x < TWO_64
    ensures Wrap(x) == x
  {}

  /** `x % 2^64` for an `x` just below zero. */
  lemma WrapUp(x: int)
    requires -TWO_64 <= x < 0
    ensures Wrap(x) == x + TWO_64
  {}

  lemma StepIsDup(s: State, env: Env)
    requires At(s, Dup)
    ensures Step(s, env) == DupInst(s, Operand(s))
  {}

  lemma DupEffect(s: State, k: Word)
    ensures k as int >= s.top ==> DupInst(s, k) == Outcome(s, IllegalOperand)
    ensures k as int < s.top == STACK_MAX ==> DupInst(s, k) == Outcome(s, StackOverflow)
    ensures k as int < s.top < STACK_MAX ==>
      DupInst(s, k) == Outcome(s.(stack := s.stack[s.top := s.stack[s.top - 1 - k as int]], top := s.top + 1, ip := s.ip + 1), Ok)
  {
    if k & SIGN_BIT != 0 {
      SignBitLarge(k);
    }
    if k as int < s.top {
      WrapSmall(s.top - k as int);
    }
  }

  /**
   * DUP k pushes a copy of slot `size - 1 - k`. It refuses `k >= size` with
   * ILLEGAL_OPERAND and then a full stack with STACK_OVERFLOW, both with no
   * change (`DupRefused`); it never underflows.
   */
  lemma DupStep(s: State, env: Env)
    requires At(s, Dup)
    ensures Operand(s) as int < s.top < STACK_MAX ==>
      var k := Operand(s) as int;
      Step(s, env) == Outcome(s.(stack := s.stack[s.top := s.stack[s.top - 1 - k]], top := s.top + 1, ip := s.ip + 1), Ok)
  {
    StepIsDup(s, env);
    DupEffect(s, Operand(s));
  }

  /** DUP's two refusals, in the order it checks them. */
  lemma DupRefused(s: State, env: Env)
    requires At(s, Dup)
    ensures Operand(s) as int >= s.top ==> Step(s, env) == Outcome(s, IllegalOperand)
    ensures Operand(s) as int < s.top == STACK_MAX ==> Step(s, env) == Outcome(s, StackOverflow)
  {
    StepIsDup(s, env);
    DupEffect(s, Operand(s));
  }

  /** DUP 0 leaves the two top slots equal to the old top. */
  lemma DupZero(s: State, env: Env)
    requires At(s, Dup) && Operand(s) == 0 && 1 <= s.top < STACK_MAX
    ensures var t := Step(s, env).state;
      t.top == s.top + 1 && t.stack[t.top - 1] == t.stack[t.top - 2] == s.stack[s.top - 1]
  {
    StepIsDup(s, env);
    DupEffect(s, 0);
  }

  lemma StepIsSwap(s: State, env: Env)
    requires At(s, Swap)
    ensures Step(s, env) == SwapInst(s, Operand(s))
  {}

  /** A SWAP whose two slots lie in the array exchanges them. */
  lemma SwapAt(s: State, k: Word, i: int, j: int)
    requires s.top >= 2 && i == SwapSlot(s.top, k, 1) && j == SwapSlot(s.top, k, 2)
    requires 0 <= i < STACK_MAX && 0 <= j < STACK_MAX
    ensures SwapInst(s, k) == Outcome(s.(stack := s.stack[i := s.stack[j]][j := s.stack[i]], ip := s.ip + 1), Ok)
  {}

  lemma SwapInBounds(s: State, k: Word)
    requires s.top >= 2 && k as int <= s.top - 2
    ensures var i, j := s.top - 1 - k as int, s.top - 2 - k as int;
      SwapInst(s, k) == Outcome(s.(stack := s.stack[i := s.stack[j]][j := s.stack[i]], ip := s.ip + 1), Ok)
  {
    WrapSmall(s.top - 1 - k as int);
    WrapSmall(s.top - 2 - k as int);
  }

  /** SWAP k on a stack deeper than `k + 1` exchanges slots `size - 1 - k` and `size - 2 - k`. */
  lemma SwapStep(s: State, env: Env)
    requires At(s, Swap) && s.top >= 2 && Operand(s) as int <= s.top - 2
    ensures var i, j := s.top - 1 - Operand(s) as int, s.top - 2 - Operand(s) as int;
      Step(s, env) == Outcome(s.(stack := s.stack[i := s.stack[j]][j := s.stack[i]], ip := s.ip + 1), Ok)
  {
    StepIsSwap(s, env);
    SwapInBounds(s, Operand(s));
  }

  /** SWAP refuses a stack of fewer than two words, with no change. */
  lemma SwapUnderflow(s: State, env: Env)
    requires At(s, Swap) && s.top < 2
    ensures Step(s, env) == Outcome(s, StackUnderflow)
  {
    StepIsSwap(s, env);
  }

  lemma SwapInstPastTop(s: State)
    requires 2 <= s.top < STACK_MAX
    ensures var t := s.top;
      SwapInst(s, 0xFFFF_FFFF_FFFF_FFFF) == Outcome(s.(stack := s.stack[t := s.stack[t - 1]][t - 1 := s.stack[t]], ip := s.ip + 1), Ok)
  {
    WrapUp(s.top - 1 - 0xFFFF_FFFF_FFFF_FFFF);
    WrapUp(s.top - 2 - 0xFFFF_FFFF_FFFF_FFFF);
  }

  /**
   * The depth check never refuses a deep operand: SWAP with `k = 2^64 - 1`
   * wraps round and exchanges the top with the stale slot just above it.
   */
  lemma SwapPastTop(s: State, env: Env)
    requires At(s, Swap) && 2 <= s.top < STACK_MAX && Operand(s) == 0xFFFF_FFFF_FFFF_FFFF
    ensures var t := s.top;
      Step(s, env) == Outcome(s.(stack := s.stack[t := s.stack[t - 1]][t - 1 := s.stack[t]], ip := s.ip + 1), Ok)
  {
    StepIsSwap(s, env);
    SwapInstPastTop(s);
  }

  lemma StepIsUnary(s: State, env: Env, op: UnOp)
    requires At(s, Un(op))
    ensures Step(s, env) == UnaryInst(s, op, env.fu)
  {}

  lemma UnaryEffect(s: State, op: UnOp, fu: FloatUnit)
    ensures s.top >= 1 ==>
      UnaryInst(s, op, fu) == Outcome(s.(stack := s.stack[s.top - 1 := Unary(op, s.stack[s.top - 1], fu)], ip := s.ip + 1), Ok)
    ensures s.top == 0 ==> UnaryInst(s, op, fu) == Outcome(s, StackUnderflow)
  {}

  /** A one-operand instruction replaces the top with its transform. */
  lemma UnaryStep(s: State, env: Env, op: UnOp)
    requires At(s, Un(op))
    ensures s.top >= 1 ==>
      Step(s, env) == Outcome(s.(stack := s.stack[s.top - 1 := Unary(op, s.stack[s.top - 1], env.fu)], ip := s.ip + 1), Ok)
    ensures s.top == 0 ==> Step(s, env) == Outcome(s, StackUnderflow)
  {
    StepIsUnary(s, env, op);
    UnaryEffect(s, op, env.fu);
  }

  lemma StepIsBinary(s: State, env: Env, op: BinOp)
    requires At(s, Bin(op))
    ensures Step(s, env) == BinaryInst(s, op, env.fu)
  {}

  lemma BinaryEffect(s: State, op: BinOp, fu: FloatUnit)
    ensures s.top < 2 ==> BinaryInst(s, op, fu) == Outcome(s, StackUnderflow)
    ensures s.top >= 2 ==>
      var r := Binary(op, s.stack[s.top - 2], s.stack[s.top - 1], fu);
      && (r.None? ==> BinaryInst(s, op, fu) == Outcome(s, DivByZero))
      && (r.Some? ==>
            BinaryInst(s, op, fu) == Outcome(s.(stack := s.stack[s.top - 2 := r.value], top := s.top - 1, ip := s.ip + 1), Ok))
  {}

  /**
   * A two-operand instruction replaces the second word with `second OP top`
   * and drops the top; an integer division by zero traps with no change.
   */
  lemma BinaryStep(s: State, env: Env, op: BinOp)
    requires At(s, Bin(op))
    ensures s.top < 2 ==> Step(s, env) == Outcome(s, StackUnderflow)
    ensures s.top >= 2 ==>
      var r := Binary(op, s.stack[s.top - 2], s.stack[s.top - 1], env.fu);
      && (r.None? ==> Step(s, env) == Outcome(s, DivByZero))
      && (r.Some? ==>
            Step(s, env) == Outcome(s.(stack := s.stack[s.top - 2 := r.value], top := s.top - 1, ip := s.ip + 1), Ok))
  {
    StepIsBinary(s, env, op);
    BinaryEffect(s, op, env.fu);
  }

  /** DIVI and MODI trap on a zero top, leaving the stack as it was. */
  lemma DivideByZero(s: State, env: Env, op: BinOp)
    requires At(s, Bin(op)) && IsIntDivision(op) && s.top >= 2 && s.stack[s.top - 1] == 0
    ensures Step(s, env) == Outcome(s, DivByZero)
  {
    StepIsBinary(s, env, op);
    BinaryEffect(s, op, env.fu);
  }

  /** Comparisons and logical operations leave 0 or 1 in place of their operands. */
  lemma BooleanResult(s: State, env: Env, op: BinOp)
    requires At(s, Bin(op)) && IsBoolean(op) && s.top >= 2
    ensures Step(s, env).trap == Ok
    ensures Step(s, env).state.top == s.top - 1
    ensures Step(s, env).state.stack[s.top - 2] == 0 || Step(s, env).state.stack[s.top - 2] == 1
  {
    StepIsBinary(s, env, op);
    BinaryEffect(s, op, env.fu);
  }

  lemma StepIsCall(s: State, env: Env)
    requires At(s, Call)
    ensures Step(s, env) == CallInst(s, Operand(s))
  {}

  lemma CallEffect(s: State, target: Word)
    ensures s.top < STACK_MAX ==>
      CallInst(s, target) == Outcome(s.(stack := s.stack[s.top := s.ip], top := s.top + 1, ip := target), Ok)
    ensures s.top == STACK_MAX ==> CallInst(s, target) == Outcome(s, StackOverflow)
  {}

  /** CALL pushes its own address and continues at the operand; a full stack overflows with no change. */
  lemma CallStep(s: State, env: Env)
    requires At(s, Call)
    ensures s.top < STACK_MAX ==>
      Step(s, env) == Outcome(s.(stack := s.stack[s.top := s.ip], top := s.top + 1, ip := Operand(s)), Ok)
    ensures s.top == STACK_MAX ==> Step(s, env) == Outcome(s, StackOverflow)
  {
    StepIsCall(s, env);
    CallEffect(s, Operand(s));
  }

  lemma StepIsReturn(s: State, env: Env)
    requires At(s, Return)
    ensures Step(s, env) == ReturnInst(s)
  {}

  lemma ReturnEffect(s: State)
    ensures s.top >= 1 ==> ReturnInst(s) == Outcome(s.(top := s.top - 1, ip := s.stack[s.top - 1] + 1), Ok)
    ensures s.top == 0 ==> ReturnInst(s) == Outcome(s, StackUnderflow)
  {}

  /** RETURN pops `r` and continues at `r + 1`. */
  lemma ReturnStep(s: State, env: Env)
    requires At(s, Return)
    ensures s.top >= 1 ==> Step(s, env) == Outcome(s.(top := s.top - 1, ip := s.stack[s.top - 1] + 1), Ok)
    ensures s.top == 0 ==> Step(s, env) == Outcome(s, StackUnderflow)
  {
    StepIsReturn(s, env);
    ReturnEffect(s);
  }

  /** A CALL to a RETURN resumes right after the CALL, with the stack size as it was. */
  lemma CallThenReturn(s: State, env: Env)
    requires At(s, Call) && s.top < STACK_MAX
    requires Operand(s) as int < s.size && OpOf(s.program[Operand(s) as int].code) == Some(Return)
    ensures Step(s, env).trap == Ok
    ensures Step(Step(s, env).state, env) == Outcome(s.(stack := s.stack[s.top := s.ip], ip := s.ip + 1), Ok)
  {
    CallStep(s, env);
    ReturnStep(Step(s, env).state, env);
  }

  lemma StepIsJmp(s: State, env: Env)
    requires At(s, Jmp)
    ensures Step(s, env) == Next(s.(ip := Operand(s) - 1))
  {}

  /** JMP continues at the operand. */
  lemma JmpStep(s: State, env: Env)
    requires At(s, Jmp)
    ensures Step(s, env) == Outcome(s.(ip := Operand(s)), Ok)
  {
    StepIsJmp(s, env);
  }

  lemma StepIsJmpIf(s: State, env: Env)
    requires At(s, JmpIf)
    ensures Step(s, env) == JmpIfInst(s, Operand(s))
  {}

  lemma JmpIfEffect(s: State, target: Word)
    ensures s.top >= 1 && s.stack[s.top - 1] != 0 ==>
      JmpIfInst(s, target) == Outcome(s.(top := s.top - 1, ip := target), Ok)
    ensures s.top >= 1 && s.stack[s.top - 1] == 0 ==> JmpIfInst(s, target) == Outcome(s.(ip := s.ip + 1), Ok)
    ensures s.top == 0 ==> JmpIfInst(s, target) == Outcome(s, StackUnderflow)
  {}

  /**
   * JMP_IF pops a nonzero top and continues at the operand; a zero top stays
   * on the stack and the machine advances; an empty stack underflows.
   */
  lemma JmpIfStep(s: State, env: Env)
    requires At(s, JmpIf)
    ensures s.top >= 1 && s.stack[s.top - 1] != 0 ==>
      Step(s, env) == Outcome(s.(top := s.top - 1, ip := Operand(s)), Ok)
    ensures s.top >= 1 && s.stack[s.top - 1] == 0 ==> Step(s, env) == Outcome(s.(ip := s.ip + 1), Ok)
    ensures s.top == 0 ==> Step(s, env) == Outcome(s, StackUnderflow)
  {
    StepIsJmpIf(s, env);
    JmpIfEffect(s, Operand(s));
  }

  lemma StepIsNative(s: State, env: Env)
    requires At(s, Native)
    ensures Step(s, env) == NativeInst(s, env, Operand(s))
  {}

  /** NATIVE k runs native k on the machine as it is and advances past it, whatever it returns. */
  lemma NativeStep(s: State, env: Env)
    requires At(s, Native)
    ensures var k := Operand(s) as int;
      && (s.top >= 1 && k < |env.natives| ==>
            var o := env.natives[k].call(s);
            Step(s, env) == Outcome(o.state.(ip := o.state.ip + 1), o.trap))
      && (s.top >= 1 && k >= |env.natives| ==> Step(s, env) == Outcome(s, IllegalOperand))
      && (s.top == 0 ==> Step(s, env) == Outcome(s, StackUnderflow))
  {
    StepIsNative(s, env);
  }

  lemma StepIsRead(s: State, env: Env, w: Width)
    requires At(s, Read(w))
    ensures Step(s, env) == ReadInst(s, w)
  {}

  lemma ReadEffect(s: State, w: Width)
    requires s.top >= 1
    ensures var addr := s.stack[s.top - 1] as int;
      && (addr < MEMORY_MAX - (Size(w) - 1) ==>
            ReadInst(s, w) == Outcome(s.(stack := s.stack[s.top - 1 := Load(s.memory, addr, Size(w))], ip := s.ip + 1), Ok))
      && (addr >= MEMORY_MAX - (Size(w) - 1) ==> ReadInst(s, w) == Outcome(s, IllegalOpAccess))
  {}

  /**
   * READw replaces an address below `MEMORY_MAX - (w - 1)` with the `w`-byte
   * little-endian value stored there; a larger address traps with
   * ILLEGAL_OP_ACCESS, not ILLEGAL_MEMORY_ACCESS, and no change.
   */
  lemma ReadStep(s: State, env: Env, w: Width)
    requires At(s, Read(w)) && s.top >= 1
    ensures var addr := s.stack[s.top - 1] as int;
      && (addr < MEMORY_MAX - (Size(w) - 1) ==>
            Step(s, env) == Outcome(s.(stack := s.stack[s.top - 1 := Load(s.memory, addr, Size(w))], ip := s.ip + 1), Ok))
      && (addr >= MEMORY_MAX - (Size(w) - 1) ==> Step(s, env) == Outcome(s, IllegalOpAccess))
  {
    StepIsRead(s, env, w);
    ReadEffect(s, w);
  }

  lemma StepIsWrite(s: State, env: Env, w: Width)
    requires At(s, Write(w))
    ensures Step(s, env) == WriteInst(s, w)
  {}

  lemma WriteEffect(s: State, w: Width)
    requires s.top >= 2
    ensures var addr, v := s.stack[s.top - 1] as int, s.stack[s.top - 2];
      && (addr < MEMORY_MAX - (Size(w) - 1) ==>
            WriteInst(s, w) == Outcome(s.(top := s.top - 2, memory := Store(s.memory, addr, Size(w), v), ip := s.ip + 1), Ok))
      && (addr >= MEMORY_MAX - (Size(w) - 1) ==> WriteInst(s, w) == Outcome(s.(top := s.top - 1), IllegalOpAccess))
  {}

  /**
   * WRITEw pops the address, then the value, and stores the value's `w` low
   * bytes; a refused address traps with ILLEGAL_OP_ACCESS after its own pop.
   */
  lemma WriteStep(s: State, env: Env, w: Width)
    requires At(s, Write(w)) && s.top >= 2
    ensures var addr, v := s.stack[s.top - 1] as int, s.stack[s.top - 2];
      && (addr < MEMORY_MAX - (Size(w) - 1) ==>
            Step(s, env) == Outcome(s.(top := s.top - 2, memory := Store(s.memory, addr, Size(w), v), ip := s.ip + 1), Ok))
      && (addr >= MEMORY_MAX - (Size(w) - 1) ==> Step(s, env) == Outcome(s.(top := s.top - 1), IllegalOpAccess))
  {
    StepIsWrite(s, env, w);
    WriteEffect(s, w);
  }

  /** Reading and writing need the address on the stack first. */
  lemma MemoryUnderflow(s: State, env: Env, w: Width)
    ensures At(s, Read(w)) && s.top == 0 ==> Step(s, env) == Outcome(s, StackUnderflow)
    ensures At(s, Write(w)) && s.top < 2 ==> Step(s, env) == Outcome(s, StackUnderflow)
  {
    if At(s, Read(w)) {
      StepIsRead(s, env, w);
    }
    if At(s, Write(w)) {
      StepIsWrite(s, env, w);
    }
  }

  /** An in-bounds WRITEw reads back as the value cut to `w` bytes and changes no other byte. */
  lemma WriteStores(s: State, env: Env, w: Width)
    requires At(s, Write(w)) && s.top >= 2 && s.stack[s.top - 1] as int < MEMORY_MAX - (Size(w) - 1)
    ensures var m, addr, v := Step(s, env).state.memory, s.stack[s.top - 1] as int, s.stack[s.top - 2];
      && Load(m, addr, Size(w)) == Trunc(v, Size(w))
      && forall i :: 0 <= i < MEMORY_MAX && !(addr <= i < addr + Size(w)) ==> m[i] == s.memory[i]
  {
    var addr, v := s.stack[s.top - 1] as int, s.stack[s.top - 2];
    var m := Step(s, env).state.memory;
    assert m == Store(s.memory, addr, Size(w), v) by {
      WriteStep(s, env, w);
    }
    StoredMemory(s.memory, addr, Size(w), v, m);
  }

  /** What a store of `n` bytes at `addr` leaves in a memory of `MEMORY_MAX` bytes. */
  lemma StoredMemory(mem: seq<Byte>, addr: int, n: nat, v: Word, m: seq<Byte>)
    requires |mem| == MEMORY_MAX && 0 <= addr && addr + n <= MEMORY_MAX && n <= 8
    requires m == Store(mem, addr, n, v)
    ensures Load(m, addr, n) == Trunc(v, n)
    ensures forall i :: 0 <= i < MEMORY_MAX && !(addr <= i < addr + n) ==> m[i] == mem[i]
  {
    LoadStore(mem, addr, n, v);
    StoreEffect(mem, addr, n, v);
  }

  lemma StepIsHlt(s: State, env: Env)
    requires At(s, Hlt)
    ensures Step(s, env) == Next(s.(hlt := true))
  {}

  /** HLT sets the halt flag and, unlike in the newest generation, advances. */
  lemma HltStep(s: State, env: Env)
    requires At(s, Hlt)
    ensures Step(s, env) == Outcome(s.(hlt := true, ip := s.ip + 1), Ok)
  {
    StepIsHlt(s, env);
  }

  /** PRINT_DEBUG pops the word it prints. */
  lemma PrintDebugStep(s: State, env: Env)
    requires At(s, PrintDebug)
    ensures s.top >= 1 ==> Step(s, env) == Outcome(s.(top := s.top - 1, ip := s.ip + 1), Ok)
    ensures s.top == 0 ==> Step(s, env) == Outcome(s, StackUnderflow)
  {
    StepIsPop(s, env);
    PopEffect(s);
  }

  /** The operations that set `ip` themselves. */
  predicate Transfers(op: Op)
  {
    op.Call? || op.Native? || op.Return? || op.Jmp? || op.JmpIf?
  }

  /** A step that succeeds moves `ip` on by exactly one. */
  predicate Advanced(s: State, o: Outcome<State, Trap>)
  {
    o.trap == Ok ==> o.state.ip == s.ip + 1
  }

  /**
   * Every operation except the jumps, CALL, RETURN and NATIVE ends a
   * successful step with a single advance of `ip`.
   */
  lemma OkAdvances(s: State, env: Env, op: Op)
    requires At(s, op) && !Transfers(op)
    ensures Advanced(s, Step(s, env))
  {
    match op
    case Nop | Push | Pop => StackAdvances(s, env, op);
    case Dup | Swap => CopyAdvances(s, env, op);
    case Un(_) | Bin(_) => AluAdvances(s, env, op);
    case Read(_) | Write(_) => MemoryAdvances(s, env, op);
    case Hlt | PrintDebug => HaltAdvances(s, env, op);
  }

  lemma StackAdvances(s: State, env: Env, op: Op)
    requires At(s, op) && (op.Nop? || op.Push? || op.Pop?)
    ensures Advanced(s, Step(s, env))
  {
    match op
    case Nop => StepIsNext(s, env);
    case Push => StepIsPush(s, env);
    case Pop => StepIsPop(s, env);
  }

  lemma CopyAdvances(s: State, env: Env, op: Op)
    requires At(s, op) && (op.Dup? || op.Swap?)
    ensures Advanced(s, Step(s, env))
  {
    match op
    case Dup => StepIsDup(s, env);
    case Swap => StepIsSwap(s, env);
  }

  lemma AluAdvances(s: State, env: Env, op: Op)
    requires At(s, op) && (op.Un? || op.Bin?)
    ensures Advanced(s, Step(s, env))
  {
    match op
    case Un(u) => StepIsUnary(s, env, u);
    case Bin(b) => StepIsBinary(s, env, b);
  }

  lemma MemoryAdvances(s: State, env: Env, op: Op)
    requires At(s, op) && (op.Read? || op.Write?)
    ensures Advanced(s, Step(s, env))
  {
    match op
    case Read(w) => StepIsRead(s, env, w);
    case Write(w) => StepIsWrite(s, env, w);
  }

  lemma HaltAdvances(s: State, env: Env, op: Op)
    requires At(s, op) && (op.Hlt? || op.PrintDebug?)
    ensures Advanced(s, Step(s, env))
  {
    match op
    case Hlt => StepIsHlt(s, env);
    case PrintDebug => StepIsPop(s, env);
  }

  // ---------------------------------------------------------------------------
  // Whole programs

  /** A zero-initialised `LVM`, as a static one starts. */
  function Zeroed(): (s: State)
    ensures s.top == 0 && s.size == 0 && s.ip == 0 && !s.hlt
  {
    Config(seq(STACK_MAX, _ => 0), 0, seq(MEMORY_MAX, _ => 0), seq(PROGRAM_MAX, _ => Inst(0, 0)), 0, 0, false)
  }

  /** A zeroed machine with `insts` loaded from memory. */
  function Boot(insts: seq<Inst>): (s: State)
    requires |insts| < PROGRAM_MAX
    ensures s.size == |insts| && s.program[..|insts|] == insts && s.top == 0 && s.ip == 0 && !s.hlt
  {
    LoadFromMemory(Zeroed(), insts)
  }

  /** A HLT reached with budget left ends the run after one more step. */
  lemma RunHalts(s: State, env: Env, limit: int, fuel: nat)
    requires At(s, Hlt) && !s.hlt && limit != 0 && (limit > 0 || fuel > 0)
    ensures RunOf(s, env, limit, fuel) == Result(s.(hlt := true, ip := s.ip + 1), Ok, 1)
  {
    HltStep(s, env);
    RunStep(s, env, limit, fuel);
    RunNothing(s.(hlt := true, ip := s.ip + 1), env, NextLimit(limit), NextFuel(limit, fuel));
  }

  /** `push 10; push 2; divi; hlt`. */
  const DIV_PROGRAM: seq<Inst> := [Inst(1, 10), Inst(1, 2), Inst(15, 0), Inst(57, 0)]

  /** DIVI divides the second word by the top: the program leaves 10 / 2 and halts past the HLT. */
  lemma DivProgram(env: Env)
    ensures var r := RunOf(Boot(DIV_PROGRAM), env, -1, 4);
      r.trap == Ok && r.state.hlt && r.state.ip == 4 && r.state.top == 1 && r.state.stack[0] == 5 && r.steps == 4
  {
    var s := Boot(DIV_PROGRAM);
    assert s.program[0] == DIV_PROGRAM[0];
    PushStep(s, env);
    RunStep(s, env, -1, 4);
    DivSecondPush(Step(s, env).state, env);
  }

  lemma DivSecondPush(s: State, env: Env)
    requires s.program[..4] == DIV_PROGRAM && s.size == 4 && !s.hlt && s.ip == 1 && s.top == 1 && s.stack[0] == 10
    ensures var r := RunOf(s, env, -1, 3);
      r.trap == Ok && r.state.hlt && r.state.ip == 4 && r.state.top == 1 && r.state.stack[0] == 5 && r.steps == 3
  {
    assert s.program[1] == DIV_PROGRAM[1];
    PushStep(s, env);
    RunStep(s, env, -1, 3);
    DivDivide(Step(s, env).state, env);
  }

  lemma DivDivide(s: State, env: Env)
    requires s.program[..4] == DIV_PROGRAM && s.size == 4 && !s.hlt && s.ip == 2 && s.top == 2
    requires s.stack[0] == 10 && s.stack[1] == 2
    ensures var r := RunOf(s, env, -1, 2);
      r.trap == Ok && r.state.hlt && r.state.ip == 4 && r.state.top == 1 && r.state.stack[0] == 5 && r.steps == 2
  {
    DivStep(s, env);
    RunStep(s, env, -1, 2);
    var t := s.(stack := s.stack[0 := 5], top := 1, ip := 3);
    assert t.program[3] == DIV_PROGRAM[3];
    RunHalts(t, env, -1, 1);
  }

  lemma DivStep(s: State, env: Env)
    requires s.program[..4] == DIV_PROGRAM && s.size == 4 && s.ip == 2 && s.top == 2
    requires s.stack[0] == 10 && s.stack[1] == 2
    ensures Step(s, env) == Outcome(s.(stack := s.stack[0 := 5], top := 1, ip := 3), Ok)
  {
    assert s.program[2] == DIV_PROGRAM[2];
    TenByTwo(env.fu);
    BinaryStep(s, env, DivI);
  }

  lemma TenByTwo(fu: FloatUnit)
    ensures Binary(DivI, 10, 2, fu) == Some(5)
  {
    assert ToInt(10) == 10 && ToInt(2) == 2;
    assert TDiv(10, 2) == 5;
  }

  /** `call 3; hlt; nop; return`: a subroutine at 3 that returns at once. */
  const CALL_PROGRAM: seq<Inst> := [Inst(40, 3), Inst(57, 0), Inst(0, 0), Inst(42, 0)]

  /** RETURN resumes after the CALL: the run halts on the HLT at 1 after three steps, stack empty. */
  lemma CallProgram(env: Env)
    ensures var r := RunOf(Boot(CALL_PROGRAM), env, -1, 3);
      r.trap == Ok && r.state.hlt && r.state.ip == 2 && r.state.top == 0 && r.steps == 3
  {
    var s := Boot(CALL_PROGRAM);
    assert s.program[0] == CALL_PROGRAM[0];
    CallStep(s, env);
    RunStep(s, env, -1, 3);
    CallProgramReturn(Step(s, env).state, env);
  }

  lemma CallProgramReturn(s: State, env: Env)
    requires s.program[..4] == CALL_PROGRAM && s.size == 4 && !s.hlt && s.ip == 3 && s.top == 1 && s.stack[0] == 0
    ensures var r := RunOf(s, env, -1, 2);
      r.trap == Ok && r.state.hlt && r.state.ip == 2 && r.state.top == 0 && r.steps == 2
  {
    assert s.program[3] == CALL_PROGRAM[3];
    ReturnStep(s, env);
    RunStep(s, env, -1, 2);
    var t := Step(s, env).state;
    assert t.program[1] == CALL_PROGRAM[1];
    RunHalts(t, env, -1, 1);
  }

  // ---------------------------------------------------------------------------
  // The melf file format

  /** `LVM_MAGIC`: the bytes "LOVE" read as a little-endian `uint32_t`. */
  const MAGIC: bv32 := 0x45564F4C

  /** `LVM_VERSION`. */
  const VERSION: bv16 := 0

  /** `sizeof(LVM_FileMetaData)`: the header is packed, 4 + 2 + 8 + 8 bytes. */
  const HEADER_SIZE: int := 22

  /** `LVM_FileMetaData`. */
  datatype Header = Header(magic: bv32, version: bv16, programSize: Word, memorySize: Word)

  function Low16(w: Word): bv16
  {
    (w & 0xFFFF) as bv16
  }

  lemma Low16Widen(x: bv16)
    ensures Low16(x as Word) == x
  {}

  /** The header's bytes, fields in order, each little-endian. */
  function EncodeHeader(h: Header): (bs: seq<Byte>)
    ensures |bs| == HEADER_SIZE
  {
    Pack(h.magic as Word, h.version as Word, h.programSize, h.memorySize)
  }

  function Pack(magic: Word, version: Word, programSize: Word, memorySize: Word): (bs: seq<Byte>)
    ensures |bs| == HEADER_SIZE
  {
    Bytes(magic, 4) + Bytes(version, 2) + Bytes(programSize, 8) + Bytes(memorySize, 8)
  }

  function DecodeHeader(bs: seq<Byte>): Header
    requires |bs| == HEADER_SIZE
  {
    Header(Low32(LE(bs[0..4])), Low16(LE(bs[4..6])), LE(bs[6..14]), LE(bs[14..22]))
  }

  lemma PackSlices(magic: Word, version: Word, programSize: Word, memorySize: Word)
    ensures var bs := Pack(magic, version, programSize, memorySize);
      && bs[0..4] == Bytes(magic, 4)
      && bs[4..6] == Bytes(version, 2)
      && bs[6..14] == Bytes(programSize, 8)
      && bs[14..22] == Bytes(memorySize, 8)
  {
    Slices4(Bytes(magic, 4), Bytes(version, 2), Bytes(programSize, 8), Bytes(memorySize, 8));
  }

  lemma Slices4<T>(a: seq<T>, b: seq<T>, c: seq<T>, d: seq<T>)
    ensures var s, i, j, k := a + b + c + d, |a|, |a| + |b|, |a| + |b| + |c|;
      s[0..i] == a && s[i..j] == b && s[j..k] == c && s[k..] == d
  {
    var s, i, j, k := a + b + c + d, |a|, |a| + |b|, |a| + |b| + |c|;
    assert s[0..i] == a;
    assert s[i..j] == b;
    assert s[j..k] == c;
    assert s[k..] == d;
  }

  lemma Slices3<T>(a: seq<T>, b: seq<T>, c: seq<T>)
    ensures var s, i, j := a + b + c, |a|, |a| + |b|;
      s[..i] == a && s[i..] == b + c && s[i..j] == b && s[j..] == c
  {
    var s, i, j := a + b + c, |a|, |a| + |b|;
    assert s[..i] == a;
    assert s[i..] == b + c;
    assert s[i..j] == b;
    assert s[j..] == c;
  }

  /** A header read back from the bytes it was written as is the same header. */
  lemma DecodeEncodeHeader(h: Header)
    ensures DecodeHeader(EncodeHeader(h)) == h
  {
    var bs := EncodeHeader(h);
    HeaderMagic(h);
    HeaderVersion(h);
    HeaderSizes(h);
    DecodeFields(bs, h);
  }

  /** The header's bytes are the bytes of its four fields, one after the other. */
  lemma HeaderIsPack(h: Header)
    ensures EncodeHeader(h) == Pack(h.magic as Word, h.version as Word, h.programSize, h.memorySize)
  {}

  lemma HeaderMagic(h: Header)
    ensures Low32(LE(EncodeHeader(h)[0..4])) == h.magic
  {
    HeaderIsPack(h);
    PackSlices(h.magic as Word, h.version as Word, h.programSize, h.memorySize);
    MagicBack(EncodeHeader(h)[0..4], h.magic);
  }

  lemma HeaderVersion(h: Header)
    ensures Low16(LE(EncodeHeader(h)[4..6])) == h.version
  {
    HeaderIsPack(h);
    PackSlices(h.magic as Word, h.version as Word, h.programSize, h.memorySize);
    VersionBack(EncodeHeader(h)[4..6], h.version);
  }

  lemma HeaderSizes(h: Header)
    ensures LE(EncodeHeader(h)[6..14]) == h.programSize
    ensures LE(EncodeHeader(h)[14..22]) == h.memorySize
  {
    HeaderIsPack(h);
    PackSlices(h.magic as Word, h.version as Word, h.programSize, h.memorySize);
    WordBack(EncodeHeader(h)[6..14], h.programSize);
    WordBack(EncodeHeader(h)[14..22], h.memorySize);
  }

  lemma DecodeFields(bs: seq<Byte>, h: Header)
    requires |bs| == HEADER_SIZE
    requires Low32(LE(bs[0..4])) == h.magic && Low16(LE(bs[4..6])) == h.version
    requires LE(bs[6..14]) == h.programSize && LE(bs[14..22]) == h.memorySize
    ensures DecodeHeader(bs) == h
  {}

  lemma MagicBack(bs: seq<Byte>, m: bv32)
    requires bs == Bytes(m as Word, 4)
    ensures Low32(LE(bs)) == m
  {
    CodeRoundTrip(m);
  }

  lemma VersionBack(bs: seq<Byte>, v: bv16)
    requires bs == Bytes(v as Word, 2)
    ensures Low16(LE(bs)) == v
  {
    LEBytes2(v);
    Low16Widen(v);
  }

  lemma WordBack(bs: seq<Byte>, w: Word)
    requires bs == Bytes(w, 8)
    ensures LE(bs) == w
  {
    LEBytes8(w);
  }

  /** The reasons `LVM_load_program_from_file` gives up, in the order it checks them. */
  datatype FileError =
    | ShortHeader
    | BadMagic
    | BadVersion
    | ProgramTooLarge
    | MemoryTooLarge
    | ShortProgram
    | ShortMemory

  /**
   * The header checks, first failure first: the magic, a version above
   * `LVM_VERSION`, more than `LVM_PROGRAM_MAX` instructions, more than
   * `LVM_MEMORY_MAX` bytes of memory. Exactly 1024 instructions pass.
   */
  function CheckHeader(h: Header): (r: Option<FileError>)
    ensures r == None <==>
      h.magic == MAGIC && h.version <= VERSION && h.programSize as int <= PROGRAM_MAX && h.memorySize as int <= MEMORY_MAX
    ensures h.magic != MAGIC ==> r == Some(BadMagic)
    ensures h.magic == MAGIC && h.version > VERSION ==> r == Some(BadVersion)
    ensures h.magic == MAGIC && h.version <= VERSION && h.programSize as int > PROGRAM_MAX ==> r == Some(ProgramTooLarge)
    ensures h.magic == MAGIC && h.version <= VERSION && h.programSize as int <= PROGRAM_MAX && h.memorySize as int > MEMORY_MAX
      ==> r == Some(MemoryTooLarge)
  {
    if h.magic != MAGIC then Some(BadMagic)
    else if h.version > VERSION then Some(BadVersion)
    else if h.programSize as int > PROGRAM_MAX then Some(ProgramTooLarge)
    else if h.memorySize as int > MEMORY_MAX then Some(MemoryTooLarge)
    else None
  }

  /** What a load from a file leaves in `program[]` and `program_size`, or why it gave up. */
  datatype LoadResult = Loaded(program: seq<Inst>, size: int) | Rejected(error: FileError)

  /** What `fread` returns: the whole elements available, up to the count asked for. */
  function Fread(count: int, size: int, available: int): int
    requires size > 0
  {
    if available / size < count then available / size else count
  }

  /** The instruction array after `bs` has been read over the start of its bytes. */
  function Overwrite(p: seq<Inst>, bs: seq<Byte>): (q: seq<Inst>)
    requires |bs| <= INST_SIZE * |p|
    ensures |q| == |p|
  {
    DecodeInsts(bs + EncodeInsts(p)[|bs|..])
  }

  /**
   * `LVM_load_program_from_file` on the file's bytes, over the instruction
   * array `program`: the header is read whole or not at all.
   */
  function LoadFile(file: seq<Byte>, program: seq<Inst>): (r: LoadResult)
    requires |program| == PROGRAM_MAX
    ensures |file| < HEADER_SIZE ==> r == Rejected(ShortHeader)
    ensures |file| >= HEADER_SIZE && CheckHeader(DecodeHeader(file[..HEADER_SIZE])).Some?
      ==> r == Rejected(CheckHeader(DecodeHeader(file[..HEADER_SIZE])).value)
    ensures r.Loaded? ==> |r.program| == PROGRAM_MAX
    ensures r.Loaded? ==>
      && |file| >= HEADER_SIZE
      && CheckHeader(DecodeHeader(file[..HEADER_SIZE])) == None
      && r.size == DecodeHeader(file[..HEADER_SIZE]).programSize as int <= PROGRAM_MAX
  {
    if |file| < HEADER_SIZE then Rejected(ShortHeader)
    else LoadChecked(DecodeHeader(file[..HEADER_SIZE]), file[HEADER_SIZE..], program)
  }

  /** After the header has been read: its checks, then the two blocks. */
  function LoadChecked(h: Header, rest: seq<Byte>, program: seq<Inst>): (r: LoadResult)
    requires |program| == PROGRAM_MAX
    ensures r.Loaded? ==> CheckHeader(h) == None && r.size == h.programSize as int && |r.program| == PROGRAM_MAX
  {
    match CheckHeader(h)
    case Some(e) => Rejected(e)
    case None => LoadBlocks(h.programSize as int, h.memorySize as int, rest, program)
  }

  /** `program_size` instructions are read into the start of the array, all or nothing. */
  function LoadBlocks(n: int, memorySize: int, rest: seq<Byte>, program: seq<Inst>): (r: LoadResult)
    requires |program| == PROGRAM_MAX && 0 <= n <= PROGRAM_MAX
    ensures r.Loaded? ==> r.size == n && |r.program| == PROGRAM_MAX
  {
    if Fread(n, INST_SIZE, |rest|) != n then Rejected(ShortProgram)
    else
      assert INST_SIZE * n <= |rest|;
      LoadMemoryBlock(DecodeInsts(rest[..INST_SIZE * n]) + program[n..], n, memorySize, rest[INST_SIZE * n..])
  }

  /**
   * The memory block is read, as written, into the start of the instruction
   * array, with the instruction count as the byte count, and the bytes read
   * are compared with `memory_size`.
   */
  function LoadMemoryBlock(insts: seq<Inst>, n: int, memorySize: int, more: seq<Byte>): (r: LoadResult)
    requires |insts| == PROGRAM_MAX && 0 <= n <= PROGRAM_MAX
    ensures r.Loaded? ==> r.size == n && |r.program| == PROGRAM_MAX
  {
    var m := Fread(n, 1, |more|);
    if m != memorySize then Rejected(ShortMemory)
    else Loaded(Overwrite(insts, more[..m]), n)
  }

  /**
   * `LVM_save_program_to_file`: the header with the current instruction
   * count, the instructions, then `memory_size` bytes taken, as written, from
   * the start of the instruction array rather than from the memory. `after` is
   * what lies past the array in the host's memory, reached when
   * `memory_size` exceeds the array's bytes.
   */
  function SaveFile(program: seq<Inst>, size: Word, memorySize: Word, after: seq<Byte>): (f: seq<Byte>)
    requires |program| == PROGRAM_MAX && size as int <= PROGRAM_MAX
    requires memorySize as int <= INST_SIZE * PROGRAM_MAX + |after|
    ensures |f| == HEADER_SIZE + INST_SIZE * size as int + memorySize as int
  {
    EncodeHeader(Header(MAGIC, VERSION, size, memorySize))
      + EncodeInsts(program[..size])
      + (EncodeInsts(program) + after)[..memorySize]
  }

  /** A saved file is the header, the first `size` instruction images, then the array's bytes again. */
  lemma SaveLayout(program: seq<Inst>, size: Word, memorySize: Word, after: seq<Byte>)
    requires |program| == PROGRAM_MAX && size as int <= PROGRAM_MAX
    requires memorySize as int <= INST_SIZE * PROGRAM_MAX + |after|
    ensures DecodeHeader(SaveFile(program, size, memorySize, after)[..HEADER_SIZE])
      == Header(MAGIC, VERSION, size, memorySize)
    ensures SaveFile(program, size, memorySize, after)[HEADER_SIZE..]
      == EncodeInsts(program[..size]) + (EncodeInsts(program) + after)[..memorySize]
  {
    SaveHead(program, size, memorySize, after);
    DecodeEncodeHeader(Header(MAGIC, VERSION, size, memorySize));
  }

  lemma SaveHead(program: seq<Inst>, size: Word, memorySize: Word, after: seq<Byte>)
    requires |program| == PROGRAM_MAX && size as int <= PROGRAM_MAX
    requires memorySize as int <= INST_SIZE * PROGRAM_MAX + |after|
    ensures SaveFile(program, size, memorySize, after)[..HEADER_SIZE]
      == EncodeHeader(Header(MAGIC, VERSION, size, memorySize))
    ensures SaveFile(program, size, memorySize, after)[HEADER_SIZE..]
      == EncodeInsts(program[..size]) + (EncodeInsts(program) + after)[..memorySize]
  {
    var h := Header(MAGIC, VERSION, size, memorySize);
    Slices3(EncodeHeader(h), EncodeInsts(program[..size]), (EncodeInsts(program) + after)[..memorySize]);
  }

  /** A file whose header decodes to `h` is loaded by the checks on `h` over the rest. */
  lemma LoadFileIs(file: seq<Byte>, program: seq<Inst>, h: Header)
    requires |program| == PROGRAM_MAX && |file| >= HEADER_SIZE && DecodeHeader(file[..HEADER_SIZE]) == h
    ensures LoadFile(file, program) == LoadChecked(h, file[HEADER_SIZE..], program)
  {}

  /** A saved file's header passes the checks and is followed by its two blocks. */
  lemma LoadSaved(p: seq<Inst>, size: Word, memorySize: Word, after: seq<Byte>, q: seq<Inst>)
    requires |p| == PROGRAM_MAX && size as int <= PROGRAM_MAX && |q| == PROGRAM_MAX
    requires memorySize as int <= INST_SIZE * PROGRAM_MAX + |after| && memorySize as int <= MEMORY_MAX
    ensures LoadFile(SaveFile(p, size, memorySize, after), q)
      == LoadBlocks(size as int, memorySize as int, EncodeInsts(p[..size]) + (EncodeInsts(p) + after)[..memorySize], q)
  {
    var h := Header(MAGIC, VERSION, size, memorySize);
    SaveLayout(p, size, memorySize, after);
    LoadFileIs(SaveFile(p, size, memorySize, after), q, h);
  }

  /** The instruction block of a saved file is read whole and decodes to the saved instructions. */
  lemma LoadSavedBlocks(p: seq<Inst>, n: int, m: int, tail: seq<Byte>, q: seq<Inst>)
    requires |p| == PROGRAM_MAX && 0 <= n <= PROGRAM_MAX && |q| == PROGRAM_MAX
    ensures LoadBlocks(n, m, EncodeInsts(p[..n]) + tail, q) == LoadMemoryBlock(p[..n] + q[n..], n, m, tail)
  {
    var rest := EncodeInsts(p[..n]) + tail;
    assert rest[..INST_SIZE * n] == EncodeInsts(p[..n]);
    assert rest[INST_SIZE * n..] == tail;
    DecodeEncode(p[..n]);
  }

  /** Loading a saved file comes down to reading its memory block over the saved instructions. */
  lemma LoadSavedFile(p: seq<Inst>, size: Word, memorySize: Word, after: seq<Byte>, q: seq<Inst>)
    requires |p| == PROGRAM_MAX && size as int <= PROGRAM_MAX && |q| == PROGRAM_MAX
    requires memorySize as int <= INST_SIZE * PROGRAM_MAX + |after| && memorySize as int <= MEMORY_MAX
    ensures var n, m := size as int, memorySize as int;
      LoadFile(SaveFile(p, size, memorySize, after), q)
        == LoadMemoryBlock(p[..n] + q[n..], n, m, (EncodeInsts(p) + after)[..m])
  {
    var m := memorySize as int;
    LoadSaved(p, size, memorySize, after, q);
    LoadSavedBlocks(p, size as int, m, (EncodeInsts(p) + after)[..m], q);
  }

  /**
   * Saving and loading back gives the saved instructions over the reader's
   * stale tail, as long as the memory block is no longer than the instruction
   * count: its bytes are the start of the saved array and land on themselves.
   * The machine's memory is never restored.
   */
  lemma SaveThenLoad(p: seq<Inst>, size: Word, memorySize: Word, after: seq<Byte>, q: seq<Inst>)
    requires |p| == PROGRAM_MAX && size as int <= PROGRAM_MAX && |q| == PROGRAM_MAX
    requires memorySize as int <= size as int
    ensures var n := size as int;
      LoadFile(SaveFile(p, size, memorySize, after), q) == Loaded(p[..n] + q[n..], n)
  {
    var n, m := size as int, memorySize as int;
    LoadSavedFile(p, size, memorySize, after, q);
    SavedBlockLandsOnItself(p, n, m, after, q);
  }

  lemma SavedBlockLandsOnItself(p: seq<Inst>, n: int, m: int, after: seq<Byte>, q: seq<Inst>)
    requires |p| == PROGRAM_MAX && 0 <= m <= n <= PROGRAM_MAX && |q| == PROGRAM_MAX
    ensures LoadMemoryBlock(p[..n] + q[n..], n, m, (EncodeInsts(p) + after)[..m]) == Loaded(p[..n] + q[n..], n)
  {
    var block := (EncodeInsts(p) + after)[..m];
    MemoryBlockWhole(p[..n] + q[n..], n, m, block);
    assert block == EncodeInsts(p)[..m];
    OverwriteSelf(p, n, q, m);
  }

  /** The first `m <= n` bytes of the saved array are the first bytes of the loaded one. */
  lemma OverwriteSelf(p: seq<Inst>, n: int, q: seq<Inst>, m: int)
    requires |p| == PROGRAM_MAX && 0 <= m <= n <= PROGRAM_MAX && |q| == PROGRAM_MAX
    ensures Overwrite(p[..n] + q[n..], EncodeInsts(p)[..m]) == p[..n] + q[n..]
  {
    var insts := p[..n] + q[n..];
    EncodeAppend(p[..n], q[n..]);
    EncodePrefix(p, n);
    assert EncodeInsts(p)[..m] == EncodeInsts(insts)[..m];
    assert EncodeInsts(p)[..m] + EncodeInsts(insts)[m..] == EncodeInsts(insts);
    DecodeEncode(insts);
  }

  /**
   * The loader asks for as many memory bytes as there are instructions, so a
   * saved file whose memory block is longer than its instruction count is
   * refused.
   */
  lemma SaveThenLoadShort(p: seq<Inst>, size: Word, memorySize: Word, after: seq<Byte>, q: seq<Inst>)
    requires |p| == PROGRAM_MAX && size as int <= PROGRAM_MAX && |q| == PROGRAM_MAX
    requires size as int < memorySize as int <= INST_SIZE * PROGRAM_MAX + |after| && memorySize as int <= MEMORY_MAX
    ensures LoadFile(SaveFile(p, size, memorySize, after), q) == Rejected(ShortMemory)
  {
    LoadSavedFile(p, size, memorySize, after, q);
    SavedBlockShort(p, size as int, memorySize as int, after, q);
  }

  lemma SavedBlockShort(p: seq<Inst>, n: int, m: int, after: seq<Byte>, q: seq<Inst>)
    requires |p| == PROGRAM_MAX && 0 <= n < m <= INST_SIZE * PROGRAM_MAX + |after| && n <= PROGRAM_MAX && |q| == PROGRAM_MAX
    ensures LoadMemoryBlock(p[..n] + q[n..], n, m, (EncodeInsts(p) + after)[..m]) == Rejected(ShortMemory)
  {
    MemoryBlockShort(p[..n] + q[n..], n, m, (EncodeInsts(p) + after)[..m]);
  }

  /** Fewer memory bytes can be read than the header declares. */
  lemma MemoryBlockShort(insts: seq<Inst>, n: int, m: int, block: seq<Byte>)
    requires |insts| == PROGRAM_MAX && 0 <= n < m == |block| && n <= PROGRAM_MAX
    ensures LoadMemoryBlock(insts, n, m, block) == Rejected(ShortMemory)
  {}

  /** A memory block no longer than the instruction count is read whole. */
  lemma MemoryBlockWhole(insts: seq<Inst>, n: int, m: int, block: seq<Byte>)
    requires |insts| == PROGRAM_MAX && 0 <= m <= n <= PROGRAM_MAX && m == |block|
    ensures LoadMemoryBlock(insts, n, m, block) == Loaded(Overwrite(insts, block), n)
  {
    assert block[..m] == block;
  }

  /**
   * A file whose header `h` passes the checks and whose `n` instruction
   * images are all there: the memory block `more` after them is read over the
   * front of the array with the instruction count as the byte count, and a
   * read that does not come to `memory_size` is SHORT_MEMORY.
   */
  lemma LoadFileShortMemory(file: seq<Byte>, program: seq<Inst>, h: Header, more: seq<Byte>)
    requires |program| == PROGRAM_MAX && |file| >= HEADER_SIZE && h == DecodeHeader(file[..HEADER_SIZE])
    requires CheckHeader(h) == None
    requires |file| >= HEADER_SIZE + INST_SIZE * h.programSize as int
    requires more == file[HEADER_SIZE + INST_SIZE * h.programSize as int..]
    requires Fread(h.programSize as int, 1, |more|) != h.memorySize as int
    ensures LoadFile(file, program) == Rejected(ShortMemory)
  {
    var k := HEADER_SIZE + INST_SIZE * h.programSize as int;
    LoadFileBlocks(file, program, h, file[HEADER_SIZE..k], more);
  }

  /** The accepting case: the images, then the memory block over the front of them. */
  lemma LoadFileAccepted(file: seq<Byte>, program: seq<Inst>, h: Header, insts: seq<Byte>, more: seq<Byte>)
    requires |program| == PROGRAM_MAX && |file| >= HEADER_SIZE && h == DecodeHeader(file[..HEADER_SIZE])
    requires CheckHeader(h) == None
    requires |file| >= HEADER_SIZE + INST_SIZE * h.programSize as int
    requires insts == file[HEADER_SIZE..HEADER_SIZE + INST_SIZE * h.programSize as int]
    requires more == file[HEADER_SIZE + INST_SIZE * h.programSize as int..]
    requires Fread(h.programSize as int, 1, |more|) == h.memorySize as int
    ensures var n, m := h.programSize as int, h.memorySize as int;
      && m <= n && m <= |more| && |insts| == INST_SIZE * n
      && LoadFile(file, program) == Loaded(Overwrite(DecodeInsts(insts) + program[n..], more[..m]), n)
  {
    LoadFileBlocks(file, program, h, insts, more);
  }

  /** With the images all there, the load comes down to the memory block. */
  lemma LoadFileBlocks(file: seq<Byte>, program: seq<Inst>, h: Header, insts: seq<Byte>, more: seq<Byte>)
    requires |program| == PROGRAM_MAX && |file| >= HEADER_SIZE && h == DecodeHeader(file[..HEADER_SIZE])
    requires CheckHeader(h) == None
    requires |file| >= HEADER_SIZE + INST_SIZE * h.programSize as int
    requires insts == file[HEADER_SIZE..HEADER_SIZE + INST_SIZE * h.programSize as int]
    requires more == file[HEADER_SIZE + INST_SIZE * h.programSize as int..]
    ensures |insts| == INST_SIZE * h.programSize as int
    ensures LoadFile(file, program)
      == LoadMemoryBlock(DecodeInsts(insts) + program[h.programSize as int..], h.programSize as int, h.memorySize as int, more)
  {
    LoadFileIs(file, program, h);
    SliceAfter(file, HEADER_SIZE, INST_SIZE * h.programSize as int);
    LoadRest(h, file[HEADER_SIZE..], program, insts, more);
  }

  /** After a passing header, the `n` images and the memory block behind them. */
  lemma LoadRest(h: Header, rest: seq<Byte>, program: seq<Inst>, insts: seq<Byte>, more: seq<Byte>)
    requires |program| == PROGRAM_MAX && CheckHeader(h) == None
    requires INST_SIZE * h.programSize as int <= |rest|
    requires insts == rest[..INST_SIZE * h.programSize as int] && more == rest[INST_SIZE * h.programSize as int..]
    ensures LoadChecked(h, rest, program)
      == LoadMemoryBlock(DecodeInsts(insts) + program[h.programSize as int..], h.programSize as int, h.memorySize as int, more)
  {
    LoadCheckedPasses(h, rest, program);
    LoadBlocksWhole(h.programSize as int, h.memorySize as int, rest, program);
  }

  /** A header that passes its checks hands the rest of the file to the two block reads. */
  lemma LoadCheckedPasses(h: Header, rest: seq<Byte>, program: seq<Inst>)
    requires |program| == PROGRAM_MAX && CheckHeader(h) == None
    ensures LoadChecked(h, rest, program) == LoadBlocks(h.programSize as int, h.memorySize as int, rest, program)
  {}

  /** With all `n` images there, they are read and the rest is the memory block. */
  lemma LoadBlocksWhole(n: int, memorySize: int, rest: seq<Byte>, program: seq<Inst>)
    requires |program| == PROGRAM_MAX && 0 <= n <= PROGRAM_MAX && INST_SIZE * n <= |rest|
    ensures LoadBlocks(n, memorySize, rest, program)
      == LoadMemoryBlock(DecodeInsts(rest[..INST_SIZE * n]) + program[n..], n, memorySize, rest[INST_SIZE * n..])
  {
    assert Fread(n, INST_SIZE, |rest|) == n;
  }

  lemma SliceAfter<T>(s: seq<T>, i: nat, k: nat)
    requires i + k <= |s|
    ensures s[i..][..k] == s[i..i + k] && s[i..][k..] == s[i + k..]
  {}

  /** A file that passes the header checks but holds fewer instructions than it declares is refused. */
  lemma TruncatedProgram(file: seq<Byte>, program: seq<Inst>)
    requires |program| == PROGRAM_MAX && |file| >= HEADER_SIZE
    requires CheckHeader(DecodeHeader(file[..HEADER_SIZE])) == None
    requires |file| - HEADER_SIZE < INST_SIZE * DecodeHeader(file[..HEADER_SIZE]).programSize as int
    ensures LoadFile(file, program) == Rejected(ShortProgram)
  {}

  // ---------------------------------------------------------------------------
  // The machine in place

  /**
   * `LVM` with its arrays updated in place. Each `Exec...` method is one case
   * of the `switch` in `LVM_execute_operation`, the `lvm->ip++` after it
   * included, and is proved to do what the instruction function says.
   */
  class Machine {
    const stack: array<Word>
    var top: int
    const memory: array<Byte>
    const program: array<Inst>
    var size: int
    var ip: Word
    var hlt: bool
    var natives: seq<NativeFn>
    const fu: FloatUnit

    ghost predicate Valid()
      reads this
    {
      && stack.Length == STACK_MAX && memory.Length == MEMORY_MAX && program.Length == PROGRAM_MAX
      && 0 <= top <= STACK_MAX && 0 <= size <= PROGRAM_MAX && |natives| <= NATIVE_MAX
      && stack as object != program as object
    }

    /** The machine as a value, without its native table. */
    function Snapshot(): State
      requires Valid()
      reads this, stack, memory, program
    {
      Config(stack[..], top, memory[..], program[..], size, ip, hlt)
    }

    /** What the steps see of the host. */
    function Host(): Env
      reads this
    {
      Env(natives, fu)
    }

    /** A zero-initialised `LVM`, as the drivers declare it, with no native registered. */
    constructor(fu: FloatUnit)
      ensures Valid() && Snapshot() == Zeroed()
      ensures natives == [] && this.fu == fu
    {
      stack := new Word[STACK_MAX](_ => 0);
      memory := new Byte[MEMORY_MAX](_ => 0);
      program := new Inst[PROGRAM_MAX](_ => Inst(0, 0));
      top, size, ip, hlt := 0, 0, 0, false;
      natives := [];
      this.fu := fu;
      new;
      assert stack[..] == seq(STACK_MAX, _ => 0);
      assert memory[..] == seq(MEMORY_MAX, _ => 0);
      assert program[..] == seq(PROGRAM_MAX, _ => Inst(0, 0));
    }

    /** The `lvm->ip++` after the `switch`. */
    method Advance()
      requires Valid()
      modifies this
      ensures Valid() && natives == old(natives)
      ensures var s := old(Snapshot()); Snapshot() == s.(ip := s.ip + 1)
    {
      ip := ip + 1;
    }

    /** Slot `j` receives `v`, the stack size becomes `newTop`, and the machine advances. */
    method Put(j: int, v: Word, newTop: int)
      requires Valid() && 0 <= j < STACK_MAX && 0 <= newTop <= STACK_MAX
      modifies this, stack
      ensures Valid() && natives == old(natives)
      ensures var s := old(Snapshot()); Snapshot() == s.(stack := s.stack[j := v], top := newTop, ip := s.ip + 1)
    {
      stack[j] := v;
      top := newTop;
      ip := ip + 1;
    }

    /** The stack size becomes `newTop` and `ip` becomes `next`; the arrays stay. */
    method Move(newTop: int, next: Word)
      requires Valid() && 0 <= newTop <= STACK_MAX
      modifies this
      ensures Valid() && natives == old(natives)
      ensures var s := old(Snapshot()); Snapshot() == s.(top := newTop, ip := next)
    {
      top := newTop;
      ip := next;
    }

    method ExecNop() returns (t: Trap)
      requires Valid()
      modifies this
      ensures Valid() && natives == old(natives)
      ensures Outcome(Snapshot(), t) == Next(old(Snapshot()))
    {
      Advance();
      t := Ok;
    }

    method ExecPush(w: Word) returns (t: Trap)
      requires Valid()
      modifies this, stack
      ensures Valid() && natives == old(natives)
      ensures Outcome(Snapshot(), t) == PushInst(old(Snapshot()), w)
    {
      PushEffect(Snapshot(), w);
      if top >= STACK_MAX {
        return StackOverflow;
      }
      Put(top, w, top + 1);
      t := Ok;
    }

    /** POP, and PRINT_DEBUG without its printing. */
    method ExecPop() returns (t: Trap)
      requires Valid()
      modifies this
      ensures Valid() && natives == old(natives)
      ensures Outcome(Snapshot(), t) == PopInst(old(Snapshot()))
    {
      PopEffect(Snapshot());
      if top < 1 {
        return StackUnderflow;
      }
      Move(top - 1, ip + 1);
      t := Ok;
    }

    method ExecDup(k: Word) returns (t: Trap)
      requires Valid()
      modifies this, stack
      ensures Valid() && natives == old(natives)
      ensures Outcome(Snapshot(), t) == DupInst(old(Snapshot()), k)
    {
      if k & SIGN_BIT != 0 || k as int >= top {
        return IllegalOperand;
      }
      if top >= STACK_MAX {
        return StackOverflow;
      }
      t := DupChecked(k);
    }

    /** DUP past its first two checks: the unsigned depth check, then the copy. */
    method DupChecked(k: Word) returns (t: Trap)
      requires Valid() && k & SIGN_BIT == 0 && k as int < top < STACK_MAX
      modifies this, stack
      ensures Valid() && natives == old(natives)
      ensures Outcome(Snapshot(), t) == DupInst(old(Snapshot()), k)
    {
      if Wrap(top - k as int) == 0 {
        return StackUnderflow;
      }
      Put(top, stack[top - 1 - k as int], top + 1);
      t := Ok;
    }

    method ExecSwap(k: Word) returns (t: Trap)
      requires Valid()
      modifies this, stack
      ensures Valid() && natives == old(natives)
      ensures Outcome(Snapshot(), t) == SwapInst(old(Snapshot()), k)
    {
      if top < 2 {
        return StackUnderflow;
      }
      t := SwapChecked(k);
    }

    /** SWAP past its underflow check: the two wrapped indices, then the exchange. */
    method SwapChecked(k: Word) returns (t: Trap)
      requires Valid() && 2 <= top
      modifies this, stack
      ensures Valid() && natives == old(natives)
      ensures Outcome(Snapshot(), t) == SwapInst(old(Snapshot()), k)
    {
      var i, j := SwapSlot(top, k, 1), SwapSlot(top, k, 2);
      if i >= STACK_MAX || j >= STACK_MAX {
        return StackUnderflow;
      }
      SwapAt(Snapshot(), k, i, j);
      Exchange(i, j);
      t := Ok;
    }

    /** The exchange of slots `i` and `j`, then the advance. */
    method Exchange(i: int, j: int)
      requires Valid() && 0 <= i < STACK_MAX && 0 <= j < STACK_MAX
      modifies this, stack
      ensures Valid() && natives == old(natives)
      ensures var s := old(Snapshot()); Snapshot() == s.(stack := s.stack[i := s.stack[j]][j := s.stack[i]], ip := s.ip + 1)
    {
      var tmp := stack[i];
      stack[i] := stack[j];
      stack[j] := tmp;
      ip := ip + 1;
    }

    method ExecUnary(op: UnOp) returns (t: Trap)
      requires Valid()
      modifies this, stack
      ensures Valid() && natives == old(natives)
      ensures Outcome(Snapshot(), t) == UnaryInst(old(Snapshot()), op, fu)
    {
      UnaryEffect(Snapshot(), op, fu);
      if top < 1 {
        return StackUnderflow;
      }
      Put(top - 1, Unary(op, stack[top - 1], fu), top);
      t := Ok;
    }

    method ExecBinary(op: BinOp) returns (t: Trap)
      requires Valid()
      modifies this, stack
      ensures Valid() && natives == old(natives)
      ensures Outcome(Snapshot(), t) == BinaryInst(old(Snapshot()), op, fu)
    {
      BinaryEffect(Snapshot(), op, fu);
      if top < 2 {
        return StackUnderflow;
      }
      var r := Binary(op, stack[top - 2], stack[top - 1], fu);
      if r.None? {
        return DivByZero;
      }
      Put(top - 2, r.value, top - 1);
      t := Ok;
    }

    /** The return address pushed is the CALL's own; `ip` is set one before the target. */
    method ExecCall(target: Word) returns (t: Trap)
      requires Valid()
      modifies this, stack
      ensures Valid() && natives == old(natives)
      ensures Outcome(Snapshot(), t) == CallInst(old(Snapshot()), target)
    {
      CallEffect(Snapshot(), target);
      if top >= STACK_MAX {
        return StackOverflow;
      }
      var back := ip;
      ip := target - 1;
      Put(top, back, top + 1);
      t := Ok;
    }

    /** Replaces the whole machine but its native table with `st`, as a native's effect. */
    method Assign(st: State)
      requires Valid()
      modifies this, stack, memory, program
      ensures Valid() && natives == old(natives)
      ensures Snapshot() == st
    {
      forall i | 0 <= i < STACK_MAX {
        stack[i] := st.stack[i];
      }
      forall i | 0 <= i < MEMORY_MAX {
        memory[i] := st.memory[i];
      }
      forall i | 0 <= i < PROGRAM_MAX {
        program[i] := st.program[i];
      }
      top, size, ip, hlt := st.top, st.size, st.ip, st.hlt;
      assert stack[..] == st.stack;
      assert memory[..] == st.memory;
      assert program[..] == st.program;
    }

    method ExecNative(k: Word) returns (t: Trap)
      requires Valid()
      modifies this, stack, memory, program
      ensures Valid() && natives == old(natives)
      ensures Outcome(Snapshot(), t) == NativeInst(old(Snapshot()), old(Host()), k)
    {
      if top < 1 {
        return StackUnderflow;
      }
      if k as int >= |natives| {
        return IllegalOperand;
      }
      var o := natives[k as int].call(Snapshot());
      Assign(o.state);
      Advance();
      t := o.trap;
    }

    method ExecReturn() returns (t: Trap)
      requires Valid()
      modifies this
      ensures Valid() && natives == old(natives)
      ensures Outcome(Snapshot(), t) == ReturnInst(old(Snapshot()))
    {
      ReturnEffect(Snapshot());
      if top < 1 {
        return StackUnderflow;
      }
      Move(top - 1, stack[top - 1] + 1);
      t := Ok;
    }

    method ExecJmp(target: Word) returns (t: Trap)
      requires Valid()
      modifies this
      ensures Valid() && natives == old(natives)
      ensures Outcome(Snapshot(), t) == Next(old(Snapshot()).(ip := target - 1))
    {
      ip := target - 1;
      Advance();
      t := Ok;
    }

    method ExecJmpIf(target: Word) returns (t: Trap)
      requires Valid()
      modifies this
      ensures Valid() && natives == old(natives)
      ensures Outcome(Snapshot(), t) == JmpIfInst(old(Snapshot()), target)
    {
      JmpIfEffect(Snapshot(), target);
      if top < 1 {
        return StackUnderflow;
      }
      if stack[top - 1] != 0 {
        Move(top - 1, target);
      } else {
        Move(top, ip + 1);
      }
      t := Ok;
    }

    method ExecRead(w: Width) returns (t: Trap)
      requires Valid()
      modifies this, stack
      ensures Valid() && natives == old(natives)
      ensures Outcome(Snapshot(), t) == ReadInst(old(Snapshot()), w)
    {
      if top < 1 {
        return StackUnderflow;
      }
      ReadEffect(Snapshot(), w);
      var addr := stack[top - 1] as int;
      if addr >= MEMORY_MAX - (Size(w) - 1) {
        return IllegalOpAccess;
      }
      Put(top - 1, Load(memory[..], addr, Size(w)), top);
      t := Ok;
    }

    method ExecWrite(w: Width) returns (t: Trap)
      requires Valid()
      modifies this, memory
      ensures Valid() && natives == old(natives)
      ensures Outcome(Snapshot(), t) == WriteInst(old(Snapshot()), w)
    {
      if top < 2 {
        return StackUnderflow;
      }
      t := WriteChecked(w);
    }

    /** The address is popped before it is checked, the value after. */
    method WriteChecked(w: Width) returns (t: Trap)
      requires Valid() && top >= 2
      modifies this, memory
      ensures Valid() && natives == old(natives)
      ensures Outcome(Snapshot(), t) == WriteInst(old(Snapshot()), w)
    {
      WriteEffect(Snapshot(), w);
      var addr, v := stack[top - 1] as int, stack[top - 2];
      if addr >= MEMORY_MAX - (Size(w) - 1) {
        Move(top - 1, ip);
        return IllegalOpAccess;
      }
      WriteAt(w, addr, v);
      t := Ok;
    }

    /** Both pops, then the store of `v` at `addr` and the advance. */
    method WriteAt(w: Width, addr: int, v: Word)
      requires Valid() && 2 <= top && 0 <= addr < MEMORY_MAX - (Size(w) - 1)
      modifies this, memory
      ensures Valid() && natives == old(natives)
      ensures var s := old(Snapshot());
        Snapshot() == s.(top := s.top - 2, memory := Store(s.memory, addr, Size(w), v), ip := s.ip + 1)
    {
      Move(top - 2, ip);
      StoreBytes(addr, Size(w), v);
    }

    /** The store `*(uintW_t*)&memory[addr] = v`, byte by byte, then the advance. */
    method StoreBytes(addr: int, n: nat, v: Word)
      requires Valid() && 0 <= addr && addr + n <= MEMORY_MAX && n <= 8
      modifies this, memory
      ensures Valid() && natives == old(natives)
      ensures var s := old(Snapshot()); Snapshot() == s.(memory := Store(s.memory, addr, n, v), ip := s.ip + 1)
    {
      ghost var before := memory[..];
      var bs := Bytes(v, n);
      forall i | 0 <= i < n {
        memory[addr + i] := bs[i];
      }
      StoreEffect(before, addr, n, v);
      assert forall i :: addr <= i < addr + n ==> Store(before, addr, n, v)[i] == Store(before, addr, n, v)[addr..addr + n][i - addr];
      assert memory[..] == Store(before, addr, n, v);
      ip := ip + 1;
    }

    method ExecHlt() returns (t: Trap)
      requires Valid()
      modifies this
      ensures Valid() && natives == old(natives)
      ensures Outcome(Snapshot(), t) == Next(old(Snapshot()).(hlt := true))
    {
      hlt := true;
      Advance();
      t := Ok;
    }

    /** The `switch` of `LVM_execute_operation` on a decoded operation. */
    method ExecuteOp(op: Op, operand: Word) returns (t: Trap)
      requires Valid()
      modifies this, stack, memory, program
      ensures Valid() && natives == old(natives)
      ensures Outcome(Snapshot(), t) == Execute(old(Snapshot()), old(Host()), op, operand)
    {
      if op.Un? || op.Bin? {
        t := ExecArith(op);
      } else if op.Read? || op.Write? {
        t := ExecMemory(op);
      } else if op.Call? || op.Native? || op.Return? || op.Jmp? || op.JmpIf? {
        t := ExecControl(op, operand);
      } else {
        t := ExecStack(op, operand);
      }
    }

    method ExecArith(op: Op) returns (t: Trap)
      requires Valid() && (op.Un? || op.Bin?)
      modifies this, stack
      ensures Valid() && natives == old(natives)
      ensures Outcome(Snapshot(), t) == Execute(old(Snapshot()), old(Host()), op, 0)
    {
      if op.Un? {
        t := ExecUnary(op.u);
      } else {
        t := ExecBinary(op.b);
      }
    }

    method ExecMemory(op: Op) returns (t: Trap)
      requires Valid() && (op.Read? || op.Write?)
      modifies this, stack, memory
      ensures Valid() && natives == old(natives)
      ensures Outcome(Snapshot(), t) == Execute(old(Snapshot()), old(Host()), op, 0)
    {
      if op.Read? {
        t := ExecRead(op.rw);
      } else {
        t := ExecWrite(op.ww);
      }
    }

    method ExecControl(op: Op, operand: Word) returns (t: Trap)
      requires Valid() && (op.Call? || op.Native? || op.Return? || op.Jmp? || op.JmpIf?)
      modifies this, stack, memory, program
      ensures Valid() && natives == old(natives)
      ensures Outcome(Snapshot(), t) == Execute(old(Snapshot()), old(Host()), op, operand)
    {
      match op
      case Call =>
        t := ExecCall(operand);
      case Native =>
        t := ExecNative(operand);
      case Return =>
        t := ExecReturn();
      case Jmp =>
        t := ExecJmp(operand);
      case JmpIf =>
        t := ExecJmpIf(operand);
    }

    /** NOP, PUSH, POP, DUP, SWAP, HLT and PRINT_DEBUG. */
    method ExecStack(op: Op, operand: Word) returns (t: Trap)
      requires Valid() && (op.Nop? || op.Push? || op.Pop? || op.Dup? || op.Swap? || op.Hlt? || op.PrintDebug?)
      modifies this, stack
      ensures Valid() && natives == old(natives)
      ensures Outcome(Snapshot(), t) == Execute(old(Snapshot()), old(Host()), op, operand)
    {
      match op
      case Nop =>
        t := ExecNop();
      case Push =>
        t := ExecPush(operand);
      case Pop =>
        t := ExecPop();
      case Dup =>
        t := ExecDup(operand);
      case Swap =>
        t := ExecSwap(operand);
      case Hlt =>
        t := ExecHlt();
      case PrintDebug =>
        t := ExecPop();
    }

    /** `LVM_execute_operation`: fetch the operation under `ip`, checked against the count, and run it. */
    method ExecuteOperation() returns (t: Trap)
      requires Valid()
      modifies this, stack, memory, program
      ensures Valid() && natives == old(natives)
      ensures Outcome(Snapshot(), t) == Step(old(Snapshot()), old(Host()))
    {
      if ip as int >= size {
        return IllegalOpAccess;
      }
      var inst := program[ip as int];
      match OpOf(inst.code)
      case None =>
        t := IllegalOp;
      case Some(op) =>
        t := ExecuteOp(op, inst.operand);
    }

    /** `LVM_execute_program`; a negative limit runs until halted, cut off after `fuel` steps. */
    method ExecuteProgram(limit: int, fuel: nat) returns (t: Trap)
      requires Valid()
      modifies this, stack, memory, program
      ensures Valid() && natives == old(natives)
      ensures var r := RunOf(old(Snapshot()), old(Host()), limit, fuel);
        Snapshot() == r.state && t == r.trap
    {
      ghost var env := Host();
      ghost var r := RunOf(Snapshot(), env, limit, fuel);
      var l, f := limit, fuel;
      while l != 0 && !hlt && (l > 0 || f > 0)
        invariant Valid() && natives == old(natives) && Host() == env
        invariant RunOf(Snapshot(), env, l, f).state == r.state
        invariant RunOf(Snapshot(), env, l, f).trap == r.trap
        decreases if l > 0 then l else 0, f
      {
        RunUnfold(Snapshot(), env, l, f);
        t := ExecuteOperation();
        if t != Ok {
          return;
        }
        l, f := NextLimit(l), NextFuel(l, f);
      }
      RunNothing(Snapshot(), env, l, f);
      t := Ok;
    }

    /** `LVM_push_native`, which asserts that the table has room. */
    method PushNative(native: NativeFn)
      requires Valid() && |natives| < NATIVE_MAX
      modifies this
      ensures Valid() && natives == old(natives) + [native]
      ensures Snapshot() == old(Snapshot())
    {
      natives := natives + [native];
    }

    /** `LVM_load_program_from_memory`. */
    method LoadProgramFromMemory(insts: seq<Inst>)
      requires Valid() && |insts| < PROGRAM_MAX
      modifies this, program
      ensures Valid() && natives == old(natives)
      ensures Snapshot() == LoadFromMemory(old(Snapshot()), insts)
    {
      ghost var before := program[..];
      forall i | 0 <= i < |insts| {
        program[i] := insts[i];
      }
      size := |insts|;
      assert program[..] == insts + before[|insts|..];
    }

    /**
     * `LVM_load_program_from_file` on the file's bytes. The C function prints
     * the reason and exits on each error; here the reason is returned and the
     * machine is left as it was.
     */
    method LoadProgramFromFile(file: seq<Byte>) returns (err: Option<FileError>)
      requires Valid()
      modifies this, program
      ensures Valid() && natives == old(natives)
      ensures var r := LoadFile(file, old(Snapshot()).program);
        && (r.Rejected? ==> err == Some(r.error) && Snapshot() == old(Snapshot()))
        && (r.Loaded? ==> err == None && Snapshot() == old(Snapshot()).(program := r.program, size := r.size))
    {
      var r := LoadFile(file, program[..]);
      if r.Rejected? {
        return Some(r.error);
      }
      forall i | 0 <= i < PROGRAM_MAX {
        program[i] := r.program[i];
      }
      size := r.size;
      assert program[..] == r.program;
      err := None;
    }

    /** `LVM_save_program_to_file`: the three `fwrite`s, `after` standing for the host memory past the array. */
    method SaveProgramToFile(memorySize: Word, after: seq<Byte>) returns (f: seq<Byte>)
      requires Valid() && memorySize as int <= INST_SIZE * PROGRAM_MAX + |after|
      ensures f == SaveFile(program[..], WordOf(size), memorySize, after)
    {
      f := EncodeHeader(Header(MAGIC, VERSION, WordOf(size), memorySize));
      f := f + EncodeInsts(program[..size]);
      f := f + (EncodeInsts(program[..]) + after)[..memorySize];
    }
  }
}
