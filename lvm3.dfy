/**
 * The newest generation of the VM (`lvm/src/lvm.h`): a machine with a
 * 1024-word operand stack, a 640 000-byte memory, a program given as an
 * instruction array plus a memory image, and a native table. Every operand of
 * every instruction, jump targets included, comes off the stack.
 *
 * The first part defines the step semantics as functions on a `State` value;
 * the lemmas after it state what each instruction does. The `Machine` class at
 * the end is the in-place implementation, whose methods are proved to follow
 * those functions.
 */
module Lvm3 {
  import opened Words
  import opened Alu
  import opened Bytecode
  import opened Runs

  datatype Trap =
    | Ok
    | IllegalInst
    | IllegalInstAccess
    | IllegalOperand
    | StackOverflow
    | StackUnderflow
    | DivByZero
    | IllegalMemoryAccess

  /** The instruction set, grouped by how an instruction uses the stack. */
  datatype Op =
    | Nop
    | Push
    | Pop
    | Dup
    | Swap
    | Un(u: UnOp)
    | Bin(b: BinOp)
    | Call
    | Native
    | Return
    | Jmp
    | Jz
    | Jnz
    | Read(rw: Width)
    | Write(ww: Width)
    | Hlt
    | PrintDebug

  /**
   * `lvm_InstType` values 1 to 32 (`LVM_INST_NOP` to `LVM_INST_STF`): the
   * instruction each stands for. STx and SEx are "smaller than" and "smaller
   * or equal".
   */
  const LOW_INSTS: seq<Op> := [
    Nop, Push, Pop, Dup, Swap,
    Un(IncI), Un(IncF), Un(DecI), Un(DecF),
    Bin(AddI), Bin(AddF), Bin(SubI), Bin(SubF), Bin(MulI), Bin(MulF),
    Bin(DivI), Bin(DivU), Bin(DivF), Bin(ModI), Bin(ModU), Bin(ModF),
    Bin(Eq), Bin(Neq),
    Bin(GtI), Bin(GtU), Bin(GtF), Bin(GeI), Bin(GeU), Bin(GeF),
    Bin(LtI), Bin(LtU), Bin(LtF)]

  /**
   * Values 33 to 64 (`LVM_INST_SEI` to `LVM_INST_PRINT_DEBUG`). F2U converts
   * through `int64_t`, as F2I does.
   */
  const HIGH_INSTS: seq<Op> := [
    Bin(LeI), Bin(LeU), Bin(LeF),
    Bin(And), Un(Not), Bin(Or), Bin(AndB), Un(NotB), Bin(OrB), Bin(Xor), Bin(Shl), Bin(ShrU),
    Call, Native, Return, Jmp, Jz, Jnz,
    Un(I2F), Un(U2F), Un(F2I), Un(F2I),
    Read(W8), Read(W16), Read(W32), Read(W64),
    Write(W8), Write(W16), Write(W32), Write(W64),
    Hlt, PrintDebug]

  /** `LVM_MAX_INSTS`: the first value that is not an instruction. */
  const MAX_INSTS: bv32 := 65

  /** The `switch` on `inst.type`: `None` for `LVM_INST_ILLEGAL` and every value outside the enumeration. */
  function OpOf(code: bv32): Option<Op>
  {
    if code == 0 || code >= MAX_INSTS then None
    else if code <= 32 then Some(LOW_INSTS[code as int - 1])
    else Some(HIGH_INSTS[code as int - 33])
  }

  // ---------------------------------------------------------------------------
  // Programs and machine state

  /** `lvm_Program`: the instructions and the initial memory image. */
  datatype Program = Program(insts: seq<Inst>, memory: seq<Byte>)

  predicate ValidProgram(p: Program)
  {
    |p.memory| <= MEMORY_MAX
  }

  /** `lvm_create_program`, which asserts that the memory image fits the memory. */
  function CreateProgram(insts: seq<Inst>, memory: seq<Byte>): (p: Program)
    requires |memory| <= MEMORY_MAX
    ensures ValidProgram(p) && p.insts == insts && p.memory == memory
  {
    Program(insts, memory)
  }

  /**
   * `lvm_Machine` without its native table: the whole stack array (slots at
   * and above `top` keep stale values), the stack size, the memory, the loaded
   * program, the instruction pointer and the halt flag.
   */
  datatype Config = Config(stack: seq<Word>, top: int, memory: seq<Byte>, program: Program, ip: Word, hlt: bool)

  predicate WF(c: Config)
  {
    |c.stack| == STACK_MAX && 0 <= c.top <= STACK_MAX && |c.memory| == MEMORY_MAX
  }

  /** A machine whose arrays have their sizes and whose stack size is in range. */
  type State = c: Config | WF(c)
    witness Config(seq(STACK_MAX, _ => 0), 0, seq(MEMORY_MAX, _ => 0), Program([], []), 0, false)

  /** A native callback: a host function of the whole machine that returns a trap. */
  datatype NativeFn = NativeFn(call: State -> Outcome<State, Trap>)

  /** What the host supplies: the installed natives and its floating point. */
  datatype Env = Env(natives: seq<NativeFn>, fu: FloatUnit)

  // ---------------------------------------------------------------------------
  // The stack helpers

  /** `lvm_machine_stack_push`. */
  function StackPush(s: State, w: Word): (o: Outcome<State, Trap>)
    ensures o.trap == Ok || o.trap == StackOverflow
    ensures o.trap == StackOverflow <==> s.top >= STACK_MAX
    ensures o.trap == Ok ==> o.state == s.(stack := s.stack[s.top := w], top := s.top + 1)
    ensures o.trap != Ok ==> o.state == s
  {
    if s.top >= STACK_MAX then Outcome(s, StackOverflow)
    else Outcome(s.(stack := s.stack[s.top := w], top := s.top + 1), Ok)
  }

  /** The state, the word taken off and the trap of `lvm_machine_stack_pop`. */
  datatype Popped = Popped(state: State, value: Word, trap: Trap)

  /** `lvm_machine_stack_pop` with a destination. */
  function StackPop(s: State): (p: Popped)
    ensures p.trap == Ok || p.trap == StackUnderflow
    ensures p.trap == StackUnderflow <==> s.top < 1
    ensures p.trap == Ok ==> p.state == s.(top := s.top - 1) && p.value == s.stack[s.top - 1]
    ensures p.trap != Ok ==> p.state == s
  {
    if s.top < 1 then Popped(s, 0, StackUnderflow)
    else Popped(s.(top := s.top - 1), s.stack[s.top - 1], Ok)
  }

  /** `lvm_machine_stack_pop` with a NULL destination: only the check. */
  function StackDrop(s: State): (o: Outcome<State, Trap>)
    ensures o.state == s
    ensures o.trap == StackUnderflow <==> s.top < 1
    ensures o.trap == Ok || o.trap == StackUnderflow
  {
    if s.top < 1 then Outcome(s, StackUnderflow) else Outcome(s, Ok)
  }

  /** `lvm_machine_advance`, done only after an instruction succeeded. */
  function AdvanceIfOk(o: Outcome<State, Trap>): Outcome<State, Trap>
  {
    if o.trap == Ok then Outcome(o.state.(ip := o.state.ip + 1), Ok) else o
  }

  /** Two pops from a stack of at least two words take the top and the word under it. */
  lemma TwoPops(s: State)
    requires s.top >= 2
    ensures var pa := StackPop(s); var pb := StackPop(pa.state);
      && pa.trap == Ok && pb.trap == Ok && pb.state == s.(top := s.top - 2)
      && pa.value == s.stack[s.top - 1] && pb.value == s.stack[s.top - 2]
  {}

  /** A push followed by a pop gives back the pushed word and the old size. */
  lemma PushThenPop(s: State, w: Word)
    requires s.top < STACK_MAX
    ensures var p := StackPop(StackPush(s, w).state);
      p.trap == Ok && p.value == w && p.state == s.(stack := s.stack[s.top := w])
  {}

  /** Pushing 1025 words overflows on the last one: a full stack refuses a push. */
  lemma PushFull(s: State, w: Word)
    requires s.top == STACK_MAX
    ensures StackPush(s, w) == Outcome(s, StackOverflow)
  {}

  // ---------------------------------------------------------------------------
  // Instruction families

  /** `lvm_Unary_Inst` and `lvm_Cast_Inst`: pop one word, push its transform. */
  function UnaryInst(s: State, op: UnOp, fu: FloatUnit): (o: Outcome<State, Trap>)
  {
    var p := StackPop(s);
    if p.trap != Ok then Outcome(p.state, p.trap)
    else AdvanceIfOk(StackPush(p.state, Unary(op, p.value, fu)))
  }

  /** `lvm_Binary_Inst`: pop A (the top), pop B, push `A OP B`. */
  function BinaryInst(s: State, op: BinOp, fu: FloatUnit): (o: Outcome<State, Trap>)
  {
    var pa := StackPop(s);
    if pa.trap != Ok then Outcome(pa.state, pa.trap)
    else
      var pb := StackPop(pa.state);
      if pb.trap != Ok then Outcome(pb.state, pb.trap)
      else PushResult(pb.state, Binary(op, pa.value, pb.value, fu))
  }

  /** The end of `lvm_Binary_Inst`: push the result and advance; a division by zero stops it. */
  function PushResult(s: State, r: Option<Word>): (o: Outcome<State, Trap>)
  {
    match r
    case None => Outcome(s, DivByZero)
    case Some(v) => AdvanceIfOk(StackPush(s, v))
  }

  /** DUP: pop the top and push it twice. */
  function DupInst(s: State): (o: Outcome<State, Trap>)
  {
    var p := StackPop(s);
    if p.trap != Ok then Outcome(p.state, p.trap)
    else
      var o1 := StackPush(p.state, p.value);
      if o1.trap != Ok then o1 else AdvanceIfOk(StackPush(o1.state, p.value))
  }

  /** The SWAP guard `top < 2 || (size_t)(top - 2 - k) > top`, with `size_t` wrap-around. */
  predicate SwapRefused(top: int, k: Word)
  {
    top < 2 || SwapSlot(top, k) > top
  }

  /** `(size_t)(top - 2 - k)`: slot `top - 1 - k` of the stack once its top is popped. */
  function SwapSlot(top: int, k: Word): int
  {
    (top - 2 - k as int) % TWO_64
  }

  /**
   * SWAP k: pop a, fetch b from slot `top - 1 - k` of the smaller stack, store a
   * there and push b, the slot computed in `size_t` arithmetic. A slot outside
   * the array is undefined behaviour in C; the model refuses it with
   * STACK_UNDERFLOW and no change.
   */
  function SwapInst(s: State, k: Word): (o: Outcome<State, Trap>)
  {
    if SwapRefused(s.top, k) || SwapSlot(s.top, k) >= STACK_MAX then Outcome(s, StackUnderflow)
    else
      var p := StackPop(s);
      var j := SwapSlot(s.top, k);
      var b := p.state.stack[j];
        AdvanceIfOk(StackPush(p.state.(stack := p.state.stack[j := p.value]), b))
  }

  /** CALL: pop the target, jump to it and push the address after the CALL. */
  function CallInst(s: State): (o: Outcome<State, Trap>)
  {
    var p := StackPop(s);
    if p.trap != Ok then Outcome(p.state, p.trap)
    else StackPush(p.state.(ip := p.value), s.ip + 1)
  }

  /** RETURN and JMP: pop the target and continue there, with no advance. */
  function JumpInst(s: State): (o: Outcome<State, Trap>)
  {
    var p := StackPop(s);
    if p.trap != Ok then Outcome(p.state, p.trap)
    else Outcome(p.state.(ip := p.value), Ok)
  }

  /** JZ (`onZero`) and JNZ: pop the target, then the condition. */
  function BranchInst(s: State, onZero: bool): (o: Outcome<State, Trap>)
  {
    var pa := StackPop(s);
    if pa.trap != Ok then Outcome(pa.state, pa.trap)
    else
      var pc := StackPop(pa.state);
      if pc.trap != Ok then Outcome(pc.state, pc.trap)
      else BranchOn(pc.state, pa.value, pc.value, onZero)
  }

  /** The jump of JZ and JNZ once both words are popped: taken, or the advance. */
  function BranchOn(s: State, target: Word, cond: Word, onZero: bool): (o: Outcome<State, Trap>)
  {
    if (cond == 0) == onZero then Outcome(s.(ip := target), Ok)
    else Outcome(s.(ip := s.ip + 1), Ok)
  }

  /**
   * NATIVE: pop the index and call that native on the machine, then advance
   * whatever it returned. An index with no native installed is a NULL call or a
   * failed assertion in C; the model returns ILLEGAL_OPERAND.
   */
  function NativeInst(s: State, env: Env): (o: Outcome<State, Trap>)
  {
    var p := StackPop(s);
    if p.trap != Ok then Outcome(p.state, p.trap)
    else if p.value as int >= |env.natives| then Outcome(p.state, IllegalOperand)
    else
      var o := env.natives[p.value as int].call(p.state);
      Outcome(o.state.(ip := o.state.ip + 1), o.trap)
  }

  /** `lvm_Memory_Read_Inst`: pop the address and push the single byte stored there. */
  function ReadInst(s: State, w: Width): (o: Outcome<State, Trap>)
  {
    var p := StackPop(s);
    if p.trap != Ok then Outcome(p.state, p.trap)
    else LoadChecked(p.state, w, p.value)
  }

  /** The bounds check of `lvm_Memory_Read_Inst`, the push of the byte and the advance. */
  function LoadChecked(s: State, w: Width, addr: Word): (o: Outcome<State, Trap>)
  {
    if addr as int >= MEMORY_MAX - (Size(w) - 1) then Outcome(s, IllegalMemoryAccess)
    else AdvanceIfOk(StackPush(s, s.memory[addr as int] as Word))
  }

  /** `lvm_Memory_Write_Inst`: pop the value, pop the address, store the low bytes. */
  function WriteInst(s: State, w: Width): (o: Outcome<State, Trap>)
  {
    var pv := StackPop(s);
    if pv.trap != Ok then Outcome(pv.state, pv.trap)
    else
      var pa := StackPop(pv.state);
      if pa.trap != Ok then Outcome(pa.state, pa.trap)
      else StoreChecked(pa.state, w, pa.value, pv.value)
  }

  /** The bounds check and the store of `lvm_Memory_Write_Inst`, then the advance. */
  function StoreChecked(s: State, w: Width, addr: Word, v: Word): (o: Outcome<State, Trap>)
  {
    if addr as int >= MEMORY_MAX - Size(w) then Outcome(s, IllegalMemoryAccess)
    else Outcome(s.(memory := Store(s.memory, addr as int, Size(w), v), ip := s.ip + 1), Ok)
  }

  /** One instruction, the body of the `switch` in `lvm_machine_execute_inst`. */
  function Execute(s: State, env: Env, op: Op, operand: Word): (o: Outcome<State, Trap>)
  {
    match op
    case Nop => AdvanceIfOk(Outcome(s, Ok))
    case Push => AdvanceIfOk(StackPush(s, operand))
    case Pop => AdvanceIfOk(StackDrop(s))
    case Dup => DupInst(s)
    case Swap => SwapInst(s, operand)
    case Un(u) => UnaryInst(s, u, env.fu)
    case Bin(b) => BinaryInst(s, b, env.fu)
    case Call => CallInst(s)
    case Native => NativeInst(s, env)
    case Return => JumpInst(s)
    case Jmp => JumpInst(s)
    case Jz => BranchInst(s, true)
    case Jnz => BranchInst(s, false)
    case Read(w) => ReadInst(s, w)
    case Write(w) => WriteInst(s, w)
    case Hlt => Outcome(s.(hlt := true), Ok)
    case PrintDebug => var p := StackPop(s); AdvanceIfOk(Outcome(p.state, p.trap))
  }

  /** The instruction under `ip`, if `ip` is inside the program. */
  predicate InProgram(s: State)
  {
    s.ip as int < |s.program.insts|
  }

  /**
   * `lvm_machine_execute_inst`. The C code fetches `insts[ip]` with no bounds
   * check; the model reports a fetch outside the program as
   * ILLEGAL_INST_ACCESS, with no change.
   */
  function Step(s: State, env: Env): (o: Outcome<State, Trap>)
    ensures !InProgram(s) ==> o == Outcome(s, IllegalInstAccess)
  {
    if !InProgram(s) then Outcome(s, IllegalInstAccess)
    else
      var inst := s.program.insts[s.ip as int];
      match OpOf(inst.code)
      case None => Outcome(s, IllegalInst)
      case Some(op) => Execute(s, env, op, inst.operand)
  }

  /** The machine fetches `op` next. */
  predicate At(s: State, op: Op)
  {
    InProgram(s) && OpOf(s.program.insts[s.ip as int].code) == Some(op)
  }

  function Operand(s: State): Word
    requires InProgram(s)
  {
    s.program.insts[s.ip as int].operand
  }

  // ---------------------------------------------------------------------------
  // The run loop

  /** The machine as the shared run loop sees it. */
  function StepperOf(env: Env): Stepper<State, Trap>
  {
    Stepper((s: State) => Step(s, env), (s: State) => s.hlt, Ok)
  }

  /**
   * `lvm_machine_run`: at most `limit` steps when the limit is not negative,
   * until halted otherwise (cut off after `fuel` steps); an OK result means the
   * machine halted or the budget ran out.
   */
  function RunOf(s: State, env: Env, limit: int, fuel: nat): (r: Result<State, Trap>)
    ensures limit >= 0 ==> r.steps <= limit
    ensures r.trap == Ok ==> r.state.hlt || r.steps == (if limit >= 0 then limit else fuel)
    ensures limit == 0 || s.hlt ==> r == Result(s, Ok, 0)
  {
    Loop(StepperOf(env), s, limit, fuel)
  }

  /** One step of a run that has budget left: a trap ends the run, OK goes on with one step less. */
  lemma RunUnfold(s: State, env: Env, limit: int, fuel: nat)
    requires !s.hlt && limit != 0 && (limit > 0 || fuel > 0)
    ensures var o := Step(s, env);
      var r := RunOf(s, env, limit, fuel);
      && (o.trap != Ok ==> r == Result(o.state, o.trap, 1))
      && (o.trap == Ok ==>
            var rest := RunOf(o.state, env, NextLimit(limit), NextFuel(limit, fuel));
            r == Result(rest.state, rest.trap, rest.steps + 1))
  {
    LoopUnfold(StepperOf(env), s, limit, fuel);
  }

  /** A halted machine, a spent budget or spent fuel ends the run with OK and no step. */
  lemma RunNothing(s: State, env: Env, limit: int, fuel: nat)
    requires s.hlt || limit == 0 || (limit < 0 && fuel == 0)
    ensures RunOf(s, env, limit, fuel) == Result(s, Ok, 0)
  {}

  /** A run that does not return OK returns the trap of the step it stopped at. */
  lemma RunTrapped(s: State, env: Env, limit: int, fuel: nat)
    requires RunOf(s, env, limit, fuel).trap != Ok
    ensures var r := RunOf(s, env, limit, fuel);
      r.steps >= 1 && exists p: State :: Step(p, env) == Outcome(r.state, r.trap)
  {
    LoopTrap(StepperOf(env), s, limit, fuel);
  }

  // ---------------------------------------------------------------------------
  // Creating and loading

  /** `lvm_create_machine`: a zeroed machine with no program. */
  function CreateMachine(): (s: State)
    ensures s.top == 0 && s.ip == 0 && !s.hlt
    ensures forall i :: 0 <= i < STACK_MAX ==> s.stack[i] == 0
    ensures forall i :: 0 <= i < MEMORY_MAX ==> s.memory[i] == 0
  {
    Config(seq(STACK_MAX, _ => 0), 0, seq(MEMORY_MAX, _ => 0), Program([], []), 0, false)
  }

  /**
   * `lvm_machine_load_program`: install the program, clear the halt flag, the
   * instruction pointer and the stack size, and copy the memory image to the
   * front of memory. Memory past the image keeps what it held.
   */
  function LoadProgram(s: State, p: Program): (r: State)
    requires ValidProgram(p)
    ensures r.program == p && r.ip == 0 && r.top == 0 && !r.hlt && r.stack == s.stack
    ensures forall i :: 0 <= i < |p.memory| ==> r.memory[i] == p.memory[i]
    ensures forall i :: |p.memory| <= i < MEMORY_MAX ==> r.memory[i] == s.memory[i]
  {
    s.(program := p, hlt := false, ip := 0, top := 0, memory := p.memory + s.memory[|p.memory|..])
  }


  // ---------------------------------------------------------------------------
  // What each instruction does

  /** Opcode 0 and every value from `LVM_MAX_INSTS` up decode as illegal, and no other value does. */
  lemma IllegalCodes(code: bv32)
    ensures OpOf(code).None? <==> code == 0 || code >= MAX_INSTS
  {
    assert |LOW_INSTS| == 32 && |HIGH_INSTS| == 32;
  }

  /** Fetching a legal instruction inside the program runs it on its operand. */
  lemma StepExecutes(s: State, env: Env, op: Op)
    requires At(s, op)
    ensures Step(s, env) == Execute(s, env, op, Operand(s))
  {}

  /** An illegal opcode traps with the machine unchanged. */
  lemma IllegalStep(s: State, env: Env)
    requires InProgram(s) && OpOf(s.program.insts[s.ip as int].code).None?
    ensures Step(s, env) == Outcome(s, IllegalInst)
  {}

  /** NOP only advances. */
  lemma NopStep(s: State, env: Env)
    requires At(s, Nop)
    ensures Step(s, env) == Outcome(s.(ip := s.ip + 1), Ok)
  {}

  /** PUSH pushes its operand; on a full stack it traps and the machine stays put. */
  lemma PushStep(s: State, env: Env)
    requires At(s, Push)
    ensures s.top < STACK_MAX ==>
      Step(s, env) == Outcome(s.(stack := s.stack[s.top := Operand(s)], top := s.top + 1, ip := s.ip + 1), Ok)
    ensures s.top == STACK_MAX ==> Step(s, env) == Outcome(s, StackOverflow)
  {}

  /** POP only checks that the stack is not empty: the stack does not shrink. */
  lemma PopStep(s: State, env: Env)
    requires At(s, Pop)
    ensures s.top >= 1 ==> Step(s, env) == Outcome(s.(ip := s.ip + 1), Ok)
    ensures s.top == 0 ==> Step(s, env) == Outcome(s, StackUnderflow)
  {}

  /** DUP copies the top; an empty stack underflows and a full one overflows, both with no change. */
  lemma DupStep(s: State, env: Env)
    requires At(s, Dup)
    ensures 1 <= s.top < STACK_MAX ==>
      Step(s, env) == Outcome(s.(stack := s.stack[s.top := s.stack[s.top - 1]], top := s.top + 1, ip := s.ip + 1), Ok)
    ensures s.top == 0 ==> Step(s, env) == Outcome(s, StackUnderflow)
    ensures s.top == STACK_MAX ==> Step(s, env) == Outcome(s, StackOverflow)
  {
    StepExecutes(s, env, Dup);
    DupEffect(s);
  }

  lemma DupEffect(s: State)
    ensures 1 <= s.top < STACK_MAX ==>
      DupInst(s) == Outcome(s.(stack := s.stack[s.top := s.stack[s.top - 1]], top := s.top + 1, ip := s.ip + 1), Ok)
    ensures s.top == 0 ==> DupInst(s) == Outcome(s, StackUnderflow)
    ensures s.top == STACK_MAX ==> DupInst(s) == Outcome(s, StackOverflow)
  {
    if 1 <= s.top < STACK_MAX {
      DupCopies(s);
    } else if s.top == STACK_MAX {
      DupFull(s);
    }
  }

  lemma DupCopies(s: State)
    requires 1 <= s.top < STACK_MAX
    ensures DupInst(s) == Outcome(s.(stack := s.stack[s.top := s.stack[s.top - 1]], top := s.top + 1, ip := s.ip + 1), Ok)
  {
    var p := StackPop(s);
    assert s.stack[s.top - 1 := s.stack[s.top - 1]] == s.stack;
  }

  lemma DupFull(s: State)
    requires s.top == STACK_MAX
    ensures DupInst(s) == Outcome(s, StackOverflow)
  {
    assert s.stack[s.top - 1 := s.stack[s.top - 1]] == s.stack;
  }

  /** A one-operand instruction replaces the top with its transform. */
  lemma UnaryStep(s: State, env: Env, op: UnOp)
    requires At(s, Un(op))
    ensures s.top >= 1 ==>
      Step(s, env) == Outcome(s.(stack := s.stack[s.top - 1 := Unary(op, s.stack[s.top - 1], env.fu)], ip := s.ip + 1), Ok)
    ensures s.top == 0 ==> Step(s, env) == Outcome(s, StackUnderflow)
  {
    if s.top >= 1 {
      UnaryValue(s, env, op, Unary(op, s.stack[s.top - 1], env.fu));
    }
  }

  lemma UnaryValue(s: State, env: Env, op: UnOp, r: Word)
    requires At(s, Un(op)) && s.top >= 1
    requires r == Unary(op, s.stack[s.top - 1], env.fu)
    ensures Step(s, env) == Outcome(s.(stack := s.stack[s.top - 1 := r], ip := s.ip + 1), Ok)
  {
    StepExecutes(s, env, Un(op));
    UnaryInstValue(s, op, env.fu, r);
  }

  lemma UnaryInstValue(s: State, op: UnOp, fu: FloatUnit, r: Word)
    requires s.top >= 1 && r == Unary(op, s.stack[s.top - 1], fu)
    ensures UnaryInst(s, op, fu) == Outcome(s.(stack := s.stack[s.top - 1 := r], ip := s.ip + 1), Ok)
  {}

  /**
   * A two-operand instruction pops A, the top, then B, and pushes `A OP B`. A
   * pop that fails leaves the pops before it done; an integer division by zero
   * leaves both pops done.
   */
  lemma BinaryStep(s: State, env: Env, op: BinOp)
    requires At(s, Bin(op))
    ensures s.top == 0 ==> Step(s, env) == Outcome(s, StackUnderflow)
    ensures s.top == 1 ==> Step(s, env) == Outcome(s.(top := 0), StackUnderflow)
    ensures s.top >= 2 ==>
      var r := Binary(op, s.stack[s.top - 1], s.stack[s.top - 2], env.fu);
      && (r.None? ==> Step(s, env) == Outcome(s.(top := s.top - 2), DivByZero))
      && (r.Some? ==>
            Step(s, env) == Outcome(s.(stack := s.stack[s.top - 2 := r.value], top := s.top - 1, ip := s.ip + 1), Ok))
  {
    StepExecutes(s, env, Bin(op));
    if s.top >= 2 {
      var r := Binary(op, s.stack[s.top - 1], s.stack[s.top - 2], env.fu);
      if r.None? {
        BinaryInstFails(s, op, env.fu);
      } else {
        BinaryInstValue(s, op, env.fu, r.value);
      }
    } else {
      BinaryInstUnderflow(s, op, env.fu);
    }
  }

  lemma BinaryInstUnderflow(s: State, op: BinOp, fu: FloatUnit)
    requires s.top < 2
    ensures s.top == 0 ==> BinaryInst(s, op, fu) == Outcome(s, StackUnderflow)
    ensures s.top == 1 ==> BinaryInst(s, op, fu) == Outcome(s.(top := 0), StackUnderflow)
  {}

  lemma BinaryInstValue(s: State, op: BinOp, fu: FloatUnit, r: Word)
    requires s.top >= 2
    requires Binary(op, s.stack[s.top - 1], s.stack[s.top - 2], fu) == Some(r)
    ensures BinaryInst(s, op, fu) == Outcome(s.(stack := s.stack[s.top - 2 := r], top := s.top - 1, ip := s.ip + 1), Ok)
  {
    BinaryInstPopped(s, op, fu);
    PushResultValue(s, r);
  }

  lemma BinaryInstFails(s: State, op: BinOp, fu: FloatUnit)
    requires s.top >= 2
    requires Binary(op, s.stack[s.top - 1], s.stack[s.top - 2], fu) == None
    ensures BinaryInst(s, op, fu) == Outcome(s.(top := s.top - 2), DivByZero)
  {
    BinaryInstPopped(s, op, fu);
  }

  /** Both operands come off the stack before the operation is applied. */
  lemma BinaryInstPopped(s: State, op: BinOp, fu: FloatUnit)
    requires s.top >= 2
    ensures BinaryInst(s, op, fu) == PushResult(s.(top := s.top - 2), Binary(op, s.stack[s.top - 1], s.stack[s.top - 2], fu))
  {
    TwoPops(s);
  }

  /** The result goes where the second operand was. */
  lemma PushResultValue(s: State, r: Word)
    requires s.top >= 2
    ensures PushResult(s.(top := s.top - 2), Some(r))
      == Outcome(s.(stack := s.stack[s.top - 2 := r], top := s.top - 1, ip := s.ip + 1), Ok)
  {}

  /** Comparisons and logical operations leave 0 or 1 in place of their operands. */
  lemma BooleanResult(s: State, env: Env, op: BinOp)
    requires At(s, Bin(op)) && IsBoolean(op) && s.top >= 2
    ensures Step(s, env).trap == Ok
    ensures Step(s, env).state.top == s.top - 1
    ensures Step(s, env).state.stack[s.top - 2] == 0 || Step(s, env).state.stack[s.top - 2] == 1
  {
    BinaryStep(s, env, op);
  }

  /** `x % 2^64` for an `x` just below zero. */
  lemma WrapNegative(x: int)
    requires -TWO_64 <= x < 0
    ensures x % TWO_64 == x + TWO_64
  {}

  /**
   * The SWAP guard refuses an operand past the bottom of the stack, except the
   * two largest, for which `top - 2 - k` wraps round to at most `top`.
   */
  lemma SwapGuard(top: int, k: Word)
    requires 2 <= top <= STACK_MAX
    ensures SwapRefused(top, k) <==> top - 2 < k as int < TWO_64 - 2
  {
    if k as int > top - 2 {
      WrapNegative(top - 2 - k as int);
    }
  }

  /** SWAP k exchanges the top with the word k places below the next one down. */
  lemma SwapStep(s: State, env: Env)
    requires At(s, Swap)
    requires s.top >= 2 && Operand(s) as int <= s.top - 2
    ensures var j, t := s.top - 2 - Operand(s) as int, s.top - 1;
      Step(s, env) == Outcome(s.(stack := s.stack[j := s.stack[t]][t := s.stack[j]], ip := s.ip + 1), Ok)
  {
    StepExecutes(s, env, Swap);
    SwapInBounds(s, Operand(s));
  }

  lemma SwapInBounds(s: State, k: Word)
    requires s.top >= 2 && k as int <= s.top - 2
    ensures var j, t := s.top - 2 - k as int, s.top - 1;
      SwapInst(s, k) == Outcome(s.(stack := s.stack[j := s.stack[t]][t := s.stack[j]], ip := s.ip + 1), Ok)
  {
    SwapGuard(s.top, k);
    WrapSmall(s.top - 2 - k as int);
    SwapInstAt(s, k, s.top - 2 - k as int);
  }

  /** A SWAP the guard lets through, on a slot inside the array. */
  lemma SwapInstAt(s: State, k: Word, j: int)
    requires 1 <= s.top && !SwapRefused(s.top, k) && SwapSlot(s.top, k) == j && 0 <= j < STACK_MAX
    ensures var t := s.top - 1;
      SwapInst(s, k) == Outcome(s.(stack := s.stack[j := s.stack[t]][t := s.stack[j]], ip := s.ip + 1), Ok)
  {
    var p := StackPop(s);
    assert p.state == s.(top := s.top - 1) && p.value == s.stack[s.top - 1];
  }

  /** `x % 2^64` for an `x` that already fits. */
  lemma WrapSmall(x: int)
    requires 0 <= x < TWO_64
    ensures x % TWO_64 == x
  {}

  /** SWAP refuses a stack of fewer than two words and an operand past the bottom, with no change. */
  lemma SwapUnderflow(s: State, env: Env)
    requires At(s, Swap)
    requires s.top < 2 || s.top - 2 < Operand(s) as int < TWO_64 - 2
    ensures Step(s, env) == Outcome(s, StackUnderflow)
  {
    if s.top >= 2 {
      SwapGuard(s.top, Operand(s));
    }
  }

  /** The operand `2^64 - 1` slips past the guard and exchanges the top with itself. */
  lemma SwapWithItself(s: State, env: Env)
    requires At(s, Swap)
    requires s.top >= 2 && Operand(s) == 0xFFFF_FFFF_FFFF_FFFF
    ensures Step(s, env) == Outcome(s.(ip := s.ip + 1), Ok)
  {
    StepExecutes(s, env, Swap);
    SwapInstWithItself(s);
  }

  lemma SwapInstWithItself(s: State)
    requires s.top >= 2
    ensures SwapInst(s, 0xFFFF_FFFF_FFFF_FFFF) == Outcome(s.(ip := s.ip + 1), Ok)
  {
    SwapGuard(s.top, 0xFFFF_FFFF_FFFF_FFFF);
    WrapNegative(s.top - 2 - 0xFFFF_FFFF_FFFF_FFFF);
    assert s.stack[s.top - 1 := s.stack[s.top - 1]] == s.stack;
  }

  /**
   * The operand `2^64 - 2` slips past the guard too: the slot it names wraps
   * round to the free slot just above the top, whose stale word is exchanged
   * with the top. On a full stack that slot is outside the array.
   */
  lemma SwapAboveTop(s: State, env: Env)
    requires At(s, Swap)
    requires 2 <= s.top && Operand(s) == 0xFFFF_FFFF_FFFF_FFFE
    ensures var t := s.top;
      s.top < STACK_MAX ==>
        Step(s, env) == Outcome(s.(stack := s.stack[t := s.stack[t - 1]][t - 1 := s.stack[t]], ip := s.ip + 1), Ok)
    ensures s.top == STACK_MAX ==> Step(s, env) == Outcome(s, StackUnderflow)
  {
    StepExecutes(s, env, Swap);
    SwapInstAboveTop(s);
  }

  lemma SwapInstAboveTop(s: State)
    requires 2 <= s.top
    ensures var t := s.top;
      s.top < STACK_MAX ==>
        SwapInst(s, 0xFFFF_FFFF_FFFF_FFFE) == Outcome(s.(stack := s.stack[t := s.stack[t - 1]][t - 1 := s.stack[t]], ip := s.ip + 1), Ok)
    ensures s.top == STACK_MAX ==> SwapInst(s, 0xFFFF_FFFF_FFFF_FFFE) == Outcome(s, StackUnderflow)
  {
    SwapGuard(s.top, 0xFFFF_FFFF_FFFF_FFFE);
    SwapSlotAbove(s.top);
    if s.top < STACK_MAX {
      SwapInstFreeSlot(s);
    }
  }

  lemma SwapInstFreeSlot(s: State)
    requires 2 <= s.top < STACK_MAX
    requires !SwapRefused(s.top, 0xFFFF_FFFF_FFFF_FFFE)
    requires SwapSlot(s.top, 0xFFFF_FFFF_FFFF_FFFE) == s.top
    ensures var t := s.top;
      SwapInst(s, 0xFFFF_FFFF_FFFF_FFFE) == Outcome(s.(stack := s.stack[t := s.stack[t - 1]][t - 1 := s.stack[t]], ip := s.ip + 1), Ok)
  {
    var p := StackPop(s);
    assert p.state == s.(top := s.top - 1) && p.value == s.stack[s.top - 1];
  }

  lemma SwapSlotAbove(top: int)
    requires 2 <= top <= STACK_MAX
    ensures SwapSlot(top, 0xFFFF_FFFF_FFFF_FFFE) == top
  {
    WrapNegative(top - 2 - 0xFFFF_FFFF_FFFF_FFFE);
  }

  /** CALL replaces the target on top with the return address and jumps; it never overflows. */
  lemma CallStep(s: State, env: Env)
    requires At(s, Call)
    ensures s.top >= 1 ==>
      Step(s, env) == Outcome(s.(stack := s.stack[s.top - 1 := s.ip + 1], ip := s.stack[s.top - 1]), Ok)
    ensures s.top == 0 ==> Step(s, env) == Outcome(s, StackUnderflow)
  {
    StepExecutes(s, env, Call);
    CallEffect(s);
  }

  lemma CallEffect(s: State)
    ensures s.top >= 1 ==> CallInst(s) == Outcome(s.(stack := s.stack[s.top - 1 := s.ip + 1], ip := s.stack[s.top - 1]), Ok)
    ensures s.top == 0 ==> CallInst(s) == Outcome(s, StackUnderflow)
  {}

  /** RETURN and JMP pop the target and continue there. */
  lemma JumpStep(s: State, env: Env)
    requires (At(s, Return) || At(s, Jmp))
    ensures s.top >= 1 ==> Step(s, env) == Outcome(s.(top := s.top - 1, ip := s.stack[s.top - 1]), Ok)
    ensures s.top == 0 ==> Step(s, env) == Outcome(s, StackUnderflow)
  {
    if At(s, Return) {
      StepExecutes(s, env, Return);
    } else {
      StepExecutes(s, env, Jmp);
    }
    JumpEffect(s);
  }

  lemma JumpEffect(s: State)
    ensures s.top >= 1 ==> JumpInst(s) == Outcome(s.(top := s.top - 1, ip := s.stack[s.top - 1]), Ok)
    ensures s.top == 0 ==> JumpInst(s) == Outcome(s, StackUnderflow)
  {}

  /** A CALL to a RETURN comes back after the CALL with the target gone from the stack. */
  lemma CallThenReturn(s: State, env: Env)
    requires At(s, Call) && s.top >= 1
    requires var t := s.stack[s.top - 1];
      t as int < |s.program.insts| && OpOf(s.program.insts[t as int].code) == Some(Return)
    ensures var o := Step(s, env);
      && o.trap == Ok
      && Step(o.state, env) == Outcome(s.(stack := s.stack[s.top - 1 := s.ip + 1], top := s.top - 1, ip := s.ip + 1), Ok)
  {
    CallStep(s, env);
    JumpStep(Step(s, env).state, env);
  }

  /** JZ and JNZ pop the target, then the condition, and jump on a zero (JZ) or nonzero (JNZ) condition. */
  lemma BranchStep(s: State, env: Env)
    requires (At(s, Jz) || At(s, Jnz))
    ensures s.top >= 2 && (s.stack[s.top - 2] == 0) == At(s, Jz) ==>
      Step(s, env) == Outcome(s.(top := s.top - 2, ip := s.stack[s.top - 1]), Ok)
    ensures s.top >= 2 && (s.stack[s.top - 2] == 0) != At(s, Jz) ==>
      Step(s, env) == Outcome(s.(top := s.top - 2, ip := s.ip + 1), Ok)
    ensures s.top < 2 ==> Step(s, env) == Outcome(s.(top := 0), StackUnderflow)
  {
    var onZero := At(s, Jz);
    StepExecutes(s, env, if onZero then Jz else Jnz);
    if s.top < 2 {
      BranchUnderflow(s, onZero);
    } else if (s.stack[s.top - 2] == 0) == onZero {
      BranchTaken(s, onZero);
    } else {
      BranchNotTaken(s, onZero);
    }
  }

  lemma BranchTaken(s: State, onZero: bool)
    requires s.top >= 2 && (s.stack[s.top - 2] == 0) == onZero
    ensures BranchInst(s, onZero) == Outcome(s.(top := s.top - 2, ip := s.stack[s.top - 1]), Ok)
  {
    BranchPopped(s, onZero);
  }

  lemma BranchNotTaken(s: State, onZero: bool)
    requires s.top >= 2 && (s.stack[s.top - 2] == 0) != onZero
    ensures BranchInst(s, onZero) == Outcome(s.(top := s.top - 2, ip := s.ip + 1), Ok)
  {
    BranchPopped(s, onZero);
  }

  /** Both words come off the stack before the condition is tested. */
  lemma BranchPopped(s: State, onZero: bool)
    requires s.top >= 2
    ensures BranchInst(s, onZero) == BranchOn(s.(top := s.top - 2), s.stack[s.top - 1], s.stack[s.top - 2], onZero)
  {}

  lemma BranchUnderflow(s: State, onZero: bool)
    requires s.top < 2
    ensures BranchInst(s, onZero) == Outcome(s.(top := 0), StackUnderflow)
  {}

  /** NATIVE pops the index, runs that native and advances past it, whatever it returns. */
  lemma NativeStep(s: State, env: Env)
    requires At(s, Native)
    ensures s.top >= 1 ==>
      var idx := s.stack[s.top - 1] as int;
      && (idx < |env.natives| ==>
            var o := env.natives[idx].call(s.(top := s.top - 1));
            Step(s, env) == Outcome(o.state.(ip := o.state.ip + 1), o.trap))
      && (idx >= |env.natives| ==> Step(s, env) == Outcome(s.(top := s.top - 1), IllegalOperand))
    ensures s.top == 0 ==> Step(s, env) == Outcome(s, StackUnderflow)
  {}

  /**
   * READw pops an address below `MEMORY_MAX - (w - 1)` and pushes the byte at
   * it, zero-extended, whatever the width; an address past the bound traps
   * after the pop.
   */
  lemma ReadStep(s: State, env: Env, w: Width)
    requires At(s, Read(w)) && s.top >= 1
    ensures var addr := s.stack[s.top - 1] as int;
      && (addr < MEMORY_MAX - (Size(w) - 1) ==>
            Step(s, env) == Outcome(s.(stack := s.stack[s.top - 1 := s.memory[addr] as Word], ip := s.ip + 1), Ok))
      && (addr >= MEMORY_MAX - (Size(w) - 1) ==> Step(s, env) == Outcome(s.(top := s.top - 1), IllegalMemoryAccess))
  {
    var addr := s.stack[s.top - 1] as int;
    if addr < MEMORY_MAX - (Size(w) - 1) {
      ReadInBounds(s, env, w, addr);
    } else {
      ReadOutOfBounds(s, env, w, addr);
    }
  }

  lemma ReadInBounds(s: State, env: Env, w: Width, addr: int)
    requires At(s, Read(w)) && s.top >= 1
    requires addr == s.stack[s.top - 1] as int && addr < MEMORY_MAX - (Size(w) - 1)
    ensures Step(s, env) == Outcome(s.(stack := s.stack[s.top - 1 := s.memory[addr] as Word], ip := s.ip + 1), Ok)
  {
    StepExecutes(s, env, Read(w));
    ExecuteRead(s, env, w, Operand(s));
    ReadInstInBounds(s, w, addr);
  }

  lemma ReadInstInBounds(s: State, w: Width, addr: int)
    requires s.top >= 1
    requires addr == s.stack[s.top - 1] as int && addr < MEMORY_MAX - (Size(w) - 1)
    ensures ReadInst(s, w) == Outcome(s.(stack := s.stack[s.top - 1 := s.memory[addr] as Word], ip := s.ip + 1), Ok)
  {}

  lemma ReadOutOfBounds(s: State, env: Env, w: Width, addr: int)
    requires At(s, Read(w)) && s.top >= 1
    requires addr == s.stack[s.top - 1] as int && addr >= MEMORY_MAX - (Size(w) - 1)
    ensures Step(s, env) == Outcome(s.(top := s.top - 1), IllegalMemoryAccess)
  {
    StepExecutes(s, env, Read(w));
    ExecuteRead(s, env, w, Operand(s));
    ReadInstOutOfBounds(s, w, addr);
  }

  lemma ExecuteRead(s: State, env: Env, w: Width, k: Word)
    ensures Execute(s, env, Read(w), k) == ReadInst(s, w)
  {}

  lemma ReadInstOutOfBounds(s: State, w: Width, addr: int)
    requires s.top >= 1
    requires addr == s.stack[s.top - 1] as int && addr >= MEMORY_MAX - (Size(w) - 1)
    ensures ReadInst(s, w) == Outcome(s.(top := s.top - 1), IllegalMemoryAccess)
  {}

  /** So a wide read does not load a wide value: READ16 over the bytes `00 01` gives 0, not 256. */
  lemma ReadIsOneByte(s: State, env: Env)
    requires At(s, Read(W16)) && s.top >= 1
    requires var addr := s.stack[s.top - 1] as int; addr < MEMORY_MAX - 1 && s.memory[addr + 1] != 0
    ensures var addr := s.stack[s.top - 1] as int;
      Step(s, env).state.stack[s.top - 1] != Load(s.memory, addr, 2)
  {
    var addr := s.stack[s.top - 1] as int;
    var x := Step(s, env).state.stack[s.top - 1];
    assert x == s.memory[addr] as Word by {
      ReadInBounds(s, env, W16, addr);
    }
    ByteDiffersFromLoad(x, s.memory, addr);
  }

  lemma ByteDiffersFromLoad(x: Word, mem: seq<Byte>, addr: int)
    requires 0 <= addr && addr + 2 <= |mem| && mem[addr + 1] != 0 && x == mem[addr] as Word
    ensures x != Load(mem, addr, 2)
  {
    LoadTwoDiffers(mem, addr);
  }

  lemma LoadTwoDiffers(mem: seq<Byte>, addr: int)
    requires 0 <= addr && addr + 2 <= |mem| && mem[addr + 1] != 0
    ensures Load(mem, addr, 2) != mem[addr] as Word
  {
    LoadTwo(mem, addr);
    JoinDiffers(mem[addr], mem[addr + 1]);
  }

  lemma LoadTwo(mem: seq<Byte>, addr: int)
    requires 0 <= addr && addr + 2 <= |mem|
    ensures Load(mem, addr, 2) == Join(mem[addr], Join(mem[addr + 1], 0))
  {
    var bs := mem[addr..addr + 2];
    assert bs[0] == mem[addr] && bs[1..][0] == mem[addr + 1];
    assert LE(bs[1..][1..]) == 0;
    assert LE(bs[1..]) == Join(mem[addr + 1], 0);
  }

  lemma JoinDiffers(lo: Byte, hi: Byte)
    requires hi != 0
    ensures Join(lo, Join(hi, 0)) != lo as Word
  {}

  /**
   * WRITEw pops the value, then the address, and stores the value's `w` low
   * bytes there, little-endian. Addresses from `MEMORY_MAX - w` up trap after
   * both pops.
   */
  lemma WriteStep(s: State, env: Env, w: Width)
    requires At(s, Write(w)) && s.top >= 2
    ensures var v, addr := s.stack[s.top - 1], s.stack[s.top - 2] as int;
      && (addr < MEMORY_MAX - Size(w) ==>
            Step(s, env) == Outcome(s.(top := s.top - 2, memory := Store(s.memory, addr, Size(w), v), ip := s.ip + 1), Ok))
      && (addr >= MEMORY_MAX - Size(w) ==> Step(s, env) == Outcome(s.(top := s.top - 2), IllegalMemoryAccess))
  {
    var addr := s.stack[s.top - 2] as int;
    if addr < MEMORY_MAX - Size(w) {
      WriteInBounds(s, env, w, addr);
    } else {
      WriteOutOfBounds(s, env, w, addr);
    }
  }

  lemma WriteInBounds(s: State, env: Env, w: Width, addr: int)
    requires At(s, Write(w)) && s.top >= 2
    requires addr == s.stack[s.top - 2] as int && addr < MEMORY_MAX - Size(w)
    ensures Step(s, env) ==
      Outcome(s.(top := s.top - 2, memory := Store(s.memory, addr, Size(w), s.stack[s.top - 1]), ip := s.ip + 1), Ok)
  {
    StepExecutes(s, env, Write(w));
    ExecuteWrite(s, env, w, Operand(s));
    WriteInstInBounds(s, w, addr);
  }

  lemma ExecuteWrite(s: State, env: Env, w: Width, k: Word)
    ensures Execute(s, env, Write(w), k) == WriteInst(s, w)
  {}

  lemma WriteInstInBounds(s: State, w: Width, addr: int)
    requires s.top >= 2
    requires addr == s.stack[s.top - 2] as int && addr < MEMORY_MAX - Size(w)
    ensures WriteInst(s, w) ==
      Outcome(s.(top := s.top - 2, memory := Store(s.memory, addr, Size(w), s.stack[s.top - 1]), ip := s.ip + 1), Ok)
  {}

  lemma WriteOutOfBounds(s: State, env: Env, w: Width, addr: int)
    requires At(s, Write(w)) && s.top >= 2
    requires addr == s.stack[s.top - 2] as int && addr >= MEMORY_MAX - Size(w)
    ensures Step(s, env) == Outcome(s.(top := s.top - 2), IllegalMemoryAccess)
  {
    StepExecutes(s, env, Write(w));
    ExecuteWrite(s, env, w, Operand(s));
    WriteInstOutOfBounds(s, w, addr);
  }

  lemma WriteInstOutOfBounds(s: State, w: Width, addr: int)
    requires s.top >= 2
    requires addr == s.stack[s.top - 2] as int && addr >= MEMORY_MAX - Size(w)
    ensures WriteInst(s, w) == Outcome(s.(top := s.top - 2), IllegalMemoryAccess)
  {}

  /** The write bound is one short: a write that would end exactly at the end of memory is refused. */
  lemma WriteRefusesLastSlot(s: State, env: Env, w: Width)
    requires At(s, Write(w)) && s.top >= 2
    requires s.stack[s.top - 2] as int == MEMORY_MAX - Size(w)
    ensures Step(s, env).trap == IllegalMemoryAccess
  {
    WriteOutOfBounds(s, env, w, MEMORY_MAX - Size(w));
  }

  /** WRITE64 followed by a 64-bit load at the address gives back the value; other bytes keep theirs. */
  lemma WriteThenLoad(s: State, env: Env)
    requires At(s, Write(W64)) && s.top >= 2
    requires s.stack[s.top - 2] as int < MEMORY_MAX - 8
    ensures var m, addr := Step(s, env).state.memory, s.stack[s.top - 2] as int;
      && Load(m, addr, 8) == s.stack[s.top - 1]
      && forall i :: 0 <= i < MEMORY_MAX && !(addr <= i < addr + 8) ==> m[i] == s.memory[i]
  {
    var addr := s.stack[s.top - 2] as int;
    WriteInBounds(s, env, W64, addr);
    assert Step(s, env).state.memory == Store(s.memory, addr, 8, s.stack[s.top - 1]);
    StoreWord(s.memory, addr, s.stack[s.top - 1]);
  }

  /** An 8-byte store reads back whole and leaves the other bytes alone. */
  lemma StoreWord(mem: seq<Byte>, addr: int, v: Word)
    requires 0 <= addr && addr + 8 <= |mem|
    ensures var m := Store(mem, addr, 8, v);
      && Load(m, addr, 8) == v
      && forall i :: 0 <= i < |mem| && !(addr <= i < addr + 8) ==> m[i] == mem[i]
  {
    LoadStore(mem, addr, 8, v);
    StoreEffect(mem, addr, 8, v);
    FitsWord(v);
    TruncFits(v, 8);
  }

  /** HLT sets the halt flag and nothing else; the instruction pointer stays on it. */
  lemma HltStep(s: State, env: Env)
    requires At(s, Hlt)
    ensures Step(s, env) == Outcome(s.(hlt := true), Ok)
  {}

  /** PRINT_DEBUG pops the word it prints. */
  lemma PrintDebugStep(s: State, env: Env)
    requires At(s, PrintDebug)
    ensures s.top >= 1 ==> Step(s, env) == Outcome(s.(top := s.top - 1, ip := s.ip + 1), Ok)
    ensures s.top == 0 ==> Step(s, env) == Outcome(s, StackUnderflow)
  {}

  // ---------------------------------------------------------------------------
  // Whole programs

  /** A machine just created and loaded with `p`. */
  function Boot(p: Program): (s: State)
    requires ValidProgram(p)
    ensures s.program == p && s.top == 0 && s.ip == 0 && !s.hlt
  {
    LoadProgram(CreateMachine(), p)
  }

  /** One OK step of a run that has budget left. */
  lemma RunStep(s: State, env: Env, limit: int, fuel: nat)
    requires !s.hlt && limit != 0 && (limit > 0 || fuel > 0) && Step(s, env).trap == Ok
    ensures var rest := RunOf(Step(s, env).state, env, NextLimit(limit), NextFuel(limit, fuel));
      RunOf(s, env, limit, fuel) == Result(rest.state, rest.trap, rest.steps + 1)
  {
    LoopUnfold(StepperOf(env), s, limit, fuel);
  }

  /** A HLT reached with budget left ends the run there with OK after one more step. */
  lemma RunHalts(s: State, env: Env, limit: int, fuel: nat)
    requires At(s, Hlt) && !s.hlt && limit != 0 && (limit > 0 || fuel > 0)
    ensures RunOf(s, env, limit, fuel) == Result(s.(hlt := true), Ok, 1)
  {
    HltStep(s, env);
    RunStep(s, env, limit, fuel);
    LoopNothing(StepperOf(env), s.(hlt := true), NextLimit(limit), NextFuel(limit, fuel));
  }

  /** `push 2; push 10; divi; hlt`. */
  const DIV_PROGRAM: Program := Program([Inst(2, 2), Inst(2, 10), Inst(16, 0), Inst(63, 0)], [])

  /**
   * DIVI divides the top by the word under it: the program above leaves 10 / 2,
   * alone on the stack, and halts with the HLT under `ip` after four steps.
   */
  lemma DivProgram(env: Env)
    ensures var r := RunOf(Boot(DIV_PROGRAM), env, -1, 4);
      r.trap == Ok && r.state.hlt && r.state.ip == 3 && r.state.top == 1 && r.state.stack[0] == 5 && r.steps == 4
  {
    var s := Boot(DIV_PROGRAM);
    PushStep(s, env);
    RunStep(s, env, -1, 4);
    DivSecondPush(Step(s, env).state, env);
  }

  lemma DivSecondPush(s: State, env: Env)
    requires s.program == DIV_PROGRAM && !s.hlt && s.ip == 1 && s.top == 1 && s.stack[0] == 2
    ensures var r := RunOf(s, env, -1, 3);
      r.trap == Ok && r.state.hlt && r.state.ip == 3 && r.state.top == 1 && r.state.stack[0] == 5 && r.steps == 3
  {
    PushStep(s, env);
    RunStep(s, env, -1, 3);
    DivDivide(Step(s, env).state, env);
  }

  lemma DivDivide(s: State, env: Env)
    requires s.program == DIV_PROGRAM && !s.hlt && s.ip == 2 && s.top == 2 && s.stack[0] == 2 && s.stack[1] == 10
    ensures var r := RunOf(s, env, -1, 2);
      r.trap == Ok && r.state.hlt && r.state.ip == 3 && r.state.top == 1 && r.state.stack[0] == 5 && r.steps == 2
  {
    DivStep(s, env);
    RunStep(s, env, -1, 2);
    RunHalts(s.(stack := s.stack[0 := 5], top := 1, ip := 3), env, -1, 1);
  }

  lemma DivStep(s: State, env: Env)
    requires s.program == DIV_PROGRAM && s.ip == 2 && s.top == 2 && s.stack[0] == 2 && s.stack[1] == 10
    ensures Step(s, env) == Outcome(s.(stack := s.stack[0 := 5], top := 1, ip := 3), Ok)
  {
    TenByTwo(env.fu);
    BinaryStep(s, env, DivI);
  }

  lemma TenByTwo(fu: FloatUnit)
    ensures Binary(DivI, 10, 2, fu) == Some(5)
  {
    assert ToInt(10) == 10 && ToInt(2) == 2;
    assert TDiv(10, 2) == 5;
  }

  /** `push 0; push 5; divi; hlt`. */
  const DIV_ZERO_PROGRAM: Program := Program([Inst(2, 0), Inst(2, 5), Inst(16, 0), Inst(63, 0)], [])

  /** Dividing by zero stops the run at the DIVI, with both operands popped and `ip` on the DIVI. */
  lemma DivZeroProgram(env: Env)
    ensures var r := RunOf(Boot(DIV_ZERO_PROGRAM), env, -1, 4);
      r.trap == DivByZero && !r.state.hlt && r.state.ip == 2 && r.state.top == 0 && r.steps == 3
  {
    var s := Boot(DIV_ZERO_PROGRAM);
    PushStep(s, env);
    RunStep(s, env, -1, 4);
    DivZeroSecondPush(Step(s, env).state, env);
  }

  lemma DivZeroSecondPush(s: State, env: Env)
    requires s.program == DIV_ZERO_PROGRAM && !s.hlt && s.ip == 1 && s.top == 1 && s.stack[0] == 0
    ensures var r := RunOf(s, env, -1, 3);
      r.trap == DivByZero && !r.state.hlt && r.state.ip == 2 && r.state.top == 0 && r.steps == 2
  {
    PushStep(s, env);
    RunStep(s, env, -1, 3);
    DivZeroDivide(Step(s, env).state, env);
  }

  lemma DivZeroDivide(s: State, env: Env)
    requires s.program == DIV_ZERO_PROGRAM && !s.hlt && s.ip == 2 && s.top == 2 && s.stack[0] == 0
    ensures var r := RunOf(s, env, -1, 2);
      r.trap == DivByZero && !r.state.hlt && r.state.ip == 2 && r.state.top == 0 && r.steps == 1
  {
    BinaryStep(s, env, DivI);
    LoopUnfold(StepperOf(env), s, -1, 2);
  }

  /** `push 4; call; hlt; nop; return`: a subroutine at 4 that returns at once. */
  const CALL_PROGRAM: Program := Program([Inst(2, 4), Inst(45, 0), Inst(63, 0), Inst(1, 0), Inst(47, 0)], [])

  /** CALL pushes the address after it and RETURN pops it: the run halts on the HLT after the CALL, stack empty. */
  lemma CallProgram(env: Env)
    ensures var r := RunOf(Boot(CALL_PROGRAM), env, -1, 5);
      r.trap == Ok && r.state.hlt && r.state.ip == 2 && r.state.top == 0 && r.steps == 4
  {
    var s := Boot(CALL_PROGRAM);
    PushStep(s, env);
    RunStep(s, env, -1, 5);
    CallProgramCall(Step(s, env).state, env);
  }

  lemma CallProgramCall(s: State, env: Env)
    requires s.program == CALL_PROGRAM && !s.hlt && s.ip == 1 && s.top == 1 && s.stack[0] == 4
    ensures var r := RunOf(s, env, -1, 4);
      r.trap == Ok && r.state.hlt && r.state.ip == 2 && r.state.top == 0 && r.steps == 3
  {
    CallStep(s, env);
    RunStep(s, env, -1, 4);
    CallProgramReturn(Step(s, env).state, env);
  }

  lemma CallProgramReturn(s: State, env: Env)
    requires s.program == CALL_PROGRAM && !s.hlt && s.ip == 4 && s.top == 1 && s.stack[0] == 2
    ensures var r := RunOf(s, env, -1, 3);
      r.trap == Ok && r.state.hlt && r.state.ip == 2 && r.state.top == 0 && r.steps == 2
  {
    JumpStep(s, env);
    RunStep(s, env, -1, 3);
    RunHalts(Step(s, env).state, env, -1, 2);
  }

  // ---------------------------------------------------------------------------
  // The machine, updated in place

  /**
   * `lvm_Machine`: the stack and memory arrays, the stack size, the loaded
   * program, `ip`, the halt flag and the native table. The host's floating
   * point is fixed when the machine is created.
   */
  class Machine {
    const stack: array<Word>
    var top: int
    const memory: array<Byte>
    var natives: seq<NativeFn>
    var program: Program
    var ip: Word
    var hlt: bool
    const fu: FloatUnit

    ghost predicate Valid()
      reads this
    {
      stack.Length == STACK_MAX && memory.Length == MEMORY_MAX && 0 <= top <= STACK_MAX
    }

    /** The machine as a value, without its native table. */
    function Snapshot(): State
      requires Valid()
      reads this, stack, memory
    {
      Config(stack[..], top, memory[..], program, ip, hlt)
    }

    /** What the steps see of the host. */
    function Host(): Env
      reads this
    {
      Env(natives, fu)
    }

    /** `lvm_create_machine`: everything zeroed, no native installed. */
    constructor(fu: FloatUnit)
      ensures Valid() && Snapshot() == CreateMachine()
      ensures natives == [] && this.fu == fu
    {
      stack := new Word[STACK_MAX](_ => 0);
      memory := new Byte[MEMORY_MAX](_ => 0);
      top := 0;
      natives := [];
      program := Program([], []);
      ip := 0;
      hlt := false;
      this.fu := fu;
      new;
      assert stack[..] == seq(STACK_MAX, _ => 0);
      assert memory[..] == seq(MEMORY_MAX, _ => 0);
    }

    /** `lvm_machine_stack_push`. */
    method Push(w: Word) returns (t: Trap)
      requires Valid()
      modifies this, stack
      ensures Valid() && natives == old(natives)
      ensures Outcome(Snapshot(), t) == StackPush(old(Snapshot()), w)
    {
      if top >= STACK_MAX {
        return StackOverflow;
      }
      stack[top] := w;
      top := top + 1;
      t := Ok;
    }

    /** `lvm_machine_stack_pop` with a destination; `w` is 0 when it underflows. */
    method Pop() returns (w: Word, t: Trap)
      requires Valid()
      modifies this
      ensures Valid() && natives == old(natives)
      ensures Popped(Snapshot(), w, t) == StackPop(old(Snapshot()))
    {
      if top < 1 {
        return 0, StackUnderflow;
      }
      top := top - 1;
      w, t := stack[top], Ok;
    }

    /** `lvm_machine_stack_pop` with a NULL destination. */
    method Drop() returns (t: Trap)
      requires Valid()
      ensures Outcome(Snapshot(), t) == StackDrop(Snapshot())
    {
      t := if top < 1 then StackUnderflow else Ok;
    }

    /** A push followed, when it succeeds, by the advance. */
    method PushAdvance(w: Word) returns (t: Trap)
      requires Valid()
      modifies this, stack
      ensures Valid() && natives == old(natives)
      ensures Outcome(Snapshot(), t) == AdvanceIfOk(StackPush(old(Snapshot()), w))
    {
      t := Push(w);
      if t == Ok {
        Advance();
      }
    }

    /** `lvm_machine_advance`. */
    method Advance()
      requires Valid()
      modifies this
      ensures Valid() && natives == old(natives)
      ensures var s := old(Snapshot()); Snapshot() == s.(ip := s.ip + 1)
    {
      ip := ip + 1;
    }

    /** Replaces the whole machine but its native table with `st`, as a native's effect. */
    method Assign(st: State)
      requires Valid()
      modifies this, stack, memory
      ensures Valid() && natives == old(natives)
      ensures Snapshot() == st
    {
      forall i | 0 <= i < STACK_MAX {
        stack[i] := st.stack[i];
      }
      forall i | 0 <= i < MEMORY_MAX {
        memory[i] := st.memory[i];
      }
      top, program, ip, hlt := st.top, st.program, st.ip, st.hlt;
      assert stack[..] == st.stack;
      assert memory[..] == st.memory;
    }

    /** `lvm_Unary_Inst` and `lvm_Cast_Inst`, then the advance. */
    method ExecUnary(op: UnOp) returns (t: Trap)
      requires Valid()
      modifies this, stack
      ensures Valid() && natives == old(natives)
      ensures Outcome(Snapshot(), t) == UnaryInst(old(Snapshot()), op, fu)
    {
      var a;
      a, t := Pop();
      if t == Ok {
        t := PushAdvance(Unary(op, a, fu));
      }
    }

    /** Two pops: A, the top, then B; a failing pop ends it with the pops before it done. */
    method PopTwo() returns (a: Word, b: Word, t: Trap)
      requires Valid()
      modifies this
      ensures Valid() && natives == old(natives)
      ensures var pa := StackPop(old(Snapshot()));
        var pb := StackPop(pa.state);
        && (pa.trap != Ok ==> Snapshot() == pa.state && t == pa.trap)
        && (pa.trap == Ok ==> Snapshot() == pb.state && t == pb.trap && a == pa.value && b == pb.value)
    {
      a, t := Pop();
      b := 0;
      if t == Ok {
        b, t := Pop();
      }
    }

    /** `lvm_Binary_Inst`, then the advance; integer division by zero stops after the pops. */
    method ExecBinary(op: BinOp) returns (t: Trap)
      requires Valid()
      modifies this, stack
      ensures Valid() && natives == old(natives)
      ensures Outcome(Snapshot(), t) == BinaryInst(old(Snapshot()), op, fu)
    {
      var a, b;
      a, b, t := PopTwo();
      if t == Ok {
        t := PushResultAt(Binary(op, a, b, fu));
      }
    }

    method PushResultAt(r: Option<Word>) returns (t: Trap)
      requires Valid()
      modifies this, stack
      ensures Valid() && natives == old(natives)
      ensures Outcome(Snapshot(), t) == PushResult(old(Snapshot()), r)
    {
      if r.None? {
        t := DivByZero;
      } else {
        t := PushAdvance(r.value);
      }
    }

    method ExecDup() returns (t: Trap)
      requires Valid()
      modifies this, stack
      ensures Valid() && natives == old(natives)
      ensures Outcome(Snapshot(), t) == DupInst(old(Snapshot()))
    {
      var a;
      a, t := Pop();
      if t == Ok {
        t := Push(a);
        if t == Ok {
          t := PushAdvance(a);
        }
      }
    }

    /** SWAP, with its guard. */
    method ExecSwap(k: Word) returns (t: Trap)
      requires Valid()
      modifies this, stack
      ensures Valid() && natives == old(natives)
      ensures Outcome(Snapshot(), t) == SwapInst(old(Snapshot()), k)
    {
      if SwapRefused(top, k) || SwapSlot(top, k) >= STACK_MAX {
        t := StackUnderflow;
      } else {
        t := SwapAt(SwapSlot(top, k));
      }
    }

    /** Pop a, exchange it with the word in slot `j` and push that word. */
    method SwapAt(j: int) returns (t: Trap)
      requires Valid() && 1 <= top && 0 <= j < STACK_MAX
      modifies this, stack
      ensures Valid() && natives == old(natives)
      ensures var s := old(Snapshot()).(top := old(Snapshot()).top - 1);
        Outcome(Snapshot(), t) == AdvanceIfOk(StackPush(s.(stack := s.stack[j := s.stack[s.top]]), s.stack[j]))
    {
      var a, b := stack[top - 1], stack[j];
      top := top - 1;
      stack[j] := a;
      t := PushAdvance(b);
    }

    /** CALL: no advance, the pushed return address does it. */
    method ExecCall() returns (t: Trap)
      requires Valid()
      modifies this, stack
      ensures Valid() && natives == old(natives)
      ensures Outcome(Snapshot(), t) == CallInst(old(Snapshot()))
    {
      var target;
      target, t := Pop();
      if t == Ok {
        var back := ip + 1;
        ip := target;
        t := Push(back);
      }
    }

    /** RETURN and JMP. */
    method ExecJump() returns (t: Trap)
      requires Valid()
      modifies this
      ensures Valid() && natives == old(natives)
      ensures Outcome(Snapshot(), t) == JumpInst(old(Snapshot()))
    {
      var target;
      target, t := Pop();
      if t == Ok {
        ip := target;
      }
    }

    /** JZ (`onZero`) and JNZ. */
    method ExecBranch(onZero: bool) returns (t: Trap)
      requires Valid()
      modifies this
      ensures Valid() && natives == old(natives)
      ensures Outcome(Snapshot(), t) == BranchInst(old(Snapshot()), onZero)
    {
      var target, cond;
      target, cond, t := PopTwo();
      if t == Ok {
        BranchOnAt(target, cond, onZero);
      }
    }

    method BranchOnAt(target: Word, cond: Word, onZero: bool)
      requires Valid()
      modifies this
      ensures Valid() && natives == old(natives)
      ensures Outcome(Snapshot(), Ok) == BranchOn(old(Snapshot()), target, cond, onZero)
    {
      if (cond == 0) == onZero {
        ip := target;
      } else {
        ip := ip + 1;
      }
    }

    /** NATIVE: the native runs on the whole machine and its trap is returned after the advance. */
    method ExecNative() returns (t: Trap)
      requires Valid()
      modifies this, stack, memory
      ensures Valid() && natives == old(natives)
      ensures Outcome(Snapshot(), t) == NativeInst(old(Snapshot()), old(Host()))
    {
      var index;
      index, t := Pop();
      if t == Ok {
        if index as int >= |natives| {
          t := IllegalOperand;
        } else {
          var o := natives[index as int].call(Snapshot());
          Assign(o.state);
          Advance();
          t := o.trap;
        }
      }
    }

    /** `lvm_Memory_Read_Inst`, then the advance. */
    method ExecRead(w: Width) returns (t: Trap)
      requires Valid()
      modifies this, stack
      ensures Valid() && natives == old(natives)
      ensures Outcome(Snapshot(), t) == ReadInst(old(Snapshot()), w)
    {
      var addr;
      addr, t := Pop();
      if t == Ok {
        t := LoadCheckedAt(w, addr);
      }
    }

    method LoadCheckedAt(w: Width, addr: Word) returns (t: Trap)
      requires Valid()
      modifies this, stack
      ensures Valid() && natives == old(natives)
      ensures Outcome(Snapshot(), t) == LoadChecked(old(Snapshot()), w, addr)
    {
      if addr as int >= MEMORY_MAX - (Size(w) - 1) {
        t := IllegalMemoryAccess;
      } else {
        t := PushAdvance(memory[addr as int] as Word);
      }
    }

    /** `lvm_Memory_Write_Inst`, then the advance. */
    method ExecWrite(w: Width) returns (t: Trap)
      requires Valid()
      modifies this, memory
      ensures Valid() && natives == old(natives)
      ensures Outcome(Snapshot(), t) == WriteInst(old(Snapshot()), w)
    {
      var v, addr;
      v, addr, t := PopTwo();
      if t == Ok {
        t := StoreCheckedAt(w, addr, v);
      }
    }

    method StoreCheckedAt(w: Width, addr: Word, v: Word) returns (t: Trap)
      requires Valid()
      modifies this, memory
      ensures Valid() && natives == old(natives)
      ensures Outcome(Snapshot(), t) == StoreChecked(old(Snapshot()), w, addr, v)
    {
      if addr as int >= MEMORY_MAX - Size(w) {
        t := IllegalMemoryAccess;
      } else {
        StoreBytes(addr as int, Size(w), v);
        t := Ok;
      }
    }

    /** The `switch` of `lvm_machine_execute_inst` on a decoded instruction. */
    method ExecuteOp(op: Op, operand: Word) returns (t: Trap)
      requires Valid()
      modifies this, stack, memory
      ensures Valid() && natives == old(natives)
      ensures Outcome(Snapshot(), t) == Execute(old(Snapshot()), old(Host()), op, operand)
    {
      if op.Un? || op.Bin? {
        t := ExecArith(op);
      } else if op.Read? || op.Write? {
        t := ExecMemory(op);
      } else if op.Call? || op.Native? || op.Return? || op.Jmp? || op.Jz? || op.Jnz? {
        t := ExecControl(op);
      } else {
        t := ExecStack(op, operand);
      }
    }

    method ExecArith(op: Op) returns (t: Trap)
      requires Valid() && (op.Un? || op.Bin?)
      modifies this, stack
      ensures Valid() && natives == old(natives)
      ensures Outcome(Snapshot(), t) == Execute(old(Snapshot()), old(Host()), op, 0)
    {
      if op.Un? {
        t := ExecUnary(op.u);
      } else {
        t := ExecBinary(op.b);
      }
    }

    method ExecMemory(op: Op) returns (t: Trap)
      requires Valid() && (op.Read? || op.Write?)
      modifies this, stack, memory
      ensures Valid() && natives == old(natives)
      ensures Outcome(Snapshot(), t) == Execute(old(Snapshot()), old(Host()), op, 0)
    {
      if op.Read? {
        t := ExecRead(op.rw);
      } else {
        t := ExecWrite(op.ww);
      }
    }

    method ExecControl(op: Op) returns (t: Trap)
      requires Valid() && (op.Call? || op.Native? || op.Return? || op.Jmp? || op.Jz? || op.Jnz?)
      modifies this, stack, memory
      ensures Valid() && natives == old(natives)
      ensures Outcome(Snapshot(), t) == Execute(old(Snapshot()), old(Host()), op, 0)
    {
      if op.Call? {
        t := ExecCall();
      } else if op.Native? {
        t := ExecNative();
      } else if op.Return? || op.Jmp? {
        t := ExecJump();
      } else {
        t := ExecBranch(op.Jz?);
      }
    }

    /** NOP, PUSH, POP, DUP, SWAP, HLT and PRINT_DEBUG. */
    method ExecStack(op: Op, operand: Word) returns (t: Trap)
      requires Valid() && (op.Nop? || op.Push? || op.Pop? || op.Dup? || op.Swap? || op.Hlt? || op.PrintDebug?)
      modifies this, stack
      ensures Valid() && natives == old(natives)
      ensures Outcome(Snapshot(), t) == Execute(old(Snapshot()), old(Host()), op, operand)
    {
      match op
      case Nop =>
        t := ExecNop();
      case Push =>
        t := PushAdvance(operand);
      case Pop =>
        t := ExecPop();
      case Dup =>
        t := ExecDup();
      case Swap =>
        t := ExecSwap(operand);
      case Hlt =>
        t := ExecHlt();
      case PrintDebug =>
        t := ExecPrintDebug();
    }

    method ExecNop() returns (t: Trap)
      requires Valid()
      modifies this
      ensures Valid() && natives == old(natives)
      ensures Outcome(Snapshot(), t) == AdvanceIfOk(Outcome(old(Snapshot()), Ok))
    {
      Advance();
      t := Ok;
    }

    /** POP: `lvm_machine_stack_pop` with a NULL destination, then the advance. */
    method ExecPop() returns (t: Trap)
      requires Valid()
      modifies this
      ensures Valid() && natives == old(natives)
      ensures Outcome(Snapshot(), t) == AdvanceIfOk(StackDrop(old(Snapshot())))
    {
      t := Drop();
      if t == Ok {
        Advance();
      }
    }

    method ExecHlt() returns (t: Trap)
      requires Valid()
      modifies this
      ensures Valid() && natives == old(natives)
      ensures Outcome(Snapshot(), t) == Outcome(old(Snapshot()).(hlt := true), Ok)
    {
      hlt := true;
      t := Ok;
    }

    /** PRINT_DEBUG: the pop and the advance; the printing is not modelled. */
    method ExecPrintDebug() returns (t: Trap)
      requires Valid()
      modifies this
      ensures Valid() && natives == old(natives)
      ensures var p := StackPop(old(Snapshot()));
        Outcome(Snapshot(), t) == AdvanceIfOk(Outcome(p.state, p.trap))
    {
      var a;
      a, t := Pop();
      if t == Ok {
        Advance();
      }
    }

    /** `lvm_machine_execute_inst`: fetch the instruction under `ip`, decode it and execute it. */
    method ExecuteInst() returns (t: Trap)
      requires Valid()
      modifies this, stack, memory
      ensures Valid() && natives == old(natives)
      ensures Outcome(Snapshot(), t) == Step(old(Snapshot()), old(Host()))
    {
      if ip as int >= |program.insts| {
        return IllegalInstAccess;
      }
      var inst := program.insts[ip as int];
      match OpOf(inst.code)
      case None =>
        t := IllegalInst;
      case Some(op) =>
        t := ExecuteOp(op, inst.operand);
    }

    /** `lvm_machine_run`; a negative limit runs until halted, cut off after `fuel` steps. */
    method Run(limit: int, fuel: nat) returns (t: Trap)
      requires Valid()
      modifies this, stack, memory
      ensures Valid() && natives == old(natives)
      ensures var r := RunOf(old(Snapshot()), old(Host()), limit, fuel);
        Snapshot() == r.state && t == r.trap
    {
      ghost var env := Host();
      ghost var r := RunOf(Snapshot(), env, limit, fuel);
      var l, f := limit, fuel;
      while l != 0 && !hlt && (l > 0 || f > 0)
        invariant Valid() && natives == old(natives) && Host() == env
        invariant RunOf(Snapshot(), env, l, f).state == r.state
        invariant RunOf(Snapshot(), env, l, f).trap == r.trap
        decreases if l > 0 then l else 0, f
      {
        ghost var s := Snapshot();
        RunUnfold(s, env, l, f);
        t := ExecuteInst();
        if t != Ok {
          return;
        }
        l, f := NextLimit(l), NextFuel(l, f);
      }
      RunNothing(Snapshot(), env, l, f);
      t := Ok;
    }

    /** `lvm_machine_load_program`: the memory image is copied over the front of memory. */
    method Load(p: Program)
      requires Valid() && ValidProgram(p)
      modifies this, memory
      ensures Valid() && natives == old(natives)
      ensures Snapshot() == LoadProgram(old(Snapshot()), p)
    {
      ghost var before := memory[..];
      forall i | 0 <= i < |p.memory| {
        memory[i] := p.memory[i];
      }
      program, hlt, ip, top := p, false, 0, 0;
      assert memory[..] == p.memory + before[|p.memory|..];
    }

    /** The store `*(uintW_t*)&memory[addr] = v`, byte by byte, then the advance. */
    method StoreBytes(addr: int, n: nat, v: Word)
      requires Valid() && 0 <= addr && addr + n <= MEMORY_MAX && n <= 8
      modifies this, memory
      ensures Valid() && natives == old(natives)
      ensures var s := old(Snapshot()); Snapshot() == s.(memory := Store(s.memory, addr, n, v), ip := s.ip + 1)
    {
      ghost var before := memory[..];
      var bs := Bytes(v, n);
      forall i | 0 <= i < n {
        memory[addr + i] := bs[i];
      }
      StoreEffect(before, addr, n, v);
      assert forall i :: addr <= i < addr + n ==> Store(before, addr, n, v)[i] == Store(before, addr, n, v)[addr..addr + n][i - addr];
      assert memory[..] == Store(before, addr, n, v);
      ip := ip + 1;
    }
  }
}
