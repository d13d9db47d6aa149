/**
 * The oldest generation of the VM (`LVM/src/LVM.h`): a 1024-word operand
 * stack, a fixed array of 1024 operations with a count, and a native table;
 * there is no linear memory. Thirteen operations are handled: PUSH, POP, DUP,
 * ADD, SUB, MULT, DIV, JMP, JMP_IF, EQ, HLT, NATIVE and PRINT_DEBUG. NOP is
 * declared as operation 0 but has no case, so it traps as illegal. Every
 * operation that succeeds ends with the `ip++` after the `switch`, HLT
 * included. Programs are saved to files as the bare instruction images.
 *
 * The step semantics are functions on a `State` value, followed by lemmas
 * about each operation, the run loop and the file format; the `Machine`
 * class at the end updates the arrays in place and is proved to follow the
 * functions.
 */
module Lvm1 {
  import opened Words
  import Alu
  import opened Bytecode
  import opened Runs

  /** `LVM_ExceptionType`. */
  datatype Trap =
    | Ok
    | IllegalOp
    | IllegalOpAccess
    | IllegalOperand
    | StackOverflow
    | StackUnderflow
    | DivByZero

  /** The two-operand operations, all on the `int64_t` view. */
  datatype ArithOp = Add | Sub | Mult | Div | Eq

  /** The operations the `switch` handles. */
  datatype Op =
    | Push
    | Pop
    | Dup
    | Arith(a: ArithOp)
    | Jmp
    | JmpIf
    | Hlt
    | Native
    | PrintDebug

  /** `LVM_OperationType` values 1 to 13; value 0 is `LVM_OP_NOP`. */
  const OPS: seq<Op> := [
    Push, Pop, Dup, Arith(Add), Arith(Sub), Arith(Mult), Arith(Div),
    Jmp, JmpIf, Arith(Eq), Hlt, Native, PrintDebug]

  /** The `switch` on `operation.type`: `None` for the `default` case, NOP included. */
  function OpOf(code: bv32): Option<Op>
  {
    if code == 0 || code > 13 then None else Some(OPS[code as int - 1])
  }

  // ---------------------------------------------------------------------------
  // Machine state

  /**
   * `LVM` without its native table and its unused heap: the whole stack array
   * (slots at and above `top` keep stale values), the stack size, the whole
   * operation array and the count of operations in it, `ip` and the halt flag.
   */
  datatype Config = Config(stack: seq<Word>, top: int, program: seq<Inst>, size: int, ip: Word, hlt: bool)

  predicate WF(c: Config)
  {
    && |c.stack| == STACK_MAX && 0 <= c.top <= STACK_MAX
    && |c.program| == PROGRAM_MAX && 0 <= c.size <= PROGRAM_MAX
  }

  /** A machine whose arrays have their sizes and whose counters are in range. */
  type State = c: Config | WF(c)
    witness Config(seq(STACK_MAX, _ => 0), 0, seq(PROGRAM_MAX, _ => Inst(0, 0)), 0, 0, false)

  /** `LVM_Native`: a host function of the whole machine that returns a trap. */
  datatype NativeFn = NativeFn(call: State -> Outcome<State, Trap>)

  /** What the host supplies: the registered natives. */
  datatype Env = Env(natives: seq<NativeFn>)

  // ---------------------------------------------------------------------------
  // The operations

  /** The `lvm->ip++` after the `switch`, reached by every case that does not return early. */
  function Next(s: State): Outcome<State, Trap>
  {
    Outcome(s.(ip := s.ip + 1), Ok)
  }

  /** PUSH. */
  function PushInst(s: State, w: Word): Outcome<State, Trap>
  {
    if s.top >= STACK_MAX then Outcome(s, StackOverflow)
    else Next(s.(stack := s.stack[s.top := w], top := s.top + 1))
  }

  /** POP, and PRINT_DEBUG once it has printed. */
  function PopInst(s: State): Outcome<State, Trap>
  {
    if s.top < 1 then Outcome(s, StackUnderflow)
    else Next(s.(top := s.top - 1))
  }

  /** `(uint64_t)x`: an integer wrapped to 64 bits. */
  function Wrap(x: int): int
  {
    x % TWO_64
  }

  /**
   * DUP k: copy slot `size - 1 - k` to the top. The test `k < 0` is on the
   * unsigned view and never holds; the unsigned `size - k <= 0` follows
   * `k >= size` and never holds either.
   */
  function DupInst(s: State, k: Word): Outcome<State, Trap>
  {
    if k as int >= s.top then Outcome(s, IllegalOperand)
    else if s.top >= STACK_MAX then Outcome(s, StackOverflow)
    else if Wrap(s.top - k as int) == 0 then Outcome(s, StackUnderflow)
    else Next(s.(stack := s.stack[s.top := s.stack[s.top - 1 - k as int]], top := s.top + 1))
  }

  /** ADD, SUB, MULT and EQ. */
  function Combine(op: ArithOp, x: Word, y: Word): Word
    requires op != Div
  {
    match op
    case Add => x + y
    case Sub => x - y
    case Mult => x * y
    case Eq => Bool01(x == y)
  }

  /**
   * `second OP top` on the `int64_t` view; `None` for DIV by a zero top.
   * Overflow, `INT64_MIN / -1` included, wraps round.
   */
  function ArithValue(op: ArithOp, x: Word, y: Word): Option<Word>
  {
    if op == Div then (if y == 0 then None else Some(SDiv(x, y)))
    else Some(Combine(op, x, y))
  }

  /** ADD, SUB, MULT, DIV and EQ: the result replaces the second word and the size drops by one. */
  function ArithInst(s: State, op: ArithOp): Outcome<State, Trap>
  {
    if s.top < 2 then Outcome(s, StackUnderflow)
    else
      match ArithValue(op, s.stack[s.top - 2], s.stack[s.top - 1])
      case None => Outcome(s, DivByZero)
      case Some(v) => Next(s.(stack := s.stack[s.top - 2 := v], top := s.top - 1))
  }

  /** JMP_IF: a nonzero top is popped and the jump taken; a zero top stays. */
  function JmpIfInst(s: State, target: Word): Outcome<State, Trap>
  {
    if s.top < 1 then Outcome(s, StackUnderflow)
    else if s.stack[s.top - 1] != 0 then Next(s.(top := s.top - 1, ip := target - 1))
    else Next(s)
  }

  /**
   * NATIVE k: call native k on the machine, stack untouched, then advance
   * whatever it returned. The index is not checked in C; an index with no
   * native registered is reported as ILLEGAL_OPERAND, with no change.
   */
  function NativeInst(s: State, env: Env, k: Word): Outcome<State, Trap>
  {
    if s.top < 1 then Outcome(s, StackUnderflow)
    else if k as int >= |env.natives| then Outcome(s, IllegalOperand)
    else
      var o := env.natives[k as int].call(s);
      Outcome(o.state.(ip := o.state.ip + 1), o.trap)
  }

  /** One operation, the body of the `switch` in `LVM_execute_LVM_Operation`. */
  function Execute(s: State, env: Env, op: Op, operand: Word): Outcome<State, Trap>
  {
    match op
    case Push => PushInst(s, operand)
    case Pop => PopInst(s)
    case Dup => DupInst(s, operand)
    case Arith(a) => ArithInst(s, a)
    case Jmp => Next(s.(ip := operand - 1))
    case JmpIf => JmpIfInst(s, operand)
    case Hlt => Next(s.(hlt := true))
    case Native => NativeInst(s, env, operand)
    case PrintDebug => PopInst(s)
  }

  /** `LVM_execute_LVM_Operation`: the fetch is checked against the operation count. */
  function Step(s: State, env: Env): (o: Outcome<State, Trap>)
    ensures s.ip as int >= s.size ==> o == Outcome(s, IllegalOpAccess)
  {
    if s.ip as int >= s.size then Outcome(s, IllegalOpAccess)
    else
      var inst := s.program[s.ip as int];
      match OpOf(inst.code)
      case None => Outcome(s, IllegalOp)
      case Some(op) => Execute(s, env, op, inst.operand)
  }

  /** The machine fetches `op` next. */
  predicate At(s: State, op: Op)
  {
    s.ip as int < s.size && OpOf(s.program[s.ip as int].code) == Some(op)
  }

  function Operand(s: State): Word
    requires s.ip as int < s.size
  {
    s.program[s.ip as int].operand
  }

  // ---------------------------------------------------------------------------
  // The run loop

  function StepperOf(env: Env): Stepper<State, Trap>
  {
    Stepper((s: State) => Step(s, env), (s: State) => s.hlt, Ok)
  }

  /**
   * `LVM_execute_program`: at most `limit` steps when the limit is not
   * negative, until halted otherwise (cut off after `fuel` steps); an OK
   * result means the machine halted or the budget ran out.
   */
  function RunOf(s: State, env: Env, limit: int, fuel: nat): (r: Result<State, Trap>)
    ensures limit >= 0 ==> r.steps <= limit
    ensures r.trap == Ok ==> r.state.hlt || r.steps == (if limit >= 0 then limit else fuel)
    ensures limit == 0 || s.hlt ==> r == Result(s, Ok, 0)
  {
    Loop(StepperOf(env), s, limit, fuel)
  }

  /** One step of a run that has budget left: a trap ends the run, OK goes on with one step less. */
  lemma RunUnfold(s: State, env: Env, limit: int, fuel: nat)
    requires !s.hlt && limit != 0 && (limit > 0 || fuel > 0)
    ensures var o := Step(s, env);
      var r := RunOf(s, env, limit, fuel);
      && (o.trap != Ok ==> r == Result(o.state, o.trap, 1))
      && (o.trap == Ok ==>
            var rest := RunOf(o.state, env, NextLimit(limit), NextFuel(limit, fuel));
            r == Result(rest.state, rest.trap, rest.steps + 1))
  {
    LoopUnfold(StepperOf(env), s, limit, fuel);
  }

  /** A halted machine, a spent budget or spent fuel ends the run with OK and no step. */
  lemma RunNothing(s: State, env: Env, limit: int, fuel: nat)
    requires s.hlt || limit == 0 || (limit < 0 && fuel == 0)
    ensures RunOf(s, env, limit, fuel) == Result(s, Ok, 0)
  {}

  /** A run that does not return OK returns the trap of the step it stopped at. */
  lemma RunTrapped(s: State, env: Env, limit: int, fuel: nat)
    requires RunOf(s, env, limit, fuel).trap != Ok
    ensures var r := RunOf(s, env, limit, fuel);
      r.steps >= 1 && exists p: State :: Step(p, env) == Outcome(r.state, r.trap)
  {
    LoopTrap(StepperOf(env), s, limit, fuel);
  }

  /** One OK step of a run that has budget left. */
  lemma RunStep(s: State, env: Env, limit: int, fuel: nat)
    requires !s.hlt && limit != 0 && (limit > 0 || fuel > 0) && Step(s, env).trap == Ok
    ensures var rest := RunOf(Step(s, env).state, env, NextLimit(limit), NextFuel(limit, fuel));
      RunOf(s, env, limit, fuel) == Result(rest.state, rest.trap, rest.steps + 1)
  {
    LoopUnfold(StepperOf(env), s, limit, fuel);
  }

  // ---------------------------------------------------------------------------
  // Loading from memory

  /**
   * `LVM_load_program_from_memory`, which asserts that fewer than
   * `LVM_PROGRAM_MAX` operations come: they are copied over the front of the
   * operation array and become the program. Nothing else changes.
   */
  function LoadFromMemory(s: State, insts: seq<Inst>): (r: State)
    requires |insts| < PROGRAM_MAX
    ensures r.size == |insts| && r.program[..|insts|] == insts
    ensures r.program[|insts|..] == s.program[|insts|..]
    ensures r.stack == s.stack && r.top == s.top && r.ip == s.ip && r.hlt == s.hlt
  {
    s.(program := insts + s.program[|insts|..], size := |insts|)
  }

  // ---------------------------------------------------------------------------
  // What each operation does
  //
  // Each `...Step` lemma about `Step` goes through a link lemma (`Step` is the
  // operation function) and an effect lemma about the operation function
  // alone.

  /** Exactly value 0 (NOP) and the values from 14 up decode as illegal. */
  lemma IllegalCodes(code: bv32)
    ensures OpOf(code).None? <==> code == 0 || code >= 14
  {}

  /** NOP, and every value past PRINT_DEBUG, trap with the machine unchanged. */
  lemma IllegalStep(s: State, env: Env)
    requires s.ip as int < s.size
    requires s.program[s.ip as int].code == 0 || s.program[s.ip as int].code >= 14
    ensures Step(s, env) == Outcome(s, IllegalOp)
  {
    IllegalCodes(s.program[s.ip as int].code);
  }

  lemma StepIsPush(s: State, env: Env)
    requires At(s, Push)
    ensures Step(s, env) == PushInst(s, Operand(s))
  {}

  lemma PushEffect(s: State, w: Word)
    ensures s.top < STACK_MAX ==>
      PushInst(s, w) == Outcome(s.(stack := s.stack[s.top := w], top := s.top + 1, ip := s.ip + 1), Ok)
    ensures s.top == STACK_MAX ==> PushInst(s, w) == Outcome(s, StackOverflow)
  {}

  /** PUSH appends its operand; on a full stack it traps and the machine stays put. */
  lemma PushStep(s: State, env: Env)
    requires At(s, Push)
    ensures s.top < STACK_MAX ==>
      Step(s, env) == Outcome(s.(stack := s.stack[s.top := Operand(s)], top := s.top + 1, ip := s.ip + 1), Ok)
    ensures s.top == STACK_MAX ==> Step(s, env) == Outcome(s, StackOverflow)
  {
    StepIsPush(s, env);
    PushEffect(s, Operand(s));
  }

  lemma StepIsPop(s: State, env: Env)
    requires At(s, Pop) || At(s, PrintDebug)
    ensures Step(s, env) == PopInst(s)
  {}

  lemma PopEffect(s: State)
    ensures s.top >= 1 ==> PopInst(s) == Outcome(s.(top := s.top - 1, ip := s.ip + 1), Ok)
    ensures s.top == 0 ==> PopInst(s) == Outcome(s, StackUnderflow)
  {}

  /** POP drops the top and PRINT_DEBUG drops the word it prints; on an empty stack both trap. */
  lemma PopStep(s: State, env: Env)
    requires At(s, Pop) || At(s, PrintDebug)
    ensures s.top >= 1 ==> Step(s, env) == Outcome(s.(top := s.top - 1, ip := s.ip + 1), Ok)
    ensures s.top == 0 ==> Step(s, env) == Outcome(s, StackUnderflow)
  {
    StepIsPop(s, env);
    PopEffect(s);
  }

  /** A PUSH followed by a POP restores the size; only the free slot keeps the pushed word. */
  lemma PushThenPop(s: State, w: Word)
    requires s.top < STACK_MAX
    ensures PopInst(PushInst(s, w).state) == Outcome(s.(stack := s.stack[s.top := w], ip := s.ip + 2), Ok)
  {
    PushEffect(s, w);
    PopEffect(PushInst(s, w).state);
  }

  /** `x % 2^64` for an `x` that already fits. */
  lemma WrapSmall(x: int)
    requires 0 <= x < TWO_64
    ensures Wrap(x) == x
  {}

  lemma StepIsDup(s: State, env: Env)
    requires At(s, Dup)
    ensures Step(s, env) == DupInst(s, Operand(s))
  {}

  lemma DupEffect(s: State, k: Word)
    ensures k as int >= s.top ==> DupInst(s, k) == Outcome(s, IllegalOperand)
    ensures k as int < s.top == STACK_MAX ==> DupInst(s, k) == Outcome(s, StackOverflow)
    ensures k as int < s.top < STACK_MAX ==>
      DupInst(s, k) == Outcome(s.(stack := s.stack[s.top := s.stack[s.top - 1 - k as int]], top := s.top + 1, ip := s.ip + 1), Ok)
  {
    if k as int < s.top {
      WrapSmall(s.top - k as int);
    }
  }

  /**
   * DUP k pushes a copy of slot `size - 1 - k`. It refuses `k >= size` with
   * ILLEGAL_OPERAND and then a full stack with STACK_OVERFLOW, both with no
   * change; it never underflows.
   */
  lemma DupStep(s: State, env: Env)
    requires At(s, Dup)
    ensures Operand(s) as int >= s.top ==> Step(s, env) == Outcome(s, IllegalOperand)
    ensures Operand(s) as int < s.top == STACK_MAX ==> Step(s, env) == Outcome(s, StackOverflow)
    ensures Operand(s) as int < s.top < STACK_MAX ==>
      var k := Operand(s) as int;
      Step(s, env) == Outcome(s.(stack := s.stack[s.top := s.stack[s.top - 1 - k]], top := s.top + 1, ip := s.ip + 1), Ok)
  {
    StepIsDup(s, env);
    DupEffect(s, Operand(s));
  }

  lemma StepIsArith(s: State, env: Env, op: ArithOp)
    requires At(s, Arith(op))
    ensures Step(s, env) == ArithInst(s, op)
  {}

  lemma ArithEffect(s: State, op: ArithOp)
    ensures s.top < 2 ==> ArithInst(s, op) == Outcome(s, StackUnderflow)
    ensures s.top >= 2 ==>
      var r := ArithValue(op, s.stack[s.top - 2], s.stack[s.top - 1]);
      && (r.None? ==> ArithInst(s, op) == Outcome(s, DivByZero))
      && (r.Some? ==>
            ArithInst(s, op) == Outcome(s.(stack := s.stack[s.top - 2 := r.value], top := s.top - 1, ip := s.ip + 1), Ok))
  {}

  /**
   * ADD, SUB, MULT, DIV and EQ replace the second word with `second OP top`
   * and drop the top; fewer than two words underflow with no change.
   */
  lemma ArithStep(s: State, env: Env, op: ArithOp)
    requires At(s, Arith(op))
    ensures s.top < 2 ==> Step(s, env) == Outcome(s, StackUnderflow)
    ensures s.top >= 2 && ArithValue(op, s.stack[s.top - 2], s.stack[s.top - 1]).Some? ==>
      var v := ArithValue(op, s.stack[s.top - 2], s.stack[s.top - 1]).value;
      Step(s, env) == Outcome(s.(stack := s.stack[s.top - 2 := v], top := s.top - 1, ip := s.ip + 1), Ok)
  {
    StepIsArith(s, env, op);
    ArithEffect(s, op);
  }

  /** Only DIV can fail, and only on a zero top; it then traps with no change. */
  lemma DivideByZero(s: State, env: Env, op: ArithOp)
    requires At(s, Arith(op)) && s.top >= 2
    ensures Step(s, env).trap == DivByZero <==> op == Div && s.stack[s.top - 1] == 0
    ensures Step(s, env).trap == DivByZero ==> Step(s, env).state == s
  {
    StepIsArith(s, env, op);
    ArithEffect(s, op);
  }

  /** EQ leaves 1 for equal words and 0 otherwise. */
  lemma EqResult(s: State, env: Env)
    requires At(s, Arith(Eq)) && s.top >= 2
    ensures var r := Step(s, env);
      && r.trap == Ok && r.state.top == s.top - 1
      && (r.state.stack[s.top - 2] == 1 <==> s.stack[s.top - 2] == s.stack[s.top - 1])
      && (r.state.stack[s.top - 2] == 0 || r.state.stack[s.top - 2] == 1)
  {
    StepIsArith(s, env, Eq);
    ArithEffect(s, Eq);
  }

  /** The first generation's integer operations compute what the later generations' do. */
  lemma ArithAgrees(op: ArithOp, x: Word, y: Word, fu: Alu.FloatUnit)
    ensures ArithValue(op, x, y) == Alu.Binary(AluOf(op), x, y, fu)
  {
    if op == Div {
      DivAgrees(x, y, fu);
    } else {
      CombineAgrees(op, x, y, fu);
    }
  }

  lemma DivAgrees(x: Word, y: Word, fu: Alu.FloatUnit)
    ensures ArithValue(Div, x, y) == Alu.Binary(Alu.DivI, x, y, fu)
  {}

  lemma CombineAgrees(op: ArithOp, x: Word, y: Word, fu: Alu.FloatUnit)
    requires op != Div
    ensures Some(Combine(op, x, y)) == Alu.Binary(AluOf(op), x, y, fu)
  {
    match op
    case Add => AddAgrees(x, y, fu);
    case Sub => SubAgrees(x, y, fu);
    case Mult => MultAgrees(x, y, fu);
    case Eq => EqAgrees(x, y, fu);
  }

  lemma AddAgrees(x: Word, y: Word, fu: Alu.FloatUnit)
    ensures Alu.Binary(Alu.AddI, x, y, fu) == Some(x + y)
  {}

  lemma SubAgrees(x: Word, y: Word, fu: Alu.FloatUnit)
    ensures Alu.Binary(Alu.SubI, x, y, fu) == Some(x - y)
  {}

  lemma MultAgrees(x: Word, y: Word, fu: Alu.FloatUnit)
    ensures Alu.Binary(Alu.MulI, x, y, fu) == Some(x * y)
  {}

  lemma EqAgrees(x: Word, y: Word, fu: Alu.FloatUnit)
    ensures Alu.Binary(Alu.Eq, x, y, fu) == Some(Bool01(x == y))
  {}

  function AluOf(op: ArithOp): Alu.BinOp
  {
    match op
    case Add => Alu.AddI
    case Sub => Alu.SubI
    case Mult => Alu.MulI
    case Div => Alu.DivI
    case Eq => Alu.Eq
  }

  lemma StepIsJmp(s: State, env: Env)
    requires At(s, Jmp)
    ensures Step(s, env) == Next(s.(ip := Operand(s) - 1))
  {}

  /** JMP continues at the operand. */
  lemma JmpStep(s: State, env: Env)
    requires At(s, Jmp)
    ensures Step(s, env) == Outcome(s.(ip := Operand(s)), Ok)
  {
    StepIsJmp(s, env);
  }

  lemma StepIsJmpIf(s: State, env: Env)
    requires At(s, JmpIf)
    ensures Step(s, env) == JmpIfInst(s, Operand(s))
  {}

  lemma JmpIfEffect(s: State, target: Word)
    ensures s.top >= 1 && s.stack[s.top - 1] != 0 ==>
      JmpIfInst(s, target) == Outcome(s.(top := s.top - 1, ip := target), Ok)
    ensures s.top >= 1 && s.stack[s.top - 1] == 0 ==> JmpIfInst(s, target) == Outcome(s.(ip := s.ip + 1), Ok)
    ensures s.top == 0 ==> JmpIfInst(s, target) == Outcome(s, StackUnderflow)
  {}

  /**
   * JMP_IF pops a nonzero top and continues at the operand; a zero top stays
   * on the stack and the machine advances; an empty stack underflows.
   */
  lemma JmpIfStep(s: State, env: Env)
    requires At(s, JmpIf)
    ensures s.top >= 1 && s.stack[s.top - 1] != 0 ==>
      Step(s, env) == Outcome(s.(top := s.top - 1, ip := Operand(s)), Ok)
    ensures s.top >= 1 && s.stack[s.top - 1] == 0 ==> Step(s, env) == Outcome(s.(ip := s.ip + 1), Ok)
    ensures s.top == 0 ==> Step(s, env) == Outcome(s, StackUnderflow)
  {
    StepIsJmpIf(s, env);
    JmpIfEffect(s, Operand(s));
  }

  lemma StepIsHlt(s: State, env: Env)
    requires At(s, Hlt)
    ensures Step(s, env) == Next(s.(hlt := true))
  {}

  /** HLT sets the halt flag and advances. */
  lemma HltStep(s: State, env: Env)
    requires At(s, Hlt)
    ensures Step(s, env) == Outcome(s.(hlt := true, ip := s.ip + 1), Ok)
  {
    StepIsHlt(s, env);
  }

  lemma StepIsNative(s: State, env: Env)
    requires At(s, Native)
    ensures Step(s, env) == NativeInst(s, env, Operand(s))
  {}

  /** NATIVE k runs native k on the machine as it is and advances past it, whatever it returns. */
  lemma NativeStep(s: State, env: Env)
    requires At(s, Native)
    ensures var k := Operand(s) as int;
      && (s.top >= 1 && k < |env.natives| ==>
            var o := env.natives[k].call(s);
            Step(s, env) == Outcome(o.state.(ip := o.state.ip + 1), o.trap))
      && (s.top >= 1 && k >= |env.natives| ==> Step(s, env) == Outcome(s, IllegalOperand))
      && (s.top == 0 ==> Step(s, env) == Outcome(s, StackUnderflow))
  {
    StepIsNative(s, env);
  }

  /** The operations that set `ip` themselves. */
  predicate Transfers(op: Op)
  {
    op.Jmp? || op.JmpIf? || op.Native?
  }

  /** A step that succeeds moves `ip` on by exactly one. */
  predicate Advanced(s: State, o: Outcome<State, Trap>)
  {
    o.trap == Ok ==> o.state.ip == s.ip + 1
  }

  /** Every operation except JMP, JMP_IF and NATIVE ends a successful step with a single `ip++`. */
  lemma OkAdvances(s: State, env: Env, op: Op)
    requires At(s, op) && !Transfers(op)
    ensures Advanced(s, Step(s, env))
  {
    match op
    case Push | Pop | PrintDebug | Dup => StackAdvances(s, env, op);
    case Arith(_) | Hlt => ComputeAdvances(s, env, op);
  }

  lemma ComputeAdvances(s: State, env: Env, op: Op)
    requires At(s, op) && (op.Arith? || op.Hlt?)
    ensures Advanced(s, Step(s, env))
  {
    match op
    case Arith(a) => StepIsArith(s, env, a);
    case Hlt => StepIsHlt(s, env);
  }

  lemma StackAdvances(s: State, env: Env, op: Op)
    requires At(s, op) && (op.Push? || op.Pop? || op.PrintDebug? || op.Dup?)
    ensures Advanced(s, Step(s, env))
  {
    match op
    case Push => StepIsPush(s, env);
    case Pop | PrintDebug => StepIsPop(s, env);
    case Dup => StepIsDup(s, env);
  }

  // ---------------------------------------------------------------------------
  // Whole programs

  /** A zero-initialised `LVM`, as a static one starts. */
  function Zeroed(): (s: State)
    ensures s.top == 0 && s.size == 0 && s.ip == 0 && !s.hlt
  {
    Config(seq(STACK_MAX, _ => 0), 0, seq(PROGRAM_MAX, _ => Inst(0, 0)), 0, 0, false)
  }

  /** A zeroed machine with `insts` loaded from memory. */
  function Boot(insts: seq<Inst>): (s: State)
    requires |insts| < PROGRAM_MAX
    ensures s.size == |insts| && s.program[..|insts|] == insts && s.top == 0 && s.ip == 0 && !s.hlt
  {
    LoadFromMemory(Zeroed(), insts)
  }

  /** A HLT reached with budget left ends the run after one more step. */
  lemma RunHalts(s: State, env: Env, limit: int, fuel: nat)
    requires At(s, Hlt) && !s.hlt && limit != 0 && (limit > 0 || fuel > 0)
    ensures RunOf(s, env, limit, fuel) == Result(s.(hlt := true, ip := s.ip + 1), Ok, 1)
  {
    HltStep(s, env);
    RunStep(s, env, limit, fuel);
    RunNothing(s.(hlt := true, ip := s.ip + 1), env, NextLimit(limit), NextFuel(limit, fuel));
  }

  /** `nop`: the declared NOP stops a run at once with ILLEGAL_OP. */
  lemma NopProgram(env: Env, limit: int, fuel: nat)
    requires limit != 0 && (limit > 0 || fuel > 0)
    ensures RunOf(Boot([Inst(0, 0)]), env, limit, fuel) == Result(Boot([Inst(0, 0)]), IllegalOp, 1)
  {
    var s := Boot([Inst(0, 0)]);
    assert s.program[0] == Inst(0, 0);
    IllegalStep(s, env);
    RunUnfold(s, env, limit, fuel);
  }

  /** `push 7; push 7; eq; hlt`. */
  const EQ_PROGRAM: seq<Inst> := [Inst(1, 7), Inst(1, 7), Inst(10, 0), Inst(11, 0)]

  /** The program leaves 1 for two equal words and halts past the HLT. */
  lemma EqProgram(env: Env)
    ensures var r := RunOf(Boot(EQ_PROGRAM), env, -1, 4);
      r.trap == Ok && r.state.hlt && r.state.ip == 4 && r.state.top == 1 && r.state.stack[0] == 1 && r.steps == 4
  {
    var s := Boot(EQ_PROGRAM);
    assert s.program[0] == EQ_PROGRAM[0];
    PushStep(s, env);
    RunStep(s, env, -1, 4);
    EqSecondPush(Step(s, env).state, env);
  }

  lemma EqSecondPush(s: State, env: Env)
    requires s.program[..4] == EQ_PROGRAM && s.size == 4 && !s.hlt && s.ip == 1 && s.top == 1 && s.stack[0] == 7
    ensures var r := RunOf(s, env, -1, 3);
      r.trap == Ok && r.state.hlt && r.state.ip == 4 && r.state.top == 1 && r.state.stack[0] == 1 && r.steps == 3
  {
    assert s.program[1] == EQ_PROGRAM[1];
    PushStep(s, env);
    RunStep(s, env, -1, 3);
    EqCompare(Step(s, env).state, env);
  }

  lemma EqCompare(s: State, env: Env)
    requires s.program[..4] == EQ_PROGRAM && s.size == 4 && !s.hlt && s.ip == 2 && s.top == 2
    requires s.stack[0] == 7 && s.stack[1] == 7
    ensures var r := RunOf(s, env, -1, 2);
      r.trap == Ok && r.state.hlt && r.state.ip == 4 && r.state.top == 1 && r.state.stack[0] == 1 && r.steps == 2
  {
    assert s.program[2] == EQ_PROGRAM[2];
    assert s.program[3] == EQ_PROGRAM[3];
    ArithStep(s, env, Eq);
    RunStep(s, env, -1, 2);
    RunHalts(Step(s, env).state, env, -1, 1);
  }

  // ---------------------------------------------------------------------------
  // Program files

  /** The two `assert`s of `LVM_load_program_from_file`, in the order they are checked. */
  datatype FileError = NotWholeOperations | TooManyOperations

  /** What a load from a file leaves in `program[]` and `program_size`, or why it gave up. */
  datatype LoadResult = Loaded(program: seq<Inst>, size: int) | Rejected(error: FileError)

  /**
   * `LVM_load_program_from_file` on the file's bytes: the file must hold whole
   * operation images, at most `LVM_PROGRAM_MAX` of them; they are read over
   * the front of the operation array and their number becomes the count.
   */
  function LoadFile(file: seq<Byte>, program: seq<Inst>): (r: LoadResult)
    requires |program| == PROGRAM_MAX
    ensures r.Loaded? <==> |file| % INST_SIZE == 0 && |file| <= INST_SIZE * PROGRAM_MAX
    ensures r.Rejected? ==> (r.error == NotWholeOperations <==> |file| % INST_SIZE != 0)
    ensures r.Loaded? ==>
      && r.size == |file| / INST_SIZE && |r.program| == PROGRAM_MAX
      && r.program[..r.size] == DecodeInsts(file)
      && r.program[r.size..] == program[r.size..]
  {
    if |file| % INST_SIZE != 0 then Rejected(NotWholeOperations)
    else if |file| > INST_SIZE * PROGRAM_MAX then Rejected(TooManyOperations)
    else
      var n := |file| / INST_SIZE;
      Loaded(DecodeInsts(file) + program[n..], n)
  }

  /** `LVM_save_program_to_file`: the images of the first `size` operations, nothing else. */
  function SaveFile(program: seq<Inst>, size: int): (f: seq<Byte>)
    requires 0 <= size <= |program|
    ensures |f| == INST_SIZE * size
  {
    EncodeInsts(program[..size])
  }

  /** A saved program loads back over the reader's array, with its count. */
  lemma SaveThenLoad(p: seq<Inst>, size: int, q: seq<Inst>)
    requires |p| == PROGRAM_MAX && 0 <= size <= PROGRAM_MAX && |q| == PROGRAM_MAX
    ensures LoadFile(SaveFile(p, size), q) == Loaded(p[..size] + q[size..], size)
  {
    DecodeEncode(p[..size]);
  }

  // ---------------------------------------------------------------------------
  // The machine in place

  /**
   * `LVM` with its arrays updated in place. Each `Exec...` method is one case
   * of the `switch` in `LVM_execute_LVM_Operation`, the `lvm->ip++` after it
   * included, and is proved to do what the operation function says.
   */
  class Machine {
    const stack: array<Word>
    var top: int
    const program: array<Inst>
    var size: int
    var ip: Word
    var hlt: bool
    var natives: seq<NativeFn>

    ghost predicate Valid()
      reads this
    {
      && stack.Length == STACK_MAX && program.Length == PROGRAM_MAX
      && 0 <= top <= STACK_MAX && 0 <= size <= PROGRAM_MAX && |natives| <= NATIVE_MAX
      && stack as object != program as object
    }

    /** The machine as a value, without its native table. */
    function Snapshot(): State
      requires Valid()
      reads this, stack, program
    {
      Config(stack[..], top, program[..], size, ip, hlt)
    }

    /** What the steps see of the host. */
    function Host(): Env
      reads this
    {
      Env(natives)
    }

    /** A zero-initialised `LVM`, as the driver declares it, with no native registered. */
    constructor()
      ensures Valid() && Snapshot() == Zeroed() && natives == []
    {
      stack := new Word[STACK_MAX](_ => 0);
      program := new Inst[PROGRAM_MAX](_ => Inst(0, 0));
      top, size, ip, hlt := 0, 0, 0, false;
      natives := [];
      new;
      assert stack[..] == seq(STACK_MAX, _ => 0);
      assert program[..] == seq(PROGRAM_MAX, _ => Inst(0, 0));
    }

    /** The `lvm->ip++` after the `switch`. */
    method Advance()
      requires Valid()
      modifies this
      ensures Valid() && natives == old(natives)
      ensures var s := old(Snapshot()); Snapshot() == s.(ip := s.ip + 1)
    {
      ip := ip + 1;
    }

    /** Slot `j` receives `v`, the stack size becomes `newTop`, and the machine advances. */
    method Put(j: int, v: Word, newTop: int)
      requires Valid() && 0 <= j < STACK_MAX && 0 <= newTop <= STACK_MAX
      modifies this, stack
      ensures Valid() && natives == old(natives)
      ensures var s := old(Snapshot()); Snapshot() == s.(stack := s.stack[j := v], top := newTop, ip := s.ip + 1)
    {
      stack[j] := v;
      top := newTop;
      ip := ip + 1;
    }

    /** The stack size becomes `newTop` and `ip` becomes `next`; the arrays stay. */
    method Move(newTop: int, next: Word)
      requires Valid() && 0 <= newTop <= STACK_MAX
      modifies this
      ensures Valid() && natives == old(natives)
      ensures var s := old(Snapshot()); Snapshot() == s.(top := newTop, ip := next)
    {
      top := newTop;
      ip := next;
    }

    method ExecPush(w: Word) returns (t: Trap)
      requires Valid()
      modifies this, stack
      ensures Valid() && natives == old(natives)
      ensures Outcome(Snapshot(), t) == PushInst(old(Snapshot()), w)
    {
      PushEffect(Snapshot(), w);
      if top >= STACK_MAX {
        return StackOverflow;
      }
      Put(top, w, top + 1);
      t := Ok;
    }

    /** POP, and PRINT_DEBUG without its printing. */
    method ExecPop() returns (t: Trap)
      requires Valid()
      modifies this
      ensures Valid() && natives == old(natives)
      ensures Outcome(Snapshot(), t) == PopInst(old(Snapshot()))
    {
      PopEffect(Snapshot());
      if top < 1 {
        return StackUnderflow;
      }
      Move(top - 1, ip + 1);
      t := Ok;
    }

    method ExecDup(k: Word) returns (t: Trap)
      requires Valid()
      modifies this, stack
      ensures Valid() && natives == old(natives)
      ensures Outcome(Snapshot(), t) == DupInst(old(Snapshot()), k)
    {
      if k as int >= top {
        return IllegalOperand;
      }
      if top >= STACK_MAX {
        return StackOverflow;
      }
      t := DupChecked(k);
    }

    /** DUP past its first two checks: the unsigned depth check, then the copy. */
    method DupChecked(k: Word) returns (t: Trap)
      requires Valid() && k as int < top < STACK_MAX
      modifies this, stack
      ensures Valid() && natives == old(natives)
      ensures Outcome(Snapshot(), t) == DupInst(old(Snapshot()), k)
    {
      if Wrap(top - k as int) == 0 {
        return StackUnderflow;
      }
      Put(top, stack[top - 1 - k as int], top + 1);
      t := Ok;
    }

    method ExecArith(op: ArithOp) returns (t: Trap)
      requires Valid()
      modifies this, stack
      ensures Valid() && natives == old(natives)
      ensures Outcome(Snapshot(), t) == ArithInst(old(Snapshot()), op)
    {
      ArithEffect(Snapshot(), op);
      if top < 2 {
        return StackUnderflow;
      }
      var r := ArithValue(op, stack[top - 2], stack[top - 1]);
      if r.None? {
        return DivByZero;
      }
      Put(top - 2, r.value, top - 1);
      t := Ok;
    }

    method ExecJmp(target: Word) returns (t: Trap)
      requires Valid()
      modifies this
      ensures Valid() && natives == old(natives)
      ensures Outcome(Snapshot(), t) == Next(old(Snapshot()).(ip := target - 1))
    {
      ip := target - 1;
      Advance();
      t := Ok;
    }

    method ExecJmpIf(target: Word) returns (t: Trap)
      requires Valid()
      modifies this
      ensures Valid() && natives == old(natives)
      ensures Outcome(Snapshot(), t) == JmpIfInst(old(Snapshot()), target)
    {
      JmpIfEffect(Snapshot(), target);
      if top < 1 {
        return StackUnderflow;
      }
      if stack[top - 1] != 0 {
        Move(top - 1, target);
      } else {
        Move(top, ip + 1);
      }
      t := Ok;
    }

    method ExecHlt() returns (t: Trap)
      requires Valid()
      modifies this
      ensures Valid() && natives == old(natives)
      ensures Outcome(Snapshot(), t) == Next(old(Snapshot()).(hlt := true))
    {
      hlt := true;
      Advance();
      t := Ok;
    }

    /** Replaces the whole machine but its native table with `st`, as a native's effect. */
    method Assign(st: State)
      requires Valid()
      modifies this, stack, program
      ensures Valid() && natives == old(natives)
      ensures Snapshot() == st
    {
      forall i | 0 <= i < STACK_MAX {
        stack[i] := st.stack[i];
      }
      forall i | 0 <= i < PROGRAM_MAX {
        program[i] := st.program[i];
      }
      top, size, ip, hlt := st.top, st.size, st.ip, st.hlt;
      assert stack[..] == st.stack;
      assert program[..] == st.program;
    }

    method ExecNative(k: Word) returns (t: Trap)
      requires Valid()
      modifies this, stack, program
      ensures Valid() && natives == old(natives)
      ensures Outcome(Snapshot(), t) == NativeInst(old(Snapshot()), old(Host()), k)
    {
      if top < 1 {
        return StackUnderflow;
      }
      if k as int >= |natives| {
        return IllegalOperand;
      }
      var o := natives[k as int].call(Snapshot());
      Assign(o.state);
      Advance();
      t := o.trap;
    }

    /** The `switch` of `LVM_execute_LVM_Operation` on a decoded operation. */
    method ExecuteOp(op: Op, operand: Word) returns (t: Trap)
      requires Valid()
      modifies this, stack, program
      ensures Valid() && natives == old(natives)
      ensures Outcome(Snapshot(), t) == Execute(old(Snapshot()), old(Host()), op, operand)
    {
      match op
      case Push =>
        t := ExecPush(operand);
      case Pop =>
        t := ExecPop();
      case Dup =>
        t := ExecDup(operand);
      case Arith(a) =>
        t := ExecArith(a);
      case Jmp =>
        t := ExecJmp(operand);
      case JmpIf =>
        t := ExecJmpIf(operand);
      case Hlt =>
        t := ExecHlt();
      case Native =>
        t := ExecNative(operand);
      case PrintDebug =>
        t := ExecPop();
    }

    /** `LVM_execute_LVM_Operation`: fetch the operation under `ip`, checked against the count, and run it. */
    method ExecuteOperation() returns (t: Trap)
      requires Valid()
      modifies this, stack, program
      ensures Valid() && natives == old(natives)
      ensures Outcome(Snapshot(), t) == Step(old(Snapshot()), old(Host()))
    {
      if ip as int >= size {
        return IllegalOpAccess;
      }
      var inst := program[ip as int];
      match OpOf(inst.code)
      case None =>
        t := IllegalOp;
      case Some(op) =>
        t := ExecuteOp(op, inst.operand);
    }

    /** `LVM_execute_program`; a negative limit runs until halted, cut off after `fuel` steps. */
    method ExecuteProgram(limit: int, fuel: nat) returns (t: Trap)
      requires Valid()
      modifies this, stack, program
      ensures Valid() && natives == old(natives)
      ensures var r := RunOf(old(Snapshot()), old(Host()), limit, fuel);
        Snapshot() == r.state && t == r.trap
    {
      ghost var env := Host();
      ghost var r := RunOf(Snapshot(), env, limit, fuel);
      var l, f := limit, fuel;
      while l != 0 && !hlt && (l > 0 || f > 0)
        invariant Valid() && natives == old(natives) && Host() == env
        invariant RunOf(Snapshot(), env, l, f).state == r.state
        invariant RunOf(Snapshot(), env, l, f).trap == r.trap
        decreases if l > 0 then l else 0, f
      {
        RunUnfold(Snapshot(), env, l, f);
        t := ExecuteOperation();
        if t != Ok {
          return;
        }
        l, f := NextLimit(l), NextFuel(l, f);
      }
      RunNothing(Snapshot(), env, l, f);
      t := Ok;
    }

    /** `LVM_push_native`, which asserts that the table has room: natives are numbered in registration order. */
    method PushNative(native: NativeFn)
      requires Valid() && |natives| < NATIVE_MAX
      modifies this
      ensures Valid() && natives == old(natives) + [native]
      ensures Snapshot() == old(Snapshot())
    {
      natives := natives + [native];
    }

    /** `LVM_load_program_from_memory`. */
    method LoadProgramFromMemory(insts: seq<Inst>)
      requires Valid() && |insts| < PROGRAM_MAX
      modifies this, program
      ensures Valid() && natives == old(natives)
      ensures Snapshot() == LoadFromMemory(old(Snapshot()), insts)
    {
      ghost var before := program[..];
      forall i | 0 <= i < |insts| {
        program[i] := insts[i];
      }
      size := |insts|;
      assert program[..] == insts + before[|insts|..];
    }

    /**
     * `LVM_load_program_from_file` on the file's bytes. The C function aborts
     * on a failed `assert`; here the reason is returned and the machine is
     * left as it was.
     */
    method LoadProgramFromFile(file: seq<Byte>) returns (err: Option<FileError>)
      requires Valid()
      modifies this, program
      ensures Valid() && natives == old(natives)
      ensures var r := LoadFile(file, old(Snapshot()).program);
        && (r.Rejected? ==> err == Some(r.error) && Snapshot() == old(Snapshot()))
        && (r.Loaded? ==> err == None && Snapshot() == old(Snapshot()).(program := r.program, size := r.size))
    {
      var r := LoadFile(file, program[..]);
      if r.Rejected? {
        return Some(r.error);
      }
      forall i | 0 <= i < PROGRAM_MAX {
        program[i] := r.program[i];
      }
      size := r.size;
      assert program[..] == r.program;
      err := None;
    }

    /** `LVM_save_program_to_file`: the one `fwrite` of the first `program_size` operations. */
    method SaveProgramToFile() returns (f: seq<Byte>)
      requires Valid()
      ensures f == SaveFile(program[..], size)
    {
      f := EncodeInsts(program[..size]);
    }
  }
}
