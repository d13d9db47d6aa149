/**
 * The run loop the three generations share (`LVM_execute_program` and
 * `lvm_machine_run`): while the budget is not spent and the machine has not
 * halted, execute one instruction; return the first trap that is not OK; a
 * positive budget counts down by one per step and a negative one never runs
 * out. The loop is stated once over an abstract step, so that its properties
 * are proved without looking inside any instruction.
 */
module Runs {

  /** A machine after one operation, with the trap the operation returned. */
  datatype Outcome<+S, +T> = Outcome(state: S, trap: T)

  /** A machine after a run, the trap the run returned and the steps it took. */
  datatype Result<+S, +T> = Result(state: S, trap: T, steps: nat)

  /** What the loop needs of a machine: its step, its halt flag and its OK trap. */
  datatype Stepper<!S, T> = Stepper(step: S -> Outcome<S, T>, halted: S -> bool, ok: T)

  /**
   * The loop from `s` with budget `limit`. A negative budget means "until
   * halted"; since the loop need not end, such a run is cut off with an OK
   * result after `fuel` steps.
   */
  function Loop<S, T(==)>(m: Stepper<S, T>, s: S, limit: int, fuel: nat): (r: Result<S, T>)
    ensures limit >= 0 ==> r.steps <= limit
    ensures limit < 0 ==> r.steps <= fuel
    ensures r.trap == m.ok ==> m.halted(r.state) || r.steps == (if limit >= 0 then limit else fuel)
    decreases if limit > 0 then limit else 0, fuel
  {
    if limit == 0 || m.halted(s) then Result(s, m.ok, 0)
    else if limit < 0 && fuel == 0 then Result(s, m.ok, 0)
    else
      var o := m.step(s);
      if o.trap != m.ok then Result(o.state, o.trap, 1)
      else
        var r := Loop(m, o.state, NextLimit(limit), NextFuel(limit, fuel));
        Result(r.state, r.trap, r.steps + 1)
  }

  /** The budget and fuel left after one step. */
  function NextLimit(limit: int): int
  {
    if limit > 0 then limit - 1 else limit
  }

  function NextFuel(limit: int, fuel: nat): nat
    requires limit > 0 || fuel > 0
  {
    if limit > 0 then fuel else fuel - 1
  }

  /** A halted machine, or a zero budget, takes no step and returns OK. */
  lemma LoopNothing<S, T>(m: Stepper<S, T>, s: S, limit: int, fuel: nat)
    requires m.halted(s) || limit == 0
    ensures Loop(m, s, limit, fuel) == Result(s, m.ok, 0)
  {}

  /** A run is one step followed by the rest of the run, and stops at the first trap that is not OK. */
  lemma LoopUnfold<S, T>(m: Stepper<S, T>, s: S, limit: int, fuel: nat)
    requires !m.halted(s) && limit != 0 && (limit > 0 || fuel > 0)
    ensures var o := m.step(s);
      var r := Loop(m, s, limit, fuel);
      && (o.trap != m.ok ==> r == Result(o.state, o.trap, 1))
      && (o.trap == m.ok ==>
            var rest := Loop(m, o.state, NextLimit(limit), NextFuel(limit, fuel));
            r == Result(rest.state, rest.trap, rest.steps + 1))
  {}

  /** A run that does not return OK ends with the trap of its last step. */
  lemma {:induction false} LoopTrap<S, T>(m: Stepper<S, T>, s: S, limit: int, fuel: nat)
    requires Loop(m, s, limit, fuel).trap != m.ok
    ensures var r := Loop(m, s, limit, fuel);
      r.steps >= 1 && exists p :: m.step(p) == Outcome(r.state, r.trap)
    decreases if limit > 0 then limit else 0, fuel
  {
    var o := m.step(s);
    LoopUnfold(m, s, limit, fuel);
    if o.trap != m.ok {
      assert m.step(s) == Outcome(o.state, o.trap);
    } else {
      LoopTrap(m, o.state, NextLimit(limit), NextFuel(limit, fuel));
    }
  }

  /** The fuel only bounds runs with a negative budget. */
  lemma {:induction false} LoopFuelIrrelevant<S, T>(m: Stepper<S, T>, s: S, limit: nat, f1: nat, f2: nat)
    ensures Loop(m, s, limit, f1) == Loop(m, s, limit, f2)
    decreases limit
  {
    if limit > 0 && !m.halted(s) {
      LoopUnfold(m, s, limit, f1);
      LoopUnfold(m, s, limit, f2);
      if m.step(s).trap == m.ok {
        LoopFuelIrrelevant(m, m.step(s).state, limit - 1, f1, f2);
      }
    }
  }

  /**
   * A run of `a + b` steps is a run of `a` steps followed, when that one ended
   * with neither a trap nor a halt, by a run of `b` steps from where it stopped.
   */
  lemma LoopSplit<S, T>(m: Stepper<S, T>, s: S, a: nat, b: nat, fuel: nat)
    ensures var r1 := Loop(m, s, a, fuel);
      var r := Loop(m, s, a + b, fuel);
      && (r1.trap != m.ok || m.halted(r1.state) ==> r == r1)
      && (r1.trap == m.ok && !m.halted(r1.state) ==>
            var r2 := Loop(m, r1.state, b, fuel);
            r1.steps == a && r == Result(r2.state, r2.trap, a + r2.steps))
  {
    var r1 := Loop(m, s, a, fuel);
    if r1.trap != m.ok || m.halted(r1.state) {
      LoopSplitStopped(m, s, a, b, fuel);
    } else {
      LoopSplitContinued(m, s, a, b, fuel);
    }
  }

  lemma {:induction false} LoopSplitStopped<S, T>(m: Stepper<S, T>, s: S, a: nat, b: nat, fuel: nat)
    requires Loop(m, s, a, fuel).trap != m.ok || m.halted(Loop(m, s, a, fuel).state)
    ensures Loop(m, s, a + b, fuel) == Loop(m, s, a, fuel)
    decreases a
  {
    if m.halted(s) {
      LoopNothing(m, s, a, fuel);
      LoopNothing(m, s, a + b, fuel);
    } else {
      LoopUnfold(m, s, a, fuel);
      LoopUnfold(m, s, a + b, fuel);
      if m.step(s).trap == m.ok {
        LoopSplitStopped(m, m.step(s).state, a - 1, b, fuel);
      }
    }
  }

  lemma {:induction false} LoopSplitContinued<S, T>(m: Stepper<S, T>, s: S, a: nat, b: nat, fuel: nat)
    requires Loop(m, s, a, fuel).trap == m.ok && !m.halted(Loop(m, s, a, fuel).state)
    ensures var r1 := Loop(m, s, a, fuel);
      var r2 := Loop(m, r1.state, b, fuel);
      r1.steps == a && Loop(m, s, a + b, fuel) == Result(r2.state, r2.trap, a + r2.steps)
    decreases a
  {
    if a == 0 {
      LoopNothing(m, s, a, fuel);
    } else {
      LoopUnfold(m, s, a, fuel);
      LoopUnfold(m, s, a + b, fuel);
      LoopSplitContinued(m, m.step(s).state, a - 1, b, fuel);
    }
  }
}
