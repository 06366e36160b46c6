/** The register machine a synthesised control law runs on (tcp-core/src/congestion.rs): eight
    signals, eight single-assignment instructions, the last register is the output. Floating
    point is modelled by real numbers, so the guard against NaN has nothing to do. */
module ControlLaw {

  const REGS_IN: nat := 8
  const PROG_LEN: nat := 8
  const CAP: real := 1000000000.0
  const CWND_CAP: nat := 0x4000_0000

  const R_FLIGHT: nat := 1
  const R_ALPHA: nat := 3
  const R_HALF: nat := 5
  const R_ONE: nat := 6

  datatype SynthOp = OpAdd | OpSub | OpMul | OpDiv | OpMin | OpMax

  datatype Instr = Instr(op: SynthOp, a: nat, b: nat)

  type Program = p: seq<Instr> | |p| == PROG_LEN witness seq(PROG_LEN, i => Instr(OpMax, 0, 0))

  datatype ControlProgram = ControlProgram(inc: Program, md: Program, ecn: Program)

  function Clamp(x: real, lo: real, hi: real): real {
    if x < lo then lo else if x > hi then hi else x
  }

  function Guard(v: real): real { Clamp(v, -CAP, CAP) }

  function Compute(op: SynthOp, a: real, b: real): real {
    match op
    case OpAdd => a + b
    case OpSub => a - b
    case OpMul => a * b
    case OpDiv => if b == 0.0 then 0.0 else a / b
    case OpMin => if a < b then a else b
    case OpMax => if a > b then a else b
  }

  /** An operand index clamped to the registers written so far. */
  function Operand(regs: seq<real>, i: nat): real
    requires regs != []
  {
    regs[if i < |regs| then i else |regs| - 1]
  }

  /** The register file after running a program prefix. */
  function Registers(prog: seq<Instr>, inputs: seq<real>): (regs: seq<real>)
    requires inputs != []
    ensures |regs| == |inputs| + |prog|
  {
    if prog == [] then inputs
    else
      var ins := prog[|prog| - 1];
      var r := Registers(prog[..|prog| - 1], inputs);
      r + [Guard(Compute(ins.op, Operand(r, ins.a), Operand(r, ins.b)))]
  }

  function Eval(prog: Program, inputs: seq<real>): real
    requires |inputs| == REGS_IN
  {
    Registers(prog, inputs)[REGS_IN + PROG_LEN - 1]
  }

  /** Running the machine: one register written per instruction. */
  method RunProgram(prog: Program, inputs: seq<real>) returns (out: real)
    requires |inputs| == REGS_IN
    ensures out == Eval(prog, inputs)
  {
    var reg := new real[REGS_IN + PROG_LEN](_ => 0.0);
    for i := 0 to REGS_IN
      invariant reg[..i] == inputs[..i]
    {
      reg[i] := inputs[i];
    }
    assert reg[..REGS_IN] == inputs;
    assert prog[..0] == [];
    for t := 0 to PROG_LEN
      invariant reg[..REGS_IN + t] == Registers(prog[..t], inputs)
    {
      var n := REGS_IN + t;
      var ins := prog[t];
      ghost var r := reg[..n];
      var a := reg[if ins.a < n then ins.a else n - 1];
      var b := reg[if ins.b < n then ins.b else n - 1];
      assert a == Operand(r, ins.a) && b == Operand(r, ins.b);
      assert prog[..t + 1][..t] == prog[..t] && prog[..t + 1][t] == ins;
      reg[n] := Guard(Compute(ins.op, a, b));
      assert reg[..n + 1] == r + [reg[n]];
    }
    assert prog[..PROG_LEN] == prog;
    out := reg[REGS_IN + PROG_LEN - 1];
  }

  /** A program that computes one operation and carries the result to the output with identity
      `max(x, x)` steps. */
  function Seed(op: SynthOp, a: nat, b: nat): Program {
    seq(PROG_LEN, i requires 0 <= i < PROG_LEN =>
      if i == 0 then Instr(op, a, b) else Instr(OpMax, REGS_IN + i - 1, REGS_IN + i - 1))
  }

  /** Assembling a seed in place. */
  method SeedProgram(op: SynthOp, a: nat, b: nat) returns (prog: Program)
    ensures prog == Seed(op, a, b)
  {
    prog := seq(PROG_LEN, k => Instr(OpMax, 0, 0));
    prog := prog[0 := Instr(op, a, b)];
    var i := 1;
    while i < PROG_LEN
      invariant 1 <= i <= PROG_LEN
      invariant forall k :: 0 <= k < i ==> prog[k] == Seed(op, a, b)[k]
    {
      var prev := REGS_IN + i - 1;
      prog := prog[i := Instr(OpMax, prev, prev)];
      i := i + 1;
    }
  }

  const AIMD := ControlProgram(Seed(OpMax, R_ONE, R_ONE), Seed(OpMul, R_FLIGHT, R_HALF), Seed(OpMul, R_ALPHA, R_HALF))

  const OUT_PREV: nat := REGS_IN + PROG_LEN - 2

  /** The last instruction replaced. */
  function WithOutput(prog: Program, ins: Instr): Program { prog[PROG_LEN - 1 := ins] }

  function RepairLoss(p: ControlProgram): ControlProgram {
    p.(md := WithOutput(p.md, Instr(OpMin, OUT_PREV, R_FLIGHT)))
  }

  function RepairIncrease(p: ControlProgram): ControlProgram {
    p.(inc := WithOutput(p.inc, Instr(OpMax, OUT_PREV, R_HALF)))
  }

  function RepairEcn(p: ControlProgram): ControlProgram { p.(ecn := AIMD.ecn) }

  function Repaired(p: ControlProgram): ControlProgram { RepairEcn(RepairIncrease(RepairLoss(p))) }

  // ── what seeds and repairs compute ──────────────────────────────────────────────────────────

  lemma {:induction false} InputsSurvive(prog: seq<Instr>, inputs: seq<real>, i: nat)
    requires i < |inputs|
    ensures Registers(prog, inputs)[i] == inputs[i]
  {
    if prog != [] { InputsSurvive(prog[..|prog| - 1], inputs, i); }
  }

  lemma RegistersAreGuarded(prog: seq<Instr>, inputs: seq<real>)
    requires inputs != [] && prog != []
    ensures -CAP <= Registers(prog, inputs)[|inputs| + |prog| - 1] <= CAP
  {}

  /** The carries deliver the first instruction's result through every slot. */
  lemma {:induction false} CarryPrefix(op: SynthOp, a: nat, b: nat, inputs: seq<real>, n: nat)
    requires |inputs| == REGS_IN && a < REGS_IN && b < REGS_IN && 1 <= n <= PROG_LEN
    ensures Registers(Seed(op, a, b)[..n], inputs)[REGS_IN + n - 1] == Guard(Compute(op, inputs[a], inputs[b]))
  {
    var p := Seed(op, a, b)[..n];
    var q := Seed(op, a, b)[..n - 1];
    assert p[..n - 1] == q;
    if n == 1 {
      assert q == [];
      assert p[0] == Instr(op, a, b);
    } else {
      CarryPrefix(op, a, b, inputs, n - 1);
      assert p[n - 1] == Instr(OpMax, REGS_IN + n - 2, REGS_IN + n - 2);
    }
  }

  lemma SeedEvaluates(op: SynthOp, a: nat, b: nat, inputs: seq<real>)
    requires |inputs| == REGS_IN && a < REGS_IN && b < REGS_IN
    ensures Eval(Seed(op, a, b), inputs) == Guard(Compute(op, inputs[a], inputs[b]))
  {
    CarryPrefix(op, a, b, inputs, PROG_LEN);
    assert Seed(op, a, b)[..PROG_LEN] == Seed(op, a, b);
  }

  /** A replaced output instruction reads the second-to-last register and one input. */
  lemma OutputReads(prog: Program, op: SynthOp, b: nat, inputs: seq<real>) returns (x: real)
    requires |inputs| == REGS_IN && b < REGS_IN
    ensures -CAP <= x <= CAP
    ensures Eval(WithOutput(prog, Instr(op, OUT_PREV, b)), inputs) == Guard(Compute(op, x, inputs[b]))
  {
    var p := WithOutput(prog, Instr(op, OUT_PREV, b));
    var q := p[..PROG_LEN - 1];
    x := Registers(q, inputs)[OUT_PREV];
    RegistersAreGuarded(q, inputs);
    InputsSurvive(q, inputs, b);
  }

  /** Whatever the program, a repaired loss response never exceeds the flight it reads. */
  lemma RepairedLossIsBounded(p: ControlProgram, inputs: seq<real>)
    requires |inputs| == REGS_IN && inputs[R_FLIGHT] >= 0.0
    ensures Eval(Repaired(p).md, inputs) <= inputs[R_FLIGHT]
  {
    var x := OutputReads(p.md, OpMin, R_FLIGHT, inputs);
  }

  /** Whatever the program, a repaired increase is at least half a segment. */
  lemma RepairedIncreaseIsPositive(p: ControlProgram, inputs: seq<real>)
    requires |inputs| == REGS_IN && inputs[R_HALF] == 0.5
    ensures Eval(Repaired(p).inc, inputs) >= 0.5
  {
    var x := OutputReads(p.inc, OpMax, R_HALF, inputs);
  }

  lemma RepairedEcnIsHalfAlpha(p: ControlProgram, inputs: seq<real>)
    requires |inputs| == REGS_IN && inputs[R_HALF] == 0.5 && 0.0 <= inputs[R_ALPHA] <= 1.0
    ensures Eval(Repaired(p).ecn, inputs) == inputs[R_ALPHA] / 2.0
  {
    SeedEvaluates(OpMul, R_ALPHA, R_HALF, inputs);
  }
}
