/** The SIMD core: an in-order instruction queue that freezes while one memory read is outstanding. */
module Simd {
  import opened Vectors
  import opened Ports
  import opened Gru
  import Feeder
  import Router

  datatype SIMDOpcode = NOP | LOAD | STORE | ADD_VEC | MUL_VEC | PUSH_ARR | SIGMOID | TANH | HADAMARD | TIME_ENCODE

  datatype SIMDInstruction = SIMDInstruction(op: SIMDOpcode, destReg: nat, src1Reg: nat, src2Reg: nat,
                                             memAddr: nat, sizeBytes: nat)

  /** The nonlinear functions of the core, and the time embedding of a timestamp per lane. */
  datatype Units = Units(squash: Squash, embed: (nat, nat) -> real)

  /** A register file. */
  type Registers = seq<real>

  // ---- lane operations, in place

  /** How many lanes an instruction touches before one of its register numbers runs off the file. */
  function Lanes(size: nat, inst: SIMDInstruction): nat {
    var last := match inst.op
      case SIGMOID | TANH => Max(inst.src1Reg, inst.destReg)
      case HADAMARD => Max(inst.src1Reg, Max(inst.src2Reg, inst.destReg))
      case TIME_ENCODE => inst.destReg
      case _ => size;
    if last >= size then 0 else if size - last < 16 then size - last else 16
  }

  function Max(a: nat, b: nat): nat {
    if a >= b then a else b
  }

  /** The value of lane i, read from the registers as they are. */
  function LaneValue(u: Units, regs: Registers, inst: SIMDInstruction, i: nat): real
    requires i < Lanes(|regs|, inst)
  {
    match inst.op
    case SIGMOID => u.squash.sigmoid(regs[inst.src1Reg + i])
    case TANH => u.squash.tanh(regs[inst.src1Reg + i])
    case HADAMARD => regs[inst.src1Reg + i] * regs[inst.src2Reg + i]
    case _ => u.embed(inst.memAddr, i)
  }

  /** The registers after the first n lanes, each of which sees the lanes before it. */
  function AfterLanes(u: Units, regs: Registers, inst: SIMDInstruction, n: nat): (r: Registers)
    requires n <= Lanes(|regs|, inst)
    ensures |r| == |regs|
  {
    if n == 0 then regs
    else
      var r := AfterLanes(u, regs, inst, n - 1);
      r[inst.destReg + n - 1 := LaneValue(u, r, inst, n - 1)]
  }

  // ---- instructions

  /** Register numbers that the original reads or writes without a check are in range. */
  predicate InRange(size: nat, inst: SIMDInstruction) {
    match inst.op
    case LOAD => inst.destReg <= size
    case ADD_VEC | MUL_VEC => inst.destReg < size && inst.src1Reg < size && inst.src2Reg < size
    case PUSH_ARR => inst.src1Reg + 16 <= size
    case _ => true
  }

  predicate AllInRange(size: nat, program: seq<SIMDInstruction>) {
    forall i :: 0 <= i < |program| ==> InRange(size, program[i])
  }

  function Product(a: real, b: real): real {
    a * b
  }

  /** The registers after an instruction that does not wait for memory. */
  function Computed(u: Units, regs: Registers, inst: SIMDInstruction): (r: Registers)
    requires InRange(|regs|, inst)
    ensures |r| == |regs|
  {
    match inst.op
    case ADD_VEC => regs[inst.destReg := regs[inst.src1Reg] + regs[inst.src2Reg]]
    case MUL_VEC => regs[inst.destReg := Product(regs[inst.src1Reg], regs[inst.src2Reg])]
    case SIGMOID | TANH | HADAMARD | TIME_ENCODE => AfterLanes(u, regs, inst, Lanes(|regs|, inst))
    case _ => regs
  }

  /** A reply writes at most sixteen values, and nothing beyond the register file. */
  function Filled(regs: Registers, dest: nat, payload: seq<real>): (r: Registers)
    requires dest <= |regs|
    ensures |r| == |regs|
  {
    var count := Fitting(|regs|, dest, |payload|);
    regs[..dest] + payload[..count] + regs[dest + count..]
  }

  function Fitting(size: nat, dest: nat, offered: nat): (count: nat)
    requires dest <= size
    ensures count <= offered && dest + count <= size
  {
    var count := if offered < 16 then offered else 16;
    if dest + count > size then size - dest else count
  }

  /** The read that a LOAD sends out. */
  function Request(pcId: Port, inst: SIMDInstruction): MemoryBurst {
    MemoryBurst(inst.memAddr, inst.sizeBytes, pcId, CoreReply)
  }

  // ---- the clocked machine

  /** dest is -1 when no read is outstanding; the three logs record what went in and out. */
  datatype Core = Core(regs: Registers, program: seq<SIMDInstruction>, stalled: bool, dest: int,
                       pushed: seq<Vec>, requested: seq<MemoryBurst>, received: seq<seq<real>>)

  ghost predicate Sound(c: Core) {
    && AllInRange(|c.regs|, c.program)
    && (if c.stalled then 0 <= c.dest <= |c.regs| else c.dest == -1)
  }

  function Ticked(u: Units, pcId: Port, c: Core): (r: Core)
    requires Sound(c)
    ensures Sound(r)
  {
    if c.stalled || c.program == [] then c
    else
      var inst, rest := c.program[0], c.program[1..];
      match inst.op
      case LOAD =>
        c.(program := rest, stalled := true, dest := inst.destReg, requested := c.requested + [Request(pcId, inst)])
      case PUSH_ARR => c.(program := rest, pushed := c.pushed + [c.regs[inst.src1Reg..inst.src1Reg + 16]])
      case _ => c.(program := rest, regs := Computed(u, c.regs, inst))
  }

  function Replied(c: Core, payload: seq<real>): (r: Core)
    requires Sound(c)
    ensures Sound(r)
  {
    if !c.stalled || c.dest == -1 then c
    else c.(regs := Filled(c.regs, c.dest, payload), stalled := false, dest := -1, received := c.received + [payload])
  }

  function Loaded(c: Core, program: seq<SIMDInstruction>): Core {
    c.(program := program, stalled := false, dest := -1)
  }

  class SIMDCore {
    const units: Units
    const pcId: Port
    const router: Router.HierarchicalRouter
    const feeder: Feeder.ArrayFeeder
    const registers: array<real>
    var queue: seq<SIMDInstruction>
    var isStalled: bool
    var pendingDestReg: int
    ghost var pushed: seq<Vec>
    ghost var requested: seq<MemoryBurst>
    ghost var received: seq<seq<real>>

    ghost predicate Valid()
      reads this, registers
    {
      router.Valid() && feeder.Valid() && Sound(Now())
    }

    ghost function Now(): Core
      reads this, registers
    {
      Core(registers[..], queue, isStalled, pendingDestReg, pushed, requested, received)
    }

    constructor (units: Units, pcId: Port, router: Router.HierarchicalRouter, feeder: Feeder.ArrayFeeder,
                 numRegisters: nat)
      requires router.Valid() && feeder.Valid()
      ensures Valid() && fresh(registers)
      ensures this.units == units && this.pcId == pcId && this.router == router && this.feeder == feeder
      ensures Now() == Core(Constant(numRegisters), [], false, -1, [], [], [])
    {
      this.units, this.pcId, this.router, this.feeder := units, pcId, router, feeder;
      registers := new real[numRegisters](_ => 0.0);
      queue, isStalled, pendingDestReg := [], false, -1;
      pushed, requested, received := [], [], [];
    }

    method LoadProgram(program: seq<SIMDInstruction>)
      requires Valid() && AllInRange(registers.Length, program)
      modifies this
      ensures Valid() && Now() == Loaded(old(Now()), program)
      ensures queue == program && !isStalled && pendingDestReg == -1 && registers[..] == old(registers[..])
    {
      queue, isStalled, pendingDestReg := program, false, -1;
    }

    /** The in-place lane loop of the activation, product and embedding instructions. */
    method RunLanes(inst: SIMDInstruction)
      modifies registers
      ensures registers[..] == AfterLanes(units, old(registers[..]), inst, Lanes(registers.Length, inst))
    {
      ghost var before := registers[..];
      var n := Lanes(registers.Length, inst);
      for i := 0 to n
        invariant registers[..] == AfterLanes(units, before, inst, i)
      {
        registers[inst.destReg + i] := LaneValue(units, registers[..], inst, i);
      }
    }

    method Compute(inst: SIMDInstruction)
      requires InRange(registers.Length, inst)
      modifies registers
      ensures registers[..] == Computed(units, old(registers[..]), inst)
    {
      match inst.op
      case ADD_VEC => registers[inst.destReg] := registers[inst.src1Reg] + registers[inst.src2Reg];
      case MUL_VEC =>
        registers[inst.destReg] := Product(registers[inst.src1Reg], registers[inst.src2Reg]);
      case SIGMOID | TANH | HADAMARD | TIME_ENCODE => RunLanes(inst);
      case _ =>
    }

    /** A LOAD sends its read and freezes the core. */
    method Send(inst: SIMDInstruction)
      requires router.Valid()
      modifies this`isStalled, this`pendingDestReg, this`requested, router
      ensures isStalled && pendingDestReg == inst.destReg && requested == old(requested) + [Request(pcId, inst)]
      ensures router.Now() == Router.Routed(old(router.Now()), Request(pcId, inst))
    {
      var burst := Request(pcId, inst);
      router.EnqueueRequest(burst);
      requested := requested + [burst];
      isStalled, pendingDestReg := true, inst.destReg;
    }

    /** A PUSH_ARR hands sixteen registers to the feeder. */
    method Push(inst: SIMDInstruction)
      requires feeder.Valid() && inst.src1Reg + 16 <= registers.Length
      modifies this`pushed, feeder.delayLines
      ensures pushed == old(pushed) + [old(registers[..])[inst.src1Reg..inst.src1Reg + 16]]
      ensures feeder.Contents() == Feeder.Pushed(old(feeder.Contents()), pushed[|old(pushed)|])
      ensures registers[..] == old(registers[..])
    {
      var vec := registers[inst.src1Reg..inst.src1Reg + 16];
      assert vec[..16] == vec == registers[..][inst.src1Reg..inst.src1Reg + 16];
      feeder.PushVector(vec);
      pushed := pushed + [vec];
    }

    /** One clock: nothing while stalled or out of instructions, else the next instruction. */
    method Tick()
      requires Valid()
      modifies this, registers, router, feeder.delayLines
      ensures Valid() && Now() == Ticked(units, pcId, old(Now()))
      ensures router.Now() == if |requested| == |old(requested)| then old(router.Now())
                              else Router.Routed(old(router.Now()), requested[|old(requested)|])
      ensures feeder.Contents() == if |pushed| == |old(pushed)| then old(feeder.Contents())
                                   else Feeder.Pushed(old(feeder.Contents()), pushed[|old(pushed)|])
    {
      if isStalled || queue == [] {
        return;
      }
      var inst := queue[0];
      if inst.op == LOAD {
        Send(inst);
      } else if inst.op == PUSH_ARR {
        Push(inst);
      } else {
        Compute(inst);
      }
      queue := queue[1..];
    }

    /** Writes what fits of a reply into the registers from dest on. */
    method CopyIn(dest: nat, burstData: seq<real>)
      requires dest <= registers.Length
      modifies registers
      ensures registers[..] == Filled(old(registers[..]), dest, burstData)
    {
      ghost var before := registers[..];
      var count := Fitting(registers.Length, dest, |burstData|);
      for i := 0 to count
        invariant registers[..] == before[..dest] + burstData[..i] + before[dest + i..]
      {
        registers[dest + i] := burstData[i];
      }
    }

    /** The memory's answer to the outstanding read; ignored when there is none. */
    method OnMemoryReply(burstData: seq<real>)
      requires Valid()
      modifies this, registers
      ensures Valid() && Now() == Replied(old(Now()), burstData)
    {
      if !isStalled || pendingDestReg == -1 {
        return;
      }
      CopyIn(pendingDestReg, burstData);
      received := received + [burstData];
      isStalled, pendingDestReg := false, -1;
    }

    predicate IsDone()
      reads this
    {
      queue == [] && !isStalled
    }

    method WriteRegister(reg: nat, value: real)
      requires Valid()
      modifies registers
      ensures Valid()
      ensures Now()
           == old(Now()).(regs := if reg < registers.Length then old(registers[..])[reg := value]
                                  else old(registers[..]))
    {
      if reg < registers.Length {
        registers[reg] := value;
      }
    }

    function ReadRegister(reg: nat): real
      reads registers
    {
      if reg < registers.Length then registers[reg] else 0.0
    }
  }
}
