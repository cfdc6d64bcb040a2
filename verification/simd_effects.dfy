/** What each instruction of the SIMD core does, register by register, in plain arithmetic. */
module SimdEffects {
  import opened Ports
  import opened Simd
  import opened SimdRun

  // ---- one tick of a core that is not waiting

  /** A core that is about to execute inst. */
  ghost predicate Next(c: Core, inst: SIMDInstruction) {
    Sound(c) && !c.stalled && c.program != [] && c.program[0] == inst
  }

  /** Only the registers have changed, and the instruction is gone from the queue. */
  ghost predicate OnlyRegisters(c: Core, c': Core) {
    c.program != [] && c' == c.(regs := c'.regs, program := c.program[1..]) && |c'.regs| == |c.regs|
  }

  /** ADD_VEC and MUL_VEC: the destination gets the sum or the product of the two sources. */
  lemma ScalarTick(u: Units, pcId: Port, c: Core, inst: SIMDInstruction) returns (c': Core)
    requires Next(c, inst) && (inst.op == ADD_VEC || inst.op == MUL_VEC)
    ensures c' == Ticked(u, pcId, c) && OnlyRegisters(c, c') && inst.destReg < |c.regs|
    ensures inst.src1Reg < |c.regs| && inst.src2Reg < |c.regs|
    ensures inst.op == ADD_VEC ==> c'.regs[inst.destReg] == c.regs[inst.src1Reg] + c.regs[inst.src2Reg]
    ensures inst.op == MUL_VEC ==> c'.regs[inst.destReg] == c.regs[inst.src1Reg] * c.regs[inst.src2Reg]
    ensures forall r :: 0 <= r < |c.regs| && r != inst.destReg ==> c'.regs[r] == c.regs[r]
  {
    c' := Ticked(u, pcId, c);
    assert InRange(|c.regs|, c.program[0]);
  }

  /** NOP and STORE change no register. */
  lemma EmptyTick(u: Units, pcId: Port, c: Core, inst: SIMDInstruction) returns (c': Core)
    requires Next(c, inst) && (inst.op == NOP || inst.op == STORE)
    ensures c' == Ticked(u, pcId, c) && OnlyRegisters(c, c') && c'.regs == c.regs
  {
    c' := Ticked(u, pcId, c);
  }

  /** LOAD sends its read and freezes the core. */
  lemma LoadTick(u: Units, pcId: Port, c: Core, inst: SIMDInstruction) returns (c': Core)
    requires Next(c, inst) && inst.op == LOAD
    ensures c' == Ticked(u, pcId, c)
    ensures c' == Core(c.regs, c.program[1..], true, inst.destReg, c.pushed,
                       c.requested + [MemoryBurst(inst.memAddr, inst.sizeBytes, pcId, CoreReply)], c.received)
  {
    c' := Ticked(u, pcId, c);
  }

  /** PUSH_ARR hands over the sixteen registers from the source on, in order. */
  lemma PushTick(u: Units, pcId: Port, c: Core, inst: SIMDInstruction) returns (c': Core)
    requires Next(c, inst) && inst.op == PUSH_ARR
    ensures c' == Ticked(u, pcId, c) && inst.src1Reg + 16 <= |c.regs|
    ensures c' == c.(program := c.program[1..], pushed := c'.pushed) && |c'.pushed| == |c.pushed| + 1
    ensures c'.pushed[..|c.pushed|] == c.pushed
    ensures forall i :: 0 <= i < 16 ==> c'.pushed[|c.pushed|][i] == c.regs[inst.src1Reg + i]
  {
    c' := Ticked(u, pcId, c);
    assert InRange(|c.regs|, c.program[0]);
  }

  // ---- the lane instructions

  /** What the lane that writes register r finds in register s: an earlier lane's result, or the old value. */
  function Seen(before: Registers, after: Registers, dest: nat, r: nat, s: nat): real
    requires s < |before| == |after|
  {
    if dest <= s < r then after[s] else before[s]
  }

  /** How many lanes there are when the highest register number is `last`: sixteen, or what is left. */
  function Room(size: nat, last: nat): nat {
    if last >= size then 0 else if size - last < 16 then size - last else 16
  }

  lemma SeenByLane(u: Units, regs: Registers, inst: SIMDInstruction, n: nat, i: nat, s: nat, after: Registers)
    requires i < n <= Lanes(|regs|, inst) && s < |regs| && after == AfterLanes(u, regs, inst, n)
    ensures AfterLanes(u, regs, inst, i)[s] == Seen(regs, after, inst.destReg, inst.destReg + i, s)
  {
    if inst.destReg <= s < inst.destReg + i {
      LaneStays(u, regs, inst, i, s - inst.destReg);
      LaneStays(u, regs, inst, n, s - inst.destReg);
    } else {
      Untouched(u, regs, inst, i, s);
    }
  }

  lemma ActivationLane(u: Units, regs: Registers, inst: SIMDInstruction, i: nat, x: real)
    requires Unary(inst) && i < Lanes(|regs|, inst) && regs[inst.src1Reg + i] == x
    ensures LaneValue(u, regs, inst, i) == if inst.op == SIGMOID then u.squash.sigmoid(x) else u.squash.tanh(x)
  {
  }

  lemma ProductLane(u: Units, regs: Registers, inst: SIMDInstruction, i: nat, x: real, y: real)
    requires inst.op == HADAMARD && i < Lanes(|regs|, inst)
    requires regs[inst.src1Reg + i] == x && regs[inst.src2Reg + i] == y
    ensures LaneValue(u, regs, inst, i) == x * y
  {
  }

  /** Lane i writes its own destination once. */
  lemma LaneWritten(u: Units, regs: Registers, inst: SIMDInstruction, n: nat, i: nat) returns (before: Registers)
    requires i < n <= Lanes(|regs|, inst)
    ensures before == AfterLanes(u, regs, inst, i) && |before| == |regs|
    ensures AfterLanes(u, regs, inst, n)[inst.destReg + i] == LaneValue(u, before, inst, i)
  {
    before := AfterLanes(u, regs, inst, i);
    LaneStays(u, regs, inst, n, i);
  }

  lemma LaneRegisters(u: Units, pcId: Port, c: Core, inst: SIMDInstruction) returns (c': Core, n: nat)
    requires Next(c, inst) && (inst.op == SIGMOID || inst.op == TANH || inst.op == HADAMARD || inst.op == TIME_ENCODE)
    ensures c' == Ticked(u, pcId, c) && OnlyRegisters(c, c') && n == Lanes(|c.regs|, inst)
    ensures c'.regs == AfterLanes(u, c.regs, inst, n)
    ensures forall r :: 0 <= r < |c.regs| && !(inst.destReg <= r < inst.destReg + n) ==> c'.regs[r] == c.regs[r]
  {
    c' := Ticked(u, pcId, c);
    n := Lanes(|c.regs|, inst);
    forall r | 0 <= r < |c.regs| && !(inst.destReg <= r < inst.destReg + n)
      ensures c'.regs[r] == c.regs[r]
    {
      Untouched(u, c.regs, inst, n, r);
    }
  }

  /**
   * SIGMOID and TANH, in place: lane i applies the function to what it finds in register src + i,
   * which is the result of an earlier lane if that lane wrote there. Nothing else changes.
   */
  lemma ActivationTick(u: Units, pcId: Port, c: Core, inst: SIMDInstruction) returns (c': Core, n: nat)
    requires Next(c, inst) && (inst.op == SIGMOID || inst.op == TANH)
    ensures c' == Ticked(u, pcId, c) && OnlyRegisters(c, c')
    ensures n == Room(|c.regs|, if inst.src1Reg >= inst.destReg then inst.src1Reg else inst.destReg)
    ensures forall r :: inst.destReg <= r < inst.destReg + n ==>
      var x := Seen(c.regs, c'.regs, inst.destReg, r, inst.src1Reg + (r - inst.destReg));
      c'.regs[r] == if inst.op == SIGMOID then u.squash.sigmoid(x) else u.squash.tanh(x)
    ensures forall r :: 0 <= r < |c.regs| && !(inst.destReg <= r < inst.destReg + n) ==> c'.regs[r] == c.regs[r]
  {
    c', n := LaneRegisters(u, pcId, c, inst);
    forall r | inst.destReg <= r < inst.destReg + n
      ensures var x := Seen(c.regs, c'.regs, inst.destReg, r, inst.src1Reg + (r - inst.destReg));
        c'.regs[r] == if inst.op == SIGMOID then u.squash.sigmoid(x) else u.squash.tanh(x)
    {
      var i := r - inst.destReg;
      var before := LaneWritten(u, c.regs, inst, n, i);
      SeenByLane(u, c.regs, inst, n, i, inst.src1Reg + i, c'.regs);
      ActivationLane(u, before, inst, i, before[inst.src1Reg + i]);
    }
  }

  lemma ProductWritten(u: Units, regs: Registers, inst: SIMDInstruction, n: nat, i: nat, after: Registers)
    requires inst.op == HADAMARD && i < n <= Lanes(|regs|, inst) && after == AfterLanes(u, regs, inst, n)
    ensures after[inst.destReg + i]
         == Seen(regs, after, inst.destReg, inst.destReg + i, inst.src1Reg + i)
            * Seen(regs, after, inst.destReg, inst.destReg + i, inst.src2Reg + i)
  {
    var before := LaneWritten(u, regs, inst, n, i);
    SeenByLane(u, regs, inst, n, i, inst.src1Reg + i, after);
    SeenByLane(u, regs, inst, n, i, inst.src2Reg + i, after);
    var x, y := Seen(regs, after, inst.destReg, inst.destReg + i, inst.src1Reg + i),
                Seen(regs, after, inst.destReg, inst.destReg + i, inst.src2Reg + i);
    ProductLane(u, before, inst, i, x, y);
  }

  /** Register r holds the product of what its lane finds as far beyond the two sources. */
  ghost predicate MultipliedSeen(before: Registers, after: Registers, inst: SIMDInstruction, r: nat)
    requires inst.destReg <= r < |after| == |before|
  {
    var i := r - inst.destReg;
    && inst.src1Reg + i < |before| && inst.src2Reg + i < |before|
    && after[r] == Seen(before, after, inst.destReg, r, inst.src1Reg + i)
                   * Seen(before, after, inst.destReg, r, inst.src2Reg + i)
  }

  /** HADAMARD, likewise: lane i multiplies what it finds in src1 + i and src2 + i. */
  lemma ProductTick(u: Units, pcId: Port, c: Core, inst: SIMDInstruction) returns (c': Core, n: nat)
    requires Next(c, inst) && inst.op == HADAMARD
    ensures c' == Ticked(u, pcId, c) && OnlyRegisters(c, c')
    ensures n == Room(|c.regs|, Max(inst.src1Reg, Max(inst.src2Reg, inst.destReg)))
    ensures forall r :: inst.destReg <= r < inst.destReg + n ==> MultipliedSeen(c.regs, c'.regs, inst, r)
    ensures forall r :: 0 <= r < |c.regs| && !(inst.destReg <= r < inst.destReg + n) ==> c'.regs[r] == c.regs[r]
  {
    c', n := LaneRegisters(u, pcId, c, inst);
    forall r | inst.destReg <= r < inst.destReg + n
      ensures MultipliedSeen(c.regs, c'.regs, inst, r)
    {
      ProductWritten(u, c.regs, inst, n, r - inst.destReg, c'.regs);
    }
  }

  /** TIME_ENCODE: lane i gets the embedding of the timestamp at i. */
  lemma EmbedTick(u: Units, pcId: Port, c: Core, inst: SIMDInstruction) returns (c': Core, n: nat)
    requires Next(c, inst) && inst.op == TIME_ENCODE
    ensures c' == Ticked(u, pcId, c) && OnlyRegisters(c, c') && n == Room(|c.regs|, inst.destReg)
    ensures forall r :: inst.destReg <= r < inst.destReg + n ==> c'.regs[r] == u.embed(inst.memAddr, r - inst.destReg)
    ensures forall r :: 0 <= r < |c.regs| && !(inst.destReg <= r < inst.destReg + n) ==> c'.regs[r] == c.regs[r]
  {
    c', n := LaneRegisters(u, pcId, c, inst);
    forall r | inst.destReg <= r < inst.destReg + n
      ensures c'.regs[r] == u.embed(inst.memAddr, r - inst.destReg)
    {
      var before := LaneWritten(u, c.regs, inst, n, r - inst.destReg);
    }
  }

  // ---- the reply

  /**
   * A reply writes its values into the registers from the destination on: at most sixteen of them,
   * and none beyond the file. It unfreezes the core and changes nothing else.
   */
  lemma ReplyEffect(c: Core, payload: seq<real>) returns (c': Core)
    requires Sound(c) && c.stalled
    ensures c' == Replied(c, payload)
    ensures c' == Core(c'.regs, c.program, false, -1, c.pushed, c.requested, c.received + [payload])
    ensures |c'.regs| == |c.regs|
    ensures forall r :: 0 <= r < |c.regs| ==>
      c'.regs[r] == if c.dest <= r < c.dest + 16 && r - c.dest < |payload| then payload[r - c.dest] else c.regs[r]
  {
    c' := Replied(c, payload);
  }

  // ---- programs of one instruction, run to their end under any clocks and replies

  /** The core before the only instruction of a program. */
  function Fresh(regs: Registers, inst: SIMDInstruction): Core {
    Core(regs, [inst], false, -1, [], [], [])
  }

  /** Without a load the core ends as one tick leaves it. */
  lemma EndsAsTicked(u: Units, pcId: Port, regs: Registers, inst: SIMDInstruction, es: seq<Event>) returns (c: Core)
    requires InRange(|regs|, inst) && inst.op != LOAD && Done(After(u, pcId, regs, [inst], es))
    ensures c == After(u, pcId, regs, [inst], es) && Next(Fresh(regs, inst), inst)
    ensures c.regs == Ticked(u, pcId, Fresh(regs, inst)).regs && c.pushed == Ticked(u, pcId, Fresh(regs, inst)).pushed
  {
    c := After(u, pcId, regs, [inst], es);
    DoneIsSequential(u, pcId, regs, [inst], es);
    assert [inst][..0] == [];
    var c', o' := TickExecutes(u, pcId, Fresh(regs, inst), Outcome(regs, [], []));
  }

  /** A load ends as its reply leaves it: it requested one read and received one payload. */
  lemma OneLoad(u: Units, pcId: Port, regs: Registers, inst: SIMDInstruction, es: seq<Event>) returns (c: Core)
    requires InRange(|regs|, inst) && inst.op == LOAD && Done(After(u, pcId, regs, [inst], es))
    ensures c == After(u, pcId, regs, [inst], es) && c.pushed == [] && |c.received| == 1 && |c.regs| == |regs|
    ensures c.requested == [MemoryBurst(inst.memAddr, inst.sizeBytes, pcId, CoreReply)]
    ensures forall r :: 0 <= r < |regs| ==>
      c.regs[r] == if inst.destReg <= r < inst.destReg + 16 && r - inst.destReg < |c.received[0]|
                   then c.received[0][r - inst.destReg] else regs[r]
  {
    c := EndsAsFilled(u, pcId, regs, inst, es);
    FilledAt(regs, inst.destReg, c.received[0]);
  }

  lemma EndsAsFilled(u: Units, pcId: Port, regs: Registers, inst: SIMDInstruction, es: seq<Event>) returns (c: Core)
    requires InRange(|regs|, inst) && inst.op == LOAD && Done(After(u, pcId, regs, [inst], es))
    ensures c == After(u, pcId, regs, [inst], es) && c.pushed == [] && |c.received| == 1 && inst.destReg <= |regs|
    ensures c.requested == [MemoryBurst(inst.memAddr, inst.sizeBytes, pcId, CoreReply)]
    ensures c.regs == Filled(regs, inst.destReg, c.received[0])
  {
    c := After(u, pcId, regs, [inst], es);
    DoneIsSequential(u, pcId, regs, [inst], es);
    assert [inst][..0] == [];
  }

  lemma FilledAt(regs: Registers, dest: nat, payload: seq<real>)
    requires dest <= |regs|
    ensures forall r :: 0 <= r < |regs| ==>
      Filled(regs, dest, payload)[r]
      == if dest <= r < dest + 16 && r - dest < |payload| then payload[r - dest] else regs[r]
  {
  }

  /** ADD_VEC, MUL_VEC, NOP and STORE on their own. */
  lemma OneScalar(u: Units, pcId: Port, regs: Registers, inst: SIMDInstruction, es: seq<Event>) returns (c: Core)
    requires InRange(|regs|, inst) && Done(After(u, pcId, regs, [inst], es))
    requires inst.op == ADD_VEC || inst.op == MUL_VEC || inst.op == NOP || inst.op == STORE
    ensures c == After(u, pcId, regs, [inst], es) && |c.regs| == |regs|
    ensures inst.op == NOP || inst.op == STORE ==> c.regs == regs
    ensures inst.op == ADD_VEC || inst.op == MUL_VEC ==>
      inst.destReg < |regs| && inst.src1Reg < |regs| && inst.src2Reg < |regs|
    ensures inst.op == ADD_VEC ==> c.regs[inst.destReg] == regs[inst.src1Reg] + regs[inst.src2Reg]
    ensures inst.op == MUL_VEC ==> c.regs[inst.destReg] == regs[inst.src1Reg] * regs[inst.src2Reg]
    ensures forall r :: 0 <= r < |regs| && r != inst.destReg ==> c.regs[r] == regs[r]
  {
    c := EndsAsTicked(u, pcId, regs, inst, es);
    if inst.op == ADD_VEC || inst.op == MUL_VEC {
      var c' := ScalarTick(u, pcId, Fresh(regs, inst), inst);
    } else {
      var c' := EmptyTick(u, pcId, Fresh(regs, inst), inst);
    }
  }

  /** TIME_ENCODE on its own. */
  lemma OneEmbedding(u: Units, pcId: Port, regs: Registers, inst: SIMDInstruction, es: seq<Event>)
    returns (c: Core, n: nat)
    requires inst.op == TIME_ENCODE && Done(After(u, pcId, regs, [inst], es))
    ensures c == After(u, pcId, regs, [inst], es) && |c.regs| == |regs| && n == Room(|regs|, inst.destReg)
    ensures forall r :: 0 <= r < |regs| ==>
      c.regs[r] == if inst.destReg <= r < inst.destReg + n then u.embed(inst.memAddr, r - inst.destReg) else regs[r]
  {
    c := EndsAsTicked(u, pcId, regs, inst, es);
    var c';
    c', n := EmbedTick(u, pcId, Fresh(regs, inst), inst);
  }

  /** An activation on its own, where no lane reads what an earlier one wrote. */
  lemma OneActivation(u: Units, pcId: Port, regs: Registers, inst: SIMDInstruction, es: seq<Event>)
    returns (c: Core, n: nat)
    requires (inst.op == SIGMOID || inst.op == TANH) && Done(After(u, pcId, regs, [inst], es))
    requires inst.destReg <= inst.src1Reg || inst.src1Reg + 16 <= inst.destReg
    ensures c == After(u, pcId, regs, [inst], es) && |c.regs| == |regs|
    ensures n == Room(|regs|, if inst.src1Reg >= inst.destReg then inst.src1Reg else inst.destReg)
    ensures forall r :: inst.destReg <= r < inst.destReg + n ==>
      var x := regs[inst.src1Reg + (r - inst.destReg)];
      c.regs[r] == if inst.op == SIGMOID then u.squash.sigmoid(x) else u.squash.tanh(x)
    ensures forall r :: 0 <= r < |regs| && !(inst.destReg <= r < inst.destReg + n) ==> c.regs[r] == regs[r]
  {
    c := EndsAsTicked(u, pcId, regs, inst, es);
    var c';
    c', n := ActivationTick(u, pcId, Fresh(regs, inst), inst);
  }

  /** Register r holds the product of the old registers that lie as far beyond the two sources. */
  ghost predicate MultipliedAt(before: Registers, after: Registers, inst: SIMDInstruction, r: nat)
    requires inst.destReg <= r < |after|
  {
    var i := r - inst.destReg;
    && inst.src1Reg + i < |before| && inst.src2Reg + i < |before|
    && after[r] == before[inst.src1Reg + i] * before[inst.src2Reg + i]
  }

  lemma NothingSeen(before: Registers, after: Registers, inst: SIMDInstruction, r: nat)
    requires inst.destReg <= r < |after| == |before| && r < inst.destReg + 16
    requires inst.destReg <= inst.src1Reg || inst.src1Reg + 16 <= inst.destReg
    requires inst.destReg <= inst.src2Reg || inst.src2Reg + 16 <= inst.destReg
    requires MultipliedSeen(before, after, inst, r)
    ensures MultipliedAt(before, after, inst, r)
  {
  }

  lemma DisjointProductTick(u: Units, pcId: Port, c: Core, inst: SIMDInstruction) returns (c': Core, n: nat)
    requires Next(c, inst) && inst.op == HADAMARD
    requires inst.destReg <= inst.src1Reg || inst.src1Reg + 16 <= inst.destReg
    requires inst.destReg <= inst.src2Reg || inst.src2Reg + 16 <= inst.destReg
    ensures c' == Ticked(u, pcId, c) && OnlyRegisters(c, c')
    ensures n == Room(|c.regs|, Max(inst.src1Reg, Max(inst.src2Reg, inst.destReg)))
    ensures forall r :: inst.destReg <= r < inst.destReg + n ==> MultipliedAt(c.regs, c'.regs, inst, r)
    ensures forall r :: 0 <= r < |c.regs| && !(inst.destReg <= r < inst.destReg + n) ==> c'.regs[r] == c.regs[r]
  {
    c', n := ProductTick(u, pcId, c, inst);
    forall r | inst.destReg <= r < inst.destReg + n
      ensures MultipliedAt(c.regs, c'.regs, inst, r)
    {
      NothingSeen(c.regs, c'.regs, inst, r);
    }
  }

  /** A product on its own, where no lane reads what an earlier one wrote. */
  lemma OneProduct(u: Units, pcId: Port, regs: Registers, inst: SIMDInstruction, es: seq<Event>)
    returns (c: Core, n: nat)
    requires inst.op == HADAMARD && Done(After(u, pcId, regs, [inst], es))
    requires inst.destReg <= inst.src1Reg || inst.src1Reg + 16 <= inst.destReg
    requires inst.destReg <= inst.src2Reg || inst.src2Reg + 16 <= inst.destReg
    ensures c == After(u, pcId, regs, [inst], es) && |c.regs| == |regs|
    ensures n == Room(|regs|, Max(inst.src1Reg, Max(inst.src2Reg, inst.destReg)))
    ensures forall r :: inst.destReg <= r < inst.destReg + n ==> MultipliedAt(regs, c.regs, inst, r)
    ensures forall r :: 0 <= r < |regs| && !(inst.destReg <= r < inst.destReg + n) ==> c.regs[r] == regs[r]
  {
    c := EndsAsTicked(u, pcId, regs, inst, es);
    var c';
    c', n := DisjointProductTick(u, pcId, Fresh(regs, inst), inst);
  }

  /** PUSH_ARR on its own: one vector, the sixteen registers in order. */
  lemma OnePush(u: Units, pcId: Port, regs: Registers, inst: SIMDInstruction, es: seq<Event>) returns (c: Core)
    requires InRange(|regs|, inst) && inst.op == PUSH_ARR && Done(After(u, pcId, regs, [inst], es))
    ensures c == After(u, pcId, regs, [inst], es) && c.regs == regs && |c.pushed| == 1 && inst.src1Reg + 16 <= |regs|
    ensures forall i :: 0 <= i < 16 ==> c.pushed[0][i] == regs[inst.src1Reg + i]
  {
    c := EndsAsTicked(u, pcId, regs, inst, es);
    var c' := PushTick(u, pcId, Fresh(regs, inst), inst);
  }
}
