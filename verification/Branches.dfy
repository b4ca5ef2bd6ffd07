/** Control transfers: fused compare-and-branch against the two instructions it fuses, delay slots, FLAG. */
module Branches {
  import opened Words
  import opened Alu
  import opened Registers
  import opened CpuModel

  /** The test instruction whose flags the matching Bcc reads. */
  function TestOf(kind: CompareKind): AluOp { if kind.Bbit0? || kind.Bbit1? then Btst else Cmp }

  function ConditionOf(kind: CompareKind): Condition {
    match kind
    case Breq => EQ
    case Brne => NE
    case Brlt => LT
    case Brge => GE
    case Brlo => CS
    case Brhs => CC
    case Bbit0 => EQ
    case Bbit1 => NE
  }

  function Tested(s: CpuState, kind: CompareKind, a: u32, b: u32): CpuState {
    s.(status := WithAluFlags(s.status, FlagsAfter(Compute(TestOf(kind), a, b, s.status.c), AluFlags(s.status))))
  }

  /** The test faults on an unreadable operand and otherwise changes only the flags. */
  lemma TestRuns(s: CpuState, kind: CompareKind, src1: Operand, src2: Operand, size: nat)
    ensures var a, b := Resolve(s, src1), Resolve(s, src2);
            Executed(s, Decoded(AluInsn(TestOf(kind), Discard, src1, src2, true, AL), size)) ==
            if a.None? || b.None? then None else Some(Tested(s, kind, a.value, b.value))
  {
    hide Resolve, Compute, FlagsAfter, TestOf;
  }

  lemma HoldsAfterTest(s: CpuState, kind: CompareKind, a: u32, b: u32, cc: Condition)
    ensures Holds(Tested(s, kind, a, b), cc)
            <==> Evaluate(cc, FlagsAfter(Compute(TestOf(kind), a, b, s.status.c), AluFlags(s.status)))
  {
    hide Compute, FlagsAfter, Evaluate, TestOf;
  }

  lemma BitTestDecides(kind: CompareKind, a: u32, b: u32, c: bool, f: Flags)
    requires kind.Bbit0? || kind.Bbit1?
    ensures Evaluate(ConditionOf(kind), FlagsAfter(Compute(Btst, a, b, c), f)) <==> Taken(kind, a, b)
  {
    hide BitAt;
  }

  lemma RelationIsTaken(kind: CompareKind, a: u32, b: u32)
    requires !kind.Bbit0? && !kind.Bbit1?
    ensures ConditionOf(kind) in {EQ, NE, GT, GE, LT, LE, HI, LS, CS, CC}
    ensures Relation(ConditionOf(kind), a, b) <==> Taken(kind, a, b)
  {
  }

  /** The flags the test leaves make the matching condition the one BRcc or BBIT tests. */
  lemma ConditionAgrees(s: CpuState, kind: CompareKind, a: u32, b: u32)
    ensures Holds(Tested(s, kind, a, b), ConditionOf(kind)) <==> Taken(kind, a, b)
  {
    hide Compute, FlagsAfter, Evaluate, Taken, Relation, ConditionOf, Holds, Tested;
    HoldsAfterTest(s, kind, a, b, ConditionOf(kind));
    if kind.Bbit0? || kind.Bbit1? {
      BitTestDecides(kind, a, b, s.status.c, AluFlags(s.status));
    } else {
      RelationIsTaken(kind, a, b);
      CompareDecides(ConditionOf(kind), a, b, s.status.c, AluFlags(s.status));
    }
  }

  lemma BranchedFrom(s: CpuState, status: Status, offset: int, delay: bool, next: u32)
    ensures Branched(s.(status := status), offset, next, delay, false) ==
            Branched(s, offset, 0, delay, false).(status := status)
  {
  }

  /** BRcc and BBIT do what `cmp` or `btst` followed by the matching Bcc does: they fault on the same operands, are
      taken in the same cases to the same target and with the same delay slot, and differ only in leaving the flags
      alone. */
  lemma BranchCompareIsTestThenBranch(s: CpuState, kind: CompareKind, src1: Operand, src2: Operand, offset: int,
                                      delay: bool, size: nat)
    ensures var test := Executed(s, Decoded(AluInsn(TestOf(kind), Discard, src1, src2, true, AL), size));
            var fused := Executed(s, Decoded(BranchCompare(kind, src1, src2, offset, delay), size));
            && (test.None? <==> fused.None?)
            && (fused.Some? ==>
                  Executed(test.value, Decoded(Branch(offset, ConditionOf(kind), delay, false), size)) ==
                  Some(fused.value.(status := test.value.status)))
  {
    hide Resolve, Compute, FlagsAfter, Taken, Holds, Branched, WithAluFlags, AluFlags, ConditionOf, TestOf;
    var a, b := Resolve(s, src1), Resolve(s, src2);
    TestRuns(s, kind, src1, src2, size);
    if a.Some? && b.Some? {
      ConditionAgrees(s, kind, a.value, b.value);
      BranchedFrom(s, Tested(s, kind, a.value, b.value).status, offset, delay, Wrap(s.pc + size));
    }
  }

  // ----- Delay slots -----

  /** A slot instruction that leaves the control state alone. */
  ghost predicate KeepsControl(d: Decoded) {
    forall s: CpuState :: Executed(s, d).Some? ==>
      Executed(s, d).value.delay == s.delay && Executed(s, d).value.pcWritten == s.pcWritten
  }

  predicate DelayedBranch(s: CpuState, d: Decoded) { d.insn.Branch? && d.insn.delay && Holds(s, d.insn.cc) }

  /** After a delayed branch: falling through, with the slot armed. */
  function Armed(s: CpuState, d: Decoded): CpuState
    requires d.insn.Branch?
  {
    var target := Relative(s, d.insn.offset);
    s.(delay := DelaySlot(target, d.insn.link), bta := target, pcWritten := false, pc := Wrap(s.pc + d.size),
       insns := s.insns + 1)
  }

  /** What the slot instruction sees: BLINK already holds the address after it if the branch links. */
  function InSlot(s: CpuState, slot: Decoded): CpuState
    requires s.delay.DelaySlot?
  {
    var s1 := if s.delay.isLink then s.(regs := s.regs[BLINK := Wrap(s.pc + slot.size)]) else s;
    s1.(delay := NoSlot, pcWritten := false)
  }

  lemma DelayedBranchArms(s: CpuState, code: Code)
    requires s.delay.NoSlot? && !AtLoopEnd(s) && code(s.pc).Some? && DelayedBranch(s, code(s.pc).value)
    ensures Instruction(s, code) == (Armed(s, code(s.pc).value), Retired)
  {
    hide Evaluate, Relative;
    var d := code(s.pc).value;
    SameFetch(s, d.insn.offset);
    assert s.(delay := NoSlot) == s;
    assert Holds(s.(pcWritten := false), d.insn.cc);
  }

  lemma SameFetch(s: CpuState, offset: int)
    ensures Relative(s.(delay := NoSlot, pcWritten := false), offset) == Relative(s, offset)
  {
  }

  lemma SlotRuns(s: CpuState, code: Code)
    requires s.delay.DelaySlot? && code(s.pc).Some? && KeepsControl(code(s.pc).value)
    ensures var slot := code(s.pc).value;
            var ran := Executed(InSlot(s, slot), slot);
            if ran.Some? then
              Instruction(s, code) == (ran.value.(pc := s.delay.target, insns := ran.value.insns + 1), Retired)
              && ran.value.delay.NoSlot?
            else Instruction(s, code).1 == Faulted
  {
    hide Executed;
    var slot := code(s.pc).value;
    var s1 := s.(delay := NoSlot);
    var s2 := if s.delay.isLink then s1.(regs := s1.regs[BLINK := Wrap(s.pc + slot.size)]) else s1;
    assert s2.(pcWritten := false) == InSlot(s, slot);
  }

  lemma NoInterruptInSlot(s: CpuState, env: Option<Env>)
    requires s.delay.DelaySlot?
    ensures Interrupted(s, env) == (s, false) && !AtLoopEnd(s)
  {
  }

  /** A taken delayed branch falls through to its slot. Until the slot is done no interrupt is taken and no loop end
      is recognised; the slot instruction runs exactly once, and control is then at the branch's target. */
  lemma DelaySlotRunsOnce(s: CpuState, code: Code, env: Option<Env>)
    requires s.delay.NoSlot? && !AtLoopEnd(s) && code(s.pc).Some? && DelayedBranch(s, code(s.pc).value)
    requires var slot := code(Wrap(s.pc + code(s.pc).value.size)); slot.Some? && KeepsControl(slot.value)
    ensures var d := code(s.pc).value;
            var s1, slot := Armed(s, d), code(Wrap(s.pc + d.size)).value;
            var ran := Executed(InSlot(s1, slot), slot);
            && Instruction(s, code) == (s1, Retired)
            && Interrupted(s1, env) == (s1, false) && !AtLoopEnd(s1)
            && (ran.Some? ==>
                  Instruction(s1, code) ==
                  (ran.value.(pc := Relative(s, d.insn.offset), insns := ran.value.insns + 1), Retired))
  {
    hide Executed, Interrupted, Instruction, InSlot, KeepsControl, Relative, AtLoopEnd;
    DelayedBranchArms(s, code);
    var s1 := Armed(s, code(s.pc).value);
    NoInterruptInSlot(s1, env);
    SlotRuns(s1, code);
  }

  // ----- Where control goes -----

  /** PC-relative targets in figures: the offset from the longword that holds the instruction, mod 2^32. So a target is a
      multiple of 4 if the offset is, offset 0 is the instruction's own longword, both half-word positions of a longword
      have the same targets, and the target moves with the offset. */
  lemma TargetsAreLongwordRelative(s: CpuState, s': CpuState, offset: int, more: int)
    ensures Relative(s, offset) == (s.pc / 4 * 4 + offset) % 0x1_0000_0000
    ensures offset % 4 == 0 ==> Relative(s, offset) % 4 == 0
    ensures Relative(s, 0) <= s.pc < Relative(s, 0) + 4
    ensures s'.pc / 4 == s.pc / 4 ==> Relative(s', offset) == Relative(s, offset)
    ensures Relative(s, offset + more) == (Relative(s, offset) + more) % 0x1_0000_0000
  {
    var base := s.pc / 4 * 4;
    assert s.pc - s.pc % 4 == base && s'.pc - s'.pc % 4 == s'.pc / 4 * 4;
    assert base % 4 == 0;
    ResiduesAdd(base + offset, more);
    WordResidue(base + offset);
  }

  lemma ResiduesAdd(x: int, more: int)
    ensures (x % 0x1_0000_0000 + more) % 0x1_0000_0000 == (x + more) % 0x1_0000_0000
  {
    var q := x / 0x1_0000_0000;
    assert x == q * 0x1_0000_0000 + x % 0x1_0000_0000;
    assert (x % 0x1_0000_0000 + more + q * 0x1_0000_0000) % 0x1_0000_0000 == (x % 0x1_0000_0000 + more) % 0x1_0000_0000;
  }

  lemma WordResidue(x: int)
    ensures x % 4 == 0 ==> x % 0x1_0000_0000 % 4 == 0
  {
    var q := x / 0x1_0000_0000;
    assert x == 4 * (q * 0x4000_0000) + x % 0x1_0000_0000;
  }

  /** An instruction that transfers control when it is not skipped, and the target it names. */
  predicate Transfers(s: CpuState, d: Decoded) {
    match d.insn
    case Branch(_, cc, _, _) => Holds(s, cc)
    case BranchCompare(kind, a, b, _, _) => Resolve(s, a).Some? && Resolve(s, b).Some?
                                            && Taken(kind, Resolve(s, a).value, Resolve(s, b).value)
    case Jump(target, cc, _, _, _) => Holds(s, cc) && Resolve(s, target).Some?
    case _ => false
  }

  function TargetOf(s: CpuState, d: Decoded): u32
    requires Transfers(s, d)
  {
    match d.insn
    case Branch(offset, _, _, _) => (s.pc / 4 * 4 + offset) % 0x1_0000_0000
    case BranchCompare(_, _, _, offset, _) => (s.pc / 4 * 4 + offset) % 0x1_0000_0000
    case Jump(target, _, _, _, _) => Resolve(s, target).value
  }

  predicate Delayed(d: Decoded) {
    match d.insn
    case Branch(_, _, delay, _) => delay
    case BranchCompare(_, _, _, _, delay) => delay
    case Jump(_, _, delay, _, _) => delay
    case _ => false
  }

  predicate Links(d: Decoded) {
    match d.insn
    case Branch(_, _, _, link) => link
    case Jump(_, _, _, link, _) => link
    case _ => false
  }

  /** What an instruction outside a slot and a loop end leaves, from what it executes to. */
  lemma Steps(s: CpuState, code: Code, s2: CpuState)
    requires s.delay.NoSlot? && !AtLoopEnd(s) && code(s.pc).Some?
    requires Executed(s.(pcWritten := false), code(s.pc).value) == Some(s2)
    ensures Instruction(s, code) ==
            (s2.(pc := if s2.delay.DelaySlot? || !s2.pcWritten then (s.pc + code(s.pc).value.size) % 0x1_0000_0000 else s2.pc,
                 insns := s2.insns + 1), Retired)
  {
    hide Executed;
    assert s.(delay := NoSlot) == s;
  }

  predicate Restores(d: Decoded) { d.insn.Jump? && d.insn.flagRestore }

  /** What a transfer executes to. */
  lemma TransferExecutes(s: CpuState, d: Decoded) returns (s2: CpuState)
    requires s.delay.NoSlot? && !s.pcWritten && Transfers(s, d)
    ensures Executed(s, d) == Some(s2) && s2.mem == s.mem && s2.insns == s.insns
    ensures !Restores(d) ==> s2.bta == TargetOf(s, d) && s2.status == s.status
    ensures if Delayed(d) then
              s2.delay == DelaySlot(TargetOf(s, d), Links(d)) && s2.regs == s.regs
            else
              && s2.delay.NoSlot? && s2.pcWritten && s2.pc == TargetOf(s, d)
              && s2.regs == if Links(d) then s.regs[31 := (s.pc + d.size) % 0x1_0000_0000] else s.regs
  {
    hide Evaluate, WithStatus32, Taken, Resolve, Relative, RanFlag, RanAlu, RanLoop, RanPlain;
    if !d.insn.Jump? {
      TargetsAreLongwordRelative(s, s, d.insn.offset, 0);
    }
    s2 := Executed(s, d).value;
  }

  lemma SameTransfer(s: CpuState, d: Decoded)
    ensures var s1 := s.(pcWritten := false);
            Transfers(s1, d) == Transfers(s, d) && (Transfers(s, d) ==> TargetOf(s1, d) == TargetOf(s, d))
  {
    hide Evaluate, Taken;
  }

  /** A transfer without a delay slot: control is at the target, BLINK holds the address behind the instruction if it
      links, BTA the target unless `.F` restored it, and no other register, no memory and no status bit but those `.F`
      restores has changed. */
  lemma UndelayedTransfer(s: CpuState, code: Code)
    requires s.delay.NoSlot? && !AtLoopEnd(s) && code(s.pc).Some?
    requires Transfers(s, code(s.pc).value) && !Delayed(code(s.pc).value)
    ensures var d := code(s.pc).value;
            var (s', progress) := Instruction(s, code);
            && progress == Retired && s'.pc == TargetOf(s, d) && s'.delay.NoSlot? && s'.mem == s.mem
            && s'.regs == (if Links(d) then s.regs[31 := (s.pc + d.size) % 0x1_0000_0000] else s.regs)
            && (!Restores(d) ==> s'.bta == TargetOf(s, d) && s'.status == s.status)
  {
    hide Transfers, TargetOf, Executed, Delayed, Links, Instruction, Restores;
    SameTransfer(s, code(s.pc).value);
    var s2 := TransferExecutes(s.(pcWritten := false), code(s.pc).value);
    Steps(s, code, s2);
  }

  /** A transfer with a delay slot falls through to it, the target and the link pending. */
  lemma DelayedTransfer(s: CpuState, code: Code)
    requires s.delay.NoSlot? && !AtLoopEnd(s) && code(s.pc).Some?
    requires Transfers(s, code(s.pc).value) && Delayed(code(s.pc).value)
    ensures var d := code(s.pc).value;
            var (s', progress) := Instruction(s, code);
            && progress == Retired && s'.pc == (s.pc + d.size) % 0x1_0000_0000 && s'.regs == s.regs && s'.mem == s.mem
            && s'.delay == DelaySlot(TargetOf(s, d), Links(d))
            && (!Restores(d) ==> s'.bta == TargetOf(s, d) && s'.status == s.status)
  {
    hide Transfers, TargetOf, Executed, Delayed, Links, Instruction, Restores;
    SameTransfer(s, code(s.pc).value);
    var s2 := TransferExecutes(s.(pcWritten := false), code(s.pc).value);
    Steps(s, code, s2);
  }

  /** Delayed jumps as well as branches: the slot runs once, seeing BLINK set to the address behind it if the transfer
      links, and control is then at the target. */
  lemma SlotThenTarget(s: CpuState, code: Code)
    requires s.delay.NoSlot? && !AtLoopEnd(s) && code(s.pc).Some?
    requires Transfers(s, code(s.pc).value) && Delayed(code(s.pc).value)
    requires var slot := code(Wrap(s.pc + code(s.pc).value.size)); slot.Some? && KeepsControl(slot.value)
    ensures var d, s1 := code(s.pc).value, Instruction(s, code).0;
            var slot := code(s1.pc);
            && slot.Some?
            && var ran := Executed(InSlot(s1, slot.value), slot.value);
               ran.Some? ==>
                 && Instruction(s1, code).1 == Retired && Instruction(s1, code).0.pc == TargetOf(s, d)
                 && Instruction(s1, code).0.regs == ran.value.regs
                 && InSlot(s1, slot.value).regs == if Links(d) then s.regs[31 := (s1.pc + slot.value.size) % 0x1_0000_0000] else s.regs
  {
    hide Executed, Instruction, KeepsControl, Transfers, TargetOf, AtLoopEnd, Delayed, Links;
    DelayedTransfer(s, code);
    SlotRuns(Instruction(s, code).0, code);
  }

  /** `J.F` through r29 restores STATUS32 and BTA of level 1, through any other register those of level 2; with an immediate
      target it restores nothing. */
  lemma FlaggedJumpRestores(s: CpuState, code: Code)
    requires s.delay.NoSlot? && !AtLoopEnd(s) && code(s.pc).Some?
    requires Transfers(s, code(s.pc).value) && Restores(code(s.pc).value)
    ensures var target, s' := code(s.pc).value.insn.target, Instruction(s, code).0;
            && (target == Reg(29) ==> s'.status == WithStatus32(s.status32L1) && s'.bta == s.btaL1)
            && (target.Reg? && target.r != 29 ==> s'.status == WithStatus32(s.status32L2) && s'.bta == s.btaL2)
            && (!target.Reg? ==> s'.status == s.status && s'.bta == TargetOf(s, code(s.pc).value))
  {
    hide Transfers, TargetOf, Executed, Instruction, Restores;
    SameTransfer(s, code(s.pc).value);
    var s2 := RestoreExecutes(s.(pcWritten := false), code(s.pc).value);
    Steps(s, code, s2);
  }

  lemma RestoreExecutes(s: CpuState, d: Decoded) returns (s2: CpuState)
    requires Transfers(s, d) && Restores(d)
    ensures Executed(s, d) == Some(s2)
    ensures d.insn.Jump?
    ensures d.insn.target == Reg(29) ==> s2.status == WithStatus32(s.status32L1) && s2.bta == s.btaL1
    ensures d.insn.target.Reg? && d.insn.target.r != 29 ==> s2.status == WithStatus32(s.status32L2) && s2.bta == s.btaL2
    ensures !d.insn.target.Reg? ==> s2.status == s.status && s2.bta == TargetOf(s, d)
  {
    hide Evaluate, WithStatus32, Taken, Resolve, Relative;
    s2 := Executed(s, d).value;
  }

  /** Calls return: a jump through BLINK lands where the call put it. */
  lemma ReturnsThroughBlink(s: CpuState, code: Code)
    requires s.delay.NoSlot? && !AtLoopEnd(s) && code(s.pc).Some?
    requires code(s.pc).value.insn == Jump(Reg(31), AL, false, false, false)
    ensures Instruction(s, code).1 == Retired && Instruction(s, code).0.pc == s.regs[31] && Instruction(s, code).0.regs == s.regs
  {
    UndelayedTransfer(s, code);
    hide Instruction;
  }

  /** A call without a delay slot and an immediate return: control is behind the call, and only BLINK has changed. */
  lemma CallThenReturn(s: CpuState, code: Code)
    requires s.delay.NoSlot? && !AtLoopEnd(s) && code(s.pc).Some?
    requires var d := code(s.pc).value; Transfers(s, d) && !Delayed(d) && Links(d) && !Restores(d)
    requires var s1 := Instruction(s, code).0;
             !AtLoopEnd(s1) && code(s1.pc).Some? && code(s1.pc).value.insn == Jump(Reg(31), AL, false, false, false)
    ensures var s2 := Instruction(Instruction(s, code).0, code).0;
            && s2.pc == (s.pc + code(s.pc).value.size) % 0x1_0000_0000
            && forall r: nat :: r < 64 && r != 31 ==> s2.regs[r] == s.regs[r]
  {
    UndelayedTransfer(s, code);
    hide Instruction, Transfers, Links, Delayed, TargetOf, AtLoopEnd;
    ReturnsThroughBlink(Instruction(s, code).0, code);
  }

  /** The condition of an instruction that has one. */
  function ConditionField(insn: Insn): Option<Condition> {
    match insn
    case AluInsn(_, _, _, _, _, cc) => Some(cc)
    case Branch(_, cc, _, _) => Some(cc)
    case Jump(_, cc, _, _, _) => Some(cc)
    case Flag(_, cc) => Some(cc)
    case _ => None
  }

  /** Its condition is false, or its comparison. */
  predicate Skips(s: CpuState, d: Decoded) {
    || (ConditionField(d.insn).Some? && !Holds(s, ConditionField(d.insn).value))
    || (d.insn.BranchCompare? && Resolve(s, d.insn.src1).Some? && Resolve(s, d.insn.src2).Some?
        && !Taken(d.insn.kind, Resolve(s, d.insn.src1).value, Resolve(s, d.insn.src2).value))
  }

  /** Under a false condition an instruction only moves the PC; a compare-and-branch not taken does the same. LP goes to its
      target. */
  lemma FalseConditionSkips(s: CpuState, code: Code)
    requires s.delay.NoSlot? && !AtLoopEnd(s) && code(s.pc).Some?
    ensures var d := code(s.pc).value;
            Skips(s, d) ==>
              Instruction(s, code) ==
              (s.(pc := (s.pc + d.size) % 0x1_0000_0000, pcWritten := false, insns := s.insns + 1), Retired)
  {
    hide Instruction, Executed;
    if Skips(s, code(s.pc).value) {
      SkippedExecutes(s, code(s.pc).value);
      Steps(s, code, s.(pcWritten := false));
    }
  }

  lemma SkippedExecutes(s: CpuState, d: Decoded)
    requires Skips(s, d)
    ensures Executed(s.(pcWritten := false), d) == Some(s.(pcWritten := false))
  {
    hide Evaluate, RanFlag, RanJump, RanAlu, Branched, Taken;
  }

  /** LP in figures: LP_END, or under a false condition the PC, is the longword-relative target. */
  lemma LoopTarget(s: CpuState, code: Code, offset: nat, cc: Condition)
    requires code(s.pc).Some? && code(s.pc).value.insn == Loop(offset, cc) && s.delay.NoSlot? && !AtLoopEnd(s)
    ensures var s', target := Instruction(s, code).0, (s.pc / 4 * 4 + offset) % 0x1_0000_0000;
            if Holds(s, cc) then s'.lpEnd == target && s'.lpStart == s'.pc == (s.pc + code(s.pc).value.size) % 0x1_0000_0000
            else s'.pc == target
  {
    hide Evaluate;
    TargetsAreLongwordRelative(s, s, offset, 0);
    assert s.(delay := NoSlot) == s;
  }

  // ----- ALU instructions -----

  /** An ALU instruction writes its result to the register it names, and the flags only if asked to. */
  lemma AluInstruction(s: CpuState, code: Code, op: AluOp, dst: nat, a: Operand, b: Operand, setFlags: bool)
    requires s.delay.NoSlot? && !AtLoopEnd(s) && code(s.pc).Some?
    requires code(s.pc).value.insn == AluInsn(op, Reg(dst), a, b, setFlags, AL) && dst <= 60
    requires Resolve(s, a).Some? && Resolve(s, b).Some? && WriteReg(s, dst, 0).Some?
    ensures var r := Compute(op, Resolve(s, a).value, Resolve(s, b).value, s.status.c);
            var (s', progress) := Instruction(s, code);
            && progress == Retired && s'.regs == s.regs[dst := r.result] && s'.mem == s.mem
            && s'.pc == (s.pc + code(s.pc).value.size) % 0x1_0000_0000
            && s'.status == if setFlags then WithAluFlags(s.status, FlagsAfter(r, AluFlags(s.status))) else s.status
  {
    hide Compute, FlagsAfter, Instruction;
    var s1 := s.(pcWritten := false);
    assert Resolve(s1, a) == Resolve(s, a) && Resolve(s1, b) == Resolve(s, b);
    hide Resolve;
    var r := Compute(op, Resolve(s, a).value, Resolve(s, b).value, s.status.c);
    Steps(s, code, s1.(regs := s.regs[dst := r.result],
                       status := if setFlags then WithAluFlags(s.status, FlagsAfter(r, AluFlags(s.status))) else s.status));
  }

  /** A data instruction has its effect on registers, ALU flags and memory, and on nothing else. */
  lemma PlainInstruction(s: CpuState, code: Code, effect: Data -> Data)
    requires s.delay.NoSlot? && !AtLoopEnd(s) && code(s.pc).Some? && code(s.pc).value.insn == Plain(effect)
    ensures var d, s' := effect(Data(s.regs, AluFlags(s.status), s.mem)), Instruction(s, code).0;
            && Instruction(s, code).1 == Retired && s'.regs == d.regs && s'.mem == d.mem && AluFlags(s'.status) == d.flags
            && WithAluFlags(s'.status, AluFlags(s.status)) == s.status && s'.pc == (s.pc + code(s.pc).value.size) % 0x1_0000_0000
  {
    hide Instruction;
    var s1 := s.(pcWritten := false);
    Steps(s, code, Executed(s1, code(s.pc).value).value);
  }

  // ----- FLAG -----

  /** Outside user mode FLAG of a saved STATUS32 restores all thirteen bits, halting if H is among them; in user mode
      it can change only Z, N, C and V, and asking for H is refused. */
  lemma FlagRestores(s: CpuState, saved: Status)
    ensures var r := RanFlag(s, Imm(Status32(saved)));
            if !s.status.u then
              r == Some(s.(status := saved, halted := s.halted || saved.h))
            else if saved.h then r == None
            else r == Some(s.(status := s.status.(z := saved.z, n := saved.n, c := saved.c, v := saved.v)))
  {
    StatusRoundTrip(saved);
    LowBit(saved);
    hide Status32, WithStatus32;
  }

  lemma LowBit(saved: Status)
    ensures Status32(saved) % 2 == Bit(saved.h)
  {
    StatusRoundTrip(saved);
    hide Status32;
  }
}
