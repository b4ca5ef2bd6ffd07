/** One step of the CPU: delay slots, zero-overhead loops, branches, two-level interrupts, timers and the spin
    detector. Instruction memory is a fixed map from addresses to decoded instructions. */
module CpuModel {
  import opened Words
  import opened Alu
  import opened Registers

  datatype Operand = Reg(r: nat) | Imm(val: u32) | Discard

  datatype CompareKind = Breq | Brne | Brlt | Brge | Brlo | Brhs | Bbit0 | Bbit1

  /** What an instruction that touches no control state can read and change. */
  datatype Data = Data(regs: Regs, flags: Flags, mem: seq<byte>)

  datatype Insn =
    | Plain(effect: Data -> Data)
    | AluInsn(op: AluOp, dst: Operand, src1: Operand, src2: Operand, setFlags: bool, cc: Condition)
    | Branch(offset: int, cc: Condition, delay: bool, link: bool)
    | BranchCompare(kind: CompareKind, src1: Operand, src2: Operand, offset: int, delay: bool)
    | Jump(target: Operand, cc: Condition, delay: bool, link: bool, flagRestore: bool)
    | Loop(end: nat, cc: Condition)
    | Flag(src: Operand, cc: Condition)

  datatype Decoded = Decoded(insn: Insn, size: nat)

  type Code = u32 -> Option<Decoded>

  /** The peripherals as one step sees them: whether the UART requests its line at the poll, the NCO's vector table,
      and the flash image a reset loads. */
  datatype Env = Env(uart: bool, nco: map<nat, u32>, bootImage: seq<byte>)

  const UART_IRQ := 5
  const UART_PRESCALER := 256
  const BANK_TICK_PRESCALER := 64
  const TIGHT_LOOP_THRESHOLD := 64

  // ----- Executing one instruction; None is a fault -----

  function Resolve(s: CpuState, op: Operand): Option<u32> {
    match op
    case Reg(r) => ReadReg(s, r)
    case Imm(v) => Some(v)
    case Discard => Some(0)
  }

  function WriteDest(s: CpuState, op: Operand, val: u32): Option<CpuState> {
    if op.Reg? then WriteReg(s, op.r, val) else Some(s)
  }

  predicate Holds(s: CpuState, cc: Condition) { Evaluate(cc, AluFlags(s.status)) }

  function Relative(s: CpuState, offset: int): u32 { Wrap(s.pc - s.pc % 4 + offset) }

  /** Go to a target now, or arm the delay slot. */
  function Transfer(s: CpuState, target: u32, next: u32, delay: bool, link: bool): CpuState {
    if delay then s.(delay := DelaySlot(target, link))
    else s.(regs := if link then s.regs[BLINK := next] else s.regs, pc := target, pcWritten := true)
  }

  function RanPlain(s: CpuState, effect: Data -> Data): CpuState {
    var d := effect(Data(s.regs, AluFlags(s.status), s.mem));
    s.(regs := d.regs, status := WithAluFlags(s.status, d.flags), mem := d.mem)
  }

  function RanAlu(s: CpuState, op: AluOp, dst: Operand, src1: Operand, src2: Operand, setFlags: bool): Option<CpuState> {
    var a, b := Resolve(s, src1), Resolve(s, src2);
    if a.None? || b.None? then None
    else
      var r := Compute(op, a.value, b.value, s.status.c);
      var s' := WriteDest(s, dst, r.result);
      if s'.None? || !setFlags then s'
      else Some(s'.value.(status := WithAluFlags(s.status, FlagsAfter(r, AluFlags(s.status)))))
  }

  predicate Taken(kind: CompareKind, a: u32, b: u32) {
    match kind
    case Breq => a == b
    case Brne => a != b
    case Brlt => Signed(a) < Signed(b)
    case Brge => Signed(a) >= Signed(b)
    case Brlo => a < b
    case Brhs => a >= b
    case Bbit0 => !BitAt(a, b % 32)
    case Bbit1 => BitAt(a, b % 32)
  }

  function Branched(s: CpuState, offset: int, next: u32, delay: bool, link: bool): CpuState {
    var target := Relative(s, offset);
    Transfer(s.(bta := target), target, next, delay, link)
  }

  function RanBranchCompare(s: CpuState, kind: CompareKind, src1: Operand, src2: Operand, offset: int, delay: bool)
    : Option<CpuState>
  {
    var a, b := Resolve(s, src1), Resolve(s, src2);
    if a.None? || b.None? then None
    else if Taken(kind, a.value, b.value) then Some(Branched(s, offset, 0, delay, false))
    else Some(s)
  }

  /** J.F restores STATUS32 and BTA: level 1 through r29, level 2 through any other register. */
  function Restored(s: CpuState, target: Operand): CpuState {
    if !target.Reg? then s
    else if target.r == ILINK1 then s.(status := WithStatus32(s.status32L1), bta := s.btaL1)
    else s.(status := WithStatus32(s.status32L2), bta := s.btaL2)
  }

  function RanJump(s: CpuState, target: Operand, next: u32, delay: bool, link: bool, flagRestore: bool): Option<CpuState> {
    var t := Resolve(s, target);
    if t.None? then None
    else
      var s1 := s.(bta := t.value);
      Some(Transfer(if flagRestore then Restored(s1, target) else s1, t.value, next, delay, link))
  }

  /** LP: a false condition jumps over the body; otherwise the loop registers are set and L cleared. */
  function RanLoop(s: CpuState, offset: nat, next: u32, cc: Condition): CpuState {
    if !Holds(s, cc) then s.(pc := Relative(s, offset), pcWritten := true)
    else s.(status := s.status.(l := false), lpStart := next, lpEnd := Relative(s, offset))
  }

  function RanFlag(s: CpuState, src: Operand): Option<CpuState> {
    var v := Resolve(s, src);
    if v.None? then None
    else
      var status := WithStatus32(v.value);
      if v.value % 2 == 1 then (if s.status.u then None else Some(s.(halted := true, status := status)))
      else if s.status.u then Some(s.(status := WithAluFlags(s.status, AluFlags(status))))
      else Some(s.(status := status))
  }

  function Executed(s: CpuState, d: Decoded): Option<CpuState> {
    var next := Wrap(s.pc + d.size);
    match d.insn
    case Plain(effect) => Some(RanPlain(s, effect))
    case AluInsn(op, dst, src1, src2, setFlags, cc) =>
      if Holds(s, cc) then RanAlu(s, op, dst, src1, src2, setFlags) else Some(s)
    case Branch(offset, cc, delay, link) =>
      if Holds(s, cc) then Some(Branched(s, offset, next, delay, link)) else Some(s)
    case BranchCompare(kind, src1, src2, offset, delay) => RanBranchCompare(s, kind, src1, src2, offset, delay)
    case Jump(target, cc, delay, link, flagRestore) =>
      if Holds(s, cc) then RanJump(s, target, next, delay, link, flagRestore) else Some(s)
    case Loop(offset, cc) => Some(RanLoop(s, offset, next, cc))
    case Flag(src, cc) => if Holds(s, cc) then RanFlag(s, src) else Some(s)
  }

  // ----- The instruction part of a step -----

  datatype Progress = LoopedBack | Retired | Faulted

  predicate AtLoopEnd(s: CpuState) {
    s.delay.NoSlot? && !s.status.l && s.pc == s.lpEnd && s.regs[LP_COUNT] > 0
  }

  /** Fetch, decode, execute and move the PC, `slot` being the delay slot this instruction sits in. */
  function Issued(s: CpuState, slot: DelayState, code: Code): (CpuState, Progress) {
    match code(s.pc)
    case None => (s, Faulted)
    case Some(d) =>
      var next := Wrap(s.pc + d.size);
      var s1 := if slot.DelaySlot? && slot.isLink then s.(regs := s.regs[BLINK := next]) else s;
      match Executed(s1.(pcWritten := false), d)
      case None => (s1.(pcWritten := false), Faulted)
      case Some(s2) =>
        var pc := if slot.DelaySlot? then slot.target
                  else if s2.delay.DelaySlot? || !s2.pcWritten then next
                  else s2.pc;
        (s2.(pc := pc, insns := s2.insns + 1), Retired)
  }

  function Instruction(s: CpuState, code: Code): (CpuState, Progress) {
    if AtLoopEnd(s) then
      var n := s.regs[LP_COUNT] - 1;
      var s1 := s.(regs := s.regs[LP_COUNT := n]);
      if n > 0 then (s1.(pc := s.lpStart), LoopedBack) else Issued(s1, NoSlot, code)
    else Issued(s.(delay := NoSlot), s.delay, code)
  }

  // ----- Timers -----

  /** One tick of a timer; whether it interrupts; whether it asks for a watchdog reset. */
  function TimerTicked(t: Timer, mayKeep: bool): (Timer, bool, bool) {
    var count := Wrap(t.count + 1);
    if t.limit != 0 && count >= t.limit then
      (t.(count := if mayKeep && t.keep then count else 0, ip := true), t.ie, t.w)
    else (t.(count := count), false, false)
  }

  /** A watchdog reset: everything fresh, interrupts enabled, the flash image loaded. */
  function Rebooted(s: CpuState, env: Env): CpuState {
    var r := ResetState(env.bootImage, s.timer1Irq);
    r.(status := r.status.(e1 := true, e2 := true))
  }

  /** A tick now expires a watchdog. */
  predicate WatchdogFires(s: CpuState) { TimerTicked(s.timer0, true).2 || TimerTicked(s.timer1, false).2 }

  function BothTicked(s: CpuState, env: Option<Env>): CpuState {
    var (t0, irq0, _) := TimerTicked(s.timer0, true);
    var (t1, irq1, _) := TimerTicked(s.timer1, false);
    var pending := s.irqPending + (if irq0 then {3} else {}) + (if irq1 then {s.timer1Irq} else {});
    var s' := s.(timer0 := t0, timer1 := t1, irqPending := pending);
    if WatchdogFires(s) && env.Some? then Rebooted(s', env.value) else s'
  }

  function TicksFrom(s: CpuState, acc: nat, env: Option<Env>): (CpuState, nat)
    decreases acc
  {
    if acc >= 100 then TicksFrom(BothTicked(s, env), acc - 100, env) else (s, acc)
  }

  /** One of the due ticks resets the chip. */
  predicate ResetsWithin(s: CpuState, acc: nat, env: Option<Env>)
    decreases acc
  {
    acc >= 100 && ((WatchdogFires(s) && env.Some?) || ResetsWithin(BothTicked(s, env), acc - 100, env))
  }

  /** 1.76 timer ticks for each instruction. */
  function Ticked(s: CpuState, acc: nat, env: Option<Env>): (CpuState, nat) { TicksFrom(s, acc + 176, env) }

  // ----- Interrupts -----

  /** The lowest pending line, or 32. */
  function LowestFrom(pending: set<nat>, i: nat): nat
    decreases 32 - i
  {
    if i >= 32 || i in pending then i else LowestFrom(pending, i + 1)
  }

  function UartLine(env: Env): set<nat> { if env.uart then {UART_IRQ} else {} }

  /** The bank ticks at every 64th service, and then takes over the UART's line. */
  function BankTicked(bankAcc: nat, bankIrqs: set<nat>, env: Option<Env>): (nat, set<nat>) {
    if bankAcc + 1 < BANK_TICK_PRESCALER then (bankAcc + 1, bankIrqs)
    else (0, if env.Some? then UartLine(env.value) else bankIrqs)
  }

  function Polled(s: CpuState, env: Option<Env>, bankIrqs: set<nat>): CpuState {
    if env.None? || s.insns % UART_PRESCALER != 0 then s
    else s.(irqPending := s.irqPending + UartLine(env.value) + bankIrqs)
  }

  /** What devices can change: the timers and the pending lines. */
  predicate DeviceMoved(s: CpuState, s': CpuState) {
    s' == s.(timer0 := s'.timer0, timer1 := s'.timer1, irqPending := s'.irqPending)
  }

  function Vector(s: CpuState, env: Option<Env>, irq: nat): u32 {
    if env.Some? && irq in env.value.nco then env.value.nco[irq] else Wrap(s.vectorBase + irq * 8)
  }

  function EnteredL1(s: CpuState, irq: nat, vector: u32): CpuState {
    s.(status32L1 := Status32(s.status), btaL1 := s.bta, regs := s.regs[ILINK1 := s.pc], icause1 := irq,
       status := s.status.(e1 := false, e2 := false, a1 := true, de := false, u := false, l := true),
       shadow := s.regs[..4], irqPending := s.irqPending - {irq}, pc := vector, pcWritten := true)
  }

  /** Level 2 leaves E1 set. */
  function EnteredL2(s: CpuState, irq: nat, vector: u32): CpuState {
    s.(status32L2 := Status32(s.status), btaL2 := s.bta, regs := s.regs[ILINK2 := s.pc], icause2 := irq,
       status := s.status.(e2 := false, a2 := true, de := false, u := false, l := true),
       shadow := s.regs[..4], irqPending := s.irqPending - {irq}, pc := vector, pcWritten := true)
  }

  /** Take the lowest pending interrupt if its level is enabled and inactive and no delay slot is pending. */
  function Interrupted(s: CpuState, env: Option<Env>): (CpuState, bool) {
    var irq := LowestFrom(s.irqPending, 0);
    if s.delay.DelaySlot? || irq >= 32 then (s, false)
    else if irq in s.irqLev then
      if !s.status.e2 || s.status.a2 then (s, false) else (EnteredL2(s, irq, Vector(s, env, irq)), true)
    else
      if !s.status.e1 || s.status.a1 then (s, false) else (EnteredL1(s, irq, Vector(s, env, irq)), true)
  }

  // ----- The spin detector -----

  datatype Verdict = WatchdogArmed | Interruptible | Hung

  predicate IsWatchdog(t: Timer) { t.w && t.limit != 0 }

  function Classified(s: CpuState, bankIrqs: set<nat>): Verdict {
    if IsWatchdog(s.timer0) || IsWatchdog(s.timer1) then WatchdogArmed
    else
      var timerSource := (s.timer0.ie && s.timer0.limit != 0) || (s.timer1.ie && s.timer1.limit != 0);
      var externalSource := s.irqPending != {} || bankIrqs != {};
      if (s.status.e1 || s.status.e2) && (timerSource || externalSource) then Interruptible else Hung
  }

  function Forwarded(t: Timer): Timer {
    if IsWatchdog(t) then t.(count := t.limit - 1) else t
  }

  function FastForwarded(s: CpuState): CpuState {
    s.(timer0 := Forwarded(s.timer0), timer1 := Forwarded(s.timer1))
  }

  // ----- A whole step -----

  const NO_PC: u32 := 0xFFFF_FFFF

  /** The CPU with its counters, and the lines the peripheral bank last drove. */
  datatype Machine = Machine(s: CpuState, acc: nat, tightCount: nat, tightLastPc: u32, bankAcc: nat, bankIrqs: set<nat>)

  /** A warm reset silences the UART and clears the NCO table. */
  function AfterReset(env: Option<Env>): Option<Env> {
    if env.Some? then Some(env.value.(uart := false, nco := map[])) else None
  }

  /** Timers, then the bank, then the poll of the lines, then interrupt delivery. A reset on the way clears the spin
      detector and the bank's lines. */
  function Serviced(m: Machine, env: Option<Env>): (Machine, bool) {
    var (s1, acc) := Ticked(m.s, m.acc, env);
    var reset := ResetsWithin(m.s, m.acc + 176, env);
    var env' := if reset then AfterReset(env) else env;
    var (bankAcc, bankIrqs) := BankTicked(m.bankAcc, if reset then {} else m.bankIrqs, env');
    var (s2, taken) := Interrupted(Polled(s1, env', bankIrqs), env');
    (Machine(s2, acc, if reset then 0 else m.tightCount, if reset then NO_PC else m.tightLastPc, bankAcc, bankIrqs), taken)
  }

  /** What the spin detector does to a retired instruction's state; whether it stops the step. */
  function Watched(m: Machine, env: Option<Env>, halts: bool): (Machine, bool) {
    if env.None? then (m, false)
    else if m.s.pc != m.tightLastPc then (m.(tightCount := 0, tightLastPc := m.s.pc), false)
    else
      var m1 := m.(tightCount := m.tightCount + 1);
      if m1.tightCount < TIGHT_LOOP_THRESHOLD then (m1, false)
      else if halts then (m1.(s := m1.s.(halted := true)), true)
      else
        match Classified(m1.s, m1.bankIrqs)
        case WatchdogArmed => (m1.(s := FastForwarded(m1.s), tightCount := 0), false)
        case Interruptible => (m1.(tightCount := 0), false)
        case Hung => (m1.(s := m1.s.(halted := true)), true)
  }

  function Stepped(m: Machine, code: Code, env: Option<Env>, halts: bool): (Machine, bool) {
    if m.s.halted then (m, true)
    else if m.s.sleeping then
      var (m', taken) := Serviced(m, env);
      (if taken then m'.(s := m'.s.(sleeping := false)) else m', true)
    else
      var (s, progress) := Instruction(m.s, code);
      var m1 := m.(s := s);
      match progress
      case LoopedBack => (m1, true)
      case Faulted => (m1, false)
      case Retired =>
        var (m2, stopped) := Watched(m1, env, halts);
        (if stopped then m2 else Serviced(m2, env).0, true)
  }

  class Cpu {
    var s: CpuState
    var timerFracAcc: nat
    var tightLoopCount: nat
    var tightLoopLastPc: u32
    var tightLoopHalts: bool
    var bankTickAccumulator: nat
    /** The bank's own field: written by its tick and its reset alone. */
    var bankIrqPending: set<nat>

    ghost function State(): Machine reads this {
      Machine(s, timerFracAcc, tightLoopCount, tightLoopLastPc, bankTickAccumulator, bankIrqPending)
    }

    constructor (mem: seq<byte>, timer1Irq: nat)
      ensures State() == Machine(ResetState(mem, timer1Irq), 0, 0, NO_PC, 0, {}) && !tightLoopHalts
    {
      s := ResetState(mem, timer1Irq);
      timerFracAcc, tightLoopCount, tightLoopLastPc, tightLoopHalts := 0, 0, NO_PC, false;
      bankTickAccumulator, bankIrqPending := 0, {};
    }

    method ExecuteJump(target: Operand, next: u32, delay: bool, link: bool, flagRestore: bool) returns (ok: bool)
      modifies `s
      ensures ok == RanJump(old(s), target, next, delay, link, flagRestore).Some?
      ensures s == if ok then RanJump(old(s), target, next, delay, link, flagRestore).value else old(s)
    {
      var t := Resolve(s, target);
      if t.None? {
        return false;
      }
      s := s.(bta := t.value);
      if flagRestore && target.Reg? {
        if target.r == ILINK1 {
          s := s.(status := WithStatus32(s.status32L1));
          s := s.(bta := s.btaL1);
        } else {
          s := s.(status := WithStatus32(s.status32L2));
          s := s.(bta := s.btaL2);
        }
      }
      if delay {
        s := s.(delay := DelaySlot(t.value, link));
      } else {
        if link {
          s := s.(regs := s.regs[BLINK := next]);
        }
        s := s.(pc := t.value, pcWritten := true);
      }
      ok := true;
    }

    method ExecuteBranch(offset: int, next: u32, cc: Condition, delay: bool, link: bool)
      modifies `s
      ensures s == if Holds(old(s), cc) then Branched(old(s), offset, next, delay, link) else old(s)
    {
      if !Holds(s, cc) {
        return;
      }
      var target := Relative(s, offset);
      s := s.(bta := target);
      if delay {
        s := s.(delay := DelaySlot(target, link));
      } else {
        if link {
          s := s.(regs := s.regs[BLINK := next]);
        }
        s := s.(pc := target, pcWritten := true);
      }
    }

    method ExecuteBranchCompare(kind: CompareKind, src1: Operand, src2: Operand, offset: int, delay: bool)
      returns (ok: bool)
      modifies `s
      ensures ok == RanBranchCompare(old(s), kind, src1, src2, offset, delay).Some?
      ensures s == if ok then RanBranchCompare(old(s), kind, src1, src2, offset, delay).value else old(s)
    {
      var a, b := Resolve(s, src1), Resolve(s, src2);
      if a.None? || b.None? {
        return false;
      }
      if Taken(kind, a.value, b.value) {
        var target := Relative(s, offset);
        s := s.(bta := target);
        if delay {
          s := s.(delay := DelaySlot(target, false));
        } else {
          s := s.(pc := target, pcWritten := true);
        }
      }
      ok := true;
    }

    method ExecuteFlag(src: Operand) returns (ok: bool)
      modifies `s
      ensures ok == RanFlag(old(s), src).Some?
      ensures s == if ok then RanFlag(old(s), src).value else old(s)
    {
      hide WithStatus32;
      var v := Resolve(s, src);
      if v.None? {
        return false;
      }
      var status := WithStatus32(v.value);
      if v.value % 2 == 1 {
        if s.status.u {
          return false;
        }
        s := s.(halted := true);
        s := s.(status := status);
      } else if s.status.u {
        s := s.(status := s.status.(z := status.z, n := status.n, c := status.c, v := status.v));
      } else {
        s := s.(status := status);
      }
      ok := true;
    }

    /** Dispatch; a fault leaves the state as it was. */
    method Execute(d: Decoded) returns (ok: bool)
      modifies `s
      ensures ok == Executed(old(s), d).Some?
      ensures s == if ok then Executed(old(s), d).value else old(s)
    {
      hide RanPlain, RanAlu, Branched, RanBranchCompare, RanJump, RanLoop, RanFlag, Evaluate;
      var next := Wrap(s.pc + d.size);
      ok := true;
      match d.insn {
        case Plain(effect) =>
          s := RanPlain(s, effect);
        case AluInsn(op, dst, src1, src2, setFlags, cc) =>
          if Holds(s, cc) {
            var r := RanAlu(s, op, dst, src1, src2, setFlags);
            ok := r.Some?;
            s := if ok then r.value else s;
          }
        case Branch(offset, cc, delay, link) =>
          ExecuteBranch(offset, next, cc, delay, link);
        case BranchCompare(kind, src1, src2, offset, delay) =>
          ok := ExecuteBranchCompare(kind, src1, src2, offset, delay);
        case Jump(target, cc, delay, link, flagRestore) =>
          if Holds(s, cc) {
            ok := ExecuteJump(target, next, delay, link, flagRestore);
          }
        case Loop(end, cc) =>
          ExecuteLoop(end, next, cc);
        case Flag(src, cc) =>
          if Holds(s, cc) {
            ok := ExecuteFlag(src);
          }
      }
    }

    method ExecuteLoop(offset: nat, next: u32, cc: Condition)
      modifies `s
      ensures s == RanLoop(old(s), offset, next, cc)
    {
      var end := Relative(s, offset);
      if !Holds(s, cc) {
        s := s.(pc := end, pcWritten := true);
        return;
      }
      s := s.(status := s.status.(l := false));
      s := s.(lpStart := next);
      s := s.(lpEnd := end);
    }

    method TickTimer0() returns (watchdog: bool)
      modifies `s
      ensures var (t, irq, dog) := TimerTicked(old(s).timer0, true);
              && watchdog == dog
              && s == old(s).(timer0 := t, irqPending := old(s).irqPending + (if irq then {3} else {}))
    {
      watchdog := false;
      var t := s.timer0.(count := Wrap(s.timer0.count + 1));
      if t.limit != 0 && t.count >= t.limit {
        t := t.(ip := true);
        if t.ie {
          s := s.(irqPending := s.irqPending + {3});
        }
        watchdog := t.w;
        if !t.keep {
          t := t.(count := 0);
        }
      }
      s := s.(timer0 := t);
    }

    method TickTimer1() returns (watchdog: bool)
      modifies `s
      ensures var (t, irq, dog) := TimerTicked(old(s).timer1, false);
              && watchdog == dog
              && s == old(s).(timer1 := t, irqPending := old(s).irqPending + (if irq then {old(s).timer1Irq} else {}))
    {
      watchdog := false;
      var t := s.timer1.(count := Wrap(s.timer1.count + 1));
      if t.limit != 0 && t.count >= t.limit {
        t := t.(ip := true);
        if t.ie {
          s := s.(irqPending := s.irqPending + {s.timer1Irq});
        }
        watchdog := t.w;
        t := t.(count := 0);
      }
      s := s.(timer1 := t);
    }

    /** Whether a watchdog reset struck. */
    method TickArcTimersOnce(env: Option<Env>) returns (reset: bool)
      modifies `s, `tightLoopCount, `tightLoopLastPc, `bankIrqPending
      ensures s == BothTicked(old(s), env) && reset == (WatchdogFires(old(s)) && env.Some?)
      ensures reset ==> tightLoopCount == 0 && tightLoopLastPc == NO_PC && bankIrqPending == {}
      ensures !reset ==> tightLoopCount == old(tightLoopCount) && tightLoopLastPc == old(tightLoopLastPc)
                         && bankIrqPending == old(bankIrqPending)
    {
      hide TimerTicked, Rebooted;
      var dog0 := TickTimer0();
      var dog1 := TickTimer1();
      reset := (dog0 || dog1) && env.Some?;
      if reset {
        s := Rebooted(s, env.value);
        tightLoopCount, tightLoopLastPc := 0, NO_PC;
        bankIrqPending := {};
      }
    }

    method TickTimers(env: Option<Env>) returns (reset: bool)
      modifies `s, `timerFracAcc, `tightLoopCount, `tightLoopLastPc, `bankIrqPending
      ensures (s, timerFracAcc) == Ticked(old(s), old(timerFracAcc), env)
      ensures reset == ResetsWithin(old(s), old(timerFracAcc) + 176, env)
      ensures reset ==> tightLoopCount == 0 && tightLoopLastPc == NO_PC && bankIrqPending == {}
      ensures !reset ==> tightLoopCount == old(tightLoopCount) && tightLoopLastPc == old(tightLoopLastPc)
                         && bankIrqPending == old(bankIrqPending)
    {
      hide BothTicked, WatchdogFires;
      timerFracAcc := timerFracAcc + 176;
      reset := false;
      while timerFracAcc >= 100
        invariant TicksFrom(s, timerFracAcc, env) == Ticked(old(s), old(timerFracAcc), env)
        invariant ResetsWithin(old(s), old(timerFracAcc) + 176, env) == (reset || ResetsWithin(s, timerFracAcc, env))
        invariant reset ==> tightLoopCount == 0 && tightLoopLastPc == NO_PC && bankIrqPending == {}
        invariant !reset ==> tightLoopCount == old(tightLoopCount) && tightLoopLastPc == old(tightLoopLastPc)
                             && bankIrqPending == old(bankIrqPending)
      {
        timerFracAcc := timerFracAcc - 100;
        var now := TickArcTimersOnce(env);
        reset := reset || now;
      }
    }

    method TickBank(env: Option<Env>)
      modifies `bankTickAccumulator, `bankIrqPending
      ensures (bankTickAccumulator, bankIrqPending) == BankTicked(old(bankTickAccumulator), old(bankIrqPending), env)
    {
      bankTickAccumulator := bankTickAccumulator + 1;
      if bankTickAccumulator >= BANK_TICK_PRESCALER {
        bankTickAccumulator := 0;
        if env.Some? {
          bankIrqPending := UartLine(env.value);
        }
      }
    }

    method EnterLevel1(irq: nat, vector: u32)
      modifies `s
      ensures s == EnteredL1(old(s), irq, vector)
    {
      hide Status32;
      s := s.(status32L1 := Status32(s.status), btaL1 := s.bta, icause1 := irq);
      s := s.(shadow := s.regs[..4], regs := s.regs[ILINK1 := s.pc]);
      s := s.(status := s.status.(e1 := false, e2 := false, a1 := true, de := false, u := false, l := true));
      s := s.(irqPending := s.irqPending - {irq}, pc := vector, pcWritten := true);
    }

    method EnterLevel2(irq: nat, vector: u32)
      modifies `s
      ensures s == EnteredL2(old(s), irq, vector)
    {
      hide Status32;
      s := s.(status32L2 := Status32(s.status), btaL2 := s.bta, icause2 := irq);
      s := s.(shadow := s.regs[..4], regs := s.regs[ILINK2 := s.pc]);
      s := s.(status := s.status.(e2 := false, a2 := true, de := false, u := false, l := true));
      s := s.(irqPending := s.irqPending - {irq}, pc := vector, pcWritten := true);
    }

    method CheckInterrupts(env: Option<Env>) returns (taken: bool)
      modifies `s
      ensures (s, taken) == Interrupted(old(s), env)
    {
      hide EnteredL1, EnteredL2, Vector;
      var irq := LowestFrom(s.irqPending, 0);
      if s.delay.DelaySlot? || irq >= 32 {
        return false;
      }
      if irq in s.irqLev {
        if !s.status.e2 || s.status.a2 {
          return false;
        }
        EnterLevel2(irq, Vector(s, env, irq));
      } else {
        if !s.status.e1 || s.status.a1 {
          return false;
        }
        EnterLevel1(irq, Vector(s, env, irq));
      }
      taken := true;
    }

    method FastForwardArmedWatchdog()
      modifies `s
      ensures s == FastForwarded(old(s))
    {
      if IsWatchdog(s.timer0) {
        s := s.(timer0 := s.timer0.(count := s.timer0.limit - 1));
      }
      if IsWatchdog(s.timer1) {
        s := s.(timer1 := s.timer1.(count := s.timer1.limit - 1));
      }
    }

    method Service(env: Option<Env>) returns (taken: bool)
      modifies `s, `timerFracAcc, `tightLoopCount, `tightLoopLastPc, `bankTickAccumulator, `bankIrqPending
      ensures (State(), taken) == Serviced(old(State()), env)
    {
      hide Ticked, ResetsWithin, Interrupted, Polled, BankTicked, AfterReset;
      var reset := TickTimers(env);
      var env' := if reset then AfterReset(env) else env;
      TickBank(env');
      s := Polled(s, env', bankIrqPending);
      taken := CheckInterrupts(env');
    }

    method Issue(slot: DelayState, code: Code) returns (progress: Progress)
      modifies `s
      ensures (s, progress) == Issued(old(s), slot, code)
    {
      hide Executed;
      var fetched := code(s.pc);
      if fetched.None? {
        return Faulted;
      }
      var next := Wrap(s.pc + fetched.value.size);
      if slot.DelaySlot? && slot.isLink {
        s := s.(regs := s.regs[BLINK := next]);
      }
      s := s.(pcWritten := false);
      var ok := Execute(fetched.value);
      if !ok {
        return Faulted;
      }
      if slot.DelaySlot? {
        s := s.(pc := slot.target);
      } else if s.delay.DelaySlot? || !s.pcWritten {
        s := s.(pc := next);
      }
      s := s.(insns := s.insns + 1);
      progress := Retired;
    }

    /** The instruction part of a step. */
    method RunInstruction(code: Code) returns (progress: Progress)
      modifies `s
      ensures (s, progress) == Instruction(old(s), code)
    {
      hide Issued;
      var slot := s.delay;
      s := s.(delay := NoSlot);
      if slot.NoSlot? && !s.status.l {
        var lpCount := s.regs[LP_COUNT];
        if s.pc == s.lpEnd && lpCount > 0 {
          s := s.(regs := s.regs[LP_COUNT := lpCount - 1]);
          if lpCount - 1 > 0 {
            s := s.(pc := s.lpStart);
            return LoopedBack;
          }
        }
      }
      progress := Issue(slot, code);
    }

    /** The spin detector; whether the step stops here. */
    method DetectSpin(env: Option<Env>) returns (stopped: bool)
      modifies `s, `tightLoopCount, `tightLoopLastPc
      ensures (State(), stopped) == Watched(old(State()), env, tightLoopHalts)
    {
      stopped := false;
      if env.Some? {
        if s.pc == tightLoopLastPc {
          tightLoopCount := tightLoopCount + 1;
          if tightLoopCount >= TIGHT_LOOP_THRESHOLD {
            if tightLoopHalts {
              s := s.(halted := true);
              return true;
            }
            match Classified(s, bankIrqPending)
            case WatchdogArmed =>
              FastForwardArmedWatchdog();
              tightLoopCount := 0;
            case Interruptible =>
              tightLoopCount := 0;
            case Hung =>
              s := s.(halted := true);
              return true;
          }
        } else {
          tightLoopCount := 0;
          tightLoopLastPc := s.pc;
        }
      }
    }

    /** One step; false is a fault. */
    method Step(code: Code, env: Option<Env>) returns (ok: bool)
      modifies `s, `timerFracAcc, `tightLoopCount, `tightLoopLastPc, `bankTickAccumulator, `bankIrqPending
      ensures (State(), ok) == Stepped(old(State()), code, env, tightLoopHalts)
    {
      if s.halted {
        return true;
      }
      if s.sleeping {
        var taken := Service(env);
        if taken {
          s := s.(sleeping := false);
        }
        return true;
      }
      var progress := RunInstruction(code);
      if progress != Retired {
        return progress == LoopedBack;
      }
      var stopped := DetectSpin(env);
      if !stopped {
        var _ := Service(env);
      }
      ok := true;
    }
  }
}
