/** The spin detector and hardware loops of one instruction. Such a loop retires at the same PC on every round, so the
    detector takes a long one for a spin; this file says exactly what becomes of it. */
module SpinOnHardwareLoops {
  import opened Words
  import opened Alu
  import opened Registers
  import opened CpuModel
  import opened Interrupts
  import opened Timers
  import opened SpinDetector
  import opened ZeroOverheadLoops

  // ----- What an instruction of a loop body can touch -----

  /** Registers, memory and the ALU flags. */
  predicate DataOnly(s: CpuState, s': CpuState) {
    s' == s.(regs := s'.regs, mem := s'.mem, status := WithAluFlags(s.status, AluFlags(s'.status)))
  }

  lemma KeepsLoopHere(s: CpuState, d: Decoded)
    requires KeepsLoop(d) && Executed(s, d).Some?
    ensures var s' := Executed(s, d).value;
            SameLoopRegs(s, s') && s'.status.l == s.status.l && s'.delay == s.delay && s'.pcWritten == s.pcWritten
  {
    hide Executed;
  }

  lemma AluIsDataOnly(s: CpuState, op: AluOp, dst: Operand, a: Operand, b: Operand, setFlags: bool)
    requires RanAlu(s, op, dst, a, b, setFlags).Some?
    ensures DataOnly(s, RanAlu(s, op, dst, a, b, setFlags).value)
  {
    hide Compute, FlagsAfter, Resolve, WriteDest;
    var x, y := Resolve(s, a), Resolve(s, b);
    var r := Compute(op, x.value, y.value, s.status.c);
    WriteIsDataOnly(s, dst, r.result);
    FlagsAreDataOnly(s, WriteDest(s, dst, r.result).value, FlagsAfter(r, AluFlags(s.status)));
  }

  lemma WriteIsDataOnly(s: CpuState, dst: Operand, val: u32)
    ensures WriteDest(s, dst, val).Some? ==>
              WriteDest(s, dst, val).value == s.(regs := WriteDest(s, dst, val).value.regs)
  {
  }

  lemma FlagsAreDataOnly(s: CpuState, s': CpuState, f: Flags)
    requires s' == s.(regs := s'.regs)
    ensures DataOnly(s, s') && DataOnly(s, s'.(status := WithAluFlags(s.status, f)))
  {
  }

  /** LP always writes a loop register of some state, or the PC. */
  lemma LoopDoesNotKeepLoop(s: CpuState, offset: nat, cc: Condition, size: nat)
    requires !s.pcWritten
    ensures !KeepsLoop(Decoded(Loop(offset, cc), size))
  {
    hide Evaluate;
    var d := Decoded(Loop(offset, cc), size);
    var next: int := Wrap(s.pc + size);
    var s1 := s.(lpStart := Wrap(next + 1));
    if KeepsLoop(d) {
      KeepsLoopHere(s1, d);
      assert false;
    }
  }

  /** FLAG outside user mode sets L to the same value whatever it was. */
  lemma FlagKeepsLoopInUserModeOnly(s: CpuState, src: Operand, cc: Condition, size: nat)
    requires Holds(s, cc) && RanFlag(s, src).Some? && !s.status.u
    ensures !KeepsLoop(Decoded(Flag(src, cc), size))
  {
    hide Evaluate, WithStatus32;
    var d := Decoded(Flag(src, cc), size);
    var s1 := s.(status := s.status.(l := !s.status.l));
    assert Resolve(s1, src) == Resolve(s, src);
    assert AluFlags(s1.status) == AluFlags(s.status);
    if KeepsLoop(d) {
      KeepsLoopHere(s, d);
      KeepsLoopHere(s1, d);
      assert false;
    }
  }

  lemma UserFlagIsDataOnly(s: CpuState, src: Operand)
    requires RanFlag(s, src).Some? && s.status.u
    ensures DataOnly(s, RanFlag(s, src).value)
  {
    hide WithStatus32, Resolve;
  }

  lemma TransferLeavesAMark(s: CpuState, target: u32, next: u32, delay: bool, link: bool)
    requires s.delay.NoSlot? && !s.pcWritten
    ensures var s' := Transfer(s, target, next, delay, link); s'.delay != s.delay || s'.pcWritten != s.pcWritten
  {
  }

  /** An instruction of a loop body touches data alone: no timer, no line, no enable, no halt. */
  lemma BodyIsDataOnly(s: CpuState, d: Decoded)
    requires KeepsLoop(d) && Executed(s, d).Some? && s.delay.NoSlot? && !s.pcWritten
    ensures DataOnly(s, Executed(s, d).value)
  {
    hide RanAlu, Evaluate, Resolve, Transfer, WithStatus32, RanFlag, Relative, Restored;
    KeepsLoopHere(s, d);
    var next := Wrap(s.pc + d.size);
    match d.insn
    case Plain(effect) =>
    case AluInsn(op, dst, a, b, setFlags, cc) =>
      if Holds(s, cc) {
        AluIsDataOnly(s, op, dst, a, b, setFlags);
      }
    case Branch(offset, cc, delay, link) =>
      var target := Relative(s, offset);
      TransferLeavesAMark(s.(bta := target), target, next, delay, link);
    case BranchCompare(kind, a, b, offset, delay) =>
      var target := Relative(s, offset);
      TransferLeavesAMark(s.(bta := target), target, 0, delay, false);
    case Jump(target, cc, delay, link, flagRestore) =>
      JumpLeavesAMark(s, target, next, delay, link, flagRestore);
    case Loop(offset, cc) =>
      LoopDoesNotKeepLoop(s, offset, cc, d.size);
      assert false;
    case Flag(src, cc) =>
      if Holds(s, cc) {
        if s.status.u {
          UserFlagIsDataOnly(s, src);
        } else {
          FlagKeepsLoopInUserModeOnly(s, src, cc, d.size);
          assert false;
        }
      }
  }

  lemma JumpLeavesAMark(s: CpuState, target: Operand, next: u32, delay: bool, link: bool, flagRestore: bool)
    requires s.delay.NoSlot? && !s.pcWritten
    ensures var r := RanJump(s, target, next, delay, link, flagRestore);
            r.Some? ==> r.value.delay != s.delay || r.value.pcWritten != s.pcWritten
  {
    hide WithStatus32, Resolve;
  }

  // ----- The loop and its surroundings -----

  /** Steps with the detector on. */
  function StepsN(m: Machine, code: Code, env: Env, n: nat): Machine
    decreases n
  {
    if n == 0 then m else StepsN(Stepped(m, code, Some(env), false).0, code, env, n - 1)
  }

  ghost predicate NeverFaults(d: Decoded, user: bool) {
    forall s: CpuState :: s.status.u == user ==> Executed(s, d).Some?
  }

  /** LP_START and LP_END around one instruction, any that may stand in a straight-line body and does not fault. */
  ghost predicate OneInstructionBody(code: Code, p: seq<u32>, user: bool) {
    |p| == 2 && BodyAt(code, p, 0) && NeverFaults(code(p[0]).value, user)
  }

  /** At LP_START with LP_COUNT = `count`. */
  predicate InLoop(s: CpuState, p: seq<u32>, count: u32, user: bool) {
    && Entered(s, p, count) && |p| == 2 && s.status.u == user && !s.halted && !s.sleeping
  }

  /** Nothing strikes in the next `k` services: no line is up or comes up, and no watchdog is due. */
  predicate Undisturbed(m: Machine, env: Env, k: nat) {
    && m.acc < 100 && m.s.irqPending == {} && m.bankIrqs == {} && !env.uart
    && DueLines(m.s, TicksBy(m, k)) == {} && NoResetWithin(m.s, TicksBy(m, k))
  }

  predicate TimersMoved(s: CpuState, s': CpuState) { s' == s.(timer0 := s'.timer0, timer1 := s'.timer1) }

  lemma QuietPoll(s: CpuState, env: Env, bankIrqs: set<nat>)
    requires s.irqPending == {} && bankIrqs == {} && !env.uart
    ensures Interrupted(Polled(s, Some(env), bankIrqs), Some(env)) == (s, false)
  {
    LowestIsPending({}, 0);
    assert Polled(s, Some(env), bankIrqs) == s;
    hide EnteredL1, EnteredL2, Vector, LowestFrom, Polled;
  }

  lemma SettingsDecide(s: CpuState, q: nat)
    requires s.irqPending == {}
    ensures Classified(s.(timer0 := TimerAfter(s.timer0, true, q), timer1 := TimerAfter(s.timer1, false, q)), {})
            == Classified(s, {})
  {
    SettingsKept(s.timer0, true, q);
    SettingsKept(s.timer1, false, q);
    hide TimerAfter;
  }

  lemma TicksSplit(m: Machine, m': Machine, k: nat)
    requires m'.acc == (m.acc + 176) % 100
    ensures TicksBy(m, k + 1) == (m.acc + 176) / 100 + TicksBy(m', k)
  {
    var x := m.acc + 176;
    assert x == 100 * (x / 100) + x % 100;
  }

  /** A quiet service moves the timers and nothing else. */
  lemma QuietService(m: Machine, env: Env, k: nat)
    requires Undisturbed(m, env, k + 1)
    ensures !ResetsWithin(m.s, m.acc + 176, Some(env))
    ensures var m' := Serviced(m, Some(env)).0;
            && TimersMoved(m.s, m'.s) && m'.tightCount == m.tightCount && m'.tightLastPc == m.tightLastPc
            && Undisturbed(m', env, k) && Classified(m'.s, {}) == Classified(m.s, {})
  {
    hide Ticked, ResetsWithin, TimerAfter, TicksBy, Interrupted, Polled, NoResetWithin, DueLines, Classified;
    var q, acc := (m.acc + 176) / 100, (m.acc + 176) % 100;
    var s := m.s.(timer0 := TimerAfter(m.s.timer0, true, q), timer1 := TimerAfter(m.s.timer1, false, q));
    var m' := Machine(s, acc, m.tightCount, m.tightLastPc, BankTicked(m.bankAcc, {}, Some(env)).0, {});
    TicksSplit(m, m', k);
    EarlierStill(m.s, q, TicksBy(m, k + 1));
    TickedShortOfReset(m.s, m.acc, env);
    LinesAreDue(m.s, q);
    DueLinesAdd(m.s, s, q, TicksBy(m', k));
    ResetStillAhead(m.s, s, q, TicksBy(m', k));
    assert AfterTicks(m.s, q) == s;
    SettingsDecide(m.s, q);
    QuietPoll(s, env, {});
    assert Serviced(m, Some(env)).0 == m';
  }

  // ----- One visit to LP_END -----

  lemma InstructionIsData(s: CpuState, code: Code)
    requires code(s.pc).Some? && KeepsLoop(code(s.pc).value) && !AtLoopEnd(s) && s.delay.NoSlot?
    requires NeverFaults(code(s.pc).value, s.status.u)
    ensures Instruction(s, code).1 == Retired
    ensures var s' := Instruction(s, code).0;
            && DataOnly(s.(pc := s'.pc, insns := s'.insns, pcWritten := false), s')
            && SameLoopRegs(s, s') && s'.status.l == s.status.l && s'.delay.NoSlot?
            && s'.pc == Wrap(s.pc + code(s.pc).value.size)
  {
    hide Executed, KeepsLoop;
    var d := code(s.pc).value;
    var s1 := s.(pcWritten := false);
    assert s.(delay := NoSlot) == s;
    assert Executed(s1, d).Some?;
    BodyIsDataOnly(s1, d);
    KeepsLoopHere(s1, d);
  }

  /** The body: control reaches LP_END with everything but data as it was. */
  lemma BodyRuns(m: Machine, code: Code, env: Env, p: seq<u32>, count: u32, user: bool, k: nat)
    requires OneInstructionBody(code, p, user) && InLoop(m.s, p, count, user) && Undisturbed(m, env, k)
    ensures var (s, progress) := Instruction(m.s, code);
            && progress == Retired && s.pc == p[1] && InLoop(s.(pc := p[0]), p, count, user)
            && Undisturbed(m.(s := s), env, k) && Classified(s, {}) == Classified(m.s, {})
  {
    hide Instruction, KeepsLoop, NeverFaults, TicksBy;
    InstructionIsData(m.s, code);
    var s := Instruction(m.s, code).0;
    SameTimers(m.s, s);
    SameDueLines(m.s, s, TicksBy(m, k));
    hide ResetTick, NoWatchdog, TimerDue;
    assert TicksBy(m.(s := s), k) == TicksBy(m, k) by { SameTicks(m, s, k); }
  }

  lemma SameTicks(m: Machine, s: CpuState, k: nat)
    ensures TicksBy(m.(s := s), k) == TicksBy(m, k)
  {
  }

  /** The detector takes this visit for the last straw. */
  predicate Trips(m: Machine, pc: u32) { m.tightLastPc == pc && m.tightCount + 1 >= TIGHT_LOOP_THRESHOLD }

  lemma WatchedVisit(m: Machine, env: Env)
    requires m.bankIrqs == {}
    ensures var (w, stopped) := Watched(m, Some(env), false);
            if !Trips(m, m.s.pc) then
              !stopped && w == m.(tightCount := if m.tightLastPc == m.s.pc then m.tightCount + 1 else 0, tightLastPc := m.s.pc)
            else
              match Classified(m.s, {})
              case Hung => stopped && w.s == m.s.(halted := true)
              case Interruptible => !stopped && w == m.(tightCount := 0)
              case WatchdogArmed => !stopped && w.s == FastForwarded(m.s) && w.acc == m.acc
  {
    hide Classified;
  }

  lemma ArmedResets(s: CpuState, acc: nat, env: Env)
    requires Classified(s, {}) == WatchdogArmed
    ensures ResetsWithin(FastForwarded(s), acc + 176, Some(env))
  {
    ForwardedFires(s);
    hide TimerTicked, Forwarded;
  }

  /** After a visit the detector let pass: at LP_END, one more visit counted. */
  lemma VisitPasses(m: Machine, code: Code, env: Env, p: seq<u32>, count: u32, user: bool, k: nat)
    requires OneInstructionBody(code, p, user) && InLoop(m.s, p, count, user) && Undisturbed(m, env, k + 1)
    requires !Trips(m, p[1]) || Classified(m.s, {}) == Interruptible
    ensures var m' := Stepped(m, code, Some(env), false).0;
            && m'.s.pc == p[1] && InLoop(m'.s.(pc := p[0]), p, count, user) && Undisturbed(m', env, k)
            && Classified(m'.s, {}) == Classified(m.s, {}) && m'.tightLastPc == p[1]
            && m'.tightCount == (if Trips(m, p[1]) || m.tightLastPc != p[1] then 0 else m.tightCount + 1)
    ensures !WatchdogResets(m, code, env)
  {
    hide Instruction, OneInstructionBody, Undisturbed, Watched, Serviced, Classified, ResetsWithin;
    BodyRuns(m, code, env, p, count, user, k + 1);
    var m1 := m.(s := Instruction(m.s, code).0);
    NoBankLines(m1, env, k + 1);
    WatchedVisit(m1, env);
    var w := Watched(m1, Some(env), false).0;
    UndisturbedDetector(m1, w, env, k + 1);
    QuietService(w, env, k);
  }

  lemma NoBankLines(m: Machine, env: Env, k: nat)
    requires Undisturbed(m, env, k)
    ensures m.bankIrqs == {}
  {
  }

  lemma UndisturbedDetector(m: Machine, w: Machine, env: Env, k: nat)
    requires Undisturbed(m, env, k) && w == m.(tightCount := w.tightCount, tightLastPc := w.tightLastPc)
    ensures Undisturbed(w, env, k)
  {
    hide TicksBy, DueLines, NoResetWithin;
    assert TicksBy(w, k) == TicksBy(m, k) by { SameTicksBy(m, w, k); }
  }

  lemma SameTicksBy(m: Machine, w: Machine, k: nat)
    requires w.acc == m.acc
    ensures TicksBy(w, k) == TicksBy(m, k)
  {
  }

  /** The loop-back: no service, no detector. */
  lemma LoopBack(m: Machine, code: Code, env: Env, p: seq<u32>, count: u32, user: bool, k: nat)
    requires |p| == 2 && m.s.pc == p[1] && InLoop(m.s.(pc := p[0]), p, count, user) && Undisturbed(m, env, k) && count >= 2
    ensures Stepped(m, code, Some(env), false).0 == m.(s := m.s.(pc := p[0], regs := m.s.regs[LP_COUNT := count - 1]))
    ensures var m' := Stepped(m, code, Some(env), false).0;
            InLoop(m'.s, p, count - 1, user) && Undisturbed(m', env, k) && Classified(m'.s, {}) == Classified(m.s, {})
    ensures !WatchdogResets(m, code, env)
  {
    hide Issued, Watched, Serviced, TicksBy;
    var s := m.s.(pc := p[0], regs := m.s.regs[LP_COUNT := count - 1]);
    SameTimers(m.s, s);
    SameDueLines(m.s, s, TicksBy(m, k));
    SameTicks(m, s, k);
    hide ResetTick, NoWatchdog, TimerDue;
  }

  // ----- The loop's fate -----

  datatype Fate = Left | Halted | Reset

  /** The next step resets the CPU. */
  predicate WatchdogResets(m: Machine, code: Code, env: Env) {
    var (s, progress) := Instruction(m.s, code);
    var (w, stopped) := Watched(m.(s := s), Some(env), false);
    !m.s.halted && !m.s.sleeping && progress == Retired && !stopped && ResetsWithin(w.s, w.acc + 176, Some(env))
  }

  /** At LP_END with no round left: the next instruction is the one behind the loop. */
  predicate AtExit(m: Machine, p: seq<u32>)
    requires |p| == 2
  {
    m.s.pc == p[1] && m.s.regs[LP_COUNT] <= 1 && !m.s.status.l && m.s.delay.NoSlot? && !m.s.halted && !m.s.sleeping
  }

  predicate Looping(m: Machine, p: seq<u32>)
    requires |p| == 2
  {
    (m.s.pc == p[0] || m.s.pc == p[1]) && !m.s.halted && !AtExit(m, p)
  }

  predicate Ends(m: Machine, code: Code, env: Env, p: seq<u32>, fate: Fate)
    requires |p| == 2
  {
    match fate
    case Left => AtExit(m, p)
    case Halted => m.s.halted && m.s.pc == p[1]
    case Reset => WatchdogResets(m, code, env)
  }

  /** `n` steps in the loop, and then this end of it. */
  ghost predicate FateAt(m: Machine, code: Code, env: Env, p: seq<u32>, fate: Fate, n: nat)
    requires |p| == 2
  {
    && (forall i: nat :: i < n ==> Looping(StepsN(m, code, env, i), p) && !WatchdogResets(StepsN(m, code, env, i), code, env))
    && Ends(StepsN(m, code, env, n), code, env, p, fate)
  }

  /** `k` visits to LP_END do not trip the detector. */
  predicate Lasts(m: Machine, end: u32, k: nat) {
    if m.tightLastPc == end then m.tightCount + k < 64 else k <= 64
  }

  function FateOf(m: Machine, p: seq<u32>, count: u32): Fate
    requires |p| == 2
  {
    if Lasts(m, p[1], Iterations(count)) then Left
    else
      match Classified(m.s, {})
      case Interruptible => Left
      case Hung => Halted
      case WatchdogArmed => Reset
  }

  lemma FirstStep(m: Machine, code: Code, env: Env, n: nat)
    ensures StepsN(m, code, env, n + 1) == StepsN(Stepped(m, code, Some(env), false).0, code, env, n)
    ensures StepsN(m, code, env, 0) == m
  {
    hide Stepped;
  }

  lemma FateOneStepEarlier(m: Machine, code: Code, env: Env, p: seq<u32>, fate: Fate, n: nat)
    requires |p| == 2 && Looping(m, p) && !WatchdogResets(m, code, env)
    requires FateAt(Stepped(m, code, Some(env), false).0, code, env, p, fate, n)
    ensures FateAt(m, code, env, p, fate, n + 1)
  {
    hide Stepped, Looping, WatchdogResets, Ends, StepsN;
    var m1 := Stepped(m, code, Some(env), false).0;
    FirstStep(m, code, env, n);
    forall i: nat | i < n + 1
      ensures Looping(StepsN(m, code, env, i), p) && !WatchdogResets(StepsN(m, code, env, i), code, env)
    {
      if i > 0 {
        FirstStep(m, code, env, i - 1);
      }
    }
  }

  lemma FateNow(m: Machine, code: Code, env: Env, p: seq<u32>, fate: Fate)
    requires |p| == 2 && Ends(m, code, env, p, fate)
    ensures FateAt(m, code, env, p, fate, 0)
  {
    hide Ends, Looping;
    FirstStep(m, code, env, 0);
  }

  /** A visit that trips the detector on a CPU that is hung, or has a watchdog armed. */
  lemma VisitTrips(m: Machine, code: Code, env: Env, p: seq<u32>, count: u32, user: bool, k: nat)
    requires OneInstructionBody(code, p, user) && InLoop(m.s, p, count, user) && Undisturbed(m, env, k)
    requires Trips(m, p[1])
    ensures Classified(m.s, {}) == Hung ==>
              Ends(Stepped(m, code, Some(env), false).0, code, env, p, Halted) && !WatchdogResets(m, code, env)
    ensures Classified(m.s, {}) == WatchdogArmed ==> WatchdogResets(m, code, env)
  {
    hide Instruction, OneInstructionBody, Undisturbed, Watched, Serviced, Classified, ResetsWithin;
    BodyRuns(m, code, env, p, count, user, k);
    var m1 := m.(s := Instruction(m.s, code).0);
    NoBankLines(m1, env, k);
    WatchedVisit(m1, env);
    if Classified(m.s, {}) == WatchdogArmed {
      ArmedResets(m1.s, m.acc, env);
    }
  }

  lemma InLoopIsLooping(m: Machine, p: seq<u32>, count: u32, user: bool)
    requires InLoop(m.s, p, count, user) && p[0] != p[1]
    ensures Looping(m, p)
  {
  }

  lemma AtEndOfRound(m: Machine, p: seq<u32>, count: u32, user: bool)
    requires |p| == 2 && m.s.pc == p[1] && InLoop(m.s.(pc := p[0]), p, count, user)
    ensures if count <= 1 then AtExit(m, p) else Looping(m, p)
  {
  }

  /** The detector's tally after a visit it let pass. */
  lemma LastsOneLess(m: Machine, m': Machine, end: u32, k: nat)
    requires k >= 2 && m'.tightLastPc == end && !Trips(m, end)
    requires m'.tightCount == if m.tightLastPc != end then 0 else m.tightCount + 1
    ensures Lasts(m, end, k) <==> Lasts(m', end, k - 1)
  {
  }

  /** What becomes of a one-instruction loop, step by step under the detector. If the detector's tally allows the k =
      max(n, 1) visits to LP_END, or an interrupt source makes it relent, control leaves the loop; otherwise a CPU judged
      hung is halted at LP_END, and one with a watchdog armed is reset, its loop still making progress. */
  lemma {:induction false} OneInstructionLoopFate(m: Machine, code: Code, env: Env, p: seq<u32>, count: u32, user: bool)
    requires OneInstructionBody(code, p, user) && InLoop(m.s, p, count, user)
    requires Undisturbed(m, env, Iterations(count))
    ensures exists n: nat :: FateAt(m, code, env, p, FateOf(m, p, count), n)
    decreases count
  {
    hide Stepped, InLoop, Undisturbed, OneInstructionBody, Looping, Ends, AtExit, WatchdogResets, Classified, FateAt;
    ShapeOfBody(code, p, user);
    var k, verdict, fate := Iterations(count), Classified(m.s, {}), FateOf(m, p, count);
    InLoopIsLooping(m, p, count, user);
    var m1 := Stepped(m, code, Some(env), false).0;
    if Trips(m, p[1]) && verdict != Interruptible {
      VisitTrips(m, code, env, p, count, user, k);
      if verdict == Hung {
        FateNow(m1, code, env, p, fate);
        FateOneStepEarlier(m, code, env, p, fate, 0);
      } else {
        ResetNow(m, code, env, p);
        FateNow(m, code, env, p, fate);
      }
    } else {
      VisitPasses(m, code, env, p, count, user, k - 1);
      AtEndOfRound(m1, p, count, user);
      if count <= 1 {
        LeftNow(m1, code, env, p);
        FateNow(m1, code, env, p, fate);
        FateOneStepEarlier(m, code, env, p, fate, 0);
      } else {
        LoopBack(m1, code, env, p, count, user, k - 1);
        var m2 := Stepped(m1, code, Some(env), false).0;
        OneInstructionLoopFate(m2, code, env, p, count - 1, user);
        if !Trips(m, p[1]) {
          LastsOneLess(m, m2, p[1], k);
        }
        var n: nat :| FateAt(m2, code, env, p, FateOf(m2, p, count - 1), n);
        FateOneStepEarlier(m1, code, env, p, fate, n);
        FateOneStepEarlier(m, code, env, p, fate, n + 1);
      }
    }
  }

  lemma ShapeOfBody(code: Code, p: seq<u32>, user: bool)
    requires OneInstructionBody(code, p, user)
    ensures |p| == 2 && p[0] != p[1]
  {
    hide KeepsLoop, NeverFaults;
  }

  lemma ResetNow(m: Machine, code: Code, env: Env, p: seq<u32>)
    requires |p| == 2 && WatchdogResets(m, code, env)
    ensures Ends(m, code, env, p, Reset)
  {
    hide WatchdogResets;
  }

  lemma LeftNow(m: Machine, code: Code, env: Env, p: seq<u32>)
    requires |p| == 2 && AtExit(m, p)
    ensures Ends(m, code, env, p, Left)
  {
    hide AtExit;
  }

  // ----- On a silent CPU -----

  lemma {:induction false} HaltedStays(m: Machine, code: Code, env: Env, n: nat)
    requires m.s.halted
    ensures StepsN(m, code, env, n) == m
  {
    if n > 0 {
      HaltedStays(m, code, env, n - 1);
    }
  }

  lemma {:induction false} StepsAdd(m: Machine, code: Code, env: Env, i: nat, j: nat)
    ensures StepsN(StepsN(m, code, env, i), code, env, j) == StepsN(m, code, env, i + j)
    decreases i
  {
    hide Stepped;
    if i > 0 {
      StepsAdd(Stepped(m, code, Some(env), false).0, code, env, i - 1, j);
    }
  }

  /** The exact bound. On a CPU nothing can wake, the instruction behind a one-instruction loop ever runs if and only if
      the detector's tally allows k = max(n, 1) visits: 64 from a fresh detector, fewer if it stands at LP_END already. */
  lemma OneInstructionLoopEndsIff(m: Machine, code: Code, env: Env, p: seq<u32>, count: u32, user: bool)
    requires OneInstructionBody(code, p, user) && InLoop(m.s, p, count, user)
    requires Undisturbed(m, env, Iterations(count)) && Classified(m.s, {}) == Hung
    ensures (exists n: nat :: AtExit(StepsN(m, code, env, n), p)) <==>
            (if m.tightLastPc == p[1] then m.tightCount + Iterations(count) < 64 else Iterations(count) <= 64)
  {
    hide Stepped, InLoop, Undisturbed, OneInstructionBody, StepsN, AtExit, WatchdogResets, Classified;
    ShapeOfBody(code, p, user);
    OneInstructionLoopFate(m, code, env, p, count, user);
    var n: nat :| FateAt(m, code, env, p, FateOf(m, p, count), n);
    if Lasts(m, p[1], Iterations(count)) {
      assert AtExit(StepsN(m, code, env, n), p);
    } else {
      var last := StepsN(m, code, env, n);
      assert last.s.halted;
      forall i: nat ensures !AtExit(StepsN(m, code, env, i), p) {
        if i < n {
          assert Looping(StepsN(m, code, env, i), p);
        } else {
          StepsAdd(m, code, env, n, i - n);
          HaltedStays(last, code, env, i - n);
          HaltedIsNoExit(last, p);
        }
      }
    }
  }

  lemma HaltedIsNoExit(m: Machine, p: seq<u32>)
    requires |p| == 2 && m.s.halted
    ensures !AtExit(m, p)
  {
  }

  // ----- The smallest such loop -----

  const NOTHING_CODE: Code := (pc: u32) => Some(Decoded(Plain((d: Data) => d), 4))
  const SILENCE := Env(false, map[], [])
  const NOTHING_LOOP: seq<u32> := [0, 4]

  /** Fresh from reset, at the head of a loop around one instruction that does nothing. */
  function NothingLoop(count: u32): Machine {
    var r := ResetState([], 7);
    Machine(r.(regs := r.regs[LP_COUNT := count], lpEnd := 4), 0, 0, NO_PC, 0, {})
  }

  lemma NothingBody()
    ensures OneInstructionBody(NOTHING_CODE, NOTHING_LOOP, false)
  {
    DataKeepsLoop((d: Data) => d, 4);
    hide KeepsLoop;
  }

  lemma NothingStrikes(count: u32)
    ensures var m := NothingLoop(count);
            && InLoop(m.s, NOTHING_LOOP, count, false) && Undisturbed(m, SILENCE, Iterations(count))
            && Classified(m.s, {}) == Hung && m.tightLastPc != 4
  {
    hide TicksBy;
  }

  /** A loop that does nothing 65 times on a silent CPU never ends; 64 times it does. */
  lemma NothingCanBeDoneSixtyFourTimes(count: u32)
    ensures (exists n: nat :: AtExit(StepsN(NothingLoop(count), NOTHING_CODE, SILENCE, n), NOTHING_LOOP)) <==> count <= 64
  {
    hide StepsN, AtExit, NothingLoop, OneInstructionBody, InLoop, Undisturbed, Classified;
    NothingBody();
    NothingStrikes(count);
    OneInstructionLoopEndsIff(NothingLoop(count), NOTHING_CODE, SILENCE, NOTHING_LOOP, count, false);
  }
}
