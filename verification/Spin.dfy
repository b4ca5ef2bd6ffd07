/** Spinning in place: what a branch-to-self does step by step, in closed form, until an interrupt or a reset ends it. */
module SpinDetector {
  import opened Words
  import opened Alu
  import opened Registers
  import opened CpuModel
  import opened Interrupts
  import opened Timers

  /** An unconditional `b .`, outside a delay slot and a loop end. */
  predicate BranchesToSelf(s: CpuState, code: Code) {
    && s.delay.NoSlot? && !AtLoopEnd(s) && code(s.pc).Some?
    && var insn := code(s.pc).value.insn;
       insn.Branch? && insn.cc == AL && !insn.delay && !insn.link && Relative(s, insn.offset) == s.pc
  }

  /** One step with the detector left out; whether it takes an interrupt. */
  function Unwatched(m: Machine, code: Code, env: Env): (Machine, bool) {
    Serviced(m.(s := Instruction(m.s, code).0), Some(env))
  }

  /** `n` such steps, the peripherals holding their lines. */
  function Spun(m: Machine, code: Code, env: Env, n: nat): Machine {
    if n == 0 then m else Unwatched(Spun(m, code, env, n - 1), code, env).0
  }

  /** Step `n`, counting from 0, takes an interrupt. */
  predicate Takes(m: Machine, code: Code, env: Env, n: nat) { Unwatched(Spun(m, code, env, n), code, env).1 }

  // ----- What is pending when -----

  /** Timer ticks in the first `k` steps. */
  function TicksBy(m: Machine, k: nat): nat { (m.acc + 176 * k) / 100 }

  /** The step, counting from 1, of the first poll of the peripheral lines. */
  function FirstPoll(m: Machine): nat { 256 - m.s.insns % 256 }

  /** The bank's lines at step `k`: what they were, until its next tick takes over the UART's. */
  function BankLines(m: Machine, env: Env, k: nat): set<nat> {
    if m.bankAcc + k < 64 then m.bankIrqs else UartLine(env)
  }

  function PolledLines(m: Machine, env: Env, k: nat): set<nat> {
    if k < FirstPoll(m) then {} else UartLine(env) + BankLines(m, env, FirstPoll(m))
  }

  /** The lines pending at the interrupt check of step `k`. */
  function PendingAt(m: Machine, env: Env, k: nat): set<nat> {
    m.s.irqPending + DueLines(m.s, TicksBy(m, k)) + PolledLines(m, env, k)
  }

  /** The lowest of these lines is deliverable. */
  predicate Wakes(s: CpuState, pending: set<nat>) {
    exists irq: nat :: irq < 32 && irq in pending && (forall j: nat :: j < irq ==> j !in pending) && Deliverable(s, irq)
  }

  /** The state at the interrupt check of step `k`, and after it if none is taken. */
  function InPlaceAt(m: Machine, env: Env, k: nat): CpuState {
    var t := TicksBy(m, k);
    m.s.(bta := if k == 0 then m.s.bta else m.s.pc, pcWritten := m.s.pcWritten || k > 0, insns := m.s.insns + k,
         timer0 := TimerAfter(m.s.timer0, true, t), timer1 := TimerAfter(m.s.timer1, false, t),
         irqPending := PendingAt(m, env, k))
  }

  /** `m'` is `m` after `k` steps in place. */
  predicate SpunTo(m: Machine, env: Env, k: nat, m': Machine) {
    && m'.s == InPlaceAt(m, env, k) && m'.acc == (m.acc + 176 * k) % 100
    && m'.tightCount == m.tightCount && m'.tightLastPc == m.tightLastPc
    && m'.bankAcc == (m.bankAcc + k) % 64
    && m'.bankIrqs == BankLines(m, env, k)
  }

  // ----- One step in place -----

  lemma BranchInPlace(s: CpuState, code: Code)
    requires BranchesToSelf(s, code)
    ensures Instruction(s, code) == (s.(bta := s.pc, pcWritten := true, insns := s.insns + 1), Retired)
  {
    assert s.(delay := NoSlot) == s;
    var d := code(s.pc).value;
    var s1 := s.(pcWritten := false);
    assert Relative(s1, d.insn.offset) == s.pc;
    assert Executed(s1, d) == Some(s1.(bta := s.pc, pcWritten := true));
  }

  lemma StillBranchesToSelf(m: Machine, env: Env, k: nat, code: Code)
    requires BranchesToSelf(m.s, code)
    ensures BranchesToSelf(InPlaceAt(m, env, k), code)
  {
    hide TimerAfter, PendingAt;
  }

  lemma DueAdds(t: Timer, mayKeep: bool, j: nat, k: nat)
    ensures TimerDue(t, j + k) <==> TimerDue(t, j) || TimerDue(TimerAfter(t, mayKeep, j), k)
  {
    ExpiresWhenDue(t, mayKeep, j + k);
    ExpiresWhenDue(t, mayKeep, j);
    ExpiresWhenDue(TimerAfter(t, mayKeep, j), mayKeep, k);
    ExpiriesAdd(t, mayKeep, j, k);
    SettingsKept(t, mayKeep, j);
    hide TimerAfter, Expiries, Remaining;
  }

  /** Due lines only depend on the timers. */
  lemma DueLinesAdd(s: CpuState, s': CpuState, j: nat, k: nat)
    requires s'.timer0 == TimerAfter(s.timer0, true, j) && s'.timer1 == TimerAfter(s.timer1, false, j)
    requires s'.timer1Irq == s.timer1Irq
    ensures DueLines(s, j) + DueLines(s', k) == DueLines(s, j + k)
  {
    DueAdds(s.timer0, true, j, k);
    DueAdds(s.timer1, false, j, k);
    hide TimerAfter, TimerDue;
  }

  lemma ResetStillAhead(s: CpuState, s': CpuState, j: nat, k: nat)
    requires s'.timer0 == TimerAfter(s.timer0, true, j) && s'.timer1 == TimerAfter(s.timer1, false, j)
    requires NoResetWithin(s, j)
    ensures NoResetWithin(s, j + k) <==> NoResetWithin(s', k)
    ensures NoWatchdog(s') <==> NoWatchdog(s)
    ensures !NoWatchdog(s) ==> ResetTick(s') == ResetTick(s) - j
  {
    ResetComesNearer(s, j);
    SameTimers(AfterTicks(s, j), s');
    hide AfterTicks, TimerAfter, NoWatchdog, ResetTick;
  }

  lemma SameTimers(s: CpuState, s': CpuState)
    requires s'.timer0 == s.timer0 && s'.timer1 == s.timer1
    ensures NoWatchdog(s') <==> NoWatchdog(s)
    ensures !NoWatchdog(s) ==> ResetTick(s') == ResetTick(s)
  {
  }

  lemma TicksByStep(m: Machine, k: nat)
    ensures TicksBy(m, k + 1) == TicksBy(m, k) + ((m.acc + 176 * k) % 100 + 176) / 100
    ensures (m.acc + 176 * (k + 1)) % 100 == ((m.acc + 176 * k) % 100 + 176) % 100
  {
    var due := m.acc + 176 * k;
    assert due == 100 * (due / 100) + due % 100;
  }

  /** The lines after one more step: what was pending, what the timers raise, and the poll. */
  lemma PendingStep(m: Machine, env: Env, k: nat, q: nat)
    requires TicksBy(m, k + 1) == TicksBy(m, k) + q && m.bankAcc < 64
    ensures PendingAt(m, env, k + 1) ==
            PendingAt(m, env, k) + DueLines(InPlaceAt(m, env, k), q)
            + (if (m.s.insns + k + 1) % 256 == 0 then UartLine(env) + BankLines(m, env, k + 1) else {})
  {
    hide DueLines, TimerAfter, TicksBy, PolledLines, BankLines, UartLine;
    DueLinesAdd(m.s, InPlaceAt(m, env, k), TicksBy(m, k), q);
    PolledStep(m, env, k);
    hide InPlaceAt;
  }

  lemma PolledStep(m: Machine, env: Env, k: nat)
    requires m.bankAcc < 64
    ensures PolledLines(m, env, k + 1) ==
            PolledLines(m, env, k)
            + (if (m.s.insns + k + 1) % 256 == 0 then UartLine(env) + BankLines(m, env, k + 1) else {})
  {
    PollPhase(m.s.insns, k);
    hide UartLine;
  }

  lemma PollPhase(insns: nat, k: nat)
    ensures (insns + k + 1) % 256 == 0 ==> k + 1 >= 256 - insns % 256
    ensures (insns + k + 1) % 256 == 0 && k + 1 > 256 - insns % 256 ==>
              k + 1 >= 2 * 256 - insns % 256
    ensures k + 1 == 256 - insns % 256 ==> (insns + k + 1) % 256 == 0
  {
    var q, r := insns / 256, insns % 256;
    assert insns + k + 1 == q * 256 + (r + k + 1);
  }

  /** The service of a step in place, up to its interrupt check. */
  lemma ServiceInPlace(m: Machine, code: Code, env: Env, k: nat, m': Machine)
    requires BranchesToSelf(m.s, code) && SpunTo(m, env, k, m') && m.bankAcc < 64 && m.acc < 100
    requires NoResetWithin(m.s, TicksBy(m, k + 1))
    ensures var s := Instruction(m'.s, code).0;
            && s == m'.s.(bta := m.s.pc, pcWritten := true, insns := m.s.insns + k + 1)
            && !ResetsWithin(s, m'.acc + 176, Some(env))
            && Ticked(s, m'.acc, Some(env)) ==
               (InPlaceAt(m, env, k + 1).(irqPending := PendingAt(m, env, k) + DueLines(m'.s, TicksBy(m, k + 1) - TicksBy(m, k))),
                (m.acc + 176 * (k + 1)) % 100)
  {
    hide Instruction, Ticked, ResetsWithin, BranchesToSelf, PendingAt, NoResetWithin, DueLines, TimerAfter, TicksBy;
    StillBranchesToSelf(m, env, k, code);
    BranchInPlace(m'.s, code);
    var s := Instruction(m'.s, code).0;
    TicksByStep(m, k);
    var t, q := TicksBy(m, k), (m'.acc + 176) / 100;
    EarlierStill(m.s, t, t + q);
    ResetStillAhead(m.s, s, t, q);
    TickedShortOfReset(s, m'.acc, env);
    TimerAfterAdds(m.s.timer0, true, t, q);
    TimerAfterAdds(m.s.timer1, false, t, q);
    LinesAreDue(s, q);
    SameDueLines(s, m'.s, q);
  }

  lemma EarlierStill(s: CpuState, j: nat, k: nat)
    requires NoResetWithin(s, k) && j <= k
    ensures NoResetWithin(s, j)
  {
  }

  lemma SameDueLines(s: CpuState, s': CpuState, n: nat)
    requires s'.timer0 == s.timer0 && s'.timer1 == s.timer1 && s'.timer1Irq == s.timer1Irq
    ensures DueLines(s', n) == DueLines(s, n)
  {
  }

  lemma BankInPlace(m: Machine, env: Env, k: nat, m': Machine)
    requires SpunTo(m, env, k, m') && m.bankAcc < 64
    ensures var (acc, irqs) := BankTicked(m'.bankAcc, m'.bankIrqs, Some(env));
            && irqs == BankLines(m, env, k + 1)
            && acc == (m.bankAcc + k + 1) % 64
  {
    hide InPlaceAt;
    var x := m.bankAcc + k;
    assert x == 64 * (x / 64) + x % 64;
  }

  /** One step in place: it comes to the closed form and is interrupted exactly when the lines then pending wake it. */
  lemma StepInPlace(m: Machine, code: Code, env: Env, k: nat, m': Machine)
    requires BranchesToSelf(m.s, code) && SpunTo(m, env, k, m') && m.bankAcc < 64 && m.acc < 100
    requires NoResetWithin(m.s, TicksBy(m, k + 1))
    ensures Unwatched(m', code, env).1 <==> Wakes(m.s, PendingAt(m, env, k + 1))
    ensures !Unwatched(m', code, env).1 ==> SpunTo(m, env, k + 1, Unwatched(m', code, env).0)
  {
    hide Instruction, Ticked, ResetsWithin, BranchesToSelf, PendingAt, NoResetWithin, DueLines, TimerAfter, TicksBy, BankLines;
    hide BankTicked, Interrupted, Wakes, UartLine;
    ServiceInPlace(m, code, env, k, m');
    BankInPlace(m, env, k, m');
    TicksByStep(m, k);
    PendingStep(m, env, k, TicksBy(m, k + 1) - TicksBy(m, k));
    var s := InPlaceAt(m, env, k + 1);
    var s1 := Ticked(Instruction(m'.s, code).0, m'.acc, Some(env)).0;
    assert Polled(s1, Some(env), BankLines(m, env, k + 1)) == s;
    WakesInPlace(m, env, k + 1, code);
    NotTakenUnlessWoken(s, env);
  }

  lemma NotTakenUnlessWoken(s: CpuState, env: Env)
    requires s.delay.NoSlot?
    ensures Interrupted(s, Some(env)).1 <==> Wakes(s, s.irqPending)
    ensures !Interrupted(s, Some(env)).1 ==> Interrupted(s, Some(env)).0 == s
  {
    TakenExactlyWhen(s, Some(env));
    NotTakenKeeps(s, env);
    hide Interrupted, Deliverable;
    if irq: nat :| IsLowest(s, irq) && Deliverable(s, irq) {
      assert irq in s.irqPending;
    }
    if Wakes(s, s.irqPending) {
      var irq: nat :| irq < 32 && irq in s.irqPending && (forall j: nat :: j < irq ==> j !in s.irqPending) && Deliverable(s, irq);
      assert IsLowest(s, irq);
    }
  }

  lemma NotTakenKeeps(s: CpuState, env: Env)
    ensures !Interrupted(s, Some(env)).1 ==> Interrupted(s, Some(env)).0 == s
  {
    hide EnteredL1, EnteredL2, Vector;
  }

  /** Spinning changes neither the enables nor the levels. */
  lemma WakesInPlace(m: Machine, env: Env, k: nat, code: Code)
    requires BranchesToSelf(m.s, code)
    ensures Wakes(InPlaceAt(m, env, k), PendingAt(m, env, k)) <==> Wakes(m.s, PendingAt(m, env, k))
    ensures InPlaceAt(m, env, k).delay.NoSlot?
  {
    hide PendingAt, TimerAfter;
    var s := InPlaceAt(m, env, k);
    assert forall irq: nat :: Deliverable(s, irq) == Deliverable(m.s, irq);
    hide Deliverable, InPlaceAt;
  }

  // ----- Any number of steps -----

  lemma NothingSpun(m: Machine, env: Env)
    requires m.acc < 100 && m.bankAcc < 64
    ensures SpunTo(m, env, 0, m)
  {
    assert TicksBy(m, 0) == 0;
    hide TicksBy;
    assert PendingAt(m, env, 0) == m.s.irqPending;
  }

  /** Nothing wakes the CPU in steps 1 to `k`. */
  predicate NothingWakes(m: Machine, env: Env, k: nat) {
    forall j: nat :: 1 <= j <= k ==> !Wakes(m.s, PendingAt(m, env, j))
  }

  lemma TicksGrow(m: Machine, j: nat, k: nat)
    requires j <= k
    ensures TicksBy(m, j) <= TicksBy(m, k)
  {
  }

  lemma {:induction false} SpinsInPlace(m: Machine, code: Code, env: Env, k: nat)
    requires BranchesToSelf(m.s, code) && m.bankAcc < 64 && m.acc < 100
    requires NoResetWithin(m.s, TicksBy(m, k)) && NothingWakes(m, env, k)
    ensures SpunTo(m, env, k, Spun(m, code, env, k)) && forall j: nat :: j < k ==> !Takes(m, code, env, j)
    decreases k
  {
    hide BranchesToSelf, SpunTo, Unwatched, Wakes, PendingAt, NoResetWithin, TicksBy;
    if k == 0 {
      NothingSpun(m, env);
    } else {
      TicksGrow(m, k - 1, k);
      EarlierStill(m.s, TicksBy(m, k - 1), TicksBy(m, k));
      SpinsInPlace(m, code, env, k - 1);
      StepInPlace(m, code, env, k - 1, Spun(m, code, env, k - 1));
    }
  }

  /** Spinning, decided beforehand: with no reset in `k` steps, none of them takes an interrupt if and only if at none
      of them the lowest pending line is deliverable, what is pending being known from the counters. */
  lemma SpinDecided(m: Machine, code: Code, env: Env, k: nat)
    requires BranchesToSelf(m.s, code) && m.bankAcc < 64 && m.acc < 100
    requires NoResetWithin(m.s, TicksBy(m, k))
    ensures (forall j: nat :: j < k ==> !Takes(m, code, env, j)) <==> NothingWakes(m, env, k)
    decreases k
  {
    hide BranchesToSelf, SpunTo, Unwatched, Wakes, PendingAt, NoResetWithin, TicksBy, Spun;
    if NothingWakes(m, env, k) {
      SpinsInPlace(m, code, env, k);
    } else {
      var j := FirstWake(m, env, k);
      TicksGrow(m, j, k);
      TicksGrow(m, j - 1, j);
      EarlierStill(m.s, TicksBy(m, j), TicksBy(m, k));
      EarlierStill(m.s, TicksBy(m, j - 1), TicksBy(m, j));
      SpinsInPlace(m, code, env, j - 1);
      StepInPlace(m, code, env, j - 1, Spun(m, code, env, j - 1));
      assert Takes(m, code, env, j - 1);
    }
  }

  lemma {:induction false} FirstWake(m: Machine, env: Env, k: nat) returns (j: nat)
    requires !NothingWakes(m, env, k)
    ensures 1 <= j <= k && Wakes(m.s, PendingAt(m, env, j)) && NothingWakes(m, env, j - 1)
  {
    hide Wakes, PendingAt;
    if NothingWakes(m, env, k - 1) {
      j := k;
    } else {
      j := FirstWake(m, env, k - 1);
    }
  }
}
