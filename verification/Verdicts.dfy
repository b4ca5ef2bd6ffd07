/** When the spin detector's verdicts on a branch-to-self are right: the halt of a hung CPU, and the fast-forward to a
    watchdog reset. */
module SpinVerdicts {
  import opened Words
  import opened Alu
  import opened Registers
  import opened CpuModel
  import opened Interrupts
  import opened Timers
  import opened SpinDetector

  /** A machine between steps at a branch-to-self. */
  predicate Spinning(m: Machine, code: Code) {
    BranchesToSelf(m.s, code) && m.bankAcc < 64 && m.acc < 100
  }

  // ----- Hung -----

  predicate Enabled(s: CpuState) { s.status.e1 || s.status.e2 }

  lemma DisabledNeverWakes(s: CpuState, pending: set<nat>)
    requires !Enabled(s)
    ensures !Wakes(s, pending)
  {
  }

  /** What can still become pending at a CPU judged hung with interrupts on: the UART's line, at the next poll. */
  lemma HungPending(m: Machine, env: Env, k: nat)
    requires Classified(m.s, m.bankIrqs) == Hung && Enabled(m.s)
    ensures PendingAt(m, env, k) == if k < FirstPoll(m) then {} else UartLine(env)
  {
    hide TicksBy, Remaining;
  }

  lemma HungHasNoWatchdog(m: Machine)
    requires Classified(m.s, m.bankIrqs) == Hung
    ensures NoWatchdog(m.s)
  {
  }

  lemma UartWakes(s: CpuState, env: Env)
    ensures Wakes(s, UartLine(env)) <==> env.uart && Deliverable(s, 5)
    ensures !Wakes(s, {})
  {
    hide Deliverable;
    if env.uart && Deliverable(s, 5) {
      assert 5 in UartLine(env) && forall j: nat :: j < 5 ==> j !in UartLine(env);
    }
  }

  lemma HungWakes(m: Machine, env: Env, k: nat)
    requires Classified(m.s, m.bankIrqs) == Hung
    ensures Wakes(m.s, PendingAt(m, env, k)) <==> env.uart && Deliverable(m.s, 5) && k >= FirstPoll(m)
  {
    hide Classified, PendingAt, Wakes, UartLine;
    if Enabled(m.s) {
      HungPending(m, env, k);
      UartWakes(m.s, env);
    } else {
      DisabledNeverWakes(m.s, PendingAt(m, env, k));
    }
  }

  /** When a Hung verdict is right. With the UART's line held from now on, no step ever takes an interrupt if and only
      if no deliverable UART request is up: the verdict looks at what the bank last took over from the UART, the poll
      at the UART itself. */
  lemma HungIsRightUnlessTheUartCalls(m: Machine, code: Code, env: Env)
    requires Spinning(m, code) && Classified(m.s, m.bankIrqs) == Hung
    ensures (forall n: nat :: !Takes(m, code, env, n)) <==> !(env.uart && Deliverable(m.s, 5))
    ensures env.uart && Deliverable(m.s, 5) ==> exists n: nat :: n < 256 && Takes(m, code, env, n)
  {
    if env.uart && Deliverable(m.s, 5) {
      RequestIsTaken(m, code, env);
    } else {
      forall n: nat ensures !Takes(m, code, env, n) {
        NoRequestNothingTaken(m, code, env, n);
      }
    }
  }

  lemma RequestIsTaken(m: Machine, code: Code, env: Env)
    requires Spinning(m, code) && Classified(m.s, m.bankIrqs) == Hung && env.uart && Deliverable(m.s, 5)
    ensures exists n: nat :: n < 256 && Takes(m, code, env, n)
  {
    hide Classified, BranchesToSelf, Takes, PendingAt, Wakes, Deliverable, TicksBy, NoWatchdog;
    HungHasNoWatchdog(m);
    var k := FirstPoll(m);
    HungWakes(m, env, k);
    SpinDecided(m, code, env, k);
    assert !NothingWakes(m, env, k);
  }

  lemma NoRequestNothingTaken(m: Machine, code: Code, env: Env, n: nat)
    requires Spinning(m, code) && Classified(m.s, m.bankIrqs) == Hung && !(env.uart && Deliverable(m.s, 5))
    ensures NothingWakes(m, env, n + 1) && !Takes(m, code, env, n)
  {
    hide Classified, BranchesToSelf, Takes, PendingAt, Wakes, Deliverable, TicksBy, NoWatchdog;
    HungHasNoWatchdog(m);
    forall j: nat | 1 <= j <= n + 1 ensures !Wakes(m.s, PendingAt(m, env, j)) {
      HungWakes(m, env, j);
    }
    SpinDecided(m, code, env, n + 1);
  }

  /** A right Hung verdict halts a CPU that would never have moved: for ever after the PC, the registers, the memory and
      every status bit are what they were, and no watchdog reset comes. */
  lemma HungNeverMoves(m: Machine, code: Code, env: Env, n: nat, tick: nat)
    requires Spinning(m, code) && Classified(m.s, m.bankIrqs) == Hung
    requires !(env.uart && Deliverable(m.s, 5))
    ensures Spun(m, code, env, n).s == InPlaceAt(m, env, n) && !ResetsAt(Spun(m, code, env, n).s, tick)
  {
    hide Classified, BranchesToSelf, PendingAt, Wakes, Deliverable, TicksBy, NoWatchdog, ResetsAt, Spun, TimerAfter, DueLines;
    hide InPlaceAt;
    HungHasNoWatchdog(m);
    NoRequestNothingTaken(m, code, env, n);
    NothingWakesBefore(m, env, n, n + 1);
    SpinsInPlace(m, code, env, n);
    InPlaceTimers(m, env, n);
    ResetStillAhead(m.s, Spun(m, code, env, n).s, TicksBy(m, n), 0);
    QuietWithoutWatchdog(Spun(m, code, env, n).s, tick);
  }

  lemma InPlaceTimers(m: Machine, env: Env, n: nat)
    ensures InPlaceAt(m, env, n).timer0 == TimerAfter(m.s.timer0, true, TicksBy(m, n))
    ensures InPlaceAt(m, env, n).timer1 == TimerAfter(m.s.timer1, false, TicksBy(m, n))
  {
    hide TimerAfter, TicksBy, PendingAt;
  }

  // ----- The fast-forward -----

  /** The step, counting from 1, whose ticks reach the watchdog's reset. */
  function ResetStep(m: Machine): nat
    requires !NoWatchdog(m.s) && m.acc < 100
  {
    ResetTickIsPositive(m.s);
    (100 * ResetTick(m.s) - m.acc + 175) / 176
  }

  lemma ResetStepIsFirst(m: Machine)
    requires !NoWatchdog(m.s) && m.acc < 100
    ensures var k := ResetStep(m); k >= 1 && TicksBy(m, k - 1) < ResetTick(m.s) <= TicksBy(m, k)
  {
    ResetTickIsPositive(m.s);
    hide ResetTick;
  }

  /** Spinning on, the watchdog resets the CPU in step `k`, not before, and the reset leaves what a reset here would. */
  ghost predicate ResetsInStep(m: Machine, code: Code, env: Env, k: nat) {
    && k >= 1
    && (forall j: nat :: j < k - 1 ==> !StepResets(Spun(m, code, env, j), code, env))
    && StepResets(Spun(m, code, env, k - 1), code, env)
    && ResetLeaves(Spun(m, code, env, k - 1), code, env, Rebooted(m.s, env))
  }

  predicate StepResets(m: Machine, code: Code, env: Env) {
    ResetsWithin(Instruction(m.s, code).0, m.acc + 176, Some(env))
  }

  /** The first reset among this step's ticks leaves `r`. */
  ghost predicate ResetLeaves(m: Machine, code: Code, env: Env, r: CpuState) {
    var s := Instruction(m.s, code).0;
    !NoWatchdog(s) && ResetTick(s) <= (m.acc + 176) / 100 && TicksN(s, Some(env), ResetTick(s)) == r
  }

  lemma RebootForgets(s: CpuState, s': CpuState, env: Env)
    requires s'.timer1Irq == s.timer1Irq
    ensures Rebooted(s', env) == Rebooted(s, env)
  {
    hide ResetState;
  }

  /** In place, the step resets exactly when its ticks reach the reset. */
  lemma ResetOfStepInPlace(m: Machine, code: Code, env: Env, k: nat, m': Machine)
    requires Spinning(m, code) && SpunTo(m, env, k, m') && NoResetWithin(m.s, TicksBy(m, k))
    ensures StepResets(m', code, env) <==> !NoResetWithin(m.s, TicksBy(m, k + 1))
    ensures StepResets(m', code, env) ==> ResetLeaves(m', code, env, Rebooted(m.s, env))
  {
    hide BranchesToSelf, PendingAt, TicksBy, TimerAfter, DueLines, ResetsWithin, TicksN, Rebooted, BankLines, NoWatchdog;
    hide ResetTick, Instruction;
    StillBranchesToSelf(m, env, k, code);
    BranchInPlace(m'.s, code);
    var s := Instruction(m'.s, code).0;
    TicksByStep(m, k);
    ResetStillAhead(m.s, s, TicksBy(m, k), (m'.acc + 176) / 100);
    ResetsWhenDue(s, m'.acc + 176, env);
    if StepResets(m', code, env) {
      FastForwardReachesTheSameReset(s, env);
      RebootForgets(m.s, s, env);
    }
  }

  /** The fast-forward brings the reset in the very step of the verdict. */
  lemma ForwardedStepResets(m: Machine, env: Env)
    requires !NoWatchdog(m.s)
    ensures ResetsWithin(FastForwarded(m.s), m.acc + 176, Some(env))
    ensures BothTicked(FastForwarded(m.s), Some(env)) == Rebooted(m.s, env)
  {
    hide BothTicked, Rebooted, FastForwarded, ResetTick, NoWatchdog, WatchdogFires;
    FastForwardReachesTheSameReset(m.s, env);
    ForwardedFiresAtOnce(m.s);
  }

  lemma ForwardedFiresAtOnce(s: CpuState)
    requires !NoWatchdog(s)
    ensures WatchdogFires(FastForwarded(s))
  {
    ForwardedFires(s);
    hide TimerTicked, Forwarded;
  }

  /** When the fast-forward is faithful. At a branch-to-self with a watchdog armed, spinning on in ordinary time reaches
      the same reset without taking an interrupt if and only if, at no step before the reset's, the lowest line then
      pending is deliverable. The lines that count are those the verdict passes over: pending already, raised by an
      enabled timer due before the reset, or brought in by a poll. */
  lemma FastForwardIsFaithful(m: Machine, code: Code, env: Env)
    requires Spinning(m, code) && !NoWatchdog(m.s)
    ensures var k := ResetStep(m);
            && ((forall j: nat :: j < k - 1 ==> !Takes(m, code, env, j)) && ResetsInStep(m, code, env, k)
                <==> NothingWakes(m, env, k - 1))
            && ResetsWithin(FastForwarded(Instruction(m.s, code).0), m.acc + 176, Some(env))
            && BothTicked(FastForwarded(Instruction(m.s, code).0), Some(env)) == Rebooted(m.s, env)
  {
    hide BranchesToSelf, PendingAt, Wakes, TicksBy, NoWatchdog, ResetTick, Spun, Takes, StepResets, ResetLeaves, SpunTo;
    hide Rebooted, ResetsWithin, BothTicked, FastForwarded, NothingWakes, Instruction, ResetStep;
    var k := ResetStep(m);
    ResetStepIsFirst(m);
    SpinDecided(m, code, env, k - 1);
    if NothingWakes(m, env, k - 1) {
      forall j: nat | j < k ensures SpunTo(m, env, j, Spun(m, code, env, j)) && NoResetWithin(m.s, TicksBy(m, j)) {
        TicksGrow(m, j, k - 1);
        NothingWakesBefore(m, env, j, k - 1);
        SpinsInPlace(m, code, env, j);
      }
      forall j: nat | j < k
        ensures StepResets(Spun(m, code, env, j), code, env) <==> j == k - 1
      {
        TicksGrow(m, j + 1, if j == k - 1 then k else k - 1);
        ResetOfStepInPlace(m, code, env, j, Spun(m, code, env, j));
      }
      ResetOfStepInPlace(m, code, env, k - 1, Spun(m, code, env, k - 1));
    }
    InstructionKeepsTimers(m.s, code);
    var s := Instruction(m.s, code).0;
    SameTimers(m.s, s);
    ForwardedStepResets(m.(s := s), env);
    RebootForgets(m.s, s, env);
  }

  lemma NothingWakesBefore(m: Machine, env: Env, j: nat, k: nat)
    requires NothingWakes(m, env, k) && j <= k
    ensures NothingWakes(m, env, j)
  {
    hide Wakes, PendingAt;
  }

  lemma InstructionKeepsTimers(s: CpuState, code: Code)
    requires BranchesToSelf(s, code)
    ensures var s' := Instruction(s, code).0;
            s'.timer0 == s.timer0 && s'.timer1 == s.timer1 && s'.timer1Irq == s.timer1Irq
  {
    BranchInPlace(s, code);
  }

  // ----- The bank's view of the UART -----

  /** The detector's steps under peripherals that may change from one to the next. */
  function Run(m: Machine, code: Code, envs: seq<Env>): Machine {
    if envs == [] then m else Stepped(Run(m, code, envs[..|envs| - 1]), code, Some(envs[|envs| - 1]), false).0
  }

  /** A step that retires an instruction the detector lets pass, no reset striking. */
  predicate Serves(m: Machine, code: Code, env: Env) {
    var (s, p) := Instruction(m.s, code);
    && !m.s.halted && !m.s.sleeping && p == Retired
    && Passes(m.(s := s), Some(env), false) && !ResetsWithin(s, m.acc + 176, Some(env))
  }

  lemma ServedBank(m: Machine, code: Code, env: Env)
    requires Serves(m, code, env)
    ensures var m' := Stepped(m, code, Some(env), false).0;
            (m'.bankAcc, m'.bankIrqs) == BankTicked(m.bankAcc, m.bankIrqs, Some(env))
  {
    hide Instruction, Watched, Interrupted, Ticked, ResetsWithin, BankTicked, Polled;
    WatchedKeepsTheBank(m.(s := Instruction(m.s, code).0), Some(env), false);
  }

  ghost predicate RunServes(m: Machine, code: Code, envs: seq<Env>) {
    forall i: nat :: i < |envs| ==> Serves(Run(m, code, envs[..i]), code, envs[i])
  }

  lemma RunServesPrefix(m: Machine, code: Code, envs: seq<Env>, n: nat)
    requires RunServes(m, code, envs) && n <= |envs|
    ensures RunServes(m, code, envs[..n])
  {
    hide Serves, Run;
    forall i: nat | i < n ensures Serves(Run(m, code, envs[..n][..i]), code, envs[..n][i]) {
      assert envs[..n][..i] == envs[..i];
    }
  }

  /** What `n` services leave in the bank. */
  ghost predicate BankAfter(m: Machine, envs: seq<Env>, r: Machine) {
    && r.bankAcc == (m.bankAcc + |envs|) % 64
    && (if m.bankAcc + |envs| < 64 then r.bankIrqs == m.bankIrqs
        else r.bankAcc < |envs| && r.bankIrqs == UartLine(envs[|envs| - 1 - r.bankAcc]))
  }

  lemma BankAfterOne(m: Machine, envs: seq<Env>, env: Env, before: Machine, r: Machine)
    requires m.bankAcc < 64 && BankAfter(m, envs, before)
    requires (r.bankAcc, r.bankIrqs) == BankTicked(before.bankAcc, before.bankIrqs, Some(env))
    ensures BankAfter(m, envs + [env], r)
  {
    hide UartLine;
    var x := m.bankAcc + |envs|;
    assert x == 64 * (x / 64) + x % 64;
  }

  /** What the bank shows is the UART's line at its last tick, which is at most 63 steps old. */
  lemma {:induction false} BankShowsItsLastTick(m: Machine, code: Code, envs: seq<Env>)
    requires RunServes(m, code, envs) && m.bankAcc < 64
    ensures BankAfter(m, envs, Run(m, code, envs))
    decreases |envs|
  {
    hide *;
    if envs == [] {
      NoServices(m, code);
    } else {
      var front, last := envs[..|envs| - 1], envs[|envs| - 1];
      RunServesPrefix(m, code, envs, |front|);
      BankShowsItsLastTick(m, code, front);
      var before := Run(m, code, front);
      LastServes(m, code, envs);
      ServedBank(before, code, last);
      BankAfterOne(m, front, last, before, Run(m, code, envs));
      assert front + [last] == envs;
    }
  }

  lemma NoServices(m: Machine, code: Code)
    requires m.bankAcc < 64
    ensures BankAfter(m, [], Run(m, code, []))
  {
  }

  lemma LastServes(m: Machine, code: Code, envs: seq<Env>)
    requires RunServes(m, code, envs) && envs != []
    ensures var before := Run(m, code, envs[..|envs| - 1]);
            && Serves(before, code, envs[|envs| - 1])
            && Run(m, code, envs) == Stepped(before, code, Some(envs[|envs| - 1]), false).0
  {
    hide Serves, Stepped;
  }

  lemma ServedDetector(m: Machine, code: Code, env: Env)
    requires Serves(m, code, env)
    ensures var m' := Stepped(m, code, Some(env), false).0;
            m'.tightCount == 0 || (m'.tightCount == m.tightCount + 1 && m'.tightLastPc == m.tightLastPc)
  {
    hide Instruction, Interrupted, Ticked, ResetsWithin, BankTicked, Polled, Classified;
  }

  /** A count of c at a PC the detector had not seen takes c + 1 steps. */
  lemma {:induction false} CountsTakeSteps(m: Machine, code: Code, envs: seq<Env>)
    requires RunServes(m, code, envs)
    ensures var r := Run(m, code, envs); r.tightLastPc == m.tightLastPc || r.tightCount < |envs|
    decreases |envs|
  {
    hide *;
    if envs == [] {
      NoSteps(m, code);
    } else {
      var front, last := envs[..|envs| - 1], envs[|envs| - 1];
      RunServesPrefix(m, code, envs, |front|);
      CountsTakeSteps(m, code, front);
      LastServes(m, code, envs);
      ServedDetector(Run(m, code, front), code, last);
    }
  }

  lemma NoSteps(m: Machine, code: Code)
    ensures Run(m, code, []) == m
  {
  }

  /** The detector is about to judge `m` hung. */
  predicate AboutToHalt(m: Machine, code: Code) {
    && Spinning(m, code) && !m.s.halted && !m.s.sleeping
    && m.tightLastPc == m.s.pc && m.tightCount + 1 >= TIGHT_LOOP_THRESHOLD && Classified(m.s, m.bankIrqs) == Hung
  }

  lemma HaltsNext(m: Machine, code: Code, env: Env)
    requires AboutToHalt(m, code)
    ensures Stepped(m, code, Some(env), false).0.s.halted
  {
    hide BranchesToSelf;
    BranchInPlace(m.s, code);
    SameVerdict(m.s, Instruction(m.s, code).0, m.bankIrqs);
    hide Instruction, Classified;
  }

  lemma SameVerdict(s: CpuState, s': CpuState, bankIrqs: set<nat>)
    requires s'.timer0 == s.timer0 && s'.timer1 == s.timer1 && s'.irqPending == s.irqPending && s'.status == s.status
    ensures Classified(s', bankIrqs) == Classified(s, bankIrqs)
  {
  }

  /** The detector at a PC it has seen: below the threshold it only counts; a verdict that lets the CPU go on restarts the
      count, and a halt touches nothing but the halt itself, so the state stays as evidence. */
  lemma DetectorActs(m: Machine, env: Env)
    requires m.tightLastPc == m.s.pc
    ensures var (m', stopped) := Watched(m, Some(env), false);
            && m'.tightLastPc == m.tightLastPc && m'.acc == m.acc && m'.bankAcc == m.bankAcc && m'.bankIrqs == m.bankIrqs
            && (m.tightCount < 63 ==> !stopped && m'.s == m.s && m'.tightCount == m.tightCount + 1)
            && (m.tightCount >= 63 ==> (stopped <==> Classified(m.s, m.bankIrqs) == Hung))
            && (m.tightCount >= 63 && !stopped ==> m'.tightCount == 0)
            && (stopped ==> m'.s == m.s.(halted := true) && m'.tightCount == m.tightCount + 1)
  {
    hide Classified, FastForwarded;
  }

  /** A harness that asks for it has any spin halted at the threshold, whatever the verdict would be. */
  lemma HarnessHaltsEverySpin(m: Machine, code: Code, env: Env)
    requires Spinning(m, code) && !m.s.halted && !m.s.sleeping && m.tightLastPc == m.s.pc
    ensures var (m', ok) := Stepped(m, code, Some(env), true);
            ok && (m.tightCount >= 63 ==> m'.s == Instruction(m.s, code).0.(halted := true) && m'.s.pc == m.s.pc && m'.acc == m.acc)
  {
    hide BranchesToSelf;
    BranchInPlace(m.s, code);
    hide Instruction, Serviced;
  }

  /** The verdict and the request. Let a run arrive at a branch-to-self and spin there until the detector halts it as
      hung. The halt is wrong, the UART's line held from then on, if and only if a deliverable UART request is up at
      that moment; and then the UART was silent at the bank's last tick, so the request is newer. */
  lemma HungMissesOnlyANewRequest(m: Machine, code: Code, envs: seq<Env>, env: Env)
    requires RunServes(m, code, envs) && m.bankAcc < 64
    requires AboutToHalt(Run(m, code, envs), code) && m.tightLastPc != Run(m, code, envs).s.pc
    ensures var r := Run(m, code, envs);
            && Stepped(r, code, Some(env), false).0.s.halted
            && ((exists n: nat :: Takes(r, code, env, n)) <==> env.uart && Deliverable(r.s, 5))
            && (env.uart && Deliverable(r.s, 5) ==>
                  r.bankAcc < |envs| && !envs[|envs| - 1 - r.bankAcc].uart)
  {
    hide RunServes, Takes, BranchesToSelf, Run, Stepped, Serves;
    var r := Run(m, code, envs);
    BankShowsItsLastTick(m, code, envs);
    CountsTakeSteps(m, code, envs);
    HaltsNext(r, code, env);
    HungIsRightUnlessTheUartCalls(r, code, env);
  }

  // ----- A wrong verdict -----

  /** Nothing to wake the CPU: no watchdog, no timer, no line. */
  predicate Silent(m: Machine, env: Env) {
    && NoWatchdog(m.s) && !TimerEnabled(m.s.timer0) && !TimerEnabled(m.s.timer1)
    && m.s.irqPending == {} && m.bankIrqs == {} && !env.uart
  }

  predicate TimerEnabled(t: Timer) { t.ie && t.limit != 0 }

  lemma SilentNeverWakes(m: Machine, env: Env, k: nat)
    requires Silent(m, env)
    ensures NothingWakes(m, env, k) && forall j: nat :: PendingAt(m, env, j) == {}
  {
    hide Deliverable, Remaining, TicksBy;
  }

  lemma ServicedIgnoresCount(m: Machine, env: Env, c: nat)
    requires !ResetsWithin(m.s, m.acc + 176, Some(env))
    ensures Serviced(m.(tightCount := c), Some(env)).0 == Serviced(m, Some(env)).0.(tightCount := c)
  {
    hide Ticked, Interrupted, Polled, BankTicked, ResetsWithin;
  }

  /** Below the threshold a step in place is an unwatched one that counts. */
  lemma CountedStep(m: Machine, code: Code, env: Env)
    requires BranchesToSelf(m.s, code) && !m.s.halted && !m.s.sleeping && m.tightLastPc == m.s.pc
    requires m.tightCount + 1 < TIGHT_LOOP_THRESHOLD && NoWatchdog(m.s)
    ensures Stepped(m, code, Some(env), false).0 == Unwatched(m, code, env).0.(tightCount := m.tightCount + 1)
  {
    hide BranchesToSelf, Serviced, ResetsWithin, NoWatchdog;
    BranchInPlace(m.s, code);
    var s := Instruction(m.s, code).0;
    SameTimers(m.s, s);
    ResetsWhenDue(s, m.acc + 176, env);
    ServicedIgnoresCount(m.(s := s), env, m.tightCount + 1);
    hide Instruction;
  }

  lemma UnwatchedIgnoresCount(m: Machine, code: Code, env: Env, c: nat)
    requires BranchesToSelf(m.s, code) && NoWatchdog(m.s)
    ensures Unwatched(m.(tightCount := c), code, env).0 == Unwatched(m, code, env).0.(tightCount := c)
  {
    hide BranchesToSelf, Serviced, ResetsWithin, NoWatchdog, Instruction;
    InstructionKeepsTimers(m.s, code);
    var s := Instruction(m.s, code).0;
    SameTimers(m.s, s);
    ResetsWhenDue(s, m.acc + 176, env);
    ServicedIgnoresCount(m.(s := s), env, c);
  }

  /** A silent CPU spins on while the detector counts. */
  lemma {:induction false} SilentRun(m: Machine, code: Code, env: Env, n: nat)
    requires Spinning(m, code) && Silent(m, env) && !m.s.halted && !m.s.sleeping
    requires m.tightLastPc == m.s.pc && m.tightCount == 0 && n < TIGHT_LOOP_THRESHOLD
    ensures Run(m, code, Repeat(env, n)) == Spun(m, code, env, n).(tightCount := n)
    ensures SpunTo(m, env, n, Spun(m, code, env, n))
  {
    hide Stepped, Unwatched, SpunTo, BranchesToSelf, NothingWakes, Silent, NoWatchdog;
    SilentHolds(m, env);
    SilentNeverWakes(m, env, n);
    SpinsInPlace(m, code, env, n);
    if n > 0 {
      SilentRun(m, code, env, n - 1);
      assert Repeat(env, n)[..n - 1] == Repeat(env, n - 1);
      var before := Spun(m, code, env, n - 1);
      SpunState(m, code, env, n - 1, before);
      UnwatchedIgnoresCount(before, code, env, n - 1);
      CountedStep(before.(tightCount := n - 1), code, env);
    }
  }

  lemma SilentHolds(m: Machine, env: Env)
    requires Silent(m, env)
    ensures NoWatchdog(m.s)
  {
  }

  lemma SpunState(m: Machine, code: Code, env: Env, k: nat, m': Machine)
    requires Spinning(m, code) && SpunTo(m, env, k, m') && NoWatchdog(m.s)
    ensures BranchesToSelf(m'.s, code) && NoWatchdog(m'.s) && m'.tightLastPc == m.tightLastPc && m'.acc < 100
    ensures m'.s.pc == m.s.pc && m'.s.halted == m.s.halted && m'.s.sleeping == m.s.sleeping && m'.s.status == m.s.status
    ensures m'.s.irqLev == m.s.irqLev && m'.s.irqPending == PendingAt(m, env, k) && m'.bankIrqs == BankLines(m, env, k)
    ensures TimerEnabled(m'.s.timer0) == TimerEnabled(m.s.timer0) && TimerEnabled(m'.s.timer1) == TimerEnabled(m.s.timer1)
    ensures m'.bankAcc < 64
  {
    StillBranchesToSelf(m, env, k, code);
    SettingsKept(m.s.timer0, true, TicksBy(m, k));
    SettingsKept(m.s.timer1, false, TicksBy(m, k));
    hide BranchesToSelf, TimerAfter, PendingAt, TicksBy, NoWatchdog, BankLines;
    ResetStillAhead(m.s, m'.s, TicksBy(m, k), 0);
  }

  /** A request lost. A silent CPU with a deliverable UART line spins for 63 steps; a byte injected before the next one
      raises the line; the detector halts the CPU in that step, and without it the line would be taken within 256. */
  lemma InjectedRequestIsLost(m: Machine, code: Code, env: Env)
    requires Spinning(m, code) && Silent(m, env) && !m.s.halted && !m.s.sleeping
    requires m.tightLastPc == m.s.pc && m.tightCount == 0 && Deliverable(m.s, 5)
    ensures var r, injected := Run(m, code, Repeat(env, 63)), env.(uart := true);
            && r.tightCount == 63 && !r.s.halted
            && Stepped(r, code, Some(injected), false).0.s.halted
            && exists n: nat :: n < 256 && Takes(r, code, injected, n)
  {
    hide Stepped, Spun, SpunTo, BranchesToSelf, Takes, NoWatchdog, Run, InPlaceAt;
    SilentRun(m, code, env, 63);
    SilentNeverWakes(m, env, 63);
    var spun := Spun(m, code, env, 63);
    SpunState(m, code, env, 63, spun);
    var r := Run(m, code, Repeat(env, 63));
    assert r == spun.(tightCount := 63);
    SilentIsHung(r);
    HaltsNext(r, code, env.(uart := true));
    RequestIsTaken(r, code, env.(uart := true));
  }

  lemma SilentIsHung(r: Machine)
    requires NoWatchdog(r.s) && !TimerEnabled(r.s.timer0) && !TimerEnabled(r.s.timer1)
    requires r.s.irqPending == {} && r.bankIrqs == {}
    ensures Classified(r.s, r.bankIrqs) == Hung
  {
  }

  /** Such a machine: fresh from reset but for E1, with `b .` everywhere. */
  function Waiting(): Machine {
    var r := ResetState([], 7);
    Machine(r.(status := r.status.(e1 := true)), 0, 0, 0, 0, {})
  }

  const BRANCH_TO_SELF: Code := (pc: u32) => Some(Decoded(Branch(0, AL, false, false), 4))
  const UART_SILENT := Env(false, map[], [])

  lemma HungCanBeWrong()
    ensures var r, injected := Run(Waiting(), BRANCH_TO_SELF, Repeat(UART_SILENT, 63)), UART_SILENT.(uart := true);
            && r.tightCount == 63 && !r.s.halted
            && Stepped(r, BRANCH_TO_SELF, Some(injected), false).0.s.halted
            && exists n: nat :: n < 256 && Takes(r, BRANCH_TO_SELF, injected, n)
  {
    hide *;
    WaitingSpins();
    InjectedRequestIsLost(Waiting(), BRANCH_TO_SELF, UART_SILENT);
  }

  lemma WaitingSpins()
    ensures var m := Waiting();
            && Spinning(m, BRANCH_TO_SELF) && Silent(m, UART_SILENT) && !m.s.halted && !m.s.sleeping
            && m.tightLastPc == m.s.pc && m.tightCount == 0 && Deliverable(m.s, 5)
  {
    hide Waiting, BranchesToSelf, NoWatchdog, TimerEnabled, Deliverable;
    WaitingBranches();
    WaitingIsSilent();
  }

  lemma WaitingBranches()
    ensures BranchesToSelf(Waiting().s, BRANCH_TO_SELF)
  {
  }

  lemma WaitingIsSilent()
    ensures var m := Waiting();
            && NoWatchdog(m.s) && !TimerEnabled(m.s.timer0) && !TimerEnabled(m.s.timer1) && Deliverable(m.s, 5)
            && m.s.irqPending == {} && !m.s.halted && !m.s.sleeping && m.s.pc == 0
            && m == Machine(m.s, 0, 0, 0, 0, {})
  {
  }
}
