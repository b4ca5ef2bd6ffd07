/** The zero-overhead loop under the spin detector. A body of two instructions or more never retires twice running at
    one PC, so the detector never stops it: what ZeroOverheadLoops proves of runs without a detector holds of the
    CPU's own steps, interrupts included. */
module SteppedLoops {
  import opened Words
  import opened Registers
  import opened CpuModel
  import opened Interrupts
  import opened ZeroOverheadLoops

  /** A step without the detector. */
  function FreeStep(m: Machine, code: Code, env: Env): Machine {
    var (s, progress) := Instruction(m.s, code);
    if progress == Retired then Serviced(m.(s := s), Some(env)).0 else m.(s := s)
  }

  /** A program run twice under the same peripherals, free of the detector and by the CPU's own steps, with the free
      run's states cut into events: its step `i` is events `at[i]` to `at[i + 1]`. */
  datatype Runs = Runs(free: seq<Machine>, stepped: seq<Machine>, envs: seq<Env>,
                       run: seq<CpuState>, evs: seq<Event>, at: seq<nat>)
  {
    predicate Sized() { |free| == |stepped| == |at| == |envs| + 1 && |run| == |evs| + 1 }
  }

  /** Step `i` of the free run is events `at[i]` to `at[i + 1]` of the event run: a loop-back alone, or an instruction
      with the device activity and the poll of its service. No reset strikes. */
  ghost predicate Traces(r: Runs, code: Code, i: nat)
    requires r.Sized() && i < |r.envs|
  {
    var (m, a) := (r.free[i], r.at[i]);
    var (s, progress) := Instruction(m.s, code);
    && r.free[i + 1] == FreeStep(m, code, r.envs[i]) && !m.s.halted && !m.s.sleeping
    && a < r.at[i + 1] <= |r.evs| && r.run[a] == m.s && r.run[r.at[i + 1]] == r.free[i + 1].s && r.run[a + 1] == s
    && match progress
       case Faulted => false
       case LoopedBack => r.at[i + 1] == a + 1 && r.evs[a].Run?
       case Retired =>
         && !ResetsWithin(s, m.acc + 176, Some(r.envs[i]))
         && r.at[i + 1] == a + 3 && (r.evs[a].Run? || r.evs[a].Return?) && r.evs[a + 1].Device?
         && r.evs[a + 2] == Poll(Some(r.envs[i]))
  }

  /** The CPU's own steps. */
  ghost predicate Steps(r: Runs, code: Code, i: nat)
    requires r.Sized() && i < |r.envs|
  {
    r.stepped[i + 1] == Stepped(r.stepped[i], code, Some(r.envs[i]), false).0
  }

  /** The detector lets the handlers pass. */
  ghost predicate HandlersPass(r: Runs, code: Code, i: nat)
    requires r.Sized() && i < |r.envs|
  {
    r.at[i] <= |r.evs| && StackAt(r.run, r.evs, r.at[i]) != [] && Instruction(r.stepped[i].s, code).1 == Retired ==>
      Passes(r.stepped[i].(s := Instruction(r.stepped[i].s, code).0), Some(r.envs[i]), false)
  }

  /** The runs belong together. */
  ghost predicate TwoRuns(r: Runs, code: Code) {
    && r.Sized()
    && r.free[0] == r.stepped[0] && r.at[0] == 0 && r.run[0] == r.free[0].s
    && (forall i: nat :: i < |r.envs| ==> Traces(r, code, i))
    && (forall i: nat :: i < |r.envs| ==> Steps(r, code, i))
    && (forall i: nat :: i < |r.envs| ==> HandlersPass(r, code, i))
  }

  /** A body of two instructions or more, none of size 0. */
  ghost predicate IsLongBody(code: Code, p: seq<u32>) {
    IsBody(code, p) && |p| >= 3 && forall j: nat :: j < |p| - 1 ==> StepsOn(p, j)
  }

  predicate StepsOn(p: seq<u32>, j: nat)
    requires j + 1 < |p|
  {
    p[j + 1] != p[j]
  }

  predicate SameButDetector(u: Machine, m: Machine) {
    m == u.(tightCount := m.tightCount, tightLastPc := m.tightLastPc)
  }

  /** The detector last saw where the program stands, or is at LP_START and not about to trip at the instruction behind:
      the state in which LP leaves it, and every retirement and loop-back after. */
  predicate Ready(m: Machine, p: seq<u32>)
    requires |p| >= 2
  {
    || m.tightLastPc == m.s.pc
    || (m.s.pc == p[0] && (m.tightLastPc != p[1] || m.tightCount + 1 < TIGHT_LOOP_THRESHOLD))
  }

  // ----- The detector on a retirement -----

  lemma PassesAt(m: Machine, env: Env)
    ensures m.tightLastPc != m.s.pc || m.tightCount + 1 < TIGHT_LOOP_THRESHOLD ==> Passes(m, Some(env), false)
    ensures Watched(m, Some(env), false).0.tightLastPc == m.s.pc
    ensures SameButDetector(m.(s := Watched(m, Some(env), false).0.s), Watched(m, Some(env), false).0)
  {
    hide Classified, FastForwarded;
  }

  lemma ServiceIgnoresDetector(u: Machine, m: Machine, env: Env)
    requires SameButDetector(u, m) && !ResetsWithin(u.s, u.acc + 176, Some(env))
    ensures var (u', m') := (Serviced(u, Some(env)).0, Serviced(m, Some(env)).0);
            SameButDetector(u', m') && m'.tightLastPc == m.tightLastPc
  {
    hide Ticked, Interrupted, Polled, BankTicked, ResetsWithin;
  }

  /** A retirement the detector lets pass keeps the two machines together, and the detector has seen its PC. */
  lemma RetiredTogether(u: Machine, m: Machine, code: Code, env: Env)
    requires SameButDetector(u, m) && !m.s.halted && !m.s.sleeping && Instruction(m.s, code).1 == Retired
    requires Passes(m.(s := Instruction(m.s, code).0), Some(env), false)
    requires !ResetsWithin(Instruction(m.s, code).0, m.acc + 176, Some(env))
    ensures var m' := Stepped(m, code, Some(env), false).0;
            SameButDetector(FreeStep(u, code, env), m') && m'.tightLastPc == Instruction(m.s, code).0.pc
  {
    hide Instruction, Watched, Serviced, ResetsWithin;
    var s := Instruction(m.s, code).0;
    var w := Watched(m.(s := s), Some(env), false).0;
    PassesAt(m.(s := s), env);
    ServiceIgnoresDetector(u.(s := s), w, env);
  }

  lemma LoopedBackTogether(u: Machine, m: Machine, code: Code, env: Env)
    requires SameButDetector(u, m) && !m.s.halted && !m.s.sleeping && Instruction(m.s, code).1 == LoopedBack
    ensures var m' := Stepped(m, code, Some(env), false).0;
            SameButDetector(FreeStep(u, code, env), m') && m'.tightLastPc == m.tightLastPc
  {
    hide Instruction, Watched, Serviced;
  }

  // ----- The program's own turns -----

  /** Inside the loop the program's next retirement is at another PC than the last. */
  lemma ProgramPasses(m: Machine, code: Code, env: Env, p: seq<u32>, n: u32, log: seq<u32>, turns: nat)
    requires IsLongBody(code, p) && Inside(m.s, p, n, log, turns) && Ready(m, p)
    requires Instruction(m.s, code).1 != Faulted
    requires !(m.s.pc == p[|p| - 1] && Instruction(m.s, code).1 == Retired)
    ensures Instruction(m.s, code).1 == Retired ==> Passes(m.(s := Instruction(m.s, code).0), Some(env), false)
    ensures Instruction(m.s, code).1 == LoopedBack ==>
              Instruction(m.s, code).0.pc == p[0] && m.tightLastPc == p[|p| - 1] != p[1]
  {
    hide Instruction, Watched, Rounds, KeepsLoop;
    var k: nat, j: nat :| At(m.s, p, n, log, turns, k, j);
    assert BodyAt(code, p, 0) && BodyAt(code, p, 1);
    if j < |p| - 1 {
      assert BodyAt(code, p, j) && StepsOn(p, j);
      NextPc(m.s, code, p, j);
      PassesAt(m.(s := Instruction(m.s, code).0), env);
    } else if m.s.regs[LP_COUNT] > 1 {
      LoopBackTurn(m.s, code, p, n, log, turns, k);
    } else {
      ExitTurn(m.s, code, p, n, log, turns, k);
    }
  }

  lemma NextPc(s: CpuState, code: Code, p: seq<u32>, j: nat)
    requires j + 1 < |p| && BodyAt(code, p, j) && s.pc == p[j] && s.lpEnd == p[|p| - 1] && s.delay.NoSlot?
    requires Instruction(s, code).1 != Faulted
    ensures Instruction(s, code).1 == Retired && Instruction(s, code).0.pc == p[j + 1]
  {
    InstructionInBody(s, code, code(s.pc).value.size);
    hide Instruction, KeepsLoop;
  }

  // ----- The two runs stay together -----

  lemma PollLeavesPc(run: seq<CpuState>, evs: seq<Event>, a: nat, env: Env)
    requires |run| == |evs| + 1 && a + 3 <= |evs| && Moves(run, evs, a + 1) && Moves(run, evs, a + 2)
    requires evs[a + 1].Device? && evs[a + 2] == Poll(Some(env)) && StackAt(run, evs, a + 3) == []
    ensures run[a + 3].pc == run[a + 1].pc
  {
    hide Interrupted, LevelOf;
    NotTaken(run[a + 2], Some(env));
  }

  lemma EmptyStackRuns(run: seq<CpuState>, evs: seq<Event>, code: Code, a: nat)
    requires LoopRun(run, evs, code) && a < |evs| && StackAt(run, evs, a) == [] && (evs[a].Run? || evs[a].Return?)
    ensures ProgramTurn(run, evs, a)
  {
    hide ReturnsFrom, Disciplined, Interrupted, LoopMove, Instruction;
    assert Moves(run, evs, a);
  }

  lemma StackGrowsOnlyByPolls(run: seq<CpuState>, evs: seq<Event>, a: nat)
    requires |run| == |evs| + 1 && a < |evs| && evs[a].Run?
    ensures StackAt(run, evs, a + 1) == StackAt(run, evs, a)
  {
    hide Interrupted, LevelOf;
  }

  /** The machines agree but for the detector, which is ready whenever the program is running. */
  ghost predicate Together(r: Runs, p: seq<u32>, i: nat)
    requires r.Sized() && i < |r.free| && |p| >= 2
  {
    && SameButDetector(r.free[i], r.stepped[i]) && r.at[i] <= |r.evs| && r.run[r.at[i]] == r.free[i].s
    && (StackAt(r.run, r.evs, r.at[i]) == [] ==> Ready(r.stepped[i], p))
  }

  /** A step of the program, or of a handler, passes the detector. */
  lemma StepPasses(r: Runs, code: Code, p: seq<u32>, n: u32, i: nat)
    requires r.Sized() && i < |r.envs| && IsLongBody(code, p)
    requires Traces(r, code, i) && HandlersPass(r, code, i)
    requires |p| >= 2 && LoopRun(r.run, r.evs, code) && Together(r, p, i)
    requires LoopInvariant(r.run, r.evs, code, p, n, r.at[i]) && !Exits(r.run, r.evs, code, p, r.at[i])
    ensures var (s, progress) := Instruction(r.stepped[i].s, code);
            && (progress == Retired ==> Passes(r.stepped[i].(s := s), Some(r.envs[i]), false))
            && (progress == LoopedBack && StackAt(r.run, r.evs, r.at[i]) == [] ==> s.pc == p[0] && r.stepped[i].tightLastPc != p[1])
  {
    hide Instruction, FreeStep, IsLongBody, Inside, ResetsWithin, LoopRun, Passes, Ready, Log, Turns;
    if StackAt(r.run, r.evs, r.at[i]) == [] {
      EmptyStackRuns(r.run, r.evs, code, r.at[i]);
      ProgramPasses(r.stepped[i], code, r.envs[i], p, n, Log(r.run, r.evs, code, r.at[i]), Turns(r.run, r.evs, r.at[i]));
    }
  }

  lemma RetiredOneMore(r: Runs, code: Code, p: seq<u32>, i: nat)
    requires r.Sized() && i < |r.envs| && |p| >= 2
    requires Traces(r, code, i) && Steps(r, code, i) && ValidRun(r.run, r.evs)
    requires Together(r, p, i) && Instruction(r.stepped[i].s, code).1 == Retired
    requires Passes(r.stepped[i].(s := Instruction(r.stepped[i].s, code).0), Some(r.envs[i]), false)
    ensures Together(r, p, i + 1)
  {
    hide Instruction, Stepped, FreeStep, ResetsWithin, Passes, ValidRun, StackAt;
    var a := r.at[i];
    RetiredTogether(r.free[i], r.stepped[i], code, r.envs[i]);
    if StackAt(r.run, r.evs, a + 3) == [] {
      MovesAt(r.run, r.evs, a + 1);
      MovesAt(r.run, r.evs, a + 2);
      hide Moves;
      PollLeavesPc(r.run, r.evs, a, r.envs[i]);
    }
  }

  lemma LoopedBackOneMore(r: Runs, code: Code, p: seq<u32>, i: nat)
    requires r.Sized() && i < |r.envs| && |p| >= 2
    requires Traces(r, code, i) && Steps(r, code, i)
    requires Together(r, p, i) && Instruction(r.stepped[i].s, code).1 == LoopedBack
    requires StackAt(r.run, r.evs, r.at[i]) == [] ==> Instruction(r.stepped[i].s, code).0.pc == p[0] && r.stepped[i].tightLastPc != p[1]
    ensures Together(r, p, i + 1)
  {
    hide Instruction, Stepped, FreeStep, ResetsWithin, StackAt;
    LoopedBackTogether(r.free[i], r.stepped[i], code, r.envs[i]);
    StackGrowsOnlyByPolls(r.run, r.evs, r.at[i]);
  }

  lemma TogetherOneMore(r: Runs, code: Code, p: seq<u32>, n: u32, i: nat)
    requires r.Sized() && i < |r.envs| && IsLongBody(code, p) && |p| >= 2
    requires Traces(r, code, i) && Steps(r, code, i) && HandlersPass(r, code, i)
    requires LoopRun(r.run, r.evs, code) && Together(r, p, i)
    requires LoopInvariant(r.run, r.evs, code, p, n, r.at[i]) && r.at[i] < |r.evs| && !Exits(r.run, r.evs, code, p, r.at[i])
    ensures Together(r, p, i + 1)
  {
    hide Traces, Steps, HandlersPass, Together, LoopRun, IsLongBody, LoopInvariant, Exits, Instruction, Passes, ValidRun, StackAt;
    NoFault(r, code, p, i);
    StepPasses(r, code, p, n, i);
    ALoopRunIsValid(r.run, r.evs, code);
    if Instruction(r.stepped[i].s, code).1 == Retired {
      RetiredOneMore(r, code, p, i);
    } else {
      LoopedBackOneMore(r, code, p, i);
    }
  }

  lemma NoFault(r: Runs, code: Code, p: seq<u32>, i: nat)
    requires r.Sized() && i < |r.envs| && |p| >= 2
    requires Traces(r, code, i) && Together(r, p, i)
    ensures Instruction(r.stepped[i].s, code).1 == Retired || Instruction(r.stepped[i].s, code).1 == LoopedBack
  {
    hide Instruction, FreeStep, ResetsWithin, StackAt, Ready;
  }

  lemma ALoopRunIsValid(run: seq<CpuState>, evs: seq<Event>, code: Code)
    requires LoopRun(run, evs, code)
    ensures ValidRun(run, evs)
  {
    hide ValidRun, LoopMove;
  }

  lemma MovesAt(run: seq<CpuState>, evs: seq<Event>, i: nat)
    requires ValidRun(run, evs) && i < |evs|
    ensures Moves(run, evs, i)
  {
    hide Moves;
  }

  lemma ShapeOfLongBody(code: Code, p: seq<u32>)
    requires IsLongBody(code, p)
    ensures |p| >= 3 && IsBody(code, p)
  {
    hide IsBody;
  }

  lemma {:induction false} StaysTogether(r: Runs, code: Code, p: seq<u32>, n: u32, i: nat)
    requires TwoRuns(r, code) && LoopRun(r.run, r.evs, code) && IsLongBody(code, p)
    requires |p| >= 2 && Entered(r.run[0], p, n) && Ready(r.stepped[0], p) && i <= |r.envs| && r.at[i] <= |r.evs|
    requires forall e: nat :: e < r.at[i] ==> !Exits(r.run, r.evs, code, p, e)
    ensures Together(r, p, i)
    decreases i
  {
    hide LoopRun, IsLongBody, Entered, Traces, Steps, HandlersPass, Together, Exits;
    if i == 0 {
      StartTogether(r, p);
    } else {
      var j := i - 1;
      assert Traces(r, code, j) && Steps(r, code, j)
             && HandlersPass(r, code, j);
      EarlierEvent(r, code, j);
      StaysTogether(r, code, p, n, j);
      ShapeOfLongBody(code, p);
      LoopInvariantHolds(r.run, r.evs, code, p, n, r.at[j]);
      TogetherOneMore(r, code, p, n, j);
    }
  }

  lemma EarlierEvent(r: Runs, code: Code, i: nat)
    requires r.Sized() && i < |r.envs| && Traces(r, code, i)
    ensures r.at[i] < r.at[i + 1] <= |r.evs|
  {
    hide Instruction, FreeStep, ResetsWithin;
  }

  lemma StartTogether(r: Runs, p: seq<u32>)
    requires r.Sized() && |p| >= 2
    requires r.free[0] == r.stepped[0] && r.at[0] == 0 && r.run[0] == r.free[0].s && Ready(r.stepped[0], p)
    ensures Together(r, p, 0)
  {
    hide Ready;
  }

  /** The loop under the detector. For a body of two instructions or more, the CPU's own steps are the steps without a
      detector until control leaves the loop: it is never halted or fast-forwarded on its way, has executed a prefix
      of max(n, 1) rounds, and all of them with LP_COUNT 0 when it leaves. */
  lemma SteppedLoopRunsExactly(r: Runs, code: Code, p: seq<u32>, n: u32, i: nat)
    requires TwoRuns(r, code) && LoopRun(r.run, r.evs, code) && IsLongBody(code, p)
    requires |p| >= 2 && Entered(r.run[0], p, n) && Ready(r.stepped[0], p) && i <= |r.envs| && r.at[i] <= |r.evs|
    requires forall e: nat :: e < r.at[i] ==> !Exits(r.run, r.evs, code, p, e)
    ensures SameButDetector(r.free[i], r.stepped[i]) && r.stepped[i].s == r.run[r.at[i]]
    ensures Log(r.run, r.evs, code, r.at[i]) <= Rounds(Body(p), Iterations(n))
    ensures r.at[i] < |r.evs| && Exits(r.run, r.evs, code, p, r.at[i]) ==>
              && Log(r.run, r.evs, code, r.at[i]) == Rounds(Body(p), Iterations(n))
              && Instruction(r.stepped[i].s, code) == Issued(r.stepped[i].s.(regs := r.stepped[i].s.regs[LP_COUNT := 0]), NoSlot, code)
  {
    hide LoopRun, IsBody, Entered, Traces, Steps, HandlersPass, Exits, Instruction, Issued, Log, Rounds, StackAt, Ready;
    StaysTogether(r, code, p, n, i);
    LoopRunsExactly(r.run, r.evs, code, p, n, r.at[i]);
  }

  // ----- Every run is covered -----

  /** A free step that faults not, nor resets. */
  ghost predicate FreeStepOk(m: Machine, m': Machine, code: Code, env: Env) {
    var (s, progress) := Instruction(m.s, code);
    && m' == FreeStep(m, code, env) && !m.s.halted && !m.s.sleeping && progress != Faulted
    && (progress == Retired ==> !ResetsWithin(s, m.acc + 176, Some(env)))
  }

  /** The states a step passes through. */
  function StatesOf(m: Machine, m': Machine, code: Code, env: Env): seq<CpuState> {
    var (s, progress) := Instruction(m.s, code);
    if progress == Retired then
      [s, Polled(Ticked(s, m.acc, Some(env)).0, Some(env), BankTicked(m.bankAcc, m.bankIrqs, Some(env)).1), m'.s]
    else [s]
  }

  function EventsOf(m: Machine, code: Code, env: Env, choice: Event): seq<Event> {
    if Instruction(m.s, code).1 == Retired then [choice, Device, Poll(Some(env))] else [Run]
  }

  /** What one more step adds to a traced run. */
  function Extended(r: Runs, m': Machine, code: Code, env: Env, choice: Event): Runs
    requires r.Sized()
  {
    var m := r.free[|r.envs|];
    Runs(r.free + [m'], r.stepped + [m'], r.envs + [env],
         r.run + StatesOf(m, m', code, env), r.evs + EventsOf(m, code, env, choice),
         r.at + [|r.evs| + |EventsOf(m, code, env, choice)|])
  }

  lemma TracesStay(r: Runs, m': Machine, code: Code, env: Env, choice: Event, i: nat)
    requires r.Sized() && i < |r.envs| && Traces(r, code, i)
    ensures Extended(r, m', code, env, choice).Sized() && Traces(Extended(r, m', code, env, choice), code, i)
  {
    hide Instruction, FreeStep, ResetsWithin, Polled, Ticked, BankTicked;
  }

  lemma LastTraces(r: Runs, m': Machine, code: Code, env: Env, choice: Event)
    requires r.Sized() && r.at[|r.envs|] == |r.evs| && r.run[|r.evs|] == r.free[|r.envs|].s
    requires FreeStepOk(r.free[|r.envs|], m', code, env) && (choice.Run? || choice.Return?)
    ensures var r' := Extended(r, m', code, env, choice);
            && r'.Sized() && Traces(r', code, |r.envs|) && r'.at[|r'.envs|] == |r'.evs|
            && r'.run[|r'.evs|] == r'.free[|r'.envs|].s
  {
    hide Instruction, ResetsWithin, Polled, Ticked, BankTicked, Serviced;
  }

  /** Any run of free steps is traced by an event run, each retirement being whichever of an instruction and a return one
      says it is; whether that event run is a disciplined one is what LoopRun asks. */
  lemma {:induction false} FreeRunsAreTraced(free: seq<Machine>, envs: seq<Env>, code: Code, choices: seq<Event>) returns (r: Runs)
    requires |free| == |envs| + 1 == |choices| + 1
    requires forall i: nat :: i < |envs| ==> FreeStepOk(free[i], free[i + 1], code, envs[i])
    requires forall i: nat :: i < |envs| ==> choices[i].Run? || choices[i].Return?
    ensures r.Sized() && r.free == free && r.envs == envs && r.at[0] == 0 && r.run[0] == free[0].s
    ensures forall i: nat :: i < |envs| ==> Traces(r, code, i)
    ensures r.at[|envs|] == |r.evs| && r.run[|r.evs|] == free[|envs|].s
    decreases |envs|
  {
    hide FreeStepOk, Traces, Extended;
    if envs == [] {
      r := Runs(free, free, [], [free[0].s], [], [0]);
    } else {
      var n := |envs| - 1;
      r := FreeRunsAreTraced(free[..n + 1], envs[..n], code, choices[..n]);
      var m' := free[n + 1];
      ExtendedParts(r, m', code, envs[n], choices[n]);
      forall i: nat | i < n ensures Traces(Extended(r, m', code, envs[n], choices[n]), code, i) {
        TracesStay(r, m', code, envs[n], choices[n], i);
      }
      LastTraces(r, m', code, envs[n], choices[n]);
      assert free == free[..n + 1] + [m'] && envs == envs[..n] + [envs[n]];
      r := Extended(r, m', code, envs[n], choices[n]);
    }
  }

  lemma ExtendedParts(r: Runs, m': Machine, code: Code, env: Env, choice: Event)
    requires r.Sized()
    ensures var r' := Extended(r, m', code, env, choice);
            && r'.Sized() && r'.free == r.free + [m'] && r'.envs == r.envs + [env] && |r'.at| > 0 && r'.at[0] == r.at[0]
            && |r'.run| > 0 && r'.run[0] == r.run[0]
  {
    hide Instruction, Ticked, Polled, BankTicked;
  }
}
