/** The poll loop whose load the D-cache answers: the load is an instruction like any other, the backend never
    stalls, and a collision-free loop passes at an exact cycle. */
module CachedPolls {
  import opened Words
  import opened InstructionCache
  import opened Timing
  import opened PollLoop
  import opened PollRuns
  import opened Deadlocks

  // ----- One instruction -----

  /** A load the D-cache answers retires in its cycle and goes on to the next instruction. */
  lemma RetireAnswered(su: Setup, m: CoreState, target: u32)
    requires m.backend == Running && Holds(m.ic, m.execPc) && !Uncached(su)
    requires Decode(su.prog, m.execPc) == LoadOp(su.prog.status, su.prog.statusMmio)
    ensures Retired(su, m, target)
            == (m.(fetchPc := Advanced(su.prog, m.ic, m.fetchPc, ADVANCE_CAP), execPc := Wrap(m.execPc + INSN_SIZE)), None)
  {
    hide Advanced, Decode, Holds;
  }

  // ----- The first iteration -----

  /** The hot line is in, its load has retired, and the first cold line is on the bus. */
  function Answered(su: Setup): CoreState {
    Warm(su).(fetchPc := su.prog.cold, execPc := Wrap(su.prog.base + INSN_SIZE))
  }

  lemma WarmupAnswered(su: Setup, target: u32)
    requires RunsAhead(su) && !Uncached(su)
    ensures Cycle(su, Warming(su, FillTime(su)), target) == (Answered(su), None)
  {
    hide Scan, Advanced, Decode, PredictedNext, WarmLines, Holds, LineOf, Waited, Retired;
    HotLineWalk(su);
    DecodesTo(su.prog, 2 * su.prog.coldLines);
    WarmupWaits(su);
    RetireAnswered(su, Warm(su), target);
  }

  lemma {:induction false} WarmsUpAnswered(su: Setup, c: nat, target: u32, maxCycles: nat)
    requires RunsAhead(su) && !Uncached(su) && 1 <= c <= FillTime(su) < maxCycles
    ensures RunFrom(su, Warming(su, c), target, maxCycles).1 == RunFrom(su, Answered(su), target, maxCycles).1
    decreases FillTime(su) - c
  {
    hide Cycle, RunFrom;
    RunStep(su, Warming(su, c), target, maxCycles);
    if c < FillTime(su) {
      WarmupStep(su, c, target);
      WarmsUpAnswered(su, c + 1, target, maxCycles);
    } else {
      WarmupAnswered(su, target);
    }
  }

  lemma AnsweredLags(su: Setup)
    requires RunsAhead(su) && !Collides(su.prog)
    ensures Lagging(su, Answered(su), 0, 0, 0, FillTime(su))
    ensures Answered(su).cycle == FillTime(su) + 1
  {
    FirstStallFills(su);
    var p := su.prog;
    assert LoopLine(p, 0) == p.cold && PathPc(p, 0) == p.cold && PathPc(p, 2 * p.coldLines + 1) == p.base + 4;
    assert Wrap(p.base + 4) == p.base + 4;
    hide FilledTo, WarmLines, LoopLine, PathPc;
  }

  // ----- The resident loop -----

  lemma SteadyLoadAnswered(su: Setup, m: CoreState, target: u32, k: nat) returns (m': CoreState, k': nat)
    requires Layout(su.prog) && !Uncached(su) && Steady(su, m, 2 * su.prog.coldLines, k)
    ensures Steady(su, m', 2 * su.prog.coldLines + 1, k') && m'.cycle == m.cycle + 1 && m'.itersDone == m.itersDone
    ensures Cycle(su, m, target) == (m', None)
  {
    var p, n := su.prog, su.prog.coldLines;
    hide Scan, Advanced, Decode, DecodeCold, AllResident, PathPc, Retired, Filled, Holds, LoopLine;
    var t := AfterTick(m);
    assert t == m.(cycle := m.cycle + 1);
    QuietArbitration(su, t, 2 * n, k);
    var w := Unpreempted(t);
    ResidentAt(p, m.ic, 2 * n);
    DecodesTo(p, 2 * n);
    NextOnPath(p, 2 * n);
    RetireAnswered(su, w, target);
    k' := AdvanceStaysOnPath(p, m.ic, k, ADVANCE_CAP);
    assert Waited(su, m) == w;
    hide AfterTick, Waited, AfterArbitration;
    RunningCycle(su, m, target, w);
    m' := w.(fetchPc := PathPc(p, k'), execPc := PathPc(p, 2 * n + 1));
  }

  lemma ResidentAt(p: PollLoopProgram, ic: Lines, k: nat)
    requires Layout(p) && AllResident(p, ic) && k < PathLength(p)
    ensures Holds(ic, PathPc(p, k))
  {
    HoldsOnPath(p, ic, k);
    assert PathLine(p, k) <= p.coldLines;
    hide PathPc, LoopLine, Holds, PathLine;
  }

  /** `left` more iterations of the resident loop, an instruction a cycle. */
  function AnsweredTime(su: Setup, j: nat, left: nat): nat
    requires j < PathLength(su.prog)
  {
    ToLoopBack(su.prog, j) + (if left <= 1 then 0 else Times(left - 1, PathLength(su.prog)))
  }

  lemma AnsweredTimeStep(su: Setup, j: nat, left: nat)
    requires j < PathLength(su.prog) && su.prog.coldLines >= 1
    ensures j != 2 * su.prog.coldLines - 1 ==>
              Succ(su.prog, j) < PathLength(su.prog) && AnsweredTime(su, Succ(su.prog, j), left) == AnsweredTime(su, j, left) - 1
    ensures j == 2 * su.prog.coldLines - 1 && left > 1 ==>
              AnsweredTime(su, 2 * su.prog.coldLines, left - 1) == AnsweredTime(su, j, left) - 1
    ensures j == 2 * su.prog.coldLines - 1 && left == 1 ==> AnsweredTime(su, j, left) == 1
    ensures AnsweredTime(su, j, left) >= 1
  {
    if left > 1 {
      OneTimeLess(left - 1, PathLength(su.prog));
    }
    hide Times;
  }

  lemma OneTimeLess(a: nat, b: nat)
    requires a >= 1
    ensures Times(a, b) == Times(a - 1, b) + b && Times(0, b) == 0
  {
  }

  lemma {:induction false} AnsweredPasses(su: Setup, m: CoreState, target: u32, maxCycles: nat, j: nat, k: nat, left: nat)
    requires Layout(su.prog) && !Uncached(su) && Steady(su, m, j, k) && j < PathLength(su.prog)
    requires left >= 1 && m.itersDone + left == Goal(target)
    requires maxCycles >= m.cycle + AnsweredTime(su, j, left)
    ensures RunFrom(su, m, target, maxCycles).1 == Pass(m.cycle + AnsweredTime(su, j, left), Goal(target))
    decreases AnsweredTime(su, j, left)
  {
    hide Cycle, AllResident, RunFrom, PathPc, AnsweredTime;
    AnsweredTimeStep(su, j, left);
    RunStep(su, m, target, maxCycles);
    var m', k';
    if j == 2 * su.prog.coldLines {
      m', k' := SteadyLoadAnswered(su, m, target, k);
      AnsweredPasses(su, m', target, maxCycles, Succ(su.prog, j), k', left);
    } else {
      SteadyTick(su, m, j, k);
      m', k' := SteadyStep(su, m, target, j, k);
      if j != 2 * su.prog.coldLines - 1 {
        AnsweredPasses(su, m', target, maxCycles, Succ(su.prog, j), k', left);
      } else if left > 1 {
        AnsweredPasses(su, m', target, maxCycles, 2 * su.prog.coldLines, k', left - 1);
      }
    }
  }

  lemma SteadyTick(su: Setup, m: CoreState, j: nat, k: nat)
    requires Layout(su.prog) && Steady(su, m, j, k)
    ensures Steady(su, AfterTick(m), j, k) && AfterTick(m).itersDone == m.itersDone && j < PathLength(su.prog)
  {
    hide AllResident, PathPc;
  }

  // ----- The verdict -----

  /** The first iteration ends when the backend has gone its way or the last cold line has come and run. */
  function AnsweredPassCycle(su: Setup, target: u32): int {
    var n, F := su.prog.coldLines, FillTime(su);
    F + 1 + Max(2 * n + 2, n * F + 1) + (Goal(target) - 1) * (2 * n + 3)
  }

  lemma AnsweredPassCycleSplits(su: Setup, target: u32, j: nat, c: int)
    requires su.prog.coldLines >= 1 && j < PathLength(su.prog)
    requires c + ToLoopBack(su.prog, j) == FillTime(su) + 1 + LagTime(su, 0, 0, FillTime(su))
    ensures AnsweredPassCycle(su, target) == c + AnsweredTime(su, j, Goal(target))
  {
    var n: nat, F: nat := su.prog.coldLines, FillTime(su);
    TimesIsProduct(n, F);
    TimesIsProduct(Goal(target) - 1, 2 * n + 3);
    assert F + FillsAfter(su, 0, n) == Times(n, F);
  }

  /** With the D-cache answering the load, every collision-free loop passes on a front end that runs ahead: at exactly
      F + 1 + max(2 n + 2, n F + 1) + (k - 1) (2 n + 3) cycles. */
  lemma AnsweredPollPasses(su: Setup, target: u32, maxCycles: nat)
    requires RunsAhead(su) && !Uncached(su) && !Collides(su.prog)
    requires maxCycles >= AnsweredPassCycle(su, target)
    ensures RunOutcome(su, target, maxCycles) == Pass(AnsweredPassCycle(su, target), Goal(target))
  {
    AnsweredReaches(su, target);
    RunsToAnswered(su, target, maxCycles);
    hide RunFrom, AnsweredPassCycle, LagTime, Collides, Lagging, Steady, Answered;
    AnsweredLags(su);
    var m', j, k := LagEnds(su, Answered(su), target, maxCycles, 0, 0, 0, FillTime(su));
    SteadyShape(su, m', j, k);
    AnsweredPassCycleSplits(su, target, j, m'.cycle);
    hide AnsweredTime;
    AnsweredPasses(su, m', target, maxCycles, j, k, Goal(target));
  }

  lemma AnsweredReaches(su: Setup, target: u32)
    requires Layout(su.prog)
    ensures AnsweredPassCycle(su, target) >= FillTime(su) + 1 + LagTime(su, 0, 0, FillTime(su)) > FillTime(su)
  {
    var n: nat, F: nat := su.prog.coldLines, FillTime(su);
    TimesIsProduct(n, F);
    TimesIsProduct(Goal(target) - 1, 2 * n + 3);
    assert F + FillsAfter(su, 0, n) == Times(n, F);
  }

  lemma RunsToAnswered(su: Setup, target: u32, maxCycles: nat)
    requires RunsAhead(su) && !Uncached(su) && maxCycles > FillTime(su)
    ensures RunOutcome(su, target, maxCycles) == RunFrom(su, Answered(su), target, maxCycles).1
  {
    hide Cycle;
    RunStep(su, InitialState(su), target, maxCycles);
    WarmupStarts(su, target);
    WarmsUpAnswered(su, 1, target, maxCycles);
  }
}
