/** Progress. A poll loop that cannot be starved passes: whatever lines its layout makes evict each other, the fetch
    pointer comes round to the line the backend waits for. */
module PollProgress {
  import opened Words
  import opened InstructionCache
  import opened Timing
  import opened PollLoop
  import opened PollRuns
  import opened NoHangs

  /** The load never waits on the fetch engine for long: the D-cache answers it, the front end quiesces or it runs at
      most one line ahead, with the window that takes. */
  predicate Unstarved(su: Setup) {
    !Uncached(su) || ((Quiescing(su) || Shallow(su)) && su.cfg.deadlockWindow >= LongestWait(su))
  }

  /** A state of the run: the backend at position `j` of the path, the fetch pointer at `q`. */
  predicate OnPath(su: Setup, m: CoreState, target: u32, j: nat, q: nat)
    requires Layout(su.prog)
  {
    && j < PathLength(su.prog) && m.execPc == PathPc(su.prog, j)
    && q < PathLength(su.prog) && m.fetchPc == PathPc(su.prog, q)
    && m.itersDone < Goal(target)
    && (match m.bus.slot
        case None => true
        case Some(BusTxn(Fetch, r, _)) => 1 <= r <= FillTime(su)
        case Some(BusTxn(Load, r, _)) => m.backend.StalledOnLoad? && 1 <= r <= LoadTime(su))
    && (m.backend.StalledOnLoad? ==>
          Uncached(su) && m.backend == StalledOnLoad(su.prog.status, su.prog.statusMmio) && j == 2 * su.prog.coldLines + 1)
  }

  // ----- How far the run has to go -----

  /** Path steps from `q` round to `j`. */
  function Distance(p: PollLoopProgram, q: nat, j: nat): nat
    requires q < PathLength(p) && j < PathLength(p)
  {
    if q <= j then j - q else PathLength(p) - q + j
  }

  /** Cycles until the fetch pointer's own line has come, at most: another fill may be ahead of it. */
  function Wait(su: Setup, m: CoreState): nat {
    match m.bus.slot
    case None => FillTime(su) + 1
    case Some(BusTxn(Fetch, r, line)) => if line == LineOf(m.fetchPc) then r else FillTime(su) + r
    case Some(BusTxn(Load, r, _)) => r
  }

  /** More than any wait. */
  function Lap(su: Setup): nat { 2 * FillTime(su) + 1 }

  /** More than any run of cycles without a retirement takes once the load is done. */
  function Round(su: Setup): nat { Times(PathLength(su.prog), Lap(su)) }

  function Phase(su: Setup, m: CoreState, j: nat, q: nat): nat
    requires q < PathLength(su.prog) && j < PathLength(su.prog)
  {
    if m.backend == Running then Times(Distance(su.prog, q, j), Lap(su)) + Wait(su, m)
    else if LoadInFlight(m.bus) then Round(su) + Wait(su, m)
    else Round(su) + LoadTime(su) + Wait(su, m)
  }

  /** Instructions left to the pass. */
  function InsnsLeft(su: Setup, m: CoreState, target: u32, j: nat): nat
    requires j < PathLength(su.prog) && m.itersDone < Goal(target)
  {
    Times(Goal(target) - 1 - m.itersDone, PathLength(su.prog)) + ToLoopBack(su.prog, j)
  }

  /** More than any phase. */
  function PerInsn(su: Setup): nat { Round(su) + LoadTime(su) + Lap(su) }

  /** Cycles to the pass, at most. */
  function Rank(su: Setup, m: CoreState, target: u32, j: nat, q: nat): nat
    requires j < PathLength(su.prog) && q < PathLength(su.prog) && m.itersDone < Goal(target)
  {
    Times(InsnsLeft(su, m, target, j), PerInsn(su)) + Phase(su, m, j, q)
  }

  lemma {:induction false} TimesGrows(a: nat, b: nat, c: nat)
    requires a <= b
    ensures Times(a, c) <= Times(b, c)
    ensures a < b ==> Times(a, c) + c <= Times(b, c)
    decreases b
  {
    if a < b {
      TimesGrows(a, b - 1, c);
    }
  }

  lemma WaitIsShort(su: Setup, m: CoreState, target: u32, j: nat, q: nat)
    requires Layout(su.prog) && OnPath(su, m, target, j, q) && !LoadInFlight(m.bus)
    ensures 1 <= Wait(su, m) < Lap(su)
  {
    hide PathPc;
  }

  lemma PhaseIsShort(su: Setup, m: CoreState, target: u32, j: nat, q: nat)
    requires Layout(su.prog) && OnPath(su, m, target, j, q)
    ensures Phase(su, m, j, q) < PerInsn(su)
    ensures m.backend == Running ==> Phase(su, m, j, q) < Round(su)
  {
    if !LoadInFlight(m.bus) {
      WaitIsShort(su, m, target, j, q);
    }
    hide PathPc, Times, Wait;
    TimesGrows(Distance(su.prog, q, j), PathLength(su.prog), Lap(su));
  }

  // ----- The fetch pointer -----

  /** The fetch pointer stays on the path; while the line at `j` is missing it does not pass it, and off a resident line
      it moves nearer. */
  lemma {:induction false} AdvanceApproaches(p: PollLoopProgram, ic: Lines, q: nat, j: nat, fuel: nat) returns (q': nat)
    requires Layout(p) && q < PathLength(p) && j < PathLength(p)
    ensures q' < PathLength(p) && Advanced(p, ic, PathPc(p, q), fuel) == PathPc(p, q')
    ensures !Holds(ic, PathPc(p, j)) ==> Distance(p, q', j) <= Distance(p, q, j)
    ensures !Holds(ic, PathPc(p, j)) && Holds(ic, PathPc(p, q)) && fuel > 0 ==> Distance(p, q', j) < Distance(p, q, j)
    ensures !Holds(ic, PathPc(p, q)) ==> q' == q
    decreases fuel
  {
    hide Holds, PathPc, Layout, Decode, PredictedNext;
    if fuel == 0 || !Holds(ic, PathPc(p, q)) {
      q' := q;
    } else {
      DecodeAt(p, q);
      q' := AdvanceApproaches(p, ic, Succ(p, q), j, fuel - 1);
    }
  }

  // ----- A running backend -----

  /** The state a retirement leaves, its target resident or not. */
  function RetiredTo(su: Setup, m: CoreState, kind: Kind, next: u32): CoreState {
    var ahead := Advanced(su.prog, m.ic, m.fetchPc, ADVANCE_CAP);
    m.(execPc := next,
       fetchPc := if (kind.Branch? || kind.LoopBack?) && !Holds(m.ic, next) then next else ahead,
       backend := if kind.LoadOp? && !(su.dcacheOn && !kind.mmio) then StalledOnLoad(kind.ea, kind.mmio) else Running,
       itersDone := if kind.LoopBack? then m.itersDone + 1 else m.itersDone)
  }

  lemma RetireByKind(su: Setup, m: CoreState, target: u32, kind: Kind, next: u32)
    requires m.backend == Running && Holds(m.ic, m.execPc)
    requires Decode(su.prog, m.execPc) == kind && next == KindNext(kind, m.execPc)
    ensures if kind.LoopBack? && m.itersDone + 1 >= target
            then Retired(su, m, target).1 == Some(Pass(m.cycle, m.itersDone + 1))
            else Retired(su, m, target) == (RetiredTo(su, m, kind, next), None)
  {
    hide Advanced, Decode, Holds;
  }

  lemma KindsAt(p: PollLoopProgram, j: nat)
    requires Layout(p) && j < PathLength(p)
    ensures KindAt(p, j).LoopBack? <==> j == 2 * p.coldLines - 1
    ensures KindAt(p, j).LoadOp? <==> j == 2 * p.coldLines
    ensures KindAt(p, j).LoadOp? ==> KindAt(p, j) == LoadOp(p.status, p.statusMmio)
    ensures Succ(p, j) < PathLength(p) && (j == 2 * p.coldLines ==> Succ(p, j) == 2 * p.coldLines + 1)
  {
    hide LoopLine;
  }

  /** What a retirement does to the run, wherever its target is. */
  lemma RetireOnPath(su: Setup, m: CoreState, target: u32, j: nat, q: nat) returns (m': CoreState, q': nat)
    requires Layout(su.prog) && OnPath(su, m, target, j, q) && m.backend == Running && Holds(m.ic, m.execPc)
    ensures m' == Retired(su, m, target).0
    ensures if j == 2 * su.prog.coldLines - 1 && m.itersDone + 1 >= target
            then Retired(su, m, target).1 == Some(Pass(m.cycle, m.itersDone + 1))
            else && Retired(su, m, target).1 == None
                 && OnPath(su, m', target, Succ(su.prog, j), q')
                 && m'.itersDone == m.itersDone + (if j == 2 * su.prog.coldLines - 1 then 1 else 0)
  {
    var p, kind := su.prog, KindAt(su.prog, j);
    hide Advanced, Decode, Holds, PathPc, Layout, PredictedNext, Retired, KindAt, KindNext, LoopLine;
    var ahead := AdvanceApproaches(p, m.ic, q, j, ADVANCE_CAP);
    m' := Retired(su, m, target).0;
    DecodeAt(p, j);
    NextOnPath(p, j);
    KindsAt(p, j);
    RetireByKind(su, m, target, kind, PathPc(p, Succ(p, j)));
    q' := if (kind.Branch? || kind.LoopBack?) && !Holds(m.ic, PathPc(p, Succ(p, j))) then Succ(p, j) else ahead;
  }

  lemma OneInsnLess(su: Setup, m: CoreState, m': CoreState, target: u32, j: nat)
    requires su.prog.coldLines >= 1 && j < PathLength(su.prog) && m.itersDone < Goal(target)
    requires m'.itersDone == m.itersDone + (if j == 2 * su.prog.coldLines - 1 then 1 else 0) < Goal(target)
    ensures Succ(su.prog, j) < PathLength(su.prog)
    ensures InsnsLeft(su, m', target, Succ(su.prog, j)) == InsnsLeft(su, m, target, j) - 1
  {
  }

  /** A retirement pays for every wait that follows it. */
  lemma RetirementPays(su: Setup, m: CoreState, m': CoreState, target: u32, j: nat, q: nat, q': nat)
    requires Layout(su.prog) && j < PathLength(su.prog) && q < PathLength(su.prog) && m.itersDone < Goal(target)
    requires m'.itersDone == m.itersDone + (if j == 2 * su.prog.coldLines - 1 then 1 else 0)
    requires OnPath(su, m', target, Succ(su.prog, j), q')
    ensures Rank(su, m', target, Succ(su.prog, j), q') < Rank(su, m, target, j, q)
  {
    OneInsnLess(su, m, m', target, j);
    PhaseIsShort(su, m', target, Succ(su.prog, j), q');
    hide OnPath, Phase, InsnsLeft, PerInsn, Layout;
    assert Times(InsnsLeft(su, m, target, j), PerInsn(su))
           == Times(InsnsLeft(su, m', target, Succ(su.prog, j)), PerInsn(su)) + PerInsn(su);
  }

  /** The line of a missing PC comes with its fill. */
  lemma OwnFillArrives(ic: Lines, pc: u32)
    ensures Holds(Filled(ic, LineOf(pc), Marker(LineOf(pc))), pc)
  {
    assert LineOf(pc) / 32 == pc / 32;
    FillEffect(ic, LineOf(pc), Marker(LineOf(pc)), pc);
  }

  /** The slot of a running backend after the tick and the arbitration: the fetch pointer's own line if it is missing
      and nothing else is on the bus. */
  lemma RunningSlot(su: Setup, m: CoreState, target: u32, j: nat, q: nat)
    requires Layout(su.prog) && OnPath(su, m, target, j, q) && AfterTick(m).backend == Running
    ensures var t, w := AfterTick(m), Waited(su, m);
            && w.ic == t.ic && w.cycle == m.cycle + 1 && w.backend == Running && w.execPc == m.execPc && w.fetchPc == m.fetchPc
            && w.itersDone == m.itersDone && OnPath(su, w, target, j, q)
            && (m.backend == Running && !Holds(t.ic, m.fetchPc) ==> Wait(su, w) < Wait(su, m))
  {
    hide Scan, PathPc, Holds, Layout;
    var t := AfterTick(m);
    if t.bus.slot == None && !Holds(t.ic, m.fetchPc) {
      AsksForItsOwn(su, t);
    }
    if m.bus.slot.Some? && m.bus.slot.value.addr == LineOf(m.fetchPc) {
      OwnFillArrives(m.ic, m.fetchPc);
    }
    hide Request, Filled, LineOf;
  }

  lemma AsksForItsOwn(su: Setup, m: CoreState)
    requires m.backend == Running && !Holds(m.ic, m.fetchPc)
    ensures Request(su, m) == Some(LineOf(m.fetchPc))
  {
    hide Holds;
  }

  /** A cycle of a running backend brings the pass nearer. */
  lemma RunningProgress(su: Setup, m: CoreState, target: u32, j: nat, q: nat) returns (m': CoreState, j': nat, q': nat)
    requires Layout(su.prog) && OnPath(su, m, target, j, q) && AfterTick(m).backend == Running
    ensures m' == Cycle(su, m, target).0 && m'.cycle == m.cycle + 1
    ensures var o := Cycle(su, m, target).1;
            if o.Some? then o.value == Pass(m.cycle + 1, Goal(target))
            else OnPath(su, m', target, j', q') && Rank(su, m', target, j', q') < Rank(su, m, target, j, q)
  {
    RunningSlot(su, m, target, j, q);
    var w := Waited(su, m);
    Deadlocks.RunningCycle(su, m, target, w);
    hide Cycle, AfterTick, Waited, Layout, PathPc;
    m' := Cycle(su, m, target).0;
    if Holds(w.ic, w.execPc) {
      hide Rank, Holds;
      m', q' := RetireOnPath(su, w, target, j, q);
      hide Retired;
      j' := Succ(su.prog, j);
      if Cycle(su, m, target).1.None? {
        RetirementPays(su, m, m', target, j, q, q');
      }
    } else {
      j' := j;
      q' := StuckProgress(su, m, w, target, j, q);
    }
  }

  /** Waiting for its line, the backend is nearer to it a cycle later. */
  lemma StuckProgress(su: Setup, m: CoreState, w: CoreState, target: u32, j: nat, q: nat) returns (q': nat)
    requires Layout(su.prog) && OnPath(su, m, target, j, q) && OnPath(su, w, target, j, q)
    requires w.backend == Running && w.execPc == m.execPc && w.fetchPc == m.fetchPc && w.itersDone == m.itersDone
    requires m.backend == Running && !Holds(w.ic, m.fetchPc) ==> Wait(su, w) < Wait(su, m)
    requires m.backend.StalledOnLoad? ==> LoadInFlight(m.bus)
    requires !Holds(w.ic, w.execPc)
    ensures var m' := Retired(su, w, target).0;
            && Retired(su, w, target).1 == None && m'.cycle == w.cycle
            && OnPath(su, m', target, j, q') && Rank(su, m', target, j, q') < Rank(su, m, target, j, q)
  {
    hide Holds, PathPc, Layout, Rank;
    q' := AdvanceApproaches(su.prog, w.ic, q, j, ADVANCE_CAP);
    Deadlocks.RetireNothing(su, w, target);
    hide Retired;
    var m' := w.(fetchPc := PathPc(su.prog, q'));
    assert OnPath(su, m', target, j, q');
    StuckPhase(su, m, w, m', target, j, q, q');
    RankByPhase(su, m, m', target, j, q, q');
  }

  lemma RankByPhase(su: Setup, m: CoreState, m': CoreState, target: u32, j: nat, q: nat, q': nat)
    requires j < PathLength(su.prog) && q < PathLength(su.prog) && q' < PathLength(su.prog)
    requires m'.itersDone == m.itersDone < Goal(target) && Phase(su, m', j, q') < Phase(su, m, j, q)
    ensures Rank(su, m', target, j, q') < Rank(su, m, target, j, q)
  {
    hide Phase;
  }

  lemma StuckPhase(su: Setup, m: CoreState, w: CoreState, m': CoreState, target: u32, j: nat, q: nat, q': nat)
    requires Layout(su.prog) && OnPath(su, m, target, j, q) && OnPath(su, w, target, j, q) && OnPath(su, m', target, j, q')
    requires w.backend == Running && w.fetchPc == m.fetchPc && m' == w.(fetchPc := m'.fetchPc)
    requires m.backend == Running && !Holds(w.ic, m.fetchPc) ==> Wait(su, w) < Wait(su, m)
    requires m.backend.StalledOnLoad? ==> LoadInFlight(m.bus)
    requires Holds(w.ic, m.fetchPc) ==> Distance(su.prog, q', j) < Distance(su.prog, q, j)
    requires !Holds(w.ic, m.fetchPc) ==> q' == q
    ensures Phase(su, m', j, q') < Phase(su, m, j, q)
  {
    PhaseIsShort(su, m', target, j, q');
    WaitIsShort(su, m', target, j, q');
    hide PathPc, Holds, Times, Layout, Lap;
    if m.backend == Running {
      if Holds(w.ic, m.fetchPc) {
        hide Wait;
        TimesGrows(Distance(su.prog, q', j), Distance(su.prog, q, j), Lap(su));
      }
    } else {
      hide Wait;
    }
  }

  // ----- A stalled backend -----

  /** A cycle that leaves the backend stalled, its verdict aside. */
  lemma StalledCycle(su: Setup, m: CoreState, target: u32)
    requires AfterTick(m).backend.StalledOnLoad?
    ensures Cycle(su, m, target).0 == Waited(su, m)
  {
    hide AfterTick, Request, Advanced, Decode;
  }

  lemma StalledProgress(su: Setup, m: CoreState, target: u32, j: nat, q: nat)
    requires Layout(su.prog) && OnPath(su, m, target, j, q) && AfterTick(m).backend.StalledOnLoad?
    requires Quiescing(su) || Shallow(su)
    ensures var m' := Cycle(su, m, target).0;
            && m'.cycle == m.cycle + 1
            && OnPath(su, m', target, j, q) && Rank(su, m', target, j, q) < Rank(su, m, target, j, q)
  {
    StalledCycle(su, m, target);
    hide Cycle;
    StalledRequest(su, AfterTick(m));
    if m.bus.slot.Some? && m.bus.slot.value.addr == LineOf(m.fetchPc) {
      OwnFillArrives(m.ic, m.fetchPc);
    }
    hide Request, Filled, LineOf, PathPc, Holds, Layout, Rank, Round;
    var m' := Waited(su, m);
    assert m'.backend == m.backend && m'.execPc == m.execPc && m'.fetchPc == m.fetchPc && m'.itersDone == m.itersDone;
    assert Phase(su, m', j, q) < Phase(su, m, j, q);
    RankByPhase(su, m, m', target, j, q, q);
  }

  // ----- The verdict -----

  lemma ProgressStep(su: Setup, m: CoreState, target: u32, j: nat, q: nat) returns (m': CoreState, j': nat, q': nat)
    requires Layout(su.prog) && OnPath(su, m, target, j, q) && (!Uncached(su) || Quiescing(su) || Shallow(su))
    ensures m' == Cycle(su, m, target).0 && m'.cycle == m.cycle + 1
    ensures var o := Cycle(su, m, target).1;
            (o.Some? && o.value.Deadlock?)
            || (if o.Some? then o.value == Pass(m.cycle + 1, Goal(target))
                else OnPath(su, m', target, j', q') && Rank(su, m', target, j', q') < Rank(su, m, target, j, q))
  {
    hide Cycle, PathPc, Layout, Rank;
    if AfterTick(m).backend == Running {
      hide AfterTick, OnPath;
      m', j', q' := RunningProgress(su, m, target, j, q);
    } else {
      assert Uncached(su);
      hide AfterTick, OnPath;
      StalledVerdict(su, m, target);
      StalledProgress(su, m, target, j, q);
      m', j', q' := Cycle(su, m, target).0, j, q;
    }
  }

  lemma StalledVerdict(su: Setup, m: CoreState, target: u32)
    requires AfterTick(m).backend.StalledOnLoad?
    ensures var o := Cycle(su, m, target).1; o.Some? ==> o.value.Deadlock?
  {
    hide AfterTick, Request, Advanced, Decode;
  }

  lemma {:induction false} PassesOrHangs(su: Setup, m: CoreState, target: u32, maxCycles: nat, j: nat, q: nat)
    requires Layout(su.prog) && OnPath(su, m, target, j, q) && (!Uncached(su) || Quiescing(su) || Shallow(su))
    requires maxCycles > m.cycle + Rank(su, m, target, j, q)
    ensures var o := RunFrom(su, m, target, maxCycles).1;
            o.Deadlock? || (o.Pass? && o.iters == Goal(target) && o.cycles <= m.cycle + Rank(su, m, target, j, q) + 1)
    decreases Rank(su, m, target, j, q)
  {
    hide Cycle, RunFrom, OnPath, Rank, Layout;
    RunStep(su, m, target, maxCycles);
    var m', j', q' := ProgressStep(su, m, target, j, q);
    if Cycle(su, m, target).1.None? {
      PassesOrHangs(su, m', target, maxCycles, j', q');
    }
  }

  lemma StartsOnPath(su: Setup, target: u32)
    requires Layout(su.prog)
    ensures var n := 2 * su.prog.coldLines; OnPath(su, InitialState(su), target, n, n)
  {
  }

  /** Cycles in which the run is over. */
  function PassBound(su: Setup, target: u32): nat {
    Times(Goal(target) * PathLength(su.prog), PerInsn(su)) + FillTime(su) + 2
  }

  lemma RankAtStart(su: Setup, target: u32)
    requires Layout(su.prog)
    ensures var n := 2 * su.prog.coldLines;
            Rank(su, InitialState(su), target, n, n) + 1 == PassBound(su, target)
  {
    hide PerInsn;
    TimesIsProduct(Goal(target) - 1, PathLength(su.prog));
    var k, n := PathLength(su.prog), 2 * su.prog.coldLines;
    assert (Goal(target) - 1) * k + k == Goal(target) * k;
    assert InsnsLeft(su, InitialState(su), target, n) == Goal(target) * k;
  }

  /** In figures: for each of the k (2 n + 3) instructions, every line of the path may have to come, behind another. */
  lemma PassBoundIs(su: Setup, target: u32)
    ensures var k: nat, F: nat, M: nat := 2 * su.prog.coldLines + 3, FillTime(su), LoadTime(su);
            PassBound(su, target) == Goal(target) * k * (k * (2 * F + 1) + M + 2 * F + 1) + F + 2
  {
    TimesIsProduct(PathLength(su.prog), Lap(su));
    TimesIsProduct(Goal(target) * PathLength(su.prog), PerInsn(su));
  }

  lemma NeverHangs(su: Setup, target: u32, maxCycles: nat)
    requires Unstarved(su)
    ensures !RunOutcome(su, target, maxCycles).Deadlock?
  {
    if Uncached(su) {
      RestrainedFetchNeverHangs(su, target, maxCycles);
    } else {
      CachedRunNeverHangs(su, InitialState(su), target, maxCycles);
    }
  }

  /** Progress. With the D-cache answering the load, or a front end that quiesces under a stall or runs at most one line
      ahead (and the window that takes), every layout passes within a bound, colliding lines or not. */
  lemma UnstarvedPasses(su: Setup, target: u32, maxCycles: nat)
    requires Layout(su.prog) && Unstarved(su) && maxCycles >= PassBound(su, target)
    ensures var o := RunOutcome(su, target, maxCycles);
            o.Pass? && o.iters == Goal(target) && o.cycles <= PassBound(su, target)
  {
    NeverHangs(su, target, maxCycles);
    StartsOnPath(su, target);
    RankAtStart(su, target);
    var n := 2 * su.prog.coldLines;
    hide OnPath, RunFrom, Rank, Layout, PassBound;
    PassesOrHangs(su, InitialState(su), target, maxCycles, n, n);
  }

  /** With the D-cache on, an SRAM poll passes in every layout, and never starves whatever the program; an MMIO poll of
      any program ends exactly as it does with the D-cache off. */
  lemma DcacheOnlySavesSramPolls(su: Setup, target: u32, maxCycles: nat)
    requires su.dcacheOn
    ensures !su.prog.statusMmio ==> !RunOutcome(su, target, maxCycles).Deadlock?
    ensures !su.prog.statusMmio && Layout(su.prog) && maxCycles >= PassBound(su, target) ==>
              var o := RunOutcome(su, target, maxCycles);
              o.Pass? && o.iters == Goal(target) && o.cycles <= PassBound(su, target)
    ensures su.prog.statusMmio ==>
              RunOutcome(su, target, maxCycles) == RunOutcome(su.(dcacheOn := false), target, maxCycles)
  {
    hide Layout, PassBound, RunFrom;
    if su.prog.statusMmio {
      MmioRunIgnoresDcache(su, InitialState(su), target, maxCycles);
    } else {
      NeverHangs(su, target, maxCycles);
      if Layout(su.prog) && maxCycles >= PassBound(su, target) {
        UnstarvedPasses(su, target, maxCycles);
      }
    }
  }

  // ----- Steering the fetch engine -----

  /** A taken branch to an absent line turns the fetch engine to it: that line is what it asks for next. To a resident
      one it leaves the engine where it had run ahead to. */
  lemma FetchFollowsTheBranch(su: Setup, m: CoreState, target: u32)
    requires m.backend == Running && Holds(m.ic, m.execPc) && Retired(su, m, target).1 == None
    requires Decode(su.prog, m.execPc).Branch? || Decode(su.prog, m.execPc).LoopBack?
    ensures var m' := Retired(su, m, target).0;
            && m'.execPc == Decode(su.prog, m.execPc).target
            && (!Holds(m.ic, m'.execPc) ==> Request(su, m') == Some(LineOf(m'.execPc)))
            && (Holds(m.ic, m'.execPc) ==>
                  Request(su, m') == Request(su, m.(fetchPc := Advanced(su.prog, m.ic, m.fetchPc, ADVANCE_CAP))))
  {
    hide Advanced, Decode, Holds;
  }
}
