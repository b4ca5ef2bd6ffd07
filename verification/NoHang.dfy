/** Settings under which no program can starve a load: a front end that quiesces under a stall, one that
    runs at most one line ahead, and a load the D-cache answers. */
module NoHangs {
  import opened Words
  import opened InstructionCache
  import opened Timing
  import opened PollLoop
  import opened PollRuns
  import opened Deadlocks

  predicate Shallow(su: Setup) { su.cfg.fetchRunaheadLines <= 1 }

  /** The most cycles a load can wait ungranted. */
  function LongestWait(su: Setup): nat {
    if Quiescing(su) then FillTime(su) - 1 else 2 * FillTime(su) - 1
  }

  /** Cycles a load may have waited plus cycles the fill ahead of it still takes: a fill for the line
      under the fetch pointer is the last one before a shallow engine falls silent. */
  function WaitBudget(su: Setup, m: CoreState, line: u32): nat {
    if !Quiescing(su) && line / 32 == m.fetchPc / 32 then 2 * FillTime(su) else FillTime(su)
  }

  predicate Calm(su: Setup, m: CoreState) {
    match m.bus.slot
    case None => m.starveCycles == 0
    case Some(BusTxn(Load, r, _)) => m.backend.StalledOnLoad? && r >= 1
    case Some(BusTxn(Fetch, r, line)) =>
      1 <= r <= FillTime(su) && m.starveCycles + r <= WaitBudget(su, m, line)
      && (m.backend == Running ==> m.starveCycles == 0)
  }

  lemma RetiringKeepsTheBus(su: Setup, m: CoreState, target: u32)
    requires m.backend == Running
    ensures var (m', o) := Retired(su, m, target);
            m'.bus == m.bus && m'.starveCycles == m.starveCycles && (o.Some? ==> o.value.Pass?)
  {
    hide Advanced, Decode, Holds;
  }

  /** A cycle in which the backend runs leaves at most one fresh fill ahead of the next load. */
  lemma RunningStaysCalm(su: Setup, m: CoreState, target: u32)
    requires var t := AfterTick(m);
             && t.backend == Running
             && (t.bus.slot.Some? ==> t.bus.slot.value.master == Fetch && 1 <= t.bus.slot.value.remaining <= FillTime(su))
    ensures Calm(su, Cycle(su, m, target).0)
    ensures var o := Cycle(su, m, target).1; o.Some? ==> o.value.Pass?
  {
    var t := AfterTick(m);
    var m1 := Waited(su, m);
    hide Advanced, Decode, Holds, Scan, AfterTick;
    assert m1.starveCycles == 0 && m1.backend == Running;
    RetiringKeepsTheBus(su, m1, target);
    hide Retired;
  }

  lemma IdleSlotPreempted(su: Setup, m: CoreState, target: u32, next: u32)
    requires m.backend.StalledOnLoad? && m.bus.slot == None && m.starveCycles == 0
    requires Request(su, m) == Some(next)
    ensures var m' := m.(cycle := m.cycle + 1, starveCycles := 1, lastAliasingFetch := Some(next),
                         bus := BusState(Some(BusTxn(Fetch, FillTime(su), next)), Some(next),
                                         m.bus.fetchGrants + 1, m.bus.loadGrants));
            Cycle(su, m, target) == (m', StarveVerdict(su, m'))
  {
    hide Scan, Advanced, Decode;
  }

  /** What a stalled backend's fetch engine asks for when it cannot run ahead. */
  lemma StalledRequest(su: Setup, m: CoreState)
    requires (Quiescing(su) || Shallow(su)) && m.backend.StalledOnLoad?
    ensures Request(su, m)
            == if Quiescing(su) || Holds(m.ic, m.fetchPc) then None else Some(LineOf(m.fetchPc))
  {
  }

  lemma FilledLineHolds(m: CoreState, line: u32, pc: u32)
    requires line / 32 == pc / 32
    ensures Holds(Filled(m.ic, line, Marker(line)), pc)
  {
    FillEffect(m.ic, line, Marker(line), pc);
  }

  lemma CalmStep(su: Setup, m: CoreState, target: u32)
    requires (Quiescing(su) || Shallow(su)) && su.cfg.deadlockWindow >= LongestWait(su) && Calm(su, m)
    ensures Calm(su, Cycle(su, m, target).0)
    ensures var o := Cycle(su, m, target).1; o.Some? ==> o.value.Pass?
  {
    if m.backend == Running {
      RunningStaysCalm(su, m, target);
    } else if m.bus.slot == None {
      StalledRequest(su, m);
      hide Cycle, Request;
      if Quiescing(su) || Holds(m.ic, m.fetchPc) {
        IdleSlotYields(su, m, target);
      } else {
        IdleSlotPreempted(su, m, target, LineOf(m.fetchPc));
      }
    } else if m.bus.slot.value.master == Load {
      if m.bus.slot.value.remaining > 1 {
        LoadGoesOn(su, m, target, m.bus.slot.value);
      } else {
        RunningStaysCalm(su, m, target);
      }
    } else {
      StalledFillStaysCalm(su, m, target);
    }
  }

  lemma StalledFillStaysCalm(su: Setup, m: CoreState, target: u32)
    requires (Quiescing(su) || Shallow(su)) && su.cfg.deadlockWindow >= LongestWait(su) && Calm(su, m)
    requires m.backend.StalledOnLoad? && m.bus.slot.Some? && m.bus.slot.value.master == Fetch
    ensures Calm(su, Cycle(su, m, target).0)
    ensures Cycle(su, m, target).1 == None
  {
    hide Cycle, Request, Filled, Marker, Holds;
    var txn := m.bus.slot.value;
    if txn.remaining > 1 {
      FillGoesOn(su, m, target, txn);
    } else {
      var ic := Filled(m.ic, txn.addr, Marker(txn.addr));
      StalledRequest(su, m.(ic := ic));
      if Quiescing(su) || Holds(ic, m.fetchPc) {
        FillYields(su, m, target, txn);
      } else {
        if txn.addr / 32 == m.fetchPc / 32 {
          FilledLineHolds(m, txn.addr, m.fetchPc);
        }
        FillRepeats(su, m, target, txn, LineOf(m.fetchPc));
      }
    }
  }

  lemma {:induction false} CalmRunNeverHangs(su: Setup, m: CoreState, target: u32, maxCycles: nat)
    requires (Quiescing(su) || Shallow(su)) && su.cfg.deadlockWindow >= LongestWait(su) && Calm(su, m)
    ensures !RunFrom(su, m, target, maxCycles).1.Deadlock?
    decreases maxCycles - m.cycle
  {
    hide Cycle, Calm;
    if m.cycle < maxCycles {
      RunStep(su, m, target, maxCycles);
      CalmStep(su, m, target);
      if Cycle(su, m, target).1 == None {
        CalmRunNeverHangs(su, Cycle(su, m, target).0, target, maxCycles);
      }
    }
  }

  /** No layout, load, iteration count or cycle limit can hang a front end that quiesces under a stall
      (with a window of at least max(F,1) - 1) or runs at most one line ahead (2 max(F,1) - 1). */
  lemma RestrainedFetchNeverHangs(su: Setup, target: u32, maxCycles: nat)
    requires Quiescing(su) || Shallow(su)
    requires su.cfg.deadlockWindow >= LongestWait(su)
    ensures !RunOutcome(su, target, maxCycles).Deadlock?
  {
    CalmRunNeverHangs(su, InitialState(su), target, maxCycles);
  }

  lemma {:induction false} FillOutlastsWindow(su: Setup, m: CoreState, target: u32, maxCycles: nat)
    requires Layout(su.prog) && Starving(su, m) && m.starveCycles <= su.cfg.deadlockWindow < 0xFFFF_FFFF
    requires m.starveCycles + m.bus.slot.value.remaining > su.cfg.deadlockWindow + 1
    requires maxCycles >= m.cycle + su.cfg.deadlockWindow + 1 - m.starveCycles
    ensures HangsAt(RunFrom(su, m, target, maxCycles).1, su, m.cycle + su.cfg.deadlockWindow + 1 - m.starveCycles)
    decreases su.cfg.deadlockWindow - m.starveCycles
  {
    hide Cycle, RunFrom;
    RunStep(su, m, target, maxCycles);
    FillGoesOn(su, m, target, m.bus.slot.value);
    var m' := Cycle(su, m, target).0;
    if m'.starveCycles <= su.cfg.deadlockWindow {
      FillOutlastsWindow(su, m', target, maxCycles);
    }
  }

  /** The window bound for a quiescing front end is the best possible: below it every uncached poll loop
      hangs on its first cold fill, and at or above it nothing does. */
  lemma QuiescingVerdict(su: Setup, target: u32, maxCycles: nat)
    requires Layout(su.prog) && Uncached(su) && Quiescing(su) && su.cfg.fetchRunaheadLines > 1
    requires maxCycles >= HangCycle(su)
    ensures RunOutcome(su, target, maxCycles).Deadlock? <==> su.cfg.deadlockWindow < FillTime(su) - 1
    ensures su.cfg.deadlockWindow < FillTime(su) - 1
            ==> HangsAt(RunOutcome(su, target, maxCycles), su, HangCycle(su))
  {
    if su.cfg.deadlockWindow < FillTime(su) - 1 {
      hide RunFrom;
      RunsToFirstStall(su, target, maxCycles);
      FirstStallStarves(su);
      FillOutlastsWindow(su, FirstStall(su), target, maxCycles);
    } else {
      RestrainedFetchNeverHangs(su, target, maxCycles);
    }
  }

  // ----- A load the D-cache answers -----

  lemma {:induction false} ColdPathHasNoLoad(p: PollLoopProgram, pc: u32, i: nat)
    ensures !DecodeCold(p, pc, i).LoadOp?
    decreases p.coldLines - i
  {
    if i < p.coldLines {
      ColdPathHasNoLoad(p, pc, i + 1);
    }
  }

  lemma CachedLoadNeverStalls(su: Setup, m: CoreState, target: u32)
    requires !Uncached(su) && m.backend == Running
    ensures Retired(su, m, target).0.backend == Running
  {
    ColdPathHasNoLoad(su.prog, m.execPc, 0);
    hide Advanced, Holds, DecodeCold;
  }

  lemma CachedStep(su: Setup, m: CoreState, target: u32)
    requires !Uncached(su) && m.backend == Running
    requires m.bus.slot.Some? ==> m.bus.slot.value.master == Fetch
    ensures var (m', o) := Cycle(su, m, target);
            && m'.backend == Running && (m'.bus.slot.Some? ==> m'.bus.slot.value.master == Fetch)
            && (o.Some? ==> o.value.Pass?)
  {
    hide Scan, Decode, Advanced, Holds;
    var w := Waited(su, m);
    CachedLoadNeverStalls(su, w, target);
    RetiringKeepsTheBus(su, w, target);
    hide Retired;
  }

  lemma {:induction false} CachedRunNeverHangs(su: Setup, m: CoreState, target: u32, maxCycles: nat)
    requires !Uncached(su) && m.backend == Running
    requires m.bus.slot.Some? ==> m.bus.slot.value.master == Fetch
    ensures !RunFrom(su, m, target, maxCycles).1.Deadlock?
    decreases maxCycles - m.cycle
  {
    hide Cycle;
    if m.cycle < maxCycles {
      RunStep(su, m, target, maxCycles);
      CachedStep(su, m, target);
      if Cycle(su, m, target).1 == None {
        CachedRunNeverHangs(su, Cycle(su, m, target).0, target, maxCycles);
      }
    }
  }

  lemma OnlyTheStatusLoads(su: Setup, pc: u32)
    ensures Decode(su.prog, pc).LoadOp? ==> Decode(su.prog, pc).mmio == su.prog.statusMmio
  {
    ColdPathHasNoLoad(su.prog, pc, 0);
  }

  lemma MmioCycleIgnoresDcache(su: Setup, m: CoreState, target: u32)
    requires su.prog.statusMmio
    ensures Cycle(su, m, target) == Cycle(su.(dcacheOn := false), m, target)
  {
    var su' := su.(dcacheOn := false);
    hide Scan, Advanced, Decode, Holds, AfterTick, Arbitrated;
    var w := Waited(su, m);
    assert w == Waited(su', m);
    OnlyTheStatusLoads(su, w.execPc);
    assert Retired(su, w, target) == Retired(su', w, target);
  }

  /** The D-cache makes no difference to an MMIO poll. */
  lemma {:induction false} MmioRunIgnoresDcache(su: Setup, m: CoreState, target: u32, maxCycles: nat)
    requires su.prog.statusMmio
    ensures RunFrom(su, m, target, maxCycles).1 == RunFrom(su.(dcacheOn := false), m, target, maxCycles).1
    decreases maxCycles - m.cycle
  {
    var su' := su.(dcacheOn := false);
    hide Cycle;
    if m.cycle < maxCycles {
      MmioCycleIgnoresDcache(su, m, target);
      RunStep(su, m, target, maxCycles);
      RunStep(su', m, target, maxCycles);
      if Cycle(su, m, target).1 == None {
        MmioRunIgnoresDcache(su, Cycle(su, m, target).0, target, maxCycles);
      }
    }
  }
}
