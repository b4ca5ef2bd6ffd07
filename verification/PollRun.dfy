/** The poll loop cycle by cycle: its warm-up, a load that starves or gets the bus, and the resident loop. */
module PollRuns {
  import opened Words
  import opened InstructionCache
  import opened Timing
  import opened PollLoop

  function FillTime(su: Setup): nat { Max(su.cfg.fetchLatency, 1) }

  /** The cycles the status load holds the bus. */
  function LoadTime(su: Setup): nat {
    Max(if su.prog.statusMmio then su.cfg.mmioLoadLatency else su.cfg.sramLoadLatency, 1)
  }

  /** Iterations that count as a pass; the count is tested only after an iteration. */
  function Goal(target: u32): nat { Max(target, 1) }

  /** The loop's load goes to the bus: MMIO, or SRAM with the D-cache off. */
  predicate Uncached(su: Setup) { !(su.dcacheOn && !su.prog.statusMmio) }

  /** The front end asks for nothing while the backend is stalled. */
  predicate Quiescing(su: Setup) { !su.cfg.fetchRunsAheadUnderStall }

  /** A front end that runs at least one line ahead. */
  predicate RunsAhead(su: Setup) { Layout(su.prog) && su.cfg.fetchRunaheadLines > 1 }

  /** Its machine of interest: an uncached poll loop. A window of 2^32 - 1 could never be exceeded. */
  predicate Looping(su: Setup) { RunsAhead(su) && Uncached(su) && su.cfg.deadlockWindow < 0xFFFF_FFFF }

  /** Two of the lines a stalled front end wants at once, from the first cold line on, share an I-cache set. */
  predicate Clashes(su: Setup)
    requires Layout(su.prog)
  {
    && !Quiescing(su)
    && exists i: nat, j: nat ::
         i < j <= su.prog.coldLines && j < su.cfg.fetchRunaheadLines
         && SetOf(LoopLine(su.prog, i)) == SetOf(LoopLine(su.prog, j))
  }

  /** Cold lines that are filled before the first load can have the bus. */
  function Reach(su: Setup): nat {
    if Quiescing(su) then 1
    else if su.cfg.fetchRunaheadLines < su.prog.coldLines then su.cfg.fetchRunaheadLines
    else su.prog.coldLines
  }

  /** One cycle that ends without a verdict moves the run on. */
  lemma RunStep(su: Setup, m: CoreState, target: u32, maxCycles: nat)
    requires m.cycle < maxCycles
    ensures var (m', o) := Cycle(su, m, target);
            RunFrom(su, m, target, maxCycles).1 ==
              if o.Some? then o.value else RunFrom(su, m', target, maxCycles).1
  {
  }

  // ----- Warm-up: filling the hot line -----

  /** After cycle `c` of the first line fill. */
  function Warming(su: Setup, c: nat): CoreState
    requires 1 <= c <= FillTime(su)
  {
    CoreState(ALL_EMPTY, BusState(Some(BusTxn(Fetch, FillTime(su) - c + 1, LineOf(su.prog.base))), None, 1, 0),
              su.prog.base, Running, su.prog.base, c, 0, 0, None)
  }

  function WarmLines(su: Setup): Lines { Filled(ALL_EMPTY, LineOf(su.prog.base), Marker(LineOf(su.prog.base))) }

  /** The hot line is in, the load has just issued, the first cold line is on the bus. */
  function FirstStall(su: Setup): CoreState {
    CoreState(WarmLines(su), BusState(Some(BusTxn(Fetch, FillTime(su), su.prog.cold)), None, 2, 0),
              Wrap(su.prog.base + INSN_SIZE), StalledOnLoad(su.prog.status, su.prog.statusMmio),
              su.prog.cold, FillTime(su) + 1, 0, 0, None)
  }

  lemma WarmupStarts(su: Setup, target: u32)
    requires Layout(su.prog)
    ensures Cycle(su, InitialState(su), target) == (Warming(su, 1), None)
  {
    assert !Holds(ALL_EMPTY, su.prog.base);
  }

  lemma WarmupStep(su: Setup, c: nat, target: u32)
    requires Layout(su.prog) && 1 <= c < FillTime(su)
    ensures Cycle(su, Warming(su, c), target) == (Warming(su, c + 1), None)
  {
    assert !Holds(ALL_EMPTY, su.prog.base);
  }

  /** With only the hot line resident, the fetch engine walks out of it to the first cold line. */
  lemma HotLineWalk(su: Setup)
    requires Layout(su.prog) && su.cfg.fetchRunaheadLines > 1
    ensures Scan(su.prog, WarmLines(su), su.cfg.fetchRunaheadLines, su.prog.base, [], [], SCAN_CAP)
            == Some(su.prog.cold)
    ensures Advanced(su.prog, WarmLines(su), su.prog.base, ADVANCE_CAP) == su.prog.cold
    ensures Holds(WarmLines(su), su.prog.base) && !Holds(WarmLines(su), su.prog.cold)
  {
    var p, n, ic, d := su.prog, su.prog.coldLines, WarmLines(su), su.cfg.fetchRunaheadLines;
    var pc0, pc1, pc2, pc3 := p.base, p.base + 4, p.base + 8, p.cold;
    HotWalkResidency(su);
    DecodeAt(p, 2 * n);
    DecodeAt(p, 2 * n + 1);
    DecodeAt(p, 2 * n + 2);
    assert PathPc(p, 0) == p.cold && LineOf(p.cold) == p.cold;
    assert PredictedNext(p, pc0) == pc1 && PredictedNext(p, pc1) == pc2 && PredictedNext(p, pc2) == pc3;
    hide *;
    ScanStep(p, ic, d, pc0, pc1, [], [pc0], [], SCAN_CAP);
    ScanStep(p, ic, d, pc1, pc2, [pc0], [pc0], [pc0], SCAN_CAP - 1);
    ScanStep(p, ic, d, pc2, pc3, [pc0], [pc0], [pc0, pc1], SCAN_CAP - 2);
    ScanEnds(p, ic, d, pc3, [pc0], [pc0, pc1, pc2], SCAN_CAP - 3);
    AdvanceStep(p, ic, pc0, ADVANCE_CAP);
    AdvanceStep(p, ic, pc1, ADVANCE_CAP - 1);
    AdvanceStep(p, ic, pc2, ADVANCE_CAP - 2);
    AdvanceEnds(p, ic, pc3, ADVANCE_CAP - 3);
    assert [] + [pc0] == [pc0] && [pc0] + [pc1] == [pc0, pc1] && [pc0, pc1] + [pc2] == [pc0, pc1, pc2];
  }

  lemma HotWalkResidency(su: Setup)
    requires Layout(su.prog)
    ensures var p, ic := su.prog, WarmLines(su);
            && Holds(ic, p.base) && Holds(ic, p.base + 4) && Holds(ic, p.base + 8) && !Holds(ic, p.cold)
            && LineOf(p.base) == LineOf(p.base + 4) == LineOf(p.base + 8) == p.base
  {
    var p, d := su.prog, Marker(LineOf(su.prog.base));
    assert (p.base + 4) / 32 == p.base / 32 && (p.base + 8) / 32 == p.base / 32;
    HotLineApart(p);
    FillEffect(ALL_EMPTY, p.base, d, p.base);
    FillEffect(ALL_EMPTY, p.base, d, p.base + 4);
    FillEffect(ALL_EMPTY, p.base, d, p.base + 8);
    FillEffect(ALL_EMPTY, p.base, d, p.cold);
  }

  lemma ScanEnds(p: PollLoopProgram, ic: Lines, runahead: u32, pc: u32,
                 distinct: seq<u32>, visited: seq<u32>, fuel: nat)
    requires fuel > 0 && !Holds(ic, pc)
    ensures Scan(p, ic, runahead, pc, distinct, visited, fuel) == Some(LineOf(pc))
  {
  }

  lemma AdvanceStep(p: PollLoopProgram, ic: Lines, pc: u32, fuel: nat)
    requires fuel > 0 && Holds(ic, pc)
    ensures Advanced(p, ic, pc, fuel) == Advanced(p, ic, PredictedNext(p, pc), fuel - 1)
  {
  }

  lemma AdvanceEnds(p: PollLoopProgram, ic: Lines, pc: u32, fuel: nat)
    requires !Holds(ic, pc)
    ensures Advanced(p, ic, pc, fuel) == pc
  {
  }

  /** The last warm-up cycle before its instruction retires: the hot line is in, the first cold line asked for. */
  function Warm(su: Setup): CoreState {
    CoreState(WarmLines(su), BusState(Some(BusTxn(Fetch, FillTime(su), su.prog.cold)), None, 2, 0),
              su.prog.base, Running, su.prog.base, FillTime(su) + 1, 0, 0, None)
  }

  lemma WarmupWaits(su: Setup)
    requires Layout(su.prog) && su.cfg.fetchRunaheadLines > 1
    ensures Waited(su, Warming(su, FillTime(su))) == Warm(su)
  {
    HotLineWalk(su);
    assert LineOf(su.prog.base) == su.prog.base;
    hide Scan, Advanced, Decode, PredictedNext, Filled, Holds, LineOf, Marker, Layout;
    var m1 := Warm(su).(bus := BusState(None, None, 1, 0));
    assert AfterTick(Warming(su, FillTime(su))) == m1;
    assert AfterArbitration(su, m1) == Warm(su);
  }

  lemma RetireLoad(su: Setup, m: CoreState, target: u32, fetchPc: u32)
    requires m.backend == Running && Holds(m.ic, m.execPc) && Uncached(su)
    requires Decode(su.prog, m.execPc) == LoadOp(su.prog.status, su.prog.statusMmio)
    requires Advanced(su.prog, m.ic, m.fetchPc, ADVANCE_CAP) == fetchPc
    ensures Retired(su, m, target)
            == (m.(fetchPc := fetchPc, execPc := Wrap(m.execPc + INSN_SIZE),
                   backend := StalledOnLoad(su.prog.status, su.prog.statusMmio)), None)
  {
    hide Advanced, Decode, Holds;
  }

  lemma WarmupEnds(su: Setup, target: u32)
    requires Layout(su.prog) && Uncached(su) && su.cfg.fetchRunaheadLines > 1
    ensures Cycle(su, Warming(su, FillTime(su)), target) == (FirstStall(su), None)
  {
    hide Scan, Advanced, Decode, PredictedNext, WarmLines, Holds, LineOf, Waited, Retired;
    HotLineWalk(su);
    DecodesTo(su.prog, 2 * su.prog.coldLines);
    WarmupWaits(su);
    RetireLoad(su, Warm(su), target, su.prog.cold);
  }

  // ----- One cycle of a stalled backend -----

  predicate Stalled(m: CoreState, txn: BusTxn) {
    m.backend.StalledOnLoad? && m.bus.slot == Some(txn)
  }

  /** The cycle counts against the load: it ends in a deadlock verdict once the window is exceeded. */
  function StarveVerdict(su: Setup, m: CoreState): Option<Outcome>
    requires m.backend.StalledOnLoad?
  {
    if m.starveCycles > su.cfg.deadlockWindow then
      Some(Deadlock(m.cycle, m.itersDone, m.backend.ea, m.lastAliasingFetch, m.starveCycles))
    else None
  }

  lemma FillGoesOn(su: Setup, m: CoreState, target: u32, txn: BusTxn)
    requires Stalled(m, txn) && txn.master == Fetch && txn.remaining > 1 && m.starveCycles < 0xFFFF_FFFF
    ensures var m' := m.(cycle := m.cycle + 1, starveCycles := m.starveCycles + 1,
                         bus := m.bus.(slot := Some(txn.(remaining := txn.remaining - 1))));
            Cycle(su, m, target) == (m', StarveVerdict(su, m'))
  {
    hide Scan, Advanced, Decode;
  }

  /** A fill completes and the fetch engine takes the slot again, ahead of the waiting load. */
  lemma FillRepeats(su: Setup, m: CoreState, target: u32, txn: BusTxn, next: u32)
    requires Stalled(m, txn) && txn.master == Fetch && txn.remaining == 1 && m.starveCycles < 0xFFFF_FFFF
    requires Request(su, m.(ic := Filled(m.ic, txn.addr, Marker(txn.addr)))) == Some(next)
    ensures var m' := m.(cycle := m.cycle + 1, starveCycles := m.starveCycles + 1,
                         ic := Filled(m.ic, txn.addr, Marker(txn.addr)), lastAliasingFetch := Some(next),
                         bus := BusState(Some(BusTxn(Fetch, FillTime(su), next)), Some(next),
                                         m.bus.fetchGrants + 1, m.bus.loadGrants));
            Cycle(su, m, target) == (m', StarveVerdict(su, m'))
  {
    hide Scan, Advanced, Decode, Filled, Marker;
  }

  function GrantedLoad(su: Setup, m: CoreState, ic: Lines): CoreState
    requires m.backend.StalledOnLoad?
  {
    m.(cycle := m.cycle + 1, starveCycles := 0, ic := ic,
       bus := BusState(Some(BusTxn(Load, Max(LoadLatency(su.cfg, m.backend.mmio), 1), m.backend.ea)), None,
                       m.bus.fetchGrants, m.bus.loadGrants + 1))
  }

  /** A fill completes, the fetch engine has nothing to ask, and the load gets the slot. */
  lemma FillYields(su: Setup, m: CoreState, target: u32, txn: BusTxn)
    requires Stalled(m, txn) && txn.master == Fetch && txn.remaining == 1
    requires Request(su, m.(ic := Filled(m.ic, txn.addr, Marker(txn.addr)))) == None
    ensures Cycle(su, m, target) == (GrantedLoad(su, m, Filled(m.ic, txn.addr, Marker(txn.addr))), None)
  {
    hide Scan, Advanced, Decode, Filled, Marker;
  }

  lemma IdleSlotYields(su: Setup, m: CoreState, target: u32)
    requires m.backend.StalledOnLoad? && m.bus.slot == None && Request(su, m) == None
    ensures Cycle(su, m, target) == (GrantedLoad(su, m, m.ic), None)
  {
    hide Scan, Advanced, Decode;
  }

  lemma LoadGoesOn(su: Setup, m: CoreState, target: u32, txn: BusTxn)
    requires Stalled(m, txn) && txn.master == Load && txn.remaining > 1
    ensures Cycle(su, m, target) ==
            (m.(cycle := m.cycle + 1, starveCycles := 0,
                bus := m.bus.(slot := Some(txn.(remaining := txn.remaining - 1)))), None)
  {
    hide Scan, Advanced, Decode;
  }

  // ----- The clashing loop: every fill is followed by another -----

  predicate IsLoopLine(p: PollLoopProgram, line: u32)
    requires Layout(p)
  {
    exists i: nat :: i <= p.coldLines && LoopLine(p, i) == line
  }

  /** The load waits behind a fill: the first one, which was ahead of it, or one that preempted it and is to blame. */
  predicate Starving(su: Setup, m: CoreState)
    requires Layout(su.prog)
  {
    && m.backend == StalledOnLoad(su.prog.status, su.prog.statusMmio)
    && m.fetchPc == su.prog.cold && m.itersDone == 0
    && m.bus.slot.Some? && m.bus.slot.value.master == Fetch && m.bus.slot.value.remaining >= 1
    && IsLoopLine(su.prog, m.bus.slot.value.addr)
    && (m.lastAliasingFetch.None? ==> m.starveCycles + m.bus.slot.value.remaining == FillTime(su))
    && (m.lastAliasingFetch.Some? ==>
          m.starveCycles >= FillTime(su) && m.lastAliasingFetch.value == m.bus.slot.value.addr)
  }

  /** The verdict, its cycle and its diagnosis: the starved load, and the loop line whose fill preempted it, if the
      window outlasts the fill that was under way when the load issued. */
  predicate HangsAt(o: Outcome, su: Setup, cycle: int)
    requires Layout(su.prog)
  {
    && o.Deadlock? && o.cycles == cycle && o.iters == 0
    && o.starvedLoadEa == su.prog.status && o.starveCycles == su.cfg.deadlockWindow + 1
    && (o.aliasingFetchLine.None? <==> su.cfg.deadlockWindow + 1 < FillTime(su))
    && (o.aliasingFetchLine.Some? ==> IsLoopLine(su.prog, o.aliasingFetchLine.value))
  }

  /** Whatever a fill brings in, some line in sight is then missing. */
  lemma SomethingToFetch(su: Setup, ic: Lines) returns (next: u32)
    requires Layout(su.prog) && Clashes(su)
    ensures Scan(su.prog, ic, su.cfg.fetchRunaheadLines, su.prog.cold, [], [], SCAN_CAP) == Some(next)
    ensures IsLoopLine(su.prog, next)
  {
    var p := su.prog;
    var i: nat, j: nat :| i < j <= p.coldLines && j < su.cfg.fetchRunaheadLines
                          && SetOf(LoopLine(p, i)) == SetOf(LoopLine(p, j));
    assert PathPc(p, 0) == p.cold;
    hide LoopLine, SetOf, Holds, Scan, PathPc;
    CollisionKeepsALineOut(p, ic, i, j);
    var f := FirstMissing(p, ic, 0, if Holds(ic, LoopLine(p, j)) then i else j);
    ScanReports(p, ic, su.cfg.fetchRunaheadLines, 0, f);
    next := LoopLine(p, f);
  }

  lemma StarveStep(su: Setup, m: CoreState, target: u32) returns (m': CoreState)
    requires Layout(su.prog) && Clashes(su) && Starving(su, m) && m.starveCycles < 0xFFFF_FFFF
    ensures Starving(su, m') && m'.cycle == m.cycle + 1 && m'.starveCycles == m.starveCycles + 1
    ensures Cycle(su, m, target) == (m', StarveVerdict(su, m'))
  {
    var txn := m.bus.slot.value;
    assert !Quiescing(su);
    hide Cycle, IsLoopLine, Clashes, Layout, Scan, Filled, Marker;
    if txn.remaining > 1 {
      FillGoesOn(su, m, target, txn);
    } else {
      var next := SomethingToFetch(su, Filled(m.ic, txn.addr, Marker(txn.addr)));
      FillRepeats(su, m, target, txn, next);
    }
    m' := Cycle(su, m, target).0;
  }

  lemma {:induction false} StarvesToDeadlock(su: Setup, m: CoreState, target: u32, maxCycles: nat)
    requires Looping(su) && Clashes(su) && Starving(su, m)
    requires m.starveCycles <= su.cfg.deadlockWindow
    requires maxCycles >= m.cycle + su.cfg.deadlockWindow + 1 - m.starveCycles
    ensures HangsAt(RunFrom(su, m, target, maxCycles).1, su, m.cycle + su.cfg.deadlockWindow + 1 - m.starveCycles)
    decreases su.cfg.deadlockWindow - m.starveCycles
  {
    hide RunFrom, Cycle;
    var m' := StarveStep(su, m, target);
    RunStep(su, m, target, maxCycles);
    if m'.starveCycles <= su.cfg.deadlockWindow {
      StarvesToDeadlock(su, m', target, maxCycles);
    }
  }

  // ----- No clash: the cold lines in reach fill one by one, then the load is granted -----

  /** Of the cold lines exactly the first `f` are resident, and the hot line unless a cold one may have evicted it. */
  predicate FilledTo(p: PollLoopProgram, ic: Lines, f: nat)
    requires Layout(p)
  {
    && (forall i: nat :: i < p.coldLines ==> (Holds(ic, LoopLine(p, i)) <==> i < f))
    && (!Collides(p) ==> Holds(ic, p.base))
  }

  /** No cold line before line `f` shares its set. */
  predicate Apart(p: PollLoopProgram, f: nat)
    requires Layout(p) && f < p.coldLines
  {
    forall i: nat :: i < f ==> SetOf(LoopLine(p, i)) != SetOf(LoopLine(p, f))
  }

  lemma NothingInSightCollides(su: Setup, f: nat)
    requires Layout(su.prog) && !Clashes(su) && f < Reach(su)
    ensures f < su.prog.coldLines && Apart(su.prog, f)
  {
  }

  lemma NothingCollides(p: PollLoopProgram, f: nat)
    requires Layout(p) && !Collides(p) && f < p.coldLines
    ensures Apart(p, f)
  {
  }

  /** Cycles the fills after line `f` and before line `end` take. */
  function FillsAfter(su: Setup, f: nat, end: nat): nat {
    if f + 1 < end then Times(end - 1 - f, FillTime(su)) else 0
  }

  lemma FillsAfterStep(su: Setup, f: nat, end: nat)
    requires f + 1 < end
    ensures FillsAfter(su, f, end) == FillTime(su) + FillsAfter(su, f + 1, end)
  {
  }

  /** `f` cold lines and the hot line are in, line `f` is on the bus, and the load will get the slot in
      `left` cycles unless the window runs out first. */
  predicate Filling(su: Setup, m: CoreState, f: nat, left: nat)
    requires Layout(su.prog)
  {
    && Starving(su, m) && f < Reach(su)
    && m.execPc == su.prog.base + 4
    && m.bus.slot.value.addr == LoopLine(su.prog, f)
    && left == m.bus.slot.value.remaining + FillsAfter(su, f, Reach(su))
    && FilledTo(su.prog, m.ic, f)
  }

  /** The load holds the slot for `r` more cycles, with the whole loop resident. */
  predicate Loading(su: Setup, m: CoreState, r: nat, k: nat)
    requires Layout(su.prog)
  {
    && AllResident(su.prog, m.ic)
    && m.backend == StalledOnLoad(su.prog.status, su.prog.statusMmio)
    && m.bus.slot.Some? && m.bus.slot.value.master == Load && m.bus.slot.value.remaining == r >= 1
    && m.execPc == su.prog.base + 4
    && k < PathLength(su.prog) && m.fetchPc == PathPc(su.prog, k)
    && m.starveCycles == 0
  }

  /** The first load holds the slot for `r` more cycles, with the cold lines in reach resident. */
  predicate FirstLoad(su: Setup, m: CoreState, r: nat)
    requires Layout(su.prog)
  {
    && FilledTo(su.prog, m.ic, Reach(su))
    && m.backend == StalledOnLoad(su.prog.status, su.prog.statusMmio)
    && m.bus.slot.Some? && m.bus.slot.value.master == Load && m.bus.slot.value.remaining == r >= 1
    && m.execPc == su.prog.base + 4 && m.fetchPc == su.prog.cold
    && m.starveCycles == 0 && m.itersDone == 0
  }

  lemma FillAdds(p: PollLoopProgram, ic: Lines, f: nat)
    requires Layout(p) && f < p.coldLines && Apart(p, f) && FilledTo(p, ic, f)
    ensures FilledTo(p, Filled(ic, LoopLine(p, f), Marker(LoopLine(p, f))), f + 1)
  {
    var line := LoopLine(p, f);
    var ic' := Filled(ic, line, Marker(line));
    forall i: nat | i < p.coldLines ensures Holds(ic', LoopLine(p, i)) <==> i < f + 1 {
      FillEffect(ic, line, Marker(line), LoopLine(p, i));
      assert LoopLine(p, i) / 32 == line / 32 ==> i == f;
    }
    FillEffect(ic, line, Marker(line), p.base);
    if !Collides(p) {
      assert LoopLine(p, p.coldLines) == p.base;
    }
  }

  /** What the stalled front end asks for at the first cold line. */
  lemma AsksWithinReach(su: Setup, m: CoreState, f: nat)
    requires Looping(su) && !Clashes(su) && 1 <= f <= Reach(su) && FilledTo(su.prog, m.ic, f)
    requires m.backend.StalledOnLoad? && m.fetchPc == su.prog.cold
    ensures Request(su, m) == if f < Reach(su) then Some(LoopLine(su.prog, f)) else None
  {
    assert PathPc(su.prog, 0) == su.prog.cold;
    if !Quiescing(su) && f == Reach(su) && su.cfg.fetchRunaheadLines > su.prog.coldLines {
      SeesAll(su, m.ic);
    }
    hide Scan, PathPc, LoopLine, Clashes, Collides;
    if !Quiescing(su) {
      if f < Reach(su) {
        ScanReports(su.prog, m.ic, su.cfg.fetchRunaheadLines, 0, f);
      } else if su.cfg.fetchRunaheadLines > su.prog.coldLines {
        ScanQuiesces(su.prog, m.ic, su.cfg.fetchRunaheadLines, 0, [], [], SCAN_CAP);
      } else {
        ScanReportsNothing(su.prog, m.ic, su.cfg.fetchRunaheadLines, 0);
      }
    }
  }

  lemma SeesAll(su: Setup, ic: Lines)
    requires Layout(su.prog) && !Clashes(su) && !Quiescing(su) && su.cfg.fetchRunaheadLines > su.prog.coldLines
    requires FilledTo(su.prog, ic, su.prog.coldLines)
    ensures !Collides(su.prog) && AllResident(su.prog, ic)
  {
    hide Holds;
  }

  lemma FillWaits(su: Setup, m: CoreState, target: u32, f: nat, left: nat)
    requires Looping(su) && Filling(su, m, f, left) && m.starveCycles < 0xFFFF_FFFF
    requires m.bus.slot.value.remaining > 1
    ensures var m' := Cycle(su, m, target).0;
            && Filling(su, m', f, left - 1) && m'.cycle == m.cycle + 1 && m'.starveCycles == m.starveCycles + 1
            && Cycle(su, m, target) == (m', StarveVerdict(su, m'))
  {
    FillGoesOn(su, m, target, m.bus.slot.value);
    hide Cycle, FilledTo, FillsAfter, Reach;
  }

  lemma FillAdvances(su: Setup, m: CoreState, target: u32, f: nat, left: nat)
    requires Looping(su) && !Clashes(su) && Filling(su, m, f, left) && m.starveCycles < 0xFFFF_FFFF
    requires m.bus.slot.value.remaining == 1 && f + 1 < Reach(su)
    ensures var m' := Cycle(su, m, target).0;
            && Filling(su, m', f + 1, left - 1) && m'.cycle == m.cycle + 1 && m'.starveCycles == m.starveCycles + 1
            && Cycle(su, m, target) == (m', StarveVerdict(su, m'))
  {
    var txn := m.bus.slot.value;
    NothingInSightCollides(su, f);
    FillAdds(su.prog, m.ic, f);
    hide Request, FilledTo, FillsAfter, Filled, Reach, Clashes, Apart;
    AsksWithinReach(su, m.(ic := Filled(m.ic, txn.addr, Marker(txn.addr))), f + 1);
    FillRepeats(su, m, target, txn, LoopLine(su.prog, f + 1));
    hide Cycle;
    FillsAfterStep(su, f, Reach(su));
  }

  lemma FillFinishes(su: Setup, m: CoreState, target: u32, f: nat, left: nat)
    requires Looping(su) && !Clashes(su) && Filling(su, m, f, left)
    requires m.bus.slot.value.remaining == 1 && f + 1 == Reach(su)
    ensures var m' := Cycle(su, m, target).0;
            && left == 1 && FirstLoad(su, m', LoadTime(su)) && m'.cycle == m.cycle + 1
            && Cycle(su, m, target) == (m', None)
  {
    var txn := m.bus.slot.value;
    NothingInSightCollides(su, f);
    FillAdds(su.prog, m.ic, f);
    hide Request, FilledTo, Filled, Reach, Clashes, Apart;
    AsksWithinReach(su, m.(ic := Filled(m.ic, txn.addr, Marker(txn.addr))), f + 1);
    FillYields(su, m, target, txn);
    hide Cycle;
  }

  lemma FillStep(su: Setup, m: CoreState, target: u32, f: nat, left: nat) returns (m': CoreState, f': nat)
    requires Looping(su) && !Clashes(su) && Filling(su, m, f, left) && m.starveCycles < 0xFFFF_FFFF
    ensures m'.cycle == m.cycle + 1
    ensures left > 1 ==> && Filling(su, m', f', left - 1) && m'.starveCycles == m.starveCycles + 1
                         && Cycle(su, m, target) == (m', StarveVerdict(su, m'))
    ensures left == 1 ==> FirstLoad(su, m', LoadTime(su)) && Cycle(su, m, target) == (m', None)
  {
    hide Cycle, FilledTo, FirstLoad, Reach, Clashes;
    m' := Cycle(su, m, target).0;
    f' := f;
    if m.bus.slot.value.remaining > 1 {
      FillWaits(su, m, target, f, left);
    } else if f + 1 < Reach(su) {
      FillAdvances(su, m, target, f, left);
      FillsAfterStep(su, f, Reach(su));
      f' := f + 1;
    } else {
      FillFinishes(su, m, target, f, left);
    }
  }

  /** A window too short for the fills in reach hangs even a loop that does not clash. */
  lemma {:induction false} FillsOutlastWindow(su: Setup, m: CoreState, target: u32, maxCycles: nat, f: nat, left: nat)
    requires Looping(su) && !Clashes(su) && Filling(su, m, f, left)
    requires m.starveCycles <= su.cfg.deadlockWindow < m.starveCycles + left - 1
    requires maxCycles >= m.cycle + su.cfg.deadlockWindow + 1 - m.starveCycles
    ensures HangsAt(RunFrom(su, m, target, maxCycles).1, su, m.cycle + su.cfg.deadlockWindow + 1 - m.starveCycles)
    decreases left
  {
    hide RunFrom, Cycle, Reach, FillsAfter, FilledTo, Clashes;
    var m', f' := FillStep(su, m, target, f, left);
    RunStep(su, m, target, maxCycles);
    if m'.starveCycles <= su.cfg.deadlockWindow {
      FillsOutlastWindow(su, m', target, maxCycles, f', left - 1);
    }
  }

  lemma {:induction false} FillsThenLoads(su: Setup, m: CoreState, target: u32, maxCycles: nat, f: nat, left: nat)
    returns (m': CoreState)
    requires Looping(su) && !Clashes(su) && Filling(su, m, f, left)
    requires m.starveCycles + left - 1 <= su.cfg.deadlockWindow
    requires maxCycles >= m.cycle + left
    ensures FirstLoad(su, m', LoadTime(su)) && m'.cycle == m.cycle + left
    ensures RunFrom(su, m, target, maxCycles).1 == RunFrom(su, m', target, maxCycles).1
    decreases left
  {
    hide RunFrom, Cycle, Reach, FillsAfter, FilledTo, Clashes;
    var f';
    m', f' := FillStep(su, m, target, f, left);
    RunStep(su, m, target, maxCycles);
    if left > 1 {
      m' := FillsThenLoads(su, m', target, maxCycles, f', left - 1);
    }
  }

  // ----- The resident loop -----

  /** The whole loop is resident, nothing is on the bus, and the backend is at position `j`. */
  predicate Steady(su: Setup, m: CoreState, j: nat, k: nat)
    requires Layout(su.prog)
  {
    && AllResident(su.prog, m.ic) && m.backend == Running && m.bus.slot == None
    && j < PathLength(su.prog) && m.execPc == PathPc(su.prog, j)
    && k < PathLength(su.prog) && m.fetchPc == PathPc(su.prog, k)
    && m.starveCycles == 0
  }

  lemma {:induction false} AdvanceStaysOnPath(p: PollLoopProgram, ic: Lines, k: nat, fuel: nat) returns (k': nat)
    requires Layout(p) && AllResident(p, ic) && k < PathLength(p)
    ensures k' < PathLength(p) && Advanced(p, ic, PathPc(p, k), fuel) == PathPc(p, k')
    decreases fuel
  {
    if fuel == 0 {
      k' := k;
    } else {
      HoldsOnPath(p, ic, k);
      DecodeAt(p, k);
      k' := AdvanceStaysOnPath(p, ic, Succ(p, k), fuel - 1);
    }
  }

  /** The backend's part of a cycle when the instruction and where it goes are both resident. */
  function RetiredResident(su: Setup, m: CoreState, target: u32, kind: Kind, next: u32): (CoreState, Option<Outcome>) {
    match kind
    case LoadOp(ea, mmio) => (m.(execPc := next, backend := StalledOnLoad(ea, mmio)), None)
    case LoopBack(_) =>
      var i := m.itersDone + 1;
      if i >= target then (m.(itersDone := i), Some(Pass(m.cycle, i))) else (m.(itersDone := i, execPc := next), None)
    case _ => (m.(execPc := next), None)
  }

  lemma RetireKnown(su: Setup, m: CoreState, target: u32, kind: Kind, next: u32)
    requires m.backend == Running && Holds(m.ic, m.execPc) && Holds(m.ic, next)
    requires Decode(su.prog, m.execPc) == kind && next == KindNext(kind, m.execPc)
    requires kind.LoadOp? ==> !(su.dcacheOn && !kind.mmio)
    ensures var m' := m.(fetchPc := Advanced(su.prog, m.ic, m.fetchPc, ADVANCE_CAP));
            Retired(su, m, target) == RetiredResident(su, m', target, kind, next)
  {
    hide Advanced, Decode, Holds;
  }

  lemma RetireResident(su: Setup, m: CoreState, target: u32, j: nat, k: nat) returns (m': CoreState, k': nat)
    requires Layout(su.prog) && Steady(su, m, j, k) && (j == 2 * su.prog.coldLines ==> Uncached(su))
    ensures k' < PathLength(su.prog) && m' == m.(fetchPc := PathPc(su.prog, k'))
    ensures Retired(su, m, target)
            == RetiredResident(su, m', target, KindAt(su.prog, j), PathPc(su.prog, Succ(su.prog, j)))
  {
    var p := su.prog;
    hide Scan, Advanced, Decode, DecodeCold, Holds, PathPc, LoopLine, Retired;
    k' := AdvanceStaysOnPath(p, m.ic, k, ADVANCE_CAP);
    m' := m.(fetchPc := PathPc(p, k'));
    HoldsOnPath(p, m.ic, j);
    HoldsOnPath(p, m.ic, Succ(p, j));
    DecodeAt(p, j);
    NextOnPath(p, j);
    RetireKnown(su, m, target, KindAt(p, j), PathPc(p, Succ(p, j)));
  }

  function Unpreempted(m: CoreState): CoreState {
    m.(bus := m.bus.(lastPreemptAddr := None))
  }

  lemma QuietArbitration(su: Setup, m: CoreState, j: nat, k: nat)
    requires Layout(su.prog) && Steady(su, m, j, k)
    ensures Starved(AfterArbitration(su, m)) == Unpreempted(m)
    ensures Steady(su, Unpreempted(m), j, k)
  {
    ScanQuiesces(su.prog, m.ic, su.cfg.fetchRunaheadLines, k, [], [], SCAN_CAP);
    hide Scan, Advanced, Decode, AllResident, PathPc;
  }

  /** A cycle whose tick leaves the loop resident and the bus idle is one retired instruction. */
  lemma SteadyCycle(su: Setup, m: CoreState, target: u32, j: nat, k: nat) returns (m': CoreState, k': nat)
    requires Layout(su.prog) && Steady(su, AfterTick(m), j, k) && (j == 2 * su.prog.coldLines ==> Uncached(su))
    ensures k' < PathLength(su.prog)
    ensures m' == AfterTick(m).(bus := BusState(None, None, m.bus.fetchGrants, m.bus.loadGrants),
                                fetchPc := PathPc(su.prog, k'))
    ensures Cycle(su, m, target)
            == RetiredResident(su, m', target, KindAt(su.prog, j), PathPc(su.prog, Succ(su.prog, j)))
  {
    hide Scan, Advanced, Decode, AllResident, PathPc, Retired, RetiredResident, Filled;
    QuietArbitration(su, AfterTick(m), j, k);
    m', k' := RetireResident(su, Unpreempted(AfterTick(m)), target, j, k);
    hide AfterArbitration;
    assert Waited(su, m) == Unpreempted(AfterTick(m));
  }

  /** Instructions from position `j` to the end of the iteration. */
  function ToLoopBack(p: PollLoopProgram, j: nat): nat
    requires j < PathLength(p)
  {
    if j < 2 * p.coldLines then 2 * p.coldLines - j else PathLength(p) - j + 2 * p.coldLines
  }

  lemma SteadyStep(su: Setup, m: CoreState, target: u32, j: nat, k: nat) returns (m': CoreState, k': nat)
    requires Layout(su.prog) && Steady(su, AfterTick(m), j, k) && j != 2 * su.prog.coldLines
    ensures m'.cycle == m.cycle + 1
    ensures j != 2 * su.prog.coldLines - 1 ==>
              && Steady(su, m', Succ(su.prog, j), k') && m'.itersDone == AfterTick(m).itersDone
              && Cycle(su, m, target) == (m', None)
    ensures j == 2 * su.prog.coldLines - 1 ==>
              if AfterTick(m).itersDone + 1 >= target
              then Cycle(su, m, target).1 == Some(Pass(m.cycle + 1, AfterTick(m).itersDone + 1))
              else && Steady(su, m', 2 * su.prog.coldLines, k') && m'.itersDone == AfterTick(m).itersDone + 1
                   && Cycle(su, m, target) == (m', None)
  {
    hide Cycle, AllResident, PathPc;
    m', k' := SteadyCycle(su, m, target, j, k);
    m' := Cycle(su, m, target).0;
  }

  /** From the hot line's load: one cycle to issue it, one to win the idle bus. */
  lemma SteadyLoad(su: Setup, m: CoreState, target: u32, maxCycles: nat, k: nat) returns (m': CoreState, k': nat)
    requires Layout(su.prog) && Uncached(su)
    requires Steady(su, m, 2 * su.prog.coldLines, k) && maxCycles >= m.cycle + 2
    ensures k' < PathLength(su.prog) && Loading(su, m', LoadTime(su), k')
    ensures m'.cycle == m.cycle + 2 && m'.itersDone == m.itersDone
    ensures RunFrom(su, m, target, maxCycles).1 == RunFrom(su, m', target, maxCycles).1
  {
    var n := su.prog.coldLines;
    hide Cycle, AllResident, RunFrom, Scan;
    assert PathPc(su.prog, 2 * n + 1) == su.prog.base + 4;
    hide PathPc;
    var m1;
    m1, k' := SteadyCycle(su, m, target, 2 * n, k);
    m1 := Cycle(su, m, target).0;
    RunStep(su, m, target, maxCycles);
    ScanQuiesces(su.prog, m1.ic, su.cfg.fetchRunaheadLines, k', [], [], SCAN_CAP);
    IdleSlotYields(su, m1, target);
    RunStep(su, m1, target, maxCycles);
    m' := Cycle(su, m1, target).0;
  }

  lemma {:induction false} FinishesIteration(su: Setup, m: CoreState, target: u32, maxCycles: nat, j: nat, k: nat)
    returns (m': CoreState, k': nat)
    requires Layout(su.prog) && Uncached(su)
    requires Steady(su, m, j, k) && j != 2 * su.prog.coldLines
    requires maxCycles >= m.cycle + ToLoopBack(su.prog, j)
    ensures m.itersDone + 1 >= target ==>
              RunFrom(su, m, target, maxCycles).1 == Pass(m.cycle + ToLoopBack(su.prog, j), m.itersDone + 1)
    ensures m.itersDone + 1 < target && maxCycles >= m.cycle + ToLoopBack(su.prog, j) + 2 ==>
              && k' < PathLength(su.prog) && Loading(su, m', LoadTime(su), k')
              && m'.cycle == m.cycle + ToLoopBack(su.prog, j) + 2 && m'.itersDone == m.itersDone + 1
              && RunFrom(su, m, target, maxCycles).1 == RunFrom(su, m', target, maxCycles).1
    decreases ToLoopBack(su.prog, j)
  {
    hide Cycle, AllResident, RunFrom, PathPc;
    m', k' := SteadyStep(su, m, target, j, k);
    RunStep(su, m, target, maxCycles);
    if j != 2 * su.prog.coldLines - 1 {
      m', k' := FinishesIteration(su, m', target, maxCycles, Succ(su.prog, j), k');
    } else if m.itersDone + 1 < target && maxCycles >= m.cycle + 3 {
      m', k' := SteadyLoad(su, m', target, maxCycles, k');
    }
  }

  lemma {:induction false} LoadsThenRuns(su: Setup, m: CoreState, target: u32, maxCycles: nat, r: nat, k: nat)
    returns (m': CoreState, k': nat)
    requires Layout(su.prog) && Uncached(su) && Loading(su, m, r, k) && k < PathLength(su.prog)
    requires maxCycles >= m.cycle + r
    ensures Steady(su, m', 2 * su.prog.coldLines + 2, k')
    ensures m'.cycle == m.cycle + r && m'.itersDone == m.itersDone
    ensures RunFrom(su, m, target, maxCycles).1 == RunFrom(su, m', target, maxCycles).1
    decreases r
  {
    assert PathPc(su.prog, 2 * su.prog.coldLines + 1) == su.prog.base + 4;
    hide Cycle, AllResident, RunFrom, PathPc;
    RunStep(su, m, target, maxCycles);
    if r > 1 {
      LoadGoesOn(su, m, target, m.bus.slot.value);
      m', k' := LoadsThenRuns(su, Cycle(su, m, target).0, target, maxCycles, r - 1, k);
    } else {
      m', k' := SteadyStep(su, m, target, 2 * su.prog.coldLines + 1, k);
    }
  }

  /** Cycles of one iteration of the resident loop. */
  function Period(su: Setup): nat { 2 * su.prog.coldLines + 3 + LoadTime(su) }

  /** `left` iterations from the cycle a load wins the bus, two cycles short of the next load. */
  function Remaining(su: Setup, left: nat): nat {
    if left == 0 then 0 else Times(left - 1, Period(su)) + LoadTime(su) + 2 * su.prog.coldLines + 1
  }

  lemma RemainingStep(su: Setup, target: u32, left: nat)
    ensures Goal(target) >= target && (Goal(target) > 1 ==> Goal(target) == target)
    ensures Period(su) == LoadTime(su) + 2 * su.prog.coldLines + 3
    ensures Remaining(su, left + 1)
            == LoadTime(su) + 2 * su.prog.coldLines + 1 + (if left == 0 then 0 else 2 + Remaining(su, left))
  {
  }

  /** From one granted load to the next, or to the end of the run. */
  lemma OneIteration(su: Setup, m: CoreState, target: u32, maxCycles: nat, k: nat) returns (m': CoreState, k': nat)
    requires Layout(su.prog) && Uncached(su)
    requires Loading(su, m, LoadTime(su), k) && k < PathLength(su.prog)
    requires maxCycles >= m.cycle + LoadTime(su) + 2 * su.prog.coldLines + 1
    ensures m.itersDone + 1 >= target ==>
              RunFrom(su, m, target, maxCycles).1
              == Pass(m.cycle + LoadTime(su) + 2 * su.prog.coldLines + 1, m.itersDone + 1)
    ensures m.itersDone + 1 < target && maxCycles >= m.cycle + Period(su) ==>
              && k' < PathLength(su.prog) && Loading(su, m', LoadTime(su), k')
              && m'.cycle == m.cycle + Period(su) && m'.itersDone == m.itersDone + 1
              && RunFrom(su, m, target, maxCycles).1 == RunFrom(su, m', target, maxCycles).1
  {
    hide RunFrom, Loading, Steady, LoadTime, PathPc;
    m', k' := LoadsThenRuns(su, m, target, maxCycles, LoadTime(su), k);
    m', k' := FinishesIteration(su, m', target, maxCycles, 2 * su.prog.coldLines + 2, k');
  }

  lemma {:induction false} PassesFromLoad(su: Setup, m: CoreState, target: u32, maxCycles: nat, k: nat, left: nat)
    requires Layout(su.prog) && Uncached(su)
    requires Loading(su, m, LoadTime(su), k) && k < PathLength(su.prog)
    requires left >= 1 && m.itersDone + left == Goal(target)
    requires maxCycles >= m.cycle + Remaining(su, left)
    ensures RunFrom(su, m, target, maxCycles).1 == Pass(m.cycle + Remaining(su, left), Goal(target))
    decreases left
  {
    hide *;
    RemainingStep(su, target, left - 1);
    var m', k' := OneIteration(su, m, target, maxCycles, k);
    if left > 1 {
      PassesFromLoad(su, m', target, maxCycles, k', left - 1);
    }
  }

  // ----- From reset to the first stall -----

  lemma {:induction false} WarmsUp(su: Setup, c: nat, target: u32, maxCycles: nat)
    requires Layout(su.prog) && Uncached(su) && su.cfg.fetchRunaheadLines > 1 && 1 <= c <= FillTime(su) < maxCycles
    ensures RunFrom(su, Warming(su, c), target, maxCycles).1 == RunFrom(su, FirstStall(su), target, maxCycles).1
    decreases FillTime(su) - c
  {
    hide Cycle, RunFrom;
    RunStep(su, Warming(su, c), target, maxCycles);
    if c < FillTime(su) {
      WarmupStep(su, c, target);
      WarmsUp(su, c + 1, target, maxCycles);
    } else {
      WarmupEnds(su, target);
    }
  }

  lemma RunsToFirstStall(su: Setup, target: u32, maxCycles: nat)
    requires Layout(su.prog) && Uncached(su) && su.cfg.fetchRunaheadLines > 1 && maxCycles > FillTime(su)
    ensures RunOutcome(su, target, maxCycles) == RunFrom(su, FirstStall(su), target, maxCycles).1
  {
    hide Cycle;
    RunStep(su, InitialState(su), target, maxCycles);
    WarmupStarts(su, target);
    WarmsUp(su, 1, target, maxCycles);
  }

  lemma FirstStallStarves(su: Setup)
    requires Layout(su.prog)
    ensures var m := FirstStall(su);
            Starving(su, m) && m.cycle == FillTime(su) + 1 && m.starveCycles == 0 && m.itersDone == 0
  {
    assert LoopLine(su.prog, 0) == su.prog.cold;
    hide WarmLines;
  }

  lemma FirstStallFills(su: Setup)
    requires Layout(su.prog) && su.cfg.fetchRunaheadLines > 1
    ensures Filling(su, FirstStall(su), 0, Times(Reach(su), FillTime(su)))
  {
    var p := su.prog;
    HotLineApart(p);
    assert LineOf(p.base) == p.base && LoopLine(p, 0) == p.cold;
    forall i: nat | i < p.coldLines ensures !Holds(WarmLines(su), LoopLine(p, i)) {
      FillEffect(ALL_EMPTY, p.base, Marker(p.base), LoopLine(p, i));
    }
    FillEffect(ALL_EMPTY, p.base, Marker(p.base), p.base);
  }
}
