/** The cycle-driven bus-contention machine: a single-slot fixed-priority bus, a run-ahead
    fetch engine over the direct-mapped I-cache, and a backend that stalls on loads.
    Each class below is specified by functions on the value it holds. */
module Timing {
  import opened Words
  import opened InstructionCache

  datatype TimingConfig = TimingConfig(
    fetchLatency: u32,
    mmioLoadLatency: u32,
    sramLoadLatency: u32,
    fetchRunaheadLines: u32,
    deadlockWindow: u32,
    fetchRunsAheadUnderStall: bool)

  // ----- The bus -----

  datatype BusMaster = Fetch | Load
  datatype BusTxn = BusTxn(master: BusMaster, remaining: u32, addr: u32)
  datatype Completion = Nothing | FetchDone(line: u32) | LoadDone(ea: u32)
  datatype LoadReq = LoadReq(ea: u32, mmio: bool)

  datatype BusState = BusState(
    slot: Option<BusTxn>,
    lastPreemptAddr: Option<u32>,
    fetchGrants: nat,
    loadGrants: nat)

  const IDLE_BUS := BusState(None, None, 0, 0)

  predicate LoadInFlight(b: BusState) {
    b.slot.Some? && b.slot.value.master == Load
  }

  function LoadLatency(cfg: TimingConfig, mmio: bool): nat {
    if mmio then cfg.mmioLoadLatency else cfg.sramLoadLatency
  }

  function Ticked(b: BusState): (BusState, Completion) {
    match b.slot
    case None => (b, Nothing)
    case Some(txn) =>
      var remaining := if txn.remaining == 0 then 0 else txn.remaining - 1;
      if remaining == 0 then
        (b.(slot := None), if txn.master == Fetch then FetchDone(txn.addr) else LoadDone(txn.addr))
      else
        (b.(slot := Some(txn.(remaining := remaining))), Nothing)
  }

  function Arbitrated(cfg: TimingConfig, b: BusState, fetchReq: Option<u32>, loadReq: Option<LoadReq>)
    : (BusState, Option<BusMaster>)
  {
    if b.slot.Some? then
      (b, None)
    else if fetchReq.Some? then
      (BusState(Some(BusTxn(Fetch, Max(cfg.fetchLatency, 1), fetchReq.value)),
                if loadReq.Some? then fetchReq else None, b.fetchGrants + 1, b.loadGrants),
       Some(Fetch))
    else if loadReq.Some? then
      (BusState(Some(BusTxn(Load, Max(LoadLatency(cfg, loadReq.value.mmio), 1), loadReq.value.ea)),
                None, b.fetchGrants, b.loadGrants + 1),
       Some(Load))
    else
      (b.(lastPreemptAddr := None), None)
  }

  /** The bus after `n` ticks with nothing granted in between. */
  function TicksOf(b: BusState, n: nat): BusState { if n == 0 then b else Ticked(TicksOf(b, n - 1)).0 }

  /** A transaction with r cycles to go completes on its r-th tick, never earlier, and holds the slot until then. */
  lemma {:induction false} TransactionTakesItsCycles(b: BusState, txn: BusTxn, n: nat)
    requires b.slot == Some(txn) && 1 <= n <= Max(txn.remaining, 1)
    ensures TicksOf(b, n - 1).slot.Some?
    ensures Ticked(TicksOf(b, n - 1)).1 ==
            if n < Max(txn.remaining, 1) then Nothing
            else if txn.master == Fetch then FetchDone(txn.addr) else LoadDone(txn.addr)
    ensures TicksOf(b, n - 1).slot.value == if n == 1 then txn else txn.(remaining := txn.remaining - (n - 1))
  {
    if n > 1 {
      TransactionTakesItsCycles(b, txn, n - 1);
    }
  }

  class ContentionBus {
    const cfg: TimingConfig
    var slot: Option<BusTxn>
    var lastPreemptAddr: Option<u32>
    var fetchGrants: nat
    var loadGrants: nat

    ghost function State(): BusState reads this {
      BusState(slot, lastPreemptAddr, fetchGrants, loadGrants)
    }

    constructor (cfg: TimingConfig)
      ensures this.cfg == cfg && State() == IDLE_BUS
    {
      this.cfg := cfg;
      slot, lastPreemptAddr, fetchGrants, loadGrants := None, None, 0, 0;
    }

    method Tick() returns (done: Completion)
      modifies this
      ensures (State(), done) == Ticked(old(State()))
    {
      done := Nothing;
      if slot.Some? {
        var txn := slot.value;
        var remaining := if txn.remaining == 0 then 0 else txn.remaining - 1;
        slot := Some(txn.(remaining := remaining));
        if remaining == 0 {
          slot := None;
          match txn.master
          case Fetch => done := FetchDone(txn.addr);
          case Load => done := LoadDone(txn.addr);
        }
      }
    }

    method Arbitrate(fetchReq: Option<u32>, loadReq: Option<LoadReq>) returns (granted: Option<BusMaster>)
      modifies this
      ensures (State(), granted) == Arbitrated(cfg, old(State()), fetchReq, loadReq)
    {
      if slot.Some? {
        return None;
      }
      lastPreemptAddr := None;
      if fetchReq.Some? {
        if loadReq.Some? {
          lastPreemptAddr := fetchReq;
        }
        slot := Some(BusTxn(Fetch, Max(cfg.fetchLatency, 1), fetchReq.value));
        fetchGrants := fetchGrants + 1;
        return Some(Fetch);
      }
      if loadReq.Some? {
        slot := Some(BusTxn(Load, Max(LoadLatency(cfg, loadReq.value.mmio), 1), loadReq.value.ea));
        loadGrants := loadGrants + 1;
        return Some(Load);
      }
      granted := None;
    }
  }

  // ----- The synthetic poll loop -----

  datatype Kind = Alu | LoadOp(ea: u32, mmio: bool) | Branch(target: u32) | LoopBack(target: u32)

  datatype PollLoopProgram = PollLoopProgram(
    base: u32, cold: u32, coldLines: u32, status: u32, statusMmio: bool)

  const INSN_SIZE := 4

  function Decode(p: PollLoopProgram, pc: u32): Kind {
    if pc == p.base then LoadOp(p.status, p.statusMmio)
    else if pc == Wrap(p.base + 4) then Alu
    else if pc == Wrap(p.base + 8) then Branch(p.cold)
    else DecodeCold(p, pc, 0)
  }

  function DecodeCold(p: PollLoopProgram, pc: u32, i: nat): Kind
    decreases p.coldLines - i
  {
    if i >= p.coldLines then Alu
    else
      var ci := Wrap(p.cold + i * LINE_SIZE);
      if pc == ci then Alu
      else if pc == Wrap(ci + 4) then
        if i + 1 < p.coldLines then Branch(Wrap(p.cold + (i + 1) * LINE_SIZE)) else LoopBack(p.base)
      else DecodeCold(p, pc, i + 1)
  }

  function PredictedNext(p: PollLoopProgram, pc: u32): u32 {
    match Decode(p, pc)
    case Branch(target) => target
    case LoopBack(target) => target
    case _ => Wrap(pc + INSN_SIZE)
  }

  // ----- The core -----

  datatype Outcome =
    | Pass(cycles: nat, iters: nat)
    | Deadlock(cycles: nat, iters: nat, starvedLoadEa: u32, aliasingFetchLine: Option<u32>, starveCycles: u32)
    | Timeout(cycles: nat, iters: nat)

  datatype Backend = Running | StalledOnLoad(ea: u32, mmio: bool)

  /** What never changes during a run. */
  datatype Setup = Setup(prog: PollLoopProgram, cfg: TimingConfig, dcacheOn: bool)

  datatype CoreState = CoreState(
    ic: Lines, bus: BusState, execPc: u32, backend: Backend, fetchPc: u32,
    cycle: nat, itersDone: nat, starveCycles: u32, lastAliasingFetch: Option<u32>)

  function InitialState(su: Setup): CoreState {
    CoreState(ALL_EMPTY, IDLE_BUS, su.prog.base, Running, su.prog.base, 0, 0, 0, None)
  }

  const SCAN_CAP := 4096
  const ADVANCE_CAP := 8

  /** The fetch engine's walk along predicted flow: the first missing line, or None once it
      has seen `runahead` distinct resident lines or closed a loop. */
  function Scan(p: PollLoopProgram, ic: Lines, runahead: u32, pc: u32,
                distinct: seq<u32>, visited: seq<u32>, fuel: nat): Option<u32>
    decreases fuel, pc
  {
    if fuel == 0 then None
    else if !Holds(ic, pc) then Some(LineOf(pc))
    else
      var line := LineOf(pc);
      var distinct' := if line in distinct then distinct else distinct + [line];
      if line !in distinct && |distinct'| >= runahead then None
      else if pc in visited then None
      else Scan(p, ic, runahead, PredictedNext(p, pc), distinct', visited + [pc], fuel - 1)
  }

  function Request(su: Setup, m: CoreState): Option<u32> {
    if !su.cfg.fetchRunsAheadUnderStall && m.backend.StalledOnLoad? then None
    else Scan(su.prog, m.ic, su.cfg.fetchRunaheadLines, m.fetchPc, [], [], SCAN_CAP)
  }

  function Advanced(p: PollLoopProgram, ic: Lines, pc: u32, fuel: nat): u32
    decreases fuel, pc
  {
    if fuel == 0 || !Holds(ic, pc) then pc else Advanced(p, ic, PredictedNext(p, pc), fuel - 1)
  }

  function Redirected(ic: Lines, fetchPc: u32, target: u32): u32 {
    if !Holds(ic, target) then target else fetchPc
  }

  /** The I-cache contents are irrelevant to timing; a fill only marks the line. */
  function Marker(line: u32): LineData {
    [line / 0x100_0000] + Repeat(0, 31)
  }

  function PendingLoad(b: Backend): Option<LoadReq> {
    if b.StalledOnLoad? then Some(LoadReq(b.ea, b.mmio)) else None
  }

  // One cycle in the order the core takes it: bus completion, arbitration, starvation
  // check, then at most one retired instruction.

  function AfterTick(m: CoreState): CoreState {
    var (bus, done) := Ticked(m.bus);
    var m' := m.(cycle := m.cycle + 1, bus := bus);
    match done
    case FetchDone(line) => m'.(ic := Filled(m.ic, line, Marker(line)))
    case LoadDone(_) => m'.(backend := Running)
    case Nothing => m'
  }

  function AfterArbitration(su: Setup, m: CoreState): CoreState {
    var (bus, granted) := Arbitrated(su.cfg, m.bus, Request(su, m), PendingLoad(m.backend));
    m.(bus := bus, lastAliasingFetch :=
      if granted == Some(Fetch) && bus.lastPreemptAddr.Some? then bus.lastPreemptAddr else m.lastAliasingFetch)
  }

  function Starved(m: CoreState): CoreState {
    m.(starveCycles :=
      if m.backend.StalledOnLoad? && !LoadInFlight(m.bus) then Wrap(m.starveCycles + 1) else 0)
  }

  predicate DeadlockDeclared(su: Setup, m: CoreState) {
    m.backend.StalledOnLoad? && !LoadInFlight(m.bus) && m.starveCycles > su.cfg.deadlockWindow
  }

  function Retired(su: Setup, m: CoreState, target: u32): (CoreState, Option<Outcome>) {
    if m.backend.StalledOnLoad? then (m, None)
    else
      var m1 := m.(fetchPc := Advanced(su.prog, m.ic, m.fetchPc, ADVANCE_CAP));
      if !Holds(m1.ic, m1.execPc) then (m1, None)
      else
        match Decode(su.prog, m1.execPc)
        case Alu => (m1.(execPc := Wrap(m1.execPc + INSN_SIZE)), None)
        case Branch(t) => (m1.(execPc := t, fetchPc := Redirected(m1.ic, m1.fetchPc, t)), None)
        case LoopBack(t) =>
          var m2 := m1.(itersDone := m1.itersDone + 1);
          if m2.itersDone >= target then (m2, Some(Pass(m2.cycle, m2.itersDone)))
          else (m2.(execPc := t, fetchPc := Redirected(m2.ic, m2.fetchPc, t)), None)
        case LoadOp(ea, mmio) =>
          var m2 := m1.(execPc := Wrap(m1.execPc + INSN_SIZE));
          if su.dcacheOn && !mmio then (m2, None) else (m2.(backend := StalledOnLoad(ea, mmio)), None)
  }

  function Waited(su: Setup, m: CoreState): CoreState {
    Starved(AfterArbitration(su, AfterTick(m)))
  }

  function Cycle(su: Setup, m: CoreState, target: u32): (r: (CoreState, Option<Outcome>))
    ensures r.0.cycle == m.cycle + 1
  {
    var m' := Waited(su, m);
    if DeadlockDeclared(su, m') then
      (m', Some(Deadlock(m'.cycle, m'.itersDone, m'.backend.ea, m'.lastAliasingFetch, m'.starveCycles)))
    else Retired(su, m', target)
  }

  function RunFrom(su: Setup, m: CoreState, target: u32, maxCycles: nat): (CoreState, Outcome)
    decreases maxCycles - m.cycle
  {
    if m.cycle >= maxCycles then (m, Timeout(m.cycle, m.itersDone))
    else
      var (m', outcome) := Cycle(su, m, target);
      if outcome.Some? then (m', outcome.value) else RunFrom(su, m', target, maxCycles)
  }

  function RunOutcome(su: Setup, target: u32, maxCycles: nat): Outcome {
    RunFrom(su, InitialState(su), target, maxCycles).1
  }

  class MiniCore {
    const prog: PollLoopProgram
    const cfg: TimingConfig
    const dcacheOn: bool
    const ic: ICache
    const bus: ContentionBus
    var execPc: u32
    var backend: Backend
    var fetchPc: u32
    var cycle: nat
    var itersDone: nat
    var starveCycles: u32
    var lastAliasingFetch: Option<u32>

    ghost predicate Valid() reads this, ic {
      ic.Valid() && bus.cfg == cfg
    }

    ghost function TheSetup(): Setup {
      Setup(prog, cfg, dcacheOn)
    }

    ghost function State(): CoreState
      reads this, ic, ic.lines, bus
      requires Valid()
    {
      CoreState(ic.Contents(), bus.State(), execPc, backend, fetchPc, cycle, itersDone, starveCycles,
                lastAliasingFetch)
    }

    constructor (prog: PollLoopProgram, cfg: TimingConfig, dcacheOn: bool)
      ensures Valid() && fresh(ic) && fresh(ic.lines) && fresh(bus)
      ensures TheSetup() == Setup(prog, cfg, dcacheOn)
      ensures State() == InitialState(TheSetup())
    {
      this.prog, this.cfg, this.dcacheOn := prog, cfg, dcacheOn;
      ic := new ICache();
      bus := new ContentionBus(cfg);
      execPc, backend, fetchPc := prog.base, Running, prog.base;
      cycle, itersDone, starveCycles, lastAliasingFetch := 0, 0, 0, None;
    }

    method FetchRequest() returns (req: Option<u32>)
      requires Valid()
      ensures req == Request(TheSetup(), State())
    {
      if !cfg.fetchRunsAheadUnderStall && backend.StalledOnLoad? {
        return None;
      }
      var pc := fetchPc;
      var distinctLines: seq<u32> := [];
      var visited: seq<u32> := [];
      for step := 0 to SCAN_CAP
        invariant Request(TheSetup(), State())
               == Scan(prog, ic.Contents(), cfg.fetchRunaheadLines, pc, distinctLines, visited, SCAN_CAP - step)
      {
        if !ic.Contains(pc) {
          return Some(LineOf(pc));
        }
        var line := LineOf(pc);
        if line !in distinctLines {
          distinctLines := distinctLines + [line];
          if |distinctLines| >= cfg.fetchRunaheadLines {
            return None;
          }
        }
        if pc in visited {
          return None;
        }
        visited := visited + [pc];
        pc := PredictedNext(prog, pc);
      }
      req := None;
    }

    method AdvanceFetchPointer()
      requires Valid()
      modifies `fetchPc
      ensures fetchPc == Advanced(prog, ic.Contents(), old(fetchPc), ADVANCE_CAP)
    {
      for step := 0 to ADVANCE_CAP
        invariant Advanced(prog, ic.Contents(), old(fetchPc), ADVANCE_CAP)
               == Advanced(prog, ic.Contents(), fetchPc, ADVANCE_CAP - step)
      {
        if !ic.Contains(fetchPc) {
          break;
        }
        fetchPc := PredictedNext(prog, fetchPc);
      }
    }

    method RedirectFetch(target: u32)
      requires Valid()
      modifies `fetchPc
      ensures fetchPc == Redirected(ic.Contents(), old(fetchPc), target)
    {
      if !ic.Contains(target) {
        fetchPc := target;
      }
    }

    method CompleteTransaction()
      requires Valid()
      modifies this, ic.lines, bus
      ensures Valid()
      ensures State() == AfterTick(old(State()))
    {
      cycle := cycle + 1;
      var done := bus.Tick();
      match done {
        case FetchDone(line) => ic.FillLine(line, Marker(line));
        case LoadDone(_) => backend := Running;
        case Nothing =>
      }
    }

    method ArbitrateSlot()
      requires Valid()
      modifies this, bus
      ensures Valid()
      ensures State() == AfterArbitration(TheSetup(), old(State()))
    {
      var fetchReq := FetchRequest();
      var granted := bus.Arbitrate(fetchReq, PendingLoad(backend));
      if granted == Some(Fetch) && bus.lastPreemptAddr.Some? {
        lastAliasingFetch := bus.lastPreemptAddr;
      }
    }

    /** Steps 1 to 4 of a cycle: everything before the backend retires an instruction. */
    method WaitOneCycle()
      requires Valid()
      modifies this, ic.lines, bus
      ensures Valid()
      ensures State() == Waited(TheSetup(), old(State()))
    {
      CompleteTransaction();
      ArbitrateSlot();
      if backend.StalledOnLoad? && !(bus.slot.Some? && bus.slot.value.master == Load) {
        starveCycles := Wrap(starveCycles + 1);
      } else {
        starveCycles := 0;
      }
    }

    /** Step 5 of a cycle. */
    method RetireOne(target: u32) returns (outcome: Option<Outcome>)
      requires Valid()
      modifies this
      ensures Valid()
      ensures (State(), outcome) == Retired(TheSetup(), old(State()), target)
    {
      outcome := None;
      if backend.StalledOnLoad? {
        return;
      }
      AdvanceFetchPointer();
      if !ic.Contains(execPc) {
        return;
      }
      match Decode(prog, execPc) {
        case Alu =>
          execPc := Wrap(execPc + INSN_SIZE);
        case Branch(t) =>
          execPc := t;
          RedirectFetch(t);
        case LoopBack(t) =>
          itersDone := itersDone + 1;
          if itersDone >= target {
            return Some(Pass(cycle, itersDone));
          }
          execPc := t;
          RedirectFetch(t);
        case LoadOp(ea, mmio) =>
          execPc := Wrap(execPc + INSN_SIZE);
          if !(dcacheOn && !mmio) {
            backend := StalledOnLoad(ea, mmio);
          }
      }
    }

    method Run(target: u32, maxCycles: nat) returns (outcome: Outcome)
      requires Valid()
      modifies this, ic.lines, bus
      ensures Valid()
      ensures (State(), outcome) == RunFrom(TheSetup(), old(State()), target, maxCycles)
    {
      while cycle < maxCycles
        invariant Valid()
        invariant RunFrom(TheSetup(), old(State()), target, maxCycles)
               == RunFrom(TheSetup(), State(), target, maxCycles)
        decreases maxCycles - cycle
      {
        WaitOneCycle();
        if backend.StalledOnLoad? && !(bus.slot.Some? && bus.slot.value.master == Load)
           && starveCycles > cfg.deadlockWindow {
          return Deadlock(cycle, itersDone, backend.ea, lastAliasingFetch, starveCycles);
        }
        var retired := RetireOne(target);
        if retired.Some? {
          return retired.value;
        }
      }
      outcome := Timeout(cycle, itersDone);
    }
  }
}
