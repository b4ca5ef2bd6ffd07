/** The verdict of a whole run: which layouts hang, which pass, and at which cycle. */
module Deadlocks {
  import opened Words
  import opened InstructionCache
  import opened Timing
  import opened PollLoop
  import opened PollRuns

  // ----- The first iteration: the backend follows the fills still to come -----

  /** Position of the instruction `x` retirements after the first load. */
  function ExecAt(p: PollLoopProgram, x: nat): (j: nat)
    requires x <= 2 * p.coldLines
    ensures j < PathLength(p)
  {
    if x < 2 then 2 * p.coldLines + 1 + x else x - 2
  }

  /** The backend runs at `x` behind the fills: exactly the first `f` cold lines and the hot line are in,
      and the fetch engine has got to line `i`. */
  predicate Behind(su: Setup, m: CoreState, x: nat, f: nat, i: nat)
    requires Layout(su.prog)
  {
    && !Collides(su.prog) && i <= f < su.prog.coldLines && FilledTo(su.prog, m.ic, f)
    && m.backend == Running && m.itersDone == 0
    && x <= 2 + 2 * f && m.execPc == PathPc(su.prog, ExecAt(su.prog, x))
    && m.fetchPc == PathPc(su.prog, 2 * i)
  }

  /** The same with line `f` on the bus for `left` more cycles and the line after it in sight. */
  predicate Lagging(su: Setup, m: CoreState, x: nat, f: nat, i: nat, left: nat)
    requires Layout(su.prog)
  {
    && Behind(su, m, x, f, i) && f + 2 - i <= su.cfg.fetchRunaheadLines
    && m.starveCycles == 0 && 1 <= left <= FillTime(su)
    && m.bus.slot == Some(BusTxn(Fetch, left, LoopLine(su.prog, f)))
  }

  function Nearer(i: nat, f: nat): nat { if i + 4 < f then i + 4 else f }

  lemma AdvanceOneLine(p: PollLoopProgram, ic: Lines, i: nat, fuel: nat)
    requires Layout(p) && i < p.coldLines && Holds(ic, LoopLine(p, i)) && fuel >= 2
    ensures Advanced(p, ic, PathPc(p, 2 * i), fuel) == Advanced(p, ic, PathPc(p, 2 * i + 2), fuel - 2)
  {
    hide *;
    NextOfPath(p, 2 * i);
    NextOfPath(p, 2 * i + 1);
    assert 2 * i / 2 == i && (2 * i + 1) / 2 == i;
    HoldsOnPath(p, ic, 2 * i);
    HoldsOnPath(p, ic, 2 * i + 1);
    DecodeAt(p, 2 * i);
    DecodeAt(p, 2 * i + 1);
    AdvanceStep(p, ic, PathPc(p, 2 * i), fuel);
    AdvanceStep(p, ic, PathPc(p, 2 * i + 1), fuel - 1);
  }

  lemma AdvanceStopsAt(p: PollLoopProgram, ic: Lines, f: nat, fuel: nat)
    requires Layout(p) && f <= p.coldLines && !Holds(ic, LoopLine(p, f))
    ensures Advanced(p, ic, PathPc(p, 2 * f), fuel) == PathPc(p, 2 * f)
  {
    HoldsOnPath(p, ic, 2 * f);
    hide PathPc, Holds;
    if fuel > 0 {
      AdvanceEnds(p, ic, PathPc(p, 2 * f), fuel);
    }
  }

  /** The fetch pointer moves up to `c` cold lines on, stopping at the first missing one. */
  lemma {:induction false} AdvanceLines(p: PollLoopProgram, ic: Lines, i: nat, f: nat, c: nat)
    requires Layout(p) && i <= f < p.coldLines && FilledTo(p, ic, f)
    ensures Advanced(p, ic, PathPc(p, 2 * i), 2 * c) == PathPc(p, 2 * if i + c < f then i + c else f)
    decreases c
  {
    hide *;
    FilledAt(p, ic, f, i);
    if i == f {
      AdvanceStopsAt(p, ic, f, 2 * c);
    } else if c > 0 {
      AdvanceOneLine(p, ic, i, 2 * c);
      AdvanceLines(p, ic, i + 1, f, c - 1);
    } else {
      NextOfPath(p, 2 * i);
      NoAdvance(p, ic, PathPc(p, 2 * i));
    }
  }

  lemma FilledAt(p: PollLoopProgram, ic: Lines, f: nat, i: nat)
    requires Layout(p) && i < p.coldLines && FilledTo(p, ic, f)
    ensures Holds(ic, LoopLine(p, i)) <==> i < f
  {
  }

  lemma NoAdvance(p: PollLoopProgram, ic: Lines, pc: u32)
    ensures Advanced(p, ic, pc, 0) == pc
  {
  }

  /** The backend's part of a cycle when the next instruction may be missing. */
  lemma RetireForward(su: Setup, m: CoreState, target: u32, kind: Kind, next: u32)
    requires m.backend == Running && Holds(m.ic, m.execPc)
    requires Decode(su.prog, m.execPc) == kind && next == KindNext(kind, m.execPc)
    requires kind.Alu? || kind.Branch?
    ensures var ahead := Advanced(su.prog, m.ic, m.fetchPc, ADVANCE_CAP);
            Retired(su, m, target)
            == (m.(fetchPc := if kind.Alu? then ahead else Redirected(m.ic, ahead, next), execPc := next), None)
  {
    hide Advanced, Decode, Holds;
  }

  lemma RetireNothing(su: Setup, m: CoreState, target: u32)
    requires m.backend == Running && !Holds(m.ic, m.execPc)
    ensures Retired(su, m, target) == (m.(fetchPc := Advanced(su.prog, m.ic, m.fetchPc, ADVANCE_CAP)), None)
  {
    hide Advanced, Decode, Holds;
  }

  /** The instruction at `x` is resident exactly when the fills are past it. */
  lemma ExecResidency(p: PollLoopProgram, ic: Lines, x: nat, f: nat)
    requires Layout(p) && !Collides(p) && f < p.coldLines && x <= 2 + 2 * f && FilledTo(p, ic, f)
    ensures Holds(ic, PathPc(p, ExecAt(p, x))) <==> x < 2 + 2 * f
  {
    var j := ExecAt(p, x);
    HoldsOnPath(p, ic, j);
    assert x < 2 ==> PathLine(p, j) == p.coldLines;
    assert x >= 2 ==> PathLine(p, j) == (x - 2) / 2;
    hide PathPc, LoopLine, Holds, Layout;
  }

  /** Before line `f` only arithmetic and branches into the line after are met. */
  lemma ExecKind(p: PollLoopProgram, x: nat)
    requires Layout(p) && x < 2 * p.coldLines
    ensures var j := ExecAt(p, x);
            && Succ(p, j) == ExecAt(p, x + 1) && (KindAt(p, j).Alu? || KindAt(p, j).Branch?)
  {
    hide LoopLine, Layout;
  }

  /** A retirement behind the fills; a branch to the missing line takes the fetch pointer there. */
  lemma RetireOneBehind(su: Setup, m: CoreState, target: u32, x: nat, f: nat, i: nat) returns (i': nat)
    requires Layout(su.prog) && Behind(su, m, x, f, i) && x < 2 + 2 * f
    requires Advanced(su.prog, m.ic, m.fetchPc, ADVANCE_CAP) == PathPc(su.prog, 2 * Nearer(i, f))
    ensures Nearer(i, f) <= i' <= f
    ensures Retired(su, m, target)
            == (m.(execPc := PathPc(su.prog, ExecAt(su.prog, x + 1)), fetchPc := PathPc(su.prog, 2 * i')), None)
  {
    var p := su.prog;
    var j := ExecAt(p, x);
    ExecResidency(p, m.ic, x, f);
    ExecResidency(p, m.ic, x + 1, f);
    i' := if !Holds(m.ic, PathPc(p, Succ(p, j))) && KindAt(p, j).Branch? then f else Nearer(i, f);
    hide Advanced, Retired, FilledTo, Decode, PathPc, Holds, LoopLine, Layout, KindAt;
    ExecKind(p, x);
    DecodeAt(p, j);
    NextOnPath(p, j);
    RetireForward(su, m, target, KindAt(p, j), PathPc(p, Succ(p, j)));
  }

  /** One retirement, or none, behind the fills. */
  lemma RetireBehind(su: Setup, m: CoreState, target: u32, x: nat, f: nat, i: nat) returns (x': nat, i': nat)
    requires Layout(su.prog) && Behind(su, m, x, f, i)
    ensures x' == (if x < 2 + 2 * f then x + 1 else x) && Nearer(i, f) <= i' <= f
    ensures Retired(su, m, target)
            == (m.(execPc := PathPc(su.prog, ExecAt(su.prog, x')), fetchPc := PathPc(su.prog, 2 * i')), None)
  {
    hide Advanced, Retired, FilledTo, Decode, PathPc, Holds, LoopLine, Layout;
    AdvanceLines(su.prog, m.ic, i, f, 4);
    if x < 2 + 2 * f {
      x' := x + 1;
      i' := RetireOneBehind(su, m, target, x, f, i);
    } else {
      x', i' := x, Nearer(i, f);
      ExecResidency(su.prog, m.ic, x, f);
      RetireNothing(su, m, target);
    }
  }

  /** A cycle of a running backend is its wait and then its retirement. */
  lemma RunningCycle(su: Setup, m: CoreState, target: u32, w: CoreState)
    requires Waited(su, m) == w && w.backend == Running
    ensures Cycle(su, m, target) == Retired(su, w, target)
  {
    hide Waited, Retired;
  }

  /** An idle bus behind the fills: the front end asks for line `f` if it sees it, and the load does not compete. */
  lemma RunningWaits(su: Setup, m: CoreState, t: CoreState, req: Option<u32>)
    requires AfterTick(m) == t && t.backend == Running && t.bus.slot == None && Request(su, t) == req
    ensures var slot := if req.Some? then Some(BusTxn(Fetch, FillTime(su), req.value)) else None;
            Waited(su, m) == t.(starveCycles := 0,
                                bus := BusState(slot, None, t.bus.fetchGrants + (if req.Some? then 1 else 0),
                                                t.bus.loadGrants))
  {
    hide AfterTick, Request;
  }

  lemma GrantsFill(su: Setup, m: CoreState, target: u32, x: nat, f: nat, i: nat) returns (m': CoreState, x': nat, i': nat)
    requires RunsAhead(su) && Behind(su, AfterTick(m), x, f, i) && AfterTick(m).bus.slot == None
    requires f - i < su.cfg.fetchRunaheadLines
    ensures x' == if x < 2 + 2 * f then x + 1 else x
    ensures Lagging(su, m', x', f, i', FillTime(su)) && m'.cycle == m.cycle + 1
    ensures Cycle(su, m, target) == (m', None)
  {
    var p, t := su.prog, AfterTick(m);
    forall l: nat | l <= f ensures Holds(t.ic, LoopLine(p, l)) <==> l < f {
      FilledAt(p, t.ic, f, l);
    }
    assert t.cycle == m.cycle + 1;
    hide AfterTick, FilledTo, Holds, LoopLine, PathPc, Scan;
    ScanReports(p, t.ic, su.cfg.fetchRunaheadLines, i, f);
    RunningWaits(su, m, t, Some(LoopLine(p, f)));
    hide Request;
    var w := Waited(su, m);
    x', i' := RetireBehind(su, w, target, x, f, i);
    hide Waited, Retired;
    RunningCycle(su, m, target, w);
    hide Cycle;
    m' := Cycle(su, m, target).0;
  }

  lemma GrantsNothing(su: Setup, m: CoreState, target: u32, x: nat, f: nat, i: nat) returns (m': CoreState, x': nat, i': nat)
    requires RunsAhead(su) && Behind(su, AfterTick(m), x, f, i) && AfterTick(m).bus.slot == None
    requires Request(su, AfterTick(m)) == None
    ensures x' == (if x < 2 + 2 * f then x + 1 else x) && i' >= Nearer(i, f)
    ensures Behind(su, m', x', f, i') && m'.bus.slot == None && m'.cycle == m.cycle + 1
    ensures Cycle(su, m, target) == (m', None)
  {
    var t := AfterTick(m);
    assert t.cycle == m.cycle + 1;
    hide AfterTick, FilledTo, PathPc, Request;
    RunningWaits(su, m, t, None);
    var w := Waited(su, m);
    x', i' := RetireBehind(su, w, target, x, f, i);
    hide Waited, Retired;
    RunningCycle(su, m, target, w);
    hide Cycle;
    m' := Cycle(su, m, target).0;
  }

  /** The fill ahead of a running backend goes on. */
  lemma LagWaits(su: Setup, m: CoreState, target: u32, x: nat, f: nat, i: nat, left: nat)
    returns (m': CoreState, x': nat, i': nat)
    requires RunsAhead(su) && Lagging(su, m, x, f, i, left) && left > 1
    ensures x' == if x < 2 + 2 * f then x + 1 else x
    ensures Lagging(su, m', x', f, i', left - 1) && m'.cycle == m.cycle + 1
    ensures Cycle(su, m, target) == (m', None)
  {
    hide FilledTo, LoopLine, PathPc, Request;
    var w := Waited(su, m);
    assert w == m.(cycle := m.cycle + 1, starveCycles := 0,
                   bus := m.bus.(slot := Some(BusTxn(Fetch, left - 1, LoopLine(su.prog, f)))));
    hide Waited;
    x', i' := RetireBehind(su, w, target, x, f, i);
    hide Retired;
    RunningCycle(su, m, target, w);
    hide Cycle;
    m' := Cycle(su, m, target).0;
  }

  /** The line ahead of a running backend arrives. */
  lemma FillArrives(su: Setup, m: CoreState, x: nat, f: nat, i: nat)
    requires Layout(su.prog) && !Collides(su.prog) && Lagging(su, m, x, f, i, 1)
    ensures var t := AfterTick(m);
            && t == m.(cycle := m.cycle + 1, ic := t.ic, bus := m.bus.(slot := None))
            && FilledTo(su.prog, t.ic, f + 1)
            && (f + 1 < su.prog.coldLines ==> Behind(su, t, x, f + 1, i))
  {
    NothingCollides(su.prog, f);
    FillAdds(su.prog, m.ic, f);
    hide FilledTo, Filled, PathPc;
  }

  /** Cycles to the end of the first iteration: the backend's own, or those of the fills and the last line. */
  function LagTime(su: Setup, x: nat, f: nat, left: nat): int {
    Max(2 * su.prog.coldLines + 2 - x, left + FillsAfter(su, f, su.prog.coldLines) + 1)
  }

  lemma LagTimeStep(su: Setup, x: nat, f: nat, left: nat)
    requires f < su.prog.coldLines && 1 <= left <= FillTime(su) && x <= 2 + 2 * f
    ensures x == 2 + 2 * f && left > 1 ==> LagTime(su, x, f, left - 1) == LagTime(su, x, f, left) - 1
    ensures x < 2 + 2 * f && left > 1 ==> LagTime(su, x + 1, f, left - 1) == LagTime(su, x, f, left) - 1
    ensures left == 1 && f + 1 < su.prog.coldLines ==>
              LagTime(su, x + 1, f + 1, FillTime(su)) == LagTime(su, x, f, left) - 1
    ensures left == 1 && f + 1 == su.prog.coldLines ==> LagTime(su, x, f, left) == 2 * su.prog.coldLines + 2 - x
  {
    if f + 1 < su.prog.coldLines {
      FillsAfterStep(su, f, su.prog.coldLines);
      if left > 1 {
        FillsTakeTwo(su, f);
      }
    }
  }

  lemma {:induction false} FillsTakeTwo(su: Setup, f: nat)
    requires f < su.prog.coldLines && FillTime(su) >= 2
    ensures FillsAfter(su, f, su.prog.coldLines) >= 2 * (su.prog.coldLines - 1 - f)
    decreases su.prog.coldLines - f
  {
    if f + 1 < su.prog.coldLines {
      FillsAfterStep(su, f, su.prog.coldLines);
      FillsTakeTwo(su, f + 1);
    }
  }

  lemma LastFillArrives(su: Setup, m: CoreState, x: nat, f: nat, i: nat)
    requires Layout(su.prog) && !Collides(su.prog) && Lagging(su, m, x, f, i, 1) && f + 1 == su.prog.coldLines
    ensures Steady(su, AfterTick(m), ExecAt(su.prog, x), 2 * i)
  {
    FillArrives(su, m, x, f, i);
    hide AfterTick, Holds, PathPc, LoopLine;
  }

  lemma ToLoopBackAt(p: PollLoopProgram, x: nat)
    requires Layout(p) && x <= 2 * p.coldLines
    ensures var j := ExecAt(p, x);
            && j != 2 * p.coldLines && j != 2 * p.coldLines - 1 && Succ(p, j) != 2 * p.coldLines
            && ToLoopBack(p, Succ(p, j)) == 2 * p.coldLines + 1 - x
  {
  }

  lemma LagShape(su: Setup, m: CoreState, x: nat, f: nat, i: nat, left: nat)
    requires Layout(su.prog) && Lagging(su, m, x, f, i, left)
    ensures i <= f < su.prog.coldLines && x <= 2 + 2 * f && x <= 2 * su.prog.coldLines
    ensures 1 <= left <= FillTime(su) && f + 2 - i <= su.cfg.fetchRunaheadLines
  {
  }

  lemma LagStep(su: Setup, m: CoreState, target: u32, x: nat, f: nat, i: nat, left: nat)
    returns (m': CoreState, x': nat, f': nat, i': nat, left': nat)
    requires RunsAhead(su) && !Collides(su.prog) && Lagging(su, m, x, f, i, left)
    requires left > 1 || f + 1 < su.prog.coldLines
    ensures Lagging(su, m', x', f', i', left') && m'.cycle == m.cycle + 1
    ensures LagTime(su, x', f', left') == LagTime(su, x, f, left) - 1
    ensures Cycle(su, m, target) == (m', None)
  {
    hide Lagging, Collides, AfterTick, FilledTo, LoopLine, PathPc, Cycle, LagTime, Behind, Layout;
    LagShape(su, m, x, f, i, left);
    LagTimeStep(su, x, f, left);
    if left > 1 {
      f', left' := f, left - 1;
      m', x', i' := LagWaits(su, m, target, x, f, i, left);
    } else {
      f', left' := f + 1, FillTime(su);
      FillArrives(su, m, x, f, i);
      m', x', i' := GrantsFill(su, m, target, x, f + 1, i);
    }
  }

  /** The backend catches up with the fills: from then on the loop is resident. */
  lemma {:induction false} LagEnds(su: Setup, m: CoreState, target: u32, maxCycles: nat, x: nat, f: nat, i: nat, left: nat)
    returns (m': CoreState, j: nat, k: nat)
    requires RunsAhead(su) && !Collides(su.prog) && Lagging(su, m, x, f, i, left)
    requires maxCycles >= m.cycle + LagTime(su, x, f, left)
    ensures Steady(su, m', j, k) && j != 2 * su.prog.coldLines && m'.itersDone == 0
    ensures m'.cycle + ToLoopBack(su.prog, j) == m.cycle + LagTime(su, x, f, left)
    ensures RunFrom(su, m, target, maxCycles).1 == RunFrom(su, m', target, maxCycles).1
    decreases LagTime(su, x, f, left)
  {
    hide Cycle, RunFrom, LagTime, AllResident, FilledTo, PathPc, LoopLine, AfterTick;
    LagTakesTime(su, x, f, left);
    RunStep(su, m, target, maxCycles);
    if left > 1 || f + 1 < su.prog.coldLines {
      var x', f', i', left';
      m', x', f', i', left' := LagStep(su, m, target, x, f, i, left);
      m', j, k := LagEnds(su, m', target, maxCycles, x', f', i', left');
    } else {
      LagTimeStep(su, x, f, left);
      ToLoopBackAt(su.prog, x);
      LastFillArrives(su, m, x, f, i);
      FillArrives(su, m, x, f, i);
      j := ExecAt(su.prog, x);
      m', k := SteadyStep(su, m, target, j, 2 * i);
      j := Succ(su.prog, j);
    }
  }

  lemma LagTakesTime(su: Setup, x: nat, f: nat, left: nat)
    requires x <= 2 * su.prog.coldLines
    ensures LagTime(su, x, f, left) >= 2
  {
  }

  // ----- From the first load to the end of its iteration -----

  lemma {:induction false} FirstLoadRuns(su: Setup, m: CoreState, target: u32, maxCycles: nat, r: nat)
    returns (m': CoreState)
    requires Layout(su.prog) && FirstLoad(su, m, r) && maxCycles >= m.cycle + r
    ensures FirstLoad(su, m', 1) && m'.cycle + 1 == m.cycle + r
    ensures RunFrom(su, m, target, maxCycles).1 == RunFrom(su, m', target, maxCycles).1
    decreases r
  {
    hide Cycle, RunFrom, FilledTo, Reach, Layout;
    m' := m;
    if r > 1 {
      RunStep(su, m, target, maxCycles);
      LoadGoesOn(su, m, target, m.bus.slot.value);
      m' := FirstLoadRuns(su, Cycle(su, m, target).0, target, maxCycles, r - 1);
    }
  }

  /** The load completes with cold lines still to fill. */
  lemma FirstLoadEnds(su: Setup, m: CoreState)
    requires Looping(su) && !Collides(su.prog) && FirstLoad(su, m, 1) && Reach(su) < su.prog.coldLines
    ensures var t := AfterTick(m);
            && Behind(su, t, 0, Reach(su), 0) && t.bus.slot == None && t.cycle == m.cycle + 1
  {
    assert PathPc(su.prog, 2 * su.prog.coldLines + 1) == su.prog.base + 4 && PathPc(su.prog, 0) == su.prog.cold;
    hide FilledTo, PathPc;
  }

  /** A front end that ran ahead has seen as far as it can until its pointer moves. */
  lemma SeesNoFurther(su: Setup, m: CoreState)
    requires Looping(su) && !Quiescing(su) && Reach(su) < su.prog.coldLines && Behind(su, m, 0, Reach(su), 0)
    ensures Request(su, m) == None && Reach(su) == su.cfg.fetchRunaheadLines
  {
    forall l: nat | l < Reach(su) ensures Holds(m.ic, LoopLine(su.prog, l)) {
      FilledAt(su.prog, m.ic, Reach(su), l);
    }
    hide FilledTo, PathPc, LoopLine, Holds, Scan;
    ScanReportsNothing(su.prog, m.ic, su.cfg.fetchRunaheadLines, 0);
  }

  lemma IdleTick(su: Setup, m: CoreState, x: nat, f: nat, i: nat)
    requires Layout(su.prog) && Behind(su, m, x, f, i) && m.bus.slot == None
    ensures Behind(su, AfterTick(m), x, f, i) && AfterTick(m).bus.slot == None && AfterTick(m).cycle == m.cycle + 1
  {
    hide FilledTo, PathPc, ExecAt;
  }

  /** Cycles by which the cold fills left over hold up the first iteration. */
  function Late(su: Setup): nat {
    var n := su.prog.coldLines;
    if Reach(su) < n then Max(0, Times(n - Reach(su), FillTime(su)) + (if Quiescing(su) then 0 else 1) - 2 * n)
    else 0
  }

  lemma LateTime(su: Setup)
    requires Looping(su) && Reach(su) < su.prog.coldLines
    ensures var n, e := su.prog.coldLines, Reach(su);
            if Quiescing(su) then LagTime(su, 1, e, FillTime(su)) == 2 * n + 1 + Late(su)
            else LagTime(su, 2, e, FillTime(su)) == 2 * n + Late(su)
    ensures su.cfg.fetchRunaheadLines > 1 && Reach(su) >= 1
    ensures !Quiescing(su) ==> Reach(su) == su.cfg.fetchRunaheadLines
  {
    hide Layout;
    var n, e := su.prog.coldLines, Reach(su);
    if e + 1 < n {
      FillsAfterStep(su, e, n);
    }
    assert Times(n - e, FillTime(su)) == FillTime(su) + FillsAfter(su, e, n);
  }

  /** A quiescing front end asks for the next line as the load completes. */
  lemma LagsAtOnce(su: Setup, m: CoreState, target: u32, maxCycles: nat) returns (m': CoreState, i: nat)
    requires Looping(su) && Quiescing(su) && !Collides(su.prog) && FirstLoad(su, m, 1) && Reach(su) < su.prog.coldLines
    requires maxCycles >= m.cycle + 1
    ensures Lagging(su, m', 1, Reach(su), i, FillTime(su)) && m'.cycle == m.cycle + 1
    ensures RunFrom(su, m, target, maxCycles).1 == RunFrom(su, m', target, maxCycles).1
  {
    LateTime(su);
    assert Reach(su) == 1;
    hide *;
    FirstLoadEnds(su, m);
    RunStep(su, m, target, maxCycles);
    var x;
    m', x, i := GrantsFill(su, m, target, 0, Reach(su), 0);
  }

  /** One that had run ahead to its limit asks a cycle later, once its pointer has moved. */
  lemma LagsACycleLater(su: Setup, m: CoreState, target: u32, maxCycles: nat) returns (m': CoreState, i: nat)
    requires Looping(su) && !Quiescing(su) && !Collides(su.prog) && FirstLoad(su, m, 1) && Reach(su) < su.prog.coldLines
    requires maxCycles >= m.cycle + 2
    ensures Lagging(su, m', 2, Reach(su), i, FillTime(su)) && m'.cycle == m.cycle + 2
    ensures RunFrom(su, m, target, maxCycles).1 == RunFrom(su, m', target, maxCycles).1
  {
    LateTime(su);
    var x, e := 0, Reach(su);
    assert e >= 2 && Nearer(0, e) >= 1;
    hide *;
    FirstLoadEnds(su, m);
    SeesNoFurther(su, AfterTick(m));
    RunStep(su, m, target, maxCycles);
    m', x, i := GrantsNothing(su, m, target, 0, e, 0);
    RunStep(su, m', target, maxCycles);
    IdleTick(su, m', x, e, i);
    m', x, i := GrantsFill(su, m', target, x, e, i);
  }

  lemma FirstLagging(su: Setup, m: CoreState, target: u32, maxCycles: nat) returns (m': CoreState, x: nat, i: nat)
    requires Looping(su) && !Collides(su.prog) && FirstLoad(su, m, 1) && Reach(su) < su.prog.coldLines
    requires maxCycles >= m.cycle + 2
    ensures Lagging(su, m', x, Reach(su), i, FillTime(su))
    ensures m'.cycle + LagTime(su, x, Reach(su), FillTime(su)) == m.cycle + 2 * su.prog.coldLines + 2 + Late(su)
    ensures RunFrom(su, m, target, maxCycles).1 == RunFrom(su, m', target, maxCycles).1
  {
    hide *;
    LateTime(su);
    if Quiescing(su) {
      x := 1;
      m', i := LagsAtOnce(su, m, target, maxCycles);
    } else {
      x := 2;
      m', i := LagsACycleLater(su, m, target, maxCycles);
    }
  }

  lemma SteadyShape(su: Setup, m: CoreState, j: nat, k: nat)
    requires Layout(su.prog) && Steady(su, m, j, k)
    ensures j < PathLength(su.prog)
  {
  }

  /** A first load with cold lines still to fill leads to the resident loop, late by `Late`. */
  lemma CatchesUp(su: Setup, m: CoreState, target: u32, maxCycles: nat) returns (m': CoreState, j: nat, k: nat)
    requires Looping(su) && !Collides(su.prog) && FirstLoad(su, m, LoadTime(su)) && Reach(su) < su.prog.coldLines
    requires maxCycles >= m.cycle + LoadTime(su) + 2 * su.prog.coldLines + 1 + Late(su)
    ensures Steady(su, m', j, k) && j < PathLength(su.prog) && j != 2 * su.prog.coldLines && m'.itersDone == 0
    ensures m'.cycle + ToLoopBack(su.prog, j) == m.cycle + LoadTime(su) + 2 * su.prog.coldLines + 1 + Late(su)
    ensures RunFrom(su, m, target, maxCycles).1 == RunFrom(su, m', target, maxCycles).1
  {
    assert su.prog.coldLines >= 1;
    hide *;
    m' := FirstLoadRuns(su, m, target, maxCycles, LoadTime(su));
    var x, i;
    m', x, i := FirstLagging(su, m', target, maxCycles);
    m', j, k := LagEnds(su, m', target, maxCycles, x, Reach(su), i, FillTime(su));
    SteadyShape(su, m', j, k);
  }

  /** A first iteration that starts with cold lines still to fill. */
  lemma LateIteration(su: Setup, m: CoreState, target: u32, maxCycles: nat) returns (m': CoreState, k: nat)
    requires Looping(su) && !Collides(su.prog) && FirstLoad(su, m, LoadTime(su)) && Reach(su) < su.prog.coldLines
    requires maxCycles >= m.cycle + LoadTime(su) + 2 * su.prog.coldLines + 1 + Late(su)
    ensures 1 >= target ==>
              RunFrom(su, m, target, maxCycles).1
              == Pass(m.cycle + LoadTime(su) + 2 * su.prog.coldLines + 1 + Late(su), 1)
    ensures 1 < target && maxCycles >= m.cycle + Period(su) + Late(su) ==>
              && k < PathLength(su.prog) && Loading(su, m', LoadTime(su), k)
              && m'.cycle == m.cycle + Period(su) + Late(su) && m'.itersDone == 1
              && RunFrom(su, m, target, maxCycles).1 == RunFrom(su, m', target, maxCycles).1
  {
    assert Layout(su.prog) && Uncached(su);
    assert Period(su) == LoadTime(su) + 2 * su.prog.coldLines + 3;
    hide *;
    var j;
    m', j, k := CatchesUp(su, m, target, maxCycles);
    m', k := FinishesIteration(su, m', target, maxCycles, j, k);
  }

  /** The first iteration from its granted load, to the end of the run or to the next load. */
  lemma FirstIteration(su: Setup, m: CoreState, target: u32, maxCycles: nat) returns (m': CoreState, k: nat)
    requires Looping(su) && !Collides(su.prog) && FirstLoad(su, m, LoadTime(su))
    requires maxCycles >= m.cycle + LoadTime(su) + 2 * su.prog.coldLines + 1 + Late(su)
    ensures 1 >= target ==>
              RunFrom(su, m, target, maxCycles).1
              == Pass(m.cycle + LoadTime(su) + 2 * su.prog.coldLines + 1 + Late(su), 1)
    ensures 1 < target && maxCycles >= m.cycle + Period(su) + Late(su) ==>
              && k < PathLength(su.prog) && Loading(su, m', LoadTime(su), k)
              && m'.cycle == m.cycle + Period(su) + Late(su) && m'.itersDone == 1
              && RunFrom(su, m, target, maxCycles).1 == RunFrom(su, m', target, maxCycles).1
  {
    if Reach(su) == su.prog.coldLines {
      ReachesAll(su, m);
      hide *;
      NothingLate(su);
      m', k := OneIteration(su, m, target, maxCycles, 0);
    } else {
      hide *;
      m', k := LateIteration(su, m, target, maxCycles);
    }
  }

  lemma NothingLate(su: Setup)
    requires Reach(su) == su.prog.coldLines
    ensures Late(su) == 0
  {
  }

  lemma ReachesAll(su: Setup, m: CoreState)
    requires Layout(su.prog) && !Collides(su.prog) && FirstLoad(su, m, LoadTime(su)) && Reach(su) == su.prog.coldLines
    ensures Loading(su, m, LoadTime(su), 0) && m.itersDone == 0 && 0 < PathLength(su.prog)
  {
    assert PathPc(su.prog, 0) == su.prog.cold;
    hide Holds, LoopLine, PathPc;
  }

  // ----- The verdict -----

  lemma PassesWithMore(su: Setup, m: CoreState, target: u32, maxCycles: nat, left: nat)
    requires Looping(su) && !Collides(su.prog) && FirstLoad(su, m, LoadTime(su))
    requires target > 1 && left + 1 == Goal(target) && maxCycles >= m.cycle + Late(su) + Period(su) + Remaining(su, left)
    ensures RunFrom(su, m, target, maxCycles).1
            == Pass(m.cycle + Late(su) + Period(su) + Remaining(su, left), Goal(target))
  {
    assert Layout(su.prog) && Uncached(su) && Period(su) == LoadTime(su) + 2 * su.prog.coldLines + 3 && left >= 1;
    hide *;
    var m', k := FirstIteration(su, m, target, maxCycles);
    PassesFromLoad(su, m', target, maxCycles, k, left);
  }

  lemma PassesAtOnce(su: Setup, m: CoreState, target: u32, maxCycles: nat)
    requires Looping(su) && !Collides(su.prog) && FirstLoad(su, m, LoadTime(su))
    requires target <= 1 && maxCycles >= m.cycle + Late(su) + Remaining(su, 1)
    ensures RunFrom(su, m, target, maxCycles).1 == Pass(m.cycle + Late(su) + Remaining(su, 1), 1)
  {
    RemainingStep(su, target, 0);
    hide *;
    var m', k := FirstIteration(su, m, target, maxCycles);
  }

  /** From the first load, all iterations. */
  lemma PassesFromFirstLoad(su: Setup, m: CoreState, target: u32, maxCycles: nat)
    requires Looping(su) && !Collides(su.prog) && FirstLoad(su, m, LoadTime(su))
    requires maxCycles >= m.cycle + Late(su) + Remaining(su, Goal(target))
    ensures RunFrom(su, m, target, maxCycles).1
            == Pass(m.cycle + Late(su) + Remaining(su, Goal(target)), Goal(target))
  {
    RemainingStep(su, target, Goal(target) - 1);
    assert Goal(target) >= 1;
    hide *;
    if Goal(target) > 1 {
      PassesWithMore(su, m, target, maxCycles, Goal(target) - 1);
    } else {
      PassesAtOnce(su, m, target, maxCycles);
    }
  }

  /** The cold fills the first load must sit through fit in the window. */
  predicate WindowCoversFills(su: Setup) {
    Reach(su) * FillTime(su) - 1 <= su.cfg.deadlockWindow
  }

  function HangCycle(su: Setup): nat { FillTime(su) + su.cfg.deadlockWindow + 2 }

  function PassCycle(su: Setup, target: u32): nat {
    var warm, iterations: nat := (Reach(su) + 1) * FillTime(su), Goal(target) * Period(su);
    assert warm >= 1;
    warm + iterations - 1 + Late(su)
  }

  lemma PassCycleSplits(su: Setup, target: u32)
    ensures Reach(su) * FillTime(su) == Times(Reach(su), FillTime(su))
    ensures PassCycle(su, target)
            == FillTime(su) + 1 + Times(Reach(su), FillTime(su)) + Late(su) + Remaining(su, Goal(target))
  {
    hide Reach, Late;
    TimesIsProduct(Reach(su), FillTime(su));
    TimesIsProduct(Reach(su) + 1, FillTime(su));
    TimesIsProduct(Goal(target), Period(su));
  }

  /** A run cut off before its verdict times out at exactly the cap; otherwise the cap does not matter. */
  lemma {:induction false} CapOnlyCuts(su: Setup, m: CoreState, target: u32, cap: nat, longer: nat)
    requires m.cycle <= cap <= longer && !RunFrom(su, m, target, longer).1.Timeout?
    ensures var o := RunFrom(su, m, target, longer).1;
            if o.cycles <= cap then RunFrom(su, m, target, cap).1 == o
            else RunFrom(su, m, target, cap).1.Timeout? && RunFrom(su, m, target, cap).1.cycles == cap
    decreases longer - m.cycle
  {
    hide Waited, Retired, Cycle;
    if m.cycle < longer {
      VerdictCycle(su, m, target);
      VerdictComesLater(su, m, target, longer);
      if m.cycle < cap && Cycle(su, m, target).1 == None {
        CapOnlyCuts(su, Cycle(su, m, target).0, target, cap, longer);
      }
    }
  }

  lemma {:induction false} VerdictComesLater(su: Setup, m: CoreState, target: u32, maxCycles: nat)
    requires m.cycle < maxCycles
    ensures RunFrom(su, m, target, maxCycles).1.cycles > m.cycle
    decreases maxCycles - m.cycle
  {
    var (m', o) := Cycle(su, m, target);
    VerdictCycle(su, m, target);
    hide Cycle;
    if o == None && m'.cycle < maxCycles {
      VerdictComesLater(su, m', target, maxCycles);
    }
  }

  lemma VerdictCycle(su: Setup, m: CoreState, target: u32)
    ensures Cycle(su, m, target).0.cycle == m.cycle + 1
    ensures Cycle(su, m, target).1.Some? ==> Cycle(su, m, target).1.value.cycles == m.cycle + 1
  {
    hide Scan, Advanced, Decode, Holds;
  }

  /** The loop clashes, or its first load outwaits the window. */
  predicate Hangs(su: Setup)
    requires Layout(su.prog)
  {
    Clashes(su) || !WindowCoversFills(su)
  }

  lemma HangGivenCycles(su: Setup, target: u32, maxCycles: nat)
    requires Looping(su) && Hangs(su) && maxCycles >= HangCycle(su)
    ensures HangsAt(RunOutcome(su, target, maxCycles), su, HangCycle(su))
  {
    PassCycleSplits(su, target);
    hide RunFrom, Cycle, InitialState, FirstStall, PassCycle, Times, Remaining, Clashes, Filling, HangsAt, Reach;
    FirstStallStarves(su);
    RunsToFirstStall(su, target, maxCycles);
    if Clashes(su) {
      StarvesToDeadlock(su, FirstStall(su), target, maxCycles);
    } else {
      FirstStallFills(su);
      FillsOutlastWindow(su, FirstStall(su), target, maxCycles, 0, Times(Reach(su), FillTime(su)));
    }
  }

  lemma PassGivenCycles(su: Setup, target: u32, maxCycles: nat)
    requires Looping(su) && !Collides(su.prog) && !Hangs(su) && maxCycles >= PassCycle(su, target)
    ensures RunOutcome(su, target, maxCycles) == Pass(PassCycle(su, target), Goal(target))
  {
    PassCycleSplits(su, target);
    hide RunFrom, Cycle, InitialState, FirstStall, PassCycle, Times, Remaining, Clashes, Collides, Filling, Reach,
         FirstLoad, Late;
    FirstStallStarves(su);
    RunsToFirstStall(su, target, maxCycles);
    FirstStallFills(su);
    var m := FillsThenLoads(su, FirstStall(su), target, maxCycles, 0, Times(Reach(su), FillTime(su)));
    PassesFromFirstLoad(su, m, target, maxCycles);
  }

  /** Deadlock dichotomy. With e the cold lines filled before the first load can have the bus (1 under
      `Quiescing`, else the run-ahead up to n), a poll loop hangs in its first load, at cycle F + W + 2, when two
      lines in sight of the stalled front end share an I-cache set or the window is shorter than e fills. A loop
      without a collision hangs in no other case: it passes, at exactly (e + 1) F + k (2 n + 3 + M) - 1 cycles and
      those by which the n - e fills left over are late. A smaller cycle cap only times it out. */
  lemma DeadlockDichotomy(su: Setup, target: u32, maxCycles: nat)
    requires Looping(su)
    ensures var o := RunOutcome(su, target, maxCycles);
            && (Hangs(su) ==>
                  if maxCycles < HangCycle(su) then o.Timeout? && o.cycles == maxCycles
                  else HangsAt(o, su, HangCycle(su)))
            && (!Hangs(su) && !Collides(su.prog) ==>
                  if maxCycles < PassCycle(su, target) then o.Timeout? && o.cycles == maxCycles
                  else o == Pass(PassCycle(su, target), Goal(target)))
  {
    hide RunFrom, Collides, Hangs, PassCycle, Clashes;
    if Hangs(su) {
      var c := Max(maxCycles, HangCycle(su));
      HangGivenCycles(su, target, c);
      CapOnlyCuts(su, InitialState(su), target, maxCycles, c);
    } else if !Collides(su.prog) {
      var c := Max(maxCycles, PassCycle(su, target));
      PassGivenCycles(su, target, c);
      CapOnlyCuts(su, InitialState(su), target, maxCycles, c);
    }
  }

  /** The machine the source builds to show the hang: a front end that runs ahead of a stalled backend
      far enough to see the whole loop. */
  predicate Contended(su: Setup) {
    Looping(su) && !Quiescing(su) && su.cfg.fetchRunaheadLines >= su.prog.coldLines + 1
  }

  /** There nothing is left open: it hangs exactly on a collision or a window below n F - 1, and passes at
      (n + 1) F + k (2 n + 3 + M) - 1. */
  lemma ContendedIsDecided(su: Setup, target: u32)
    requires Contended(su)
    ensures Collides(su.prog) <==> Clashes(su)
    ensures Hangs(su) <==> Collides(su.prog) || su.cfg.deadlockWindow < su.prog.coldLines * FillTime(su) - 1
    ensures PassCycle(su, target) == (su.prog.coldLines + 1) * FillTime(su) + Goal(target) * Period(su) - 1
  {
  }
}
