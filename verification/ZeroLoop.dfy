/** The zero-overhead loop: LP with LP_COUNT = n runs its body exactly max(n, 1) times, whatever interrupts
    strike on the way. */
module ZeroOverheadLoops {
  import opened Words
  import opened Alu
  import opened Registers
  import opened CpuModel
  import opened Interrupts

  predicate SameLoopRegs(s: CpuState, s': CpuState) {
    s'.lpStart == s.lpStart && s'.lpEnd == s.lpEnd && s'.regs[LP_COUNT] == s.regs[LP_COUNT]
  }

  /** An instruction that, from any state, writes no loop register, no L bit and no PC. */
  ghost predicate KeepsLoop(d: Decoded) {
    forall s: CpuState :: Executed(s, d).Some? ==>
      var s' := Executed(s, d).value;
      SameLoopRegs(s, s') && s'.status.l == s.status.l && s'.delay == s.delay && s'.pcWritten == s.pcWritten
  }

  ghost predicate BodyAt(code: Code, p: seq<u32>, j: nat)
    requires j + 1 < |p|
  {
    p[j] != p[|p| - 1] && code(p[j]).Some? && KeepsLoop(code(p[j]).value)
    && Wrap(p[j] + code(p[j]).value.size) == p[j + 1]
  }

  /** A straight-line body: the PCs of its instructions in order, then LP_END. */
  ghost predicate IsBody(code: Code, p: seq<u32>) {
    |p| >= 2 && forall j: nat :: j < |p| - 1 ==> BodyAt(code, p, j)
  }

  /** Where LP leaves control: at LP_START, L clear, LP_COUNT = n. */
  predicate Entered(s: CpuState, p: seq<u32>, n: u32) {
    && |p| >= 2 && s.pc == p[0] && s.lpStart == p[0] && s.lpEnd == p[|p| - 1] && s.regs[LP_COUNT] == n
    && !s.status.l && s.delay.NoSlot?
  }

  /** A handler has put the loop registers back by the time it returns. */
  ghost predicate Restores(run: seq<CpuState>, s: CpuState, st: seq<Frame>) {
    st != [] && st[|st| - 1].at < |run| ==> SameLoopRegs(run[st[|st| - 1].at], s)
  }

  /** A run of a program around its interrupts: outside handlers every instruction is the program's and none
      faults; handlers are any disciplined code that restores the loop registers. */
  ghost predicate LoopRun(run: seq<CpuState>, evs: seq<Event>, code: Code) {
    && ValidRun(run, evs)
    && forall i: nat :: i < |evs| ==> LoopMove(run, evs, code, i)
  }

  predicate ProgramTurn(run: seq<CpuState>, evs: seq<Event>, i: nat)
    requires |run| == |evs| + 1 && i < |evs|
  {
    evs[i].Run? && StackAt(run, evs, i) == []
  }

  ghost predicate LoopMove(run: seq<CpuState>, evs: seq<Event>, code: Code, i: nat)
    requires |run| == |evs| + 1 && i < |evs|
  {
    && (ProgramTurn(run, evs, i) ==> run[i + 1] == Instruction(run[i], code).0 && Instruction(run[i], code).1 != Faulted)
    && (evs[i].Return? ==> Restores(run, run[i], StackAt(run, evs, i)))
  }

  /** The PCs of the program's instructions executed before event `i`. */
  ghost function Log(run: seq<CpuState>, evs: seq<Event>, code: Code, i: nat): seq<u32>
    requires |run| == |evs| + 1 && i <= |evs|
    decreases i
  {
    if i == 0 then []
    else
      var log := Log(run, evs, code, i - 1);
      if ProgramTurn(run, evs, i - 1) && Instruction(run[i - 1], code).1 == Retired then log + [run[i - 1].pc] else log
  }

  /** The program's turns before event `i`, loop-backs included. */
  function Turns(run: seq<CpuState>, evs: seq<Event>, i: nat): nat
    requires |run| == |evs| + 1 && i <= |evs|
    decreases i
  {
    if i == 0 then 0 else Turns(run, evs, i - 1) + (if ProgramTurn(run, evs, i - 1) then 1 else 0)
  }

  /** The program leaves the loop: it executes the instruction at LP_END. */
  ghost predicate Exits(run: seq<CpuState>, evs: seq<Event>, code: Code, p: seq<u32>, i: nat)
    requires |run| == |evs| + 1 && i < |evs| && |p| >= 2
  {
    ProgramTurn(run, evs, i) && run[i].pc == p[|p| - 1] && Instruction(run[i], code).1 == Retired
  }

  function Rounds(body: seq<u32>, k: nat): seq<u32> { if k == 0 then [] else Rounds(body, k - 1) + body }

  function Body(p: seq<u32>): seq<u32>
    requires |p| >= 2
  {
    p[..|p| - 1]
  }

  function Iterations(n: u32): nat { if n == 0 then 1 else n }

  /** `k` rounds done and `j` instructions into the next. */
  ghost predicate At(s: CpuState, p: seq<u32>, n: u32, log: seq<u32>, turns: nat, k: nat, j: nat) {
    && |p| >= 2 && j < |p| && k < Iterations(n)
    && s.pc == p[j] && s.lpStart == p[0] && s.lpEnd == p[|p| - 1] && !s.status.l && s.delay.NoSlot?
    && s.regs[LP_COUNT] == (if n == 0 then 0 else n - k)
    && log == Rounds(Body(p), k) + p[..j] && turns == Times(k, |p|) + j
  }

  ghost predicate Inside(s: CpuState, p: seq<u32>, n: u32, log: seq<u32>, turns: nat) {
    exists k: nat, j: nat :: At(s, p, n, log, turns, k, j)
  }

  // ----- One turn -----

  lemma InstructionInBody(s: CpuState, code: Code, size: nat)
    requires code(s.pc).Some? && code(s.pc).value.size == size && KeepsLoop(code(s.pc).value)
    requires !AtLoopEnd(s) && s.delay.NoSlot? && Instruction(s, code).1 != Faulted
    ensures Instruction(s, code).1 == Retired
    ensures var s' := Instruction(s, code).0;
            SameLoopRegs(s, s') && s'.status.l == s.status.l && s'.delay == s.delay && s'.pc == Wrap(s.pc + size)
  {
    hide Executed;
    var s1 := s.(pcWritten := false);
    assert s.(delay := NoSlot) == s;
    assert Instruction(s, code) == Issued(s, NoSlot, code);
    assert Executed(s1, code(s.pc).value).Some?;
  }

  lemma BodyTurn(s: CpuState, code: Code, p: seq<u32>, n: u32, log: seq<u32>, turns: nat, k: nat, j: nat)
    requires IsBody(code, p) && At(s, p, n, log, turns, k, j) && j < |p| - 1 && Instruction(s, code).1 != Faulted
    ensures Instruction(s, code).1 == Retired
    ensures At(Instruction(s, code).0, p, n, log + [s.pc], turns + 1, k, j + 1)
  {
    hide Instruction, Issued, Executed, KeepsLoop, Rounds;
    assert BodyAt(code, p, j);
    InstructionInBody(s, code, code(s.pc).value.size);
    assert p[..j + 1] == p[..j] + [p[j]];
  }

  lemma LoopBackTurn(s: CpuState, code: Code, p: seq<u32>, n: u32, log: seq<u32>, turns: nat, k: nat)
    requires |p| >= 2 && At(s, p, n, log, turns, k, |p| - 1) && s.regs[LP_COUNT] > 1
    ensures Instruction(s, code).1 == LoopedBack
    ensures At(Instruction(s, code).0, p, n, log, turns + 1, k + 1, 0)
  {
    hide Issued;
    assert log == Rounds(Body(p), k + 1) + p[..0];
  }

  lemma ExitTurn(s: CpuState, code: Code, p: seq<u32>, n: u32, log: seq<u32>, turns: nat, k: nat)
    requires |p| >= 2 && At(s, p, n, log, turns, k, |p| - 1) && s.regs[LP_COUNT] <= 1
    ensures k + 1 == Iterations(n) && log == Rounds(Body(p), Iterations(n))
    ensures Instruction(s, code) == Issued(s.(regs := s.regs[LP_COUNT := 0]), NoSlot, code)
    ensures Instruction(s, code).1 != LoopedBack
  {
    hide Executed;
    assert s.regs[LP_COUNT] == 0 ==> s.regs[LP_COUNT := 0] == s.regs;
    assert s.(delay := NoSlot) == s;
  }

  /** One program turn inside the loop: another instruction of the body, a loop-back, or the exit. */
  lemma ProgramTurnInside(s: CpuState, code: Code, p: seq<u32>, n: u32, log: seq<u32>, turns: nat)
    requires IsBody(code, p) && Inside(s, p, n, log, turns) && Instruction(s, code).1 != Faulted
    ensures s.pc == p[|p| - 1] && Instruction(s, code).1 == Retired ==>
              log == Rounds(Body(p), Iterations(n))
              && Instruction(s, code) == Issued(s.(regs := s.regs[LP_COUNT := 0]), NoSlot, code)
    ensures !(s.pc == p[|p| - 1] && Instruction(s, code).1 == Retired) ==>
              Inside(Instruction(s, code).0, p, n,
                     if Instruction(s, code).1 == Retired then log + [s.pc] else log, turns + 1)
  {
    hide Instruction, Issued, Rounds, KeepsLoop, BodyAt;
    var k: nat, j: nat :| At(s, p, n, log, turns, k, j);
    if j < |p| - 1 {
      assert BodyAt(code, p, j);
      NotAtEnd(code, p, j);
      BodyTurn(s, code, p, n, log, turns, k, j);
    } else if s.regs[LP_COUNT] > 1 {
      LoopBackTurn(s, code, p, n, log, turns, k);
    } else {
      ExitTurn(s, code, p, n, log, turns, k);
    }
  }

  lemma NotAtEnd(code: Code, p: seq<u32>, j: nat)
    requires j + 1 < |p| && BodyAt(code, p, j)
    ensures p[j] != p[|p| - 1]
  {
  }

  // ----- The whole run -----

  function Base(st: seq<Frame>, i: nat): nat { if st == [] then i else st[0].at }

  /** The state the program resumes from is inside the loop. */
  ghost predicate LoopInvariant(run: seq<CpuState>, evs: seq<Event>, code: Code, p: seq<u32>, n: u32, i: nat)
    requires |run| == |evs| + 1 && i <= |evs|
  {
    var base := Base(StackAt(run, evs, i), i);
    base < |run| && Inside(run[base], p, n, Log(run, evs, code, i), Turns(run, evs, i))
  }

  lemma InsideAfterHandler(s: CpuState, last: CpuState, s': CpuState, p: seq<u32>, n: u32, log: seq<u32>, turns: nat)
    requires Inside(s, p, n, log, turns) && SameLoopRegs(s, last) && SameLoopRegs(last, s') && Back(s', s)
    ensures Inside(s', p, n, log, turns)
  {
    hide Rounds;
    var k: nat, j: nat :| At(s, p, n, log, turns, k, j);
    assert At(s', p, n, log, turns, k, j);
  }

  lemma InsideAfterDevice(s: CpuState, s': CpuState, p: seq<u32>, n: u32, log: seq<u32>, turns: nat)
    requires Inside(s, p, n, log, turns)
    requires DeviceMoved(s, s')
    ensures Inside(s', p, n, log, turns)
  {
    hide Rounds;
    var k: nat, j: nat :| At(s, p, n, log, turns, k, j);
    assert At(s', p, n, log, turns, k, j);
  }

  lemma InsideAtStart(s: CpuState, p: seq<u32>, n: u32)
    requires Entered(s, p, n)
    ensures Inside(s, p, n, [], 0)
  {
    assert [] == Rounds(Body(p), 0) + p[..0];
    assert At(s, p, n, [], 0, 0, 0);
  }

  lemma ReturnKeepsLoop(s: CpuState, s': CpuState, level: nat)
    requires ReturnsFrom(s, s', level) && (level == 1 || level == 2)
    ensures SameLoopRegs(s, s')
  {
    ReturnEffect(s, s', level);
    hide ReturnsFrom, SavedStatus, WithStatus32;
  }

  /** Events that leave the program where it was. */
  lemma HandlerEvent(run: seq<CpuState>, evs: seq<Event>, code: Code, p: seq<u32>, n: u32, i: nat)
    requires LoopRun(run, evs, code) && i < |evs| && LoopInvariant(run, evs, code, p, n, i)
    requires !ProgramTurn(run, evs, i)
    ensures LoopInvariant(run, evs, code, p, n, i + 1)
  {
    hide ReturnsFrom, Disciplined, Interrupted, Instruction, LevelOf, Inside, SameLoopRegs, Nested, Back;
    var s, s', st := run[i], run[i + 1], StackAt(run, evs, i);
    var log, turns := Log(run, evs, code, i), Turns(run, evs, i);
    assert Moves(run, evs, i) && LoopMove(run, evs, code, i);
    match evs[i]
    case Return(level) =>
      NestedAlways(run, evs, i);
      NestedAfterReturn(run, s, s', st);
      LevelsOnTop(run, s, st);
      ReturnKeepsLoop(s, s', level);
      if |st| == 1 {
        InsideAfterHandler(run[st[0].at], s, s', p, n, log, turns);
      }
    case Device =>
      if st == [] {
        InsideAfterDevice(s, s', p, n, log, turns);
      }
    case Poll(env) =>
      NotTaken(s, env);
    case Run =>
  }

  lemma NotTaken(s: CpuState, env: Option<Env>)
    ensures !Interrupted(s, env).1 ==> Interrupted(s, env).0 == s
  {
    hide EnteredL1, EnteredL2, Vector;
  }

  /** A turn of the program that does not leave the loop. */
  lemma ProgramEvent(run: seq<CpuState>, evs: seq<Event>, code: Code, p: seq<u32>, n: u32, i: nat)
    requires |run| == |evs| + 1 && i < |evs| && ProgramTurn(run, evs, i) && LoopMove(run, evs, code, i)
    requires IsBody(code, p) && LoopInvariant(run, evs, code, p, n, i) && !Exits(run, evs, code, p, i)
    ensures LoopInvariant(run, evs, code, p, n, i + 1)
  {
    hide Instruction, Inside, BodyAt;
    ProgramTurnInside(run[i], code, p, n, Log(run, evs, code, i), Turns(run, evs, i));
  }

  lemma LoopMoveAt(run: seq<CpuState>, evs: seq<Event>, code: Code, i: nat)
    requires LoopRun(run, evs, code) && i < |evs|
    ensures |run| == |evs| + 1 && LoopMove(run, evs, code, i)
  {
    hide Moves, LoopMove;
  }

  lemma LoopInvariantAtStart(run: seq<CpuState>, evs: seq<Event>, code: Code, p: seq<u32>, n: u32)
    requires |run| == |evs| + 1 && Entered(run[0], p, n)
    ensures LoopInvariant(run, evs, code, p, n, 0)
  {
    hide Inside, Entered;
    InsideAtStart(run[0], p, n);
  }

  lemma {:induction false} LoopInvariantHolds(run: seq<CpuState>, evs: seq<Event>, code: Code, p: seq<u32>, n: u32, i: nat)
    requires |run| == |evs| + 1 && LoopRun(run, evs, code) && IsBody(code, p) && Entered(run[0], p, n) && i <= |evs|
    requires |p| >= 2 && forall e: nat :: e < i ==> !Exits(run, evs, code, p, e)
    ensures LoopInvariant(run, evs, code, p, n, i)
    decreases i
  {
    hide *;
    if i == 0 {
      LoopInvariantAtStart(run, evs, code, p, n);
    } else {
      LoopMoveAt(run, evs, code, i - 1);
      LoopInvariantHolds(run, evs, code, p, n, i - 1);
      if ProgramTurn(run, evs, i - 1) {
        ProgramEvent(run, evs, code, p, n, i - 1);
      } else {
        HandlerEvent(run, evs, code, p, n, i - 1);
      }
    }
  }

  lemma {:induction false} RoundsGrow(body: seq<u32>, k: nat, n: nat, w: nat)
    requires k <= n
    ensures Rounds(body, k) <= Rounds(body, n) && Times(k, w) <= Times(n, w)
    decreases n
  {
    if k < n {
      RoundsGrow(body, k, n - 1, w);
    }
  }

  lemma RoundIsPrefix(p: seq<u32>, log: seq<u32>, k: nat, j: nat)
    requires |p| >= 2 && j < |p| && log == Rounds(Body(p), k) + p[..j]
    ensures log <= Rounds(Body(p), k + 1)
  {
    assert Rounds(Body(p), k + 1) == Rounds(Body(p), k) + Body(p);
  }

  lemma InsideIsPrefix(s: CpuState, p: seq<u32>, n: u32, log: seq<u32>, turns: nat)
    requires Inside(s, p, n, log, turns)
    ensures |p| >= 2 && log <= Rounds(Body(p), Iterations(n)) && turns < Times(Iterations(n), |p|)
  {
    hide Rounds, Body;
    var k: nat, j: nat :| At(s, p, n, log, turns, k, j);
    RoundIsPrefix(p, log, k, j);
    RoundsGrow(Body(p), k + 1, Iterations(n), |p|);
  }

  /** The loop runs its body exactly max(n, 1) times. Until the program executes the instruction at LP_END it has
      executed a prefix of that many rounds, in fewer than max(n, 1) * (body length + 1) turns; when it does, it
      has executed all of them and LP_COUNT is 0. Interrupts may strike anywhere, LP_END included. */
  lemma LoopRunsExactly(run: seq<CpuState>, evs: seq<Event>, code: Code, p: seq<u32>, n: u32, i: nat)
    requires LoopRun(run, evs, code) && IsBody(code, p) && Entered(run[0], p, n) && i <= |evs|
    requires forall e: nat :: e < i ==> !Exits(run, evs, code, p, e)
    ensures Log(run, evs, code, i) <= Rounds(Body(p), Iterations(n))
    ensures Turns(run, evs, i) < Times(Iterations(n), |p|)
    ensures i < |evs| && Exits(run, evs, code, p, i) ==>
              && Log(run, evs, code, i) == Rounds(Body(p), Iterations(n))
              && Instruction(run[i], code) == Issued(run[i].(regs := run[i].regs[LP_COUNT := 0]), NoSlot, code)
  {
    LoopInvariantHolds(run, evs, code, p, n, i);
    var base := Base(StackAt(run, evs, i), i);
    InsideIsPrefix(run[base], p, n, Log(run, evs, code, i), Turns(run, evs, i));
    hide ValidRun, Instruction, Inside, BodyAt, Log, Turns, Rounds, Issued, Entered;
    if i < |evs| && Exits(run, evs, code, p, i) {
      ProgramTurnInside(run[i], code, p, n, Log(run, evs, code, i), Turns(run, evs, i));
    }
  }

  // ----- Entering -----

  /** LP with a true condition enters the loop; with a false one it goes straight to LP_END and leaves the loop
      registers alone. */
  lemma LpEnters(s: CpuState, code: Code, offset: nat, cc: Condition)
    requires code(s.pc).Some? && code(s.pc).value.insn == Loop(offset, cc) && s.delay.NoSlot? && !AtLoopEnd(s)
    ensures var s' := Instruction(s, code).0;
            && Instruction(s, code).1 == Retired
            && s'.regs == s.regs && s'.delay.NoSlot?
            && (if Holds(s, cc) then
                  s'.pc == s'.lpStart == Wrap(s.pc + code(s.pc).value.size) && s'.lpEnd == Relative(s, offset)
                  && s'.status == s.status.(l := false)
                else s'.pc == Relative(s, offset) && SameLoopRegs(s, s') && s'.status == s.status)
  {
    hide Evaluate;
    assert s.(delay := NoSlot) == s;
  }

  /** What a straight-line body may hold: data instructions and ALU instructions that leave LP_COUNT alone. */
  lemma DataKeepsLoop(effect: Data -> Data, size: nat)
    requires forall d: Data :: effect(d).regs[LP_COUNT] == d.regs[LP_COUNT]
    ensures KeepsLoop(Decoded(Plain(effect), size))
  {
  }

  lemma AluKeepsLoop(op: AluOp, dst: Operand, a: Operand, b: Operand, setFlags: bool, cc: Condition, size: nat)
    requires dst != Reg(LP_COUNT)
    ensures KeepsLoop(Decoded(AluInsn(op, dst, a, b, setFlags, cc), size))
  {
    hide Compute, FlagsAfter, Evaluate, ReadReg;
  }
}
