/** Two-level interrupts are transparent: whatever interleaving of device activity, interrupt delivery,
    handler code and returns a run takes, each return lands exactly where its interrupt struck. */
module Interrupts {
  import opened Words
  import opened Alu
  import opened Registers
  import opened CpuModel
  import Timers

  /** What moves the machine: a device raising or clearing lines, a poll of the interrupt logic, an
      instruction, or the return idiom `j.f [ilink]` of one level. */
  datatype Event = Device | Poll(env: Option<Env>) | Run | Return(level: nat)

  /** An interrupt in progress: its level and the index of the state it struck. */
  datatype Frame = Frame(level: nat, at: nat)

  function LevelOf(s: CpuState): nat {
    if LowestFrom(s.irqPending, 0) in s.irqLev then 2 else 1
  }

  /** The interrupts in progress before event `i`, innermost last. */
  function StackAt(run: seq<CpuState>, evs: seq<Event>, i: nat): seq<Frame>
    requires |run| == |evs| + 1 && i <= |evs|
    decreases i
  {
    if i == 0 then []
    else
      var st := StackAt(run, evs, i - 1);
      match evs[i - 1]
      case Poll(env) => if Interrupted(run[i - 1], env).1 then st + [Frame(LevelOf(run[i - 1]), i - 1)] else st
      case Return(_) => if st == [] then [] else st[..|st| - 1]
      case _ => st
  }

  function Link(level: nat): nat { if level == 1 then ILINK1 else ILINK2 }

  function SavedStatus(s: CpuState, level: nat): u32 { if level == 1 then s.status32L1 else s.status32L2 }

  function SavedBta(s: CpuState, level: nat): u32 { if level == 1 then s.btaL1 else s.btaL2 }

  predicate Active(s: CpuState, level: nat) { if level == 1 then s.status.a1 else s.status.a2 }

  predicate SameSaves(s: CpuState, s': CpuState, level: nat) {
    && s'.regs[Link(level)] == s.regs[Link(level)]
    && SavedStatus(s', level) == SavedStatus(s, level)
    && SavedBta(s', level) == SavedBta(s, level)
  }

  /** The discipline asked of instructions: leave the A bits alone, and the ILINK and save registers of every
      interrupt in progress. Everything else is free, the enable bits included. */
  ghost predicate Disciplined(s: CpuState, s': CpuState, st: seq<Frame>) {
    && s'.status.a1 == s.status.a1 && s'.status.a2 == s.status.a2
    && forall f :: f in st ==> SameSaves(s, s', f.level)
  }

  /** `j.f [ilink]`, outside a delay slot and a loop end. */
  ghost predicate ReturnsFrom(s: CpuState, s': CpuState, level: nat) {
    && s.delay.NoSlot? && !AtLoopEnd(s)
    && exists code: Code ::
         && code(s.pc).Some? && code(s.pc).value.insn == Jump(Reg(Link(level)), AL, false, false, true)
         && Instruction(s, code) == (s', Retired)
  }

  ghost predicate Moves(run: seq<CpuState>, evs: seq<Event>, i: nat)
    requires |run| == |evs| + 1 && i < |evs|
  {
    var s, s', st := run[i], run[i + 1], StackAt(run, evs, i);
    match evs[i]
    case Device => DeviceMoved(s, s')
    case Poll(env) => s' == Interrupted(s, env).0
    case Run => Disciplined(s, s', st)
    case Return(level) => st != [] && st[|st| - 1].level == level && ReturnsFrom(s, s', level)
  }

  /** A run that starts with no interrupt in progress and nests its returns. */
  ghost predicate ValidRun(run: seq<CpuState>, evs: seq<Event>) {
    && |run| == |evs| + 1
    && Idle(run[0])
    && forall i: nat :: i < |evs| ==> Moves(run, evs, i)
  }

  predicate Idle(s: CpuState) { !s.status.a1 && !s.status.a2 }

  /** A frame in progress, its saved registers still holding what its interrupt struck. */
  predicate Live(run: seq<CpuState>, s: CpuState, f: Frame) {
    && (f.level == 1 || f.level == 2) && f.at < |run| && Active(s, f.level)
    && s.regs[Link(f.level)] == run[f.at].pc
    && SavedStatus(s, f.level) == Status32(run[f.at].status)
    && SavedBta(s, f.level) == run[f.at].bta
    && run[f.at].delay.NoSlot?
  }

  /** At most two interrupts in progress, of different levels; the A bits say which; the outer one struck an
      idle machine and the inner one the outer's handler. */
  predicate Nested(run: seq<CpuState>, s: CpuState, st: seq<Frame>) {
    if |st| == 0 then Idle(s)
    else if |st| == 1 then
      Live(run, s, st[0]) && !Active(s, 3 - st[0].level) && Idle(run[st[0].at])
    else
      && |st| == 2 && Live(run, s, st[0]) && Live(run, s, st[1]) && st[1].level == 3 - st[0].level
      && Idle(run[st[0].at])
      && Active(run[st[1].at], st[0].level) && !Active(run[st[1].at], st[1].level)
  }

  /** What the interrupt logic does when it takes a line. */
  lemma TakenEffect(run: seq<CpuState>, s: CpuState, at: nat, env: Option<Env>)
    requires at < |run| && run[at] == s
    ensures var (s', taken) := Interrupted(s, env);
            if !taken then s' == s
            else
              && Live(run, s', Frame(LevelOf(s), at)) && !Active(s, LevelOf(s))
              && Active(s', 3 - LevelOf(s)) == Active(s, 3 - LevelOf(s))
              && SameSaves(s, s', 3 - LevelOf(s))
  {
    hide Vector, Status32;
  }

  /** A return writes back the saved STATUS32 and BTA and jumps to the link register; no other register or
      loop register changes. */
  lemma ReturnEffect(s: CpuState, s': CpuState, level: nat)
    requires ReturnsFrom(s, s', level) && (level == 1 || level == 2)
    ensures s'.pc == s.regs[Link(level)] && s'.status == WithStatus32(SavedStatus(s, level))
    ensures s'.bta == SavedBta(s, level) && s'.delay.NoSlot?
    ensures SameSaves(s, s', 1) && SameSaves(s, s', 2)
    ensures s'.regs == s.regs && s'.lpStart == s.lpStart && s'.lpEnd == s.lpEnd && s'.mem == s.mem
  {
    hide WithStatus32;
  }

  lemma LiveCarries(run: seq<CpuState>, s: CpuState, s': CpuState, f: Frame)
    requires Live(run, s, f) && SameSaves(s, s', f.level) && Active(s', f.level)
    ensures Live(run, s', f)
  {
    hide Status32;
  }

  /** A fresh live frame of an inactive level, the other level untouched, keeps the nesting. */
  lemma NestedAfterPush(run: seq<CpuState>, s: CpuState, s': CpuState, st: seq<Frame>, f: Frame)
    requires Nested(run, s, st) && Live(run, s', f) && run[f.at] == s
    requires !Active(s, f.level) && Active(s', 3 - f.level) == Active(s, 3 - f.level)
    requires SameSaves(s, s', 3 - f.level)
    ensures Nested(run, s', st + [f])
  {
    hide Live, SameSaves;
    LiveLevel(run, s', f);
    if |st| == 0 {
      assert st + [f] == [f];
    } else if |st| == 1 {
      LiveLevel(run, s, st[0]);
      LiveCarries(run, s, s', st[0]);
      assert (st + [f])[0] == st[0] && (st + [f])[1] == f;
    } else {
      LiveLevel(run, s, st[0]);
      LiveLevel(run, s, st[1]);
      assert false;
    }
  }

  lemma NestedAfterTake(run: seq<CpuState>, s: CpuState, s': CpuState, st: seq<Frame>, at: nat, env: Option<Env>)
    requires Nested(run, s, st) && at < |run| && run[at] == s
    requires Interrupted(s, env) == (s', true)
    ensures Nested(run, s', st + [Frame(LevelOf(s), at)])
  {
    hide Interrupted, LevelOf, Live, SameSaves, Nested;
    TakenEffect(run, s, at, env);
    NestedAfterPush(run, s, s', st, Frame(LevelOf(s), at));
  }

  lemma LiveLevel(run: seq<CpuState>, s: CpuState, f: Frame)
    requires Live(run, s, f)
    ensures (f.level == 1 || f.level == 2) && f.at < |run| && Active(s, f.level)
  {
  }

  /** Returning from a live frame restores the state it struck. */
  lemma ReturnRestores(run: seq<CpuState>, s: CpuState, s': CpuState, f: Frame)
    requires Live(run, s, f) && ReturnsFrom(s, s', f.level)
    ensures f.at < |run| && Back(s', run[f.at])
    ensures SameSaves(s, s', 1) && SameSaves(s, s', 2)
  {
    ReturnEffect(s, s', f.level);
    StatusRoundTrip(run[f.at].status);
    hide ReturnsFrom, Status32, WithStatus32, SameSaves;
  }

  /** Control is back where an interrupt struck. */
  predicate Back(s: CpuState, struck: CpuState) {
    s.pc == struck.pc && s.status == struck.status && s.bta == struck.bta && s.delay == struck.delay == NoSlot
  }

  lemma NestedAfterReturn(run: seq<CpuState>, s: CpuState, s': CpuState, st: seq<Frame>)
    requires Nested(run, s, st) && st != [] && ReturnsFrom(s, s', st[|st| - 1].level)
    ensures st[|st| - 1].at < |run| && Nested(run, s', st[..|st| - 1]) && Back(s', run[st[|st| - 1].at])
  {
    hide Live, SameSaves, ReturnsFrom, Status32, WithStatus32;
    if |st| == 1 {
      ReturnRestores(run, s, s', st[0]);
      assert st[..0] == [];
    } else {
      ReturnRestores(run, s, s', st[1]);
      LiveLevel(run, s, st[0]);
      LiveLevel(run, s, st[1]);
      SameSavesOf(s, s', st[0].level);
      LiveCarries(run, s, s', st[0]);
      assert st[..1] == [st[0]];
    }
  }

  lemma SameSavesOf(s: CpuState, s': CpuState, level: nat)
    requires (level == 1 || level == 2) && SameSaves(s, s', 1) && SameSaves(s, s', 2)
    ensures SameSaves(s, s', level)
  {
    hide SameSaves;
  }

  lemma NestedAfterDisciplined(run: seq<CpuState>, s: CpuState, s': CpuState, st: seq<Frame>)
    requires Nested(run, s, st) && Disciplined(s, s', st)
    ensures Nested(run, s', st)
  {
    hide Live, SameSaves;
    if |st| >= 1 {
      assert st[0] in st;
      LiveLevel(run, s, st[0]);
      LiveCarries(run, s, s', st[0]);
    }
    if |st| == 2 {
      assert st[1] in st;
      LiveLevel(run, s, st[1]);
      LiveCarries(run, s, s', st[1]);
    }
  }

  lemma DeviceIsDisciplined(s: CpuState, s': CpuState, st: seq<Frame>)
    requires DeviceMoved(s, s')
    ensures Disciplined(s, s', st)
  {
  }

  lemma NestedStep(run: seq<CpuState>, evs: seq<Event>, i: nat)
    requires |run| == |evs| + 1 && i < |evs| && Moves(run, evs, i)
    requires Nested(run, run[i], StackAt(run, evs, i))
    ensures Nested(run, run[i + 1], StackAt(run, evs, i + 1))
  {
    hide Interrupted, ReturnsFrom, Nested, Disciplined, LevelOf, DeviceMoved;
    var s, s', st := run[i], run[i + 1], StackAt(run, evs, i);
    match evs[i]
    case Poll(env) =>
      TakenEffect(run, s, i, env);
      if Interrupted(s, env).1 {
        NestedAfterTake(run, s, s', st, i, env);
      }
    case Return(_) => NestedAfterReturn(run, s, s', st);
    case Device =>
      DeviceIsDisciplined(s, s', st);
      NestedAfterDisciplined(run, s, s', st);
    case Run => NestedAfterDisciplined(run, s, s', st);
  }

  lemma {:induction false} NestedAlways(run: seq<CpuState>, evs: seq<Event>, i: nat)
    requires ValidRun(run, evs) && i <= |evs|
    ensures Nested(run, run[i], StackAt(run, evs, i))
    decreases i
  {
    hide Nested, Moves, StackAt;
    if i == 0 {
      NestedAtStart(run, evs);
    } else {
      NestedAlways(run, evs, i - 1);
      NestedStep(run, evs, i - 1);
    }
  }

  lemma NestedAtStart(run: seq<CpuState>, evs: seq<Event>)
    requires |run| == |evs| + 1 && Idle(run[0])
    ensures Nested(run, run[0], StackAt(run, evs, 0))
  {
  }

  /** Transparency. Interrupts nest at most two deep, each level at most once; a live save register is never
      overwritten; no interrupt is taken with a delay slot pending; and each return restores the PC, all
      thirteen STATUS32 bits and the BTA of the state its interrupt struck. */
  lemma InterruptsAreTransparent(run: seq<CpuState>, evs: seq<Event>, i: nat)
    requires ValidRun(run, evs) && i < |evs|
    ensures Nested(run, run[i], StackAt(run, evs, i))
    ensures evs[i].Poll? && Interrupted(run[i], evs[i].env).1 ==>
              run[i].delay.NoSlot? && StackAt(run, evs, i + 1) == StackAt(run, evs, i) + [Frame(LevelOf(run[i]), i)]
    ensures evs[i].Return? ==>
              var st := StackAt(run, evs, i);
              && st != [] && StackAt(run, evs, i + 1) == st[..|st| - 1]
              && st[|st| - 1].at < |run| && Back(run[i + 1], run[st[|st| - 1].at])
  {
    hide ReturnsFrom, Nested, Disciplined, EnteredL1, EnteredL2, Vector;
    NestedAlways(run, evs, i);
    assert Moves(run, evs, i);
    if evs[i].Return? {
      NestedAfterReturn(run, run[i], run[i + 1], StackAt(run, evs, i));
    }
  }

  /** The shortest such run: an idle machine takes an interrupt whose handler is just its return, and is back where
      it was. */
  lemma TakeThenReturn(s: CpuState, env: Option<Env>, code: Code)
    requires Idle(s) && Interrupted(s, env).1
    requires var s1 := Interrupted(s, env).0;
             code(s1.pc).Some? && code(s1.pc).value.insn == Jump(Reg(Link(LevelOf(s))), AL, false, false, true)
    ensures var s1 := Interrupted(s, env).0;
            var (s2, p) := Instruction(s1, code);
            && p == Retired && ValidRun([s, s1, s2], [Poll(env), Return(LevelOf(s))]) && Back(s2, s)
            && s2.mem == s.mem && SameRegsBut(s, s2, Link(LevelOf(s)))
  {
    hide Instruction, Interrupted, ReturnsFrom, Status32, WithStatus32, LevelOf, Back, Nested, Live;
    var s1 := Interrupted(s, env).0;
    var s2 := Instruction(s1, code).0;
    TakenRegs(s, env);
    JumpReturns(s1, code, LevelOf(s));
    var run, evs := [s, s1, s2], [Poll(env), Return(LevelOf(s))];
    assert StackAt(run, evs, 0) == [];
    assert StackAt(run, evs, 1) == [Frame(LevelOf(s), 0)];
    assert Moves(run, evs, 0) && Moves(run, evs, 1);
    NestedAlways(run, evs, 1);
    NestedAfterReturn(run, s1, s2, StackAt(run, evs, 1));
    ReturnEffect(s1, s2, LevelOf(s));
  }

  predicate SameRegsBut(s: CpuState, s': CpuState, link: nat) {
    forall r: nat :: r < 64 && r != link ==> s'.regs[r] == s.regs[r]
  }

  lemma TakenRegs(s: CpuState, env: Option<Env>)
    requires Interrupted(s, env).1
    ensures var s1 := Interrupted(s, env).0;
            && SameRegsBut(s, s1, Link(LevelOf(s))) && s1.mem == s.mem && s1.delay.NoSlot?
            && s1.status.l && !s1.status.u && (LevelOf(s) == 1 || LevelOf(s) == 2)
  {
    hide Vector, Status32;
  }

  lemma JumpReturns(s: CpuState, code: Code, level: nat)
    requires code(s.pc).Some? && code(s.pc).value.insn == Jump(Reg(Link(level)), AL, false, false, true)
    requires s.delay.NoSlot? && s.status.l && !s.status.u && (level == 1 || level == 2)
    ensures Instruction(s, code).1 == Retired && ReturnsFrom(s, Instruction(s, code).0, level)
  {
    hide WithStatus32;
  }

  // ----- When an interrupt is taken -----

  /** The line's level is enabled and not in progress. */
  predicate Deliverable(s: CpuState, irq: nat) {
    if irq in s.irqLev then s.status.e2 && !s.status.a2 else s.status.e1 && !s.status.a1
  }

  lemma {:induction false} LowestIsPending(pending: set<nat>, i: nat)
    ensures LowestFrom(pending, i) in pending || LowestFrom(pending, i) >= 32
    ensures forall j: nat :: i <= j < LowestFrom(pending, i) && j < 32 ==> j !in pending
    decreases 32 - i
  {
    if i < 32 && i !in pending {
      LowestIsPending(pending, i + 1);
    }
  }

  /** `irq` is the lowest pending line. */
  predicate IsLowest(s: CpuState, irq: nat) {
    irq < 32 && irq in s.irqPending && forall j: nat :: j < irq ==> j !in s.irqPending
  }

  /** An interrupt is taken exactly when no delay slot is pending and the lowest pending line is deliverable: a
      blocked lower line holds back every higher one. Taking it clears that line and no other. */
  lemma TakenExactlyWhen(s: CpuState, env: Option<Env>)
    ensures Interrupted(s, env).1 <==> s.delay.NoSlot? && exists irq: nat :: IsLowest(s, irq) && Deliverable(s, irq)
    ensures forall irq: nat :: IsLowest(s, irq) && Interrupted(s, env).1 ==>
              && Interrupted(s, env).0.irqPending == s.irqPending - {irq}
              && Interrupted(s, env).0.pc == Vector(s, env, irq)
  {
    var low := LowestFrom(s.irqPending, 0);
    LowestIsPending(s.irqPending, 0);
    hide Vector, Status32, LowestFrom, Deliverable;
    forall irq: nat | IsLowest(s, irq) ensures irq == low {
      assert low <= irq;
    }
    if low < 32 {
      assert IsLowest(s, low);
      LowestDecides(s, env, low);
    }
  }

  lemma LowestDecides(s: CpuState, env: Option<Env>, low: nat)
    requires low == LowestFrom(s.irqPending, 0) < 32
    ensures Interrupted(s, env).1 == (s.delay.NoSlot? && Deliverable(s, low))
    ensures Interrupted(s, env).1 ==>
              Interrupted(s, env).0.irqPending == s.irqPending - {low} && Interrupted(s, env).0.pc == Vector(s, env, low)
  {
    hide Vector, Status32, LowestFrom;
  }

  // ----- Where an interrupt lands, and what it records -----

  /** A taken line lands in its own slot of eight bytes behind the vector base, or, if its NCO channel is programmed, at
      that channel's target whatever the base; ICAUSE of the level it is taken at names the line. */
  lemma TakenLandsAt(s: CpuState, env: Option<Env>, irq: nat)
    requires IsLowest(s, irq) && Interrupted(s, env).1
    ensures var s', programmed := Interrupted(s, env).0, env.Some? && irq in env.value.nco;
            && (!programmed ==> s'.pc == (s.vectorBase + 8 * irq) % 0x1_0000_0000)
            && (programmed ==> s'.pc == env.value.nco[irq])
            && (irq in s.irqLev ==> s'.icause2 == irq && s'.icause1 == s.icause1)
            && (irq !in s.irqLev ==> s'.icause1 == irq && s'.icause2 == s.icause2)
  {
    hide Interrupted, IsLowest, Status32;
    TakenIs(s, env, irq);
  }

  lemma TakenIs(s: CpuState, env: Option<Env>, irq: nat)
    requires IsLowest(s, irq) && Interrupted(s, env).1
    ensures Interrupted(s, env).0 ==
            if irq in s.irqLev then EnteredL2(s, irq, Vector(s, env, irq)) else EnteredL1(s, irq, Vector(s, env, irq))
    ensures if irq in s.irqLev then s.status.e2 && !s.status.a2 else s.status.e1 && !s.status.a1
  {
    LowestIs(s, irq);
    hide EnteredL1, EnteredL2, Vector, LowestFrom;
  }

  lemma LowestIs(s: CpuState, irq: nat)
    requires IsLowest(s, irq)
    ensures LowestFrom(s.irqPending, 0) == irq
  {
    LowestIsPending(s.irqPending, 0);
    hide LowestFrom;
    var low := LowestFrom(s.irqPending, 0);
    assert low <= irq;
  }

  /** Two lines no channel of the NCO serves, taken at the same base, land 8 times their distance apart, and their slots
      do not overlap. */
  lemma SlotsAreApart(s: CpuState, s': CpuState, env: Option<Env>, env': Option<Env>, i: nat, j: nat)
    requires IsLowest(s, i) && Interrupted(s, env).1 && (env.Some? ==> i !in env.value.nco)
    requires IsLowest(s', j) && Interrupted(s', env').1 && (env'.Some? ==> j !in env'.value.nco)
    requires s'.vectorBase == s.vectorBase && i < j
    ensures var low, high := Interrupted(s, env).0.pc, Interrupted(s', env').0.pc;
            (high - low) % 0x1_0000_0000 == 8 * (j - i) && 8 <= 8 * (j - i) <= 0x1_0000_0000 - 8
  {
    hide *;
    IsALine(s, i);
    IsALine(s', j);
    LandsInSlot(s, env, i);
    LandsInSlot(s', env', j);
    SlotDistance(s.vectorBase, i, j);
  }

  lemma IsALine(s: CpuState, irq: nat)
    requires IsLowest(s, irq)
    ensures irq < 32
  {
  }

  function SlotAddress(base: u32, irq: nat): u32 { (base + 8 * irq) % 0x1_0000_0000 }

  lemma LandsInSlot(s: CpuState, env: Option<Env>, irq: nat)
    requires IsLowest(s, irq) && Interrupted(s, env).1 && (env.Some? ==> irq !in env.value.nco)
    ensures Interrupted(s, env).0.pc == SlotAddress(s.vectorBase, irq)
  {
    hide Interrupted, IsLowest;
    TakenLandsAt(s, env, irq);
  }

  lemma SlotDistance(base: u32, i: nat, j: nat)
    requires i < j < 32
    ensures (SlotAddress(base, j) - SlotAddress(base, i)) % 0x1_0000_0000 == 8 * (j - i)
  {
    var low: int, high: int := SlotAddress(base, i), SlotAddress(base, j);
    assert low == base + 8 * i || low == base + 8 * i - 0x1_0000_0000;
    assert high == base + 8 * j || high == base + 8 * j - 0x1_0000_0000;
    assert high - low == 8 * (j - i) || high - low == 8 * (j - i) - 0x1_0000_0000;
  }

  /** What entry at each level saves and sets: the link register (r29 or r30), STATUS32 and BTA of the level, a copy of
      r0 to r3; A of the level on, its E off (level 1 turns E2 off with E1, level 2 leaves E1 on), DE and U off, L on. */
  lemma EntrySavesAndMasks(s: CpuState, env: Option<Env>, irq: nat)
    requires IsLowest(s, irq) && Interrupted(s, env).1
    ensures var s', t := Interrupted(s, env).0, Interrupted(s, env).0.status;
            && s'.shadow == [s.regs[0], s.regs[1], s.regs[2], s.regs[3]] && s'.mem == s.mem && s'.lpStart == s.lpStart
            && s'.lpEnd == s.lpEnd && !t.e2 && !t.de && !t.u && t.l
            && t.h == s.status.h && t.ae == s.status.ae && AluFlags(t) == AluFlags(s.status)
            && (if irq in s.irqLev then
                  && s'.regs == s.regs[30 := s.pc] && s'.status32L2 == Status32(s.status) && s'.btaL2 == s.bta
                  && s'.status32L1 == s.status32L1 && s'.btaL1 == s.btaL1
                  && t.a2 && !s.status.a2 && t.a1 == s.status.a1 && t.e1 == s.status.e1
                else
                  && s'.regs == s.regs[29 := s.pc] && s'.status32L1 == Status32(s.status) && s'.btaL1 == s.bta
                  && s'.status32L2 == s.status32L2 && s'.btaL2 == s.btaL2
                  && t.a1 && !s.status.a1 && t.a2 == s.status.a2 && !t.e1 && s.status.e1)
  {
    hide Interrupted, IsLowest, Status32, Vector;
    TakenIs(s, env, irq);
    assert s.regs[..4] == [s.regs[0], s.regs[1], s.regs[2], s.regs[3]];
  }

  /** A sleeping CPU executes nothing: its step is a service, and it wakes exactly when that takes an interrupt. */
  lemma SleepingWakesOnInterrupt(m: Machine, code: Code, env: Option<Env>, halts: bool)
    requires m.s.sleeping && !m.s.halted
    ensures var (m', taken) := Serviced(m, env);
            && Stepped(m, code, env, halts).1
            && Stepped(m, code, env, halts).0 == m'.(s := m'.s.(sleeping := m'.s.sleeping && !taken))
  {
    hide Serviced;
  }

  /** A halted CPU does not move, and that is no fault. */
  lemma HaltedDoesNotMove(m: Machine, code: Code, env: Option<Env>, halts: bool)
    requires m.s.halted
    ensures Stepped(m, code, env, halts) == (m, true)
  {
  }

  /** Without a peripheral bank there is no spin detector, and the bank's lines stay what they were. */
  lemma WithoutABank(m: Machine, halts: bool)
    ensures Watched(m, None, halts) == (m, false)
    ensures Serviced(m, None).0.bankIrqs == m.bankIrqs && Serviced(m, None).0.tightCount == m.tightCount
    ensures Polled(m.s, None, m.bankIrqs) == m.s
  {
    Timers.NeverResetsWithoutABank(m.s, m.acc + 176);
    hide Ticked, Interrupted;
  }

  /** A fault ends the step where it struck: the PC, the status, the memory and the instruction count stay, no device moves;
      a pending slot is consumed, BLINK is already written for a linking one, and a loop that was ending has counted. */
  lemma FaultsStayPut(m: Machine, code: Code, env: Option<Env>, halts: bool)
    requires !m.s.halted && !m.s.sleeping && Instruction(m.s, code).1 == Faulted
    ensures var s' := Instruction(m.s, code).0;
            && Stepped(m, code, env, halts) == (m.(s := s'), false)
            && s' == m.s.(regs := s'.regs, delay := NoSlot, pcWritten := s'.pcWritten)
            && forall r: nat :: r < 64 && r != 31 && r != 60 ==> s'.regs[r] == m.s.regs[r]
  {
    hide Executed, Watched, Serviced;
  }

  /** The poll looks once in 256 instructions, and brings in the UART's request as line 5 with whatever the bank holds. */
  lemma PollBringsLines(s: CpuState, env: Env, bankIrqs: set<nat>, irq: nat)
    ensures var s' := Polled(s, Some(env), bankIrqs);
            && s' == s.(irqPending := s'.irqPending)
            && (irq in s'.irqPending <==>
                  irq in s.irqPending || (s.insns % 256 == 0 && ((env.uart && irq == 5) || irq in bankIrqs)))
  {
  }

  // ----- Which level can nest in which -----

  /** Handlers that also leave the enable bits alone. */
  ghost predicate EnablesKept(run: seq<CpuState>, evs: seq<Event>)
    requires |run| == |evs| + 1
  {
    forall i: nat :: i < |evs| && evs[i].Run? && StackAt(run, evs, i) != [] ==>
      run[i + 1].status.e1 == run[i].status.e1 && run[i + 1].status.e2 == run[i].status.e2
  }

  /** Then a level 1 handler is never interrupted, so the only nesting is level 1 inside level 2. */
  lemma {:induction false} OnlyL1NestsInL2(run: seq<CpuState>, evs: seq<Event>, i: nat)
    requires ValidRun(run, evs) && EnablesKept(run, evs) && i <= |evs|
    ensures var st := StackAt(run, evs, i);
            && (st != [] && st[|st| - 1].level == 1 ==> !run[i].status.e1 && !run[i].status.e2)
            && (|st| == 2 ==> st[0].level == 2 && st[1].level == 1)
    decreases i
  {
    hide Interrupted, ReturnsFrom, Disciplined, Nested, Live, LevelOf;
    if i > 0 {
      OnlyL1NestsInL2(run, evs, i - 1);
      NestedAlways(run, evs, i - 1);
      NestedAlways(run, evs, i);
      var s, s', st := run[i - 1], run[i], StackAt(run, evs, i - 1);
      assert Moves(run, evs, i - 1);
      LevelsOnTop(run, s, st);
      LevelsOnTop(run, s', StackAt(run, evs, i));
      if evs[i - 1].Poll? {
        TakenEnables(s, evs[i - 1].env);
      }
    }
  }

  lemma LevelsOnTop(run: seq<CpuState>, s: CpuState, st: seq<Frame>)
    requires Nested(run, s, st)
    ensures |st| <= 2
    ensures |st| == 2 ==> st[1].level == 3 - st[0].level && (st[0].level == 1 || st[0].level == 2)
    ensures st != [] ==> st[|st| - 1].level == 1 || st[|st| - 1].level == 2
  {
  }

  lemma TakenEnables(s: CpuState, env: Option<Env>)
    ensures var (s', taken) := Interrupted(s, env);
            if taken then
              && (LevelOf(s) == 1 ==> s.status.e1 && !s'.status.e1 && !s'.status.e2)
              && (LevelOf(s) == 2 ==> s.status.e2)
            else s' == s
  {
    hide Vector, Status32;
  }

  // ----- Steps are made of these events -----

  /** The detector lets a retired instruction pass: it neither stops the step nor fast-forwards. */
  predicate Passes(m: Machine, env: Option<Env>, halts: bool) {
    !Watched(m, env, halts).1 && Watched(m, env, halts).0.s == m.s
  }

  lemma WatchedKeepsTheBank(m: Machine, env: Option<Env>, halts: bool)
    ensures var w := Watched(m, env, halts).0;
            w.acc == m.acc && w.bankAcc == m.bankAcc && w.bankIrqs == m.bankIrqs
  {
  }

  /** A step that retires an instruction, the spin detector letting it pass and no watchdog resetting, is that
      instruction, then device activity, then one poll of the interrupt logic. */
  lemma StepIsThreeEvents(m: Machine, code: Code, env: Option<Env>, halts: bool) returns (mid: CpuState)
    requires !m.s.halted && !m.s.sleeping && Instruction(m.s, code).1 == Retired
    requires var s := Instruction(m.s, code).0;
             Passes(m.(s := s), env, halts) && !ResetsWithin(s, m.acc + 176, env)
    ensures DeviceMoved(Instruction(m.s, code).0, mid)
    ensures Stepped(m, code, env, halts).0.s == Interrupted(mid, env).0 && Stepped(m, code, env, halts).1
  {
    hide Instruction, Watched, Interrupted, TicksFrom, ResetsWithin, BankTicked;
    var s := Instruction(m.s, code).0;
    WatchedKeepsTheBank(m.(s := s), env, halts);
    Timers.TicksMoveDevices(s, m.acc + 176, env);
    var bankIrqs := BankTicked(m.bankAcc, m.bankIrqs, env).1;
    mid := Polled(Ticked(s, m.acc, env).0, env, bankIrqs);
  }
}
