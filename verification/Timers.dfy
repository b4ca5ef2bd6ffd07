/** The ARC timers: their rate, their period, and the watchdog fast-forward. */
module Timers {
  import opened Words
  import opened Registers
  import opened CpuModel

  // ----- Rate -----

  /** `k` timer ticks. */
  function TicksN(s: CpuState, env: Option<Env>, k: nat): CpuState {
    if k == 0 then s else BothTicked(TicksN(s, env, k - 1), env)
  }

  lemma {:induction false} TickThenTicks(s: CpuState, env: Option<Env>, k: nat)
    ensures TicksN(BothTicked(s, env), env, k) == TicksN(s, env, k + 1)
  {
    hide BothTicked;
    if k > 0 {
      TickThenTicks(s, env, k - 1);
    }
  }

  lemma {:induction false} TicksAdd(s: CpuState, env: Option<Env>, j: nat, k: nat)
    ensures TicksN(TicksN(s, env, j), env, k) == TicksN(s, env, j + k)
  {
    hide BothTicked;
    if k > 0 {
      TicksAdd(s, env, j, k - 1);
    }
  }

  lemma {:induction false} TicksFromAreDue(s: CpuState, acc: nat, env: Option<Env>)
    ensures TicksFrom(s, acc, env) == (TicksN(s, env, acc / 100), acc % 100)
    decreases acc
  {
    hide BothTicked;
    if acc >= 100 {
      TicksFromAreDue(BothTicked(s, env), acc - 100, env);
      assert (acc - 100) / 100 + 1 == acc / 100;
      TickThenTicks(s, env, (acc - 100) / 100);
    }
  }

  /** `n` calls of the tick routine. */
  function Calls(s: CpuState, acc: nat, env: Option<Env>, n: nat): (CpuState, nat) {
    if n == 0 then (s, acc)
    else
      var (s', acc') := Calls(s, acc, env, n - 1);
      Ticked(s', acc', env)
  }

  /** n calls make exactly floor((acc + 176 n) / 100) ticks and leave an accumulator below 100. */
  lemma {:induction false} RateIsExact(s: CpuState, acc: nat, env: Option<Env>, n: nat)
    requires acc < 100
    ensures Calls(s, acc, env, n) == (TicksN(s, env, (acc + 176 * n) / 100), (acc + 176 * n) % 100)
  {
    hide BothTicked, TicksN;
    if n == 0 {
      NoTicks(s, env);
    } else {
      RateIsExact(s, acc, env, n - 1);
      var due := acc + 176 * (n - 1);
      var s1 := TicksN(s, env, due / 100);
      TicksFromAreDue(s1, due % 100 + 176, env);
      TicksAdd(s, env, due / 100, (due % 100 + 176) / 100);
      assert due / 100 + (due % 100 + 176) / 100 == (due + 176) / 100;
    }
  }

  lemma NoTicks(s: CpuState, env: Option<Env>)
    ensures TicksN(s, env, 0) == s
  {
  }

  // ----- Period -----

  /** `k` ticks of one timer. */
  function TimerAfter(t: Timer, mayKeep: bool, k: nat): Timer {
    if k == 0 then t else TimerTicked(TimerAfter(t, mayKeep, k - 1), mayKeep).0
  }

  predicate Expires(t: Timer) { t.limit != 0 && Wrap(t.count + 1) >= t.limit }

  /** How many of the next `k` ticks expire. */
  function Expiries(t: Timer, mayKeep: bool, k: nat): nat {
    if k == 0 then 0
    else Expiries(t, mayKeep, k - 1) + (if Expires(TimerAfter(t, mayKeep, k - 1)) then 1 else 0)
  }

  lemma DivisionStep(x: nat, limit: nat)
    requires limit > 0
    ensures (x + 1) % limit == (if x % limit + 1 == limit then 0 else x % limit + 1)
    ensures (x + 1) / limit == x / limit + (if x % limit + 1 == limit then 1 else 0)
  {
    var q, r := x / limit, x % limit;
    if r + 1 == limit {
      Quotient(x + 1, limit, q + 1, 0);
    } else {
      Quotient(x + 1, limit, q, r + 1);
    }
  }

  lemma {:induction false} ProductStep(a: nat, b: nat, w: nat)
    requires a < b
    ensures a * w + w <= b * w
  {
    assert b * w == (b - 1) * w + w;
    if a < b - 1 {
      ProductStep(a, b - 1, w);
    }
  }

  lemma Quotient(x: nat, limit: nat, q: nat, r: nat)
    requires r < limit && x == q * limit + r
    ensures x / limit == q && x % limit == r
  {
    var q' := x / limit;
    assert x == q' * limit + x % limit;
    if q < q' {
      ProductStep(q, q', limit);
    } else if q' < q {
      ProductStep(q', q, limit);
    }
  }

  lemma TickBelowLimit(t: Timer, mayKeep: bool, count: u32, ip: bool)
    requires count < t.limit && !(mayKeep && t.keep)
    ensures var expires := count + 1 == t.limit;
            && TimerTicked(t.(count := count, ip := ip), mayKeep).0 ==
               t.(count := if expires then 0 else count + 1, ip := ip || expires)
            && Expires(t.(count := count, ip := ip)) == expires
  {
  }

  /** A timer that restarts: from COUNT = c below LIMIT, k ticks leave COUNT = (c + k) mod LIMIT after exactly
      (c + k) div LIMIT expiries. */
  lemma {:induction false} PeriodIsExact(t: Timer, mayKeep: bool, k: nat)
    requires t.limit > 0 && t.count < t.limit && !(mayKeep && t.keep)
    ensures TimerAfter(t, mayKeep, k) ==
            t.(count := (t.count + k) % t.limit, ip := t.ip || (t.count + k) / t.limit > 0)
    ensures Expiries(t, mayKeep, k) == (t.count + k) / t.limit
  {
    hide TimerTicked, Expires;
    if k == 0 {
      Quotient(t.count, t.limit, 0, t.count);
    } else {
      PeriodIsExact(t, mayKeep, k - 1);
      DivisionStep(t.count + k - 1, t.limit);
      var before := TimerAfter(t, mayKeep, k - 1);
      TickBelowLimit(t, mayKeep, before.count, before.ip);
    }
  }

  /** A timer told to keep counting expires at every tick from LIMIT on, until its count wraps. */
  lemma {:induction false} KeptTimerStaysExpired(t: Timer, k: nat)
    requires t.limit > 0 && t.count < t.limit && t.keep && t.count + k < 0x1_0000_0000
    ensures TimerAfter(t, true, k) == t.(count := t.count + k, ip := t.ip || t.count + k >= t.limit)
    ensures Expiries(t, true, k) == (if t.count + k < t.limit then 0 else t.count + k - t.limit + 1)
  {
    hide TimerTicked, Expires;
    if k > 0 {
      KeptTimerStaysExpired(t, k - 1);
      var before := TimerAfter(t, true, k - 1);
      KeptTick(t, before.count, before.ip);
    }
  }

  lemma KeptTick(t: Timer, count: u32, ip: bool)
    requires t.limit > 0 && t.keep && count + 1 < 0x1_0000_0000
    ensures var expires := count + 1 >= t.limit;
            && TimerTicked(t.(count := count, ip := ip), true).0 == t.(count := count + 1, ip := ip || expires)
            && Expires(t.(count := count, ip := ip)) == expires
  {
  }

  // ----- The two timers together -----

  predicate NoWatchdog(s: CpuState) { !IsWatchdog(s.timer0) && !IsWatchdog(s.timer1) }

  function Lines(s: CpuState, k: nat): set<nat> {
    (if s.timer0.ie && Expiries(s.timer0, true, k) > 0 then {3} else {}) +
    (if s.timer1.ie && Expiries(s.timer1, false, k) > 0 then {s.timer1Irq} else {})
  }

  lemma {:induction false} SettingsKept(t: Timer, mayKeep: bool, k: nat)
    ensures var t' := TimerAfter(t, mayKeep, k);
            t'.limit == t.limit && t'.ie == t.ie && t'.keep == t.keep && t'.w == t.w
  {
    if k > 0 {
      SettingsKept(t, mayKeep, k - 1);
    }
  }

  function AfterTicks(s: CpuState, k: nat): CpuState {
    s.(timer0 := TimerAfter(s.timer0, true, k), timer1 := TimerAfter(s.timer1, false, k),
       irqPending := s.irqPending + Lines(s, k))
  }

  lemma OneMoreTick(s: CpuState, k: nat)
    ensures AfterTicks(s, k + 1).irqPending ==
            AfterTicks(s, k).irqPending
            + (if TimerTicked(TimerAfter(s.timer0, true, k), true).1 then {3} else {})
            + (if TimerTicked(TimerAfter(s.timer1, false, k), false).1 then {s.timer1Irq} else {})
  {
    SettingsKept(s.timer0, true, k);
    SettingsKept(s.timer1, false, k);
    hide TimerAfter;
  }

  /** Ticks of which none asks for a reset, or any ticks of a CPU without a peripheral bank, change the two timers
      independently and raise exactly the lines of those that expired; nothing else in the CPU moves. */
  lemma {:induction false} TicksWithoutReset(s: CpuState, env: Option<Env>, k: nat)
    requires env.None? || forall i: nat :: i < k ==> !ResetsAt(s, i)
    ensures TicksN(s, env, k) == AfterTicks(s, k)
  {
    hide TimerTicked, Lines, Expires;
    if k == 0 {
      assert Lines(s, 0) == {} by { NoLines(s); }
    } else {
      TicksWithoutReset(s, env, k - 1);
      assert env.Some? ==> !ResetsAt(s, k - 1);
      OneMoreTick(s, k - 1);
    }
  }

  lemma NoLines(s: CpuState)
    ensures Lines(s, 0) == {}
  {
  }

  /** Tick `i` from here (counting from 0) asks for a watchdog reset. */
  predicate ResetsAt(s: CpuState, i: nat) {
    WatchdogFires(s.(timer0 := TimerAfter(s.timer0, true, i), timer1 := TimerAfter(s.timer1, false, i)))
  }

  lemma QuietWithoutWatchdog(s: CpuState, i: nat)
    requires NoWatchdog(s)
    ensures !ResetsAt(s, i)
  {
    SettingsKept(s.timer0, true, i);
    SettingsKept(s.timer1, false, i);
    hide TimerAfter;
  }

  lemma QuietTick(s: CpuState, env: Option<Env>)
    requires NoWatchdog(s)
    ensures !WatchdogFires(s) && NoWatchdog(BothTicked(s, env))
  {
  }

  /** Ticks of which none resets change only what devices can. */
  lemma {:induction false} TicksMoveDevices(s: CpuState, acc: nat, env: Option<Env>)
    requires !ResetsWithin(s, acc, env)
    ensures DeviceMoved(s, TicksFrom(s, acc, env).0)
    decreases acc
  {
    hide WatchdogFires;
    if acc >= 100 {
      TickMovesDevices(s, env);
      hide BothTicked;
      TicksMoveDevices(BothTicked(s, env), acc - 100, env);
    }
  }

  lemma TickMovesDevices(s: CpuState, env: Option<Env>)
    requires !(WatchdogFires(s) && env.Some?)
    ensures DeviceMoved(s, BothTicked(s, env))
  {
    hide TimerTicked;
  }

  // ----- The watchdog fast-forward -----

  /** No tick before the k-th expires. */
  ghost predicate QuietFor(t: Timer, mayKeep: bool, k: nat) {
    forall i: nat :: i < k ==> !Expires(TimerAfter(t, mayKeep, i))
  }

  /** Ticks from here to the expiry, that tick included. */
  function Remaining(t: Timer): nat
    requires t.limit != 0
  {
    if t.count < t.limit then t.limit - t.count
    else if t.count == 0xFFFF_FFFF then t.limit + 1
    else 1
  }

  lemma ExpiryPoint(t: Timer, k: nat)
    requires t.limit != 0 && k < Remaining(t)
    ensures Expires(t.(count := Wrap(t.count + k))) == (k + 1 == Remaining(t))
    ensures Wrap(Wrap(t.count + k) + 1) == Wrap(t.count + k + 1)
  {
    assert t.count + k < 0x1_0000_0000 ==> Wrap(t.count + k) == t.count + k;
    assert t.count + k >= 0x1_0000_0000 ==> Wrap(t.count + k) == t.count + k - 0x1_0000_0000;
  }

  lemma TickBeforeExpiry(t: Timer, mayKeep: bool)
    requires !Expires(t)
    ensures TimerTicked(t, mayKeep) == (t.(count := Wrap(t.count + 1)), false, false)
  {
  }

  lemma {:induction false} CountsUp(t: Timer, mayKeep: bool, k: nat)
    requires t.limit != 0 && k < Remaining(t)
    ensures TimerAfter(t, mayKeep, k) == t.(count := Wrap(t.count + k))
    ensures Expires(TimerAfter(t, mayKeep, k)) == (k + 1 == Remaining(t))
  {
    hide TimerTicked, Expires, Remaining, Wrap;
    ExpiryPoint(t, k);
    if k == 0 {
      assert Wrap(t.count) == t.count by { SmallWrap(t.count); }
    } else {
      CountsUp(t, mayKeep, k - 1);
      ExpiryPoint(t, k - 1);
      TickBeforeExpiry(TimerAfter(t, mayKeep, k - 1), mayKeep);
    }
  }

  lemma SmallWrap(x: u32)
    ensures Wrap(x) == x
  {
  }

  /** The expiry comes exactly `Remaining` ticks from here. */
  lemma FirstExpiry(t: Timer, mayKeep: bool)
    requires t.limit != 0
    ensures QuietFor(t, mayKeep, Remaining(t) - 1) && Expires(TimerAfter(t, mayKeep, Remaining(t) - 1))
  {
    forall i: nat | i < Remaining(t) ensures Expires(TimerAfter(t, mayKeep, i)) == (i + 1 == Remaining(t)) {
      CountsUp(t, mayKeep, i);
    }
  }

  /** The fast-forward of an armed watchdog lands on a state ordinary ticks pass through before any expiry, if
      and only if COUNT is below LIMIT or about to wrap; when it does not, the very next tick expires anyway. */
  lemma FastForwardIsExact(t: Timer, mayKeep: bool)
    requires IsWatchdog(t)
    ensures (exists k: nat :: QuietFor(t, mayKeep, k) && TimerAfter(t, mayKeep, k) == Forwarded(t))
            <==> t.count < t.limit || t.count == 0xFFFF_FFFF
    ensures t.count < t.limit || t.count == 0xFFFF_FFFF ==>
              TimerAfter(t, mayKeep, Remaining(t) - 1) == Forwarded(t)
    ensures !(t.count < t.limit || t.count == 0xFFFF_FFFF) ==> Expires(t)
    ensures TimerTicked(Forwarded(t), mayKeep).2
  {
    if t.count < t.limit || t.count == 0xFFFF_FFFF {
      ForwardIsReached(t, mayKeep);
    } else {
      ForwardIsMissed(t, mayKeep);
    }
    ForwardedFiresNext(t, mayKeep);
  }

  lemma ForwardIsReached(t: Timer, mayKeep: bool)
    requires IsWatchdog(t) && (t.count < t.limit || t.count == 0xFFFF_FFFF)
    ensures QuietFor(t, mayKeep, Remaining(t) - 1) && TimerAfter(t, mayKeep, Remaining(t) - 1) == Forwarded(t)
  {
    hide *;
    ForwardPoint(t);
    FirstExpiry(t, mayKeep);
    CountsUp(t, mayKeep, Remaining(t) - 1);
  }

  lemma ForwardPoint(t: Timer)
    requires IsWatchdog(t) && (t.count < t.limit || t.count == 0xFFFF_FFFF)
    ensures t.limit != 0 && Remaining(t) >= 1 && Forwarded(t) == t.(count := Wrap(t.count + (Remaining(t) - 1)))
  {
  }

  lemma ForwardIsMissed(t: Timer, mayKeep: bool)
    requires IsWatchdog(t) && t.limit <= t.count < 0xFFFF_FFFF
    ensures Expires(t)
    ensures forall k: nat :: QuietFor(t, mayKeep, k) ==> TimerAfter(t, mayKeep, k) != Forwarded(t)
  {
    assert Wrap(t.count + 1) == t.count + 1;
    hide TimerTicked, Wrap;
    forall k: nat ensures QuietFor(t, mayKeep, k) ==> TimerAfter(t, mayKeep, k) != Forwarded(t) {
      if k > 0 {
        NotQuiet(t, mayKeep, k);
      }
    }
  }

  lemma NotQuiet(t: Timer, mayKeep: bool, k: nat)
    requires Expires(t) && k > 0
    ensures !QuietFor(t, mayKeep, k)
  {
    assert TimerAfter(t, mayKeep, 0) == t;
  }

  lemma ForwardedFiresNext(t: Timer, mayKeep: bool)
    requires IsWatchdog(t)
    ensures TimerTicked(Forwarded(t), mayKeep).2
  {
  }

  /** The tick, counting from 1, at which an armed watchdog resets the CPU. */
  function ResetTick(s: CpuState): nat
    requires !NoWatchdog(s)
  {
    if !IsWatchdog(s.timer1) then Remaining(s.timer0)
    else if !IsWatchdog(s.timer0) then Remaining(s.timer1)
    else if Remaining(s.timer0) <= Remaining(s.timer1) then Remaining(s.timer0)
    else Remaining(s.timer1)
  }

  lemma DogAt(t: Timer, mayKeep: bool, i: nat)
    requires IsWatchdog(t) ==> i < Remaining(t)
    ensures TimerTicked(TimerAfter(t, mayKeep, i), mayKeep).2 == (IsWatchdog(t) && i + 1 == Remaining(t))
  {
    SettingsKept(t, mayKeep, i);
    if IsWatchdog(t) {
      CountsUp(t, mayKeep, i);
    }
  }

  /** The reset fast-forwarding brings on the next tick is the reset ordinary ticks reach: the same state, and
      no reset before it. */
  lemma FastForwardReachesTheSameReset(s: CpuState, env: Env)
    requires !NoWatchdog(s)
    ensures forall i: nat :: i < ResetTick(s) - 1 ==> !ResetsAt(s, i)
    ensures BothTicked(FastForwarded(s), Some(env)) == TicksN(s, Some(env), ResetTick(s)) == Rebooted(s, env)
  {
    hide *;
    ResetsExactlyAt(s);
    ResetTickIsPositive(s);
    var k := ResetTick(s) - 1;
    TicksWithoutReset(s, Some(env), k);
    ForwardedResets(s, env);
    LastTickResets(s, env, k);
  }

  lemma ResetTickIsPositive(s: CpuState)
    requires !NoWatchdog(s)
    ensures ResetTick(s) >= 1
  {
  }

  lemma ResetsExactlyAt(s: CpuState)
    requires !NoWatchdog(s)
    ensures forall i: nat :: i < ResetTick(s) ==> ResetsAt(s, i) == (i == ResetTick(s) - 1)
  {
    hide TimerTicked, TimerAfter;
    forall i: nat | i < ResetTick(s) ensures ResetsAt(s, i) == (i == ResetTick(s) - 1) {
      DogAt(s.timer0, true, i);
      DogAt(s.timer1, false, i);
    }
  }

  lemma ForwardedResets(s: CpuState, env: Env)
    requires !NoWatchdog(s)
    ensures BothTicked(FastForwarded(s), Some(env)) == Rebooted(s, env)
  {
    hide Forwarded, Rebooted, TimerTicked;
    ForwardedFires(s);
    ResetIsFresh(FastForwarded(s), s, env);
  }

  lemma LastTickResets(s: CpuState, env: Env, k: nat)
    requires TicksN(s, Some(env), k) == AfterTicks(s, k) && ResetsAt(s, k)
    ensures TicksN(s, Some(env), k + 1) == Rebooted(s, env)
  {
    hide TimerAfter, Lines, Rebooted, TimerTicked;
    ResetIsFresh(AfterTicks(s, k), s, env);
    TicksAdd(s, Some(env), k, 1);
    OneTick(AfterTicks(s, k), Some(env));
  }

  lemma OneTick(s: CpuState, env: Option<Env>)
    ensures TicksN(s, env, 1) == BothTicked(s, env)
  {
    hide BothTicked;
    NoTicks(s, env);
    assert TicksN(s, env, 1) == BothTicked(TicksN(s, env, 0), env);
  }

  lemma ForwardedFires(s: CpuState)
    requires !NoWatchdog(s)
    ensures TimerTicked(Forwarded(s.timer0), true).2 || TimerTicked(Forwarded(s.timer1), false).2
  {
    hide TimerTicked;
    if IsWatchdog(s.timer0) {
      ForwardedFiresNext(s.timer0, true);
    } else {
      ForwardedFiresNext(s.timer1, false);
    }
  }

  /** A reset leaves nothing of the state it struck but the line of timer 1. */
  lemma ResetIsFresh(s: CpuState, s0: CpuState, env: Env)
    requires s.timer1Irq == s0.timer1Irq
    requires WatchdogFires(s)
    ensures BothTicked(s, Some(env)) == Rebooted(s0, env)
  {
    hide TimerTicked, ResetState;
  }

  /** What a watchdog reset leaves: control at 0 with every register 0, only E1 and E2 set in STATUS32, both timers off,
      nothing pending, every line at level 1, and the flash image in memory; the line of timer 1 alone stays. */
  lemma ResetInFigures(s: CpuState, env: Env)
    requires WatchdogFires(s)
    ensures var r := BothTicked(s, Some(env));
            && r.pc == 0 && (forall i: nat :: i < 64 ==> r.regs[i] == 0) && Status32(r.status) == 6
            && r.timer0.limit == 0 && r.timer1.limit == 0 && !r.timer0.ie && !r.timer1.ie && r.timer1Irq == s.timer1Irq
            && r.irqPending == {} && r.irqLev == {} && r.vectorBase == 0 && r.lpEnd == 0
            && r.mem == env.bootImage && r.delay.NoSlot? && !r.halted && !r.sleeping && r.insns == 0
    ensures NoWatchdog(BothTicked(s, Some(env)))
  {
    hide TimerTicked, Status32;
    assert BothTicked(s, Some(env)).status == RESET_STATUS.(e1 := true, e2 := true);
    ResetStatusIs();
  }

  lemma ResetStatusIs()
    ensures Status32(RESET_STATUS.(e1 := true, e2 := true)) == 6
  {
    hide FromBits;
    var b := StatusBits(RESET_STATUS.(e1 := true, e2 := true));
    OneBit(b);
    OneBit(b[1..]);
    OneBit(b[1..][1..]);
    AllClear(b[1..][1..][1..]);
  }

  lemma OneBit(bits: seq<bool>)
    requires bits != []
    ensures FromBits(bits) == (if bits[0] then 1 else 0) + 2 * FromBits(bits[1..])
  {
  }

  lemma {:induction false} AllClear(bits: seq<bool>)
    requires forall i: nat :: i < |bits| ==> !bits[i]
    ensures FromBits(bits) == 0
  {
    if bits != [] {
      AllClear(bits[1..]);
    }
  }

  lemma {:induction false} NeverResetsWithoutABank(s: CpuState, acc: nat)
    ensures !ResetsWithin(s, acc, None)
    decreases acc
  {
    hide BothTicked, WatchdogFires;
    if acc >= 100 {
      NeverResetsWithoutABank(BothTicked(s, None), acc - 100);
    }
  }

  /** What the reset leaves, the idle counts of the two timers apart. */
  predicate JustReset(s: CpuState, env: Env) {
    && s == Rebooted(s, env).(timer0 := s.timer0, timer1 := s.timer1)
    && s.timer0.limit == 0 && s.timer1.limit == 0
  }

  lemma ResetLeavesIt(s: CpuState, env: Env)
    requires WatchdogFires(s)
    ensures JustReset(BothTicked(s, Some(env)), env)
  {
    hide TimerTicked;
  }

  lemma IdleTicksKeepIt(s: CpuState, env: Env)
    requires JustReset(s, env)
    ensures !WatchdogFires(s) && JustReset(BothTicked(s, Some(env)), env)
  {
    assert s.irqPending + {} + {} == s.irqPending;
  }

  lemma {:induction false} TicksKeepIt(s: CpuState, acc: nat, env: Env)
    requires JustReset(s, env)
    ensures JustReset(TicksFrom(s, acc, Some(env)).0, env)
    decreases acc
  {
    hide JustReset, BothTicked;
    if acc >= 100 {
      IdleTicksKeepIt(s, env);
      TicksKeepIt(BothTicked(s, Some(env)), acc - 100, env);
    }
  }

  lemma {:induction false} ResetIsReached(s: CpuState, acc: nat, env: Env)
    requires ResetsWithin(s, acc, Some(env))
    ensures JustReset(TicksFrom(s, acc, Some(env)).0, env)
    decreases acc
  {
    hide JustReset, BothTicked, WatchdogFires;
    if WatchdogFires(s) {
      ResetLeavesIt(s, env);
      TicksKeepIt(BothTicked(s, Some(env)), acc - 100, env);
    } else {
      ResetIsReached(BothTicked(s, Some(env)), acc - 100, env);
    }
  }

  lemma {:induction false} NothingLowest(i: nat)
    ensures LowestFrom({}, i) >= 32
    decreases 32 - i
  {
    if i < 32 {
      NothingLowest(i + 1);
    }
  }

  /** The service in which a watchdog resets the chip: the CPU is fresh, no interrupt is taken however the UART calls, the
      bank's lines are down and the spin detector starts over. */
  lemma ResettingService(m: Machine, env: Env)
    requires ResetsWithin(m.s, m.acc + 176, Some(env))
    ensures var (m', taken) := Serviced(m, Some(env));
            && !taken && JustReset(m'.s, env) && m'.s.pc == 0 && m'.s.irqPending == {}
            && m'.bankIrqs == {} && m'.tightCount == 0 && m'.tightLastPc == 0xFFFF_FFFF
  {
    hide TicksFrom, ResetsWithin, EnteredL1, EnteredL2, Vector, LowestFrom;
    ResetIsReached(m.s, m.acc + 176, env);
    NothingLowest(0);
    var s1 := Ticked(m.s, m.acc, Some(env)).0;
    assert s1.irqPending == {};
    assert Polled(s1, AfterReset(Some(env)), {}) == s1;
  }

  // ----- What the fast-forward skips -----

  /** An enabled timer that expires within `n` ticks. */
  predicate TimerDue(t: Timer, n: nat) { t.ie && t.limit != 0 && Remaining(t) <= n }

  /** The timer lines due within `n` ticks. */
  function DueLines(s: CpuState, n: nat): set<nat> {
    (if TimerDue(s.timer0, n) then {3} else {}) + (if TimerDue(s.timer1, n) then {s.timer1Irq} else {})
  }

  lemma {:induction false} ExpiresWhenDue(t: Timer, mayKeep: bool, n: nat)
    ensures Expiries(t, mayKeep, n) > 0 <==> t.limit != 0 && Remaining(t) <= n
  {
    hide Expires;
    if n > 0 {
      ExpiresWhenDue(t, mayKeep, n - 1);
      if t.limit == 0 {
        NeverExpires(t, mayKeep, n - 1);
      } else if n - 1 < Remaining(t) {
        CountsUp(t, mayKeep, n - 1);
      }
    }
  }

  lemma NeverExpires(t: Timer, mayKeep: bool, n: nat)
    requires t.limit == 0
    ensures !Expires(TimerAfter(t, mayKeep, n))
  {
    SettingsKept(t, mayKeep, n);
    hide TimerAfter;
  }

  /** The lines ticks raise are those of the enabled timers that were due. */
  lemma LinesAreDue(s: CpuState, n: nat)
    ensures Lines(s, n) == DueLines(s, n)
  {
    ExpiresWhenDue(s.timer0, true, n);
    ExpiresWhenDue(s.timer1, false, n);
    hide Expiries, Remaining;
  }

  /** The timer is enabled and due before the watchdog resets. */
  predicate DueBeforeReset(s: CpuState, t: Timer)
    requires !NoWatchdog(s)
  {
    t.ie && t.limit != 0 && Remaining(t) < ResetTick(s)
  }

  /** When fast-forwarding skips no line: ordinary ticks raise one before the reset exactly when an enabled timer,
      either of them, is due before it. After the fast-forward the reset comes on the first tick in any case. */
  lemma FastForwardSkipsALine(s: CpuState, env: Env)
    requires !NoWatchdog(s)
    ensures var before := TicksN(s, Some(env), ResetTick(s) - 1);
            before.irqPending == s.irqPending + Lines(s, ResetTick(s) - 1)
    ensures Lines(s, ResetTick(s) - 1) != {} <==> DueBeforeReset(s, s.timer0) || DueBeforeReset(s, s.timer1)
    ensures BothTicked(FastForwarded(s), Some(env)) == Rebooted(s, env)
  {
    hide TimerAfter, BothTicked, TicksN, Lines, ResetsAt, Rebooted, ResetTick, Remaining, FastForwarded;
    FastForwardReachesTheSameReset(s, env);
    ResetTickIsPositive(s);
    TicksWithoutReset(s, Some(env), ResetTick(s) - 1);
    LinesAreDue(s, ResetTick(s) - 1);
    NotEmpty(s, ResetTick(s) - 1);
  }

  lemma NotEmpty(s: CpuState, n: nat)
    ensures DueLines(s, n) != {} <==> TimerDue(s.timer0, n) || TimerDue(s.timer1, n)
  {
    hide TimerDue;
    if TimerDue(s.timer0, n) {
      assert 3 in DueLines(s, n);
    } else if TimerDue(s.timer1, n) {
      assert s.timer1Irq in DueLines(s, n);
    }
  }

  // ----- Ticks in parts -----

  lemma {:induction false} TimerAfterAdds(t: Timer, mayKeep: bool, j: nat, k: nat)
    ensures TimerAfter(TimerAfter(t, mayKeep, j), mayKeep, k) == TimerAfter(t, mayKeep, j + k)
  {
    hide TimerTicked;
    if k > 0 {
      TimerAfterAdds(t, mayKeep, j, k - 1);
    }
  }

  lemma NothingExpired(t: Timer, mayKeep: bool, j: nat)
    ensures Expiries(TimerAfter(t, mayKeep, j), mayKeep, 0) == 0
  {
  }

  lemma {:induction false} ExpiriesAdd(t: Timer, mayKeep: bool, j: nat, k: nat)
    ensures Expiries(t, mayKeep, j) + Expiries(TimerAfter(t, mayKeep, j), mayKeep, k) == Expiries(t, mayKeep, j + k)
  {
    hide Expires, TimerTicked, TimerAfter;
    if k > 0 {
      ExpiriesAdd(t, mayKeep, j, k - 1);
      TimerAfterAdds(t, mayKeep, j, k - 1);
    } else {
      NothingExpired(t, mayKeep, j);
    }
  }

  lemma CountsDown(t: Timer, mayKeep: bool, k: nat)
    requires t.limit != 0 && k < Remaining(t)
    ensures TimerAfter(t, mayKeep, k).limit != 0 && Remaining(TimerAfter(t, mayKeep, k)) == Remaining(t) - k
  {
    hide *;
    CountsUp(t, mayKeep, k);
    NearerToExpiry(t, k);
  }

  lemma NearerToExpiry(t: Timer, k: nat)
    requires t.limit != 0 && k < Remaining(t)
    ensures Remaining(t.(count := Wrap(t.count + k))) == Remaining(t) - k
  {
    assert t.count + k < 0x1_0000_0000 ==> Wrap(t.count + k) == t.count + k;
    assert t.count + k >= 0x1_0000_0000 ==> Wrap(t.count + k) == t.count + k - 0x1_0000_0000;
  }

  /** No reset is due within `n` ticks. */
  predicate NoResetWithin(s: CpuState, n: nat) { NoWatchdog(s) || n < ResetTick(s) }

  lemma NoResetSoFar(s: CpuState, n: nat)
    requires NoResetWithin(s, n)
    ensures forall i: nat :: i < n ==> !ResetsAt(s, i)
  {
    hide ResetsAt, ResetTick;
    if NoWatchdog(s) {
      forall i: nat | i < n ensures !ResetsAt(s, i) {
        QuietWithoutWatchdog(s, i);
      }
    } else {
      ResetsExactlyAt(s);
    }
  }

  /** Passing ticks bring the reset nearer by as many. */
  lemma ResetComesNearer(s: CpuState, n: nat)
    requires NoResetWithin(s, n)
    ensures NoWatchdog(AfterTicks(s, n)) <==> NoWatchdog(s)
    ensures !NoWatchdog(s) ==> ResetTick(AfterTicks(s, n)) == ResetTick(s) - n
  {
    SettingsKept(s.timer0, true, n);
    SettingsKept(s.timer1, false, n);
    if IsWatchdog(s.timer0) {
      CountsDown(s.timer0, true, n);
    }
    if IsWatchdog(s.timer1) {
      CountsDown(s.timer1, false, n);
    }
    hide TimerAfter, Remaining, Lines;
  }

  lemma FiresNow(s: CpuState)
    ensures WatchdogFires(s) <==> !NoWatchdog(s) && ResetTick(s) == 1
  {
    if NoWatchdog(s) {
      QuietTick(s, None);
    } else {
      ResetTickIsPositive(s);
      ResetsExactlyAt(s);
      assert ResetsAt(s, 0) == WatchdogFires(s) by { NothingTicked(s); }
    }
    hide ResetsAt, ResetTick, WatchdogFires;
  }

  lemma NothingTicked(s: CpuState)
    ensures ResetsAt(s, 0) == WatchdogFires(s) && AfterTicks(s, 0) == s
  {
    hide WatchdogFires;
    NoLines(s);
  }

  lemma OneQuietTick(s: CpuState, env: Option<Env>)
    requires !WatchdogFires(s)
    ensures BothTicked(s, env) == AfterTicks(s, 1)
  {
    hide WatchdogFires, ResetsAt, BothTicked, TicksN;
    NothingTicked(s);
    TicksWithoutReset(s, env, 1);
    OneTick(s, env);
  }

  /** The due ticks hold a reset exactly when they reach the watchdog's. */
  lemma {:induction false} ResetsWhenDue(s: CpuState, acc: nat, env: Env)
    ensures ResetsWithin(s, acc, Some(env)) <==> !NoResetWithin(s, acc / 100)
    decreases acc
  {
    hide WatchdogFires, BothTicked, NoWatchdog, ResetTick, AfterTicks;
    FiresNow(s);
    if acc < 100 {
      if !NoWatchdog(s) {
        ResetTickIsPositive(s);
      }
    } else {
      assert (acc - 100) / 100 == acc / 100 - 1;
      if !WatchdogFires(s) {
        if !NoWatchdog(s) {
          ResetTickIsPositive(s);
        }
        OneQuietTick(s, Some(env));
        ResetComesNearer(s, 1);
        ResetsWhenDue(BothTicked(s, Some(env)), acc - 100, env);
      }
    }
  }

  /** Short of the reset the tick routine moves the timers and their lines and nothing else. */
  lemma TickedShortOfReset(s: CpuState, acc: nat, env: Env)
    requires NoResetWithin(s, (acc + 176) / 100)
    ensures !ResetsWithin(s, acc + 176, Some(env))
    ensures Ticked(s, acc, Some(env)) == (AfterTicks(s, (acc + 176) / 100), (acc + 176) % 100)
  {
    hide TicksFrom, TicksN, AfterTicks, ResetsAt, ResetsWithin, NoResetWithin;
    var k := (acc + 176) / 100;
    ResetsWhenDue(s, acc + 176, env);
    TicksFromAreDue(s, acc + 176, Some(env));
    NoResetSoFar(s, k);
    TicksWithoutReset(s, Some(env), k);
  }
}
