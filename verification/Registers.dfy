/** CPU state: core registers, STATUS32 and the auxiliary registers that control flow depends on.
    Interrupt masks are sets of line numbers. */
module Registers {
  import opened Words
  import opened Alu

  const ILINK1 := 29
  const ILINK2 := 30
  const BLINK := 31
  const LP_COUNT := 60

  /** The thirteen STATUS32 bits, in bit order. */
  datatype Status = Status(h: bool, e1: bool, e2: bool, a1: bool, a2: bool, ae: bool, de: bool, u: bool,
                           v: bool, c: bool, n: bool, z: bool, l: bool)

  const RESET_STATUS := Status(false, false, false, false, false, false, false, false, false, false, false, false, false)

  function FromBits(bits: seq<bool>): (r: nat)
    ensures r < Power2(|bits|)
  {
    if bits == [] then 0 else Bit(bits[0]) + 2 * FromBits(bits[1..])
  }

  function StatusBits(s: Status): seq<bool> {
    [s.h, s.e1, s.e2, s.a1, s.a2, s.ae, s.de, s.u, s.v, s.c, s.n, s.z, s.l]
  }

  /** STATUS32 as software reads it. */
  function Status32(s: Status): u32 {
    assert Power2(13) == 0x2000;
    FromBits(StatusBits(s))
  }

  function WithStatus32(val: u32): Status {
    Status(BitAt(val, 0), BitAt(val, 1), BitAt(val, 2), BitAt(val, 3), BitAt(val, 4), BitAt(val, 5), BitAt(val, 6),
           BitAt(val, 7), BitAt(val, 8), BitAt(val, 9), BitAt(val, 10), BitAt(val, 11), BitAt(val, 12))
  }

  lemma {:induction false} BitOfBits(bits: seq<bool>, i: nat)
    requires i < |bits|
    ensures BitAt(FromBits(bits), i) == bits[i]
    decreases i
  {
    hide BitAt;
    LowBit(bits[0], FromBits(bits[1..]), i);
    if i > 0 {
      BitOfBits(bits[1..], i - 1);
    }
  }

  lemma LowBit(b: bool, rest: nat, i: nat)
    ensures BitAt(Bit(b) + 2 * rest, i) == if i == 0 then b else BitAt(rest, i - 1)
  {
  }

  /** Saving STATUS32 and restoring it gives back all thirteen bits. */
  lemma StatusRoundTrip(s: Status)
    ensures WithStatus32(Status32(s)) == s
  {
    var b := StatusBits(s);
    forall i: nat | i < 13 ensures BitAt(Status32(s), i) == b[i] {
      BitOfBits(b, i);
    }
    hide BitAt, Status32;
  }

  /** The bit positions, and nothing above them. */
  lemma StatusBitsAre(s: Status)
    ensures var w := Status32(s);
            && (BitAt(w, 0) <==> s.h) && (BitAt(w, 1) <==> s.e1) && (BitAt(w, 2) <==> s.e2) && (BitAt(w, 3) <==> s.a1)
            && (BitAt(w, 4) <==> s.a2) && (BitAt(w, 5) <==> s.ae) && (BitAt(w, 6) <==> s.de) && (BitAt(w, 7) <==> s.u)
            && (BitAt(w, 8) <==> s.v) && (BitAt(w, 9) <==> s.c) && (BitAt(w, 10) <==> s.n) && (BitAt(w, 11) <==> s.z)
            && (BitAt(w, 12) <==> s.l) && w < 0x2000
  {
    hide BitAt, FromBits, Power2;
    var b := StatusBits(s);
    assert Status32(s) == FromBits(b);
    hide Status32;
    BitOfBits(b, 0);
    BitOfBits(b, 1);
    BitOfBits(b, 2);
    BitOfBits(b, 3);
    BitOfBits(b, 4);
    BitOfBits(b, 5);
    BitOfBits(b, 6);
    BitOfBits(b, 7);
    BitOfBits(b, 8);
    BitOfBits(b, 9);
    BitOfBits(b, 10);
    BitOfBits(b, 11);
    BitOfBits(b, 12);
    Thirteen();
  }

  lemma Thirteen()
    ensures Power2(13) == 0x2000
  {
  }

  datatype DelayState = NoSlot | DelaySlot(target: u32, isLink: bool)

  /** A timer with CONTROL bits 0 to 3: interrupt enable, keep counting, watchdog, interrupt pending. */
  datatype Timer = Timer(count: u32, limit: u32, ie: bool, keep: bool, w: bool, ip: bool)

  type Regs = r: seq<u32> | |r| == 64 witness Repeat(0, 64)

  datatype CpuState = CpuState(
    regs: Regs, mem: seq<byte>, pc: u32, status: Status,
    lpStart: u32, lpEnd: u32, bta: u32,
    status32L1: u32, status32L2: u32, btaL1: u32, btaL2: u32,
    icause1: nat, icause2: nat, vectorBase: u32,
    irqLev: set<nat>, irqPending: set<nat>,
    timer0: Timer, timer1: Timer, timer1Irq: nat,
    delay: DelayState, halted: bool, sleeping: bool, pcWritten: bool,
    shadow: seq<u32>, insns: nat)

  const OFF_TIMER := Timer(0, 0, false, false, false, false)

  function ResetState(mem: seq<byte>, timer1Irq: nat): CpuState {
    CpuState(Repeat(0, 64), mem, 0, RESET_STATUS, 0, 0, 0, 0, 0, 0, 0, 0, 0, 0, {}, {}, OFF_TIMER, OFF_TIMER, timer1Irq,
             NoSlot, false, false, false, Repeat(0, 4), 0)
  }

  function AluFlags(s: Status): Flags { Flags(s.z, s.n, s.c, s.v) }

  function WithAluFlags(s: Status, f: Flags): Status { s.(z := f.z, n := f.n, c := f.c, v := f.v) }

  /** None is a privilege violation or an illegal register. */
  function ReadReg(s: CpuState, r: nat): Option<u32> {
    if r == ILINK1 || r == ILINK2 then (if s.status.u then None else Some(s.regs[r]))
    else if r <= 60 then Some(s.regs[r])
    else if r == 62 then Some(0)
    else if r == 63 then Some(s.pc - s.pc % 4)
    else None
  }

  function WriteReg(s: CpuState, r: nat, val: u32): Option<CpuState> {
    if r == ILINK1 || r == ILINK2 then (if s.status.u then None else Some(s.(regs := s.regs[r := val])))
    else if r <= 60 then Some(s.(regs := s.regs[r := val]))
    else if r == 62 then Some(s)
    else None
  }

  /** Register access: r29 and r30 are closed to user mode, r61 is no register, r62 reads 0 and swallows writes, r63 reads
      the longword of the PC and cannot be written; a write changes the register it names. */
  lemma RegisterAccess(s: CpuState, r: nat, val: u32)
    ensures ReadReg(s, r).None? <==> r == 61 || r > 63 || (s.status.u && (r == 29 || r == 30))
    ensures WriteReg(s, r, val).None? <==> r == 61 || r >= 63 || (s.status.u && (r == 29 || r == 30))
    ensures ReadReg(s, 62) == Some(0) && WriteReg(s, 62, val) == Some(s)
    ensures ReadReg(s, 63) == Some(s.pc / 4 * 4)
    ensures r <= 60 && WriteReg(s, r, val).Some? ==>
              var s' := WriteReg(s, r, val).value;
              && ReadReg(s', r) == Some(val) && s' == s.(regs := s'.regs)
              && forall q: nat :: q < 64 && q != r ==> s'.regs[q] == s.regs[q]
    ensures r <= 60 && ReadReg(s, r).Some? ==> ReadReg(s, r) == Some(s.regs[r])
  {
  }
}
