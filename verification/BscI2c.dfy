/** The burst protocol of the BSC I2C master, lane 0: latch a sub-address, arm a byte count, read words. The EEPROM
    behind it is a function of device and address. */
module BscI2c {
  import opened Words

  datatype Protocol = Idle | SubAddrLatched | Armed

  type Eeprom = (nat, nat) -> u32

  datatype Bsc = Bsc(protocol: Protocol, pendingSubAddr: nat, subAddr: nat, eepromPtr: nat, byteCount: nat,
                     bytesRead: nat, lastDevice: nat, word: u32, forceNack: bool)

  /** A register write of lane 0, or the injected NACK. */
  datatype Op = WriteData(val: u32) | WriteStat(val: u32) | WriteCommand(val: u32) | ForceNack

  predicate Latches(val: u32) { val / 0x1000_0000 % 2 == 1 }

  /** A read command that does not latch. */
  predicate Reads(val: u32) { !Latches(val) && val / 0x800_0000 % 2 == 1 }

  function Wrap16(x: nat): nat { x % 0x1_0000 }

  function Commanded(b: Bsc, val: u32, rom: Eeprom): Bsc {
    var b1 := b.(lastDevice := val % 2);
    if Latches(val) then b1.(subAddr := b.pendingSubAddr, protocol := SubAddrLatched)
    else if Reads(val) && b.protocol.Armed? && b.bytesRead < b.byteCount then
      b1.(word := if b.forceNack then 0xFFFF_FFFF else rom(val % 2, b.eepromPtr), forceNack := false,
          eepromPtr := Wrap16(b.eepromPtr + 4), bytesRead := b.bytesRead + 4,
          protocol := if b.bytesRead + 4 >= b.byteCount then Idle else Armed)
    else b1
  }

  function ByteCount(val: u32): nat { val / 8 % 0x800 }

  function StatWritten(b: Bsc, val: u32): Bsc {
    if val / 0x40_0000 % 2 == 1 && b.protocol.SubAddrLatched? && ByteCount(val) > 0 then
      b.(byteCount := ByteCount(val), eepromPtr := b.subAddr, bytesRead := 0, protocol := Armed)
    else b
  }

  function Applied(b: Bsc, op: Op, rom: Eeprom): Bsc {
    match op
    case WriteData(val) => b.(pendingSubAddr := val % 0x1_0000)
    case WriteStat(val) => StatWritten(b, val)
    case WriteCommand(val) => Commanded(b, val, rom)
    case ForceNack => b.(forceNack := true)
  }

  class Master {
    var protocol: Protocol
    var pendingSubAddr: nat
    var subAddr: nat
    var eepromPtr: nat
    var byteCount: nat
    var bytesRead: nat
    var lastDevice: nat
    var pendingReadWord: u32
    var forceNack: bool

    ghost function State(): Bsc reads this {
      Bsc(protocol, pendingSubAddr, subAddr, eepromPtr, byteCount, bytesRead, lastDevice, pendingReadWord, forceNack)
    }

    constructor ()
      ensures State() == Bsc(Idle, 0, 0, 0, 0, 0, 0, 0, false)
    {
      protocol, pendingSubAddr, subAddr, eepromPtr := Idle, 0, 0, 0;
      byteCount, bytesRead, lastDevice, pendingReadWord, forceNack := 0, 0, 0, 0, false;
    }

    method IssueCommand(val: u32, rom: Eeprom)
      modifies this
      ensures State() == Applied(old(State()), WriteCommand(val), rom)
    {
      lastDevice := val % 2;
      if Latches(val) {
        subAddr := pendingSubAddr;
        protocol := SubAddrLatched;
      } else if Reads(val) {
        if protocol.Armed? && bytesRead < byteCount {
          pendingReadWord := rom(lastDevice, eepromPtr);
          if forceNack {
            pendingReadWord := 0xFFFF_FFFF;
            forceNack := false;
          }
          eepromPtr := Wrap16(eepromPtr + 4);
          bytesRead := bytesRead + 4;
          if bytesRead >= byteCount {
            protocol := Idle;
          }
        }
      }
    }

    method WriteStatWord(val: u32, rom: Eeprom)
      modifies this
      ensures State() == Applied(old(State()), WriteStat(val), rom)
    {
      if val / 0x40_0000 % 2 == 1 && protocol.SubAddrLatched? {
        var bc := ByteCount(val);
        if bc > 0 {
          byteCount, eepromPtr, bytesRead := bc, subAddr, 0;
          protocol := Armed;
        }
      }
    }

    method WriteDataWord(val: u32, rom: Eeprom)
      modifies this
      ensures State() == Applied(old(State()), WriteData(val), rom)
    {
      pendingSubAddr := val % 0x1_0000;
    }
  }

  // ----- Every run -----

  function After(b: Bsc, ops: seq<Op>, rom: Eeprom): Bsc {
    if ops == [] then b else Applied(After(b, ops[..|ops| - 1], rom), ops[|ops| - 1], rom)
  }

  /** While armed, the pointer is the sub-address plus the bytes read, modulo 2^16, and bytes remain. */
  predicate Tracks(b: Bsc) {
    && b.pendingSubAddr < 0x1_0000 && b.subAddr < 0x1_0000
    && (b.protocol.Armed? ==> b.eepromPtr == Wrap16(b.subAddr + b.bytesRead) && b.bytesRead < b.byteCount)
  }

  lemma {:induction false} AlwaysTracks(b: Bsc, ops: seq<Op>, rom: Eeprom)
    requires Tracks(b)
    ensures Tracks(After(b, ops, rom))
  {
    hide Applied, Tracks;
    if ops != [] {
      AlwaysTracks(b, ops[..|ops| - 1], rom);
      KeepsTrack(After(b, ops[..|ops| - 1], rom), ops[|ops| - 1], rom);
    }
  }

  lemma KeepsTrack(b: Bsc, op: Op, rom: Eeprom)
    requires Tracks(b)
    ensures Tracks(Applied(b, op, rom))
  {
    hide Latches, Reads;
  }

  // ----- A burst -----

  predicate IsRead(op: Op) { op.WriteCommand? && Reads(op.val) }

  /** No latch and no NACK: a burst may be mixed with anything else. */
  predicate BurstOps(ops: seq<Op>) {
    forall i :: 0 <= i < |ops| ==> ops[i] != ForceNack && !(ops[i].WriteCommand? && Latches(ops[i].val))
  }

  function ReadCount(ops: seq<Op>): nat {
    if ops == [] then 0 else ReadCount(ops[..|ops| - 1]) + (if IsRead(ops[|ops| - 1]) then 1 else 0)
  }

  /** Words in a burst of `bc` bytes. */
  function WordCount(bc: nat): nat { (bc + 3) / 4 }

  /** Where a burst armed in state `b` stands after `n` read commands. */
  predicate InBurst(b: Bsc, b': Bsc, n: nat) {
    var done := if n < WordCount(b.byteCount) then n else WordCount(b.byteCount);
    && b'.subAddr == b.subAddr && b'.byteCount == b.byteCount && !b'.forceNack
    && b'.bytesRead == 4 * done && b'.eepromPtr == Wrap16(b.subAddr + 4 * done)
    && b'.protocol == (if n < WordCount(b.byteCount) then Armed else Idle)
  }

  predicate JustArmed(b: Bsc) {
    b.protocol.Armed? && b.bytesRead == 0 && b.eepromPtr == b.subAddr < 0x1_0000 && b.byteCount > 0 && !b.forceNack
  }

  lemma BurstStep(b: Bsc, before: Bsc, op: Op, n: nat, rom: Eeprom)
    requires JustArmed(b) && InBurst(b, before, n)
    requires op != ForceNack && !(op.WriteCommand? && Latches(op.val))
    ensures InBurst(b, Applied(before, op, rom), if IsRead(op) then n + 1 else n)
  {
    if IsRead(op) {
      NextPointer(b.subAddr, 4 * n);
      hide Latches, Wrap16;
    } else {
      hide Reads, Latches;
    }
  }

  lemma NextPointer(subAddr: nat, read: nat)
    ensures Wrap16(Wrap16(subAddr + read) + 4) == Wrap16(subAddr + read + 4)
  {
  }

  lemma {:induction false} BurstProgress(b: Bsc, ops: seq<Op>, rom: Eeprom)
    requires JustArmed(b) && BurstOps(ops)
    ensures InBurst(b, After(b, ops, rom), ReadCount(ops))
  {
    if ops != [] {
      var front, last := ops[..|ops| - 1], ops[|ops| - 1];
      BurstProgress(b, front, rom);
      BurstStep(b, After(b, front, rom), last, ReadCount(front), rom);
      hide Latches, Reads, Applied, InBurst, JustArmed;
    }
  }

  /** The burst protocol. Arming `bc` bytes at a latched sub-address gives exactly ceil(bc / 4) words: the n-th read
      command, whatever other writes come between, delivers the EEPROM word at sub-address + 4 n (mod 2^16) of the
      device it names while n is below that number, and leaves the last word standing after it. */
  lemma BurstDeliversItsWords(b: Bsc, ops: seq<Op>, read: u32, rom: Eeprom)
    requires JustArmed(b) && BurstOps(ops) && Reads(read)
    ensures var n, before := ReadCount(ops), After(b, ops, rom);
            var after := Applied(before, WriteCommand(read), rom);
            after.word == (if n < WordCount(b.byteCount) then rom(read % 2, Wrap16(b.subAddr + 4 * n)) else before.word)
  {
    hide *;
    BurstProgress(b, ops, rom);
    ReadInBurst(b, After(b, ops, rom), read, ReadCount(ops), rom);
  }

  lemma ReadInBurst(b: Bsc, before: Bsc, read: u32, n: nat, rom: Eeprom)
    requires JustArmed(b) && InBurst(b, before, n) && Reads(read)
    ensures Applied(before, WriteCommand(read), rom).word
            == if n < WordCount(b.byteCount) then rom(read % 2, Wrap16(b.subAddr + 4 * n)) else before.word
  {
    hide Wrap16;
    WordsLeft(b.byteCount, n);
    ReadsNotLatches(read);
    hide WordCount, Latches, Reads;
  }

  lemma WordsLeft(bc: nat, n: nat)
    ensures n < WordCount(bc) <==> 4 * n < bc
  {
  }

  lemma ReadsNotLatches(val: u32)
    requires Reads(val)
    ensures !Latches(val)
  {
  }

  /** The sequence that arms: stage, latch, write STAT. */
  lemma ArmingArms(b: Bsc, data: u32, latch: u32, stat: u32, rom: Eeprom)
    requires Latches(latch) && stat / 0x40_0000 % 2 == 1 && ByteCount(stat) > 0 && !b.forceNack
    ensures var b' := Applied(Applied(Applied(b, WriteData(data), rom), WriteCommand(latch), rom), WriteStat(stat), rom);
            JustArmed(b') && b'.subAddr == data % 0x1_0000 && b'.byteCount == ByteCount(stat)
  {
  }

  // ----- A transaction in register words -----

  /** The bits the words are made of: 28 latches, 27 reads, 22 of STAT arms with the byte count in bits 3 to 13, and bit 0 of a
      command names the device. */
  lemma WordBits(high: nat, latch: nat, read: nat, low: nat, device: nat)
    requires high < 8 && latch < 2 && read < 2 && low < 0x400_0000 && device < 2
    ensures var w := high * 0x2000_0000 + latch * 0x1000_0000 + read * 0x800_0000 + 2 * low + device;
            (Latches(w) <==> latch == 1) && (Reads(w) <==> latch == 0 && read == 1) && w % 2 == device
  {
  }

  lemma StatBits(high: nat, arm: nat, mid: nat, bc: nat, low: nat)
    requires high < 0x200 && arm < 2 && mid < 0x100 && bc < 0x800 && low < 8
    ensures var w := high * 0x80_0000 + arm * 0x40_0000 + mid * 0x4000 + bc * 8 + low;
            w / 0x40_0000 % 2 == arm && ByteCount(w) == bc
  {
    var rest := mid * 0x4000 + bc * 8 + low;
    StatArm(high, arm, rest);
    StatCount(high * 0x200 + arm * 0x100 + mid, bc, low);
  }

  lemma StatArm(high: nat, arm: nat, rest: nat)
    requires arm < 2 && rest < 0x40_0000
    ensures (high * 0x80_0000 + arm * 0x40_0000 + rest) / 0x40_0000 % 2 == arm
  {
    assert (high * 0x80_0000 + arm * 0x40_0000 + rest) / 0x40_0000 == 2 * high + arm;
  }

  lemma StatCount(above: nat, bc: nat, low: nat)
    requires bc < 0x800 && low < 8 && above < 0x4_0000
    ensures ByteCount(above * 0x4000 + bc * 8 + low) == bc
  {
    assert (above * 0x4000 + bc * 8 + low) / 8 == above * 0x800 + bc;
  }

  /** `k` read commands to a device. */
  function ReadsOf(device: nat, k: nat): (ops: seq<Op>)
    requires device < 2
    ensures |ops| == k
  {
    if k == 0 then [] else ReadsOf(device, k - 1) + [WriteCommand(0x800_0000 + device)]
  }

  lemma {:induction false} ReadsAreABurst(device: nat, k: nat)
    requires device < 2
    ensures BurstOps(ReadsOf(device, k)) && ReadCount(ReadsOf(device, k)) == k
  {
    WordBits(0, 0, 1, 0, device);
    if k > 0 {
      ReadsAreABurst(device, k - 1);
      assert ReadsOf(device, k)[..k - 1] == ReadsOf(device, k - 1);
    }
  }

  /** The transaction of the source's driver, word for word: stage a sub-address, latch it, arm `bc` bytes, read. The k-th
      read leaves the k-th word of the device from there on, the last of the ceil(bc / 4) standing for the rest. */
  lemma {:induction false} TransactionReads(b: Bsc, sub: u32, bc: nat, device: nat, k: nat, rom: Eeprom)
    requires sub < 0x1_0000 && 1 <= bc < 0x800 && device < 2 && k >= 1 && !b.forceNack
    ensures var armed := Applied(Applied(Applied(b, WriteData(sub), rom), WriteCommand(0x1000_0000 + device), rom),
                                 WriteStat(0x40_0000 + 8 * bc), rom);
            var n := if k <= (bc + 3) / 4 then k else (bc + 3) / 4;
            After(armed, ReadsOf(device, k), rom).word == rom(device, (sub + 4 * (n - 1)) % 0x1_0000)
    decreases k
  {
    hide Applied, After, Latches, Reads, BurstOps, JustArmed;
    WordBits(0, 1, 0, 0, device);
    StatBits(0, 1, 0, bc, 0);
    ArmingArms(b, sub, 0x1000_0000 + device, 0x40_0000 + 8 * bc, rom);
    var armed := Applied(Applied(Applied(b, WriteData(sub), rom), WriteCommand(0x1000_0000 + device), rom),
                         WriteStat(0x40_0000 + 8 * bc), rom);
    var read: u32 := 0x800_0000 + device;
    WordBits(0, 0, 1, 0, device);
    ReadsAreABurst(device, k - 1);
    BurstDeliversItsWords(armed, ReadsOf(device, k - 1), read, rom);
    OneMoreRead(armed, device, k, rom);
    if k > 1 {
      TransactionReads(b, sub, bc, device, k - 1, rom);
    }
  }

  lemma OneMoreRead(b: Bsc, device: nat, k: nat, rom: Eeprom)
    requires device < 2 && k >= 1
    ensures After(b, ReadsOf(device, k), rom) == Applied(After(b, ReadsOf(device, k - 1), rom), WriteCommand(0x800_0000 + device), rom)
  {
    hide Applied;
    var ops := ReadsOf(device, k);
    assert ops[..k - 1] == ReadsOf(device, k - 1) && ops[k - 1] == WriteCommand(0x800_0000 + device);
  }

  /** An injected NACK spoils exactly the next word of a burst: it reads all ones, the burst goes on, and the words after it
      are the device's. */
  lemma NackSpoilsOneWord(b: Bsc, read: u32, rom: Eeprom)
    requires Tracks(b) && b.protocol.Armed? && Reads(read)
    ensures var spoilt, clean := Applied(Applied(b, ForceNack, rom), WriteCommand(read), rom),
                                 Applied(b.(forceNack := false), WriteCommand(read), rom);
            spoilt.word == 0xFFFF_FFFF && spoilt == clean.(word := 0xFFFF_FFFF) && !spoilt.forceNack
  {
    hide Latches;
  }
}
