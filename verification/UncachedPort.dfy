/** SRAM itself, beside what the CPU sees through the cache: the uncached side of the data port, and where every byte
    SRAM holds came from. */
module UncachedPort {
  import opened Words
  import opened DataCache
  import opened MemorySystem
  import opened Coherence
  import opened Refinement
  import opened MemoryRuns

  // ----- The flat array in figures -----

  /** `n` bytes of the array from `a` on as one number, the first byte most significant; None unless all lie inside. */
  function NumberAt(flat: Sram, a: int, n: nat): Option<nat> {
    if 0 <= a && a + n <= |flat| then Some(BigEndian(flat[a..a + n])) else None
  }

  function BigEndian(bytes: seq<byte>): nat {
    if bytes == [] then 0 else 256 * BigEndian(bytes[..|bytes| - 1]) + bytes[|bytes| - 1]
  }

  /** Stores are big-endian and drop the address bits below their width. */
  lemma FlatStoreIsBigEndian(flat: Sram, addr: u32, val: u32, x: nat)
    requires x < |flat|
    ensures FlatStore(flat, Byte, addr, val)[x] == if x == addr then val % 256 else flat[x]
    ensures FlatStore(flat, Half, addr, val)[x] ==
              if x == addr / 2 * 2 then val / 256 % 256 else if x == addr / 2 * 2 + 1 then val % 256 else flat[x]
    ensures FlatStore(flat, Word, addr, val)[x] ==
              var a := addr / 4 * 4;
              if x == a then val / 0x100_0000
              else if x == a + 1 then val / 0x1_0000 % 256
              else if x == a + 2 then val / 256 % 256
              else if x == a + 3 then val % 256
              else flat[x]
  {
    hide *;
    FlatStoreAt(flat, Byte, addr, val, x);
    FlatStoreAt(flat, Half, addr, val, x);
    FlatStoreAt(flat, Word, addr, val, x);
    WidthsAlign(addr);
    BytesAre(val);
  }

  lemma BytesAre(val: u32)
    ensures BytesOf(Byte, val) == [val % 256]
    ensures BytesOf(Half, val) == [val / 256 % 256, val % 256]
    ensures BytesOf(Word, val) == [val / 0x100_0000, val / 0x1_0000 % 256, val / 256 % 256, val % 256]
    ensures Byte.Size() == 1 && Half.Size() == 2 && Word.Size() == 4
  {
  }

  lemma FlatStoreAt(flat: Sram, w: Width, addr: u32, val: u32, x: nat)
    requires x < |flat|
    ensures var a := Aligned(addr, w);
            FlatStore(flat, w, addr, val)[x] == if a <= x < a + w.Size() then BytesOf(w, val)[x - a] else flat[x]
  {
    hide Aligned, BytesOf, Patched;
    if Aligned(addr, w) < |flat| {
      InFlat(flat, w, addr);
      PatchedAt(flat, Aligned(addr, w), BytesOf(w, val), x);
    }
  }

  lemma WidthsAlign(addr: u32)
    ensures Aligned(addr, Byte) == addr && Aligned(addr, Half) == addr / 2 * 2 && Aligned(addr, Word) == addr / 4 * 4
  {
  }

  /** Loads are too, and fail exactly outside the array. */
  lemma FlatLoadIsBigEndian(flat: Sram, addr: u32)
    ensures FlatLoad(flat, Byte, addr) == NumberAt(flat, addr, 1)
    ensures FlatLoad(flat, Half, addr) == NumberAt(flat, addr / 2 * 2, 2)
    ensures FlatLoad(flat, Word, addr) == NumberAt(flat, addr / 4 * 4, 4)
  {
    FlatLoadAt(flat, Byte, addr);
    FlatLoadAt(flat, Half, addr);
    FlatLoadAt(flat, Word, addr);
    hide FlatLoad, NumberAt;
    WidthsAlign(addr);
  }

  lemma FlatLoadAt(flat: Sram, w: Width, addr: u32)
    ensures FlatLoad(flat, w, addr) == NumberAt(flat, Aligned(addr, w), w.Size())
  {
    hide Aligned, BigEndian, ValueOf;
    var a, n := Aligned(addr, w), w.Size();
    if a < |flat| {
      InFlat(flat, w, addr);
      BytesAreBigEndian(flat[a..a + n]);
    }
  }

  lemma BytesAreBigEndian(bytes: seq<byte>)
    requires |bytes| == 1 || |bytes| == 2 || |bytes| == 4
    ensures ValueOf(bytes) == BigEndian(bytes)
  {
    OneMoreByte(bytes);
    assert BigEndian([]) == 0;
    if |bytes| > 1 {
      OneMoreByte(bytes[..|bytes| - 1]);
    }
    if |bytes| == 4 {
      OneMoreByte(bytes[..2]);
      OneMoreByte(bytes[..1]);
      assert bytes[..3][..2] == bytes[..2] && bytes[..2][..1] == bytes[..1];
    }
    hide BigEndian;
  }

  lemma OneMoreByte(bytes: seq<byte>)
    requires bytes != []
    ensures BigEndian(bytes) == 256 * BigEndian(bytes[..|bytes| - 1]) + bytes[|bytes| - 1]
    ensures |bytes| == 1 ==> BigEndian(bytes) == bytes[0]
  {
  }

  // ----- One access -----

  /** An access that bypasses the cache, or meets it disabled, works on SRAM as on a flat array: a load leaves everything
      as it was, and neither minds the lines the cache holds, dirty or not. */
  lemma UncachedAccess(m: MemState, w: Width, addr: u32, val: u32, bypass: bool)
    requires Sound(m) && (bypass || !m.dc.enabled)
    ensures Loaded(m, w, addr, bypass) == FlatLoad(m.sram, w, addr)
    ensures AfterLoad(m, w, addr, bypass) == m
    ensures Stored(m, w, addr, val, bypass).sram == FlatStore(m.sram, w, addr, val)
  {
    hide Aligned, BytesOf, ValueOf, AllWritten, TagsInSram;
  }

  /** So a `.di` load sees what a `.di` store just wrote, whatever is cached. */
  lemma UncachedReadBack(m: MemState, w: Width, addr: u32, val: u32)
    requires Coherent(m) && Aligned(addr, w) < |m.sram|
    ensures var m' := Stored(m, w, addr, val, true);
            Coherent(m') && Loaded(m', w, addr, true) == Some(ValueOf(BytesOf(w, val)))
  {
    EveryStepKeepsCoherence(m, Store(w, addr, val, true));
    hide Stored, Loaded, FlatLoad, FlatStore, Aligned, CleanMatches, NoAlias, TagsInSram, ValueOf, BytesOf;
    UncachedAccess(m, w, addr, val, true);
    UncachedAccess(Stored(m, w, addr, val, true), w, addr, val, true);
    FlatReadBack(m.sram, w, addr, val);
  }

  // ----- Where SRAM's bytes come from -----

  /** A store that goes to SRAM, and what it puts at `x`. */
  predicate StoresAt(m: MemState, op: Op, x: nat) {
    op.Store? && (op.bypass || !m.dc.enabled)
    && Aligned(op.addr, op.w) < |m.sram| && Aligned(op.addr, op.w) <= x < Aligned(op.addr, op.w) + op.w.Size()
  }

  predicate DmaAtByte(m: MemState, op: Op, x: nat) {
    op.Dma? && op.start + |op.bytes| <= |m.sram| && op.start <= x < op.start + |op.bytes|
  }

  /** The operation takes the dirty line of `x` out of the cache and does not throw it away. */
  predicate WritesBack(m: MemState, op: Op, x: nat)
    requires Coherent(m) && x < |m.sram|
  {
    && DirtyFor(m.dc.lines, x) && LineFor(Step(m, op).dc.lines, x).None?
    && (op.Load? || op.Store? || ((op.InvalidateAll? || op.InvalidateLine?) && m.dc.im))
  }

  /** The byte SRAM holds at `x` after the operation, `before` having been there. */
  function Deposited(m: MemState, op: Op, x: nat, before: byte): byte
    requires Coherent(m) && x < |m.sram|
  {
    if StoresAt(m, op, x) then BytesOf(op.w, op.val)[x - Aligned(op.addr, op.w)]
    else if DmaAtByte(m, op, x) then op.bytes[x - op.start]
    else if WritesBack(m, op, x) then View(m, x)
    else before
  }

  /** A miss writes back exactly the dirty line it displaces. */
  lemma EnsuredSram(m: MemState, a: nat, x: nat)
    requires Coherent(m) && a < |m.sram| && x < |m.sram|
    ensures Ensured(m, a).sram[x] ==
              if DirtyFor(m.dc.lines, x) && LineFor(Ensured(m, a).dc.lines, x).None? then View(m, x) else m.sram[x]
  {
    if LineFor(m.dc.lines, a).None? {
      var data := BackingLine(m.sram, a);
      FilledLine(m.dc, a, data, x);
      LineInside(m.sram, a);
      if x / 32 == a / 32 {
        LineForSame(m.dc.lines, x, a);
      }
      hide Filled, LineFor, BackingLine;
      var e := Filled(m.dc, a, data).1;
      if VictimLine(m.dc, a).valid {
        VictimInside(m, a);
        BaseAddrParts(VictimLine(m.dc, a).tag, SetOf(a));
        VictimElsewhere(m.dc, a);
        if e.Some? {
          WrittenBackAt(m.sram, e.value, x);
        }
        hide WrittenBack;
      }
    }
  }

  /** A store's bytes in the cache bring no line in and drive none out. */
  lemma {:induction false} BytesKeepResidents(lines: Sets, a: nat, bytes: seq<byte>, x: nat)
    ensures LineFor(AllWritten(lines, a, bytes), x).Some? == LineFor(lines, x).Some?
    decreases |bytes|
  {
    hide LineFor, Written;
    if bytes != [] {
      var n := |bytes| - 1;
      BytesKeepResidents(lines, a, bytes[..n], x);
      WrittenLine(AllWritten(lines, a, bytes[..n]), a + n, bytes[n], x);
      if x / 32 == (a + n) / 32 {
        LineForSame(AllWritten(lines, a, bytes[..n]), x, a + n);
      }
    }
  }

  lemma StoreDeposits(m: MemState, op: Op, x: nat)
    requires Coherent(m) && x < |m.sram| && op.Store?
    ensures |Step(m, op).sram| == |m.sram| && Step(m, op).sram[x] == Deposited(m, op, x, m.sram[x])
  {
    var ea, bytes := Aligned(op.addr, op.w), BytesOf(op.w, op.val);
    if ea < |m.sram| {
      AlignedFits(m, op.addr, op.w);
      if CachedAccess(m, ea, op.bypass) {
        CachedStoreDeposits(m, op, x);
      } else {
        UncachedStoreDeposits(m, op, x);
      }
    }
    hide Stored, Aligned, BytesOf;
  }

  lemma CachedStoreDeposits(m: MemState, op: Op, x: nat)
    requires Coherent(m) && x < |m.sram| && op.Store? && CachedAccess(m, Aligned(op.addr, op.w), op.bypass)
    ensures |Step(m, op).sram| == |m.sram| && Step(m, op).sram[x] == Deposited(m, op, x, m.sram[x])
  {
    var ea, bytes := Aligned(op.addr, op.w), BytesOf(op.w, op.val);
    AlignedFits(m, op.addr, op.w);
    hide Aligned, BytesOf, AllWritten, Ensured, LineFor, DirtyFor, View, CleanMatches, NoAlias, TagsInSram;
    EnsuredSram(m, ea, x);
    BytesKeepResidents(Ensured(m, ea).dc.lines, ea, bytes, x);
  }

  lemma UncachedStoreDeposits(m: MemState, op: Op, x: nat)
    requires Coherent(m) && x < |m.sram| && op.Store? && Aligned(op.addr, op.w) < |m.sram|
    requires !CachedAccess(m, Aligned(op.addr, op.w), op.bypass)
    ensures |Step(m, op).sram| == |m.sram| && Step(m, op).sram[x] == Deposited(m, op, x, m.sram[x])
  {
    var ea, bytes := Aligned(op.addr, op.w), BytesOf(op.w, op.val);
    AlignedFits(m, op.addr, op.w);
    hide Aligned, BytesOf, AllWritten, LineFor, Patched, View, CleanMatches, NoAlias, TagsInSram;
    PatchedAt(m.sram, ea, bytes, x);
    BytesKeepResidents(m.dc.lines, ea, bytes, x);
  }

  lemma LoadDeposits(m: MemState, op: Op, x: nat)
    requires Coherent(m) && x < |m.sram| && op.Load?
    ensures |Step(m, op).sram| == |m.sram| && Step(m, op).sram[x] == Deposited(m, op, x, m.sram[x])
  {
    hide Aligned, Ensured, LineFor, View, CleanMatches, NoAlias, TagsInSram;
    if CachedAccess(m, Aligned(op.addr, op.w), op.bypass) {
      EnsuredIsCoherent(m, Aligned(op.addr, op.w));
      EnsuredSram(m, Aligned(op.addr, op.w), x);
    }
  }

  lemma ControlDeposits(m: MemState, op: Op, x: nat)
    requires Coherent(m) && x < |m.sram| && !op.Load? && !op.Store?
    ensures |Step(m, op).sram| == |m.sram| && Step(m, op).sram[x] == Deposited(m, op, x, m.sram[x])
  {
    match op
    case SetCtrl(_) =>
    case InvalidateAll =>
      InvalidateAllEffect(m);
      hide AllInvalidated, View, CleanMatches, NoAlias, TagsInSram;
    case InvalidateLine(line) =>
      LineInvalidatedAt(m, line, x);
      hide LineInvalidated, View, LineFor, CleanMatches, NoAlias, TagsInSram;
    case Discard(line) =>
    case Dma(start, bytes) =>
      if start + |bytes| <= |m.sram| {
        PatchedAt(m.sram, start, bytes, x);
      }
      hide DmaSwept, Patched, View;
  }

  /** Every byte of SRAM after an operation is the one an uncached store or a DMA write put there, or that of a dirty
      line the operation drove out of the cache, or the one that was there. */
  lemma SramHoldsWhatWasDeposited(m: MemState, op: Op, x: nat)
    requires Coherent(m) && x < |m.sram|
    ensures |Step(m, op).sram| == |m.sram| && Step(m, op).sram[x] == Deposited(m, op, x, m.sram[x])
  {
    hide Step, Deposited, Coherent;
    if op.Load? {
      LoadDeposits(m, op, x);
    } else if op.Store? {
      StoreDeposits(m, op, x);
    } else {
      ControlDeposits(m, op, x);
    }
  }

  // ----- Whole runs -----

  /** An array that takes the deposits of one operation. */
  ghost function DepositStep(m: MemState, op: Op, flat: Sram): (r: Sram)
    requires Coherent(m) && |flat| == |m.sram|
    ensures |r| == |flat| && forall x: nat :: x < |flat| ==> r[x] == Deposited(m, op, x, flat[x])
  {
    seq(|flat|, x requires 0 <= x < |flat| => Deposited(m, op, x, flat[x]))
  }

  ghost function DepositsAfter(m: MemState, ops: seq<Op>, flat: Sram): (r: Sram)
    requires Coherent(m) && |flat| == |m.sram|
    ensures |r| == |flat|
    decreases |ops|
  {
    if ops == [] then flat
    else
      EveryStepKeepsCoherence(m, ops[0]);
      DepositsAfter(Step(m, ops[0]), ops[1..], DepositStep(m, ops[0], flat))
  }

  lemma StepDeposits(m: MemState, op: Op)
    requires Coherent(m)
    ensures |Step(m, op).sram| == |m.sram| && DepositStep(m, op, m.sram) == Step(m, op).sram
  {
    EveryStepKeepsCoherence(m, op);
    hide Step, Deposited;
    forall x: nat | x < |m.sram| ensures DepositStep(m, op, m.sram)[x] == Step(m, op).sram[x] {
      SramHoldsWhatWasDeposited(m, op, x);
    }
  }

  /** Which loads go to SRAM. */
  predicate IsUncached(m: MemState, op: Op) { op.Load? && (op.bypass || !m.dc.enabled) }

  /** The state before operation `i`. */
  function StateAt(m: MemState, ops: seq<Op>, i: nat): MemState
    requires Coherent(m) && i <= |ops|
  {
    After(m, ops[..i])
  }

  /** The uncached port over whole runs, with no restriction on the operations: SRAM is what stores, DMA and write-backs
      deposited, and every uncached load returns it, dirty lines or not. */
  lemma {:induction false} UncachedLoadsReturnTheDeposits(m: MemState, ops: seq<Op>)
    requires Coherent(m)
    ensures After(m, ops).sram == DepositsAfter(m, ops, m.sram)
    ensures forall i: nat :: i < |ops| && IsUncached(StateAt(m, ops, i), ops[i]) ==>
              Results(m, ops)[i] == FlatLoad(DepositsAfter(m, ops[..i], m.sram), ops[i].w, ops[i].addr)
    decreases |ops|
  {
    hide CleanMatches, NoAlias, TagsInSram, Step, Result, FlatLoad, DepositStep;
    if ops != [] {
      var op, rest := ops[0], ops[1..];
      EveryStepKeepsCoherence(m, op);
      StepDeposits(m, op);
      var m' := Step(m, op);
      UncachedLoadsReturnTheDeposits(m', rest);
      forall i: nat | i < |ops| && IsUncached(StateAt(m, ops, i), ops[i])
        ensures Results(m, ops)[i] == FlatLoad(DepositsAfter(m, ops[..i], m.sram), ops[i].w, ops[i].addr)
      {
        if i == 0 {
          FirstUncached(m, ops);
        } else {
          assert ops[..i][0] == op && ops[..i][1..] == rest[..i - 1];
          assert StateAt(m', rest, i - 1) == StateAt(m, ops, i);
          assert Results(m, ops)[i] == Results(m', rest)[i - 1];
        }
      }
    }
  }

  lemma FirstUncached(m: MemState, ops: seq<Op>)
    requires Coherent(m) && ops != [] && IsUncached(StateAt(m, ops, 0), ops[0])
    ensures Results(m, ops)[0] == FlatLoad(DepositsAfter(m, ops[..0], m.sram), ops[0].w, ops[0].addr)
  {
    var op := ops[0];
    assert StateAt(m, ops, 0) == m;
    UncachedAccess(m, op.w, op.addr, 0, op.bypass);
    hide Coherent, Loaded, FlatLoad, Step;
    EveryStepKeepsCoherence(m, op);
    assert DepositsAfter(m, ops[..0], m.sram) == m.sram;
  }
}
