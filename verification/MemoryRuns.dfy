/** Whole runs of the memory system: any sequence of data-port, cache-control and DMA operations,
    and what instruction fetch sees beside them. */
module MemoryRuns {
  import opened Words
  import opened DataCache
  import opened MemorySystem
  import opened Coherence
  import opened Refinement
  import IC = InstructionCache

  datatype Op =
    | Load(w: Width, addr: u32, bypass: bool)
    | Store(w: Width, addr: u32, val: u32, bypass: bool)
    | SetCtrl(ctrl: bv32)
    | InvalidateAll
    | InvalidateLine(line: nat)
    | Discard(line: nat)
    | Dma(start: nat, bytes: seq<byte>)

  function Step(m: MemState, op: Op): MemState
    requires Sound(m)
  {
    match op
    case Load(w, addr, bypass) => AfterLoad(m, w, addr, bypass)
    case Store(w, addr, val, bypass) => Stored(m, w, addr, val, bypass)
    case SetCtrl(ctrl) => m.(dc := Controlled(m.dc, ctrl))
    case InvalidateAll => AllInvalidated(m)
    case InvalidateLine(line) => LineInvalidated(m, line)
    case Discard(line) => LineDiscarded(m, line)
    case Dma(start, bytes) => DmaWritten(m, start, bytes)
  }

  function Result(m: MemState, op: Op): Option<nat>
    requires Sound(m)
  {
    if op.Load? then Loaded(m, op.w, op.addr, op.bypass) else None
  }

  /** Every operation, enabled or not, keeps the cache coherent. */
  lemma EveryStepKeepsCoherence(m: MemState, op: Op)
    requires Coherent(m)
    ensures Coherent(Step(m, op)) && |Step(m, op).sram| == |m.sram|
  {
    hide Placed, Ensured, AllWritten, DmaSwept, AllWrittenBack, CleanMatches;
    match op
    case Load(w, addr, bypass) =>
      if CachedAccess(m, Aligned(addr, w), bypass) {
        EnsuredIsCoherent(m, Aligned(addr, w));
      }
    case Store(w, addr, val, bypass) =>
      if Aligned(addr, w) < |m.sram| {
        AlignedFits(m, addr, w);
        StoreKeepsCoherence(m, Aligned(addr, w), BytesOf(w, val), bypass);
      }
    case SetCtrl(_) => ControlKeepsCoherence(m, Step(m, op));
    case InvalidateAll => InvalidateAllEffect(m);
    case InvalidateLine(line) => InvalidateLineEffect(m, line);
    case Discard(line) => DiscardEffect(m, line);
    case Dma(start, bytes) =>
      if start + |bytes| <= |m.sram| {
        DmaEffect(m, start, bytes);
      }
  }

  lemma ControlKeepsCoherence(m: MemState, m': MemState)
    requires Coherent(m) && m'.sram == m.sram && m'.dc.lines == m.dc.lines && m'.dc.nextWay == m.dc.nextWay
    ensures Coherent(m')
    ensures forall flat: Sram :: Refines(m, flat) ==> Refines(m', flat)
  {
    assert forall x: nat :: x < |m.sram| ==> View(m', x) == View(m, x);
  }

  function After(m: MemState, ops: seq<Op>): MemState
    requires Coherent(m)
    ensures Coherent(After(m, ops)) && |After(m, ops).sram| == |m.sram|
    decreases |ops|
  {
    if ops == [] then m
    else
      EveryStepKeepsCoherence(m, ops[0]);
      After(Step(m, ops[0]), ops[1..])
  }

  function Results(m: MemState, ops: seq<Op>): (r: seq<Option<nat>>)
    requires Coherent(m)
    ensures |r| == |ops|
    decreases |ops|
  {
    if ops == [] then []
    else
      EveryStepKeepsCoherence(m, ops[0]);
      [Result(m, ops[0])] + Results(Step(m, ops[0]), ops[1..])
  }

  // ----- The same run on a flat array -----

  function FlatStep(flat: Sram, op: Op): (r: Sram)
    ensures |r| == |flat|
  {
    if op.Store? then FlatStore(flat, op.w, op.addr, op.val) else flat
  }

  function FlatAfter(flat: Sram, ops: seq<Op>): (r: Sram)
    ensures |r| == |flat|
    decreases |ops|
  {
    if ops == [] then flat else FlatAfter(FlatStep(flat, ops[0]), ops[1..])
  }

  function FlatResults(flat: Sram, ops: seq<Op>): (r: seq<Option<nat>>)
    ensures |r| == |ops|
    decreases |ops|
  {
    if ops == [] then []
    else
      [if ops[0].Load? then FlatLoad(flat, ops[0].w, ops[0].addr) else None]
      + FlatResults(FlatStep(flat, ops[0]), ops[1..])
  }

  /** Operations a flat array also has, or that it cannot notice: loads, stores, enabling and disabling the
      cache, and invalidates that write back. */
  predicate Plain(m: MemState, op: Op) {
    match op
    case Load(_, _, _) => true
    case Store(_, _, _, _) => true
    case SetCtrl(_) => true
    case InvalidateAll => m.dc.im
    case InvalidateLine(_) => m.dc.im
    case _ => false
  }

  predicate PlainRun(m: MemState, ops: seq<Op>)
    requires Coherent(m)
    decreases |ops|
  {
    ops == [] ||
    (Plain(m, ops[0])
     && (EveryStepKeepsCoherence(m, ops[0]);
         PlainRun(Step(m, ops[0]), ops[1..])))
  }

  /** Whether a load goes through the enabled cache, or meets no dirty line on its way round it. */
  predicate Sees(m: MemState, op: Op) {
    op.Load? ==> CachedAccess(m, Aligned(op.addr, op.w), op.bypass) || !DirtyFor(m.dc.lines, Aligned(op.addr, op.w))
  }

  function Sighted(m: MemState, ops: seq<Op>): (r: seq<bool>)
    requires Coherent(m)
    ensures |r| == |ops|
    decreases |ops|
  {
    if ops == [] then []
    else
      EveryStepKeepsCoherence(m, ops[0]);
      [Sees(m, ops[0])] + Sighted(Step(m, ops[0]), ops[1..])
  }

  lemma StepRefines(m: MemState, flat: Sram, op: Op)
    requires Coherent(m) && Refines(m, flat) && Plain(m, op)
    ensures Refines(Step(m, op), FlatStep(flat, op))
    ensures Sees(m, op) ==> Result(m, op) == if op.Load? then FlatLoad(flat, op.w, op.addr) else None
  {
    match op
    case Load(w, addr, bypass) =>
      LoadKeepsView(m, flat, w, addr, bypass);
      hide Refines, AfterLoad, Loaded, FlatLoad, CachedAccess;
      LoadRefines(m, flat, w, addr, bypass);
    case Store(w, addr, val, bypass) =>
      hide Refines, Stored, FlatStore;
      StoreRefines(m, flat, w, addr, val, bypass);
    case SetCtrl(_) =>
      ControlKeepsCoherence(m, Step(m, op));
    case InvalidateAll =>
      hide AllInvalidated, View;
      InvalidateAllFlushes(m);
    case InvalidateLine(line) =>
      hide LineInvalidated, View;
      InvalidateLineEffect(m, line);
  }

  /** The data port refines a flat big-endian byte array. Over any run of loads and stores of any width,
      alignment and caching mode, with the cache enabled, disabled and flushed along the way, every load
      that goes through the enabled cache (or finds no dirty line to go round) returns what the flat
      array returns, and the CPU's view ends equal to the flat array. */
  lemma {:induction false} DataPortRefinesFlatMemory(m: MemState, flat: Sram, ops: seq<Op>)
    requires Coherent(m) && Refines(m, flat) && PlainRun(m, ops)
    ensures Refines(After(m, ops), FlatAfter(flat, ops))
    ensures forall i: nat :: i < |ops| && Sighted(m, ops)[i] ==> Results(m, ops)[i] == FlatResults(flat, ops)[i]
    decreases |ops|
  {
    hide CleanMatches, NoAlias, TagsInSram, Refines, Step, Result, FlatStep, FlatLoad, Sees;
    if ops != [] {
      EveryStepKeepsCoherence(m, ops[0]);
      StepRefines(m, flat, ops[0]);
      DataPortRefinesFlatMemory(Step(m, ops[0]), FlatStep(flat, ops[0]), ops[1..]);
    }
  }

  /** The machine powers up refining its SRAM image. */
  lemma ResetRefines(image: Sram)
    ensures var m := MemState(image, DCacheState(EMPTY_SETS, Repeat(0, 64), true, true, true, DC_CTRL_RESET));
            Coherent(m) && Refines(m, image)
  {
  }

  /** Everything the CPU sees, as one array. */
  function Seen(m: MemState): (flat: Sram)
    requires Sound(m)
    ensures Refines(m, flat)
  {
    seq(|m.sram|, x requires 0 <= x < |m.sram| => View(m, x))
  }

  lemma FlatReadBack(flat: Sram, w: Width, addr: u32, val: u32)
    requires Aligned(addr, w) < |flat|
    ensures FlatLoad(FlatStore(flat, w, addr, val), w, addr) == Some(ValueOf(BytesOf(w, val)))
  {
    InFlat(flat, w, addr);
    var ea := Aligned(addr, w);
    assert Patched(flat, ea, BytesOf(w, val))[ea..ea + w.Size()] == BytesOf(w, val);
  }

  /** Disabling the cache does not lose what it held: a store left in the cache drops out of sight while the
      cache is off and comes back when it is on again. */
  lemma DisableOnlyHides(m: MemState, w: Width, addr: u32, val: u32, off: bv32, on: bv32)
    returns (m1: MemState, m2: MemState, m3: MemState)
    requires Coherent(m) && CachedAccess(m, Aligned(addr, w), false)
    requires !Controlled(m.dc, off).enabled && Controlled(m.dc, on).enabled
    ensures m1 == Stored(m, w, addr, val, false) && Coherent(m1)
    ensures m2 == Step(m1, SetCtrl(off)) && Coherent(m2)
    ensures m3 == Step(m2, SetCtrl(on)) && Coherent(m3)
    ensures Aligned(addr, w) + w.Size() <= |m1.sram|
    ensures m1.sram == Ensured(m, Aligned(addr, w)).sram
    ensures Loaded(m2, w, addr, false) == Some(ValueOf(m1.sram[Aligned(addr, w)..Aligned(addr, w) + w.Size()]))
    ensures Loaded(m3, w, addr, false) == Some(ValueOf(BytesOf(w, val)))
  {
    assert Refines(m, Seen(m));
    hide *;
    var flat := FlatStore(Seen(m), w, addr, val);
    StoredInTheCache(m, w, addr, val);
    m1 := Stored(m, w, addr, val, false);
    StoreRefines(m, Seen(m), w, addr, val, false);
    FlatReadBack(Seen(m), w, addr, val);
    m2 := Step(m1, SetCtrl(off));
    ControlStep(m, m1, off);
    ControlKeepsCoherence(m1, m2);
    LoadWhileOff(m2, w, addr);
    m3 := Step(m2, SetCtrl(on));
    ControlStep(m, m2, on);
    ControlKeepsCoherence(m2, m3);
    LoadWhileOn(m3, flat, w, addr);
  }

  lemma StoredInTheCache(m: MemState, w: Width, addr: u32, val: u32)
    requires Coherent(m) && CachedAccess(m, Aligned(addr, w), false)
    ensures var m1 := Stored(m, w, addr, val, false);
            m1.sram == Ensured(m, Aligned(addr, w)).sram && |m1.sram| == |m.sram|
    ensures Aligned(addr, w) < |m.sram| && Aligned(addr, w) + w.Size() <= |m.sram|
  {
    AlignedFits(m, addr, w);
    EnsuredIsCoherent(m, Aligned(addr, w));
    hide Aligned, Ensured, AllWritten, BytesOf, CleanMatches, NoAlias, TagsInSram, View;
  }

  /** DC_CTRL moves three bits, decided by the value written alone. */
  lemma ControlStep(m: MemState, before: MemState, val: bv32)
    requires Coherent(before)
    ensures var after := Step(before, SetCtrl(val));
            && after.sram == before.sram && after.dc.lines == before.dc.lines && after.dc.nextWay == before.dc.nextWay
            && after.dc.enabled == Controlled(m.dc, val).enabled
  {
    hide CleanMatches, NoAlias, TagsInSram;
  }

  lemma LoadWhileOff(m: MemState, w: Width, addr: u32)
    requires Coherent(m) && !m.dc.enabled && Aligned(addr, w) < |m.sram|
    ensures Aligned(addr, w) + w.Size() <= |m.sram|
    ensures Loaded(m, w, addr, false) == Some(ValueOf(m.sram[Aligned(addr, w)..Aligned(addr, w) + w.Size()]))
  {
    AlignedFits(m, addr, w);
    hide Aligned, ValueOf, CleanMatches, NoAlias, TagsInSram;
  }

  lemma LoadWhileOn(m: MemState, flat: Sram, w: Width, addr: u32)
    requires Coherent(m) && m.dc.enabled && Aligned(addr, w) < |m.sram| && Refines(m, flat)
    ensures Loaded(m, w, addr, false) == FlatLoad(flat, w, addr)
  {
    LoadRefines(m, flat, w, addr, false);
    hide Loaded, FlatLoad, Refines, CleanMatches, NoAlias, TagsInSram, Aligned;
  }
}
