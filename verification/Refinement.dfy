/** The data port refines a flat big-endian byte array, and the cache-control, DMA and image-load
    operations change what the CPU sees in exactly the ways stated here. */
module Refinement {
  import opened Words
  import opened DataCache
  import opened MemorySystem
  import opened Coherence
  import IC = InstructionCache

  // ----- Several bytes into one line -----

  function DataPatched(data: LineData, off: nat, bytes: seq<byte>): LineData
    requires off + |bytes| <= 32
  {
    data[..off] + bytes + data[off + |bytes|..]
  }

  lemma {:induction false} AllWrittenLine(lines: Sets, a: nat, bytes: seq<byte>, x: nat)
    requires OffsetOf(a) + |bytes| <= 32 && bytes != []
    ensures LineFor(AllWritten(lines, a, bytes), x) ==
              if LineFor(lines, a).Some? && x / 32 == a / 32 then
                var l := LineFor(lines, a).value;
                Some(l.(data := DataPatched(l.data, OffsetOf(a), bytes), dirty := true))
              else LineFor(lines, x)
    decreases |bytes|
  {
    hide LineFor, Written, DataPatched, AllWritten;
    var n := |bytes| - 1;
    var before := AllWritten(lines, a, bytes[..n]);
    SameLine(a, n);
    LineNumber(a + n, a);
    LineForSame(lines, a + n, a);
    WrittenLine(before, a + n, bytes[n], x);
    if n == 0 {
      assert before == lines by { NothingWritten(lines, a); assert bytes[..0] == []; }
    } else {
      AllWrittenLine(lines, a, bytes[..n], x);
      AllWrittenLine(lines, a, bytes[..n], a + n);
    }
    LastWritten(lines, a, bytes);
    if LineFor(lines, a).Some? {
      PatchedOneMore(LineFor(lines, a).value.data, OffsetOf(a), bytes);
    }
  }

  lemma LineForSame(lines: Sets, x: nat, y: nat)
    requires x / 32 == y / 32
    ensures LineFor(lines, x) == LineFor(lines, y)
  {
    LineNumber(x, y);
  }

  lemma NothingWritten(lines: Sets, a: nat)
    ensures AllWritten(lines, a, []) == lines
  {
  }

  lemma LastWritten(lines: Sets, a: nat, bytes: seq<byte>)
    requires bytes != []
    ensures AllWritten(lines, a, bytes)
            == Written(AllWritten(lines, a, bytes[..|bytes| - 1]), a + |bytes| - 1, bytes[|bytes| - 1])
  {
  }

  lemma PatchedOneMore(data: LineData, off: nat, bytes: seq<byte>)
    requires off + |bytes| <= 32 && bytes != []
    ensures DataPatched(data, off, bytes[..|bytes| - 1])[off + |bytes| - 1 := bytes[|bytes| - 1]]
            == DataPatched(data, off, bytes)
    ensures |bytes| == 1 ==> data[off := bytes[0]] == DataPatched(data, off, bytes)
  {
  }

  lemma {:induction false} AllWrittenKeepsShape(size: nat, lines: Sets, a: nat, bytes: seq<byte>)
    ensures NoAlias(lines) ==> NoAlias(AllWritten(lines, a, bytes))
    ensures TagsInSram(size, lines) ==> TagsInSram(size, AllWritten(lines, a, bytes))
    decreases |bytes|
  {
    if bytes != [] {
      var n := |bytes| - 1;
      AllWrittenKeepsShape(size, lines, a, bytes[..n]);
      WrittenKeepsShape(size, AllWritten(lines, a, bytes[..n]), a + n, bytes[n]);
    }
  }

  // ----- Stores and loads -----

  lemma PatchedAt(sram: Sram, a: nat, bytes: seq<byte>, x: nat)
    requires a + |bytes| <= |sram| && x < |sram|
    ensures Patched(sram, a, bytes)[x] == if a <= x < a + |bytes| then bytes[x - a] else sram[x]
  {
  }

  /** Bytes that stay inside one line. */
  lemma SpanInLine(a: nat, n: nat, x: nat)
    requires 0 < n && OffsetOf(a) + n <= 32
    ensures x / 32 == a / 32 ==> OffsetOf(x) - OffsetOf(a) == x - a
    ensures a <= x < a + n ==> x / 32 == a / 32
    ensures OffsetOf(x) < 32
  {
    assert x == 32 * (x / 32) + OffsetOf(x) && a == 32 * (a / 32) + OffsetOf(a);
  }

  lemma DataPatchedAt(data: LineData, off: nat, bytes: seq<byte>, k: nat)
    requires off + |bytes| <= 32 && k < 32
    ensures DataPatched(data, off, bytes)[k] == if off <= k < off + |bytes| then bytes[k - off] else data[k]
  {
  }

  /** Bytes written next to one another, seen at one address of a resident line. */
  lemma WrittenAt(lines: Sets, a: nat, bytes: seq<byte>, x: nat)
    requires bytes != [] && OffsetOf(a) + |bytes| <= 32
    ensures var l, l' := LineFor(lines, x), LineFor(AllWritten(lines, a, bytes), x);
            && l'.Some? == l.Some?
            && (l.Some? ==> l'.value.data[OffsetOf(x)]
                            == if a <= x < a + |bytes| then bytes[x - a] else l.value.data[OffsetOf(x)])
            && (l.Some? && l'.value != l.value ==> l'.value.dirty)
  {
    hide LineFor, AllWritten, OffsetOf, DataPatched;
    AllWrittenLine(lines, a, bytes, x);
    SpanInLine(a, |bytes|, x);
    if x / 32 == a / 32 {
      LineForSame(lines, x, a);
      if LineFor(lines, a).Some? {
        DataPatchedAt(LineFor(lines, a).value.data, OffsetOf(a), bytes, OffsetOf(x));
      }
    }
  }

  /** A hit takes the bytes, whatever else the store does. */
  lemma HitTakesTheBytes(m: MemState, a: nat, bytes: seq<byte>, x: nat)
    requires Coherent(m) && bytes != [] && a + |bytes| <= |m.sram| && OffsetOf(a) + |bytes| <= 32 && x < |m.sram|
    requires LineFor(m.dc.lines, a).Some?
    ensures var m' := WithBytes(m, a, bytes);
            && View(m', x) == (if a <= x < a + |bytes| then bytes[x - a] else View(m, x))
            && CleanAt(m', x)
  {
    hide LineFor, AllWritten, OffsetOf;
    WrittenAt(m.dc.lines, a, bytes, x);
    SpanInLine(a, |bytes|, x);
    if x / 32 == a / 32 {
      LineForSame(m.dc.lines, x, a);
    }
  }

  predicate CleanAt(m: MemState, x: nat)
    requires x < |m.sram|
  {
    LineFor(m.dc.lines, x).Some? && !LineFor(m.dc.lines, x).value.dirty
    ==> LineFor(m.dc.lines, x).value.data[OffsetOf(x)] == m.sram[x]
  }

  /** SRAM takes the bytes, and a cached copy if there is one. */
  lemma SramTakesTheBytes(m: MemState, a: nat, bytes: seq<byte>, x: nat)
    requires Coherent(m) && bytes != [] && a + |bytes| <= |m.sram| && OffsetOf(a) + |bytes| <= 32 && x < |m.sram|
    ensures var m' := WithBytes(m.(sram := Patched(m.sram, a, bytes)), a, bytes);
            && View(m', x) == (if a <= x < a + |bytes| then bytes[x - a] else View(m, x))
            && CleanAt(m', x)
  {
    hide LineFor, AllWritten, OffsetOf, Patched;
    WrittenAt(m.dc.lines, a, bytes, x);
    PatchedAt(m.sram, a, bytes, x);
  }

  lemma StoreAt(m: MemState, a: nat, bytes: seq<byte>, bypass: bool, x: nat)
    requires Coherent(m) && bytes != [] && a + |bytes| <= |m.sram| && OffsetOf(a) + |bytes| <= 32 && x < |m.sram|
    ensures var m' := WithBytes(Placed(m, a, bytes, bypass), a, bytes);
            && View(m', x) == (if a <= x < a + |bytes| then bytes[x - a] else View(m, x))
            && CleanAt(m', x)
  {
    hide LineFor, AllWritten, OffsetOf, Patched, Ensured, View, CleanAt, WithBytes;
    if CachedAccess(m, a, bypass) {
      EnsuredIsCoherent(m, a);
      EnsuredHits(m, a);
      HitTakesTheBytes(Ensured(m, a), a, bytes, x);
    } else {
      SramTakesTheBytes(m, a, bytes, x);
    }
  }

  lemma CleanEverywhere(m: MemState)
    requires forall x: nat :: x < |m.sram| ==> CleanAt(m, x)
    ensures CleanMatches(m)
  {
    hide LineFor;
    forall x: nat | x < |m.sram| && LineFor(m.dc.lines, x).Some? && !LineFor(m.dc.lines, x).value.dirty
      ensures LineFor(m.dc.lines, x).value.data[OffsetOf(x)] == m.sram[x]
    {
      assert CleanAt(m, x);
    }
  }

  lemma StoreKeepsCoherence(m: MemState, a: nat, bytes: seq<byte>, bypass: bool)
    requires Coherent(m) && bytes != [] && a + |bytes| <= |m.sram| && OffsetOf(a) + |bytes| <= 32
    ensures var m' := WithBytes(Placed(m, a, bytes, bypass), a, bytes);
            && Coherent(m') && |m'.sram| == |m.sram|
            && forall x: nat :: x < |m.sram| ==>
                 View(m', x) == if a <= x < a + |bytes| then bytes[x - a] else View(m, x)
  {
    hide View, Ensured, AllWritten, LineFor, OffsetOf, NoAlias, TagsInSram, CleanAt, CleanMatches;
    var p := Placed(m, a, bytes, bypass);
    if CachedAccess(m, a, bypass) {
      EnsuredIsCoherent(m, a);
    }
    AllWrittenKeepsShape(|m.sram|, p.dc.lines, a, bytes);
    forall x: nat | x < |m.sram|
      ensures var m' := WithBytes(p, a, bytes);
              && View(m', x) == (if a <= x < a + |bytes| then bytes[x - a] else View(m, x))
              && CleanAt(m', x)
    {
      StoreAt(m, a, bytes, bypass, x);
    }
    CleanEverywhere(WithBytes(p, a, bytes));
  }

  // ----- The flat array -----

  function FlatLoad(flat: Sram, w: Width, addr: u32): Option<nat> {
    var ea := Aligned(addr, w);
    if ea >= |flat| then None
    else
      InFlat(flat, w, addr);
      Some(ValueOf(flat[ea..ea + w.Size()]))
  }

  function FlatStore(flat: Sram, w: Width, addr: u32, val: u32): (r: Sram)
    ensures |r| == |flat|
  {
    var ea := Aligned(addr, w);
    if ea >= |flat| then flat
    else
      InFlat(flat, w, addr);
      Patched(flat, ea, BytesOf(w, val))
  }

  lemma InFlat(flat: Sram, w: Width, addr: u32)
    requires Aligned(addr, w) < |flat|
    ensures Aligned(addr, w) + w.Size() <= |flat|
  {
    AlignedFits(MemState(flat, DCacheState(EMPTY_SETS, Repeat(0, 64), true, true, true, 0)), addr, w);
  }

  predicate Refines(m: MemState, flat: Sram) {
    |m.sram| == |flat| && forall x: nat :: x < |flat| ==> View(m, x) == flat[x]
  }

  lemma CachedBytesMatch(m: MemState, flat: Sram, a: nat, n: nat)
    requires Refines(m, flat) && a + n <= |m.sram| && OffsetOf(a) + n <= 32
    requires LineFor(m.dc.lines, a).Some?
    ensures LineBytes(m, a, n) == flat[a..a + n]
  {
    forall k: nat | k < n ensures LineBytes(m, a, n)[k] == flat[a..a + n][k] {
      ByteInLine(m, a, k, n);
      hide Peek, LineBytes;
      assert View(m, a + k) == flat[a + k];
    }
  }

  lemma CleanBytesMatch(m: MemState, flat: Sram, a: nat, n: nat)
    requires Coherent(m) && Refines(m, flat) && a + n <= |m.sram| && OffsetOf(a) + n <= 32
    requires !DirtyFor(m.dc.lines, a)
    ensures m.sram[a..a + n] == flat[a..a + n]
  {
    var s, t := m.sram[a..a + n], flat[a..a + n];
    forall k: nat | k < n ensures s[k] == t[k] {
      SameLine(a, k);
      assert LineFor(m.dc.lines, a + k) == LineFor(m.dc.lines, a);
      hide LineFor;
      assert View(m, a + k) == flat[a + k];
    }
  }

  lemma LoadKeepsView(m: MemState, flat: Sram, w: Width, addr: u32, bypass: bool)
    requires Coherent(m) && Refines(m, flat)
    ensures Coherent(AfterLoad(m, w, addr, bypass)) && Refines(AfterLoad(m, w, addr, bypass), flat)
  {
    hide View, Ensured, Aligned;
    if CachedAccess(m, Aligned(addr, w), bypass) {
      EnsuredIsCoherent(m, Aligned(addr, w));
    }
  }

  /** A cached load returns what the flat array holds, through any miss, allocation or dirty eviction;
      so does an uncached one unless a dirty line hides SRAM from it. */
  lemma LoadRefines(m: MemState, flat: Sram, w: Width, addr: u32, bypass: bool)
    requires Coherent(m) && Refines(m, flat)
    ensures CachedAccess(m, Aligned(addr, w), bypass) || !DirtyFor(m.dc.lines, Aligned(addr, w))
            ==> Loaded(m, w, addr, bypass) == FlatLoad(flat, w, addr)
  {
    var ea, n := Aligned(addr, w), w.Size();
    if ea < |m.sram| {
      AlignedFits(m, addr, w);
      hide Ensured, LineFor, ValueOf, View, LineBytes, DirtyFor, Aligned, CleanMatches;
      if CachedAccess(m, ea, bypass) {
        EnsuredIsCoherent(m, ea);
        EnsuredHits(m, ea);
        CachedBytesMatch(Ensured(m, ea), flat, ea, n);
      } else if !DirtyFor(m.dc.lines, ea) {
        CleanBytesMatch(m, flat, ea, n);
      }
    }
  }

  lemma PatchRefines(m: MemState, m': MemState, flat: Sram, a: nat, bytes: seq<byte>)
    requires Refines(m, flat) && |m'.sram| == |m.sram| && a + |bytes| <= |flat|
    requires forall x: nat :: x < |m.sram| ==> View(m', x) == if a <= x < a + |bytes| then bytes[x - a] else View(m, x)
    ensures Refines(m', Patched(flat, a, bytes))
  {
    hide View;
  }

  lemma StoreRefines(m: MemState, flat: Sram, w: Width, addr: u32, val: u32, bypass: bool)
    requires Coherent(m) && Refines(m, flat)
    ensures Coherent(Stored(m, w, addr, val, bypass))
    ensures Refines(Stored(m, w, addr, val, bypass), FlatStore(flat, w, addr, val))
  {
    hide Placed, View, AllWritten, BytesOf, CleanMatches, NoAlias, TagsInSram, Aligned, WithBytes, Patched;
    var ea := Aligned(addr, w);
    if ea < |m.sram| {
      AlignedFits(m, addr, w);
      assert |m.sram| == |flat|;
      hide Refines;
      StoreKeepsCoherence(m, ea, BytesOf(w, val), bypass);
      PatchRefines(m, Stored(m, w, addr, val, bypass), flat, ea, BytesOf(w, val));
    }
  }

  /** Big-endian encoding loses nothing: what a load makes of a store's bytes is the stored value, cut to
      the width. */
  lemma ValueRoundTrip(w: Width, val: u32)
    ensures ValueOf(BytesOf(w, val))
            == match w case Byte => val % 0x100 case Half => val % 0x1_0000 case Word => val
  {
    var q1, q2, q3 := val / 0x100, val / 0x1_0000, val / 0x100_0000;
    assert q1 / 0x100 == q2 && q2 / 0x100 == q3;
    assert val == 0x100 * q1 + val % 0x100 && q1 == 0x100 * q2 + q1 % 0x100 && q2 == 0x100 * q3 + q2 % 0x100;
    assert val % 0x1_0000 == (q1 % 0x100) * 0x100 + val % 0x100;
  }

  // ----- Invalidation -----

  lemma AllWrittenBackOne(sram: Sram, es: seq<EvictedLine>, e: EvictedLine)
    ensures AllWrittenBack(sram, es + [e]) == WrittenBack(AllWrittenBack(sram, es), e)
  {
    assert (es + [e])[..|es|] == es;
  }

  lemma ListedWrittenBack(sram: Sram, es: seq<EvictedLine>, e: Option<EvictedLine>)
    ensures AllWrittenBack(sram, es + Listed(e))
            == if e.Some? then WrittenBack(AllWrittenBack(sram, es), e.value) else AllWrittenBack(sram, es)
  {
    if e.Some? {
      AllWrittenBackOne(sram, es, e.value);
    } else {
      assert es + Listed(e) == es;
    }
  }

  /** One way's share of a write-back, seen at one address. */
  lemma WayWrittenBack(sram: Sram, es: seq<EvictedLine>, line: CacheLine, index: nat, x: nat)
    requires index < 64 && x < |sram| && (line.valid ==> BaseAddr(line.tag, index) + 32 <= |sram|)
    ensures AllWrittenBack(sram, es + Listed(Evicted(line, index)))[x] ==
              if line.valid && line.dirty && SetOf(x) == index && TagOf(x) == line.tag then line.data[OffsetOf(x)]
              else AllWrittenBack(sram, es)[x]
  {
    BaseAddrParts(line.tag, index);
    LineNumber(x, BaseAddr(line.tag, index));
    hide BaseAddr, WrittenBack, AllWrittenBack;
    ListedWrittenBack(sram, es, Evicted(line, index));
    if line.valid && line.dirty {
      WrittenBackAt(AllWrittenBack(sram, es), Evicted(line, index).value, x);
    }
  }

  lemma DirtyViewIsTheLine(m: MemState, x: nat)
    requires x < |m.sram| && NoAlias(m.dc.lines)
    ensures var ways := m.dc.lines[SetOf(x)];
            && (ways[0].valid && ways[0].tag == TagOf(x)
                ==> DirtyFor(m.dc.lines, x) == ways[0].dirty && View(m, x) == ways[0].data[OffsetOf(x)]
                    && !(ways[1].valid && ways[1].tag == TagOf(x)))
            && (ways[1].valid && ways[1].tag == TagOf(x)
                ==> DirtyFor(m.dc.lines, x) == ways[1].dirty && View(m, x) == ways[1].data[OffsetOf(x)])
            && (DirtyFor(m.dc.lines, x) ==>
                  (ways[0].valid && ways[0].tag == TagOf(x)) || (ways[1].valid && ways[1].tag == TagOf(x)))
  {
  }

  /** Writing back the dirty lines of the first `n` sets overlays exactly those lines. */
  lemma {:induction false} DirtyLinesAt(m: MemState, n: nat, x: nat)
    requires WellFormed(m) && n <= 64 && x < |m.sram|
    ensures AllWrittenBack(m.sram, DirtyLines(m.dc.lines, n))[x]
            == if SetOf(x) < n && DirtyFor(m.dc.lines, x) then View(m, x) else m.sram[x]
    decreases n
  {
    hide *;
    if n == 0 {
      NoSetsYet(m);
    } else {
      var i, ways, es := n - 1, m.dc.lines[n - 1], DirtyLines(m.dc.lines, n - 1);
      DirtyLinesAt(m, i, x);
      WaysInside(m, i);
      WayWrittenBack(m.sram, es, ways[0], i, x);
      WayWrittenBack(m.sram, es + Listed(Evicted(ways[0], i)), ways[1], i, x);
      OneMoreSet(m.dc.lines, n);
      SetIsInRange(x);
      if SetOf(x) == i {
        ShapeIsSound(m);
        DirtyViewIsTheLine(m, x);
      }
    }
  }

  lemma NoSetsYet(m: MemState)
    ensures AllWrittenBack(m.sram, DirtyLines(m.dc.lines, 0)) == m.sram
  {
  }

  lemma SetIsInRange(x: nat)
    ensures SetOf(x) < 64
  {
  }

  lemma ShapeIsSound(m: MemState)
    requires WellFormed(m)
    ensures NoAlias(m.dc.lines)
  {
  }

  lemma WaysInside(m: MemState, i: nat)
    requires WellFormed(m) && i < 64
    ensures forall w: nat :: w < 2 && m.dc.lines[i][w].valid ==> BaseAddr(m.dc.lines[i][w].tag, i) + 32 <= |m.sram|
  {
  }

  lemma OneMoreSet(lines: Sets, n: nat)
    requires 1 <= n <= 64
    ensures var es, ways := DirtyLines(lines, n - 1), lines[n - 1];
            DirtyLines(lines, n) == (es + Listed(Evicted(ways[0], n - 1))) + Listed(Evicted(ways[1], n - 1))
  {
    hide Evicted;
  }

  /** DC_IVDC empties the cache. With IM set, SRAM is overlaid by exactly the dirty lines; without it,
      SRAM does not change. */
  lemma InvalidateAllEffect(m: MemState)
    requires WellFormed(m)
    ensures var m' := AllInvalidated(m);
            && m'.dc.lines == EMPTY_SETS && Coherent(m') && |m'.sram| == |m.sram|
            && forall x: nat :: x < |m.sram| ==>
                 && m'.sram[x] == (if m.dc.im && DirtyFor(m.dc.lines, x) then View(m, x) else m.sram[x])
                 && View(m', x) == m'.sram[x]
  {
    forall x: nat | x < |m.sram|
      ensures AllInvalidated(m).sram[x] == if m.dc.im && DirtyFor(m.dc.lines, x) then View(m, x) else m.sram[x]
    {
      DirtyLinesAt(m, 64, x);
      hide DirtyLines, View;
    }
    hide AllWrittenBack, DirtyLines, DirtyFor;
  }

  /** So a write-back invalidate is invisible to the CPU and makes SRAM equal what the CPU saw. */
  lemma InvalidateAllFlushes(m: MemState)
    requires Coherent(m) && m.dc.im
    ensures var m' := AllInvalidated(m);
            && Coherent(m')
            && forall x: nat :: x < |m.sram| ==> View(m', x) == View(m, x) && m'.sram[x] == View(m, x)
  {
    InvalidateAllEffect(m);
    hide AllInvalidated;
  }

  lemma LineInvalidatedAt(m: MemState, a: nat, x: nat)
    requires WellFormed(m) && x < |m.sram|
    ensures var m' := LineInvalidated(m, a);
            && LineFor(m'.dc.lines, x) == (if x / 32 == a / 32 then None else LineFor(m.dc.lines, x))
            && m'.sram[x] == if x / 32 == a / 32 && m.dc.im && DirtyFor(m.dc.lines, x) then View(m, x) else m.sram[x]
  {
    DroppedLine(m.dc.lines, a, x);
    if x / 32 == a / 32 {
      LineForSame(m.dc.lines, x, a);
    }
    if m.dc.im && DirtyFor(m.dc.lines, a) {
      ResidentInside(m, a);
      BaseAddrOf(a);
      BaseAddrParts(TagOf(a), SetOf(a));
      WrittenBackAt(m.sram, Invalidated(m.dc, a).1.value, x);
    }
    hide WrittenBack, Dropped, BaseAddr;
  }

  lemma ResidentInside(m: MemState, a: nat)
    requires Sound(m) && LineFor(m.dc.lines, a).Some?
    ensures BaseAddr(TagOf(a), SetOf(a)) + 32 <= |m.sram|
  {
  }

  /** DC_IVDL: invisible with IM set; without it the line falls back to SRAM. */
  lemma InvalidateLineEffect(m: MemState, a: nat)
    requires Coherent(m)
    ensures var m' := LineInvalidated(m, a);
            && Coherent(m') && |m'.sram| == |m.sram|
            && forall x: nat :: x < |m.sram| ==>
                 View(m', x) == if x / 32 == a / 32 && !m.dc.im then m.sram[x] else View(m, x)
  {
    var m' := LineInvalidated(m, a);
    DroppedKeepsShape(|m.sram|, m.dc.lines, a);
    assert WellFormed(m');
    forall x: nat | x < |m.sram|
      ensures LineFor(m'.dc.lines, x) == (if x / 32 == a / 32 then None else LineFor(m.dc.lines, x))
      ensures m'.sram[x] == if x / 32 == a / 32 && m.dc.im && DirtyFor(m.dc.lines, x) then View(m, x) else m.sram[x]
    {
      LineInvalidatedAt(m, a, x);
    }
    hide LineInvalidated, LineFor;
  }

  /** The datapath's line invalidate ignores IM: pending writes to that line are lost. */
  lemma DiscardEffect(m: MemState, a: nat)
    requires Coherent(m)
    ensures var m' := LineDiscarded(m, a);
            && Coherent(m') && m'.sram == m.sram
            && forall x: nat :: x < |m.sram| ==> View(m', x) == if x / 32 == a / 32 then m.sram[x] else View(m, x)
  {
    var m' := LineDiscarded(m, a);
    DroppedKeepsShape(|m.sram|, m.dc.lines, LineBase(a));
    BaseAddrOf(a);
    assert WellFormed(m');
    forall x: nat | x < |m.sram|
      ensures LineFor(m'.dc.lines, x) == if x / 32 == a / 32 then None else LineFor(m.dc.lines, x)
    {
      DroppedLine(m.dc.lines, LineBase(a), x);
    }
    hide LineFor, LineDiscarded;
  }

  // ----- DMA -----

  lemma DmaOverwrittenLine(lines: Sets, a: nat, x: nat)
    requires NoAlias(lines)
    ensures LineFor(DmaOverwritten(lines, a), x)
            == if x / 32 == a / 32 && !DirtyFor(lines, x) then None else LineFor(lines, x)
  {
    DroppedLine(lines, a, x);
    if x / 32 == a / 32 {
      LineForSame(lines, x, a);
    }
  }

  /** The line-stepping loop drops the clean lines from the first covered line to the last, and no other. */
  lemma {:induction false} DmaSweptLine(size: nat, lines: Sets, a: nat, last: nat, x: nat)
    requires NoAlias(lines) && TagsInSram(size, lines) && a % 32 == 0 && last % 32 == 0
    ensures NoAlias(DmaSwept(lines, a, last)) && TagsInSram(size, DmaSwept(lines, a, last))
    ensures LineFor(DmaSwept(lines, a, last), x)
            == if a / 32 <= x / 32 <= last / 32 && !DirtyFor(lines, x) then None else LineFor(lines, x)
    decreases if a <= last then last - a + 1 else 0
  {
    hide LineFor, Dropped, NoAlias, TagsInSram, DmaSwept, DmaOverwritten;
    SweepGoesOn(lines, a, last);
    LineSteps(a, last);
    if a <= last {
      DmaOverwrittenLine(lines, a, x);
      OverwrittenKeepsShape(size, lines, a);
      DmaSweptLine(size, DmaOverwritten(lines, a), a + 32, last, x);
    }
  }

  lemma SweepGoesOn(lines: Sets, a: nat, last: nat)
    ensures DmaSwept(lines, a, last) == if a > last then lines else DmaSwept(DmaOverwritten(lines, a), a + 32, last)
  {
    hide DmaOverwritten;
  }

  lemma LineSteps(a: nat, last: nat)
    requires a % 32 == 0 && last % 32 == 0
    ensures (a <= last <==> a / 32 <= last / 32) && (a + 32) / 32 == a / 32 + 1 && (a + 32) % 32 == 0
  {
  }

  lemma OverwrittenKeepsShape(size: nat, lines: Sets, a: nat)
    requires NoAlias(lines) && TagsInSram(size, lines)
    ensures NoAlias(DmaOverwritten(lines, a)) && TagsInSram(size, DmaOverwritten(lines, a))
  {
    DroppedKeepsShape(size, lines, a);
    hide NoAlias, TagsInSram, Dropped;
  }

  /** A DMA write reaches SRAM at once; the CPU sees the new byte except where a dirty line still shadows
      it, and sees no change anywhere else. */
  lemma DmaEffect(m: MemState, a: nat, bytes: seq<byte>)
    requires Coherent(m) && a + |bytes| <= |m.sram|
    ensures var m' := DmaWritten(m, a, bytes);
            && Coherent(m') && m'.sram == Patched(m.sram, a, bytes)
            && forall x: nat :: x < |m.sram| ==>
                 View(m', x) == if a <= x < a + |bytes| && !DirtyFor(m.dc.lines, x) then bytes[x - a] else View(m, x)
  {
    var m' := DmaWritten(m, a, bytes);
    DmaKeepsShape(m, a, bytes);
    hide DmaWritten, View, LineFor, CleanAt, CleanMatches, NoAlias, TagsInSram;
    forall x: nat | x < |m.sram|
      ensures View(m', x) == if a <= x < a + |bytes| && !DirtyFor(m.dc.lines, x) then bytes[x - a] else View(m, x)
      ensures CleanAt(m', x)
    {
      DmaAt(m, a, bytes, x);
    }
    CleanEverywhere(m');
  }

  /** The lines a DMA write sweeps. */
  function LastSwept(a: nat, n: nat): nat { LineBase(Max(a + n - 1, 0)) }

  lemma DmaKeepsShape(m: MemState, a: nat, bytes: seq<byte>)
    requires Coherent(m) && a + |bytes| <= |m.sram|
    ensures WellFormed(DmaWritten(m, a, bytes)) && DmaWritten(m, a, bytes).sram == Patched(m.sram, a, bytes)
  {
    DmaSweptLine(|m.sram|, m.dc.lines, LineBase(a), LastSwept(a, |bytes|), 0);
    hide DmaSwept, Patched, LineFor, NoAlias, TagsInSram, LineBase;
  }

  lemma SweptLines(a: nat, n: nat, x: nat)
    ensures LineBase(a) % 32 == 0 && LastSwept(a, n) % 32 == 0
    ensures a <= x < a + n ==> LineBase(a) / 32 <= x / 32 <= LastSwept(a, n) / 32
  {
    hide LineBase;
    BaseOf(a);
    BaseOf(Max(a + n - 1, 0));
    if a <= x < a + n {
      LinesInOrder(a, x);
      LinesInOrder(x, a + n - 1);
    }
  }

  lemma BaseOf(a: nat)
    ensures LineBase(a) == 32 * (a / 32) && LineBase(a) / 32 == a / 32 && LineBase(a) % 32 == 0
  {
  }

  lemma LinesInOrder(x: nat, y: nat)
    requires x <= y
    ensures x / 32 <= y / 32
  {
  }

  lemma DmaAt(m: MemState, a: nat, bytes: seq<byte>, x: nat)
    requires Coherent(m) && a + |bytes| <= |m.sram| && x < |m.sram|
    ensures var m' := DmaWritten(m, a, bytes);
            && View(m', x) == (if a <= x < a + |bytes| && !DirtyFor(m.dc.lines, x) then bytes[x - a] else View(m, x))
            && CleanAt(m', x)
  {
    hide DmaSwept, Patched, LineFor, LineBase, LastSwept, OffsetOf;
    assert DmaWritten(m, a, bytes).dc.lines == DmaSwept(m.dc.lines, LineBase(a), LastSwept(a, |bytes|)) by {
      SweptTo(m, a, bytes);
    }
    SweptLines(a, |bytes|, x);
    DmaSweptLine(|m.sram|, m.dc.lines, LineBase(a), LastSwept(a, |bytes|), x);
    PatchedAt(m.sram, a, bytes, x);
  }

  lemma SweptTo(m: MemState, a: nat, bytes: seq<byte>)
    requires a + |bytes| <= |m.sram|
    ensures DmaWritten(m, a, bytes).dc.lines == DmaSwept(m.dc.lines, LineBase(a), LastSwept(a, |bytes|))
  {
    hide DmaSwept, LineBase;
  }

  // ----- Images -----

  /** Loading an image behind the cache and then invalidating with IM set gives the image overlaid by
      exactly the lines that were dirty: the pure image when none was. */
  lemma ImageThenInvalidate(m: MemState, a: nat, bytes: seq<byte>)
    requires WellFormed(m) && m.dc.im && a + |bytes| <= |m.sram|
    ensures var m' := AllInvalidated(ImageLoaded(m, a, bytes));
            && Coherent(m')
            && forall x: nat :: x < |m.sram| ==>
                 && View(m', x) == m'.sram[x]
                 && m'.sram[x] == if DirtyFor(m.dc.lines, x) then View(m, x)
                                  else if a <= x < a + |bytes| then bytes[x - a] else m.sram[x]
  {
    var m1 := ImageLoaded(m, a, bytes);
    InvalidateAllEffect(m1);
    forall x: nat | x < |m.sram|
      ensures m1.sram[x] == if a <= x < a + |bytes| then bytes[x - a] else m.sram[x]
      ensures DirtyFor(m.dc.lines, x) ==> View(m1, x) == View(m, x)
    {
      PatchedAt(m.sram, a, bytes, x);
    }
    hide AllInvalidated, Patched, LineFor;
  }

  /** A warm reboot: SRAM zeroed, caches invalidated, the flash image loaded, caches invalidated again. */
  function WarmRebooted(m: MemState, flash: seq<byte>): MemState
    requires |flash| <= |m.sram|
  {
    var m1 := AllInvalidated(ImageLoaded(m, 0, Repeat(0, |m.sram|)));
    AllInvalidated(ImageLoaded(m1, 0, flash))
  }

  /** The flash image is loaded intact, but above it SRAM is not all zero: with IM set, lines the old
      firmware left dirty survive the reboot. */
  lemma WarmRebootLeavesDirtyLines(m: MemState, flash: seq<byte>)
    requires WellFormed(m) && |flash| <= |m.sram|
    ensures var m' := WarmRebooted(m, flash);
            && Coherent(m')
            && forall x: nat :: x < |m.sram| ==>
                 && View(m', x) == m'.sram[x]
                 && m'.sram[x] == if x < |flash| then flash[x]
                                  else if m.dc.im && DirtyFor(m.dc.lines, x) then View(m, x) else 0
  {
    var zeroed := ImageLoaded(m, 0, Repeat(0, |m.sram|));
    var m1 := AllInvalidated(zeroed);
    InvalidateAllEffect(zeroed);
    var m2 := ImageLoaded(m1, 0, flash);
    InvalidateAllEffect(m2);
    forall x: nat | x < |m.sram|
      ensures zeroed.sram[x] == 0 && m2.sram[x] == if x < |flash| then flash[x] else m1.sram[x]
      ensures !DirtyFor(m2.dc.lines, x)
      ensures DirtyFor(m.dc.lines, x) ==> View(zeroed, x) == View(m, x)
    {
      PatchedAt(m.sram, 0, Repeat(0, |m.sram|), x);
      PatchedAt(m1.sram, 0, flash, x);
    }
    hide AllInvalidated, Patched, LineFor;
  }
}
