/** SRAM behind the data cache: the CPU data port, the cache-control operations and DMA.
    Peripheral space is outside the model: an access that leaves SRAM is `None`. */
module MemorySystem {
  import opened Words
  import opened DataCache
  import IC = InstructionCache

  datatype Width = Byte | Half | Word {
    function Size(): nat { match this case Byte => 1 case Half => 2 case Word => 4 }
  }

  // ----- Big-endian values -----

  function HalfOf(b0: byte, b1: byte): nat { b0 * 0x100 + b1 }
  function WordOf(b0: byte, b1: byte, b2: byte, b3: byte): nat {
    b0 * 0x100_0000 + b1 * 0x1_0000 + b2 * 0x100 + b3
  }

  /** The value of one, two or four bytes, most significant first. */
  function ValueOf(bytes: seq<byte>): nat
    requires |bytes| == 1 || |bytes| == 2 || |bytes| == 4
  {
    if |bytes| == 1 then bytes[0]
    else if |bytes| == 2 then HalfOf(bytes[0], bytes[1])
    else WordOf(bytes[0], bytes[1], bytes[2], bytes[3])
  }

  /** Byte `k` of a word, counting from the least significant. */
  function ByteOf(val: u32, k: nat): byte
    requires k < 4
  {
    match k
    case 0 => val % 0x100
    case 1 => val / 0x100 % 0x100
    case 2 => val / 0x1_0000 % 0x100
    case 3 => val / 0x100_0000
  }

  /** The bytes a store of the given width drives. */
  function BytesOf(w: Width, val: u32): (r: seq<byte>)
    ensures |r| == w.Size()
  {
    match w
    case Byte => [ByteOf(val, 0)]
    case Half => [ByteOf(val, 1), ByteOf(val, 0)]
    case Word => [ByteOf(val, 3), ByteOf(val, 2), ByteOf(val, 1), ByteOf(val, 0)]
  }

  /** The address the core drives: the low bits are cleared, per width. */
  function Aligned(addr: u32, w: Width): u32 { addr - addr % w.Size() }

  // ----- State -----

  type Sram = d: seq<byte> | |d| % 32 == 0 && |d| + 32 <= 0x1_0000_0000

  datatype MemState = MemState(sram: Sram, dc: DCacheState)

  predicate RoundRobin(dc: DCacheState) {
    forall i: nat :: i < 64 ==> dc.nextWay[i] < 2
  }

  predicate TagsInSram(size: nat, lines: Sets) {
    forall i: nat, w: nat :: i < 64 && w < 2 && lines[i][w].valid ==> BaseAddr(lines[i][w].tag, i) + 32 <= size
  }

  /** What every operation needs and keeps: counters in range and valid lines backed by SRAM. */
  predicate Sound(m: MemState) {
    RoundRobin(m.dc) && TagsInSram(|m.sram|, m.dc.lines)
  }

  // ----- Line transfers -----

  function Patched(sram: Sram, addr: nat, bytes: seq<byte>): (r: Sram)
    requires addr + |bytes| <= |sram|
    ensures |r| == |sram|
  {
    sram[..addr] + bytes + sram[addr + |bytes|..]
  }

  function LineBase(addr: nat): nat { addr - addr % 32 }

  function BackingLine(sram: Sram, addr: nat): LineData
    requires addr < |sram|
  {
    sram[LineBase(addr)..LineBase(addr) + 32]
  }

  /** Write a line back; lines outside SRAM go to the peripheral bank. */
  function WrittenBack(sram: Sram, e: EvictedLine): (r: Sram)
    ensures |r| == |sram|
  {
    if e.addr + 32 <= |sram| then Patched(sram, e.addr, e.data) else sram
  }

  function AllWrittenBack(sram: Sram, es: seq<EvictedLine>): (r: Sram)
    ensures |r| == |sram|
  {
    if es == [] then sram else WrittenBack(AllWrittenBack(sram, es[..|es| - 1]), es[|es| - 1])
  }

  /** Make the line of `addr` resident, writing back what it displaces. */
  function Ensured(m: MemState, addr: nat): MemState
    requires addr < |m.sram| && RoundRobin(m.dc)
  {
    var (dc, evicted) := Filled(m.dc, addr, BackingLine(m.sram, addr));
    MemState(if evicted.Some? then WrittenBack(m.sram, evicted.value) else m.sram, dc)
  }

  // ----- The data port -----

  function AllWritten(lines: Sets, addr: nat, bytes: seq<byte>): Sets {
    if bytes == [] then lines
    else Written(AllWritten(lines, addr, bytes[..|bytes| - 1]), addr + |bytes| - 1, bytes[|bytes| - 1])
  }

  predicate CachedAccess(m: MemState, addr: nat, bypass: bool) {
    addr < |m.sram| && !bypass && m.dc.enabled
  }

  /** What a load leaves behind. */
  function AfterLoad(m: MemState, w: Width, addr: u32, bypass: bool): MemState
    requires Sound(m)
  {
    var ea := Aligned(addr, w);
    if CachedAccess(m, ea, bypass) then Ensured(m, ea) else m
  }

  /** What a load returns; None when it leaves SRAM for the peripheral bank. */
  function Loaded(m: MemState, w: Width, addr: u32, bypass: bool): Option<nat>
    requires Sound(m)
  {
    var ea := Aligned(addr, w);
    if ea >= |m.sram| then None
    else if CachedAccess(m, ea, bypass) then
      EnsuredHits(m, ea);
      AlignedFits(m, addr, w);
      Some(ValueOf(LineBytes(Ensured(m, ea), ea, w.Size())))
    else
      AlignedFits(m, addr, w);
      Some(ValueOf(m.sram[ea..ea + w.Size()]))
  }

  /** A store before its bytes reach the cache: the line made resident, or SRAM written. */
  function Placed(m: MemState, addr: nat, bytes: seq<byte>, bypass: bool): MemState
    requires Sound(m) && addr + |bytes| <= |m.sram| && bytes != []
  {
    if CachedAccess(m, addr, bypass) then Ensured(m, addr) else m.(sram := Patched(m.sram, addr, bytes))
  }

  function WithBytes(m: MemState, addr: nat, bytes: seq<byte>): MemState {
    m.(dc := m.dc.(lines := AllWritten(m.dc.lines, addr, bytes)))
  }

  /** A store. The uncached path writes SRAM and then any cached copy, dirtying it. */
  function Stored(m: MemState, w: Width, addr: u32, val: u32, bypass: bool): MemState
    requires Sound(m)
  {
    var ea, bytes := Aligned(addr, w), BytesOf(w, val);
    if ea >= |m.sram| then m
    else
      AlignedFits(m, addr, w);
      WithBytes(Placed(m, ea, bytes, bypass), ea, bytes)
  }

  /** `n` bytes from a resident line. */
  function LineBytes(m: MemState, addr: nat, n: nat): (r: seq<byte>)
    requires LineFor(m.dc.lines, addr).Some? && OffsetOf(addr) + n <= 32
    ensures |r| == n
  {
    LineFor(m.dc.lines, addr).value.data[OffsetOf(addr)..OffsetOf(addr) + n]
  }

  lemma EnsuredHits(m: MemState, addr: nat)
    requires addr < |m.sram| && RoundRobin(m.dc)
    ensures LineFor(Ensured(m, addr).dc.lines, addr).Some?
  {
  }

  lemma AlignedFits(m: MemState, addr: u32, w: Width)
    requires Aligned(addr, w) < |m.sram|
    ensures OffsetOf(Aligned(addr, w)) + w.Size() <= 32
    ensures Aligned(addr, w) + w.Size() <= |m.sram|
  {
    var ea := Aligned(addr, w);
    var q, o, k := ea / 32, ea % 32, |m.sram| / 32;
    assert ea == 32 * q + o && |m.sram| == 32 * k && q < k;
    match w
    case Byte =>
    case Half => assert ea == 2 * (addr / 2); assert o == 2 * (addr / 2 - 16 * q);
    case Word => assert ea == 4 * (addr / 4); assert o == 4 * (addr / 4 - 8 * q);
  }

  // ----- Cache control and DMA -----

  /** DC_IVDC: write back what is dirty (when IM is set), then empty the cache. */
  function AllInvalidated(m: MemState): MemState {
    var (dc, evicted) := InvalidatedAll(m.dc);
    MemState(AllWrittenBack(m.sram, evicted), dc)
  }

  /** DC_IVDL. */
  function LineInvalidated(m: MemState, addr: nat): MemState {
    var (dc, evicted) := Invalidated(m.dc, addr);
    MemState(if evicted.Some? then WrittenBack(m.sram, evicted.value) else m.sram, dc)
  }

  /** The datapath's line invalidate, which throws the displaced line away. */
  function LineDiscarded(m: MemState, addr: nat): MemState {
    m.(dc := Invalidated(m.dc, LineBase(addr)).0)
  }

  function DmaSwept(lines: Sets, addr: nat, last: nat): Sets
    decreases if addr <= last then last - addr + 1 else 0
  {
    if addr > last then lines else DmaSwept(DmaOverwritten(lines, addr), addr + 32, last)
  }

  /** A DMA write: SRAM takes the bytes; clean lines it touches go, dirty ones stay. */
  function DmaWritten(m: MemState, addr: nat, bytes: seq<byte>): MemState {
    if addr + |bytes| > |m.sram| then m
    else
      MemState(Patched(m.sram, addr, bytes),
               m.dc.(lines := DmaSwept(m.dc.lines, LineBase(addr), LineBase(Max(addr + |bytes| - 1, 0)))))
  }

  /** Loading an image or restoring a snapshot goes round the caches. */
  function ImageLoaded(m: MemState, addr: nat, bytes: seq<byte>): MemState
    requires addr + |bytes| <= |m.sram|
  {
    m.(sram := Patched(m.sram, addr, bytes))
  }

  // ----- The fetch port -----

  datatype Fetched = Ok(val: nat) | Misaligned | OutOfRange

  function PeekHalf(ic: IC.Lines, addr: u32): Option<nat>
    requires addr % 2 == 0
  {
    var line, off := ic[IC.SetOf(addr)], IC.OffsetOf(addr);
    if IC.Holds(ic, addr) then Some(HalfOf(line.data[off], line.data[off + 1])) else None
  }

  function PeekWord(ic: IC.Lines, addr: u32): Option<nat>
    requires IC.OffsetOf(addr) + 4 <= 32
  {
    var line, off := ic[IC.SetOf(addr)], IC.OffsetOf(addr);
    if IC.Holds(ic, addr)
    then Some(WordOf(line.data[off], line.data[off + 1], line.data[off + 2], line.data[off + 3]))
    else None
  }

  function InstructionFilled(sram: Sram, ic: IC.Lines, addr: u32): IC.Lines {
    if IC.Holds(ic, addr) || LineBase(addr) >= |sram| then ic
    else IC.Filled(ic, addr, sram[LineBase(addr)..LineBase(addr) + 32])
  }

  function HalfFetched(sram: Sram, ic: IC.Lines, on: bool, addr: u32): (IC.Lines, Fetched) {
    if addr % 2 != 0 then (ic, Misaligned)
    else
      var ic' := if on then InstructionFilled(sram, ic, addr) else ic;
      if on && PeekHalf(ic', addr).Some? then (ic', Ok(PeekHalf(ic', addr).value))
      else if addr + 1 < |sram| then (ic', Ok(HalfOf(sram[addr], sram[addr + 1])))
      else (ic', OutOfRange)
  }

  function WordFetched(sram: Sram, ic: IC.Lines, on: bool, addr: u32): (IC.Lines, Fetched) {
    if addr % 2 != 0 then (ic, Misaligned)
    else if on && IC.OffsetOf(addr) + 4 > 32 then
      var (ic1, hi) := HalfFetched(sram, ic, on, addr);
      if !hi.Ok? then (ic1, hi)
      else
        var (ic2, lo) := HalfFetched(sram, ic1, on, Wrap(addr + 2));
        (ic2, if lo.Ok? then Ok(hi.val * 0x1_0000 + lo.val) else lo)
    else
      var ic' := if on then InstructionFilled(sram, ic, addr) else ic;
      if on && PeekWord(ic', addr).Some? then (ic', Ok(PeekWord(ic', addr).value))
      else if addr + 3 < |sram| then (ic', Ok(WordOf(sram[addr], sram[addr + 1], sram[addr + 2], sram[addr + 3])))
      else (ic', OutOfRange)
  }

  // ----- The memory object -----

  class Memory {
    const data: array<byte>
    const dcache: DCache
    const icache: IC.ICache

    ghost predicate Valid() reads this, dcache, icache {
      && data.Length % 32 == 0 && data.Length + 32 <= 0x1_0000_0000
      && dcache.Valid() && icache.Valid()
      && data as object != dcache.nextWay && dcache.lines as object != dcache.nextWay
    }

    ghost function State(): MemState
      reads this, data, dcache, dcache.lines, dcache.nextWay, icache
      requires Valid()
    {
      MemState(data[..], dcache.State())
    }

    constructor (image: Sram)
      ensures Valid() && fresh(data) && fresh(dcache) && fresh(icache)
      ensures fresh(dcache.lines) && fresh(dcache.nextWay) && fresh(icache.lines)
      ensures State() == MemState(image, DCacheState(EMPTY_SETS, Repeat(0, 64), true, true, true, DC_CTRL_RESET))
      ensures icache.enabled && icache.Contents() == IC.ALL_EMPTY
    {
      data := new byte[|image|](i requires 0 <= i < |image| => image[i]);
      dcache := new DCache();
      icache := new IC.ICache();
    }

    method WritebackLine(e: EvictedLine)
      requires Valid()
      modifies data
      ensures data[..] == WrittenBack(old(data[..]), e)
    {
      if e.addr + 32 <= data.Length {
        for i := 0 to 32
          invariant forall k :: 0 <= k < data.Length ==>
                      data[k] == if e.addr <= k < e.addr + i then e.data[k - e.addr] else old(data[k])
        {
          data[e.addr + i] := e.data[i];
        }
      }
    }

    method EnsureCacheLine(addr: nat)
      requires Valid() && addr < data.Length && RoundRobin(dcache.State())
      modifies data, dcache.lines, dcache.nextWay
      ensures State() == Ensured(old(State()), addr)
    {
      var hit := dcache.Contains(addr);
      if hit {
        return;
      }
      var evicted := dcache.FillLine(addr, BackingLine(data[..], addr));
      if evicted.Some? {
        WritebackLine(evicted.value);
      }
    }

    method ReadByteData(addr: u32, bypass: bool) returns (val: Option<nat>)
      requires Valid() && Sound(State())
      modifies data, dcache.lines, dcache.nextWay
      ensures State() == AfterLoad(old(State()), Byte, addr, bypass)
      ensures val == Loaded(old(State()), Byte, addr, bypass)
    {
      if addr >= data.Length {
        return None;
      }
      if bypass || !dcache.enabled {
        return Some(data[addr]);
      }
      hide Filled, Peek, LineFor, Ensured, LineBytes;
      EnsureCacheLine(addr);
      EnsuredHits(old(State()), addr);
      ByteInLine(State(), addr, 0, 1);
      var b0 := dcache.ReadByte(addr);
      val := Some(b0.value);
    }

    method ReadHalfData(address: u32, bypass: bool) returns (val: Option<nat>)
      requires Valid() && Sound(State())
      modifies data, dcache.lines, dcache.nextWay
      ensures State() == AfterLoad(old(State()), Half, address, bypass)
      ensures val == Loaded(old(State()), Half, address, bypass)
    {
      hide Loaded, Ensured, Peek, TagsInSram, HalfOf, LineFor, Filled, Aligned;
      HalfLoad(State(), address, bypass);
      var addr := Aligned(address, Half);
      if addr >= data.Length {
        return None;
      }
      if bypass || !dcache.enabled {
        return Some(HalfOf(data[addr], data[addr + 1]));
      }
      EnsureCacheLine(addr);
      var b0 := dcache.ReadByte(addr);
      var b1 := dcache.ReadByte(addr + 1);
      val := Some(HalfOf(b0.value, b1.value));
    }

    method ReadWordData(address: u32, bypass: bool) returns (val: Option<nat>)
      requires Valid() && Sound(State())
      modifies data, dcache.lines, dcache.nextWay
      ensures State() == AfterLoad(old(State()), Word, address, bypass)
      ensures val == Loaded(old(State()), Word, address, bypass)
    {
      hide Loaded, Ensured, Peek, TagsInSram, WordOf, LineFor, Filled, Aligned;
      WordLoad(State(), address, bypass);
      var addr := Aligned(address, Word);
      if addr >= data.Length {
        return None;
      }
      if bypass || !dcache.enabled {
        return Some(WordOf(data[addr], data[addr + 1], data[addr + 2], data[addr + 3]));
      }
      EnsureCacheLine(addr);
      var b0 := dcache.ReadByte(addr);
      var b1 := dcache.ReadByte(addr + 1);
      var b2 := dcache.ReadByte(addr + 2);
      var b3 := dcache.ReadByte(addr + 3);
      val := Some(WordOf(b0.value, b1.value, b2.value, b3.value));
    }

    method WriteByteData(addr: u32, val: u32, bypass: bool)
      requires Valid() && Sound(State())
      modifies data, dcache.lines, dcache.nextWay
      ensures State() == Stored(old(State()), Byte, addr, val, bypass)
    {
      hide Placed, Written, Stored, Sound, LineFor, ByteOf;
      ByteStore(State(), addr, val, bypass);
      if addr >= data.Length {
        return;
      }
      Place(addr, [ByteOf(val, 0)], bypass);
      var _ := dcache.WriteByte(addr, ByteOf(val, 0));
    }

    method WriteHalfData(address: u32, val: u32, bypass: bool)
      requires Valid() && Sound(State())
      modifies data, dcache.lines, dcache.nextWay
      ensures State() == Stored(old(State()), Half, address, val, bypass)
    {
      hide Placed, Written, Stored, Sound, LineFor, ByteOf, Aligned;
      HalfStore(State(), address, val, bypass);
      var addr := Aligned(address, Half);
      if addr >= data.Length {
        return;
      }
      Place(addr, [ByteOf(val, 1), ByteOf(val, 0)], bypass);
      WritePair(addr, ByteOf(val, 1), ByteOf(val, 0));
    }

    method WriteWordData(address: u32, val: u32, bypass: bool)
      requires Valid() && Sound(State())
      modifies data, dcache.lines, dcache.nextWay
      ensures State() == Stored(old(State()), Word, address, val, bypass)
    {
      hide Placed, Written, Stored, Sound, LineFor, ByteOf, Aligned;
      WordStore(State(), address, val, bypass);
      var addr := Aligned(address, Word);
      if addr >= data.Length {
        return;
      }
      Place(addr, [ByteOf(val, 3), ByteOf(val, 2), ByteOf(val, 1), ByteOf(val, 0)], bypass);
      WritePair(addr, ByteOf(val, 3), ByteOf(val, 2));
      WritePair(addr + 2, ByteOf(val, 1), ByteOf(val, 0));
    }

    /** Two cached bytes. */
    method WritePair(addr: nat, b0: byte, b1: byte)
      requires Valid()
      modifies dcache.lines
      ensures var s := old(State());
              State() == s.(dc := s.dc.(lines := Written(Written(s.dc.lines, addr, b0), addr + 1, b1)))
    {
      hide Written;
      var _ := dcache.WriteByte(addr, b0);
      var _ := dcache.WriteByte(addr + 1, b1);
    }

    /** The part the stores share: allocate the line, or write the bytes to SRAM. */
    method Place(addr: nat, bytes: seq<byte>, bypass: bool)
      requires Valid() && Sound(State()) && addr + |bytes| <= data.Length && bytes != []
      modifies data, dcache.lines, dcache.nextWay
      ensures State() == Placed(old(State()), addr, bytes, bypass)
    {
      hide Ensured;
      if bypass || !dcache.enabled {
        CopyIn(addr, bytes);
      } else {
        EnsureCacheLine(addr);
      }
    }

    method DcacheInvalidateAll()
      requires Valid()
      modifies data, dcache.lines, dcache.nextWay
      ensures State() == AllInvalidated(old(State()))
    {
      var evicted := dcache.InvalidateAll();
      for i := 0 to |evicted|
        invariant dcache.State() == InvalidatedAll(old(State()).dc).0
        invariant data[..] == AllWrittenBack(old(data[..]), evicted[..i])
      {
        WritebackLine(evicted[i]);
        assert evicted[..i + 1][..i] == evicted[..i];
      }
      assert evicted[..|evicted|] == evicted;
    }

    method DcacheInvalidateLine(addr: nat)
      requires Valid()
      modifies data, dcache.lines
      ensures State() == LineInvalidated(old(State()), addr)
    {
      var evicted := dcache.InvalidateLine(addr);
      if evicted.Some? {
        WritebackLine(evicted.value);
      }
    }

    method DatapathInvalidate(addr: nat)
      requires Valid()
      modifies dcache.lines
      ensures State() == LineDiscarded(old(State()), addr)
    {
      var _ := dcache.InvalidateLine(addr - addr % 32);
    }

    method DatapathWrite(start: nat, bytes: seq<byte>)
      requires Valid()
      modifies data, dcache.lines
      ensures State() == DmaWritten(old(State()), start, bytes)
      ensures icache.Contents() == old(icache.Contents())
    {
      if start + |bytes| > data.Length {
        return;
      }
      CopyIn(start, bytes);
      var addr, last := LineBase(start), LineBase(Max(start + |bytes| - 1, 0));
      while addr <= last
        invariant data[..] == Patched(old(data[..]), start, bytes)
        invariant State() == old(State()).(sram := data[..], dc := State().dc)
        invariant State().dc == old(State()).dc.(lines := State().dc.lines)
        invariant DmaSwept(State().dc.lines, addr, last) == DmaSwept(old(State()).dc.lines, LineBase(start), last)
        decreases if addr <= last then last - addr + 1 else 0
      {
        var _ := dcache.DmaSramOverwrite(addr);
        addr := addr + 32;
      }
    }

    method CopyIn(start: nat, bytes: seq<byte>)
      requires Valid() && start + |bytes| <= data.Length
      modifies data
      ensures data[..] == Patched(old(data[..]), start, bytes)
    {
      for i := 0 to |bytes|
        invariant forall k :: 0 <= k < data.Length ==>
                    data[k] == if start <= k < start + i then bytes[k - start] else old(data[k])
      {
        data[start + i] := bytes[i];
      }
    }

    method LoadBinary(start: nat, bytes: seq<byte>)
      requires Valid() && start + |bytes| <= data.Length
      modifies data
      ensures State() == ImageLoaded(old(State()), start, bytes)
    {
      CopyIn(start, bytes);
    }

    method IcacheFill(addr: u32)
      requires Valid()
      modifies icache.lines
      ensures icache.Contents() == InstructionFilled(data[..], old(icache.Contents()), addr)
    {
      if !icache.Contains(addr) {
        var base := LineBase(addr);
        if base < data.Length {
          icache.FillLine(addr, data[base..base + 32]);
        }
      }
    }

    method FetchHalf(addr: u32) returns (r: Fetched)
      requires Valid()
      modifies icache.lines
      ensures (icache.Contents(), r) == HalfFetched(data[..], old(icache.Contents()), icache.enabled, addr)
    {
      if addr % 2 != 0 {
        return Misaligned;
      }
      if icache.enabled {
        IcacheFill(addr);
        if icache.Contains(addr) {
          var line, off := icache.lines[IC.SetOf(addr)], IC.OffsetOf(addr);
          return Ok(HalfOf(line.data[off], line.data[off + 1]));
        }
      }
      if addr + 1 < data.Length {
        return Ok(HalfOf(data[addr], data[addr + 1]));
      }
      r := OutOfRange;
    }

    method FetchWord(addr: u32) returns (r: Fetched)
      requires Valid()
      modifies icache.lines
      ensures (icache.Contents(), r) == WordFetched(data[..], old(icache.Contents()), icache.enabled, addr)
    {
      if addr % 2 != 0 {
        return Misaligned;
      }
      if icache.enabled {
        if IC.OffsetOf(addr) + 4 <= 32 {
          IcacheFill(addr);
          if icache.Contains(addr) {
            var line, off := icache.lines[IC.SetOf(addr)], IC.OffsetOf(addr);
            return Ok(WordOf(line.data[off], line.data[off + 1], line.data[off + 2], line.data[off + 3]));
          }
        } else {
          var hi := FetchHalf(addr);
          if !hi.Ok? {
            return hi;
          }
          var lo := FetchHalf(Wrap(addr + 2));
          return if lo.Ok? then Ok(hi.val * 0x1_0000 + lo.val) else lo;
        }
      }
      if addr + 3 < data.Length {
        return Ok(WordOf(data[addr], data[addr + 1], data[addr + 2], data[addr + 3]));
      }
      r := OutOfRange;
    }
  }

  lemma ByteInLine(m: MemState, addr: nat, k: nat, n: nat)
    requires LineFor(m.dc.lines, addr).Some? && OffsetOf(addr) + n <= 32 && k < n
    ensures Peek(m.dc.lines, addr + k) == Some(LineBytes(m, addr, n)[k])
  {
    SameLine(addr, k);
  }

  /** The half-word load byte by byte, as the data port performs it. */
  lemma HalfLoad(m: MemState, address: u32, bypass: bool)
    requires Sound(m)
    ensures var ea, v := Aligned(address, Half), Loaded(m, Half, address, bypass);
            if ea >= |m.sram| then v == None
            else if CachedAccess(m, ea, bypass) then
              var l := Ensured(m, ea).dc.lines;
              && Peek(l, ea).Some? && Peek(l, ea + 1).Some?
              && v == Some(HalfOf(Peek(l, ea).value, Peek(l, ea + 1).value))
            else ea + 1 < |m.sram| && v == Some(HalfOf(m.sram[ea], m.sram[ea + 1]))
  {
    var ea := Aligned(address, Half);
    if ea < |m.sram| {
      AlignedFits(m, address, Half);
      if CachedAccess(m, ea, bypass) {
        EnsuredHits(m, ea);
        hide Ensured, LineBytes, Peek, LineFor;
        ByteInLine(Ensured(m, ea), ea, 0, 2);
        ByteInLine(Ensured(m, ea), ea, 1, 2);
      }
    }
  }

  /** The word load byte by byte. */
  lemma WordLoad(m: MemState, address: u32, bypass: bool)
    requires Sound(m)
    ensures var ea, v := Aligned(address, Word), Loaded(m, Word, address, bypass);
            if ea >= |m.sram| then v == None
            else if CachedAccess(m, ea, bypass) then
              var l := Ensured(m, ea).dc.lines;
              && Peek(l, ea).Some? && Peek(l, ea + 1).Some? && Peek(l, ea + 2).Some? && Peek(l, ea + 3).Some?
              && v == Some(WordOf(Peek(l, ea).value, Peek(l, ea + 1).value, Peek(l, ea + 2).value, Peek(l, ea + 3).value))
            else
              && ea + 3 < |m.sram|
              && v == Some(WordOf(m.sram[ea], m.sram[ea + 1], m.sram[ea + 2], m.sram[ea + 3]))
  {
    var ea := Aligned(address, Word);
    if ea < |m.sram| {
      AlignedFits(m, address, Word);
      if CachedAccess(m, ea, bypass) {
        EnsuredHits(m, ea);
        hide Ensured, LineBytes, Peek, LineFor;
        ByteInLine(Ensured(m, ea), ea, 0, 4);
        ByteInLine(Ensured(m, ea), ea, 1, 4);
        ByteInLine(Ensured(m, ea), ea, 2, 4);
        ByteInLine(Ensured(m, ea), ea, 3, 4);
      }
    }
  }

  lemma ByteStore(m: MemState, address: u32, val: u32, bypass: bool)
    requires Sound(m)
    ensures var b0 := ByteOf(val, 0);
            if address >= |m.sram| then Stored(m, Byte, address, val, bypass) == m
            else
              var p := Placed(m, address, [b0], bypass);
              Stored(m, Byte, address, val, bypass) == p.(dc := p.dc.(lines := Written(p.dc.lines, address, b0)))
  {
    if address < |m.sram| {
      hide Placed, Written, AllWritten, ByteOf;
      OneWritten(Placed(m, address, [ByteOf(val, 0)], bypass).dc.lines, address, ByteOf(val, 0));
    }
  }

  lemma HalfStore(m: MemState, address: u32, val: u32, bypass: bool)
    requires Sound(m)
    ensures var ea, b0, b1 := Aligned(address, Half), ByteOf(val, 1), ByteOf(val, 0);
            if ea >= |m.sram| then Stored(m, Half, address, val, bypass) == m
            else
              && ea + 2 <= |m.sram|
              && var p := Placed(m, ea, [b0, b1], bypass);
                 Stored(m, Half, address, val, bypass)
                 == p.(dc := p.dc.(lines := Written(Written(p.dc.lines, ea, b0), ea + 1, b1)))
  {
    var ea, b0, b1 := Aligned(address, Half), ByteOf(val, 1), ByteOf(val, 0);
    if ea < |m.sram| {
      AlignedFits(m, address, Half);
      hide Placed, Written, AllWritten, ByteOf, Aligned;
      TwoWritten(Placed(m, ea, [b0, b1], bypass).dc.lines, ea, b0, b1);
    }
  }

  lemma WordStore(m: MemState, address: u32, val: u32, bypass: bool)
    requires Sound(m)
    ensures var ea := Aligned(address, Word);
            var b0, b1, b2, b3 := ByteOf(val, 3), ByteOf(val, 2), ByteOf(val, 1), ByteOf(val, 0);
            if ea >= |m.sram| then Stored(m, Word, address, val, bypass) == m
            else
              && ea + 4 <= |m.sram|
              && var p := Placed(m, ea, [b0, b1, b2, b3], bypass);
                 Stored(m, Word, address, val, bypass)
                 == p.(dc := p.dc.(lines :=
                      Written(Written(Written(Written(p.dc.lines, ea, b0), ea + 1, b1), ea + 2, b2), ea + 2 + 1, b3)))
  {
    var ea := Aligned(address, Word);
    var b0, b1, b2, b3 := ByteOf(val, 3), ByteOf(val, 2), ByteOf(val, 1), ByteOf(val, 0);
    if ea < |m.sram| {
      AlignedFits(m, address, Word);
      hide Placed, Written, AllWritten, ByteOf, Aligned;
      FourWritten(Placed(m, ea, [b0, b1, b2, b3], bypass).dc.lines, ea, b0, b1, b2, b3);
    }
  }

  lemma OneWritten(lines: Sets, addr: nat, b0: byte)
    ensures AllWritten(lines, addr, [b0]) == Written(lines, addr, b0)
  {
  }

  lemma TwoWritten(lines: Sets, addr: nat, b0: byte, b1: byte)
    ensures AllWritten(lines, addr, [b0, b1]) == Written(Written(lines, addr, b0), addr + 1, b1)
  {
    assert [b0, b1][..1] == [b0];
    OneWritten(lines, addr, b0);
  }

  lemma FourWritten(lines: Sets, addr: nat, b0: byte, b1: byte, b2: byte, b3: byte)
    ensures AllWritten(lines, addr, [b0, b1, b2, b3])
            == Written(Written(Written(Written(lines, addr, b0), addr + 1, b1), addr + 2, b2), addr + 3, b3)
  {
    assert [b0, b1, b2, b3][..3] == [b0, b1, b2] && [b0, b1, b2][..2] == [b0, b1];
    TwoWritten(lines, addr, b0, b1);
  }

  lemma SameLine(addr: nat, k: nat)
    requires addr % 32 + k < 32
    ensures SetOf(addr + k) == SetOf(addr) && TagOf(addr + k) == TagOf(addr)
    ensures OffsetOf(addr + k) == OffsetOf(addr) + k
  {
    assert (addr + k) / 32 == addr / 32;
  }
}
