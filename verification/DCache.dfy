/** The write-back data cache: 64 sets of two 32-byte lines, round-robin replacement. */
module DataCache {
  import opened Words

  const DC_CTRL_RW_MASK: bv32 := 0xE7
  const DC_CTRL_RESET: bv32 := 0xC2

  type LineData = d: seq<byte> | |d| == 32 witness Repeat(0, 32)

  datatype CacheLine = CacheLine(valid: bool, dirty: bool, tag: nat, data: LineData)
  datatype EvictedLine = EvictedLine(addr: nat, data: LineData)

  const EMPTY_LINE := CacheLine(false, false, 0, Repeat(0, 32))

  type Ways = w: seq<CacheLine> | |w| == 2 witness Repeat(EMPTY_LINE, 2)
  type Sets = s: seq<Ways> | |s| == 64 witness Repeat(Repeat(EMPTY_LINE, 2), 64)
  type Counters = c: seq<nat> | |c| == 64 witness Repeat(0, 64)

  const EMPTY_WAYS: Ways := Repeat(EMPTY_LINE, 2)
  const EMPTY_SETS: Sets := Repeat(EMPTY_WAYS, 64)

  // An address splits into tag, set index and byte offset.
  function SetOf(addr: nat): nat { (addr / 32) % 64 }
  function TagOf(addr: nat): nat { (addr / 32) / 64 }
  function OffsetOf(addr: nat): nat { addr % 32 }
  function BaseAddr(tag: nat, index: nat): nat { (tag * 64 + index) * 32 }

  /** What the cache holds: the lines, the replacement counters and the decoded DC_CTRL. */
  datatype DCacheState = DCacheState(lines: Sets, nextWay: Counters, enabled: bool, im: bool, lm: bool, ctrlRaw: bv32)

  // ----- Lookup -----

  function FindWay(ways: Ways, tag: nat): (way: Option<nat>)
    ensures way.Some? ==> way.value < 2 && ways[way.value].valid && ways[way.value].tag == tag
    ensures way.None? ==> forall w: nat :: w < 2 ==> !(ways[w].valid && ways[w].tag == tag)
  {
    if ways[0].valid && ways[0].tag == tag then Some(0)
    else if ways[1].valid && ways[1].tag == tag then Some(1)
    else None
  }

  /** The line cached for a tag in a set. */
  function LineAt(lines: Sets, index: nat, tag: nat): Option<CacheLine>
    requires index < 64
  {
    var way := FindWay(lines[index], tag);
    if way.Some? then Some(lines[index][way.value]) else None
  }

  function LineFor(lines: Sets, addr: nat): Option<CacheLine> {
    LineAt(lines, SetOf(addr), TagOf(addr))
  }

  function Peek(lines: Sets, addr: nat): Option<byte> {
    var line := LineFor(lines, addr);
    if line.Some? then Some(line.value.data[OffsetOf(addr)]) else None
  }

  // ----- Changing one line -----

  function WithLine(lines: Sets, index: nat, way: nat, line: CacheLine): Sets
    requires index < 64 && way < 2
  {
    lines[index := lines[index][way := line]]
  }

  function Written(lines: Sets, addr: nat, val: byte): Sets {
    var way := FindWay(lines[SetOf(addr)], TagOf(addr));
    if way.None? then lines
    else
      var line := lines[SetOf(addr)][way.value];
      WithLine(lines, SetOf(addr), way.value, line.(data := line.data[OffsetOf(addr) := val], dirty := true))
  }

  function Victim(ways: Ways, next: nat): nat {
    if !ways[0].valid then 0 else if !ways[1].valid then 1 else next
  }

  function Evicted(line: CacheLine, index: nat): Option<EvictedLine> {
    if line.valid && line.dirty then Some(EvictedLine(BaseAddr(line.tag, index), line.data)) else None
  }

  function Filled(s: DCacheState, addr: nat, data: LineData): (DCacheState, Option<EvictedLine>)
    requires s.nextWay[SetOf(addr)] < 2
  {
    var index := SetOf(addr);
    if LineFor(s.lines, addr).Some? then (s, None)
    else
      var ways := s.lines[index];
      var way := Victim(ways, s.nextWay[index]);
      var nextWay :=
        if ways[0].valid && ways[1].valid then s.nextWay[index := (way + 1) % 2] else s.nextWay;
      (s.(lines := WithLine(s.lines, index, way, CacheLine(true, false, TagOf(addr), data)), nextWay := nextWay),
       Evicted(ways[way], index))
  }

  function Dropped(lines: Sets, addr: nat): Sets {
    var way := FindWay(lines[SetOf(addr)], TagOf(addr));
    if way.None? then lines else WithLine(lines, SetOf(addr), way.value, EMPTY_LINE)
  }

  function DirtyFor(lines: Sets, addr: nat): bool {
    var line := LineFor(lines, addr);
    line.Some? && line.value.dirty
  }

  /** The single-line invalidate and what it hands back for write-back. */
  function Invalidated(s: DCacheState, addr: nat): (DCacheState, Option<EvictedLine>) {
    (s.(lines := Dropped(s.lines, addr)),
     if DirtyFor(s.lines, addr) && s.im then Some(EvictedLine(BaseAddr(TagOf(addr), SetOf(addr)), LineFor(s.lines, addr).value.data))
     else None)
  }

  /** DMA coherence for one line: a dirty line stays, a clean one goes. */
  function DmaOverwritten(lines: Sets, addr: nat): Sets {
    if DirtyFor(lines, addr) then lines else Dropped(lines, addr)
  }

  // ----- The whole-cache invalidate -----

  function Listed(e: Option<EvictedLine>): seq<EvictedLine> {
    if e.Some? then [e.value] else []
  }

  function DirtyOfSet(ways: Ways, index: nat): seq<EvictedLine> {
    Listed(Evicted(ways[0], index)) + Listed(Evicted(ways[1], index))
  }

  /** Dirty lines of the first `n` sets, in scan order. */
  function DirtyLines(lines: Sets, n: nat): seq<EvictedLine>
    requires n <= 64
  {
    if n == 0 then [] else DirtyLines(lines, n - 1) + DirtyOfSet(lines[n - 1], n - 1)
  }

  function InvalidatedAll(s: DCacheState): (DCacheState, seq<EvictedLine>) {
    (s.(lines := EMPTY_SETS, nextWay := Repeat(0, 64)), if s.im then DirtyLines(s.lines, 64) else [])
  }

  function Controlled(s: DCacheState, val: bv32): DCacheState {
    var raw := val & DC_CTRL_RW_MASK;
    s.(ctrlRaw := raw, enabled := raw & 0x1 == 0, im := raw & 0x40 != 0, lm := raw & 0x80 != 0)
  }

  class DCache {
    const lines: array<Ways>
    const nextWay: array<nat>
    var enabled: bool
    var im: bool
    var lm: bool
    var ctrlRaw: bv32

    ghost predicate Valid() reads this {
      lines.Length == 64 && nextWay.Length == 64
    }

    ghost function State(): DCacheState
      reads this, lines, nextWay
      requires Valid()
    {
      DCacheState(lines[..], nextWay[..], enabled, im, lm, ctrlRaw)
    }

    constructor ()
      ensures Valid() && fresh(lines) && fresh(nextWay)
      ensures State() == DCacheState(EMPTY_SETS, Repeat(0, 64), true, true, true, DC_CTRL_RESET)
    {
      lines := new Ways[64](_ => EMPTY_WAYS);
      nextWay := new nat[64](_ => 0);
      enabled, im, lm, ctrlRaw := true, true, true, DC_CTRL_RESET;
    }

    method Contains(addr: nat) returns (hit: bool)
      requires Valid()
      ensures hit == LineFor(State().lines, addr).Some?
    {
      hit := FindWay(lines[SetOf(addr)], TagOf(addr)).Some?;
    }

    method ReadByte(addr: nat) returns (val: Option<byte>)
      requires Valid()
      ensures val == Peek(State().lines, addr)
    {
      var way := FindWay(lines[SetOf(addr)], TagOf(addr));
      val := if way.Some? then Some(lines[SetOf(addr)][way.value].data[OffsetOf(addr)]) else None;
    }

    method WriteByte(addr: nat, val: byte) returns (hit: bool)
      requires Valid()
      modifies lines
      ensures State() == old(State()).(lines := Written(old(State()).lines, addr, val))
      ensures hit == LineFor(old(State()).lines, addr).Some?
    {
      var index := SetOf(addr);
      var way := FindWay(lines[index], TagOf(addr));
      hit := way.Some?;
      if hit {
        var line := lines[index][way.value];
        lines[index] := lines[index][way.value := line.(data := line.data[OffsetOf(addr) := val], dirty := true)];
      }
    }

    method RrVictim(index: nat) returns (way: nat)
      requires Valid() && index < 64 && nextWay[index] < 2
      modifies nextWay
      ensures way == Victim(lines[index], old(nextWay[index])) < 2
      ensures nextWay[..] == if lines[index][0].valid && lines[index][1].valid
                             then old(nextWay[..])[index := (way + 1) % 2] else old(nextWay[..])
    {
      for w := 0 to 2
        invariant forall k: nat :: k < w ==> lines[index][k].valid
      {
        if !lines[index][w].valid {
          return w;
        }
      }
      way := nextWay[index];
      nextWay[index] := (way + 1) % 2;
    }

    method FillLine(addr: nat, data: LineData) returns (evicted: Option<EvictedLine>)
      requires Valid() && nextWay[SetOf(addr)] < 2 && lines as object != nextWay
      modifies lines, nextWay
      ensures (State(), evicted) == Filled(old(State()), addr, data)
    {
      var index := SetOf(addr);
      if FindWay(lines[index], TagOf(addr)).Some? {
        return None;
      }
      var way := RrVictim(index);
      evicted := Evicted(lines[index][way], index);
      lines[index] := lines[index][way := CacheLine(true, false, TagOf(addr), data)];
    }

    method InvalidateLine(addr: nat) returns (evicted: Option<EvictedLine>)
      requires Valid()
      modifies lines
      ensures (State(), evicted) == Invalidated(old(State()), addr)
    {
      var index := SetOf(addr);
      var way := FindWay(lines[index], TagOf(addr));
      evicted := None;
      if way.Some? {
        var line := lines[index][way.value];
        if line.dirty && im {
          evicted := Some(EvictedLine(BaseAddr(line.tag, index), line.data));
        }
        lines[index] := lines[index][way.value := EMPTY_LINE];
      }
    }

    method DmaSramOverwrite(addr: nat) returns (preserved: bool)
      requires Valid()
      modifies lines
      ensures State() == old(State()).(lines := DmaOverwritten(old(State()).lines, addr))
      ensures preserved == DirtyFor(old(State()).lines, addr)
    {
      var index := SetOf(addr);
      var way := FindWay(lines[index], TagOf(addr));
      if way.Some? {
        if lines[index][way.value].dirty {
          return true;
        }
        lines[index] := lines[index][way.value := EMPTY_LINE];
      }
      preserved := false;
    }

    /** One set's share of the whole-cache invalidate, its dirty lines appended to `evicted`. */
    method InvalidateSet(index: nat, evicted: seq<EvictedLine>) returns (evicted': seq<EvictedLine>)
      requires Valid() && index < 64
      modifies lines
      ensures lines[..] == old(lines[..])[index := EMPTY_WAYS]
      ensures evicted' == if im then evicted + DirtyOfSet(old(lines[index]), index) else evicted
    {
      evicted' := evicted;
      for way := 0 to 2
        invariant evicted' == evicted
                  + (if im && way >= 1 then Listed(Evicted(old(lines[index])[0], index)) else [])
                  + (if im && way == 2 then Listed(Evicted(old(lines[index])[1], index)) else [])
        invariant forall k :: 0 <= k < 64 && k != index ==> lines[k] == old(lines[k])
        invariant forall w: nat :: w < 2 ==> lines[index][w] == if w < way then EMPTY_LINE else old(lines[index][w])
      {
        var e := Evicted(lines[index][way], index);
        if e.Some? && im {
          evicted' := evicted' + [e.value];
        }
        lines[index] := lines[index][way := EMPTY_LINE];
      }
      assert lines[index] == EMPTY_WAYS;
    }

    method InvalidateAll() returns (evicted: seq<EvictedLine>)
      requires Valid() && lines as object != nextWay
      modifies lines, nextWay
      ensures (State(), evicted) == InvalidatedAll(old(State()))
    {
      evicted := [];
      for index := 0 to 64
        invariant evicted == if im then DirtyLines(old(lines[..]), index) else []
        invariant forall k :: 0 <= k < index ==> lines[k] == EMPTY_WAYS && nextWay[k] == 0
        invariant forall k :: index <= k < 64 ==> lines[k] == old(lines[k])
      {
        evicted := InvalidateSet(index, evicted);
        nextWay[index] := 0;
      }
      assert lines[..] == EMPTY_SETS && nextWay[..] == Repeat(0, 64);
      assert evicted == InvalidatedAll(old(State())).1;
      assert State() == InvalidatedAll(old(State())).0;
    }

    method WriteDcCtrl(val: bv32)
      requires Valid()
      modifies this
      ensures State() == Controlled(old(State()), val)
    {
      ctrlRaw := val & DC_CTRL_RW_MASK;
      enabled := ctrlRaw & 0x1 == 0;
      im := ctrlRaw & 0x40 != 0;
      lm := ctrlRaw & 0x80 != 0;
    }
  }
}
