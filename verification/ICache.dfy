/** The 4 KB direct-mapped instruction cache: 128 sets of one 32-byte line. */
module InstructionCache {
  import opened Words

  const LINE_SIZE := 32

  type LineData = d: seq<byte> | |d| == 32 witness Repeat(0, 32)

  datatype ICacheLine = ICacheLine(valid: bool, tag: nat, data: LineData)

  const EMPTY_LINE := ICacheLine(false, 0, Repeat(0, 32))

  /** The value an `ICache` object holds: one line for each set. */
  type Lines = l: seq<ICacheLine> | |l| == 128 witness Repeat(EMPTY_LINE, 128)

  // An address splits into tag, set index and byte offset.
  function SetOf(addr: u32): nat { (addr / 32) % 128 }
  function TagOf(addr: u32): nat { (addr / 32) / 128 }
  function OffsetOf(addr: u32): nat { addr % 32 }
  function LineOf(addr: u32): u32 { addr - addr % 32 }

  predicate Holds(l: Lines, addr: u32) {
    l[SetOf(addr)].valid && l[SetOf(addr)].tag == TagOf(addr)
  }

  function Filled(l: Lines, addr: u32, data: LineData): (r: Lines) {
    l[SetOf(addr) := ICacheLine(true, TagOf(addr), data)]
  }

  const ALL_EMPTY: Lines := Repeat(EMPTY_LINE, 128)

  /** A fill makes exactly the filled line resident and evicts exactly what shared its set. */
  lemma FillEffect(l: Lines, addr: u32, data: LineData, a: u32)
    ensures Holds(Filled(l, addr, data), a)
            <==> (a / 32 == addr / 32 || (SetOf(a) != SetOf(addr) && Holds(l, a)))
  {
    var x, y := a / 32, addr / 32;
    assert x == 128 * (x / 128) + x % 128 && y == 128 * (y / 128) + y % 128;
  }

  class ICache {
    const lines: array<ICacheLine>
    var enabled: bool

    ghost predicate Valid() reads this {
      lines.Length == 128
    }

    ghost function Contents(): Lines
      reads this, lines
      requires Valid()
    {
      lines[..]
    }

    constructor ()
      ensures Valid() && fresh(lines) && enabled && Contents() == ALL_EMPTY
    {
      lines := new ICacheLine[128](_ => EMPTY_LINE);
      enabled := true;
    }

    predicate Contains(addr: u32)
      reads this, lines
      requires Valid()
      ensures Contains(addr) == Holds(Contents(), addr)
    {
      var line := lines[SetOf(addr)];
      line.valid && line.tag == TagOf(addr)
    }

    /** Direct-mapped: any occupant of the set is replaced. */
    method FillLine(addr: u32, data: LineData)
      requires Valid()
      modifies lines
      ensures Contents() == Filled(old(Contents()), addr, data)
    {
      lines[SetOf(addr)] := ICacheLine(true, TagOf(addr), data);
    }

    /** IC_IVIC. */
    method InvalidateAll()
      requires Valid()
      modifies lines
      ensures Contents() == ALL_EMPTY
    {
      var idx := 0;
      while idx < 128
        invariant 0 <= idx <= 128
        invariant forall k :: 0 <= k < idx ==> lines[k] == EMPTY_LINE
      {
        lines[idx] := EMPTY_LINE;
        idx := idx + 1;
      }
    }

    /** IC_IVIL does nothing on this core: the cached line survives it. */
    method InvalidateLine(addr: u32)
      requires Valid()
      ensures Contents() == old(Contents())
    {
    }
  }
}
