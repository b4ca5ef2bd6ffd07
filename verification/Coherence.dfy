/** What the CPU sees through the data cache, and what every memory operation does to it. */
module Coherence {
  import opened Words
  import opened DataCache
  import opened MemorySystem
  import IC = InstructionCache

  /** The byte the CPU sees: the cached one if the line is resident, else SRAM's. */
  function View(m: MemState, a: nat): byte
    requires a < |m.sram|
  {
    if Peek(m.dc.lines, a).Some? then Peek(m.dc.lines, a).value else m.sram[a]
  }

  predicate NoAlias(lines: Sets) {
    forall i: nat :: i < 64 ==>
      !(lines[i][0].valid && lines[i][1].valid && lines[i][0].tag == lines[i][1].tag)
  }

  /** Every clean line agrees with SRAM. */
  predicate CleanMatches(m: MemState) {
    forall a: nat :: a < |m.sram| && LineFor(m.dc.lines, a).Some? && !LineFor(m.dc.lines, a).value.dirty
      ==> LineFor(m.dc.lines, a).value.data[OffsetOf(a)] == m.sram[a]
  }

  /** Structure alone: counters in range, tags in SRAM, no line held twice. */
  predicate WellFormed(m: MemState) { Sound(m) && NoAlias(m.dc.lines) }

  predicate Coherent(m: MemState) { WellFormed(m) && CleanMatches(m) }

  // ----- Lines and addresses -----

  lemma LineNumber(x: nat, y: nat)
    ensures x / 32 == y / 32 <==> SetOf(x) == SetOf(y) && TagOf(x) == TagOf(y)
  {
    var p, q := x / 32, y / 32;
    assert p == 64 * (p / 64) + p % 64 && q == 64 * (q / 64) + q % 64;
  }

  lemma BaseAddrParts(tag: nat, index: nat)
    requires index < 64
    ensures var a := BaseAddr(tag, index);
            SetOf(a) == index && TagOf(a) == tag && OffsetOf(a) == 0 && a % 32 == 0 && a / 32 == tag * 64 + index
  {
    var n := tag * 64 + index;
    assert n / 64 == tag && n % 64 == index;
    assert n * 32 / 32 == n;
  }

  lemma BaseAddrOf(a: nat)
    ensures BaseAddr(TagOf(a), SetOf(a)) == LineBase(a)
    ensures LineBase(a) / 32 == a / 32
  {
    var p := a / 32;
    assert p == 64 * (p / 64) + p % 64 && a == 32 * p + a % 32;
    assert (32 * p) / 32 == p;
  }

  lemma WrittenBackAt(sram: Sram, e: EvictedLine, x: nat)
    requires x < |sram| && e.addr % 32 == 0 && e.addr + 32 <= |sram|
    ensures WrittenBack(sram, e)[x] == if x / 32 == e.addr / 32 then e.data[OffsetOf(x)] else sram[x]
  {
    var q := e.addr / 32;
    assert e.addr == 32 * q && x == 32 * (x / 32) + x % 32;
  }

  // ----- What each change of the line array does to one line -----

  /** A byte write changes its own line only, and dirties it. */
  lemma WrittenLine(lines: Sets, a: nat, v: byte, x: nat)
    ensures LineFor(Written(lines, a, v), x) ==
              if LineFor(lines, a).Some? && x / 32 == a / 32 then
                var l := LineFor(lines, a).value;
                Some(l.(data := l.data[OffsetOf(a) := v], dirty := true))
              else LineFor(lines, x)
  {
    LineNumber(x, a);
  }

  lemma WrittenKeepsShape(size: nat, lines: Sets, a: nat, v: byte)
    ensures NoAlias(lines) ==> NoAlias(Written(lines, a, v))
    ensures TagsInSram(size, lines) ==> TagsInSram(size, Written(lines, a, v))
  {
  }

  lemma DroppedLine(lines: Sets, a: nat, x: nat)
    requires NoAlias(lines)
    ensures LineFor(Dropped(lines, a), x) == if x / 32 == a / 32 then None else LineFor(lines, x)
  {
    LineNumber(x, a);
  }

  lemma DroppedKeepsShape(size: nat, lines: Sets, a: nat)
    ensures NoAlias(lines) ==> NoAlias(Dropped(lines, a))
    ensures TagsInSram(size, lines) ==> TagsInSram(size, Dropped(lines, a))
  {
  }

  /** The line a fill displaces. */
  function VictimLine(s: DCacheState, a: nat): CacheLine
    requires s.nextWay[SetOf(a)] < 2
  {
    s.lines[SetOf(a)][Victim(s.lines[SetOf(a)], s.nextWay[SetOf(a)])]
  }

  function VictimBase(s: DCacheState, a: nat): nat
    requires s.nextWay[SetOf(a)] < 2
  {
    BaseAddr(VictimLine(s, a).tag, SetOf(a))
  }

  /** A fill brings its line in clean and displaces exactly the victim. */
  lemma FilledLine(s: DCacheState, a: nat, data: LineData, x: nat)
    requires RoundRobin(s) && NoAlias(s.lines) && LineFor(s.lines, a).None?
    ensures LineFor(Filled(s, a, data).0.lines, x) ==
              if x / 32 == a / 32 then Some(CacheLine(true, false, TagOf(a), data))
              else if VictimLine(s, a).valid && x / 32 == VictimBase(s, a) / 32 then None
              else LineFor(s.lines, x)
    ensures VictimLine(s, a).valid && x / 32 == VictimBase(s, a) / 32
            ==> LineFor(s.lines, x) == Some(VictimLine(s, a))
    ensures Filled(s, a, data).1
            == if VictimLine(s, a).valid && VictimLine(s, a).dirty
               then Some(EvictedLine(VictimBase(s, a), VictimLine(s, a).data)) else None
  {
    LineNumber(x, a);
    BaseAddrParts(VictimLine(s, a).tag, SetOf(a));
    LineNumber(x, VictimBase(s, a));
  }

  lemma FilledKeepsShape(size: nat, s: DCacheState, a: nat, data: LineData)
    requires RoundRobin(s) && NoAlias(s.lines) && LineBase(a) + 32 <= size && TagsInSram(size, s.lines)
    ensures var s' := Filled(s, a, data).0;
            RoundRobin(s') && NoAlias(s'.lines) && TagsInSram(size, s'.lines)
  {
    BaseAddrOf(a);
  }

  // ----- Allocation -----

  lemma LineInside(sram: Sram, a: nat)
    requires a < |sram|
    ensures LineBase(a) + 32 <= |sram|
  {
    var q, k := a / 32, |sram| / 32;
    assert a == 32 * q + a % 32 && |sram| == 32 * k && q < k;
  }

  lemma VictimInside(m: MemState, a: nat)
    requires Sound(m) && VictimLine(m.dc, a).valid
    ensures VictimBase(m.dc, a) + 32 <= |m.sram|
  {
  }

  /** One address before and after its neighbour's line is allocated. */
  lemma EnsuredAt(m: MemState, a: nat, x: nat)
    requires Coherent(m) && a < |m.sram| && x < |m.sram|
    ensures View(Ensured(m, a), x) == View(m, x)
    ensures var l := LineFor(Ensured(m, a).dc.lines, x);
            l.Some? && !l.value.dirty ==> l.value.data[OffsetOf(x)] == Ensured(m, a).sram[x]
  {
    if LineFor(m.dc.lines, a).None? {
      var data := BackingLine(m.sram, a);
      FilledLine(m.dc, a, data, x);
      LineInside(m.sram, a);
      BaseAddrOf(a);
      if x / 32 == a / 32 {
        LineNumber(x, a);
        assert x == LineBase(a) + OffsetOf(x);
        assert data[OffsetOf(x)] == m.sram[x];
      }
      hide Filled, LineFor, BackingLine;
      var e := Filled(m.dc, a, data).1;
      if VictimLine(m.dc, a).valid {
        VictimInside(m, a);
        BaseAddrParts(VictimLine(m.dc, a).tag, SetOf(a));
        if e.Some? {
          WrittenBackAt(m.sram, e.value, x);
        }
        hide WrittenBack;
        VictimElsewhere(m.dc, a);
      }
    }
  }

  /** A victim never is the line being allocated. */
  lemma VictimElsewhere(s: DCacheState, a: nat)
    requires RoundRobin(s) && LineFor(s.lines, a).None? && VictimLine(s, a).valid
    ensures VictimBase(s, a) / 32 != a / 32
  {
    BaseAddrParts(VictimLine(s, a).tag, SetOf(a));
    LineNumber(a, VictimBase(s, a));
  }

  lemma EnsuredIsCoherent(m: MemState, a: nat)
    requires Coherent(m) && a < |m.sram|
    ensures Coherent(Ensured(m, a)) && |Ensured(m, a).sram| == |m.sram|
    ensures forall x: nat :: x < |m.sram| ==> View(Ensured(m, a), x) == View(m, x)
  {
    LineInside(m.sram, a);
    FilledKeepsShape(|m.sram|, m.dc, a, BackingLine(m.sram, a));
    forall x: nat | x < |m.sram|
      ensures View(Ensured(m, a), x) == View(m, x)
      ensures var l := LineFor(Ensured(m, a).dc.lines, x);
              l.Some? && !l.value.dirty ==> l.value.data[OffsetOf(x)] == Ensured(m, a).sram[x]
    {
      EnsuredAt(m, a, x);
    }
    hide View, Filled, LineFor;
  }
}
