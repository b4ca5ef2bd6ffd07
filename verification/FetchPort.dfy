/** Instruction fetch beside the data cache. */
module FetchPort {
  import opened Words
  import opened DataCache
  import opened MemorySystem
  import opened Coherence
  import opened Refinement
  import opened MemoryRuns
  import IC = InstructionCache

  lemma SameInstructionLine(a: u32, b: u32)
    requires a / 32 == b / 32
    ensures IC.SetOf(a) == IC.SetOf(b) && IC.TagOf(a) == IC.TagOf(b)
  {
  }

  /** A word is its two half-words, whatever the I-cache holds, enabled or not, inside a line or straddling
      two; and fetching it leaves the I-cache as fetching the two halves does. */
  lemma WordIsTwoHalves(sram: Sram, ic: IC.Lines, on: bool, a: u32)
    requires a % 2 == 0 && a + 3 < |sram|
    ensures var (ic1, hi) := HalfFetched(sram, ic, on, a);
            var (ic2, lo) := HalfFetched(sram, ic1, on, a + 2);
            && hi.Ok? && lo.Ok?
            && WordFetched(sram, ic, on, a) == (ic2, Ok(hi.val * 0x1_0000 + lo.val))
  {
    hide HalfFetched, WordFetched, InstructionFilled, HalfOf, WordOf, PeekHalf, PeekWord;
    HalfFetchedInRange(sram, ic, on, a);
    HalfFetchedInRange(sram, HalfFetched(sram, ic, on, a).0, on, a + 2);
    if !on {
      WordFetchedOff(sram, ic, a);
      SramWord(sram, a);
    } else if IC.OffsetOf(a) + 4 <= 32 {
      FetchMakesResident(sram, ic, a);
      WordInLine(InstructionFilled(sram, ic, a), a);
      FetchMakesResident(sram, InstructionFilled(sram, ic, a), a + 2);
      WordFetchedInLine(sram, ic, a);
    } else {
      WordFetchedStraddling(sram, ic, a);
    }
  }

  lemma HalfFetchedInRange(sram: Sram, ic: IC.Lines, on: bool, a: u32)
    requires a % 2 == 0 && a + 1 < |sram|
    ensures var ic' := if on then InstructionFilled(sram, ic, a) else ic;
            && (on ==> PeekHalf(ic', a).Some?)
            && HalfFetched(sram, ic, on, a)
               == (ic', Ok(if on then PeekHalf(ic', a).value else HalfOf(sram[a], sram[a + 1])))
  {
    hide InstructionFilled, HalfOf, IC.Holds;
    if on {
      FetchMakesResident(sram, ic, a);
      ResidentHalf(InstructionFilled(sram, ic, a), a);
    }
    hide PeekHalf;
  }

  lemma WordFetchedOff(sram: Sram, ic: IC.Lines, a: u32)
    requires a % 2 == 0 && a + 3 < |sram|
    ensures WordFetched(sram, ic, false, a) == (ic, Ok(WordOf(sram[a], sram[a + 1], sram[a + 2], sram[a + 3])))
  {
    hide WordOf;
  }

  lemma WordFetchedInLine(sram: Sram, ic: IC.Lines, a: u32)
    requires a % 2 == 0 && a + 3 < |sram| && IC.OffsetOf(a) + 4 <= 32
    requires PeekWord(InstructionFilled(sram, ic, a), a).Some?
    ensures var ic' := InstructionFilled(sram, ic, a);
            WordFetched(sram, ic, true, a) == (ic', Ok(PeekWord(ic', a).value))
  {
    hide InstructionFilled, PeekWord, WordOf;
  }

  lemma WordFetchedStraddling(sram: Sram, ic: IC.Lines, a: u32)
    requires a % 2 == 0 && a + 3 < |sram| && IC.OffsetOf(a) + 4 > 32
    requires HalfFetched(sram, ic, true, a).1.Ok?
    requires HalfFetched(sram, HalfFetched(sram, ic, true, a).0, true, a + 2).1.Ok?
    ensures var (ic1, hi) := HalfFetched(sram, ic, true, a);
            var (ic2, lo) := HalfFetched(sram, ic1, true, a + 2);
            WordFetched(sram, ic, true, a) == (ic2, Ok(hi.val * 0x1_0000 + lo.val))
  {
    hide HalfFetched, PeekWord, WordOf;
    assert Wrap(a + 2) == a + 2;
  }

  lemma SramWord(sram: Sram, a: nat)
    requires a + 3 < |sram|
    ensures WordOf(sram[a], sram[a + 1], sram[a + 2], sram[a + 3])
            == HalfOf(sram[a], sram[a + 1]) * 0x1_0000 + HalfOf(sram[a + 2], sram[a + 3])
  {
  }

  lemma ResidentHalf(ic: IC.Lines, a: u32)
    requires IC.Holds(ic, a) && a % 2 == 0
    ensures PeekHalf(ic, a).Some?
  {
  }

  lemma WordInLine(ic: IC.Lines, a: u32)
    requires IC.Holds(ic, a) && a % 2 == 0 && IC.OffsetOf(a) + 4 <= 32 && a + 2 < 0x1_0000_0000
    ensures IC.Holds(ic, a + 2) && PeekHalf(ic, a).Some? && PeekHalf(ic, a + 2).Some?
    ensures PeekWord(ic, a) == Some(PeekHalf(ic, a).value * 0x1_0000 + PeekHalf(ic, a + 2).value)
  {
    assert (a + 2) / 32 == a / 32 && IC.OffsetOf(a + 2) == IC.OffsetOf(a) + 2;
    SameInstructionLine(a, a + 2);
  }

  lemma FetchMakesResident(sram: Sram, ic: IC.Lines, a: u32)
    requires a < |sram|
    ensures IC.Holds(InstructionFilled(sram, ic, a), a)
    ensures IC.Holds(ic, a) ==> InstructionFilled(sram, ic, a) == ic
  {
  }

  /** Every resident instruction line agrees with SRAM. */
  predicate FetchesSram(sram: Sram, ic: IC.Lines) {
    forall a: u32 :: a < |sram| && IC.Holds(ic, a) ==> ic[IC.SetOf(a)].data[IC.OffsetOf(a)] == sram[a]
  }

  lemma FillKeepsFetchesSram(sram: Sram, ic: IC.Lines, a: u32)
    requires FetchesSram(sram, ic)
    ensures FetchesSram(sram, InstructionFilled(sram, ic, a))
  {
    if !IC.Holds(ic, a) && LineBase(a) < |sram| {
      var data := sram[LineBase(a)..LineBase(a) + 32];
      var ic' := IC.Filled(ic, a, data);
      forall x: u32 | x < |sram| && IC.Holds(ic', x)
        ensures ic'[IC.SetOf(x)].data[IC.OffsetOf(x)] == sram[x]
      {
        IC.FillEffect(ic, a, data, x);
        if x / 32 == a / 32 {
          assert x == LineBase(a) + IC.OffsetOf(x);
        }
      }
    }
  }

  /** After IC_IVIC every fetch returns the SRAM bytes, and keeps doing so while SRAM does not change;
      dirty D-cache lines play no part. */
  lemma FetchReturnsSram(sram: Sram, ic: IC.Lines, on: bool, a: u32)
    requires FetchesSram(sram, ic) && a % 2 == 0
    ensures FetchesSram(sram, IC.ALL_EMPTY)
    ensures a + 1 < |sram| ==> HalfFetched(sram, ic, on, a).1 == Ok(ValueOf(sram[a..a + 2]))
    ensures FetchesSram(sram, HalfFetched(sram, ic, on, a).0)
    ensures a + 3 < |sram| ==> WordFetched(sram, ic, on, a).1 == Ok(ValueOf(sram[a..a + 4]))
    ensures FetchesSram(sram, WordFetched(sram, ic, on, a).0)
  {
    hide HalfFetched, WordFetched, FetchesSram, HalfOf, WordOf;
    NothingResident(sram);
    if a + 1 < |sram| {
      HalfIsSram(sram, ic, on, a);
    }
    if a + 3 < |sram| {
      HalfIsSram(sram, HalfFetched(sram, ic, on, a).0, on, a + 2);
      WordIsTwoHalves(sram, ic, on, a);
      SramWord(sram, a);
    }
    FetchesKeepSram(sram, ic, on, a);
  }

  lemma NothingResident(sram: Sram)
    ensures FetchesSram(sram, IC.ALL_EMPTY)
  {
  }

  lemma FetchesKeepSram(sram: Sram, ic: IC.Lines, on: bool, a: u32)
    requires FetchesSram(sram, ic)
    ensures FetchesSram(sram, HalfFetched(sram, ic, on, a).0)
    ensures FetchesSram(sram, WordFetched(sram, ic, on, a).0)
  {
    hide FetchesSram, InstructionFilled, PeekHalf, PeekWord, HalfOf, WordOf;
    FillKeepsFetchesSram(sram, ic, a);
    FillKeepsFetchesSram(sram, HalfFetched(sram, ic, on, a).0, Wrap(a + 2));
  }

  lemma HalfIsSram(sram: Sram, ic: IC.Lines, on: bool, a: u32)
    requires FetchesSram(sram, ic) && a % 2 == 0 && a + 1 < |sram|
    ensures HalfFetched(sram, ic, on, a).1 == Ok(HalfOf(sram[a], sram[a + 1]))
    ensures FetchesSram(sram, HalfFetched(sram, ic, on, a).0)
  {
    hide InstructionFilled, IC.Holds, HalfOf, FetchesSram, HalfFetched, PeekHalf;
    FillKeepsFetchesSram(sram, ic, a);
    FetchMakesResident(sram, ic, a);
    HalfFetchedInRange(sram, ic, on, a);
    if on {
      ResidentHalfIsSram(sram, InstructionFilled(sram, ic, a), a);
    }
  }

  lemma ResidentHalfIsSram(sram: Sram, ic: IC.Lines, a: u32)
    requires FetchesSram(sram, ic) && IC.Holds(ic, a) && a % 2 == 0 && a + 1 < |sram|
    ensures PeekHalf(ic, a) == Some(HalfOf(sram[a], sram[a + 1]))
  {
    HalfInLine(a);
    SameInstructionLine(a, a + 1);
    assert IC.Holds(ic, a + 1);
    hide IC.OffsetOf, IC.SetOf, IC.TagOf, HalfOf;
  }

  lemma HalfInLine(a: u32)
    requires a % 2 == 0 && a + 1 < 0x1_0000_0000
    ensures (a + 1) / 32 == a / 32 && IC.OffsetOf(a + 1) == IC.OffsetOf(a) + 1
  {
  }

  /** Instruction lines lie in SRAM, as they do after a flush and every fill. */
  predicate LinesInSram(size: nat, ic: IC.Lines) { forall x: u32 :: IC.Holds(ic, x) ==> x < size }

  lemma FillStaysInSram(sram: Sram, ic: IC.Lines, a: u32)
    requires LinesInSram(|sram|, ic)
    ensures LinesInSram(|sram|, InstructionFilled(sram, ic, a))
    ensures LinesInSram(|sram|, IC.ALL_EMPTY)
  {
    if !IC.Holds(ic, a) && LineBase(a) < |sram| {
      var data := sram[LineBase(a)..LineBase(a) + 32];
      forall x: u32 | IC.Holds(IC.Filled(ic, a, data), x) ensures x < |sram| {
        IC.FillEffect(ic, a, data, x);
        LineEnds(|sram|, a, x);
        hide IC.Holds;
      }
    }
  }

  lemma LineEnds(size: nat, a: u32, x: u32)
    requires size % 32 == 0 && LineBase(a) < size
    ensures x / 32 == a / 32 ==> x < size
  {
    assert a == 32 * (a / 32) + a % 32 && size == 32 * (size / 32);
  }

  /** When a fetch fails, and how: at an odd address as misaligned, and past the end of SRAM as out of range, a word that
      straddles the end included. */
  lemma FetchVerdict(sram: Sram, ic: IC.Lines, on: bool, a: u32)
    requires LinesInSram(|sram|, ic)
    ensures var r := HalfFetched(sram, ic, on, a);
            && LinesInSram(|sram|, r.0)
            && (if a % 2 != 0 then r.1 == Misaligned else if a + 1 >= |sram| then r.1 == OutOfRange else r.1.Ok?)
    ensures var r := WordFetched(sram, ic, on, a);
            && LinesInSram(|sram|, r.0)
            && (if a % 2 != 0 then r.1 == Misaligned else if a + 3 >= |sram| then r.1 == OutOfRange else r.1.Ok?)
  {
    hide LinesInSram, HalfFetched, WordFetched;
    HalfVerdict(sram, ic, on, a);
    WordVerdict(sram, ic, on, a);
  }

  lemma HalfVerdict(sram: Sram, ic: IC.Lines, on: bool, a: u32)
    requires LinesInSram(|sram|, ic)
    ensures var r := HalfFetched(sram, ic, on, a);
            && LinesInSram(|sram|, r.0)
            && (if a % 2 != 0 then r.1 == Misaligned else if a + 1 >= |sram| then r.1 == OutOfRange else r.1.Ok?)
  {
    FillStaysInSram(sram, ic, a);
    hide InstructionFilled, HalfOf, IC.OffsetOf, IC.SetOf;
    var ic' := InstructionFilled(sram, ic, a);
    if IC.Holds(ic', a) {
      assert a < |sram|;
    }
  }

  lemma WordVerdict(sram: Sram, ic: IC.Lines, on: bool, a: u32)
    requires LinesInSram(|sram|, ic)
    ensures var r := WordFetched(sram, ic, on, a);
            && LinesInSram(|sram|, r.0)
            && (if a % 2 != 0 then r.1 == Misaligned else if a + 3 >= |sram| then r.1 == OutOfRange else r.1.Ok?)
  {
    FillStaysInSram(sram, ic, a);
    HalfVerdict(sram, ic, on, a);
    HalfVerdict(sram, HalfFetched(sram, ic, on, a).0, on, Wrap(a + 2));
    hide LinesInSram, InstructionFilled, HalfOf, WordOf, HalfFetched;
    var ic' := InstructionFilled(sram, ic, a);
    if PeekWordHit(ic', a) {
      HeldInSram(sram, ic', a);
      WordInside(|sram|, a);
    } else if on && a % 2 == 0 && IC.OffsetOf(a) + 4 > 32 {
      StraddleEnds(|sram|, a);
    }
  }

  predicate PeekWordHit(ic: IC.Lines, a: u32) { IC.OffsetOf(a) + 4 <= 32 && PeekWord(ic, a).Some? }

  lemma HeldInSram(sram: Sram, ic: IC.Lines, a: u32)
    requires LinesInSram(|sram|, ic) && PeekWordHit(ic, a)
    ensures a < |sram|
  {
  }

  lemma WordInside(size: nat, a: u32)
    requires size % 32 == 0 && a < size && IC.OffsetOf(a) + 4 <= 32
    ensures a + 3 < size
  {
  }

  lemma StraddleEnds(size: nat, a: u32)
    requires size % 32 == 0 && size + 32 <= 0x1_0000_0000 && a % 2 == 0
    ensures a + 1 < size ==> Wrap(a + 2) == a + 2 && (a + 2) % 2 == 0
  {
  }

  /** Addresses fetched one after another. */
  function IcAfter(sram: Sram, ic: IC.Lines, on: bool, addrs: seq<u32>): IC.Lines
    decreases |addrs|
  {
    if addrs == [] then ic else IcAfter(sram, WordFetched(sram, ic, on, addrs[0]).0, on, addrs[1..])
  }

  lemma {:induction false} FetchRunKeepsSram(sram: Sram, ic: IC.Lines, on: bool, addrs: seq<u32>)
    requires FetchesSram(sram, ic)
    ensures FetchesSram(sram, IcAfter(sram, ic, on, addrs))
    decreases |addrs|
  {
    hide FetchesSram, WordFetched;
    if addrs != [] {
      FetchesKeepSram(sram, ic, on, addrs[0]);
      FetchRunKeepsSram(sram, WordFetched(sram, ic, on, addrs[0]).0, on, addrs[1..]);
    }
  }

  /** The code-loading protocol: after any plain run of stores, a write-back DC_IVDC followed by IC_IVIC makes
      every later fetch return exactly what was stored, as the flat array holds it. */
  lemma FlushedCodeIsFetched(m: MemState, flat: Sram, ops: seq<Op>, on: bool, earlier: seq<u32>, a: u32)
    requires Coherent(m) && Refines(m, flat) && PlainRun(m, ops) && After(m, ops).dc.im
    requires a % 2 == 0 && a + 3 < |flat|
    ensures var m' := AllInvalidated(After(m, ops));
            && m'.sram == FlatAfter(flat, ops)
            && WordFetched(m'.sram, IcAfter(m'.sram, IC.ALL_EMPTY, on, earlier), on, a).1
               == Ok(ValueOf(FlatAfter(flat, ops)[a..a + 4]))
  {
    DataPortRefinesFlatMemory(m, flat, ops);
    hide After, FlatAfter, WordFetched, AllInvalidated, View, CleanMatches, NoAlias, TagsInSram;
    InvalidateAllFlushes(After(m, ops));
    var m' := AllInvalidated(After(m, ops));
    assert m'.sram == FlatAfter(flat, ops);
    FetchReturnsSram(m'.sram, IC.ALL_EMPTY, on, a);
    FetchRunKeepsSram(m'.sram, IC.ALL_EMPTY, on, earlier);
    FetchReturnsSram(m'.sram, IcAfter(m'.sram, IC.ALL_EMPTY, on, earlier), on, a);
  }
}
