/** The three run detectors over the MMIO history, proved against quantified descriptions of what they look for. */
module Analysis {
  import opened Words

  datatype Direction = Read | Write

  datatype Access = Access(insn: nat, pc: u32, address: u32, value: u32, direction: Direction)

  datatype Kind = BusyWait | WriteThenPoll | CommandBit

  datatype Pattern = Pattern(kind: Kind, address: u32, count: nat, value: u32, firstPc: u32, lastPc: u32,
                             firstInsn: nat, lastInsn: nat)

  type History = seq<Access>

  predicate Bit31(x: u32) { x >= 0x8000_0000 }

  // ----- What a detector looks for -----

  predicate SameRead(e: Access, e': Access) {
    e.direction.Read? && e'.direction.Read? && e.address == e'.address && e.value == e'.value
  }

  /** Access `k` belongs to the run that access `i` opens. */
  predicate Continues(d: Kind, h: History, i: nat, k: nat)
    requires i < |h| && k < |h|
  {
    h[k].direction.Read? && h[k].address == h[i].address && (d.BusyWait? ==> h[k].value == h[i].value)
  }

  /** Access `k` closes the run: a command-bit poll that reads bit 31 clear. */
  predicate Closes(d: Kind, h: History, k: nat)
    requires k < |h|
  {
    d.CommandBit? && !Bit31(h[k].value)
  }

  /** A busy wait opens at the first of a run of equal reads, the other two at a write. */
  predicate Opens(d: Kind, h: History, i: nat)
    requires i < |h|
  {
    match d
    case BusyWait => h[i].direction.Read? && (i > 0 ==> !SameRead(h[i - 1], h[i]))
    case WriteThenPoll => h[i].direction.Write?
    case CommandBit => h[i].direction.Write? && Bit31(h[i].value)
  }

  /** The run that `i` opens is exactly `h[i..b]`: every access belongs to it, none but the last closes it, and it
      cannot be extended. */
  ghost predicate RunIs(d: Kind, h: History, i: nat, b: nat) {
    && i < b <= |h|
    && (forall k: nat :: i < k < b ==> Continues(d, h, i, k))
    && (forall k: nat :: i < k < b - 1 ==> !Closes(d, h, k))
    && (b == |h| || !Continues(d, h, i, b) || (b > i + 1 && Closes(d, h, b - 1)))
  }

  /** Polls counted: the opening write is not one of them. */
  function Count(d: Kind, i: nat, b: nat): nat
    requires i < b
  {
    if d.BusyWait? then b - i else b - i - 1
  }

  function Threshold(d: Kind): nat {
    match d
    case BusyWait => 5
    case WriteThenPoll => 3
    case CommandBit => 2
  }

  function Entry(d: Kind, h: History, i: nat, b: nat): Pattern
    requires i < b <= |h|
  {
    Pattern(d, h[i].address, Count(d, i, b), h[i].value,
            h[i].pc, h[b - 1].pc, h[i].insn, h[b - 1].insn)
  }

  /** `i` opens a run long enough to report. */
  ghost predicate Reported(d: Kind, h: History, i: nat) {
    i < |h| && Opens(d, h, i) && exists b: nat :: RunIs(d, h, i, b) && Count(d, i, b) >= Threshold(d)
  }

  // ----- The report, index by index -----

  /** Where the run that `i` opens ends, looking from `j` on. */
  function End(d: Kind, h: History, i: nat, j: nat): nat
    requires i < j <= |h|
    decreases |h| - j
  {
    if j < |h| && Continues(d, h, i, j) then (if Closes(d, h, j) then j + 1 else End(d, h, i, j + 1)) else j
  }

  lemma {:induction false} EndIsTheRun(d: Kind, h: History, i: nat, j: nat)
    requires i < j <= |h|
    requires forall k: nat :: i < k < j ==> Continues(d, h, i, k) && !Closes(d, h, k)
    ensures RunIs(d, h, i, End(d, h, i, j))
    decreases |h| - j
  {
    if j < |h| && Continues(d, h, i, j) && !Closes(d, h, j) {
      EndIsTheRun(d, h, i, j + 1);
    }
  }

  /** A shorter stretch is not the run: the next access continues it. */
  lemma RunIsMaximal(d: Kind, h: History, i: nat, b: nat, b': nat)
    requires RunIs(d, h, i, b') && i < b < b'
    ensures !RunIs(d, h, i, b)
  {
    assert Continues(d, h, i, b);
    assert b > i + 1 ==> !Closes(d, h, b - 1);
  }

  lemma RunIsUnique(d: Kind, h: History, i: nat, b: nat, b': nat)
    requires RunIs(d, h, i, b) && RunIs(d, h, i, b')
    ensures b == b'
  {
    if b < b' {
      RunIsMaximal(d, h, i, b, b');
    } else if b' < b {
      RunIsMaximal(d, h, i, b', b);
    }
  }

  predicate LongAt(d: Kind, h: History, i: nat)
    requires i < |h|
  {
    EndInRange(d, h, i, i + 1);
    Opens(d, h, i) && Count(d, i, End(d, h, i, i + 1)) >= Threshold(d)
  }

  lemma LongIsReported(d: Kind, h: History, i: nat)
    requires i < |h|
    ensures LongAt(d, h, i) <==> Reported(d, h, i)
  {
    EndIsTheRun(d, h, i, i + 1);
    forall b: nat | RunIs(d, h, i, b) ensures b == End(d, h, i, i + 1) {
      RunIsUnique(d, h, i, b, End(d, h, i, i + 1));
    }
    hide RunIs, Opens, End;
  }

  /** The reported indices from `i` on, in order. */
  function Indices(d: Kind, h: History, i: nat): seq<nat>
    requires i <= |h|
    decreases |h| - i
  {
    if i == |h| then []
    else (if LongAt(d, h, i) then [i] else []) + Indices(d, h, i + 1)
  }

  /** Every index is tried: nothing is skipped. */
  function Reports(d: Kind, h: History, i: nat): seq<Pattern>
    requires i <= |h|
    decreases |h| - i
  {
    if i == |h| then []
    else (if LongAt(d, h, i) then [EntryAt(d, h, i)] else []) + Reports(d, h, i + 1)
  }

  function EntryAt(d: Kind, h: History, i: nat): Pattern
    requires i < |h|
  {
    EndInRange(d, h, i, i + 1);
    Entry(d, h, i, End(d, h, i, i + 1))
  }

  lemma {:induction false} EndInRange(d: Kind, h: History, i: nat, j: nat)
    requires i < j <= |h|
    ensures j <= End(d, h, i, j) <= |h|
    decreases |h| - j
  {
    if j < |h| && Continues(d, h, i, j) && !Closes(d, h, j) {
      EndInRange(d, h, i, j + 1);
    }
  }

  function Entries(d: Kind, h: History, at: seq<nat>): seq<Pattern>
    requires forall x: nat :: x < |at| ==> at[x] < |h|
  {
    if at == [] then [] else [EntryAt(d, h, at[0])] + Entries(d, h, at[1..])
  }

  lemma IndicesStep(d: Kind, h: History, i: nat)
    requires i < |h|
    ensures Indices(d, h, i) == (if LongAt(d, h, i) then [i] + Indices(d, h, i + 1) else Indices(d, h, i + 1))
  {
    assert [] + Indices(d, h, i + 1) == Indices(d, h, i + 1);
  }

  lemma {:induction false} IndicesInRange(d: Kind, h: History, i: nat)
    requires i <= |h|
    ensures var at := Indices(d, h, i); forall x: nat :: x < |at| ==> i <= at[x] < |h|
    decreases |h| - i
  {
    hide LongAt;
    if i < |h| {
      IndicesStep(d, h, i);
      IndicesInRange(d, h, i + 1);
    }
  }

  predicate Ascending(at: seq<nat>) { forall x: nat, y: nat :: x < y < |at| ==> at[x] < at[y] }

  lemma SmallerInFront(i: nat, rest: seq<nat>)
    requires Ascending(rest) && forall x: nat :: x < |rest| ==> i < rest[x]
    ensures Ascending([i] + rest)
  {
    var at := [i] + rest;
    forall x: nat, y: nat | x < y < |at| ensures at[x] < at[y] {
      assert at[y] == rest[y - 1];
      assert x > 0 ==> at[x] == rest[x - 1];
    }
  }

  lemma {:induction false} IndicesAscend(d: Kind, h: History, i: nat)
    requires i <= |h|
    ensures Ascending(Indices(d, h, i))
    decreases |h| - i
  {
    hide LongAt;
    if i < |h| {
      IndicesStep(d, h, i);
      IndicesAscend(d, h, i + 1);
      IndicesInRange(d, h, i + 1);
      hide Ascending, Indices;
      if LongAt(d, h, i) {
        SmallerInFront(i, Indices(d, h, i + 1));
      }
    }
  }

  lemma {:induction false} IndexIsLong(d: Kind, h: History, i: nat, k: nat)
    requires i <= k && i <= |h|
    ensures k in Indices(d, h, i) <==> k < |h| && LongAt(d, h, k)
    decreases |h| - i
  {
    hide LongAt;
    IndicesInRange(d, h, i);
    if i < |h| {
      IndicesStep(d, h, i);
      IndicesInRange(d, h, i + 1);
      if i < k {
        IndexIsLong(d, h, i + 1, k);
      }
    }
  }

  lemma {:induction false} ReportsAreEntries(d: Kind, h: History, i: nat)
    requires i <= |h|
    ensures var at := Indices(d, h, i);
            (forall x: nat :: x < |at| ==> at[x] < |h|) && Reports(d, h, i) == Entries(d, h, at)
    decreases |h| - i
  {
    hide LongAt, EntryAt;
    IndicesInRange(d, h, i);
    if i < |h| {
      ReportsAreEntries(d, h, i + 1);
      var rest := Indices(d, h, i + 1);
      if LongAt(d, h, i) {
        assert ([i] + rest)[1..] == rest;
      } else {
        assert [] + rest == rest && [] + Reports(d, h, i + 1) == Reports(d, h, i + 1);
      }
    }
  }

  /** A detector's report has one entry, with the right run, for exactly the accesses that open a long enough run,
      in history order. */
  lemma ReportsAreExact(d: Kind, h: History)
    ensures var at := Indices(d, h, 0);
            && (forall k: nat :: k in at <==> Reported(d, h, k))
            && Ascending(at)
            && (forall x: nat :: x < |at| ==> at[x] < |h|) && Reports(d, h, 0) == Entries(d, h, at)
            && (forall k: nat :: k in at ==> k < |h| && RunIs(d, h, k, End(d, h, k, k + 1)))
  {
    hide LongAt, RunIs, Reported, Reports, Entries, Indices;
    IndicesAscend(d, h, 0);
    ReportsAreEntries(d, h, 0);
    var at := Indices(d, h, 0);
    forall k: nat ensures k in at <==> Reported(d, h, k) {
      IndexIsLong(d, h, 0, k);
      if k < |h| {
        LongIsReported(d, h, k);
      } else {
        NotReported(d, h, k);
      }
    }
    forall k: nat | k in at ensures k < |h| && RunIs(d, h, k, End(d, h, k, k + 1)) {
      IndexIsLong(d, h, 0, k);
      EndIsTheRun(d, h, k, k + 1);
    }
  }

  lemma NotReported(d: Kind, h: History, k: nat)
    requires k >= |h|
    ensures !Reported(d, h, k)
  {
  }

  /** What is reported, in figures. A busy wait is five reads in a row of one address and one value, not preceded by another;
      a write is reported with three reads of its address behind it; and a write with bit 31 set with two, of which the first
      still has it. */
  lemma ReportedInFigures(h: History, i: nat)
    requires i < |h|
    ensures Reported(BusyWait, h, i) <==>
              && i + 5 <= |h|
              && (forall k: nat :: i <= k < i + 5 ==> h[k].direction.Read? && h[k].address == h[i].address && h[k].value == h[i].value)
              && !(i > 0 && h[i - 1].direction.Read? && h[i - 1].address == h[i].address && h[i - 1].value == h[i].value)
    ensures Reported(WriteThenPoll, h, i) <==>
              && i + 4 <= |h| && h[i].direction.Write?
              && (forall k: nat :: i < k < i + 4 ==> h[k].direction.Read? && h[k].address == h[i].address)
    ensures Reported(CommandBit, h, i) <==>
              && i + 3 <= |h| && h[i].direction.Write? && h[i].value >= 0x8000_0000
              && (forall k: nat :: i < k < i + 3 ==> h[k].direction.Read? && h[k].address == h[i].address)
              && h[i + 1].value >= 0x8000_0000
  {
    BusyWaitInFigures(h, i);
    PollInFigures(h, i);
    CommandInFigures(h, i);
  }

  lemma BusyWaitInFigures(h: History, i: nat)
    requires i < |h|
    ensures Reported(BusyWait, h, i) <==>
              && i + 5 <= |h|
              && (forall k: nat :: i <= k < i + 5 ==> h[k].direction.Read? && h[k].address == h[i].address && h[k].value == h[i].value)
              && !(i > 0 && h[i - 1].direction.Read? && h[i - 1].address == h[i].address && h[i - 1].value == h[i].value)
  {
    if Reported(BusyWait, h, i) {
      var b: nat :| RunIs(BusyWait, h, i, b) && Count(BusyWait, i, b) >= 5;
      forall k: nat | i < k < i + 5 ensures h[k].direction.Read? && h[k].address == h[i].address && h[k].value == h[i].value {
        assert Continues(BusyWait, h, i, k);
      }
    }
    EndIsTheRun(BusyWait, h, i, i + 1);
    var b := End(BusyWait, h, i, i + 1);
    assert RunIs(BusyWait, h, i, b);
    if b < |h| && b < i + 5 {
      assert !Continues(BusyWait, h, i, b);
    }
  }

  lemma PollInFigures(h: History, i: nat)
    requires i < |h|
    ensures Reported(WriteThenPoll, h, i) <==>
              && i + 4 <= |h| && h[i].direction.Write?
              && (forall k: nat :: i < k < i + 4 ==> h[k].direction.Read? && h[k].address == h[i].address)
  {
    if Reported(WriteThenPoll, h, i) {
      var b: nat :| RunIs(WriteThenPoll, h, i, b) && Count(WriteThenPoll, i, b) >= 3;
      forall k: nat | i < k < i + 4 ensures h[k].direction.Read? && h[k].address == h[i].address {
        assert Continues(WriteThenPoll, h, i, k);
      }
    }
    EndIsTheRun(WriteThenPoll, h, i, i + 1);
    var b := End(WriteThenPoll, h, i, i + 1);
    assert RunIs(WriteThenPoll, h, i, b);
    if b < |h| && b < i + 4 {
      assert !Continues(WriteThenPoll, h, i, b);
    }
  }

  lemma CommandInFigures(h: History, i: nat)
    requires i < |h|
    ensures Reported(CommandBit, h, i) <==>
              && i + 3 <= |h| && h[i].direction.Write? && h[i].value >= 0x8000_0000
              && (forall k: nat :: i < k < i + 3 ==> h[k].direction.Read? && h[k].address == h[i].address)
              && h[i + 1].value >= 0x8000_0000
  {
    if Reported(CommandBit, h, i) {
      var b: nat :| RunIs(CommandBit, h, i, b) && Count(CommandBit, i, b) >= 2;
      forall k: nat | i < k < i + 3 ensures h[k].direction.Read? && h[k].address == h[i].address {
        assert Continues(CommandBit, h, i, k);
      }
      assert !Closes(CommandBit, h, i + 1);
    }
    EndIsTheRun(CommandBit, h, i, i + 1);
    var b := End(CommandBit, h, i, i + 1);
    assert RunIs(CommandBit, h, i, b);
    if b < |h| && b < i + 3 {
      assert !Continues(CommandBit, h, i, b) || (b > i + 1 && Closes(CommandBit, h, b - 1));
    }
  }

  /** The reads among accesses `i` to `b - 1`. */
  function ReadsIn(h: History, i: nat, b: nat): nat
    requires b <= |h|
  {
    if b <= i then 0 else ReadsIn(h, i, b - 1) + (if h[b - 1].direction.Read? then 1 else 0)
  }

  lemma {:induction false} ReadsOfRun(h: History, i: nat, b: nat)
    requires i < b <= |h| && forall k: nat :: i < k < b ==> h[k].direction.Read?
    ensures ReadsIn(h, i, b) == b - i - (if h[i].direction.Read? then 0 else 1)
    decreases b
  {
    if b > i + 1 {
      ReadsOfRun(h, i, b - 1);
    }
  }

  /** What an entry says: the address and value of the opening access, how many reads the run holds, and where and when it
      begins and ends. */
  lemma EntrySays(d: Kind, h: History, i: nat, b: nat)
    requires i < b <= |h| && RunIs(d, h, i, b) && Opens(d, h, i)
    ensures var e := Entry(d, h, i, b);
            && e.kind == d && e.address == h[i].address && e.value == h[i].value
            && e.firstPc == h[i].pc && e.firstInsn == h[i].insn && e.lastPc == h[b - 1].pc && e.lastInsn == h[b - 1].insn
            && e.count == ReadsIn(h, i, b)
  {
    forall k: nat | i < k < b ensures h[k].direction.Read? {
      assert Continues(d, h, i, k);
    }
    ReadsOfRun(h, i, b);
  }

  /** The jump to the end of a run skips nothing: no access inside a run opens one. */
  lemma {:induction false} NothingInside(d: Kind, h: History, i: nat, k: nat)
    requires i < |h| && i < k <= End(d, h, i, i + 1) <= |h| && (d.BusyWait? ==> h[i].direction.Read?)
    ensures Reports(d, h, k) == Reports(d, h, End(d, h, i, i + 1))
    decreases End(d, h, i, i + 1) - k
  {
    if k < End(d, h, i, i + 1) {
      EndIsTheRun(d, h, i, i + 1);
      assert Continues(d, h, i, k);
      assert k > i + 1 ==> Continues(d, h, i, k - 1);
      assert !Opens(d, h, k);
      NothingInside(d, h, i, k + 1);
      assert Reports(d, h, k) == [] + Reports(d, h, k + 1);
    }
  }

  /** A history of fewer than three accesses has nothing to report. */
  lemma ShortHistory(d: Kind, h: History)
    requires |h| < 3
    ensures Reports(d, h, 0) == []
  {
    forall i: nat | i < |h| ensures !LongAt(d, h, i) {
      EndInRange(d, h, i, i + 1);
    }
    NothingLong(d, h, 0);
  }

  lemma {:induction false} NothingLong(d: Kind, h: History, i: nat)
    requires i <= |h| && forall k: nat :: k < |h| ==> !LongAt(d, h, k)
    ensures Reports(d, h, i) == []
    decreases |h| - i
  {
    if i < |h| {
      NothingLong(d, h, i + 1);
    }
  }

  // ----- The detectors -----

  class Findings {
    var patterns: seq<Pattern>

    constructor ()
      ensures patterns == []
    {
      patterns := [];
    }

    method DetectBusyWait(h: History)
      modifies this
      ensures patterns == old(patterns) + Reports(BusyWait, h, 0)
    {
      hide Reports, LongAt, End;
      var i := 0;
      while i < |h|
        invariant i <= |h|
        invariant 0 < i < |h| ==> !SameRead(h[i - 1], h[i])
        invariant patterns + Reports(BusyWait, h, i) == old(patterns) + Reports(BusyWait, h, 0)
      {
        if h[i].direction != Read {
          SkipOne(BusyWait, h, i);
          i := i + 1;
          continue;
        }
        var addr, val, start := h[i].address, h[i].value, i;
        var j := i + 1;
        while j < |h| && h[j].direction == Read && h[j].address == addr && h[j].value == val
          invariant i < j <= |h|
          invariant SameRead(h[j - 1], h[i])
          invariant End(BusyWait, h, i, j) == End(BusyWait, h, i, i + 1)
          modifies {}
        {
          EndGoesOn(BusyWait, h, i, j);
          j := j + 1;
        }
        EndStops(BusyWait, h, i, j);
        var run := j - start;
        RunDone(BusyWait, h, i, j, patterns);
        if run >= 5 {
          patterns := patterns + [Pattern(BusyWait, addr, run, val, h[start].pc, h[j - 1].pc, h[start].insn, h[j - 1].insn)];
        }
        i := j;
      }
      NoMore(BusyWait, h, i);
    }

    method DetectWriteThenPoll(h: History)
      modifies this
      ensures patterns == old(patterns) + Reports(WriteThenPoll, h, 0)
    {
      hide Reports, LongAt, End;
      var i := 0;
      while i + 1 < |h|
        invariant i <= |h|
        invariant patterns + Reports(WriteThenPoll, h, i) == old(patterns) + Reports(WriteThenPoll, h, 0)
      {
        if h[i].direction != Write {
          SkipOne(WriteThenPoll, h, i);
          i := i + 1;
          continue;
        }
        var addr, writeInsn, writePc := h[i].address, h[i].insn, h[i].pc;
        var j, readCount := i + 1, 0;
        while j < |h| && h[j].direction == Read && h[j].address == addr
          invariant i < j <= |h| && readCount == j - i - 1
          invariant End(WriteThenPoll, h, i, j) == End(WriteThenPoll, h, i, i + 1)
          modifies {}
        {
          EndGoesOn(WriteThenPoll, h, i, j);
          readCount := readCount + 1;
          j := j + 1;
        }
        EndStops(WriteThenPoll, h, i, j);
        RunDone(WriteThenPoll, h, i, j, patterns);
        if readCount >= 3 {
          patterns := patterns + [Pattern(WriteThenPoll, addr, readCount, h[i].value, writePc, h[j - 1].pc, writeInsn, h[j - 1].insn)];
        }
        i := j;
      }
      NoMore(WriteThenPoll, h, i);
    }

    method DetectCommandBit(h: History)
      modifies this
      ensures patterns == old(patterns) + Reports(CommandBit, h, 0)
    {
      hide Reports, LongAt, End;
      var i := 0;
      while i + 1 < |h|
        invariant i <= |h|
        invariant patterns + Reports(CommandBit, h, i) == old(patterns) + Reports(CommandBit, h, 0)
      {
        if h[i].direction != Write || !Bit31(h[i].value) {
          SkipOne(CommandBit, h, i);
          i := i + 1;
          continue;
        }
        var addr, writeInsn, writePc := h[i].address, h[i].insn, h[i].pc;
        var j, pollCount := i + 1, 0;
        var closed := false;
        while j < |h| && h[j].direction == Read && h[j].address == addr
          invariant i < j <= |h| && pollCount == j - i - 1 && !closed
          invariant End(CommandBit, h, i, j) == End(CommandBit, h, i, i + 1)
          modifies {}
        {
          pollCount := pollCount + 1;
          if !Bit31(h[j].value) {
            EndCloses(CommandBit, h, i, j);
            closed := true;
            j := j + 1;
            break;
          }
          EndGoesOn(CommandBit, h, i, j);
          j := j + 1;
        }
        if !closed {
          EndStops(CommandBit, h, i, j);
        }
        RunDone(CommandBit, h, i, j, patterns);
        if pollCount >= 2 {
          patterns := patterns + [Pattern(CommandBit, addr, pollCount, h[i].value, writePc, h[j - 1].pc, writeInsn, h[j - 1].insn)];
        }
        i := j;
      }
      NoMore(CommandBit, h, i);
    }
  }

  lemma EndGoesOn(d: Kind, h: History, i: nat, j: nat)
    requires i < j < |h| && Continues(d, h, i, j) && !Closes(d, h, j)
    ensures End(d, h, i, j) == End(d, h, i, j + 1)
  {
  }

  lemma EndStops(d: Kind, h: History, i: nat, j: nat)
    requires i < j <= |h| && (j < |h| ==> !Continues(d, h, i, j))
    ensures End(d, h, i, j) == j
  {
  }

  lemma EndCloses(d: Kind, h: History, i: nat, j: nat)
    requires i < j < |h| && Continues(d, h, i, j) && Closes(d, h, j)
    ensures End(d, h, i, j) == j + 1
  {
  }

  lemma SkipOne(d: Kind, h: History, i: nat)
    requires i < |h| && !Opens(d, h, i)
    ensures Reports(d, h, i) == Reports(d, h, i + 1)
  {
    assert Reports(d, h, i) == [] + Reports(d, h, i + 1);
  }

  /** A run scanned to its end accounts for every index up to there. */
  lemma RunDone(d: Kind, h: History, i: nat, j: nat, found: seq<Pattern>)
    requires i < |h| && Opens(d, h, i) && j == End(d, h, i, i + 1)
    ensures i < j <= |h|
    ensures found + Reports(d, h, i) ==
            (if Count(d, i, j) >= Threshold(d) then found + [Entry(d, h, i, j)] else found) + Reports(d, h, j)
  {
    EndInRange(d, h, i, i + 1);
    NothingInside(d, h, i, i + 1);
    assert EntryAt(d, h, i) == Entry(d, h, i, j);
    hide EntryAt, Entry, End, Opens;
  }

  lemma NoMore(d: Kind, h: History, i: nat)
    requires i == |h| || (i + 1 == |h| && !d.BusyWait?)
    ensures Reports(d, h, i) == []
  {
    if i < |h| {
      EndInRange(d, h, i, i + 1);
    }
  }
}
