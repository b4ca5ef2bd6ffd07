/** The poll loop seen as a cyclic path of program counters, and what the fetch engine's
    scan returns when it starts on that path. */
module PollLoop {
  import opened Words
  import opened InstructionCache
  import opened Timing

  /** A line-aligned loop whose hot line is not one of its cold lines. Beyond 2046 cold lines the
      scan cap would cut the walk short of one whole iteration. */
  predicate Layout(p: PollLoopProgram) {
    && p.base % 32 == 0 && p.cold % 32 == 0
    && 1 <= p.coldLines <= 2046
    && p.base + 32 <= 0x1_0000_0000 && p.cold + 32 * p.coldLines <= 0x1_0000_0000
    && !(p.cold <= p.base < p.cold + 32 * p.coldLines)
  }

  /** The lines an iteration touches: the cold lines in order, then the hot line. */
  function LoopLine(p: PollLoopProgram, i: nat): u32
    requires Layout(p) && i <= p.coldLines
  {
    if i < p.coldLines then p.cold + 32 * i else p.base
  }

  /** Two lines the loop touches map to the same I-cache set. */
  predicate Collides(p: PollLoopProgram)
    requires Layout(p)
  {
    exists i: nat, j: nat ::
      i < j <= p.coldLines && SetOf(LoopLine(p, i)) == SetOf(LoopLine(p, j))
  }

  lemma ColdPathUsesDistinctSets(p: PollLoopProgram, i: nat, j: nat)
    requires Layout(p) && i < j < p.coldLines <= 128
    ensures SetOf(LoopLine(p, i)) != SetOf(LoopLine(p, j))
  {
    var x := p.cold / 32;
    assert LoopLine(p, i) / 32 == x + i && LoopLine(p, j) / 32 == x + j;
  }

  /** With at most 128 cold lines the cold path cannot collide with itself, so a collision is
      one between the hot line and a cold line. */
  lemma CollisionIsWithTheHotLine(p: PollLoopProgram)
    requires Layout(p) && p.coldLines <= 128
    ensures Collides(p)
            <==> exists i: nat :: i < p.coldLines && SetOf(LoopLine(p, i)) == SetOf(p.base)
  {
    var n := p.coldLines;
    if i: nat :| i < n && SetOf(LoopLine(p, i)) == SetOf(p.base) {
      assert SetOf(LoopLine(p, n)) == SetOf(p.base);
    }
    if i: nat, j: nat :| i < j <= n && SetOf(LoopLine(p, i)) == SetOf(LoopLine(p, j)) {
      if j < n {
        ColdPathUsesDistinctSets(p, i, j);
      }
      assert SetOf(LoopLine(p, i)) == SetOf(p.base);
    }
  }

  // ----- The path -----

  function PathLength(p: PollLoopProgram): nat { 2 * p.coldLines + 3 }

  /** Program counters of one iteration, starting at the first cold line. */
  function PathPc(p: PollLoopProgram, k: nat): u32
    requires Layout(p) && k < PathLength(p)
  {
    if k < 2 * p.coldLines then LoopLine(p, k / 2) + 4 * (k % 2) else p.base + 4 * (k - 2 * p.coldLines)
  }

  function PathLine(p: PollLoopProgram, k: nat): nat {
    if k < 2 * p.coldLines then k / 2 else p.coldLines
  }

  function Succ(p: PollLoopProgram, k: nat): nat {
    if k + 1 == PathLength(p) then 0 else k + 1
  }

  function KindAt(p: PollLoopProgram, k: nat): Kind
    requires Layout(p) && k < PathLength(p)
  {
    var n := p.coldLines;
    if k < 2 * n then
      if k % 2 == 0 then Alu
      else if k == 2 * n - 1 then LoopBack(p.base)
      else Branch(LoopLine(p, k / 2 + 1))
    else if k == 2 * n then LoadOp(p.status, p.statusMmio)
    else if k == 2 * n + 1 then Alu
    else Branch(p.cold)
  }

  /** The hot line lies wholly before or wholly after the cold path. */
  lemma HotLineApart(p: PollLoopProgram)
    requires Layout(p)
    ensures p.base >= p.cold + 32 * p.coldLines || p.base + 32 <= p.cold
  {
    var b, c := p.base / 32, p.cold / 32;
    assert p.base == 32 * b && p.cold == 32 * c;
  }

  lemma {:induction false} DecodeColdAt(p: PollLoopProgram, line: nat, i: nat)
    requires Layout(p) && i <= line < p.coldLines
    ensures DecodeCold(p, p.cold + 32 * line, i) == Alu
    ensures DecodeCold(p, p.cold + 32 * line + 4, i)
            == if line + 1 < p.coldLines then Branch(LoopLine(p, line + 1)) else LoopBack(p.base)
    decreases line - i
  {
    var ci := Wrap(p.cold + i * LINE_SIZE);
    assert ci == p.cold + 32 * i && Wrap(ci + 4) == ci + 4;
    if i < line {
      DecodeColdAt(p, line, i + 1);
    }
  }

  lemma DecodesTo(p: PollLoopProgram, k: nat)
    requires Layout(p) && k < PathLength(p)
    ensures Decode(p, PathPc(p, k)) == KindAt(p, k)
  {
    var pc := PathPc(p, k);
    HotLineApart(p);
    assert Wrap(p.base + 4) == p.base + 4 && Wrap(p.base + 8) == p.base + 8;
    if k < 2 * p.coldLines {
      assert p.cold <= pc < p.cold + 32 * p.coldLines;
      assert pc == p.cold + 32 * (k / 2) + 4 * (k % 2);
      DecodeColdAt(p, k / 2, 0);
    }
  }

  /** Where an instruction of this kind leads. */
  function KindNext(kind: Kind, pc: u32): u32 {
    match kind
    case Branch(t) => t
    case LoopBack(t) => t
    case _ => Wrap(pc + INSN_SIZE)
  }

  lemma NextOnPath(p: PollLoopProgram, k: nat)
    requires Layout(p) && k < PathLength(p)
    ensures KindNext(KindAt(p, k), PathPc(p, k)) == PathPc(p, Succ(p, k))
  {
    var n := p.coldLines;
    if k < 2 * n {
      NextOnColdPath(p, k);
    } else if k < 2 * n + 2 {
      assert Wrap(PathPc(p, k) + 4) == PathPc(p, k) + 4;
    } else {
      assert Succ(p, k) == 0;
    }
  }

  lemma NextOnColdPath(p: PollLoopProgram, k: nat)
    requires Layout(p) && k < 2 * p.coldLines
    ensures KindNext(KindAt(p, k), PathPc(p, k)) == PathPc(p, k + 1)
  {
    if k % 2 == 0 {
      assert k + 1 < 2 * p.coldLines && (k + 1) / 2 == k / 2 && (k + 1) % 2 == 1;
      assert Wrap(PathPc(p, k) + 4) == PathPc(p, k) + 4;
    } else if k < 2 * p.coldLines - 1 {
      assert (k + 1) / 2 == k / 2 + 1 && (k + 1) % 2 == 0;
    }
  }

  lemma PredictedByKind(p: PollLoopProgram, pc: u32, kind: Kind)
    requires Decode(p, pc) == kind
    ensures PredictedNext(p, pc) == KindNext(kind, pc)
  {
    hide Decode;
  }

  /** The decoder sees the intended program at every point of the path, and predicted flow
      goes round it. */
  lemma DecodeAt(p: PollLoopProgram, k: nat)
    requires Layout(p) && k < PathLength(p)
    ensures Decode(p, PathPc(p, k)) == KindAt(p, k)
    ensures PredictedNext(p, PathPc(p, k)) == PathPc(p, Succ(p, k))
  {
    hide Decode, KindAt, PathPc, PredictedNext, KindNext, Layout;
    DecodesTo(p, k);
    NextOnPath(p, k);
    PredictedByKind(p, PathPc(p, k), KindAt(p, k));
  }

  lemma PathInjective(p: PollLoopProgram, j: nat, k: nat)
    requires Layout(p) && j < k < PathLength(p)
    ensures PathPc(p, j) != PathPc(p, k)
  {
    HotLineApart(p);
    if k < 2 * p.coldLines {
      assert j == 2 * (j / 2) + j % 2 && k == 2 * (k / 2) + k % 2;
    }
  }

  lemma HoldsOnPath(p: PollLoopProgram, ic: Lines, k: nat)
    requires Layout(p) && k < PathLength(p)
    ensures Holds(ic, PathPc(p, k)) == Holds(ic, LoopLine(p, PathLine(p, k)))
    ensures LineOf(PathPc(p, k)) == LoopLine(p, PathLine(p, k))
  {
    hide *;
    PathLinePlus(p, k);
    InsideLine(LoopLine(p, PathLine(p, k)), PathPc(p, k), ic);
  }

  lemma PathLinePlus(p: PollLoopProgram, k: nat)
    requires Layout(p) && k < PathLength(p)
    ensures PathLine(p, k) <= p.coldLines
    ensures LoopLine(p, PathLine(p, k)) % 32 == 0
    ensures LoopLine(p, PathLine(p, k)) <= PathPc(p, k) < LoopLine(p, PathLine(p, k)) + 32
  {
  }

  lemma InsideLine(line: u32, pc: u32, ic: Lines)
    requires line % 32 == 0 && line <= pc < line + 32
    ensures Holds(ic, pc) == Holds(ic, line) && LineOf(pc) == line
  {
    assert pc / 32 == line / 32;
  }

  // ----- Residency -----

  predicate AllResident(p: PollLoopProgram, ic: Lines)
    requires Layout(p)
  {
    forall i: nat :: i <= p.coldLines ==> Holds(ic, LoopLine(p, i))
  }

  lemma LoopLinesDiffer(p: PollLoopProgram, i: nat, j: nat)
    requires Layout(p) && i < j <= p.coldLines
    ensures SetOf(LoopLine(p, i)) != SetOf(LoopLine(p, j)) || TagOf(LoopLine(p, i)) != TagOf(LoopLine(p, j))
  {
    HotLineApart(p);
    var x, y := LoopLine(p, i) / 32, LoopLine(p, j) / 32;
    assert LoopLine(p, i) == 32 * x && LoopLine(p, j) == 32 * y && x != y;
    assert x == 128 * (x / 128) + x % 128 && y == 128 * (y / 128) + y % 128;
  }

  /** A direct-mapped cache never holds both lines of a colliding pair. */
  lemma CollisionKeepsALineOut(p: PollLoopProgram, ic: Lines, i: nat, j: nat)
    requires Layout(p) && i < j <= p.coldLines && SetOf(LoopLine(p, i)) == SetOf(LoopLine(p, j))
    ensures !(Holds(ic, LoopLine(p, i)) && Holds(ic, LoopLine(p, j)))
  {
    LoopLinesDiffer(p, i, j);
  }

  // ----- The scan -----

  /** With the whole loop resident the fetch engine quiesces, whatever its depth. */
  lemma {:induction false} ScanQuiesces(p: PollLoopProgram, ic: Lines, runahead: u32, k: nat,
                                        distinct: seq<u32>, visited: seq<u32>, fuel: nat)
    requires Layout(p) && AllResident(p, ic) && k < PathLength(p)
    ensures Scan(p, ic, runahead, PathPc(p, k), distinct, visited, fuel) == None
    decreases fuel
  {
    if fuel > 0 {
      HoldsOnPath(p, ic, k);
      DecodeAt(p, k);
      var line := LineOf(PathPc(p, k));
      var distinct' := if line in distinct then distinct else distinct + [line];
      ScanQuiesces(p, ic, runahead, Succ(p, k), distinct', visited + [PathPc(p, k)], fuel - 1);
    }
  }

  /** The loop lines from `s` up to but not including `c`. */
  function LinesBetween(p: PollLoopProgram, s: nat, c: nat): (r: seq<u32>)
    requires Layout(p) && s <= c <= p.coldLines + 1
    ensures |r| == c - s && forall i: nat :: i < c - s ==> r[i] == LoopLine(p, s + i)
  {
    if c == s then [] else LinesBetween(p, s, c - 1) + [LoopLine(p, c - 1)]
  }

  /** The path's program counters from position `2 s` up to but not including `k`. */
  function PcsBetween(p: PollLoopProgram, s: nat, k: nat): (r: seq<u32>)
    requires Layout(p) && 2 * s <= k <= PathLength(p)
    ensures |r| == k - 2 * s && forall i: nat :: i < k - 2 * s ==> r[i] == PathPc(p, 2 * s + i)
  {
    if k == 2 * s then [] else PcsBetween(p, s, k - 1) + [PathPc(p, k - 1)]
  }

  lemma PcIsNew(p: PollLoopProgram, s: nat, k: nat)
    requires Layout(p) && 2 * s <= k < PathLength(p)
    ensures PathPc(p, k) !in PcsBetween(p, s, k)
  {
    hide PathPc, Layout;
    var met := PcsBetween(p, s, k);
    if PathPc(p, k) in met {
      var i: nat :| i < |met| && met[i] == PathPc(p, k);
      PathInjective(p, 2 * s + i, k);
    }
  }

  /** A line the walk has not reached is not among those it met. */
  lemma LineIsNew(p: PollLoopProgram, s: nat, c: nat)
    requires Layout(p) && s <= c <= p.coldLines
    ensures LoopLine(p, c) !in LinesBetween(p, s, c)
  {
    hide LoopLine, Layout;
    var met := LinesBetween(p, s, c);
    if LoopLine(p, c) in met {
      var i: nat :| i < |met| && met[i] == LoopLine(p, c);
      LoopLinesDiffer(p, s + i, c);
    }
  }

  /** Passing position `k` meets a new line exactly when that line was not met before. */
  lemma LinesMetNext(p: PollLoopProgram, s: nat, k: nat)
    requires Layout(p) && 2 * s <= k < 2 * p.coldLines
    ensures var line, seen := LoopLine(p, k / 2), LinesBetween(p, s, (k + 1) / 2);
            LinesBetween(p, s, (k + 2) / 2) == (if line in seen then seen else seen + [line])
  {
    var seen, line := LinesBetween(p, s, (k + 1) / 2), LoopLine(p, k / 2);
    if k % 2 == 1 {
      assert seen[k / 2 - s] == line;
    } else {
      LineIsNew(p, s, k / 2);
    }
  }

  lemma ScanStep(p: PollLoopProgram, ic: Lines, runahead: u32, pc: u32, next: u32,
                 distinct: seq<u32>, distinct': seq<u32>, visited: seq<u32>, fuel: nat)
    requires fuel > 0 && Holds(ic, pc) && pc !in visited && next == PredictedNext(p, pc)
    requires distinct' == (if LineOf(pc) in distinct then distinct else distinct + [LineOf(pc)])
    requires |distinct'| < runahead
    ensures Scan(p, ic, runahead, pc, distinct, visited, fuel)
            == Scan(p, ic, runahead, next, distinct', visited + [pc], fuel - 1)
  {
  }

  /** The walk begun at line `s`, from position `k` on, having met what lies between. */
  function ScanFrom(p: PollLoopProgram, ic: Lines, runahead: u32, s: nat, k: nat, fuel: nat): Option<u32>
    requires Layout(p) && 2 * s <= k <= 2 * p.coldLines
  {
    Scan(p, ic, runahead, PathPc(p, k), LinesBetween(p, s, (k + 1) / 2), PcsBetween(p, s, k), fuel)
  }

  lemma BookKeeping(p: PollLoopProgram, ic: Lines, runahead: u32, s: nat, k: nat, fuel: nat)
    requires Layout(p) && 2 * s <= k < 2 * p.coldLines && (k + 2) / 2 - s < runahead && fuel > 0
    ensures PcsBetween(p, s, k + 1) == PcsBetween(p, s, k) + [PathPc(p, k)]
    ensures |LinesBetween(p, s, (k + 2) / 2)| < runahead
    ensures ScanFrom(p, ic, runahead, s, k, fuel)
            == Scan(p, ic, runahead, PathPc(p, k), LinesBetween(p, s, (k + 1) / 2), PcsBetween(p, s, k), fuel)
    ensures ScanFrom(p, ic, runahead, s, k + 1, fuel - 1)
            == Scan(p, ic, runahead, PathPc(p, k + 1), LinesBetween(p, s, (k + 2) / 2), PcsBetween(p, s, k + 1),
                    fuel - 1)
  {
    hide PathPc, Scan, LinesBetween;
  }

  lemma NextOfPath(p: PollLoopProgram, k: nat)
    requires Layout(p) && k < 2 * p.coldLines
    ensures k + 1 < PathLength(p) && Succ(p, k) == k + 1 && PathLine(p, k) == k / 2
  {
  }

  lemma ScanAdvances(p: PollLoopProgram, ic: Lines, runahead: u32, s: nat, k: nat, fuel: nat)
    requires Layout(p) && 2 * s <= k < 2 * p.coldLines && (k + 2) / 2 - s < runahead
    requires fuel > 0 && Holds(ic, LoopLine(p, k / 2))
    ensures ScanFrom(p, ic, runahead, s, k, fuel) == ScanFrom(p, ic, runahead, s, k + 1, fuel - 1)
  {
    hide *;
    NextOfPath(p, k);
    HoldsOnPath(p, ic, k);
    LinesMetNext(p, s, k);
    PcIsNew(p, s, k);
    DecodeAt(p, k);
    BookKeeping(p, ic, runahead, s, k, fuel);
    ScanStep(p, ic, runahead, PathPc(p, k), PathPc(p, k + 1), LinesBetween(p, s, (k + 1) / 2),
             LinesBetween(p, s, (k + 2) / 2), PcsBetween(p, s, k), fuel);
  }

  lemma ScanStops(p: PollLoopProgram, ic: Lines, runahead: u32, s: nat, f: nat, fuel: nat)
    requires Layout(p) && s <= f <= p.coldLines && fuel > 0 && !Holds(ic, LoopLine(p, f))
    ensures ScanFrom(p, ic, runahead, s, 2 * f, fuel) == Some(LoopLine(p, f))
  {
    HoldsOnPath(p, ic, 2 * f);
  }

  /** A walk that sees far enough reports the first missing line at or after the one it starts on. */
  lemma {:induction false} ScanFinds(p: PollLoopProgram, ic: Lines, runahead: u32, s: nat, k: nat, f: nat, fuel: nat)
    requires Layout(p) && f - s < runahead
    requires 2 * s <= k <= 2 * f <= 2 * p.coldLines && fuel > 2 * f - k
    requires forall i: nat :: s <= i < f ==> Holds(ic, LoopLine(p, i))
    requires !Holds(ic, LoopLine(p, f))
    ensures ScanFrom(p, ic, runahead, s, k, fuel) == Some(LoopLine(p, f))
    decreases 2 * f - k
  {
    hide *;
    if k == 2 * f {
      ScanStops(p, ic, runahead, s, f, fuel);
    } else {
      ScanAdvances(p, ic, runahead, s, k, fuel);
      ScanFinds(p, ic, runahead, s, k + 1, f, fuel - 1);
    }
  }

  lemma ScanIsFull(p: PollLoopProgram, ic: Lines, runahead: u32, s: nat, c: nat, fuel: nat)
    requires Layout(p) && s <= c < p.coldLines && c + 1 - s >= runahead && Holds(ic, LoopLine(p, c))
    ensures ScanFrom(p, ic, runahead, s, 2 * c, fuel) == None
  {
    hide PathPc, LoopLine, Holds, LineOf, Layout;
    HoldsOnPath(p, ic, 2 * c);
    LineIsNew(p, s, c);
  }

  /** A walk that has met as many resident cold lines as it may falls silent. */
  lemma {:induction false} ScanFallsSilent(p: PollLoopProgram, ic: Lines, runahead: u32, s: nat, k: nat, c: nat, fuel: nat)
    requires Layout(p) && runahead == c + 1 - s
    requires 2 * s <= k <= 2 * c < 2 * p.coldLines
    requires forall i: nat :: s <= i <= c ==> Holds(ic, LoopLine(p, i))
    ensures ScanFrom(p, ic, runahead, s, k, fuel) == None
    decreases 2 * c - k
  {
    hide *;
    if k == 2 * c {
      ScanIsFull(p, ic, runahead, s, c, fuel);
    } else if fuel > 0 {
      ScanAdvances(p, ic, runahead, s, k, fuel);
      ScanFallsSilent(p, ic, runahead, s, k + 1, c, fuel - 1);
    } else {
      NoFuel(p, ic, runahead, s, k);
    }
  }

  lemma NoFuel(p: PollLoopProgram, ic: Lines, runahead: u32, s: nat, k: nat)
    requires Layout(p) && 2 * s <= k <= 2 * p.coldLines
    ensures ScanFrom(p, ic, runahead, s, k, 0) == None
  {
  }

  lemma {:induction false} FirstMissing(p: PollLoopProgram, ic: Lines, i: nat, c: nat) returns (f: nat)
    requires Layout(p) && i <= c <= p.coldLines && !Holds(ic, LoopLine(p, c))
    requires forall j: nat :: j < i ==> Holds(ic, LoopLine(p, j))
    ensures f <= c && !Holds(ic, LoopLine(p, f))
    ensures forall j: nat :: j < f ==> Holds(ic, LoopLine(p, j))
    decreases c - i
  {
    if !Holds(ic, LoopLine(p, i)) {
      f := i;
    } else {
      f := FirstMissing(p, ic, i + 1, c);
    }
  }

  /** An engine at line `s` asks for the first missing loop line its run-ahead reaches. */
  lemma ScanReports(p: PollLoopProgram, ic: Lines, runahead: u32, s: nat, f: nat)
    requires Layout(p) && s <= f <= p.coldLines && f - s < runahead
    requires forall i: nat :: s <= i < f ==> Holds(ic, LoopLine(p, i))
    requires !Holds(ic, LoopLine(p, f))
    ensures Scan(p, ic, runahead, PathPc(p, 2 * s), [], [], SCAN_CAP) == Some(LoopLine(p, f))
  {
    ScanFinds(p, ic, runahead, s, 2 * s, f, SCAN_CAP);
  }

  /** With the `runahead` cold lines from `s` on resident it asks for nothing. */
  lemma ScanReportsNothing(p: PollLoopProgram, ic: Lines, runahead: u32, s: nat)
    requires Layout(p) && 1 <= runahead && s + runahead <= p.coldLines
    requires forall i: nat :: s <= i < s + runahead ==> Holds(ic, LoopLine(p, i))
    ensures Scan(p, ic, runahead, PathPc(p, 2 * s), [], [], SCAN_CAP) == None
  {
    ScanFallsSilent(p, ic, runahead, s, 2 * s, s + runahead - 1, SCAN_CAP);
  }
}
