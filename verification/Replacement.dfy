/** Which lines the data cache keeps. */
module Replacement {
  import opened Words
  import opened DataCache
  import opened MemorySystem
  import opened Coherence

  /** What the memory system asks of the cache: fills at a miss or a hit, byte writes and line invalidates. */
  datatype CacheOp = Fill(addr: nat, data: LineData) | Write(addr: nat, val: byte) | Drop(addr: nat)

  function Applied(s: DCacheState, op: CacheOp): (r: DCacheState)
    requires RoundRobin(s)
    ensures RoundRobin(r)
  {
    match op
    case Fill(addr, data) => Filled(s, addr, data).0
    case Write(addr, val) => s.(lines := Written(s.lines, addr, val))
    case Drop(addr) => s.(lines := Dropped(s.lines, addr))
  }

  function After(s: DCacheState, ops: seq<CacheOp>): (r: DCacheState)
    requires RoundRobin(s)
    ensures RoundRobin(r)
  {
    if ops == [] then s else Applied(After(s, ops[..|ops| - 1]), ops[|ops| - 1])
  }

  /** Just reset, or just emptied by DC_IVDC. */
  predicate Fresh(s: DCacheState) { s.lines == EMPTY_SETS && forall i: nat :: i < 64 ==> s.nextWay[i] == 0 }

  lemma InvalidatingRefreshes(s: DCacheState)
    ensures Fresh(InvalidatedAll(s).0)
  {
  }

  // ----- First in, first out -----

  /** The tags a two-place queue for set `index` holds after these operations: a fill of a new line enters at the back and
      pushes out the front of a full queue; nothing else moves. */
  function Queue(ops: seq<CacheOp>, index: nat): seq<nat> {
    if ops == [] then []
    else
      var q, op := Queue(ops[..|ops| - 1], index), ops[|ops| - 1];
      if !op.Fill? || (op.addr / 32) % 64 != index || op.addr / 2048 in q then q
      else (if |q| < 2 then q else q[1..]) + [op.addr / 2048]
  }

  /** The set holds the queue's lines, and its counter names the older of two. */
  predicate InOrder(s: DCacheState, index: nat, q: seq<nat>)
    requires index < 64
  {
    var ways, next := s.lines[index], s.nextWay[index];
    match |q|
    case 0 => !ways[0].valid && !ways[1].valid && next == 0
    case 1 => ways[0].valid && ways[0].tag == q[0] && !ways[1].valid && next == 0
    case 2 =>
      ways[0].valid && ways[1].valid && next < 2 && ways[next].tag == q[0] && ways[1 - next].tag == q[1] && q[0] != q[1]
    case _ => false
  }

  lemma FillKeepsOrder(s: DCacheState, addr: nat, data: LineData, index: nat, q: seq<nat>)
    requires RoundRobin(s) && index < 64 && InOrder(s, index, q)
    ensures InOrder(Filled(s, addr, data).0, index,
                    if SetOf(addr) != index || TagOf(addr) in q then q else (if |q| < 2 then q else q[1..]) + [TagOf(addr)])
  {
    hide SetOf, TagOf;
  }

  lemma WriteKeepsOrder(s: DCacheState, addr: nat, val: byte, index: nat, q: seq<nat>)
    requires index < 64 && InOrder(s, index, q)
    ensures InOrder(s.(lines := Written(s.lines, addr, val)), index, q)
  {
    hide SetOf, TagOf, OffsetOf;
  }

  lemma AddressParts(a: nat)
    ensures SetOf(a) == (a / 32) % 64 && TagOf(a) == a / 2048
  {
  }

  lemma {:induction false} StaysInOrder(s: DCacheState, ops: seq<CacheOp>, index: nat)
    requires RoundRobin(s) && Fresh(s) && index < 64
    requires forall i: nat :: i < |ops| ==> !ops[i].Drop?
    ensures InOrder(After(s, ops), index, Queue(ops, index))
    decreases |ops|
  {
    if ops != [] {
      hide InOrder, Filled, Written, Fresh, RoundRobin;
      var front, op := ops[..|ops| - 1], ops[|ops| - 1];
      StaysInOrder(s, front, index);
      AddressParts(op.addr);
      match op
      case Fill(addr, data) => FillKeepsOrder(After(s, front), addr, data, index, Queue(front, index));
      case Write(addr, val) => WriteKeepsOrder(After(s, front), addr, val, index, Queue(front, index));
    }
  }

  lemma ResidentIffQueued(s: DCacheState, x: nat, q: seq<nat>)
    requires InOrder(s, SetOf(x), q)
    ensures LineFor(s.lines, x).Some? <==> TagOf(x) in q
  {
    var ways, tag := s.lines[SetOf(x)], TagOf(x);
    assert LineFor(s.lines, x) == LineAt(s.lines, SetOf(x), tag);
    hide SetOf, TagOf, LineFor;
    assert LineAt(s.lines, SetOf(x), tag).Some? <==> (ways[0].valid && ways[0].tag == tag) || (ways[1].valid && ways[1].tag == tag);
    if |q| == 1 {
      assert q == [q[0]];
    } else if |q| == 2 {
      assert q == [q[0], q[1]];
      assert s.nextWay[SetOf(x)] == 0 || s.nextWay[SetOf(x)] == 1;
    }
  }

  /** Replacement. After any run of hits, misses and writes from a fresh cache, the lines resident in a set are exactly
      the last two to have missed in it: round robin is first in, first out. */
  lemma ReplacementIsFifo(s: DCacheState, ops: seq<CacheOp>, x: nat)
    requires RoundRobin(s) && Fresh(s)
    requires forall i: nat :: i < |ops| ==> !ops[i].Drop?
    ensures LineFor(After(s, ops).lines, x).Some? <==> x / 2048 in Queue(ops, (x / 32) % 64)
  {
    hide InOrder, LineFor, After, Queue;
    AddressParts(x);
    StaysInOrder(s, ops, SetOf(x));
    ResidentIffQueued(After(s, ops), x, Queue(ops, SetOf(x)));
  }

  // ----- Invalidates in between -----

  /** A miss in a set with no free way. */
  predicate FullMiss(s: DCacheState, op: CacheOp, index: nat)
    requires index < 64
  {
    op.Fill? && SetOf(op.addr) == index && LineFor(s.lines, op.addr).None? && s.lines[index][0].valid && s.lines[index][1].valid
  }

  function FullMisses(s: DCacheState, ops: seq<CacheOp>, index: nat): nat
    requires RoundRobin(s) && index < 64
  {
    if ops == [] then 0
    else
      var front := ops[..|ops| - 1];
      FullMisses(s, front, index) + (if FullMiss(After(s, front), ops[|ops| - 1], index) then 1 else 0)
  }

  lemma CounterMoves(s: DCacheState, op: CacheOp, index: nat)
    requires RoundRobin(s) && index < 64
    ensures Applied(s, op).nextWay[index] == if FullMiss(s, op, index) then 1 - s.nextWay[index] else s.nextWay[index]
    ensures FullMiss(s, op, index) ==>
              var w, ways := s.nextWay[index], Applied(s, op).lines[index];
              ways[w].valid && ways[w].tag == TagOf(op.addr) && ways[1 - w] == s.lines[index][1 - w]
    ensures op.Fill? && LineFor(s.lines, op.addr).None? && SetOf(op.addr) == index && !FullMiss(s, op, index) ==>
              forall w: nat :: w < 2 && s.lines[index][w].valid ==> Applied(s, op).lines[index][w] == s.lines[index][w]
  {
    hide SetOf, TagOf, OffsetOf;
    match op
    case Fill(addr, data) =>
    case Write(addr, val) => hide Filled, Dropped;
    case Drop(addr) => hide Filled, Written;
  }

  /** With invalidates anywhere in between the ways are still displaced in turn: the k-th miss in a full set displaces way
      (k - 1) mod 2, and a miss with a way free displaces nothing. */
  lemma {:induction false} WaysAlternate(s: DCacheState, ops: seq<CacheOp>, index: nat)
    requires RoundRobin(s) && Fresh(s) && index < 64
    ensures After(s, ops).nextWay[index] == FullMisses(s, ops, index) % 2
    decreases |ops|
  {
    hide *;
    if ops != [] {
      var front := ops[..|ops| - 1];
      WaysAlternate(s, front, index);
      CounterMoves(After(s, front), ops[|ops| - 1], index);
      LastOp(s, ops, index);
      NextInTurn(FullMisses(s, front, index));
    } else {
      NoOps(s, index);
    }
  }

  lemma NoOps(s: DCacheState, index: nat)
    requires RoundRobin(s) && Fresh(s) && index < 64
    ensures After(s, []).nextWay[index] == FullMisses(s, [], index) % 2
  {
  }

  lemma NextInTurn(k: nat)
    ensures (k + 1) % 2 == 1 - k % 2
  {
  }

  lemma LastOp(s: DCacheState, ops: seq<CacheOp>, index: nat)
    requires RoundRobin(s) && index < 64 && ops != []
    ensures var front, op := ops[..|ops| - 1], ops[|ops| - 1];
            && After(s, ops) == Applied(After(s, front), op)
            && FullMisses(s, ops, index) == FullMisses(s, front, index) + (if FullMiss(After(s, front), op, index) then 1 else 0)
  {
    hide Applied, FullMiss;
  }

  // ----- The control register -----

  /** DC_CTRL by bit number: bit 0 disables, bit 6 is IM, bit 7 LM; bits 3, 4 and all above 7 read back as 0; the lines
      and the counters stay. */
  lemma ControlBits(s: DCacheState, val: bv32)
    ensures var s' := Controlled(s, val);
            && (s'.enabled <==> (val >> 0) & 1 == 0) && (s'.im <==> (val >> 6) & 1 == 1) && (s'.lm <==> (val >> 7) & 1 == 1)
            && s'.lines == s.lines && s'.nextWay == s.nextWay
            && (s'.ctrlRaw >> 8) == 0 && (s'.ctrlRaw >> 3) & 3 == 0
            && s'.ctrlRaw & 7 == val & 7 && (s'.ctrlRaw >> 5) == (val >> 5) & 7
  {
  }

  /** The register's reset value decodes to the reset state: enabled, IM and LM set. */
  lemma ResetDecodes(s: DCacheState)
    ensures var s' := Controlled(s, DC_CTRL_RESET); s'.enabled && s'.im && s'.lm && s'.ctrlRaw == 0xC2
  {
  }
}
