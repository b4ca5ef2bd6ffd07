/** The arithmetic unit's results and flags, and the condition codes that read them. */
module Alu {
  import opened Words

  datatype Flags = Flags(z: bool, n: bool, c: bool, v: bool)

  datatype Condition = AL | EQ | NE | PL | MI | CS | CC | VS | VC | GT | GE | LT | LE | HI | LS | PNZ

  predicate Evaluate(cc: Condition, f: Flags) {
    match cc
    case AL => true
    case EQ => f.z
    case NE => !f.z
    case PL => !f.n
    case MI => f.n
    case CS => f.c
    case CC => !f.c
    case VS => f.v
    case VC => !f.v
    case GT => (f.n && f.v && !f.z) || (!f.n && !f.v && !f.z)
    case GE => (f.n && f.v) || (!f.n && !f.v)
    case LT => (f.n && !f.v) || (!f.n && f.v)
    case LE => f.z || (f.n && !f.v) || (!f.n && f.v)
    case HI => !f.c && !f.z
    case LS => f.c || f.z
    case PNZ => !f.n && !f.z
  }

  datatype AluOp =
    | Add | Adc | Sub | Cmp | Sbc | Rsub | Rcmp | Max | Min | Mov | Btst | AddShifted(shift: nat) | SubShifted(shift: nat)

  /** Bit 31. */
  predicate Negative(x: u32) { x >= 0x8000_0000 }

  /** Bit 0 of `val >> i`. */
  predicate BitAt(val: nat, i: nat)
    decreases i
  {
    if i == 0 then val % 2 == 1 else BitAt(val / 2, i - 1)
  }

  function Signed(x: u32): int { if Negative(x) then x - 0x1_0000_0000 else x }

  function Bit(b: bool): nat { if b then 1 else 0 }

  /** A result with its carry and overflow; `compared` replaces the result when Z and N come from elsewhere. */
  datatype AluResult = AluResult(result: u32, carry: Option<bool>, overflow: Option<bool>, compared: Option<u32>)

  // Bit 31 of ((a ^ r) & (b ^ r)) and of ((a ^ b) & (a ^ r)).
  predicate AddOverflow(a: u32, b: u32, r: u32) { Negative(a) != Negative(r) && Negative(b) != Negative(r) }
  predicate SubOverflow(a: u32, b: u32, r: u32) { Negative(a) != Negative(b) && Negative(a) != Negative(r) }

  function Added(a: u32, b: u32, carryIn: bool): AluResult {
    var r1, c1 := Wrap(a + b), a + b >= 0x1_0000_0000;
    var r, c2 := Wrap(r1 + Bit(carryIn)), r1 + Bit(carryIn) >= 0x1_0000_0000;
    AluResult(r, Some(c1 || c2), Some(AddOverflow(a, b, r)), None)
  }

  /** The carry flag is the borrow. */
  function Subtracted(a: u32, b: u32, borrowIn: bool): AluResult {
    var r1, b1 := Wrap(a - b), a < b;
    var r, b2 := Wrap(r1 - Bit(borrowIn)), r1 < Bit(borrowIn);
    AluResult(r, Some(b1 || b2), Some(SubOverflow(a, b, r)), None)
  }

  function Compute(op: AluOp, a: u32, b: u32, carryIn: bool): AluResult {
    match op
    case Add => Added(a, b, false)
    case Adc => Added(a, b, carryIn)
    case Sub => Subtracted(a, b, false)
    case Cmp => Subtracted(a, b, false)
    case Sbc => Subtracted(a, b, carryIn)
    case Rsub => Subtracted(b, a, false)
    case Rcmp => Subtracted(b, a, false)
    case Max =>
      var d := Subtracted(a, b, false);
      d.(result := if Signed(a) >= Signed(b) then a else b, compared := Some(d.result))
    case Min =>
      var d := Subtracted(a, b, false);
      d.(result := if Signed(a) <= Signed(b) then a else b, compared := Some(d.result))
    case Mov => AluResult(b, None, None, None)
    case Btst => AluResult(BitOnly(a, b % 32), None, None, None)
    case AddShifted(k) => Added(a, Wrap(b * Power2(k)), false)
    case SubShifted(k) => Subtracted(a, Wrap(b * Power2(k)), false)
  }

  function Power2(k: nat): nat { if k == 0 then 1 else 2 * Power2(k - 1) }

  /** `a` masked to bit `k`. */
  function BitOnly(a: nat, k: nat): (r: nat)
    ensures r <= a && (r == 0 <==> !BitAt(a, k))
    decreases k
  {
    if k == 0 then a % 2 else 2 * BitOnly(a / 2, k - 1)
  }

  function FlagsAfter(r: AluResult, f: Flags): Flags {
    var zn := if r.compared.Some? then r.compared.value else r.result;
    Flags(zn == 0, Negative(zn),
          if r.carry.Some? then r.carry.value else f.c,
          if r.overflow.Some? then r.overflow.value else f.v)
  }

  // ----- Comparison -----

  /** The relation a condition names after a compare. */
  predicate Relation(cc: Condition, a: u32, b: u32)
    requires cc in {EQ, NE, GT, GE, LT, LE, HI, LS, CS, CC}
  {
    match cc
    case EQ => a == b
    case NE => a != b
    case GT => Signed(a) > Signed(b)
    case GE => Signed(a) >= Signed(b)
    case LT => Signed(a) < Signed(b)
    case LE => Signed(a) <= Signed(b)
    case HI => a > b
    case LS => a <= b
    case CS => a < b
    case _ => a >= b
  }

  /** CMP.F followed by a condition decides the signed or unsigned comparison the condition names; MAX and MIN
      leave the same flags. */
  lemma CompareDecides(cc: Condition, a: u32, b: u32, carryIn: bool, f: Flags)
    requires cc in {EQ, NE, GT, GE, LT, LE, HI, LS, CS, CC}
    ensures Evaluate(cc, FlagsAfter(Compute(Cmp, a, b, carryIn), f)) <==> Relation(cc, a, b)
    ensures Evaluate(cc, FlagsAfter(Compute(Max, a, b, carryIn), f)) <==> Relation(cc, a, b)
    ensures Evaluate(cc, FlagsAfter(Compute(Min, a, b, carryIn), f)) <==> Relation(cc, a, b)
    ensures Evaluate(cc, FlagsAfter(Compute(Rcmp, b, a, carryIn), f)) <==> Relation(cc, a, b)
  {
    SubtractedValue(a, b, false);
  }

  lemma AddedValue(a: u32, b: u32, c: bool)
    ensures var r := Added(a, b, c);
            && r.result + Bit(r.carry.value) * 0x1_0000_0000 == a + b + Bit(c)
            && (r.overflow.value <==> !(-0x8000_0000 <= Signed(a) + Signed(b) + Bit(c) < 0x8000_0000))
  {
    var s := a + b;
    assert Wrap(s) == if s >= 0x1_0000_0000 then s - 0x1_0000_0000 else s;
    var t := Wrap(s) + Bit(c);
    assert Wrap(t) == if t >= 0x1_0000_0000 then t - 0x1_0000_0000 else t;
  }

  /** Borrow and overflow are those of the exact difference, and N xor V is its sign. */
  lemma SubtractedValue(a: u32, b: u32, c: bool)
    ensures var r := Subtracted(a, b, c);
            && r.result == a - b - Bit(c) + Bit(r.carry.value) * 0x1_0000_0000
            && (r.overflow.value <==> !(-0x8000_0000 <= Signed(a) - Signed(b) - Bit(c) < 0x8000_0000))
            && (Negative(r.result) != r.overflow.value <==> Signed(a) - Signed(b) - Bit(c) < 0)
  {
    var d := a - b;
    assert Wrap(d) == if d < 0 then d + 0x1_0000_0000 else d;
    var t := Wrap(d) - Bit(c);
    assert Wrap(t) == if t < 0 then t + 0x1_0000_0000 else t;
  }

  // ----- Every operation in figures -----

  /** What each operation delivers, of its operands as numbers. */
  lemma ResultsAre(a: u32, b: u32, c: bool)
    ensures Compute(Add, a, b, c).result == (a + b) % 0x1_0000_0000
    ensures Compute(Adc, a, b, c).result == (a + b + Bit(c)) % 0x1_0000_0000
    ensures Compute(Sub, a, b, c).result == Compute(Cmp, a, b, c).result == (a - b) % 0x1_0000_0000
    ensures Compute(Sbc, a, b, c).result == (a - b - Bit(c)) % 0x1_0000_0000
    ensures Compute(Rsub, a, b, c).result == Compute(Rcmp, a, b, c).result == (b - a) % 0x1_0000_0000
    ensures Compute(Mov, a, b, c).result == b
  {
    SumWraps(a, b, c);
    SumWraps(a, b, false);
    DifferenceWraps(a, b, c);
    DifferenceWraps(a, b, false);
    DifferenceWraps(b, a, false);
    hide Added, Subtracted, BitOnly, Power2;
  }

  /** ADD1 to ADD3 and SUB1 to SUB3 scale the second operand by 2, 4 and 8. */
  lemma ShiftedResultsAre(a: u32, b: u32, c: bool)
    ensures Compute(AddShifted(1), a, b, c).result == (a + 2 * b) % 0x1_0000_0000
    ensures Compute(AddShifted(2), a, b, c).result == (a + 4 * b) % 0x1_0000_0000
    ensures Compute(AddShifted(3), a, b, c).result == (a + 8 * b) % 0x1_0000_0000
    ensures Compute(SubShifted(1), a, b, c).result == (a - 2 * b) % 0x1_0000_0000
    ensures Compute(SubShifted(2), a, b, c).result == (a - 4 * b) % 0x1_0000_0000
    ensures Compute(SubShifted(3), a, b, c).result == (a - 8 * b) % 0x1_0000_0000
  {
    hide *;
    SmallPowers();
    ShiftedBy(a, b, c, 1, 2);
    ShiftedBy(a, b, c, 2, 4);
    ShiftedBy(a, b, c, 3, 8);
  }

  lemma SmallPowers()
    ensures Power2(1) == 2 && Power2(2) == 4 && Power2(3) == 8
  {
  }

  lemma ShiftedBy(a: u32, b: u32, c: bool, k: nat, scale: nat)
    requires scale == Power2(k)
    ensures Compute(AddShifted(k), a, b, c).result == (a + scale * b) % 0x1_0000_0000
    ensures Compute(SubShifted(k), a, b, c).result == (a - scale * b) % 0x1_0000_0000
  {
    hide Added, Subtracted, Power2, Wrap;
    var x: nat := scale * b;
    assert b * Power2(k) == x;
    ScaledWraps(a, x);
  }

  lemma SumWraps(a: u32, b: u32, c: bool)
    ensures Added(a, b, c).result == (a + b + Bit(c)) % 0x1_0000_0000
  {
    hide AddOverflow;
  }

  lemma DifferenceWraps(a: u32, b: u32, c: bool)
    ensures Subtracted(a, b, c).result == (a - b - Bit(c)) % 0x1_0000_0000
  {
    hide SubOverflow;
  }

  /** Cutting the second operand to 32 bits does not change the sum of that width. */
  lemma ScaledWraps(a: u32, x: nat)
    ensures Added(a, Wrap(x), false).result == (a + x) % 0x1_0000_0000
    ensures Subtracted(a, Wrap(x), false).result == (a - x) % 0x1_0000_0000
  {
    SumWraps(a, Wrap(x), false);
    DifferenceWraps(a, Wrap(x), false);
    hide Added, Subtracted;
    var q := x / 0x1_0000_0000;
    SameResidue(a + Wrap(x), q);
    SameResidue(a - Wrap(x) - q * 0x1_0000_0000, q);
  }

  lemma SameResidue(x: int, q: nat)
    ensures (x + q * 0x1_0000_0000) % 0x1_0000_0000 == x % 0x1_0000_0000
  {
  }

  /** MAX and MIN deliver an operand that bounds both, as signed numbers. */
  lemma BoundsAre(a: u32, b: u32, c: bool)
    ensures var hi, lo := Compute(Max, a, b, c).result, Compute(Min, a, b, c).result;
            && (hi == a || hi == b) && Signed(hi) >= Signed(a) && Signed(hi) >= Signed(b)
            && (lo == a || lo == b) && Signed(lo) <= Signed(a) && Signed(lo) <= Signed(b)
  {
    hide Subtracted;
  }

  /** Carry and overflow of the operations with operands exchanged or shifted are those of the plain ones on what is
      added or subtracted. */
  lemma FlagsAreThoseOf(a: u32, b: u32, c: bool, f: Flags, k: nat)
    ensures FlagsAfter(Compute(Rsub, a, b, c), f) == FlagsAfter(Compute(Sub, b, a, c), f)
    ensures FlagsAfter(Compute(Rcmp, a, b, c), f) == FlagsAfter(Compute(Cmp, b, a, c), f)
    ensures FlagsAfter(Compute(AddShifted(k), a, b, c), f) == FlagsAfter(Compute(Add, a, Wrap(b * Power2(k)), c), f)
    ensures FlagsAfter(Compute(SubShifted(k), a, b, c), f) == FlagsAfter(Compute(Sub, a, Wrap(b * Power2(k)), c), f)
  {
    hide Added, Subtracted, Wrap;
  }

  /** MOV and BTST set Z and N, of the operand and of the bit tested, and leave C and V alone. */
  lemma FlagsOfMovAndBtst(a: u32, b: u32, c: bool, f: Flags)
    ensures FlagsAfter(Compute(Mov, a, b, c), f) == Flags(b == 0, b >= 0x8000_0000, f.c, f.v)
    ensures FlagsAfter(Compute(Btst, a, b, c), f) == Flags(!BitAt(a, b % 32), b % 32 == 31 && BitAt(a, 31), f.c, f.v)
  {
    hide BitOnly, BitAt, Power2, Added, Subtracted;
    BitOnlyIs(a, b % 32);
    if b % 32 < 31 {
      PowersGrow(b % 32, 30);
    }
    TopPowers();
  }

  lemma TopPowers()
    ensures Power2(30) == 0x4000_0000 && Power2(31) == 0x8000_0000
  {
    assert Power2(8) == 0x100;
    assert Power2(16) == 0x1_0000;
    assert Power2(24) == 0x100_0000;
    assert Power2(30) == 0x4000_0000;
  }

  lemma {:induction false} BitOnlyIs(a: nat, k: nat)
    ensures BitOnly(a, k) == if BitAt(a, k) then Power2(k) else 0
    decreases k
  {
    if k > 0 {
      BitOnlyIs(a / 2, k - 1);
    }
  }

  lemma {:induction false} PowersGrow(j: nat, k: nat)
    requires j <= k
    ensures Power2(j) <= Power2(k)
    decreases k
  {
    if j < k {
      PowersGrow(j, k - 1);
    }
  }

  /** The conditions that name a flag or a sign, after an addition: PL and MI the sign of the result, VS and VC whether the
      exact signed sum fits, CS and CC whether the unsigned one does, PNZ a positive result. */
  lemma SignsAfterAdd(a: u32, b: u32, f: Flags)
    ensures var g, exact, r := FlagsAfter(Compute(Add, a, b, false), f), Signed(a) + Signed(b), (a + b) % 0x1_0000_0000;
            && (Evaluate(VS, g) <==> !(-0x8000_0000 <= exact < 0x8000_0000)) && (Evaluate(VC, g) <==> !Evaluate(VS, g))
            && (Evaluate(CS, g) <==> a + b >= 0x1_0000_0000) && (Evaluate(CC, g) <==> !Evaluate(CS, g))
            && (Evaluate(MI, g) <==> r >= 0x8000_0000) && (Evaluate(PL, g) <==> !Evaluate(MI, g))
            && (Evaluate(EQ, g) <==> r == 0) && (Evaluate(NE, g) <==> !Evaluate(EQ, g))
            && (Evaluate(PNZ, g) <==> 0 < r < 0x8000_0000) && Evaluate(AL, g)
  {
    AddedValue(a, b, false);
    SumWraps(a, b, false);
    AddedHasFlags(a, b, false);
    hide Added, Signed;
  }

  lemma AddedHasFlags(a: u32, b: u32, c: bool)
    ensures var r := Added(a, b, c); r.carry.Some? && r.overflow.Some? && r.compared.None?
  {
  }

  // ----- Multi-limb arithmetic -----

  /** 2^(32 n). */
  function Base(n: nat): nat {
    if n == 0 then 1 else 0x1_0000_0000 * Base(n - 1)
  }

  /** What a final carry or borrow is worth above `n` limbs. */
  function CarryOut(c: bool, n: nat): nat { if c then Base(n) else 0 }

  /** The number held in 32-bit limbs, least significant first. */
  function Value(limbs: seq<u32>): nat {
    if limbs == [] then 0 else limbs[0] + 0x1_0000_0000 * Value(limbs[1..])
  }

  /** The same limbs read as two's complement. */
  function SignedValue(limbs: seq<u32>): int
    requires limbs != []
  {
    Value(limbs) - if Negative(limbs[|limbs| - 1]) then Base(|limbs|) else 0
  }

  /** ADD.F on the lowest limb then ADC.F upwards, or SUB.F then SBC.F, threading the flags. */
  function Chain(first: AluOp, rest: AluOp, xs: seq<u32>, ys: seq<u32>, f: Flags): (seq<u32>, Flags)
    requires |xs| == |ys|
    decreases |xs|
  {
    if xs == [] then ([], f)
    else
      var r := Compute(first, xs[0], ys[0], f.c);
      var (rs, f') := Chain(rest, rest, xs[1..], ys[1..], FlagsAfter(r, f));
      ([r.result] + rs, f')
  }

  lemma LimbOnTop(x: u32, rest: seq<u32>)
    ensures Value([x] + rest) == x + 0x1_0000_0000 * Value(rest)
  {
    assert ([x] + rest)[1..] == rest;
  }

  lemma {:induction false} AdcChain(xs: seq<u32>, ys: seq<u32>, f: Flags)
    requires |xs| == |ys|
    ensures var (rs, f') := Chain(Adc, Adc, xs, ys, f);
            && |rs| == |xs|
            && Value(rs) + CarryOut(f'.c, |xs|) == Value(xs) + Value(ys) + Bit(f.c)
    decreases |xs|
  {
    if xs != [] {
      var r := Compute(Adc, xs[0], ys[0], f.c);
      AddedValue(xs[0], ys[0], f.c);
      hide Added, Evaluate;
      AdcChain(xs[1..], ys[1..], FlagsAfter(r, f));
      LimbOnTop(r.result, Chain(Adc, Adc, xs[1..], ys[1..], FlagsAfter(r, f)).0);
    }
  }

  /** ADD.F then ADC.F computes the exact sum of numbers of any length, with the final carry. */
  lemma MultiLimbAdd(xs: seq<u32>, ys: seq<u32>, f: Flags)
    requires |xs| == |ys| && xs != []
    ensures var (rs, f') := Chain(Add, Adc, xs, ys, f);
            && |rs| == |xs|
            && Value(rs) + CarryOut(f'.c, |xs|) == Value(xs) + Value(ys)
  {
    AdcChain(xs, ys, f.(c := false));
  }

  lemma {:induction false} SbcChain(xs: seq<u32>, ys: seq<u32>, f: Flags)
    requires |xs| == |ys|
    ensures var (rs, f') := Chain(Sbc, Sbc, xs, ys, f);
            && |rs| == |xs|
            && Value(rs) == Value(xs) - Value(ys) - Bit(f.c) + CarryOut(f'.c, |xs|)
    decreases |xs|
  {
    if xs != [] {
      var r := Compute(Sbc, xs[0], ys[0], f.c);
      SubtractedValue(xs[0], ys[0], f.c);
      hide Subtracted, Evaluate;
      SbcChain(xs[1..], ys[1..], FlagsAfter(r, f));
      LimbOnTop(r.result, Chain(Sbc, Sbc, xs[1..], ys[1..], FlagsAfter(r, f)).0);
    }
  }

  lemma {:induction false} ValueBound(xs: seq<u32>)
    ensures Value(xs) < Base(|xs|)
  {
    if xs != [] {
      ValueBound(xs[1..]);
    }
  }

  lemma SignedValueTail(xs: seq<u32>)
    requires |xs| > 1
    ensures SignedValue(xs) == xs[0] + 0x1_0000_0000 * SignedValue(xs[1..])
  {
    assert xs[1..][|xs| - 2] == xs[|xs| - 1];
  }

  /** After the top SBC limb, N xor V is the sign of the signed difference of the whole numbers. */
  lemma {:induction false} SbcChainSign(xs: seq<u32>, ys: seq<u32>, f: Flags)
    requires |xs| == |ys| && xs != []
    ensures Evaluate(LT, Chain(Sbc, Sbc, xs, ys, f).1) <==> SignedValue(xs) - SignedValue(ys) - Bit(f.c) < 0
    decreases |xs|
  {
    SubtractedValue(xs[0], ys[0], f.c);
    var f1 := FlagsAfter(Compute(Sbc, xs[0], ys[0], f.c), f);
    if |xs| == 1 {
      assert Chain(Sbc, Sbc, xs[1..], ys[1..], f1).1 == f1;
      assert SignedValue(xs) == Signed(xs[0]) && SignedValue(ys) == Signed(ys[0]);
    } else {
      SignedValueTail(xs);
      SignedValueTail(ys);
      SbcChainSign(xs[1..], ys[1..], f1);
    }
  }

  /** SUB.F then SBC.F computes the exact difference with the final borrow, and LT then decides the signed
      comparison of the whole numbers, CS the unsigned one. */
  lemma MultiLimbSubtract(xs: seq<u32>, ys: seq<u32>, f: Flags)
    requires |xs| == |ys| && xs != []
    ensures var (rs, f') := Chain(Sub, Sbc, xs, ys, f);
            && |rs| == |xs|
            && Value(rs) == Value(xs) - Value(ys) + CarryOut(f'.c, |xs|)
            && (Evaluate(CS, f') <==> Value(xs) < Value(ys))
            && (Evaluate(LT, f') <==> SignedValue(xs) < SignedValue(ys))
  {
    var g := f.(c := false);
    SubIsSbcWithoutBorrow(xs, ys, f);
    hide Chain, Value, SignedValue;
    SbcChain(xs, ys, g);
    SbcChainSign(xs, ys, g);
    ValueBound(xs);
    ValueBound(ys);
    ValueBound(Chain(Sbc, Sbc, xs, ys, g).0);
  }

  lemma SubIsSbcWithoutBorrow(xs: seq<u32>, ys: seq<u32>, f: Flags)
    requires |xs| == |ys| && xs != []
    ensures Chain(Sub, Sbc, xs, ys, f) == Chain(Sbc, Sbc, xs, ys, f.(c := false))
  {
  }
}
