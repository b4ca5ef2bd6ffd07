/** Decoding inverts encoding. Instruction words are put together here by arithmetic from their fields, and every form's
    word is shown to decode to the operands it was made of. */
module Encodings {
  import opened Words
  import opened Decoder
  import Alu

  // ----- A field of a sum -----

  lemma {:induction false} ShiftedIs(low: nat, x: nat, lo: nat)
    requires low < Alu.Power2(lo)
    ensures Shifted(low + Alu.Power2(lo) * x, lo) == x
    decreases lo
  {
    if lo > 0 {
      var p: nat := Alu.Power2(lo - 1);
      var y: nat := p * x;
      assert Alu.Power2(lo) * x == 2 * y;
      assert (low + 2 * y) / 2 == low / 2 + y;
      ShiftedIs(low / 2, x, lo - 1);
    }
  }

  lemma {:induction false} LowIs(f: nat, x: nat, width: nat)
    requires f < Alu.Power2(width)
    ensures Low(f + Alu.Power2(width) * x, width) == f
    decreases width
  {
    if width > 0 {
      var p: nat := Alu.Power2(width - 1);
      var y: nat := p * x;
      assert Alu.Power2(width) * x == 2 * y;
      assert (f + 2 * y) / 2 == f / 2 + y && (f + 2 * y) % 2 == f % 2;
      LowIs(f / 2, x, width - 1);
    }
  }

  /** What stands between `low` and `above` in a word is its field. */
  lemma FieldIs(w: nat, hi: nat, lo: nat, low: nat, f: nat, above: nat, scale: nat, size: nat)
    requires lo <= hi && scale == Alu.Power2(lo) && size == Alu.Power2(hi - lo + 1)
    requires low < scale && f < size && w == low + scale * (f + size * above)
    ensures Bits(w, hi, lo) == f
  {
    ShiftedIs(low, f + size * above, lo);
    LowIs(f, above, hi - lo + 1);
    hide Shifted, Low, Alu.Power2;
  }

  lemma Powers()
    ensures Alu.Power2(1) == 2 && Alu.Power2(2) == 4 && Alu.Power2(3) == 8 && Alu.Power2(4) == 0x10 && Alu.Power2(5) == 0x20
    ensures Alu.Power2(6) == 0x40 && Alu.Power2(7) == 0x80 && Alu.Power2(8) == 0x100 && Alu.Power2(9) == 0x200
    ensures Alu.Power2(10) == 0x400 && Alu.Power2(11) == 0x800 && Alu.Power2(12) == 0x1000 && Alu.Power2(15) == 0x8000
    ensures Alu.Power2(16) == 0x1_0000 && Alu.Power2(17) == 0x2_0000 && Alu.Power2(18) == 0x4_0000 && Alu.Power2(0) == 1
    ensures Alu.Power2(22) == 0x40_0000 && Alu.Power2(24) == 0x100_0000 && Alu.Power2(27) == 0x800_0000
  {
  }

  // ----- The common layout -----

  /** The fields of a 32-bit instruction: the major opcode, register B in two parts, P, the sub-opcode, F, C and A. */
  datatype Fields = Fields(major: nat, b: nat, p: nat, sub: nat, flag: nat, c: nat, a: nat)
  {
    predicate Fit() { major < 32 && b < 64 && p < 4 && sub < 64 && flag < 2 && c < 64 && a < 64 }
  }

  function WordOf(x: Fields): nat {
    x.major * 0x800_0000 + (x.b % 8) * 0x100_0000 + x.p * 0x40_0000 + x.sub * 0x1_0000 + x.flag * 0x8000
    + (x.b / 8) * 0x1000 + x.c * 0x40 + x.a
  }

  /** The word's fields are its fields. */
  lemma FieldsOf(x: Fields)
    requires x.Fit()
    ensures var w := WordOf(x);
            && Bits(w, 31, 27) == x.major && Bits(w, 26, 24) == x.b % 8 && Bits(w, 23, 22) == x.p
            && Bits(w, 21, 16) == x.sub && Bits(w, 15, 15) == x.flag && Bits(w, 14, 12) == x.b / 8
            && Bits(w, 11, 6) == x.c && Bits(w, 5, 0) == x.a
  {
    hide *;
    UpperFields(x);
    LowerFields(x);
  }

  lemma UpperFields(x: Fields)
    requires x.Fit()
    ensures var w := WordOf(x);
            Bits(w, 31, 27) == x.major && Bits(w, 26, 24) == x.b % 8 && Bits(w, 23, 22) == x.p && Bits(w, 21, 16) == x.sub
  {
    hide Bits, Alu.Power2;
    Powers();
    var w := WordOf(x);
    var l15 := x.flag * 0x8000 + (x.b / 8) * 0x1000 + x.c * 0x40 + x.a;
    assert l15 < 0x1_0000;
    var l21 := x.sub * 0x1_0000 + l15;
    var l23 := x.p * 0x40_0000 + l21;
    FieldIs(w, 31, 27, (x.b % 8) * 0x100_0000 + l23, x.major, 0, 0x800_0000, 0x20);
    FieldIs(w, 26, 24, l23, x.b % 8, x.major, 0x100_0000, 8);
    FieldIs(w, 23, 22, l21, x.p, x.major * 8 + x.b % 8, 0x40_0000, 4);
    FieldIs(w, 21, 16, l15, x.sub, (x.major * 8 + x.b % 8) * 4 + x.p, 0x1_0000, 0x40);
  }

  lemma LowerFields(x: Fields)
    requires x.Fit()
    ensures var w := WordOf(x);
            Bits(w, 15, 15) == x.flag && Bits(w, 14, 12) == x.b / 8 && Bits(w, 11, 6) == x.c && Bits(w, 5, 0) == x.a
  {
    hide Bits, Alu.Power2;
    Powers();
    var w := WordOf(x);
    var l11, high := x.c * 0x40 + x.a, ((x.major * 8 + x.b % 8) * 4 + x.p) * 0x40 + x.sub;
    assert l11 < 0x1000;
    FieldIs(w, 15, 15, (x.b / 8) * 0x1000 + l11, x.flag, high, 0x8000, 2);
    FieldIs(w, 14, 12, l11, x.b / 8, high * 2 + x.flag, 0x1000, 8);
    FieldIs(w, 11, 6, x.a, x.c, (high * 2 + x.flag) * 8 + x.b / 8, 0x40, 0x40);
    FieldIs(w, 5, 0, 0, x.a, ((high * 2 + x.flag) * 8 + x.b / 8) * 0x40 + x.c, 1, 0x40);
  }

  // Smaller fields inside A, C and the middle of the word, each from where it stands.

  lemma ConditionFields(w: nat, a: nat, rest: nat)
    requires w == a + 0x40 * rest && a < 0x40
    ensures Bits(w, 5, 5) == a / 32 && Bits(w, 4, 0) == a % 32
  {
    hide Bits, Alu.Power2;
    Powers();
    FieldIs(w, 5, 5, a % 32, a / 32, rest, 0x20, 2);
    FieldIs(w, 4, 0, 0, a % 32, rest * 2 + a / 32, 1, 0x20);
  }

  lemma KindFields(w: nat, a: nat, rest: nat)
    requires w == a + 0x40 * rest && a < 0x40
    ensures Bits(w, 4, 4) == a / 16 % 2 && Bits(w, 3, 0) == a % 16
  {
    hide Bits, Alu.Power2;
    Powers();
    FieldIs(w, 4, 4, a % 16, a / 16 % 2, rest * 2 + a / 32, 0x10, 2);
    FieldIs(w, 3, 0, 0, a % 16, rest * 4 + a / 16, 1, 0x10);
  }

  lemma StoreModeFields(w: nat, a: nat, rest: nat)
    requires w == a + 0x40 * rest && a < 0x40
    ensures Bits(w, 4, 3) == a / 8 % 4 && Bits(w, 2, 1) == a / 2 % 4
  {
    hide Bits, Alu.Power2;
    Powers();
    FieldIs(w, 4, 3, a % 8, a / 8 % 4, rest * 2 + a / 32, 8, 4);
    FieldIs(w, 2, 1, a % 2, a / 2 % 4, rest * 8 + a / 8, 2, 4);
  }

  lemma LoadModeField(w: nat, a: nat, c: nat, rest: nat)
    requires w == a + 0x40 * (c + 0x40 * rest) && a < 0x40 && c < 0x40
    ensures Bits(w, 10, 9) == c / 8 % 4
  {
    hide Bits, Alu.Power2;
    Powers();
    FieldIs(w, 10, 9, c % 8 * 0x40 + a, c / 8 % 4, c / 32 + 2 * rest, 0x200, 4);
  }

  lemma LoadSizeField(w: nat, a: nat, c: nat, rest: nat)
    requires w == a + 0x40 * (c + 0x40 * rest) && a < 0x40 && c < 0x40
    ensures Bits(w, 8, 7) == c / 2 % 4
  {
    hide Bits, Alu.Power2;
    Powers();
    assert c == c % 2 + 2 * (c / 2 % 4 + 4 * (c / 8));
    FieldIs(w, 8, 7, c % 2 * 0x40 + a, c / 2 % 4, c / 8 + 8 * rest, 0x80, 4);
  }

  /** Fields that join C, B's upper part and F. */
  lemma FieldsInLow(w: nat, a: nat, low: nat, rest: nat)
    requires w == a + 0x40 * (low + 0x400 * rest) && a < 0x40 && low < 0x400
    ensures Bits(w, 15, 6) == low
  {
    hide Bits, Alu.Power2;
    Powers();
    FieldIs(w, 15, 6, a, low, rest, 0x40, 0x400);
  }

  lemma OffsetFields(w: nat, low: nat, mid: nat, high: nat)
    requires w == low + 0x1_0000 * (mid + 0x100 * high) && low < 0x1_0000 && mid < 0x100
    ensures Bits(w, 23, 16) == mid && Bits(w, 23, 17) == mid / 2
  {
    hide Bits, Alu.Power2;
    Powers();
    FieldIs(w, 23, 16, low, mid, high, 0x1_0000, 0x100);
    FieldIs(w, 23, 17, mid % 2 * 0x1_0000 + low, mid / 2, high, 0x2_0000, 0x80);
  }

  lemma SelectorFields(w: nat, low: nat, mid: nat, high: nat)
    requires w == low + 0x1_0000 * (mid + 0x100 * high) && low < 0x1_0000 && mid < 0x100
    ensures Bits(w, 16, 16) == mid % 2 && Bits(w, 17, 17) == mid / 2 % 2
  {
    hide Bits, Alu.Power2;
    Powers();
    FieldIs(w, 16, 16, low, mid % 2, mid / 2 + 0x80 * high, 0x1_0000, 2);
    FieldIs(w, 17, 17, mid % 2 * 0x1_0000 + low, mid / 2 % 2, mid / 4 + 0x40 * high, 0x2_0000, 2);
  }

  lemma RegisterSizeField(w: nat, low: nat, mid: nat, high: nat)
    requires w == low + 0x1_0000 * (mid + 0x100 * high) && low < 0x1_0000 && mid < 0x100
    ensures Bits(w, 18, 17) == mid / 2 % 4
  {
    hide Bits, Alu.Power2;
    Powers();
    FieldIs(w, 18, 17, mid % 2 * 0x1_0000 + low, mid / 2 % 4, mid / 8 + 0x20 * high, 0x2_0000, 4);
  }

  lemma HalfWordField(w: nat, low: nat, mid: nat, b: nat, major: nat)
    requires w == low + 0x1_0000 * (mid + 0x100 * (b + 8 * major)) && low < 0x1_0000 && mid < 0x100 && b < 8
    ensures Bits(w, 26, 17) == b * 0x80 + mid / 2
  {
    hide Bits, Alu.Power2;
    Powers();
    FieldIs(w, 26, 17, mid % 2 * 0x1_0000 + low, b * 0x80 + mid / 2, major, 0x2_0000, 0x400);
  }

  lemma LongwordField(w: nat, low: nat, mid: nat, b: nat, major: nat)
    requires w == low + 0x1_0000 * (mid + 0x100 * (b + 8 * major)) && low < 0x1_0000 && mid < 0x100 && b < 8
    ensures Bits(w, 26, 18) == b * 0x40 + mid / 4
  {
    hide Bits, Alu.Power2;
    Powers();
    FieldIs(w, 26, 18, mid % 4 * 0x1_0000 + low, b * 0x40 + mid / 4, major, 0x4_0000, 0x200);
  }

  /** All of them, of a word in the common layout. */
  lemma FieldsWithin(x: Fields)
    requires x.Fit()
    ensures var w := WordOf(x);
            && Bits(w, 5, 5) == x.a / 32 && Bits(w, 4, 0) == x.a % 32 && Bits(w, 4, 4) == x.a / 16 % 2
            && Bits(w, 3, 0) == x.a % 16 && Bits(w, 4, 3) == x.a / 8 % 4 && Bits(w, 2, 1) == x.a / 2 % 4
            && Bits(w, 10, 9) == x.c / 8 % 4 && Bits(w, 8, 7) == x.c / 2 % 4
            && Bits(w, 15, 6) == x.flag * 0x200 + (x.b / 8) * 0x40 + x.c
    ensures var w, mid := WordOf(x), x.p * 0x40 + x.sub;
            && Bits(w, 23, 16) == mid && Bits(w, 23, 17) == mid / 2 && Bits(w, 16, 16) == mid % 2
            && Bits(w, 17, 17) == mid / 2 % 2 && Bits(w, 18, 17) == mid / 2 % 4
            && Bits(w, 26, 17) == (x.b % 8) * 0x80 + mid / 2 && Bits(w, 26, 18) == (x.b % 8) * 0x40 + mid / 4
  {
    hide *;
    WordSplits(x);
    var w, mid, bl := WordOf(x), x.p * 0x40 + x.sub, x.b % 8;
    var low, up := x.flag * 0x200 + (x.b / 8) * 0x40 + x.c, x.flag * 8 + x.b / 8;
    var high := mid + 0x100 * (bl + 8 * x.major);
    ConditionFields(w, x.a, low + 0x400 * high);
    KindFields(w, x.a, low + 0x400 * high);
    StoreModeFields(w, x.a, low + 0x400 * high);
    LoadModeField(w, x.a, x.c, up + 0x10 * high);
    LoadSizeField(w, x.a, x.c, up + 0x10 * high);
    FieldsInLow(w, x.a, low, high);
    OffsetFields(w, x.a + 0x40 * low, mid, bl + 8 * x.major);
    SelectorFields(w, x.a + 0x40 * low, mid, bl + 8 * x.major);
    RegisterSizeField(w, x.a + 0x40 * low, mid, bl + 8 * x.major);
    HalfWordField(w, x.a + 0x40 * low, mid, bl, x.major);
    LongwordField(w, x.a + 0x40 * low, mid, bl, x.major);
  }

  /** The word in two and in three parts. */
  lemma WordSplits(x: Fields)
    requires x.Fit()
    ensures var mid, bl := x.p * 0x40 + x.sub, x.b % 8;
            var low, up := x.flag * 0x200 + (x.b / 8) * 0x40 + x.c, x.flag * 8 + x.b / 8;
            var high := mid + 0x100 * (bl + 8 * x.major);
            && x.a < 0x40 && x.c < 0x40 && low < 0x400 && mid < 0x100 && bl < 8 && x.a + 0x40 * low < 0x1_0000
            && WordOf(x) == x.a + 0x40 * (low + 0x400 * high) == x.a + 0x40 * low + 0x1_0000 * high
            && low + 0x400 * high == x.c + 0x40 * (up + 0x10 * high)
  {
  }

  // ----- What a decode should give -----

  /** The fetcher has this long immediate behind a 32-bit instruction at `pc`. */
  ghost predicate Supplies(f: Fetcher, pc: u32, limm: nat) { f.word(Wrap(pc + 4)) == MemorySystem.Ok(limm) }

  /** A register field read as a source: register 62 stands for the long immediate. */
  function Src(r: nat, limm: nat): Operand { if r == 62 then Imm(limm) else Reg(r) }

  /** The instruction decoded. */
  predicate Gives(d: Decoded, form: Form, w: nat, pc: u32, hasLimm: bool, operands: seq<Operand>) {
    d == Insn(form, w, operands, 4, hasLimm, pc)
  }

  /** Sign extension of the widths the forms use. */
  lemma SignIs(s: int, half: nat)
    requires half in {0x100, 0x800, 0x10_0000, 0x100_0000} && s + half >= 0 && s < half
    ensures SignExtended(s % (2 * half), half) == s % 0x1_0000_0000
  {
    if half == 0x100 {
      assert s % 0x200 == if s < 0 then s + 0x200 else s;
    } else if half == 0x800 {
      assert s % 0x1000 == if s < 0 then s + 0x1000 else s;
    } else if half == 0x10_0000 {
      assert s % 0x20_0000 == if s < 0 then s + 0x20_0000 else s;
    } else {
      assert s % 0x200_0000 == if s < 0 then s + 0x200_0000 else s;
    }
  }

  lemma Resolved1(x: Slot, limm: nat)
    ensures ResolveAll([x], limm) == [Resolve(x, limm)] && ResolveAll([], limm) == []
  {
    assert [x][1..] == [];
  }

  lemma Resolved2(x: Slot, y: Slot, limm: nat)
    ensures ResolveAll([x, y], limm) == [Resolve(x, limm), Resolve(y, limm)]
  {
    Resolved1(y, limm);
    assert [x, y][1..] == [y];
  }

  lemma Resolved3(x: Slot, y: Slot, z: Slot, limm: nat)
    ensures ResolveAll([x, y, z], limm) == [Resolve(x, limm), Resolve(y, limm), Resolve(z, limm)]
  {
    Resolved2(y, z, limm);
    assert [x, y, z][1..] == [y, z];
  }

  /** Three slots behind a fetch, if one is needed. */
  lemma Finished3(form: Form, w: nat, pc: u32, f: Fetcher, needs: bool, limm: nat, x: Slot, y: Slot, z: Slot)
    requires needs ==> Supplies(f, pc, limm)
    ensures var l := if needs then limm else 0;
            Gives(Finish(form, w, pc, f, needs, true, [x, y, z]), form, w, pc, needs, [Resolve(x, l), Resolve(y, l), Resolve(z, l)])
  {
    Resolved3(x, y, z, if needs then limm else 0);
    hide ResolveAll;
  }

  // ----- Arithmetic and logic -----

  /** MOV takes B as its destination and no first source; TST, CMP, RCMP and BTST have no destination. */
  function AluOperands(op: nat, dst: Operand, b: nat, src: Operand, limm: nat): seq<Operand> {
    if op == 0x0A then [Reg(b), NoOperand, src]
    else if op == 0x0B || op == 0x0C || op == 0x0D || op == 0x11 then [NoOperand, Src(b, limm), src]
    else [dst, Src(b, limm), src]
  }

  /** B is read as a source that a long immediate may stand for. */
  predicate ReadsB(op: nat, b: nat) { op != 0x0A && b == 62 }

  predicate SourceBTakesLimm(op: nat, b: nat) { ReadsB(op, b) && op != 0x0B && op != 0x0C && op != 0x0D && op != 0x11 }

  lemma AluSlotsResolve(op: nat, dst: Slot, b: nat, src: Slot, limm: nat)
    ensures ResolveAll(AluSlots(op, dst, b, src), limm) == AluOperands(op, Resolve(dst, limm), b, Resolve(src, limm), limm)
  {
    Resolved3(Fixed(Reg(b)), Fixed(NoOperand), src, limm);
    Resolved3(Fixed(NoOperand), Source(b), src, limm);
    Resolved3(dst, Source(b), src, limm);
    hide ResolveAll;
  }

  lemma AluFinished(w: nat, pc: u32, f: Fetcher, needs: bool, limm: nat, op: nat, dst: Slot, b: nat, src: Slot)
    requires needs ==> Supplies(f, pc, limm)
    ensures var l := if needs then limm else 0;
            Gives(Finish(AluForm, w, pc, f, needs, true, AluSlots(op, dst, b, src)), AluForm, w, pc, needs,
                  AluOperands(op, Resolve(dst, l), b, Resolve(src, l), l))
  {
    AluSlotsResolve(op, dst, b, src, if needs then limm else 0);
    hide ResolveAll, AluSlots, AluOperands;
  }

  lemma GeneralIsAlu(x: Fields, pc: u32, f: Fetcher)
    requires x.Fit() && x.major == 4 && x.sub <= 0x1D
    ensures Decode32(WordOf(x), pc, f) == DecodeAlu(WordOf(x), pc, x.sub, f)
  {
    hide Bits, DecodeAlu, WordOf;
    FieldsOf(x);
  }

  /** Registers A, B and C, in that order. */
  lemma AluOfRegisters(op: nat, a: nat, b: nat, c: nat, flag: nat, pc: u32, f: Fetcher, limm: nat)
    requires op <= 0x1D && a < 64 && b < 64 && c < 64 && flag < 2 && Supplies(f, pc, limm)
    ensures var w, takes := WordOf(Fields(4, b, 0, op, flag, c, a)), c == 62 || SourceBTakesLimm(op, b);
            var l := if takes then limm else 0;
            Gives(Decode32(w, pc, f), AluForm, w, pc, takes, AluOperands(op, Src(a, l), b, Src(c, l), l))
  {
    hide Bits, WordOf, Finish, AluSlots, AluOperands, Decode32;
    var x := Fields(4, b, 0, op, flag, c, a);
    GeneralIsAlu(x, pc, f);
    FieldsOf(x);
    BIs(x);
    AluFinished(WordOf(x), pc, f, c == 62 || SourceBTakesLimm(op, b), limm, op, Source(a), b, Source(c));
  }

  lemma BIs(x: Fields)
    requires x.Fit()
    ensures BReg(WordOf(x)) == x.b
  {
    hide Bits, WordOf;
    FieldsOf(x);
  }

  /** Registers A and B and an unsigned 6-bit immediate. */
  lemma AluOfU6(op: nat, a: nat, b: nat, u: nat, flag: nat, pc: u32, f: Fetcher, limm: nat)
    requires op <= 0x1D && a < 64 && b < 64 && u < 64 && flag < 2 && Supplies(f, pc, limm)
    ensures var w, takes := WordOf(Fields(4, b, 1, op, flag, u, a)), ReadsB(op, b);
            var l := if takes then limm else 0;
            Gives(Decode32(w, pc, f), AluForm, w, pc, takes, AluOperands(op, Src(a, l), b, Imm(u), l))
  {
    hide Bits, WordOf, Finish, AluSlots, AluOperands, Decode32;
    var x := Fields(4, b, 1, op, flag, u, a);
    GeneralIsAlu(x, pc, f);
    FieldsOf(x);
    BIs(x);
    AluFinished(WordOf(x), pc, f, ReadsB(op, b), limm, op, Source(a), b, Fixed(Imm(u)));
  }

  /** Register B, as source and destination, and a signed 12-bit immediate, its low six bits in C and its high in A. */
  lemma AluOfS12(op: nat, b: nat, s: int, flag: nat, pc: u32, f: Fetcher, limm: nat)
    requires op <= 0x1D && b < 64 && -0x800 <= s < 0x800 && flag < 2 && Supplies(f, pc, limm)
    ensures var w, takes := WordOf(Fields(4, b, 2, op, flag, s % 64, s / 64 % 64)), ReadsB(op, b);
            var l := if takes then limm else 0;
            Gives(Decode32(w, pc, f), AluForm, w, pc, takes, AluOperands(op, Reg(b), b, Imm(s % 0x1_0000_0000), l))
  {
    hide Bits, WordOf, Finish, AluSlots, AluOperands, Decode32, S12;
    var x := Fields(4, b, 2, op, flag, s % 64, s / 64 % 64);
    GeneralIsAlu(x, pc, f);
    FieldsOf(x);
    BIs(x);
    S12Is(x, s);
    AluFinished(WordOf(x), pc, f, ReadsB(op, b), limm, op, Fixed(Reg(b)), b, Fixed(Imm(s % 0x1_0000_0000)));
  }

  lemma S12Is(x: Fields, s: int)
    requires x.Fit() && -0x800 <= s < 0x800 && x.c == s % 64 && x.a == s / 64 % 64
    ensures S12(WordOf(x)) == s % 0x1_0000_0000
  {
    hide Bits, WordOf, SignExtended;
    FieldsOf(x);
    assert x.a * 0x40 + x.c == s % 0x1000 by { SplitS12(s); }
    SignIs(s, 0x800);
  }

  lemma SplitS12(s: int)
    ensures s / 64 % 64 * 0x40 + s % 64 == s % 0x1000
  {
    var q := s / 0x1000;
    assert s == q * 0x1000 + s % 0x1000;
    assert s / 64 == q * 64 + s % 0x1000 / 64;
  }

  /** Under a condition: register B and register C, or a 6-bit immediate; condition codes above 15 are no instruction. */
  lemma AluUnderCondition(op: nat, b: nat, c: nat, cc: nat, immediate: bool, flag: nat, pc: u32, f: Fetcher, limm: nat)
    requires op <= 0x1D && b < 64 && c < 64 && cc < 32 && flag < 2 && Supplies(f, pc, limm)
    ensures var w := WordOf(Fields(4, b, 3, op, flag, c, (if immediate then 32 else 0) + cc));
            var takes := if immediate then ReadsB(op, b) else c == 62 || SourceBTakesLimm(op, b);
            var l := if takes then limm else 0;
            if cc >= 16 then Decode32(w, pc, f) == InstructionError
            else Gives(Decode32(w, pc, f), AluForm, w, pc, takes,
                       AluOperands(op, Reg(b), b, if immediate then Imm(c) else Src(c, l), l))
  {
    hide Bits, WordOf, Finish, AluSlots, AluOperands, Decode32;
    var x := Fields(4, b, 3, op, flag, c, (if immediate then 32 else 0) + cc);
    GeneralIsAlu(x, pc, f);
    FieldsOf(x);
    FieldsWithin(x);
    BIs(x);
    if immediate {
      AluFinished(WordOf(x), pc, f, ReadsB(op, b), limm, op, Fixed(Reg(b)), b, Fixed(Imm(c)));
    } else {
      AluFinished(WordOf(x), pc, f, c == 62 || SourceBTakesLimm(op, b), limm, op, Fixed(Reg(b)), b, Source(c));
    }
  }

  // ----- Loads and stores -----

  /** The word of a load or store offset: its low eight bits in P and the sub-opcode, its sign in F. */
  function WithS9(major: nat, b: nat, s: int, c: nat, a: nat): Fields {
    Fields(major, b, s % 256 / 64, s % 64, if s < 0 then 1 else 0, c, a)
  }

  lemma S9Is(x: Fields, s: int)
    requires x.Fit() && -0x100 <= s < 0x100 && x == WithS9(x.major, x.b, s, x.c, x.a)
    ensures S9(WordOf(x)) == s % 0x1_0000_0000
  {
    hide Bits, WordOf, SignExtended;
    FieldsOf(x);
    FieldsWithin(x);
    SplitS9(s);
    SignIs(s, 0x100);
  }

  lemma SplitS9(s: int)
    requires -0x100 <= s < 0x100
    ensures (if s < 0 then 1 else 0) * 0x100 + (s % 256 / 64 * 0x40 + s % 64) == s % 0x200
  {
    var r := s % 256;
    assert s == (if s < 0 then -256 else 0) + r;
    assert r % 64 == s % 64;
  }

  /** Four fields packed into six bits. */
  lemma PackedIs(di: nat, aa: nat, zz: nat, x: nat)
    requires di < 2 && aa < 4 && zz < 4 && x < 2
    ensures var v := di * 32 + aa * 8 + zz * 2 + x; v < 64 && v / 8 % 4 == aa && v / 2 % 4 == zz
  {
  }

  /** LD: destination A, base B and the signed offset; no writeback mode with a long immediate as base, no size 3, and no
      destination that cannot be loaded. */
  lemma LoadDecodes(a: nat, b: nat, s: int, di: nat, aa: nat, zz: nat, x: nat, pc: u32, f: Fetcher, limm: nat)
    requires a < 64 && b < 64 && -0x100 <= s < 0x100 && di < 2 && aa < 4 && zz < 4 && x < 2 && Supplies(f, pc, limm)
    ensures var w := WordOf(WithS9(2, b, s, di * 32 + aa * 8 + zz * 2 + x, a));
            if zz == 3 || (b == 62 && (aa == 1 || aa == 2)) || 32 <= a <= 60 || a == 63 then
              Decode32(w, pc, f) == InstructionError
            else
              Gives(Decode32(w, pc, f), LoadForm, w, pc, b == 62,
                    [if a == 62 then NoOperand else Reg(a), Src(b, limm), Imm(s % 0x1_0000_0000)])
  {
    hide Bits, WordOf, Finish, S9;
    PackedIs(di, aa, zz, x);
    var fields := WithS9(2, b, s, di * 32 + aa * 8 + zz * 2 + x, a);
    FieldsOf(fields);
    FieldsWithin(fields);
    BIs(fields);
    S9Is(fields, s);
    Finished3(LoadForm, WordOf(fields), pc, f, b == 62, limm, LoadDest(a), Source(b), Fixed(Imm(s % 0x1_0000_0000)));
  }

  /** ST: source C, base B and the signed offset. */
  lemma StoreDecodes(c: nat, b: nat, s: int, di: nat, aa: nat, zz: nat, low: nat, pc: u32, f: Fetcher, limm: nat)
    requires c < 64 && b < 64 && -0x100 <= s < 0x100 && di < 2 && aa < 4 && zz < 4 && low < 2 && Supplies(f, pc, limm)
    ensures var w, takes := WordOf(WithS9(3, b, s, c, di * 32 + aa * 8 + zz * 2 + low)), b == 62 || c == 62;
            if zz == 3 || (b == 62 && (aa == 1 || aa == 2)) then Decode32(w, pc, f) == InstructionError
            else
              Gives(Decode32(w, pc, f), StoreForm, w, pc, takes, [Src(c, limm), Src(b, limm), Imm(s % 0x1_0000_0000)])
  {
    hide Bits, WordOf, Finish, S9;
    PackedIs(di, aa, zz, low);
    var fields := WithS9(3, b, s, c, di * 32 + aa * 8 + zz * 2 + low);
    FieldsOf(fields);
    FieldsWithin(fields);
    BIs(fields);
    S9Is(fields, s);
    Finished3(StoreForm, WordOf(fields), pc, f, b == 62 || c == 62, limm, Source(c), Source(b), Fixed(Imm(s % 0x1_0000_0000)));
  }

  /** LD with a register offset: A, B and C. */
  lemma LoadRegDecodes(a: nat, b: nat, c: nat, aa: nat, zz: nat, x: nat, flag: nat, pc: u32, f: Fetcher, limm: nat)
    requires a < 64 && b < 64 && c < 64 && aa < 4 && zz < 4 && x < 2 && flag < 2 && Supplies(f, pc, limm)
    ensures var w, takes := WordOf(Fields(4, b, aa, 0x30 + zz * 2 + x, flag, c, a)), b == 62 || c == 62;
            if zz == 3 || 32 <= a <= 60 || a == 63 then Decode32(w, pc, f) == InstructionError
            else
              Gives(Decode32(w, pc, f), LoadRegForm, w, pc, takes,
                    [if a == 62 then NoOperand else Reg(a), Src(b, limm), Src(c, limm)])
  {
    hide Bits, WordOf, Finish;
    var fields := Fields(4, b, aa, 0x30 + zz * 2 + x, flag, c, a);
    FieldsOf(fields);
    FieldsWithin(fields);
    BIs(fields);
    Finished3(LoadRegForm, WordOf(fields), pc, f, b == 62 || c == 62, limm, LoadDest(a), Source(b), Source(c));
  }

  // ----- Branches -----

  /** A branch's word: ten bits of the offset in F, B's upper part and C, eight beside them in P and the sub-opcode, three in
      B's lower part. */
  function BranchFields(major: nat, top: nat, mid: nat, bl: nat, a: nat): Fields {
    Fields(major, top / 64 % 8 * 8 + bl, mid / 64, mid % 64, top / 512, top % 64, a)
  }

  function BranchWord(major: nat, top: nat, mid: nat, bl: nat, a: nat): nat { WordOf(BranchFields(major, top, mid, bl, a)) }

  lemma BranchFieldsFit(major: nat, top: nat, mid: nat, bl: nat, a: nat)
    requires major < 32 && top < 0x400 && mid < 0x100 && bl < 8 && a < 64
    ensures var x := BranchFields(major, top, mid, bl, a);
            && x.Fit() && x.b % 8 == bl && x.p * 0x40 + x.sub == mid && x.flag * 0x200 + (x.b / 8) * 0x40 + x.c == top
            && x.major == major && x.a == a
  {
    var x := BranchFields(major, top, mid, bl, a);
    assert x.b / 8 == top / 64 % 8;
  }

  lemma BranchBits(major: nat, top: nat, mid: nat, bl: nat, a: nat)
    requires major < 32 && top < 0x400 && mid < 0x100 && bl < 8 && a < 64
    ensures var w := BranchWord(major, top, mid, bl, a);
            && Bits(w, 31, 27) == major && Bits(w, 15, 6) == top && Bits(w, 16, 16) == mid % 2
            && Bits(w, 17, 17) == mid / 2 % 2 && Bits(w, 26, 17) == bl * 0x80 + mid / 2 && Bits(w, 26, 18) == bl * 0x40 + mid / 4
            && Bits(w, 4, 0) == a % 32 && Bits(w, 4, 4) == a / 16 % 2 && Bits(w, 3, 0) == a % 16
  {
    hide Bits, WordOf, BranchFields;
    BranchFieldsFit(major, top, mid, bl, a);
    FieldsOf(BranchFields(major, top, mid, bl, a));
    FieldsWithin(BranchFields(major, top, mid, bl, a));
  }

  // An offset in half-words (B) or longwords (BL): its lowest bits beside bit 16, three more, ten more, four on top.
  function Beside(h: int, size: nat): nat requires size > 0 { h % size }
  function Three(h: int, size: nat): nat requires size > 0 { h / size % 8 }
  function Ten(h: int, size: nat): nat requires size > 0 { h / (8 * size) % 0x400 }
  function Four(h: int, size: nat): nat requires size > 0 { h / (0x2000 * size) % 16 }

  lemma PartsFit(h: int, size: nat)
    requires size == 0x80 || size == 0x40
    ensures Beside(h, size) < size && Three(h, size) < 8 && Ten(h, size) < 0x400 && Four(h, size) < 16
  {
  }

  // A residue in two parts, for each pair of widths the offsets are cut into.
  lemma LowHalfWords(x: int)
    ensures x / 0x80 % 0x8 * 0x80 + x % 0x80 == x % 0x400
  {
    var q, r := x / 0x400, x % 0x400;
    assert x == q * 0x400 + r;
    assert x / 0x80 == q * 0x8 + r / 0x80 && x % 0x80 == r % 0x80;
  }

  lemma MiddleHalfWords(x: int)
    ensures x / 0x400 % 0x400 * 0x400 + x % 0x400 == x % 0x100000
  {
    var q, r := x / 0x100000, x % 0x100000;
    assert x == q * 0x100000 + r;
    assert x / 0x400 == q * 0x400 + r / 0x400 && x % 0x400 == r % 0x400;
  }

  lemma HighHalfWords(x: int)
    ensures x / 0x100000 % 0x10 * 0x100000 + x % 0x100000 == x % 0x1000000
  {
    var q, r := x / 0x1000000, x % 0x1000000;
    assert x == q * 0x1000000 + r;
    assert x / 0x100000 == q * 0x10 + r / 0x100000 && x % 0x100000 == r % 0x100000;
  }

  lemma LowLongwords(x: int)
    ensures x / 0x40 % 0x8 * 0x40 + x % 0x40 == x % 0x200
  {
    var q, r := x / 0x200, x % 0x200;
    assert x == q * 0x200 + r;
    assert x / 0x40 == q * 0x8 + r / 0x40 && x % 0x40 == r % 0x40;
  }

  lemma MiddleLongwords(x: int)
    ensures x / 0x200 % 0x400 * 0x200 + x % 0x200 == x % 0x80000
  {
    var q, r := x / 0x80000, x % 0x80000;
    assert x == q * 0x80000 + r;
    assert x / 0x200 == q * 0x400 + r / 0x200 && x % 0x200 == r % 0x200;
  }

  lemma HighLongwords(x: int)
    ensures x / 0x80000 % 0x10 * 0x80000 + x % 0x80000 == x % 0x800000
  {
    var q, r := x / 0x800000, x % 0x800000;
    assert x == q * 0x800000 + r;
    assert x / 0x80000 == q * 0x10 + r / 0x80000 && x % 0x80000 == r % 0x80000;
  }

  lemma HalfWordParts(h: int)
    ensures var low := Ten(h, 0x80) * 0x400 + (Three(h, 0x80) * 0x80 + Beside(h, 0x80));
            low == h % 0x10_0000 && Four(h, 0x80) * 0x10_0000 + low == h % 0x100_0000
  {
    LowHalfWords(h);
    MiddleHalfWords(h);
    HighHalfWords(h);
  }

  lemma LongwordParts(h: int)
    ensures var low := Ten(h, 0x40) * 0x200 + (Three(h, 0x40) * 0x40 + Beside(h, 0x40));
            low == h % 0x8_0000 && Four(h, 0x40) * 0x8_0000 + low == h % 0x80_0000
  {
    LowLongwords(h);
    MiddleLongwords(h);
    HighLongwords(h);
  }

  // ----- Plain and far branches -----

  lemma HalfWordOffset(w: nat, h: int, far: bool)
    requires far ==> Bits(w, 3, 0) == Four(h, 0x80)
    requires Bits(w, 15, 6) == Ten(h, 0x80) && Bits(w, 26, 17) == Three(h, 0x80) * 0x80 + Beside(h, 0x80)
    requires BitSet(w, 16) == far && (if far then -0x80_0000 <= h < 0x80_0000 else -0x8_0000 <= h < 0x8_0000)
    ensures BranchOffset(w) == (2 * h) % 0x1_0000_0000
  {
    hide Bits, BitSet, SignExtended, Ten, Three, Beside, Four;
    HalfWordParts(h);
    DoubledResidue(h);
    SignIs(2 * h, if far then 0x100_0000 else 0x10_0000);
  }

  lemma DoubledResidue(h: int)
    ensures (2 * h) % 0x20_0000 == h % 0x10_0000 * 2 && (2 * h) % 0x200_0000 == h % 0x100_0000 * 2
  {
    var q, r := h / 0x10_0000, h / 0x100_0000;
    assert h == q * 0x10_0000 + h % 0x10_0000 && h == r * 0x100_0000 + h % 0x100_0000;
  }

  lemma LongwordOffset(w: nat, h: int, far: bool)
    requires far ==> Bits(w, 3, 0) == Four(h, 0x40)
    requires Bits(w, 15, 6) == Ten(h, 0x40) && Bits(w, 26, 18) == Three(h, 0x40) * 0x40 + Beside(h, 0x40)
    requires BitSet(w, 17) == far && (if far then -0x40_0000 <= h < 0x40_0000 else -0x4_0000 <= h < 0x4_0000)
    ensures LinkOffset(w) == (4 * h) % 0x1_0000_0000
  {
    hide Bits, BitSet, SignExtended, Ten, Three, Beside, Four;
    LongwordParts(h);
    QuadrupledResidue(h);
    SignIs(4 * h, if far then 0x100_0000 else 0x10_0000);
  }

  lemma QuadrupledResidue(h: int)
    ensures (4 * h) % 0x20_0000 == h % 0x8_0000 * 4 && (4 * h) % 0x200_0000 == h % 0x80_0000 * 4
  {
    var q, r := h / 0x8_0000, h / 0x80_0000;
    assert h == q * 0x8_0000 + h % 0x8_0000 && h == r * 0x80_0000 + h % 0x80_0000;
  }

  /** The word of a branch `h` half-words away: `a` holds the delay bit and the condition, or the top of a far offset. */
  function BranchTo(h: int, far: bool, a: nat): nat {
    BranchWord(0, Ten(h, 0x80), 2 * Beside(h, 0x80) + (if far then 1 else 0), Three(h, 0x80), a)
  }

  /** Bcc: a signed offset of 21 bits, in half-words. */
  lemma BranchDecodes(h: int, n: nat, cc: nat, pc: u32, f: Fetcher)
    requires -0x8_0000 <= h < 0x8_0000 && n < 2 && cc < 32
    ensures var w := BranchTo(h, false, n * 32 + cc);
            if cc >= 16 then Decode32(w, pc, f) == InstructionError
            else Gives(Decode32(w, pc, f), BranchForm, w, pc, false, [Imm((2 * h) % 0x1_0000_0000)])
  {
    hide Bits, BranchWord, Ten, Three, Beside, Four, BranchOffset;
    PartsFit(h, 0x80);
    BranchBits(0, Ten(h, 0x80), 2 * Beside(h, 0x80), Three(h, 0x80), n * 32 + cc);
    HalfWordOffset(BranchTo(h, false, n * 32 + cc), h, false);
  }

  /** B, far: 25 bits, unconditional; the reserved bit must be clear. */
  lemma FarBranchDecodes(h: int, n: nat, reserved: nat, pc: u32, f: Fetcher)
    requires -0x80_0000 <= h < 0x80_0000 && n < 2 && reserved < 2
    ensures var w := BranchTo(h, true, n * 32 + reserved * 16 + Four(h, 0x80));
            if reserved == 1 then Decode32(w, pc, f) == InstructionError
            else Gives(Decode32(w, pc, f), BranchForm, w, pc, false, [Imm((2 * h) % 0x1_0000_0000)])
  {
    hide Bits, BranchWord, Ten, Three, Beside, Four, BranchOffset;
    PartsFit(h, 0x80);
    var a := n * 32 + reserved * 16 + Four(h, 0x80);
    assert a < 64 && a / 16 % 2 == reserved && a % 16 == Four(h, 0x80);
    BranchBits(0, Ten(h, 0x80), 2 * Beside(h, 0x80) + 1, Three(h, 0x80), a);
    HalfWordOffset(BranchTo(h, true, a), h, true);
  }

  /** The word of a branch-and-link `h` longwords away. */
  function LinkTo(h: int, far: bool, a: nat): nat {
    BranchWord(1, Ten(h, 0x40), 4 * Beside(h, 0x40) + (if far then 2 else 0), Three(h, 0x40), a)
  }

  /** BLcc: 21 bits, in longwords. */
  lemma LinkDecodes(h: int, n: nat, cc: nat, pc: u32, f: Fetcher)
    requires -0x4_0000 <= h < 0x4_0000 && n < 2 && cc < 32
    ensures var w := LinkTo(h, false, n * 32 + cc);
            if cc >= 16 then Decode32(w, pc, f) == InstructionError
            else Gives(Decode32(w, pc, f), BranchLinkForm, w, pc, false, [Imm((4 * h) % 0x1_0000_0000)])
  {
    hide Bits, BranchWord, Ten, Three, Beside, Four, LinkOffset;
    PartsFit(h, 0x40);
    BranchBits(1, Ten(h, 0x40), 4 * Beside(h, 0x40), Three(h, 0x40), n * 32 + cc);
    LongwordOffset(LinkTo(h, false, n * 32 + cc), h, false);
  }

  /** BL, far: 25 bits, in longwords. */
  lemma FarLinkDecodes(h: int, n: nat, reserved: nat, pc: u32, f: Fetcher)
    requires -0x40_0000 <= h < 0x40_0000 && n < 2 && reserved < 2
    ensures var w := LinkTo(h, true, n * 32 + reserved * 16 + Four(h, 0x40));
            Gives(Decode32(w, pc, f), BranchLinkForm, w, pc, false, [Imm((4 * h) % 0x1_0000_0000)])
  {
    hide Bits, BranchWord, Ten, Three, Beside, Four, LinkOffset;
    PartsFit(h, 0x40);
    var a := n * 32 + reserved * 16 + Four(h, 0x40);
    assert a < 64 && a % 16 == Four(h, 0x40);
    BranchBits(1, Ten(h, 0x40), 4 * Beside(h, 0x40) + 2, Three(h, 0x40), a);
    LongwordOffset(LinkTo(h, true, a), h, true);
  }

  // ----- Compare and branch -----

  /** The word of a compare-and-branch `h` half-words away: seven bits of the offset beside bit 16, its sign in F. */
  function CompareFields(b: nat, h: int, c: nat, a: nat): Fields {
    Fields(1, b, h % 0x80 / 32, h % 32 * 2 + 1, if h < 0 then 1 else 0, c, a)
  }

  lemma CompareFieldsFit(b: nat, h: int, c: nat, n: nat, m: nat, kind: nat)
    requires b < 64 && c < 64 && -0x80 <= h < 0x80 && n < 2 && m < 2 && kind < 16
    ensures var x := CompareFields(b, h, c, n * 32 + m * 16 + kind);
            && x.Fit() && x.major == 1 && x.b == b && x.c == c && x.a / 16 % 2 == m && x.a % 16 == kind
            && (x.p * 0x40 + x.sub) % 2 == 1
            && x.flag * 0x100 + (x.p * 0x40 + x.sub) / 2 * 2 == (2 * h) % 0x200
  {
    SevenBits(h);
  }

  lemma CompareOffsetIs(x: Fields, h: int)
    requires x.Fit() && -0x80 <= h < 0x80 && x.flag * 0x100 + (x.p * 0x40 + x.sub) / 2 * 2 == (2 * h) % 0x200
    ensures CompareOffset(WordOf(x)) == (2 * h) % 0x1_0000_0000
  {
    hide Bits, WordOf, SignExtended;
    FieldsOf(x);
    FieldsWithin(x);
    SignIs(2 * h, 0x100);
  }

  lemma CompareBits(b: nat, h: int, c: nat, n: nat, m: nat, kind: nat)
    requires b < 64 && c < 64 && -0x80 <= h < 0x80 && n < 2 && m < 2 && kind < 16
    ensures var x := CompareFields(b, h, c, n * 32 + m * 16 + kind);
            var w := WordOf(x);
            && x.Fit() && Bits(w, 31, 27) == 1 && BReg(w) == b && CReg(w) == c && Bits(w, 16, 16) == 1
            && Bits(w, 4, 4) == m && Bits(w, 3, 0) == kind && CompareOffset(w) == (2 * h) % 0x1_0000_0000
  {
    hide Bits, WordOf, CompareOffset, CompareFields, BReg;
    var x := CompareFields(b, h, c, n * 32 + m * 16 + kind);
    CompareFieldsFit(b, h, c, n, m, kind);
    FieldsOf(x);
    FieldsWithin(x);
    BIs(x);
    CompareOffsetIs(x, h);
  }

  lemma SevenBits(h: int)
    requires -0x80 <= h < 0x80
    ensures var mid := h % 0x80 / 32 * 0x40 + (h % 32 * 2 + 1);
            mid % 2 == 1 && mid / 2 == h % 0x80 && (if h < 0 then 1 else 0) * 0x100 + mid / 2 * 2 == (2 * h) % 0x200
  {
    SevenBitParts(h);
    var r := if h < 0 then h + 0x80 else h;
    assert (2 * h) % 0x200 == if h < 0 then 2 * h + 0x200 else 2 * h;
    assert r / 32 * 0x40 + (r % 32 * 2 + 1) == 2 * r + 1;
  }

  lemma SevenBitParts(h: int)
    requires -0x80 <= h < 0x80
    ensures var r := if h < 0 then h + 0x80 else h; h % 0x80 == r && h % 32 == r % 32
  {
  }

  /** BRcc and BBIT: B, C or a 6-bit immediate, and a signed offset of 9 bits; eight of the sixteen comparisons do not exist. */
  lemma CompareDecodes(b: nat, c: nat, m: nat, h: int, n: nat, kind: nat, pc: u32, f: Fetcher, limm: nat)
    requires b < 64 && c < 64 && -0x80 <= h < 0x80 && n < 2 && m < 2 && kind < 16 && Supplies(f, pc, limm)
    ensures var w, takes := WordOf(CompareFields(b, h, c, n * 32 + m * 16 + kind)), b == 62 || (m == 0 && c == 62);
            if 6 <= kind <= 13 then Decode32(w, pc, f) == InstructionError
            else
              Gives(Decode32(w, pc, f), BranchCompareForm, w, pc, takes,
                    [Src(b, limm), if m == 1 then Imm(c) else Src(c, limm), Imm((2 * h) % 0x1_0000_0000)])
  {
    hide Bits, WordOf, Finish, CompareOffset, CompareFields, BReg, CReg;
    CompareBits(b, h, c, n, m, kind);
    Finished3(BranchCompareForm, WordOf(CompareFields(b, h, c, n * 32 + m * 16 + kind)), pc, f, b == 62 || (m == 0 && c == 62), limm,
              Source(b), if m == 1 then Fixed(Imm(c)) else Source(c), Fixed(Imm((2 * h) % 0x1_0000_0000)));
  }

  // ----- One source, and the special forms -----

  /** The source of a one-source form: register C or the immediate in its field, the latter also under a condition. */
  function OneSrc(p: nat, a: nat, c: nat, limm: nat): Operand {
    if p == 0 || (p == 3 && a / 32 == 0) then Src(c, limm) else Imm(c)
  }

  predicate TakesLimm(p: nat, a: nat, c: nat) { (p == 0 || (p == 3 && a / 32 == 0)) && c == 62 }

  lemma OneSourceIs(form: Form, x: Fields, pc: u32, f: Fetcher, limm: nat, valid: bool, before: seq<Slot>, ops: seq<Operand>)
    requires x.Fit() && x.p != 2 && Supplies(f, pc, limm)
    requires (before == [] && ops == []) || (|before| == 1 && before[0].Fixed? && ops == [before[0].operand])
    ensures var w := WordOf(x);
            OneSource(form, w, pc, f, valid, before) ==
            if !valid || (x.p == 3 && x.a % 32 >= 16) then InstructionError
            else Insn(form, w, ops + [OneSrc(x.p, x.a, x.c, limm)], 4, TakesLimm(x.p, x.a, x.c), pc)
  {
    hide Bits, WordOf, ResolveAll;
    FieldsOf(x);
    FieldsWithin(x);
    forall l: nat ensures ResolveAll(before, l) == ops && ResolveAll(before + [Source(x.c)], l) == ops + [Src(x.c, l)] {
      Resolved1(Source(x.c), l);
      if before == [] {
        assert before + [Source(x.c)] == [Source(x.c)] && ops + [Src(x.c, l)] == [Src(x.c, l)];
      } else {
        assert before == [before[0]];
        Resolved1(before[0], l);
        Resolved2(before[0], Source(x.c), l);
        assert before + [Source(x.c)] == [before[0], Source(x.c)];
      }
    }
  }

  /** Single-operand operations: register B and the one source. */
  lemma SingleDecodes(x: Fields, pc: u32, f: Fetcher, limm: nat)
    requires x.Fit() && x.major == 4 && x.sub == 0x2F && x.p != 2 && x.a != 0x3F && Supplies(f, pc, limm)
    ensures var w := WordOf(x);
            Decode32(w, pc, f) ==
            if x.a > 0x0C || (x.p == 3 && x.a % 32 >= 16) then InstructionError
            else Insn(SingleForm, w, [Reg(x.b), OneSrc(x.p, x.a, x.c, limm)], 4, TakesLimm(x.p, x.a, x.c), pc)
  {
    hide Bits, WordOf, OneSource, OneSrc, TakesLimm;
    FieldsOf(x);
    BIs(x);
    OneSourceIs(SingleForm, x, pc, f, limm, true, [Fixed(Reg(x.b))], [Reg(x.b)]);
  }

  /** LR: register B, and the address from C or a 6-bit immediate. */
  lemma LoadAuxDecodes(x: Fields, pc: u32, f: Fetcher, limm: nat)
    requires x.Fit() && x.major == 4 && x.sub == 0x2A && x.p <= 1 && Supplies(f, pc, limm)
    ensures var w := WordOf(x);
            Decode32(w, pc, f) == Insn(LoadAuxForm, w, [Reg(x.b), OneSrc(x.p, x.a, x.c, limm)], 4, TakesLimm(x.p, x.a, x.c), pc)
  {
    hide Bits, WordOf, OneSource, OneSrc, TakesLimm;
    FieldsOf(x);
    BIs(x);
    OneSourceIs(LoadAuxForm, x, pc, f, limm, true, [Fixed(Reg(x.b))], [Reg(x.b)]);
  }

  /** LR and SR with a signed 12-bit address. */
  lemma AuxOfS12Decodes(b: nat, s: int, flag: nat, pc: u32, f: Fetcher, limm: nat)
    requires b < 64 && -0x800 <= s < 0x800 && flag < 2 && Supplies(f, pc, limm)
    ensures var w := WordOf(Fields(4, b, 2, 0x2A, flag, s % 64, s / 64 % 64));
            Gives(Decode32(w, pc, f), LoadAuxForm, w, pc, false, [Reg(b), Imm(s % 0x1_0000_0000)])
    ensures var w := WordOf(Fields(4, b, 2, 0x2B, flag, s % 64, s / 64 % 64));
            Gives(Decode32(w, pc, f), StoreAuxForm, w, pc, b == 62, [Src(b, limm), Imm(s % 0x1_0000_0000)])
  {
    hide Bits, WordOf, S12, Finish;
    var lr, sr := Fields(4, b, 2, 0x2A, flag, s % 64, s / 64 % 64), Fields(4, b, 2, 0x2B, flag, s % 64, s / 64 % 64);
    FieldsOf(lr);
    FieldsOf(sr);
    BIs(lr);
    BIs(sr);
    S12Is(lr, s);
    S12Is(sr, s);
    Finished2(StoreAuxForm, WordOf(sr), pc, f, b == 62, limm, Source(b), Fixed(Imm(s % 0x1_0000_0000)));
  }

  lemma Finished2(form: Form, w: nat, pc: u32, f: Fetcher, needs: bool, limm: nat, x: Slot, y: Slot)
    requires needs ==> Supplies(f, pc, limm)
    ensures var l := if needs then limm else 0;
            Gives(Finish(form, w, pc, f, needs, true, [x, y]), form, w, pc, needs, [Resolve(x, l), Resolve(y, l)])
  {
    Resolved2(x, y, if needs then limm else 0);
    hide ResolveAll;
  }

  /** SR: the value in B goes to the address in C, or in a 6-bit immediate. */
  lemma StoreAuxDecodes(b: nat, c: nat, p: nat, flag: nat, a: nat, pc: u32, f: Fetcher, limm: nat)
    requires b < 64 && c < 64 && p < 2 && flag < 2 && a < 64 && Supplies(f, pc, limm)
    ensures var w, takes := WordOf(Fields(4, b, p, 0x2B, flag, c, a)), b == 62 || (p == 0 && c == 62);
            Gives(Decode32(w, pc, f), StoreAuxForm, w, pc, takes, [Src(b, limm), if p == 0 then Src(c, limm) else Imm(c)])
  {
    hide Bits, WordOf, S12, Finish;
    var x := Fields(4, b, p, 0x2B, flag, c, a);
    FieldsOf(x);
    BIs(x);
    Finished2(StoreAuxForm, WordOf(x), pc, f, b == 62 || (p == 0 && c == 62), limm, Source(b),
              if p == 0 then Source(c) else Fixed(Imm(c)));
  }

  /** J and JL, delayed or not: the target in C or an immediate; `.F` only through r29 or r30. */
  lemma JumpDecodes(x: Fields, pc: u32, f: Fetcher, limm: nat)
    requires x.Fit() && x.major == 4 && 0x20 <= x.sub <= 0x23 && x.p != 2 && Supplies(f, pc, limm)
    ensures var w := WordOf(x);
            var fromReg := x.p == 0 || (x.p == 3 && x.a / 32 == 0);
            Decode32(w, pc, f) ==
            if (x.p == 3 && x.a % 32 >= 16) || (x.p != 1 && x.flag == 1 && !(fromReg && (x.c == 29 || x.c == 30))) then InstructionError
            else Insn(JumpForm, w, [OneSrc(x.p, x.a, x.c, limm)], 4, TakesLimm(x.p, x.a, x.c), pc)
  {
    hide Bits, WordOf, OneSource, OneSrc, TakesLimm;
    FieldsOf(x);
    FieldsWithin(x);
    BIs(x);
    var fromReg := x.p == 0 || (x.p == 3 && x.a / 32 == 0);
    OneSourceIs(JumpForm, x, pc, f, limm, x.p == 1 || (x.flag == 1 ==> fromReg && (x.c == 29 || x.c == 30)), [], []);
    assert [] + [OneSrc(x.p, x.a, x.c, limm)] == [OneSrc(x.p, x.a, x.c, limm)];
  }

  /** LP: twice the 6-bit immediate under a condition, twice the signed 12-bit one otherwise. */
  lemma LoopDecodes(b: nat, s: int, u: nat, cc: nat, m: nat, flag: nat, pc: u32, f: Fetcher)
    requires b < 64 && -0x800 <= s < 0x800 && u < 64 && cc < 32 && m < 2 && flag < 2
    ensures var w := WordOf(Fields(4, b, 2, 0x28, flag, s % 64, s / 64 % 64));
            Gives(Decode32(w, pc, f), LoopForm, w, pc, false, [Imm((2 * s) % 0x1_0000_0000)])
    ensures var w := WordOf(Fields(4, b, 3, 0x28, flag, u, m * 32 + cc));
            if cc >= 16 then Decode32(w, pc, f) == InstructionError
            else Gives(Decode32(w, pc, f), LoopForm, w, pc, false, [Imm(2 * u)])
  {
    hide Bits, WordOf, S12;
    var far, cond := Fields(4, b, 2, 0x28, flag, s % 64, s / 64 % 64), Fields(4, b, 3, 0x28, flag, u, m * 32 + cc);
    FieldsOf(far);
    FieldsOf(cond);
    FieldsWithin(cond);
    BIs(far);
    S12Is(far, s);
    TwiceWraps(s);
  }

  lemma TwiceWraps(s: int)
    ensures (s % 0x1_0000_0000 * 2) % 0x1_0000_0000 == (2 * s) % 0x1_0000_0000
  {
    var q := s / 0x1_0000_0000;
    assert s == q * 0x1_0000_0000 + s % 0x1_0000_0000;
    assert (2 * s) == 2 * q * 0x1_0000_0000 + s % 0x1_0000_0000 * 2;
  }

  /** FLAG: the one source. */
  lemma FlagDecodes(x: Fields, pc: u32, f: Fetcher, limm: nat)
    requires x.Fit() && x.major == 4 && x.sub == 0x29 && Supplies(f, pc, limm)
    ensures var w := WordOf(x);
            Decode32(w, pc, f) ==
            if x.p == 2 || (x.p == 3 && x.a % 32 >= 16) then InstructionError
            else Insn(FlagForm, w, [OneSrc(x.p, x.a, x.c, limm)], 4, TakesLimm(x.p, x.a, x.c), pc)
  {
    hide Bits, WordOf, OneSource, OneSrc, TakesLimm;
    FieldsOf(x);
    if x.p != 2 {
      OneSourceIs(FlagForm, x, pc, f, limm, true, [], []);
      assert [] + [OneSrc(x.p, x.a, x.c, limm)] == [OneSrc(x.p, x.a, x.c, limm)];
    }
  }

  /** Extension operations of two sources: A or B as destination, B and C or an immediate as sources. */
  lemma ExtensionDecodes(x: Fields, pc: u32, f: Fetcher, limm: nat)
    requires x.Fit() && x.major == 5 && x.sub in {0, 1, 2, 3, 6, 7, 8, 0x0A, 0x0B, 0x28, 0x29} && x.p != 2 && Supplies(f, pc, limm)
    ensures var w, fromC := WordOf(x), x.p == 0 || (x.p == 3 && x.a / 32 == 0);
            var takes := x.b == 62 || (fromC && x.c == 62);
            var l := if takes then limm else 0;
            if x.p == 3 && x.a % 32 >= 16 then Decode32(w, pc, f) == InstructionError
            else
              Gives(Decode32(w, pc, f), ExtForm, w, pc, takes,
                    [if x.p <= 1 then Src(x.a, l) else Reg(x.b), Src(x.b, l), if fromC then Src(x.c, l) else Imm(x.c)])
  {
    hide Bits, WordOf, Finish, OneSource;
    FieldsOf(x);
    FieldsWithin(x);
    BIs(x);
    var fromC := x.p == 0 || (x.p == 3 && x.a / 32 == 0);
    Finished3(ExtForm, WordOf(x), pc, f, x.b == 62 || (fromC && x.c == 62), limm,
              if x.p <= 1 then Source(x.a) else Fixed(Reg(x.b)), Source(x.b), if fromC then Source(x.c) else Fixed(Imm(x.c)));
  }

  /** The same with a signed 12-bit immediate, B being source and destination. */
  lemma ExtensionOfS12Decodes(sub: nat, b: nat, s: int, flag: nat, pc: u32, f: Fetcher, limm: nat)
    requires sub in {0, 1, 2, 3, 6, 7, 8, 0x0A, 0x0B, 0x28, 0x29}
    requires b < 64 && -0x800 <= s < 0x800 && flag < 2 && Supplies(f, pc, limm)
    ensures var w := WordOf(Fields(5, b, 2, sub, flag, s % 64, s / 64 % 64));
            Gives(Decode32(w, pc, f), ExtForm, w, pc, b == 62, [Reg(b), Src(b, limm), Imm(s % 0x1_0000_0000)])
  {
    hide Bits, WordOf, Finish, OneSource, S12;
    var x := Fields(5, b, 2, sub, flag, s % 64, s / 64 % 64);
    FieldsOf(x);
    BIs(x);
    S12Is(x, s);
    Finished3(ExtForm, WordOf(x), pc, f, b == 62, limm, Fixed(Reg(b)), Source(b), Fixed(Imm(s % 0x1_0000_0000)));
  }

  /** Extension operations of one source, nine of them, without a condition; every other extension sub-opcode is unused. */
  lemma ExtensionSingleDecodes(x: Fields, pc: u32, f: Fetcher, limm: nat)
    requires x.Fit() && x.major == 5 && x.sub !in {0, 1, 2, 3, 6, 7, 8, 0x0A, 0x0B, 0x28, 0x29} && Supplies(f, pc, limm)
    ensures var w := WordOf(x);
            Decode32(w, pc, f) ==
            if x.sub != 0x2F || x.a > 8 || x.p >= 2 then InstructionError
            else Insn(ExtForm, w, [Reg(x.b), OneSrc(x.p, x.a, x.c, limm)], 4, TakesLimm(x.p, x.a, x.c), pc)
  {
    hide Bits, WordOf, Finish, OneSource, OneSrc, TakesLimm;
    FieldsOf(x);
    BIs(x);
    if x.p != 2 {
      OneSourceIs(ExtForm, x, pc, f, limm, true, [Fixed(Reg(x.b))], [Reg(x.b)]);
    }
  }

  /** What is no instruction: major opcodes above 5, the unused sub-opcodes of the general forms, and the operand formats the
      special forms lack. Zero-operand forms are B = 1 to 5. */
  lemma UndefinedWords(x: Fields, pc: u32, f: Fetcher)
    requires x.Fit()
    ensures var d := Decode32(WordOf(x), pc, f);
            && (x.major > 5 ==> d == InstructionError)
            && (x.major == 4 && (x.sub in {0x1E, 0x1F, 0x24, 0x25, 0x26, 0x27, 0x2C, 0x2D, 0x2E} || x.sub >= 0x38) ==> d == InstructionError)
            && (x.major == 4 && x.sub in {0x29, 0x2F} && x.p == 2 ==> d == InstructionError)
            && (x.major == 4 && x.sub in {0x2A, 0x2B} && x.p == 3 ==> d == InstructionError)
            && (x.major == 4 && x.sub == 0x28 && x.p == 0 ==> d == InstructionError)
            && (x.major == 4 && x.sub == 0x2F && x.p != 2 && x.a == 0x3F ==>
                  d == if 1 <= x.b <= 5 then Insn(ZeroForm, WordOf(x), [], 4, false, pc) else InstructionError)
  {
    hide Bits, WordOf, Finish, OneSource, DecodeAlu, DecodeLoadReg, DecodeJump;
    FieldsOf(x);
    BIs(x);
  }

  // ----- Sixteen bits -----

  /** The half-word with a short register B and a high register H, its upper part at the bottom. */
  function HighRegHalf(b: nat, high: nat, i: nat): nat { 0x7000 + b * 0x100 + high % 8 * 0x20 + i * 8 + high / 8 }

  /** The eight short registers are r0 to r3 and r12 to r15. */
  function Short(b: nat): nat { if b < 4 then b else 12 + (b - 4) }

  /** MOV_S, CMP_S and ADD_S with a high register: B and H, exchanged in the fourth form. */
  lemma HighRegDecodes(b: nat, high: nat, i: nat, pc: u32, f: Fetcher, limm: nat)
    requires b < 8 && high < 64 && i < 4 && f.word(Wrap(pc + 2)) == MemorySystem.Ok(limm)
    ensures var h := HighRegHalf(b, high, i);
            Decode16(h, pc, f) ==
            if i == 3 && high == 63 then InstructionError
            else Insn(HighRegForm, h, if i == 3 then [Reg(high), Reg(Short(b))] else [Reg(Short(b)), Src(high, limm)], 2, high == 62, pc)
  {
    hide Bits;
    HighRegBits(b, high, i);
  }

  lemma HighRegBits(b: nat, high: nat, i: nat)
    requires b < 8 && high < 64 && i < 4
    ensures var h := HighRegHalf(b, high, i);
            && Bits(h, 15, 11) == 0x0E && Bits(h, 10, 8) == b && Bits(h, 7, 5) == high % 8 && Bits(h, 4, 3) == i
            && Bits(h, 2, 0) == high / 8
  {
    hide Bits, Alu.Power2;
    Powers();
    var h := HighRegHalf(b, high, i);
    FieldIs(h, 15, 11, b * 0x100 + high % 8 * 0x20 + i * 8 + high / 8, 0x0E, 0, 0x800, 0x20);
    FieldIs(h, 10, 8, high % 8 * 0x20 + i * 8 + high / 8, b, 0x0E, 0x100, 8);
    FieldIs(h, 7, 5, i * 8 + high / 8, high % 8, 0x70 + b, 0x20, 8);
    FieldIs(h, 4, 3, high / 8, i, 0x380 + b * 8 + high % 8, 8, 4);
    FieldIs(h, 2, 0, 0, high / 8, 0xE00 + b * 0x20 + high % 8 * 4 + i, 1, 8);
  }

  /** The other 16-bit forms, by the arithmetic of the half-word: which are instructions. Majors 0x0C to 0x1F are, but for the
      unused codes of the general form 0x0F and of the stack form 0x18. */
  lemma ShortFormsAre(h: nat, pc: u32, f: Fetcher)
    requires h < 0x1_0000 && h / 0x800 != 0x0E
    ensures var general, stack := h / 0x800 == 0x0F, h / 0x800 == 0x18;
            var b, c, i := h / 0x100 % 8, h / 0x20 % 8, h % 0x20;
            var unused := h / 0x800 < 0x0C
                          || (general && i == 0 && (c == 4 || c == 5 || (c == 7 && 1 <= b <= 3)))
                          || (general && (i == 1 || i == 3 || 8 <= i <= 10 || i == 0x0C || i == 0x17))
                          || (stack && c == 5 && b > 1) || (stack && c >= 6 && i != 1 && i != 0x11);
            Decode16(h, pc, f) == if unused then InstructionError else Insn(ShortForm, h, [], 2, false, pc)
  {
    hide Bits;
    HalfFields(h);
  }

  lemma HalfFields(h: nat)
    requires h < 0x1_0000
    ensures Bits(h, 15, 11) == h / 0x800 && Bits(h, 10, 8) == h / 0x100 % 8 && Bits(h, 7, 5) == h / 0x20 % 8 && Bits(h, 4, 0) == h % 0x20
  {
    hide Bits, Alu.Power2;
    Powers();
    FieldIs(h, 15, 11, h % 0x800, h / 0x800, 0, 0x800, 0x20);
    FieldIs(h, 10, 8, h % 0x100, h / 0x100 % 8, h / 0x800, 0x100, 8);
    LowHalfFields(h);
  }

  lemma LowHalfFields(h: nat)
    requires h < 0x1_0000
    ensures Bits(h, 7, 5) == h / 0x20 % 8 && Bits(h, 4, 0) == h % 0x20
  {
    hide Bits, Alu.Power2;
    Powers();
    FieldIs(h, 7, 5, h % 0x20, h / 0x20 % 8, h / 0x100, 0x20, 8);
    FieldIs(h, 4, 0, 0, h % 0x20, h / 0x20, 1, 0x20);
  }

  // ----- Fetch and size -----

  /** The decoder reads the half-words of a word in order, and takes a half-word alone exactly when its top five bits are at
      least 0x0C. */
  lemma DecodeReadsTheWord(w: nat, pc: u32, f: Fetcher)
    requires w < 0x1_0000_0000
    requires f.half(pc) == MemorySystem.Ok(w / 0x1_0000) && f.half(Wrap(pc + 2)) == MemorySystem.Ok(w % 0x1_0000)
    ensures Decode(pc, f) == if w / 0x800_0000 < 0x0C then Decode32(w, pc, f) else Decode16(w / 0x1_0000, pc, f)
  {
    hide Bits, Decode32, Decode16, Alu.Power2;
    Powers();
    var first := w / 0x1_0000;
    FieldIs(first, 15, 11, first % 0x800, first / 0x800, 0, 0x800, 0x20);
    assert w == first * 0x1_0000 + w % 0x1_0000 && first / 0x800 == w / 0x800_0000;
  }
}
