/** The decoder's reading discipline. Every form of the 32-bit decoder and the one 16-bit form that takes a long
    immediate are here with their checks and operands; the other fields of an instruction are functions of its
    first half-word or word, which the model carries whole. */
module Decoder {
  import opened Words
  import opened MemorySystem
  import opened FetchPort
  import IC = InstructionCache

  const LIMM := 62

  datatype Operand = Reg(r: nat) | Imm(val: nat) | NoOperand

  datatype Form =
    | BranchForm | BranchLinkForm | BranchCompareForm | LoadForm | StoreForm | LoadRegForm | AluForm | SingleForm
    | ZeroForm | JumpForm | LoopForm | FlagForm | LoadAuxForm | StoreAuxForm | ExtForm | HighRegForm | ShortForm

  datatype Decoded =
    | Insn(form: Form, encoding: nat, operands: seq<Operand>, size: nat, hasLimm: bool, pc: u32)
    | InstructionError
    | FetchError(why: Fetched)

  function TotalSize(d: Decoded): nat
    requires d.Insn?
  {
    d.size + if d.hasLimm then 4 else 0
  }

  /** What the decoder needs of its backing store. */
  datatype Fetcher = Fetcher(half: u32 -> Fetched, word: u32 -> Fetched)

  // ----- Fields -----

  function Shifted(val: nat, lo: nat): nat
    decreases lo
  {
    if lo == 0 then val else Shifted(val / 2, lo - 1)
  }

  function Low(val: nat, width: nat): nat
    decreases width
  {
    if width == 0 then 0 else val % 2 + 2 * Low(val / 2, width - 1)
  }

  function Bits(val: nat, hi: nat, lo: nat): nat
    requires lo <= hi
  {
    Low(Shifted(val, lo), hi - lo + 1)
  }

  predicate BitSet(val: nat, i: nat) { Bits(val, i, i) == 1 }

  function BReg(w: nat): nat { Bits(w, 14, 12) * 8 + Bits(w, 26, 24) }

  function CReg(w: nat): nat { Bits(w, 11, 6) }

  function AReg(w: nat): nat { Bits(w, 5, 0) }

  function PField(w: nat): nat { Bits(w, 23, 22) }

  /** A two's complement field of the given weight, sign-extended to 32 bits. */
  function SignExtended(raw: nat, half: nat): u32 { Wrap(if raw >= half then raw - 2 * half else raw) }

  function S9(w: nat): u32 { SignExtended(Bits(w, 15, 15) * 0x100 + Bits(w, 23, 16), 0x100) }

  function S12(w: nat): u32 { SignExtended(Bits(w, 5, 0) * 0x40 + Bits(w, 11, 6), 0x800) }

  predicate ValidCondition(w: nat) { Bits(w, 4, 0) < 16 }

  /** An operand before the long immediate is known: `Source(r)` is register r, or the immediate if r is 62. */
  datatype Slot = Fixed(operand: Operand) | Source(reg: nat)

  function Resolve(slot: Slot, limm: nat): Operand {
    if slot.Fixed? then slot.operand else if slot.reg == LIMM then Imm(limm) else Reg(slot.reg)
  }

  function ResolveAll(slots: seq<Slot>, limm: nat): seq<Operand> {
    if slots == [] then [] else [Resolve(slots[0], limm)] + ResolveAll(slots[1..], limm)
  }

  // ----- The 32-bit decoder -----

  /** Fetch the long immediate if the form needs it, then build the operands unless the form is invalid. */
  function Finish(form: Form, w: nat, pc: u32, f: Fetcher, needs: bool, valid: bool, slots: seq<Slot>): Decoded {
    if needs then
      match f.word(Wrap(pc + 4))
      case Ok(limm) => if valid then Insn(form, w, ResolveAll(slots, limm), 4, true, pc) else InstructionError
      case e => FetchError(e)
    else if valid then Insn(form, w, ResolveAll(slots, 0), 4, false, pc)
    else InstructionError
  }

  function NoLimm(form: Form, w: nat, pc: u32, valid: bool, ops: seq<Operand>): Decoded {
    if valid then Insn(form, w, ops, 4, false, pc) else InstructionError
  }

  /** The 21-bit offset of a conditional branch and the 25-bit one of a far branch, in half-words. */
  function BranchOffset(w: nat): u32 {
    var low := Bits(w, 15, 6) * 0x400 + Bits(w, 26, 17);
    if BitSet(w, 16) then SignExtended((Bits(w, 3, 0) * 0x10_0000 + low) * 2, 0x100_0000) else SignExtended(low * 2, 0x10_0000)
  }

  /** The same for branch-and-link, in longwords. */
  function LinkOffset(w: nat): u32 {
    var low := Bits(w, 15, 6) * 0x200 + Bits(w, 26, 18);
    if BitSet(w, 17) then SignExtended((Bits(w, 3, 0) * 0x8_0000 + low) * 4, 0x100_0000) else SignExtended(low * 4, 0x10_0000)
  }

  function CompareOffset(w: nat): u32 { SignExtended(Bits(w, 15, 15) * 0x100 + Bits(w, 23, 17) * 2, 0x100) }

  function DecodeBranch(w: nat, pc: u32): Decoded {
    NoLimm(BranchForm, w, pc, if BitSet(w, 16) then !BitSet(w, 4) else ValidCondition(w), [Imm(BranchOffset(w))])
  }

  function DecodeBranchLinkOrCompare(w: nat, pc: u32, f: Fetcher): Decoded {
    if BitSet(w, 16) then
      var b, c, isImm, kind := BReg(w), CReg(w), BitSet(w, 4), Bits(w, 3, 0);
      if kind > 5 && kind != 14 && kind != 15 then InstructionError
      else
        Finish(BranchCompareForm, w, pc, f, (!isImm && c == LIMM) || b == LIMM, true,
               [Source(b), if isImm then Fixed(Imm(c)) else Source(c), Fixed(Imm(CompareOffset(w)))])
    else NoLimm(BranchLinkForm, w, pc, BitSet(w, 17) || ValidCondition(w), [Imm(LinkOffset(w))])
  }

  /** LP_COUNT, the extension registers and PCL cannot be loaded. */
  predicate Loadable(a: nat) { a < 32 || a == 61 || a == LIMM }

  function LoadDest(a: nat): Slot { Fixed(if a == LIMM then NoOperand else Reg(a)) }

  function DecodeLoad(w: nat, pc: u32, f: Fetcher): Decoded {
    var a, b, aa, zz := AReg(w), BReg(w), Bits(w, 10, 9), Bits(w, 8, 7);
    if zz == 3 || (b == LIMM && (aa == 1 || aa == 2)) || !Loadable(a) then InstructionError
    else Finish(LoadForm, w, pc, f, b == LIMM, true, [LoadDest(a), Source(b), Fixed(Imm(S9(w)))])
  }

  function DecodeStore(w: nat, pc: u32, f: Fetcher): Decoded {
    var b, c, aa, zz := BReg(w), CReg(w), Bits(w, 4, 3), Bits(w, 2, 1);
    if zz == 3 || (b == LIMM && (aa == 1 || aa == 2)) then InstructionError
    else
      Finish(StoreForm, w, pc, f, b == LIMM || c == LIMM, true,
             [Source(c), Source(b), Fixed(Imm(S9(w)))])
  }

  function DecodeLoadReg(w: nat, pc: u32, f: Fetcher): Decoded {
    var a, b, c := AReg(w), BReg(w), CReg(w);
    if Bits(w, 18, 17) == 3 || !Loadable(a) then InstructionError
    else
      Finish(LoadRegForm, w, pc, f, b == LIMM || c == LIMM, true,
             [LoadDest(a), Source(b), Source(c)])
  }

  predicate IsMov(op: nat) { op == 0x0A }

  predicate IsTestOnly(op: nat) { op == 0x0B || op == 0x0C || op == 0x0D || op == 0x11 }

  /** The operands of a two-source operation; MOV ignores its first source and a test its destination. */
  function AluSlots(op: nat, dst: Slot, b: nat, src2: Slot): seq<Slot> {
    if IsMov(op) then [Fixed(Reg(b)), Fixed(NoOperand), src2]
    else if IsTestOnly(op) then [Fixed(NoOperand), Source(b), src2]
    else [dst, Source(b), src2]
  }

  function DecodeAlu(w: nat, pc: u32, op: nat, f: Fetcher): Decoded {
    var a, b, c, p := AReg(w), BReg(w), CReg(w), PField(w);
    var fromReg := if IsMov(op) || IsTestOnly(op) then c == LIMM else b == LIMM || c == LIMM;
    var fromB := !IsMov(op) && b == LIMM;
    if p == 0 then
      Finish(AluForm, w, pc, f, fromReg, true, AluSlots(op, Source(a), b, Source(c)))
    else if p == 1 then
      Finish(AluForm, w, pc, f, fromB, true, AluSlots(op, Source(a), b, Fixed(Imm(c))))
    else if p == 2 then
      Finish(AluForm, w, pc, f, fromB, true, AluSlots(op, Fixed(Reg(b)), b, Fixed(Imm(S12(w)))))
    else if !ValidCondition(w) then InstructionError
    else if !BitSet(w, 5) then
      Finish(AluForm, w, pc, f, fromReg, true, AluSlots(op, Fixed(Reg(b)), b, Source(c)))
    else
      Finish(AluForm, w, pc, f, fromB, true, AluSlots(op, Fixed(Reg(b)), b, Fixed(Imm(c))))
  }

  /** A source that is register C, the 6-bit immediate, or one of the two under a condition. */
  function OneSource(form: Form, w: nat, pc: u32, f: Fetcher, valid: bool, before: seq<Slot>): Decoded {
    var c, p := CReg(w), PField(w);
    if p == 3 && !ValidCondition(w) then InstructionError
    else if p == 0 || (p == 3 && !BitSet(w, 5)) then
      Finish(form, w, pc, f, c == LIMM, valid, before + [Source(c)])
    else NoLimm(form, w, pc, valid, ResolveAll(before, 0) + [Imm(c)])
  }

  function DecodeSingle(w: nat, pc: u32, f: Fetcher): Decoded {
    var a, b := AReg(w), BReg(w);
    if PField(w) == 2 then InstructionError
    else if a == 0x3F then NoLimm(ZeroForm, w, pc, 1 <= b <= 5, [])
    else if a > 0x0C then InstructionError
    else OneSource(SingleForm, w, pc, f, true, [Fixed(Reg(b))])
  }

  function DecodeJump(w: nat, pc: u32, f: Fetcher): Decoded {
    var c, p, flag := CReg(w), PField(w), BitSet(w, 15);
    var isLink := c == 29 || c == 30;
    if p == 2 then NoLimm(JumpForm, w, pc, true, [Imm(S12(w))])
    else
      var fromReg := p == 0 || (p == 3 && !BitSet(w, 5));
      OneSource(JumpForm, w, pc, f, p == 1 || (flag ==> fromReg && isLink), [])
  }

  function DecodeLoop(w: nat, pc: u32): Decoded {
    var p := PField(w);
    if p == 0 then InstructionError
    else if p == 2 then NoLimm(LoopForm, w, pc, true, [Imm(Wrap(S12(w) * 2))])
    else NoLimm(LoopForm, w, pc, p == 1 || ValidCondition(w), [Imm(CReg(w) * 2)])
  }

  function DecodeFlag(w: nat, pc: u32, f: Fetcher): Decoded {
    if PField(w) == 2 then InstructionError else OneSource(FlagForm, w, pc, f, true, [])
  }

  function DecodeLoadAux(w: nat, pc: u32, f: Fetcher): Decoded {
    var p, b := PField(w), BReg(w);
    if p == 3 then InstructionError
    else if p == 2 then NoLimm(LoadAuxForm, w, pc, true, [Reg(b), Imm(S12(w))])
    else OneSource(LoadAuxForm, w, pc, f, true, [Fixed(Reg(b))])
  }

  function DecodeStoreAux(w: nat, pc: u32, f: Fetcher): Decoded {
    var p, b, c := PField(w), BReg(w), CReg(w);
    if p == 3 then InstructionError
    else
      Finish(StoreAuxForm, w, pc, f, b == LIMM || (p == 0 && c == LIMM), true,
             [Source(b), if p == 0 then Source(c) else Fixed(Imm(if p == 1 then c else S12(w)))])
  }

  function DecodeSpecial(w: nat, pc: u32, sub: nat, f: Fetcher): Decoded {
    if 0x20 <= sub <= 0x23 then DecodeJump(w, pc, f)
    else if sub == 0x28 then DecodeLoop(w, pc)
    else if sub == 0x29 then DecodeFlag(w, pc, f)
    else if sub == 0x2A then DecodeLoadAux(w, pc, f)
    else if sub == 0x2B then DecodeStoreAux(w, pc, f)
    else InstructionError
  }

  function DecodeGeneral(w: nat, pc: u32, f: Fetcher): Decoded {
    var sub := Bits(w, 21, 16);
    if 0x30 <= sub < 0x38 then DecodeLoadReg(w, pc, f)
    else if sub == 0x2F then DecodeSingle(w, pc, f)
    else if sub >= 0x20 then DecodeSpecial(w, pc, sub, f)
    else if sub > 0x1D then InstructionError
    else DecodeAlu(w, pc, sub, f)
  }

  function DecodeExtension(w: nat, pc: u32, f: Fetcher): Decoded {
    var sub, p, a, b, c := Bits(w, 21, 16), PField(w), AReg(w), BReg(w), CReg(w);
    if sub == 0x2F then
      if a > 8 || p >= 2 then InstructionError
      else OneSource(ExtForm, w, pc, f, true, [Fixed(Reg(b))])
    else if sub !in {0, 1, 2, 3, 6, 7, 8, 0x0A, 0x0B, 0x28, 0x29} then InstructionError
    else if p == 3 && !ValidCondition(w) then InstructionError
    else
      var fromC := p == 0 || (p == 3 && !BitSet(w, 5));
      Finish(ExtForm, w, pc, f, b == LIMM || (fromC && c == LIMM), true,
             [if p <= 1 then Source(a) else Fixed(Reg(b)), Source(b),
              if fromC then Source(c) else Fixed(Imm(if p == 2 then S12(w) else c))])
  }

  function Decode32(w: nat, pc: u32, f: Fetcher): Decoded {
    match Bits(w, 31, 27)
    case 0 => DecodeBranch(w, pc)
    case 1 => DecodeBranchLinkOrCompare(w, pc, f)
    case 2 => DecodeLoad(w, pc, f)
    case 3 => DecodeStore(w, pc, f)
    case 4 => DecodeGeneral(w, pc, f)
    case 5 => DecodeExtension(w, pc, f)
    case _ => InstructionError
  }

  // ----- The 16-bit decoder -----

  /** R0-R3 and R12-R15. */
  function ShortReg(enc: nat): nat { if enc < 4 then enc else enc + 8 }

  /** MOV_S, CMP_S and ADD_S with a high register: the only 16-bit form with a long immediate. */
  function DecodeHighReg(h: nat, pc: u32, f: Fetcher): Decoded {
    var b, high, i := ShortReg(Bits(h, 10, 8)), Bits(h, 2, 0) * 8 + Bits(h, 7, 5), Bits(h, 4, 3);
    if high == LIMM then
      match f.word(Wrap(pc + 2))
      case Ok(limm) => Insn(HighRegForm, h, if i == 3 then [Reg(high), Reg(b)] else [Reg(b), Imm(limm)], 2, true, pc)
      case e => FetchError(e)
    else if i == 3 && high == 63 then InstructionError
    else Insn(HighRegForm, h, if i == 3 then [Reg(high), Reg(b)] else [Reg(b), Reg(high)], 2, false, pc)
  }

  /** Which half-words of the general 16-bit form are instructions. */
  predicate GeneralShort(h: nat) {
    var b, c, i := Bits(h, 10, 8), Bits(h, 7, 5), Bits(h, 4, 0);
    if i == 0 then (if c == 7 then b == 0 || b >= 4 else c <= 3 || c == 6)
    else i == 2 || 4 <= i <= 7 || i == 0x0B || 0x0D <= i <= 0x16 || i >= 0x18
  }

  /** Which of the forms based on SP are: the add and subtract, and the pops and pushes, have unused encodings. */
  predicate StackShort(h: nat) {
    var b, i, u := Bits(h, 10, 8), Bits(h, 7, 5), Bits(h, 4, 0);
    i <= 4 || (i == 5 && b <= 1) || (i >= 6 && (u == 0x01 || u == 0x11))
  }

  function Decode16(h: nat, pc: u32, f: Fetcher): Decoded {
    var major := Bits(h, 15, 11);
    if major == 0x0E then DecodeHighReg(h, pc, f)
    else if major < 0x0C || (major == 0x0F && !GeneralShort(h)) || (major == 0x18 && !StackShort(h)) then InstructionError
    else Insn(ShortForm, h, [], 2, false, pc)
  }

  function Decode(pc: u32, f: Fetcher): Decoded {
    match f.half(pc)
    case Ok(first) =>
      if Bits(first, 15, 11) < 0x0C then
        match f.half(Wrap(pc + 2))
        case Ok(second) => Decode32(first * 0x1_0000 + second, pc, f)
        case e => FetchError(e)
      else Decode16(first, pc, f)
    case e => FetchError(e)
  }

  // ----- The footprint -----

  /** Two decodes of the same first word through different fetchers: a success that read no long immediate is the
      success of both, and one that did is shared if the immediate is. */
  ghost predicate SameFootprint(d: Decoded, d': Decoded, f: Fetcher, g: Fetcher, pc: u32, size: nat) {
    && (d.Insn? ==> d.size == size && d.pc == pc)
    && (d.Insn? && !d.hasLimm ==> d' == d)
    && (f.word(Wrap(pc + size)) == g.word(Wrap(pc + size)) ==> d' == d)
  }

  /** A form that takes the long immediate fetched it, and another immediate makes another instruction. */
  ghost predicate ImmediateMatters(d: Decoded, d': Decoded, f: Fetcher, g: Fetcher, at: u32) {
    d.Insn? && d.hasLimm ==>
      && f.word(at).Ok?
      && (g.word(at).Ok? && g.word(at) != f.word(at) ==> d' != d)
  }

  /** One decode through two fetchers: how much of them it sees, no more and no less. */
  ghost predicate ExactFootprint(d: Decoded, d': Decoded, f: Fetcher, g: Fetcher, pc: u32) {
    SameFootprint(d, d', f, g, pc, 4) && ImmediateMatters(d, d', f, g, Wrap(pc + 4))
  }

  lemma {:induction false} ResolvedAt(slots: seq<Slot>, limm: nat, i: nat)
    requires i < |slots|
    ensures |ResolveAll(slots, limm)| == |slots| && ResolveAll(slots, limm)[i] == Resolve(slots[i], limm)
  {
    if i > 0 {
      ResolvedAt(slots[1..], limm, i - 1);
    } else if |slots| > 1 {
      ResolvedAt(slots[1..], limm, 0);
    }
  }

  lemma FinishFootprint(form: Form, w: nat, pc: u32, f: Fetcher, g: Fetcher, needs: bool, valid: bool, slots: seq<Slot>)
    requires needs ==> Source(LIMM) in slots
    ensures ExactFootprint(Finish(form, w, pc, f, needs, valid, slots), Finish(form, w, pc, g, needs, valid, slots), f, g, pc)
  {
    hide ResolveAll;
    var at := Wrap(pc + 4);
    if needs && f.word(at).Ok? && g.word(at).Ok? && f.word(at) != g.word(at) {
      var i :| 0 <= i < |slots| && slots[i] == Source(LIMM);
      ResolvedAt(slots, f.word(at).val, i);
      ResolvedAt(slots, g.word(at).val, i);
    }
  }

  lemma NoFetchFootprint(d: Decoded, f: Fetcher, g: Fetcher, pc: u32)
    requires d.Insn? ==> d.size == 4 && d.pc == pc && !d.hasLimm
    ensures ExactFootprint(d, d, f, g, pc)
  {
  }

  lemma OneSourceFootprint(form: Form, w: nat, pc: u32, f: Fetcher, g: Fetcher, valid: bool, before: seq<Slot>)
    ensures ExactFootprint(OneSource(form, w, pc, f, valid, before), OneSource(form, w, pc, g, valid, before), f, g, pc)
  {
    hide Bits, ResolveAll, Finish, ExactFootprint;
    if CReg(w) == LIMM {
      assert (before + [Source(CReg(w))])[|before|] == Source(LIMM);
    }
    FinishFootprint(form, w, pc, f, g, CReg(w) == LIMM, valid, before + [Source(CReg(w))]);
    NoFetchFootprint(NoLimm(form, w, pc, valid, ResolveAll(before, 0) + [Imm(CReg(w))]), f, g, pc);
    NoFetchFootprint(InstructionError, f, g, pc);
  }

  /** Both long-immediate slots of an ALU form, the register one and the B one. */
  lemma AluSlotsTakeIt(op: nat, dst: Slot, b: nat, c: nat, src2: Slot)
    ensures (if IsMov(op) || IsTestOnly(op) then c == LIMM else b == LIMM || c == LIMM) ==>
              Source(LIMM) in AluSlots(op, dst, b, Source(c))
    ensures !IsMov(op) && b == LIMM ==> Source(LIMM) in AluSlots(op, dst, b, src2)
  {
    hide IsMov, IsTestOnly;
    if IsMov(op) {
      assert AluSlots(op, dst, b, Source(c))[2] == Source(c);
    } else {
      assert AluSlots(op, dst, b, Source(c))[2] == Source(c) && AluSlots(op, dst, b, Source(c))[1] == Source(b);
      assert AluSlots(op, dst, b, src2)[1] == Source(b);
    }
  }

  lemma AluFootprint(w: nat, pc: u32, op: nat, f: Fetcher, g: Fetcher)
    ensures ExactFootprint(DecodeAlu(w, pc, op, f), DecodeAlu(w, pc, op, g), f, g, pc)
  {
    hide Bits, Finish, AluSlots, ExactFootprint, S12, IsMov, IsTestOnly;
    forall needs: bool, slots: seq<Slot> | needs ==> Source(LIMM) in slots
      ensures ExactFootprint(Finish(AluForm, w, pc, f, needs, true, slots), Finish(AluForm, w, pc, g, needs, true, slots), f, g, pc)
    {
      FinishFootprint(AluForm, w, pc, f, g, needs, true, slots);
    }
    forall dst: Slot, src2: Slot
      ensures (if IsMov(op) || IsTestOnly(op) then CReg(w) == LIMM else BReg(w) == LIMM || CReg(w) == LIMM) ==>
                Source(LIMM) in AluSlots(op, dst, BReg(w), Source(CReg(w)))
      ensures !IsMov(op) && BReg(w) == LIMM ==> Source(LIMM) in AluSlots(op, dst, BReg(w), src2)
    {
      AluSlotsTakeIt(op, dst, BReg(w), CReg(w), src2);
    }
    NoFetchFootprint(InstructionError, f, g, pc);
  }

  lemma SpecialFootprint(w: nat, pc: u32, sub: nat, f: Fetcher, g: Fetcher)
    ensures ExactFootprint(DecodeSpecial(w, pc, sub, f), DecodeSpecial(w, pc, sub, g), f, g, pc)
  {
    hide Bits, S12, ResolveAll, OneSource, Finish, ExactFootprint;
    forall form: Form, valid: bool, before: seq<Slot>
      ensures ExactFootprint(OneSource(form, w, pc, f, valid, before), OneSource(form, w, pc, g, valid, before), f, g, pc)
    {
      OneSourceFootprint(form, w, pc, f, g, valid, before);
    }
    forall form: Form, valid: bool, ops: seq<Operand>
      ensures ExactFootprint(NoLimm(form, w, pc, valid, ops), NoLimm(form, w, pc, valid, ops), f, g, pc)
    {
      NoFetchFootprint(NoLimm(form, w, pc, valid, ops), f, g, pc);
    }
    StoreAuxFootprint(w, pc, f, g);
    hide DecodeStoreAux, NoLimm;
    NoFetchFootprint(InstructionError, f, g, pc);
  }

  lemma StoreAuxFootprint(w: nat, pc: u32, f: Fetcher, g: Fetcher)
    ensures ExactFootprint(DecodeStoreAux(w, pc, f), DecodeStoreAux(w, pc, g), f, g, pc)
  {
    hide Bits, S12, ResolveAll, Finish, ExactFootprint;
    var p, b, c := PField(w), BReg(w), CReg(w);
    var slots := [Source(b), if p == 0 then Source(c) else Fixed(Imm(if p == 1 then c else S12(w)))];
    assert slots[0] == Source(b) && (p == 0 ==> slots[1] == Source(c));
    FinishFootprint(StoreAuxForm, w, pc, f, g, b == LIMM || (p == 0 && c == LIMM), true, slots);
    NoFetchFootprint(InstructionError, f, g, pc);
  }

  lemma LoadRegFootprint(w: nat, pc: u32, f: Fetcher, g: Fetcher)
    ensures ExactFootprint(DecodeLoadReg(w, pc, f), DecodeLoadReg(w, pc, g), f, g, pc)
  {
    hide Bits, ResolveAll, Finish, ExactFootprint;
    var b, c := BReg(w), CReg(w);
    var slots := [LoadDest(AReg(w)), Source(b), Source(c)];
    assert slots[1] == Source(b) && slots[2] == Source(c);
    FinishFootprint(LoadRegForm, w, pc, f, g, b == LIMM || c == LIMM, true, slots);
    NoFetchFootprint(InstructionError, f, g, pc);
  }

  lemma SingleFootprint(w: nat, pc: u32, f: Fetcher, g: Fetcher)
    ensures ExactFootprint(DecodeSingle(w, pc, f), DecodeSingle(w, pc, g), f, g, pc)
  {
    hide Bits, ResolveAll, OneSource, ExactFootprint;
    OneSourceFootprint(SingleForm, w, pc, f, g, true, [Fixed(Reg(BReg(w)))]);
    NoFetchFootprint(NoLimm(ZeroForm, w, pc, 1 <= BReg(w) <= 5, []), f, g, pc);
    NoFetchFootprint(InstructionError, f, g, pc);
  }

  lemma GeneralFootprint(w: nat, pc: u32, f: Fetcher, g: Fetcher)
    ensures ExactFootprint(DecodeGeneral(w, pc, f), DecodeGeneral(w, pc, g), f, g, pc)
  {
    hide DecodeAlu, DecodeSpecial, DecodeSingle, DecodeLoadReg, Bits, ExactFootprint;
    var sub := Bits(w, 21, 16);
    AluFootprint(w, pc, sub, f, g);
    SpecialFootprint(w, pc, sub, f, g);
    SingleFootprint(w, pc, f, g);
    LoadRegFootprint(w, pc, f, g);
    NoFetchFootprint(InstructionError, f, g, pc);
  }

  lemma ExtensionFootprint(w: nat, pc: u32, f: Fetcher, g: Fetcher)
    ensures ExactFootprint(DecodeExtension(w, pc, f), DecodeExtension(w, pc, g), f, g, pc)
  {
    hide Bits, ResolveAll, S12, OneSource, Finish, ExactFootprint;
    var p, a, b, c := PField(w), AReg(w), BReg(w), CReg(w);
    var fromC := p == 0 || (p == 3 && !BitSet(w, 5));
    var slots := [if p <= 1 then Source(a) else Fixed(Reg(b)), Source(b),
                  if fromC then Source(c) else Fixed(Imm(if p == 2 then S12(w) else c))];
    assert slots[1] == Source(b) && (fromC ==> slots[2] == Source(c));
    FinishFootprint(ExtForm, w, pc, f, g, b == LIMM || (fromC && c == LIMM), true, slots);
    OneSourceFootprint(ExtForm, w, pc, f, g, true, [Fixed(Reg(b))]);
    NoFetchFootprint(InstructionError, f, g, pc);
  }

  lemma MemoryFootprint(w: nat, pc: u32, f: Fetcher, g: Fetcher)
    ensures ExactFootprint(DecodeLoad(w, pc, f), DecodeLoad(w, pc, g), f, g, pc)
    ensures ExactFootprint(DecodeStore(w, pc, f), DecodeStore(w, pc, g), f, g, pc)
  {
    hide Bits, ResolveAll, S9, Finish, ExactFootprint;
    var b, c := BReg(w), CReg(w);
    var loads, stores := [LoadDest(AReg(w)), Source(b), Fixed(Imm(S9(w)))], [Source(c), Source(b), Fixed(Imm(S9(w)))];
    assert loads[1] == Source(b) && stores[0] == Source(c) && stores[1] == Source(b);
    FinishFootprint(LoadForm, w, pc, f, g, b == LIMM, true, loads);
    FinishFootprint(StoreForm, w, pc, f, g, b == LIMM || c == LIMM, true, stores);
    NoFetchFootprint(InstructionError, f, g, pc);
  }

  lemma BranchFootprint(w: nat, pc: u32, f: Fetcher, g: Fetcher)
    ensures ExactFootprint(DecodeBranch(w, pc), DecodeBranch(w, pc), f, g, pc)
    ensures ExactFootprint(DecodeBranchLinkOrCompare(w, pc, f), DecodeBranchLinkOrCompare(w, pc, g), f, g, pc)
  {
    hide Bits, ResolveAll, Finish, ExactFootprint, BranchOffset, LinkOffset, CompareOffset;
    var b, c, isImm := BReg(w), CReg(w), BitSet(w, 4);
    var slots := [Source(b), if isImm then Fixed(Imm(c)) else Source(c), Fixed(Imm(CompareOffset(w)))];
    assert slots[0] == Source(b) && (!isImm ==> slots[1] == Source(c));
    FinishFootprint(BranchCompareForm, w, pc, f, g, (!isImm && c == LIMM) || b == LIMM, true, slots);
    NoFetchFootprint(DecodeBranch(w, pc), f, g, pc);
    NoFetchFootprint(NoLimm(BranchLinkForm, w, pc, BitSet(w, 17) || ValidCondition(w), [Imm(LinkOffset(w))]), f, g, pc);
    NoFetchFootprint(InstructionError, f, g, pc);
  }

  /** A 32-bit form takes the long immediate exactly when its size says so: without, any other fetcher gives the same
      instruction; with, the immediate was fetched and another one gives another instruction. */
  lemma Footprint32(w: nat, pc: u32, f: Fetcher, g: Fetcher)
    ensures ExactFootprint(Decode32(w, pc, f), Decode32(w, pc, g), f, g, pc)
  {
    hide DecodeBranch, DecodeBranchLinkOrCompare, DecodeLoad, DecodeStore, DecodeGeneral, DecodeExtension, Bits, ExactFootprint;
    BranchFootprint(w, pc, f, g);
    MemoryFootprint(w, pc, f, g);
    GeneralFootprint(w, pc, f, g);
    ExtensionFootprint(w, pc, f, g);
    NoFetchFootprint(InstructionError, f, g, pc);
  }

  /** A 16-bit form fetches the long immediate exactly when its size says so. One of them, MOV_S to the high register 62,
      fetches it and makes no use of it. */
  lemma Footprint16(h: nat, pc: u32, f: Fetcher, g: Fetcher)
    ensures var d, d' := Decode16(h, pc, f), Decode16(h, pc, g);
            && SameFootprint(d, d', f, g, pc, 2)
            && (d.Insn? && d.hasLimm ==> f.word(Wrap(pc + 2)).Ok?)
            && (Bits(h, 4, 3) != 3 ==> ImmediateMatters(d, d', f, g, Wrap(pc + 2)))
            && (Bits(h, 4, 3) == 3 && d.Insn? && d'.Insn? ==> d' == d)
  {
    hide Bits, GeneralShort, StackShort;
  }

  /** The fetchers give the same answers to what a decode of total size `size` asks: the half-words of the
      instruction and, if there is one, the long immediate behind them. */
  ghost predicate AgreeOn(f: Fetcher, g: Fetcher, d: Decoded)
    requires d.Insn?
  {
    && f.half(d.pc) == g.half(d.pc)
    && (d.size == 4 ==> f.half(Wrap(d.pc + 2)) == g.half(Wrap(d.pc + 2)))
    && (d.hasLimm ==> f.word(Wrap(d.pc + d.size)) == g.word(Wrap(d.pc + d.size)))
  }

  /** A successful decode takes 2, 4, 6 or 8 bytes and depends on nothing else: any fetcher that agrees on them
      gives the same instruction. */
  lemma DecodeFootprint(pc: u32, f: Fetcher, g: Fetcher)
    ensures var d := Decode(pc, f);
            d.Insn? ==>
              && d.pc == pc && TotalSize(d) in {2, 4, 6, 8}
              && (AgreeOn(f, g, d) ==> Decode(pc, g) == d)
  {
    hide Bits, Decode32, Decode16;
    if Decode(pc, f).Insn? {
      var first := f.half(pc).val;
      if Bits(first, 15, 11) < 0x0C {
        var w := first * 0x1_0000 + f.half(Wrap(pc + 2)).val;
        Footprint32(w, pc, f, g);
      } else {
        Footprint16(first, pc, f, g);
      }
    }
  }

  // ----- Decoding a byte slice -----

  function SliceHalf(bytes: seq<byte>, base: u32, a: u32): Fetched {
    if a % 2 != 0 then Misaligned
    else if a < base || a - base + 1 >= |bytes| then OutOfRange
    else Ok(HalfOf(bytes[a - base], bytes[a - base + 1]))
  }

  function SliceWord(bytes: seq<byte>, base: u32, a: u32): Fetched {
    if a % 2 != 0 then Misaligned
    else if a < base || a - base + 3 >= |bytes| then OutOfRange
    else Ok(WordOf(bytes[a - base], bytes[a - base + 1], bytes[a - base + 2], bytes[a - base + 3]))
  }

  function SliceFetcher(bytes: seq<byte>, base: u32): Fetcher {
    Fetcher((a: u32) => SliceHalf(bytes, base, a), (a: u32) => SliceWord(bytes, base, a))
  }

  /** A fetcher over memory: each answer comes from some state of the I-cache, the states differing as lines are
      filled, but every resident line agreeing with SRAM. */
  ghost predicate Serves(f: Fetcher, sram: Sram, on: bool) {
    forall a: u32 :: HalfServed(f, sram, on, a) && WordServed(f, sram, on, a)
  }

  ghost predicate HalfServed(f: Fetcher, sram: Sram, on: bool, a: u32) {
    exists ic: IC.Lines :: FetchesSram(sram, ic) && f.half(a) == HalfFetched(sram, ic, on, a).1
  }

  ghost predicate WordServed(f: Fetcher, sram: Sram, on: bool, a: u32) {
    exists ic: IC.Lines :: FetchesSram(sram, ic) && f.word(a) == WordFetched(sram, ic, on, a).1
  }

  /** The four fetches a decode can make. */
  lemma DecodeReadsEightBytes(pc: u32, f: Fetcher, g: Fetcher)
    requires f.half(pc) == g.half(pc) && f.half(Wrap(pc + 2)) == g.half(Wrap(pc + 2))
    requires f.word(Wrap(pc + 2)) == g.word(Wrap(pc + 2)) && f.word(Wrap(pc + 4)) == g.word(Wrap(pc + 4))
    ensures Decode(pc, f) == Decode(pc, g)
  {
    hide Bits, Decode32, Decode16;
    if f.half(pc).Ok? {
      var first := f.half(pc).val;
      Footprint16(first, pc, f, g);
      if f.half(Wrap(pc + 2)).Ok? {
        Footprint32(first * 0x1_0000 + f.half(Wrap(pc + 2)).val, pc, f, g);
      }
    }
  }

  lemma SliceHalfAgrees(sram: Sram, on: bool, f: Fetcher, pc: nat, a: u32)
    requires Serves(f, sram, on) && pc + 8 <= |sram| && pc <= a && a + 1 < pc + 8
    ensures f.half(a) == SliceHalf(sram[pc..pc + 8], pc, a)
  {
    hide FetchesSram, HalfFetched, WordServed, HalfOf;
    assert HalfServed(f, sram, on, a);
    var ic: IC.Lines :| FetchesSram(sram, ic) && f.half(a) == HalfFetched(sram, ic, on, a).1;
    if a % 2 == 0 {
      FetchReturnsSram(sram, ic, on, a);
    } else {
      MisalignedFetch(sram, ic, on, a);
    }
  }

  lemma SliceWordAgrees(sram: Sram, on: bool, f: Fetcher, pc: nat, a: u32)
    requires Serves(f, sram, on) && pc + 8 <= |sram| && pc <= a && a + 3 < pc + 8
    ensures f.word(a) == SliceWord(sram[pc..pc + 8], pc, a)
  {
    hide FetchesSram, WordFetched, HalfServed, WordOf;
    assert WordServed(f, sram, on, a);
    var ic: IC.Lines :| FetchesSram(sram, ic) && f.word(a) == WordFetched(sram, ic, on, a).1;
    if a % 2 == 0 {
      FetchReturnsSram(sram, ic, on, a);
    } else {
      MisalignedFetch(sram, ic, on, a);
    }
  }

  lemma MisalignedFetch(sram: Sram, ic: IC.Lines, on: bool, a: u32)
    requires a % 2 != 0
    ensures HalfFetched(sram, ic, on, a).1 == WordFetched(sram, ic, on, a).1 == Misaligned
  {
  }

  /** Decoding the eight SRAM bytes at pc from a slice gives what decoding through memory gives, errors included,
      as long as resident I-cache lines match SRAM. */
  lemma SliceDecodesAsMemory(sram: Sram, on: bool, f: Fetcher, pc: u32)
    requires Serves(f, sram, on) && pc + 8 <= |sram|
    ensures Decode(pc, SliceFetcher(sram[pc..pc + 8], pc)) == Decode(pc, f)
  {
    hide Serves, SliceHalf, SliceWord, Decode;
    assert Wrap(pc + 2) == pc + 2 && Wrap(pc + 4) == pc + 4;
    SliceHalfAgrees(sram, on, f, pc, pc);
    SliceHalfAgrees(sram, on, f, pc, pc + 2);
    SliceWordAgrees(sram, on, f, pc, pc + 2);
    SliceWordAgrees(sram, on, f, pc, pc + 4);
    DecodeReadsEightBytes(pc, f, SliceFetcher(sram[pc..pc + 8], pc));
  }
}
