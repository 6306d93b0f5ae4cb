/** The instruction formats of the standard as numbers, and what the decoder and the core make of them. */
module Encoding {
  import opened Isa
  import opened Bits
  import opened Core
  import N = Words

  // ---------------------------------------------------------------- fields

  /** An instruction word as the sum of its fields (figure 2.2 of the standard, the register format). */
  function Sum(f7: int, rs2: int, rs1: int, f3: int, rd: int, op: int): int {
    f7 * 0x200_0000 + rs2 * 0x10_0000 + rs1 * 0x8000 + f3 * 0x1000 + rd * 0x80 + op
  }

  predicate Digits(f7: int, rs2: int, rs1: int, f3: int, rd: int, op: int) {
    0 <= f7 < 128 && 0 <= rs2 < 32 && 0 <= rs1 < 32 && 0 <= f3 < 8 && 0 <= rd < 32 && 0 <= op < 128
  }

  lemma ShiftTo12(i: Word)
    ensures ShiftRight(ShiftRight(i, 7), 5) == ShiftRight(i, 12)
  {
  }

  lemma ShiftTo15(i: Word)
    ensures ShiftRight(ShiftRight(i, 12), 3) == ShiftRight(i, 15)
  {
  }

  lemma ShiftTo20(i: Word)
    ensures ShiftRight(ShiftRight(i, 15), 5) == ShiftRight(i, 20)
  {
  }

  lemma ShiftTo25(i: Word)
    ensures ShiftRight(ShiftRight(i, 20), 5) == ShiftRight(i, 25)
  {
  }

  /** The word without its last fields. */
  lemma ShiftsDivide(i: Word)
    ensures U(ShiftRight(i, 7)) == U(i) / 0x80 && U(ShiftRight(i, 12)) == U(i) / 0x1000
    ensures U(ShiftRight(i, 15)) == U(i) / 0x8000 && U(ShiftRight(i, 20)) == U(i) / 0x10_0000
    ensures U(ShiftRight(i, 25)) == U(i) / 0x200_0000
  {
    hide U, Low, ShiftRight;
    Cut7(i);
    Cut5(ShiftRight(i, 7));
    ShiftTo12(i);
    N.DivDiv(U(i), 0x80, 32);
    Cut3(ShiftRight(i, 12));
    ShiftTo15(i);
    N.DivDiv(U(i), 0x1000, 8);
    Cut5(ShiftRight(i, 15));
    ShiftTo20(i);
    N.DivDiv(U(i), 0x8000, 32);
    Cut5(ShiftRight(i, 20));
    ShiftTo25(i);
    N.DivDiv(U(i), 0x10_0000, 32);
  }

  lemma NameReads(x: Word)
    ensures ((x & 0x1f) as bv5) as int == U(x & 0x1f)
  {
  }

  lemma SelectorReads(x: Word)
    ensures ((x & 7) as bv3) as int == U(x & 7)
  {
  }

  lemma FieldsRead(i: Word)
    ensures Rd(i) as int == U(Low(ShiftRight(i, 7), 0x1f)) && Rs1(i) as int == U(Low(ShiftRight(i, 15), 0x1f))
    ensures Rs2(i) as int == U(Low(ShiftRight(i, 20), 0x1f)) && Funct3(i) as int == U(Low(ShiftRight(i, 12), 7))
    ensures Funct7(i) == ShiftRight(i, 25)
  {
    hide U;
    NameReads(ShiftRight(i, 7));
    NameReads(ShiftRight(i, 15));
    NameReads(ShiftRight(i, 20));
    SelectorReads(ShiftRight(i, 12));
  }

  /** Each field is its digits of the word. */
  lemma FieldsAreDigits(i: Word)
    ensures Rd(i) as int == U(i) / 0x80 % 32 && Rs1(i) as int == U(i) / 0x8000 % 32
    ensures Rs2(i) as int == U(i) / 0x10_0000 % 32 && Funct3(i) as int == U(i) / 0x1000 % 8
    ensures U(Funct7(i)) == U(i) / 0x200_0000 && U(Low(i, 0x7f)) == U(i) % 128
  {
    hide U, Low, ShiftRight, Rd, Rs1, Rs2, Funct3, Funct7;
    FieldsRead(i);
    ShiftsDivide(i);
    Cut7(i);
    Cut5(ShiftRight(i, 7));
    Cut3(ShiftRight(i, 12));
    Cut5(ShiftRight(i, 15));
    Cut5(ShiftRight(i, 20));
  }

  /** And the digits are the fields that were put in. */
  lemma SumHasDigits(n: int, f7: int, rs2: int, rs1: int, f3: int, rd: int, op: int)
    requires Digits(f7, rs2, rs1, f3, rd, op) && n == Sum(f7, rs2, rs1, f3, rd, op)
    ensures 0 <= n < 0x1_0000_0000
    ensures n % 128 == op && n / 0x80 % 32 == rd && n / 0x1000 % 8 == f3 && n / 0x8000 % 32 == rs1
    ensures n / 0x10_0000 % 32 == rs2 && n / 0x200_0000 == f7 && n / 0x10_0000 == f7 * 32 + rs2
    ensures n / 0x1000 == f7 * 0x2000 + rs2 * 0x100 + rs1 * 8 + f3
  {
    var t20 := f7 * 32 + rs2;
    var t15 := t20 * 32 + rs1;
    var t12 := t15 * 8 + f3;
    var t7 := t12 * 32 + rd;
    assert n == t7 * 128 + op;
    N.DivModUnique(n, 128, t7, op);
    N.DivModUnique(t7, 32, t12, rd);
    N.DivModUnique(t12, 8, t15, f3);
    N.DivModUnique(t15, 32, t20, rs1);
    N.DivModUnique(t20, 32, f7, rs2);
    N.DivDiv(n, 0x80, 32);
    N.DivDiv(n, 0x1000, 8);
    N.DivDiv(n, 0x8000, 32);
    N.DivDiv(n, 0x10_0000, 32);
  }

  // ---------------------------------------------------------------- the core's register ports

  /** In every clock the core latches the registers that the two source fields of its instruction name, zero for
      name 0, and a register is written exactly when the clock writes one and its destination field names it. */
  lemma RegisterPorts(r: Regs, inp: Inputs, p: RegName)
    ensures var v := if p == 0 then 0 else r.x(p);
            (p as int == U(r.instruction) / 0x8000 % 32 ==> Step(r, inp).a == v)
            && (p as int == U(r.instruction) / 0x10_0000 % 32 ==> Step(r, inp).b == v)
    ensures var c := ControlOf(r, inp.ready);
            Step(r, inp).x(p) ==
              if c.regWrite && p != 0 && p as int == U(r.instruction) / 0x80 % 32 then WriteData(r, c) else r.x(p)
    ensures p as int == U(r.instruction) / 0x10_0000 % 32 ==>
              var v, d := if p == 0 then 0 else r.x(p), Bus(r).d;
              match ControlOf(r, false).memSrc
              case 0 => d == Swap(StoreByte(r.mar, r.mdr, v))
              case 1 => d == Swap(StoreHalf(r.mar, r.mdr, v))
              case 2 => d == Swap(v)
              case _ => true
  {
    hide U, Rd, Rs1, Rs2, ControlOf, WriteData, Alu, AluIn1, AluIn2, Swap, MemAddr, McauseNext, PcNext, StoreByte,
         StoreHalf, OldpcNext, InstructionNext, CsrrNext, NextPhase;
    FieldsAreDigits(r.instruction);
    SameName(p, Rs1(r.instruction));
    SameName(p, Rs2(r.instruction));
    SameName(p, Rd(r.instruction));
  }

  lemma SameName(p: RegName, q: RegName)
    ensures p as int == q as int <==> p == q
  {
  }

  // ---------------------------------------------------------------- immediates

  /** The two's complement reading of v as one of m numbers. */
  function TwosComplement(v: int, m: int): int { if v < m / 2 then v else v - m }

  function WithTop(x: Word, top: Word): Word { x | top }

  lemma Top12(y: Word)
    ensures U((y & 0xfff) | 0xffff_f000) == U(y & 0xfff) + 0xffff_f000
  {
  }

  lemma TopCounts12(y: Word)
    ensures U(WithTop(Low(y, 0xfff), 0xffff_f000)) == U(Low(y, 0xfff)) + 0xffff_f000
  {
    hide U;
    assert Low(y, 0xfff) == y & 0xfff;
    Top12(y);
  }

  lemma Top13(y: Word)
    ensures U((y & 0x1fff) | 0xffff_e000) == U(y & 0x1fff) + 0xffff_e000
  {
  }

  lemma TopCounts13(y: Word)
    ensures U(WithTop(Low(y, 0x1fff), 0xffff_e000)) == U(Low(y, 0x1fff)) + 0xffff_e000
  {
    hide U;
    assert Low(y, 0x1fff) == y & 0x1fff;
    Top13(y);
  }

  lemma Top21(y: Word)
    ensures U((y & 0x1f_ffff) | 0xffe0_0000) == U(y & 0x1f_ffff) + 0xffe0_0000
  {
  }

  lemma TopCounts21(y: Word)
    ensures U(WithTop(Low(y, 0x1f_ffff), 0xffe0_0000)) == U(Low(y, 0x1f_ffff)) + 0xffe0_0000
  {
    hide U;
    assert Low(y, 0x1f_ffff) == y & 0x1f_ffff;
    Top21(y);
  }

  /** The immediate bits of each format, before the sign is extended. */
  function RawI(i: Word): Word { ShiftRight(i, 20) }

  function RawS(i: Word): Word { (ShiftRight(i, 25) << 5) | Low(ShiftRight(i, 7), 0x1f) }

  function RawB(i: Word): Word {
    (ShiftRight(i, 31) << 12) | (Low(ShiftRight(i, 7), 1) << 11) | (Low(ShiftRight(i, 25), 0x3f) << 5)
    | (Low(ShiftRight(i, 8), 0xf) << 1)
  }

  function RawJ(i: Word): Word {
    (ShiftRight(i, 31) << 20) | (Low(ShiftRight(i, 12), 0xff) << 12) | (Low(ShiftRight(i, 20), 1) << 11)
    | (Low(ShiftRight(i, 21), 0x3ff) << 1)
  }

  lemma PositiveI(i: Word)
    requires ShiftRight(i, 31) == 0
    ensures ImmI(i) == RawI(i)
  {
  }

  lemma NegativeI(i: Word)
    requires ShiftRight(i, 31) == 1
    ensures ImmI(i) == WithTop(RawI(i), 0xffff_f000)
  {
  }

  lemma WidthI(i: Word)
    ensures Low(RawI(i), 0xfff) == RawI(i)
  {
  }

  lemma PositiveS(i: Word)
    requires ShiftRight(i, 31) == 0
    ensures ImmS(i) == RawS(i)
  {
  }

  lemma NegativeS(i: Word)
    requires ShiftRight(i, 31) == 1
    ensures ImmS(i) == WithTop(RawS(i), 0xffff_f000)
  {
  }

  lemma WidthS(i: Word)
    ensures Low(RawS(i), 0xfff) == RawS(i)
  {
  }

  lemma PositiveB(i: Word)
    requires ShiftRight(i, 31) == 0
    ensures ImmB(i) == RawB(i)
  {
  }

  lemma NegativeB(i: Word)
    requires ShiftRight(i, 31) == 1
    ensures ImmB(i) == WithTop(RawB(i), 0xffff_e000)
  {
  }

  lemma WidthB(i: Word)
    ensures Low(RawB(i), 0x1fff) == RawB(i)
  {
  }

  lemma PositiveJ(i: Word)
    requires ShiftRight(i, 31) == 0
    ensures ImmJ(i) == RawJ(i)
  {
  }

  lemma NegativeJ(i: Word)
    requires ShiftRight(i, 31) == 1
    ensures ImmJ(i) == WithTop(RawJ(i), 0xffe0_0000)
  {
  }

  lemma WidthJ(i: Word)
    ensures Low(RawJ(i), 0x1f_ffff) == RawJ(i)
  {
  }

  // ---------------------------------------------------------------- their digits

  lemma ShiftTo8(i: Word)
    ensures ShiftRight(ShiftRight(i, 7), 1) == ShiftRight(i, 8)
  {
  }

  lemma ShiftTo21(i: Word)
    ensures ShiftRight(ShiftRight(i, 20), 1) == ShiftRight(i, 21)
  {
  }

  lemma ShiftTo31(i: Word)
    ensures ShiftRight(ShiftRight(i, 25), 6) == ShiftRight(i, 31)
  {
  }

  lemma DigitsS(i: Word)
    ensures ShiftRight(RawS(i), 5) == ShiftRight(i, 25) && Low(RawS(i), 0x1f) == Low(ShiftRight(i, 7), 0x1f)
  {
  }

  lemma DigitsB(i: Word)
    ensures var w := RawB(i);
            Low(w, 1) == 0 && Low(ShiftRight(w, 1), 0xf) == Low(ShiftRight(i, 8), 0xf)
            && Low(ShiftRight(ShiftRight(w, 1), 4), 0x3f) == Low(ShiftRight(i, 25), 0x3f)
            && Low(ShiftRight(ShiftRight(ShiftRight(w, 1), 4), 6), 1) == Low(ShiftRight(i, 7), 1)
            && ShiftRight(ShiftRight(ShiftRight(ShiftRight(w, 1), 4), 6), 1) == ShiftRight(i, 31)
  {
  }

  lemma DigitsJ(i: Word)
    ensures Low(RawJ(i), 1) == 0 && Low(ShiftRight(RawJ(i), 1), 0x3ff) == Low(ShiftRight(i, 21), 0x3ff)
  {
  }

  lemma UpperDigitsJ(i: Word)
    ensures var w := ShiftRight(ShiftRight(RawJ(i), 1), 10);
            Low(w, 1) == Low(ShiftRight(i, 20), 1) && Low(ShiftRight(w, 1), 0xff) == Low(ShiftRight(i, 12), 0xff)
            && ShiftRight(ShiftRight(w, 1), 8) == ShiftRight(i, 31)
  {
  }

  lemma DigitsU(i: Word)
    ensures Low(ImmU(i), 0x7f) == 0 && Low(ShiftRight(ImmU(i), 7), 0x1f) == 0
    ensures ShiftRight(ImmU(i), 12) == ShiftRight(i, 12)
  {
  }

  // ---------------------------------------------------------------- their readings

  /** The sign bit copied upwards is the two's complement reading. */
  lemma SignedReading(e: Word, raw: Word, sign: int, m: int)
    requires m == 0x1000 || m == 0x2000 || m == 0x20_0000
    requires 0 <= sign <= 1 && U(raw) / (m / 2) == sign
    requires U(e) == if sign == 0 then U(raw) else U(raw) + (0x1_0000_0000 - m)
    ensures S(e) == TwosComplement(U(raw), m)
  {
    hide U;
  }

  lemma SignBit(i: Word)
    ensures U(ShiftRight(i, 31)) == U(i) / 0x8000_0000 && 0 <= U(i) / 0x8000_0000 <= 1
    ensures ShiftRight(i, 31) == if U(i) / 0x8000_0000 == 0 then 0 else 1
  {
    hide U, ShiftRight;
    ShiftsDivide(i);
    ShiftTo31(i);
    Cut6(ShiftRight(i, 25));
    N.DivDiv(U(i), 0x200_0000, 64);
    SmallWords();
    EqualReadings(ShiftRight(i, 31), if U(i) / 0x8000_0000 == 0 then 0 else 1);
  }

  lemma ImmIReads(i: Word)
    ensures S(ImmI(i)) == TwosComplement(U(i) / 0x10_0000, 0x1000)
  {
    hide U, ShiftRight, Low, ImmI, WithTop, S;
    ShiftsDivide(i);
    SignBit(i);
    if ShiftRight(i, 31) == 0 { PositiveI(i); } else { NegativeI(i); }
    WidthI(i);
    TopCounts12(RawI(i));
    N.DivDiv(U(i), 0x10_0000, 0x800);
    SignedReading(ImmI(i), RawI(i), U(i) / 0x8000_0000, 0x1000);
  }

  lemma RawSReads(i: Word)
    ensures U(RawS(i)) == U(i) / 0x200_0000 * 32 + U(i) / 0x80 % 32
  {
    hide U, ShiftRight, Low, RawS;
    ShiftsDivide(i);
    DigitsS(i);
    Cut5(RawS(i));
    Cut5(ShiftRight(i, 7));
  }

  lemma TopOfSum(x: int, y: int)
    requires 0 <= x && 0 <= y < 32
    ensures (x * 32 + y) / 0x800 == x / 64
  {
    N.DivModUnique(x * 32 + y, 0x800, x / 64, x % 64 * 32 + y);
  }

  lemma ImmSReads(i: Word)
    ensures S(ImmS(i)) == TwosComplement(U(i) / 0x200_0000 * 32 + U(i) / 0x80 % 32, 0x1000)
  {
    hide U, ShiftRight, Low, ImmS, RawS, WithTop, S;
    SignBit(i);
    if ShiftRight(i, 31) == 0 { PositiveS(i); } else { NegativeS(i); }
    WidthS(i);
    TopCounts12(RawS(i));
    RawSReads(i);
    N.DivDiv(U(i), 0x200_0000, 64);
    TopOfSum(U(i) / 0x200_0000, U(i) / 0x80 % 32);
    SignedReading(ImmS(i), RawS(i), U(i) / 0x8000_0000, 0x1000);
  }

  lemma RawBReads(i: Word)
    ensures U(RawB(i)) == U(i) / 0x8000_0000 * 0x1000 + U(i) / 0x80 % 2 * 0x800 + U(i) / 0x200_0000 % 64 * 32
                          + U(i) / 0x100 % 16 * 2
  {
    hide U, ShiftRight, Low, RawB;
    ShiftsDivide(i);
    SignBit(i);
    DigitsB(i);
    SmallWords();
    ShiftTo8(i);
    Cut1(ShiftRight(i, 7));
    Cut4(ShiftRight(i, 8));
    Cut6(ShiftRight(i, 25));
    N.DivDiv(U(i), 0x80, 2);
    var w := RawB(i);
    Cut1(w);
    Cut4(ShiftRight(w, 1));
    Cut6(ShiftRight(ShiftRight(w, 1), 4));
    Cut1(ShiftRight(ShiftRight(ShiftRight(w, 1), 4), 6));
  }

  lemma ImmBReads(i: Word)
    ensures S(ImmB(i)) == TwosComplement(U(i) / 0x8000_0000 * 0x1000 + U(i) / 0x80 % 2 * 0x800
                                         + U(i) / 0x200_0000 % 64 * 32 + U(i) / 0x100 % 16 * 2, 0x2000)
  {
    hide U, ShiftRight, Low, ImmB, RawB, WithTop, S;
    SignBit(i);
    if ShiftRight(i, 31) == 0 { PositiveB(i); } else { NegativeB(i); }
    WidthB(i);
    TopCounts13(RawB(i));
    RawBReads(i);
    SignedReading(ImmB(i), RawB(i), U(i) / 0x8000_0000, 0x2000);
  }

  lemma RawJReads(i: Word)
    ensures U(RawJ(i)) == U(i) / 0x8000_0000 * 0x10_0000 + U(i) / 0x1000 % 256 * 0x1000 + U(i) / 0x10_0000 % 2 * 0x800
                          + U(i) / 0x20_0000 % 1024 * 2
  {
    hide U, ShiftRight, Low, RawJ;
    ShiftsDivide(i);
    SignBit(i);
    DigitsJ(i);
    UpperDigitsJ(i);
    SmallWords();
    ShiftTo21(i);
    Cut8(ShiftRight(i, 12));
    Cut1(ShiftRight(i, 20));
    Cut10(ShiftRight(i, 21));
    N.DivDiv(U(i), 0x10_0000, 2);
    var w := RawJ(i);
    Cut1(w);
    Cut10(ShiftRight(w, 1));
    Cut1(ShiftRight(ShiftRight(w, 1), 10));
    Cut8(ShiftRight(ShiftRight(ShiftRight(w, 1), 10), 1));
  }

  lemma ImmJReads(i: Word)
    ensures S(ImmJ(i)) == TwosComplement(U(i) / 0x8000_0000 * 0x10_0000 + U(i) / 0x1000 % 256 * 0x1000
                                         + U(i) / 0x10_0000 % 2 * 0x800 + U(i) / 0x20_0000 % 1024 * 2, 0x20_0000)
  {
    hide U, ShiftRight, Low, ImmJ, RawJ, WithTop, S;
    SignBit(i);
    if ShiftRight(i, 31) == 0 { PositiveJ(i); } else { NegativeJ(i); }
    WidthJ(i);
    TopCounts21(RawJ(i));
    RawJReads(i);
    SignedReading(ImmJ(i), RawJ(i), U(i) / 0x8000_0000, 0x20_0000);
  }

  lemma ImmUReads(i: Word)
    ensures U(ImmU(i)) == U(i) / 0x1000 * 0x1000
  {
    hide U, ShiftRight, Low, ImmU;
    ShiftsDivide(i);
    DigitsU(i);
    SmallWords();
    ShiftTo12(ImmU(i));
    Cut7(ImmU(i));
    Cut5(ShiftRight(ImmU(i), 7));
  }

  // ---------------------------------------------------------------- the assembler

  /** The number a two's complement reading comes from. */
  function Residue(s: int, m: int): int
    requires m > 0
  {
    s % m
  }

  /** Formats with 12 immediate bits above, and with 20 of them. */
  function SumI(v: int, rs1: RegName, f3: int, rd: RegName, op: int): int {
    Sum(v / 32, v % 32, rs1 as int, f3, rd as int, op)
  }

  function SumU(t: int, rd: RegName, op: int): int { Sum(t / 0x2000, t / 0x100 % 32, t / 8 % 32, t % 8, rd as int, op) }

  function SelectorOf(op: AluOp): int {
    match op
    case ADD => 0 case SUB => 0 case SLL => 1 case SLT => 2 case SLTU => 3
    case XOR => 4 case SRL => 5 case SRA => 5 case OR => 6 case AND => 7
  }

  function ConditionOf(c: Cond): int {
    match c case EQ => 0 case NE => 1 case LT => 4 case GE => 5 case LTU => 6 case GEU => 7
  }

  function WidthOf(w: Width): int { match w case Byte => 0 case Half => 1 case Full => 2 }

  /** The instruction as the standard's assembler writes it (chapter 24 of the standard), the number of the CSR
      being an operand that the decoded instruction does not keep. */
  function Assembled(ins: Instr, csr: int): int {
    match ins
    case Lui(rd, imm) => SumU(U(imm) / 0x1000, rd, 0x37)
    case Auipc(rd, imm) => SumU(U(imm) / 0x1000, rd, 0x17)
    case Jal(rd, imm) =>
      var v := Residue(S(imm), 0x20_0000);
      SumU(v / 0x10_0000 * 0x8_0000 + v / 2 % 1024 * 0x200 + v / 0x800 % 2 * 0x100 + v / 0x1000 % 256, rd, 0x6f)
    case Jalr(rd, rs1, imm) => SumI(Residue(S(imm), 0x1000), rs1, 0, rd, 0x67)
    case Branch(c, rs1, rs2, imm) =>
      var v := Residue(S(imm), 0x2000);
      Sum(v / 0x1000 * 64 + v / 32 % 64, rs2 as int, rs1 as int, ConditionOf(c), v / 2 % 16 * 2 + v / 0x800 % 2, 0x63)
    case Load(w, u, rd, rs1, imm) =>
      SumI(Residue(S(imm), 0x1000), rs1, WidthOf(w) + if u then 4 else 0, rd, 0x03)
    case Store(w, rs1, rs2, imm) =>
      var v := Residue(S(imm), 0x1000);
      Sum(v / 32, rs2 as int, rs1 as int, WidthOf(w), v % 32, 0x23)
    case OpImm(op, rd, rs1, imm) => SumI(Residue(S(imm), 0x1000), rs1, SelectorOf(op), rd, 0x13)
    case Op(op, rd, rs1, rs2) =>
      Sum(if op == SUB || op == SRA then 0x20 else 0, rs2 as int, rs1 as int, SelectorOf(op), rd as int, 0x33)
    case MulDiv(fn, rd, rs1, rs2) => Sum(1, rs2 as int, rs1 as int, fn as int, rd as int, 0x33)
    case Csr(fn, rd, rs1) => SumI(csr, rs1, fn as int, rd, 0x73)
    case Nop => 0x0f
    case Ecall => 0x73
    case Ebreak => 0x0010_0073
    case Mret => 0x3020_0073
    case Unsupported => 0
  }

  /** The operands fit their fields. A shift amount is the low part of its immediate; SRAI has bit 10 set above it. */
  predicate Encodable(ins: Instr) {
    match ins
    case Lui(_, imm) => U(imm) % 0x1000 == 0
    case Auipc(_, imm) => U(imm) % 0x1000 == 0
    case Jal(_, imm) => -0x10_0000 <= S(imm) < 0x10_0000 && S(imm) % 2 == 0
    case Jalr(_, _, imm) => -0x800 <= S(imm) < 0x800
    case Branch(_, _, _, imm) => -0x1000 <= S(imm) < 0x1000 && S(imm) % 2 == 0
    case Load(w, u, _, _, imm) => -0x800 <= S(imm) < 0x800 && !(w == Full && u)
    case Store(_, _, _, imm) => -0x800 <= S(imm) < 0x800
    case OpImm(op, _, _, imm) =>
      op != SUB
      && if op == SLL || op == SRL then 0 <= S(imm) < 32
         else if op == SRA then 0x400 <= S(imm) < 0x420
         else -0x800 <= S(imm) < 0x800
    case Csr(fn, _, _) => fn != 0 && fn != 4
    case Unsupported => false
    case _ => true
  }

  /** The fields as the decoder takes them. */
  datatype Fields = Fields(f7: int, rs2: int, rs1: int, f3: int, rd: int, op: int)

  function FieldsOf(i: Word): Fields {
    Fields(U(Funct7(i)), Rs2(i) as int, Rs1(i) as int, Funct3(i) as int, Rd(i) as int, U(Low(i, 0x7f)))
  }

  /** A word given as a sum has the fields of the sum. */
  lemma FieldsOfSum(i: Word, f7: int, rs2: int, rs1: int, f3: int, rd: int, op: int)
    requires Digits(f7, rs2, rs1, f3, rd, op) && U(i) == Sum(f7, rs2, rs1, f3, rd, op)
    ensures FieldsOf(i) == Fields(f7, rs2, rs1, f3, rd, op)
  {
    hide U, Low, Funct7, Rs2, Rs1, Funct3, Rd, Sum;
    FieldsAreDigits(i);
    SumHasDigits(U(i), f7, rs2, rs1, f3, rd, op);
  }

  lemma EqualSigned(x: Word, y: Word)
    requires S(x) == S(y)
    ensures x == y
  {
    hide U;
    EqualReadings(x, y);
  }

  // ---------------------------------------------------------------- decoding what was assembled

  /** The opcodes as numbers. */
  lemma Opcodes()
    ensures U(0x37) == 0x37 && U(0x17) == 0x17 && U(0x6f) == 0x6f && U(0x67) == 0x67 && U(0x63) == 0x63
    ensures U(0x03) == 0x03 && U(0x23) == 0x23 && U(0x13) == 0x13 && U(0x33) == 0x33 && U(0x0f) == 0x0f
    ensures U(0x73) == 0x73
  {
  }

  lemma SameSelector(p: bv3, q: bv3)
    ensures p as int == q as int <==> p == q
  {
  }

  /** The selectors as the decoder reads them. */
  function SelectorBits(op: AluOp): bv3 {
    match op
    case ADD => 0 case SUB => 0 case SLL => 1 case SLT => 2 case SLTU => 3
    case XOR => 4 case SRL => 5 case SRA => 5 case OR => 6 case AND => 7
  }

  function ConditionBits(c: Cond): bv3 {
    match c case EQ => 0 case NE => 1 case LT => 4 case GE => 5 case LTU => 6 case GEU => 7
  }

  function WidthBits(w: Width, u: bool): bv3 {
    match w case Byte => if u then 4 else 0 case Half => if u then 5 else 1 case Full => 2
  }

  lemma SelectorsRead(op: AluOp, c: Cond, w: Width, u: bool)
    ensures SelectorBits(op) as int == SelectorOf(op) && ConditionBits(c) as int == ConditionOf(c)
    ensures !(w == Full && u) ==> WidthBits(w, u) as int == WidthOf(w) + if u then 4 else 0
  {
  }

  lemma FunctionSevens()
    ensures U(0) == 0 && U(1) == 1 && U(0x20) == 0x20
  {
  }

  /** Register operations. */
  lemma DecodesR(i: Word, ins: Instr, csr: int)
    requires (ins.Op? || ins.MulDiv?) && U(i) == Assembled(ins, csr)
    ensures Decode(i) == ins
  {
    hide Sum, U, Funct7, Rs2, Rs1, Funct3, Rd, FieldsOf;
    Opcodes();
    FunctionSevens();
    var f7: Word := if ins.MulDiv? then 1 else if ins.op == SUB || ins.op == SRA then 0x20 else 0;
    var f3: bv3 := if ins.MulDiv? then ins.fn else SelectorBits(ins.op);
    if ins.Op? { SelectorsRead(ins.op, EQ, Byte, false); }
    NamesAreSmall(ins.rd, f3);
    FieldsOfTwo(i, U(f7), ins.rs2, ins.rs1, f3, ins.rd as int, 0x33);
    FieldsAreDigits(i);
    SameName(Rd(i), ins.rd);
    EqualReadings(Funct7(i), f7);
  }

  lemma FieldNames(i: Word, rd: RegName, rs1: RegName, rs2: RegName)
    ensures FieldsOf(i).rd == rd as int ==> Rd(i) == rd
    ensures FieldsOf(i).rs1 == rs1 as int ==> Rs1(i) == rs1
    ensures FieldsOf(i).rs2 == rs2 as int ==> Rs2(i) == rs2
  {
    hide U, Funct7, Rs2, Rs1, Funct3, Rd;
    SameName(Rd(i), rd);
    SameName(Rs1(i), rs1);
    SameName(Rs2(i), rs2);
  }

  /** Twelve bits in two fields. */
  lemma Twelve(v: int)
    requires 0 <= v < 0x1000
    ensures 0 <= v / 32 < 128 && 0 <= v % 32 < 32 && v / 32 * 32 + v % 32 == v
  {
  }

  lemma NamesAreSmall(p: RegName, f3: bv3)
    ensures 0 <= p as int < 32 && 0 <= f3 as int < 8
  {
  }

  lemma SumIHas(n: int, v: int, rs1: RegName, f3: bv3, rd: RegName, op: int)
    requires 0 <= v < 0x1000 && 0 <= op < 128 && n == SumI(v, rs1, f3 as int, rd, op)
    ensures Digits(v / 32, v % 32, rs1 as int, f3 as int, rd as int, op) && n / 0x10_0000 == v
  {
    hide Sum;
    Twelve(v);
    NamesAreSmall(rs1, f3);
    NamesAreSmall(rd, f3);
    SumHasDigits(n, v / 32, v % 32, rs1 as int, f3 as int, rd as int, op);
  }

  /** The low opcode, selector and registers of a 12-bit immediate format. */
  lemma FieldsOfI(i: Word, v: int, rs1: RegName, f3: bv3, rd: RegName, op: Word)
    requires 0 <= v < 0x1000 && U(op) < 128 && U(i) == SumI(v, rs1, f3 as int, rd, U(op))
    ensures i & 0x7f == op && Funct3(i) == f3 && Rs1(i) == rs1 && Rd(i) == rd
    ensures S(ImmI(i)) == TwosComplement(v, 0x1000)
    ensures FieldsOf(i).f7 == v / 32
  {
    hide Digits, Sum, U, Funct7, Rs2, Rs1, Funct3, Rd, FieldsOf, S, ImmI;
    SumIHas(U(i), v, rs1, f3, rd, U(op));
    FieldsOfSum(i, v / 32, v % 32, rs1 as int, f3 as int, rd as int, U(op));
    OpcodeDecides(i, op, f3);
    FieldNames(i, rd, rs1, 0);
    ImmIReads(i);
  }

  lemma OpcodeDecides(i: Word, op: Word, f3: bv3)
    requires FieldsOf(i).op == U(op)
    ensures i & 0x7f == op
    ensures FieldsOf(i).f3 == f3 as int ==> Funct3(i) == f3
  {
    hide U, Funct7, Rs2, Rs1, Funct3, Rd;
    EqualReadings(Low(i, 0x7f), op);
    SameSelector(Funct3(i), f3);
  }

  /** Reading a residue back. */
  lemma ResidueReads(s: int, m: int)
    requires m > 0 && m % 2 == 0 && -m / 2 <= s < m / 2
    ensures 0 <= Residue(s, m) < m && TwosComplement(Residue(s, m), m) == s
  {
    if s < 0 { N.DivModUnique(s, m, -1, s + m); } else { N.DivModUnique(s, m, 0, s); }
  }

  lemma DecodesI(i: Word, ins: Instr, csr: int)
    requires (ins.Jalr? || ins.Load?) && Encodable(ins) && U(i) == Assembled(ins, csr)
    ensures Decode(i) == ins
  {
    hide U, Funct7, Rs2, Rs1, Funct3, Rd, FieldsOf, S, ImmI, SumI;
    Opcodes();
    var v := Residue(S(ins.imm), 0x1000);
    ResidueReads(S(ins.imm), 0x1000);
    var f3: bv3 := if ins.Jalr? then 0 else WidthBits(ins.width, ins.unsigned);
    if ins.Load? { SelectorsRead(ADD, EQ, ins.width, ins.unsigned); }
    FieldsOfI(i, v, ins.rs1, f3, ins.rd, if ins.Jalr? then 0x67 else 0x03);
    EqualSigned(ImmI(i), ins.imm);
  }

  lemma DecodesOpImm(i: Word, ins: Instr, csr: int)
    requires ins.OpImm? && Encodable(ins) && U(i) == Assembled(ins, csr)
    ensures Decode(i) == ins
  {
    hide U, Funct7, Rs2, Rs1, Funct3, Rd, S, ImmI, SumI;
    Opcodes();
    FunctionSevens();
    var v := Residue(S(ins.imm), 0x1000);
    ResidueReads(S(ins.imm), 0x1000);
    SelectorsRead(ins.op, EQ, Byte, false);
    FieldsOfI(i, v, ins.rs1, SelectorBits(ins.op), ins.rd, 0x13);
    EqualSigned(ImmI(i), ins.imm);
    EqualReadings(Funct7(i), 0);
    EqualReadings(Funct7(i), 0x20);
  }

  lemma DecodesCsr(i: Word, ins: Instr, csr: int)
    requires ins.Csr? && Encodable(ins) && 0 <= csr < 0x1000 && U(i) == Assembled(ins, csr)
    ensures Decode(i) == ins
  {
    hide U, Funct7, Rs2, Rs1, Rd, FieldsOf, S, ImmI, SumI;
    Opcodes();
    FieldsOfI(i, csr, ins.rs1, ins.fn, ins.rd, 0x73);
    NotPlainSystem(i);
  }

  lemma NotPlainSystem(i: Word)
    requires Funct3(i) != 0
    ensures i != 0x0000_0073 && i != 0x0010_0073 && i != 0x3020_0073 && i != 0x1050_0073
  {
  }

  /** Opcode, selector, source registers and the two immediate fields of the store and branch formats. */
  lemma FieldsOfTwo(i: Word, f7: int, rs2: RegName, rs1: RegName, f3: bv3, rd: int, op: Word)
    requires 0 <= f7 < 128 && 0 <= rd < 32 && U(op) < 128
    requires U(i) == Sum(f7, rs2 as int, rs1 as int, f3 as int, rd, U(op))
    ensures i & 0x7f == op && Funct3(i) == f3 && Rs1(i) == rs1 && Rs2(i) == rs2
    ensures U(i) / 0x200_0000 == f7 && U(i) / 0x80 % 32 == rd
  {
    hide Sum, U, Funct7, Rs2, Rs1, Funct3, Rd, FieldsOf;
    NamesAreSmall(rs1, f3);
    NamesAreSmall(rs2, f3);
    FieldsOfSum(i, f7, rs2 as int, rs1 as int, f3 as int, rd, U(op));
    SumHasDigits(U(i), f7, rs2 as int, rs1 as int, f3 as int, rd, U(op));
    OpcodeDecides(i, op, f3);
    FieldNames(i, 0, rs1, rs2);
  }

  lemma DecodesStore(i: Word, ins: Instr, csr: int)
    requires ins.Store? && Encodable(ins) && U(i) == Assembled(ins, csr)
    ensures Decode(i) == ins
  {
    hide Residue, TwosComplement, Sum, U, Funct7, Rs2, Rs1, Funct3, Rd, FieldsOf, S, ImmS;
    Opcodes();
    var v := Residue(S(ins.imm), 0x1000);
    ResidueReads(S(ins.imm), 0x1000);
    Twelve(v);
    SelectorsRead(ADD, EQ, ins.width, false);
    FieldsOfTwo(i, v / 32, ins.rs2, ins.rs1, WidthBits(ins.width, false), v % 32, 0x23);
    ImmSReads(i);
    EqualSigned(ImmS(i), ins.imm);
  }

  /** The scattered bits of a branch offset. */
  lemma OffsetB(v: int)
    requires 0 <= v < 0x2000 && v % 2 == 0
    ensures v == v / 0x1000 * 0x1000 + v / 0x800 % 2 * 0x800 + v / 32 % 64 * 32 + v / 2 % 16 * 2
    ensures 0 <= v / 0x1000 < 2
  {
    var a := v / 2;
    var b, c := a / 16, a / 0x400;
    N.DivDiv(v, 2, 16);
    N.DivDiv(a, 16, 64);
    N.DivDiv(v, 2, 0x400);
    N.DivDiv(c, 2, 1);
    N.DivDiv(v, 0x800, 2);
    assert v / 32 == b && v / 0x800 == c && v / 0x1000 == c / 2 && b / 64 == c;
  }

  lemma FieldB(n: int, f7: int, rd: int, a: int, h: int, l: int, b: int)
    requires n >= 0 && n / 0x200_0000 == f7 && n / 0x80 % 32 == rd
    requires f7 == a * 64 + h && 0 <= h < 64 && rd == l * 2 + b && 0 <= b < 2 && 0 <= l < 16
    ensures n / 0x8000_0000 == a && n / 0x200_0000 % 64 == h && n / 0x100 % 16 == l && n / 0x80 % 2 == b
  {
    N.DivDiv(n, 0x200_0000, 64);
    N.DivModUnique(f7, 64, a, h);
    var t, q := n / 0x80, n / 0x80 / 32;
    N.DivDiv(n, 0x80, 2);
    N.DivModUnique(t, 2, 16 * q + l, b);
    N.DivModUnique(16 * q + l, 16, q, l);
  }

  lemma DecodesBranch(i: Word, ins: Instr, csr: int)
    requires ins.Branch? && Encodable(ins) && U(i) == Assembled(ins, csr)
    ensures Decode(i) == ins
  {
    hide Sum, U, Funct7, Rs2, Rs1, Funct3, Rd, FieldsOf, S, ImmB, Residue, TwosComplement;
    Opcodes();
    var v := Residue(S(ins.imm), 0x2000);
    ResidueReads(S(ins.imm), 0x2000);
    ResidueIsEven(S(ins.imm), 0x2000);
    OffsetB(v);
    SelectorsRead(ADD, ins.cond, Byte, false);
    var f7, rd := v / 0x1000 * 64 + v / 32 % 64, v / 2 % 16 * 2 + v / 0x800 % 2;
    FieldsOfTwo(i, f7, ins.rs2, ins.rs1, ConditionBits(ins.cond), rd, 0x63);
    FieldB(U(i), f7, rd, v / 0x1000, v / 32 % 64, v / 2 % 16, v / 0x800 % 2);
    ImmBReads(i);
    EqualSigned(ImmB(i), ins.imm);
  }

  lemma ResidueIsEven(s: int, m: int)
    requires m > 0 && m % 2 == 0 && s % 2 == 0
    ensures Residue(s, m) % 2 == 0
  {
    assert s == s / m * m + s % m;
    assert s / m * m == s / m * (m / 2) * 2 by { N.MulAssoc(s / m, m / 2, 2); }
  }

  /** Twenty upper bits. */
  lemma SumUHas(n: int, t: int, rd: RegName, op: int)
    requires 0 <= t < 0x10_0000 && 0 <= op < 128 && n == SumU(t, rd, op)
    ensures Digits(t / 0x2000, t / 0x100 % 32, t / 8 % 32, t % 8, rd as int, op) && n / 0x1000 == t && 0 <= n
  {
    hide Sum;
    NamesAreSmall(rd, 0);
    N.DivDiv(t, 8, 32);
    N.DivDiv(t, 0x100, 32);
    SumHasDigits(n, t / 0x2000, t / 0x100 % 32, t / 8 % 32, t % 8, rd as int, op);
  }

  lemma FieldsOfU(i: Word, t: int, rd: RegName, op: Word)
    requires 0 <= t < 0x10_0000 && U(op) < 128 && U(i) == SumU(t, rd, U(op))
    ensures i & 0x7f == op && Rd(i) == rd && U(i) / 0x1000 == t
  {
    hide Sum, Digits, U, Funct7, Rs2, Rs1, Funct3, Rd, FieldsOf;
    SumUHas(U(i), t, rd, U(op));
    FieldsOfSum(i, t / 0x2000, t / 0x100 % 32, t / 8 % 32, t % 8, rd as int, U(op));
    OpcodeDecides(i, op, 0);
    FieldNames(i, rd, 0, 0);
  }

  lemma DecodesU(i: Word, ins: Instr, csr: int)
    requires (ins.Lui? || ins.Auipc?) && Encodable(ins) && U(i) == Assembled(ins, csr)
    ensures Decode(i) == ins
  {
    hide SumU, U, Funct7, Rs2, Rs1, Funct3, Rd, ImmU;
    Opcodes();
    FieldsOfU(i, U(ins.imm) / 0x1000, ins.rd, if ins.Lui? then 0x37 else 0x17);
    ImmUReads(i);
    EqualReadings(ImmU(i), ins.imm);
  }

  /** The scattered bits of a jump offset. */
  lemma OffsetJ(v: int)
    requires 0 <= v < 0x20_0000 && v % 2 == 0
    ensures v == v / 0x10_0000 * 0x10_0000 + v / 0x1000 % 256 * 0x1000 + v / 0x800 % 2 * 0x800 + v / 2 % 1024 * 2
    ensures 0 <= v / 0x10_0000 < 2
  {
    N.DivDiv(v, 2, 1024);
    N.DivDiv(v, 0x800, 2);
    N.DivDiv(v, 0x1000, 256);
  }

  lemma FieldJ(n: int, t: int, a: int, b: int, c: int, d: int)
    requires n >= 0 && n / 0x1000 == t && t == a * 0x8_0000 + b * 0x200 + c * 0x100 + d
    requires 0 <= b < 1024 && 0 <= c < 2 && 0 <= d < 256 && 0 <= a
    ensures n / 0x8000_0000 == a && n / 0x1000 % 256 == d && n / 0x10_0000 % 2 == c && n / 0x20_0000 % 1024 == b
  {
    N.DivDiv(n, 0x1000, 0x8_0000);
    N.DivDiv(n, 0x1000, 0x100);
    N.DivDiv(n, 0x1000, 0x200);
    N.DivModUnique(t, 0x8_0000, a, b * 0x200 + c * 0x100 + d);
    N.DivModUnique(t, 0x200, a * 1024 + b, c * 0x100 + d);
    N.DivModUnique(t, 0x100, (a * 1024 + b) * 2 + c, d);
    N.DivModUnique(a * 1024 + b, 1024, a, b);
    N.DivModUnique((a * 1024 + b) * 2 + c, 2, a * 1024 + b, c);
  }

  lemma DecodesJal(i: Word, ins: Instr, csr: int)
    requires ins.Jal? && Encodable(ins) && U(i) == Assembled(ins, csr)
    ensures Decode(i) == ins
  {
    hide SumU, U, Funct7, Rs2, Rs1, Funct3, Rd, S, ImmJ, Residue, TwosComplement;
    Opcodes();
    var v := Residue(S(ins.imm), 0x20_0000);
    ResidueReads(S(ins.imm), 0x20_0000);
    ResidueIsEven(S(ins.imm), 0x20_0000);
    OffsetJ(v);
    var t := v / 0x10_0000 * 0x8_0000 + v / 2 % 1024 * 0x200 + v / 0x800 % 2 * 0x100 + v / 0x1000 % 256;
    FieldsOfU(i, t, ins.rd, 0x6f);
    FieldJ(U(i), t, v / 0x10_0000, v / 2 % 1024, v / 0x800 % 2, v / 0x1000 % 256);
    ImmJReads(i);
    EqualSigned(ImmJ(i), ins.imm);
  }

  lemma SystemWords()
    ensures U(0x0010_0073) == 0x0010_0073 && U(0x3020_0073) == 0x3020_0073
  {
  }

  lemma DecodesPlain(i: Word, ins: Instr, csr: int)
    requires (ins.Nop? || ins.Ecall? || ins.Ebreak? || ins.Mret?) && U(i) == Assembled(ins, csr)
    ensures Decode(i) == ins
  {
    hide U;
    Opcodes();
    SystemWords();
    EqualReadings(i, match ins case Nop => 0x0f case Ecall => 0x73 case Ebreak => 0x0010_0073 case _ => 0x3020_0073);
  }

  /** Main result: every instruction the reference knows, with any operands that fit their fields, is what the
      decoder makes of the word the standard's assembler writes for it. */
  lemma DecodesAssembled(i: Word, ins: Instr, csr: int)
    requires Encodable(ins) && 0 <= csr < 0x1000 && U(i) == Assembled(ins, csr)
    ensures Decode(i) == ins
  {
    hide U, Encodable, Assembled, Decode;
    match ins
    case Lui(_, _) => DecodesU(i, ins, csr);
    case Auipc(_, _) => DecodesU(i, ins, csr);
    case Jal(_, _) => DecodesJal(i, ins, csr);
    case Jalr(_, _, _) => DecodesI(i, ins, csr);
    case Branch(_, _, _, _) => DecodesBranch(i, ins, csr);
    case Load(_, _, _, _, _) => DecodesI(i, ins, csr);
    case Store(_, _, _, _) => DecodesStore(i, ins, csr);
    case OpImm(_, _, _, _) => DecodesOpImm(i, ins, csr);
    case Op(_, _, _, _) => DecodesR(i, ins, csr);
    case MulDiv(_, _, _, _) => DecodesR(i, ins, csr);
    case Csr(_, _, _) => DecodesCsr(i, ins, csr);
    case Unsupported => NotEncodable();
    case _ => DecodesPlain(i, ins, csr);
  }

  lemma NotEncodable()
    ensures !Encodable(Unsupported)
  {
  }

  // ---------------------------------------------------------------- assembling what was decoded

  lemma Recomposed(n: int)
    requires 0 <= n < 0x1_0000_0000
    ensures n == Sum(n / 0x200_0000, n / 0x10_0000 % 32, n / 0x8000 % 32, n / 0x1000 % 8, n / 0x80 % 32, n % 128)
    ensures n / 0x10_0000 == n / 0x200_0000 * 32 + n / 0x10_0000 % 32 && 0 <= n / 0x200_0000 < 128
    ensures n / 0x1000 == n / 0x8000 * 8 + n / 0x1000 % 8 && n / 0x8000 == n / 0x10_0000 * 32 + n / 0x8000 % 32
    ensures 0 <= n / 0x10_0000 < 0x1000 && 0 <= n / 0x1000 < 0x10_0000
  {
    N.DivDiv(n, 0x80, 32);
    N.DivDiv(n, 0x1000, 8);
    N.DivDiv(n, 0x8000, 32);
    N.DivDiv(n, 0x10_0000, 32);
  }

  lemma ReadResidue(v: int, m: int)
    requires 0 <= v < m && m % 2 == 0
    ensures Residue(TwosComplement(v, m), m) == v && -m / 2 <= TwosComplement(v, m) < m / 2
  {
    var h := m / 2;
    assert m == 2 * h;
    if v < h { N.DivModUnique(v, m, 0, v); } else { N.DivModUnique(v - m, m, -1, v); }
  }

  lemma SelectorsCover(f3: bv3)
    ensures SelectorOf(DecodeAlu(f3)) == f3 as int && DecodeAlu(f3) != SUB && DecodeAlu(f3) != SRA
    ensures DecodeAlu(f3) == SLL <==> f3 == 1
    ensures DecodeAlu(f3) == SRL <==> f3 == 5
  {
  }

  /** What the decoders of the formats can give. */
  lemma Formats(i: Word)
    ensures DecodeBranch(i).Branch? || DecodeBranch(i) == Unsupported
    ensures DecodeLoad(i).Load? || DecodeLoad(i) == Unsupported
    ensures DecodeStore(i).Store? || DecodeStore(i) == Unsupported
    ensures DecodeOpImm(i).OpImm? || DecodeOpImm(i) == Unsupported
    ensures DecodeOp(i).Op? || DecodeOp(i).MulDiv? || DecodeOp(i) == Unsupported
    ensures var s := DecodeSystem(i); s.Ecall? || s.Ebreak? || s.Mret? || s.Nop? || s.Csr? || s == Unsupported
  {
    hide Funct7, Rs2, Rs1, Funct3, Rd, ImmI, ImmS, ImmB, DecodeAlu;
  }

  /** Which format each instruction is decoded from. */
  lemma DecodedBy(i: Word)
    ensures match Decode(i)
            case Lui(_, _) => Low(i, 0x7f) == 0x37 && Decode(i) == Lui(Rd(i), ImmU(i))
            case Auipc(_, _) => Low(i, 0x7f) == 0x17 && Decode(i) == Auipc(Rd(i), ImmU(i))
            case Jal(_, _) => Low(i, 0x7f) == 0x6f && Decode(i) == Jal(Rd(i), ImmJ(i))
            case Jalr(_, _, _) => Low(i, 0x7f) == 0x67 && Funct3(i) == 0 && Decode(i) == Jalr(Rd(i), Rs1(i), ImmI(i))
            case Branch(_, _, _, _) => Low(i, 0x7f) == 0x63 && Decode(i) == DecodeBranch(i)
            case Load(_, _, _, _, _) => Low(i, 0x7f) == 0x03 && Decode(i) == DecodeLoad(i)
            case Store(_, _, _, _) => Low(i, 0x7f) == 0x23 && Decode(i) == DecodeStore(i)
            case OpImm(_, _, _, _) => Low(i, 0x7f) == 0x13 && Decode(i) == DecodeOpImm(i)
            case Op(_, _, _, _) => Low(i, 0x7f) == 0x33 && Decode(i) == DecodeOp(i)
            case MulDiv(_, _, _, _) => Low(i, 0x7f) == 0x33 && Decode(i) == DecodeOp(i)
            case Csr(_, _, _) => Low(i, 0x7f) == 0x73 && Decode(i) == DecodeSystem(i)
            case _ => true
  {
    hide Funct7, Rs2, Rs1, Funct3, Rd, ImmI, ImmS, ImmB, ImmU, ImmJ;
    hide DecodeBranch, DecodeLoad, DecodeStore, DecodeOpImm, DecodeOp, DecodeSystem;
    Formats(i);
  }

  lemma AssemblesR(i: Word, csr: int)
    requires Decode(i).Op? || Decode(i).MulDiv?
    ensures U(i) == Assembled(Decode(i), csr)
  {
    hide Decode, Low, U, Sum, Funct7, Rs2, Rs1, Funct3, Rd, DecodeAlu;
    DecodedBy(i);
    Opcodes();
    FunctionSevens();
    FieldsAreDigits(i);
    Recomposed(U(i));
    SelectorsCover(Funct3(i));
  }

  lemma AssemblesI(i: Word, csr: int)
    requires Decode(i).Jalr? || Decode(i).Load?
    ensures Encodable(Decode(i)) && U(i) == Assembled(Decode(i), csr)
  {
    hide Decode, Low, U, Sum, Funct7, Rs2, Rs1, Funct3, Rd, ImmI, S, Residue, TwosComplement;
    DecodedBy(i);
    Opcodes();
    FieldsAreDigits(i);
    Recomposed(U(i));
    ImmIReads(i);
    ReadResidue(U(i) / 0x10_0000, 0x1000);
    Twelve(U(i) / 0x10_0000);
  }

  lemma AssemblesOpImm(i: Word, csr: int)
    requires Decode(i).OpImm?
    ensures Encodable(Decode(i)) && U(i) == Assembled(Decode(i), csr)
  {
    hide Decode, Low, U, Sum, Funct7, Rs2, Rs1, Funct3, Rd, ImmI, S, Residue, DecodeAlu;
    DecodedBy(i);
    Opcodes();
    FunctionSevens();
    FieldsAreDigits(i);
    Recomposed(U(i));
    ImmIReads(i);
    ReadResidue(U(i) / 0x10_0000, 0x1000);
    Twelve(U(i) / 0x10_0000);
    SelectorsCover(Funct3(i));
  }

  lemma AssemblesCsr(i: Word)
    requires Decode(i).Csr?
    ensures Encodable(Decode(i)) && U(i) == Assembled(Decode(i), U(i) / 0x10_0000)
  {
    hide Decode, Low, U, Sum, Funct7, Rs2, Rs1, Funct3, Rd;
    DecodedBy(i);
    Opcodes();
    FieldsAreDigits(i);
    Recomposed(U(i));
    Twelve(U(i) / 0x10_0000);
  }

  lemma AssemblesStore(i: Word, csr: int)
    requires Decode(i).Store?
    ensures Encodable(Decode(i)) && U(i) == Assembled(Decode(i), csr)
  {
    hide Decode, Low, U, Sum, Funct7, Rs2, Rs1, Funct3, Rd, ImmS, S, Residue, TwosComplement;
    DecodedBy(i);
    Opcodes();
    FieldsAreDigits(i);
    Recomposed(U(i));
    ImmSReads(i);
    var f7, rd := U(i) / 0x200_0000, U(i) / 0x80 % 32;
    ReadResidue(f7 * 32 + rd, 0x1000);
    N.DivModUnique(f7 * 32 + rd, 32, f7, rd);
  }

  lemma AssemblesBranch(i: Word, csr: int)
    requires Decode(i).Branch?
    ensures Encodable(Decode(i)) && U(i) == Assembled(Decode(i), csr)
  {
    hide Decode, Low, U, Sum, Funct7, Rs2, Rs1, Funct3, Rd, ImmB, S, Residue, TwosComplement;
    DecodedBy(i);
    Opcodes();
    FieldsAreDigits(i);
    Recomposed(U(i));
    ImmBReads(i);
    var v := BranchDigits(U(i), U(i) / 0x200_0000, U(i) / 0x80 % 32);
    ReadResidue(v, 0x2000);
    EvenReading(v, 0x2000);
  }

  /** The offset in a branch, from the fields around its registers, and back. */
  lemma BranchDigits(n: int, f7: int, rd: int) returns (v: int)
    requires 0 <= n < 0x1_0000_0000 && n / 0x200_0000 == f7 && n / 0x80 % 32 == rd
    ensures v == n / 0x8000_0000 * 0x1000 + n / 0x80 % 2 * 0x800 + n / 0x200_0000 % 64 * 32 + n / 0x100 % 16 * 2
    ensures 0 <= v < 0x2000 && v % 2 == 0
    ensures v / 0x1000 * 64 + v / 32 % 64 == f7 && v / 2 % 16 * 2 + v / 0x800 % 2 == rd
  {
    FieldB(n, f7, rd, f7 / 64, f7 % 64, rd / 2, rd % 2);
    v := f7 / 64 * 0x1000 + rd % 2 * 0x800 + f7 % 64 * 32 + rd / 2 * 2;
    BranchOffset(v, f7 / 64, f7 % 64, rd / 2, rd % 2);
  }

  lemma BranchOffset(v: int, a: int, h: int, l: int, b: int)
    requires 0 <= a < 2 && 0 <= h < 64 && 0 <= l < 16 && 0 <= b < 2
    requires v == a * 0x1000 + b * 0x800 + h * 32 + l * 2
    ensures 0 <= v < 0x2000 && v % 2 == 0
    ensures v / 0x1000 == a && v / 32 % 64 == h && v / 2 % 16 == l && v / 0x800 % 2 == b
  {
    var e := a * 2 + b;
    var f := e * 64 + h;
    N.DivModUnique(v, 0x1000, a, b * 0x800 + h * 32 + l * 2);
    N.DivModUnique(v, 0x800, e, h * 32 + l * 2);
    N.DivModUnique(v, 32, f, l * 2);
    N.DivModUnique(v, 2, f * 16 + l, 0);
    N.DivModUnique(e, 2, a, b);
    N.DivModUnique(f, 64, e, h);
    N.DivModUnique(f * 16 + l, 16, f, l);
  }

  lemma EvenReading(v: int, m: int)
    requires v % 2 == 0 && m % 2 == 0
    ensures TwosComplement(v, m) % 2 == 0
  {
  }

  lemma AssemblesU(i: Word, csr: int)
    requires Decode(i).Lui? || Decode(i).Auipc?
    ensures Encodable(Decode(i)) && U(i) == Assembled(Decode(i), csr)
  {
    hide Decode, Low, U, Sum, Funct7, Rs2, Rs1, Funct3, Rd, ImmU;
    DecodedBy(i);
    Opcodes();
    FieldsAreDigits(i);
    Recomposed(U(i));
    ImmUReads(i);
    UpperFields(U(i));
    N.DivModUnique(U(i) / 0x1000 * 0x1000, 0x1000, U(i) / 0x1000, 0);
  }

  lemma UpperFields(n: int)
    requires 0 <= n < 0x1_0000_0000
    ensures var t := n / 0x1000;
            t / 0x2000 == n / 0x200_0000 && t / 0x100 % 32 == n / 0x10_0000 % 32 && t / 8 % 32 == n / 0x8000 % 32
            && t % 8 == n / 0x1000 % 8
  {
    N.DivDiv(n, 0x1000, 0x2000);
    N.DivDiv(n, 0x1000, 0x100);
    N.DivDiv(n, 0x1000, 8);
  }

  lemma AssemblesJal(i: Word, csr: int)
    requires Decode(i).Jal?
    ensures Encodable(Decode(i)) && U(i) == Assembled(Decode(i), csr)
  {
    hide Decode, Low, U, Sum, Funct7, Rs2, Rs1, Funct3, Rd, ImmJ, S, Residue, TwosComplement;
    DecodedBy(i);
    Opcodes();
    FieldsAreDigits(i);
    Recomposed(U(i));
    ImmJReads(i);
    UpperFields(U(i));
    var t := U(i) / 0x1000;
    var a, b, c, d := t / 0x8_0000, t / 0x200 % 1024, t / 0x100 % 2, t % 256;
    JumpParts(t, a, b, c, d);
    FieldJ(U(i), t, a, b, c, d);
    var v := a * 0x10_0000 + d * 0x1000 + c * 0x800 + b * 2;
    JumpOffset(v, a, b, c, d);
    ReadResidue(v, 0x20_0000);
    EvenReading(v, 0x20_0000);
  }

  lemma JumpParts(t: int, a: int, b: int, c: int, d: int)
    requires 0 <= t < 0x10_0000 && a == t / 0x8_0000 && b == t / 0x200 % 1024 && c == t / 0x100 % 2 && d == t % 256
    ensures t == a * 0x8_0000 + b * 0x200 + c * 0x100 + d && 0 <= a < 2
  {
    N.DivDiv(t, 0x100, 2);
    N.DivDiv(t, 0x200, 1024);
  }

  lemma JumpOffset(v: int, a: int, b: int, c: int, d: int)
    requires 0 <= a < 2 && 0 <= b < 1024 && 0 <= c < 2 && 0 <= d < 256
    requires v == a * 0x10_0000 + d * 0x1000 + c * 0x800 + b * 2
    ensures 0 <= v < 0x20_0000 && v % 2 == 0
    ensures v / 0x10_0000 == a && v / 0x1000 % 256 == d && v / 0x800 % 2 == c && v / 2 % 1024 == b
  {
    var e := a * 256 + d;
    var f := e * 2 + c;
    N.DivModUnique(v, 0x10_0000, a, d * 0x1000 + c * 0x800 + b * 2);
    N.DivModUnique(v, 0x1000, e, c * 0x800 + b * 2);
    N.DivModUnique(v, 0x800, f, b * 2);
    N.DivModUnique(v, 2, f * 1024 + b, 0);
    N.DivModUnique(e, 256, a, d);
    N.DivModUnique(f, 2, e, c);
    N.DivModUnique(f * 1024 + b, 1024, f, b);
  }

  lemma AssemblesPlain(i: Word, csr: int)
    requires Decode(i).Ecall? || Decode(i).Ebreak? || Decode(i).Mret?
    ensures U(i) == Assembled(Decode(i), csr)
  {
    hide U;
    Opcodes();
    SystemWords();
  }

  /** Main result: and nothing else is decoded so: but for the words it takes for no-ops, every word that the decoder
      takes is the assembler's word for what it decodes to. */
  lemma DecodedIsAssembled(i: Word)
    requires Decode(i) != Unsupported && Decode(i) != Nop
    ensures Encodable(Decode(i)) && U(i) == Assembled(Decode(i), U(i) / 0x10_0000)
  {
    hide U, Encodable, Assembled, Decode;
    var csr := U(i) / 0x10_0000;
    match Decode(i)
    case Lui(_, _) => AssemblesU(i, csr);
    case Auipc(_, _) => AssemblesU(i, csr);
    case Jal(_, _) => AssemblesJal(i, csr);
    case Jalr(_, _, _) => AssemblesI(i, csr);
    case Branch(_, _, _, _) => AssemblesBranch(i, csr);
    case Load(_, _, _, _, _) => AssemblesI(i, csr);
    case Store(_, _, _, _) => AssemblesStore(i, csr);
    case OpImm(_, _, _, _) => AssemblesOpImm(i, csr);
    case Op(_, _, _, _) => AssemblesR(i, csr); PlainFits(Decode(i));
    case MulDiv(_, _, _, _) => AssemblesR(i, csr); PlainFits(Decode(i));
    case Csr(_, _, _) => AssemblesCsr(i);
    case _ => AssemblesPlain(i, csr); PlainFits(Decode(i));
  }

  lemma PlainFits(ins: Instr)
    ensures ins.Op? || ins.MulDiv? || ins.Ecall? || ins.Ebreak? || ins.Mret? ==> Encodable(ins)
  {
  }
}
