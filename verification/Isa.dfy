/** RV32I with the M extension and the CSR instructions, one instruction at a time, over byte-addressed little-endian
    memory: the reference the multi-cycle core is compared with (sections 2.4 to 2.6 and chapters 7 and 9 of the RISC-V
    Unprivileged ISA, version 20191213). */
module Isa {

  type Word = bv32
  type RegName = bv5

  /** Register file and byte memory: total functions from names and addresses to contents. */
  type RegFile = RegName -> Word
  type ByteMem = Word -> bv8

  /** Reading a register; x0 reads as zero. */
  function Get(x: RegFile, r: RegName): Word { if r == 0 then 0 else x(r) }

  /** Writing a register; x0 keeps whatever it holds. */
  function Put(x: RegFile, r: RegName, v: Word): RegFile {
    if r == 0 then x else (q: RegName) => if q == r then v else x(q)
  }

  /** Writing a byte. */
  function SetByte(m: ByteMem, a: Word, b: bv8): ByteMem { (x: Word) => if x == a then b else m(x) }

  /** Architectural state. */
  datatype Arch = Arch(pc: Word, x: RegFile, mem: ByteMem)

  // ---------------------------------------------------------------- instructions

  datatype AluOp = ADD | SUB | SLL | SLT | SLTU | XOR | SRL | SRA | OR | AND

  datatype Cond = EQ | NE | LT | GE | LTU | GEU

  datatype Width = Byte | Half | Full

  datatype Instr =
    | Lui(rd: RegName, imm: Word)
    | Auipc(rd: RegName, imm: Word)
    | Jal(rd: RegName, imm: Word)
    | Jalr(rd: RegName, rs1: RegName, imm: Word)
    | Branch(cond: Cond, rs1: RegName, rs2: RegName, imm: Word)
    | Load(width: Width, unsigned: bool, rd: RegName, rs1: RegName, imm: Word)
    | Store(width: Width, rs1: RegName, rs2: RegName, imm: Word)
    | OpImm(op: AluOp, rd: RegName, rs1: RegName, imm: Word)
    | Op(op: AluOp, rd: RegName, rs1: RegName, rs2: RegName)
    | MulDiv(fn: bv3, rd: RegName, rs1: RegName, rs2: RegName)
    | Csr(fn: bv3, rd: RegName, rs1: RegName)
    | Nop
    | Ecall
    | Ebreak
    | Mret
    | Unsupported

  /** The low n bits of x, n > 0, read as a signed number. */
  function SignExtend(x: Word, signBit: Word): Word { (x ^ signBit) - signBit }

  function ImmI(i: Word): Word { SignExtend(i >> 20, 0x800) }

  function ImmS(i: Word): Word { SignExtend(((i >> 25) << 5) | ((i >> 7) & 0x1f), 0x800) }

  function ImmB(i: Word): Word {
    SignExtend((((i >> 31) & 1) << 12) | (((i >> 7) & 1) << 11) | (((i >> 25) & 0x3f) << 5) | (((i >> 8) & 0xf) << 1),
               0x1000)
  }

  function ImmU(i: Word): Word { i & 0xffff_f000 }

  function ImmJ(i: Word): Word {
    SignExtend((((i >> 31) & 1) << 20) | (((i >> 12) & 0xff) << 12) | (((i >> 20) & 1) << 11)
               | (((i >> 21) & 0x3ff) << 1),
               0x10_0000)
  }

  function Rd(i: Word): RegName { ((i >> 7) & 0x1f) as bv5 }
  function Rs1(i: Word): RegName { ((i >> 15) & 0x1f) as bv5 }
  function Rs2(i: Word): RegName { ((i >> 20) & 0x1f) as bv5 }
  function Funct3(i: Word): bv3 { ((i >> 12) & 7) as bv3 }
  function Funct7(i: Word): Word { i >> 25 }

  function DecodeAlu(f3: bv3): AluOp {
    match f3
    case 0 => ADD case 1 => SLL case 2 => SLT case 3 => SLTU
    case 4 => XOR case 5 => SRL case 6 => OR case _ => AND
  }

  function DecodeOpImm(i: Word): Instr {
    var f3, f7 := Funct3(i), Funct7(i);
    if f3 == 5 && f7 == 0x20 then OpImm(SRA, Rd(i), Rs1(i), ImmI(i))
    else if (f3 == 1 || f3 == 5) && f7 != 0 then Unsupported
    else OpImm(DecodeAlu(f3), Rd(i), Rs1(i), ImmI(i))
  }

  function DecodeOp(i: Word): Instr {
    var f3, f7 := Funct3(i), Funct7(i);
    if f7 == 0 then Op(DecodeAlu(f3), Rd(i), Rs1(i), Rs2(i))
    else if f7 == 0x20 && f3 == 0 then Op(SUB, Rd(i), Rs1(i), Rs2(i))
    else if f7 == 0x20 && f3 == 5 then Op(SRA, Rd(i), Rs1(i), Rs2(i))
    else if f7 == 1 then MulDiv(f3, Rd(i), Rs1(i), Rs2(i))
    else Unsupported
  }

  function DecodeBranch(i: Word): Instr {
    var f3 := Funct3(i);
    if f3 == 2 || f3 == 3 then Unsupported
    else
      var c := match f3 case 0 => EQ case 1 => NE case 4 => LT case 5 => GE case 6 => LTU case _ => GEU;
      Branch(c, Rs1(i), Rs2(i), ImmB(i))
  }

  function DecodeLoad(i: Word): Instr {
    match Funct3(i)
    case 0 => Load(Byte, false, Rd(i), Rs1(i), ImmI(i))
    case 1 => Load(Half, false, Rd(i), Rs1(i), ImmI(i))
    case 2 => Load(Full, false, Rd(i), Rs1(i), ImmI(i))
    case 4 => Load(Byte, true, Rd(i), Rs1(i), ImmI(i))
    case 5 => Load(Half, true, Rd(i), Rs1(i), ImmI(i))
    case _ => Unsupported
  }

  function DecodeStore(i: Word): Instr {
    match Funct3(i)
    case 0 => Store(Byte, Rs1(i), Rs2(i), ImmS(i))
    case 1 => Store(Half, Rs1(i), Rs2(i), ImmS(i))
    case 2 => Store(Full, Rs1(i), Rs2(i), ImmS(i))
    case _ => Unsupported
  }

  /** ECALL, EBREAK, MRET, WFI and SFENCE.VMA as no-ops, and the CSR instructions. */
  function DecodeSystem(i: Word): Instr {
    if i == 0x0000_0073 then Ecall
    else if i == 0x0010_0073 then Ebreak
    else if i == 0x3020_0073 then Mret
    else if i == 0x1050_0073 then Nop
    else if Funct3(i) == 0 && Funct7(i) == 9 && Rd(i) == 0 then Nop
    else if Funct3(i) != 0 && Funct3(i) != 4 then Csr(Funct3(i), Rd(i), Rs1(i))
    else Unsupported
  }

  function Decode(i: Word): Instr {
    var op := i & 0x7f;
    if op == 0x37 then Lui(Rd(i), ImmU(i))
    else if op == 0x17 then Auipc(Rd(i), ImmU(i))
    else if op == 0x6f then Jal(Rd(i), ImmJ(i))
    else if op == 0x67 then (if Funct3(i) == 0 then Jalr(Rd(i), Rs1(i), ImmI(i)) else Unsupported)
    else if op == 0x63 then DecodeBranch(i)
    else if op == 0x03 then DecodeLoad(i)
    else if op == 0x23 then DecodeStore(i)
    else if op == 0x13 then DecodeOpImm(i)
    else if op == 0x33 then DecodeOp(i)
    else if op == 0x0f then Nop
    else if op == 0x73 then DecodeSystem(i)
    else Unsupported
  }

  // ---------------------------------------------------------------- meaning

  /** The unsigned reading of a word, and the word with a given unsigned reading. */
  function U(a: Word): (x: int)
    ensures 0 <= x < 0x1_0000_0000
  {
    a as int
  }

  function From(x: int): Word
    requires 0 <= x < 0x1_0000_0000
  {
    x as bv32
  }

  /** The two's complement reading. */
  function S(a: Word): int { if U(a) < 0x8000_0000 then U(a) else U(a) - 0x1_0000_0000 }

  predicate SignedLess(a: Word, b: Word) { S(a) < S(b) }

  predicate UnsignedLess(a: Word, b: Word) { U(a) < U(b) }

  /** A jump target with its lowest bit cleared. */
  function ClearBit0(a: Word): Word { a & 0xffff_fffe }

  /** The trap entry point: mtvec without its mode bits. */
  function TrapEntry(mtvec: Word): Word { mtvec & 0xffff_fffc }

  /** Addition modulo 2^32. */
  function Plus(a: Word, b: Word): Word { From((U(a) + U(b)) % 0x1_0000_0000) }

  function ShiftLeft(a: Word, n: Word): Word
    requires n <= 31
  {
    a << n
  }

  function ShiftRight(a: Word, n: Word): Word
    requires n <= 31
  {
    a >> n
  }

  function Not(a: Word): Word { !a }

  predicate Negative(a: Word) { a & 0x8000_0000 != 0 }

  function ArithmeticShiftRight(a: Word, n: Word): Word
    requires n <= 31
  {
    if Negative(a) then Not(ShiftRight(Not(a), n)) else ShiftRight(a, n)
  }

  function Compute(op: AluOp, a: Word, b: Word): Word {
    match op
    case ADD => Plus(a, b)
    case SUB => From((U(a) - U(b)) % 0x1_0000_0000)
    case SLL => ShiftLeft(a, b & 31)
    case SLT => if SignedLess(a, b) then 1 else 0
    case SLTU => if UnsignedLess(a, b) then 1 else 0
    case XOR => a ^ b
    case SRL => ShiftRight(a, b & 31)
    case SRA => ArithmeticShiftRight(a, b & 31)
    case OR => a | b
    case AND => a & b
  }

  predicate Holds(c: Cond, a: Word, b: Word) {
    match c
    case EQ => a == b
    case NE => a != b
    case LT => SignedLess(a, b)
    case GE => !SignedLess(a, b)
    case LTU => UnsignedLess(a, b)
    case GEU => !UnsignedLess(a, b)
  }

  function Fetch(m: ByteMem, a: Word): Word {
    (m(a) as Word) | ((m(a + 1) as Word) << 8) | ((m(a + 2) as Word) << 16) | ((m(a + 3) as Word) << 24)
  }

  function LoadValue(m: ByteMem, a: Word, width: Width, unsigned: bool): Word {
    match width
    case Byte =>
      var v := m(a) as Word;
      if unsigned then v else SignExtend(v, 0x80)
    case Half =>
      var v := (m(a) as Word) | ((m(a + 1) as Word) << 8);
      if unsigned then v else SignExtend(v, 0x8000)
    case Full => Fetch(m, a)
  }

  function ByteOf(v: Word, k: bv2): bv8 {
    match k
    case 0 => (v & 0xff) as bv8
    case 1 => ((v >> 8) & 0xff) as bv8
    case 2 => ((v >> 16) & 0xff) as bv8
    case _ => (v >> 24) as bv8
  }

  function StoreValue(m: ByteMem, a: Word, width: Width, v: Word): ByteMem {
    match width
    case Byte => SetByte(m, a, ByteOf(v, 0))
    case Half => SetByte(SetByte(m, a, ByteOf(v, 0)), a + 1, ByteOf(v, 1))
    case Full =>
      SetByte(SetByte(SetByte(SetByte(m, a, ByteOf(v, 0)), a + 1, ByteOf(v, 1)), a + 2, ByteOf(v, 2)),
              a + 3, ByteOf(v, 3))
  }

  /** The multiply/divide function in force. */
  type MulDivFn = (bv3, Word, Word) -> Word

  /** One instruction; system instructions have their own effect on the trap state, and CSR instructions on their
      destination register, given elsewhere. */
  function Exec(s: Arch, i: Instr, muldiv: MulDivFn): Arch {
    var next := Plus(s.pc, 4);
    match i
    case Lui(rd, imm) => s.(pc := next, x := Put(s.x, rd, imm))
    case Auipc(rd, imm) => s.(pc := next, x := Put(s.x, rd, Plus(s.pc, imm)))
    case Jal(rd, imm) => s.(pc := Plus(s.pc, imm), x := Put(s.x, rd, next))
    case Jalr(rd, rs1, imm) => s.(pc := ClearBit0(Plus(Get(s.x, rs1), imm)), x := Put(s.x, rd, next))
    case Branch(c, rs1, rs2, imm) => s.(pc := if Holds(c, Get(s.x, rs1), Get(s.x, rs2)) then Plus(s.pc, imm) else next)
    case Load(w, u, rd, rs1, imm) =>
      s.(pc := next, x := Put(s.x, rd, LoadValue(s.mem, Plus(Get(s.x, rs1), imm), w, u)))
    case Store(w, rs1, rs2, imm) =>
      s.(pc := next, mem := StoreValue(s.mem, Plus(Get(s.x, rs1), imm), w, Get(s.x, rs2)))
    case OpImm(op, rd, rs1, imm) => s.(pc := next, x := Put(s.x, rd, Compute(op, Get(s.x, rs1), imm)))
    case Op(op, rd, rs1, rs2) => s.(pc := next, x := Put(s.x, rd, Compute(op, Get(s.x, rs1), Get(s.x, rs2))))
    case MulDiv(fn, rd, rs1, rs2) => s.(pc := next, x := Put(s.x, rd, muldiv(fn, Get(s.x, rs1), Get(s.x, rs2))))
    case _ => s.(pc := next)
  }

  /** A CSR instruction that reads v; the CSRs themselves belong to the trap unit. */
  function ExecCsr(s: Arch, rd: RegName, v: Word): Arch { s.(pc := Plus(s.pc, 4), x := Put(s.x, rd, v)) }

  /** The operand of a CSR instruction: a register, or the five bits of its name. */
  function CsrOperand(s: Arch, fn: bv3, rs1: RegName): Word { if fn & 4 != 0 then rs1 as Word else Get(s.x, rs1) }

  /** What a CSR holds after swap, set and clear (section 9.1 of the standard). */
  function CsrUpdated(fn: bv3, was: Word, v: Word): Word {
    match fn & 3
    case 2 => was | v
    case 3 => was & !v
    case _ => v
  }

  function InstrAt(s: Arch): Instr { Decode(Fetch(s.mem, s.pc)) }

  function Aligned(a: Word, width: Width): bool {
    match width
    case Byte => true
    case Half => a & 1 == 0
    case Full => a & 3 == 0
  }

  /** The instruction at pc is one of the model's, naturally aligned, and does not trap on its jump target. */
  predicate Regular(s: Arch, muldiv: MulDivFn) {
    var i := InstrAt(s);
    s.pc & 3 == 0 && i != Unsupported
    && (i.Load? ==> Aligned(Plus(Get(s.x, i.rs1), i.imm), i.width))
    && (i.Store? ==> Aligned(Plus(Get(s.x, i.rs1), i.imm), i.width))
    && Exec(s, i, muldiv).pc & 3 == 0
  }
}
