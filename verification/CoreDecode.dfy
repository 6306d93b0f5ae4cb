/** The core's combinational parts against the ISA: immediates, ALU, branch decisions and byte lanes. */
module CoreDecode {
  import opened Isa
  import opened Core
  import Bits

  // ---------------------------------------------------------------- immediates

  lemma ImmIAgrees(i: Word)
    ensures CoreImmI(i) == ImmI(i)
  {
  }

  lemma ImmSAgrees(i: Word)
    ensures CoreImmS(i) == ImmS(i)
  {
  }

  lemma ImmBAgrees(i: Word)
    ensures CoreImmB(i) == ImmB(i)
  {
  }

  lemma ImmUAgrees(i: Word)
    ensures CoreImmU(i) == ImmU(i)
  {
  }

  lemma ImmJAgrees(i: Word)
    ensures CoreImmJ(i) == ImmJ(i)
  {
  }

  // ---------------------------------------------------------------- ALU

  /** The ALU selector that stands for an operation. */
  function Code(op: AluOp): bv4 {
    match op
    case ADD => 0x0 case SUB => 0x8 case SLL => 0x1 case SLT => 0x2 case SLTU => 0x3
    case XOR => 0x4 case SRL => 0x5 case SRA => 0xd case OR => 0x6 case AND => 0x7
  }

  lemma FromIsZero(x: int)
    requires 0 <= x < 0x1_0000_0000
    ensures From(x) == 0 <==> x == 0
  {
  }

  /** Overflow and sign flag of the subtraction decide the signed order. */
  lemma SignedCompareByFlags(a: Word, b: Word)
    ensures SltFlag(a, b) == SignedLess(a, b)
  {
    hide U;
  }

  /** The borrow decides the unsigned order. */
  lemma UnsignedCompareByBorrow(a: Word, b: Word)
    ensures SltuFlag(a, b) == UnsignedLess(a, b)
  {
    hide U;
  }

  lemma DifferenceWraps(a: Word, b: Word)
    ensures Difference(a, b) == (U(a) - U(b)) % 0x1_0000_0000
  {
    hide U;
  }

  /** The zero test on the difference decides equality. */
  lemma EqualByDifference(a: Word, b: Word)
    ensures From(Difference(a, b)) == 0 <==> a == b
  {
    hide U, From;
    Bits.FromU(a);
    Bits.FromU(b);
    DifferenceWraps(a, b);
    FromIsZero(Difference(a, b));
  }

  lemma AluSubtracts(a: Word, b: Word)
    ensures Alu(0x8, a, b) == Compute(SUB, a, b)
    ensures Alu(0x2, a, b) == Compute(SLT, a, b)
    ensures Alu(0x3, a, b) == Compute(SLTU, a, b)
  {
    hide SltFlag, SltuFlag, Difference, SignedLess, UnsignedLess, U, From;
    DifferenceWraps(a, b);
    SignedCompareByFlags(a, b);
    UnsignedCompareByBorrow(a, b);
  }

  lemma AluMoves(a: Word, b: Word)
    ensures Alu(0x0, a, b) == Compute(ADD, a, b)
    ensures Alu(0x1, a, b) == Compute(SLL, a, b)
    ensures Alu(0x5, a, b) == Compute(SRL, a, b)
    ensures Alu(0xd, a, b) == Compute(SRA, a, b)
  {
    hide Plus, ShiftLeft, ShiftRight, ArithmeticShiftRight;
  }

  lemma AluMasks(a: Word, b: Word)
    ensures Alu(0x4, a, b) == Compute(XOR, a, b)
    ensures Alu(0x6, a, b) == Compute(OR, a, b)
    ensures Alu(0x7, a, b) == Compute(AND, a, b)
  {
  }

  /** The ALU computes what the ISA asks for. */
  lemma AluComputes(op: AluOp, a: Word, b: Word)
    ensures Alu(Code(op), a, b) == Compute(op, a, b)
  {
    hide Alu, Compute;
    AluSubtracts(a, b);
    AluMoves(a, b);
    AluMasks(a, b);
  }

  // ---------------------------------------------------------------- shifts, bit by bit

  /** A word with one bit set, or none: it cuts nothing out of a word but all of itself. */
  ghost predicate OneBit(m: Word) { forall x: Word :: And(x, m) == 0 || And(x, m) == m }

  function And(x: Word, m: Word): Word { x & m }

  /** The bit of x in the place that m marks. */
  predicate HasBit(x: Word, m: Word) { And(x, m) != 0 }

  lemma LowestIsOneBit()
    ensures OneBit(1)
  {
    forall x: Word
      ensures And(x, 1) == 0 || And(x, 1) == 1
    {
    }
  }

  function Up(x: Word): Word { x << 1 }

  function Down(x: Word): Word { x >> 1 }

  lemma AndUp(x: Word, m: Word)
    ensures And(x, Up(m)) == Up(And(Down(x), m))
  {
  }

  lemma UpNothing()
    ensures Up(0) == 0
  {
  }

  lemma BitUp(x: Word, m: Word)
    ensures HasBit(Up(x), m) <==> HasBit(x, Down(m))
  {
  }

  lemma BitDown(x: Word, m: Word)
    ensures HasBit(Down(x), m) <==> HasBit(x, Up(m))
  {
  }

  function Less(n: Word): (k: Word)
    requires 0 < n <= 31
    ensures k < n
  {
    n - 1
  }

  /** A shift is one place more than a shift by one place less, whichever is done first. */
  lemma LeftSteps(x: Word, n: Word)
    requires 0 < n <= 31
    ensures ShiftLeft(x, n) == Up(ShiftLeft(x, Less(n))) == ShiftLeft(Up(x), Less(n))
  {
  }

  lemma RightSteps(x: Word, n: Word)
    requires 0 < n <= 31
    ensures ShiftRight(x, n) == Down(ShiftRight(x, Less(n))) == ShiftRight(Down(x), Less(n))
  {
  }

  lemma NoShift(x: Word)
    ensures ShiftLeft(x, 0) == x == ShiftRight(x, 0)
  {
  }

  lemma OneBitUp(m: Word)
    requires OneBit(m)
    ensures OneBit(Up(m))
  {
    hide And, Up, Down;
    UpNothing();
    forall x: Word
      ensures And(x, Up(m)) == 0 || And(x, Up(m)) == Up(m)
    {
      AndUp(x, m);
    }
  }

  /** A marked place moved up is one place, or gone. */
  lemma {:induction false} OneBitMoves(m: Word, n: Word)
    requires n <= 31 && OneBit(m)
    ensures OneBit(ShiftLeft(m, n))
    decreases n
  {
    hide OneBit, ShiftLeft, Up, Less;
    if n == 0 {
      NoShift(m);
    } else {
      OneBitMoves(m, Less(n));
      LeftSteps(m, n);
      OneBitUp(ShiftLeft(m, Less(n)));
    }
  }

  lemma {:induction false} LeftShiftBits(a: Word, n: Word, m: Word)
    requires n <= 31
    ensures HasBit(ShiftLeft(a, n), m) <==> HasBit(a, ShiftRight(m, n))
    decreases n
  {
    hide HasBit, ShiftLeft, ShiftRight, Up, Down, Less;
    if n == 0 {
      NoShift(a);
      NoShift(m);
    } else {
      LeftSteps(a, n);
      RightSteps(m, n);
      BitUp(ShiftLeft(a, Less(n)), m);
      LeftShiftBits(a, Less(n), Down(m));
    }
  }

  lemma {:induction false} RightShiftBits(a: Word, n: Word, m: Word)
    requires n <= 31
    ensures HasBit(ShiftRight(a, n), m) <==> HasBit(a, ShiftLeft(m, n))
    decreases n
  {
    hide HasBit, ShiftLeft, ShiftRight, Up, Down, Less;
    if n == 0 {
      NoShift(a);
      NoShift(m);
    } else {
      RightSteps(a, n);
      LeftSteps(m, n);
      BitDown(ShiftRight(a, Less(n)), m);
      RightShiftBits(a, Less(n), Up(m));
    }
  }

  lemma AndNot(x: Word, m: Word)
    ensures And(x, m) == 0 ==> And(Not(x), m) == m
    ensures And(x, m) == m ==> And(Not(x), m) == 0
  {
  }

  lemma NotBits(x: Word, m: Word)
    requires OneBit(m) && m != 0
    ensures HasBit(Not(x), m) <==> !HasBit(x, m)
  {
    hide And, Not;
    AndNot(x, m);
    assert And(x, m) == 0 || And(x, m) == m;
  }

  lemma NoPlaceNoBit(x: Word)
    ensures !HasBit(x, 0)
  {
  }

  /** The bit in a place comes from n places further up, or from the sign if there is no such place. */
  lemma SignedShiftBits(a: Word, n: Word, m: Word)
    requires n <= 31 && OneBit(m) && m != 0
    ensures HasBit(ArithmeticShiftRight(a, n), m) <==>
              if ShiftLeft(m, n) == 0 then Negative(a) else HasBit(a, ShiftLeft(m, n))
  {
    hide And, OneBit, HasBit, Not, Negative, ShiftLeft, ShiftRight;
    NoPlaceNoBit(a);
    NoPlaceNoBit(Not(a));
    OneBitMoves(m, n);
    RightShiftBits(a, n, m);
    RightShiftBits(Not(a), n, m);
    NotBits(ShiftRight(Not(a), n), m);
    if ShiftLeft(m, n) != 0 { NotBits(a, ShiftLeft(m, n)); }
  }

  /** How far the ALU shifts. */
  function Amount(b: Word): (n: Word)
    ensures n <= 31
  {
    b & 31
  }

  lemma SignBit(a: Word)
    ensures Negative(a) <==> HasBit(a, 0x8000_0000)
  {
  }

  /** The three shifts as section 2.4 of the standard describes them, place by place: by the low five bits of the
      second operand, with zeros coming in from either side, or copies of the sign from the left. */
  lemma AluShifts(a: Word, b: Word, m: Word)
    requires OneBit(m) && m != 0
    ensures HasBit(Alu(0x1, a, b), m) <==> HasBit(a, ShiftRight(m, Amount(b)))
    ensures HasBit(Alu(0x5, a, b), m) <==> HasBit(a, ShiftLeft(m, Amount(b)))
    ensures HasBit(Alu(0xd, a, b), m) <==>
              if ShiftLeft(m, Amount(b)) == 0 then HasBit(a, 0x8000_0000) else HasBit(a, ShiftLeft(m, Amount(b)))
  {
    hide OneBit, HasBit, ShiftLeft, ShiftRight, ArithmeticShiftRight;
    SignBit(a);
    LeftShiftBits(a, Amount(b), m);
    RightShiftBits(a, Amount(b), m);
    SignedShiftBits(a, Amount(b), m);
  }

  /** Branch decisions come out of the same flags. */
  predicate Taken(i: Word, aluOut: Word) { (if Bit(i, 14) then Bit(i, 12) else !Bit(i, 12)) != (aluOut != 0) }

  lemma BranchDecision(i: Word, a: Word, b: Word)
    requires Opcode(i) == OP_BR && DecodeBranch(i) != Unsupported
    ensures Taken(i, Alu(ControlEx(i).aluM, a, b)) == Holds(DecodeBranch(i).cond, a, b)
  {
    hide SltFlag, SltuFlag, Difference, SignedLess, UnsignedLess, ArithmeticShiftRight, ControlEx, Bit, U, From;
    BranchSelector(i);
    match Funct3(i)
    case 4 => SignedCompareByFlags(a, b);
    case 5 => SignedCompareByFlags(a, b);
    case 6 => UnsignedCompareByBorrow(a, b);
    case 7 => UnsignedCompareByBorrow(a, b);
    case _ => EqualByDifference(a, b);
  }

  lemma BranchSelector(i: Word)
    requires Opcode(i) == OP_BR
    ensures ControlEx(i).aluM == (match Funct3(i) case 4 => 2 case 5 => 2 case 6 => 3 case 7 => 3 case _ => 8)
    ensures Bit(i, 14) == (Funct3(i) & 4 != 0) && Bit(i, 12) == (Funct3(i) & 1 != 0)
  {
  }

  lemma RegisterSelector(i: Word)
    requires Opcode(i) == OP_R && DecodeOp(i).Op?
    ensures ControlEx(i).aluM == Code(DecodeOp(i).op) && ControlEx(i).srcA == 0 && ControlEx(i).srcB == 0
    ensures !IsRv32m(i)
  {
  }

  lemma ImmediateSelector(i: Word)
    requires Opcode(i) == OP_R_I && DecodeOpImm(i).OpImm?
    ensures ControlEx(i).aluM == Code(DecodeOpImm(i).op) && ControlEx(i).srcA == 0 && ControlEx(i).srcB == 1
  {
  }

  /** What each decoded instruction looks like to the core. */
  lemma DecodeByOpcode(i: Word)
    ensures match Decode(i)
            case Lui(rd, imm) => Opcode(i) == OP_LUI && rd == Rd(i) && imm == Imm(i)
            case Auipc(rd, imm) => Opcode(i) == OP_AUIPC && rd == Rd(i) && imm == Imm(i)
            case Jal(rd, imm) => Opcode(i) == OP_JAL && rd == Rd(i) && imm == Imm(i)
            case Jalr(rd, rs1, imm) => Opcode(i) == OP_JALR && rd == Rd(i) && rs1 == Rs1(i) && imm == Imm(i)
            case Branch(_, rs1, rs2, imm) =>
              Opcode(i) == OP_BR && Decode(i) == DecodeBranch(i) && rs1 == Rs1(i) && rs2 == Rs2(i) && imm == Imm(i)
            case Load(_, _, rd, rs1, imm) =>
              Opcode(i) == OP_LOAD && Decode(i) == DecodeLoad(i) && rd == Rd(i) && rs1 == Rs1(i) && imm == Imm(i)
            case Store(_, rs1, rs2, imm) =>
              Opcode(i) == OP_STORE && Decode(i) == DecodeStore(i) && rs1 == Rs1(i) && rs2 == Rs2(i) && imm == Imm(i)
            case OpImm(_, rd, rs1, imm) =>
              Opcode(i) == OP_R_I && Decode(i) == DecodeOpImm(i) && rd == Rd(i) && rs1 == Rs1(i) && imm == Imm(i)
            case Op(_, rd, rs1, rs2) =>
              Opcode(i) == OP_R && Decode(i) == DecodeOp(i) && rd == Rd(i) && rs1 == Rs1(i) && rs2 == Rs2(i)
            case MulDiv(fn, rd, rs1, rs2) =>
              Opcode(i) == OP_R && IsRv32m(i) && fn == Funct3(i) && rd == Rd(i) && rs1 == Rs1(i) && rs2 == Rs2(i)
            case Csr(fn, rd, rs1) =>
              Opcode(i) == OP_PRIV && PrivCsr(i) && fn == Funct3(i) && fn != 4 && rd == Rd(i) && rs1 == Rs1(i)
            case Nop => Opcode(i) == OP_FENCE || (Opcode(i) == OP_PRIV && (PrivWfi(i) || PrivSfenceVma(i)))
            case Ecall => Opcode(i) == OP_PRIV && PrivEcall(i)
            case Ebreak => Opcode(i) == OP_PRIV && PrivEbreak(i)
            case Mret => Opcode(i) == OP_PRIV && PrivMret(i)
            case Unsupported => true
  {
    hide ImmI, ImmS, ImmB, ImmU, ImmJ, CoreImmI, CoreImmS, CoreImmB, CoreImmU, CoreImmJ, Rd, Rs1, Rs2,
         DecodeSystem, PrivCsr, PrivWfi, PrivMret, PrivEbreak, PrivEcall, PrivSfenceVma;
    ImmIAgrees(i);
    ImmSAgrees(i);
    ImmBAgrees(i);
    ImmUAgrees(i);
    ImmJAgrees(i);
    MulDivBit(i);
    SystemByCode(i);
  }

  lemma SystemByCode(i: Word)
    ensures match DecodeSystem(i)
            case Csr(fn, rd, rs1) => PrivCsr(i) && fn == Funct3(i) && fn != 4 && rd == Rd(i) && rs1 == Rs1(i)
            case Nop => PrivWfi(i) || PrivSfenceVma(i)
            case Ecall => PrivEcall(i)
            case Ebreak => PrivEbreak(i)
            case Mret => PrivMret(i)
            case Unsupported => true
            case _ => false
  {
    hide Funct3, Funct7, Rd, Rs1, PrivWfi, PrivMret, PrivEbreak, PrivEcall, PrivSfenceVma;
    SystemBits(i);
  }

  lemma MulDivBit(i: Word)
    ensures Funct7(i) == 1 ==> IsRv32m(i)
  {
  }

  lemma SystemBits(i: Word)
    ensures i == 0x0000_0073 ==> PrivEcall(i)
    ensures i == 0x0010_0073 ==> PrivEbreak(i)
    ensures i == 0x3020_0073 ==> PrivMret(i)
    ensures i == 0x1050_0073 ==> PrivWfi(i)
    ensures Funct3(i) == 0 && Funct7(i) == 9 ==> PrivSfenceVma(i)
  {
  }

  // ---------------------------------------------------------------- CSR instructions

  /** What the core writes to the CSR: the clear instructions keep the bits named instead of clearing them. */
  function CsrAsCoded(fn: bv3, was: Word, v: Word): Word {
    match fn & 3
    case 2 => v | was
    case 3 => v & was
    case _ => v
  }

  lemma ClearKeeps(was: Word, v: Word)
    ensures v & was == was & !v <==> was == 0
  {
  }

  lemma OrCommutes(was: Word, v: Word)
    ensures v | was == was | v
  {
  }

  /** The core updates a CSR as the standard says unless it is told to clear bits of one that is not zero. */
  lemma CsrUpdateIff(fn: bv3, was: Word, v: Word)
    ensures CsrAsCoded(fn, was, v) == CsrUpdated(fn, was, v) <==> fn & 3 != 3 || was == 0
  {
    ClearKeeps(was, v);
    OrCommutes(was, v);
  }

  /** The ALU operation of a CSR instruction, on its operand and the word read. */
  lemma CsrComputes(i: Word, a: Word, was: Word)
    requires Opcode(i) == OP_PRIV && PrivCsr(i) && Funct3(i) != 4
    ensures Alu(ControlEx(i).aluM, a, was) == CsrAsCoded(Funct3(i), was, a)
  {
    hide Opcode, Alu, PrivCsr, ControlEx, Plus, ShiftLeft, ShiftRight, SltFlag, SltuFlag, From, Difference,
         ArithmeticShiftRight;
    CsrSelector(i);
    AluOfCsr(a, was);
  }

  lemma CsrSelector(i: Word)
    requires Opcode(i) == OP_PRIV && PrivCsr(i) && Funct3(i) != 4
    ensures ControlEx(i).aluM == (match Funct3(i) & 3 case 2 => 6 case 3 => 7 case _ => 15)
    ensures ControlEx(i).srcB == 2 && ControlEx(i).csrSave && ControlEx(i).srcA == if Funct3(i) & 4 != 0 then 2 else 0
  {
  }

  lemma AluOfCsr(a: Word, was: Word)
    ensures Alu(6, a, was) == a | was && Alu(7, a, was) == a & was && Alu(15, a, was) == a
  {
    hide Plus, ShiftLeft, ShiftRight, ArithmeticShiftRight, SltFlag, SltuFlag, From, Difference;
  }

  lemma RegisterNameIsField(i: Word)
    ensures Rs1(i) as Word == (i >> 15) & 0x1f
  {
  }
}
