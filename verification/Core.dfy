/** The multi-cycle core: ALU, immediates, control signals, phase machine and datapath, one clock at a time. */
module Core {
  import opened Isa

  // ---------------------------------------------------------------- ALU

  /** The 33-bit difference as an unsigned number; its top bit is the borrow. */
  function Subtraction(a: Word, b: Word): (d: int)
    ensures 0 <= d < 0x2_0000_0000
  {
    (U(a) - U(b)) % 0x2_0000_0000
  }

  /** Its low 32 bits. */
  function Difference(a: Word, b: Word): (d: int)
    ensures 0 <= d < 0x1_0000_0000
  {
    Subtraction(a, b) % 0x1_0000_0000
  }

  predicate Bit(x: Word, k: Word)
    requires k <= 31
  {
    (x >> k) & 1 == 1
  }

  predicate Bit31(x: int) { x >= 0x8000_0000 }

  /** slt: overflow and sign flags of the subtraction differ, and the result is not zero. */
  predicate SltFlag(a: Word, b: Word) {
    var sub := Difference(a, b);
    var subOf := (!Bit31(U(a)) && Bit31(U(b)) && Bit31(sub)) || (Bit31(U(a)) && !Bit31(U(b)) && !Bit31(sub));
    (subOf != Bit31(sub)) && sub != 0
  }

  /** sltu: the borrow out of the subtraction. */
  predicate SltuFlag(a: Word, b: Word) { Subtraction(a, b) >= 0x1_0000_0000 }

  function Alu(m: bv4, a: Word, b: Word): Word {
    match m
    case 0x0 => Plus(a, b)
    case 0x8 => From(Difference(a, b))
    case 0x1 => ShiftLeft(a, b & 31)
    case 0x5 => ShiftRight(a, b & 31)
    case 0xd => ArithmeticShiftRight(a, b & 31)
    case 0x4 => a ^ b
    case 0x6 => a | b
    case 0xf => a
    case 0x7 => a & b
    case 0x2 => if SltFlag(a, b) then 1 else 0
    case 0x3 => if SltuFlag(a, b) then 1 else 0
    case _ => 0xdead_beef
  }

  // ---------------------------------------------------------------- registers and inputs

  datatype Phase =
    | IF | ID_RF | EX | MEM | EXU | MEMU | WB | MEM_WAIT | RV32M_WAIT | INTERRUPT | EXCEPTION | MRET | BAD

  datatype Regs = Regs(
    pc: Word, oldpc: Word, instruction: Word, a: Word, b: Word, aluOut: Word, aluOut2: Word, rv32mOut: Word,
    mar: Word, mwr: Word, mdr: Word, csrr: Word, phase: Phase, phaseReturn: Phase, mcauseCode: bv4, x: RegFile)

  datatype Inputs = Inputs(
    spo: Word, ready: bool, mReady: bool, mResult: Word,
    interrupt: bool, mtvec: Word, mepc: Word, csrSpo: Word)

  const START_ADDR: Word := 0xf000_0000
  const INVALID_ADDR: Word := 0xffff_ffff

  // ---------------------------------------------------------------- instruction fields

  const OP_LUI: Word := 0x37
  const OP_AUIPC: Word := 0x17
  const OP_JAL: Word := 0x6f
  const OP_JALR: Word := 0x67
  const OP_BR: Word := 0x63
  const OP_LOAD: Word := 0x03
  const OP_STORE: Word := 0x23
  const OP_R_I: Word := 0x13
  const OP_R: Word := 0x33
  const OP_FENCE: Word := 0x0f
  const OP_PRIV: Word := 0x73

  function Opcode(i: Word): Word { i & 0x7f }

  /** All ones when the sign bit of the instruction is set. */
  function SignFill(i: Word): Word { if Bit(i, 31) then 0xffff_ffff else 0 }

  function CoreImmI(i: Word): Word { (SignFill(i) << 11) | ((i >> 20) & 0x7ff) }

  function CoreImmB(i: Word): Word {
    (SignFill(i) << 12) | (((i >> 7) & 1) << 11) | (((i >> 25) & 0x3f) << 5) | (((i >> 8) & 0xf) << 1)
  }

  function CoreImmJ(i: Word): Word {
    (SignFill(i) << 20) | (((i >> 12) & 0xff) << 12) | (((i >> 20) & 1) << 11) | (((i >> 21) & 0x3ff) << 1)
  }

  function CoreImmU(i: Word): Word { (i >> 12) << 12 }

  function CoreImmS(i: Word): Word { (SignFill(i) << 11) | (((i >> 25) & 0x3f) << 5) | ((i >> 7) & 0x1f) }

  function Imm(i: Word): Word {
    var op := Opcode(i);
    if op == OP_LUI || op == OP_AUIPC then CoreImmU(i)
    else if op == OP_R_I || op == OP_LOAD || op == OP_JALR then CoreImmI(i)
    else if op == OP_BR then CoreImmB(i)
    else if op == OP_JAL then CoreImmJ(i)
    else if op == OP_STORE then CoreImmS(i)
    else 0
  }

  predicate InstSrai(i: Word) { Funct3(i) == 5 && Opcode(i) == OP_R_I && Bit(i, 30) }

  predicate StoreUnaligned(i: Word) { !Bit(i, 13) }

  predicate IsRv32m(i: Word) { Bit(i, 25) }

  predicate PrivCsr(i: Word) { Funct3(i) != 0 }
  predicate PrivWfi(i: Word) { Funct3(i) == 0 && Bit(i, 28) && !Bit(i, 25) && !Bit(i, 29) }
  predicate PrivMret(i: Word) { Funct3(i) == 0 && Bit(i, 28) && !Bit(i, 25) && Bit(i, 29) }
  predicate PrivSfenceVma(i: Word) { Funct3(i) == 0 && Bit(i, 28) && Bit(i, 25) }
  predicate PrivEcall(i: Word) { Funct3(i) == 0 && !Bit(i, 28) && !Bit(i, 20) }
  predicate PrivEbreak(i: Word) { Funct3(i) == 0 && !Bit(i, 28) && Bit(i, 20) }

  // ---------------------------------------------------------------- byte lanes

  /** The bus carries words with their bytes in the opposite order. */
  function Swap(v: Word): Word {
    (v << 24) | ((v & 0xff00) << 8) | ((v >> 8) & 0xff00) | (v >> 24)
  }

  /** The byte and the half-word that the low address bits select. */
  function ByteLane(mar: Word, mdr: Word): Word {
    match mar & 3
    case 0 => mdr & 0xff
    case 1 => (mdr >> 8) & 0xff
    case 2 => (mdr >> 16) & 0xff
    case _ => (mdr >> 24) & 0xff
  }

  function HalfLane(mar: Word, mdr: Word): Word {
    if Bit(mar, 1) then (mdr >> 16) & 0xffff else mdr & 0xffff
  }

  /** Zero extension when instruction bit 14 is set, sign extension otherwise. */
  function ExtendByte(i: Word, byte: Word): Word {
    if Bit(i, 14) || !Bit(byte, 7) then byte else 0xffff_ff00 | byte
  }

  function ExtendHalf(i: Word, half: Word): Word {
    if Bit(i, 14) || !Bit(half, 15) then half else 0xffff_0000 | half
  }

  function LoadByte(i: Word, mar: Word, mdr: Word): Word { ExtendByte(i, ByteLane(mar, mdr)) }

  function LoadHalf(i: Word, mar: Word, mdr: Word): Word { ExtendHalf(i, HalfLane(mar, mdr)) }

  function StoreByte(mar: Word, mdr: Word, v: Word): Word {
    match mar & 3
    case 0 => (mdr & 0xffff_ff00) | (v & 0xff)
    case 1 => (mdr & 0xffff_00ff) | ((v & 0xff) << 8)
    case 2 => (mdr & 0xff00_ffff) | ((v & 0xff) << 16)
    case _ => (mdr & 0x00ff_ffff) | ((v & 0xff) << 24)
  }

  function StoreHalf(mar: Word, mdr: Word, v: Word): Word {
    if Bit(mar, 1) then (mdr & 0xffff) | ((v & 0xffff) << 16) else (mdr & 0xffff_0000) | (v & 0xffff)
  }

  // ---------------------------------------------------------------- control signals

  datatype Control = Control(
    pcWrite: bool, pcSrc: bv3, iorDorW: bv2, memRead: bool, memWrite: bool, memSrc: bv2, irWrite: bool,
    aluM: bv4, srcA: bv2, srcB: bv2, regWrite: bool, regSrc: bv4, pcOutSrc: bool, mStart: bool,
    csrWe: bool, csrSave: bool, excEnter: bool, excLeave: bool, excIsInt: bool, intReply: bool)

  const Rest := Control(false, 0, 0, false, false, 0, false, 0, 0, 0, false, 0, false, false,
                        false, false, false, false, false, false)

  function ControlEx(i: Word): Control {
    var op, c := Opcode(i), Rest.(mStart := true);
    if op == OP_R then c.(aluM := (((i >> 27) & 8) | ((i >> 12) & 7)) as bv4)
    else if op == OP_R_I then
      c.(aluM := ((if InstSrai(i) then 8 else 0) | ((i >> 12) & 7)) as bv4, srcB := 1)
    else if op == OP_JALR then c.(srcB := 1)
    else if op == OP_BR then c.(aluM := if Bit(i, 14) then ((i >> 13) & 3) as bv4 else 8)
    else if op == OP_LOAD || op == OP_STORE then c.(srcB := 1)
    else if op == OP_PRIV && PrivCsr(i) then
      c.(srcA := if Bit(i, 14) then 2 else 0, srcB := 2,
         aluM := if Bit(i, 13) then 6 | (((i >> 12) & 1) as bv4) else 15, csrSave := true)
    else c
  }

  function ControlMem(i: Word): Control {
    var op := Opcode(i);
    if op == OP_LOAD || (op == OP_STORE && StoreUnaligned(i)) then Rest.(memRead := true, iorDorW := 1)
    else if op == OP_STORE then Rest.(memWrite := true, iorDorW := 1, memSrc := 2)
    else Rest
  }

  function ControlWb(i: Word, aluOut: Word): Control {
    var op := Opcode(i);
    if op == OP_R && IsRv32m(i) then Rest.(regWrite := true, regSrc := 7)
    else if op == OP_R || op == OP_R_I then Rest.(regWrite := true)
    else if op == OP_LUI then Rest.(regWrite := true, regSrc := 2)
    else if op == OP_AUIPC then Rest.(regWrite := true)
    else if op == OP_JAL then Rest.(regWrite := true, regSrc := 3, pcWrite := true, pcSrc := 2)
    else if op == OP_JALR then Rest.(regWrite := true, regSrc := 3, pcWrite := true, pcSrc := 3)
    else if op == OP_BR then
      Rest.(pcWrite := (if Bit(i, 14) then Bit(i, 12) else !Bit(i, 12)) != (aluOut != 0), pcSrc := 1)
    else if op == OP_LOAD then Rest.(regWrite := true, regSrc := 4 | (((i >> 12) & 3) as bv4))
    else if op == OP_PRIV && PrivCsr(i) then Rest.(regWrite := true, regSrc := 8, csrWe := true)
    else Rest
  }

  function ControlOf(r: Regs, ready: bool): Control {
    match r.phase
    case IF => Rest.(memRead := true, irWrite := true)
    case ID_RF => Rest.(pcWrite := true, srcA := 1, srcB := 1)
    case EX => ControlEx(r.instruction)
    case MEM => ControlMem(r.instruction)
    case EXU => Rest.(iorDorW := 2, srcB := 1)
    case MEMU => Rest.(memWrite := true, iorDorW := 1, memSrc := ((r.instruction >> 12) & 3) as bv2)
    case WB => ControlWb(r.instruction, r.aluOut)
    case MEM_WAIT => Rest.(iorDorW := 2, memSrc := 3, irWrite := ready && r.phaseReturn == ID_RF)
    case INTERRUPT => Rest.(excEnter := true, excIsInt := true, intReply := true, pcWrite := true, pcSrc := 4)
    case EXCEPTION => Rest.(excEnter := true, pcWrite := true, pcSrc := 4, pcOutSrc := true)
    case MRET => Rest.(excLeave := true, pcWrite := true, pcSrc := 5)
    case _ => Rest
  }

  // ---------------------------------------------------------------- phase machine

  function AfterDecode(i: Word, interrupt: bool): Phase {
    var op := Opcode(i);
    if interrupt then INTERRUPT
    else if op == OP_FENCE || (op == OP_PRIV && (PrivWfi(i) || PrivSfenceVma(i))) then IF
    else if op == OP_PRIV && PrivMret(i) then MRET
    else if op == OP_PRIV && PrivEbreak(i) then EXCEPTION
    else if op == OP_PRIV && PrivEcall(i) then EXCEPTION
    else if op == OP_LUI || op == OP_AUIPC || op == OP_JAL then WB
    else EX
  }

  /** The next phase, and the phase to return to when a wait begins. */
  function NextPhase(r: Regs, inp: Inputs): (Phase, Phase) {
    var op := Opcode(r.instruction);
    match r.phase
    case IF => if inp.ready then (ID_RF, r.phaseReturn) else (MEM_WAIT, ID_RF)
    case ID_RF => (AfterDecode(r.instruction, inp.interrupt), r.phaseReturn)
    case EX =>
      (if op == OP_STORE || op == OP_LOAD then MEM
       else if op == OP_R && IsRv32m(r.instruction) then RV32M_WAIT
       else WB, r.phaseReturn)
    case MEM =>
      (MEM_WAIT, if op == OP_LOAD then WB else if op == OP_STORE && StoreUnaligned(r.instruction) then EXU else IF)
    case EXU => (MEMU, r.phaseReturn)
    case MEMU => (MEM_WAIT, IF)
    case WB => (IF, r.phaseReturn)
    case MEM_WAIT => (if inp.ready then r.phaseReturn else MEM_WAIT, r.phaseReturn)
    case RV32M_WAIT => (if inp.mReady then WB else RV32M_WAIT, r.phaseReturn)
    case INTERRUPT => (IF, r.phaseReturn)
    case EXCEPTION => (IF, r.phaseReturn)
    case MRET => (IF, r.phaseReturn)
    case BAD => (BAD, r.phaseReturn)
  }

  // ---------------------------------------------------------------- datapath

  function MemAddr(r: Regs, c: Control): Word {
    match c.iorDorW case 0 => r.pc case 1 => r.aluOut case 2 => r.mar case _ => INVALID_ADDR
  }

  function MemWriteData(r: Regs, c: Control): Word {
    var v := Get(r.x, Rs2(r.instruction));
    match c.memSrc
    case 0 => StoreByte(r.mar, r.mdr, v)
    case 1 => StoreHalf(r.mar, r.mdr, v)
    case 2 => v
    case _ => r.mwr
  }

  function NewPc(r: Regs, c: Control, inp: Inputs): Word {
    match c.pcSrc
    case 0 => Plus(r.pc, 4)
    case 1 => r.aluOut2
    case 2 => r.aluOut
    case 3 => ClearBit0(r.aluOut)
    case 4 => TrapEntry(inp.mtvec)
    case 5 => inp.mepc
    case _ => INVALID_ADDR
  }

  function AluIn1(r: Regs, c: Control): Word {
    match c.srcA case 0 => r.a case 1 => r.pc case 2 => (r.instruction >> 15) & 0x1f case _ => 0
  }

  function AluIn2(r: Regs, c: Control, inp: Inputs): Word {
    match c.srcB case 0 => r.b case 1 => Imm(r.instruction) case 2 => inp.csrSpo case _ => r.b
  }

  function WriteData(r: Regs, c: Control): Word {
    match c.regSrc
    case 0 => r.aluOut
    case 2 => Imm(r.instruction)
    case 3 => r.pc
    case 4 => LoadByte(r.instruction, r.mar, r.mdr)
    case 5 => LoadHalf(r.instruction, r.mar, r.mdr)
    case 6 => r.mdr
    case 7 => r.rv32mOut
    case 8 => r.csrr
    case _ => 0
  }

  function PcNext(r: Regs, c: Control, inp: Inputs): Word { if c.pcWrite then NewPc(r, c, inp) else r.pc }

  function OldpcNext(r: Regs, c: Control): Word { if c.pcWrite then r.pc else r.oldpc }

  function InstructionNext(r: Regs, c: Control, inp: Inputs): Word {
    if c.irWrite then Swap(inp.spo) else r.instruction
  }

  function CsrrNext(r: Regs, c: Control, inp: Inputs): Word { if c.csrSave then inp.csrSpo else r.csrr }

  function RegfileNext(r: Regs, c: Control): RegFile {
    if c.regWrite then Put(r.x, Rd(r.instruction), WriteData(r, c)) else r.x
  }

  function McauseNext(r: Regs): bv4 {
    if Opcode(r.instruction) != OP_PRIV then r.mcauseCode
    else if PrivEbreak(r.instruction) then 3
    else if PrivEcall(r.instruction) then 11
    else r.mcauseCode
  }

  // ---------------------------------------------------------------- outputs

  /** What the core drives onto the memory bus. */
  datatype BusOut = BusOut(a: Word, d: Word, we: bool, rd: bool)

  function Bus(r: Regs): BusOut {
    var c := ControlOf(r, false);
    BusOut(MemAddr(r, c), Swap(MemWriteData(r, c)), c.memWrite, c.memRead)
  }

  /** The pc handed to the trap unit: the interrupted instruction, or the one after the exception. */
  function PcOut(r: Regs, c: Control): Word { if c.pcOutSrc then r.pc else r.oldpc }

  // ---------------------------------------------------------------- the clock edge

  function Step(r: Regs, inp: Inputs): Regs {
    var c := ControlOf(r, inp.ready);
    var (phase, ret) := NextPhase(r, inp);
    var in1, in2 := AluIn1(r, c), AluIn2(r, c, inp);
    Regs(
      PcNext(r, c, inp),
      OldpcNext(r, c),
      InstructionNext(r, c, inp),
      Get(r.x, Rs1(r.instruction)),
      Get(r.x, Rs2(r.instruction)),
      Alu(c.aluM, in1, in2),
      r.aluOut,
      inp.mResult,
      MemAddr(r, c),
      MemWriteData(r, c),
      Swap(inp.spo),
      CsrrNext(r, c, inp),
      phase,
      ret,
      McauseNext(r),
      RegfileNext(r, c))
  }

  /** The clock edge register by register. */
  lemma StepFields(r: Regs, inp: Inputs, u: Regs)
    requires var c := ControlOf(r, inp.ready);
             u.pc == PcNext(r, c, inp) && u.oldpc == OldpcNext(r, c) && u.instruction == InstructionNext(r, c, inp)
             && u.a == Get(r.x, Rs1(r.instruction)) && u.b == Get(r.x, Rs2(r.instruction))
             && u.aluOut == Alu(c.aluM, AluIn1(r, c), AluIn2(r, c, inp)) && u.aluOut2 == r.aluOut
             && u.rv32mOut == inp.mResult && u.mar == MemAddr(r, c) && u.mwr == MemWriteData(r, c)
             && u.mdr == Swap(inp.spo) && u.csrr == CsrrNext(r, c, inp) && u.x == RegfileNext(r, c)
             && (u.phase, u.phaseReturn) == NextPhase(r, inp) && u.mcauseCode == McauseNext(r)
    ensures u == Step(r, inp)
  {
    hide Alu, Swap, Get, Put, Rd, Rs1, Rs2, ControlOf, NextPhase, MemAddr, MemWriteData, AluIn1, AluIn2, McauseNext,
         PcNext, OldpcNext, InstructionNext, CsrrNext, RegfileNext;
  }

  /** The core as a clocked object. */
  class Cpu {
    var pc: Word
    var oldpc: Word
    var instruction: Word
    var a: Word
    var b: Word
    var aluOut: Word
    var aluOut2: Word
    var rv32mOut: Word
    var mar: Word
    var mwr: Word
    var mdr: Word
    var csrr: Word
    var phase: Phase
    var phaseReturn: Phase
    var mcauseCode: bv4
    var regfile: RegFile

    /** Out of reset; the register file powers up with given contents. */
    constructor (contents: RegFile)
      ensures pc == 0xf000_0000 && phase == IF && regfile == contents
    {
      pc, oldpc, instruction, a, b, aluOut, aluOut2, rv32mOut := START_ADDR, 0, 0, 0, 0, 0, 0, 0;
      mar, mwr, mdr, csrr, phase, phaseReturn, mcauseCode, regfile := 0, 0, 0, 0, IF, IF, 0, contents;
    }

    function Registers(): Regs
      reads this
    {
      Regs(pc, oldpc, instruction, a, b, aluOut, aluOut2, rv32mOut, mar, mwr, mdr, csrr,
           phase, phaseReturn, mcauseCode, regfile)
    }

    method Tick(inp: Inputs)
      modifies this
      ensures Registers() == Step(old(Registers()), inp)
    {
      hide Alu, Swap, Get, Put, Rd, Rs1, Rs2, ControlOf, NextPhase,
           MemAddr, MemWriteData, AluIn1, AluIn2, McauseNext,
           PcNext, OldpcNext, InstructionNext, CsrrNext, RegfileNext, Step;
      var r := Registers();
      var c := ControlOf(r, inp.ready);
      TickEnabled(r, c, inp);
      TickFree(r, c, inp);
      StepFields(r, inp, Registers());
    }

    /** The registers clocked in every cycle; r are the values before the edge. */
    method TickFree(r: Regs, c: Control, inp: Inputs)
      modifies this`a, this`b, this`aluOut, this`aluOut2, this`rv32mOut, this`mdr, this`mwr, this`mar,
               this`phase, this`phaseReturn, this`mcauseCode
      ensures a == Get(r.x, Rs1(r.instruction)) && b == Get(r.x, Rs2(r.instruction))
      ensures aluOut == Alu(c.aluM, AluIn1(r, c), AluIn2(r, c, inp)) && aluOut2 == r.aluOut
      ensures rv32mOut == inp.mResult
      ensures mdr == Swap(inp.spo) && mwr == MemWriteData(r, c) && mar == MemAddr(r, c)
      ensures (phase, phaseReturn) == NextPhase(r, inp) && mcauseCode == McauseNext(r)
    {
      hide Alu, Swap, Get, Rs1, Rs2, MemAddr, MemWriteData, AluIn1, AluIn2, NextPhase, McauseNext;
      a, b := Get(r.x, Rs1(r.instruction)), Get(r.x, Rs2(r.instruction));
      aluOut, aluOut2 := Alu(c.aluM, AluIn1(r, c), AluIn2(r, c, inp)), r.aluOut;
      rv32mOut := inp.mResult;
      mdr, mwr, mar := Swap(inp.spo), MemWriteData(r, c), MemAddr(r, c);
      var next := NextPhase(r, inp);
      phase, phaseReturn, mcauseCode := next.0, next.1, McauseNext(r);
    }

    /** The registers with a write enable. */
    method TickEnabled(r: Regs, c: Control, inp: Inputs)
      requires Registers() == r
      modifies this`csrr, this`pc, this`oldpc, this`instruction, this`regfile
      ensures csrr == CsrrNext(r, c, inp) && pc == PcNext(r, c, inp) && oldpc == OldpcNext(r, c)
      ensures instruction == InstructionNext(r, c, inp) && regfile == RegfileNext(r, c)
    {
      hide Swap, NewPc, Put, Rd, WriteData;
      if c.csrSave { csrr := inp.csrSpo; }
      if c.pcWrite { pc, oldpc := NewPc(r, c, inp), pc; }
      if c.irWrite { instruction := Swap(inp.spo); }
      if c.regWrite { regfile := Put(r.x, Rd(r.instruction), WriteData(r, c)); }
    }
  }
}
