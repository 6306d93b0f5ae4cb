/** The multi-cycle core refines the one-instruction-at-a-time ISA, for any memory and unit delays. */
module CoreRefinement {
  import opened Isa
  import opened Core
  import opened CoreDecode
  import opened CoreMemory

  // ---------------------------------------------------------------- the core's surroundings

  /** The memory seen from the bus: its words, and the last request: whether it has been answered, its
      address, and whether it was a read whose address has been held since. */
  datatype Device = Device(words: WordMem, served: bool, lastA: Word, lastRead: bool)

  /** The operands the multiply/divide unit was last started with. */
  datatype MulUnit = MulUnit(fn: bv3, a: Word, b: Word)

  datatype System = System(core: Regs, dev: Device, unit: MulUnit)

  /** One clock's free choices: whether memory and unit answer now, what they drive when they promise
      nothing, and what the trap unit offers. */
  datatype Choice = Choice(ready: bool, noise: Word, mReady: bool, mNoise: Word,
                           interrupt: bool, mtvec: Word, mepc: Word, csrSpo: Word)

  /** The memory's promise: once a read is answered, its word stays on the bus while the address is held
      and no new request is made. */
  predicate Promised(dev: Device, out: BusOut, ready: bool) {
    if out.rd || out.we then ready && out.rd && !out.we
    else dev.lastRead && out.a == dev.lastA && (ready || dev.served)
  }

  function InputsOf(t: System, ch: Choice, muldiv: MulDivFn): Inputs {
    var out := Bus(t.core);
    Inputs(if Promised(t.dev, out, ch.ready) then t.dev.words(Align(out.a)) else ch.noise, ch.ready,
           ch.mReady, if ch.mReady then muldiv(t.unit.fn, t.unit.a, t.unit.b) else ch.mNoise,
           ch.interrupt, ch.mtvec, ch.mepc, ch.csrSpo)
  }

  function DeviceNext(dev: Device, out: BusOut, ready: bool): Device {
    var words := if out.we then SetWord(dev.words, out.a, out.d) else dev.words;
    if out.rd || out.we then Device(words, ready, out.a, out.rd && !out.we)
    else Device(words, dev.served || ready, dev.lastA, dev.lastRead && out.a == dev.lastA)
  }

  function UnitNext(t: System, inp: Inputs): MulUnit {
    var c := ControlOf(t.core, inp.ready);
    if c.mStart then MulUnit(Funct3(t.core.instruction), AluIn1(t.core, c), AluIn2(t.core, c, inp)) else t.unit
  }

  function SystemStep(t: System, ch: Choice, muldiv: MulDivFn): System {
    var inp := InputsOf(t, ch, muldiv);
    System(Step(t.core, inp), DeviceNext(t.dev, Bus(t.core), ch.ready), UnitNext(t, inp))
  }

  // ---------------------------------------------------------------- the refinement relation

  function Word0(s: Arch): Word { Fetch(s.mem, s.pc) }

  function Ea(s: Arch): Word { Plus(Get(s.x, Rs1(Word0(s))), Imm(Word0(s))) }

  predicate Fetched(r: Regs, s: Arch) { r.instruction == Word0(s) && r.pc == Plus(s.pc, 4) && r.oldpc == s.pc }

  predicate Operands(r: Regs, s: Arch) { r.a == Get(s.x, Rs1(Word0(s))) && r.b == Get(s.x, Rs2(Word0(s))) }

  /** A read of the effective address is under way, or has been answered. */
  predicate Reading(t: System, a: Word) { t.core.mar == a && t.dev.lastA == a && t.dev.lastRead }

  predicate Merging(s: Arch) { Decode(Word0(s)).Store? && Decode(Word0(s)).width != Full }

  /** What must be in place when the core is about to write back. */
  predicate WbReady(t: System, s: Arch, muldiv: MulDivFn) {
    var r := t.core;
    match Decode(Word0(s))
    case Lui(_, _) => true
    case Auipc(_, imm) => r.aluOut == Plus(s.pc, imm)
    case Jal(_, imm) => r.aluOut == Plus(s.pc, imm)
    case Jalr(_, rs1, imm) => r.aluOut == Plus(Get(s.x, rs1), imm)
    case Branch(c, rs1, rs2, imm) =>
      r.aluOut2 == Plus(s.pc, imm) && Taken(r.instruction, r.aluOut) == Holds(c, Get(s.x, rs1), Get(s.x, rs2))
    case Load(_, _, _, _, _) => r.mar == Ea(s) && r.mdr == Swap(t.dev.words(Align(Ea(s))))
    case OpImm(op, _, rs1, imm) => r.aluOut == Compute(op, Get(s.x, rs1), imm)
    case Op(op, _, rs1, rs2) => r.aluOut == Compute(op, Get(s.x, rs1), Get(s.x, rs2))
    case MulDiv(fn, _, rs1, rs2) => r.rv32mOut == muldiv(fn, Get(s.x, rs1), Get(s.x, rs2))
    case Csr(fn, _, rs1) => r.aluOut == CsrAsCoded(fn, r.csrr, CsrOperand(s, fn, rs1))
    case _ => false
  }

  predicate NeedsExecute(i: Instr) {
    i.Jalr? || i.Branch? || i.Load? || i.Store? || i.OpImm? || i.Op? || i.MulDiv? || i.Csr?
  }

  predicate InWait(t: System, s: Arch, muldiv: MulDivFn) {
    var r := t.core;
    match r.phaseReturn
    case ID_RF => r.pc == s.pc && Reading(t, s.pc)
    case WB => Fetched(r, s) && Decode(Word0(s)).Load? && Reading(t, Ea(s))
    case EXU => Fetched(r, s) && Merging(s) && Reading(t, Ea(s)) && Operands(r, s)
    case IF => Decode(Word0(s)).Store? && r.pc == Plus(s.pc, 4)
    case _ => false
  }

  predicate InPhase(t: System, s: Arch, muldiv: MulDivFn) {
    var r, i := t.core, Decode(Word0(s));
    match r.phase
    case IF => r.pc == s.pc
    case ID_RF => r.pc == s.pc && r.instruction == Word0(s)
    case EX => Fetched(r, s) && Operands(r, s) && NeedsExecute(i) && r.aluOut == Plus(s.pc, Imm(Word0(s)))
    case MEM => Fetched(r, s) && Operands(r, s) && (i.Load? || i.Store?) && r.aluOut == Ea(s)
    case MEM_WAIT => InWait(t, s, muldiv)
    case EXU =>
      Fetched(r, s) && Operands(r, s) && Merging(s) && Reading(t, Ea(s)) && t.dev.served
    case MEMU =>
      Fetched(r, s) && Merging(s) && r.aluOut == Ea(s) && r.mar == Ea(s) && r.mdr == Swap(t.dev.words(Align(Ea(s))))
    case RV32M_WAIT =>
      Fetched(r, s) && i.MulDiv? && t.unit == MulUnit(i.fn, Get(s.x, i.rs1), Get(s.x, i.rs2))
    case WB => Fetched(r, s) && WbReady(t, s, muldiv)
    case INTERRUPT => r.pc == Plus(s.pc, 4) && r.oldpc == s.pc
    case EXCEPTION => Fetched(r, s) && (i == Ecall || i == Ebreak)
    case MRET => Fetched(r, s) && i == Mret
    case BAD => false
  }

  predicate StoreIssued(r: Regs) { r.phase == MEM_WAIT && r.phaseReturn == IF }

  /** The core, in the middle of the instruction at s.pc, and the architectural state s before it. */
  ghost predicate Inv(t: System, s: Arch, muldiv: MulDivFn) {
    t.core.x == s.x && InPhase(t, s, muldiv)
    && Mirrors(t.dev.words, if StoreIssued(t.core) then Exec(s, Decode(Word0(s)), muldiv).mem else s.mem)
  }

  /** What the ISA sees of a run: instructions executed, CSR instructions with the word they read, and transfers
      to a trap address or back. */
  datatype Event = Executed | CsrRead(v: Word) | Transferred(pc: Word)

  function Apply(s: Arch, e: Event, muldiv: MulDivFn): Arch {
    match e
    case Executed => Exec(s, InstrAt(s), muldiv)
    case CsrRead(v) => ExecCsr(s, Rd(Word0(s)), v)
    case Transferred(pc) => s.(pc := pc)
  }

  function EventOf(t: System, ch: Choice): Event {
    match t.core.phase
    case INTERRUPT => Transferred(TrapEntry(ch.mtvec))
    case EXCEPTION => Transferred(TrapEntry(ch.mtvec))
    case MRET => Transferred(ch.mepc)
    case WB => if Opcode(t.core.instruction) == OP_PRIV then CsrRead(t.core.csrr) else Executed
    case _ => Executed
  }

  /** The architectural state after the instruction, or the transfer made in its place. */
  function Retire(t: System, ch: Choice, s: Arch, muldiv: MulDivFn): Arch { Apply(s, EventOf(t, ch), muldiv) }

  // ---------------------------------------------------------------- selectors

  lemma LoadSelector(i: Word)
    requires Opcode(i) == OP_LOAD && DecodeLoad(i).Load?
    ensures 4 | (((i >> 12) & 3) as bv4) == (match DecodeLoad(i).width case Byte => 4 case Half => 5 case Full => 6)
    ensures DecodeLoad(i).width != Full ==> DecodeLoad(i).unsigned == Bit(i, 14)
  {
  }

  lemma StoreSelector(i: Word)
    requires DecodeStore(i).Store?
    ensures StoreUnaligned(i) <==> DecodeStore(i).width != Full
    ensures ((i >> 12) & 3) as bv2 == (match DecodeStore(i).width case Byte => 0 case Half => 1 case Full => 2)
  {
  }

  // ---------------------------------------------------------------- every clock keeps the relation

  lemma StepFetch(t: System, ch: Choice, s: Arch, muldiv: MulDivFn)
    requires Inv(t, s, muldiv) && Regular(s, muldiv) && t.core.phase == IF
    ensures Inv(SystemStep(t, ch, muldiv), s, muldiv)
  {
    hide Plus, ClearBit0, TrapEntry, Swap, Alu, Imm, Bit, Opcode, Decode, Exec, Get, Put, StoreByte, StoreHalf,
         LoadByte, LoadHalf, Mirrors, Fetch, McauseNext, Rd, Rs1, Rs2, Align;
    FetchMirrors(t.dev.words, s.mem, s.pc);
  }

  lemma StepFetchWait(t: System, ch: Choice, s: Arch, muldiv: MulDivFn)
    requires Inv(t, s, muldiv) && Regular(s, muldiv) && t.core.phase == MEM_WAIT && t.core.phaseReturn == ID_RF
    ensures Inv(SystemStep(t, ch, muldiv), s, muldiv)
  {
    hide Plus, ClearBit0, TrapEntry, Swap, Alu, Imm, Bit, Opcode, Decode, Exec, Get, Put, StoreByte, StoreHalf,
         LoadByte, LoadHalf, Mirrors, Fetch, McauseNext, Rd, Rs1, Rs2, Align;
    FetchMirrors(t.dev.words, s.mem, s.pc);
  }

  lemma DecodeClock(t: System, ch: Choice, muldiv: MulDivFn)
    requires t.core.phase == ID_RF
    ensures var r, u := t.core, SystemStep(t, ch, muldiv);
            u.core.pc == Plus(r.pc, 4) && u.core.oldpc == r.pc && u.core.instruction == r.instruction
            && u.core.a == Get(r.x, Rs1(r.instruction)) && u.core.b == Get(r.x, Rs2(r.instruction))
            && u.core.aluOut == Plus(r.pc, Imm(r.instruction)) && u.core.x == r.x
            && u.core.phase == AfterDecode(r.instruction, ch.interrupt) && u.dev.words == t.dev.words
  {
    hide Plus, ClearBit0, TrapEntry, Swap, Alu, Bit, Opcode, Decode, Get, Put, StoreByte, StoreHalf, LoadByte,
         LoadHalf, AfterDecode, McauseNext, Rd, Rs1, Rs2, Align, Imm, Funct3;
    AluAdds(t.core.pc, Imm(t.core.instruction));
  }

  lemma AluAdds(a: Word, b: Word)
    ensures Alu(0, a, b) == Plus(a, b)
  {
  }

  lemma RegularIsSupported(s: Arch, muldiv: MulDivFn)
    requires Regular(s, muldiv)
    ensures Decode(Word0(s)) != Unsupported && s.pc & 3 == 0
  {
  }

  lemma NopRetires(s: Arch, muldiv: MulDivFn)
    ensures Exec(s, Nop, muldiv) == s.(pc := Plus(s.pc, 4))
  {
  }

  /** Where decoding sends each instruction. */
  lemma DecodeDispatch(i: Word)
    requires Decode(i) != Unsupported
    ensures AfterDecode(i, false) ==
              match Decode(i)
              case Nop => IF
              case Mret => MRET
              case Ecall => EXCEPTION
              case Ebreak => EXCEPTION
              case Lui(_, _) => WB
              case Auipc(_, _) => WB
              case Jal(_, _) => WB
              case _ => EX
  {
    hide Plus, ClearBit0, TrapEntry, Opcode, Decode, Imm, Rd, Rs1, Rs2, PrivWfi, PrivSfenceVma, PrivMret,
         PrivEbreak, PrivEcall, PrivCsr, IsRv32m, DecodeOp, DecodeOpImm, DecodeBranch, DecodeLoad, DecodeStore;
    DecodeByOpcode(i);
    SystemExclusive(i);
  }

  lemma DecodeInterrupted(t: System, ch: Choice, s: Arch, muldiv: MulDivFn)
    requires Inv(t, s, muldiv) && t.core.phase == ID_RF && ch.interrupt
    ensures SystemStep(t, ch, muldiv).core.phase == INTERRUPT && Inv(SystemStep(t, ch, muldiv), s, muldiv)
  {
    hide Plus, ClearBit0, TrapEntry, SystemStep, AfterDecode, Decode, Get, Put, Mirrors, Fetch, Rd, Rs1, Rs2, Align,
         Imm, Exec, Regular, InWait, Compute, Holds;
    DecodeClock(t, ch, muldiv);
    InterruptDispatch(Word0(s));
  }

  lemma DecodeNop(t: System, ch: Choice, s: Arch, muldiv: MulDivFn)
    requires Inv(t, s, muldiv) && t.core.phase == ID_RF && !ch.interrupt && Decode(Word0(s)) == Nop
    ensures SystemStep(t, ch, muldiv).core.phase == IF
    ensures Inv(SystemStep(t, ch, muldiv), Exec(s, Nop, muldiv), muldiv)
  {
    hide Plus, ClearBit0, TrapEntry, SystemStep, AfterDecode, Decode, Get, Put, Mirrors, Fetch, Rd, Rs1, Rs2, Align,
         Imm, Exec, Regular, InWait, Compute, Holds;
    DecodeClock(t, ch, muldiv);
    DecodeDispatch(Word0(s));
    NopRetires(s, muldiv);
  }

  /** Instructions that go straight to write-back. */
  lemma DecodeUpper(t: System, ch: Choice, s: Arch, muldiv: MulDivFn)
    requires Inv(t, s, muldiv) && t.core.phase == ID_RF && !ch.interrupt
    requires var i := Decode(Word0(s)); i.Lui? || i.Auipc? || i.Jal?
    ensures SystemStep(t, ch, muldiv).core.phase != IF && Inv(SystemStep(t, ch, muldiv), s, muldiv)
  {
    hide Plus, ClearBit0, TrapEntry, SystemStep, AfterDecode, Decode, Get, Put, Mirrors, Fetch, Rd, Rs1, Rs2, Align,
         Imm, Exec, Regular, InWait, Compute, Holds, Opcode, InputsOf, Taken;
    DecodeClock(t, ch, muldiv);
    DecodeDispatch(Word0(s));
    DecodeImmediates(Word0(s));
  }

  /** Instructions that go to the trap unit. */
  lemma DecodeTrap(t: System, ch: Choice, s: Arch, muldiv: MulDivFn)
    requires Inv(t, s, muldiv) && t.core.phase == ID_RF && !ch.interrupt
    requires var i := Decode(Word0(s)); i == Ecall || i == Ebreak || i == Mret
    ensures SystemStep(t, ch, muldiv).core.phase != IF && Inv(SystemStep(t, ch, muldiv), s, muldiv)
  {
    hide Plus, ClearBit0, TrapEntry, SystemStep, AfterDecode, Decode, Get, Put, Mirrors, Fetch, Rd, Rs1, Rs2, Align,
         Imm, Exec, Regular, InWait, Compute, Holds, Opcode, InputsOf, Taken, WbReady;
    DecodeClock(t, ch, muldiv);
    DecodeDispatch(Word0(s));
  }

  /** Instructions that are executed first. */
  lemma DecodeRest(t: System, ch: Choice, s: Arch, muldiv: MulDivFn)
    requires Inv(t, s, muldiv) && t.core.phase == ID_RF && !ch.interrupt
    requires var i := Decode(Word0(s)); NeedsExecute(i)
    ensures SystemStep(t, ch, muldiv).core.phase != IF && Inv(SystemStep(t, ch, muldiv), s, muldiv)
  {
    hide Plus, ClearBit0, TrapEntry, SystemStep, AfterDecode, Decode, Get, Put, Mirrors, Fetch, Rd, Rs1, Rs2, Align,
         Imm, Exec, Regular, InWait, Compute, Holds, Opcode, InputsOf, Taken, WbReady;
    DecodeClock(t, ch, muldiv);
    DecodeDispatch(Word0(s));
  }

  /** Decoding: the pc moves on, the branch target is computed, and control goes where the opcode says. */
  lemma StepDecode(t: System, ch: Choice, s: Arch, muldiv: MulDivFn)
    requires Inv(t, s, muldiv) && Regular(s, muldiv) && t.core.phase == ID_RF
    ensures var u := SystemStep(t, ch, muldiv);
            Inv(u, if u.core.phase == IF then Retire(t, ch, s, muldiv) else s, muldiv)
  {
    hide Plus, ClearBit0, TrapEntry, SystemStep, Decode, Exec, Regular, Inv, Fetch;
    RegularIsSupported(s, muldiv);
    if ch.interrupt { DecodeInterrupted(t, ch, s, muldiv); }
    else if Decode(Word0(s)) == Nop { DecodeNop(t, ch, s, muldiv); }
    else if NeedsExecute(Decode(Word0(s))) { DecodeRest(t, ch, s, muldiv); }
    else if Decode(Word0(s)) in {Ecall, Ebreak, Mret} { DecodeTrap(t, ch, s, muldiv); }
    else { DecodeUpper(t, ch, s, muldiv); }
  }

  lemma InterruptDispatch(i: Word)
    ensures AfterDecode(i, true) == INTERRUPT
  {
  }

  lemma DecodeImmediates(i: Word)
    ensures match Decode(i)
            case Auipc(_, imm) => imm == Imm(i)
            case Jal(_, imm) => imm == Imm(i)
            case _ => true
  {
    hide Plus, ClearBit0, TrapEntry, Opcode, Decode, Imm, Rd, Rs1, Rs2;
    DecodeByOpcode(i);
  }

  lemma SystemExclusive(i: Word)
    ensures PrivMret(i) ==> !PrivWfi(i) && !PrivSfenceVma(i)
    ensures PrivEbreak(i) ==> !PrivWfi(i) && !PrivSfenceVma(i) && !PrivMret(i)
    ensures PrivEcall(i) ==> !PrivWfi(i) && !PrivSfenceVma(i) && !PrivMret(i) && !PrivEbreak(i)
    ensures PrivCsr(i) ==> !PrivWfi(i) && !PrivSfenceVma(i) && !PrivMret(i) && !PrivEbreak(i) && !PrivEcall(i)
  {
  }

  /** What the execute phase computes for each instruction. */
  lemma ExecuteComputes(i: Word, a: Word, b: Word)
    requires NeedsExecute(Decode(i)) && !Decode(i).Csr?
    ensures var c := ControlEx(i);
            c.srcA == 0 && c.srcB <= 1
            && var y := Alu(c.aluM, a, if c.srcB == 1 then Imm(i) else b);
               match Decode(i)
               case Jalr(_, _, imm) => y == Plus(a, imm)
               case Load(_, _, _, _, imm) => y == Plus(a, imm)
               case Store(_, _, _, imm) => y == Plus(a, imm)
               case Branch(cond, _, _, _) => Taken(i, y) == Holds(cond, a, b)
               case OpImm(op, _, _, imm) => y == Compute(op, a, imm)
               case Op(op, _, _, _) => y == Compute(op, a, b)
               case _ => true
  {
    hide Plus, ClearBit0, TrapEntry, Bit, Opcode, Decode, Imm, Compute, Holds, DecodeOp, DecodeOpImm, DecodeBranch,
         Taken, SltFlag, SltuFlag, Difference, ArithmeticShiftRight, From, U;
    DecodeByOpcode(i);
    match Decode(i)
    case OpImm(op, _, _, imm) => ImmediateSelector(i); AluComputes(op, a, imm);
    case Op(op, _, _, _) => RegisterSelector(i); AluComputes(op, a, b);
    case Branch(_, _, _, _) => BranchDecision(i, a, b);
    case _ =>
  }

  lemma ExecuteClock(t: System, ch: Choice, muldiv: MulDivFn)
    requires t.core.phase == EX && ControlEx(t.core.instruction).srcA == 0 && ControlEx(t.core.instruction).srcB <= 1
    ensures var r, u, c := t.core, SystemStep(t, ch, muldiv), ControlEx(t.core.instruction);
            u.core.pc == r.pc && u.core.oldpc == r.oldpc && u.core.instruction == r.instruction
            && u.core.a == Get(r.x, Rs1(r.instruction)) && u.core.b == Get(r.x, Rs2(r.instruction))
            && u.core.aluOut == Alu(c.aluM, r.a, if c.srcB == 1 then Imm(r.instruction) else r.b)
            && u.core.aluOut2 == r.aluOut && u.core.x == r.x && u.dev.words == t.dev.words
            && u.core.phase == NextPhase(r, InputsOf(t, ch, muldiv)).0
            && (Opcode(r.instruction) == OP_R ==> u.unit == MulUnit(Funct3(r.instruction), r.a, r.b))
  {
    hide Plus, ClearBit0, TrapEntry, Swap, Alu, Bit, Opcode, Decode, Get, Put, StoreByte, StoreHalf, LoadByte, LoadHalf,
         McauseNext, Rd, Rs1, Rs2, Align, Imm, Funct3, ControlEx, NextPhase;
    StartsUnit(t.core.instruction);
  }

  /** Where execution sends each instruction. */
  lemma ExecuteDispatch(t: System, ch: Choice, muldiv: MulDivFn)
    requires t.core.phase == EX && NeedsExecute(Decode(t.core.instruction))
    ensures var i := Decode(t.core.instruction);
            NextPhase(t.core, InputsOf(t, ch, muldiv)).0 ==
              if i.Load? || i.Store? then MEM else if i.MulDiv? then RV32M_WAIT else WB
  {
    hide Plus, ClearBit0, TrapEntry, Opcode, Decode, Imm, Rd, Rs1, Rs2, IsRv32m, InputsOf, DecodeOp, DecodeOpImm,
         DecodeBranch, DecodeLoad, DecodeStore;
    DecodeByOpcode(t.core.instruction);
    NotMulDiv(t.core.instruction);
  }

  /** Operand and immediate fields of the decoded instruction, as the core reads them. */
  lemma OperandNames(i: Word)
    ensures match Decode(i)
            case Jalr(_, rs1, imm) => rs1 == Rs1(i) && imm == Imm(i)
            case Branch(_, rs1, rs2, imm) => rs1 == Rs1(i) && rs2 == Rs2(i) && imm == Imm(i)
            case Load(_, _, _, rs1, imm) => rs1 == Rs1(i) && imm == Imm(i)
            case Store(_, rs1, rs2, imm) => rs1 == Rs1(i) && rs2 == Rs2(i) && imm == Imm(i)
            case OpImm(_, _, rs1, imm) => rs1 == Rs1(i) && imm == Imm(i)
            case Op(_, _, rs1, rs2) => rs1 == Rs1(i) && rs2 == Rs2(i)
            case MulDiv(fn, _, rs1, rs2) => rs1 == Rs1(i) && rs2 == Rs2(i) && fn == Funct3(i) && Opcode(i) == OP_R
            case Csr(fn, _, rs1) => rs1 == Rs1(i) && fn == Funct3(i) && fn != 4 && Opcode(i) == OP_PRIV && PrivCsr(i)
            case _ => true
  {
    hide Plus, ClearBit0, TrapEntry, Opcode, Decode, Imm, Rd, Rs1, Rs2, IsRv32m, PrivCsr;
    DecodeByOpcode(i);
  }

  lemma ExecuteMemory(t: System, ch: Choice, s: Arch, muldiv: MulDivFn)
    requires Inv(t, s, muldiv) && t.core.phase == EX && (Decode(Word0(s)).Load? || Decode(Word0(s)).Store?)
    ensures SystemStep(t, ch, muldiv).core.phase != IF && Inv(SystemStep(t, ch, muldiv), s, muldiv)
  {
    hide Plus, ClearBit0, TrapEntry, SystemStep, Alu, Opcode, Decode, Exec, Get, Mirrors, Taken, NextPhase,
         InputsOf, InWait, Fetch, Rs1, Rs2, Align, Imm, Compute, Holds, ControlEx, IsRv32m;
    OperandNames(Word0(s));
    ExecuteComputes(Word0(s), t.core.a, t.core.b);
    ExecuteClock(t, ch, muldiv);
    ExecuteDispatch(t, ch, muldiv);
  }

  lemma ExecuteUnit(t: System, ch: Choice, s: Arch, muldiv: MulDivFn)
    requires Inv(t, s, muldiv) && t.core.phase == EX && Decode(Word0(s)).MulDiv?
    ensures SystemStep(t, ch, muldiv).core.phase != IF && Inv(SystemStep(t, ch, muldiv), s, muldiv)
  {
    hide Plus, ClearBit0, TrapEntry, SystemStep, Alu, Opcode, Decode, Exec, Get, Mirrors, Taken, NextPhase,
         InputsOf, InWait, Fetch, Rs1, Rs2, Align, Imm, Compute, Holds, ControlEx, IsRv32m;
    OperandNames(Word0(s));
    ExecuteComputes(Word0(s), t.core.a, t.core.b);
    ExecuteClock(t, ch, muldiv);
    ExecuteDispatch(t, ch, muldiv);
  }

  lemma ExecuteAlu(t: System, ch: Choice, s: Arch, muldiv: MulDivFn)
    requires Inv(t, s, muldiv) && t.core.phase == EX && (Decode(Word0(s)).OpImm? || Decode(Word0(s)).Op?)
    ensures SystemStep(t, ch, muldiv).core.phase != IF && Inv(SystemStep(t, ch, muldiv), s, muldiv)
  {
    hide Plus, ClearBit0, TrapEntry, SystemStep, Alu, Opcode, Decode, Exec, Get, Mirrors, Taken, NextPhase,
         InputsOf, InWait, Fetch, Rs1, Rs2, Align, Imm, Compute, Holds, ControlEx, IsRv32m;
    OperandNames(Word0(s));
    ExecuteComputes(Word0(s), t.core.a, t.core.b);
    ExecuteClock(t, ch, muldiv);
    ExecuteDispatch(t, ch, muldiv);
  }

  lemma ExecuteJump(t: System, ch: Choice, s: Arch, muldiv: MulDivFn)
    requires Inv(t, s, muldiv) && t.core.phase == EX && (Decode(Word0(s)).Jalr? || Decode(Word0(s)).Branch?)
    ensures SystemStep(t, ch, muldiv).core.phase != IF && Inv(SystemStep(t, ch, muldiv), s, muldiv)
  {
    hide Plus, ClearBit0, TrapEntry, SystemStep, Alu, Opcode, Decode, Exec, Get, Mirrors, Taken, NextPhase,
         InputsOf, InWait, Fetch, Rs1, Rs2, Align, Imm, Compute, Holds, ControlEx, IsRv32m;
    OperandNames(Word0(s));
    ExecuteComputes(Word0(s), t.core.a, t.core.b);
    ExecuteClock(t, ch, muldiv);
    ExecuteDispatch(t, ch, muldiv);
  }

  /** The execute clock of a CSR instruction: the word read is kept, and the ALU makes the word to write of it. */
  lemma CsrClock(t: System, ch: Choice, muldiv: MulDivFn)
    requires t.core.phase == EX && Opcode(t.core.instruction) == OP_PRIV && PrivCsr(t.core.instruction)
    requires Funct3(t.core.instruction) != 4
    ensures var r, u := t.core, SystemStep(t, ch, muldiv);
            u.core.pc == r.pc && u.core.oldpc == r.oldpc && u.core.instruction == r.instruction
            && u.core.csrr == ch.csrSpo && u.core.x == r.x && u.dev.words == t.dev.words
            && u.core.phase == NextPhase(r, InputsOf(t, ch, muldiv)).0
            && u.core.aluOut == Alu(ControlEx(r.instruction).aluM,
                                    if Funct3(r.instruction) & 4 != 0 then Rs1(r.instruction) as Word else r.a,
                                    ch.csrSpo)
  {
    hide Plus, ClearBit0, TrapEntry, Swap, Alu, Bit, Opcode, Get, Put, StoreByte, StoreHalf, LoadByte, LoadHalf,
         McauseNext, Rd, Rs1, Rs2, Align, Imm, Funct3, ControlEx, NextPhase, PrivCsr;
    StartsUnit(t.core.instruction);
    CsrSelector(t.core.instruction);
    RegisterNameIsField(t.core.instruction);
  }

  lemma ExecuteCsr(t: System, ch: Choice, s: Arch, muldiv: MulDivFn)
    requires Inv(t, s, muldiv) && t.core.phase == EX && Decode(Word0(s)).Csr?
    ensures SystemStep(t, ch, muldiv).core.phase != IF && Inv(SystemStep(t, ch, muldiv), s, muldiv)
    ensures SystemStep(t, ch, muldiv).core.csrr == ch.csrSpo
  {
    hide Plus, ClearBit0, TrapEntry, SystemStep, Alu, Opcode, Decode, Exec, Get, Mirrors, Taken, NextPhase, InputsOf,
         InWait, Fetch, Rs1, Rs2, Align, Imm, Compute, Holds, ControlEx, IsRv32m, PrivCsr, Funct3, CsrAsCoded;
    OperandNames(Word0(s));
    CsrClock(t, ch, muldiv);
    CsrComputes(Word0(s), CsrOperand(s, Funct3(Word0(s)), Rs1(Word0(s))), ch.csrSpo);
    ExecuteDispatch(t, ch, muldiv);
  }

  lemma StepExecute(t: System, ch: Choice, s: Arch, muldiv: MulDivFn)
    requires Inv(t, s, muldiv) && t.core.phase == EX
    ensures SystemStep(t, ch, muldiv).core.phase != IF && Inv(SystemStep(t, ch, muldiv), s, muldiv)
  {
    hide Plus, ClearBit0, TrapEntry, SystemStep, Decode, Mirrors, Exec, Fetch, Imm, InWait, WbReady;
    match Decode(Word0(s))
    case Load(_, _, _, _, _) => ExecuteMemory(t, ch, s, muldiv);
    case Store(_, _, _, _) => ExecuteMemory(t, ch, s, muldiv);
    case MulDiv(_, _, _, _) => ExecuteUnit(t, ch, s, muldiv);
    case OpImm(_, _, _, _) => ExecuteAlu(t, ch, s, muldiv);
    case Op(_, _, _, _) => ExecuteAlu(t, ch, s, muldiv);
    case Jalr(_, _, _) => ExecuteJump(t, ch, s, muldiv);
    case Branch(_, _, _, _) => ExecuteJump(t, ch, s, muldiv);
    case Csr(_, _, _) => ExecuteCsr(t, ch, s, muldiv);
    case _ =>
  }

  lemma StartsUnit(i: Word)
    ensures ControlEx(i).mStart && !ControlEx(i).memRead && !ControlEx(i).memWrite
    ensures !ControlEx(i).pcWrite && !ControlEx(i).regWrite && !ControlEx(i).irWrite
    ensures Opcode(i) == OP_R ==> ControlEx(i).srcA == 0 && ControlEx(i).srcB == 0
  {
  }

  lemma NotMulDiv(i: Word)
    ensures Decode(i).Op? ==> !IsRv32m(i)
  {
    hide Plus, ClearBit0, TrapEntry, ControlEx, IsRv32m, Imm;
    DecodeByOpcode(i);
    if Decode(i).Op? { RegisterSelector(i); }
  }

  // ---------------------------------------------------------------- memory phases

  /** What the decoder says about a store. */
  lemma StoreFields(i: Word)
    requires Decode(i).Store?
    ensures Opcode(i) == OP_STORE && Decode(i).rs1 == Rs1(i) && Decode(i).rs2 == Rs2(i) && Decode(i).imm == Imm(i)
    ensures StoreUnaligned(i) <==> Decode(i).width != Full
    ensures ((i >> 12) & 3) as bv2 == (match Decode(i).width case Byte => 0 case Half => 1 case Full => 2)
  {
    hide Opcode, Decode, Imm, Rd, Rs1, Rs2, IsRv32m, DecodeStore, StoreUnaligned;
    DecodeByOpcode(i);
    StoreSelector(i);
  }

  lemma LoadFields(i: Word)
    requires Decode(i).Load?
    ensures Opcode(i) == OP_LOAD && Decode(i).rs1 == Rs1(i) && Decode(i).rd == Rd(i) && Decode(i).imm == Imm(i)
    ensures 4 | (((i >> 12) & 3) as bv4) == (match Decode(i).width case Byte => 4 case Half => 5 case Full => 6)
    ensures Decode(i).width != Full ==> Decode(i).unsigned == Bit(i, 14)
  {
    hide Opcode, Decode, Imm, Rd, Rs1, Rs2, IsRv32m, DecodeLoad, Bit;
    DecodeByOpcode(i);
    LoadSelector(i);
  }

  lemma StoreRetires(s: Arch, muldiv: MulDivFn)
    requires Decode(Word0(s)).Store?
    ensures var e, w := Exec(s, Decode(Word0(s)), muldiv), Decode(Word0(s)).width;
            e.pc == Plus(s.pc, 4) && e.x == s.x
            && e.mem == StoreValue(s.mem, Ea(s), w, Get(s.x, Rs2(Word0(s))))
  {
    hide Plus, ClearBit0, TrapEntry, Decode, Get, Rs1, Rs2, Imm, StoreValue, Fetch, Opcode, StoreUnaligned;
    StoreFields(Word0(s));
  }

  lemma StoreAligned(s: Arch, muldiv: MulDivFn)
    requires Regular(s, muldiv) && Decode(Word0(s)).Store?
    ensures Aligned(Ea(s), Decode(Word0(s)).width)
  {
    hide Plus, ClearBit0, TrapEntry, Decode, Get, Rs1, Rs2, Imm, StoreValue, Fetch, Opcode, StoreUnaligned, Exec;
    StoreFields(Word0(s));
  }

  lemma LoadAligned(s: Arch, muldiv: MulDivFn)
    requires Regular(s, muldiv) && Decode(Word0(s)).Load?
    ensures Aligned(Ea(s), Decode(Word0(s)).width)
  {
    hide Plus, ClearBit0, TrapEntry, Decode, Get, Rs1, Rs2, Imm, StoreValue, Fetch, Opcode, Exec, Bit;
    LoadFields(Word0(s));
  }

  /** The memory phase of a load, and of a byte or half-word store: a read request. */
  lemma StepMemRead(t: System, ch: Choice, s: Arch, muldiv: MulDivFn)
    requires Inv(t, s, muldiv) && t.core.phase == MEM && (Decode(Word0(s)).Load? || Merging(s))
    ensures SystemStep(t, ch, muldiv).core.phase != IF && Inv(SystemStep(t, ch, muldiv), s, muldiv)
  {
    hide Plus, ClearBit0, TrapEntry, Imm, Opcode, Decode, Exec, Get, Mirrors, Fetch, Rs1, Rs2, Align, StoreUnaligned,
         WbReady, SystemStep, Bit;
    if Decode(Word0(s)).Load? { LoadFields(Word0(s)); } else { StoreFields(Word0(s)); }
    ReadClock(t, ch, muldiv);
  }

  /** The clock of a read request. */
  lemma ReadClock(t: System, ch: Choice, muldiv: MulDivFn)
    requires t.core.phase == MEM
    requires var i := t.core.instruction; Opcode(i) == OP_LOAD || (Opcode(i) == OP_STORE && StoreUnaligned(i))
    ensures var r, u := t.core, SystemStep(t, ch, muldiv);
            u.core.pc == r.pc && u.core.oldpc == r.oldpc && u.core.instruction == r.instruction && u.core.x == r.x
            && u.core.a == Get(r.x, Rs1(r.instruction)) && u.core.b == Get(r.x, Rs2(r.instruction))
            && u.core.mar == r.aluOut && u.dev == Device(t.dev.words, ch.ready, r.aluOut, true)
            && u.core.phase == MEM_WAIT && u.core.phaseReturn == if Opcode(r.instruction) == OP_LOAD then WB else EXU
  {
    hide Plus, ClearBit0, TrapEntry, Swap, Alu, Imm, Bit, Opcode, Get, Put, StoreByte, StoreHalf, LoadByte, LoadHalf,
         McauseNext, Rd, Rs1, Rs2, Align, StoreUnaligned, ControlEx, ControlWb, AfterDecode, MemWriteData, IsRv32m,
         InputsOf, SetWord, AluIn1, AluIn2, WriteData;
  }

  /** The memory phase of a word store: the write itself. */
  lemma StepMemWrite(t: System, ch: Choice, s: Arch, muldiv: MulDivFn)
    requires Inv(t, s, muldiv) && Regular(s, muldiv) && t.core.phase == MEM
    requires Decode(Word0(s)).Store? && Decode(Word0(s)).width == Full
    ensures SystemStep(t, ch, muldiv).core.phase != IF && Inv(SystemStep(t, ch, muldiv), s, muldiv)
  {
    hide Plus, ClearBit0, TrapEntry, Swap, Alu, Imm, Bit, Opcode, Decode, Exec, Get, Put, StoreByte, StoreHalf,
         LoadByte, LoadHalf, Mirrors, Fetch, McauseNext, Rd, Rs1, Rs2, StoreUnaligned, SetWord, StoreValue, Regular,
         ControlEx, ControlWb, AfterDecode, WbReady, IsRv32m;
    StoreFields(Word0(s));
    StoreRetires(s, muldiv);
    StoreAligned(s, muldiv);
    StoreWordMirrors(t.dev.words, s.mem, Ea(s), Get(s.x, Rs2(Word0(s))));
  }

  lemma StepLoadWait(t: System, ch: Choice, s: Arch, muldiv: MulDivFn)
    requires Inv(t, s, muldiv) && t.core.phase == MEM_WAIT && t.core.phaseReturn == WB
    ensures SystemStep(t, ch, muldiv).core.phase != IF && Inv(SystemStep(t, ch, muldiv), s, muldiv)
  {
    hide Plus, ClearBit0, TrapEntry, Swap, Alu, Imm, Bit, Opcode, Decode, Exec, Get, Put, StoreByte, StoreHalf,
         LoadByte, LoadHalf, Mirrors, Fetch, McauseNext, Rd, Rs1, Rs2, Align;
  }

  lemma StepMergeWait(t: System, ch: Choice, s: Arch, muldiv: MulDivFn)
    requires Inv(t, s, muldiv) && t.core.phase == MEM_WAIT && t.core.phaseReturn == EXU
    ensures SystemStep(t, ch, muldiv).core.phase != IF && Inv(SystemStep(t, ch, muldiv), s, muldiv)
  {
    hide Plus, ClearBit0, TrapEntry, Swap, Alu, Imm, Bit, Opcode, Decode, Exec, Get, Put, StoreByte, StoreHalf,
         LoadByte, LoadHalf, Mirrors, Fetch, McauseNext, Rd, Rs1, Rs2, Align;
  }

  /** The extra cycle of a byte or half-word store: the word is still on the bus and is sampled again. */
  lemma StepResample(t: System, ch: Choice, s: Arch, muldiv: MulDivFn)
    requires Inv(t, s, muldiv) && t.core.phase == EXU
    ensures SystemStep(t, ch, muldiv).core.phase != IF && Inv(SystemStep(t, ch, muldiv), s, muldiv)
  {
    hide Plus, ClearBit0, TrapEntry, Swap, Alu, Imm, Bit, Opcode, Decode, Exec, Get, Put, StoreByte, StoreHalf,
         LoadByte, LoadHalf, Mirrors, Fetch, McauseNext, Rd, Rs1, Rs2, Align;
    AluAdds(t.core.a, Imm(t.core.instruction));
  }

  /** The merged word goes back to memory. */
  lemma StepMergeWrite(t: System, ch: Choice, s: Arch, muldiv: MulDivFn)
    requires Inv(t, s, muldiv) && Regular(s, muldiv) && t.core.phase == MEMU
    ensures SystemStep(t, ch, muldiv).core.phase != IF && Inv(SystemStep(t, ch, muldiv), s, muldiv)
  {
    hide Plus, ClearBit0, TrapEntry, Swap, Alu, Imm, Bit, Opcode, Decode, Exec, Get, Put, StoreByte, StoreHalf,
         LoadByte, LoadHalf, Mirrors, Fetch, McauseNext, Rd, Rs1, Rs2, StoreUnaligned, SetWord, StoreValue, Regular,
         Align, ControlEx, ControlWb, ControlMem, AfterDecode, WbReady, IsRv32m;
    StoreFields(Word0(s));
    StoreRetires(s, muldiv);
    StoreAligned(s, muldiv);
    var v := Get(s.x, Rs2(Word0(s)));
    if Decode(Word0(s)).width == Byte {
      StoreByteMirrors(t.dev.words, s.mem, Ea(s), v);
    } else {
      StoreHalfMirrors(t.dev.words, s.mem, Ea(s), v);
    }
  }

  lemma StepStoreWait(t: System, ch: Choice, s: Arch, muldiv: MulDivFn)
    requires Inv(t, s, muldiv) && t.core.phase == MEM_WAIT && t.core.phaseReturn == IF
    ensures var u := SystemStep(t, ch, muldiv);
            Inv(u, if u.core.phase == IF then Exec(s, Decode(Word0(s)), muldiv) else s, muldiv)
  {
    hide Plus, ClearBit0, TrapEntry, Swap, Alu, Imm, Bit, Opcode, Decode, Exec, Get, Put, StoreByte, StoreHalf,
         LoadByte, LoadHalf, Mirrors, Fetch, McauseNext, Rd, Rs1, Rs2, Align, StoreValue;
    StoreRetires(s, muldiv);
  }

  lemma StepUnitWait(t: System, ch: Choice, s: Arch, muldiv: MulDivFn)
    requires Inv(t, s, muldiv) && t.core.phase == RV32M_WAIT
    ensures SystemStep(t, ch, muldiv).core.phase != IF && Inv(SystemStep(t, ch, muldiv), s, muldiv)
  {
    hide Plus, ClearBit0, TrapEntry, Swap, Alu, Imm, Bit, Opcode, Decode, Exec, Get, Put, StoreByte, StoreHalf,
         LoadByte, LoadHalf, Mirrors, Fetch, McauseNext, Rd, Rs1, Rs2, Align, ControlEx, ControlWb, ControlMem,
         AfterDecode, StoreUnaligned, MemWriteData, InWait;
  }

  // ---------------------------------------------------------------- traps

  /** Interrupt, exception and return: only the pc changes; the trap unit is handed the pc of the
      interrupted instruction, or of the one after the instruction that raised the exception. */
  lemma StepTrap(t: System, ch: Choice, s: Arch, muldiv: MulDivFn)
    requires Inv(t, s, muldiv)
    requires t.core.phase == INTERRUPT || t.core.phase == EXCEPTION || t.core.phase == MRET
    ensures SystemStep(t, ch, muldiv).core.phase == IF
    ensures Inv(SystemStep(t, ch, muldiv), Retire(t, ch, s, muldiv), muldiv)
    ensures t.core.phase == INTERRUPT ==> PcOut(t.core, ControlOf(t.core, ch.ready)) == s.pc
    ensures t.core.phase == EXCEPTION ==> PcOut(t.core, ControlOf(t.core, ch.ready)) == Plus(s.pc, 4)
  {
    hide Plus, ClearBit0, TrapEntry, Swap, Alu, Imm, Bit, Opcode, Decode, Exec, Get, Put, StoreByte, StoreHalf,
         LoadByte, LoadHalf, Mirrors, Fetch, McauseNext, Rd, Rs1, Rs2, Align, ControlEx, ControlMem, ControlWb,
         AfterDecode, WbReady, InWait, StoreUnaligned, IsRv32m, MemWriteData;
  }

  // ---------------------------------------------------------------- write-back

  /** Opcode and destination of everything that reaches write-back, and what selects its result. */
  lemma WriteBackFields(i: Word)
    requires Decode(i) != Unsupported
    ensures match Decode(i)
            case Lui(rd, imm) => Opcode(i) == OP_LUI && rd == Rd(i) && imm == Imm(i)
            case Auipc(rd, imm) => Opcode(i) == OP_AUIPC && rd == Rd(i)
            case Jal(rd, imm) => Opcode(i) == OP_JAL && rd == Rd(i)
            case Jalr(rd, rs1, imm) => Opcode(i) == OP_JALR && rd == Rd(i)
            case Branch(_, rs1, rs2, imm) => Opcode(i) == OP_BR
            case OpImm(_, rd, _, _) => Opcode(i) == OP_R_I && rd == Rd(i)
            case Op(_, rd, _, _) => Opcode(i) == OP_R && rd == Rd(i) && !IsRv32m(i)
            case MulDiv(_, rd, _, _) => Opcode(i) == OP_R && IsRv32m(i) && rd == Rd(i)
            case Load(_, _, _, _, _) => Opcode(i) == OP_LOAD
            case Csr(_, rd, _) => Opcode(i) == OP_PRIV && PrivCsr(i) && rd == Rd(i)
            case _ => true
  {
    hide Opcode, Decode, Imm, Rd, Rs1, Rs2, IsRv32m, PrivCsr;
    DecodeByOpcode(i);
    NotMulDiv(i);
  }

  /** The write-back clock: pc and destination register as the control signals say, memory untouched. */
  lemma WriteBackClock(t: System, ch: Choice, muldiv: MulDivFn)
    requires t.core.phase == WB
    ensures var r, u := t.core, SystemStep(t, ch, muldiv);
            var c := ControlWb(r.instruction, r.aluOut);
            u.core.phase == IF && u.dev.words == t.dev.words && ControlOf(r, ch.ready) == c
            && u.core.pc == (if c.pcWrite then NewPc(r, c, InputsOf(t, ch, muldiv)) else r.pc)
            && u.core.x == if c.regWrite then Put(r.x, Rd(r.instruction), WriteData(r, c)) else r.x
  {
    hide Plus, ClearBit0, TrapEntry, Swap, Alu, Imm, Bit, Opcode, Get, Put, StoreByte, StoreHalf, LoadByte, LoadHalf,
         McauseNext, Rd, Rs1, Rs2, Align, IsRv32m, StoreUnaligned, ControlEx, ControlMem, ControlWb, NewPc, WriteData,
         AluIn1, AluIn2, CsrrNext, MemWriteData, InputsOf, SetWord;
    WriteBackIsQuiet(t.core.instruction, t.core.aluOut);
  }

  /** What holds when the core is about to write back, and what must hold when it is back at a fetch. */
  lemma AtWriteBack(t: System, s: Arch, muldiv: MulDivFn)
    requires Inv(t, s, muldiv) && t.core.phase == WB
    ensures t.core.x == s.x && Fetched(t.core, s) && WbReady(t, s, muldiv) && Mirrors(t.dev.words, s.mem)
  {
    hide Exec, Decode, Fetch, Mirrors, Imm, Plus, Get, InWait, WbReady, Word0;
  }

  lemma BackAtFetch(u: System, s: Arch, muldiv: MulDivFn)
    requires u.core.phase == IF && u.core.pc == s.pc && u.core.x == s.x && Mirrors(u.dev.words, s.mem)
    ensures Inv(u, s, muldiv)
  {
    hide Exec, Decode, Fetch, Mirrors, Imm, Plus, Get, InWait, WbReady, Word0;
  }

  /** LUI, AUIPC and JAL. */
  lemma WbUpper(t: System, ch: Choice, s: Arch, muldiv: MulDivFn)
    requires Inv(t, s, muldiv) && t.core.phase == WB
    requires (Decode(Word0(s)).Lui? || Decode(Word0(s)).Auipc? || Decode(Word0(s)).Jal?)
    ensures SystemStep(t, ch, muldiv).core.phase == IF
    ensures Inv(SystemStep(t, ch, muldiv), Exec(s, Decode(Word0(s)), muldiv), muldiv)
  {
    hide SystemStep, InputsOf, Plus, ClearBit0, TrapEntry, Swap, Imm, Bit, Opcode, Decode, Get, Put, LoadByte, LoadHalf,
         Mirrors, Fetch, Rd, Rs1, Rs2, Align, Taken, Compute, Holds, LoadValue, StoreValue, IsRv32m, InWait, PrivCsr,
         CsrAsCoded, CsrOperand, ControlOf, Inv;
    AtWriteBack(t, s, muldiv);
    WriteBackClock(t, ch, muldiv);
    WriteBackFields(Word0(s));
    BackAtFetch(SystemStep(t, ch, muldiv), Exec(s, Decode(Word0(s)), muldiv), muldiv);
  }

  /** JALR: the link is the incremented pc even when the base register is the link register. */
  lemma WbJalr(t: System, ch: Choice, s: Arch, muldiv: MulDivFn)
    requires Inv(t, s, muldiv) && t.core.phase == WB && Decode(Word0(s)).Jalr?
    ensures SystemStep(t, ch, muldiv).core.phase == IF
    ensures Inv(SystemStep(t, ch, muldiv), Exec(s, Decode(Word0(s)), muldiv), muldiv)
  {
    hide SystemStep, InputsOf, Plus, ClearBit0, TrapEntry, Swap, Imm, Bit, Opcode, Decode, Get, Put, LoadByte, LoadHalf,
         Mirrors, Fetch, Rd, Rs1, Rs2, Align, Taken, Compute, Holds, LoadValue, StoreValue, IsRv32m, InWait, PrivCsr,
         CsrAsCoded, CsrOperand, ControlOf, Inv;
    AtWriteBack(t, s, muldiv);
    WriteBackClock(t, ch, muldiv);
    WriteBackFields(Word0(s));
    BackAtFetch(SystemStep(t, ch, muldiv), Exec(s, Decode(Word0(s)), muldiv), muldiv);
  }

  /** Branches: taken exactly when the ISA's condition holds. */
  lemma WbBranch(t: System, ch: Choice, s: Arch, muldiv: MulDivFn)
    requires Inv(t, s, muldiv) && t.core.phase == WB && Decode(Word0(s)).Branch?
    ensures SystemStep(t, ch, muldiv).core.phase == IF
    ensures Inv(SystemStep(t, ch, muldiv), Exec(s, Decode(Word0(s)), muldiv), muldiv)
  {
    hide SystemStep, InputsOf, Plus, ClearBit0, TrapEntry, Swap, Imm, Bit, Opcode, Decode, Get, Put, LoadByte, LoadHalf,
         Mirrors, Fetch, Rd, Rs1, Rs2, Align, Taken, Compute, Holds, LoadValue, StoreValue, IsRv32m, InWait, PrivCsr,
         CsrAsCoded, CsrOperand, ControlOf, Inv;
    AtWriteBack(t, s, muldiv);
    WriteBackClock(t, ch, muldiv);
    WriteBackFields(Word0(s));
    TakenIsPcWrite(t.core.instruction, t.core.aluOut);
    BackAtFetch(SystemStep(t, ch, muldiv), Exec(s, Decode(Word0(s)), muldiv), muldiv);
  }

  /** Register and immediate operations, multiply and divide. */
  lemma WbAlu(t: System, ch: Choice, s: Arch, muldiv: MulDivFn)
    requires Inv(t, s, muldiv) && t.core.phase == WB
    requires (Decode(Word0(s)).OpImm? || Decode(Word0(s)).Op? || Decode(Word0(s)).MulDiv?)
    ensures SystemStep(t, ch, muldiv).core.phase == IF
    ensures Inv(SystemStep(t, ch, muldiv), Exec(s, Decode(Word0(s)), muldiv), muldiv)
  {
    hide SystemStep, InputsOf, Plus, ClearBit0, TrapEntry, Swap, Imm, Bit, Opcode, Decode, Get, Put, LoadByte, LoadHalf,
         Mirrors, Fetch, Rd, Rs1, Rs2, Align, Taken, Compute, Holds, LoadValue, StoreValue, IsRv32m, InWait, PrivCsr,
         CsrAsCoded, CsrOperand, ControlOf, Inv;
    AtWriteBack(t, s, muldiv);
    WriteBackClock(t, ch, muldiv);
    WriteBackFields(Word0(s));
    BackAtFetch(SystemStep(t, ch, muldiv), Exec(s, Decode(Word0(s)), muldiv), muldiv);
  }

  lemma TakenIsPcWrite(i: Word, aluOut: Word)
    requires Opcode(i) == OP_BR
    ensures ControlWb(i, aluOut).pcWrite == Taken(i, aluOut)
  {
    hide Bit, Opcode, IsRv32m;
  }

  /** The loaded value, whatever the width. */
  lemma LoadedValue(t: System, s: Arch, muldiv: MulDivFn)
    requires Inv(t, s, muldiv) && Regular(s, muldiv) && t.core.phase == WB && Decode(Word0(s)).Load?
    ensures var r, i := t.core, Decode(Word0(s));
            LoadValue(s.mem, Ea(s), i.width, i.unsigned) ==
              match i.width
              case Byte => LoadByte(r.instruction, r.mar, r.mdr)
              case Half => LoadHalf(r.instruction, r.mar, r.mdr)
              case Full => r.mdr
  {
    hide Plus, ClearBit0, TrapEntry, Swap, Imm, Bit, Opcode, Decode, Get, Put, LoadByte, LoadHalf, Mirrors,
         Rd, Rs1, Rs2, Align, Exec, Fetch, Regular;
    LoadFields(Word0(s));
    LoadAligned(s, muldiv);
    match Decode(Word0(s)).width
    case Byte => LoadByteMirrors(t.dev.words, s.mem, Word0(s), Ea(s));
    case Half => LoadHalfMirrors(t.dev.words, s.mem, Word0(s), Ea(s));
    case Full => FetchMirrors(t.dev.words, s.mem, Ea(s));
  }

  /** Loads. */
  lemma WbLoad(t: System, ch: Choice, s: Arch, muldiv: MulDivFn)
    requires Inv(t, s, muldiv) && Regular(s, muldiv) && t.core.phase == WB && Decode(Word0(s)).Load?
    ensures SystemStep(t, ch, muldiv).core.phase == IF
    ensures Inv(SystemStep(t, ch, muldiv), Exec(s, Decode(Word0(s)), muldiv), muldiv)
  {
    hide SystemStep, InputsOf, Plus, ClearBit0, TrapEntry, Swap, Imm, Bit, Opcode, Decode, Get, Put, LoadByte, LoadHalf,
         Mirrors, Fetch, Rd, Rs1, Rs2, Align, Taken, Compute, Holds, LoadValue, StoreValue, IsRv32m, InWait, PrivCsr,
         CsrAsCoded, CsrOperand, ControlOf, Inv;
    AtWriteBack(t, s, muldiv);
    WriteBackClock(t, ch, muldiv);
    LoadFields(Word0(s));
    LoadedValue(t, s, muldiv);
    BackAtFetch(SystemStep(t, ch, muldiv), Exec(s, Decode(Word0(s)), muldiv), muldiv);
  }

  /** CSR instructions: the word read goes to the register, and the CSR port gets the word made of it. */
  lemma WbCsr(t: System, ch: Choice, s: Arch, muldiv: MulDivFn)
    requires Inv(t, s, muldiv) && t.core.phase == WB && Decode(Word0(s)).Csr?
    ensures SystemStep(t, ch, muldiv).core.phase == IF
    ensures Inv(SystemStep(t, ch, muldiv), ExecCsr(s, Rd(Word0(s)), t.core.csrr), muldiv)
    ensures var i := Decode(Word0(s));
            ControlOf(t.core, ch.ready).csrWe
            && t.core.aluOut == CsrAsCoded(i.fn, t.core.csrr, CsrOperand(s, i.fn, i.rs1))
  {
    hide SystemStep, InputsOf, Plus, ClearBit0, TrapEntry, Swap, Imm, Bit, Opcode, Decode, Get, Put, LoadByte, LoadHalf,
         Mirrors, Fetch, Rd, Rs1, Rs2, Align, Taken, Compute, Holds, LoadValue, StoreValue, IsRv32m, InWait, PrivCsr,
         CsrAsCoded, CsrOperand, ControlOf, Inv;
    AtWriteBack(t, s, muldiv);
    WriteBackClock(t, ch, muldiv);
    WriteBackFields(Word0(s));
    BackAtFetch(SystemStep(t, ch, muldiv), ExecCsr(s, Rd(Word0(s)), t.core.csrr), muldiv);
  }

  /** What an instruction that reaches write-back is on record as. */
  lemma WriteBackEvent(t: System, ch: Choice, s: Arch, muldiv: MulDivFn)
    requires Inv(t, s, muldiv) && t.core.phase == WB
    ensures EventOf(t, ch) == if Decode(Word0(s)).Csr? then CsrRead(t.core.csrr) else Executed
  {
    hide Plus, Opcode, Decode, Get, Mirrors, Fetch, Rd, Rs1, Rs2, Align, Taken, Compute, Holds, Imm, Exec, Swap,
         CsrAsCoded, CsrOperand, IsRv32m, PrivCsr;
    WriteBackFields(Word0(s));
  }

  lemma StepWriteBack(t: System, ch: Choice, s: Arch, muldiv: MulDivFn)
    requires Inv(t, s, muldiv) && Regular(s, muldiv) && t.core.phase == WB
    ensures SystemStep(t, ch, muldiv).core.phase == IF
    ensures Inv(SystemStep(t, ch, muldiv), Retire(t, ch, s, muldiv), muldiv)
  {
    hide SystemStep, Decode, Mirrors, Exec, Fetch, Imm, InWait, Regular, Get, Plus, Holds, Compute, Taken, EventOf,
         CsrAsCoded, CsrOperand, ExecCsr, Rd;
    WriteBackEvent(t, ch, s, muldiv);
    match Decode(Word0(s))
    case Lui(_, _) => WbUpper(t, ch, s, muldiv);
    case Auipc(_, _) => WbUpper(t, ch, s, muldiv);
    case Jal(_, _) => WbUpper(t, ch, s, muldiv);
    case Jalr(_, _, _) => WbJalr(t, ch, s, muldiv);
    case Branch(_, _, _, _) => WbBranch(t, ch, s, muldiv);
    case Load(_, _, _, _, _) => WbLoad(t, ch, s, muldiv);
    case OpImm(_, _, _, _) => WbAlu(t, ch, s, muldiv);
    case Op(_, _, _, _) => WbAlu(t, ch, s, muldiv);
    case MulDiv(_, _, _, _) => WbAlu(t, ch, s, muldiv);
    case Csr(_, _, _) => WbCsr(t, ch, s, muldiv);
    case _ =>
  }

  // ---------------------------------------------------------------- main results

  /** One clock: either the core is still inside the instruction, or it is back at fetch with the
      architectural state one instruction (or one trap) on. */
  lemma ClockRefines(t: System, ch: Choice, s: Arch, muldiv: MulDivFn)
    requires Inv(t, s, muldiv) && Regular(s, muldiv)
    ensures var u := SystemStep(t, ch, muldiv);
            Inv(u, if u.core.phase == IF then Retire(t, ch, s, muldiv) else s, muldiv)
  {
    hide SystemStep, Decode, Mirrors, Exec, Fetch, Imm, Regular, Get, Plus, WbReady;
    match t.core.phase
    case IF => StepFetch(t, ch, s, muldiv); FetchDoesNotRetire(t, ch, muldiv);
    case ID_RF => StepDecode(t, ch, s, muldiv);
    case EX => StepExecute(t, ch, s, muldiv);
    case MEM =>
      if Decode(Word0(s)).Load? || Merging(s) { StepMemRead(t, ch, s, muldiv); }
      else { StepMemWrite(t, ch, s, muldiv); }
    case EXU => StepResample(t, ch, s, muldiv);
    case MEMU => StepMergeWrite(t, ch, s, muldiv);
    case MEM_WAIT =>
      if t.core.phaseReturn == ID_RF { StepFetchWait(t, ch, s, muldiv); FetchDoesNotRetire(t, ch, muldiv); }
      else if t.core.phaseReturn == WB { StepLoadWait(t, ch, s, muldiv); }
      else if t.core.phaseReturn == EXU { StepMergeWait(t, ch, s, muldiv); }
      else { StepStoreWait(t, ch, s, muldiv); }
    case RV32M_WAIT => StepUnitWait(t, ch, s, muldiv);
    case WB => StepWriteBack(t, ch, s, muldiv);
    case INTERRUPT => StepTrap(t, ch, s, muldiv);
    case EXCEPTION => StepTrap(t, ch, s, muldiv);
    case MRET => StepTrap(t, ch, s, muldiv);
    case BAD =>
  }

  lemma FetchDoesNotRetire(t: System, ch: Choice, muldiv: MulDivFn)
    requires t.core.phase == IF || (t.core.phase == MEM_WAIT && t.core.phaseReturn == ID_RF)
    ensures SystemStep(t, ch, muldiv).core.phase != IF
  {
    hide Plus, ClearBit0, TrapEntry, Swap, Alu, Imm, Bit, Opcode, Get, Put, StoreByte, StoreHalf, LoadByte,
         LoadHalf, McauseNext, Rd, Rs1, Rs2;
  }

  // ---------------------------------------------------------------- runs

  type Script = seq<Choice>

  function RunSystem(t: System, script: Script, muldiv: MulDivFn): System {
    if script == [] then t
    else SystemStep(RunSystem(t, script[..|script| - 1], muldiv), script[|script| - 1], muldiv)
  }

  function IsaRun(s: Arch, events: seq<Event>, muldiv: MulDivFn): Arch {
    if events == [] then s
    else Apply(IsaRun(s, events[..|events| - 1], muldiv), events[|events| - 1], muldiv)
  }

  function EventsOf(t: System, script: Script, muldiv: MulDivFn): seq<Event> {
    if script == [] then []
    else
      var before, ch := script[..|script| - 1], script[|script| - 1];
      var u := RunSystem(t, before, muldiv);
      if SystemStep(u, ch, muldiv).core.phase == IF
      then EventsOf(t, before, muldiv) + [EventOf(u, ch)]
      else EventsOf(t, before, muldiv)
  }

  /** The ISA run stays within the modelled, aligned, non-trapping instructions. */
  ghost predicate RegularRun(s: Arch, events: seq<Event>, muldiv: MulDivFn) {
    Regular(IsaRun(s, events, muldiv), muldiv)
    && (events != [] ==> RegularRun(s, events[..|events| - 1], muldiv))
  }

  lemma EventsGrow(t: System, script: Script, muldiv: MulDivFn)
    requires script != []
    ensures EventsOf(t, script[..|script| - 1], muldiv) <= EventsOf(t, script, muldiv)
  {
    hide SystemStep;
  }

  lemma {:induction false} RegularPrefix(s: Arch, shorter: seq<Event>, events: seq<Event>, muldiv: MulDivFn)
    requires RegularRun(s, events, muldiv) && shorter <= events
    ensures RegularRun(s, shorter, muldiv)
    decreases |events|
  {
    hide Regular, IsaRun;
    if shorter != events {
      assert shorter <= events[..|events| - 1];
      RegularPrefix(s, shorter, events[..|events| - 1], muldiv);
    }
  }

  /** Main result: over any run, with any memory and unit delays and any interrupts, the core is where the
      ISA is after the executed instructions and the transfers taken, or inside the instruction after that. */
  lemma {:induction false} CoreRefinesIsa(t: System, s: Arch, script: Script, muldiv: MulDivFn)
    requires Inv(t, s, muldiv) && RegularRun(s, EventsOf(t, script, muldiv), muldiv)
    ensures Inv(RunSystem(t, script, muldiv), IsaRun(s, EventsOf(t, script, muldiv), muldiv), muldiv)
  {
    hide SystemStep, Inv, Regular, Apply;
    if script != [] {
      var before, ch := script[..|script| - 1], script[|script| - 1];
      EventsGrow(t, script, muldiv);
      RegularPrefix(s, EventsOf(t, before, muldiv), EventsOf(t, script, muldiv), muldiv);
      CoreRefinesIsa(t, s, before, muldiv);
      var u, a := RunSystem(t, before, muldiv), IsaRun(s, EventsOf(t, before, muldiv), muldiv);
      ClockRefines(u, ch, a, muldiv);
      var events := EventsOf(t, script, muldiv);
      if SystemStep(u, ch, muldiv).core.phase == IF {
        assert events[..|events| - 1] == EventsOf(t, before, muldiv);
      }
    }
  }

  /** At every fetch, pc, registers and memory are the ISA's. */
  lemma AtFetchStatesAgree(t: System, s: Arch, script: Script, muldiv: MulDivFn, r: RegName, a: Word)
    requires Inv(t, s, muldiv) && RegularRun(s, EventsOf(t, script, muldiv), muldiv)
    requires RunSystem(t, script, muldiv).core.phase == IF
    ensures var u, isa := RunSystem(t, script, muldiv), IsaRun(s, EventsOf(t, script, muldiv), muldiv);
            u.core.pc == isa.pc && Get(u.core.x, r) == Get(isa.x, r) && ByteAt(u.dev.words, a) == isa.mem(a)
  {
    hide RunSystem, IsaRun, EventsOf, RegularRun, Exec, Decode, Fetch;
    CoreRefinesIsa(t, s, script, muldiv);
  }

  // ---------------------------------------------------------------- progress

  /** How far the core is from the next fetch. */
  function Distance(r: Regs): nat {
    match r.phase
    case IF => 9
    case ID_RF => 7
    case EX => 6
    case MEM => 5
    case RV32M_WAIT => 5
    case EXU => 3
    case MEMU => 2
    case MEM_WAIT => (match r.phaseReturn case ID_RF => 8 case EXU => 4 case WB => 4 case _ => 1)
    case WB => 1
    case _ => 1
  }

  predicate Stalled(r: Regs, ch: Choice) {
    (r.phase == MEM_WAIT && !ch.ready) || (r.phase == RV32M_WAIT && !ch.mReady)
  }

  /** Every clock that does not wait for memory or unit brings the next fetch nearer: an instruction takes
      at most nine such clocks. */
  lemma InstructionGetsOn(t: System, ch: Choice, s: Arch, muldiv: MulDivFn)
    requires Inv(t, s, muldiv)
    ensures var u := SystemStep(t, ch, muldiv);
            if Stalled(t.core, ch) then Distance(u.core) == Distance(t.core)
            else u.core.phase == IF || Distance(u.core) < Distance(t.core)
  {
    hide Step, NextPhase, InputsOf, Distance, Inv, UnitNext;
    StepPhase(t.core, InputsOf(t, ch, muldiv));
    ReadyIsPassedOn(t, ch, muldiv);
    WaitsInOrder(t, s, muldiv);
    NextIsNearer(t.core, InputsOf(t, ch, muldiv));
    DistanceByPhase(t.core.(phase := SystemStep(t, ch, muldiv).core.phase,
                            phaseReturn := SystemStep(t, ch, muldiv).core.phaseReturn), SystemStep(t, ch, muldiv).core);
  }

  /** What the relation says of the phase registers. */
  lemma WaitsInOrder(t: System, s: Arch, muldiv: MulDivFn)
    requires Inv(t, s, muldiv)
    ensures InOrder(t.core)
  {
    hide Exec, Decode, Fetch, Mirrors, WbReady, Imm, Plus, Get, Opcode, Align;
  }

  predicate InOrder(r: Regs) {
    r.phase != BAD
    && (r.phase == MEM_WAIT ==>
          r.phaseReturn == ID_RF || r.phaseReturn == WB || r.phaseReturn == EXU || r.phaseReturn == IF)
  }

  lemma DistanceByPhase(r: Regs, u: Regs)
    requires r.phase == u.phase && r.phaseReturn == u.phaseReturn
    ensures Distance(r) == Distance(u)
  {
  }

  lemma NextIsNearer(r: Regs, inp: Inputs)
    requires InOrder(r)
    ensures var (phase, ret) := NextPhase(r, inp);
            if (r.phase == MEM_WAIT && !inp.ready) || (r.phase == RV32M_WAIT && !inp.mReady)
            then phase == r.phase && ret == r.phaseReturn
            else phase == IF || Distance(r.(phase := phase, phaseReturn := ret)) < Distance(r)
  {
    hide Opcode, StoreUnaligned, IsRv32m, AfterDecode;
    AfterDecodePhases(r.instruction, inp.interrupt);
  }

  // ---------------------------------------------------------------- bus discipline

  /** A request is made only when the last one has been answered, and until then the address is held. */
  predicate BusDiscipline(t: System) {
    (!t.dev.served ==> t.core.phase == MEM_WAIT) && (t.core.phase == MEM_WAIT ==> t.core.mar == t.dev.lastA)
    && (t.core.phase == MEM_WAIT ==>
          t.core.phaseReturn == ID_RF || t.core.phaseReturn == WB
          || t.core.phaseReturn == EXU || t.core.phaseReturn == IF)
    && (t.core.phase == MEM ==> Opcode(t.core.instruction) == OP_LOAD || Opcode(t.core.instruction) == OP_STORE)
  }

  lemma RequestPhases(r: Regs)
    ensures Bus(r).rd || Bus(r).we ==> r.phase == IF || r.phase == MEM || r.phase == MEMU
    ensures r.phase == MEM_WAIT ==> Bus(r).a == r.mar
    ensures r.phase == MEM && (Opcode(r.instruction) == OP_LOAD || Opcode(r.instruction) == OP_STORE) ==>
              Bus(r).rd || Bus(r).we
    ensures r.phase == IF || r.phase == MEMU ==> Bus(r).rd || Bus(r).we
  {
    hide Swap, Imm, Bit, Opcode, MemWriteData, StoreUnaligned, IsRv32m, ControlEx, ControlWb;
    StartsUnit(r.instruction);
    WriteBackIsQuiet(r.instruction, r.aluOut);
  }

  lemma WriteBackIsQuiet(i: Word, aluOut: Word)
    ensures !ControlWb(i, aluOut).memRead && !ControlWb(i, aluOut).memWrite
  {
    hide Bit, Opcode, IsRv32m;
  }

  /** mar follows the bus address, and the ready input plays no part in it. */
  lemma MarFollowsBus(r: Regs, inp: Inputs)
    ensures Step(r, inp).mar == Bus(r).a
    ensures Step(r, inp).phase == NextPhase(r, inp).0 && Step(r, inp).phaseReturn == NextPhase(r, inp).1
    ensures !ControlOf(r, inp.ready).irWrite ==> Step(r, inp).instruction == r.instruction
  {
    hide Swap, Alu, Imm, Opcode, Get, Put, MemWriteData, McauseNext, ControlEx, ControlMem, ControlWb,
         NextPhase, PcNext, OldpcNext, CsrrNext, RegfileNext, AluIn1, AluIn2, Rd, Rs1, Rs2;
  }

  lemma BusDisciplineKept(t: System, ch: Choice, muldiv: MulDivFn)
    requires BusDiscipline(t)
    ensures BusDiscipline(SystemStep(t, ch, muldiv))
    ensures !t.dev.served ==> !Bus(t.core).rd && !Bus(t.core).we && Bus(t.core).a == t.dev.lastA
  {
    hide Step, Bus, Opcode, UnitNext, InputsOf, NextPhase;
    RequestPhases(t.core);
    MarFollowsBus(t.core, InputsOf(t, ch, muldiv));
    ReadyIsPassedOn(t, ch, muldiv);
    WaitPhases(t.core, InputsOf(t, ch, muldiv));
    MemoryPhase(t.core, InputsOf(t, ch, muldiv));
    StepPhase(t.core, InputsOf(t, ch, muldiv));
  }

  lemma StepPhase(r: Regs, inp: Inputs)
    ensures var u := Step(r, inp);
            (u.phase, u.phaseReturn) == NextPhase(r, inp)
            && (r.phase == EX ==> u.instruction == r.instruction)
  {
    hide Swap, Alu, Imm, Bit, Opcode, Get, Put, MemWriteData, McauseNext, Rd, Rs1, Rs2, Plus, ClearBit0, TrapEntry,
         NextPhase, ControlEx, AluIn1, AluIn2, RegfileNext, PcNext, OldpcNext, CsrrNext, MemAddr;
    ExecuteKeepsInstruction(r.instruction);
  }

  /** How a wait begins, goes on and ends. */
  lemma WaitPhases(r: Regs, inp: Inputs)
    ensures var (phase, ret) := NextPhase(r, inp);
            (phase == MEM_WAIT ==>
               (r.phase == IF && !inp.ready && ret == ID_RF) || r.phase == MEMU || (r.phase == MEM && ret != ID_RF)
               || (r.phase == MEM_WAIT && !inp.ready && ret == r.phaseReturn)
               || (r.phase == MEM_WAIT && inp.ready && r.phaseReturn == MEM_WAIT))
            && (phase == MEM_WAIT && r.phase != MEM_WAIT ==> ret == ID_RF || ret == WB || ret == EXU || ret == IF)
            && (r.phase == IF && inp.ready ==> phase == ID_RF)
            && (r.phase == MEM || r.phase == MEMU ==> phase == MEM_WAIT)
            && (r.phase == IF && !inp.ready ==> phase == MEM_WAIT)
            && (r.phase == MEM_WAIT ==> phase == if inp.ready then r.phaseReturn else MEM_WAIT)
  {
    hide Opcode, StoreUnaligned, IsRv32m, AfterDecode;
    AfterDecodePhases(r.instruction, inp.interrupt);
  }

  /** Only loads and stores come to the memory phase. */
  lemma MemoryPhase(r: Regs, inp: Inputs)
    ensures NextPhase(r, inp).0 == MEM ==>
              (r.phase == EX && (Opcode(r.instruction) == OP_LOAD || Opcode(r.instruction) == OP_STORE))
              || (r.phase == MEM_WAIT && r.phaseReturn == MEM)
  {
    hide Opcode, StoreUnaligned, IsRv32m, AfterDecode;
    AfterDecodePhases(r.instruction, inp.interrupt);
  }

  lemma AfterDecodePhases(i: Word, interrupt: bool)
    ensures var p := AfterDecode(i, interrupt);
            p == INTERRUPT || p == IF || p == MRET || p == EXCEPTION || p == WB || p == EX
  {
  }

  lemma ExecuteKeepsInstruction(i: Word)
    ensures !ControlEx(i).irWrite
  {
  }

  lemma ReadyIsPassedOn(t: System, ch: Choice, muldiv: MulDivFn)
    ensures var inp := InputsOf(t, ch, muldiv);
            inp.ready == ch.ready && inp.mReady == ch.mReady && inp.interrupt == ch.interrupt
  {
  }
}
