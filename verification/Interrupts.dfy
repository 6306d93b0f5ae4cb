/** The interrupt path: device lines, interrupt unit, trap unit and core, each with its registered delays. */
module Interrupts {
  import opened Isa
  import C = Core

  // ---------------------------------------------------------------- the interrupt unit

  /** One bit for each device line. */
  datatype Lines = Lines(timer: bool, uart: bool, gpio: bool, ps2: bool)

  const NO_DEVICE := 0
  const UART := 2
  const GPIO := 3
  const PS2 := 4

  /** `saved` holds requests not yet issued; `mask` a one for every line that is off. */
  datatype UnitRegs = UnitRegs(mask: Lines, replyReg: bool, linesReg: Lines, saved: Lines,
                               isTimer: bool, device: nat, issuing: bool)

  /** A write to the unit's registers from the bus. */
  datatype Write = Write(we: bool, a: bv3, d: Word)

  /** A one-bit field. */
  function IsSet(x: Word, mask: Word): bool { x & mask != 0 }

  function Masks(d: Word): Lines {
    Lines(IsSet(d, 0x0100_0000), IsSet(d, 0x0200_0000), IsSet(d, 0x0400_0000), IsSet(d, 0x0800_0000))
  }

  /** The saved requests with the pulses of lines that are on. */
  function Caught(s: Lines, l: Lines, m: Lines): Lines {
    Lines(s.timer || (l.timer && !m.timer), s.uart || (l.uart && !m.uart),
          s.gpio || (l.gpio && !m.gpio), s.ps2 || (l.ps2 && !m.ps2))
  }

  function UnitStep(u: UnitRegs, lines: Lines, reply: bool, w: Write): UnitRegs {
    var s, caught := u.saved, Caught(u.saved, u.linesReg, u.mask);
    var v := u.(replyReg := reply, linesReg := lines, saved := caught,
                mask := if w.we && w.a == 0 then Masks(w.d) else u.mask);
    if u.issuing then
      if u.replyReg then v.(isTimer := false, issuing := false) else v
    else if s.timer then v.(issuing := true, saved := caught.(timer := false), isTimer := true)
    else if s.uart then v.(issuing := true, saved := caught.(uart := false), device := UART)
    else if s.gpio then v.(issuing := true, saved := caught.(gpio := false), device := GPIO)
    else if s.ps2 then v.(issuing := true, saved := caught.(ps2 := false), device := PS2)
    else v
  }

  const UnitReset := UnitRegs(Lines(true, true, true, true), false, Lines(false, false, false, false),
                              Lines(false, false, false, false), false, NO_DEVICE, false)

  class InterruptUnit {
    var mask: Lines
    var replyReg: bool
    var linesReg: Lines
    var saved: Lines
    var isTimer: bool
    var device: nat
    var issuing: bool

    constructor ()
      ensures Registers() == UnitReset
    {
      mask, replyReg, linesReg := Lines(true, true, true, true), false, Lines(false, false, false, false);
      saved, isTimer, device, issuing := Lines(false, false, false, false), false, NO_DEVICE, false;
    }

    function Registers(): UnitRegs
      reads this
    {
      UnitRegs(mask, replyReg, linesReg, saved, isTimer, device, issuing)
    }

    method Tick(lines: Lines, reply: bool, w: Write)
      modifies this
      ensures Registers() == UnitStep(old(Registers()), lines, reply, w)
    {
      var s, replied := saved, replyReg;
      hide Caught, Masks;
      saved := Caught(saved, linesReg, mask);
      if w.we && w.a == 0 { mask := Masks(w.d); }
      replyReg, linesReg := reply, lines;
      if issuing {
        if replied { isTimer, issuing := false, false; }
      } else if s.timer {
        issuing, saved, isTimer := true, saved.(timer := false), true;
      } else if s.uart {
        issuing, saved, device := true, saved.(uart := false), UART;
      } else if s.gpio {
        issuing, saved, device := true, saved.(gpio := false), GPIO;
      } else if s.ps2 {
        issuing, saved, device := true, saved.(ps2 := false), PS2;
      }
    }
  }

  // ---------------------------------------------------------------- the trap unit

  datatype TrapState = IDLE | ISSUE | REPLY | END

  datatype Csrs = Csrs(mstatus: Word, mie: Word, mtvec: Word, mepc: Word, mcause: Word, mip: Word)

  /** The registers that follow their inputs in every clock. */
  datatype Seen = Seen(reply: bool, pending: bool, eip: bool, timer: bool,
                         meie: bool, mtie: bool, mepc: Word, mtvec: Word)

  datatype TrapRegs = TrapRegs(csr: Csrs, seen: Seen, external: bool, timer: bool, state: TrapState, code: bv4,
                               interrupt: bool, eipReply: bool)

  /** A CSR write. */
  datatype CsrWrite = CsrWrite(a: nat, d: Word)

  /** What the core tells the trap unit in a clock. */
  datatype FromCore = FromCore(we: bool, enter: bool, isInt: bool, leave: bool, pc: Word, cause: bv4, reply: bool)

  function Masked(prior: Word, d: Word, keep: Word): Word { (prior & keep) | (d & !keep) }

  const MIE_BIT: Word := 0x08
  const MPIE_BIT: Word := 0x80
  const SOFT_BIT: Word := 0x10

  /** mstatus at a trap: bit 3 moves to bit 7 and is cleared. */
  function Entered(m: Word): Word { (m & 0xffff_ff77) | ((m & MIE_BIT) << 4) }

  /** mstatus at MRET: bit 7 moves back to bit 3 and is set. */
  function Left(m: Word): Word { (m & 0xffff_ff77) | MPIE_BIT | ((m & MPIE_BIT) >> 4) }

  function InterruptCause(code: bv4): Word { 0x8000_0000 | (code as Word) }

  /** A CSR write takes precedence over a trap, and a trap over a return. */
  function MstatusNext(r: Csrs, c: FromCore, w: CsrWrite): Word {
    if c.we then if w.a == 0x300 then Masked(r.mstatus, w.d, 0xffff_ff77) else r.mstatus
    else if c.enter then Entered(r.mstatus) else if c.leave then Left(r.mstatus) else r.mstatus
  }

  function MepcNext(r: Csrs, c: FromCore, w: CsrWrite): Word {
    if c.we then if w.a == 0x341 then Masked(r.mepc, w.d, 3) else r.mepc
    else if c.enter then c.pc else r.mepc
  }

  function McauseNext(r: Csrs, code: bv4, c: FromCore, w: CsrWrite): Word {
    if c.we then if w.a == 0x342 then w.d else r.mcause
    else if c.enter then if c.isInt then InterruptCause(code) else c.cause as Word
    else r.mcause
  }

  function Written(x: Word, c: FromCore, w: CsrWrite, a: nat, keep: Word): Word {
    if c.we && w.a == a then Masked(x, w.d, keep) else x
  }

  function CsrStep(r: Csrs, code: bv4, c: FromCore, w: CsrWrite): Csrs {
    Csrs(MstatusNext(r, c, w), Written(r.mie, c, w, 0x304, 0xffff_f777), Written(r.mtvec, c, w, 0x305, 3),
         MepcNext(r, c, w), McauseNext(r, code, c, w), Written(r.mip, c, w, 0x344, 0xffff_fff7))
  }

  /** Whether an enabled interrupt is there to be taken; bit 4 of mip is the only software request. */
  function PendingNow(r: Csrs, eip: bool, isTimer: bool): bool {
    IsSet(r.mstatus, MIE_BIT)
    && ((eip && !isTimer && IsSet(r.mie, 0x800)) || (eip && isTimer && IsSet(r.mie, 0x80))
        || (IsSet(r.mip, SOFT_BIT) && IsSet(r.mie, 0x08)))
  }

  function Sample(r: Csrs, eip: bool, isTimer: bool, reply: bool): Seen {
    Seen(reply, PendingNow(r, eip, isTimer), eip, isTimer, IsSet(r.mie, 0x800), IsSet(r.mie, 0x80), r.mepc, r.mtvec)
  }

  function StateNext(t: TrapRegs): TrapState {
    match t.state
    case IDLE => if t.seen.pending then ISSUE else IDLE
    case ISSUE => REPLY
    case REPLY => if t.seen.reply then END else REPLY
    case END => IDLE
  }

  function TrapStep(t: TrapRegs, eip: bool, isTimer: bool, c: FromCore, w: CsrWrite): TrapRegs {
    var take := t.state == IDLE && t.seen.pending;
    TrapRegs(CsrStep(t.csr, t.code, c, w), Sample(t.csr, eip, isTimer, c.reply),
             if take then t.seen.eip && !t.seen.timer && t.seen.meie else t.external,
             if take then t.seen.eip && t.seen.timer && t.seen.mtie else t.timer,
             StateNext(t),
             if t.state != ISSUE then t.code else if t.external then 11 else if t.timer then 7 else 3,
             if t.state == ISSUE then true else t.interrupt && !(t.state == REPLY && t.seen.reply),
             if t.state == ISSUE && (t.external || t.timer) then true else t.eipReply && t.state != REPLY)
  }

  class TrapUnit {
    var csr: Csrs
    var seen: Seen
    var external: bool
    var timer: bool
    var state: TrapState
    var code: bv4
    var interrupt: bool
    var eipReply: bool

    /** Out of reset; the registers without a reset keep what they held. */
    constructor (t: TrapRegs)
      ensures Registers() == t.(state := IDLE, interrupt := false, eipReply := false, csr := Csrs(0x80, 0, 0, 0, 0, 0))
    {
      csr, seen, external, timer := Csrs(0x80, 0, 0, 0, 0, 0), t.seen, t.external, t.timer;
      state, code, interrupt, eipReply := IDLE, t.code, false, false;
    }

    function Registers(): TrapRegs
      reads this
    {
      TrapRegs(csr, seen, external, timer, state, code, interrupt, eipReply)
    }

    /** The request and reply machine. */
    method Handshake()
      modifies this`external, this`timer, this`state, this`code, this`interrupt, this`eipReply
      ensures var t := old(Registers());
              var take := t.state == IDLE && t.seen.pending;
              external == (if take then t.seen.eip && !t.seen.timer && t.seen.meie else t.external)
              && timer == (if take then t.seen.eip && t.seen.timer && t.seen.mtie else t.timer)
              && state == StateNext(t)
              && code == (if t.state != ISSUE then t.code else if t.external then 11 else if t.timer then 7 else 3)
              && interrupt == (if t.state == ISSUE then true else t.interrupt && !(t.state == REPLY && t.seen.reply))
              && eipReply ==
                  if t.state == ISSUE && (t.external || t.timer) then true else t.eipReply && t.state != REPLY
    {
      match state {
        case IDLE =>
          if seen.pending {
            external, timer := seen.eip && !seen.timer && seen.meie, seen.eip && seen.timer && seen.mtie;
            state := ISSUE;
          }
        case ISSUE =>
          interrupt := true;
          if external {
            eipReply, code := true, 11;
          } else if timer {
            eipReply, code := true, 7;
          } else {
            code := 3;
          }
          state := REPLY;
        case REPLY =>
          eipReply := false;
          if seen.reply {
            interrupt := false;
            state := END;
          }
        case END => state := IDLE;
      }
    }

    method Tick(eip: bool, isTimer: bool, c: FromCore, w: CsrWrite)
      modifies this
      ensures Registers() == TrapStep(old(Registers()), eip, isTimer, c, w)
    {
      hide CsrStep, Sample, StateNext;
      var nextCsr, nextSeen := CsrStep(csr, code, c, w), Sample(csr, eip, isTimer, c.reply);
      Handshake();
      csr, seen := nextCsr, nextSeen;
    }
  }

  // ---------------------------------------------------------------- all three together

  /** `issued` lists the requests the unit has issued, timer or not; `replies` counts reply pulses; `causes` lists
      what each interrupt trap left in mcause. Nothing is computed from them. */
  datatype System = System(core: C.Regs, trap: TrapRegs, unit: UnitRegs, issued: seq<bool>,
                           replies: nat, causes: seq<Word>)

  /** What the outside does in a clock: devices, the bus, CSR write data, memory and multiplier. */
  datatype Env = Env(lines: Lines, bus: Write, csr: CsrWrite, spo: Word, ready: bool, mReady: bool,
                     mResult: Word, csrSpo: Word)

  function CoreInputs(s: System, env: Env): C.Inputs {
    C.Inputs(env.spo, env.ready, env.mReady, env.mResult, s.trap.interrupt,
             s.trap.seen.mtvec, s.trap.seen.mepc, env.csrSpo)
  }

  function Signals(s: System, env: Env): FromCore {
    var c := C.ControlOf(s.core, env.ready);
    FromCore(c.csrWe, c.excEnter, c.excIsInt, c.excLeave, C.PcOut(s.core, c), s.core.mcauseCode, c.intReply)
  }

  function SystemStep(s: System, env: Env): System {
    var trap := TrapStep(s.trap, s.unit.issuing, s.unit.isTimer, Signals(s, env), env.csr);
    var unit := UnitStep(s.unit, env.lines, s.trap.eipReply, env.bus);
    System(C.Step(s.core, CoreInputs(s, env)), trap, unit,
           if !s.unit.issuing && unit.issuing then s.issued + [unit.isTimer] else s.issued,
           s.replies + if s.trap.eipReply then 1 else 0,
           if s.core.phase == C.INTERRUPT then s.causes + [trap.csr.mcause] else s.causes)
  }

  /** The cause of the interrupt trap for a request. */
  function CauseOf(isTimer: bool): Word { InterruptCause(if isTimer then 7 else 11) }

  // ---------------------------------------------------------------- the invariant

  predicate PhaseInv(s: System) {
    (s.core.phaseReturn == C.ID_RF || s.core.phaseReturn == C.WB
     || s.core.phaseReturn == C.EXU || s.core.phaseReturn == C.IF)
    && (s.core.phase == C.INTERRUPT ==> s.trap.state == REPLY && !s.trap.seen.reply && !s.trap.eipReply)
    && (s.trap.seen.reply ==> s.trap.state == REPLY && s.core.phase == C.IF && !s.trap.eipReply)
    && (s.trap.interrupt <==> s.trap.state == REPLY)
  }

  predicate HandshakeInv(s: System) {
    !IsSet(s.trap.csr.mip, SOFT_BIT)
    && (s.trap.eipReply ==> s.trap.state == REPLY && s.unit.issuing && !s.unit.replyReg)
    && (s.unit.replyReg ==> s.trap.state == REPLY && !s.trap.eipReply && !s.trap.seen.reply && s.unit.issuing)
    && (s.trap.seen.eip && s.trap.state != REPLY ==> s.unit.issuing && s.unit.isTimer == s.trap.seen.timer)
    && (s.trap.seen.pending ==> s.trap.seen.eip && if s.trap.seen.timer then s.trap.seen.mtie else s.trap.seen.meie)
    && (s.trap.state == ISSUE ==>
          s.unit.issuing && s.trap.timer == s.unit.isTimer && s.trap.external == !s.unit.isTimer)
  }

  /** Whether the trap for the latest reply is still to come. */
  predicate Owed(s: System) { s.trap.state == REPLY && !s.trap.eipReply && !s.trap.seen.reply }

  predicate Balanced(s: System) {
    |s.issued| == s.replies + (if s.unit.issuing && !s.unit.replyReg then 1 else 0)
    && s.replies == |s.causes| + (if Owed(s) then 1 else 0)
  }

  predicate Classed(s: System)
    requires Balanced(s)
  {
    (s.unit.issuing && !s.unit.replyReg ==> s.unit.isTimer == s.issued[|s.issued| - 1])
    && (s.trap.eipReply || Owed(s) ==>
          |s.causes| < |s.issued| && InterruptCause(s.trap.code) == CauseOf(s.issued[|s.causes|]))
    && forall i :: 0 <= i < |s.causes| ==> s.causes[i] == CauseOf(s.issued[i])
  }

  predicate CountInv(s: System) { Balanced(s) && Classed(s) }

  predicate Inv(s: System) { PhaseInv(s) && HandshakeInv(s) && CountInv(s) }

  // ---------------------------------------------------------------- the core's side

  /** When the core can come to the interrupt phase, and that it goes from there to a fetch. */
  lemma CoreFollows(s: System, env: Env)
    requires PhaseInv(s)
    ensures var u := C.Step(s.core, CoreInputs(s, env));
            (u.phase == C.INTERRUPT <==> s.core.phase == C.ID_RF && s.trap.interrupt)
            && (s.core.phase == C.INTERRUPT ==> u.phase == C.IF)
            && (u.phaseReturn == C.ID_RF || u.phaseReturn == C.WB || u.phaseReturn == C.EXU || u.phaseReturn == C.IF)
  {
    hide C.NextPhase, C.ControlOf, C.Alu, C.Swap, C.PcNext, C.OldpcNext, C.InstructionNext, C.CsrrNext, C.RegfileNext,
         C.McauseNext, C.MemAddr, C.MemWriteData, C.AluIn1, C.AluIn2, Get, Rs1, Rs2;
    PhaseFollows(s.core, CoreInputs(s, env));
  }

  lemma PhaseFollows(r: C.Regs, inp: C.Inputs)
    requires r.phaseReturn == C.ID_RF || r.phaseReturn == C.WB || r.phaseReturn == C.EXU || r.phaseReturn == C.IF
    ensures var (phase, ret) := C.NextPhase(r, inp);
            (phase == C.INTERRUPT <==> r.phase == C.ID_RF && inp.interrupt)
            && (r.phase == C.INTERRUPT ==> phase == C.IF)
            && (ret == C.ID_RF || ret == C.WB || ret == C.EXU || ret == C.IF)
  {
    hide C.Opcode, C.IsRv32m, C.StoreUnaligned, C.PrivWfi, C.PrivMret, C.PrivEbreak, C.PrivEcall, C.PrivSfenceVma;
  }

  /** In the interrupt phase, and only there, the core replies; then it enters a trap and writes no CSR. */
  lemma CoreReplies(s: System, env: Env)
    ensures var c := Signals(s, env);
            (c.reply <==> s.core.phase == C.INTERRUPT) && (c.reply ==> c.enter && c.isInt && !c.we)
            && (c.reply ==> c.pc == s.core.oldpc)
  {
    hide C.Opcode, C.PrivCsr, C.IsRv32m, C.StoreUnaligned, C.Bit, C.InstSrai;
  }

  lemma SoftwareBitStays(prior: Word, d: Word)
    ensures IsSet(Masked(prior, d, 0xffff_fff7), SOFT_BIT) == IsSet(prior, SOFT_BIT)
  {
  }

  /** CSR traffic cannot raise a software interrupt. */
  lemma CsrSoftware(r: Csrs, code: bv4, c: FromCore, w: CsrWrite)
    ensures IsSet(CsrStep(r, code, c, w).mip, SOFT_BIT) == IsSet(r.mip, SOFT_BIT)
  {
    hide IsSet, Masked, MstatusNext, MepcNext, McauseNext;
    SoftwareBitStays(r.mip, w.d);
  }

  /** An interrupt trap goes on record. */
  lemma CsrTrap(r: Csrs, code: bv4, c: FromCore, w: CsrWrite)
    requires c.enter && !c.we && c.isInt
    ensures var v := CsrStep(r, code, c, w);
            v.mcause == InterruptCause(code) && v.mepc == c.pc && v.mstatus == Entered(r.mstatus)
  {
    hide Masked, Entered, Left, InterruptCause, Written;
  }

  lemma UnitNext(u: UnitRegs, lines: Lines, reply: bool, w: Write)
    ensures var v := UnitStep(u, lines, reply, w);
            v.replyReg == reply
            && (u.issuing ==> v.issuing == !u.replyReg && (v.issuing ==> v.isTimer == u.isTimer))
  {
    hide Caught, Masks;
  }

  /** Lines by device number, the timer being number 1. */
  function LineOf(l: Lines, x: nat): bool {
    if x == 1 then l.timer else if x == UART then l.uart else if x == GPIO then l.gpio else x == PS2 && l.ps2
  }

  /** The number of the request issued in a clock, as the unit's outputs show it; 0 if none is. */
  function IssuedNow(u: UnitRegs, v: UnitRegs): nat {
    if u.issuing || !v.issuing then 0 else if v.isTimer then 1 else v.device
  }

  /** An idle unit issues exactly when something is saved, and then the saved request of the lowest number; every
      other saved request, and every new pulse of a line that is on, is saved afterwards, and nothing else is. */
  lemma ServesLowestKeepsRest(u: UnitRegs, lines: Lines, reply: bool, w: Write, x: nat)
    requires 1 <= x <= 4 && (!u.issuing ==> !u.isTimer)
    ensures var v := UnitStep(u, lines, reply, w);
            var i := IssuedNow(u, v);
            (!u.issuing && LineOf(u.saved, x) ==> 1 <= i <= x)
            && (i > 0 ==> LineOf(u.saved, i))
            && (LineOf(v.saved, x) <==> x != i && (LineOf(u.saved, x) || (LineOf(u.linesReg, x) && !LineOf(u.mask, x))))
            && (!v.issuing ==> !v.isTimer)
  {
    hide Masks;
  }

  /** Without a software request only the unit's own can be pending, and it must be enabled. */
  lemma PendingNeedsRequest(r: Csrs, eip: bool, isTimer: bool)
    requires !IsSet(r.mip, SOFT_BIT) && PendingNow(r, eip, isTimer)
    ensures eip && if isTimer then IsSet(r.mie, 0x80) else IsSet(r.mie, 0x800)
  {
    hide IsSet;
  }

  lemma PhaseKept(s: System, env: Env)
    requires Inv(s)
    ensures PhaseInv(SystemStep(s, env))
  {
    hide C.Step, Signals, UnitStep, CsrStep, PendingNow, IsSet, CountInv;
    CoreFollows(s, env);
    CoreReplies(s, env);
  }

  lemma HandshakeKept(s: System, env: Env)
    requires Inv(s)
    ensures HandshakeInv(SystemStep(s, env))
  {
    hide C.Step, Signals, UnitStep, CsrStep, CountInv, PendingNow, IsSet;
    CoreFollows(s, env);
    CoreReplies(s, env);
    UnitNext(s.unit, env.lines, s.trap.eipReply, env.bus);
    CsrSoftware(s.trap.csr, s.trap.code, Signals(s, env), env.csr);
    if PendingNow(s.trap.csr, s.unit.issuing, s.unit.isTimer) {
      PendingNeedsRequest(s.trap.csr, s.unit.issuing, s.unit.isTimer);
    }
  }

  lemma CodeIsClass(external: bool, isTimer: bool)
    requires external == !isTimer
    ensures InterruptCause(if external then 11 else if isTimer then 7 else 3) == CauseOf(isTimer)
  {
  }

  lemma BalanceKept(s: System, env: Env)
    requires Inv(s)
    ensures Balanced(SystemStep(s, env))
  {
    hide C.Step, Signals, UnitStep, CsrStep, Sample, Classed;
    SampleReply(s.trap.csr, s.unit.issuing, s.unit.isTimer, Signals(s, env).reply);
    CoreFollows(s, env);
    CoreReplies(s, env);
    UnitNext(s.unit, env.lines, s.trap.eipReply, env.bus);
  }

  lemma SampleReply(r: Csrs, eip: bool, isTimer: bool, reply: bool)
    ensures Sample(r, eip, isTimer, reply).reply == reply
  {
  }

  lemma ClassesKept(s: System, env: Env)
    requires Inv(s) && Balanced(SystemStep(s, env))
    ensures Classed(SystemStep(s, env))
  {
    hide C.Step, Signals, UnitStep, CsrStep, Sample, InterruptCause, CauseOf;
    SampleReply(s.trap.csr, s.unit.issuing, s.unit.isTimer, Signals(s, env).reply);
    CoreFollows(s, env);
    CoreReplies(s, env);
    UnitNext(s.unit, env.lines, s.trap.eipReply, env.bus);
    if s.core.phase == C.INTERRUPT { CsrTrap(s.trap.csr, s.trap.code, Signals(s, env), env.csr); }
    if s.trap.state == ISSUE { CodeIsClass(s.trap.external, s.trap.timer); }
  }

  lemma StepKeeps(s: System, env: Env)
    requires Inv(s)
    ensures Inv(SystemStep(s, env))
  {
    hide PhaseInv, HandshakeInv, SystemStep, Classed, Balanced;
    PhaseKept(s, env);
    HandshakeKept(s, env);
    BalanceKept(s, env);
    ClassesKept(s, env);
  }

  // ---------------------------------------------------------------- runs

  function After(s: System, envs: seq<Env>): System {
    if envs == [] then s else SystemStep(After(s, envs[..|envs| - 1]), envs[|envs| - 1])
  }

  /** Out of reset: nothing requested, nothing seen. */
  predicate Fresh(s: System) {
    s.unit == UnitReset && s.trap.state == IDLE && !s.trap.interrupt && !s.trap.eipReply
    && s.trap.csr == Csrs(0x80, 0, 0, 0, 0, 0)
    && !s.trap.seen.reply && !s.trap.seen.pending && !s.trap.seen.eip
    && s.core.phase == C.IF && s.core.phaseReturn == C.IF
    && s.issued == [] && s.replies == 0 && s.causes == []
  }

  lemma FreshIsInv(s: System)
    requires Fresh(s)
    ensures Inv(s)
  {
  }

  lemma {:induction false} RunKeeps(s: System, envs: seq<Env>)
    requires Inv(s)
    ensures Inv(After(s, envs))
  {
    hide Inv, SystemStep;
    if envs != [] {
      RunKeeps(s, envs[..|envs| - 1]);
      StepKeeps(After(s, envs[..|envs| - 1]), envs[|envs| - 1]);
    }
  }

  /** Main result: whatever the devices, the memory and the software do, every request issued gets one reply
      and one interrupt trap, in order, none skipped and none taken twice; and each trap's cause is that of its
      own request. */
  lemma OneTrapPerRequest(s: System, envs: seq<Env>)
    requires Fresh(s)
    ensures var u := After(s, envs);
            |u.causes| <= u.replies <= |u.causes| + 1 && u.replies <= |u.issued| <= u.replies + 1
            && forall i :: 0 <= i < |u.causes| ==> u.causes[i] == CauseOf(u.issued[i])
  {
    hide After, PhaseInv, HandshakeInv, CauseOf;
    FreshIsInv(s);
    RunKeeps(s, envs);
  }

  // ---------------------------------------------------------------- trap entry and return

  /** An interrupt trap saves the interrupted pc and status and records the cause of the oldest request. */
  lemma TrapSaves(s: System, env: Env)
    requires Inv(s) && s.core.phase == C.INTERRUPT
    ensures |s.causes| < |s.issued|
    ensures var v := SystemStep(s, env).trap.csr;
            v.mepc == s.core.oldpc && v.mcause == CauseOf(s.issued[|s.causes|])
            && v.mstatus == Entered(s.trap.csr.mstatus)
  {
    hide C.Step, Signals, UnitStep, CsrStep, InterruptCause, CauseOf;
    CoreReplies(s, env);
    CsrTrap(s.trap.csr, s.trap.code, Signals(s, env), env.csr);
  }

  /** A trap turns interrupts off. */
  lemma EnteredIsOff(m: Word)
    ensures !IsSet(Entered(m), MIE_BIT)
  {
  }

  /** Returning turns them on again if they were on. */
  lemma ReturnRestoresEnable(m: Word)
    ensures IsSet(Left(Entered(m)), MIE_BIT) == IsSet(m, MIE_BIT)
  {
  }

  /** The status but for the enable bit and its saved copy. */
  function OtherBits(m: Word): Word { m & 0xffff_ff77 }

  lemma TrapAndReturnKeepRest(m: Word)
    ensures OtherBits(Left(Entered(m))) == OtherBits(m)
  {
  }

  // ---------------------------------------------------------------- from an interrupt to its return

  /** A clock of the handler: no exception and no return, the saved pc not written, and the status only with the
      bits it has. */
  predicate HandlerClock(s: System, env: Env) {
    s.core.phase != C.EXCEPTION && s.core.phase != C.MRET
    && (Signals(s, env).we ==>
          env.csr.a != 0x341
          && (env.csr.a == 0x300 ==> Masked(s.trap.csr.mstatus, env.csr.d, 0xffff_ff77) == s.trap.csr.mstatus))
  }

  /** The clock of an interrupt trap followed by clocks of its handler. */
  predicate HandlerRun(s: System, envs: seq<Env>) {
    envs != []
    && (|envs| > 1 ==>
          HandlerRun(s, envs[..|envs| - 1]) && HandlerClock(After(s, envs[..|envs| - 1]), envs[|envs| - 1]))
  }

  /** n clocks after the trap clock of s: pc and status are where the trap put them, the one-clock-late copy of
      the pc has caught up, and no further interrupt can come. */
  predicate InHandler(s: System, t: System, n: nat)
    requires |s.causes| < |s.issued|
  {
    t.trap.csr.mepc == s.core.oldpc && t.trap.csr.mstatus == Entered(s.trap.csr.mstatus)
    && (n == 1 ==> t.core.phase == C.IF && t.trap.state == REPLY && t.trap.seen.reply)
    && (n > 1 ==>
          t.trap.seen.mepc == s.core.oldpc && !t.trap.seen.pending && (t.trap.state == END || t.trap.state == IDLE))
    && t.core.phase != C.INTERRUPT && t.causes == s.causes + [CauseOf(s.issued[|s.causes|])]
  }

  /** What a clock samples of the CSRs. */
  lemma Sampled(r: Csrs, eip: bool, isTimer: bool, reply: bool)
    ensures var v := Sample(r, eip, isTimer, reply);
            v.mepc == r.mepc && v.reply == reply && (!IsSet(r.mstatus, MIE_BIT) ==> !v.pending)
  {
    hide IsSet;
  }

  lemma TrapEntersHandler(s: System, env: Env)
    requires Inv(s) && s.core.phase == C.INTERRUPT
    ensures |s.causes| < |s.issued| && InHandler(s, SystemStep(s, env), 1)
  {
    hide C.Step, Signals, UnitStep, CsrStep, Sample, CauseOf, Entered, CountInv, HandshakeInv;
    TrapSaves(s, env);
    CoreFollows(s, env);
    CoreReplies(s, env);
    Sampled(s.trap.csr, s.unit.issuing, s.unit.isTimer, Signals(s, env).reply);
  }

  /** Only a trap enters and only a return leaves. */
  lemma NoTrapSignals(s: System, env: Env)
    requires s.core.phase != C.INTERRUPT && s.core.phase != C.EXCEPTION && s.core.phase != C.MRET
    ensures !Signals(s, env).enter && !Signals(s, env).leave
  {
    hide C.Opcode, C.PrivCsr, C.IsRv32m, C.StoreUnaligned, C.Bit, C.InstSrai;
  }

  /** The CSRs a handler clock leaves alone. */
  lemma HandlerCsrs(s: System, env: Env)
    requires HandlerClock(s, env) && s.core.phase != C.INTERRUPT
    ensures var v := CsrStep(s.trap.csr, s.trap.code, Signals(s, env), env.csr);
            v.mepc == s.trap.csr.mepc && v.mstatus == s.trap.csr.mstatus
  {
    hide Signals, Masked, Entered, Left, InterruptCause, Written;
    NoTrapSignals(s, env);
  }

  lemma StaysInHandler(s: System, t: System, env: Env, n: nat)
    requires Inv(t) && n >= 1 && |s.causes| < |s.issued| && InHandler(s, t, n) && HandlerClock(t, env)
    ensures InHandler(s, SystemStep(t, env), n + 1)
  {
    hide C.Step, Signals, UnitStep, CsrStep, Sample, CauseOf, Entered, IsSet, HandlerClock, CountInv, HandshakeInv,
         CoreInputs, PendingNow, InterruptCause;
    HandlerCsrs(t, env);
    CoreFollows(t, env);
    EnteredIsOff(s.trap.csr.mstatus);
    Sampled(t.trap.csr, t.unit.issuing, t.unit.isTimer, Signals(t, env).reply);
  }

  lemma {:induction false} HandlerRunKeeps(s: System, envs: seq<Env>)
    requires Inv(s) && s.core.phase == C.INTERRUPT && HandlerRun(s, envs)
    ensures |s.causes| < |s.issued| && InHandler(s, After(s, envs), |envs|)
  {
    hide Inv, SystemStep, InHandler, HandlerClock;
    var before := envs[..|envs| - 1];
    TrapHasRequest(s);
    if |envs| == 1 {
      assert before == [];
      TrapEntersHandler(s, envs[0]);
    } else {
      HandlerRunKeeps(s, before);
      RunKeeps(s, before);
      StaysInHandler(s, After(s, before), envs[|envs| - 1], |before|);
    }
  }

  lemma TrapHasRequest(s: System)
    requires Inv(s) && s.core.phase == C.INTERRUPT
    ensures |s.causes| < |s.issued|
  {
  }

  /** A return loads the pc from the trap unit and goes to fetch; nothing else in that clock writes a CSR. */
  lemma CoreReturns(s: System, env: Env)
    requires s.core.phase == C.MRET
    ensures var u, c := C.Step(s.core, CoreInputs(s, env)), Signals(s, env);
            u.phase == C.IF && u.pc == s.trap.seen.mepc && c.leave && !c.enter && !c.we
            && CsrStep(s.trap.csr, s.trap.code, c, env.csr).mstatus == Left(s.trap.csr.mstatus)
  {
    hide Left, Entered, Masked, C.Alu, C.Swap, C.MemWriteData, C.McauseNext, C.AluIn1, C.AluIn2, C.RegfileNext, Get,
         Rs1, Rs2, Plus;
  }

  /** Main result: whatever the handler does, short of writing the saved pc or status and of raising an exception,
      no second interrupt is taken before it returns; and when it does return, the core is at a fetch of the
      interrupted instruction with the status as it was, the saved enable bit aside. */
  lemma InterruptReturns(s: System, envs: seq<Env>, env: Env)
    requires Inv(s) && s.core.phase == C.INTERRUPT && HandlerRun(s, envs) && After(s, envs).core.phase == C.MRET
    ensures var t := After(s, envs);
            var u, m := SystemStep(t, env), s.trap.csr.mstatus;
            |s.causes| < |s.issued| && t.causes == u.causes == s.causes + [CauseOf(s.issued[|s.causes|])]
            && u.core.phase == C.IF && u.core.pc == s.core.oldpc
            && IsSet(u.trap.csr.mstatus, MIE_BIT) == IsSet(m, MIE_BIT)
            && OtherBits(u.trap.csr.mstatus) == OtherBits(m)
  {
    hide C.Step, Signals, UnitStep, CsrStep, Sample, CauseOf, Entered, Left, IsSet, OtherBits, PhaseInv,
         HandshakeInv, CountInv, After, HandlerClock;
    TrapHasRequest(s);
    HandlerRunKeeps(s, envs);
    CoreReturns(After(s, envs), env);
    ReturnRestoresEnable(s.trap.csr.mstatus);
    TrapAndReturnKeepRest(s.trap.csr.mstatus);
  }
}
