/** Core, multiply/divide unit, cache and burst memory wired together: the whole machine is the ISA. */
module Machine {
  import opened Wrappers
  import opened Isa
  import opened Core
  import opened CoreDecode
  import opened CoreMemory
  import opened CoreRefinement
  import Bits
  import W = Words
  import M = Rv32m
  import K = Cache
  import L = CacheRefinement

  // ---------------------------------------------------------------- wiring

  function TagBits(a: Word): Word { a >> 15 }
  function IndexBits(a: Word): Word { (a >> 7) & 0xff }
  function OffsetBits(a: Word): Word { (a >> 2) & 0x1f }

  /** Cutting a bus address into tag, line index and word offset. */
  function Split(a: Word): K.Addr {
    FieldRanges(a);
    K.Addr(K.LineAddr(U(TagBits(a)), U(IndexBits(a))), U(OffsetBits(a)))
  }

  lemma FieldRanges(a: Word)
    ensures U(IndexBits(a)) < 256
    ensures U(OffsetBits(a)) < 32
  {
    SmallIndex(IndexBits(a));
    SmallOffset(OffsetBits(a));
  }

  lemma SmallIndex(x: Word)
    requires x <= 0xff
    ensures U(x) < 256
  {
  }

  lemma SmallOffset(x: Word)
    requires x <= 0x1f
    ensures U(x) < 32
  {
  }

  lemma FieldsRebuild(a: Word)
    ensures Align(a) == (TagBits(a) << 15) | (IndexBits(a) << 7) | (OffsetBits(a) << 2)
  {
  }

  lemma TagOfAligned(a: Word)
    ensures TagBits(a) == TagBits(Align(a))
  {
  }

  lemma IndexOfAligned(a: Word)
    ensures IndexBits(a) == IndexBits(Align(a))
  {
  }

  lemma OffsetOfAligned(a: Word)
    ensures OffsetBits(a) == OffsetBits(Align(a))
  {
  }

  /** The cut loses only the two byte bits. */
  lemma SplitIsAlign(a: Word, b: Word)
    ensures Split(a) == Split(b) <==> Align(a) == Align(b)
  {
    hide U, Align, TagBits, IndexBits, OffsetBits;
    FieldRanges(a);
    FieldRanges(b);
    Bits.EqualReadings(TagBits(a), TagBits(b));
    Bits.EqualReadings(IndexBits(a), IndexBits(b));
    Bits.EqualReadings(OffsetBits(a), OffsetBits(b));
    FieldsRebuild(a);
    FieldsRebuild(b);
    TagOfAligned(a);
    TagOfAligned(b);
    IndexOfAligned(a);
    IndexOfAligned(b);
    OffsetOfAligned(a);
    OffsetOfAligned(b);
  }

  /** The cache model's memory as the bus sees it. */
  function WordsOf(flat: L.Memory): WordMem { (a: Word) => flat[Split(a)] }

  function FnCode(fn: bv3): M.Op { fn as int }

  /** The unit's integer words as the core's bit vectors. */
  function ToWord(x: W.Word): Word { From(x) }

  /** Multiplication and division as the ISA defines them. */
  function MulDivResult(fn: bv3, a: Word, b: Word): Word { ToWord(M.Required(FnCode(fn), U(a), U(b))) }

  function IsaMulDiv(): MulDivFn {
    (fn: bv3, a: Word, b: Word) => MulDivResult(fn, a, b)
  }

  /** Multiplication and division as the unit does them. */
  function UnitResult(fn: bv3, a: Word, b: Word): Word { ToWord(M.Delivered(FnCode(fn), U(a), U(b))) }

  function UnitMulDiv(): MulDivFn {
    (fn: bv3, a: Word, b: Word) => UnitResult(fn, a, b)
  }

  /** `ops`, `before` and `since` record the last start of the unit: operands, the unit's registers before it,
      and the clocks since; `served`, `lastA` and `lastRead` record the last request on
      the bus: whether it was answered, its address, and whether it was a read whose address is still held.
      Nothing is computed from them. */
  datatype Machine = Machine(core: Regs, unit: M.Regs, mem: L.System,
                             ops: MulUnit, before: M.Regs, since: nat,
                             served: bool, lastA: Word, lastRead: bool)

  /** What the outside chooses in a clock: the burst memory's move and bus, and the trap unit's outputs. */
  datatype Env = Env(act: L.Act, noise: Word, interrupt: bool, mtvec: Word, mepc: Word, csrSpo: Word)

  function StimulusOf(m: Machine, env: Env): L.Stimulus {
    var out := Bus(m.core);
    L.Stimulus(Split(out.a), out.d, out.we, out.rd, env.act, env.noise)
  }

  predicate ReadyNow(m: Machine) { !Bus(m.core).we && !Bus(m.core).rd && m.mem.cache.state == K.IDLE }

  function CoreInputs(m: Machine, env: Env): Inputs {
    Inputs(m.mem.cache.spo, ReadyNow(m), m.unit.finish, ToWord(m.unit.r),
           env.interrupt, env.mtvec, env.mepc, env.csrSpo)
  }

  function MachineStep(m: Machine, env: Env): Machine
    requires m.mem.cache.Shaped()
  {
    var inp, out := CoreInputs(m, env), Bus(m.core);
    var c := ControlOf(m.core, inp.ready);
    var in1, in2, fn := AluIn1(m.core, c), AluIn2(m.core, c, inp), Funct3(m.core.instruction);
    Machine(Step(m.core, inp),
            M.Step(m.unit, c.mStart, U(in1), U(in2), FnCode(fn)),
            L.SystemStep(m.mem, StimulusOf(m, env)),
            if c.mStart then MulUnit(fn, in1, in2) else m.ops,
            if c.mStart then m.unit else m.before,
            if c.mStart then 0 else m.since + 1,
            if out.rd || out.we then ReadyNow(m) else m.served || ReadyNow(m),
            if out.rd || out.we then out.a else m.lastA,
            if out.rd || out.we then out.rd && !out.we else m.lastRead && out.a == m.lastA)
  }

  /** The ready line of the cache model is the one used here. */
  lemma ReadyIsCacheReady(m: Machine, env: Env)
    ensures ReadyNow(m) == K.Ready(m.mem.cache, L.InputOf(m.mem, StimulusOf(m, env)))
  {
    hide Bus, Split;
  }

  // ---------------------------------------------------------------- abstraction

  /** The machine as the core's refinement proof sees it. */
  function Abstract(m: Machine): System {
    System(m.core, Device(WordsOf(m.mem.flat), m.served, m.lastA, m.lastRead), m.ops)
  }

  function ChoiceOf(m: Machine, env: Env): Choice {
    Choice(ReadyNow(m), m.mem.cache.spo, m.unit.finish && m.core.phase == RV32M_WAIT, ToWord(m.unit.r),
           env.interrupt, env.mtvec, env.mepc, env.csrSpo)
  }

  /** The unit after `since` clocks of the operation recorded in `ops`. */
  function Operation(m: Machine): M.Regs {
    M.Run(M.Step(m.before, true, U(m.ops.a), U(m.ops.b), FnCode(m.ops.fn)), m.since)
  }

  /** The unit has been running undisturbed since its last start, and has finished only if it is due. */
  predicate UnitRunning(m: Machine) {
    var due := M.Latency(FnCode(m.ops.fn)) + 1;
    m.unit == Operation(m) && m.since <= due && (m.since == due ==> m.unit.finish)
  }

  ghost predicate Wired(m: Machine) {
    m.mem.cache.Shaped() && L.Inv(m.mem) && BusDiscipline(Abstract(m))
    && (m.mem.cache.state != K.IDLE ==> !m.served && m.mem.cache.hostA == Split(m.lastA))
    && (m.lastRead ==> m.mem.reading == Some(Split(m.lastA)))
    && (m.core.phase == RV32M_WAIT ==> UnitRunning(m))
  }

  ghost predicate MachineInv(m: Machine, s: Arch) {
    Wired(m) && Inv(Abstract(m), s, UnitMulDiv())
  }

  // ---------------------------------------------------------------- the memory side

  /** State and latched address of the cache from one clock to the next. */
  lemma CacheStateNext(s: L.System, st: L.Stimulus)
    requires L.Inv(s)
    ensures var u := L.SystemStep(s, st).cache;
            (s.cache.state == K.IDLE && !st.we && !st.rd ==> u.state == K.IDLE)
            && (L.Accepts(s, st) ==> u.hostA == st.a)
            && (s.cache.state != K.IDLE ==> u.hostA == s.cache.hostA)
  {
    hide L.Agrees, L.CleanLinesEqualMemory, L.CopiedUpTo, L.TagsIndexed, L.ReadDelivered, L.LowStep,
         K.TagsNext, K.RamWrite, K.WayD, K.Slot, K.WayHit, K.TagOut;
  }

  /** The machine keeps the cache's obligations: one request at a time, address held until ready. */
  lemma HostIsDisciplined(m: Machine, env: Env)
    requires Wired(m) && L.Permitted(m.mem.low.burst, K.LowWe(m.mem.cache) || K.LowRd(m.mem.cache), env.act)
    ensures L.Allowed(m.mem, StimulusOf(m, env))
    ensures Bus(m.core).rd || Bus(m.core).we ==> L.Accepts(m.mem, StimulusOf(m, env))
  {
    hide Bus, Split, L.Inv, L.Permitted, SystemStep, UnitRunning;
    BusDisciplineKept(Abstract(m), ChoiceOf(m, env), UnitMulDiv());
  }

  /** What the core reads from the cache is what the flat memory promises. */
  lemma BusWordIsPromised(m: Machine)
    requires Wired(m) && Promised(Abstract(m).dev, Bus(m.core), ReadyNow(m))
    ensures m.mem.cache.spo == WordsOf(m.mem.flat)(Align(Bus(m.core).a))
  {
    hide Bus, Split, Align, BusDiscipline, UnitRunning, L.Agrees, L.CleanLinesEqualMemory, L.InStep, L.TagsIndexed;
    var a := Bus(m.core).a;
    AlignAlign(a);
    SplitIsAlign(a, Align(a));
  }

  /** The flat memory after a clock, word by word. */
  lemma WordsNext(m: Machine, env: Env, x: Word)
    requires Wired(m) && L.Allowed(m.mem, StimulusOf(m, env))
    requires Bus(m.core).rd || Bus(m.core).we ==> L.Accepts(m.mem, StimulusOf(m, env))
    ensures WordsOf(L.SystemStep(m.mem, StimulusOf(m, env)).flat)(x)
         == DeviceNext(Abstract(m).dev, Bus(m.core), ReadyNow(m)).words(x)
  {
    hide Bus, Split, Align, L.Inv, L.Allowed, K.Step, L.LowStep, UnitRunning, BusDiscipline;
    SplitIsAlign(x, Bus(m.core).a);
  }

  // ---------------------------------------------------------------- the multiply/divide side

  lemma RunOneMore(u: M.Regs, n: nat)
    ensures M.Run(u, n + 1) == M.Iterate(M.Run(u, n))
  {
    hide M.Iterate;
  }

  lemma UnitKeepsRunning(m: Machine)
    requires UnitRunning(m) && !m.unit.finish
    ensures var t := m.(unit := M.Iterate(m.unit), since := m.since + 1); UnitRunning(t)
  {
    hide M.Iterate, M.Step, M.Run, M.Required, M.Exact, U, FnCode;
    RunOneMore(M.Step(m.before, true, U(m.ops.a), U(m.ops.b), FnCode(m.ops.fn)), m.since);
    M.OperationCorrect(m.before, U(m.ops.a), U(m.ops.b), FnCode(m.ops.fn), m.since + 1);
  }

  /** When the unit finishes in the core's wait, its word is its function of the operands it was started with,
      whatever it held before. */
  lemma UnitDelivers(m: Machine)
    requires m.unit.finish && UnitRunning(m)
    ensures ToWord(m.unit.r) == UnitResult(m.ops.fn, m.ops.a, m.ops.b)
  {
    hide M.Iterate, M.Step, M.Run, M.Required, M.Exact, M.Delivered, From, U, FnCode;
    M.OperationCorrect(m.before, U(m.ops.a), U(m.ops.b), FnCode(m.ops.fn), m.since);
    M.DeliveredIsResult(m.before, U(m.ops.a), U(m.ops.b), FnCode(m.ops.fn), m.since);
  }

  // ---------------------------------------------------------------- one clock of the machine

  /** The refinement relation depends on the memory words one by one. */
  lemma InvPointwise(t: System, u: System, s: Arch, muldiv: MulDivFn)
    requires Inv(t, s, muldiv) && u.core == t.core && u.unit == t.unit
    requires u.dev == t.dev.(words := u.dev.words) && forall x: Word :: u.dev.words(x) == t.dev.words(x)
    ensures Inv(u, s, muldiv)
  {
    hide Plus, Swap, Imm, Opcode, Decode, Get, Align, Exec, Fetch, Taken, Compute, Holds, WbReady, InWait;
    WaitPointwise(t, u, s, muldiv);
  }

  lemma WaitPointwise(t: System, u: System, s: Arch, muldiv: MulDivFn)
    requires u.core == t.core && u.unit == t.unit
    requires u.dev == t.dev.(words := u.dev.words) && forall x: Word :: u.dev.words(x) == t.dev.words(x)
    ensures WbReady(u, s, muldiv) == WbReady(t, s, muldiv) && InWait(u, s, muldiv) == InWait(t, s, muldiv)
  {
    hide Plus, Swap, Imm, Opcode, Decode, Get, Align, Fetch, Taken, Compute, Holds, CsrAsCoded, CsrOperand;
  }

  /** The inputs the core gets are those of its abstraction, but for a unit that finishes unasked. */
  lemma InputsAgree(m: Machine, env: Env, s: Arch)
    requires MachineInv(m, s)
    ensures var x, y := CoreInputs(m, env), InputsOf(Abstract(m), ChoiceOf(m, env), UnitMulDiv());
            x.(mReady := y.mReady) == y && (m.core.phase == RV32M_WAIT ==> x == y)
  {
    hide Wired, Bus, Align, Promised, Inv, ReadyNow, ToWord, UnitResult;
    if Promised(Abstract(m).dev, Bus(m.core), ReadyNow(m)) { BusWordIsPromised(m); }
    if m.core.phase == RV32M_WAIT && m.unit.finish { UnitResultIsRight(m, s); }
  }

  /** The core cannot tell the machine from its abstraction. */
  lemma CoreSeesAbstraction(m: Machine, env: Env, s: Arch)
    requires MachineInv(m, s)
    ensures Step(m.core, CoreInputs(m, env)) == Step(m.core, InputsOf(Abstract(m), ChoiceOf(m, env), UnitMulDiv()))
  {
    hide MachineInv, CoreInputs, InputsOf, Step;
    InputsAgree(m, env, s);
    SameOutsideWait(m.core, CoreInputs(m, env), InputsOf(Abstract(m), ChoiceOf(m, env), UnitMulDiv()));
  }

  lemma UnitResultIsRight(m: Machine, s: Arch)
    requires MachineInv(m, s) && m.core.phase == RV32M_WAIT && m.unit.finish
    ensures ToWord(m.unit.r) == UnitMulDiv()(m.ops.fn, m.ops.a, m.ops.b)
  {
    hide Bus, BusDiscipline, Mirrors, Decode, Exec, Fetch, InWait, WbReady, M.Exact, L.Inv, ToWord, UnitResult;
    UnitDelivers(m);
  }

  lemma ReadyLineUnused(r: Regs, c: Control, x: Inputs, b: bool)
    ensures var y := x.(mReady := b);
            PcNext(r, c, y) == PcNext(r, c, x) && InstructionNext(r, c, y) == InstructionNext(r, c, x)
            && CsrrNext(r, c, y) == CsrrNext(r, c, x) && AluIn2(r, c, y) == AluIn2(r, c, x)
            && (r.phase != RV32M_WAIT ==> NextPhase(r, y) == NextPhase(r, x))
  {
    hide Swap, Imm, Opcode, Plus, ClearBit0, TrapEntry, AfterDecode, IsRv32m, StoreUnaligned;
  }

  /** The unit's ready line matters to the core only while it waits for the unit. */
  lemma SameOutsideWait(r: Regs, x: Inputs, y: Inputs)
    requires x.(mReady := y.mReady) == y && (r.phase == RV32M_WAIT ==> x == y)
    ensures Step(r, x) == Step(r, y)
  {
    hide Swap, Alu, Get, MemWriteData, McauseNext, ControlOf, RegfileNext, AluIn1, AluIn2, Rs1, Rs2,
         MemAddr, PcNext, OldpcNext, InstructionNext, CsrrNext, NextPhase;
    ReadyLineUnused(r, ControlOf(r, x.ready), x, y.mReady);
  }

  /** The machine's clock, seen through the abstraction, is the abstraction's clock, word by word. */
  lemma ClockCommutes(m: Machine, env: Env, s: Arch)
    requires MachineInv(m, s)
    requires L.Permitted(m.mem.low.burst, K.LowWe(m.mem.cache) || K.LowRd(m.mem.cache), env.act)
    ensures var t, u := SystemStep(Abstract(m), ChoiceOf(m, env), UnitMulDiv()), Abstract(MachineStep(m, env));
            u.core == t.core && u.unit == t.unit && u.dev == t.dev.(words := u.dev.words)
            && forall x: Word :: u.dev.words(x) == t.dev.words(x)
  {
    hide Step, Bus, L.Inv, L.SystemStep, L.Permitted, L.Allowed, L.Accepts, K.LowWe, K.LowRd, WordsOf, Inv,
         UnitRunning, BusDiscipline, StimulusOf, M.Step, U, FnCode, ControlOf, AluIn1, AluIn2, UnitNext, InputsOf,
         CoreInputs, SetWord, UnitMulDiv;
    CoreSeesAbstraction(m, env, s);
    HostIsDisciplined(m, env);
    UnitOperandsAgree(m, env);
    forall x: Word
      ensures WordsOf(L.SystemStep(m.mem, StimulusOf(m, env)).flat)(x)
           == DeviceNext(Abstract(m).dev, Bus(m.core), ReadyNow(m)).words(x)
    {
      WordsNext(m, env, x);
    }
  }

  lemma UnitOperandsAgree(m: Machine, env: Env)
    ensures UnitNext(Abstract(m), InputsOf(Abstract(m), ChoiceOf(m, env), UnitMulDiv()))
         == (var c := ControlOf(m.core, CoreInputs(m, env).ready);
             if c.mStart then MulUnit(Funct3(m.core.instruction), AluIn1(m.core, c),
                                      AluIn2(m.core, c, CoreInputs(m, env)))
             else m.ops)
  {
    hide Bus, Promised, WordsOf, ReadyNow, ToWord, UnitResult, ControlOf, Imm;
  }

  /** How the core comes to wait for the unit, and that it starts the unit on the way in and only there. */
  lemma UnitWaitEntered(t: System, ch: Choice, muldiv: MulDivFn)
    requires BusDiscipline(t) && SystemStep(t, ch, muldiv).core.phase == RV32M_WAIT
    ensures t.core.phase == EX || (t.core.phase == RV32M_WAIT && !ch.mReady)
    ensures ControlOf(t.core, ch.ready).mStart <==> t.core.phase == EX
  {
    hide Step, NextPhase, InputsOf, ControlOf, Opcode, DeviceNext, UnitNext;
    StepPhase(t.core, InputsOf(t, ch, muldiv));
    ReadyIsPassedOn(t, ch, muldiv);
    UnitWaitFrom(t.core, InputsOf(t, ch, muldiv));
    OnlyExecuteStarts(t.core, ch.ready);
  }

  /** The core comes to wait for the unit from the execute phase only. */
  lemma UnitWaitFrom(r: Regs, inp: Inputs)
    requires r.phase == MEM_WAIT ==> r.phaseReturn != RV32M_WAIT
    ensures NextPhase(r, inp).0 == RV32M_WAIT ==> r.phase == EX || (r.phase == RV32M_WAIT && !inp.mReady)
  {
    hide Opcode, StoreUnaligned, IsRv32m, AfterDecode;
    AfterDecodePhases(r.instruction, inp.interrupt);
  }

  lemma OnlyExecuteStarts(r: Regs, ready: bool)
    ensures ControlOf(r, ready).mStart <==> r.phase == EX
  {
    hide Opcode, Bit, IsRv32m, StoreUnaligned, InstSrai, PrivCsr;
  }

  lemma UnitKept(m: Machine, env: Env)
    requires Wired(m) && (m.core.phase == EX || (m.core.phase == RV32M_WAIT && !m.unit.finish))
    ensures UnitRunning(MachineStep(m, env))
  {
    hide Step, Bus, L.Inv, L.SystemStep, WordsOf, BusDiscipline, M.Iterate, M.Load, StimulusOf, U, FnCode, ControlOf,
         AluIn1, AluIn2, CoreInputs;
    OnlyExecuteStarts(m.core, CoreInputs(m, env).ready);
    if m.core.phase == RV32M_WAIT { UnitKeepsRunning(m); }
  }

  lemma MemoryKept(m: Machine, env: Env, s: Arch)
    requires MachineInv(m, s)
    requires L.Permitted(m.mem.low.burst, K.LowWe(m.mem.cache) || K.LowRd(m.mem.cache), env.act)
    ensures var u := MachineStep(m, env);
            u.mem.cache.Shaped() && L.Inv(u.mem)
            && (u.mem.cache.state != K.IDLE ==> !u.served && u.mem.cache.hostA == Split(u.lastA))
            && (u.lastRead ==> u.mem.reading == Some(Split(u.lastA)))
  {
    hide Step, Bus, Split, L.Inv, K.Step, L.LowStep, L.Permitted, L.Allowed, K.LowWe, K.LowRd, Inv, M.Step,
         UnitRunning, BusDiscipline, U, FnCode, ControlOf, AluIn1, AluIn2, CoreInputs;
    HostIsDisciplined(m, env);
    L.SystemKeepsInv(m.mem, StimulusOf(m, env));
    CacheStateNext(m.mem, StimulusOf(m, env));
  }

  lemma WiringKept(m: Machine, env: Env, s: Arch)
    requires MachineInv(m, s)
    requires L.Permitted(m.mem.low.burst, K.LowWe(m.mem.cache) || K.LowRd(m.mem.cache), env.act)
    ensures Wired(MachineStep(m, env))
  {
    hide MachineStep, L.Inv, L.Permitted, K.LowWe, K.LowRd, Inv, UnitRunning, Split;
    MemoryKept(m, env, s);
    BusDisciplineKept(Abstract(m), ChoiceOf(m, env), UnitMulDiv());
    ClockCommutes(m, env, s);
    if MachineStep(m, env).core.phase == RV32M_WAIT {
      UnitWaitEntered(Abstract(m), ChoiceOf(m, env), UnitMulDiv());
      UnitKept(m, env);
    }
  }

  /** One clock of the whole machine: still inside the instruction, or one event further on. */
  lemma MachineClockRefines(m: Machine, env: Env, s: Arch)
    requires m.mem.cache.Shaped() && MachineInv(m, s) && Regular(s, UnitMulDiv())
    requires L.Permitted(m.mem.low.burst, K.LowWe(m.mem.cache) || K.LowRd(m.mem.cache), env.act)
    ensures var u := MachineStep(m, env);
            MachineInv(u,
                       if u.core.phase == IF then Apply(s, EventOf(Abstract(m), ChoiceOf(m, env)), UnitMulDiv()) else s)
  {
    hide MachineStep, SystemStep, Wired, L.Permitted, K.LowWe, K.LowRd, Inv, Apply, Regular, EventOf,
         ChoiceOf, WordsOf;
    WiringKept(m, env, s);
    ClockCommutes(m, env, s);
    ClockRefines(Abstract(m), ChoiceOf(m, env), s, UnitMulDiv());
    var t, u := SystemStep(Abstract(m), ChoiceOf(m, env), UnitMulDiv()), MachineStep(m, env);
    InvPointwise(t, Abstract(u),
                 if u.core.phase == IF then Retire(Abstract(m), ChoiceOf(m, env), s, UnitMulDiv()) else s,
                 UnitMulDiv());
  }

  // ---------------------------------------------------------------- runs

  type EnvScript = seq<Env>

  ghost function RunMachine(m: Machine, script: EnvScript): (t: Machine)
    requires m.mem.cache.Shaped()
    ensures t.mem.cache.Shaped()
  {
    if script == [] then m else MachineStep(RunMachine(m, script[..|script| - 1]), script[|script| - 1])
  }

  /** The burst memory keeps its protocol throughout the run. */
  ghost predicate BurstsPermitted(m: Machine, script: EnvScript)
    requires m.mem.cache.Shaped()
  {
    script != [] ==>
      var before := script[..|script| - 1];
      var c := RunMachine(m, before).mem;
      BurstsPermitted(m, before)
      && L.Permitted(c.low.burst, K.LowWe(c.cache) || K.LowRd(c.cache), script[|script| - 1].act)
  }

  /** The events the run retires. */
  ghost function MachineEvents(m: Machine, script: EnvScript): seq<Event>
    requires m.mem.cache.Shaped()
  {
    if script == [] then []
    else
      var before, env := script[..|script| - 1], script[|script| - 1];
      var u := RunMachine(m, before);
      if MachineStep(u, env).core.phase == IF
      then MachineEvents(m, before) + [EventOf(Abstract(u), ChoiceOf(u, env))]
      else MachineEvents(m, before)
  }

  lemma EventsOfPrefix(m: Machine, script: EnvScript)
    requires m.mem.cache.Shaped() && script != []
    ensures MachineEvents(m, script[..|script| - 1]) <= MachineEvents(m, script)
  {
    hide MachineStep, EventOf;
  }

  /** Main result: core, multiply/divide unit, write-back cache and burst memory, run together for any number
      of clocks with any burst timing and any interrupts, are at every moment the ISA after the retired events,
      with multiplication and division as the unit does them. */
  lemma {:induction false} MachineRefines(m: Machine, s: Arch, script: EnvScript)
    requires m.mem.cache.Shaped() && MachineInv(m, s) && BurstsPermitted(m, script)
    requires RegularRun(s, MachineEvents(m, script), UnitMulDiv())
    ensures MachineInv(RunMachine(m, script), IsaRun(s, MachineEvents(m, script), UnitMulDiv()))
  {
    hide MachineStep, MachineInv, L.Permitted, Regular, Apply, EventOf, K.LowWe, K.LowRd, UnitMulDiv;
    if script != [] {
      var before, env := script[..|script| - 1], script[|script| - 1];
      EventsOfPrefix(m, script);
      RegularPrefix(s, MachineEvents(m, before), MachineEvents(m, script), UnitMulDiv());
      MachineRefines(m, s, before);
      var u, a := RunMachine(m, before), IsaRun(s, MachineEvents(m, before), UnitMulDiv());
      MachineClockRefines(u, env, a);
      var events := MachineEvents(m, script);
      if MachineStep(u, env).core.phase == IF {
        assert events[..|events| - 1] == MachineEvents(m, before);
      }
    }
  }

  // ---------------------------------------------------------------- exact divisions

  /** The unit's word is the ISA's on the operands it is exact for. */
  lemma UnitIsExact(fn: bv3, a: Word, b: Word)
    requires M.Exact(FnCode(fn), U(a), U(b))
    ensures UnitMulDiv()(fn, a, b) == IsaMulDiv()(fn, a, b)
  {
    hide FnCode, U, M.Exact, M.Delivered, M.Required, ToWord;
    M.DeliveredIff(FnCode(fn), U(a), U(b));
  }

  /** The unit meets the ISA on the operands of the instruction at pc. */
  predicate ExactAt(s: Arch) {
    match InstrAt(s)
    case MulDiv(fn, _, rs1, rs2) => M.Exact(FnCode(fn), U(Get(s.x, rs1)), U(Get(s.x, rs2)))
    case _ => true
  }

  /** The ISA run stays within modelled, aligned, non-trapping instructions and exact divisions. */
  ghost predicate ExactRun(s: Arch, events: seq<Event>) {
    Regular(IsaRun(s, events, IsaMulDiv()), IsaMulDiv()) && ExactAt(IsaRun(s, events, IsaMulDiv()))
    && (events != [] ==> ExactRun(s, events[..|events| - 1]))
  }

  /** Off the inexact divisions an instruction does with the unit what it does in the ISA. */
  lemma ExactAgrees(s: Arch)
    requires ExactAt(s)
    ensures Exec(s, InstrAt(s), UnitMulDiv()) == Exec(s, InstrAt(s), IsaMulDiv())
    ensures Regular(s, UnitMulDiv()) == Regular(s, IsaMulDiv())
  {
    hide InstrAt, U, FnCode, M.Exact, UnitMulDiv, IsaMulDiv, Plus, ClearBit0, Get, Put, LoadValue, StoreValue, Compute,
         Holds, Aligned;
    match InstrAt(s)
    case MulDiv(fn, _, rs1, rs2) => UnitIsExact(fn, Get(s.x, rs1), Get(s.x, rs2));
    case _ =>
  }

  lemma {:induction false} ExactRunAgrees(s: Arch, events: seq<Event>)
    requires ExactRun(s, events)
    ensures IsaRun(s, events, UnitMulDiv()) == IsaRun(s, events, IsaMulDiv()) && RegularRun(s, events, UnitMulDiv())
  {
    hide Regular, ExactAt, Exec, UnitMulDiv, IsaMulDiv, InstrAt, ExecCsr;
    ExactAgrees(IsaRun(s, events, IsaMulDiv()));
    if events != [] {
      ExactRunAgrees(s, events[..|events| - 1]);
      ExactAgrees(IsaRun(s, events[..|events| - 1], IsaMulDiv()));
    }
  }

  /** Main result: as long as no division is inexact, that is the ISA of the standard. */
  lemma MachineRefinesIsa(m: Machine, s: Arch, script: EnvScript)
    requires m.mem.cache.Shaped() && MachineInv(m, s) && BurstsPermitted(m, script)
    requires ExactRun(s, MachineEvents(m, script))
    ensures MachineInv(RunMachine(m, script), IsaRun(s, MachineEvents(m, script), IsaMulDiv()))
  {
    hide MachineInv, RunMachine, MachineEvents, IsaRun, BurstsPermitted, ExactRun, RegularRun, UnitMulDiv, IsaMulDiv;
    ExactRunAgrees(s, MachineEvents(m, script));
    MachineRefines(m, s, script);
  }

  /** The word at an address where the cache would find it: in a resident line, else in the burst memory. */
  function Found(m: Machine, x: K.Addr): Word
    requires m.mem.cache.Shaped()
  {
    if L.Resident(m.mem.cache, x) then m.mem.cache.ram[K.Slot(x)] else m.mem.low.words[x]
  }

  /** At every fetch the machine's pc and registers are the ISA's, and the bytes of the ISA's memory are those of the
      words found where the cache would find them: in a resident line, else in the burst memory. */
  lemma MachineAtFetch(m: Machine, s: Arch, script: EnvScript, r: RegName)
    requires m.mem.cache.Shaped() && MachineInv(m, s) && BurstsPermitted(m, script)
    requires ExactRun(s, MachineEvents(m, script)) && RunMachine(m, script).core.phase == IF
    ensures var u, isa := RunMachine(m, script), IsaRun(s, MachineEvents(m, script), IsaMulDiv());
            u.core.pc == isa.pc && Get(u.core.x, r) == Get(isa.x, r)
            && Mirrors(WordsOf(u.mem.flat), isa.mem) && forall x: K.Addr :: u.mem.flat[x] == Found(u, x)
  {
    hide RunMachine, IsaRun, MachineEvents, BurstsPermitted, ExactRun, Exec, Decode, Fetch, Split, L.InStep, Mirrors,
         L.CleanLinesEqualMemory, L.ReadDelivered, UnitRunning, UnitMulDiv, IsaMulDiv;
    MachineRefinesIsa(m, s, script);
  }

  /** A machine just out of reset, its cache swept, is in the relation with the ISA state its memory holds. */
  lemma ResetEstablishesMachine(m: Machine, s: Arch)
    requires m.mem.cache.Shaped() && L.Inv(m.mem) && m.mem.cache.state == K.IDLE
    requires m.core.phase == IF && m.served && !m.lastRead
    requires s.pc == m.core.pc && s.x == m.core.x && Mirrors(WordsOf(m.mem.flat), s.mem)
    ensures MachineInv(m, s)
  {
    hide L.Inv, Exec, Decode, Fetch;
  }

  /** So every machine starts in the relation, whatever its registers, tags and memory held: after a reset and
      the sweep of the tags, with the core at a fetch, it is the ISA state whose memory is the burst memory. */
  lemma MachineFromReset(core: Regs, unit: M.Regs, ops: MulUnit, r: K.Regs, resetInp: K.Input, inps: seq<K.Input>,
                         words: L.Memory, a: Word)
    requires core.phase == IF && r.Shaped() && resetInp.rst && |inps| == 257
    requires forall k :: 0 <= k < |inps| ==> !inps[k].rst && !inps[k].Request()
    ensures MachineInv(Machine(core, unit, L.System(L.Sweep(r, resetInp, inps), L.Low(words, L.Free), words, None),
                               ops, unit, 0, true, a, false),
                       Arch(core.pc, core.x, (b: Word) => ByteAt(WordsOf(words), b)))
  {
    hide L.Inv, L.Sweep, Exec, Decode, Fetch, MachineInv, ByteAt, WordsOf;
    L.ResetEstablishesInv(r, resetInp, inps, words);
    var m := Machine(core, unit, L.System(L.Sweep(r, resetInp, inps), L.Low(words, L.Free), words, None),
                     ops, unit, 0, true, a, false);
    ResetEstablishesMachine(m, Arch(core.pc, core.x, (b: Word) => ByteAt(WordsOf(words), b)));
  }
}
