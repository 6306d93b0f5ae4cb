/** How long the whole machine takes for an instruction. */
module MachineProgress {
  import opened Wrappers
  import opened Isa
  import opened Core
  import opened CoreRefinement
  import opened Machine
  import M = Rv32m
  import K = Cache
  import L = CacheRefinement

  /** Memory accesses still to be started before the next fetch. */
  function AccessesLeft(r: Regs): nat {
    match r.phase
    case IF => 3
    case ID_RF => 2
    case EX => 2
    case MEM => 2
    case EXU => 1
    case MEMU => 1
    case MEM_WAIT => (match r.phaseReturn case ID_RF => 2 case EXU => 1 case _ => 0)
    case _ => 0
  }

  /** What is left of the wait the core is in. */
  function WaitLeft(m: Machine): nat {
    if m.core.phase == MEM_WAIT then L.Work(m.mem)
    else if m.core.phase == RV32M_WAIT && m.since <= M.Latency(FnCode(m.ops.fn)) + 1
    then M.Latency(FnCode(m.ops.fn)) + 1 - m.since
    else 0
  }

  /** How many clocks, stalls of the burst memory not counted, the machine is at most away from the next fetch:
      a phase a clock, and up to 142 clocks for an access. */
  function Effort(m: Machine): nat { Distance(m.core) + 142 * AccessesLeft(m.core) + WaitLeft(m) }

  /** The core waits for an access in which the burst memory makes no move though it could. */
  predicate Stalls(m: Machine, env: Env) { m.core.phase == MEM_WAIT && L.Stalls(m.mem, StimulusOf(m, env)) }

  lemma EffortAtFetch(m: Machine)
    requires m.core.phase == IF
    ensures Effort(m) == 435
  {
  }

  /** The phases of the core from one clock to the next. */
  lemma PhasesGetOn(r: Regs, inp: Inputs)
    requires InOrder(r)
    ensures var (phase, ret) := NextPhase(r, inp);
            var u := r.(phase := phase, phaseReturn := ret);
            if (r.phase == MEM_WAIT && !inp.ready) || (r.phase == RV32M_WAIT && !inp.mReady)
            then phase == r.phase && ret == r.phaseReturn
            else phase == IF
                 || Distance(u) + 142 * AccessesLeft(u)
                    + (if phase == MEM_WAIT then 142 else if phase == RV32M_WAIT then 65 else 0)
                    < Distance(r) + 142 * AccessesLeft(r)
  {
    hide Opcode, StoreUnaligned, IsRv32m, AfterDecode;
    AfterDecodePhases(r.instruction, inp.interrupt);
  }

  lemma NextOf(m: Machine, env: Env)
    requires m.mem.cache.Shaped()
    ensures var u := MachineStep(m, env);
            (u.core.phase, u.core.phaseReturn) == NextPhase(m.core, CoreInputs(m, env))
            && u.mem == L.SystemStep(m.mem, StimulusOf(m, env))
            && CoreInputs(m, env).ready == ReadyNow(m) && CoreInputs(m, env).mReady == m.unit.finish
  {
    hide Plus, From, NextPhase, L.SystemStep, StimulusOf, ToWord, ReadyNow;
    StepPhase(m.core, CoreInputs(m, env));
  }

  /** The unit's count of clocks since its start. */
  lemma SinceNext(m: Machine, env: Env)
    requires m.mem.cache.Shaped() && (m.core.phase == RV32M_WAIT || m.core.phase == EX)
    ensures var u := MachineStep(m, env);
            if m.core.phase == RV32M_WAIT then u.since == m.since + 1 && u.ops == m.ops else u.since == 0
  {
    hide Step, L.SystemStep, M.Step, StimulusOf, AluIn1, AluIn2, U, FnCode, Opcode, Bit, PrivCsr, InstSrai, ToWord,
         ReadyNow;
    StartsUnit(m.core.instruction);
  }

  lemma LatencyIsShort(fn: bv3)
    ensures M.Latency(FnCode(fn)) + 1 <= 65
  {
    hide FnCode;
  }

  /** What the invariant says of the waits. */
  lemma WaitsAreBusy(m: Machine, s: Arch)
    requires m.mem.cache.Shaped() && MachineInv(m, s)
    ensures InOrder(m.core)
    ensures m.core.phase == MEM_WAIT && !ReadyNow(m) ==> m.mem.cache.state != K.IDLE
    ensures m.core.phase == RV32M_WAIT ==>
              m.since <= M.Latency(FnCode(m.ops.fn)) + 1 && (!m.unit.finish ==> m.since <= M.Latency(FnCode(m.ops.fn)))
    ensures L.Inv(m.mem)
  {
    hide L.Inv, Exec, Decode, Fetch, Imm, Get, Plus, FnCode, M.Latency, Operation, CoreMemory.Mirrors, InWait,
         WbReady, MemAddr, MemWriteData, Swap;
  }

  /** In every clock the machine either comes to a fetch, or gets nearer to it, or stays where it is because the
      burst memory stalls. */
  lemma MachineGetsOn(m: Machine, env: Env, s: Arch)
    requires m.mem.cache.Shaped() && MachineInv(m, s)
    requires L.Permitted(m.mem.low.burst, K.LowWe(m.mem.cache) || K.LowRd(m.mem.cache), env.act)
    ensures var u := MachineStep(m, env);
            u.core.phase == IF || Effort(u) < Effort(m) || (Stalls(m, env) && Effort(u) == Effort(m))
  {
    hide MachineStep, MachineInv, NextPhase, L.Inv, L.SystemStep, L.Work, L.Stalls, L.Permitted, K.LowWe, K.LowRd,
         Wired, CoreInputs, StimulusOf, ReadyNow, M.Latency, FnCode, Distance, AccessesLeft, L.Allowed;
    var u, inp := MachineStep(m, env), CoreInputs(m, env);
    NextOf(m, env);
    WaitsAreBusy(m, s);
    PhasesGetOn(m.core, inp);
    AccessGetsOnHere(m, env, s);
    LatencyIsShort(u.ops.fn);
    PhaseOnly(m.core, u.core);
    if m.core.phase == RV32M_WAIT || m.core.phase == EX { SinceNext(m, env); }
    UnitWaitFrom(m.core, inp);
  }

  /** Distance and accesses left depend on the phases alone. */
  lemma PhaseOnly(r: Regs, u: Regs)
    ensures var t := r.(phase := u.phase, phaseReturn := u.phaseReturn);
            Distance(t) == Distance(u) && AccessesLeft(t) == AccessesLeft(u)
    ensures r.phase == u.phase && r.phaseReturn == u.phaseReturn ==>
              Distance(r) == Distance(u) && AccessesLeft(r) == AccessesLeft(u)
  {
  }

  lemma AccessGetsOnHere(m: Machine, env: Env, s: Arch)
    requires m.mem.cache.Shaped() && MachineInv(m, s)
    requires L.Permitted(m.mem.low.burst, K.LowWe(m.mem.cache) || K.LowRd(m.mem.cache), env.act)
    ensures var u := L.SystemStep(m.mem, StimulusOf(m, env));
            L.Work(u) <= 142
            && (m.mem.cache.state != K.IDLE ==>
                  if L.Stalls(m.mem, StimulusOf(m, env)) then L.Work(u) == L.Work(m.mem) else L.Work(u) < L.Work(m.mem))
  {
    hide MachineStep, Inv, NextPhase, L.Inv, L.SystemStep, L.Work, L.Stalls, L.Permitted, K.LowWe, K.LowRd, StimulusOf,
         L.Allowed, UnitRunning, BusDiscipline;
    HostIsDisciplined(m, env);
    L.AccessGetsOn(m.mem, StimulusOf(m, env));
    L.SystemKeepsInv(m.mem, StimulusOf(m, env));
    L.WorkIsBounded(L.SystemStep(m.mem, StimulusOf(m, env)));
  }

  // ---------------------------------------------------------------- one instruction of a run

  /** The clocks of a run in which the burst memory does not stall the core. */
  ghost function Moves(m: Machine, script: EnvScript): nat
    requires m.mem.cache.Shaped()
  {
    if script == [] then 0
    else
      var before, env := script[..|script| - 1], script[|script| - 1];
      Moves(m, before) + if Stalls(RunMachine(m, before), env) then 0 else 1
  }

  /** No clock of the run ends at a fetch. */
  ghost predicate Inside(m: Machine, script: EnvScript)
    requires m.mem.cache.Shaped()
  {
    script != [] ==> Inside(m, script[..|script| - 1]) && RunMachine(m, script).core.phase != IF
  }

  /** Inside an instruction the machine stays in the relation with its state, and every clock counted is one off
      the effort. */
  lemma {:induction false} EffortIsSpent(m: Machine, s: Arch, script: EnvScript)
    requires m.mem.cache.Shaped() && MachineInv(m, s) && Regular(s, UnitMulDiv())
    requires BurstsPermitted(m, script) && Inside(m, script)
    ensures MachineInv(RunMachine(m, script), s)
    ensures Effort(RunMachine(m, script)) + Moves(m, script) <= Effort(m)
  {
    hide MachineStep, MachineInv, Regular, Effort, Stalls, Apply, EventOf, L.Permitted, K.LowWe, K.LowRd;
    if script != [] {
      var before, env := script[..|script| - 1], script[|script| - 1];
      EffortIsSpent(m, s, before);
      MachineClockRefines(RunMachine(m, before), env, s);
      MachineGetsOn(RunMachine(m, before), env, s);
    }
  }

  /** Main result: from a fetch, the next one comes within 435 clocks, those not counted in which the burst memory
      makes no move though it could. The instruction may be any modelled one, or an interrupt may come in its place. */
  lemma InstructionIsShort(m: Machine, s: Arch, script: EnvScript)
    requires m.mem.cache.Shaped() && MachineInv(m, s) && Regular(s, UnitMulDiv())
    requires m.core.phase == IF && BurstsPermitted(m, script)
    requires script != [] && Inside(m, script[..|script| - 1])
    ensures Moves(m, script) <= 435
  {
    hide MachineStep, MachineInv, Regular, Effort, Stalls, Apply, EventOf, L.Permitted, K.LowWe, K.LowRd;
    var before := script[..|script| - 1];
    EffortAtFetch(m);
    EffortIsSpent(m, s, before);
    EffortIsPositive(RunMachine(m, before));
  }

  lemma EffortIsPositive(m: Machine)
    ensures Effort(m) > 0
  {
    hide L.Work, M.Latency, FnCode;
  }
}
