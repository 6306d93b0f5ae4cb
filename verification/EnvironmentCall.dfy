/** Where an environment call comes back to: core, trap unit and kernel together. */
module EnvironmentCall {
  import opened Isa
  import Bits
  import C = Core
  import CoreDecode
  import CoreMemory
  import CoreRefinement
  import Interrupts
  import Kernel
  import KernelInvariant
  import KernelRuns

  /** In the exception clock of an environment call the trap unit records the address after the call. */
  lemma CallIsRecordedBehind(t: CoreRefinement.System, s: Arch, muldiv: MulDivFn, u: Interrupts.System,
                             env: Interrupts.Env)
    requires CoreRefinement.Inv(t, s, muldiv) && t.core.phase == C.EXCEPTION && u.core == t.core
    ensures Interrupts.SystemStep(u, env).trap.csr.mepc == Plus(s.pc, 4)
    ensures Decode(CoreRefinement.Word0(s)) == Ecall || Decode(CoreRefinement.Word0(s)) == Ebreak
  {
    hide Decode, Exec, Fetch, C.Step, Interrupts.UnitStep, Interrupts.Sample, Interrupts.MstatusNext,
         Interrupts.McauseNext, Interrupts.Written, Plus, CoreMemory.Mirrors;
  }

  lemma PlusFourTwice(pc: Word)
    ensures Plus(Plus(pc, 4), 4) == Plus(pc, 8)
  {
    hide U, Plus;
    Steps();
    Bits.PlusIsSum(pc, 4);
    Bits.PlusIsSum(Plus(pc, 4), 4);
    Bits.PlusIsSum(pc, 8);
    Bits.EqualReadings(Plus(Plus(pc, 4), 4), Plus(pc, 8));
  }

  lemma Steps()
    ensures U(4) == 4 && U(8) == 8
  {
  }

  /** What a decoded ECALL or EBREAK leaves in mcause two clocks later: 11 for a call from machine mode, 3 for a
      breakpoint, without the interrupt bit. */
  lemma CallCause(u: Interrupts.System, env: Interrupts.Env, next: Interrupts.Env)
    requires u.core.phase == C.ID_RF && !u.trap.interrupt
    requires Decode(u.core.instruction) == Ecall || Decode(u.core.instruction) == Ebreak
    ensures var v := Interrupts.SystemStep(u, env);
            v.core.phase == C.EXCEPTION
            && Interrupts.SystemStep(v, next).trap.csr.mcause == if Decode(u.core.instruction) == Ecall then 11 else 3
  {
    hide Decode, C.Alu, C.Swap, C.PcNext, C.OldpcNext, C.CsrrNext, C.RegfileNext, C.MemAddr, C.MemWriteData, C.AluIn1,
         C.AluIn2, Interrupts.UnitStep, Interrupts.Sample, Interrupts.MstatusNext, Interrupts.MepcNext,
         Interrupts.Written, Plus, Get, Rs1, Rs2;
    CoreDecode.DecodeByOpcode(u.core.instruction);
    CoreRefinement.DecodeDispatch(u.core.instruction);
    CoreRefinement.SystemExclusive(u.core.instruction);
  }

  /** Main result: whenever a process resumes after an environment call at s.pc, whatever ran in between, it does so
      with its registers and at s.pc + 8: the core hands over the address after the call, and the handler steps on
      from there once more, so that the instruction behind the call is passed over. */
  lemma CallResumesEightOn(t: CoreRefinement.System, s: Arch, muldiv: MulDivFn,
                           u: Interrupts.System, env: Interrupts.Env,
                           k: Kernel.Kernel, idle: int, es: KernelRuns.Run, p: int)
    requires CoreRefinement.Inv(t, s, muldiv) && t.core.phase == C.EXCEPTION && u.core == t.core
    requires k.mepc == Interrupts.SystemStep(u, env).trap.csr.mepc && |es| >= 2 && es[0].Call?
    requires KernelRuns.Safe(k, idle) && KernelRuns.PermittedRun(k, idle, es) && !k.starting && Kernel.Slot(p)
    requires k.running == p && KernelRuns.After(k, es).running == p
    requires forall i :: 1 <= i < |es| ==> KernelRuns.After(k, es[..i]).running != p
    ensures KernelRuns.After(k, es).mepc == Plus(s.pc, 8) && KernelRuns.After(k, es).frame == k.frame
  {
    hide CoreRefinement.Inv, Interrupts.SystemStep, KernelRuns.Safe, KernelRuns.PermittedRun, KernelRuns.After, Plus;
    CallIsRecordedBehind(t, s, muldiv, u, env);
    KernelRuns.ResumesWhereItLeft(k, idle, es, p);
    PlusFourTwice(s.pc);
  }
}
