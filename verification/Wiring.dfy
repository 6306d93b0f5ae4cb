/** How core, multiply/divide unit, memory and trap units are joined, in terms of the numbers in an instruction. */
module Wiring {
  import opened Isa
  import opened Core
  import opened Machine
  import opened InterruptedRun
  import Bits
  import Encoding
  import TrapRegisters
  import InterruptProgress
  import I = Interrupts
  import K = Cache
  import L = CacheRefinement
  import M = Rv32m
  import W = Words

  // ---------------------------------------------------------------- multiplication and division

  /** What the ISA asks of the unit for the function numbers 0 to 7: the halves of the products, quotients rounded
      towards zero, and remainders. */
  lemma MulDivByNumber(fn: bv3, a: Word, b: Word)
    ensures IsProduct(fn as int, S(a), U(a), S(b), U(b), U(MulDivResult(fn, a, b)))
  {
    hide U, From, S, IsProduct, M.Required;
    Bits.UFrom(M.Required(fn as int, U(a), U(b)));
    RequiredByNumber(fn as int, a, b);
  }

  /** The result r of function m, given the operands as signed and as unsigned numbers. */
  predicate IsProduct(m: int, sa: int, a: int, sb: int, b: int, r: int) {
    if m == 0 then r == (sa * sb) % 0x1_0000_0000
    else if m == 1 then r == ((sa * sb) / 0x1_0000_0000) % 0x1_0000_0000
    else if m == 2 then r == ((sa * b) / 0x1_0000_0000) % 0x1_0000_0000
    else if m == 3 then r == ((a * b) / 0x1_0000_0000) % 0x1_0000_0000
    else if m == 4 then r == if sb == 0 then 0xffff_ffff else M.TruncDiv(sa, sb) % 0x1_0000_0000
    else if m == 5 then r == if b == 0 then 0xffff_ffff else a / b
    else if m == 6 then r == if sb == 0 then a else M.TruncRem(sa, sb) % 0x1_0000_0000
    else r == if b == 0 then a else a % b
  }

  lemma RequiredByNumber(m: M.Op, a: Word, b: Word)
    ensures IsProduct(m, S(a), U(a), S(b), U(b), M.Required(m, U(a), U(b)))
  {
    hide M.TruncDiv, M.TruncRem, U;
  }

  // ---------------------------------------------------------------- CSR writes

  /** An instruction that writes a CSR writes the one its upper twelve bits number, with what the ALU computed. */
  lemma CsrInstructionWrites(w: Whole, e: World)
    requires Joined(w) && ControlOf(w.m.core, ReadyNow(w.m)).csrWe
    ensures TrapRegisters.Takes(WholeStep(w, e).t.trap.csr, w.t.trap.csr, U(w.m.core.instruction) / 0x10_0000,
                                w.m.core.aluOut)
  {
    hide U, TrapRegisters.Takes, I.CsrStep, MachineStep, ControlOf, ReadyNow, I.UnitStep, I.Sample, Step;
    Encoding.ShiftsDivide(w.m.core.instruction);
    var t, env := w.t, TrapEnv(w, e);
    TrapRegisters.CsrWriteTakes(t.trap.csr, t.trap.code, I.Signals(t, env), env.csr);
  }

  // ---------------------------------------------------------------- the interrupt line

  lemma NotReadyAtFetch(w: Whole, e: World)
    requires Joined(w) && w.t.core.phase == IF
    ensures !TrapEnv(w, e).ready
  {
    hide MachineEnv, Split, ToWord, U, Swap, Get, MemWriteData;
  }

  /** The cache never answers a fetch in the clock of its request. */
  lemma {:induction false} NeverInstant(w: Whole, es: Worlds)
    requires Joined(w)
    ensures InterruptProgress.NoInstantFetch(w.t, TrapEnvs(w, es))
  {
    hide TrapEnv, TrapEnvs, WholeRun, I.After;
    if es == [] {
      assert TrapEnvs(w, es) == [];
    } else {
      var before := es[..|es| - 1];
      EnvsSplit(w, es);
      RunParts(w, before);
      NeverInstant(w, before);
      if WholeRun(w, before).t.core.phase == IF { NotReadyAtFetch(WholeRun(w, before), es[|es| - 1]); }
    }
  }

  lemma {:induction false} EnvsPrefix(w: Whole, es: Worlds, j: nat)
    requires Joined(w) && j <= |es|
    ensures TrapEnvs(w, es)[..j] == TrapEnvs(w, es[..j])
    decreases |es|
  {
    hide TrapEnv, TrapEnvs, WholeRun;
    if j == |es| {
      assert es[..j] == es;
    } else {
      EnvsSplit(w, es);
      var before := es[..|es| - 1];
      EnvsPrefix(w, before, j);
      assert before[..j] == es[..j] && TrapEnvs(w, es)[..|es| - 1][..j] == TrapEnvs(w, es)[..j];
    }
  }

  /** Main result: in the whole machine, when the interrupt unit issues a request that mstatus and mie let through
      and the trap unit is idle, the trap is on record, with the request's cause, by the second decode, whatever the
      burst memory and the devices do meanwhile. */
  lemma InterruptIsTaken(w: Whole, es: Worlds, j: nat, k: nat)
    requires Joined(w) && I.Inv(w.t) && w.t.trap.state == I.IDLE && InterruptProgress.Wanted(w.t) && j < k <= |es| - 2
    requires WholeRun(w, es[..j]).m.core.phase == ID_RF && WholeRun(w, es[..k]).m.core.phase == ID_RF
    ensures var u := WholeRun(w, es).t;
            |u.causes| > |w.t.causes| && u.causes[|w.t.causes|] == if w.t.unit.isTimer then 0x8000_0007 else 0x8000_000b
  {
    hide TrapEnv, TrapEnvs, WholeRun, I.Inv, I.After, InterruptProgress.Wanted, InterruptProgress.NoInstantFetch;
    NeverInstant(w, es);
    RunParts(w, es);
    RunParts(w, es[..j]);
    RunParts(w, es[..k]);
    EnvsPrefix(w, es, j);
    EnvsPrefix(w, es, k);
    InterruptProgress.TrapBySecondDecode(w.t, TrapEnvs(w, es), j, k);
  }
}
