/** An enabled request is served: the interrupt line comes up, and the trap is taken. */
module InterruptProgress {
  import opened Isa
  import opened Bits
  import opened Interrupts
  import C = Core

  // ---------------------------------------------------------------- places of a register

  /** The place of a word that counts p. */
  predicate HasPlace(x: Word, p: int)
    requires p > 0
  {
    U(x) / p % 2 == 1
  }

  /** The unit asks for an interrupt, mstatus lets interrupts in, and mie lets in those of its class. */
  predicate Wanted(s: System) {
    s.unit.issuing && HasPlace(s.trap.csr.mstatus, 8)
    && HasPlace(s.trap.csr.mie, if s.unit.isTimer then 0x80 else 0x800)
  }

  lemma PlaceBits(x: Word)
    ensures IsSet(x, 0x08) <==> Low(ShiftRight(x, 3), 1) != 0
    ensures IsSet(x, 0x80) <==> Low(ShiftRight(x, 7), 1) != 0
    ensures IsSet(x, 0x800) <==> Low(ShiftRight(ShiftRight(x, 10), 1), 1) != 0
  {
  }

  /** A bit is set when its place counts. */
  lemma PlacesAreBits(x: Word)
    ensures IsSet(x, 0x08) <==> HasPlace(x, 8)
    ensures IsSet(x, 0x80) <==> HasPlace(x, 0x80)
    ensures IsSet(x, 0x800) <==> HasPlace(x, 0x800)
  {
    hide IsSet, U, Low, ShiftRight;
    PlaceBits(x);
    SmallWords();
    Cut3(x);
    Cut7(x);
    Cut10(x);
    Cut1(ShiftRight(x, 3));
    Cut1(ShiftRight(x, 7));
    Cut1(ShiftRight(x, 10));
    Cut1(ShiftRight(ShiftRight(x, 10), 1));
    EqualReadings(Low(ShiftRight(x, 3), 1), 0);
    EqualReadings(Low(ShiftRight(x, 7), 1), 0);
    EqualReadings(Low(ShiftRight(ShiftRight(x, 10), 1), 1), 0);
  }

  /** A wanted interrupt is pending. */
  lemma WantedIsPending(s: System)
    requires Wanted(s)
    ensures PendingNow(s.trap.csr, s.unit.issuing, s.unit.isTimer)
  {
    hide IsSet, U;
    PlacesAreBits(s.trap.csr.mstatus);
    PlacesAreBits(s.trap.csr.mie);
  }

  // ---------------------------------------------------------------- the line comes up

  /** n clocks on: trapped, or on the way to the raised line, which is reached after three clocks. */
  predicate Raising(s: System, t: System, n: nat) {
    |t.causes| > |s.causes|
    || (|t.causes| == |s.causes| && t.trap.state == IDLE && n == 0)
    || (|t.causes| == |s.causes| && t.trap.state == IDLE && t.trap.seen.pending && n <= 1)
    || (|t.causes| == |s.causes| && t.trap.state == ISSUE && n <= 2)
    || (|t.causes| == |s.causes| && t.trap.state == REPLY && t.trap.interrupt && !t.trap.seen.reply)
  }

  lemma RaisingGoesOn(s: System, t: System, env: Env, n: nat)
    requires Inv(t) && Raising(s, t, n) && (n == 0 ==> t == s && Wanted(t))
    ensures Raising(s, SystemStep(t, env), n + 1)
  {
    hide C.Step, Signals, UnitStep, CsrStep, PendingNow, Wanted, HandshakeInv, CountInv;
    if n == 0 { WantedIsPending(t); }
    CoreReplies(t, env);
  }

  lemma {:induction false} RunRaises(s: System, envs: seq<Env>)
    requires Inv(s) && s.trap.state == IDLE && Wanted(s)
    ensures Raising(s, After(s, envs), |envs|)
  {
    hide Inv, SystemStep, Wanted, Raising;
    if envs == [] {
      RaisingStarts(s);
    } else {
      RunRaises(s, envs[..|envs| - 1]);
      RunKeeps(s, envs[..|envs| - 1]);
      FirstState(s, envs[..|envs| - 1]);
      RaisingGoesOn(s, After(s, envs[..|envs| - 1]), envs[|envs| - 1], |envs| - 1);
    }
  }

  lemma RaisingStarts(s: System)
    requires s.trap.state == IDLE
    ensures Raising(s, s, 0)
  {
  }

  lemma FirstState(s: System, envs: seq<Env>)
    ensures envs == [] ==> After(s, envs) == s
  {
  }

  /** Main result: an interrupt that is asked for and enabled raises the interrupt line within three clocks, whatever
      happens meanwhile, and the line stays up until the trap is on record. */
  lemma LineComesUp(s: System, envs: seq<Env>)
    requires Inv(s) && s.trap.state == IDLE && Wanted(s) && |envs| >= 3
    ensures After(s, envs).trap.interrupt || |After(s, envs).causes| > |s.causes|
  {
    hide Inv, Wanted, After;
    RunRaises(s, envs);
  }

  // ---------------------------------------------------------------- the trap is taken

  /** Causes once on record stay there. */
  lemma {:induction false} CausesStay(s: System, envs: seq<Env>, k: nat)
    requires k <= |envs|
    ensures After(s, envs[..k]).causes <= After(s, envs).causes
    decreases |envs| - k
  {
    hide SystemStep;
    if k < |envs| {
      CausesStay(s, envs, k + 1);
      OneClock(s, envs, k);
      CausesGrow(After(s, envs[..k]), envs[k]);
    } else {
      assert envs[..k] == envs;
    }
  }

  lemma OneClock(s: System, envs: seq<Env>, k: nat)
    requires k < |envs|
    ensures After(s, envs[..k + 1]) == SystemStep(After(s, envs[..k]), envs[k])
  {
    hide SystemStep;
    assert envs[..k + 1][..k] == envs[..k];
  }

  lemma CausesGrow(s: System, env: Env)
    ensures var u := SystemStep(s, env);
            u.causes == if s.core.phase == C.INTERRUPT then s.causes + [u.trap.csr.mcause] else s.causes
  {
    hide C.Step, TrapStep, UnitStep, Signals;
  }

  /** The request being served is the next to be trapped for. */
  lemma NextToTrap(s: System)
    requires Inv(s) && s.trap.state == IDLE && s.unit.issuing
    ensures |s.issued| == |s.causes| + 1 && s.issued[|s.causes|] == s.unit.isTimer
  {
    hide CauseOf, InterruptCause;
  }

  /** Requests once on record stay there. */
  lemma {:induction false} IssuedStay(s: System, envs: seq<Env>)
    ensures s.issued <= After(s, envs).issued && s.causes <= After(s, envs).causes
  {
    hide SystemStep;
    if envs != [] {
      IssuedStay(s, envs[..|envs| - 1]);
      IssuedGrow(After(s, envs[..|envs| - 1]), envs[|envs| - 1]);
      CausesGrow(After(s, envs[..|envs| - 1]), envs[|envs| - 1]);
    }
  }

  lemma IssuedGrow(s: System, env: Env)
    ensures s.issued <= SystemStep(s, env).issued
  {
    hide C.Step, TrapStep, UnitStep, Signals;
  }

  lemma Causes()
    ensures CauseOf(true) == 0x8000_0007 && CauseOf(false) == 0x8000_000b
  {
  }

  /** Main result: the first decode after those three clocks takes the trap, and what is left in mcause is the
      cause of the request that asked for it: 7 for the timer, 11 for a device, with the interrupt bit. */
  lemma TrapByDecode(s: System, envs: seq<Env>, k: nat)
    requires Inv(s) && s.trap.state == IDLE && Wanted(s) && 3 <= k <= |envs| - 2
    requires After(s, envs[..k]).core.phase == C.ID_RF
    ensures var u := After(s, envs);
            |u.causes| > |s.causes| && u.causes[|s.causes|] == if s.unit.isTimer then 0x8000_0007 else 0x8000_000b
  {
    hide Inv, Wanted, SystemStep, After, CauseOf;
    LineComesUp(s, envs[..k]);
    assert |envs[..k]| == k;
    RunKeeps(s, envs[..k]);
    IssuedStay(s, envs[..k]);
    if After(s, envs[..k]).trap.interrupt { DecodeTraps(After(s, envs[..k]), envs[k], envs[k + 1]); }
    OneClock(s, envs, k);
    OneClock(s, envs, k + 1);
    CausesStay(s, envs, k);
    CausesStay(s, envs, k + 2);
    WantedIssues(s);
    NextToTrap(s);
    IssuedStay(s, envs);
    RunKeeps(s, envs);
    CausesMatch(After(s, envs), |s.causes|);
    Causes();
  }

  lemma WantedIssues(s: System)
    requires Wanted(s)
    ensures s.unit.issuing
  {
  }

  lemma CausesMatch(s: System, i: nat)
    requires Inv(s) && i < |s.causes|
    ensures i < |s.issued| && s.causes[i] == CauseOf(s.issued[i])
  {
    hide PhaseInv, HandshakeInv, CauseOf, InterruptCause;
  }

  /** With the line up a decode goes to the interrupt phase, whose clock records the trap. */
  lemma DecodeTraps(t: System, env: Env, next: Env)
    requires Inv(t) && t.trap.interrupt && t.core.phase == C.ID_RF
    ensures |SystemStep(SystemStep(t, env), next).causes| > |t.causes|
  {
    hide C.Step, TrapStep, UnitStep, Signals, HandshakeInv, CountInv;
    CoreFollows(t, env);
    CausesGrow(SystemStep(t, env), next);
  }

  // ---------------------------------------------------------------- how far decodes are apart

  /** The memory does not answer in the clock of the request, as a ready line that is low while a request is raised
      does not. */
  predicate NoInstantFetch(s: System, envs: seq<Env>) {
    envs != [] ==>
      var before := envs[..|envs| - 1];
      NoInstantFetch(s, before) && (After(s, before).core.phase == C.IF ==> !envs[|envs| - 1].ready)
  }

  predicate Fetching(r: C.Regs) { r.phase == C.MEM_WAIT && r.phaseReturn == C.ID_RF }

  /** A decode follows the wait for a fetch, and that wait follows its request or goes on. */
  lemma BeforeDecode(s: System, env: Env)
    requires s.core.phase == C.IF ==> !env.ready
    ensures var u := SystemStep(s, env).core;
            (u.phase == C.ID_RF ==> s.core.phase == C.MEM_WAIT && s.core.phaseReturn == C.ID_RF)
            && (Fetching(u) ==> s.core.phase != C.ID_RF)
  {
    hide TrapStep, UnitStep, Signals, C.NextPhase, C.Swap, C.Alu, C.PcNext, C.OldpcNext, C.InstructionNext, C.CsrrNext,
         C.RegfileNext, C.McauseNext, C.MemAddr, C.MemWriteData, C.AluIn1, C.AluIn2, C.ControlOf, Get, Rs1, Rs2;
    BeforeDecodePhase(s.core, CoreInputs(s, env));
  }

  lemma BeforeDecodePhase(r: C.Regs, inp: C.Inputs)
    requires r.phase == C.IF ==> !inp.ready
    ensures var (phase, ret) := C.NextPhase(r, inp);
            (phase == C.ID_RF ==> r.phase == C.MEM_WAIT && r.phaseReturn == C.ID_RF)
            && (phase == C.MEM_WAIT && ret == C.ID_RF ==> r.phase != C.ID_RF)
  {
    hide C.Opcode, C.IsRv32m, C.StoreUnaligned, C.PrivWfi, C.PrivMret, C.PrivEbreak, C.PrivEcall, C.PrivSfenceVma;
  }

  lemma {:induction false} NoInstantPrefix(s: System, envs: seq<Env>, k: nat)
    requires NoInstantFetch(s, envs) && k < |envs|
    ensures After(s, envs[..k]).core.phase == C.IF ==> !envs[k].ready
    decreases |envs|
  {
    hide SystemStep, After;
    var before := envs[..|envs| - 1];
    if k < |before| {
      NoInstantPrefix(s, before, k);
      assert before[..k] == envs[..k];
    }
  }

  /** Two decodes are at least three clocks apart. */
  lemma DecodesApart(s: System, envs: seq<Env>, j: nat, k: nat)
    requires NoInstantFetch(s, envs) && j < k <= |envs|
    requires After(s, envs[..j]).core.phase == C.ID_RF && After(s, envs[..k]).core.phase == C.ID_RF
    ensures k >= j + 3
  {
    hide SystemStep, After;
    NoInstantPrefix(s, envs, k - 1);
    OneClock(s, envs, k - 1);
    BeforeDecode(After(s, envs[..k - 1]), envs[k - 1]);
    if k - 1 > j {
      NoInstantPrefix(s, envs, k - 2);
      OneClock(s, envs, k - 2);
      BeforeDecode(After(s, envs[..k - 2]), envs[k - 2]);
    }
  }

  /** So the trap is on record at the second decode at the latest. */
  lemma TrapBySecondDecode(s: System, envs: seq<Env>, j: nat, k: nat)
    requires Inv(s) && s.trap.state == IDLE && Wanted(s) && NoInstantFetch(s, envs) && j < k <= |envs| - 2
    requires After(s, envs[..j]).core.phase == C.ID_RF && After(s, envs[..k]).core.phase == C.ID_RF
    ensures var u := After(s, envs);
            |u.causes| > |s.causes| && u.causes[|s.causes|] == if s.unit.isTimer then 0x8000_0007 else 0x8000_000b
  {
    hide Inv, Wanted, After, NoInstantFetch;
    DecodesApart(s, envs, j, k);
    TrapByDecode(s, envs, k);
  }
}
