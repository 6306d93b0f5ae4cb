/** The whole machine with its trap and interrupt units: an interrupt whose handler puts back what it used leaves no
    trace in the interrupted run. */
module InterruptedRun {
  import opened Isa
  import opened Core
  import opened CoreMemory
  import opened CoreRefinement
  import opened Machine
  import I = Interrupts
  import K = Cache
  import L = CacheRefinement

  // ---------------------------------------------------------------- the units together

  /** Core, memory and multiply/divide unit, and core, trap unit and interrupt unit: the core is the same one. */
  datatype Whole = Whole(m: Machine, t: I.System)

  ghost predicate Joined(w: Whole) { w.m.core == w.t.core && w.m.mem.cache.Shaped() }

  /** What is outside: the burst memory, the device lines, writes to the interrupt unit, and the words CSRs read as. */
  datatype World = World(act: L.Act, noise: Word, lines: I.Lines, bus: I.Write, csrSpo: Word)

  function MachineEnv(w: Whole, e: World): Env {
    Env(e.act, e.noise, w.t.trap.interrupt, w.t.trap.seen.mtvec, w.t.trap.seen.mepc, e.csrSpo)
  }

  /** CSR writes name the register in the instruction and take their data from the ALU. */
  function TrapEnv(w: Whole, e: World): I.Env {
    var inp := CoreInputs(w.m, MachineEnv(w, e));
    I.Env(e.lines, e.bus, I.CsrWrite(U(w.m.core.instruction >> 20), w.m.core.aluOut),
          inp.spo, inp.ready, inp.mReady, inp.mResult, e.csrSpo)
  }

  function WholeStep(w: Whole, e: World): Whole
    requires w.m.mem.cache.Shaped()
  {
    Whole(MachineStep(w.m, MachineEnv(w, e)), I.SystemStep(w.t, TrapEnv(w, e)))
  }

  lemma StaysJoined(w: Whole, e: World)
    requires Joined(w)
    ensures Joined(WholeStep(w, e))
  {
    hide Step, K.Step, L.LowStep, L.FlatNext, L.ReadingNext, L.InputOf, StimulusOf, ReadyNow, ToWord, I.TrapStep,
         I.UnitStep, I.Signals, ControlOf, U;
    assert CoreInputs(w.m, MachineEnv(w, e)) == I.CoreInputs(w.t, TrapEnv(w, e));
  }

  // ---------------------------------------------------------------- runs

  type Worlds = seq<World>

  ghost function WholeRun(w: Whole, es: Worlds): (v: Whole)
    requires Joined(w)
    ensures Joined(v)
  {
    if es == [] then w
    else
      var v := WholeRun(w, es[..|es| - 1]);
      StaysJoined(v, es[|es| - 1]);
      WholeStep(v, es[|es| - 1])
  }

  ghost function MachineEnvs(w: Whole, es: Worlds): (envs: seq<Env>)
    requires Joined(w)
    ensures |envs| == |es|
  {
    if es == [] then []
    else
      MachineEnvs(w, es[..|es| - 1]) + [MachineEnv(WholeRun(w, es[..|es| - 1]), es[|es| - 1])]
  }

  ghost function TrapEnvs(w: Whole, es: Worlds): (envs: seq<I.Env>)
    requires Joined(w)
    ensures |envs| == |es|
  {
    if es == [] then []
    else
      TrapEnvs(w, es[..|es| - 1]) + [TrapEnv(WholeRun(w, es[..|es| - 1]), es[|es| - 1])]
  }

  /** The events the run retires. */
  ghost function Events(w: Whole, es: Worlds): seq<Event>
    requires Joined(w)
  {
    MachineEvents(w.m, MachineEnvs(w, es))
  }

  lemma EnvsSplit(w: Whole, es: Worlds)
    requires Joined(w) && es != []
    ensures var before, e := es[..|es| - 1], es[|es| - 1];
            var v := WholeRun(w, before);
            MachineEnvs(w, es)[..|es| - 1] == MachineEnvs(w, before)
            && MachineEnvs(w, es)[|es| - 1] == MachineEnv(v, e)
            && TrapEnvs(w, es)[..|es| - 1] == TrapEnvs(w, before) && TrapEnvs(w, es)[|es| - 1] == TrapEnv(v, e)
  {
    hide MachineEnv, TrapEnv, WholeRun;
  }

  /** Each half of the run is a run of that half. */
  lemma {:induction false} RunParts(w: Whole, es: Worlds)
    requires Joined(w)
    ensures WholeRun(w, es).m == RunMachine(w.m, MachineEnvs(w, es))
    ensures WholeRun(w, es).t == I.After(w.t, TrapEnvs(w, es))
  {
    hide MachineEnv, TrapEnv, MachineStep, I.SystemStep, MachineEnvs, TrapEnvs;
    if es != [] {
      EnvsSplit(w, es);
      RunParts(w, es[..|es| - 1]);
    }
  }

  /** The last event of a run. */
  lemma EventsSplit(w: Whole, es: Worlds)
    requires Joined(w) && es != []
    ensures var before, e := es[..|es| - 1], es[|es| - 1];
            var v := WholeRun(w, before);
            Events(w, es) == Events(w, before)
                             + if WholeStep(v, e).m.core.phase == IF
                               then [EventOf(Abstract(v.m), ChoiceOf(v.m, MachineEnv(v, e)))]
                               else []
  {
    hide MachineEnv, TrapEnv, MachineStep, I.SystemStep, MachineEnvs, EventOf, Abstract, ChoiceOf, WholeRun;
    EnvsSplit(w, es);
    RunParts(w, es[..|es| - 1]);
  }

  lemma {:induction false} IsaRunSplits(s: Arch, first: seq<Event>, rest: seq<Event>, muldiv: MulDivFn)
    ensures IsaRun(s, first + rest, muldiv) == IsaRun(IsaRun(s, first, muldiv), rest, muldiv)
    decreases |rest|
  {
    hide Apply;
    if rest == [] {
      assert first + rest == first;
    } else {
      assert (first + rest)[..|first + rest| - 1] == first + rest[..|rest| - 1];
      IsaRunSplits(s, first, rest[..|rest| - 1], muldiv);
    }
  }

  // ---------------------------------------------------------------- the handler's events

  /** A transfer to the trap address, and then instructions only. */
  predicate HandlerEvents(events: seq<Event>, mtvec: Word) {
    events != [] && events[0] == Transferred(TrapEntry(mtvec))
    && forall i :: 1 <= i < |events| ==> !events[i].Transferred?
  }

  /** The event recorded by a clock that ends at a fetch. */
  lemma EventRecorded(w: Whole, e: World)
    ensures var event := EventOf(Abstract(w.m), ChoiceOf(w.m, MachineEnv(w, e)));
            (w.m.core.phase == INTERRUPT ==> event == Transferred(TrapEntry(w.t.trap.seen.mtvec)))
            && (w.m.core.phase == MRET ==> event == Transferred(w.t.trap.seen.mepc))
            && (event.Transferred? ==>
                  w.m.core.phase == INTERRUPT || w.m.core.phase == EXCEPTION || w.m.core.phase == MRET)
  {
    hide TrapEntry, ReadyNow, ToWord, WordsOf, Opcode;
  }

  /** The interrupt clock ends at a fetch. */
  lemma EntryEndsAtFetch(w: Whole, e: World)
    requires Joined(w) && I.Inv(w.t) && w.m.core.phase == INTERRUPT
    ensures WholeStep(w, e).m.core.phase == IF
  {
    hide Step, L.SystemStep, StimulusOf, ReadyNow, ToWord, I.TrapStep, I.UnitStep, I.Signals, ControlOf, U,
         I.HandshakeInv, I.CountInv;
    assert CoreInputs(w.m, MachineEnv(w, e)) == I.CoreInputs(w.t, TrapEnv(w, e));
    I.CoreFollows(w.t, TrapEnv(w, e));
  }

  /** After the first clock of a handler run the core is never in a phase that transfers. */
  lemma HandlerStaysPut(w: Whole, es: Worlds)
    requires Joined(w) && I.Inv(w.t) && w.m.core.phase == INTERRUPT && |es| > 1 && I.HandlerRun(w.t, TrapEnvs(w, es))
    ensures var before := es[..|es| - 1];
            var phase := WholeRun(w, before).m.core.phase;
            I.HandlerRun(w.t, TrapEnvs(w, before)) && phase != INTERRUPT && phase != EXCEPTION && phase != MRET
  {
    hide MachineEnv, TrapEnv, TrapEnvs, I.Inv, I.Signals, WholeRun, I.CauseOf, I.Entered, I.After, I.Masked;
    var before := es[..|es| - 1];
    EnvsSplit(w, es);
    RunParts(w, before);
    I.HandlerRunKeeps(w.t, TrapEnvs(w, before));
  }

  lemma {:induction false} HandlerIsRecorded(w: Whole, es: Worlds)
    requires Joined(w) && I.Inv(w.t) && w.m.core.phase == INTERRUPT && I.HandlerRun(w.t, TrapEnvs(w, es))
    ensures HandlerEvents(Events(w, es), w.t.trap.seen.mtvec)
  {
    hide MachineEnv, TrapEnv, WholeStep, MachineEnvs, TrapEnvs, EventOf, Abstract, ChoiceOf, I.Inv, TrapEntry, Events,
         WholeRun, I.HandlerRun;
    SomeClocks(w, es);
    var before, e := es[..|es| - 1], es[|es| - 1];
    EventsSplit(w, es);
    EventRecorded(WholeRun(w, before), e);
    if |es| == 1 {
      FirstClock(w, es);
    } else {
      HandlerStaysPut(w, es);
      HandlerIsRecorded(w, before);
    }
  }

  lemma SomeClocks(w: Whole, es: Worlds)
    requires Joined(w) && I.HandlerRun(w.t, TrapEnvs(w, es))
    ensures es != []
  {
  }

  lemma FirstClock(w: Whole, es: Worlds)
    requires Joined(w) && I.Inv(w.t) && w.m.core.phase == INTERRUPT && |es| == 1
    ensures var before := es[..|es| - 1];
            WholeRun(w, before) == w && Events(w, before) == [] && WholeStep(w, es[0]).m.core.phase == IF
  {
    hide WholeStep, I.Inv;
    EntryEndsAtFetch(w, es[0]);
  }

  // ---------------------------------------------------------------- entry, handler and return

  /** The handler leaves registers and memory as it found them. */
  ghost predicate Restores(s: Arch, handler: seq<Event>) {
    var h := IsaRun(s, handler, UnitMulDiv());
    h.x == s.x && forall a: Word :: h.mem(a) == s.mem(a)
  }

  /** At a fetch the relation speaks of the memory byte by byte. */
  lemma FetchPointwise(m: Machine, s: Arch, t: Arch)
    requires MachineInv(m, s) && m.core.phase == IF
    requires t.pc == s.pc && t.x == s.x && forall a: Word :: t.mem(a) == s.mem(a)
    ensures MachineInv(m, t)
  {
    hide Wired, Exec, Decode, Fetch, WordsOf, ByteAt;
  }

  lemma SavedPc(m: Machine, s: Arch)
    requires MachineInv(m, s) && m.core.phase == INTERRUPT
    ensures m.core.oldpc == s.pc
  {
    hide Wired, Exec, Decode, Fetch, Mirrors, Plus, IsaMulDiv, UnitMulDiv, WbReady, InWait;
  }

  lemma ReturnEndsAtFetch(w: Whole, e: World)
    requires Joined(w) && w.m.core.phase == MRET
    ensures WholeStep(w, e).m.core.phase == IF
  {
    hide Step, L.SystemStep, StimulusOf, ReadyNow, ToWord, I.TrapStep, I.UnitStep, I.Signals, ControlOf, U, I.CsrStep;
    assert CoreInputs(w.m, MachineEnv(w, e)) == I.CoreInputs(w.t, TrapEnv(w, e));
    I.CoreReturns(w.t, TrapEnv(w, e));
  }

  /** The whole interrupt as the ISA sees it: from the interrupted instruction to the handler, and back to it. */
  lemma InterruptIsRecorded(w: Whole, s: Arch, es: Worlds, e: World)
    requires Joined(w) && MachineInv(w.m, s) && I.Inv(w.t) && w.m.core.phase == INTERRUPT
    requires I.HandlerRun(w.t, TrapEnvs(w, es)) && WholeRun(w, es).m.core.phase == MRET
    ensures HandlerEvents(Events(w, es), w.t.trap.seen.mtvec)
    ensures Events(w, es + [e]) == Events(w, es) + [Transferred(s.pc)] && WholeRun(w, es + [e]).m.core.phase == IF
  {
    hide MachineEnv, TrapEnvs, MachineEnvs, WholeRun, WholeStep, I.Inv, MachineInv, I.HandlerRun, HandlerEvents, Events,
         EventOf, Abstract, ChoiceOf, I.CauseOf, I.Entered, I.After, RunMachine;
    var all, v := es + [e], WholeRun(w, es);
    assert all[..|all| - 1] == es;
    SomeClocks(w, es);
    SavedPc(w.m, s);
    HandlerIsRecorded(w, es);
    I.HandlerRunKeeps(w.t, TrapEnvs(w, es));
    RunParts(w, es);
    ReturnEndsAtFetch(v, e);
    EventRecorded(v, e);
    EventsSplit(w, all);
    LastStep(w, es, e);
  }

  lemma LastStep(w: Whole, es: Worlds, e: World)
    requires Joined(w)
    ensures WholeRun(w, es + [e]) == WholeStep(WholeRun(w, es), e)
  {
    hide WholeStep;
    assert (es + [e])[..|es|] == es;
  }

  lemma ReturnedState(s: Arch, handler: seq<Event>, pc: Word)
    ensures IsaRun(s, handler + [Transferred(pc)], UnitMulDiv()) == IsaRun(s, handler, UnitMulDiv()).(pc := pc)
  {
    hide UnitMulDiv;
    assert (handler + [Transferred(pc)])[..|handler|] == handler;
  }

  /** Main result: an interrupt is a transfer to the trap address at the interrupted instruction, then only
      instructions of the handler, then a transfer back to that instruction; and if the handler puts registers and
      memory back, the machine stands where it stood in the interrupted run. */
  lemma InterruptReturnsToRun(w: Whole, s: Arch, es: Worlds, e: World)
    requires Joined(w) && MachineInv(w.m, s) && I.Inv(w.t) && w.m.core.phase == INTERRUPT
    requires I.HandlerRun(w.t, TrapEnvs(w, es)) && WholeRun(w, es).m.core.phase == MRET
    requires BurstsPermitted(w.m, MachineEnvs(w, es + [e])) && RegularRun(s, Events(w, es + [e]), UnitMulDiv())
    ensures var v, handler := WholeRun(w, es + [e]), Events(w, es);
            HandlerEvents(handler, w.t.trap.seen.mtvec) && Events(w, es + [e]) == handler + [Transferred(s.pc)]
            && v.m.core.phase == IF
            && MachineInv(v.m, IsaRun(s, handler, UnitMulDiv()).(pc := s.pc))
            && (Restores(s, handler) ==> MachineInv(v.m, s))
  {
    hide TrapEnvs, MachineEnvs, WholeRun, RunMachine, I.Inv, MachineInv, I.HandlerRun, HandlerEvents, RegularRun,
         BurstsPermitted, MachineEvents, UnitMulDiv, IsaRun;
    InterruptIsRecorded(w, s, es, e);
    RunParts(w, es + [e]);
    MachineRefines(w.m, s, MachineEnvs(w, es + [e]));
    ReturnedState(s, Events(w, es), s.pc);
    if Restores(s, Events(w, es)) {
      FetchPointwise(WholeRun(w, es + [e]).m, IsaRun(s, Events(w, es), UnitMulDiv()).(pc := s.pc), s);
    }
  }

  /** So a run with such an interrupt in it is the ISA run of the events before and after, with
      the handler's left out. */
  lemma InterruptLeavesNoTrace(w: Whole, s: Arch, first: Worlds, es: Worlds, e: World, rest: Worlds)
    requires Joined(w) && MachineInv(w.m, s) && I.Inv(w.t)
    requires BurstsPermitted(w.m, MachineEnvs(w, first)) && RegularRun(s, Events(w, first), UnitMulDiv())
    requires var v, t := WholeRun(w, first), IsaRun(s, Events(w, first), UnitMulDiv());
             v.m.core.phase == INTERRUPT
             && I.HandlerRun(v.t, TrapEnvs(v, es)) && WholeRun(v, es).m.core.phase == MRET
             && BurstsPermitted(v.m, MachineEnvs(v, es + [e])) && RegularRun(t, Events(v, es + [e]), UnitMulDiv())
             && Restores(t, Events(v, es))
             && var u := WholeRun(v, es + [e]);
                BurstsPermitted(u.m, MachineEnvs(u, rest)) && RegularRun(t, Events(u, rest), UnitMulDiv())
    ensures var u := WholeRun(WholeRun(w, first), es + [e]);
            MachineInv(WholeRun(u, rest).m, IsaRun(s, Events(w, first) + Events(u, rest), UnitMulDiv()))
  {
    hide MachineEnv, TrapEnvs, MachineEnvs, WholeStep, I.Inv, MachineInv, I.HandlerRun, HandlerEvents, RegularRun,
         BurstsPermitted, MachineEvents, UnitMulDiv, Restores, WholeRun, IsaRun, RunMachine;
    var v, t := WholeRun(w, first), IsaRun(s, Events(w, first), UnitMulDiv());
    RunParts(w, first);
    MachineRefines(w.m, s, MachineEnvs(w, first));
    I.RunKeeps(w.t, TrapEnvs(w, first));
    InterruptReturnsToRun(v, t, es, e);
    var u := WholeRun(v, es + [e]);
    RunParts(u, rest);
    MachineRefines(u.m, t, MachineEnvs(u, rest));
    IsaRunSplits(s, Events(w, first), Events(u, rest), UnitMulDiv());
  }
}
