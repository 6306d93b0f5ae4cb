/** Where a process starts: the first time it runs it is at its entry, with nothing but its stack pointer set. */
module KernelStart {
  import opened Wrappers
  import opened Kernel
  import opened KernelInvariant
  import opened KernelRuns
  import opened KernelBoot

  /** What the table holds for a process that has not run: its entry, and registers that are zero but for the stack
      pointer, which is register 28 of the save area. */
  predicate Waits(k: Kernel, p: int, entry: Address, stack: int) {
    0 <= p < |k.table| && k.table[p].pid == p && k.table[p].pc == entry && k.table[p].regs == Starting(stack)
  }

  /** Entry and stack of process p: the three of the kernel first, then the programs in order. */
  function EntryOf(entry: seq<Address>, programs: seq<(Address, int)>, p: int): Address
    requires |entry| == 3 && 1 <= p <= |programs| + 3
  {
    if p <= 3 then entry[p - 1] else programs[p - 4].0
  }

  function StackOf(stack: seq<int>, programs: seq<(Address, int)>, p: int): int
    requires |stack| == 3 && 1 <= p <= |programs| + 3
  {
    if p <= 3 then stack[p - 1] else programs[p - 4].1
  }

  lemma BootedWaits(entry: seq<Address>, stack: seq<int>, frame: seq<int>, mepc: Address, mem: Memory, p: int)
    requires |entry| == |stack| == 3
    ensures 1 <= p <= 3 ==> Waits(Booted(entry, stack, frame, mepc, mem), p, entry[p - 1], stack[p - 1])
    ensures 4 <= p < SLOTS ==> Booted(entry, stack, frame, mepc, mem).table[p].regs == seq(FRAME, _ => 0)
  {
  }

  /** Creation takes the next slot and touches no other. */
  lemma CreationWaits(k: Kernel, pc: Address, sp: int, n: int, p: int)
    requires Framed(k) && Filled(k, n) && 3 <= n < SLOTS - 1 && 0 <= p < SLOTS
    requires p > n ==> k.table[p].regs == seq(FRAME, _ => 0)
    ensures Create(k, pc, sp).Some?
    ensures var u := Create(k, pc, sp).value;
            |u.table| == SLOTS && u.running == k.running && u.starting == k.starting
            && if p == n + 1 then Waits(u, p, pc, sp) else u.table[p] == k.table[p]
  {
    assert k.table[n + 1].pid == NIL;
  }

  /** After booting and creating, every process waits at its entry. */
  lemma {:induction false} AllWait(entry: seq<Address>, stack: seq<int>, frame: seq<int>, mepc: Address, mem: Memory,
                                   programs: seq<(Address, int)>, idle: int, p: int)
    requires |entry| == |stack| == 3 && |frame| == FRAME && 1 <= idle <= 3 && |programs| <= SLOTS - 4
    requires 0 <= p < SLOTS
    ensures var k := Booted(entry, stack, frame, mepc, mem);
            Framed(k) && CreateAll(k, programs).Some?
            && var u := CreateAll(k, programs).value;
               |u.table| == SLOTS && u.running == 1 && u.starting
               && (1 <= p <= |programs| + 3 ==> Waits(u, p, EntryOf(entry, programs, p), StackOf(stack, programs, p)))
               && (p > |programs| + 3 ==> u.table[p].regs == seq(FRAME, _ => 0))
    decreases |programs|
  {
    hide Safe, Filled, Framed, Waits, Create;
    var k := Booted(entry, stack, frame, mepc, mem);
    BootWithProcesses(entry, stack, frame, mepc, mem, programs, idle);
    if programs == [] {
      BootedWaits(entry, stack, frame, mepc, mem, p);
    } else {
      var before, last := programs[..|programs| - 1], programs[|programs| - 1];
      AllWait(entry, stack, frame, mepc, mem, before, idle, p);
      BootWithProcesses(entry, stack, frame, mepc, mem, before, idle);
      var u := CreateAll(k, before).value;
      SafeIsFramed(u, idle);
      CreationWaits(u, last.0, last.1, |before| + 3, p);
      SameWaits(u, CreateAll(k, programs).value, p);
    }
  }

  lemma SameWaits(k: Kernel, u: Kernel, p: int)
    requires |k.table| == |u.table| == SLOTS && 0 <= p < SLOTS
    ensures k.table[p] == u.table[p] ==> forall e: Address, s: int :: Waits(k, p, e, s) == Waits(u, p, e, s)
  {
  }

  // ---------------------------------------------------------------- the first time

  /** The first schedule loads process 1 and saves nobody. */
  lemma FirstSchedule(k: Kernel, idle: int, e: Event, p: int)
    requires Safe(k, idle) && k.starting && Sized(k) && Permitted(k, idle, e) && Slot(p)
    ensures var u := Step(k, e);
            Sized(u) && Safe(u, idle) && !u.starting && u.running == 1
            && u.frame == k.table[1].regs && u.mepc == k.table[1].pc
            && u.table[p].regs == k.table[p].regs && u.table[p].pc == k.table[p].pc
  {
    hide QueuesOk, NoneMissed;
    StepKeepsSafe(k, idle, e);
    BlockableIsShaped(k);
    assert ProcessOk(k.table[1], 1, k.mem);
    assert ProcessOk(k.table[k.running], k.running, k.mem);
  }

  /** As long as p has not run, its context is as it was. */
  lemma {:induction false} ContextStays(k: Kernel, idle: int, es: Run, p: int)
    requires Safe(k, idle) && k.starting && PermittedRun(k, idle, es) && Slot(p) && es != []
    requires forall i :: 1 <= i <= |es| ==> After(k, es[..i]).running != p
    ensures var u := After(k, es);
            Sized(k) && Sized(u) && Safe(u, idle) && !u.starting
            && u.table[p].regs == k.table[p].regs && u.table[p].pc == k.table[p].pc
  {
    hide Safe, Permitted, Step;
    var before := es[..|es| - 1];
    SafeIsSized(k, idle);
    assert es[..|es|] == es;
    RunKeepsSafe(k, idle, es);
    if before == [] {
      FirstSchedule(k, idle, es[0], p);
    } else {
      forall i | 1 <= i <= |before|
        ensures After(k, before[..i]).running != p
      {
        assert before[..i] == es[..i];
      }
      ContextStays(k, idle, before, p);
      assert before[..|before|] == before;
      StepContexts(After(k, before), idle, es[|es| - 1], p);
    }
  }

  /** A process that comes to run for the first time gets what the table held for it. */
  lemma FirstRunLoads(k: Kernel, idle: int, es: Run, p: int)
    requires Safe(k, idle) && k.starting && PermittedRun(k, idle, es) && Slot(p) && es != []
    requires After(k, es).running == p && forall i :: 1 <= i < |es| ==> After(k, es[..i]).running != p
    ensures Sized(k) && After(k, es).frame == k.table[p].regs && After(k, es).mepc == k.table[p].pc
  {
    hide Safe, Permitted, Step;
    var before := es[..|es| - 1];
    SafeIsSized(k, idle);
    if before == [] {
      FirstSchedule(k, idle, es[0], p);
    } else {
      forall i | 1 <= i <= |before|
        ensures After(k, before[..i]).running != p
      {
        assert before[..i] == es[..i];
      }
      ContextStays(k, idle, before, p);
      assert before[..|before|] == before;
      StepContexts(After(k, before), idle, es[|es| - 1], p);
    }
  }

  /** Main result: after booting, creating up to 60 processes and any permitted run, the first time process p runs
      it is at the entry given for it, and its registers are zero but for the stack pointer, which is the stack
      given for it. Process 1 first runs with the first schedule. */
  lemma StartsAtEntry(entry: seq<Address>, stack: seq<int>, frame: seq<int>, mepc: Address, mem: Memory,
                      programs: seq<(Address, int)>, idle: int, es: Run, p: int)
    requires |entry| == |stack| == 3 && |frame| == FRAME && 1 <= idle <= 3 && |programs| <= SLOTS - 4
    requires 1 <= p <= |programs| + 3 && es != []
    requires Framed(Booted(entry, stack, frame, mepc, mem))
    requires CreateAll(Booted(entry, stack, frame, mepc, mem), programs).Some?
    requires var k := CreateAll(Booted(entry, stack, frame, mepc, mem), programs).value;
             PermittedRun(k, idle, es) && After(k, es).running == p
             && forall i :: 1 <= i < |es| ==> After(k, es[..i]).running != p
    ensures var u := After(CreateAll(Booted(entry, stack, frame, mepc, mem), programs).value, es);
            u.mepc == (if p <= 3 then entry[p - 1] else programs[p - 4].0) && |u.frame| == 31
            && u.frame[28] == (if p <= 3 then stack[p - 1] else programs[p - 4].1)
            && forall j :: 0 <= j < 31 && j != 28 ==> u.frame[j] == 0
  {
    hide Safe, Framed, CreateAll, Booted, PermittedRun, After;
    AllWait(entry, stack, frame, mepc, mem, programs, idle, p);
    BootWithProcesses(entry, stack, frame, mepc, mem, programs, idle);
    FirstRunLoads(CreateAll(Booted(entry, stack, frame, mepc, mem), programs).value, idle, es, p);
  }
}
