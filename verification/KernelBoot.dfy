/** Booting the kernel and creating processes. */
module KernelBoot {
  import opened Wrappers
  import opened Kernel
  import opened KernelInvariant
  import opened KernelRuns

  const SP := 28

  function Unused(regs: seq<int>): Process {
    Process(NIL, UNDEF, 0, regs, NONE, NONE, Null, NIL, NIL)
  }

  function Created(p: Process, pid: int, state: bv16, pc: Address, sp: int): Process
    requires |p.regs| == FRAME
  {
    p.(pid := pid, state := state, pc := pc, regs := p.regs[SP := sp])
  }

  /** The three computing processes in slots 1 to 3, 1 marked as running; entry and stack of each are given. */
  function BootTable(entry: seq<Address>, stack: seq<int>): Table
    requires |entry| == |stack| == 3
  {
    var zeros := seq(FRAME, _ => 0);
    seq(SLOTS, i => if 1 <= i <= 3
                    then Created(Unused(zeros), i, if i == 1 then RUNNING else READY, entry[i - 1], stack[i - 1])
                    else Unused(zeros))
  }

  function NoQueues(): Queues { seq(SLOTS, _ => []) }

  /** The registers of a process that has not run: zero, but for the stack pointer. */
  function Starting(stack: int): seq<int> { seq(31, i => if i == 28 then stack else 0) }

  /** The kernel before its first schedule; 1 is marked as running, and its registers are still to be loaded. */
  function Booted(entry: seq<Address>, stack: seq<int>, frame: seq<int>, mepc: Address, mem: Memory): Kernel
    requires |entry| == |stack| == 3
  {
    Kernel(BootTable(entry, stack), NoQueues(), 1, true, frame, mepc, mem)
  }

  /** First unused slot but slot 0, or NIL. */
  function FirstUnused(t: Table, lo: nat): (r: int)
    requires lo <= |t|
    ensures r == NIL ==> forall i :: lo <= i < |t| ==> t[i].pid != NIL
    ensures r != NIL ==> lo <= r < |t| && t[r].pid == NIL && forall i :: lo <= i < r ==> t[i].pid != NIL
    decreases |t| - lo
  {
    if lo == |t| then NIL else if t[lo].pid == NIL then lo else FirstUnused(t, lo + 1)
  }

  /** A new process takes slot i, its queue and mail fields cleared. */
  function NewProcess(k: Kernel, i: int, pc: Address, sp: int): Kernel
    requires |k.table| == SLOTS && Slot(i) && |k.table[i].regs| == FRAME
  {
    var p := k.table[i].(msg := Null, recvFrom := NONE, sendTo := NONE, head := NIL, next := NIL);
    k.(table := k.table[i := Created(p, i, READY, pc, sp)])
  }

  /** Booting gives a safe state, each of 1, 2, 3 an idle process. */
  lemma BootIsSafe(entry: seq<Address>, stack: seq<int>, frame: seq<int>, mepc: Address, mem: Memory, idle: int)
    requires |entry| == |stack| == 3 && |frame| == FRAME && 1 <= idle <= 3
    ensures Safe(Booted(entry, stack, frame, mepc, mem), idle)
  {
    var t := BootTable(entry, stack);
    forall i | Slot(i)
      ensures Linked(t, i, NoQueues()[i]) && Queued(t, NoQueues(), i) && ProcessOk(t[i], i, mem) && NoneMissed(t, i)
    {
    }
  }

  /** A process put into unused slot i keeps the kernel safe if nobody is queued on the slot. */
  lemma FreeSlotKeeps(k: Kernel, idle: int, i: int, pc: Address, sp: int)
    requires Safe(k, idle) && Slot(i) && k.table[i].pid == NIL && k.queues[i] == []
    ensures |k.table[i].regs| == FRAME && Safe(NewProcess(k, i, pc, sp), idle)
  {
    hide QueuesOk, NoneMissed;
    assert ProcessOk(k.table[i], i, k.mem);
    QueueMembers(k, i);
    var u := NewProcess(k, i, pc, sp);
    QueuesUnmoved(k.table, u.table, k.queues);
    forall j | Slot(j)
      ensures ProcessOk(u.table[j], j, u.mem) && NoneMissed(u.table, j)
    {
      assert ProcessOk(k.table[j], j, k.mem) && NoneMissed(k.table, j);
      MissedOnlyByReceivers(k.table, u.table, j);
    }
  }

  /** If somebody is, it is cut off: it is still sending, but on no queue, however the queues are read. */
  lemma AwaitedSlotCuts(k: Kernel, idle: int, i: int, pc: Address, sp: int, queues: Queues)
    requires Safe(k, idle) && Slot(i) && k.table[i].pid == NIL && k.queues[i] != []
    ensures |k.table[i].regs| == FRAME && !Safe(NewProcess(k, i, pc, sp).(queues := queues), idle)
  {
    hide QueuesOk, NoneMissed;
    assert ProcessOk(k.table[i], i, k.mem);
    QueueMembers(k, i);
    var u, p := NewProcess(k, i, pc, sp).table, k.queues[i][0];
    assert u[p] == k.table[p];
    if |queues| == SLOTS { HeadlessCuts(u, queues, i, p); }
  }

  /** A sender to a slot whose queue has no head is on no queue. */
  lemma HeadlessCuts(u: Table, queues: Queues, i: int, p: int)
    requires |u| == |queues| == SLOTS && Slot(i) && Slot(p) && u[i].head == NIL
    requires u[p].state == SENDING && u[p].sendTo == i
    ensures !QueuesOk(u, queues)
  {
    if Linked(u, i, queues[i]) {
      NoHeadNoList(u, i, queues[i]);
      assert !Queued(u, queues, p);
    }
  }

  lemma NoHeadNoList(u: Table, d: int, q: seq<int>)
    requires |u| == SLOTS && Slot(d) && Linked(u, d, q) && u[d].head == NIL
    ensures q == []
  {
  }

  // ---------------------------------------------------------------- creation

  predicate Framed(k: Kernel) { |k.table| == SLOTS && forall i :: 0 <= i < SLOTS ==> |k.table[i].regs| == FRAME }

  /** Creating a process in the first unused slot from 1 on. Without one the code takes slot -1 and writes in
      front of the table (None). */
  function Create(k: Kernel, pc: Address, sp: int): Option<Kernel>
    requires Framed(k)
  {
    var i := FirstUnused(k.table, 1);
    if i == NIL then None else Some(NewProcess(k, i, pc, sp))
  }

  lemma SafeIsFramed(k: Kernel, idle: int)
    requires Safe(k, idle)
    ensures Framed(k) && |k.queues| == SLOTS
  {
    hide QueuesOk, NoneMissed;
    forall i | 0 <= i < SLOTS
      ensures |k.table[i].regs| == FRAME
    {
      assert ProcessOk(k.table[i], i, k.mem);
    }
  }

  /** Some queues make the state safe. */
  ghost predicate SafeSomehow(k: Kernel, idle: int) { exists queues: Queues :: Safe(k.(queues := queues), idle) }

  /** In any safe state, creating a process leaves a state that is safe for some queues exactly when some slot from
      1 on is unused and nobody is queued on the first such slot; and then it is safe for the queues as they were. */
  lemma NewProcessKeepsIff(k: Kernel, idle: int, pc: Address, sp: int)
    requires Safe(k, idle)
    ensures Framed(k) && |k.queues| == SLOTS
    ensures (Create(k, pc, sp).Some? && SafeSomehow(Create(k, pc, sp).value, idle))
        <==> exists i :: 1 <= i < SLOTS && k.table[i].pid == NIL && k.queues[i] == []
                         && forall j :: 1 <= j < i ==> k.table[j].pid != NIL
    ensures Create(k, pc, sp).Some? && SafeSomehow(Create(k, pc, sp).value, idle) ==>
              Safe(Create(k, pc, sp).value, idle)
  {
    hide Safe, SafeSomehow;
    SafeIsFramed(k, idle);
    var i := FirstUnused(k.table, 1);
    if i != NIL { SafeSlotIff(k, idle, i, pc, sp); }
  }

  lemma SafeSlotIff(k: Kernel, idle: int, i: int, pc: Address, sp: int)
    requires Safe(k, idle) && Framed(k) && |k.queues| == SLOTS && Slot(i) && k.table[i].pid == NIL
    ensures SafeSomehow(NewProcess(k, i, pc, sp), idle) <==> k.queues[i] == []
    ensures k.queues[i] == [] ==> Safe(NewProcess(k, i, pc, sp), idle)
  {
    hide Safe;
    var u := NewProcess(k, i, pc, sp);
    if k.queues[i] == [] {
      FreeSlotKeeps(k, idle, i, pc, sp);
      assert u == u.(queues := k.queues);
    } else {
      forall queues: Queues
        ensures !Safe(u.(queues := queues), idle)
      {
        AwaitedSlotCuts(k, idle, i, pc, sp, queues);
      }
    }
  }

  // ---------------------------------------------------------------- a failing state

  /** Process 2 waits to send to slot 3, which is the first unused one; 1 can run and 4 does. */
  function UnusedAwaitedAt(i: int): Process {
    var p := Unused(seq(FRAME, _ => 0));
    if i == 1 then p.(pid := 1, state := READY)
    else if i == 2 then p.(pid := 2, state := SENDING, sendTo := 3, msg := Cell(2, 0))
    else if i == 3 then p.(head := 2)
    else if i == 4 then p.(pid := 4, state := RUNNING)
    else p
  }

  function UnusedAwaited(): Kernel {
    Kernel(seq(SLOTS, i => UnusedAwaitedAt(i)), seq(SLOTS, i => if i == 3 then [2] else []), 4, false,
           seq(FRAME, _ => 0), 0, (p: Pointer) => Message(0, if p.Cell? then p.owner else 0, []))
  }

  lemma UnusedAwaitedTable(i: int)
    requires Slot(i)
    ensures var k := UnusedAwaited();
            |k.table| == |k.queues| == SLOTS && k.table[i] == UnusedAwaitedAt(i)
            && k.queues[i] == if i == 3 then [2] else []
  {
  }

  lemma UnusedAwaitedSlot(i: int)
    requires Slot(i)
    ensures var k := UnusedAwaited();
            |k.table| == |k.queues| == SLOTS && Linked(k.table, i, k.queues[i]) && Queued(k.table, k.queues, i)
            && ProcessOk(k.table[i], i, k.mem) && NoneMissed(k.table, i) && (i != 4 ==> k.table[i].state != RUNNING)
  {
    UnusedAwaitedTable(2);
    UnusedAwaitedTable(3);
    UnusedAwaitedTable(i);
    assert UnusedAwaited().queues[3][0] == 2;
  }

  lemma UnusedAwaitedIsSafe()
    ensures Safe(UnusedAwaited(), 1)
  {
    hide Linked, Queued, ProcessOk, NoneMissed;
    var k := UnusedAwaited();
    UnusedAwaitedTable(1);
    UnusedAwaitedTable(4);
    forall i | Slot(i)
      ensures Linked(k.table, i, k.queues[i]) && Queued(k.table, k.queues, i)
      ensures ProcessOk(k.table[i], i, k.mem) && NoneMissed(k.table, i)
      ensures i != k.running ==> k.table[i].state != RUNNING
    {
      UnusedAwaitedSlot(i);
    }
  }

  /** Creating a process there cuts 2 off: it is sending, but on no queue, however the queues are read. */
  lemma CreationCutsQueue(pc: Address, sp: int, queues: Queues)
    requires |queues| == SLOTS
    ensures Framed(UnusedAwaited()) && Safe(UnusedAwaited(), 1)
    ensures var u := Create(UnusedAwaited(), pc, sp);
            u.Some? && |u.value.table| == SLOTS
            && !QueuesOk(u.value.table, queues)
  {
    hide Safe, QueuesOk, UnusedAwaited, FirstUnused;
    UnusedAwaitedIsSafe();
    SafeIsFramed(UnusedAwaited(), 1);
    UnusedAwaitedTable(2);
    UnusedAwaitedTable(3);
    FirstUnusedAwaited();
    HeadlessCuts(Create(UnusedAwaited(), pc, sp).value.table, queues, 3, 2);
  }

  lemma FirstUnusedAwaited()
    ensures |UnusedAwaited().table| == SLOTS && FirstUnused(UnusedAwaited().table, 1) == 3
  {
    hide UnusedAwaited;
    UnusedAwaitedTable(1);
    UnusedAwaitedTable(2);
    UnusedAwaitedTable(3);
    var t := UnusedAwaited().table;
    assert FirstUnused(t, 1) == FirstUnused(t, 2) == FirstUnused(t, 3) == 3;
  }

  // ---------------------------------------------------------------- booting with further processes

  /** Processes created one after the other, each with its entry and stack. */
  function CreateAll(k: Kernel, programs: seq<(Address, int)>): Option<Kernel>
    requires Framed(k)
  {
    if programs == [] then Some(k)
    else
      var u := CreateAll(k, programs[..|programs| - 1]);
      if u.Some? && Framed(u.value)
      then Create(u.value, programs[|programs| - 1].0, programs[|programs| - 1].1)
      else None
  }

  /** Slots 1 to n are used and nobody waits for anybody. */
  ghost predicate Filled(k: Kernel, n: int) {
    |k.table| == |k.queues| == SLOTS && (forall i :: 0 <= i < SLOTS ==> k.queues[i] == [])
    && forall i :: 1 <= i < SLOTS ==> (k.table[i].pid == NIL <==> i > n)
  }

  lemma CreateFills(k: Kernel, idle: int, pc: Address, sp: int, n: nat)
    requires Safe(k, idle) && Filled(k, n) && 3 <= n <= SLOTS - 1
    ensures Framed(k)
    ensures n == SLOTS - 1 ==> Create(k, pc, sp) == None
    ensures n < SLOTS - 1 ==>
              Create(k, pc, sp).Some? && Safe(Create(k, pc, sp).value, idle) && Filled(Create(k, pc, sp).value, n + 1)
              && Framed(Create(k, pc, sp).value)
  {
    hide Safe;
    SafeIsFramed(k, idle);
    NewProcessKeepsIff(k, idle, pc, sp);
    if n < SLOTS - 1 {
      assert k.table[n + 1].pid == NIL && k.queues[n + 1] == [];
      SafeIsFramed(Create(k, pc, sp).value, idle);
    }
  }

  /** Booting and creating processes succeeds exactly up to 60 of them, which fill the table, and leaves a safe
      state in which each of 1, 2, 3 is an idle process. */
  lemma {:induction false} BootWithProcesses(entry: seq<Address>, stack: seq<int>, frame: seq<int>,
                                             mepc: Address, mem: Memory,
                                             programs: seq<(Address, int)>, idle: int)
    requires |entry| == |stack| == 3 && |frame| == FRAME && 1 <= idle <= 3
    ensures var k := Booted(entry, stack, frame, mepc, mem);
            Framed(k) && (CreateAll(k, programs).Some? <==> |programs| <= SLOTS - 4)
            && (|programs| <= SLOTS - 4 ==>
                  Safe(CreateAll(k, programs).value, idle) && Filled(CreateAll(k, programs).value, |programs| + 3))
    decreases |programs|
  {
    hide Safe, Filled, Framed;
    var k := Booted(entry, stack, frame, mepc, mem);
    BootIsSafe(entry, stack, frame, mepc, mem, idle);
    SafeIsFramed(k, idle);
    if programs == [] {
      BootFills(entry, stack, frame, mepc, mem);
    } else {
      var before, p := programs[..|programs| - 1], programs[|programs| - 1];
      BootWithProcesses(entry, stack, frame, mepc, mem, before, idle);
      if |before| <= SLOTS - 4 { CreateFills(CreateAll(k, before).value, idle, p.0, p.1, |before| + 3); }
    }
  }

  lemma BootFills(entry: seq<Address>, stack: seq<int>, frame: seq<int>, mepc: Address, mem: Memory)
    requires |entry| == |stack| == 3
    ensures Filled(Booted(entry, stack, frame, mepc, mem), 3)
  {
  }
}
