/** Runs of the kernel under any mix of timer interrupts, environment calls and computation: safety,
    delivery of messages, fairness of the scheduler, and resumption where a process left off. */
module KernelRuns {
  import opened Kernel
  import opened KernelInvariant

  /** A timer interrupt that reschedules; an environment call with the request in a0, the target in a1 and
      the buffer `msg` in a2; or the running process computing: new registers, new pc, one buffer of its
      own rewritten. */
  datatype Event = Tick | Call(msg: Pointer) | Compute(frame: seq<int>, pc: Address, at: Pointer, letter: Message)

  function Target(k: Kernel, msg: Pointer): int
    requires Sized(k)
  {
    Resolve(k, k.frame[1], msg)
  }

  predicate Defined(k: Kernel, e: Event) {
    Sized(k) && Shaped(k) && (e.Call? && Target(k, e.msg) != -1 ==> Reachable(k, k.frame[0], Target(k, e.msg)))
  }

  function Handle(k: Kernel, msg: Pointer): Reply
    requires Defined(k, Call(msg))
  {
    Request(k, k.frame[0], k.frame[1], msg)
  }

  function Step(k: Kernel, e: Event): Kernel {
    if !Defined(k, e) then k
    else match e
      case Tick => Schedule(k)
      case Call(msg) => var s := Handle(k, msg).kernel; if Shaped(s) then Schedule(s) else s
      case Compute(frame, pc, at, letter) => k.(frame := frame, mepc := pc, mem := Store(k.mem, at, letter))
  }

  /** What a process may do: write its own buffers only, and name a process other than itself in a request.
      The process `idle` computes and never calls the kernel. */
  predicate Permitted(k: Kernel, idle: int, e: Event)
    requires Sized(k)
  {
    match e
    case Tick => true
    case Compute(frame, pc, at, letter) => !k.starting && |frame| == FRAME && OwnBuffer(at, k.running)
    case Call(msg) =>
      !k.starting && k.running != idle && OwnBuffer(msg, k.running)
      && (var to := Target(k, msg);
          to != -1 ==> to != k.running && (k.frame[0] == IPC_SEND ==> Slot(to))
                       && (k.frame[0] == IPC_RECEIVE ==> to == ANY || Slot(to)))
  }

  predicate Alive(k: Kernel, idle: int)
    requires Sized(k)
  {
    Slot(idle) && (k.table[idle].state == RUNNING || k.table[idle].state == READY)
  }

  ghost predicate Safe(k: Kernel, idle: int) { Inv(k) && Alive(k, idle) }

  // ---------------------------------------------------------------- requests

  /** What is left of a request once it is resolved and stamped. */
  datatype Kind = Nothing | Sending(nonblocking: bool) | Receiving

  function KindOf(k: Kernel, msg: Pointer): Kind
    requires Sized(k)
  {
    var call := k.frame[0];
    if Target(k, msg) == -1 then Nothing
    else if call == IPC_SEND then Sending(k.mem(msg).function_ == OS_SEND_NONBLK)
    else if call == IPC_RECEIVE && k.mem(msg).function_ != OS_SEND_NONBLK then Receiving
    else Nothing
  }

  /** The kernel state once the handler has stepped over the call and stamped the message. */
  function Called(k: Kernel, msg: Pointer): Kernel
    requires Shaped(k)
  {
    Stamp(k.(mepc := FourOn(k.mepc)), msg)
  }

  lemma CalledKeeps(k: Kernel, msg: Pointer)
    requires Inv(k) && OwnBuffer(msg, k.running)
    ensures Shaped(k) && Inv(Called(k, msg)) && Called(k, msg).mem(msg).source == k.running
  {
    hide QueuesOk, NoneMissed, ProcessOk, Stamp;
    BlockableIsShaped(k);
    StampKeeps(k.(mepc := FourOn(k.mepc)), msg);
  }

  lemma PermittedIsDefined(k: Kernel, idle: int, e: Event)
    requires Inv(k) && Permitted(k, idle, e)
    ensures Defined(k, e)
  {
    hide Finds, Taken, Blockable, Resolve;
    assert Sized(k) by { SizedOf(k); }
    BlockableIsShaped(k);
    if e.Call? && k.frame[0] == IPC_RECEIVE && Target(k, e.msg) != -1 { FindsIffQueued(k, Target(k, e.msg)); }
  }

  lemma SizedOf(k: Kernel)
    requires Blockable(k)
    ensures Sized(k)
  {
  }

  /** A request is one of three things on the called state: nothing, a send, or a receive. */
  lemma HandleByKind(k: Kernel, idle: int, msg: Pointer)
    requires Inv(k) && Permitted(k, idle, Call(msg))
    ensures Defined(k, Call(msg)) && Inv(Called(k, msg)) && Shaped(Called(k, msg))
    ensures Called(k, msg).table == k.table && Called(k, msg).queues == k.queues && Called(k, msg).running == k.running
    ensures Called(k, msg).mem(msg) == k.mem(msg).(source := k.running)
    ensures var s, to := Called(k, msg), Target(k, msg);
            match KindOf(k, msg)
            case Nothing => Handle(k, msg).kernel == s || Handle(k, msg).kernel == s.(mem := k.mem)
            case Sending(nb) => Slot(to) && to != k.running && Handle(k, msg) == Send(s, to, msg, nb)
            case Receiving => (to == ANY || (Slot(to) && to != k.running))
                              && (Finds(s, to) ==> Taken(s, to) in s.queues[s.running])
                              && Handle(k, msg) == Receive(s, to, msg)
  {
    hide Finds, Taken, ProcessOk, NoneMissed, QueuesOk, Send, Receive, Resolve;
    PermittedIsDefined(k, idle, Call(msg));
    CalledKeeps(k, msg);
    BlockableIsShaped(Called(k, msg));
    if KindOf(k, msg) == Receiving { FindsIffQueued(Called(k, msg), Target(k, msg)); }
  }

  /** A request leaves every saved context alone, and every other process that can run can still run. */
  predicate ContextsKept(t: Table, u: Table, me: int)
    requires |t| == SLOTS
  {
    |u| == SLOTS
    && forall x :: 0 <= x < SLOTS ==>
         u[x].pid == t[x].pid && u[x].regs == t[x].regs && u[x].pc == t[x].pc
         && (x != me && t[x].state == READY ==> u[x].state == READY)
  }

  lemma SendKeepsContexts(s: Kernel, dest: int, msg: Pointer, nonblocking: bool)
    requires Shaped(s) && Inv(s) && Slot(dest) && dest != s.running
    ensures ContextsKept(s.table, Send(s, dest, msg, nonblocking).kernel.table, s.running)
  {
    hide QueuesOk, ProcessOk, NoneMissed, StartSending, StopReceiving;
    RunningIsFree(s);
  }

  lemma ReceiveKeepsContexts(s: Kernel, src: int, msg: Pointer)
    requires Shaped(s) && Inv(s) && (src == ANY || (Slot(src) && src != s.running))
    requires Finds(s, src) ==> Taken(s, src) in s.queues[s.running]
    ensures ContextsKept(s.table, Receive(s, src, msg).kernel.table, s.running)
  {
    hide QueuesOk, ProcessOk, NoneMissed, StartReceiving, Finds, Taken, UnlinkedAt;
    if Finds(s, src) {
      ReceiveTakes(s, src, msg);
      QueueMembers(s, s.running);
      UnlinkedFields(s.table, Receive(s, src, msg).kernel.table, s.running, s.queues[s.running],
                     IndexOf(s.queues[s.running], Taken(s, src)));
    }
  }

  lemma UnlinkedFields(t: Table, u: Table, r: int, q: seq<int>, i: nat)
    requires |t| == |u| == SLOTS && Slot(r) && i < |q| && UnlinkedAt(t, u, r, q, i)
    ensures ContextsKept(t, u, r)
  {
  }

  lemma HandleKeepsContexts(k: Kernel, idle: int, msg: Pointer)
    requires Inv(k) && Permitted(k, idle, Call(msg))
    ensures Defined(k, Call(msg)) && ContextsKept(k.table, Handle(k, msg).kernel.table, k.running)
  {
    hide Finds, Taken, Inv, Send, Receive, Handle, Shaped, Called, Permitted;
    HandleByKind(k, idle, msg);
    match KindOf(k, msg)
    case Nothing =>
    case Sending(nb) => SendKeepsContexts(Called(k, msg), Target(k, msg), msg, nb);
    case Receiving => ReceiveKeepsContexts(Called(k, msg), Target(k, msg), msg);
  }

  lemma HandleBlocks(k: Kernel, idle: int, msg: Pointer)
    requires Inv(k) && Permitted(k, idle, Call(msg))
    ensures Defined(k, Call(msg))
    ensures var u := Handle(k, msg).kernel;
            Blockable(u) && u.running == k.running && u.starting == k.starting
            && u.frame == k.frame && u.mepc == FourOn(k.mepc)
  {
    hide Finds, Taken, QueuesOk, ProcessOk, NoneMissed, Enqueue, Unlink, Resolve;
    HandleByKind(k, idle, msg);
    match KindOf(k, msg)
    case Nothing => NothingKeeps(k, idle, msg);
    case Sending(nb) => SendKeeps(Called(k, msg), Target(k, msg), msg, nb);
    case Receiving => ReceiveKeeps(Called(k, msg), Target(k, msg), msg);
  }

  lemma NothingKeeps(k: Kernel, idle: int, msg: Pointer)
    requires Inv(k) && Permitted(k, idle, Call(msg)) && KindOf(k, msg) == Nothing && Defined(k, Call(msg))
    ensures Blockable(Handle(k, msg).kernel)
  {
    hide Finds, Taken, QueuesOk, ProcessOk, NoneMissed, Resolve;
    HandleByKind(k, idle, msg);
  }

  // ---------------------------------------------------------------- safety

  lemma ComputeKeeps(k: Kernel, idle: int, e: Event)
    requires Safe(k, idle) && Permitted(k, idle, e) && e.Compute?
    ensures Safe(Step(k, e), idle)
  {
    hide QueuesOk, NoneMissed;
    PermittedIsDefined(k, idle, e);
    var u := Step(k, e);
    forall i | Slot(i)
      ensures ProcessOk(u.table[i], i, u.mem)
    {
      assert ProcessOk(k.table[i], i, k.mem);
    }
  }

  /** Rescheduling with an idle process ready or running. */
  lemma ScheduleSafe(k: Kernel, idle: int)
    requires Blockable(k) && Alive(k, idle)
    ensures Shaped(k) && Safe(Schedule(k), idle) && !Schedule(k).starting
  {
    hide QueuesOk, NoneMissed, ProcessOk;
    BlockableIsShaped(k);
    PidOf(k, idle);
    assert k.table[k.running].state == RUNNING || SomeoneCanRun(k);
    ScheduleKeeps(k);
  }

  lemma PidOf(k: Kernel, i: int)
    requires Blockable(k) && Slot(i)
    ensures k.table[i].state == UNDEF <==> k.table[i].pid != i
    ensures k.table[i].pid == i || k.table[i].pid == NIL
  {
    assert ProcessOk(k.table[i], i, k.mem);
  }

  /** Every permitted step keeps the invariant, and the idle process idle. */
  lemma StepKeepsSafe(k: Kernel, idle: int, e: Event)
    requires Safe(k, idle) && Permitted(k, idle, e)
    ensures Safe(Step(k, e), idle)
  {
    hide Blockable, Schedule, Handle, ContextsKept;
    PermittedIsDefined(k, idle, e);
    match e
    case Tick => ScheduleSafe(k, idle);
    case Compute(frame, pc, at, letter) => ComputeKeeps(k, idle, e);
    case Call(msg) =>
      HandleBlocks(k, idle, msg);
      HandleKeepsContexts(k, idle, msg);
      BlockableIsShaped(Handle(k, msg).kernel);
      StaysAlive(k, Handle(k, msg).kernel, idle);
      ScheduleSafe(Handle(k, msg).kernel, idle);
  }

  lemma StaysAlive(k: Kernel, u: Kernel, idle: int)
    requires Inv(k) && Sized(u) && Alive(k, idle) && idle != k.running && ContextsKept(k.table, u.table, k.running)
    ensures Alive(u, idle)
  {
    hide QueuesOk, NoneMissed, ProcessOk;
  }

  // ---------------------------------------------------------------- runs

  type Run = seq<Event>

  function After(k: Kernel, es: Run): Kernel {
    if es == [] then k else Step(After(k, es[..|es| - 1]), es[|es| - 1])
  }

  ghost predicate PermittedRun(k: Kernel, idle: int, es: Run) {
    es != [] ==>
      var before := es[..|es| - 1];
      PermittedRun(k, idle, before) && Sized(After(k, before)) && Permitted(After(k, before), idle, es[|es| - 1])
  }

  /** Main result: whatever the processes do, queues stay well formed, a process is sending exactly when it is
      queued, and no receiver is left waiting for a sender that is queued on it. */
  lemma {:induction false} RunKeepsSafe(k: Kernel, idle: int, es: Run)
    requires Safe(k, idle) && PermittedRun(k, idle, es)
    ensures Safe(After(k, es), idle)
  {
    hide Safe, Permitted, Step;
    if es != [] {
      RunKeepsSafe(k, idle, es[..|es| - 1]);
      StepKeepsSafe(After(k, es[..|es| - 1]), idle, es[|es| - 1]);
    }
  }

  // ---------------------------------------------------------------- fairness

  /** Slots from the running one forward to p, round the table. */
  function Distance(running: int, p: int): int { if running <= p then p - running else p - running + SLOTS }

  /** Every event but computation ends in the scheduler. */
  function Schedules(es: Run): nat {
    if es == [] then 0 else Schedules(es[..|es| - 1]) + if es[|es| - 1].Compute? then 0 else 1
  }

  /** The scheduler never passes over a process that can run. */
  lemma ScheduleApproaches(k: Kernel, p: int)
    requires Blockable(k) && !k.starting && Slot(p) && p != k.running && CanRun(k.table[p])
    ensures Shaped(k)
    ensures var u := Schedule(k);
            Slot(u.running) && Distance(u.running, p) < Distance(k.running, p)
            && (u.running != p ==> |u.table| == SLOTS && CanRun(u.table[p]))
  {
    hide QueuesOk, NoneMissed, ProcessOk, FirstReady, Distance;
    BlockableIsShaped(k);
    PidOf(k, GetNext(k.table, k.running));
    NextApproaches(k.table, k.running, p);
  }

  lemma NextApproaches(t: Table, running: int, p: int)
    requires |t| == SLOTS && Slot(running) && Slot(p) && p != running && CanRun(t[p])
    ensures var next := GetNext(t, running);
            CanRun(t[next]) && next != running && Distance(next, p) < Distance(running, p)
  {
    hide FirstReady;
  }

  lemma StepApproaches(k: Kernel, idle: int, e: Event, p: int)
    requires Safe(k, idle) && Permitted(k, idle, e) && !k.starting && Slot(p) && p != k.running && CanRun(k.table[p])
    ensures var u := Step(k, e);
            Sized(u) && !u.starting && (if e.Compute? then u.running == k.running && u.table == k.table
            else Distance(u.running, p) < Distance(k.running, p) && (u.running != p ==> CanRun(u.table[p])))
  {
    hide Blockable, Schedule, Handle, ContextsKept;
    StepKeepsSafe(k, idle, e);
    SizedOf(Step(k, e));
    PermittedIsDefined(k, idle, e);
    match e
    case Tick =>
      ScheduleSafe(k, idle);
      ScheduleApproaches(k, p);
    case Compute(frame, pc, at, letter) =>
    case Call(msg) =>
      HandleBlocks(k, idle, msg);
      HandleKeepsContexts(k, idle, msg);
      var s := Handle(k, msg).kernel;
      BlockableIsShaped(s);
      StaysReady(k, s, p);
      HandleAlive(k, idle, msg);
      ScheduleSafe(s, idle);
      ScheduleApproaches(s, p);
  }

  lemma HandleAlive(k: Kernel, idle: int, msg: Pointer)
    requires Safe(k, idle) && Permitted(k, idle, Call(msg))
    ensures Defined(k, Call(msg)) && Sized(Handle(k, msg).kernel) && Alive(Handle(k, msg).kernel, idle)
  {
    hide Blockable, Handle, ContextsKept;
    SizedOf(k);
    HandleBlocks(k, idle, msg);
    SizedOf(Handle(k, msg).kernel);
    HandleKeepsContexts(k, idle, msg);
    StaysAlive(k, Handle(k, msg).kernel, idle);
  }

  lemma StaysReady(k: Kernel, u: Kernel, p: int)
    requires |k.table| == SLOTS && Slot(p) && CanRun(k.table[p]) && p != k.running
    requires ContextsKept(k.table, u.table, k.running)
    ensures CanRun(u.table[p])
  {
  }

  /** No starvation: a process that is ready runs before the scheduler has been called once for every slot
      between the running process and it; that is at most one call fewer than there are slots. */
  lemma {:induction false} ReadyRunsSoon(k: Kernel, idle: int, es: Run, p: int)
    requires Safe(k, idle) && PermittedRun(k, idle, es) && !k.starting && Slot(p) && CanRun(k.table[p])
    requires Schedules(es) >= Distance(k.running, p)
    ensures exists i :: 0 <= i <= |es| && After(k, es[..i]).running == p
    ensures Distance(k.running, p) <= SLOTS - 1
  {
    hide Safe, PermittedRun, After, Schedules;
    SafeIsSized(k, idle);
    if forall i :: 0 <= i <= |es| ==> After(k, es[..i]).running != p {
      Approaches(k, idle, es, p);
      assert false;
    }
  }

  lemma {:induction false} Approaches(k: Kernel, idle: int, es: Run, p: int)
    requires Safe(k, idle) && PermittedRun(k, idle, es) && !k.starting && Slot(p) && CanRun(k.table[p])
    requires forall i :: 0 <= i <= |es| ==> After(k, es[..i]).running != p
    ensures var u := After(k, es);
            Sized(u) && u.running != p && !u.starting && CanRun(u.table[p])
            && Distance(u.running, p) + Schedules(es) <= Distance(k.running, p)
  {
    hide Safe, Permitted, Step, Distance;
    assert es[..|es|] == es;
    if es == [] {
      SafeIsSized(k, idle);
    } else {
      var before := es[..|es| - 1];
      forall i | 0 <= i <= |before|
        ensures After(k, before[..i]).running != p
      {
        assert before[..i] == es[..i];
      }
      Approaches(k, idle, before, p);
      RunKeepsSafe(k, idle, before);
      StepApproaches(After(k, before), idle, es[|es| - 1], p);
    }
  }

  lemma SafeIsSized(k: Kernel, idle: int)
    requires Safe(k, idle)
    ensures Sized(k)
  {
    hide QueuesOk, NoneMissed, ProcessOk;
  }

  // ---------------------------------------------------------------- resumption

  /** One event: the running process is saved if it is switched out, the next one is loaded, and nobody else's
      saved context changes. */
  lemma StepContexts(k: Kernel, idle: int, e: Event, p: int)
    requires Safe(k, idle) && Permitted(k, idle, e) && !k.starting && Slot(p)
    ensures var u := Step(k, e);
            Sized(u) && !u.starting
            && (p != k.running ==> u.table[p].regs == k.table[p].regs && u.table[p].pc == k.table[p].pc)
            && (p != k.running && p == u.running ==> u.frame == k.table[p].regs && u.mepc == k.table[p].pc)
            && (p == k.running && p != u.running ==> u.table[p].regs == k.frame && u.table[p].pc == PcAfter(k, e))
  {
    hide Blockable, Handle, ContextsKept;
    StepKeepsSafe(k, idle, e);
    SizedOf(Step(k, e));
    PermittedIsDefined(k, idle, e);
    match e
    case Tick => ScheduleContexts(k, p);
    case Compute(frame, pc, at, letter) =>
    case Call(msg) =>
      HandleBlocks(k, idle, msg);
      HandleKeepsContexts(k, idle, msg);
      BlockableIsShaped(Handle(k, msg).kernel);
      ScheduleContexts(Handle(k, msg).kernel, p);
      KeptAt(k.table, Handle(k, msg).kernel.table, k.running, p);
  }

  lemma KeptAt(t: Table, u: Table, me: int, p: int)
    requires |t| == SLOTS && Slot(p) && ContextsKept(t, u, me)
    ensures u[p].regs == t[p].regs && u[p].pc == t[p].pc
  {
  }

  /** The address saved for a process switched out: four past the one the trap unit recorded for an environment
      call, or the one recorded for a timer interrupt. */
  function PcAfter(k: Kernel, e: Event): Address { if e.Call? then FourOn(k.mepc) else k.mepc }

  lemma ScheduleContexts(k: Kernel, p: int)
    requires Blockable(k) && !k.starting && Slot(p)
    ensures Shaped(k)
    ensures var u := Schedule(k);
            |u.table| == SLOTS
            && (p != k.running ==> u.table[p].regs == k.table[p].regs && u.table[p].pc == k.table[p].pc)
            && (p != k.running && p == u.running ==> u.frame == k.table[p].regs && u.mepc == k.table[p].pc)
            && (p == k.running && p != u.running ==> u.table[p].regs == k.frame && u.table[p].pc == k.mepc)
  {
    hide QueuesOk, NoneMissed, ProcessOk;
    BlockableIsShaped(k);
    PidOf(k, GetNext(k.table, k.running));
  }

  /** Main result: a process switched out by the first event and back in by the last has the registers it had,
      and goes on at the address saved for it then. */
  lemma {:induction false} ResumesWhereItLeft(k: Kernel, idle: int, es: Run, p: int)
    requires Safe(k, idle) && PermittedRun(k, idle, es) && !k.starting && Slot(p) && |es| >= 2
    requires k.running == p && After(k, es).running == p
    requires forall i :: 1 <= i < |es| ==> After(k, es[..i]).running != p
    ensures After(k, es).frame == k.frame && After(k, es).mepc == PcAfter(k, es[0])
  {
    hide Safe, Permitted, Step;
    var before := es[..|es| - 1];
    forall i | 1 <= i <= |before|
      ensures After(k, before[..i]).running != p
    {
      assert before[..i] == es[..i];
    }
    SavedWhileOut(k, idle, before, p);
    RunKeepsSafe(k, idle, before);
    StepContexts(After(k, before), idle, es[|es| - 1], p);
  }

  lemma {:induction false} SavedWhileOut(k: Kernel, idle: int, es: Run, p: int)
    requires Safe(k, idle) && PermittedRun(k, idle, es) && !k.starting && Slot(p) && es != [] && k.running == p
    requires forall i :: 1 <= i <= |es| ==> After(k, es[..i]).running != p
    ensures var u := After(k, es);
            Sized(u) && !u.starting && u.table[p].regs == k.frame && u.table[p].pc == PcAfter(k, es[0])
  {
    hide Safe, Permitted, Step, PcAfter;
    var before := es[..|es| - 1];
    assert es[..|es|] == es && (before == [] ==> After(k, before) == k);
    RunKeepsSafe(k, idle, before);
    if before != [] {
      forall i | 1 <= i <= |before|
        ensures After(k, before[..i]).running != p
      {
        assert before[..i] == es[..i];
      }
      SavedWhileOut(k, idle, before, p);
      assert before[..|before|] == before;
    }
    StepContexts(After(k, before), idle, es[|es| - 1], p);
  }
}
