/** The process manager as the kernel runs it: the table is changed in place. */
module KernelCode {
  import opened Kernel
  import K = Kernel
  import opened KernelInvariant
  import opened KernelRuns
  import opened KernelDelivery
  import opened KernelBoot
  import opened Wrappers

  // ---------------------------------------------------------------- the manager

  class ProcManager {
    const table: array<Process>
    const frame: array<int>
    var running: int
    var doStart: bool
    var mepc: Address
    var mem: Memory
    ghost var queues: Queues

    ghost predicate Valid()
      reads this
    {
      table.Length == SLOTS && frame.Length == FRAME
    }

    /** The manager's state as a value. */
    ghost function View(): Kernel
      reads this, table, frame
    {
      Kernel(table[..], queues, running, doStart, frame[..], mepc, mem)
    }

    constructor (entry: seq<Address>, stack: seq<int>, pc: Address, contents: Memory)
      requires |entry| == |stack| == 3
      ensures Valid() && fresh(table) && fresh(frame)
      ensures View() == Booted(entry, stack, seq(FRAME, _ => 0), pc, contents)
      ensures forall i :: 1 <= i <= 3 ==>
                table[i].pid == i && table[i].pc == entry[i - 1] && table[i].regs == Starting(stack[i - 1])
    {
      var blank := Unused(seq(FRAME, _ => 0));
      table := new Process[SLOTS](_ => blank);
      frame := new int[FRAME](_ => 0);
      running, doStart, mepc, mem, queues := 1, true, pc, contents, NoQueues();
      new;
      table[1] := Created(blank, 1, RUNNING, entry[0], stack[0]);
      table[2] := Created(blank, 2, READY, entry[1], stack[1]);
      table[3] := Created(blank, 3, READY, entry[2], stack[2]);
      assert table[..] == BootTable(entry, stack);
      assert frame[..] == seq(FRAME, _ => 0);
    }

    method GetAvailPid() returns (pid: int)
      requires Valid()
      ensures pid == FirstUnused(table[..], 1)
    {
      var i := 1;
      while i < SLOTS
        invariant 1 <= i <= SLOTS && FirstUnused(table[..], 1) == FirstUnused(table[..], i)
      {
        if table[i].pid == NIL { return i; }
        i := i + 1;
      }
      return NIL;
    }

    /** Creates a process; -1 when the table is full, where the code goes on to write in front of it. */
    method NewProcess(pc: Address, sp: int) returns (pid: int)
      requires Valid() && Framed(View())
      modifies table
      ensures pid == FirstUnused(old(table[..]), 1)
      ensures match Create(old(View()), pc, sp) case None => pid == NIL case Some(u) => pid != NIL && View() == u
      ensures pid == NIL ==> table[..] == old(table[..])
      ensures pid != NIL ==>
                table[pid].pid == pid && table[pid].pc == pc && table[pid].state == READY && table[pid].regs[28] == sp
                && (forall j :: 0 <= j < FRAME && j != 28 ==> table[pid].regs[j] == old(table[pid].regs)[j])
                && forall i :: 0 <= i < SLOTS && i != pid ==> table[i] == old(table[i])
    {
      pid := GetAvailPid();
      if pid == NIL { return; }
      table[pid] := table[pid].(pid := pid);
      table[pid] := table[pid].(msg := Null, recvFrom := NONE, sendTo := NONE);
      table[pid] := table[pid].(head := NIL, next := NIL);
      table[pid] := table[pid].(pc := pc, regs := table[pid].regs[SP := sp]);
      table[pid] := table[pid].(state := READY);
    }

    /** The next process to run: above the running one first, then below it. */
    method GetNext() returns (next: int)
      requires Valid() && Slot(running)
      ensures next == K.GetNext(table[..], running)
    {
      var i := running + 1;
      while i < SLOTS
        invariant running < i <= SLOTS && FirstReady(table[..], running + 1, SLOTS) == FirstReady(table[..], i, SLOTS)
      {
        if table[i].pid != NIL && table[i].state == READY { return i; }
        i := i + 1;
      }
      i := 0;
      while i < running
        invariant 0 <= i <= running && FirstReady(table[..], 0, running) == FirstReady(table[..], i, running)
      {
        if table[i].pid != NIL && table[i].state == READY { return i; }
        i := i + 1;
      }
      return running;
    }

    /** Copies the save area into process p. */
    method SaveFrame(p: int)
      requires Valid() && Slot(p) && |table[p].regs| == FRAME
      modifies table
      ensures table[..] == old(table[..])[p := old(table[p]).(regs := frame[..])]
    {
      var i := 0;
      while i < FRAME
        invariant 0 <= i <= FRAME
        invariant forall x :: 0 <= x < SLOTS && x != p ==> table[x] == old(table[x])
        invariant |table[p].regs| == FRAME && table[p] == old(table[p]).(regs := table[p].regs)
        invariant table[p].regs[..i] == frame[..i]
      {
        table[p] := table[p].(regs := table[p].regs[i := frame[i]]);
        i := i + 1;
      }
      assert table[p].regs == frame[..];
    }

    /** Copies the registers of process p into the save area. */
    method LoadFrame(p: int)
      requires Valid() && Slot(p) && |table[p].regs| == FRAME
      modifies frame
      ensures frame[..] == table[p].regs
    {
      var i := 0;
      while i < FRAME
        invariant 0 <= i <= FRAME && frame[..i] == table[p].regs[..i]
      {
        frame[i] := table[p].regs[i];
        i := i + 1;
      }
    }

    method Schedule()
      requires Valid() && Blockable(View())
      modifies this, table, frame
      ensures Valid() && Shaped(old(View())) && View() == K.Schedule(old(View()))
    {
      hide QueuesOk, NoneMissed, ProcessOk, K.GetNext, SwitchOut;
      ghost var k := View();
      BlockableIsShaped(k);
      AllFramed(k);
      var to := 1;
      if doStart {
        doStart := false;
      } else {
        to := GetNext();
        SwitchOutRunning();
      }
      SwitchIn(to);
    }

    /** Saves the interrupted process. */
    method SwitchOutRunning()
      requires Valid() && Slot(running) && |table[running].regs| == FRAME
      modifies table
      ensures table[..] == old(table[..])[running := SwitchOut(old(table[running]), frame[..], mepc)]
    {
      SaveFrame(running);
      if table[running].state == RUNNING { table[running] := table[running].(state := READY); }
      table[running] := table[running].(pc := mepc);
    }

    /** Resumes process p. */
    method SwitchIn(p: int)
      requires Valid() && Slot(p) && |table[p].regs| == FRAME
      modifies table, frame, this`mepc, this`running
      ensures table[..] == old(table[..])[p := old(table[p]).(state := RUNNING)]
      ensures frame[..] == old(table[p]).regs && mepc == old(table[p]).pc && running == old(table[p]).pid
    {
      LoadFrame(p);
      table[p] := table[p].(state := RUNNING);
      mepc := table[p].pc;
      running := table[p].pid;
    }

    /** The tail walk: from the head of a non-empty queue along the links to the last sender. */
    method Tail(d: int) returns (p: int)
      requires Valid() && |queues| == SLOTS && Slot(d) && Linked(table[..], d, queues[d]) && queues[d] != []
      ensures p == queues[d][|queues[d]| - 1]
    {
      p := table[d].head;
      ghost var i := 0;
      while table[p].next != NIL
        invariant 0 <= i < |queues[d]| && p == queues[d][i]
        decreases |queues[d]| - i
      {
        assert table[..][queues[d][i]].next == LinkAfter(queues[d], i);
        p := table[p].next;
        i := i + 1;
      }
      assert table[..][queues[d][i]].next == LinkAfter(queues[d], i);
    }

    /** The search for sender src along the queue of r; prev precedes it, or is NIL. */
    method Find(r: int, src: int) returns (from: int, prev: int)
      requires Valid() && |queues| == SLOTS && Slot(r) && Linked(table[..], r, queues[r]) && src in queues[r]
      requires forall i :: Slot(i) ==> table[i].pid == i || table[i].pid == NIL
      requires Slot(src) && table[src].pid == src
      ensures var i := IndexOf(queues[r], src); from == src && prev == if i == 0 then NIL else queues[r][i - 1]
    {
      hide Linked;
      from, prev := src, NIL;
      var p := table[r].head;
      ghost var q := queues[r];
      ghost var i := 0;
      ListStart(table[..], r, q);
      assert p != NIL;
      while p != NIL
        invariant 0 <= i <= IndexOf(q, src) && i < |q| && p == q[i]
        invariant from == src && prev == if i == 0 then NIL else q[i - 1]
        decreases |q| - i
      {
        if table[p].pid == src {
          from := p;
          break;
        }
        ListStep(table[..], r, q, i);
        prev := p;
        p := table[p].next;
        i := i + 1;
      }
    }

    method Deliver(dest: int, msg: Pointer)
      requires Valid() && Slot(dest)
      modifies table, this`mem
      ensures var d := old(table[dest]);
              table[..] == old(table[..])[dest := d.(msg := Null, state := StopReceiving(d.state), recvFrom := NONE)]
              && mem == Store(old(mem), d.msg, old(mem(msg)))
    {
      mem := Store(mem, table[dest].msg, mem(msg));
      table[dest] := table[dest].(msg := Null);
      table[dest] := table[dest].(state := StopReceiving(table[dest].state));
      table[dest] := table[dest].(recvFrom := NONE);
    }

    method MsgSend(dest: int, msg: Pointer, nonblocking: bool) returns (status: int)
      requires Valid() && Inv(View()) && !doStart && Slot(dest) && dest != running
      requires OwnBuffer(msg, running) && mem(msg).source == running
      modifies this, table
      ensures Valid() && Shaped(old(View())) && Reply(status, View()) == Send(old(View()), dest, msg, nonblocking)
      ensures Blockable(View())
    {
      hide QueuesOk, ProcessOk, NoneMissed, Linked, Enqueue, Waiting, Shaped;
      ghost var k := View();
      BlockableIsShaped(k);
      RunningIsFree(k);
      PidOf(k, dest);
      SendKeeps(k, dest, msg, nonblocking);
      assert table[running].pid != table[dest].pid;
      if IsWaiting(dest) {
        Deliver(dest, msg);
        return 0;
      } else if nonblocking {
        return -1;
      } else {
        BlockSender(dest, msg);
        return 0;
      }
    }

    predicate IsWaiting(dest: int)
      requires Valid() && Slot(dest) && Slot(running)
      reads this, table
      ensures IsWaiting(dest) == Waiting(table[dest], table[running].pid)
    {
      table[dest].state == RECEIVING && (table[dest].recvFrom == table[running].pid || table[dest].recvFrom == ANY)
    }

    method BlockSender(dest: int, msg: Pointer)
      requires Valid() && Inv(View()) && Shaped(View()) && Slot(dest) && dest != running
      requires !Waiting(table[dest], running) && msg != Null
      modifies this`queues, table
      ensures Shaped(old(View())) && Reply(0, View()) == Send(old(View()), dest, msg, false)
    {
      hide Inv, Shaped, Linked, Enqueue, Waiting, Send, SetSending;
      ghost var k := View();
      SendSteps(k, dest, msg);
      MarkSending(dest, msg);
      Link(dest, running);
      queues := queues[dest := queues[dest] + [running]];
      assert table[running] == table[..][running];
      assert table[running].state == SENDING;
      assert table[running].msg != Null;
      assert table[running].recvFrom == NONE;
      assert table[running].sendTo == dest;
    }

    /** Marks the running process as sending. */
    method MarkSending(dest: int, msg: Pointer)
      requires Valid() && Slot(running) && table[running].state == RUNNING
      modifies table
      ensures table[..] == SetSending(old(table[..]), running, dest, msg)
    {
      table[running] := table[running].(state := StartSending(table[running].state));
      assert table[running].state == SENDING;
      table[running] := table[running].(sendTo := dest, msg := msg);
    }

    /** Links p behind the last sender queued on dest, or at its head. */
    method Link(dest: int, p: int)
      requires Valid() && |queues| == SLOTS && Slot(dest) && Slot(p) && Linked(table[..], dest, queues[dest])
      modifies table
      ensures var q := queues[dest];
              var tail := if q == [] then NIL else q[|q| - 1];
              (old(table[dest]).head != NIL ==> Slot(tail)) && table[..] == Enqueue(old(table[..]), dest, tail, p)
    {
      if table[dest].head != NIL {
        var last := Tail(dest);
        table[last] := table[last].(next := p);
      } else {
        table[dest] := table[dest].(head := p);
      }
    }

    /** Takes sender `from`, behind prev, off the queue of r. */
    method Unlink(r: int, prev: int, from: int)
      requires Valid() && Slot(r) && Slot(from) && (if table[r].head == from then prev == NIL else Slot(prev))
      modifies table
      ensures table[..] == K.Unlink(old(table[..]), r, prev, from)
    {
      if from == table[r].head {
        assert prev == NIL;
        table[r] := table[r].(head := table[from].next);
      } else {
        assert prev != NIL;
        table[prev] := table[prev].(next := table[from].next);
      }
      table[from] := table[from].(next := NIL);
    }

    /** Copies the letter of sender p into the buffer and lets p go. */
    method Release(p: int, msg: Pointer)
      requires Valid() && Slot(p) && msg != Null && table[p].msg != Null
      modifies table, this`mem
      ensures var f := old(table[p]);
              table[..] == old(table[..])[p := f.(msg := Null, sendTo := NONE, state := StopSending(f.state))]
              && mem == Store(old(mem), msg, old(mem(table[p].msg)))
    {
      assert msg != Null;
      assert table[p].msg != Null;
      mem := Store(mem, msg, mem(table[p].msg));
      table[p] := table[p].(msg := Null);
      table[p] := table[p].(sendTo := NONE);
      table[p] := table[p].(state := StopSending(table[p].state));
    }

    method TakeSender(src: int, from: int, prev: int, msg: Pointer)
      requires Valid() && Inv(View()) && Shaped(View()) && (src == ANY || Slot(src)) && Finds(View(), src)
      requires from == Taken(View(), src) && from in queues[running] && msg != Null
      requires var i := IndexOf(queues[running], from); prev == if i == 0 then NIL else queues[running][i - 1]
      modifies this`queues, this`mem, table
      ensures Shaped(old(View())) && Reply(0, View()) == Receive(old(View()), src, msg)
    {
      hide Inv, Shaped, K.Unlink, Finds, Taken, Receive, IndexOf, Remove;
      ghost var k := View();
      ReceiveSteps(k, src, msg);
      ghost var i := IndexOf(queues[running], from);
      Unlink(running, prev, from);
      assert table[from] == table[..][from];
      Release(from, msg);
      queues := queues[running := Remove(queues[running], i)];
    }

    method BlockReceiver(src: int, msg: Pointer)
      requires Valid() && Inv(View()) && Shaped(View())
      requires (src == ANY || Slot(src)) && !Finds(View(), src) && msg != Null
      modifies table
      ensures Shaped(old(View())) && Reply(0, View()) == Receive(old(View()), src, msg)
    {
      hide QueuesOk, NoneMissed, Finds, ProcessOk, StartReceiving;
      ghost var k := View();
      RunningIsFree(k);
      PidsOf(k);
      MarkReceiving(if src == ANY then ANY else table[src].pid, msg);
      assert table[running].state == RECEIVING;
      assert table[running].msg != Null;
      assert table[running].recvFrom != NONE;
      assert table[running].sendTo == NONE;
    }

    /** Marks the running process as receiving. */
    method MarkReceiving(wanted: int, msg: Pointer)
      requires Valid() && Slot(running)
      modifies table
      ensures var p := old(table[running]);
              table[..] == old(table[..])[
                running := p.(state := StartReceiving(p.state), msg := msg, recvFrom := wanted)]
    {
      hide StartReceiving;
      table[running] := table[running].(state := StartReceiving(table[running].state));
      table[running] := table[running].(msg := msg);
      table[running] := table[running].(recvFrom := wanted);
    }

    method MsgReceive(src: int, msg: Pointer) returns (status: int)
      requires Valid() && Inv(View()) && !doStart && (src == ANY || (Slot(src) && src != running))
      requires OwnBuffer(msg, running)
      modifies this, table
      ensures Valid() && Shaped(old(View()))
      ensures (Finds(old(View()), src) ==> Taken(old(View()), src) in old(queues)[old(running)])
      ensures Reply(status, View()) == Receive(old(View()), src, msg)
      ensures Blockable(View())
    {
      hide QueuesOk, ProcessOk, NoneMissed, Linked, K.Unlink, Shaped, MasksAsSending, Receive;
      ghost var k := View();
      BlockableIsShaped(k);
      RunningIsFree(k);
      FindsIffQueued(k, src);
      ReceiveKeeps(k, src, msg);
      QueueMembers(k, running);
      assert table[running].pid != src;
      var from, prev, block := NIL, NIL, true;
      if src == ANY {
        if table[running].head != NIL {
          from := table[running].head;
          block := false;
          TakenSender(k, from);
          assert table[running].msg == Null;
          assert table[running].recvFrom == NONE;
          assert table[running].sendTo == NONE;
          assert table[from].msg != Null;
          assert table[from].recvFrom == NONE;
          assert table[from].sendTo == table[running].pid;
        }
      } else {
        from := src;
        if MasksAsSending(table[from].state) && table[from].sendTo == table[running].pid {
          block := false;
          PidsOf(k);
          TakenSender(k, src);
          ListStart(table[..], running, queues[running]);
          assert table[running].head != NIL;
          from, prev := Find(running, src);
          assert table[running].state == RUNNING;
          assert table[running].msg == Null;
          assert table[running].recvFrom == NONE;
          assert table[running].sendTo == NONE;
          assert table[from].recvFrom == NONE;
        }
      }
      assert block <==> !Finds(k, src);
      if !block {
        TakeSender(src, from, prev, msg);
      } else {
        BlockReceiver(src, msg);
      }
      return 0;
    }

    /** The request entry points: the caller's pid is stamped on the message, then it is sent or received. */
    method SendRec(call: int, target: int, msg: Pointer) returns (status: int)
      requires Valid() && Inv(View()) && !doStart && OwnBuffer(msg, running)
      requires target != running && (call == IPC_SEND ==> Slot(target))
      requires call == IPC_RECEIVE ==> target == ANY || Slot(target)
      modifies this, table
      ensures Valid() && Shaped(old(View())) && Reachable(old(View()), call, target)
      ensures Reply(status, View()) == K.SendRec(old(View()), call, target, msg)
    {
      hide Blockable, Finds, Taken, Send, Receive;
      StampKeeps(View(), msg);
      if call == IPC_RECEIVE { FindsIffQueued(View(), target); }
      mem := Store(mem, msg, mem(msg).(source := table[running].pid));
      assert mem(msg).source != target;
      if call == IPC_SEND {
        status := MsgSend(target, msg, false);
      } else if call == IPC_RECEIVE {
        status := MsgReceive(target, msg);
      } else {
        status := -1;
      }
    }

    method SendRecNonblock(call: int, target: int, msg: Pointer) returns (status: int)
      requires Valid() && Inv(View()) && !doStart && OwnBuffer(msg, running)
      requires target != running && (call == IPC_SEND ==> Slot(target))
      requires call == IPC_RECEIVE ==> target == ANY || Slot(target)
      modifies this, table
      ensures Valid() && Shaped(old(View())) && Reachable(old(View()), call, target)
      ensures Reply(status, View()) == K.SendRecNonblock(old(View()), call, target, msg)
    {
      hide Blockable, Finds, Taken, Send, Receive;
      StampKeeps(View(), msg);
      if call == IPC_RECEIVE { FindsIffQueued(View(), target); }
      mem := Store(mem, msg, mem(msg).(source := table[running].pid));
      assert mem(msg).source != target;
      if call == IPC_SEND {
        status := MsgSend(target, msg, true);
      } else {
        status := -1;
      }
    }

    /** An environment call: the request, then the scheduler. No assertion of the code can fail on the way. */
    method SyscallHandler(msg: Pointer, ghost idle: int)
      requires Valid() && Safe(View(), idle) && Permitted(View(), idle, Call(msg))
      modifies this, table, frame
      ensures Valid() && View() == Step(old(View()), Call(msg))
      ensures KindOf(old(View()), msg) == Sending(true)
              && !Waiting(old(table[..])[Target(old(View()), msg)], old(running)) ==>
                queues == old(queues) && (forall p :: Slot(p) ==> SameDealings(old(table[..])[p], table[p]))
                && mem(msg) == old(mem)(msg).(source := old(running)) && forall x :: x != msg ==> mem(x) == old(mem)(x)
    {
      hide Blockable, Finds, Taken, K.Schedule, K.SendRec, K.SendRecNonblock, Waiting, SameDealings;
      ghost var k := View();
      PermittedIsDefined(k, idle, Call(msg));
      RefusedCall(k, idle, msg);
      HandleBlocks(k, idle, msg);
      BlockableIsShaped(Handle(k, msg).kernel);
      mepc := FourOn(mepc);
      MovedPc(k, mepc);
      var call, target := frame[0], frame[1];
      if target == -1 && mem(msg).function_ in FS_CALLS { target := KPROC_PID_FS; }
      var status := -1;
      if target != -1 {
        if mem(msg).function_ != OS_SEND_NONBLK {
          status := SendRec(call, target, msg);
        } else {
          status := SendRecNonblock(call, target, msg);
        }
      }
      assert View() == Handle(k, msg).kernel;
      Schedule();
    }
  }

  /** What a whole call leaves as it was when its nonblocking send is refused. */
  lemma RefusedCall(k: Kernel, idle: int, msg: Pointer)
    requires Safe(k, idle) && Permitted(k, idle, Call(msg))
    ensures KindOf(k, msg) == Sending(true) && !Waiting(k.table[Target(k, msg)], k.running) ==>
              var u := Step(k, Call(msg));
              u.queues == k.queues && |u.table| == SLOTS
              && (forall p :: Slot(p) ==> SameDealings(k.table[p], u.table[p]))
              && u.mem(msg) == k.mem(msg).(source := k.running) && forall x :: x != msg ==> u.mem(x) == k.mem(x)
  {
    hide Step, Waiting, SameDealings, Permitted;
    PermittedIsDefined(k, idle, Call(msg));
    if KindOf(k, msg) == Sending(true) {
      FailedSend(k, idle, msg);
      if !Waiting(k.table[Target(k, msg)], k.running) { FailedSendStep(k, idle, msg); }
    }
  }

  lemma MovedPc(k: Kernel, pc: Address)
    requires Inv(k)
    ensures Inv(k.(mepc := pc))
  {
    hide QueuesOk, ProcessOk, NoneMissed;
  }

  /** A blocking send in three steps: mark the caller, find the tail, link. */
  lemma SendSteps(k: Kernel, dest: int, msg: Pointer)
    requires Inv(k) && Shaped(k) && Slot(dest) && dest != k.running && !Waiting(k.table[dest], k.running)
    ensures Sized(k) && k.table[k.running].state == RUNNING
    ensures var me, q, t := k.running, k.queues[dest], SetSending(k.table, k.running, dest, msg);
            var tail := if q == [] then NIL else q[|q| - 1];
            Linked(t, dest, q) && (t[dest].head != NIL ==> Slot(tail))
            && Send(k, dest, msg, false)
               == Reply(0, k.(table := Enqueue(t, dest, tail, me), queues := k.queues[dest := q + [me]]))
            && Enqueue(t, dest, tail, me)[me] == k.table[me].(state := SENDING, sendTo := dest, msg := msg)
    ensures k.table[k.running].recvFrom == NONE
  {
    hide QueuesOk, ProcessOk, NoneMissed, Linked, Enqueue, Waiting, Send, SetSending, Shaped;
    RunningIsFree(k);
    SendBlocks(k, dest, msg);
    QueueMembers(k, dest);
    SetSendingKeepsList(k.table, dest, k.queues[dest], k.running, msg);
    EnqueueEffect(k.table, dest, k.queues[dest], k.running, msg);
  }

  /** A receive that finds a sender: unlink it and let it go. */
  lemma ReceiveSteps(k: Kernel, src: int, msg: Pointer)
    requires Inv(k) && Shaped(k) && (src == ANY || Slot(src)) && Finds(k, src)
    requires Taken(k, src) in k.queues[k.running]
    ensures Sized(k)
    ensures var me, from := k.running, Taken(k, src);
            var q := k.queues[me];
            var i := IndexOf(q, from);
            var prev := if i == 0 then NIL else q[i - 1];
            Slot(from) && (if k.table[me].head == from then prev == NIL else Slot(prev))
            && k.table[from].msg != Null && k.table[from].recvFrom == NONE && k.table[from].sendTo == me
            && var t := K.Unlink(k.table, me, prev, from);
               t[from].msg == k.table[from].msg
               && Receive(k, src, msg)
                  == Reply(0, k.(mem := Store(k.mem, msg, k.mem(t[from].msg)),
                                 table := t[from := t[from].(msg := Null, sendTo := NONE,
                                                             state := StopSending(t[from].state))],
                                 queues := k.queues[me := Remove(q, i)]))
  {
    hide Linked, K.Unlink, Finds, Taken, Inv, Shaped, Receive, Released, UnlinkedAt;
    RunningIsComputing(k);
    var q := k.queues[k.running];
    QueueMembers(k, k.running);
    UnlinkEffect(k.table, k.running, q, IndexOf(q, Taken(k, src)));
    TakenSender(k, Taken(k, src));
    ReceiveUnfolds(k, src, msg);
  }

  lemma RunningIsComputing(k: Kernel)
    requires Inv(k)
    ensures Sized(k) && Blockable(k) && k.table[k.running].state == RUNNING
  {
  }

  lemma ReceiveUnfolds(k: Kernel, src: int, msg: Pointer)
    requires Shaped(k) && (src == ANY || Slot(src)) && Finds(k, src) && Taken(k, src) in k.queues[k.running]
    ensures var me, from := k.running, Taken(k, src);
            var q := k.queues[me];
            var i := IndexOf(q, from);
            var prev := if i == 0 then NIL else q[i - 1];
            Slot(from) && (k.table[me].head != from ==> Slot(prev))
            && var t := K.Unlink(k.table, me, prev, from);
               Receive(k, src, msg)
               == Reply(0, k.(mem := Store(k.mem, msg, k.mem(t[from].msg)),
                              table := t[from := t[from].(msg := Null, sendTo := NONE,
                                                          state := StopSending(t[from].state))],
                              queues := k.queues[me := Remove(q, i)]))
  {
    hide K.Unlink, Finds, Taken;
  }

  /** What the code takes for granted of a sender it finds on the queue. */
  lemma TakenSender(k: Kernel, from: int)
    requires Inv(k) && from in k.queues[k.running]
    ensures Slot(from) && k.table[from].msg != Null && k.table[from].recvFrom == NONE
    ensures k.table[from].sendTo == k.running
  {
    hide NoneMissed, Queued;
    QueueMembers(k, k.running);
    assert ProcessOk(k.table[from], from, k.mem);
  }

  lemma AllFramed(k: Kernel)
    requires Blockable(k)
    ensures forall i :: 0 <= i < SLOTS ==> |k.table[i].regs| == FRAME
    ensures forall p, frame, pc :: SwitchOut(p, frame, pc).regs == frame
  {
    hide QueuesOk, NoneMissed;
    forall i | 0 <= i < SLOTS
      ensures |k.table[i].regs| == FRAME
    {
      assert ProcessOk(k.table[i], i, k.mem);
    }
  }

  lemma PidsOf(k: Kernel)
    requires Blockable(k)
    ensures forall i :: 0 <= i < SLOTS ==> k.table[i].pid == i || k.table[i].pid == NIL
    ensures forall i :: 0 <= i < SLOTS && k.table[i].state == SENDING ==> k.table[i].pid == i
  {
    forall i | 0 <= i < SLOTS
      ensures ProcessOk(k.table[i], i, k.mem)
    {
    }
  }

  lemma ListStart(t: Table, d: int, q: seq<int>)
    requires |t| == SLOTS && Slot(d) && Linked(t, d, q)
    ensures t[d].head == (if q == [] then NIL else q[0]) && forall i :: 0 <= i < |q| ==> Slot(q[i])
  {
  }

  lemma ListStep(t: Table, d: int, q: seq<int>, i: nat)
    requires |t| == SLOTS && Slot(d) && Linked(t, d, q) && i < |q|
    ensures Slot(q[i]) && t[q[i]].next == LinkAfter(q, i) && (i + 1 < |q| ==> Slot(q[i + 1]))
  {
  }

  lemma SetSendingKeepsList(t: Table, d: int, q: seq<int>, p: int, msg: Pointer)
    requires |t| == SLOTS && Slot(d) && Slot(p) && d != p && Linked(t, d, q) && t[p].state != SENDING
    ensures Linked(SetSending(t, p, d, msg), d, q) && (t[d].head != NIL <==> q != [])
  {
  }
}
