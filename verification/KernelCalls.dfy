/** What a request does, by the numbers a process puts in its registers and its message. */
module KernelCalls {
  import opened Kernel
  import opened KernelInvariant
  import opened KernelRuns

  /** Who is asked: the file system's process for its calls made to nobody in particular. */
  function Asked(k: Kernel, msg: Pointer): int
    requires Sized(k)
  {
    var f := k.mem(msg).function_;
    if k.frame[1] == -1 && (f == 56 || f == 57 || f == 29 || f == 66 || f == 65) then 5 else k.frame[1]
  }

  /** A send to a process that waits for it, one that must not wait, and one that waits in the queue. */
  ghost predicate Sends(k: Kernel, u: Kernel, status: int, to: int, msg: Pointer)
    requires Sized(k) && Slot(to)
  {
    var me, d := k.running, k.table[to];
    var letter := k.mem(msg).(source := me);
    if d.state == 0x04 && (d.recvFrom == me || d.recvFrom == -363) then
      status == 0 && u.queues == k.queues && u.mem(d.msg) == letter
      && u.table == k.table[to := d.(msg := Null, state := 0x20, recvFrom := -364)]
    else if k.mem(msg).function_ == 65532 then
      status == -1 && u.queues == k.queues && u.table == k.table
    else
      status == 0 && u.queues == k.queues[to := k.queues[to] + [me]]
      && Sized(u) && u.table[me] == k.table[me].(state := 0x02, sendTo := to, msg := msg) && u.mem(msg) == letter
  }

  /** A receive that takes a queued sender, the first if any will do, and one that waits: for the process named, or
      for nobody where the slot named is unused. */
  ghost predicate Receives(k: Kernel, u: Kernel, status: int, from: int, msg: Pointer)
    requires Sized(k)
  {
    var me, q := k.running, k.queues[k.running];
    status == 0 && Sized(u) &&
    if if from == -363 then q != [] else from in q then
      var p := if from == -363 then q[0] else from;
      Slot(p) && u.mem(msg) == k.mem(k.table[p].msg)
      && u.table[p] == k.table[p].(msg := Null, sendTo := -364, state := 0x20, next := -1, head := u.table[p].head)
      && exists i :: 0 <= i < |q| && q[i] == p && u.queues == k.queues[me := q[..i] + q[i + 1..]]
    else
      (from == -363 || Slot(from)) && u.queues == k.queues
      && var unused := from != -363 && k.table[from].pid == -1;
         u.table == k.table[me := k.table[me].(state := 0x04, msg := msg, recvFrom := if unused then -1 else from)]
  }

  /** The handler refuses what is for nobody, what is neither 74 nor 75, and a receive that must not wait; it sends
      for 74 and receives for 75. */
  ghost predicate ServedByNumber(k: Kernel, u: Kernel, status: int, msg: Pointer)
    requires Sized(k)
  {
    var call, to := k.frame[0], Asked(k, msg);
    if to == -1 || (call != 74 && (call != 75 || k.mem(msg).function_ == 65532)) then
      status == -1 && u.table == k.table && u.queues == k.queues
    else if call == 74 then Slot(to) && Sends(k, u, status, to, msg)
    else Receives(k, u, status, to, msg)
  }

  lemma SendsTo(k: Kernel, s: Kernel, to: int, msg: Pointer)
    requires Inv(k) && Inv(s) && Shaped(s) && Slot(to) && to != k.running && OwnBuffer(msg, k.running)
    requires s.table == k.table && s.queues == k.queues && s.running == k.running
    requires s.mem(msg) == k.mem(msg).(source := k.running)
    ensures var r := Send(s, to, msg, k.mem(msg).function_ == OS_SEND_NONBLK);
            Sends(k, r.kernel, r.status, to, msg)
  {
  }

  lemma ReceivesFrom(k: Kernel, s: Kernel, from: int, msg: Pointer)
    requires Inv(k) && Inv(s) && Shaped(s) && (from == ANY || (Slot(from) && from != k.running))
    requires OwnBuffer(msg, k.running) && s.table == k.table && s.queues == k.queues && s.running == k.running
    requires forall x: Pointer :: x != msg ==> s.mem(x) == k.mem(x)
    requires Finds(s, from) ==> Taken(s, from) in s.queues[s.running]
    ensures var r := Receive(s, from, msg); Receives(k, r.kernel, r.status, from, msg)
  {
    hide Finds, Taken, Inv, Receive, Receives;
    FindsIffQueued(s, from);
    if Finds(s, from) { Takes(k, s, from, msg); } else { Waits(k, s, from, msg); }
  }

  lemma Takes(k: Kernel, s: Kernel, from: int, msg: Pointer)
    requires Inv(k) && Inv(s) && Shaped(s) && (from == ANY || Slot(from)) && Finds(s, from)
    requires OwnBuffer(msg, k.running) && s.table == k.table && s.queues == k.queues && s.running == k.running
    requires forall x: Pointer :: x != msg ==> s.mem(x) == k.mem(x)
    requires Taken(s, from) in s.queues[s.running]
    ensures var r := Receive(s, from, msg); Receives(k, r.kernel, r.status, from, msg)
  {
    hide ProcessOk, NoneMissed, QueuesOk, Finds, UnlinkedAt, Linked;
    FindsIffQueued(s, from);
    ReceiveTakes(s, from, msg);
    QueueMembers(s, s.running);
    var p, q, u := Taken(s, from), s.queues[s.running], Receive(s, from, msg).kernel;
    var i := IndexOf(q, p);
    assert p == if from == -363 then q[0] else from by { HeadIsFirst(s, from); }
    UnlinkedStates(s.table, u.table, s.running, q, i);
    SenderBuffer(k, p);
    RunningIsFree(s);
  }

  lemma HeadIsFirst(k: Kernel, from: int)
    requires Inv(k) && Shaped(k) && (from == ANY || Slot(from)) && Finds(k, from)
    ensures Taken(k, from) == if from == -363 then k.table[k.running].head else from
    ensures k.queues[k.running] != [] ==> k.table[k.running].head == k.queues[k.running][0]
  {
  }

  lemma SenderBuffer(k: Kernel, p: int)
    requires Inv(k) && Slot(p) && k.table[p].state == SENDING
    ensures OwnBuffer(k.table[p].msg, p)
  {
    hide NoneMissed, QueuesOk;
    assert ProcessOk(k.table[p], p, k.mem);
  }

  lemma Waits(k: Kernel, s: Kernel, from: int, msg: Pointer)
    requires Inv(k) && Inv(s) && Shaped(s) && (from == ANY || Slot(from)) && !Finds(s, from)
    requires s.table == k.table && s.queues == k.queues && s.running == k.running
    ensures var r := Receive(s, from, msg); Receives(k, r.kernel, r.status, from, msg)
  {
    hide NoneMissed, QueuesOk, Finds;
    FindsIffQueued(s, from);
    if from != ANY { assert ProcessOk(k.table[from], from, k.mem); }
    RunningIsFree(s);
  }

  /** Main result: every permitted request is served by its number. */
  lemma RequestsByNumber(k: Kernel, idle: int, msg: Pointer)
    requires Safe(k, idle) && Permitted(k, idle, Call(msg))
    ensures Defined(k, Call(msg))
    ensures var r := Handle(k, msg); ServedByNumber(k, r.kernel, r.status, msg)
  {
    hide Finds, Taken, Inv, Send, Receive, Sends, Receives;
    HandleByKind(k, idle, msg);
    var s, to := Called(k, msg), Target(k, msg);
    match KindOf(k, msg)
    case Nothing =>
    case Sending(nb) => SendsTo(k, s, to, msg);
    case Receiving => ReceivesFrom(k, s, to, msg);
  }
}
