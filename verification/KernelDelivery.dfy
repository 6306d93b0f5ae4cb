/** Messages over whole runs: none lost, doubled, altered or forged, and first come first served. */
module KernelDelivery {
  import opened Kernel
  import opened KernelInvariant
  import opened KernelRuns

  datatype Parcel = Parcel(from: int, to: int, letter: Message)

  /** The letter of a blocked sender. */
  function Letter(k: Kernel, p: int): Message
    requires |k.table| == SLOTS && Slot(p)
  {
    k.mem(k.table[p].msg)
  }

  /** What p has sent to d and d has not yet had. */
  function Pending(k: Kernel, p: int, d: int): seq<Message>
    requires |k.table| == SLOTS && Slot(p)
  {
    if k.table[p].state == SENDING && k.table[p].sendTo == d then [Letter(k, p)] else []
  }

  /** A send the kernel accepts: the contents of the caller's buffer at the call, with the caller's pid. */
  function Accepted(k: Kernel, e: Event): seq<Parcel>
    requires Defined(k, e)
  {
    if e.Call? && KindOf(k, e.msg).Sending? && Handle(k, e.msg).status == 0
    then [Parcel(k.running, Target(k, e.msg), k.mem(e.msg).(source := k.running))]
    else []
  }

  /** A message that arrives: what the receiver's buffer holds after the event. */
  function Delivered(k: Kernel, e: Event): seq<Parcel>
    requires Defined(k, e)
  {
    if !e.Call? then []
    else
      var to := Target(k, e.msg);
      match KindOf(k, e.msg)
      case Nothing => []
      case Sending(_) =>
        if Slot(to) && Waiting(k.table[to], k.running)
        then [Parcel(k.running, to, Step(k, e).mem(k.table[to].msg))] else []
      case Receiving =>
        if (to == ANY || Slot(to)) && Finds(k, to)
        then [Parcel(Taken(k, to), k.running, Step(k, e).mem(e.msg))] else []
  }

  /** The letters among the parcels from p to d, in order. */
  function Between(ps: seq<Parcel>, p: int, d: int): seq<Message> {
    if ps == [] then []
    else Between(ps[..|ps| - 1], p, d)
         + (var x := ps[|ps| - 1]; if x.from == p && x.to == d then [x.letter] else [])
  }

  lemma {:induction false} BetweenConcat(ps: seq<Parcel>, qs: seq<Parcel>, p: int, d: int)
    ensures Between(ps + qs, p, d) == Between(ps, p, d) + Between(qs, p, d)
  {
    if qs == [] {
      assert ps + qs == ps;
    } else {
      assert (ps + qs)[..|ps + qs| - 1] == ps + qs[..|qs| - 1];
      BetweenConcat(ps, qs[..|qs| - 1], p, d);
    }
  }

  // ---------------------------------------------------------------- what each operation does to the letters

  /** Slot p holds the same letter to the same target in both states, or none in both. */
  predicate SameMail(k: Kernel, u: Kernel, p: int)
    requires |k.table| == |u.table| == SLOTS && Slot(p)
  {
    (k.table[p].state == SENDING <==> u.table[p].state == SENDING)
    && (k.table[p].state == SENDING ==> u.table[p].sendTo == k.table[p].sendTo && Letter(u, p) == Letter(k, p))
  }

  lemma CalledMail(k: Kernel, idle: int, msg: Pointer, p: int)
    requires Inv(k) && Permitted(k, idle, Call(msg)) && Slot(p)
    ensures Sized(k) && Shaped(k) && |Called(k, msg).table| == SLOTS && SameMail(k, Called(k, msg), p)
    ensures Called(k, msg).mem(msg) == k.mem(msg).(source := k.running)
    ensures k.table[k.running].pid == k.running
  {
    hide QueuesOk, NoneMissed, Shaped;
    BlockableIsShaped(k);
    assert ProcessOk(k.table[p], p, k.mem);
  }

  lemma ScheduleMail(k: Kernel, p: int)
    requires Blockable(k) && Slot(p) && (k.table[k.running].state == RUNNING || SomeoneCanRun(k))
    ensures Shaped(k) && |Schedule(k).table| == SLOTS && SameMail(k, Schedule(k), p)
    ensures Schedule(k).queues == k.queues && Schedule(k).mem == k.mem
  {
    hide QueuesOk, NoneMissed, ProcessOk;
    BlockableIsShaped(k);
  }

  lemma ComputeMail(k: Kernel, idle: int, e: Event, p: int)
    requires Inv(k) && Permitted(k, idle, e) && e.Compute? && Slot(p)
    ensures |Step(k, e).table| == SLOTS && SameMail(k, Step(k, e), p)
  {
    hide QueuesOk, NoneMissed;
    PermittedIsDefined(k, idle, e);
    assert ProcessOk(k.table[p], p, k.mem);
  }

  /** A send to a waiting receiver puts the letter in its buffer and disturbs no other. */
  lemma DirectMail(s: Kernel, to: int, msg: Pointer, nonblocking: bool, p: int)
    requires Inv(s) && Shaped(s) && Slot(to) && to != s.running && Waiting(s.table[to], s.running) && Slot(p)
    ensures var r := Send(s, to, msg, nonblocking);
            r.status == 0 && r.kernel.queues == s.queues && |r.kernel.table| == SLOTS
            && SameMail(s, r.kernel, p) && r.kernel.mem(s.table[to].msg) == s.mem(msg)
  {
    hide QueuesOk, NoneMissed, Shaped;
    assert ProcessOk(s.table[p], p, s.mem) && ProcessOk(s.table[to], to, s.mem);
  }

  /** A send that blocks leaves the letter with its sender, and it is the last on the queue. */
  lemma BlockedMail(s: Kernel, to: int, msg: Pointer, p: int)
    requires Inv(s) && Shaped(s) && Slot(to) && to != s.running && !Waiting(s.table[to], s.running) && Slot(p)
    ensures var r, me := Send(s, to, msg, false), s.running;
            r.status == 0 && r.kernel.queues == s.queues[to := s.queues[to] + [me]] && |r.kernel.table| == SLOTS
            && (p != me ==> SameMail(s, r.kernel, p))
            && r.kernel.table[me].state == SENDING && r.kernel.table[me].sendTo == to
            && Letter(r.kernel, me) == s.mem(msg)
  {
    hide QueuesOk, NoneMissed, ProcessOk, Send, Enqueue, SetSending, Shaped, Waiting, Linked;
    var me := s.running;
    RunningIsFree(s);
    SendBlocks(s, to, msg);
    QueueMembers(s, to);
    EnqueueEffect(s.table, to, s.queues[to], me, msg);
  }

  /** A receive that finds a sender takes its letter into the buffer and takes it off the queue. */
  lemma TakenMail(s: Kernel, src: int, msg: Pointer, p: int)
    requires Inv(s) && Shaped(s) && (src == ANY || Slot(src)) && Finds(s, src) && Slot(p)
    requires Taken(s, src) in s.queues[s.running] && OwnBuffer(msg, s.running)
    ensures var u, from := Receive(s, src, msg).kernel, Taken(s, src);
            |u.table| == SLOTS && Slot(from) && s.table[from].state == SENDING && s.table[from].sendTo == s.running
            && u.table[from].state != SENDING && u.mem(msg) == Letter(s, from)
            && (p != from ==> SameMail(s, u, p))
            && u.queues == s.queues[s.running := Remove(s.queues[s.running], IndexOf(s.queues[s.running], from))]
  {
    hide QueuesOk, NoneMissed, Receive, Linked, Shaped, Finds, Taken, UnlinkedAt;
    ReceiveTakes(s, src, msg);
    QueueMembers(s, s.running);
    UnlinkedStates(s.table, Receive(s, src, msg).kernel.table, s.running, s.queues[s.running],
                   IndexOf(s.queues[s.running], Taken(s, src)));
    assert ProcessOk(s.table[p], p, s.mem);
  }

  lemma BlockedReceiverMail(s: Kernel, src: int, msg: Pointer, p: int)
    requires Inv(s) && Shaped(s) && (src == ANY || Slot(src)) && !Finds(s, src) && Slot(p)
    ensures var u := Receive(s, src, msg).kernel; |u.table| == SLOTS && SameMail(s, u, p) && u.queues == s.queues
  {
    hide QueuesOk, NoneMissed, Shaped, Finds;
    RunningIsFree(s);
  }

  // ---------------------------------------------------------------- conservation

  /** Whatever the event, what was pending and what it adds is what it delivers and what is pending then. */
  predicate Conserved(k: Kernel, u: Kernel, sent: seq<Parcel>, had: seq<Parcel>, p: int, d: int)
    requires |k.table| == |u.table| == SLOTS && Slot(p)
  {
    Pending(k, p, d) + Between(sent, p, d) == Between(had, p, d) + Pending(u, p, d)
  }

  lemma SamePending(k: Kernel, u: Kernel, p: int, d: int)
    requires |k.table| == |u.table| == SLOTS && Slot(p) && SameMail(k, u, p)
    ensures Pending(k, p, d) == Pending(u, p, d)
  {
  }

  lemma OneParcel(x: Parcel, p: int, d: int)
    ensures Between([x], p, d) == if x.from == p && x.to == d then [x.letter] else []
  {
    assert Between([x][..0], p, d) == [];
  }

  lemma NoParcel(p: int, d: int)
    ensures Between([], p, d) == []
  {
  }

  /** The rescheduling at the end of a call moves no mail. */
  lemma CallMail(k: Kernel, idle: int, msg: Pointer, p: int)
    requires Safe(k, idle) && Permitted(k, idle, Call(msg)) && Slot(p)
    ensures Defined(k, Call(msg)) && |Handle(k, msg).kernel.table| == SLOTS == |Step(k, Call(msg)).table|
    ensures var u, v := Handle(k, msg).kernel, Step(k, Call(msg));
            v.mem == u.mem && v.queues == u.queues && SameMail(u, v, p)
  {
    hide Blockable, Schedule, Handle, ContextsKept, SameMail;
    HandleBlocks(k, idle, msg);
    var u := Handle(k, msg).kernel;
    SizedOf(u);
    BlockableIsShaped(u);
    HandleAlive(k, idle, msg);
    IdleLets(u, idle);
    ScheduleMail(u, p);
  }

  lemma IdleLets(u: Kernel, idle: int)
    requires Blockable(u) && Sized(u) && Alive(u, idle)
    ensures u.table[u.running].state == RUNNING || SomeoneCanRun(u)
  {
    hide QueuesOk, NoneMissed, ProcessOk;
    PidOf(u, idle);
  }

  lemma MailCompose(k: Kernel, u: Kernel, v: Kernel, p: int)
    requires |k.table| == |u.table| == |v.table| == SLOTS && Slot(p) && SameMail(k, u, p) && SameMail(u, v, p)
    ensures SameMail(k, v, p)
  {
  }

  lemma NothingConserves(k: Kernel, idle: int, msg: Pointer, p: int, d: int)
    requires Safe(k, idle) && Permitted(k, idle, Call(msg)) && Slot(p) && KindOf(k, msg) == Nothing
    ensures Defined(k, Call(msg)) && |Step(k, Call(msg)).table| == SLOTS
    ensures Conserved(k, Step(k, Call(msg)), Accepted(k, Call(msg)), Delivered(k, Call(msg)), p, d)
  {
    hide Blockable, Handle, Step, Called, Target, Shaped, SameMail, Letter, Defined, Permitted, KindOf;
    HandleByKind(k, idle, msg);
    CallMail(k, idle, msg, p);
    CalledMail(k, idle, msg, p);
    NothingMail(k, Called(k, msg), Handle(k, msg).kernel, p);
    MailCompose(k, Handle(k, msg).kernel, Step(k, Call(msg)), p);
    SamePending(k, Step(k, Call(msg)), p, d);
  }

  lemma NothingMail(k: Kernel, s: Kernel, u: Kernel, p: int)
    requires |k.table| == |s.table| == |u.table| == SLOTS && Slot(p) && SameMail(k, s, p) && s.table == k.table
    requires u == s || u == s.(mem := k.mem)
    ensures SameMail(k, u, p)
  {
  }

  lemma SendConserves(k: Kernel, idle: int, msg: Pointer, p: int, d: int)
    requires Safe(k, idle) && Permitted(k, idle, Call(msg)) && Slot(p) && KindOf(k, msg).Sending?
    ensures Defined(k, Call(msg)) && |Step(k, Call(msg)).table| == SLOTS
    ensures Conserved(k, Step(k, Call(msg)), Accepted(k, Call(msg)), Delivered(k, Call(msg)), p, d)
  {
    hide Blockable, Handle, Step, Called, Target, Shaped, SameMail, Letter, Defined, Permitted, KindOf, Waiting, Send,
         Between;
    HandleByKind(k, idle, msg);
    CallMail(k, idle, msg, p);
    CalledMail(k, idle, msg, p);
    var s, to, nb, u, v := Called(k, msg), Target(k, msg), KindOf(k, msg).nonblocking,
          Handle(k, msg).kernel, Step(k, Call(msg));
    assert Accepted(k, Call(msg)) == if Handle(k, msg).status == 0 then [Parcel(k.running, to, s.mem(msg))] else [];
    OneParcel(Parcel(k.running, to, s.mem(msg)), p, d);
    NoParcel(p, d);
    if Waiting(s.table[to], s.running) {
      DirectMail(s, to, msg, nb, p);
      assert Delivered(k, Call(msg)) == Accepted(k, Call(msg));
      MailCompose(k, s, u, p);
      MailCompose(k, u, v, p);
      SamePending(k, v, p, d);
    } else if !nb {
      BlockedMail(s, to, msg, p);
      CallMail(k, idle, msg, k.running);
      if p == k.running { NewMail(u, v, p, to, s.mem(msg), d); } else {
        MailCompose(k, s, u, p);
        MailCompose(k, u, v, p);
        SamePending(k, v, p, d);
      }
    } else {
      RefusedSend(s, to, msg);
      MailCompose(k, s, u, p);
      MailCompose(k, u, v, p);
      SamePending(k, v, p, d);
    }
  }

  lemma NewMail(u: Kernel, v: Kernel, p: int, to: int, letter: Message, d: int)
    requires |u.table| == |v.table| == SLOTS && Slot(p) && SameMail(u, v, p)
    requires u.table[p].state == SENDING && u.table[p].sendTo == to && Letter(u, p) == letter
    ensures Pending(v, p, d) == if to == d then [letter] else []
  {
  }

  lemma RefusedSend(s: Kernel, to: int, msg: Pointer)
    requires Inv(s) && Shaped(s) && Slot(to)
    ensures Send(s, to, msg, true).status == 0 <==> Waiting(s.table[to], s.running)
    ensures Send(s, to, msg, true).status != 0 ==> Send(s, to, msg, true) == Reply(-1, s)
  {
    hide QueuesOk, NoneMissed, ProcessOk, Waiting, Shaped;
  }

  lemma ReceiveConserves(k: Kernel, idle: int, msg: Pointer, p: int, d: int)
    requires Safe(k, idle) && Permitted(k, idle, Call(msg)) && Slot(p) && KindOf(k, msg) == Receiving
    ensures Defined(k, Call(msg)) && |Step(k, Call(msg)).table| == SLOTS
    ensures Conserved(k, Step(k, Call(msg)), Accepted(k, Call(msg)), Delivered(k, Call(msg)), p, d)
  {
    hide Blockable, Handle, Step, Called, Target, Shaped, SameMail, Letter, Defined, Permitted, KindOf, Receive,
         Between, Finds, Taken;
    HandleByKind(k, idle, msg);
    CallMail(k, idle, msg, p);
    CalledMail(k, idle, msg, p);
    var s, to, u, v := Called(k, msg), Target(k, msg), Handle(k, msg).kernel, Step(k, Call(msg));
    NoParcel(p, d);
    SameFinds(k, s, to);
    if Finds(s, to) {
      var from := Taken(s, to);
      OwnBufferOf(k, idle, msg);
      TakenMail(s, to, msg, p);
      OneParcel(Parcel(from, k.running, v.mem(msg)), p, d);
      assert Delivered(k, Call(msg)) == [Parcel(from, k.running, v.mem(msg))];
      if p == from {
        CalledMail(k, idle, msg, from);
        TakenPending(k, s, u, v, p, k.running, d, v.mem(msg));
      } else {
        MailCompose(k, s, u, p);
        MailCompose(k, u, v, p);
        SamePending(k, v, p, d);
      }
    } else {
      BlockedReceiverMail(s, to, msg, p);
      MailCompose(k, s, u, p);
      MailCompose(k, u, v, p);
      SamePending(k, v, p, d);
    }
  }

  lemma TakenPending(k: Kernel, s: Kernel, u: Kernel, v: Kernel, p: int, me: int, d: int, letter: Message)
    requires |k.table| == |s.table| == |u.table| == |v.table| == SLOTS && Slot(p)
    requires SameMail(k, s, p) && SameMail(u, v, p)
    requires s.table[p].state == SENDING && s.table[p].sendTo == me && Letter(s, p) == letter
    requires u.table[p].state != SENDING
    ensures Pending(k, p, d) == (if me == d then [letter] else []) && Pending(v, p, d) == []
  {
  }

  lemma SameFinds(k: Kernel, s: Kernel, src: int)
    requires Shaped(k) && Shaped(s) && s.table == k.table && s.running == k.running && (src == ANY || Slot(src))
    ensures Finds(k, src) == Finds(s, src) && Taken(k, src) == Taken(s, src)
  {
  }

  lemma OwnBufferOf(k: Kernel, idle: int, msg: Pointer)
    requires Sized(k) && Permitted(k, idle, Call(msg))
    ensures OwnBuffer(msg, k.running)
  {
  }

  lemma StepConserves(k: Kernel, idle: int, e: Event, p: int, d: int)
    requires Safe(k, idle) && Permitted(k, idle, e) && Slot(p)
    ensures Defined(k, e) && |Step(k, e).table| == SLOTS
    ensures Conserved(k, Step(k, e), Accepted(k, e), Delivered(k, e), p, d)
  {
    hide Blockable, Handle, KindOf, SameMail, Letter, Permitted, Schedule, Defined;
    SafeIsSized(k, idle);
    PermittedIsDefined(k, idle, e);
    match e
    case Tick =>
      IdleLets(k, idle);
      ScheduleMail(k, p);
      TickIsSchedule(k);
      SamePending(k, Step(k, e), p, d);
    case Compute(_, _, _, _) =>
      ComputeMail(k, idle, e, p);
      SamePending(k, Step(k, e), p, d);
    case Call(msg) =>
      match KindOf(k, msg) {
        case Nothing => NothingConserves(k, idle, msg, p, d);
        case Sending(nb) => SendConserves(k, idle, msg, p, d);
        case Receiving => ReceiveConserves(k, idle, msg, p, d);
      }
  }

  lemma TickIsSchedule(k: Kernel)
    requires Sized(k) && Shaped(k)
    ensures Step(k, Tick) == Schedule(k)
  {
  }

  // ---------------------------------------------------------------- whole runs

  ghost predicate DefinedRun(k: Kernel, es: Run) {
    es != [] ==> DefinedRun(k, es[..|es| - 1]) && Defined(After(k, es[..|es| - 1]), es[|es| - 1])
  }

  ghost function AcceptedIn(k: Kernel, es: Run): seq<Parcel>
    requires DefinedRun(k, es)
  {
    if es == [] then []
    else AcceptedIn(k, es[..|es| - 1]) + Accepted(After(k, es[..|es| - 1]), es[|es| - 1])
  }

  ghost function DeliveredIn(k: Kernel, es: Run): seq<Parcel>
    requires DefinedRun(k, es)
  {
    if es == [] then []
    else DeliveredIn(k, es[..|es| - 1]) + Delivered(After(k, es[..|es| - 1]), es[|es| - 1])
  }

  lemma {:induction false} PermittedRunIsDefined(k: Kernel, idle: int, es: Run)
    requires Safe(k, idle) && PermittedRun(k, idle, es)
    ensures DefinedRun(k, es) && |After(k, es).table| == SLOTS
  {
    hide Inv, Defined, Permitted, Step;
    RunKeepsSafe(k, idle, es);
    SafeIsSized(After(k, es), idle);
    if es != [] {
      var before := es[..|es| - 1];
      PermittedRunIsDefined(k, idle, before);
      RunKeepsSafe(k, idle, before);
      PermittedIsDefined(After(k, before), idle, es[|es| - 1]);
    }
  }

  /** Main result: over any run, the letters p sent to d are, in order, the letters d got from p, unchanged and
      stamped with p, followed by the one p is still blocked on. None is lost, doubled, altered or forged. */
  lemma {:induction false} RunConserves(k: Kernel, idle: int, es: Run, p: int, d: int)
    requires Safe(k, idle) && PermittedRun(k, idle, es) && Slot(p)
    ensures DefinedRun(k, es) && |k.table| == SLOTS == |After(k, es).table|
    ensures Pending(k, p, d) + Between(AcceptedIn(k, es), p, d)
         == Between(DeliveredIn(k, es), p, d) + Pending(After(k, es), p, d)
  {
    hide Safe, Permitted, Step, Defined, Accepted, Delivered, Pending, Between;
    PermittedRunIsDefined(k, idle, es);
    SafeIsSized(k, idle);
    if es == [] {
      NoParcel(p, d);
    } else {
      var before, e := es[..|es| - 1], es[|es| - 1];
      var m := After(k, before);
      RunConserves(k, idle, before, p, d);
      RunKeepsSafe(k, idle, before);
      StepConserves(m, idle, e, p, d);
      BetweenConcat(AcceptedIn(k, before), Accepted(m, e), p, d);
      BetweenConcat(DeliveredIn(k, before), Delivered(m, e), p, d);
      calc {
        Pending(k, p, d) + Between(AcceptedIn(k, es), p, d);
        (Pending(k, p, d) + Between(AcceptedIn(k, before), p, d)) + Between(Accepted(m, e), p, d);
        Between(DeliveredIn(k, before), p, d) + (Pending(m, p, d) + Between(Accepted(m, e), p, d));
        Between(DeliveredIn(k, es), p, d) + Pending(After(k, es), p, d);
      }
    }
  }

  /** What an event puts into a receiver's buffer names the process it came from: it was stamped at the call, or
      lay stamped in the buffer of the blocked sender. */
  lemma StepSource(k: Kernel, idle: int, e: Event)
    requires Safe(k, idle) && Permitted(k, idle, e)
    ensures Defined(k, e)
    ensures forall i :: 0 <= i < |Delivered(k, e)| ==> Delivered(k, e)[i].letter.source == Delivered(k, e)[i].from
  {
    hide Blockable, Handle, KindOf, Permitted, Defined, Step, Waiting, Finds, Taken;
    SafeIsSized(k, idle);
    PermittedIsDefined(k, idle, e);
    if e.Call? {
      match KindOf(k, e.msg) {
        case Nothing =>
        case Sending(nb) => DirectLetter(k, idle, e.msg, nb);
        case Receiving => TakenLetter(k, idle, e.msg);
      }
    }
  }

  lemma TakenLetter(k: Kernel, idle: int, msg: Pointer)
    requires Safe(k, idle) && Permitted(k, idle, Call(msg)) && KindOf(k, msg) == Receiving && Defined(k, Call(msg))
    ensures var to := Target(k, msg);
            Sized(k) && Shaped(k) && (to == ANY || Slot(to))
            && (Finds(k, to) ==> Step(k, Call(msg)).mem(msg).source == Taken(k, to))
  {
    hide Blockable, Handle, KindOf, Permitted, Defined, Step, Called, Finds, Taken, Receive, SameMail, Shaped;
    HandleByKind(k, idle, msg);
    SafeIsSized(k, idle);
    CalledMail(k, idle, msg, k.running);
    var s, to := Called(k, msg), Target(k, msg);
    OwnBufferOf(k, idle, msg);
    CallMail(k, idle, msg, k.running);
    SameFinds(k, s, to);
    if Finds(s, to) {
      TakenMail(s, to, msg, k.running);
      LetterSource(s, Taken(s, to));
    }
  }

  lemma LetterSource(s: Kernel, p: int)
    requires Blockable(s) && Slot(p) && s.table[p].state == SENDING
    ensures Letter(s, p).source == p
  {
    hide QueuesOk, NoneMissed;
    assert ProcessOk(s.table[p], p, s.mem);
  }

  /** Main result: over any run, every letter a receiver finds in its buffer carries the pid of the process it
      came from. */
  lemma {:induction false} SourceIsSender(k: Kernel, idle: int, es: Run, i: nat)
    requires Safe(k, idle) && PermittedRun(k, idle, es)
    ensures DefinedRun(k, es)
    ensures i < |DeliveredIn(k, es)| ==> DeliveredIn(k, es)[i].letter.source == DeliveredIn(k, es)[i].from
  {
    hide Safe, Permitted, Step, Defined, Delivered;
    PermittedRunIsDefined(k, idle, es);
    if es != [] {
      var before := es[..|es| - 1];
      SourceIsSender(k, idle, before, i);
      RunKeepsSafe(k, idle, before);
      StepSource(After(k, before), idle, es[|es| - 1]);
    }
  }

  // ---------------------------------------------------------------- refused requests

  /** All that messages depend on is as before; only what the scheduler keeps of a process may differ. */
  predicate SameDealings(p: Process, q: Process) {
    q == p.(state := q.state, regs := q.regs, pc := q.pc)
    && (q.state == SENDING <==> p.state == SENDING) && (q.state == RECEIVING <==> p.state == RECEIVING)
  }

  /** A nonblocking send is accepted exactly when its target is waiting for the caller. Refused, the request as a
      whole leaves table and queues untouched and writes nothing but the sender's pid into the caller's own
      buffer. */
  lemma FailedSend(k: Kernel, idle: int, msg: Pointer)
    requires Safe(k, idle) && Permitted(k, idle, Call(msg)) && KindOf(k, msg) == Sending(true)
    ensures Defined(k, Call(msg)) && Slot(Target(k, msg))
    ensures Handle(k, msg).status == 0 <==> Waiting(k.table[Target(k, msg)], k.running)
    ensures !Waiting(k.table[Target(k, msg)], k.running) ==>
              var r := Handle(k, msg);
              r.status == -1 && r.kernel.table == k.table && r.kernel.queues == k.queues
              && r.kernel.running == k.running
              && OwnBuffer(msg, k.running) && r.kernel.mem(msg) == k.mem(msg).(source := k.running)
              && forall x :: x != msg ==> r.kernel.mem(x) == k.mem(x)
  {
    hide Blockable, Handle, KindOf, Permitted, Defined, Shaped, Waiting, Send;
    SafeIsSized(k, idle);
    HandleByKind(k, idle, msg);
    CalledMail(k, idle, msg, k.running);
    OwnBufferOf(k, idle, msg);
    RefusedSend(Called(k, msg), Target(k, msg), msg);
  }

  /** Nor does the rescheduling that follows: after the whole environment call every process is dealing with
      messages as it was, and no buffer but the caller's has changed. */
  lemma FailedSendStep(k: Kernel, idle: int, msg: Pointer)
    requires Safe(k, idle) && Permitted(k, idle, Call(msg)) && KindOf(k, msg) == Sending(true)
    requires Slot(Target(k, msg)) && !Waiting(k.table[Target(k, msg)], k.running)
    ensures var u := Step(k, Call(msg));
            |u.table| == SLOTS == |k.table| && u.queues == k.queues
            && (forall p :: Slot(p) ==> SameDealings(k.table[p], u.table[p]))
            && u.mem(msg) == k.mem(msg).(source := k.running) && forall x :: x != msg ==> u.mem(x) == k.mem(x)
  {
    hide Blockable, Handle, KindOf, Permitted, Shaped, Waiting, Target, Schedule, SameDealings;
    FailedSend(k, idle, msg);
    HandleBlocks(k, idle, msg);
    var s := Handle(k, msg).kernel;
    SizedOf(s);
    BlockableIsShaped(s);
    HandleAlive(k, idle, msg);
    IdleLets(s, idle);
    ScheduleMail(s, k.running);
    forall p | Slot(p)
      ensures SameDealings(k.table[p], Schedule(s).table[p])
    {
      ScheduleDealings(s, p);
    }
  }

  lemma ScheduleDealings(s: Kernel, p: int)
    requires Blockable(s) && Slot(p) && (s.table[s.running].state == RUNNING || SomeoneCanRun(s))
    ensures Shaped(s) && |Schedule(s).table| == SLOTS && SameDealings(s.table[p], Schedule(s).table[p])
  {
    hide QueuesOk, NoneMissed, ProcessOk;
    BlockableIsShaped(s);
  }

  // ---------------------------------------------------------------- arrival order

  /** The letters waiting at d, first in the queue first. */
  ghost function Mailbox(k: Kernel, q: seq<int>): (ls: seq<Message>)
    requires |k.table| == SLOTS && forall i :: 0 <= i < |q| ==> Slot(q[i])
    ensures |ls| == |q|
  {
    seq(|q|, i requires 0 <= i < |q| => Letter(k, q[i]))
  }

  /** The letters among the parcels addressed to d, in order. */
  function To(ps: seq<Parcel>, d: int): seq<Message> {
    if ps == [] then [] else To(ps[..|ps| - 1], d) + if ps[|ps| - 1].to == d then [ps[|ps| - 1].letter] else []
  }

  lemma {:induction false} ToConcat(ps: seq<Parcel>, qs: seq<Parcel>, d: int)
    ensures To(ps + qs, d) == To(ps, d) + To(qs, d)
  {
    if qs == [] {
      assert ps + qs == ps;
    } else {
      assert (ps + qs)[..|ps + qs| - 1] == ps + qs[..|qs| - 1];
      ToConcat(ps, qs[..|qs| - 1], d);
    }
  }

  lemma ToOne(x: Parcel, d: int)
    ensures To([x], d) == (if x.to == d then [x.letter] else []) && To([], d) == []
  {
    assert To([x][..0], d) == [];
  }

  /** d takes messages from anyone. */
  predicate TakesAny(k: Kernel, d: int)
    requires |k.table| == SLOTS && Slot(d)
  {
    k.table[d].state == RECEIVING ==> k.table[d].recvFrom == ANY
  }

  predicate AsksAny(k: Kernel, e: Event, d: int)
    requires Sized(k)
  {
    e.Call? && k.running == d && KindOf(k, e.msg) == Receiving ==> Target(k, e.msg) == ANY
  }

  lemma QueueSlots(k: Kernel, d: int)
    requires Blockable(k) && Slot(d)
    ensures Sized(k)
    ensures forall i :: 0 <= i < |k.queues[d]| ==> Slot(k.queues[d][i]) && k.table[k.queues[d][i]].state == SENDING
  {
    hide ProcessOk, NoneMissed, Queued;
    QueueMembers(k, d);
  }

  lemma SameMailbox(k: Kernel, u: Kernel, q: seq<int>)
    requires |k.table| == |u.table| == SLOTS
    requires forall i :: 0 <= i < |q| ==> Slot(q[i]) && k.table[q[i]].state == SENDING && SameMail(k, u, q[i])
    ensures Mailbox(k, q) == Mailbox(u, q)
  {
    hide Letter;
  }

  /** Mail at d before and after an event, with what came in and went out. */
  ghost predicate InOrder(k: Kernel, u: Kernel, sent: seq<Parcel>, had: seq<Parcel>, d: int)
    requires |k.table| == |u.table| == |k.queues| == |u.queues| == SLOTS && Slot(d)
    requires forall i :: 0 <= i < |k.queues[d]| ==> Slot(k.queues[d][i])
    requires forall i :: 0 <= i < |u.queues[d]| ==> Slot(u.queues[d][i])
  {
    Mailbox(k, k.queues[d]) + To(sent, d) == To(had, d) + Mailbox(u, u.queues[d])
  }

  /** A receiver waiting for anyone has nobody queued. */
  lemma WaitingQueueEmpty(k: Kernel, d: int)
    requires Blockable(k) && Slot(d) && k.table[d].state == RECEIVING && k.table[d].recvFrom == ANY
    ensures k.queues[d] == []
  {
    hide ProcessOk;
    QueueMembers(k, d);
    if k.queues[d] != [] { NotWaiting(k, k.queues[d][0]); }
  }

  lemma NotWaiting(k: Kernel, p: int)
    requires Blockable(k) && Slot(p) && k.table[p].state == SENDING && Slot(k.table[p].sendTo)
    ensures !Waiting(k.table[k.table[p].sendTo], p)
  {
    hide Waiting, QueuesOk, ProcessOk;
    assert NoneMissed(k.table, p);
  }

  lemma SendInOrder(s: Kernel, to: int, msg: Pointer, nb: bool, d: int)
    requires Inv(s) && !s.starting && Shaped(s) && Slot(to) && to != s.running && OwnBuffer(msg, s.running) && Slot(d)
    requires s.mem(msg).source == s.running && TakesAny(s, d)
    ensures var r := Send(s, to, msg, nb);
            Blockable(r.kernel) && Sized(s) && Sized(r.kernel) && TakesAny(r.kernel, d)
            && (forall i :: 0 <= i < |s.queues[d]| ==> Slot(s.queues[d][i]))
            && (forall i :: 0 <= i < |r.kernel.queues[d]| ==> Slot(r.kernel.queues[d][i]))
            && Mailbox(s, s.queues[d]) + (if to == d && r.status == 0 then [s.mem(msg)] else [])
            == (if to == d && Waiting(s.table[to], s.running) then [s.mem(msg)] else [])
               + Mailbox(r.kernel, r.kernel.queues[d])
  {
    hide Blockable, Send, SameMail, Letter, Mailbox, Waiting;
    SendKeeps(s, to, msg, nb);
    var u := Send(s, to, msg, nb).kernel;
    QueueSlots(s, d);
    QueueSlots(u, d);
    SendTakesAny(s, to, msg, nb, d);
    if Waiting(s.table[to], s.running) {
      forall i | 0 <= i < |s.queues[d]|
        ensures SameMail(s, u, s.queues[d][i])
      {
        DirectMail(s, to, msg, nb, s.queues[d][i]);
      }
      DirectMail(s, to, msg, nb, to);
      SameMailbox(s, u, s.queues[d]);
      if to == d { WaitingIsReceiving(s.table[to], s.running); WaitingQueueEmpty(s, d); }
    } else if nb {
      RefusedSend(s, to, msg);
    } else {
      BlockedInOrder(s, to, msg, d);
    }
  }

  lemma WaitingIsReceiving(p: Process, sender: int)
    requires Waiting(p, sender)
    ensures p.state == RECEIVING
  {
  }

  lemma SendTakesAny(s: Kernel, to: int, msg: Pointer, nb: bool, d: int)
    requires Inv(s) && Shaped(s) && Slot(to) && to != s.running && Slot(d) && TakesAny(s, d)
    ensures var u := Send(s, to, msg, nb).kernel; |u.table| == SLOTS && TakesAny(u, d)
  {
    hide QueuesOk, NoneMissed, ProcessOk, StartSending, StopReceiving, Shaped;
    RunningIsFree(s);
    SendingIsNotReceiving(s.table[s.running].state);
  }

  lemma SendingIsNotReceiving(state: bv16)
    requires state == RUNNING
    ensures StartSending(state) != RECEIVING
  {
  }

  lemma BlockedInOrder(s: Kernel, to: int, msg: Pointer, d: int)
    requires Inv(s) && Shaped(s) && Slot(to) && to != s.running && !Waiting(s.table[to], s.running) && Slot(d)
    requires Blockable(Send(s, to, msg, false).kernel)
    ensures var r := Send(s, to, msg, false);
            r.status == 0 && Sized(s) && Sized(r.kernel)
            && (forall i :: 0 <= i < |s.queues[d]| ==> Slot(s.queues[d][i]))
            && (forall i :: 0 <= i < |r.kernel.queues[d]| ==> Slot(r.kernel.queues[d][i]))
            && Mailbox(s, s.queues[d]) + (if to == d then [s.mem(msg)] else []) == Mailbox(r.kernel, r.kernel.queues[d])
  {
    hide Blockable, Send, SameMail, Letter, Waiting;
    var u, q := Send(s, to, msg, false).kernel, s.queues[d];
    QueueSlots(s, d);
    QueueSlots(u, d);
    BlockedMail(s, to, msg, s.running);
    forall i | 0 <= i < |q|
      ensures SameMail(s, u, q[i])
    {
      BlockedMail(s, to, msg, q[i]);
    }
    SameMailbox(s, u, q);
    if to == d { assert Mailbox(u, q + [s.running]) == Mailbox(u, q) + [Letter(u, s.running)]; }
  }

  lemma ReceiveInOrder(s: Kernel, src: int, msg: Pointer, d: int)
    requires Inv(s) && !s.starting && Shaped(s) && (src == ANY || (Slot(src) && src != s.running)) && Slot(d)
    requires OwnBuffer(msg, s.running) && TakesAny(s, d) && (s.running == d ==> src == ANY)
    ensures var u := Receive(s, src, msg).kernel;
            Blockable(u) && Sized(s) && Sized(u) && TakesAny(u, d)
            && (forall i :: 0 <= i < |s.queues[d]| ==> Slot(s.queues[d][i]))
            && (forall i :: 0 <= i < |u.queues[d]| ==> Slot(u.queues[d][i]))
            && Mailbox(s, s.queues[d])
            == (if s.running == d && Finds(s, src) then [u.mem(msg)] else []) + Mailbox(u, u.queues[d])
  {
    hide Blockable, Receive, SameMail, Letter, Mailbox, Finds, Taken;
    ReceiveKeeps(s, src, msg);
    var u, q := Receive(s, src, msg).kernel, s.queues[d];
    QueueSlots(s, d);
    QueueSlots(u, d);
    ReceiveTakesAny(s, src, msg, d);
    if Finds(s, src) {
      TakenInOrder(s, src, msg, d);
    } else {
      forall i | 0 <= i < |q|
        ensures SameMail(s, u, q[i])
      {
        BlockedReceiverMail(s, src, msg, q[i]);
      }
      BlockedReceiverMail(s, src, msg, d);
      SameMailbox(s, u, q);
    }
  }

  lemma ReceiveTakesAny(s: Kernel, src: int, msg: Pointer, d: int)
    requires Inv(s) && Shaped(s) && (src == ANY || Slot(src)) && Slot(d) && TakesAny(s, d)
    requires s.running == d ==> src == ANY
    requires Finds(s, src) ==> Taken(s, src) in s.queues[s.running]
    ensures var u := Receive(s, src, msg).kernel; |u.table| == SLOTS && TakesAny(u, d)
  {
    hide QueuesOk, NoneMissed, ProcessOk, StartReceiving, Shaped, UnlinkedAt, Finds, Taken, Linked;
    if Finds(s, src) {
      ReceiveTakes(s, src, msg);
      QueueMembers(s, s.running);
      UnlinkedStates(s.table, Receive(s, src, msg).kernel.table, s.running, s.queues[s.running],
                     IndexOf(s.queues[s.running], Taken(s, src)));
    }
  }

  lemma ListIsFor(t: Table, d: int, q: seq<int>)
    requires |t| == SLOTS && Slot(d) && Linked(t, d, q)
    ensures forall i :: 0 <= i < |q| ==> Slot(q[i]) && t[q[i]].sendTo == d
  {
  }

  lemma FirstIsHead(t: Table, d: int, q: seq<int>)
    requires |t| == SLOTS && Slot(d) && Linked(t, d, q)
    ensures q != [] ==> t[d].head == q[0] && IndexOf(q, q[0]) == 0 && Remove(q, 0) == q[1..]
    ensures forall i :: 0 < i < |q| ==> q[i] != q[0]
  {
    if q != [] { assert q[..0] + q[1..] == q[1..]; }
  }

  lemma TakenInOrder(s: Kernel, src: int, msg: Pointer, d: int)
    requires Inv(s) && Shaped(s) && (src == ANY || Slot(src)) && Finds(s, src) && Slot(d)
    requires Taken(s, src) in s.queues[s.running] && OwnBuffer(msg, s.running) && (s.running == d ==> src == ANY)
    requires Blockable(Receive(s, src, msg).kernel)
    ensures var u := Receive(s, src, msg).kernel;
            Sized(s) && Sized(u)
            && (forall i :: 0 <= i < |s.queues[d]| ==> Slot(s.queues[d][i]))
            && (forall i :: 0 <= i < |u.queues[d]| ==> Slot(u.queues[d][i]))
            && Mailbox(s, s.queues[d]) == (if s.running == d then [u.mem(msg)] else []) + Mailbox(u, u.queues[d])
  {
    hide Blockable, Receive, SameMail, Letter, Finds, Linked, IndexOf;
    var u, q, from := Receive(s, src, msg).kernel, s.queues[d], Taken(s, src);
    QueueSlots(s, d);
    QueueSlots(u, d);
    TakenMail(s, src, msg, d);
    QueueMembers(s, d);
    ListIsFor(s.table, d, q);
    FirstIsHead(s.table, d, q);
    forall i | 0 <= i < |q| && q[i] != from
      ensures SameMail(s, u, q[i])
    {
      TakenMail(s, src, msg, q[i]);
    }
    if s.running == d {
      assert q[0] == from && u.queues[d] == q[1..];
      forall i | 0 <= i < |q[1..]|
        ensures Slot(q[1..][i]) && s.table[q[1..][i]].state == SENDING && SameMail(s, u, q[1..][i])
      {
        assert q[1..][i] == q[i + 1] && q[i + 1] != from;
      }
      SameMailbox(s, u, q[1..]);
      assert Mailbox(s, q) == [Letter(s, from)] + Mailbox(s, q[1..]);
    } else {
      SameMailbox(s, u, q);
    }
  }

  // ---------------------------------------------------------------- arrival order over runs

  lemma CallKinds(k: Kernel, idle: int, msg: Pointer)
    requires Safe(k, idle) && Permitted(k, idle, Call(msg))
    ensures Defined(k, Call(msg)) && !k.starting && Sized(k) && OwnBuffer(msg, k.running)
    ensures Called(k, msg).starting == k.starting
  {
    hide Blockable;
    PermittedIsDefined(k, idle, Call(msg));
  }

  /** Rescheduling leaves a mailbox and its owner's wishes alone. */
  lemma RescheduledOrder(k: Kernel, idle: int, msg: Pointer, d: int)
    requires Safe(k, idle) && Permitted(k, idle, Call(msg)) && Slot(d) && Defined(k, Call(msg))
    ensures var u, v := Handle(k, msg).kernel, Step(k, Call(msg));
            Blockable(u) && Blockable(v) && Sized(u) && Sized(v) && v.mem == u.mem && v.queues == u.queues
            && (forall i :: 0 <= i < |u.queues[d]| ==> Slot(u.queues[d][i]))
            && Mailbox(u, u.queues[d]) == Mailbox(v, v.queues[d]) && (TakesAny(u, d) ==> TakesAny(v, d))
  {
    hide Blockable, Handle, Step, SameMail, Mailbox, Permitted;
    HandleBlocks(k, idle, msg);
    StepKeepsSafe(k, idle, Call(msg));
    var u, v := Handle(k, msg).kernel, Step(k, Call(msg));
    SizedOf(u);
    SizedOf(v);
    QueueSlots(u, d);
    CallMail(k, idle, msg, d);
    forall i | 0 <= i < |u.queues[d]|
      ensures SameMail(u, v, u.queues[d][i])
    {
      CallMail(k, idle, msg, u.queues[d][i]);
    }
    SameMailbox(u, v, u.queues[d]);
    RescheduledWishes(k, idle, msg, d);
  }

  lemma RescheduledWishes(k: Kernel, idle: int, msg: Pointer, d: int)
    requires Safe(k, idle) && Permitted(k, idle, Call(msg)) && Slot(d) && Defined(k, Call(msg))
    requires |Handle(k, msg).kernel.table| == SLOTS == |Step(k, Call(msg)).table|
    ensures TakesAny(Handle(k, msg).kernel, d) ==> TakesAny(Step(k, Call(msg)), d)
  {
    hide QueuesOk, NoneMissed, ProcessOk, Handle, Permitted;
    HandleBlocks(k, idle, msg);
    BlockableIsShaped(Handle(k, msg).kernel);
  }

  /** One event keeps a mailbox in arrival order. */
  lemma StepInOrder(k: Kernel, idle: int, e: Event, d: int)
    requires Safe(k, idle) && Permitted(k, idle, e) && Slot(d) && TakesAny(k, d) && AsksAny(k, e, d)
    ensures Defined(k, e) && Sized(k) && Sized(Step(k, e)) && TakesAny(Step(k, e), d)
    ensures (forall i :: 0 <= i < |k.queues[d]| ==> Slot(k.queues[d][i]))
            && (forall i :: 0 <= i < |Step(k, e).queues[d]| ==> Slot(Step(k, e).queues[d][i]))
            && InOrder(k, Step(k, e), Accepted(k, e), Delivered(k, e), d)
  {
    hide Blockable, Permitted, Schedule, SameMail, Mailbox, Handle, KindOf, Target, Defined;
    PermittedIsDefined(k, idle, e);
    StepKeepsSafe(k, idle, e);
    SafeIsSized(k, idle);
    SafeIsSized(Step(k, e), idle);
    QueueSlots(k, d);
    QueueSlots(Step(k, e), d);
    match e
    case Tick => QuietInOrder(k, idle, e, d);
    case Compute(_, _, _, _) => QuietInOrder(k, idle, e, d);
    case Call(msg) => CallInOrder(k, idle, msg, d);
  }

  lemma QuietInOrder(k: Kernel, idle: int, e: Event, d: int)
    requires Safe(k, idle) && Permitted(k, idle, e) && Slot(d) && TakesAny(k, d) && !e.Call? && Defined(k, e)
    requires Sized(Step(k, e)) && forall i :: 0 <= i < |k.queues[d]| ==> Slot(k.queues[d][i])
    ensures Step(k, e).queues == k.queues && TakesAny(Step(k, e), d)
    ensures InOrder(k, Step(k, e), [], [], d)
  {
    hide QueuesOk, NoneMissed, ProcessOk, SameMail, Mailbox, Permitted;
    var u := Step(k, e);
    QueueSlots(k, d);
    IdleLets(k, idle);
    forall i | 0 <= i < |k.queues[d]|
      ensures SameMail(k, u, k.queues[d][i])
    {
      if e == Tick { ScheduleMail(k, k.queues[d][i]); } else { ComputeMail(k, idle, e, k.queues[d][i]); }
    }
    SameMailbox(k, u, k.queues[d]);
  }

  /** Stamping the caller's buffer moves no mail. */
  lemma CalledMailbox(k: Kernel, idle: int, msg: Pointer, d: int)
    requires Inv(k) && Permitted(k, idle, Call(msg)) && Slot(d)
    ensures Sized(k) && Shaped(k) && Sized(Called(k, msg)) && Called(k, msg).queues == k.queues
    ensures forall i :: 0 <= i < |k.queues[d]| ==> Slot(k.queues[d][i])
    ensures Mailbox(k, k.queues[d]) == Mailbox(Called(k, msg), k.queues[d])
    ensures TakesAny(k, d) ==> TakesAny(Called(k, msg), d)
  {
    hide Blockable, SameMail, Mailbox, Permitted;
    BlockableIsShaped(k);
    QueueSlots(k, d);
    forall i | 0 <= i < |k.queues[d]|
      ensures SameMail(k, Called(k, msg), k.queues[d][i])
    {
      CalledMail(k, idle, msg, k.queues[d][i]);
    }
    SameMailbox(k, Called(k, msg), k.queues[d]);
  }

  lemma NothingInOrder(k: Kernel, idle: int, msg: Pointer, d: int)
    requires Safe(k, idle) && Permitted(k, idle, Call(msg)) && Slot(d) && TakesAny(k, d) && KindOf(k, msg) == Nothing
    requires Defined(k, Call(msg)) && forall i :: 0 <= i < |k.queues[d]| ==> Slot(k.queues[d][i])
    ensures var u := Handle(k, msg).kernel;
            Sized(u) && u.queues == k.queues && TakesAny(u, d) && Mailbox(k, k.queues[d]) == Mailbox(u, u.queues[d])
  {
    hide Blockable, SameMail, Mailbox, Permitted, KindOf, Handle, Defined, Called;
    HandleByKind(k, idle, msg);
    CalledMailbox(k, idle, msg, d);
    QueueSlots(k, d);
    var u := Handle(k, msg).kernel;
    forall i | 0 <= i < |k.queues[d]|
      ensures SameMail(k, u, k.queues[d][i])
    {
      CalledMail(k, idle, msg, k.queues[d][i]);
      NothingMail(k, Called(k, msg), u, k.queues[d][i]);
    }
    SameMailbox(k, u, k.queues[d]);
  }

  lemma CallInOrder(k: Kernel, idle: int, msg: Pointer, d: int)
    requires Safe(k, idle) && Permitted(k, idle, Call(msg)) && Slot(d) && TakesAny(k, d) && AsksAny(k, Call(msg), d)
    requires Defined(k, Call(msg)) && Sized(k) && Sized(Step(k, Call(msg)))
    requires forall i :: 0 <= i < |k.queues[d]| ==> Slot(k.queues[d][i])
    requires forall i :: 0 <= i < |Step(k, Call(msg)).queues[d]| ==> Slot(Step(k, Call(msg)).queues[d][i])
    ensures TakesAny(Step(k, Call(msg)), d)
    ensures InOrder(k, Step(k, Call(msg)), Accepted(k, Call(msg)), Delivered(k, Call(msg)), d)
  {
    hide Blockable, Permitted, SameMail, Mailbox, Handle, KindOf, Target, Defined, Step, Called, Finds, Taken, Waiting,
         Send, Receive, TakesAny, Shaped, To;
    CalledMailbox(k, idle, msg, d);
    var s, to := Called(k, msg), Target(k, msg);
    RescheduledOrder(k, idle, msg, d);
    HandleByKind(k, idle, msg);
    CallKinds(k, idle, msg);
    CalledMail(k, idle, msg, d);
    SameFinds(k, s, if to == ANY || Slot(to) then to else ANY);
    ToOne(Parcel(k.running, to, s.mem(msg)), d);
    match KindOf(k, msg)
    case Nothing => NothingInOrder(k, idle, msg, d);
    case Sending(nb) =>
      SendInOrder(s, to, msg, nb, d);
      SendStatus(s, to, msg, nb);
      DirectLetter(k, idle, msg, nb);
    case Receiving =>
      ReceiveInOrder(s, to, msg, d);
      ToOne(Parcel(Taken(k, to), k.running, Step(k, Call(msg)).mem(msg)), d);
  }

  lemma SendStatus(s: Kernel, to: int, msg: Pointer, nb: bool)
    requires Inv(s) && Shaped(s) && Slot(to) && to != s.running
    ensures Send(s, to, msg, nb).status == 0 <==> Waiting(s.table[to], s.running) || !nb
  {
    hide Waiting, QueuesOk, NoneMissed, Shaped;
    RunningIsFree(s);
  }

  lemma DirectLetter(k: Kernel, idle: int, msg: Pointer, nb: bool)
    requires Safe(k, idle) && Permitted(k, idle, Call(msg)) && KindOf(k, msg) == Sending(nb) && Defined(k, Call(msg))
    ensures var s, to := Called(k, msg), Target(k, msg);
            Slot(to) && s.mem(msg) == k.mem(msg).(source := k.running)
            && (Waiting(k.table[to], k.running) ==> Step(k, Call(msg)).mem(k.table[to].msg) == s.mem(msg))
  {
    hide Blockable, Permitted, SameMail, Handle, KindOf, Target, Defined, Step, Called, Waiting, Send, Shaped;
    HandleByKind(k, idle, msg);
    SafeIsSized(k, idle);
    var to := Target(k, msg);
    CalledMail(k, idle, msg, to);
    CallMail(k, idle, msg, to);
    if Waiting(k.table[to], k.running) { DirectMail(Called(k, msg), to, msg, nb, to); }
  }

  ghost predicate AlwaysAny(k: Kernel, es: Run, d: int) {
    es != [] ==>
      var before := es[..|es| - 1];
      AlwaysAny(k, before, d) && Sized(After(k, before)) && AsksAny(After(k, before), es[|es| - 1], d)
  }

  /** Main result: a process that receives from anyone gets its letters in the order they were sent to it,
      whoever sent them; what is still to come waits in the queue in that order. */
  lemma {:induction false} ArrivalOrder(k: Kernel, idle: int, es: Run, d: int)
    requires Safe(k, idle) && PermittedRun(k, idle, es) && Slot(d) && Sized(k) && TakesAny(k, d) && AlwaysAny(k, es, d)
    ensures var u := After(k, es);
            DefinedRun(k, es) && Sized(u) && TakesAny(u, d)
            && (forall i :: 0 <= i < |k.queues[d]| ==> Slot(k.queues[d][i]))
            && (forall i :: 0 <= i < |u.queues[d]| ==> Slot(u.queues[d][i]))
            && Mailbox(k, k.queues[d]) + To(AcceptedIn(k, es), d) == To(DeliveredIn(k, es), d) + Mailbox(u, u.queues[d])
  {
    hide Inv, Alive, Permitted, Step, Defined, Accepted, Delivered, To, TakesAny, AsksAny, Mailbox;
    PermittedRunIsDefined(k, idle, es);
    QueueSlotsSafe(k, idle, d);
    ToOne(Parcel(0, 0, k.mem(Null)), d);
    if es != [] {
      var before, e := es[..|es| - 1], es[|es| - 1];
      var m := After(k, before);
      ArrivalOrder(k, idle, before, d);
      RunKeepsSafe(k, idle, before);
      StepInOrder(m, idle, e, d);
      ToConcat(AcceptedIn(k, before), Accepted(m, e), d);
      ToConcat(DeliveredIn(k, before), Delivered(m, e), d);
      calc {
        Mailbox(k, k.queues[d]) + To(AcceptedIn(k, es), d);
        (Mailbox(k, k.queues[d]) + To(AcceptedIn(k, before), d)) + To(Accepted(m, e), d);
        To(DeliveredIn(k, before), d) + (Mailbox(m, m.queues[d]) + To(Accepted(m, e), d));
        To(DeliveredIn(k, es), d) + Mailbox(After(k, es), After(k, es).queues[d]);
      }
    }
  }

  lemma QueueSlotsSafe(k: Kernel, idle: int, d: int)
    requires Safe(k, idle) && Slot(d)
    ensures Sized(k) && forall i :: 0 <= i < |k.queues[d]| ==> Slot(k.queues[d][i])
  {
    hide Blockable;
    QueueSlots(k, d);
  }
}
