/** The two pointer slips of the message code as it stands: exactly when they are harmless, and that
    otherwise no sender queues at all describe the table they leave. */
module KernelSlips {
  import opened Wrappers
  import opened Kernel
  import opened KernelInvariant

  // ---------------------------------------------------------------- queueing

  /** The tail walk as coded tests the receiver's own link: it stops at once at the head of the queue, or
      walks past the end of the list and through a null pointer (None). */
  function EnqueueAsCoded(t: Table, dest: int, p: int): Option<Table>
    requires |t| == SLOTS && Slot(dest) && Slot(p) && (t[dest].head == NIL || Slot(t[dest].head))
  {
    var first := t[dest].head;
    if first == NIL then Some(t[dest := t[dest].(head := p)])
    else if t[dest].next == NIL then Some(t[first := t[first].(next := p)])
    else None
  }

  /** A send that has to wait is queued as intended exactly when the receiver's queue is empty, or holds one
      sender and the receiver is not itself linked to another sender behind it. */
  lemma EnqueueAsCodedIff(k: Kernel, d: int, msg: Pointer)
    requires Inv(k) && Slot(d) && d != k.running
    ensures var me, q := k.running, k.queues[d];
            var t, tail := SetSending(k.table, me, d, msg), if q == [] then NIL else q[|q| - 1];
            (t[d].head == NIL || Slot(t[d].head)) && (t[d].head != NIL ==> Slot(tail))
            && (EnqueueAsCoded(t, d, me) == Some(Enqueue(t, d, tail, me))
                <==> q == [] || (k.table[q[0]].next == NIL && k.table[d].next == NIL))
  {
    hide ProcessOk, NoneMissed, Queued;
    RunningIsFree(k);
    QueueMembers(k, d);
    var me, q := k.running, k.queues[d];
    var t := SetSending(k.table, me, d, msg);
    if q != [] && k.table[d].next == NIL {
      EnqueueEffect(k.table, d, q, me, msg);
      var u := t[q[0] := t[q[0]].(next := me)];
      assert u[q[0]].next == me && t[q[|q| - 1]].next == NIL;
      assert |q| > 1 ==> q[0] != q[|q| - 1] && u[q[|q| - 1]].next == NIL;
      assert |q| > 1 <==> k.table[q[0]].next != NIL;
    }
  }

  /** Otherwise the code walks off the list, or it cuts the queue behind its first sender: the second one is
      then sending but on no queue, however the queues are read. */
  lemma EnqueueAsCodedLosesSenders(k: Kernel, d: int, msg: Pointer, queues: Queues)
    requires Inv(k) && Slot(d) && d != k.running && |queues| == SLOTS
    requires k.queues[d] != [] && !(k.table[k.queues[d][0]].next == NIL && k.table[d].next == NIL)
    ensures var t := SetSending(k.table, k.running, d, msg);
            (t[d].head == NIL || Slot(t[d].head))
            && match EnqueueAsCoded(t, d, k.running)
               case None => true
               case Some(u) => |u| == SLOTS && !QueuesOk(u, queues)
  {
    hide ProcessOk, NoneMissed, Queued;
    RunningIsFree(k);
    QueueMembers(k, d);
    var me, q := k.running, k.queues[d];
    var t := SetSending(k.table, me, d, msg);
    if k.table[d].next == NIL {
      var u := t[q[0] := t[q[0]].(next := me)];
      assert |q| > 1 && q[1] != q[0];
      CutQueue(u, queues, d, q[0], me, q[1]);
    }
  }

  lemma ListOfTwo(u: Table, d: int, r: seq<int>, a: int, b: int)
    requires |u| == SLOTS && Slot(d) && Slot(a) && Slot(b) && Linked(u, d, r)
    requires u[d].head == a && u[a].next == b && u[b].next == NIL
    ensures r == [a, b]
  {
    assert u[r[0]].next == LinkAfter(r, 0);
    assert u[r[1]].next == LinkAfter(r, 1);
  }

  /** A list a, b cannot also hold c, though c is sending to its owner. */
  lemma CutQueue(u: Table, queues: Queues, d: int, a: int, b: int, c: int)
    requires |u| == |queues| == SLOTS && Slot(d) && Slot(a) && Slot(b) && Slot(c)
    requires u[d].head == a && u[a].next == b && u[b].next == NIL && c != a && c != b
    requires u[c].state == SENDING && u[c].sendTo == d
    ensures !QueuesOk(u, queues)
  {
    hide Linked;
    if Linked(u, d, queues[d]) {
      ListOfTwo(u, d, queues[d], a, b);
      assert !Queued(u, queues, c);
    }
  }

  // ---------------------------------------------------------------- unlinking

  /** Unlinking as coded: behind the first sender it moves queue heads instead of links. */
  function UnlinkAsCoded(t: Table, r: int, prev: int, p: int): (w: Table)
    requires |t| == SLOTS && Slot(r) && Slot(p) && (t[r].head != p ==> Slot(prev))
    ensures |w| == SLOTS
  {
    if t[r].head == p then
      var u := t[r := t[r].(head := t[p].next)];
      u[p := u[p].(next := NIL)]
    else
      var u := t[prev := t[prev].(head := t[p].head)];
      u[p := u[p].(head := NIL)]
  }

  /** A receive that found its sender unlinks it as intended exactly when that sender is first in the queue. */
  lemma UnlinkAsCodedIff(k: Kernel, i: nat)
    requires Inv(k) && i < |k.queues[k.running]|
    ensures var me, q := k.running, k.queues[k.running];
            var prev := if i == 0 then NIL else q[i - 1];
            Slot(q[i]) && (k.table[me].head != q[i] ==> Slot(prev))
            && (UnlinkAsCoded(k.table, me, prev, q[i]) == Unlink(k.table, me, prev, q[i]) <==> k.table[me].head == q[i])
  {
    hide ProcessOk, NoneMissed, Queued;
    var me, q := k.running, k.queues[k.running];
    QueueMembers(k, me);
    UnlinkEffect(k.table, me, q, i);
    if i > 0 {
      var w, v := UnlinkAsCoded(k.table, me, q[i - 1], q[i]), Unlink(k.table, me, q[i - 1], q[i]);
      assert w[q[i - 1]].next == k.table[q[i - 1]].next == q[i];
      assert v[q[i - 1]].next == k.table[q[i]].next;
      NextIsNotSelf(k.table, me, q, i);
    }
  }

  lemma NextIsNotSelf(t: Table, d: int, q: seq<int>, i: nat)
    requires |t| == SLOTS && Slot(d) && Linked(t, d, q) && i < |q|
    ensures t[q[i]].next != q[i]
  {
    assert t[q[i]].next == LinkAfter(q, i);
  }

  /** Otherwise the sender it releases stays linked in the queue: however the queues are read, one of them
      holds a process that is not sending. */
  lemma UnlinkAsCodedKeepsLink(k: Kernel, i: nat, queues: Queues)
    requires Inv(k) && 0 < i < |k.queues[k.running]| && |queues| == SLOTS
    ensures var me, q := k.running, k.queues[k.running];
            Slot(q[i]) && Slot(q[i - 1])
            && !QueuesOk(Released(UnlinkAsCoded(k.table, me, q[i - 1], q[i]), q[i]), queues)
  {
    hide ProcessOk, NoneMissed, Queued, UnlinkAsCoded, Released;
    var me, q := k.running, k.queues[k.running];
    QueueMembers(k, me);
    var u := Released(UnlinkAsCoded(k.table, me, q[i - 1], q[i]), q[i]);
    CodedLinks(k.table, me, q, i);
    if Linked(u, me, queues[me]) { SameChain(k.table, u, me, q, queues[me], i); }
    assert u[q[i]].state == READY;
    assert !Linked(u, me, queues[me]);
  }

  lemma CodedLinks(t: Table, me: int, q: seq<int>, i: nat)
    requires |t| == SLOTS && Slot(me) && Linked(t, me, q) && 0 < i < |q| && t[me].state == RUNNING
    ensures Slot(q[i]) && Slot(q[i - 1]) && t[me].head != q[i]
    ensures var u := Released(UnlinkAsCoded(t, me, q[i - 1], q[i]), q[i]);
            u[me].head == t[me].head && u[q[i]].state == READY && forall x :: 0 <= x < SLOTS ==> u[x].next == t[x].next
  {
  }

  /** Two lists with the same head and the same links up to position i agree there. */
  lemma {:induction false} SameChain(t: Table, u: Table, d: int, q: seq<int>, r: seq<int>, i: nat)
    requires |t| == |u| == SLOTS && Slot(d) && Linked(t, d, q) && Linked(u, d, r) && i < |q|
    requires u[d].head == t[d].head && forall j :: 0 <= j < i ==> u[q[j]].next == t[q[j]].next
    ensures i < |r| && r[i] == q[i]
  {
    if i > 0 {
      SameChain(t, u, d, q, r, i - 1);
      assert t[q[i - 1]].next == LinkAfter(q, i - 1) && u[r[i - 1]].next == LinkAfter(r, i - 1);
    }
  }

  // ---------------------------------------------------------------- the failing states exist

  function Ordinary(i: int, state: bv16): Process {
    Process(i, state, 0, seq(FRAME, _ => 0), NONE, NONE, Null, NIL, NIL)
  }

  /** Process 4 is computing while 2 and 3 wait to send to it, in that order; 1 can run. */
  function TwoWaitingAt(i: int): Process {
    if i == 1 then Ordinary(1, READY)
    else if i == 2 then Ordinary(2, SENDING).(sendTo := 4, msg := Cell(2, 0), next := 3)
    else if i == 3 then Ordinary(3, SENDING).(sendTo := 4, msg := Cell(3, 0))
    else if i == 4 then Ordinary(4, RUNNING).(head := 2)
    else Ordinary(NIL, UNDEF)
  }

  function TwoWaiting(): Kernel {
    Kernel(seq(SLOTS, i => TwoWaitingAt(i)), seq(SLOTS, i => if i == 4 then [2, 3] else []), 4, false,
           seq(FRAME, _ => 0), 0, (p: Pointer) => Message(0, if p.Cell? then p.owner else 0, []))
  }

  lemma TwoWaitingTable(i: int)
    requires Slot(i)
    ensures var k := TwoWaiting();
            |k.table| == |k.queues| == SLOTS && k.table[i] == TwoWaitingAt(i)
            && k.queues[i] == if i == 4 then [2, 3] else []
  {
  }

  lemma TwoWaitingQueues(i: int)
    requires Slot(i)
    ensures var k := TwoWaiting(); Linked(k.table, i, k.queues[i]) && Queued(k.table, k.queues, i)
  {
    hide TwoWaiting;
    var k := TwoWaiting();
    TwoWaitingTable(2);
    TwoWaitingTable(3);
    TwoWaitingTable(4);
    TwoWaitingTable(i);
    if i == 2 || i == 3 { assert k.queues[4][i - 2] == i; }
  }

  lemma TwoWaitingSlot(i: int)
    requires Slot(i)
    ensures var k := TwoWaiting();
            ProcessOk(k.table[i], i, k.mem) && NoneMissed(k.table, i) && (i != 4 ==> k.table[i].state != RUNNING)
  {
    TwoWaitingTable(i);
  }

  lemma TwoWaitingIsPossible()
    ensures Inv(TwoWaiting())
  {
    hide Linked, Queued, ProcessOk, NoneMissed;
    var k := TwoWaiting();
    TwoWaitingTable(k.running);
    forall i | Slot(i)
      ensures Linked(k.table, i, k.queues[i]) && Queued(k.table, k.queues, i)
      ensures ProcessOk(k.table[i], i, k.mem) && NoneMissed(k.table, i)
      ensures i != k.running ==> k.table[i].state != RUNNING
    {
      TwoWaitingQueues(i);
      TwoWaitingSlot(i);
    }
  }

  /** Receiving from 3 in that state leaves it queued though it is released. */
  lemma SecondSenderStaysLinked(queues: Queues)
    requires |queues| == SLOTS
    ensures var k := TwoWaiting(); !QueuesOk(Released(UnlinkAsCoded(k.table, 4, 2, 3), 3), queues)
  {
    TwoWaitingIsPossible();
    UnlinkAsCodedKeepsLink(TwoWaiting(), 1, queues);
  }

  /** With 1 running instead, its blocking send to 4 cuts 3 off the queue. */
  lemma ThirdSenderCutsQueue(msg: Pointer, queues: Queues)
    requires |queues| == SLOTS
    ensures var k := TwoWaiting();
            var t := SetSending(k.table[4 := k.table[4].(state := READY)], 1, 4, msg);
            t[4].head == 2 && EnqueueAsCoded(t, 4, 1).Some? && !QueuesOk(EnqueueAsCoded(t, 4, 1).value, queues)
  {
    var k := TwoWaiting();
    TwoWaitingTable(1);
    TwoWaitingTable(2);
    TwoWaitingTable(3);
    TwoWaitingTable(4);
    var t := SetSending(k.table[4 := k.table[4].(state := READY)], 1, 4, msg);
    assert t[4].head == 2;
    var u := EnqueueAsCoded(t, 4, 1).value;
    CutQueue(u, queues, 4, 2, 1, 3);
  }
}
