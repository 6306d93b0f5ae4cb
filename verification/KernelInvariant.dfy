/** What every run of the kernel keeps: queues, process states and no missed rendezvous. */
module KernelInvariant {
  import opened Kernel

  // ---------------------------------------------------------------- the invariant

  /** The link after the i-th member of a list. */
  function LinkAfter(q: seq<int>, i: nat): int
    requires i < |q|
  {
    if i + 1 < |q| then q[i + 1] else NIL
  }

  /** The linked list of senders to d, read from the table, is the list q, and all on it are sending to d. */
  predicate Linked(t: Table, d: int, q: seq<int>)
    requires |t| == SLOTS && Slot(d)
  {
    t[d].head == (if q == [] then NIL else q[0])
    && (forall i :: 0 <= i < |q| ==> Slot(q[i]) && t[q[i]].state == SENDING && t[q[i]].sendTo == d)
    && (forall i :: 0 <= i < |q| ==> t[q[i]].next == LinkAfter(q, i))
    && (forall i, j :: 0 <= i < j < |q| ==> q[i] != q[j])
  }

  /** Every sender is on the queue of its target. */
  predicate Queued(t: Table, queues: Queues, p: int)
    requires |t| == SLOTS && |queues| == SLOTS && Slot(p)
  {
    t[p].state == SENDING ==> Slot(t[p].sendTo) && p in queues[t[p].sendTo]
  }

  ghost predicate QueuesOk(t: Table, queues: Queues)
    requires |t| == SLOTS && |queues| == SLOTS
  {
    (forall d :: Slot(d) ==> Linked(t, d, queues[d])) && (forall p :: Slot(p) ==> Queued(t, queues, p))
  }

  predicate OwnBuffer(msg: Pointer, i: int) { msg.Cell? && msg.owner == i }

  /** What the fields of slot i say in each state. */
  predicate ProcessOk(p: Process, i: int, mem: Memory) {
    |p.regs| == FRAME && (p.pid == i || (p.pid == NIL && p.state == UNDEF))
    && (p.pid == i ==> p.state == RUNNING || p.state == READY || p.state == SENDING || p.state == RECEIVING)
    && (if p.state == SENDING then
          p.sendTo != i && p.recvFrom == NONE && OwnBuffer(p.msg, i) && mem(p.msg).source == i
        else p.sendTo == NONE && p.next == NIL)
    && (if p.state == RECEIVING then p.recvFrom != NONE && p.recvFrom != i && OwnBuffer(p.msg, i)
        else p.recvFrom == NONE)
    && (p.state != SENDING && p.state != RECEIVING ==> p.msg == Null)
  }

  /** A sender is never queued on a receiver that would take it. */
  predicate NoneMissed(t: Table, p: int)
    requires |t| == SLOTS && Slot(p)
  {
    t[p].state == SENDING && Slot(t[p].sendTo) ==> !Waiting(t[t[p].sendTo], p)
  }

  predicate Sized(k: Kernel) {
    |k.table| == SLOTS && |k.queues| == SLOTS && Slot(k.running) && |k.frame| == FRAME
  }

  /** The invariant but for the state of the running process, which a request may have blocked. */
  ghost predicate Blockable(k: Kernel) {
    Sized(k)
    && QueuesOk(k.table, k.queues)
    && (forall i :: Slot(i) ==> ProcessOk(k.table[i], i, k.mem))
    && (forall p :: Slot(p) ==> NoneMissed(k.table, p))
    && (forall i :: Slot(i) && i != k.running ==> k.table[i].state != RUNNING)
    && k.table[k.running].pid == k.running && k.table[k.running].state != READY
    && (k.starting ==> k.running == 1 && k.table[1].state == RUNNING)
  }

  ghost predicate Inv(k: Kernel) { Blockable(k) && k.table[k.running].state == RUNNING }

  lemma BlockableIsShaped(k: Kernel)
    requires Blockable(k)
    ensures Shaped(k)
  {
    hide ProcessOk, NoneMissed;
    forall d, i | 0 <= d < SLOTS && 0 <= i < |k.queues[d]|
      ensures Slot(k.queues[d][i])
    {
      assert Linked(k.table, d, k.queues[d]);
    }
    forall d | 0 <= d < SLOTS
      ensures k.table[d].head == if k.queues[d] == [] then NIL else k.queues[d][0]
    {
      assert Linked(k.table, d, k.queues[d]);
    }
  }

  // ---------------------------------------------------------------- what the invariant means

  /** A process is sending exactly when it is on a queue; then it is on one queue, once. */
  lemma SendingIffQueuedOnce(k: Kernel, p: int)
    requires Blockable(k) && Slot(p)
    ensures k.table[p].state == SENDING <==> exists d, i :: Slot(d) && 0 <= i < |k.queues[d]| && k.queues[d][i] == p
    ensures forall d, i, e, j ::
              Slot(d) && Slot(e) && 0 <= i < |k.queues[d]| && 0 <= j < |k.queues[e]|
              && k.queues[d][i] == p == k.queues[e][j]
              ==> d == e == k.table[p].sendTo && i == j
  {
    hide ProcessOk, NoneMissed;
    assert Queued(k.table, k.queues, p);
    if k.table[p].state == SENDING {
      var d := k.table[p].sendTo;
      var i :| 0 <= i < |k.queues[d]| && k.queues[d][i] == p;
    }
    forall d, i | Slot(d) && 0 <= i < |k.queues[d]| && k.queues[d][i] == p
      ensures k.table[p].state == SENDING && d == k.table[p].sendTo
    {
      assert Linked(k.table, d, k.queues[d]);
    }
    if k.table[p].state == SENDING { assert Linked(k.table, k.table[p].sendTo, k.queues[k.table[p].sendTo]); }
  }

  /** A receiver finds a waiting sender exactly when one it accepts is queued on it. */
  lemma FindsIffQueued(k: Kernel, src: int)
    requires Inv(k) && (src == ANY || Slot(src))
    ensures Shaped(k)
    ensures Finds(k, src) <==> (if src == ANY then k.queues[k.running] != [] else src in k.queues[k.running])
    ensures Finds(k, src) ==> Taken(k, src) in k.queues[k.running] && Slot(Taken(k, src))
  {
    hide NoneMissed, MasksAsSending;
    BlockableIsShaped(k);
    assert Linked(k.table, k.running, k.queues[k.running]);
    if src != ANY {
      assert ProcessOk(k.table[src], src, k.mem) && Queued(k.table, k.queues, src);
    }
  }

  // ---------------------------------------------------------------- queue operations

  /** Slot d with p, already sending to it, appended after the list q. */
  lemma AppendedList(t: Table, d: int, q: seq<int>, p: int, u: Table)
    requires |t| == SLOTS && Slot(d) && Slot(p) && p !in q && d != p && Linked(t, d, q)
    requires |u| == SLOTS && u[p].state == SENDING && u[p].sendTo == d && u[p].next == NIL
    requires forall x :: Slot(x) && x != p ==>
               u[x] == t[x].(head := if x == d && q == [] then p else t[x].head,
                             next := if q != [] && x == q[|q| - 1] then p else t[x].next)
    ensures Linked(u, d, q + [p])
  {
    var r := q + [p];
    forall i | 0 <= i < |r|
      ensures u[r[i]].next == LinkAfter(r, i)
    {
      assert i < |q| ==> r[i] == q[i];
    }
  }

  /** A list survives changes that keep its head and its members' links and targets. */
  lemma OtherList(t: Table, d: int, q: seq<int>, u: Table)
    requires |t| == SLOTS && Slot(d) && Linked(t, d, q)
    requires |u| == SLOTS && u[d].head == t[d].head
    requires forall x :: Slot(x) && x in q ==> u[x].state == SENDING && u[x].sendTo == d && u[x].next == t[x].next
    ensures Linked(u, d, q)
  {
  }

  function SetSending(t: Table, p: int, d: int, msg: Pointer): (u: Table)
    requires |t| == SLOTS && Slot(p)
    ensures |u| == SLOTS
  {
    t[p := t[p].(state := SENDING, sendTo := d, msg := msg)]
  }

  /** Appending p to the queue of d, once the tail is found. */
  lemma EnqueueKeepsQueues(t: Table, queues: Queues, d: int, p: int, msg: Pointer)
    requires |t| == SLOTS && |queues| == SLOTS && Slot(d) && Slot(p) && d != p
    requires QueuesOk(t, queues) && t[p].state == RUNNING && t[p].next == NIL
    ensures var q := queues[d];
            var tail := if q == [] then NIL else q[|q| - 1];
            (SetSending(t, p, d, msg)[d].head != NIL ==> Slot(tail))
            && QueuesOk(Enqueue(SetSending(t, p, d, msg), d, tail, p), queues[d := q + [p]])
  {
    hide Linked, Queued;
    var q := queues[d];
    assert Linked(t, d, q);
    EnqueueEffect(t, d, q, p, msg);
    var v, after := Enqueue(SetSending(t, p, d, msg), d, if q == [] then NIL else q[|q| - 1], p), queues[d := q + [p]];
    forall e | Slot(e)
      ensures Linked(v, e, after[e])
    {
      assert Linked(t, e, queues[e]);
      ListAvoids(t, e, queues[e], p);
      if e == d { AppendedList(t, d, q, p, v); } else {
        ListsDisjoint(t, e, queues[e], d, q);
        OtherList(t, e, queues[e], v);
      }
    }
    forall x | Slot(x)
      ensures Queued(v, after, x)
    {
      assert Queued(t, queues, x);
      QueuedGrows(t, queues, v, after, x, p, d);
    }
  }

  lemma QueuedGrows(t: Table, queues: Queues, v: Table, after: Queues, x: int, p: int, d: int)
    requires |t| == |queues| == |v| == |after| == SLOTS && Slot(x) && Slot(d) && Queued(t, queues, x)
    requires after == queues[d := queues[d] + [p]]
    requires if x == p then v[x].sendTo == d else v[x].state == t[x].state && v[x].sendTo == t[x].sendTo
    ensures Queued(v, after, x)
  {
    assert after[d][|queues[d]|] == p;
  }

  /** A process that is not sending is on no list. */
  lemma ListAvoids(t: Table, d: int, q: seq<int>, p: int)
    requires |t| == SLOTS && Slot(d) && Slot(p) && Linked(t, d, q) && t[p].state != SENDING
    ensures p !in q
  {
  }

  lemma ListsDisjoint(t: Table, d: int, q: seq<int>, e: int, r: seq<int>)
    requires |t| == SLOTS && Slot(d) && Slot(e) && d != e && Linked(t, d, q) && Linked(t, e, r)
    ensures forall x :: x in q ==> Slot(x) && t[x].state == SENDING && t[x].sendTo == d && x !in r
    ensures forall x :: x in r ==> Slot(x) && t[x].sendTo == e && x !in q
  {
  }

  lemma EnqueueEffect(t: Table, d: int, q: seq<int>, p: int, msg: Pointer)
    requires |t| == SLOTS && Slot(d) && Slot(p) && d != p && Linked(t, d, q)
    requires t[p].state != SENDING && t[p].next == NIL
    ensures var tail := if q == [] then NIL else q[|q| - 1];
            (SetSending(t, p, d, msg)[d].head != NIL ==> Slot(tail))
            && var u := Enqueue(SetSending(t, p, d, msg), d, tail, p);
               u[p] == t[p].(state := SENDING, sendTo := d, msg := msg)
               && forall x :: Slot(x) && x != p ==>
                    u[x] == t[x].(head := if x == d && q == [] then p else t[x].head,
                                  next := if q != [] && x == q[|q| - 1] then p else t[x].next)
  {
  }

  /** The table after the i-th sender of r is unlinked and released, slot by slot. */
  predicate UnlinkedAt(t: Table, u: Table, r: int, q: seq<int>, i: nat)
    requires |t| == |u| == SLOTS && i < |q|
  {
    forall x :: 0 <= x < SLOTS ==>
      u[x] == t[x].(head := if x == r && i == 0 then LinkAfter(q, 0) else t[x].head,
                    next := if x == q[i] then NIL
                            else if i > 0 && x == q[i - 1] then LinkAfter(q, i)
                            else t[x].next,
                    msg := if x == q[i] then Null else t[x].msg,
                    sendTo := if x == q[i] then NONE else t[x].sendTo,
                    state := if x == q[i] then READY else t[x].state)
  }

  function Released(u: Table, p: int): (v: Table)
    requires |u| == SLOTS && Slot(p)
    ensures |v| == SLOTS
  {
    u[p := u[p].(msg := Null, sendTo := NONE, state := READY)]
  }

  lemma UnlinkEffect(t: Table, r: int, q: seq<int>, i: nat)
    requires |t| == SLOTS && Slot(r) && i < |q| && Linked(t, r, q) && t[r].state != SENDING
    ensures Slot(q[i]) && (t[r].head == q[i] <==> i == 0)
    ensures t[r].head != q[i] ==> Slot(if i == 0 then NIL else q[i - 1])
    ensures var u := Unlink(t, r, if i == 0 then NIL else q[i - 1], q[i]);
            u[q[i]].msg == t[q[i]].msg && u[q[i]].state == SENDING && UnlinkedAt(t, Released(u, q[i]), r, q, i)
  {
  }

  /** A member of the list other than the one taken out, after the unlinking. */
  lemma UnlinkedMember(t: Table, u: Table, r: int, q: seq<int>, i: nat, k: nat)
    requires |t| == |u| == SLOTS && Slot(r) && i < |q| && Linked(t, r, q) && UnlinkedAt(t, u, r, q, i)
    requires k < |q| && k != i
    ensures Slot(q[k]) && q[k] != q[i] && u[q[k]].state == SENDING && u[q[k]].sendTo == r
    ensures u[q[k]].next == LinkAfter(q, if k + 1 == i then i else k)
  {
    assert t[q[k]].next == LinkAfter(q, k);
    assert i > 0 && k != i - 1 ==> q[k] != q[i - 1];
  }

  lemma RemovedAt(q: seq<int>, i: nat, j: nat)
    requires i < |q| && j < |q| - 1
    ensures var s, k := Remove(q, i), if j < i then j else j + 1;
            |s| == |q| - 1 && s[j] == q[k] && LinkAfter(s, j) == LinkAfter(q, if k + 1 == i then i else k)
  {
  }

  lemma UnlinkedList(t: Table, u: Table, r: int, q: seq<int>, i: nat)
    requires |t| == |u| == SLOTS && Slot(r) && i < |q| && Linked(t, r, q) && UnlinkedAt(t, u, r, q, i)
    ensures Linked(u, r, Remove(q, i))
  {
    hide UnlinkedAt, Linked, LinkAfter;
    var s := Remove(q, i);
    UnlinkedHead(t, u, r, q, i);
    forall j | 0 <= j < |s|
      ensures Slot(s[j]) && u[s[j]].state == SENDING && u[s[j]].sendTo == r && u[s[j]].next == LinkAfter(s, j)
    {
      RemovedAt(q, i, j);
      UnlinkedMember(t, u, r, q, i, if j < i then j else j + 1);
    }
    NoDuplicates(t, r, q);
    RemoveKeepsDistinct(q, i);
    ListFrom(u, r, s);
  }

  lemma NoDuplicates(t: Table, d: int, q: seq<int>)
    requires |t| == SLOTS && Slot(d) && Linked(t, d, q)
    ensures forall i, j :: 0 <= i < j < |q| ==> q[i] != q[j]
  {
  }

  lemma RemoveKeepsDistinct(q: seq<int>, i: nat)
    requires i < |q| && forall i, j :: 0 <= i < j < |q| ==> q[i] != q[j]
    ensures var s := Remove(q, i); forall i, j :: 0 <= i < j < |s| ==> s[i] != s[j]
  {
  }

  lemma ListFrom(u: Table, d: int, s: seq<int>)
    requires |u| == SLOTS && Slot(d) && u[d].head == if s == [] then NIL else s[0]
    requires forall j :: 0 <= j < |s| ==>
               Slot(s[j]) && u[s[j]].state == SENDING && u[s[j]].sendTo == d && u[s[j]].next == LinkAfter(s, j)
    requires forall i, j :: 0 <= i < j < |s| ==> s[i] != s[j]
    ensures Linked(u, d, s)
  {
  }

  lemma UnlinkedHead(t: Table, u: Table, r: int, q: seq<int>, i: nat)
    requires |t| == |u| == SLOTS && Slot(r) && i < |q| && Linked(t, r, q) && UnlinkedAt(t, u, r, q, i)
    ensures var s := Remove(q, i); u[r].head == if s == [] then NIL else s[0]
  {
  }

  /** Unlinking the i-th sender from the queue of r and releasing it. */
  lemma UnlinkKeepsQueues(t: Table, u: Table, queues: Queues, r: int, i: nat)
    requires |t| == |u| == |queues| == SLOTS && Slot(r) && QueuesOk(t, queues)
    requires i < |queues[r]| && UnlinkedAt(t, u, r, queues[r], i)
    ensures QueuesOk(u, queues[r := Remove(queues[r], i)])
  {
    hide Linked, Queued, UnlinkedAt;
    var q, after := queues[r], queues[r := Remove(queues[r], i)];
    assert Linked(t, r, q);
    forall e | Slot(e)
      ensures Linked(u, e, after[e])
    {
      assert Linked(t, e, queues[e]);
      if e == r { UnlinkedList(t, u, r, q, i); } else {
        ListsDisjoint(t, e, queues[e], r, q);
        UnlinkedElsewhere(t, u, r, q, i, e, queues[e]);
        OtherList(t, e, queues[e], u);
      }
    }
    forall x | Slot(x)
      ensures Queued(u, after, x)
    {
      assert Queued(t, queues, x);
      QueuedShrinks(t, u, queues, r, i, x);
    }
  }

  lemma UnlinkedElsewhere(t: Table, u: Table, r: int, q: seq<int>, i: nat, e: int, s: seq<int>)
    requires |t| == |u| == SLOTS && i < |q| && UnlinkedAt(t, u, r, q, i) && Slot(e) && e != r
    requires forall x :: x in s ==> Slot(x) && x !in q
    ensures u[e].head == t[e].head
    ensures forall x :: x in s && Slot(x) ==>
              u[x].state == t[x].state && u[x].sendTo == t[x].sendTo && u[x].next == t[x].next
  {
    assert q[i] in q && (i > 0 ==> q[i - 1] in q);
  }

  lemma QueuedShrinks(t: Table, u: Table, queues: Queues, r: int, i: nat, x: int)
    requires |t| == |u| == |queues| == SLOTS && Slot(r) && Slot(x) && i < |queues[r]|
    requires UnlinkedAt(t, u, r, queues[r], i) && Queued(t, queues, x)
    ensures Queued(u, queues[r := Remove(queues[r], i)], x)
  {
    var q := queues[r];
    if x != q[i] && t[x].state == SENDING && t[x].sendTo == r {
      var j :| 0 <= j < |q| && q[j] == x;
      assert Remove(q, i)[if j < i then j else j - 1] == x;
    }
  }

  /** Changes that leave links, senders and targets alone leave the queues alone. */
  lemma QueuesUnmoved(t: Table, u: Table, queues: Queues)
    requires |t| == |u| == |queues| == SLOTS && QueuesOk(t, queues)
    requires forall x :: 0 <= x < SLOTS ==>
               u[x].head == t[x].head && u[x].next == t[x].next
               && (u[x].state == SENDING <==> t[x].state == SENDING) && u[x].sendTo == t[x].sendTo
    ensures QueuesOk(u, queues)
  {
    forall d | Slot(d)
      ensures Linked(u, d, queues[d])
    {
      assert Linked(t, d, queues[d]);
      OtherList(t, d, queues[d], u);
    }
    forall p | Slot(p)
      ensures Queued(u, queues, p)
    {
      assert Queued(t, queues, p);
    }
  }

  // ---------------------------------------------------------------- messages

  lemma StampKeeps(k: Kernel, msg: Pointer)
    requires Inv(k) && OwnBuffer(msg, k.running)
    ensures Shaped(k) && Inv(Stamp(k, msg)) && Stamp(k, msg).mem(msg).source == k.running
  {
    hide QueuesOk, NoneMissed;
    BlockableIsShaped(k);
    var s := Stamp(k, msg);
    forall i | Slot(i)
      ensures ProcessOk(s.table[i], i, s.mem)
    {
      assert ProcessOk(k.table[i], i, k.mem);
    }
  }

  lemma SendKeeps(k: Kernel, dest: int, msg: Pointer, nonblocking: bool)
    requires Inv(k) && !k.starting && Slot(dest) && dest != k.running
    requires OwnBuffer(msg, k.running) && k.mem(msg).source == k.running
    ensures Shaped(k) && Blockable(Send(k, dest, msg, nonblocking).kernel)
  {
    BlockableIsShaped(k);
    if Waiting(k.table[dest], k.running) {
      DeliverKeeps(k, dest, msg, nonblocking);
    } else if !nonblocking {
      BlockSenderKeeps(k, dest, msg);
    }
  }

  /** No rendezvous is missed if senders and targets are as before and no receiver is new. */
  lemma MissedOnlyByReceivers(t: Table, u: Table, p: int)
    requires |t| == |u| == SLOTS && Slot(p) && NoneMissed(t, p)
    requires u[p].state == SENDING ==> t[p].state == SENDING && u[p].sendTo == t[p].sendTo
    requires forall x ::
               0 <= x < SLOTS && u[x].state == RECEIVING ==> t[x].state == RECEIVING && u[x].recvFrom == t[x].recvFrom
    ensures NoneMissed(u, p)
  {
  }

  /** The state after a send that blocks. */
  lemma SendBlocks(k: Kernel, dest: int, msg: Pointer)
    requires Shaped(k) && Inv(k) && Slot(dest) && dest != k.running && !Waiting(k.table[dest], k.running)
    ensures var me, q := k.running, k.queues[dest];
            var tail := if q == [] then NIL else q[|q| - 1];
            (SetSending(k.table, me, dest, msg)[dest].head != NIL ==> Slot(tail))
            && Send(k, dest, msg, false)
            == Reply(0, k.(table := Enqueue(SetSending(k.table, me, dest, msg), dest, tail, me),
                           queues := k.queues[dest := q + [me]]))
  {
    hide Waiting, ProcessOk, NoneMissed, StartSending, QueuesOk, Enqueue;
  }

  lemma BlockSenderKeeps(k: Kernel, dest: int, msg: Pointer)
    requires Shaped(k) && Inv(k) && !k.starting && Slot(dest) && dest != k.running && !Waiting(k.table[dest], k.running)
    requires OwnBuffer(msg, k.running) && k.mem(msg).source == k.running
    ensures Blockable(Send(k, dest, msg, false).kernel)
  {
    hide QueuesOk, Waiting, Send, Linked, Enqueue, SetSending, ProcessOk, NoneMissed, Shaped;
    var me, u := k.running, Send(k, dest, msg, false).kernel;
    RunningIsFree(k);
    SendBlocks(k, dest, msg);
    EnqueueKeepsQueues(k.table, k.queues, dest, me, msg);
    QueueMembers(k, dest);
    EnqueueEffect(k.table, dest, k.queues[dest], me, msg);
    forall i | Slot(i)
      ensures ProcessOk(u.table[i], i, u.mem)
    {
      assert ProcessOk(k.table[i], i, k.mem);
      if i == me { SenderOk(k.table[i], i, k.mem, dest, msg); }
      else { LinksDoNotMatter(k.table[i], u.table[i], i, k.mem); }
    }
    forall p | Slot(p)
      ensures NoneMissed(u.table, p)
    {
      assert NoneMissed(k.table, p);
      if p != me { MissedOnlyByReceivers(k.table, u.table, p); }
      else { SenderNotMissed(u.table, me, dest, k.table[dest]); }
    }
  }

  lemma RunningIsFree(k: Kernel)
    requires Inv(k)
    ensures var p := k.table[k.running];
            p.pid == k.running && p.next == NIL && p.msg == Null && p.sendTo == NONE && p.recvFrom == NONE
            && |p.regs| == FRAME
  {
    assert ProcessOk(k.table[k.running], k.running, k.mem);
  }

  lemma SenderOk(p: Process, i: int, mem: Memory, dest: int, msg: Pointer)
    requires ProcessOk(p, i, mem) && p.state == RUNNING && dest != i && OwnBuffer(msg, i) && mem(msg).source == i
    ensures ProcessOk(p.(state := SENDING, sendTo := dest, msg := msg), i, mem)
  {
  }

  lemma LinksDoNotMatter(p: Process, r: Process, i: int, mem: Memory)
    requires ProcessOk(p, i, mem) && r == p.(head := r.head, next := r.next)
    requires r.state != SENDING ==> r.next == p.next
    ensures ProcessOk(r, i, mem)
  {
  }

  lemma SenderNotMissed(u: Table, p: int, dest: int, d: Process)
    requires |u| == SLOTS && Slot(p) && Slot(dest) && u[p].sendTo == dest && !Waiting(d, p)
    requires u[dest].state == d.state && u[dest].recvFrom == d.recvFrom
    ensures NoneMissed(u, p)
  {
  }

  lemma QueueMembers(k: Kernel, d: int)
    requires Blockable(k) && Slot(d)
    ensures Linked(k.table, d, k.queues[d])
  {
  }

  lemma DeliverKeeps(k: Kernel, dest: int, msg: Pointer, nonblocking: bool)
    requires Shaped(k) && Inv(k) && Slot(dest) && dest != k.running && Waiting(k.table[dest], k.running)
    ensures Blockable(Send(k, dest, msg, nonblocking).kernel)
  {
    hide QueuesOk, NoneMissed, StopReceiving;
    var u := Send(k, dest, msg, nonblocking).kernel;
    QueuesUnmoved(k.table, u.table, k.queues);
    forall i | Slot(i)
      ensures ProcessOk(u.table[i], i, u.mem)
    {
      assert ProcessOk(k.table[i], i, k.mem) && ProcessOk(k.table[dest], dest, k.mem);
    }
    forall p | Slot(p)
      ensures NoneMissed(u.table, p)
    {
      assert NoneMissed(k.table, p);
      MissedOnlyByReceivers(k.table, u.table, p);
    }
  }

  lemma ReceiveKeeps(k: Kernel, src: int, msg: Pointer)
    requires Inv(k) && !k.starting && (src == ANY || (Slot(src) && src != k.running)) && OwnBuffer(msg, k.running)
    ensures Shaped(k) && (Finds(k, src) ==> Taken(k, src) in k.queues[k.running])
    ensures Blockable(Receive(k, src, msg).kernel)
  {
    hide Receive, Blockable, Finds, Taken, Shaped;
    FindsIffQueued(k, src);
    if Finds(k, src) { TakeKeeps(k, src, msg); } else { BlockReceiverKeeps(k, src, msg); }
  }

  /** The state after a receive that finds its sender. */
  lemma ReceiveTakes(k: Kernel, src: int, msg: Pointer)
    requires Shaped(k) && Inv(k) && (src == ANY || Slot(src)) && Finds(k, src)
    requires Taken(k, src) in k.queues[k.running]
    ensures var me, from, u := k.running, Taken(k, src), Receive(k, src, msg).kernel;
            var q := k.queues[me];
            var i := IndexOf(q, from);
            i < |q| && q[i] == from && u == k.(table := u.table, mem := u.mem, queues := u.queues)
            && |u.table| == SLOTS && UnlinkedAt(k.table, u.table, me, q, i)
            && u.mem == Store(k.mem, msg, k.mem(k.table[from].msg))
            && u.queues == k.queues[me := Remove(q, i)]
  {
    hide ProcessOk, NoneMissed, QueuesOk, Unlink, Linked, UnlinkedAt, Finds, Taken;
    var me, from := k.running, Taken(k, src);
    QueueMembers(k, me);
    UnlinkEffect(k.table, me, k.queues[me], IndexOf(k.queues[me], from));
  }

  lemma TakeKeeps(k: Kernel, src: int, msg: Pointer)
    requires Shaped(k) && Inv(k) && !k.starting
    requires (src == ANY || Slot(src)) && Finds(k, src) && OwnBuffer(msg, k.running)
    requires Taken(k, src) in k.queues[k.running]
    ensures Blockable(Receive(k, src, msg).kernel)
  {
    hide QueuesOk, Receive, Linked, ProcessOk, NoneMissed, Shaped, Finds, Taken, UnlinkedAt;
    var me, from, u := k.running, Taken(k, src), Receive(k, src, msg).kernel;
    var i := IndexOf(k.queues[me], from);
    ReceiveTakes(k, src, msg);
    UnlinkKeepsQueues(k.table, u.table, k.queues, me, i);
    QueueMembers(k, me);
    UnlinkedStates(k.table, u.table, me, k.queues[me], i);
    forall x | Slot(x)
      ensures ProcessOk(u.table[x], x, u.mem)
    {
      assert ProcessOk(k.table[x], x, k.mem);
      OtherBuffersKept(k.table[x], x, k.mem, me, msg, k.mem(k.table[from].msg));
      if x == from { ReleasedOk(k.table[x], u.table[x], x, u.mem); }
      else { LinksDoNotMatter(k.table[x], u.table[x], x, u.mem); }
    }
    forall p | Slot(p)
      ensures NoneMissed(u.table, p)
    {
      assert NoneMissed(k.table, p);
      MissedOnlyByReceivers(k.table, u.table, p);
    }
  }

  lemma UnlinkedStates(t: Table, u: Table, r: int, q: seq<int>, i: nat)
    requires |t| == |u| == SLOTS && Slot(r) && i < |q| && UnlinkedAt(t, u, r, q, i) && Linked(t, r, q)
    ensures Slot(q[i]) && t[q[i]].state == SENDING && t[q[i]].sendTo == r
    ensures u[q[i]] == t[q[i]].(head := u[q[i]].head, next := NIL, msg := Null, sendTo := NONE, state := READY)
    ensures forall x :: Slot(x) && x != q[i] ==>
              u[x] == t[x].(head := u[x].head, next := u[x].next) && (t[x].state != SENDING ==> u[x].next == t[x].next)
  {
  }

  lemma OtherBuffersKept(p: Process, i: int, mem: Memory, me: int, at: Pointer, m: Message)
    requires ProcessOk(p, i, mem) && OwnBuffer(at, me) && (i == me ==> p.state != SENDING)
    ensures ProcessOk(p, i, Store(mem, at, m))
  {
  }

  lemma ReleasedOk(p: Process, r: Process, i: int, mem: Memory)
    requires ProcessOk(p, i, mem) && p.state == SENDING
    requires r == p.(head := r.head, next := NIL, msg := Null, sendTo := NONE, state := READY)
    ensures ProcessOk(r, i, mem)
  {
  }

  lemma BlockReceiverKeeps(k: Kernel, src: int, msg: Pointer)
    requires Shaped(k) && Inv(k) && !k.starting && (src == ANY || (Slot(src) && src != k.running)) && !Finds(k, src)
    requires OwnBuffer(msg, k.running)
    ensures Blockable(Receive(k, src, msg).kernel)
  {
    hide QueuesOk, NoneMissed, StartReceiving, Shaped, Finds;
    var me, u := k.running, Receive(k, src, msg).kernel;
    QueuesUnmoved(k.table, u.table, k.queues);
    FindsIffQueued(k, src);
    forall i | Slot(i)
      ensures ProcessOk(u.table[i], i, u.mem)
    {
      assert ProcessOk(k.table[i], i, k.mem) && ProcessOk(k.table[me], me, k.mem);
      if src != ANY { assert ProcessOk(k.table[src], src, k.mem); }
    }
    forall p | Slot(p)
      ensures NoneMissed(u.table, p)
    {
      assert NoneMissed(k.table, p);
      ReceiverMissesNobody(k, u.table, src, p);
    }
  }

  /** A receiver that found nobody is not passed over by a sender already waiting. */
  lemma ReceiverMissesNobody(k: Kernel, u: Table, src: int, p: int)
    requires Shaped(k) && Inv(k) && (src == ANY || Slot(src)) && !Finds(k, src) && Slot(p)
    requires |u| == SLOTS && forall x :: Slot(x) && x != k.running ==> u[x] == k.table[x]
    requires u[k.running].state == RECEIVING && u[k.running].recvFrom == if src == ANY then ANY else k.table[src].pid
    ensures NoneMissed(u, p)
  {
    hide MasksAsSending, QueuesOk;
    assert NoneMissed(k.table, p);
    FindsIffQueued(k, src);
    SendingQueued(k, p);
    if src != ANY { assert ProcessOk(k.table[src], src, k.mem); }
  }

  lemma SendingQueued(k: Kernel, p: int)
    requires Blockable(k) && Slot(p)
    ensures Queued(k.table, k.queues, p)
  {
  }

  // ---------------------------------------------------------------- scheduling

  ghost predicate SomeoneCanRun(k: Kernel)
    requires |k.table| == SLOTS
  {
    exists i :: Slot(i) && CanRun(k.table[i])
  }

  /** Rescheduling re-establishes the invariant exactly when the running process is not blocked or another
      can run: with nobody ready the scheduler would resume a blocked process. */
  lemma ScheduleKeepsIff(k: Kernel)
    requires Blockable(k)
    ensures Shaped(k)
    ensures Inv(Schedule(k)) <==> k.table[k.running].state == RUNNING || SomeoneCanRun(k)
  {
    hide QueuesOk, NoneMissed, ProcessOk;
    BlockableIsShaped(k);
    if k.table[k.running].state == RUNNING || SomeoneCanRun(k) {
      ScheduleKeeps(k);
    } else {
      BlockedIsNotResumable(k);
    }
  }

  lemma BlockedIsNotResumable(k: Kernel)
    requires Shaped(k) && Blockable(k) && k.table[k.running].state != RUNNING && !SomeoneCanRun(k)
    ensures !Inv(Schedule(k))
  {
    hide QueuesOk, NoneMissed;
    assert ProcessOk(k.table[k.running], k.running, k.mem);
    var u := Schedule(k);
    assert !ProcessOk(u.table[u.running], u.running, u.mem);
  }

  /** The next process is ready, unless nobody is. */
  lemma NextIsReady(k: Kernel)
    requires |k.table| == SLOTS && Slot(k.running)
    ensures var to := GetNext(k.table, k.running); CanRun(k.table[to]) || (to == k.running && !SomeoneCanRun(k))
  {
    hide CanRun;
  }

  lemma ScheduledOk(k: Kernel, i: int)
    requires Shaped(k) && Blockable(k) && (k.table[k.running].state == RUNNING || SomeoneCanRun(k)) && Slot(i)
    ensures ProcessOk(Schedule(k).table[i], i, Schedule(k).mem)
  {
    hide QueuesOk, NoneMissed, GetNext;
    NextIsReady(k);
    assert ProcessOk(k.table[k.running], k.running, k.mem);
    assert ProcessOk(k.table[i], i, k.mem);
  }

  lemma ScheduledMissesNone(k: Kernel, p: int)
    requires Shaped(k) && Blockable(k) && Slot(p)
    ensures NoneMissed(Schedule(k).table, p)
  {
    hide QueuesOk, NoneMissed, ProcessOk;
    assert NoneMissed(k.table, p);
    MissedOnlyByReceivers(k.table, Schedule(k).table, p);
  }

  lemma ScheduleKeeps(k: Kernel)
    requires Shaped(k) && Blockable(k) && (k.table[k.running].state == RUNNING || SomeoneCanRun(k))
    ensures Inv(Schedule(k)) && !Schedule(k).starting
  {
    hide QueuesOk, NoneMissed;
    var u := Schedule(k);
    QueuesUnmoved(k.table, u.table, k.queues);
    forall i | Slot(i)
      ensures ProcessOk(u.table[i], i, u.mem)
    {
      ScheduledOk(k, i);
    }
    forall p | Slot(p)
      ensures NoneMissed(u.table, p)
    {
      ScheduledMissesNone(k, p);
    }
  }
}
