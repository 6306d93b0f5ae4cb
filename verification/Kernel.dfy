/** The microkernel's process table: rendezvous messages, sender queues and the round-robin scheduler. */
module Kernel {
  import I = Isa

  const SLOTS := 64
  const FRAME := 31

  const RUNNING: bv16 := 0x00
  const SENDING: bv16 := 0x02
  const RECEIVING: bv16 := 0x04
  const READY: bv16 := 0x20
  const UNDEF: bv16 := 0x3f

  const IPC_SEND := 74
  const IPC_RECEIVE := 75
  const ANY := -363
  const NONE := -364

  const OS_SEND_NONBLK := 65532
  const FS_CALLS := {56, 57, 29, 66, 65}
  const KPROC_PID_FS := 5

  /** Null link and null process. */
  const NIL := -1

  datatype Message = Message(function_: int, source: int, param: seq<int>)

  /** A code address, and the address four bytes on. */
  type Address = I.Word

  function FourOn(pc: Address): Address { I.Plus(pc, 4) }

  /** A message buffer, in the memory of the process that owns it. */
  datatype Pointer = Null | Cell(owner: int, index: int)

  type Memory = Pointer -> Message

  function Store(mem: Memory, at: Pointer, m: Message): Memory { (x: Pointer) => if x == at then m else mem(x) }

  /** A slot of the table. Links to other slots are slot numbers. */
  datatype Process = Process(pid: int, state: bv16, pc: Address, regs: seq<int>,
                             sendTo: int, recvFrom: int, msg: Pointer, head: int, next: int)

  type Table = seq<Process>
  type Queues = seq<seq<int>>

  /** `frame` and `mepc` are the trap save area; `queues` spells out the linked lists and is read only for
      where the tail walk and the search end. */
  datatype Kernel = Kernel(table: Table, queues: Queues, running: int, starting: bool,
                           frame: seq<int>, mepc: Address, mem: Memory)

  datatype Reply = Reply(status: int, kernel: Kernel)

  // ---------------------------------------------------------------- status bits

  function StartSending(state: bv16): (r: bv16)
    ensures state == RUNNING ==> r == SENDING
  {
    state | SENDING
  }

  function StartReceiving(state: bv16): (r: bv16)
    ensures state == RUNNING ==> r == RECEIVING
  {
    state | RECEIVING
  }

  function StopSending(state: bv16): (r: bv16)
    ensures state == SENDING ==> r == READY
  {
    (state & !SENDING) | READY
  }

  function StopReceiving(state: bv16): (r: bv16)
    ensures state == RECEIVING ==> r == READY
  {
    (state & !RECEIVING) | READY
  }

  /** The receive path masks the state with the request code 74, not with the state bit. */
  function MasksAsSending(state: bv16): (r: bool)
    ensures state == SENDING ==> r
    ensures state == UNDEF ==> r
    ensures state == RUNNING || state == READY || state == RECEIVING ==> !r
  {
    state & 74 != 0
  }

  // ---------------------------------------------------------------- queues

  function Remove(s: seq<int>, i: nat): seq<int>
    requires i < |s|
  {
    s[..i] + s[i + 1..]
  }

  /** Position of x in s, or |s|. */
  function IndexOf(s: seq<int>, x: int): (i: nat)
    ensures i <= |s| && (i < |s| ==> s[i] == x) && (i == |s| ==> x !in s) && forall j :: 0 <= j < i ==> s[j] != x
  {
    if s == [] then 0 else if s[0] == x then 0 else 1 + IndexOf(s[1..], x)
  }

  predicate Slot(i: int) { 0 <= i < SLOTS }

  /** Queueing p on dest, the tail walk having ended at tail. */
  function Enqueue(t: Table, dest: int, tail: int, p: int): (u: Table)
    requires |t| == SLOTS && Slot(dest) && Slot(p) && (t[dest].head != NIL ==> Slot(tail))
    ensures |u| == SLOTS
  {
    if t[dest].head != NIL then t[tail := t[tail].(next := p)] else t[dest := t[dest].(head := p)]
  }

  /** Unlinking p from the queue of r; prev precedes it unless it is first. */
  function Unlink(t: Table, r: int, prev: int, p: int): (w: Table)
    requires |t| == SLOTS && Slot(r) && Slot(p) && (t[r].head != p ==> Slot(prev))
    ensures |w| == SLOTS
  {
    var u := if t[r].head == p then t[r := t[r].(head := t[p].next)] else t[prev := t[prev].(next := t[p].next)];
    u[p := u[p].(next := NIL)]
  }

  // ---------------------------------------------------------------- messages

  predicate Shaped(k: Kernel) {
    |k.table| == SLOTS && |k.queues| == SLOTS && Slot(k.running)
    && (forall d, i :: 0 <= d < SLOTS && 0 <= i < |k.queues[d]| ==> Slot(k.queues[d][i]))
    && (forall d :: 0 <= d < SLOTS ==> k.table[d].head == if k.queues[d] == [] then NIL else k.queues[d][0])
  }

  predicate Waiting(p: Process, sender: int) {
    p.state == RECEIVING && (p.recvFrom == sender || p.recvFrom == ANY)
  }

  function Send(k: Kernel, dest: int, msg: Pointer, nonblocking: bool): Reply
    requires Shaped(k) && Slot(dest)
  {
    var me, d := k.running, k.table[dest];
    if Waiting(d, k.table[me].pid) then
      var woken := d.(msg := Null, state := StopReceiving(d.state), recvFrom := NONE);
      Reply(0, k.(mem := Store(k.mem, d.msg, k.mem(msg)), table := k.table[dest := woken]))
    else if nonblocking then Reply(-1, k)
    else
      var p := k.table[me];
      var t := k.table[me := p.(state := StartSending(p.state), sendTo := dest, msg := msg)];
      var q := k.queues[dest];
      Reply(0, k.(table := Enqueue(t, dest, if q == [] then NIL else q[|q| - 1], me),
                  queues := k.queues[dest := q + [me]]))
  }

  /** Whether a receive finds its sender waiting. */
  predicate Finds(k: Kernel, src: int)
    requires Shaped(k) && (src == ANY || Slot(src))
  {
    var r := k.table[k.running];
    if src == ANY then r.head != NIL else MasksAsSending(k.table[src].state) && k.table[src].sendTo == r.pid
  }

  /** The sender a receive takes. */
  function Taken(k: Kernel, src: int): int
    requires Shaped(k)
  {
    if src == ANY then k.table[k.running].head else src
  }

  function Receive(k: Kernel, src: int, msg: Pointer): Reply
    requires Shaped(k) && (src == ANY || Slot(src))
    requires Finds(k, src) ==> Taken(k, src) in k.queues[k.running]
  {
    var me := k.running;
    if Finds(k, src) then
      var from, q := Taken(k, src), k.queues[me];
      var i := IndexOf(q, from);
      var t := Unlink(k.table, me, if i == 0 then NIL else q[i - 1], from);
      var p := t[from];
      var woken := p.(msg := Null, sendTo := NONE, state := StopSending(p.state));
      Reply(0,
            k.(mem := Store(k.mem, msg, k.mem(p.msg)), table := t[from := woken],
                        queues := k.queues[me := Remove(q, i)]))
    else
      var p := k.table[me];
      var blocked := p.(state := StartReceiving(p.state), msg := msg,
                        recvFrom := if src == ANY then ANY else k.table[src].pid);
      Reply(0, k.(table := k.table[me := blocked]))
  }

  /** The two entry points stamp the sender's pid on the message first. */
  function Stamp(k: Kernel, msg: Pointer): Kernel
    requires Shaped(k)
  {
    k.(mem := Store(k.mem, msg, k.mem(msg).(source := k.table[k.running].pid)))
  }

  predicate Reachable(k: Kernel, call: int, target: int)
    requires Shaped(k)
  {
    (call == IPC_SEND ==> Slot(target))
    && (call == IPC_RECEIVE ==> (target == ANY || Slot(target))
                                && (Finds(k, target) ==> Taken(k, target) in k.queues[k.running]))
  }

  function SendRec(k: Kernel, call: int, target: int, msg: Pointer): Reply
    requires Shaped(k) && Reachable(k, call, target)
  {
    var s := Stamp(k, msg);
    if call == IPC_SEND then Send(s, target, msg, false)
    else if call == IPC_RECEIVE then Receive(s, target, msg)
    else Reply(-1, s)
  }

  function SendRecNonblock(k: Kernel, call: int, target: int, msg: Pointer): Reply
    requires Shaped(k) && Reachable(k, call, target)
  {
    var s := Stamp(k, msg);
    if call == IPC_SEND then Send(s, target, msg, true) else Reply(-1, s)
  }

  // ---------------------------------------------------------------- scheduling

  predicate CanRun(p: Process) { p.pid != -1 && p.state == READY }

  /** First slot in lo..hi that can run, or NIL. */
  function FirstReady(t: Table, lo: nat, hi: nat): (r: int)
    requires lo <= hi <= |t|
    ensures r == NIL ==> forall i :: lo <= i < hi ==> !CanRun(t[i])
    ensures r != NIL ==> lo <= r < hi && CanRun(t[r]) && forall i :: lo <= i < r ==> !CanRun(t[i])
    decreases hi - lo
  {
    if lo == hi then NIL else if CanRun(t[lo]) then lo else FirstReady(t, lo + 1, hi)
  }

  function GetNext(t: Table, running: nat): (r: int)
    requires |t| == SLOTS && running < SLOTS
    ensures Slot(r)
  {
    var above := FirstReady(t, running + 1, SLOTS);
    var below := FirstReady(t, 0, running);
    if above != NIL then above else if below != NIL then below else running
  }

  /** Saving the interrupted process. */
  function SwitchOut(p: Process, frame: seq<int>, pc: Address): Process {
    p.(regs := frame, state := if p.state == RUNNING then READY else p.state, pc := pc)
  }

  function Schedule(k: Kernel): Kernel
    requires Shaped(k)
  {
    var to := if k.starting then 1 else GetNext(k.table, k.running);
    var t := if k.starting then k.table
             else k.table[k.running := SwitchOut(k.table[k.running], k.frame, k.mepc)];
    k.(starting := false, table := t[to := t[to].(state := RUNNING)],
       frame := t[to].regs, mepc := t[to].pc, running := t[to].pid)
  }

  // ---------------------------------------------------------------- traps

  /** The target of a request that leaves the choice to the kernel. */
  function Resolve(k: Kernel, target: int, msg: Pointer): int {
    if target == -1 && k.mem(msg).function_ in FS_CALLS then KPROC_PID_FS else target
  }

  /** The handler of an environment call, before it reschedules. */
  function Request(k: Kernel, call: int, target: int, msg: Pointer): Reply
    requires Shaped(k) && (Resolve(k, target, msg) != -1 ==> Reachable(k, call, Resolve(k, target, msg)))
  {
    var s, to := k.(mepc := FourOn(k.mepc)), Resolve(k, target, msg);
    if to == -1 then Reply(-1, s)
    else if s.mem(msg).function_ != OS_SEND_NONBLK then SendRec(s, call, to, msg)
    else SendRecNonblock(s, call, to, msg)
  }
}
