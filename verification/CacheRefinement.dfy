/** Cache and burst memory together behave as one flat memory, whatever the delays. */
module CacheRefinement {
  import opened Wrappers
  import opened Cache

  ghost predicate Total(m: imap<Addr, Word>) { forall x: Addr :: x in m }

  type Memory = m: imap<Addr, Word> | Total(m) ghost witness imap x: Addr :: 0

  // ---------------------------------------------------------------- the memory below

  /** What the burst memory is doing. `Storing` has taken k words of a line; `wait` counts the clocks since
      it pulsed for the next one (0: not yet). `Fetching` has delivered k words; `onBus` says that the last
      pulse was one clock ago, which is when its word is on the bus. */
  datatype Burst =
    | Free
    | Storing(line: LineAddr, k: nat, wait: nat)
    | Fetching(line: LineAddr, k: nat, onBus: bool)

  datatype Low = Low(words: Memory, burst: Burst)

  /** The memory's free choice in a clock: nothing, a ready pulse, or taking the word on the bus. */
  datatype Act = Quiet | Pulse | Take

  /** The burst protocol: no ready while a request is raised; a stored word is taken no sooner than two
      clocks after its pulse; after the last fetched word ready stays up for one more clock. */
  predicate Permitted(burst: Burst, request: bool, act: Act) {
    if request then act == Quiet
    else match burst
      case Free => act != Take
      case Storing(_, _, wait) =>
        if wait == 0 then act != Take else if wait == 1 then act == Quiet else act != Pulse
      case Fetching(_, k, _) => if k == 32 then act == Pulse else act != Take
  }

  function LowStep(low: Low, r: Regs, act: Act): Low {
    if LowWe(r) then Low(low.words[Addr(LowLine(r), 0) := r.spo], Storing(LowLine(r), 1, 0))
    else if LowRd(r) then low.(burst := Fetching(LowLine(r), 0, false))
    else match low.burst
      case Free => low
      case Storing(l, k, wait) =>
        (match act
         case Pulse => low.(burst := if k == 32 then Free else Storing(l, k, 1))
         case Take => if k < 32 then Low(low.words[Addr(l, k) := r.spo], Storing(l, k + 1, 0)) else low
         case Quiet => low.(burst := Storing(l, k, if wait == 1 then 2 else wait)))
      case Fetching(l, k, _) =>
        if act == Pulse
        then low.(burst := if k == 32 then Free else Fetching(l, k + 1, true))
        else low.(burst := Fetching(l, k, false))
  }

  // ---------------------------------------------------------------- the closed system

  /** `flat` is the memory the host believes in: it changes when a write request is accepted.
      `reading` is the address of the last accepted request if that was a read and `a` is still held. */
  datatype System = System(cache: Regs, low: Low, flat: Memory, reading: Option<Addr>)

  /** One clock's free inputs; `noise` is the bus content when the memory promises nothing. */
  datatype Stimulus = Stimulus(a: Addr, d: Word, we: bool, rd: bool, act: Act, noise: Word)

  function BusWord(low: Low, noise: Word): Word {
    match low.burst
    case Fetching(l, k, true) => if 1 <= k <= 32 then low.words[Addr(l, k - 1)] else noise
    case _ => noise
  }

  function InputOf(s: System, st: Stimulus): Input {
    Input(false, st.a, st.d, st.we, st.rd, BusWord(s.low, st.noise), st.act == Pulse)
  }

  /** The environment's obligations: the burst protocol, and `a` held until the cache is ready. */
  predicate Allowed(s: System, st: Stimulus) {
    Permitted(s.low.burst, LowWe(s.cache) || LowRd(s.cache), st.act)
    && (s.cache.state != IDLE ==> st.a == s.cache.hostA)
  }

  predicate Accepts(s: System, st: Stimulus) { s.cache.state == IDLE && (st.we || st.rd) }

  function FlatNext(s: System, st: Stimulus): Memory {
    if Accepts(s, st) && st.we then s.flat[st.a := st.d] else s.flat
  }

  function ReadingNext(s: System, st: Stimulus): Option<Addr> {
    if Accepts(s, st) then (if st.we then None else Some(st.a))
    else if s.reading == Some(st.a) then s.reading
    else None
  }

  function SystemStep(s: System, st: Stimulus): System
    requires s.cache.Shaped()
  {
    System(Step(s.cache, InputOf(s, st)), LowStep(s.low, s.cache, st.act), FlatNext(s, st), ReadingNext(s, st))
  }

  // ---------------------------------------------------------------- the refinement relation

  predicate Busy(r: Regs) { r.state == LOAD || r.state == WRITEBACK || r.state == HIT }

  /** Whether the line index of x is being exchanged right now. */
  predicate InTransfer(r: Regs, x: Addr) { Bursting(r) && x.line.index == r.hostA.line.index }

  predicate Resident(r: Regs, x: Addr)
    requires r.Shaped()
  {
    r.tags[x.line.index].valid && r.tags[x.line.index].line == x.line
  }

  /** Where the current value of x lives: in the cache RAM when x's line is resident (or is the line being
      written back), else in the memory below. */
  function View(r: Regs, words: Memory, x: Addr): Word
    requires r.Shaped()
  {
    if InTransfer(r, x) then
      if r.state == WRITEBACK && x.line == r.burstWbBase then r.ram[Slot(x)] else words[x]
    else
      if Resident(r, x) then r.ram[Slot(x)] else words[x]
  }

  /** The flat memory is the view, but for the write the host has handed over and the cache still holds. */
  ghost predicate Agrees(s: System)
    requires s.cache.Shaped()
  {
    forall x: Addr :: s.flat[x] ==
      if Busy(s.cache) && s.cache.hostWe && x == s.cache.hostA then s.cache.hostD
      else View(s.cache, s.low.words, x)
  }

  /** A clean resident line equals its memory line. */
  ghost predicate CleanLinesEqualMemory(s: System)
    requires s.cache.Shaped()
  {
    forall x: Addr :: Resident(s.cache, x) && !s.cache.tags[x.line.index].dirty && !InTransfer(s.cache, x)
      ==> s.cache.ram[Slot(x)] == s.low.words[x]
  }

  ghost predicate TagsIndexed(r: Regs)
    requires r.Shaped()
  {
    forall i: Index :: r.tags[i].valid ==> r.tags[i].line.index == i
  }

  /** The first n words of a line are the same in RAM and in memory. */
  ghost predicate CopiedUpTo(s: System, line: LineAddr, n: nat)
    requires s.cache.Shaped()
  {
    forall o: Offset :: o < n ==> s.cache.ram[Slot(Addr(line, o))] == s.low.words[Addr(line, o)]
  }

  /** The bookkeeping of a write-back: how far the burst is and what has been copied down. */
  ghost predicate StoringInStep(s: System)
    requires s.cache.Shaped()
  {
    var r, low := s.cache, s.low;
    if r.burstIssue || r.burstIssueDelayed then
      low.burst == Free && r.xferCnt == 0
      && (!r.burstIssue ==> r.spo == r.ram[Slot(Addr(r.burstWbBase, 0))])
    else
      match low.burst
      case Free => r.xferCnt == 32 && CopiedUpTo(s, r.burstWbBase, 32)
      case Storing(l, k, wait) =>
        l == r.burstWbBase && 1 <= k <= 32 && wait <= 2 && (wait > 0 ==> k < 32)
        && r.xferCnt == (if wait > 0 then k else k - 1)
        && (wait == 2 ==> r.spo == r.ram[Slot(Addr(l, k))])
        && CopiedUpTo(s, l, k)
      case Fetching(_, _, _) => false
  }

  /** The bookkeeping of a line load: how far the burst is and what has been copied up. */
  ghost predicate FetchingInStep(s: System)
    requires s.cache.Shaped()
  {
    var r, low := s.cache, s.low;
    if r.burstIssue then low.burst == Free && !r.burstWe
    else
      low.burst.Fetching?
      && var Fetching(l, k, onBus) := low.burst;
         l == r.hostA.line && k <= 32 && onBus == r.burstWe && (onBus ==> k >= 1) && (k == 32 ==> onBus)
         && r.xferCnt == (if k == 0 then 0xffff else k - 1)
         && CopiedUpTo(s, l, if onBus then k - 1 else k)
  }

  ghost predicate InStep(s: System)
    requires s.cache.Shaped()
  {
    var r := s.cache;
    var line := r.hostA.line;
    match r.state
    case INIT => false
    case IDLE => s.low.burst == Free && !r.burstWe
    case HIT => s.low.burst == Free && !r.burstWe && r.tags[line.index] == Tag(line, false, true)
    case WRITEBACK =>
      !r.burstWe && r.burstWbBase.index == line.index && StoringInStep(s)
      && (!r.burstIssue ==> r.tags[line.index] == Tag(line, false, true))
    case LOAD =>
      FetchingInStep(s) && (!r.burstIssue ==> r.tags[line.index] == Tag(line, false, true))
  }

  /** What the last read left on the output, once the cache is idle again. */
  ghost predicate ReadDelivered(s: System)
    requires s.cache.Shaped()
  {
    s.reading.Some? ==>
      if s.cache.state == IDLE then Resident(s.cache, s.reading.value) && s.cache.spo == s.flat[s.reading.value]
      else s.reading.value == s.cache.hostA && !s.cache.hostWe
  }

  ghost predicate Inv(s: System) {
    s.cache.Shaped() && s.cache.wayDone
    && TagsIndexed(s.cache) && InStep(s) && Agrees(s) && CleanLinesEqualMemory(s) && ReadDelivered(s)
  }

  // ---------------------------------------------------------------- every clock keeps the relation

  lemma SlotsInjective()
    ensures forall x: Addr, y: Addr {:trigger Slot(x), Slot(y)} ::
              Slot(x) == Slot(y) ==> x.line.index == y.line.index && x.offset == y.offset
  {
  }

  /** The pending access is carried out on the line that has just arrived. */
  lemma HitNext(s: System, st: Stimulus)
    requires Inv(s) && Allowed(s, st) && s.cache.state == HIT
    ensures var r := s.cache;
            Step(r, InputOf(s, st)) ==
              r.(spo := r.ram[Slot(r.hostA)], burstIssueDelayed := r.burstIssue, state := IDLE,
                 ram := if r.hostWe then r.ram[Slot(r.hostA) := r.hostD] else r.ram,
                 tags := r.tags[r.hostA.line.index := Tag(r.hostA.line, r.hostWe, true)])
    ensures FlatNext(s, st) == s.flat && LowStep(s.low, s.cache, st.act) == s.low
    ensures s.reading.Some? ==> ReadingNext(s, st) == s.reading
  {
    hide Agrees, CleanLinesEqualMemory, CopiedUpTo, TagsIndexed;
  }

  lemma HitStep(s: System, st: Stimulus)
    requires Inv(s) && Allowed(s, st) && s.cache.state == HIT
    ensures Inv(SystemStep(s, st))
  {
    hide Step, LowStep, Slot;
    SlotsInjective();
    HitNext(s, st);
  }

  lemma WbIssueNext(s: System, st: Stimulus)
    requires Inv(s) && Allowed(s, st) && s.cache.state == WRITEBACK && s.cache.burstIssue
    ensures var r := s.cache;
            Step(r, InputOf(s, st)) ==
              r.(spo := r.ram[Slot(Addr(r.burstWbBase, 0))], burstIssueDelayed := true, burstIssue := false,
                 tags := r.tags[r.hostA.line.index := Tag(r.hostA.line, false, true)], xferCnt := 0)
    ensures FlatNext(s, st) == s.flat && LowStep(s.low, s.cache, st.act) == s.low
    ensures s.reading.Some? ==> ReadingNext(s, st) == s.reading
  {
    hide Agrees, CleanLinesEqualMemory, CopiedUpTo, TagsIndexed;
  }

  lemma WbIssue(s: System, st: Stimulus)
    requires Inv(s) && Allowed(s, st) && s.cache.state == WRITEBACK && s.cache.burstIssue
    ensures Inv(SystemStep(s, st))
  {
    hide Step, LowStep, Slot;
    WbIssueNext(s, st);
  }

  lemma WbFirst(s: System, st: Stimulus)
    requires Inv(s) && Allowed(s, st) && s.cache.state == WRITEBACK && !s.cache.burstIssue && s.cache.burstIssueDelayed
    ensures Inv(SystemStep(s, st))
  {
    SlotsInjective();
  }

  /** A clock in mid-write-back: the next word is read out, only a pulse moves the counter. */
  lemma WbStoreNext(s: System, st: Stimulus)
    requires Inv(s) && Allowed(s, st) && s.cache.state == WRITEBACK && s.low.burst.Storing?
    ensures var r := s.cache;
            Step(r, InputOf(s, st)) ==
              r.(spo := r.ram[Slot(Addr(r.burstWbBase, r.xferCnt % 32))],
                 xferCnt := if st.act == Pulse then r.xferCnt + 1 else r.xferCnt)
    ensures FlatNext(s, st) == s.flat
    ensures s.reading.Some? ==> ReadingNext(s, st) == s.reading
  {
    hide Agrees, CleanLinesEqualMemory, CopiedUpTo, TagsIndexed;
  }

  /** The memory takes one word of the line, or none. */
  lemma WbStoreWords(s: System, st: Stimulus)
    requires Inv(s) && Allowed(s, st) && s.cache.state == WRITEBACK && s.low.burst.Storing?
    ensures var x := Addr(s.cache.burstWbBase, s.low.burst.k % 32);
            LowStep(s.low, s.cache, st.act).words
            == if st.act == Take then s.low.words[x := s.cache.ram[Slot(x)]] else s.low.words
  {
    hide Agrees, CleanLinesEqualMemory, CopiedUpTo, TagsIndexed, Slot, ReadDelivered;
    WbStoreNext(s, st);
  }

  /** Copying one more word down changes no view: the line's current value is still the RAM's. */
  lemma WbStoreAgrees(s: System, st: Stimulus)
    requires Inv(s) && Allowed(s, st) && s.cache.state == WRITEBACK && s.low.burst.Storing?
    ensures Agrees(SystemStep(s, st)) && CleanLinesEqualMemory(SystemStep(s, st))
  {
    hide Step, LowStep, CopiedUpTo, Slot, TagsIndexed, ReadDelivered;
    WbStoreNext(s, st);
    WbStoreWords(s, st);
  }

  lemma WbStoreBooks(s: System, st: Stimulus)
    requires Inv(s) && Allowed(s, st) && s.cache.state == WRITEBACK && s.low.burst.Storing?
    ensures SystemStep(s, st).cache.Shaped() && StoringInStep(SystemStep(s, st))
  {
    hide Step, Slot, Agrees, CleanLinesEqualMemory, TagsIndexed, ReadDelivered, CopiedUpTo;
    WbStoreNext(s, st);
    WbStoreCopies(s, st);
  }

  lemma WbStoreCopies(s: System, st: Stimulus)
    requires Inv(s) && Allowed(s, st) && s.cache.state == WRITEBACK && s.low.burst.Storing?
    ensures SystemStep(s, st).cache.Shaped()
    ensures var k := s.low.burst.k;
            CopiedUpTo(SystemStep(s, st), s.cache.burstWbBase, if st.act == Take then k + 1 else k)
  {
    hide Step, Slot, Agrees, CleanLinesEqualMemory, TagsIndexed, ReadDelivered;
    WbStoreNext(s, st);
    WbStoreWords(s, st);
  }

  lemma WbStore(s: System, st: Stimulus)
    requires Inv(s) && Allowed(s, st) && s.cache.state == WRITEBACK && s.low.burst.Storing?
    ensures Inv(SystemStep(s, st))
  {
    hide Step, Slot, Agrees, CleanLinesEqualMemory, StoringInStep, LowStep;
    WbStoreNext(s, st);
    WbStoreAgrees(s, st);
    WbStoreBooks(s, st);
  }

  lemma WbDoneNext(s: System, st: Stimulus)
    requires Inv(s) && Allowed(s, st) && s.cache.state == WRITEBACK && !s.cache.burstIssue && !s.cache.burstIssueDelayed
    requires s.low.burst.Free?
    ensures var r := s.cache;
            Step(r, InputOf(s, st)) ==
              r.(spo := r.ram[Slot(Addr(r.burstWbBase, 0))], burstIssue := true, state := LOAD,
                 xferCnt := if st.act == Pulse then 33 else 32)
    ensures FlatNext(s, st) == s.flat && LowStep(s.low, s.cache, st.act) == s.low
    ensures s.reading.Some? ==> ReadingNext(s, st) == s.reading
  {
    hide Agrees, CleanLinesEqualMemory, CopiedUpTo, TagsIndexed;
  }

  lemma WbDone(s: System, st: Stimulus)
    requires Inv(s) && Allowed(s, st) && s.cache.state == WRITEBACK && !s.cache.burstIssue && !s.cache.burstIssueDelayed
    requires s.low.burst.Free?
    ensures Inv(SystemStep(s, st))
  {
    hide Step, LowStep, Slot;
    WbDoneNext(s, st);
    forall x: Addr | x.line == s.cache.burstWbBase
      ensures s.cache.ram[Slot(x)] == s.low.words[x]
    {
      assert x == Addr(s.cache.burstWbBase, x.offset);
    }
  }

  lemma LdIssue(s: System, st: Stimulus)
    requires Inv(s) && Allowed(s, st) && s.cache.state == LOAD && s.cache.burstIssue
    ensures Inv(SystemStep(s, st))
  {
    SlotsInjective();
  }

  /** A clock in mid-load: the word announced one clock ago goes into the RAM. */
  lemma LdFetchNext(s: System, st: Stimulus)
    requires Inv(s) && Allowed(s, st) && s.cache.state == LOAD && !s.cache.burstIssue && s.low.burst.k < 32
    ensures var r := s.cache;
            var x := Addr(r.hostA.line, r.xferCnt % 32);
            Step(r, InputOf(s, st)) ==
              r.(spo := r.ram[Slot(x)], burstIssueDelayed := false, burstWe := st.act == Pulse,
                 ram := if r.burstWe then r.ram[Slot(x) := s.low.words[x]] else r.ram,
                 xferCnt := if st.act == Pulse then (r.xferCnt + 1) % 0x1_0000 else r.xferCnt)
    ensures FlatNext(s, st) == s.flat
    ensures s.reading.Some? ==> ReadingNext(s, st) == s.reading
  {
    hide Agrees, CleanLinesEqualMemory, CopiedUpTo, TagsIndexed;
  }

  /** Copying one more word up changes no view: the line's current value is still the memory's. */
  lemma LdFetchAgrees(s: System, st: Stimulus)
    requires Inv(s) && Allowed(s, st) && s.cache.state == LOAD && !s.cache.burstIssue && s.low.burst.k < 32
    ensures Agrees(SystemStep(s, st)) && CleanLinesEqualMemory(SystemStep(s, st))
  {
    hide Step, Slot, CopiedUpTo, TagsIndexed, ReadDelivered;
    SlotsInjective();
    LdFetchNext(s, st);
    assert SystemStep(s, st).low.words == s.low.words;
  }

  lemma LdFetchBooks(s: System, st: Stimulus)
    requires Inv(s) && Allowed(s, st) && s.cache.state == LOAD && !s.cache.burstIssue && s.low.burst.k < 32
    ensures SystemStep(s, st).cache.Shaped() && FetchingInStep(SystemStep(s, st))
  {
    hide Step, Slot, Agrees, CleanLinesEqualMemory, TagsIndexed, ReadDelivered;
    SlotsInjective();
    LdFetchNext(s, st);
    var t := SystemStep(s, st);
    assert t.low.words == s.low.words;
    assert CopiedUpTo(t, s.cache.hostA.line, s.low.burst.k);
  }

  lemma LdFetch(s: System, st: Stimulus)
    requires Inv(s) && Allowed(s, st) && s.cache.state == LOAD && !s.cache.burstIssue && s.low.burst.k < 32
    ensures Inv(SystemStep(s, st))
  {
    hide Step, Slot, Agrees, CleanLinesEqualMemory, CopiedUpTo, LowStep;
    LdFetchNext(s, st);
    LdFetchAgrees(s, st);
    LdFetchBooks(s, st);
  }

  lemma LdLastNext(s: System, st: Stimulus)
    requires Inv(s) && Allowed(s, st) && s.cache.state == LOAD && !s.cache.burstIssue && s.low.burst.k == 32
    ensures var r := s.cache;
            var x := Addr(r.hostA.line, 31);
            Step(r, InputOf(s, st)) ==
              r.(spo := r.ram[Slot(x)], burstIssueDelayed := false, burstWe := false,
                 ram := r.ram[Slot(x) := s.low.words[x]], xferCnt := 32, state := HIT)
    ensures FlatNext(s, st) == s.flat && LowStep(s.low, s.cache, st.act) == s.low.(burst := Free)
    ensures s.reading.Some? ==> ReadingNext(s, st) == s.reading
  {
    hide Agrees, CleanLinesEqualMemory, CopiedUpTo, TagsIndexed;
  }

  /** With the last word the whole line is there. */
  lemma LineIsFilled(s: System, st: Stimulus, x: Addr)
    requires Inv(s) && Allowed(s, st) && s.cache.state == LOAD && !s.cache.burstIssue && s.low.burst.k == 32
    requires x.line == s.cache.hostA.line
    ensures Step(s.cache, InputOf(s, st)).ram[Slot(x)] == s.low.words[x]
  {
    hide Step, LowStep, Slot, Agrees, CleanLinesEqualMemory, TagsIndexed, ReadDelivered;
    SlotsInjective();
    LdLastNext(s, st);
    assert x == Addr(s.cache.hostA.line, x.offset);
  }

  lemma LdLastAgrees(s: System, st: Stimulus)
    requires Inv(s) && Allowed(s, st) && s.cache.state == LOAD && !s.cache.burstIssue && s.low.burst.k == 32
    ensures Agrees(SystemStep(s, st)) && CleanLinesEqualMemory(SystemStep(s, st))
  {
    hide Step, LowStep, Slot, TagsIndexed, ReadDelivered, CopiedUpTo;
    SlotsInjective();
    LdLastNext(s, st);
    forall x: Addr | x.line == s.cache.hostA.line
      ensures Step(s.cache, InputOf(s, st)).ram[Slot(x)] == s.low.words[x]
    {
      LineIsFilled(s, st, x);
    }
  }

  lemma LdLast(s: System, st: Stimulus)
    requires Inv(s) && Allowed(s, st) && s.cache.state == LOAD && !s.cache.burstIssue && s.low.burst.k == 32
    ensures Inv(SystemStep(s, st))
  {
    hide Step, LowStep, Slot, Agrees, CleanLinesEqualMemory, CopiedUpTo;
    LdLastNext(s, st);
    LdLastAgrees(s, st);
  }

  lemma IdleQuiet(s: System, st: Stimulus)
    requires Inv(s) && Allowed(s, st) && s.cache.state == IDLE && !Accepts(s, st)
    ensures Inv(SystemStep(s, st))
  {
    SlotsInjective();
  }

  lemma IdleHitNext(s: System, st: Stimulus)
    requires Inv(s) && Allowed(s, st) && Accepts(s, st) && Resident(s.cache, st.a)
    ensures var r := s.cache;
            var i := st.a.line.index;
            Step(r, InputOf(s, st)) ==
              r.(spo := r.ram[Slot(st.a)], burstIssueDelayed := r.burstIssue, burstIssue := true, xferCnt := 0,
                 hostA := st.a, hostD := st.d, hostWe := st.we,
                 ram := if st.we then r.ram[Slot(st.a) := st.d] else r.ram,
                 tags := r.tags[i := Tag(st.a.line, st.we || r.tags[i].dirty, true)])
    ensures LowStep(s.low, s.cache, st.act) == s.low
  {
    hide Agrees, CleanLinesEqualMemory, CopiedUpTo, TagsIndexed, ReadDelivered;
  }

  lemma IdleHit(s: System, st: Stimulus)
    requires Inv(s) && Allowed(s, st) && Accepts(s, st) && Resident(s.cache, st.a)
    ensures Inv(SystemStep(s, st))
  {
    hide Step, LowStep, Slot;
    SlotsInjective();
    IdleHitNext(s, st);
  }

  lemma IdleMissNext(s: System, st: Stimulus)
    requires Inv(s) && Allowed(s, st) && Accepts(s, st) && !Resident(s.cache, st.a)
    ensures var r := s.cache;
            var evicted := r.tags[st.a.line.index];
            var u := r.(spo := r.ram[Slot(st.a)], burstIssueDelayed := r.burstIssue, burstIssue := true, xferCnt := 0,
                        hostA := st.a, hostD := st.d, hostWe := st.we);
            Step(r, InputOf(s, st)) ==
              if evicted.valid && evicted.dirty then u.(state := WRITEBACK, burstWbBase := evicted.line)
              else u.(state := LOAD)
    ensures LowStep(s.low, s.cache, st.act) == s.low
  {
    hide Agrees, CleanLinesEqualMemory, CopiedUpTo, TagsIndexed, ReadDelivered;
  }

  lemma IdleMissAgrees(s: System, st: Stimulus)
    requires Inv(s) && Allowed(s, st) && Accepts(s, st) && !Resident(s.cache, st.a)
    ensures SystemStep(s, st).cache.Shaped()
    ensures Agrees(SystemStep(s, st)) && CleanLinesEqualMemory(SystemStep(s, st))
  {
    hide Step, LowStep, Slot, CopiedUpTo, TagsIndexed, ReadDelivered;
    IdleMissNext(s, st);
  }

  lemma IdleMiss(s: System, st: Stimulus)
    requires Inv(s) && Allowed(s, st) && Accepts(s, st) && !Resident(s.cache, st.a)
    ensures Inv(SystemStep(s, st))
  {
    hide Step, LowStep, Slot, Agrees, CleanLinesEqualMemory;
    IdleMissNext(s, st);
    IdleMissAgrees(s, st);
  }

  lemma SystemKeepsInv(s: System, st: Stimulus)
    requires Inv(s) && Allowed(s, st)
    ensures Inv(SystemStep(s, st))
  {
    hide Step, LowStep, Agrees, CleanLinesEqualMemory, CopiedUpTo, TagsIndexed, ReadDelivered;
    match s.cache.state
    case INIT =>
    case IDLE =>
      if !Accepts(s, st) { IdleQuiet(s, st); }
      else if Resident(s.cache, st.a) { IdleHit(s, st); }
      else { IdleMiss(s, st); }
    case HIT => HitStep(s, st);
    case WRITEBACK =>
      if s.cache.burstIssue { WbIssue(s, st); }
      else if s.cache.burstIssueDelayed { WbFirst(s, st); }
      else if s.low.burst.Free? { WbDone(s, st); }
      else { WbStore(s, st); }
    case LOAD =>
      if s.cache.burstIssue { LdIssue(s, st); }
      else if s.low.burst.k == 32 { LdLast(s, st); }
      else { LdFetch(s, st); }
  }

  // ---------------------------------------------------------------- runs

  /** A finite run, one stimulus per clock. */
  type Script = seq<Stimulus>

  ghost function RunSystem(s: System, script: Script): (t: System)
    requires s.cache.Shaped()
    ensures t.cache.Shaped()
  {
    if script == [] then s
    else SystemStep(RunSystem(s, script[..|script| - 1]), script[|script| - 1])
  }

  /** The environment keeps its obligations at every clock of the run. */
  ghost predicate AllowedRun(s: System, script: Script)
    requires s.cache.Shaped()
  {
    script != [] ==>
      var before := script[..|script| - 1];
      AllowedRun(s, before) && Allowed(RunSystem(s, before), script[|script| - 1])
  }

  /** The flat memory on its own: what the host's accepted writes make of it. */
  ghost function FlatRun(s: System, script: Script): Memory
    requires s.cache.Shaped()
  {
    if script == [] then s.flat
    else
      var before, st := script[..|script| - 1], script[|script| - 1];
      if Accepts(RunSystem(s, before), st) && st.we
      then FlatRun(s, before)[st.a := st.d]
      else FlatRun(s, before)
  }

  lemma {:induction false} RunKeepsInv(s: System, script: Script)
    requires s.cache.Shaped() && Inv(s) && AllowedRun(s, script)
    ensures Inv(RunSystem(s, script))
  {
    hide Inv, SystemStep, Allowed;
    if script != [] {
      var before := script[..|script| - 1];
      RunKeepsInv(s, before);
      SystemKeepsInv(RunSystem(s, before), script[|script| - 1]);
    }
  }

  lemma {:induction false} FlatIsTracked(s: System, script: Script)
    requires s.cache.Shaped()
    ensures RunSystem(s, script).flat == FlatRun(s, script)
  {
    hide Step, LowStep;
    if script != [] { FlatIsTracked(s, script[..|script| - 1]); }
  }

  /** Main result: over every run the environment allows, cache and burst memory hold exactly the flat
      memory made by the accepted writes, and whenever the cache is idle after a read with the address still
      held, the word on its output is the flat memory's word at that address. */
  lemma CacheIsFlatMemory(s: System, script: Script)
    requires s.cache.Shaped() && Inv(s) && AllowedRun(s, script)
    ensures var t := RunSystem(s, script);
            Inv(t) && t.flat == FlatRun(s, script)
            && (t.reading.Some? && t.cache.state == IDLE ==>
                  t.cache.spo == FlatRun(s, script)[t.reading.value])
  {
    hide Inv, RunSystem, FlatRun, AllowedRun;
    RunKeepsInv(s, script);
    FlatIsTracked(s, script);
    ReadyWordIsFlat(RunSystem(s, script));
  }

  lemma ReadyWordIsFlat(s: System)
    requires Inv(s)
    ensures s.reading.Some? && s.cache.state == IDLE ==> s.cache.spo == s.flat[s.reading.value]
  {
  }

  /** When a run comes to rest (no access in flight), reading through the cache's own lookup gives the flat
      memory at every address, so nothing has been lost in an eviction. */
  lemma AtRestNothingLost(s: System, script: Script, x: Addr)
    requires s.cache.Shaped() && Inv(s) && AllowedRun(s, script) && RunSystem(s, script).cache.state == IDLE
    ensures var t := RunSystem(s, script);
            FlatRun(s, script)[x] == if Resident(t.cache, x) then t.cache.ram[Slot(x)] else t.low.words[x]
  {
    hide RunSystem, FlatRun, AllowedRun;
    CacheIsFlatMemory(s, script);
  }

  /** Requests to the burst memory are made only when it is free: no burst is ever cut short. */
  lemma RequestsWhenFree(s: System)
    requires Inv(s)
    ensures LowWe(s.cache) || LowRd(s.cache) ==> s.low.burst == Free
  {
  }

  // ---------------------------------------------------------------- progress

  /** How much is left of the access in flight. */
  function Work(s: System): nat {
    var r := s.cache;
    match r.state
    case INIT => 0
    case IDLE => 0
    case HIT => 1
    case LOAD =>
      if r.burstIssue then 36
      else (match s.low.burst case Fetching(_, k, _) => if k <= 32 then 34 - k else 0 case _ => 0)
    case WRITEBACK =>
      if r.burstIssue then 142
      else if r.burstIssueDelayed then 141
      else (match s.low.burst
            case Free => 37
            case Storing(_, k, wait) => if k <= 32 && wait <= 2 then 38 + 3 * (32 - k) + 2 - wait else 0
            case Fetching(_, _, _) => 0)
  }

  lemma WorkIsBounded(s: System)
    requires Inv(s)
    ensures Work(s) <= 142 && (Work(s) == 0 <==> s.cache.state == IDLE)
  {
    hide Agrees, CleanLinesEqualMemory, CopiedUpTo, TagsIndexed, ReadDelivered, Slot;
  }

  /** The burst memory makes no move in a clock in which it could. */
  predicate Stalls(s: System, st: Stimulus) {
    st.act == Quiet
    && match s.low.burst
       case Free => false
       case Storing(_, _, wait) => wait != 1
       case Fetching(_, _, _) => true
  }

  lemma WayKeepsControl(r: Regs, inp: Input)
    requires r.Shaped()
    ensures var t := WayNext(r, inp);
            t.state == r.state && t.burstIssue == r.burstIssue && t.burstIssueDelayed == r.burstIssue
  {
  }

  /** An access in flight gets on in every clock the burst memory does not stall, and never falls back;
      at most 142 moving clocks complete a miss. */
  lemma AccessGetsOn(s: System, st: Stimulus)
    requires Inv(s) && Allowed(s, st)
    ensures s.cache.state != IDLE && !Stalls(s, st) ==> Work(SystemStep(s, st)) < Work(s)
    ensures s.cache.state != IDLE && Stalls(s, st) ==> Work(SystemStep(s, st)) == Work(s)
    ensures Work(s) == 0 <==> s.cache.state == IDLE
    ensures Work(s) <= 142
  {
    hide Agrees, CleanLinesEqualMemory, CopiedUpTo, TagsIndexed, ReadDelivered, Slot, WayNext;
    WayKeepsControl(s.cache, InputOf(s, st));
    match s.cache.state
    case INIT =>
    case IDLE =>
    case HIT => HitNext(s, st);
    case WRITEBACK =>
      if s.cache.burstIssue { WbIssueNext(s, st); }
      else if s.cache.burstIssueDelayed { }
      else if s.low.burst.Free? { WbDoneNext(s, st); }
      else { WbStoreNext(s, st); }
    case LOAD =>
      if s.cache.burstIssue { }
      else if s.low.burst.k == 32 { LdLastNext(s, st); }
      else { LdFetchNext(s, st); }
  }

  // ---------------------------------------------------------------- reset

  /** One clock of reset and 257 clocks of sweeping. */
  function Sweep(r: Regs, resetInp: Input, inps: seq<Input>): (t: Regs)
    requires r.Shaped()
    ensures t.Shaped()
  {
    if inps == [] then Step(r, resetInp)
    else Step(Sweep(r, resetInp, inps[..|inps| - 1]), inps[|inps| - 1])
  }

  lemma SweepStep(r: Regs, inp: Input)
    requires r.Shaped() && r.state == INIT && !inp.rst && !r.burstWe && !r.wayDone
    ensures Step(r, inp) == r.(tags := r.tags[r.sweep := NoTag], wayDone := r.sweep == 255,
                               sweep := (r.sweep + 1) % 256, spo := r.ram[Slot(r.hostA)],
                               burstIssueDelayed := r.burstIssue)
  {
  }

  lemma ResetStep(r: Regs, inp: Input)
    requires r.Shaped() && inp.rst
    ensures var t := Step(r, inp);
            t.state == INIT && !t.burstWe && !t.burstIssue && !t.wayDone && t.sweep == 0
  {
  }

  /** After reset the sweep clears one tag a clock, whatever was there before. */
  lemma {:induction false} SweepClears(r: Regs, resetInp: Input, inps: seq<Input>)
    requires r.Shaped() && resetInp.rst && |inps| <= 256
    requires forall k :: 0 <= k < |inps| ==> !inps[k].rst && !inps[k].Request()
    ensures var t := Sweep(r, resetInp, inps);
            t.state == INIT && !t.burstWe && !t.burstIssue
            && t.wayDone == (|inps| == 256) && (|inps| < 256 ==> t.sweep == |inps|)
            && forall i: Index :: i < |inps| ==> t.tags[i] == NoTag
  {
    hide Step;
    if inps != [] {
      SweepClears(r, resetInp, inps[..|inps| - 1]);
      SweepStep(Sweep(r, resetInp, inps[..|inps| - 1]), inps[|inps| - 1]);
    } else {
      ResetStep(r, resetInp);
    }
  }

  /** Reset from any state at all, 256 sweeping clocks and one more reach a state in which the flat memory is
      the memory below: every run that starts with a reset satisfies the refinement from then on. */
  lemma ResetEstablishesInv(r: Regs, resetInp: Input, inps: seq<Input>, words: Memory)
    requires r.Shaped() && resetInp.rst && |inps| == 257
    requires forall k :: 0 <= k < |inps| ==> !inps[k].rst && !inps[k].Request()
    ensures Inv(System(Sweep(r, resetInp, inps), Low(words, Free), words, None))
    ensures Sweep(r, resetInp, inps).state == IDLE
  {
    SweepClears(r, resetInp, inps[..256]);
    var t := Sweep(r, resetInp, inps[..256]);
    assert Sweep(r, resetInp, inps) == Step(t, inps[256]);
    var u := Step(t, inps[256]);
    assert u.tags == t.tags && u.state == IDLE && !u.burstWe && u.wayDone;
    assert forall i: Index :: u.tags[i] == NoTag;
  }
}
