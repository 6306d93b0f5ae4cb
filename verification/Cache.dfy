/** The direct-mapped write-back cache with its tag/data way, one clock at a time. */
module Cache {

  type Word = bv32

  const LINES: nat := 256
  const WORDS: nat := 32

  type Index = x: nat | x < 256
  type Offset = x: nat | x < 32

  /** Address bits 31..7: the upper tag bits and the line index. */
  datatype LineAddr = LineAddr(tag: nat, index: Index)

  /** A word address, bits 31..2. */
  datatype Addr = Addr(line: LineAddr, offset: Offset)

  datatype Tag = Tag(line: LineAddr, dirty: bool, valid: bool)

  const NoTag := Tag(LineAddr(0, 0), false, false)

  datatype State = INIT | IDLE | HIT | LOAD | WRITEBACK

  type Count16 = x: int | 0 <= x < 0x1_0000

  /** All registers of the cache and of its way, and the registered RAM output. */
  datatype Regs = Regs(
    state: State, burstIssue: bool, burstIssueDelayed: bool, burstWe: bool, xferCnt: Count16,
    burstWbBase: LineAddr, hostA: Addr, hostD: Word, hostWe: bool,
    wayDone: bool, sweep: Index, tags: seq<Tag>, ram: seq<Word>, spo: Word)
  {
    predicate Shaped() { |tags| == LINES && |ram| == LINES * WORDS }
  }

  /** One clock's inputs: from the host side and from the memory below. */
  datatype Input = Input(rst: bool, a: Addr, d: Word, we: bool, rd: bool, lowSpo: Word, lowReady: bool) {
    predicate Request() { we || rd }
  }

  // ---------------------------------------------------------------- combinational part

  /** The RAM address {index, offset}. */
  function Slot(x: Addr): (n: nat)
    ensures n < LINES * WORDS
  {
    x.line.index * 32 + x.offset
  }

  predicate Bursting(r: Regs) { r.state == WRITEBACK || r.state == LOAD }

  /** The address the way sees. */
  function WayA(r: Regs, inp: Input): Addr {
    match r.state
    case WRITEBACK => Addr(r.burstWbBase, r.xferCnt % 32)
    case LOAD => Addr(r.hostA.line, r.xferCnt % 32)
    case IDLE => inp.a
    case _ => r.hostA
  }

  function WayD(r: Regs, inp: Input): Word {
    if Bursting(r) then inp.lowSpo else if r.state == IDLE then inp.d else r.hostD
  }

  function TagOut(r: Regs, inp: Input): Tag
    requires r.Shaped()
  {
    r.tags[WayA(r, inp).line.index]
  }

  predicate WayHit(r: Regs, inp: Input)
    requires r.Shaped()
  {
    TagOut(r, inp).valid && TagOut(r, inp).line == inp.a.line
  }

  /** Whether a word is written into the RAM on this edge. */
  predicate RamWrite(r: Regs, inp: Input)
    requires r.Shaped()
  {
    match r.state
    case IDLE => inp.Request() && WayHit(r, inp) && inp.we
    case HIT => r.hostWe
    case LOAD => r.burstWe
    case _ => false
  }

  /** Whether the tag is written on this edge; the new tag is always valid and takes its line from `a`. */
  predicate TagWrite(r: Regs, inp: Input)
    requires r.Shaped()
  {
    match r.state
    case IDLE => inp.Request() && WayHit(r, inp)
    case HIT => true
    case LOAD => r.burstIssue
    case WRITEBACK => r.burstIssue
    case INIT => false
  }

  predicate DirtyIn(r: Regs, inp: Input)
    requires r.Shaped()
  {
    match r.state
    case IDLE => if inp.we then true else TagOut(r, inp).dirty
    case HIT => if r.hostWe then true else TagOut(r, inp).dirty
    case _ => false
  }

  predicate Ready(r: Regs, inp: Input) { !inp.Request() && r.state == IDLE }

  predicate LowWe(r: Regs) { r.state == WRITEBACK && r.burstIssueDelayed && !r.burstIssue }

  predicate LowRd(r: Regs) { r.state == LOAD && r.burstIssue }

  /** The line address offered to the memory below. */
  function LowLine(r: Regs): LineAddr { if r.state == WRITEBACK then r.burstWbBase else r.hostA.line }

  // ---------------------------------------------------------------- the clock edge

  function TagsNext(r: Regs, inp: Input): seq<Tag>
    requires r.Shaped()
  {
    if inp.rst then r.tags
    else if !r.wayDone then r.tags[r.sweep := NoTag]
    else if TagWrite(r, inp) then r.tags[WayA(r, inp).line.index := Tag(inp.a.line, DirtyIn(r, inp), true)]
    else r.tags
  }

  /** Tag array, sweep counter and block RAM. */
  function WayNext(r: Regs, inp: Input): (t: Regs)
    requires r.Shaped()
    ensures t.Shaped()
  {
    var w := WayA(r, inp);
    r.(tags := TagsNext(r, inp),
       wayDone := !inp.rst && (r.wayDone || r.sweep == 255),
       sweep := if inp.rst then 0 else if r.wayDone then r.sweep else (r.sweep + 1) % 256,
       ram := if RamWrite(r, inp) then r.ram[Slot(w) := WayD(r, inp)] else r.ram,
       spo := r.ram[Slot(w)],
       burstIssueDelayed := r.burstIssue)
  }

  /** The controller registers; t carries the way registers already advanced from r. */
  function ControlNext(r: Regs, inp: Input, t: Regs): (u: Regs)
    requires r.Shaped()
    ensures u.tags == t.tags && u.ram == t.ram
  {
    if inp.rst then
      t.(hostA := Addr(LineAddr(0, 0), 0), state := INIT, xferCnt := 0, burstIssue := false, burstWe := false)
    else match r.state
      case INIT =>
        if r.wayDone then t.(state := IDLE) else t
      case IDLE =>
        var u := t.(xferCnt := 0, burstIssue := true);
        if !inp.Request() then u
        else
          var h := u.(hostA := inp.a, hostD := inp.d, hostWe := inp.we);
          if WayHit(r, inp) then h
          else if TagOut(r, inp).valid && TagOut(r, inp).dirty
          then h.(state := WRITEBACK, burstWbBase := TagOut(r, inp).line)
          else h.(state := LOAD)
      case HIT =>
        t.(state := IDLE)
      case WRITEBACK =>
        if r.burstIssue then t.(burstIssue := false, xferCnt := 0)
        else
          var u := if inp.lowReady then t.(xferCnt := (r.xferCnt + 1) % 0x1_0000) else t;
          if r.xferCnt == WORDS then u.(state := LOAD, burstIssue := true) else u
      case LOAD =>
        if r.burstIssue then t.(burstIssue := false, xferCnt := 0xffff)
        else if !inp.lowReady then t.(burstWe := false)
        else
          var u := t.(xferCnt := (r.xferCnt + 1) % 0x1_0000);
          if r.xferCnt == WORDS - 1 then u.(burstWe := false, state := HIT) else u.(burstWe := true)
  }

  function Step(r: Regs, inp: Input): (t: Regs)
    requires r.Shaped()
    ensures t.Shaped()
  {
    ControlNext(r, inp, WayNext(r, inp))
  }

  /** The cache as a clocked object: registers as fields, tag array and block RAM as arrays. */
  class CacheUnit {
    var state: State
    var burstIssue: bool
    var burstIssueDelayed: bool
    var burstWe: bool
    var xferCnt: Count16
    var burstWbBase: LineAddr
    var hostA: Addr
    var hostD: Word
    var hostWe: bool
    var wayDone: bool
    var sweep: Index
    const tags: array<Tag>
    const ram: array<Word>
    var spo: Word

    constructor ()
      ensures Valid() && fresh(tags) && fresh(ram)
      ensures state == INIT && !burstIssue && !burstWe && xferCnt == 0
    {
      state, burstIssue, burstIssueDelayed, burstWe, xferCnt := INIT, false, false, false, 0;
      burstWbBase, hostA, hostD, hostWe := LineAddr(0, 0), Addr(LineAddr(0, 0), 0), 0, false;
      wayDone, sweep, spo := false, 0, 0;
      tags := new Tag[LINES](_ => NoTag);
      ram := new Word[LINES * WORDS];
    }

    predicate Valid()
      reads this
    {
      tags.Length == LINES && ram.Length == LINES * WORDS
    }

    function Registers(): (r: Regs)
      requires Valid()
      reads this, tags, ram
      ensures r.Shaped()
    {
      Regs(state, burstIssue, burstIssueDelayed, burstWe, xferCnt, burstWbBase, hostA, hostD, hostWe,
           wayDone, sweep, tags[..], ram[..], spo)
    }

    method Tick(inp: Input)
      requires Valid()
      modifies this, tags, ram
      ensures Valid()
      ensures Registers() == Step(old(Registers()), inp)
    {
      hide WayNext, WayHit, TagOut;
      var r := Registers();
      TickWay(inp);
      if inp.rst {
        hostA, state, xferCnt, burstIssue, burstWe := Addr(LineAddr(0, 0), 0), INIT, 0, false, false;
      } else {
        match r.state
        case INIT => if r.wayDone { state := IDLE; }
        case IDLE => TickIdle(r, inp);
        case HIT => state := IDLE;
        case WRITEBACK => TickWriteback(r, inp);
        case LOAD => TickLoad(r, inp);
      }
    }

    method TickIdle(r: Regs, inp: Input)
      requires Valid() && r.Shaped() && r.state == IDLE && !inp.rst
      modifies this
      ensures Valid() && Registers() == ControlNext(r, inp, old(Registers()))
    {
      hide WayHit, TagOut;
      xferCnt, burstIssue := 0, true;
      if inp.Request() {
        hostA, hostD, hostWe := inp.a, inp.d, inp.we;
        if !WayHit(r, inp) { TickMiss(r, inp); }
      }
    }

    method TickMiss(r: Regs, inp: Input)
      requires Valid() && r.Shaped()
      modifies this`state, this`burstWbBase
      ensures state == if TagOut(r, inp).valid && TagOut(r, inp).dirty then WRITEBACK else LOAD
      ensures burstWbBase == if state == WRITEBACK then TagOut(r, inp).line else old(burstWbBase)
    {
      state := LOAD;
      if TagOut(r, inp).valid && TagOut(r, inp).dirty {
        state, burstWbBase := WRITEBACK, TagOut(r, inp).line;
      }
    }

    method TickWriteback(r: Regs, inp: Input)
      requires Valid() && r.Shaped() && r.state == WRITEBACK && !inp.rst
      modifies this
      ensures Valid() && Registers() == ControlNext(r, inp, old(Registers()))
    {
      if r.burstIssue {
        burstIssue, xferCnt := false, 0;
      } else {
        if inp.lowReady { xferCnt := (r.xferCnt + 1) % 0x1_0000; }
        if r.xferCnt == WORDS { state, burstIssue := LOAD, true; }
      }
    }

    method TickLoad(r: Regs, inp: Input)
      requires Valid() && r.Shaped() && r.state == LOAD && !inp.rst
      modifies this
      ensures Valid() && Registers() == ControlNext(r, inp, old(Registers()))
    {
      if r.burstIssue {
        burstIssue, xferCnt := false, 0xffff;
      } else if inp.lowReady {
        xferCnt := (r.xferCnt + 1) % 0x1_0000;
        if r.xferCnt == WORDS - 1 {
          burstWe, state := false, HIT;
        } else {
          burstWe := true;
        }
      } else {
        burstWe := false;
      }
    }

    /** The way's part of the edge: in-place updates of the two arrays. */
    method TickWay(inp: Input)
      requires Valid()
      modifies this`spo, this`wayDone, this`sweep, this`burstIssueDelayed, tags, ram
      ensures Valid()
      ensures Registers() == WayNext(old(Registers()), inp)
    {
      hide RamWrite, TagWrite, DirtyIn, WayD, WayA;
      var r := Registers();
      var w := WayA(r, inp);
      spo := ram[Slot(w)];
      if RamWrite(r, inp) {
        ram[Slot(w)] := WayD(r, inp);
      }
      if inp.rst {
        wayDone, sweep := false, 0;
      } else if !wayDone {
        tags[sweep] := NoTag;
        wayDone, sweep := sweep == 255, (sweep + 1) % 256;
      } else if TagWrite(r, inp) {
        tags[w.line.index] := Tag(inp.a.line, DirtyIn(r, inp), true);
      }
      burstIssueDelayed := burstIssue;
      assert tags[..] == TagsNext(r, inp);
      assert ram[..] == if RamWrite(r, inp) then r.ram[Slot(w) := WayD(r, inp)] else r.ram;
    }
  }
}
