/** The iterative multiply/divide unit: its clocked registers and what a run of it delivers. */
module Rv32m {
  import opened Words

  /** The function selector: 0..3 are MUL, MULH, MULHSU, MULHU and 4..7 are DIV, DIVU, REM, REMU. */
  type Op = m: int | 0 <= m < 8

  type Product = x: int | 0 <= x < 0x2_0000_0000_0000_0000

  type Counter = x: int | 0 <= x < 128

  datatype Regs = Regs(mreg: Op, aext: DWord, bext: DWord, result: Product, cnt: Counter,
                       divfix: bool, remfix: bool, finish: bool, r: Word, div0: bool)

  // ---------------------------------------------------------------- the registers, clock by clock

  predicate Negative(x: Word) { x >= 0x8000_0000 }

  function Neg(x: Word): Word { if x == 0 then 0 else 0x1_0000_0000 - x }

  function SignExtend(x: Word): DWord {
    if Negative(x) then x + 0xffff_ffff_0000_0000 else x
  }

  function High(x: DWord): Word { x / 0x1_0000_0000 }

  function Low(x: DWord): Word { x % 0x1_0000_0000 }

  function LoadA(a: Word, b: Word, m: Op): DWord {
    if m < 4 then (if m == 3 then a else SignExtend(a))
    else if m % 2 == 1 then a
    else if Negative(b) then (if Negative(a) then Neg(a) else Neg(a) + 0xffff_ffff_0000_0000)
    else SignExtend(a)
  }

  function LoadB(a: Word, b: Word, m: Op): DWord {
    if m < 4 then (if m == 1 then SignExtend(b) else b)
    else if m % 2 == 0 && Negative(b) then Neg(b) * 0x1_0000_0000
    else b * 0x1_0000_0000
  }

  /** The clock edge on which `start` is high: operands are latched, the counter restarts. */
  function Load(s: Regs, a: Word, b: Word, m: Op): Regs {
    s.(mreg := m, aext := LoadA(a, b, m), bext := LoadB(a, b, m), result := 0, cnt := 0,
       finish := false, div0 := b == 0 && m >= 4,
       divfix := Negative(a) != Negative(b) && m % 2 == 0 && a != 0x8000_0000,
       remfix := Negative(b) && m % 2 == 0)
  }

  /** The count at which the result is taken: 64 iterations for MULH, 32 otherwise. */
  function Latency(m: Op): nat {
    if m == 1 then 64 else 32
  }

  /** One restoring step; a set top bit selects the adding step instead. */
  function DivStep(aext: DWord, bext: DWord): DWord {
    if (aext / 0x8000_0000) % 0x1_0000_0000 >= High(bext) then
      if aext >= 0x8000_0000_0000_0000
      then (2 * aext + bext + 1) % 0x1_0000_0000_0000_0000
      else (2 * aext - bext + 1) % 0x1_0000_0000_0000_0000
    else
      (2 * aext) % 0x1_0000_0000_0000_0000
  }

  /** The value offered to `r`, from the registers before the edge. */
  function Readout(s: Regs): Word {
    if s.mreg < 4 then
      if s.mreg == 0 then s.result % 0x1_0000_0000 else (s.result / 0x1_0000_0000) % 0x1_0000_0000
    else if s.divfix then
      if s.mreg < 6 then (Low(s.aext) + 1) % 0x1_0000_0000
      else if s.remfix then (High(s.bext) - High(s.aext)) % 0x1_0000_0000
      else (High(s.aext) - High(s.bext)) % 0x1_0000_0000
    else
      if s.mreg < 6 then Low(s.aext)
      else if s.remfix then Neg(High(s.aext))
      else High(s.aext)
  }

  /** A clock edge with `start` low. */
  function Iterate(s: Regs): Regs {
    var done := s.cnt == Latency(s.mreg);
    var t := s.(cnt := (s.cnt + 1) % 128, finish := s.finish || done, r := if done then Readout(s) else s.r);
    if s.mreg < 4 then
      t.(aext := (2 * s.aext) % 0x1_0000_0000_0000_0000, bext := s.bext / 2,
         result := if s.bext % 2 == 1 then (s.result + s.aext) % 0x2_0000_0000_0000_0000 else s.result)
    else
      t.(aext := DivStep(s.aext, s.bext))
  }

  function Step(s: Regs, start: bool, a: Word, b: Word, m: Op): Regs {
    if start then Load(s, a, b, m) else Iterate(s)
  }

  /** n further clock edges with `start` low. */
  function Run(s: Regs, n: nat): Regs {
    if n == 0 then s else Iterate(Run(s, n - 1))
  }

  /** The unit as a clocked object: one method per clock edge. */
  class Unit {
    var mreg: Op
    var aext: DWord
    var bext: DWord
    var result: Product
    var cnt: Counter
    var divfix: bool
    var remfix: bool
    var finish: bool
    var r: Word
    var div0: bool

    function State(): Regs
      reads this
    {
      Regs(mreg, aext, bext, result, cnt, divfix, remfix, finish, r, div0)
    }

    method Tick(start: bool, a: Word, b: Word, m: Op)
      modifies this
      ensures State() == Step(old(State()), start, a, b, m)
    {
      if start {
        aext, bext := LoadA(a, b, m), LoadB(a, b, m);
        mreg, result, cnt, finish := m, 0, 0, false;
        div0 := b == 0 && m >= 4;
        divfix := Negative(a) != Negative(b) && m % 2 == 0 && a != 0x8000_0000;
        remfix := Negative(b) && m % 2 == 0;
      } else {
        if cnt == Latency(mreg) {
          r, finish := Readout(State()), true;
        }
        if mreg < 4 {
          if bext % 2 == 1 {
            result := (result + aext) % 0x2_0000_0000_0000_0000;
          }
          aext, bext := (2 * aext) % 0x1_0000_0000_0000_0000, bext / 2;
        } else {
          aext := DivStep(aext, bext);
        }
        cnt := (cnt + 1) % 128;
      }
    }

    /** Starts an operation and clocks the unit until `finish` rises. */
    method Compute(a: Word, b: Word, m: Op) returns (y: Word)
      modifies this
      ensures Exact(m, a, b) <==> y == Required(m, a, b)
      ensures div0 <==> m >= 4 && b == 0
    {
      Tick(true, a, b, m);
      ghost var s := State();
      ghost var n := 0;
      OperationCorrect(old(State()), a, b, m, 0);
      while !finish
        invariant State() == Run(s, n)
        invariant n <= Latency(m) + 1
        invariant finish <==> n == Latency(m) + 1
        decreases Latency(m) + 1 - n
      {
        Tick(false, 0, 0, 0);
        n := n + 1;
        OperationCorrect(old(State()), a, b, m, n);
      }
      OperationCorrect(old(State()), a, b, m, n);
      y := r;
    }
  }

  // ---------------------------------------------------------------- what the ISA asks for

  function Abs(x: int): nat { if x < 0 then -x else x }

  /** Division rounding towards zero. */
  function TruncDiv(x: int, y: int): int
    requires y != 0
  {
    if (x < 0) == (y < 0) then Abs(x) / Abs(y) else -(Abs(x) / Abs(y))
  }

  /** The remainder that goes with it; its sign is that of the dividend. */
  function TruncRem(x: int, y: int): int
    requires y != 0
  {
    if x < 0 then -(Abs(x) % Abs(y)) else Abs(x) % Abs(y)
  }

  /** Sections 7.1 and 7.2 of the RISC-V Unprivileged ISA, version 20191213. */
  function Required(m: Op, a: Word, b: Word): Word {
    match m
    case 0 => (Signed(a) * Signed(b)) % 0x1_0000_0000
    case 1 => ((Signed(a) * Signed(b)) / 0x1_0000_0000) % 0x1_0000_0000
    case 2 => ((Signed(a) * b) / 0x1_0000_0000) % 0x1_0000_0000
    case 3 => ((a * b) / 0x1_0000_0000) % 0x1_0000_0000
    case 4 => if b == 0 then 0xffff_ffff else TruncDiv(Signed(a), Signed(b)) % 0x1_0000_0000
    case 5 => if b == 0 then 0xffff_ffff else a / b
    case 6 => if b == 0 then a else TruncRem(Signed(a), Signed(b)) % 0x1_0000_0000
    case _ => if b == 0 then a else a % b
  }

  /** The operands on which the unit meets the ISA: everything but a family of signed divisions.
      With operands of different sign the unit rounds down and then adds one to the quotient
      (not when the dividend is the most negative word), so it fails when nothing is left to correct. */
  predicate Exact(m: Op, a: Word, b: Word) {
    var x, y := Signed(a), Signed(b);
    if m != 4 && m != 6 then true
    else if y == 0 then m == 6 || x >= 0 || x == -0x8000_0000
    else if (x < 0) == (y < 0) then true
    else if x == -0x8000_0000 then Abs(x) % Abs(y) == 0
    else if x == 0 then m == 4 && y == -1
    else Abs(x) % Abs(y) != 0
  }

  // ---------------------------------------------------------------- what a run keeps

  /** What an iteration does to the control registers, whatever the data. */
  lemma IterateControl(s: Regs)
    ensures var t := Iterate(s);
            t.mreg == s.mreg && t.cnt == (s.cnt + 1) % 128 && t.div0 == s.div0
            && t.divfix == s.divfix && t.remfix == s.remfix
            && t.finish == (s.finish || s.cnt == Latency(s.mreg))
            && t.r == (if s.cnt == Latency(s.mreg) then Readout(s) else s.r)
            && (s.mreg >= 4 ==> t.bext == s.bext)
  {
    hide Readout, DivStep;
  }

  lemma {:induction false} RunFrame(s: Regs, n: nat)
    requires s.cnt == 0 && !s.finish && n <= Latency(s.mreg)
    ensures var t := Run(s, n);
            t.mreg == s.mreg && t.cnt == n && !t.finish && t.div0 == s.div0
            && t.divfix == s.divfix && t.remfix == s.remfix
            && (s.mreg >= 4 ==> t.bext == s.bext)
  {
    hide Iterate;
    if n > 0 {
      RunFrame(s, n - 1);
      IterateControl(Run(s, n - 1));
    }
  }

  /** After the result is taken it stays until the 7-bit counter comes round again. */
  lemma {:induction false} RunResult(s: Regs, n: nat)
    requires s.cnt == 0 && !s.finish && Latency(s.mreg) < n <= Latency(s.mreg) + 128
    ensures var t := Run(s, n);
            t.mreg == s.mreg && t.cnt == n % 128 && t.finish && t.div0 == s.div0
            && t.r == Readout(Run(s, Latency(s.mreg)))
  {
    hide Iterate, Readout;
    IterateControl(Run(s, n - 1));
    if n == Latency(s.mreg) + 1 {
      RunFrame(s, n - 1);
    } else {
      RunResult(s, n - 1);
    }
  }

  // ---------------------------------------------------------------- what the unit delivers

  const Cleared := Regs(0, 0, 0, 0, 0, false, false, false, 0, false)

  /** The word an operation delivers. */
  function Delivered(m: Op, a: Word, b: Word): Word { Readout(Run(Load(Cleared, a, b, m), Latency(m))) }

  lemma {:induction false} RunForgets(s: Regs, y: Word, n: nat)
    ensures Run(s.(r := y), n).(r := 0) == Run(s, n).(r := 0)
  {
    hide Iterate;
    if n > 0 {
      RunForgets(s, y, n - 1);
      IterateForgets(Run(s, n - 1), Run(s.(r := y), n - 1));
    }
  }

  lemma IterateForgets(s: Regs, t: Regs)
    requires t.(r := 0) == s.(r := 0)
    ensures Iterate(t).(r := 0) == Iterate(s).(r := 0) && Readout(t) == Readout(s)
  {
    hide DivStep, Low, High, Neg;
  }

  /** It depends on nothing that the unit held before, and stays for 128 clocks. */
  lemma DeliveredIsResult(s: Regs, a: Word, b: Word, m: Op, n: nat)
    requires Latency(m) < n <= Latency(m) + 128
    ensures Run(Step(s, true, a, b, m), n).r == Delivered(m, a, b)
  {
    hide Run, Readout, LoadA, LoadB;
    RunResult(Load(s, a, b, m), n);
    RunForgets(Load(Cleared, a, b, m), s.r, Latency(m));
    IterateForgets(Run(Load(Cleared, a, b, m), Latency(m)), Run(Load(s, a, b, m), Latency(m)));
  }

  // ---------------------------------------------------------------- multiplication

  /** Bit k of x joins the residue when one more bit is taken. */
  lemma BitSplit(x: nat, k: nat)
    ensures x % Pow2(k + 1) == x % Pow2(k) + ((x / Pow2(k)) % 2) * Pow2(k)
    ensures x / Pow2(k + 1) == (x / Pow2(k)) / 2
  {
    var p := Pow2(k);
    var h, r := x / p, x % p;
    assert x == h * p + r;
    OddAndEven(h / 2, h % 2, p);
    DivModUnique(x, 2 * p, h / 2, r + (h % 2) * p);
  }

  lemma OddAndEven(q: int, b: int, p: nat)
    requires b == 0 || b == 1
    ensures (2 * q + b) * p == q * (2 * p) + b * p && (b * p == 0 || b * p == p)
  {
    MulAssoc(q, 2, p);
    assert (2 * q + b) * p == 2 * q * p + b * p;
  }

  /** The invariant of the shift-add loop: after k steps the low 64 bits of the accumulator are
      the product of the multiplicand with the k multiplier bits consumed so far. */
  lemma {:induction false} MulRun(s: Regs, k: nat)
    requires s.mreg < 4 && s.cnt == 0 && !s.finish && s.result == 0 && k <= Latency(s.mreg)
    ensures Run(s, k).aext == (s.aext * Pow2(k)) % 0x1_0000_0000_0000_0000
    ensures Run(s, k).bext == s.bext / Pow2(k)
    ensures Run(s, k).result % 0x1_0000_0000_0000_0000
         == (s.aext * (s.bext % Pow2(k))) % 0x1_0000_0000_0000_0000
  {
    if k > 0 {
      MulRun(s, k - 1);
      RunFrame(s, k - 1);
      BitSplit(s.bext, k - 1);
      MulShiftAdd(s.aext, s.bext % Pow2(k - 1), (s.bext / Pow2(k - 1)) % 2, Pow2(k - 1), Run(s, k - 1));
    }
  }

  lemma MulShiftAdd(a: nat, x: nat, bit: nat, p: nat, t: Regs)
    requires t.mreg < 4 && bit == t.bext % 2
    requires t.aext == (a * p) % 0x1_0000_0000_0000_0000
    requires t.result % 0x1_0000_0000_0000_0000 == (a * x) % 0x1_0000_0000_0000_0000
    ensures Iterate(t).aext == (a * (2 * p)) % 0x1_0000_0000_0000_0000
    ensures Iterate(t).result % 0x1_0000_0000_0000_0000 == (a * (x + bit * p)) % 0x1_0000_0000_0000_0000
  {
    DoubleResidue(a, p, t.aext, 0x1_0000_0000_0000_0000);
    if bit == 1 {
      AddResidue(a, x, p, t.result, t.aext, 0x1_0000_0000_0000_0000);
    } else {
      assert x + bit * p == x;
    }
  }

  lemma DoubleResidue(a: nat, p: nat, e: nat, d: nat)
    requires d > 0 && e == (a * p) % d
    ensures (2 * e) % d == (a * (2 * p)) % d
  {
    ModMul(a * p, 2, d);
    MulAssoc(a, p, 2);
    assert p * 2 == 2 * p && e * 2 == 2 * e;
  }

  lemma AddResidue(a: nat, x: nat, p: nat, r: nat, e: nat, d: nat)
    requires d > 0 && e == (a * p) % d && r % d == (a * x) % d
    ensures ((r + e) % (2 * d)) % d == (a * (x + 1 * p)) % d
  {
    assert a * (x + 1 * p) == a * x + a * p;
    ModAdd(a * x, a * p, d);
    ModAdd(r, e, d);
    DivModUnique(e, d, 0, e);
    ModModFactor(r + e, 2, d);
  }

  /** A sign-extended operand is its signed reading modulo 2^64. */
  lemma SignExtendMod(x: Word)
    ensures SignExtend(x) == Signed(x) % 0x1_0000_0000_0000_0000
  {
  }

  lemma MulReadout(s: Regs, x: int, y: int)
    requires s.mreg < 4 && s.cnt == 0 && !s.finish && s.result == 0
    requires s.aext == x % 0x1_0000_0000_0000_0000 && s.bext == y % 0x1_0000_0000_0000_0000
    requires s.mreg != 1 ==> s.bext < 0x1_0000_0000
    ensures Readout(Run(s, Latency(s.mreg)))
         == if s.mreg == 0 then (x * y) % 0x1_0000_0000 else ((x * y) / 0x1_0000_0000) % 0x1_0000_0000
  {
    var k := Latency(s.mreg);
    MulRun(s, k);
    RunFrame(s, k);
    Pow2Values();
    assert s.bext % Pow2(k) == s.bext by { DivModUnique(s.bext, Pow2(k), 0, s.bext); }
    ProductResidue(x, y, s.aext, s.bext, 0x1_0000_0000_0000_0000);
    SameHalves(Run(s, k).result, x * y, 0x1_0000_0000);
  }

  lemma ProductResidue(x: int, y: int, u: int, v: int, d: nat)
    requires d > 0 && u == x % d && v == y % d
    ensures (u * v) % d == (x * y) % d
  {
    ModMul(x, v, d);
    ModMul(y, x, d);
    assert x * v == v * x && x * y == y * x;
  }

  /** Numbers that agree modulo h*h agree in both halves. */
  lemma SameHalves(u: int, v: int, h: nat)
    requires h > 0 && h * h > 0 && u % (h * h) == v % (h * h)
    ensures u % h == v % h && (u / h) % h == (v / h) % h
  {
    ModModFactor(u, h, h);
    ModModFactor(v, h, h);
  }

  /** MUL takes only 32 iterations: the multiplier is read unsigned, which the low word does not notice. */
  lemma LowWordUnsigned(x: int, b: Word)
    ensures (x * Signed(b)) % 0x1_0000_0000 == (x * b) % 0x1_0000_0000
  {
    if b >= 0x8000_0000 {
      assert x * Signed(b) == x * b + (-x) * 0x1_0000_0000;
      ModShift(x * b, -x, 0x1_0000_0000);
    }
  }

  lemma MulCorrect(s: Regs, a: Word, b: Word, m: Op)
    requires m < 4
    ensures Readout(Run(Load(s, a, b, m), Latency(m))) == Required(m, a, b)
  {
    SignExtendMod(a);
    SignExtendMod(b);
    var x := if m == 3 then a else Signed(a);
    var t := Load(s, a, b, m);
    if m == 0 {
      MulReadout(t, x, b);
      LowWordUnsigned(x, b);
    } else {
      MulReadout(t, x, if m == 1 then Signed(b) else b);
    }
  }

  // ---------------------------------------------------------------- division

  /** The 64-bit dividend register seen as its two halves. */
  function Join(hi: Word, lo: Word): DWord { hi * 0x1_0000_0000 + lo }

  function Top(x: Word): nat { if x >= 0x8000_0000 then 1 else 0 }

  function Twice(x: Word): Word { 2 * x - Top(x) * 0x1_0000_0000 }

  /** The shifted-up high half, as the unit compares it with the divisor. */
  function Shifted(hi: Word, lo: Word): Word { Twice(hi) + Top(lo) }

  function HalfStep(hi: Word, lo: Word, b: Word): (Word, Word) {
    var c := Shifted(hi, lo);
    if c >= b
    then (if Top(hi) == 1 then (c + b) % 0x1_0000_0000 else c - b, Twice(lo) + 1)
    else (c, Twice(lo))
  }

  lemma Halves(hi: Word, lo: Word)
    ensures High(Join(hi, lo)) == hi && Low(Join(hi, lo)) == lo
  {
  }

  lemma ShiftedSlice(hi: Word, lo: Word)
    ensures (Join(hi, lo) / 0x8000_0000) % 0x1_0000_0000 == Shifted(hi, lo)
  {
    DivModUnique(Join(hi, lo), 0x8000_0000, 2 * hi + Top(lo), lo - Top(lo) * 0x8000_0000);
    DivModUnique(2 * hi + Top(lo), 0x1_0000_0000, Top(hi), Shifted(hi, lo));
  }

  lemma DivStepHalves(hi: Word, lo: Word, b: Word)
    ensures var (h, l) := HalfStep(hi, lo, b);
            DivStep(Join(hi, lo), Join(b, 0)) == Join(h, l)
  {
    hide Shifted, Twice, Join;
    ShiftedSlice(hi, lo);
    ShiftUp(hi, lo);
    Halves(b, 0);
    var c := Shifted(hi, lo);
    JoinAdd(c, Twice(lo), b, 1);
    if c < b {
      WrapHalves(Top(hi), c, Twice(lo));
    } else if Top(hi) == 1 {
      WrapHalves(if c + b >= 0x1_0000_0000 then 2 else 1, (c + b) % 0x1_0000_0000, Twice(lo) + 1);
    } else {
      WrapHalves(0, c - b, Twice(lo) + 1);
    }
  }

  /** Shifting the whole register up by one. */
  lemma ShiftUp(hi: Word, lo: Word)
    ensures 2 * Join(hi, lo) == Top(hi) * 0x1_0000_0000_0000_0000 + Join(Shifted(hi, lo), Twice(lo))
    ensures Join(hi, lo) >= 0x8000_0000_0000_0000 <==> Top(hi) == 1
    ensures Twice(lo) < 0xffff_ffff
  {
  }

  /** Adding or subtracting the divisor touches the upper half only, adding one the lower. */
  lemma JoinAdd(hi: Word, lo: Word, b: Word, bit: nat)
    requires bit <= 1 && lo < 0xffff_ffff
    ensures hi >= b ==> Join(hi, lo) - Join(b, 0) + bit == Join(hi - b, lo + bit)
    ensures var k := if hi + b >= 0x1_0000_0000 then 1 else 0;
            Join(hi, lo) + Join(b, 0) + bit == k * 0x1_0000_0000_0000_0000 + Join((hi + b) % 0x1_0000_0000, lo + bit)
  {
  }

  lemma WrapHalves(k: nat, h: Word, l: Word)
    ensures (k * 0x1_0000_0000_0000_0000 + Join(h, l)) % 0x1_0000_0000_0000_0000 == Join(h, l)
  {
    DivModUnique(k * 0x1_0000_0000_0000_0000 + Join(h, l), 0x1_0000_0000_0000_0000, k, Join(h, l));
  }

  /** n steps of the divide loop on the halves. */
  function Loop(hi: Word, lo: Word, b: Word, n: nat): (Word, Word) {
    if n == 0 then (hi, lo) else var (h, l) := Loop(hi, lo, b, n - 1); HalfStep(h, l, b)
  }

  lemma {:induction false} LoopIsRun(s: Regs, hi: Word, lo: Word, b: Word, n: nat)
    requires s.mreg >= 4 && s.cnt == 0 && !s.finish && n <= 32
    requires s.aext == Join(hi, lo) && s.bext == Join(b, 0)
    ensures Run(s, n).aext == Join(Loop(hi, lo, b, n).0, Loop(hi, lo, b, n).1)
  {
    if n > 0 {
      LoopIsRun(s, hi, lo, b, n - 1);
      RunFrame(s, n - 1);
      var (h, l) := Loop(hi, lo, b, n - 1);
      DivStepHalves(h, l, b);
    }
  }

  lemma {:induction false} LoopFirst(hi: Word, lo: Word, b: Word, n: nat)
    requires n > 0
    ensures var (h, l) := HalfStep(hi, lo, b); Loop(hi, lo, b, n) == Loop(h, l, b, n - 1)
  {
    if n > 1 { LoopFirst(hi, lo, b, n - 1); }
  }

  /** The dividend bits not yet used after n steps. */
  function Todo(lo: Word, n: nat): (e: nat)
    requires n <= 32
    ensures e < Pow2(32 - n)
  {
    Pow2Values();
    if n == 0 then lo
    else var e := Todo(lo, n - 1); if e >= Pow2(32 - n) then e - Pow2(32 - n) else e
  }

  /** The dividend prefix consumed after n steps, including the initial partial remainder. */
  function Taken(hi: Word, lo: Word, n: nat): nat
    requires n <= 32
  {
    if n == 0 then hi
    else 2 * Taken(hi, lo, n - 1) + (if Todo(lo, n - 1) >= Pow2(32 - n) then 1 else 0)
  }

  lemma TakeBit(v: nat, e: nat, p: nat, x: nat)
    requires v * (2 * p) + e == x
    ensures (2 * v) * p + e == x && (2 * v + 1) * p + (e - p) == x
  {
    MulAssoc(v, 2, p);
    assert (2 * v + 1) * p == (2 * v) * p + p;
  }

  /** No dividend bit is lost: prefix and rest make up the dividend at every step. */
  lemma {:induction false} TakenAndTodo(hi: Word, lo: Word, n: nat)
    requires n <= 32
    ensures Taken(hi, lo, n) * Pow2(32 - n) + Todo(lo, n) == Join(hi, lo)
    ensures hi == 0 ==> Taken(hi, lo, n) < Pow2(n)
  {
    if n == 0 {
      Pow2Values();
    } else {
      TakenAndTodo(hi, lo, n - 1);
      var v, e, p := Taken(hi, lo, n - 1), Todo(lo, n - 1), Pow2(32 - n);
      assert Pow2(32 - (n - 1)) == 2 * p;
      TakeBit(v, e, p, Join(hi, lo));
    }
  }

  /** How the low half is laid out in mid-run: unused dividend bits above, quotient digits below. */
  lemma Layout(e: nat, q: nat, g: nat, p: nat)
    requires e < 2 * g && q < p && g * p == 0x8000_0000
    ensures var lo := e * p + q;
            lo < 0x1_0000_0000 && (lo >= 0x8000_0000 <==> e >= g)
            && (e - g) * p == e * p - 0x8000_0000
  {
    MulMonotone(g, e, p);
    MulMonotone(e, g - 1, p);
    MulMonotone(e, 2 * g - 1, p);
    assert (2 * g - 1) * p == 2 * (g * p) - p;
    assert (g - 1) * p == g * p - p;
    assert (e - g) * p == e * p - g * p;
  }

  lemma LayoutAt(e: nat, q: nat, k: nat)
    requires k < 32 && e < Pow2(32 - k) && q < Pow2(k)
    ensures var lo := e * Pow2(k) + q;
            lo < 0x1_0000_0000 && (lo >= 0x8000_0000 <==> e >= Pow2(31 - k))
            && (e - Pow2(31 - k)) * Pow2(k) == e * Pow2(k) - 0x8000_0000
  {
    Pow2Values();
    Pow2Add(31 - k, k);
    Layout(e, q, Pow2(31 - k), Pow2(k));
  }

  lemma DoubleRight(x: int, p: int)
    ensures x * (2 * p) == 2 * (x * p)
  {
  }

  lemma DoubleLeft(x: int, p: int)
    ensures (2 * x) * p == 2 * (x * p) && (2 * x + 1) * p == 2 * (x * p) + p
  {
  }

  /** The conditions under which the restoring loop is entered. */
  predicate Restorable(hi: Word, b: Word) {
    hi < 0x8000_0000 && (b > 0 ==> hi < b) && (b <= 0x8000_0000 || hi == 0) && (b == 0 ==> hi == 0)
  }

  /** The quotient digits produced after n steps: what the low half holds below the unused bits. */
  function Digits(hi: Word, lo: Word, b: Word, n: nat): int
    requires n <= 32
  {
    Loop(hi, lo, b, n).1 - Todo(lo, n) * Pow2(n)
  }

  /** The invariant of the restoring loop: prefix == digits * divisor + remainder, with the remainder
      below the divisor. It keeps the top bit clear, so the adding step is never taken. */
  ghost predicate Restoring(hi: Word, lo: Word, b: Word, n: nat)
    requires n <= 32
  {
    var q, r := Digits(hi, lo, b, n), Loop(hi, lo, b, n).0;
    0 <= q < Pow2(n) && Taken(hi, lo, n) == q * b + r && (b > 0 ==> r < b) && (b == 0 ==> q == Pow2(n) - 1)
  }

  lemma {:induction false} RestoringLoop(hi: Word, lo: Word, b: Word, n: nat)
    requires Restorable(hi, b) && n <= 32
    ensures Restoring(hi, lo, b, n)
    ensures n < 32 ==> Loop(hi, lo, b, n).0 < 0x8000_0000
  {
    if n > 0 {
      RestoringLoop(hi, lo, b, n - 1);
      var (r, l) := Loop(hi, lo, b, n - 1);
      var e, q := Todo(lo, n - 1), Digits(hi, lo, b, n - 1);
      LayoutAt(e, q, n - 1);
      assert Top(l) == 1 <==> e >= Pow2(32 - n);
      DoubleRight(Todo(lo, n), Pow2(n - 1));
      assert Twice(l) == Todo(lo, n) * Pow2(n) + 2 * q;
      assert Digits(hi, lo, b, n) == if 2 * r + Top(l) >= b then 2 * q + 1 else 2 * q;
      DoubleLeft(q, b);
    } else {
      assert Todo(lo, 0) * Pow2(0) == lo;
      assert 0 * b == 0;
    }
    if n < 32 { SmallRemainder(hi, lo, b, n); }
  }

  lemma SmallRemainder(hi: Word, lo: Word, b: Word, n: nat)
    requires Restorable(hi, b) && n < 32 && Restoring(hi, lo, b, n)
    ensures Loop(hi, lo, b, n).0 < 0x8000_0000
  {
    if b == 0 || b > 0x8000_0000 {
      TakenAndTodo(hi, lo, n);
      MulMonotone(0, Digits(hi, lo, b, n), b);
      Pow2Monotone(n, 31);
      Pow2Values();
    }
  }

  /** A whole run of the restoring loop, in numbers. */
  lemma WholeRun(lo: Word, b: Word)
    ensures var (r, q) := Loop(0, lo, b, 32);
            lo == q * b + r && (b > 0 ==> r < b) && (b == 0 ==> q == 0xffff_ffff)
  {
    hide Loop, Taken, Todo, Pow2, Join;
    RestoringLoop(0, lo, b, 32);
    TakenAndTodo(0, lo, 32);
    Pow2Values();
    PowerZero();
    assert Join(0, lo) == lo by { JoinLow(lo); }
  }

  lemma PowerZero()
    ensures Pow2(0) == 1
  {
  }

  lemma JoinLow(lo: Word)
    ensures Join(0, lo) == lo
  {
  }

  /** Unsigned form: 32 steps from a zero partial remainder. */
  lemma DivideUnsigned(lo: Word, b: Word, n: nat)
    requires n == 32
    ensures var (r, q) := Loop(0, lo, b, n);
            if b == 0 then r == lo && q == 0xffff_ffff else r == lo % b && q == lo / b
  {
    hide Loop;
    WholeRun(lo, b);
    var (r, q) := Loop(0, lo, b, n);
    if b > 0 { DivModUnique(lo, b, q, r); }
  }

  /** The dividend behind a sign extension, once the first step has added the divisor. */
  function Remaining(lo: Word, b: Word): int { b * 0x8000_0000 + lo - 0x1_0000_0000 }

  lemma FirstAdds(lo: Word, b: Word)
    requires 1 <= b <= 0x8000_0000 && (b >= 2 || lo >= 0x8000_0000)
    ensures var h, l := b - 2 + Top(lo), Twice(lo) + 1;
            HalfStep(0xffff_ffff, lo, b) == (h, l) && Join(h, l) == 2 * Remaining(lo, b) + 1
  {
  }

  /** The last 31 steps, in numbers. */
  lemma RestOfRun(h: Word, l: Word, b: Word)
    requires Restorable(h, b) && b > 0
    ensures var (r, q) := Loop(h, l, b, 31);
            var t, e := Taken(h, l, 31), Todo(l, 31);
            e < 2 && 2 * t + e == Join(h, l) && t == (q - e * 0x8000_0000) * b + r && r < b
  {
    hide Loop, Taken, Todo, Pow2, Join;
    RestoringLoop(h, l, b, 31);
    TakenAndTodo(h, l, 31);
    PowersNearTheEnd();
  }

  lemma PowersNearTheEnd()
    ensures Pow2(1) == 2 && Pow2(31) == 0x8000_0000
  {
    Pow2Values();
  }

  /** An odd number splits into its half and a last digit in one way. */
  lemma LastDigit(t: int, e: nat, v: int)
    requires 2 * t + e == 2 * v + 1 && e < 2
    ensures t == v && e == 1
  {
  }

  /** A negative dividend, sign-extended, takes one adding step; from there on the loop restores. */
  lemma DivideNegative(lo: Word, b: Word, n: nat)
    requires n == 32 && 1 <= b <= 0x8000_0000 && (b >= 2 || lo >= 0x8000_0000)
    ensures var (r, q) := Loop(0xffff_ffff, lo, b, n);
            var v := Remaining(lo, b);
            r == v % b && q == 0x8000_0000 + v / b
  {
    hide HalfStep, Loop, Taken, Todo, Pow2, Join, Remaining;
    var h, l, v := b - 2 + Top(lo), Twice(lo) + 1, Remaining(lo, b);
    FirstAdds(lo, b);
    LoopFirst(0xffff_ffff, lo, b, n);
    RestOfRun(h, l, b);
    var (r, q) := Loop(h, l, b, n - 1);
    LastDigit(Taken(h, l, n - 1), Todo(l, n - 1), v);
    DivModUnique(v, b, q - 0x8000_0000, r);
  }

  lemma ZeroDivisorStep(hi: Word, lo: Word)
    ensures HalfStep(hi, lo, 0) == (Shifted(hi, lo), Twice(lo) + 1)
  {
  }

  /** With a zero divisor every step shifts in a one, whatever the sign. */
  lemma {:induction false} DigitsByZero(hi: Word, lo: Word, n: nat)
    requires n <= 32
    ensures Loop(hi, lo, 0, n).1 == Todo(lo, n) * Pow2(n) + Pow2(n) - 1
  {
    if n > 0 {
      DigitsByZero(hi, lo, n - 1);
      var (r, l) := Loop(hi, lo, 0, n - 1);
      LayoutAt(Todo(lo, n - 1), Pow2(n - 1) - 1, n - 1);
      DoubleRight(Todo(lo, n), Pow2(n - 1));
      ZeroDivisorStep(r, l);
    } else {
      assert Todo(lo, 0) * Pow2(0) == lo;
    }
  }

  /** ... and the remainder register ends up holding the dividend. */
  lemma {:induction false} RemainderByZero(hi: Word, lo: Word, n: nat)
    requires n <= 32
    ensures Loop(hi, lo, 0, n).0 == (hi * Pow2(n) + Taken(0, lo, n)) % 0x1_0000_0000
  {
    if n > 0 {
      RemainderByZero(hi, lo, n - 1);
      DigitsByZero(hi, lo, n - 1);
      var (r, l) := Loop(hi, lo, 0, n - 1);
      LayoutAt(Todo(lo, n - 1), Pow2(n - 1) - 1, n - 1);
      ZeroDivisorStep(r, l);
      DoubleRight(hi, Pow2(n - 1));
      assert Taken(0, lo, n) == 2 * Taken(0, lo, n - 1) + Top(l);
      ShiftResidue(hi * Pow2(n - 1) + Taken(0, lo, n - 1), Top(l), r);
    } else {
      assert hi * Pow2(0) == hi;
    }
  }

  /** Shifting up within a word keeps the residue modulo the word size. */
  lemma ShiftResidue(x: int, t: nat, r: Word)
    requires t <= 1 && r == x % 0x1_0000_0000
    ensures Twice(r) + t == (2 * x + t) % 0x1_0000_0000
  {
    DivModUnique(2 * x + t, 0x1_0000_0000, 2 * (x / 0x1_0000_0000) + Top(r), Twice(r) + t);
  }

  lemma MinusOneStep(lo: Word)
    requires lo < 0x8000_0000
    ensures HalfStep(0xffff_ffff, lo, 1) == (0xffff_ffff, 2 * lo + 1)
  {
  }

  /** Zero divided by minus one: the remainder register stays at all ones. */
  lemma {:induction false} DivideZeroByMinusOne(n: nat)
    requires n <= 32
    ensures Loop(0xffff_ffff, 0, 1, n) == (0xffff_ffff, Pow2(n) - 1)
  {
    hide HalfStep;
    if n > 0 {
      DivideZeroByMinusOne(n - 1);
      Pow2Monotone(n - 1, 31);
      Pow2Values();
      MinusOneStep(Pow2(n - 1) - 1);
    }
  }

  /** The division result as the readout sees it: remainder and quotient halves after 32 steps. */
  lemma DivideReadout(s: Regs, a: Word, b: Word, m: Op)
    requires m >= 4
    ensures var t := Load(s, a, b, m);
            var (r, q) := Loop(High(t.aext), Low(t.aext), High(t.bext), Latency(m));
            var y := High(t.bext);
            Readout(Run(t, Latency(m))) ==
              if t.divfix
              then (if m < 6 then (q + 1) % 0x1_0000_0000
                    else if t.remfix then (y - r) % 0x1_0000_0000 else (r - y) % 0x1_0000_0000)
              else (if m < 6 then q else if t.remfix then Neg(r) else r)
  {
    var t := Load(s, a, b, m);
    var hi, lo, y := High(t.aext), Low(t.aext), High(t.bext);
    JoinSplit(t.aext);
    LoadedDivisor(a, b, m);
    LoopIsRun(t, hi, lo, y, Latency(m));
    RunFrame(t, Latency(m));
    ReadoutOfHalves(Run(t, Latency(m)), Loop(hi, lo, y, Latency(m)).0, Loop(hi, lo, y, Latency(m)).1, y);
  }

  lemma JoinSplit(x: DWord)
    ensures Join(High(x), Low(x)) == x
  {
  }

  lemma LoadedDivisor(a: Word, b: Word, m: Op)
    requires m >= 4
    ensures LoadB(a, b, m) == Join(High(LoadB(a, b, m)), 0)
  {
    Halves(if m % 2 == 0 && Negative(b) then Neg(b) else b, 0);
  }

  lemma ReadoutOfHalves(t: Regs, r: Word, q: Word, y: Word)
    requires t.mreg >= 4 && t.aext == Join(r, q) && t.bext == Join(y, 0)
    ensures Readout(t) ==
              if t.divfix
              then (if t.mreg < 6 then (q + 1) % 0x1_0000_0000
                    else if t.remfix then (y - r) % 0x1_0000_0000 else (r - y) % 0x1_0000_0000)
              else (if t.mreg < 6 then q else if t.remfix then Neg(r) else r)
  {
    Halves(r, q);
    Halves(y, 0);
  }

  /** Magnitude and sign extension of the loaded dividend and divisor. */
  lemma LoadedHalves(s: Regs, a: Word, b: Word, m: Op)
    requires m >= 4
    ensures var t := Load(s, a, b, m);
            High(t.bext) == (if m % 2 == 0 then Abs(Signed(b)) else b)
            && (m % 2 == 1 || Negative(a) == Negative(b) ==>
                  High(t.aext) == 0 && Low(t.aext) == (if m % 2 == 0 then Abs(Signed(a)) else a))
            && (m % 2 == 0 && Negative(a) != Negative(b) ==>
                  High(t.aext) == 0xffff_ffff
                  && Low(t.aext) == (if a == 0 then 0 else 0x1_0000_0000 - Abs(Signed(a))))
  {
    var lo: Word := if m % 2 == 0 && Negative(b) then Neg(a) else a;
    Halves(0, lo);
    Halves(0xffff_ffff, lo);
    Halves(if m % 2 == 0 && Negative(b) then Neg(b) else b, 0);
  }

  lemma LoopByZero(hi: Word, a: Word, n: nat)
    requires n == 32
    ensures Loop(hi, a, 0, n) == (a, 0xffff_ffff)
  {
    hide Loop, Taken;
    DigitsByZero(hi, a, n);
    RemainderByZero(hi, a, n);
    TakenAndTodo(0, a, n);
    Pow2Values();
    assert Pow2(32 - n) == 1 && Todo(a, n) == 0;
    assert Taken(0, a, n) == a;
    ModShift(a, hi, 0x1_0000_0000);
  }

  lemma DivideByZeroReadout(s: Regs, a: Word, m: Op)
    requires m >= 4
    ensures var x := Readout(Run(Load(s, a, 0, m), Latency(m)));
            x == Required(m, a, 0) <==> Exact(m, a, 0)
  {
    hide Run, Readout, Loop;
    var t := Load(s, a, 0, m);
    DivideReadout(s, a, 0, m);
    LoadedHalves(s, a, 0, m);
    assert High(t.bext) == 0 && Low(t.aext) == a;
    LoopByZero(High(t.aext), a, Latency(m));
    assert !t.remfix;
  }

  /** DIVU, REMU and signed divisions whose operands have equal sign. */
  lemma DivideSameSign(s: Regs, a: Word, b: Word, m: Op)
    requires m >= 4 && b != 0 && (m % 2 == 1 || Negative(a) == Negative(b))
    ensures Readout(Run(Load(s, a, b, m), Latency(m))) == Required(m, a, b)
  {
    hide Run, Readout, Loop;
    DivideReadout(s, a, b, m);
    LoadedHalves(s, a, b, m);
    var x, y: nat := if m % 2 == 0 then Abs(Signed(a)) else a, if m % 2 == 0 then Abs(Signed(b)) else b;
    DivideUnsigned(x, y, Latency(m));
    QuotientBounds(x, y);
    WordResidues(x / y);
    WordResidues(x % y);
  }

  lemma QuotientBounds(x: nat, y: nat)
    requires y > 0
    ensures 0 <= x / y <= x && 0 <= x % y <= x && x % y < y
  {
    assert x == (x / y) * y + x % y;
    MulMonotone(1, y, x / y);
  }

  lemma WordResidues(r: int)
    requires 0 <= r < 0x1_0000_0000
    ensures r % 0x1_0000_0000 == r && (-r) % 0x1_0000_0000 == Neg(r)
    ensures (0x1_0000_0000 - r) % 0x1_0000_0000 == Neg(r)
  {
  }

  /** Rounding down against rounding towards zero, for a negative dividend -x and divisor y. */
  lemma FloorOfNegative(x: nat, y: nat, v: int, q: int)
    requires x > 0 && y > 0 && v == q * y - x
    ensures x % y == 0 ==> v / y == q - x / y && v % y == 0
    ensures x % y != 0 ==> v / y == q - x / y - 1 && v % y == y - x % y
  {
    assert x == (x / y) * y + x % y;
    if x % y == 0 {
      assert (q - x / y) * y == q * y - (x / y) * y;
      DivModUnique(v, y, q - x / y, 0);
    } else {
      assert (q - x / y - 1) * y == q * y - (x / y) * y - y;
      DivModUnique(v, y, q - x / y - 1, y - x % y);
    }
  }

  /** What the loop leaves for a sign-extended negative dividend -x: the quotient rounded down. */
  lemma NegativeLoop(x: nat, y: nat, n: nat)
    requires n == 32 && 1 <= x <= 0x1_0000_0000 && 1 <= y <= 0x8000_0000 && (y >= 2 || x <= 0x8000_0000)
    ensures var (r, q) := Loop(0xffff_ffff, 0x1_0000_0000 - x, y, n);
            if x % y == 0 then r == 0 && q == 0x1_0000_0000 - x / y
            else r == y - x % y && q == 0xffff_ffff - x / y
  {
    DivideNegative(0x1_0000_0000 - x, y, n);
    FloorOfNegative(x, y, y * 0x8000_0000 - x, 0x8000_0000);
  }

  /** The reference in terms of magnitudes. */
  lemma RequiredByMagnitude(a: Word, b: Word, m: Op)
    requires (m == 4 || m == 6) && b != 0
    ensures var x: int, y: int := Abs(Signed(a)), Abs(Signed(b));
            y > 0 && 0 <= x / y <= 0x8000_0000 && 0 <= x % y < y && x % y <= x
            && Required(m, a, b) ==
                 if m == 4 then (if Negative(a) == Negative(b) then x / y else Neg(x / y))
                 else (if Negative(a) then Neg(x % y) else x % y)
  {
    var x: int, y: int := Abs(Signed(a)), Abs(Signed(b));
    QuotientBounds(x, y);
    WordResidues(x / y);
    WordResidues(x % y);
  }

  /** Signed divisions whose operands differ in sign, dividend not zero: the exact condition. */
  lemma DivideMixedSign(s: Regs, a: Word, b: Word, m: Op)
    requires (m == 4 || m == 6) && a != 0 && b != 0 && Negative(a) != Negative(b)
    ensures var x := Readout(Run(Load(s, a, b, m), Latency(m)));
            x == Required(m, a, b) <==> Exact(m, a, b)
  {
    hide Loop, Run, Readout, Required, High, Low;
    DivideReadout(s, a, b, m);
    LoadedHalves(s, a, b, m);
    RequiredByMagnitude(a, b, m);
    var t := Load(s, a, b, m);
    var x: int, y: int := Abs(Signed(a)), Abs(Signed(b));
    NegativeLoop(x, y, Latency(m));
    assert t.divfix <==> a != 0x8000_0000;
    assert t.remfix <==> Negative(b);
    MixedAnswers(a, b, x / y, x % y, y, m);
  }

  /** The four answers the unit can give for operands of different sign, against the reference. */
  lemma MixedAnswers(a: Word, b: Word, q: int, r: int, y: int, m: Op)
    requires (m == 4 || m == 6) && Negative(a) != Negative(b)
    requires 0 <= q <= 0x8000_0000 && 0 <= r < y <= 0x8000_0000
    requires r == 0 ==> q > 0
    ensures var rem := if r == 0 then 0 else y - r;
            var quo := if r == 0 then 0x1_0000_0000 - q else 0xffff_ffff - q;
            (m == 4 ==> ((quo + 1) % 0x1_0000_0000 == Neg(q) <==> r != 0) && (quo == Neg(q) <==> r == 0))
            && (m == 6 && Negative(b) ==> ((y - rem) % 0x1_0000_0000 == r <==> r != 0))
            && (m == 6 && Negative(a) ==> ((rem - y) % 0x1_0000_0000 == Neg(r) <==> r != 0)
                                          && (rem == Neg(r) <==> r == 0))
  {
    WordResidues(y);
    WordResidues(r);
  }

  lemma ZeroAnswers(q: int, r: int, y: int)
    requires 2 <= q <= 0x8000_0000 && 0 <= r < y <= 0x8000_0000
    ensures var rem := if r == 0 then 0 else y - r;
            var quo := if r == 0 then 0x1_0000_0000 - q else 0xffff_ffff - q;
            (quo + 1) % 0x1_0000_0000 != 0 && (y - rem) % 0x1_0000_0000 != 0
  {
  }

  lemma RemainderBounds(v: nat, b: nat)
    requires b > 0
    ensures 0 <= v % b < b
  {
  }

  /** What the loop leaves for the dividend 0 sign-extended as if it were negative. */
  lemma ZeroLoop(y: nat, n: nat)
    requires n == 32 && 1 <= y <= 0x8000_0000
    ensures var (r, q) := Loop(0xffff_ffff, 0, y, n);
            ((q + 1) % 0x1_0000_0000 == 0 <==> y == 1) && (y - r) % 0x1_0000_0000 != 0
  {
    hide Loop;
    if y == 1 {
      DivideZeroByMinusOne(n);
      Pow2Values();
    } else {
      NegativeLoop(0x1_0000_0000, y, n);
      QuotientOfPower(y);
      RemainderBounds(0x1_0000_0000, y);
      ZeroAnswers(0x1_0000_0000 / y, 0x1_0000_0000 % y, y);
    }
  }

  /** Zero divided by a negative number: right only for DIV by minus one. */
  lemma DivideZero(s: Regs, b: Word, m: Op)
    requires (m == 4 || m == 6) && Negative(b)
    ensures var x := Readout(Run(Load(s, 0, b, m), Latency(m)));
            x == Required(m, 0, b) <==> Exact(m, 0, b)
  {
    hide Loop, Run, Readout;
    DivideReadout(s, 0, b, m);
    LoadedHalves(s, 0, b, m);
    ZeroLoop(0x1_0000_0000 - b, Latency(m));
    RequiredByMagnitude(0, b, m);
    assert Abs(Signed(0)) == 0;
    QuotientBounds(0, 0x1_0000_0000 - b);
    assert Required(m, 0, b) == 0;
  }

  /** 2^32 divided by a divisor of 2 to 2^31 is at least 2 and at most 2^31. */
  lemma QuotientOfPower(y: nat)
    requires 2 <= y <= 0x8000_0000
    ensures 2 <= 0x1_0000_0000 / y <= 0x8000_0000
  {
    var q := 0x1_0000_0000 / y;
    assert 0x1_0000_0000 == q * y + 0x1_0000_0000 % y;
    MulMonotone(2, y, q);
    MulMonotone(q, 1, y);
  }

  // ---------------------------------------------------------------- main results

  /** From `start` on: `finish` stays low for the whole latency, then rises with a result that
      equals the ISA's exactly on the `Exact` operands and holds for 128 clocks. */
  lemma OperationCorrect(s: Regs, a: Word, b: Word, m: Op, n: nat)
    ensures var t := Run(Step(s, true, a, b, m), n);
            (n <= Latency(m) ==> !t.finish)
            && (Latency(m) < n <= Latency(m) + 128 ==> t.finish && (t.r == Required(m, a, b) <==> Exact(m, a, b)))
            && (n <= Latency(m) + 128 ==> (t.div0 <==> m >= 4 && b == 0))
            && (n <= 160 ==> (t.finish <==> n >= if m == 1 then 65 else 33))
  {
    var t := Load(s, a, b, m);
    if n <= Latency(m) {
      RunFrame(t, n);
    } else if n <= Latency(m) + 128 {
      RunResult(t, n);
      if m < 4 {
        MulCorrect(s, a, b, m);
      } else if b == 0 {
        DivideByZeroReadout(s, a, m);
      } else if m % 2 == 1 || Negative(a) == Negative(b) {
        DivideSameSign(s, a, b, m);
      } else if a != 0 {
        DivideMixedSign(s, a, b, m);
      } else {
        DivideZero(s, b, m);
      }
    }
  }

  /** The word delivered is the ISA's exactly on the `Exact` operands. */
  lemma DeliveredIff(m: Op, a: Word, b: Word)
    ensures Delivered(m, a, b) == Required(m, a, b) <==> Exact(m, a, b)
  {
    hide Run, Step, Delivered, Required, Exact;
    OperationCorrect(Cleared, a, b, m, Latency(m) + 1);
    DeliveredIsResult(Cleared, a, b, m, Latency(m) + 1);
  }

  /** The reference is a division: it rebuilds the dividend with a small remainder of the dividend's sign. */
  lemma ReferenceDivides(x: int, y: int)
    requires y != 0
    ensures x == TruncDiv(x, y) * y + TruncRem(x, y)
    ensures Abs(TruncRem(x, y)) < Abs(y)
    ensures x >= 0 ==> TruncRem(x, y) >= 0
    ensures x <= 0 ==> TruncRem(x, y) <= 0
  {
    var u: int, w: int := Abs(x), Abs(y);
    assert u == (u / w) * w + u % w;
    assert (-(u / w)) * w == -((u / w) * w);
    assert (-(u / w)) * (-w) == (u / w) * w;
    assert (u / w) * (-w) == -((u / w) * w);
  }

  /** Twenty divided by minus four: the unit answers minus four, the ISA minus five. */
  lemma MixedSignCounterexample(s: Regs)
    ensures Run(Step(s, true, 20, 0xffff_fffc, 4), 33).r != Required(4, 20, 0xffff_fffc)
  {
    OperationCorrect(s, 20, 0xffff_fffc, 4, 33);
  }
}
