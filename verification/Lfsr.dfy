/** Shift-register codes: the 16-bit check of the benchmark and the 8-bit check of the HDMI packets. */
module Lfsr {
  type Reg = bv16

  /** A code: its feedback taps and the highest bit of its register. */
  datatype Code = Code(poly: Reg, top: Reg)

  const CRC16 := Code(0xa001, 0x8000)
  const ECC8 := Code(0x83, 0x80)

  /** The register is as wide as its top bit, and the top bit is fed back. */
  predicate Ok(k: Code) {
    (k.top == 0x8000 && k.poly & 0x8000 != 0) || (k.top == 0x80 && k.poly & 0x80 != 0 && k.poly <= 0xff)
  }

  predicate Fits(k: Code, c: Reg) { k.top == 0x8000 || c <= 0xff }

  function Width(k: Code): nat { if k.top == 0x8000 then 16 else 8 }

  function AsBit(b: bool): Reg { if b then 1 else 0 }

  function LowBit(x: Reg): bool { x & 1 == 1 }

  function Down(x: Reg): Reg { x >> 1 }

  function Up(x: Reg): Reg { x << 1 }

  /** Addition without carries. */
  function Add(c: Reg, d: Reg): Reg { c ^ d }

  /** One shift without input. */
  function Shift(k: Code, c: Reg): Reg { Add(Down(c), if LowBit(c) then k.poly else 0) }

  /** One shift with an input bit. */
  function Step(k: Code, c: Reg, b: bool): Reg { Shift(k, Add(c, AsBit(b))) }

  type Bits = seq<bool>

  /** The register after a message, first bit first. */
  function Check(k: Code, c: Reg, m: Bits): Reg
    decreases |m|
  {
    if m == [] then c else Check(k, Step(k, c, m[0]), m[1..])
  }

  /** The low n bits, lowest first. */
  function BitsOf(x: Reg, n: nat): (r: Bits)
    ensures |r| == n
    decreases n
  {
    if n == 0 then [] else [LowBit(x)] + BitsOf(Down(x), n - 1)
  }

  lemma {:induction false} CheckConcat(k: Code, c: Reg, m: Bits, n: Bits)
    ensures Check(k, c, m + n) == Check(k, Check(k, c, m), n)
    decreases |m|
  {
    if m == [] {
      assert m + n == n;
    } else {
      assert (m + n)[1..] == m[1..] + n;
      CheckConcat(k, Step(k, c, m[0]), m[1..], n);
    }
  }

  lemma ShiftFits(k: Code, c: Reg)
    requires Ok(k) && Fits(k, c)
    ensures Fits(k, Shift(k, c))
  {
  }

  lemma StepFits(k: Code, c: Reg, b: bool)
    requires Ok(k) && Fits(k, c)
    ensures Fits(k, Step(k, c, b))
  {
    hide Ok, Fits, Shift, Add, AsBit;
    AddFits(k, c, b);
    ShiftFits(k, Add(c, AsBit(b)));
  }

  lemma AddFits(k: Code, c: Reg, b: bool)
    requires Ok(k) && Fits(k, c)
    ensures Fits(k, Add(c, AsBit(b)))
  {
    if k.top == 0x80 { ByteStaysByte(c, AsBit(b)); }
  }

  lemma ByteStaysByte(c: Reg, d: Reg)
    requires c <= 0xff && d <= 0xff
    ensures Add(c, d) <= 0xff
  {
  }

  lemma {:induction false} CheckFits(k: Code, c: Reg, m: Bits)
    requires Ok(k) && Fits(k, c)
    ensures Fits(k, Check(k, c, m))
    decreases |m|
  {
    hide Step;
    if m != [] {
      StepFits(k, c, m[0]);
      CheckFits(k, Step(k, c, m[0]), m[1..]);
    }
  }

  // ---------------------------------------------------------------- linear

  lemma LowBitLinear(c: Reg, d: Reg)
    ensures LowBit(Add(c, d)) == (LowBit(c) != LowBit(d))
  {
  }

  lemma HalfLinear(c: Reg, d: Reg)
    ensures Down(Add(c, d)) == Add(Down(c), Down(d))
  {
  }

  lemma AddAssoc(a: Reg, b: Reg, c: Reg)
    ensures Add(Add(a, b), c) == Add(a, Add(b, c))
  {
  }

  lemma AddComm(a: Reg, b: Reg)
    ensures Add(a, b) == Add(b, a)
  {
  }

  lemma AddMoves(a: Reg, b: Reg, p: Reg)
    ensures Add(Add(a, p), b) == Add(Add(a, b), p) == Add(a, Add(b, p))
  {
    hide Add;
    AddAssoc(a, p, b);
    AddComm(p, b);
    AddAssoc(a, b, p);
  }

  lemma AddCancels(a: Reg, b: Reg, p: Reg)
    ensures Add(Add(a, p), Add(b, p)) == Add(a, b)
  {
    hide Add;
    AddMiddle(a, p, b, p);
    AddSelf(p);
    AddNothing(Add(a, b));
  }

  lemma AddNothing(a: Reg)
    ensures Add(a, 0) == a == Add(0, a)
  {
  }

  lemma ShiftIs(k: Code, c: Reg)
    ensures Shift(k, c) == if LowBit(c) then Add(Down(c), k.poly) else Down(c)
  {
    hide Add, Down, LowBit;
    AddNothing(Down(c));
  }

  lemma ShiftLinear(k: Code, c: Reg, d: Reg)
    ensures Shift(k, Add(c, d)) == Add(Shift(k, c), Shift(k, d))
  {
    hide Shift, Add, LowBit;
    ShiftIs(k, c);
    ShiftIs(k, d);
    ShiftIs(k, Add(c, d));
    LowBitLinear(c, d);
    HalfLinear(c, d);
    AddCancels(Down(c), Down(d), k.poly);
    AddMoves(Down(c), Down(d), k.poly);
  }

  lemma StepIs(k: Code, c: Reg, b: bool)
    ensures Step(k, c, b) == Shift(k, Add(c, AsBit(b)))
  {
    hide Shift, Add, AsBit;
  }

  lemma BitLinear(c: Reg, d: Reg, a: bool, b: bool)
    ensures Add(Add(c, d), AsBit(a != b)) == Add(Add(c, AsBit(a)), Add(d, AsBit(b)))
  {
    hide Add, AsBit;
    AsBitLinear(a, b);
    AddMiddle(c, d, AsBit(a), AsBit(b));
  }

  lemma AsBitLinear(a: bool, b: bool)
    ensures AsBit(a != b) == Add(AsBit(a), AsBit(b))
  {
  }

  lemma AddMiddle(c: Reg, d: Reg, a: Reg, b: Reg)
    ensures Add(Add(c, d), Add(a, b)) == Add(Add(c, a), Add(d, b))
  {
    hide Add;
    AddAssoc(c, d, Add(a, b));
    AddAssoc(d, a, b);
    AddComm(d, a);
    AddAssoc(a, d, b);
    AddAssoc(c, a, Add(d, b));
  }

  lemma StepLinear(k: Code, c: Reg, d: Reg, a: bool, b: bool)
    ensures Step(k, Add(c, d), a != b) == Add(Step(k, c, a), Step(k, d, b))
  {
    hide Shift, Step, Add, AsBit;
    StepIs(k, c, a);
    StepIs(k, d, b);
    StepIs(k, Add(c, d), a != b);
    BitLinear(c, d, a, b);
    ShiftLinear(k, Add(c, AsBit(a)), Add(d, AsBit(b)));
  }

  function Xor(m: Bits, n: Bits): (r: Bits)
    requires |m| == |n|
    ensures |r| == |m|
  {
    seq(|m|, i requires 0 <= i < |m| => m[i] != n[i])
  }

  /** The check of a sum is the sum of the checks. */
  lemma {:induction false} CheckLinear(k: Code, c: Reg, d: Reg, m: Bits, n: Bits)
    requires |m| == |n|
    ensures Check(k, Add(c, d), Xor(m, n)) == Add(Check(k, c, m), Check(k, d, n))
    decreases |m|
  {
    hide Step, Add;
    if m != [] {
      assert Xor(m, n)[1..] == Xor(m[1..], n[1..]);
      StepLinear(k, c, d, m[0], n[0]);
      CheckLinear(k, Step(k, c, m[0]), Step(k, d, n[0]), m[1..], n[1..]);
    }
  }

  // ---------------------------------------------------------------- invertible

  /** The register before a shift. */
  function Unshift(k: Code, c: Reg): Reg { if HasTop(k, c) then Odd(Up(Add(c, k.poly))) else Up(c) }

  predicate HasTop(k: Code, c: Reg) { c & k.top != 0 }

  function Odd(c: Reg): Reg { c | 1 }

  function Unstep(k: Code, c: Reg, b: bool): Reg { Add(Unshift(k, c), AsBit(b)) }

  function Uncheck(k: Code, c: Reg, m: Bits): Reg
    decreases |m|
  {
    if m == [] then c else Uncheck(k, Unstep(k, c, m[|m| - 1]), m[..|m| - 1])
  }

  lemma HalfHasNoTop(k: Code, c: Reg)
    requires Ok(k) && Fits(k, c)
    ensures !HasTop(k, Down(c))
  {
  }

  lemma FlippedHasTop(k: Code, h: Reg)
    requires Ok(k) && !HasTop(k, h)
    ensures HasTop(k, Add(h, k.poly))
  {
  }

  lemma UpDown(c: Reg)
    ensures !LowBit(c) ==> Up(Down(c)) == c
    ensures LowBit(c) ==> Odd(Up(Down(c))) == c
  {
  }

  lemma FlipTwice(h: Reg, p: Reg)
    ensures Add(Add(h, p), p) == h
  {
  }

  lemma UnshiftShift(k: Code, c: Reg)
    requires Ok(k) && Fits(k, c)
    ensures Unshift(k, Shift(k, c)) == c
  {
    hide Ok, Fits, Shift, Down, Up, Add, LowBit, HasTop, Odd;
    ShiftIs(k, c);
    HalfHasNoTop(k, c);
    FlippedHasTop(k, Down(c));
    FlipTwice(Down(c), k.poly);
    UpDown(c);
  }

  lemma UnstepStep(k: Code, c: Reg, b: bool)
    requires Ok(k) && Fits(k, c)
    ensures Unstep(k, Step(k, c, b), b) == c
  {
    hide Ok, Fits, Shift, Unshift, Add, AsBit;
    AddFits(k, c, b);
    UnshiftShift(k, Add(c, AsBit(b)));
    FlipTwice(c, AsBit(b));
  }

  /** Running the register backwards over the message recovers where it started. */
  lemma {:induction false} UncheckCheck(k: Code, c: Reg, m: Bits)
    requires Ok(k) && Fits(k, c)
    ensures Uncheck(k, Check(k, c, m), m) == c
    decreases |m|
  {
    hide Step, Unstep;
    if m != [] {
      var before, b := m[..|m| - 1], m[|m| - 1];
      CheckConcat(k, c, before, [b]);
      assert m == before + [b];
      CheckFits(k, c, before);
      CheckOne(k, Check(k, c, before), b);
      UnstepStep(k, Check(k, c, before), b);
      UncheckCheck(k, c, before);
    }
  }

  lemma CheckOne(k: Code, c: Reg, b: bool)
    ensures Check(k, c, [b]) == Step(k, c, b)
  {
    assert [b][1..] == [];
  }

  // ---------------------------------------------------------------- residue

  lemma StepOwnBit(k: Code, x: Reg)
    ensures Step(k, x, LowBit(x)) == Down(x)
  {
    hide Shift, LowBit, Down, Add, AsBit;
    ShiftIs(k, Add(x, AsBit(LowBit(x))));
    LowBitLinear(x, AsBit(LowBit(x)));
    HalfLinear(x, AsBit(LowBit(x)));
    BitHalf(LowBit(x));
    BitLow(LowBit(x));
    AddNothing(Down(x));
  }

  function Shr(x: Reg, n: nat): Reg
    decreases n
  {
    if n == 0 then x else Shr(Down(x), n - 1)
  }

  lemma {:induction false} FeedBack(k: Code, x: Reg, n: nat)
    ensures Check(k, x, BitsOf(x, n)) == Shr(x, n)
    decreases n
  {
    hide Step;
    if n > 0 {
      StepOwnBit(k, x);
      FeedBack(k, Down(x), n - 1);
    }
  }

  lemma AllShiftedOut(k: Code, x: Reg)
    requires Fits(k, x) && Ok(k)
    ensures Shr(x, Width(k)) == 0
  {
    if k.top == 0x8000 { Shr16(x); } else { Shr8(x); }
  }

  lemma ShrFour(x: Reg, n: nat)
    ensures Shr(x, n + 4) == Shr(Down(Down(Down(Down(x)))), n)
  {
    hide Down;
    var a := Down(x);
    var b := Down(a);
    var c := Down(b);
    assert Shr(x, n + 4) == Shr(a, n + 3) == Shr(b, n + 2) == Shr(c, n + 1) == Shr(Down(c), n);
  }

  lemma FourShifts(x: Reg)
    ensures Down(Down(Down(Down(x)))) == x >> 4
  {
  }

  lemma Shr8(x: Reg)
    requires x <= 0xff
    ensures Shr(x, 8) == 0
  {
    ShrFour(x, 4);
    FourShifts(x);
    ShrFour(x >> 4, 0);
    FourShifts(x >> 4);
    assert (x >> 4) >> 4 == 0;
  }

  lemma Shr16(x: Reg)
    ensures Shr(x, 16) == 0
  {
    ShrFour(x, 12);
    FourShifts(x);
    ShrFour(x >> 4, 8);
    FourShifts(x >> 4);
    assert (x >> 4) >> 4 <= 0xff;
    Shr8((x >> 4) >> 4);
  }

  /** A message followed by its own check value leaves the register empty. */
  lemma ResidueIsZero(k: Code, c: Reg, m: Bits)
    requires Ok(k) && Fits(k, c)
    ensures Check(k, c, m + BitsOf(Check(k, c, m), Width(k))) == 0
  {
    var x := Check(k, c, m);
    CheckConcat(k, c, m, BitsOf(x, Width(k)));
    CheckFits(k, c, m);
    FeedBack(k, x, Width(k));
    AllShiftedOut(k, x);
  }

  // ---------------------------------------------------------------- bursts

  function Zeros(n: nat): (r: Bits)
    ensures |r| == n
  {
    seq(n, _ => false)
  }

  lemma StepZero(k: Code)
    ensures Step(k, 0, false) == 0
  {
  }

  lemma {:induction false} CheckZeros(k: Code, n: nat)
    ensures Check(k, 0, Zeros(n)) == 0
  {
    hide Step;
    if n > 0 {
      StepZero(k);
      assert Zeros(n)[1..] == Zeros(n - 1);
      CheckZeros(k, n - 1);
    }
  }

  /** The register a short message makes up, its first bit lowest. */
  function Gather(m: Bits): Reg
    decreases |m|
  {
    if m == [] then 0 else Add(Up(Gather(m[1..])), AsBit(m[0]))
  }

  /** n shifts without input. */
  function Shifts(k: Code, c: Reg, n: nat): Reg
    decreases n
  {
    if n == 0 then c else Shifts(k, Shift(k, c), n - 1)
  }

  /** A register that the message fits into: it is zero above the first n bits. */
  predicate Short(x: Reg, n: nat) { Shr(x, n) == 0 }

  lemma {:induction false} ZeroIsShort(n: nat)
    ensures Shr(0, n) == 0
  {
    if n > 0 { ZeroIsShort(n - 1); }
  }

  lemma {:induction false} ShortMonotone(x: Reg, n: nat, o: nat)
    requires Short(x, n) && n <= o
    ensures Short(x, o)
    decreases n
  {
    if n == 0 { ZeroIsShort(o); } else { ShortMonotone(Down(x), n - 1, o - 1); }
  }

  lemma Short15(y: Reg)
    requires Short(y, 15)
    ensures Down(Up(y)) == y
  {
    ShrFour(y, 11);
    FourShifts(y);
    ShrFour(y >> 4, 7);
    FourShifts(y >> 4);
    ShrFour((y >> 4) >> 4, 3);
    FourShifts((y >> 4) >> 4);
    ShrThree(((y >> 4) >> 4) >> 4);
    TopClear(y);
  }

  lemma ShrThree(x: Reg)
    ensures Shr(x, 3) == Down(Down(Down(x)))
  {
    hide Down;
    var a := Down(x);
    var b := Down(a);
    assert Shr(x, 3) == Shr(a, 2) == Shr(b, 1) == Shr(Down(b), 0);
  }

  lemma TopClear(y: Reg)
    requires Down(Down(Down(((y >> 4) >> 4) >> 4))) == 0
    ensures Down(Up(y)) == y
  {
  }

  lemma Short8(y: Reg)
    requires Short(y, 8)
    ensures y <= 0xff
  {
    ShrFour(y, 4);
    FourShifts(y);
    ShrFour(y >> 4, 0);
    FourShifts(y >> 4);
    ByteOnly(y);
  }

  lemma ByteOnly(y: Reg)
    requires (y >> 4) >> 4 == 0
    ensures y <= 0xff
  {
  }

  /** Gathering undone: the low bit out, the rest down. */
  lemma Ungather(y: Reg, b: bool)
    requires Down(Up(y)) == y
    ensures Down(Add(Up(y), AsBit(b))) == y
  {
    hide Add, Down, Up;
    HalfLinear(Up(y), AsBit(b));
    BitHalf(b);
    AddNothing(y);
  }

  lemma BitHalf(b: bool)
    ensures Down(AsBit(b)) == 0
  {
  }

  lemma ZeroBits()
    ensures !LowBit(0) && Down(0) == 0
  {
  }

  lemma UngatherBit(y: Reg, b: bool)
    ensures LowBit(Add(Up(y), AsBit(b))) == b
  {
  }

  lemma {:induction false} GatherShort(m: Bits)
    requires |m| <= 16
    ensures Short(Gather(m), |m|)
    ensures |m| <= 15 ==> Down(Up(Gather(m))) == Gather(m)
    decreases |m|
  {
    hide Add, AsBit, Up, Down, LowBit;
    if m != [] {
      var y := Gather(m[1..]);
      GatherShort(m[1..]);
      Ungather(y, m[0]);
    }
    if |m| <= 15 {
      ShortMonotone(Gather(m), |m|, 15);
      Short15(Gather(m));
    }
  }

  lemma StepGathered(k: Code, c: Reg, y: Reg, b: bool)
    requires Down(Up(y)) == y
    ensures Add(Step(k, c, b), y) == Shift(k, Add(c, Add(Up(y), AsBit(b))))
  {
    hide Shift, Step, Add, AsBit;
    StepIs(k, c, b);
    AddMoves(c, AsBit(b), Up(y));
    AddMoves(Up(y), AsBit(b), c);
    ShiftLinear(k, Add(c, AsBit(b)), Up(y));
    ShiftEven(k, y);
    GatherOrder(c, Up(y), AsBit(b));
  }

  lemma GatherOrder(c: Reg, y: Reg, b: Reg)
    ensures Add(c, Add(y, b)) == Add(Add(c, b), y)
  {
  }

  lemma ShiftEven(k: Code, y: Reg)
    requires Down(Up(y)) == y
    ensures Shift(k, Up(y)) == y
  {
  }

  /** Reading a message is adding it to the register and then only shifting, while it fits. */
  lemma {:induction false} CheckByShifts(k: Code, c: Reg, m: Bits)
    requires |m| <= 16
    ensures Check(k, c, m) == Shifts(k, Add(c, Gather(m)), |m|)
    decreases |m|
  {
    hide Step, Shift, Add, AsBit, Up, Down;
    if m == [] {
      AddNothing(c);
    } else {
      CheckByShifts(k, Step(k, c, m[0]), m[1..]);
      GatherShort(m[1..]);
      StepGathered(k, c, Gather(m[1..]), m[0]);
    }
  }

  lemma {:induction false} GatherNonzero(m: Bits, i: nat)
    requires |m| <= 16 && i < |m| && m[i]
    ensures Gather(m) != 0
    decreases |m|
  {
    hide Add, AsBit, Up, Down, LowBit;
    var y := Gather(m[1..]);
    GatherShort(m[1..]);
    Ungather(y, m[0]);
    UngatherBit(y, m[0]);
    ZeroBits();
    if i > 0 { GatherNonzero(m[1..], i - 1); }
  }

  lemma ShiftNonzero(k: Code, c: Reg)
    requires Ok(k) && Fits(k, c) && c != 0
    ensures Shift(k, c) != 0 && Fits(k, Shift(k, c))
  {
    hide Shift, Ok;
    ShiftFits(k, c);
    UnshiftShift(k, c);
    UnshiftZero(k);
  }

  lemma UnshiftZero(k: Code)
    ensures Unshift(k, 0) == 0
  {
  }

  lemma {:induction false} ShiftsNonzero(k: Code, c: Reg, n: nat)
    requires Ok(k) && Fits(k, c) && c != 0
    ensures Shifts(k, c, n) != 0
    decreases n
  {
    hide Shift, Ok;
    if n > 0 {
      ShiftNonzero(k, c);
      ShiftsNonzero(k, Shift(k, c), n - 1);
    }
  }

  lemma ZerosNonzero(k: Code, c: Reg, n: nat)
    requires Ok(k) && Fits(k, c) && c != 0
    ensures Check(k, c, Zeros(n)) != 0
  {
    UncheckCheck(k, c, Zeros(n));
    CheckZeros(k, n);
    UncheckCheck(k, 0, Zeros(n));
  }

  /** A burst no longer than the register, anywhere in a message of zeros, leaves a check that is not zero. */
  lemma BurstShows(k: Code, before: nat, burst: Bits, after: nat, i: nat)
    requires Ok(k) && |burst| <= Width(k) && i < |burst| && burst[i]
    ensures Check(k, 0, Zeros(before) + burst + Zeros(after)) != 0
  {
    hide Ok, Fits, Add, Shift;
    CheckConcat(k, 0, Zeros(before) + burst, Zeros(after));
    CheckConcat(k, 0, Zeros(before), burst);
    CheckZeros(k, before);
    CheckByShifts(k, 0, burst);
    AddNothing(Gather(burst));
    GatherNonzero(burst, i);
    GatherFits(k, burst);
    ShiftsNonzero(k, Gather(burst), |burst|);
    CheckFitsZero(k, burst);
    ZerosNonzero(k, Check(k, 0, burst), after);
  }

  lemma GatherFits(k: Code, m: Bits)
    requires Ok(k) && |m| <= Width(k)
    ensures Fits(k, Gather(m)) && |m| <= 16
  {
    GatherShort(m);
    if k.top == 0x80 {
      ShortMonotone(Gather(m), |m|, 8);
      Short8(Gather(m));
    }
  }

  lemma CheckFitsZero(k: Code, m: Bits)
    requires Ok(k)
    ensures Fits(k, Check(k, 0, m))
  {
    CheckFits(k, 0, m);
  }

  /** Main result: two messages of equal length that differ, but only within as many consecutive bits as the
      register has, never have the same check value, whatever the register held at the start. */
  lemma BurstDetected(k: Code, c: Reg, head: Bits, m: Bits, n: Bits, tail: Bits)
    requires Ok(k) && Fits(k, c) && |m| == |n| <= Width(k) && m != n
    ensures Check(k, c, head + m + tail) != Check(k, c, head + n + tail)
  {
    hide Ok, Fits, Check, Add, Zeros;
    var i :| 0 <= i < |m| && m[i] != n[i];
    BurstShows(k, |head|, Xor(m, n), |tail|, i);
    CheckLinear(k, c, c, head + m + tail, head + n + tail);
    XorFramed(head, m, n, tail);
    AddSelf(c);
    AddSelf(Check(k, c, head + m + tail));
  }

  lemma XorFramed(head: Bits, m: Bits, n: Bits, tail: Bits)
    requires |m| == |n|
    ensures Xor(head + m + tail, head + n + tail) == Zeros(|head|) + Xor(m, n) + Zeros(|tail|)
  {
  }

  lemma AddSelf(c: Reg)
    ensures Add(c, c) == 0
  {
  }

  // ---------------------------------------------------------------- the benchmark's check

  /** A shift with input as the code does it: flip, shift, then set or clear the top bit. */
  function CodedStep(crc: bv16, x16: bool): bv16 {
    if x16 then ((crc ^ 0x4002) >> 1) | 0x8000 else (crc >> 1) & 0x7fff
  }

  lemma CodedStepIsStep(crc: bv16, b: bool)
    ensures CodedStep(crc, b != LowBit(crc)) == Step(CRC16, crc, b)
  {
    hide CodedStep, Step, Shift, LowBit, Down, Add, AsBit;
    CodedStepIs(crc, b != LowBit(crc));
    StepIs(CRC16, crc, b);
    ShiftIs(CRC16, Add(crc, AsBit(b)));
    LowBitLinear(crc, AsBit(b));
    HalfLinear(crc, AsBit(b));
    BitHalf(b);
    BitLow(b);
    AddNothing(Down(crc));
  }

  lemma BitLow(b: bool)
    ensures LowBit(AsBit(b)) == b
  {
  }

  lemma CodedStepIs(crc: bv16, x16: bool)
    ensures CodedStep(crc, x16) == if x16 then Add(Down(crc), 0xa001) else Down(crc)
  {
  }

  /** Eight bits of data, lowest first. */
  method Crcu8(data0: bv8, crc0: bv16) returns (crc: bv16)
    ensures crc == Check(CRC16, crc0, BitsOf(data0 as bv16, 8))
  {
    hide CodedStep, Step, LowBit;
    crc := crc0;
    var data := data0;
    var i := 0;
    while i < 8
      invariant 0 <= i <= 8
      invariant Check(CRC16, crc, BitsOf(data as bv16, 8 - i)) == Check(CRC16, crc0, BitsOf(data0 as bv16, 8))
    {
      var x16 := (data & 1 == 1) != LowBit(crc);
      ByteBits(data);
      CodedStepIsStep(crc, data & 1 == 1);
      data := data >> 1;
      crc := CodedStep(crc, x16);
      i := i + 1;
    }
  }

  lemma ByteBits(d: bv8)
    ensures LowBit(d as bv16) == (d & 1 == 1) && Down(d as bv16) == (d >> 1) as bv16
  {
  }

  /** The bits of the low byte, then of the rest. */
  lemma {:induction false} BitsConcat(x: Reg, n: nat, o: nat)
    ensures BitsOf(x, n + o) == BitsOf(x, n) + BitsOf(Shr(x, n), o)
  {
    if n > 0 { BitsConcat(Down(x), n - 1, o); }
  }

  /** Sixteen bits, lowest first. */
  method Crcu16(newval: bv16, crc0: bv16) returns (crc: bv16)
    ensures crc == Check(CRC16, crc0, BitsOf(newval, 16))
  {
    crc := Crcu8((newval & 0xff) as bv8, crc0);
    crc := Crcu8((newval >> 8) as bv8, crc);
    TwoBytes(newval);
    CheckConcat(CRC16, crc0, BitsOf((newval & 0xff) as bv8 as bv16, 8), BitsOf((newval >> 8) as bv8 as bv16, 8));
  }

  /** A mask with at least n ones at the bottom. */
  predicate LowOnes(m: Reg, n: nat)
    decreases n
  {
    n == 0 || (LowBit(m) && LowOnes(Down(m), n - 1))
  }

  lemma LowBitMasked(x: Reg, m: Reg)
    requires LowBit(m)
    ensures LowBit(x & m) == LowBit(x)
  {
  }

  lemma DownMasked(x: Reg, m: Reg)
    ensures Down(x & m) == Down(x) & Down(m)
  {
  }

  lemma {:induction false} BitsMasked(x: Reg, m: Reg, n: nat)
    requires LowOnes(m, n)
    ensures BitsOf(x & m, n) == BitsOf(x, n)
    decreases n
  {
    hide LowBit, Down;
    if n > 0 {
      LowBitMasked(x, m);
      DownMasked(x, m);
      BitsMasked(Down(x), Down(m), n - 1);
    }
  }

  lemma ByteMask()
    ensures LowOnes(0xff, 8)
  {
    assert LowOnes(0xf, 4);
    assert Down(Down(Down(Down(0xff)))) == 0xf;
  }

  lemma Shr8Is(x: Reg)
    ensures Shr(x, 8) == x >> 8
  {
    ShrFour(x, 4);
    FourShifts(x);
    ShrFour(x >> 4, 0);
    FourShifts(x >> 4);
    TwiceFour(x);
  }

  lemma TwiceFour(x: Reg)
    ensures (x >> 4) >> 4 == x >> 8
  {
  }

  lemma LowByte(x: Reg)
    ensures (x & 0xff) as bv8 as bv16 == x & 0xff
  {
  }

  lemma HighByte(x: Reg)
    ensures (x >> 8) as bv8 as bv16 == x >> 8
  {
  }

  lemma TwoBytes(x: Reg)
    ensures BitsOf(x, 16) == BitsOf((x & 0xff) as bv8 as bv16, 8) + BitsOf((x >> 8) as bv8 as bv16, 8)
  {
    BitsConcat(x, 8, 8);
    ByteMask();
    BitsMasked(x, 0xff, 8);
    Shr8Is(x);
    LowByte(x);
    HighByte(x);
  }

  /** The lower half first. */
  method Crcu32(newval: bv32, crc0: bv16) returns (crc: bv16)
    ensures crc == Check(CRC16, crc0, BitsOf((newval & 0xffff) as bv16, 16) + BitsOf((newval >> 16) as bv16, 16))
  {
    crc := Crcu16((newval & 0xffff) as bv16, crc0);
    crc := Crcu16((newval >> 16) as bv16, crc);
    CheckConcat(CRC16, crc0, BitsOf((newval & 0xffff) as bv16, 16), BitsOf((newval >> 16) as bv16, 16));
  }
}
