/** What writes, traps and returns leave in the registers of the trap and interrupt units, place by place. */
module TrapRegisters {
  import opened Isa
  import opened Bits
  import opened Interrupts
  import N = Words

  // ---------------------------------------------------------------- fields of a register

  /** The digits of a word from place p on, m of them. */
  function Part(x: Word, p: int, m: int): int
    requires p > 0 && m > 0
  {
    U(x) / p % m
  }

  function Above3(x: Word): Word { ShiftRight(x, 3) }
  function Above4(x: Word): Word { ShiftRight(Above3(x), 1) }
  function Above7(x: Word): Word { ShiftRight(Above4(x), 3) }
  function Above8(x: Word): Word { ShiftRight(Above7(x), 1) }
  function Above11(x: Word): Word { ShiftRight(Above8(x), 3) }
  function Above12(x: Word): Word { ShiftRight(Above11(x), 1) }

  lemma AboveReads(x: Word)
    ensures U(Above3(x)) == U(x) / 8 && U(Above4(x)) == U(x) / 0x10 && U(Above7(x)) == U(x) / 0x80
    ensures U(Above8(x)) == U(x) / 0x100 && U(Above11(x)) == U(x) / 0x800 && U(Above12(x)) == U(x) / 0x1000
  {
    hide U, ShiftRight, Low;
    Cut3(x);
    Cut1(Above3(x));
    Cut3(Above4(x));
    Cut1(Above7(x));
    Cut3(Above8(x));
    Cut1(Above11(x));
    N.DivDiv(U(x), 8, 2);
    N.DivDiv(U(x), 0x10, 8);
    N.DivDiv(U(x), 0x80, 2);
    N.DivDiv(U(x), 0x100, 8);
    N.DivDiv(U(x), 0x800, 2);
  }

  /** The fields between the interrupt bits. */
  lemma PartsRead(x: Word)
    ensures Part(x, 1, 8) == U(Low(x, 7)) && Part(x, 8, 2) == U(Low(Above3(x), 1))
    ensures Part(x, 0x10, 8) == U(Low(Above4(x), 7)) && Part(x, 0x80, 2) == U(Low(Above7(x), 1))
    ensures Part(x, 0x100, 8) == U(Low(Above8(x), 7)) && Part(x, 0x800, 2) == U(Low(Above11(x), 1))
    ensures U(x) / 0x1000 == U(Above12(x))
  {
    hide U, ShiftRight, Low, Above3, Above4, Above7, Above8, Above11, Above12;
    AboveReads(x);
    Cut3(x);
    Cut1(Above3(x));
    Cut3(Above4(x));
    Cut1(Above7(x));
    Cut3(Above8(x));
    Cut1(Above11(x));
  }

  // ---------------------------------------------------------------- CSR writes

  /** The bits that software can write, against those that stay. */
  lemma StatusBits(x: Word, d: Word)
    ensures var w := Masked(x, d, 0xffff_ff77);
            Low(w, 7) == Low(x, 7) && Low(Above3(w), 1) == Low(Above3(d), 1) && Low(Above4(w), 7) == Low(Above4(x), 7)
            && Low(Above7(w), 1) == Low(Above7(d), 1)
  {
  }

  lemma StatusAbove(x: Word, d: Word)
    ensures Above8(Masked(x, d, 0xffff_ff77)) == Above8(x)
  {
  }

  lemma EnableLowBits(x: Word, d: Word)
    ensures var w := Masked(x, d, 0xffff_f777);
            Low(w, 7) == Low(x, 7) && Low(Above3(w), 1) == Low(Above3(d), 1) && Low(Above4(w), 7) == Low(Above4(x), 7)
            && Low(Above7(w), 1) == Low(Above7(d), 1)
  {
  }

  lemma EnableHighBits(x: Word, d: Word)
    ensures var w := Masked(x, d, 0xffff_f777);
            Low(Above8(w), 7) == Low(Above8(x), 7) && Low(Above11(w), 1) == Low(Above11(d), 1)
  {
  }

  lemma EnableAbove(x: Word, d: Word)
    ensures Above12(Masked(x, d, 0xffff_f777)) == Above12(x)
  {
  }

  lemma PendingBits(x: Word, d: Word)
    ensures var w := Masked(x, d, 0xffff_fff7); Low(w, 7) == Low(x, 7) && Low(Above3(w), 1) == Low(Above3(d), 1)
  {
  }

  lemma PendingAbove(x: Word, d: Word)
    ensures Above4(Masked(x, d, 0xffff_fff7)) == Above4(x)
  {
  }

  lemma AddressBits(x: Word, d: Word)
    ensures Low(Masked(x, d, 3), 3) == Low(x, 3) && ShiftRight(Masked(x, d, 3), 2) == ShiftRight(d, 2)
  {
  }

  /** In mstatus software writes MIE and MPIE, the places 8 and 128; everything else keeps what it was. */
  predicate TakesStatus(w: Word, x: Word, d: Word) {
    Part(w, 1, 8) == Part(x, 1, 8) && Part(w, 8, 2) == Part(d, 8, 2) && Part(w, 0x10, 8) == Part(x, 0x10, 8)
    && Part(w, 0x80, 2) == Part(d, 0x80, 2) && U(w) / 0x100 == U(x) / 0x100
  }

  /** In mie the three enables of machine mode, the places 8, 128 and 2048. */
  predicate TakesEnables(w: Word, x: Word, d: Word) {
    Part(w, 1, 8) == Part(x, 1, 8) && Part(w, 8, 2) == Part(d, 8, 2) && Part(w, 0x10, 8) == Part(x, 0x10, 8)
    && Part(w, 0x80, 2) == Part(d, 0x80, 2) && Part(w, 0x100, 8) == Part(x, 0x100, 8)
    && Part(w, 0x800, 2) == Part(d, 0x800, 2) && U(w) / 0x1000 == U(x) / 0x1000
  }

  /** In mip the software request, place 8. */
  predicate TakesRequest(w: Word, x: Word, d: Word) {
    Part(w, 1, 8) == Part(x, 1, 8) && Part(w, 8, 2) == Part(d, 8, 2) && U(w) / 0x10 == U(x) / 0x10
  }

  /** Of an address all but the two low bits. */
  predicate TakesAddress(w: Word, x: Word, d: Word) { U(w) / 4 == U(d) / 4 && U(w) % 4 == U(x) % 4 }

  lemma WrittenParts(x: Word, d: Word)
    ensures TakesStatus(Masked(x, d, 0xffff_ff77), x, d) && TakesEnables(Masked(x, d, 0xffff_f777), x, d)
    ensures TakesRequest(Masked(x, d, 0xffff_fff7), x, d) && TakesAddress(Masked(x, d, 3), x, d)
  {
    hide U, Low, ShiftRight, Masked, Part, Above3, Above4, Above7, Above8, Above11, Above12;
    StatusBits(x, d);
    StatusAbove(x, d);
    EnableLowBits(x, d);
    EnableHighBits(x, d);
    EnableAbove(x, d);
    PendingBits(x, d);
    PendingAbove(x, d);
    AddressBits(x, d);
    PartsRead(x);
    PartsRead(d);
    AboveReads(x);
    var s, e, p, a := Masked(x, d, 0xffff_ff77), Masked(x, d, 0xffff_f777), Masked(x, d, 0xffff_fff7), Masked(x, d, 3);
    PartsRead(s);
    AboveReads(s);
    PartsRead(e);
    PartsRead(p);
    AboveReads(p);
    Cut2(a);
    Cut2(x);
    Cut2(d);
  }

  /** The registers after d was written to the one with number a. */
  predicate Takes(v: Csrs, r: Csrs, a: int, d: Word) {
    (if a == 0x300 then TakesStatus(v.mstatus, r.mstatus, d) else v.mstatus == r.mstatus)
    && (if a == 0x304 then TakesEnables(v.mie, r.mie, d) else v.mie == r.mie)
    && (if a == 0x305 then TakesAddress(v.mtvec, r.mtvec, d) else v.mtvec == r.mtvec)
    && (if a == 0x341 then TakesAddress(v.mepc, r.mepc, d) else v.mepc == r.mepc)
    && (if a == 0x342 then v.mcause == d else v.mcause == r.mcause)
    && (if a == 0x344 then TakesRequest(v.mip, r.mip, d) else v.mip == r.mip)
  }

  /** A CSR write changes the register it addresses in the bits that software can write, and no other, trap or no
      trap. */
  lemma CsrWriteTakes(r: Csrs, code: bv4, c: FromCore, w: CsrWrite)
    requires c.we
    ensures Takes(CsrStep(r, code, c, w), r, w.a, w.d)
  {
    hide Masked, TakesStatus, TakesEnables, TakesRequest, TakesAddress, Entered, Left, InterruptCause;
    WrittenParts(r.mstatus, w.d);
    WrittenParts(r.mie, w.d);
    WrittenParts(r.mtvec, w.d);
    WrittenParts(r.mepc, w.d);
    WrittenParts(r.mip, w.d);
  }

  /** The address a trap goes to after mtvec was written. */
  lemma TrapAddress(r: Csrs, code: bv4, c: FromCore, d: Word)
    requires c.we
    ensures U(TrapEntry(CsrStep(r, code, c, CsrWrite(0x305, d)).mtvec)) == U(d) - U(d) % 4
  {
    hide U, TrapEntry, CsrStep;
    var v := CsrStep(r, code, c, CsrWrite(0x305, d)).mtvec;
    CsrWriteTakes(r, code, c, CsrWrite(0x305, d));
    RoundedDown(v);
    N.DivModUnique(U(v), 4, U(v) / 4, U(v) % 4);
    N.DivModUnique(U(d), 4, U(d) / 4, U(d) % 4);
  }

  // ---------------------------------------------------------------- trap and return

  lemma EnteredBits(m: Word)
    ensures Low(Entered(m), 7) == Low(m, 7) && Low(Above3(Entered(m)), 1) == 0
  {
  }

  lemma EnteredMiddle(m: Word)
    ensures Low(Above4(Entered(m)), 7) == Low(Above4(m), 7)
  {
  }

  lemma EnteredSaves(m: Word)
    ensures Low(Above7(Entered(m)), 1) == Low(Above3(m), 1)
  {
  }

  lemma EnteredAbove(m: Word)
    ensures Above8(Entered(m)) == Above8(m)
  {
  }

  lemma LeftBits(m: Word)
    ensures var e := Left(m);
            Low(e, 7) == Low(m, 7) && Low(Above3(e), 1) == Low(Above7(m), 1) && Low(Above4(e), 7) == Low(Above4(m), 7)
            && Low(Above7(e), 1) == 1
  {
  }

  lemma LeftAbove(m: Word)
    ensures Above8(Left(m)) == Above8(m)
  {
  }

  /** A trap saves the enable bit in its copy and clears it; a return brings the copy back and sets it. */
  lemma StatusMoves(m: Word)
    ensures var e := Entered(m);
            Part(e, 8, 2) == 0 && Part(e, 0x80, 2) == Part(m, 8, 2)
            && Part(e, 1, 8) == Part(m, 1, 8) && Part(e, 0x10, 8) == Part(m, 0x10, 8) && U(e) / 0x100 == U(m) / 0x100
    ensures var e := Left(m);
            Part(e, 8, 2) == Part(m, 0x80, 2) && Part(e, 0x80, 2) == 1
            && Part(e, 1, 8) == Part(m, 1, 8) && Part(e, 0x10, 8) == Part(m, 0x10, 8) && U(e) / 0x100 == U(m) / 0x100
  {
    hide U, Low, ShiftRight, Entered, Left, Part, Above3, Above4, Above7, Above8, Above11, Above12;
    EnteredBits(m);
    EnteredMiddle(m);
    EnteredSaves(m);
    EnteredAbove(m);
    LeftBits(m);
    LeftAbove(m);
    SmallWords();
    PartsRead(m);
    AboveReads(m);
    PartsRead(Entered(m));
    AboveReads(Entered(m));
    PartsRead(Left(m));
    AboveReads(Left(m));
  }

  // ---------------------------------------------------------------- the mask

  function Byte3(d: Word): Word { ShiftRight(ShiftRight(ShiftRight(d, 8), 8), 8) }

  lemma MaskBits(d: Word)
    ensures Masks(d).timer <==> Low(Byte3(d), 1) != 0
    ensures Masks(d).uart <==> Low(ShiftRight(Byte3(d), 1), 1) != 0
    ensures Masks(d).gpio <==> Low(ShiftRight(ShiftRight(Byte3(d), 1), 1), 1) != 0
    ensures Masks(d).ps2 <==> Low(ShiftRight(ShiftRight(ShiftRight(Byte3(d), 1), 1), 1), 1) != 0
  {
  }

  /** After a write to the mask register line x is off exactly when bit 23 + x of the word was set. */
  lemma MaskWritten(u: UnitRegs, lines: Lines, reply: bool, d: Word)
    ensures var mask := UnitStep(u, lines, reply, Write(true, 0, d)).mask;
            (LineOf(mask, 1) <==> U(d) / 0x100_0000 % 2 == 1) && (LineOf(mask, 2) <==> U(d) / 0x200_0000 % 2 == 1)
            && (LineOf(mask, 3) <==> U(d) / 0x400_0000 % 2 == 1) && (LineOf(mask, 4) <==> U(d) / 0x800_0000 % 2 == 1)
  {
    hide U, Low, ShiftRight, Masks, Caught, Byte3;
    MaskBits(d);
    ByteReads(d);
    var b := Byte3(d);
    var b1 := ShiftRight(b, 1);
    var b2 := ShiftRight(b1, 1);
    SmallWords();
    Cut1(b);
    Cut1(b1);
    Cut1(b2);
    Cut1(ShiftRight(b2, 1));
    N.DivDiv(U(d), 0x100_0000, 2);
    N.DivDiv(U(d), 0x200_0000, 2);
    N.DivDiv(U(d), 0x400_0000, 2);
    EqualReadings(Low(b, 1), 0);
    EqualReadings(Low(b1, 1), 0);
    EqualReadings(Low(b2, 1), 0);
    EqualReadings(Low(ShiftRight(b2, 1), 1), 0);
  }

  lemma ByteReads(d: Word)
    ensures U(Byte3(d)) == U(d) / 0x100_0000
  {
    hide U, Low, ShiftRight;
    Cut8(d);
    Cut8(ShiftRight(d, 8));
    Cut8(ShiftRight(ShiftRight(d, 8), 8));
    N.DivDiv(U(d), 0x100, 0x100);
    N.DivDiv(U(d), 0x1_0000, 0x100);
  }

  /** So a pulse in the clock of the write or later is kept when its line was left on, unless the same line is being
      served, and is ignored when its line was turned off. */
  lemma PulseAfterWrite(u: UnitRegs, lines: Lines, reply: bool, d: Word, later: Lines, r: bool, w: Write, x: nat)
    requires 1 <= x <= 4 && (!u.issuing ==> !u.isTimer)
    ensures var p := if x == 1 then 0x100_0000 else if x == 2 then 0x200_0000
                     else if x == 3 then 0x400_0000 else 0x800_0000;
            var v := UnitStep(u, lines, reply, Write(true, 0, d));
            var t := UnitStep(v, later, r, w);
            LineOf(t.saved, x) <==>
              x != IssuedNow(v, t) && (LineOf(v.saved, x) || (LineOf(lines, x) && U(d) / p % 2 == 0))
  {
    hide U, Masks, Caught;
    var v := UnitStep(u, lines, reply, Write(true, 0, d));
    MaskWritten(u, lines, reply, d);
    ServesLowestKeepsRest(u, lines, reply, Write(true, 0, d), x);
    ServesLowestKeepsRest(v, later, r, w, x);
    LinesFollow(u, lines, reply, Write(true, 0, d));
  }

  lemma LinesFollow(u: UnitRegs, lines: Lines, reply: bool, w: Write)
    ensures UnitStep(u, lines, reply, w).linesReg == lines
  {
  }
}
