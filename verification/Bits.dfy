/** Words as bit vectors and as numbers: what cutting, joining and adding words does to their unsigned readings. */
module Bits {
  import opened Isa
  import N = Words

  // ---------------------------------------------------------------- cutting

  /** A word put together from a high part and n low bits. */
  function Joined(hi: Word, n: Word, lo: Word): Word
    requires n <= 31
  {
    (hi << n) | lo
  }

  function Low(x: Word, mask: Word): Word { x & mask }

  function Reading31(x: bv31): (n: int)
    ensures 0 <= n < 0x8000_0000
  {
    x as int
  }

  lemma Sum1(x: Word, y: Word)
    ensures U(((x & 0x7fff_ffff) << 1) | (y & 0x1)) == 2 * U(x & 0x7fff_ffff) + U(y & 0x1)
    ensures U(y & 0x1) < 2
  {
  }

  lemma Join1(x: Word, y: Word)
    ensures U(Joined(Low(x, 0x7fff_ffff), 1, Low(y, 0x1))) == 2 * U(Low(x, 0x7fff_ffff)) + U(Low(y, 0x1))
    ensures U(Low(y, 0x1)) < 2
  {
    hide U;
    assert Low(x, 0x7fff_ffff) == x & 0x7fff_ffff && Low(y, 0x1) == y & 0x1;
    Sum1(x, y);
  }

  lemma Parts1(x: Word)
    ensures Low(ShiftRight(x, 1), 0x7fff_ffff) == ShiftRight(x, 1)
    ensures Joined(ShiftRight(x, 1), 1, Low(x, 0x1)) == x
  {
  }

  lemma Cut1(x: Word)
    ensures U(ShiftRight(x, 1)) == U(x) / 2 && U(Low(x, 0x1)) == U(x) % 2
  {
    hide U, Joined, Low, ShiftRight;
    Parts1(x);
    Join1(ShiftRight(x, 1), x);
  }

  lemma Sum2(x: Word, y: Word)
    ensures U(((x & 0x3fff_ffff) << 2) | (y & 0x3)) == 4 * U(x & 0x3fff_ffff) + U(y & 0x3)
    ensures U(y & 0x3) < 4
  {
  }

  lemma Join2(x: Word, y: Word)
    ensures U(Joined(Low(x, 0x3fff_ffff), 2, Low(y, 0x3))) == 4 * U(Low(x, 0x3fff_ffff)) + U(Low(y, 0x3))
    ensures U(Low(y, 0x3)) < 4
  {
    hide U;
    assert Low(x, 0x3fff_ffff) == x & 0x3fff_ffff && Low(y, 0x3) == y & 0x3;
    Sum2(x, y);
  }

  lemma Parts2(x: Word)
    ensures Low(ShiftRight(x, 2), 0x3fff_ffff) == ShiftRight(x, 2)
    ensures Joined(ShiftRight(x, 2), 2, Low(x, 0x3)) == x
  {
  }

  lemma Cut2(x: Word)
    ensures U(ShiftRight(x, 2)) == U(x) / 4 && U(Low(x, 0x3)) == U(x) % 4
  {
    hide U, Joined, Low, ShiftRight;
    Parts2(x);
    Join2(ShiftRight(x, 2), x);
  }

  lemma Sum3(x: Word, y: Word)
    ensures U(((x & 0x1fff_ffff) << 3) | (y & 0x7)) == 8 * U(x & 0x1fff_ffff) + U(y & 0x7)
    ensures U(y & 0x7) < 8
  {
  }

  lemma Join3(x: Word, y: Word)
    ensures U(Joined(Low(x, 0x1fff_ffff), 3, Low(y, 0x7))) == 8 * U(Low(x, 0x1fff_ffff)) + U(Low(y, 0x7))
    ensures U(Low(y, 0x7)) < 8
  {
    hide U;
    assert Low(x, 0x1fff_ffff) == x & 0x1fff_ffff && Low(y, 0x7) == y & 0x7;
    Sum3(x, y);
  }

  lemma Parts3(x: Word)
    ensures Low(ShiftRight(x, 3), 0x1fff_ffff) == ShiftRight(x, 3)
    ensures Joined(ShiftRight(x, 3), 3, Low(x, 0x7)) == x
  {
  }

  lemma Cut3(x: Word)
    ensures U(ShiftRight(x, 3)) == U(x) / 8 && U(Low(x, 0x7)) == U(x) % 8
  {
    hide U, Joined, Low, ShiftRight;
    Parts3(x);
    Join3(ShiftRight(x, 3), x);
  }

  lemma Sum4(x: Word, y: Word)
    ensures U(((x & 0x0fff_ffff) << 4) | (y & 0xf)) == 16 * U(x & 0x0fff_ffff) + U(y & 0xf)
    ensures U(y & 0xf) < 16
  {
  }

  lemma Join4(x: Word, y: Word)
    ensures U(Joined(Low(x, 0x0fff_ffff), 4, Low(y, 0xf))) == 16 * U(Low(x, 0x0fff_ffff)) + U(Low(y, 0xf))
    ensures U(Low(y, 0xf)) < 16
  {
    hide U;
    assert Low(x, 0x0fff_ffff) == x & 0x0fff_ffff && Low(y, 0xf) == y & 0xf;
    Sum4(x, y);
  }

  lemma Parts4(x: Word)
    ensures Low(ShiftRight(x, 4), 0x0fff_ffff) == ShiftRight(x, 4)
    ensures Joined(ShiftRight(x, 4), 4, Low(x, 0xf)) == x
  {
  }

  lemma Cut4(x: Word)
    ensures U(ShiftRight(x, 4)) == U(x) / 16 && U(Low(x, 0xf)) == U(x) % 16
  {
    hide U, Joined, Low, ShiftRight;
    Parts4(x);
    Join4(ShiftRight(x, 4), x);
  }

  lemma Sum5(x: Word, y: Word)
    ensures U(((x & 0x07ff_ffff) << 5) | (y & 0x1f)) == 32 * U(x & 0x07ff_ffff) + U(y & 0x1f)
    ensures U(y & 0x1f) < 32
  {
  }

  lemma Join5(x: Word, y: Word)
    ensures U(Joined(Low(x, 0x07ff_ffff), 5, Low(y, 0x1f))) == 32 * U(Low(x, 0x07ff_ffff)) + U(Low(y, 0x1f))
    ensures U(Low(y, 0x1f)) < 32
  {
    hide U;
    assert Low(x, 0x07ff_ffff) == x & 0x07ff_ffff && Low(y, 0x1f) == y & 0x1f;
    Sum5(x, y);
  }

  lemma Parts5(x: Word)
    ensures Low(ShiftRight(x, 5), 0x07ff_ffff) == ShiftRight(x, 5)
    ensures Joined(ShiftRight(x, 5), 5, Low(x, 0x1f)) == x
  {
  }

  lemma Cut5(x: Word)
    ensures U(ShiftRight(x, 5)) == U(x) / 32 && U(Low(x, 0x1f)) == U(x) % 32
  {
    hide U, Joined, Low, ShiftRight;
    Parts5(x);
    Join5(ShiftRight(x, 5), x);
  }

  lemma Sum6(x: Word, y: Word)
    ensures U(((x & 0x03ff_ffff) << 6) | (y & 0x3f)) == 64 * U(x & 0x03ff_ffff) + U(y & 0x3f)
    ensures U(y & 0x3f) < 64
  {
  }

  lemma Join6(x: Word, y: Word)
    ensures U(Joined(Low(x, 0x03ff_ffff), 6, Low(y, 0x3f))) == 64 * U(Low(x, 0x03ff_ffff)) + U(Low(y, 0x3f))
    ensures U(Low(y, 0x3f)) < 64
  {
    hide U;
    assert Low(x, 0x03ff_ffff) == x & 0x03ff_ffff && Low(y, 0x3f) == y & 0x3f;
    Sum6(x, y);
  }

  lemma Parts6(x: Word)
    ensures Low(ShiftRight(x, 6), 0x03ff_ffff) == ShiftRight(x, 6)
    ensures Joined(ShiftRight(x, 6), 6, Low(x, 0x3f)) == x
  {
  }

  lemma Cut6(x: Word)
    ensures U(ShiftRight(x, 6)) == U(x) / 64 && U(Low(x, 0x3f)) == U(x) % 64
  {
    hide U, Joined, Low, ShiftRight;
    Parts6(x);
    Join6(ShiftRight(x, 6), x);
  }

  lemma Sum7(x: Word, y: Word)
    ensures U(((x & 0x01ff_ffff) << 7) | (y & 0x7f)) == 128 * U(x & 0x01ff_ffff) + U(y & 0x7f)
    ensures U(y & 0x7f) < 128
  {
  }

  lemma Join7(x: Word, y: Word)
    ensures U(Joined(Low(x, 0x01ff_ffff), 7, Low(y, 0x7f))) == 128 * U(Low(x, 0x01ff_ffff)) + U(Low(y, 0x7f))
    ensures U(Low(y, 0x7f)) < 128
  {
    hide U;
    assert Low(x, 0x01ff_ffff) == x & 0x01ff_ffff && Low(y, 0x7f) == y & 0x7f;
    Sum7(x, y);
  }

  lemma Parts7(x: Word)
    ensures Low(ShiftRight(x, 7), 0x01ff_ffff) == ShiftRight(x, 7)
    ensures Joined(ShiftRight(x, 7), 7, Low(x, 0x7f)) == x
  {
  }

  lemma Cut7(x: Word)
    ensures U(ShiftRight(x, 7)) == U(x) / 128 && U(Low(x, 0x7f)) == U(x) % 128
  {
    hide U, Joined, Low, ShiftRight;
    Parts7(x);
    Join7(ShiftRight(x, 7), x);
  }

  lemma Sum8(x: Word, y: Word)
    ensures U(((x & 0x00ff_ffff) << 8) | (y & 0xff)) == 256 * U(x & 0x00ff_ffff) + U(y & 0xff)
    ensures U(y & 0xff) < 256
  {
  }

  lemma Join8(x: Word, y: Word)
    ensures U(Joined(Low(x, 0x00ff_ffff), 8, Low(y, 0xff))) == 256 * U(Low(x, 0x00ff_ffff)) + U(Low(y, 0xff))
    ensures U(Low(y, 0xff)) < 256
  {
    hide U;
    assert Low(x, 0x00ff_ffff) == x & 0x00ff_ffff && Low(y, 0xff) == y & 0xff;
    Sum8(x, y);
  }

  lemma Parts8(x: Word)
    ensures Low(ShiftRight(x, 8), 0x00ff_ffff) == ShiftRight(x, 8)
    ensures Joined(ShiftRight(x, 8), 8, Low(x, 0xff)) == x
  {
  }

  lemma Cut8(x: Word)
    ensures U(ShiftRight(x, 8)) == U(x) / 256 && U(Low(x, 0xff)) == U(x) % 256
  {
    hide U, Joined, Low, ShiftRight;
    Parts8(x);
    Join8(ShiftRight(x, 8), x);
  }

  lemma Sum10(x: Word, y: Word)
    ensures U(((x & 0x003f_ffff) << 10) | (y & 0x3ff)) == 1024 * U(x & 0x003f_ffff) + U(y & 0x3ff)
    ensures U(y & 0x3ff) < 1024
  {
  }

  lemma Join10(x: Word, y: Word)
    ensures U(Joined(Low(x, 0x003f_ffff), 10, Low(y, 0x3ff))) == 1024 * U(Low(x, 0x003f_ffff)) + U(Low(y, 0x3ff))
    ensures U(Low(y, 0x3ff)) < 1024
  {
    hide U;
    assert Low(x, 0x003f_ffff) == x & 0x003f_ffff && Low(y, 0x3ff) == y & 0x3ff;
    Sum10(x, y);
  }

  lemma Parts10(x: Word)
    ensures Low(ShiftRight(x, 10), 0x003f_ffff) == ShiftRight(x, 10)
    ensures Joined(ShiftRight(x, 10), 10, Low(x, 0x3ff)) == x
  {
  }

  lemma Cut10(x: Word)
    ensures U(ShiftRight(x, 10)) == U(x) / 1024 && U(Low(x, 0x3ff)) == U(x) % 1024
  {
    hide U, Joined, Low, ShiftRight;
    Parts10(x);
    Join10(ShiftRight(x, 10), x);
  }

  /** Words with one reading are one word. */
  lemma EqualReadings(x: Word, y: Word)
    ensures U(x) == U(y) <==> x == y
  {
    hide U, From;
    FromU(x);
    FromU(y);
  }

  lemma FromU(a: Word)
    ensures From(U(a)) == a
  {
  }

  // ---------------------------------------------------------------- adding

  /** Doubling, with a bit shifted in, loses what goes beyond 32 bits. */
  lemma DoubledIsCut(z: Word)
    ensures Joined(z, 1, 0) == Joined(Low(z, 0x7fff_ffff), 1, Low(0, 1))
    ensures Joined(z, 1, 1) == Joined(Low(z, 0x7fff_ffff), 1, Low(1, 1))
  {
  }

  function WithTop(x: Word): Word { 0x8000_0000 | x }

  lemma TopOrNot(z: Word)
    ensures z == Low(z, 0x7fff_ffff) || z == WithTop(Low(z, 0x7fff_ffff))
  {
  }

  lemma TopSum(y: Word)
    ensures U(0x8000_0000 | (y & 0x7fff_ffff)) == 0x8000_0000 + U(y & 0x7fff_ffff)
  {
  }

  lemma FewWithoutTop(y: Word)
    ensures U(y & 0x7fff_ffff) == Reading31((y & 0x7fff_ffff) as bv31)
  {
  }

  lemma TopCounts(y: Word)
    ensures U(WithTop(Low(y, 0x7fff_ffff))) == 0x8000_0000 + U(Low(y, 0x7fff_ffff))
    ensures U(Low(y, 0x7fff_ffff)) < 0x8000_0000
  {
    hide U, Reading31;
    assert Low(y, 0x7fff_ffff) == y & 0x7fff_ffff;
    TopSum(y);
    FewWithoutTop(y);
  }

  lemma SmallWords()
    ensures U(0) == 0 && U(1) == 1 && Low(0, 1) == 0 && Low(1, 1) == 1
  {
  }

  lemma Doubled(z: Word, bit: Word)
    requires bit == 0 || bit == 1
    ensures U(Joined(z, 1, bit)) == (2 * U(z) + U(bit)) % 0x1_0000_0000
  {
    hide U, Joined, Low, WithTop;
    DoubledIsCut(z);
    TopOrNot(z);
    TopCounts(z);
    Join1(z, bit);
    SmallWords();
  }

  /** The word of a number, bit by bit. */
  function Build(n: int): Word
    requires 0 <= n < 0x1_0000_0000
  {
    if n == 0 then 0 else Joined(Build(n / 2), 1, if n % 2 == 0 then 0 else 1)
  }

  lemma {:induction false} BuildReads(n: int)
    requires 0 <= n < 0x1_0000_0000
    ensures U(Build(n)) == n
  {
    hide U, Joined;
    SmallWords();
    if n > 0 {
      BuildReads(n / 2);
      Doubled(Build(n / 2), if n % 2 == 0 then 0 else 1);
    }
  }

  /** Every number below 2^32 is read from the word made of it. */
  lemma UFrom(n: int)
    requires 0 <= n < 0x1_0000_0000
    ensures U(From(n)) == n
  {
    hide U, From, Build;
    BuildReads(n);
    FromU(Build(n));
  }

  /** Addition of words is addition of their readings modulo 2^32. */
  lemma PlusIsSum(a: Word, b: Word)
    ensures U(Plus(a, b)) == (U(a) + U(b)) % 0x1_0000_0000
  {
    hide U, From;
    UFrom((U(a) + U(b)) % 0x1_0000_0000);
  }

  // ---------------------------------------------------------------- rounding down

  lemma EvenPart(a: Word)
    ensures ClearBit0(a) == Joined(Low(ShiftRight(a, 1), 0x7fff_ffff), 1, Low(0, 1))
  {
  }

  lemma WholeWords(a: Word)
    ensures TrapEntry(a) == Joined(Low(ShiftRight(a, 2), 0x3fff_ffff), 2, Low(0, 3))
  {
  }

  lemma NoLowBits()
    ensures Low(0, 1) == 0 && Low(0, 3) == 0
  {
  }

  /** A jump target is rounded down to an even address, a trap address to a multiple of four. */
  lemma RoundedDown(a: Word)
    ensures U(ClearBit0(a)) == U(a) - U(a) % 2 && U(TrapEntry(a)) == U(a) - U(a) % 4
  {
    hide U, Joined, Low, ShiftRight, ClearBit0, TrapEntry;
    EvenPart(a);
    WholeWords(a);
    NoLowBits();
    Parts1(a);
    Parts2(a);
    Cut1(a);
    Cut2(a);
    Join1(ShiftRight(a, 1), 0);
    Join2(ShiftRight(a, 2), 0);
    SmallWords();
  }
}
