/** Words on the bus against bytes in the ISA's memory: loads, and stores done by read, merge and write. */
module CoreMemory {
  import opened Isa
  import opened Core

  /** The memory on the bus, one word per aligned address. */
  type WordMem = Word -> Word

  /** Writing the word that holds address a. */
  function SetWord(m: WordMem, a: Word, v: Word): WordMem { (x: Word) => if Align(x) == Align(a) then v else m(x) }

  function Align(a: Word): Word { a & 0xffff_fffc }

  function Lane(a: Word): bv2 { (a & 3) as bv2 }

  /** Byte k of a bus word; the byte at the lowest address is on top. */
  function BusByte(raw: Word, k: bv2): bv8 {
    match k
    case 0 => (raw >> 24) as bv8
    case 1 => ((raw >> 16) & 0xff) as bv8
    case 2 => ((raw >> 8) & 0xff) as bv8
    case _ => (raw & 0xff) as bv8
  }

  function ByteAt(words: WordMem, a: Word): bv8 { BusByte(words(Align(a)), Lane(a)) }

  /** The two memories hold the same bytes. */
  ghost predicate Mirrors(words: WordMem, mem: ByteMem) {
    forall a: Word :: mem(a) == ByteAt(words, a)
  }

  lemma AlignAlign(a: Word)
    ensures Align(Align(a)) == Align(a)
  {
  }

  // ---------------------------------------------------------------- bytes of a word

  lemma SwapGathers(raw: Word)
    ensures Swap(raw) == (BusByte(raw, 0) as Word) | ((BusByte(raw, 1) as Word) << 8)
                       | ((BusByte(raw, 2) as Word) << 16) | ((BusByte(raw, 3) as Word) << 24)
  {
  }

  lemma FirstByte(a: Word)
    requires a & 3 == 0
    ensures Align(a) == a && Lane(a) == 0
  {
  }

  lemma SecondAlign(a: Word)
    requires a & 3 == 0
    ensures Align(a + 1) == a
  {
  }

  lemma SecondLane(a: Word)
    requires a & 3 == 0
    ensures Lane(a + 1) == 1
  {
  }

  lemma ThirdAlign(a: Word)
    requires a & 3 == 0
    ensures Align(a + 2) == a
  {
  }

  lemma ThirdLane(a: Word)
    requires a & 3 == 0
    ensures Lane(a + 2) == 2
  {
  }

  lemma FourthAlign(a: Word)
    requires a & 3 == 0
    ensures Align(a + 3) == a
  {
  }

  lemma FourthLane(a: Word)
    requires a & 3 == 0
    ensures Lane(a + 3) == 3
  {
  }

  /** Addresses within an aligned word. */
  lemma WithinWord(a: Word)
    requires a & 3 == 0
    ensures Align(a) == a && Lane(a) == 0
    ensures Align(a + 1) == a && Lane(a + 1) == 1
    ensures Align(a + 2) == a && Lane(a + 2) == 2
    ensures Align(a + 3) == a && Lane(a + 3) == 3
  {
    hide Align, Lane;
    FirstByte(a);
    SecondAlign(a);
    SecondLane(a);
    ThirdAlign(a);
    ThirdLane(a);
    FourthAlign(a);
    FourthLane(a);
  }

  lemma NextInHalf(a: Word)
    requires a & 1 == 0
    ensures a + 1 == a | 1
  {
  }

  lemma AlignNext(a: Word)
    requires a & 1 == 0
    ensures Align(a | 1) == Align(a)
  {
  }

  lemma LaneNext(a: Word)
    requires a & 1 == 0
    ensures Lane(a | 1) == Lane(a) + 1
  {
  }

  lemma HalfLanes(a: Word)
    requires a & 1 == 0
    ensures Lane(a) == if Bit(a, 1) then 2 else 0
  {
  }

  lemma WithinHalf(a: Word)
    requires a & 1 == 0
    ensures Align(a + 1) == Align(a) && Lane(a + 1) == Lane(a) + 1
    ensures Lane(a) == 0 || Lane(a) == 2
  {
    hide Align, Lane;
    NextInHalf(a);
    AlignNext(a);
    LaneNext(a);
    HalfLanes(a);
  }

  lemma SplitAddress(a: Word)
    ensures a == Align(a) | (Lane(a) as Word)
  {
  }

  lemma SameAddress(a: Word, b: Word)
    ensures a == b <==> Align(a) == Align(b) && Lane(a) == Lane(b)
  {
    hide Align, Lane;
    SplitAddress(a);
    SplitAddress(b);
  }

  /** Fetching an aligned word. */
  lemma FetchMirrors(words: WordMem, mem: ByteMem, a: Word)
    requires Mirrors(words, mem) && a & 3 == 0
    ensures Swap(words(Align(a))) == Fetch(mem, a)
  {
    hide Swap, BusByte, Align, Lane;
    WithinWord(a);
    SwapGathers(words(a));
  }

  // Each lane of the byte and half-word selectors on its own.

  lemma PickByte0(raw: Word)
    ensures Swap(raw) & 0xff == BusByte(raw, 0) as Word
  {
  }

  lemma PickByte1(raw: Word)
    ensures (Swap(raw) >> 8) & 0xff == BusByte(raw, 1) as Word
  {
  }

  lemma PickByte2(raw: Word)
    ensures (Swap(raw) >> 16) & 0xff == BusByte(raw, 2) as Word
  {
  }

  lemma PickByte3(raw: Word)
    ensures (Swap(raw) >> 24) & 0xff == BusByte(raw, 3) as Word
  {
  }

  lemma PickHalf0(raw: Word)
    ensures Swap(raw) & 0xffff == (BusByte(raw, 0) as Word) | ((BusByte(raw, 1) as Word) << 8)
  {
  }

  lemma PickHalf2(raw: Word)
    ensures (Swap(raw) >> 16) & 0xffff == (BusByte(raw, 2) as Word) | ((BusByte(raw, 3) as Word) << 8)
  {
  }

  lemma LaneIs(a: Word, k: bv2)
    ensures Lane(a) == k <==> a & 3 == k as Word
  {
  }

  lemma PickByte(raw: Word, mar: Word)
    ensures ByteLane(mar, Swap(raw)) == BusByte(raw, Lane(mar)) as Word
  {
    hide Swap, BusByte, Lane;
    PickByte0(raw);
    PickByte1(raw);
    PickByte2(raw);
    PickByte3(raw);
    LaneIs(mar, 0);
    LaneIs(mar, 1);
    LaneIs(mar, 2);
  }

  lemma ExtendsByte(i: Word, v: bv8)
    ensures ExtendByte(i, v as Word) == if Bit(i, 14) then v as Word else SignExtend(v as Word, 0x80)
  {
  }

  /** Joining two bytes: the same word whichever width the work is done in. */
  function Join(lo: bv8, hi: bv8): bv16 { (lo as bv16) | ((hi as bv16) << 8) }

  lemma JoinWidens(lo: bv8, hi: bv8)
    ensures Join(lo, hi) as Word == (lo as Word) | ((hi as Word) << 8)
  {
  }

  lemma FillNegative(v: bv16)
    requires v & 0x8000 != 0
    ensures 0xffff_0000 | (v as Word) == SignExtend(v as Word, 0x8000)
  {
  }

  lemma FillPositive(v: bv16)
    requires v & 0x8000 == 0
    ensures v as Word == SignExtend(v as Word, 0x8000)
  {
  }

  lemma HalfSign(v: bv16)
    ensures Bit(v as Word, 15) <==> v & 0x8000 != 0
  {
  }

  lemma ExtendsHalf(i: Word, v: bv16)
    ensures ExtendHalf(i, v as Word) == if Bit(i, 14) then v as Word else SignExtend(v as Word, 0x8000)
  {
    hide SignExtend, Bit;
    HalfSign(v);
    if v & 0x8000 != 0 { FillNegative(v); } else { FillPositive(v); }
  }

  lemma LoadByteMirrors(words: WordMem, mem: ByteMem, i: Word, a: Word)
    requires Mirrors(words, mem)
    ensures LoadByte(i, a, Swap(words(Align(a)))) == LoadValue(mem, a, Byte, Bit(i, 14))
  {
    hide Swap, BusByte, Align, Lane, ByteLane, ExtendByte, SignExtend, Bit;
    PickByte(words(Align(a)), a);
    ExtendsByte(i, mem(a));
  }

  lemma PickHalf(raw: Word, mar: Word)
    ensures HalfLane(mar, Swap(raw)) ==
              if Bit(mar, 1) then Wide(BusByte(raw, 2), BusByte(raw, 3)) else Wide(BusByte(raw, 0), BusByte(raw, 1))
  {
    hide Swap, BusByte, Bit;
    if Bit(mar, 1) { PickHalf2(raw); } else { PickHalf0(raw); }
  }

  function Wide(lo: bv8, hi: bv8): Word { (lo as Word) | ((hi as Word) << 8) }

  lemma WideIs(lo: bv8, hi: bv8)
    ensures Wide(lo, hi) == (lo as Word) | ((hi as Word) << 8)
  {
  }

  lemma HalfBytes(words: WordMem, mem: ByteMem, a: Word)
    requires Mirrors(words, mem) && a & 1 == 0
    ensures mem(a) == BusByte(words(Align(a)), if Bit(a, 1) then 2 else 0)
    ensures mem(a + 1) == BusByte(words(Align(a)), if Bit(a, 1) then 3 else 1)
  {
    hide BusByte, Align, Lane, Bit;
    WithinHalf(a);
    HalfLanes(a);
  }

  lemma HalfLaneMirrors(words: WordMem, mem: ByteMem, a: Word)
    requires Mirrors(words, mem) && a & 1 == 0
    ensures HalfLane(a, Swap(words(Align(a)))) == (mem(a) as Word) | ((mem(a + 1) as Word) << 8)
  {
    hide Swap, BusByte, Align, HalfLane, Bit, Mirrors, Wide;
    HalfBytes(words, mem, a);
    PickHalf(words(Align(a)), a);
    WideIs(mem(a), mem(a + 1));
  }

  lemma LoadHalfMirrors(words: WordMem, mem: ByteMem, i: Word, a: Word)
    requires Mirrors(words, mem) && a & 1 == 0
    ensures LoadHalf(i, a, Swap(words(Align(a)))) == LoadValue(mem, a, Half, Bit(i, 14))
  {
    hide Swap, Align, HalfLane, ExtendHalf, SignExtend, Bit, Mirrors, Join;
    HalfLaneMirrors(words, mem, a);
    JoinWidens(mem(a), mem(a + 1));
    ExtendsHalf(i, Join(mem(a), mem(a + 1)));
  }

  // ---------------------------------------------------------------- merged stores

  lemma MergeByte0(raw: Word, v: Word, k: bv2)
    ensures BusByte(Swap((Swap(raw) & 0xffff_ff00) | (v & 0xff)), k)
         == if k == 0 then ByteOf(v, 0) else BusByte(raw, k)
  {
  }

  lemma MergeByte1(raw: Word, v: Word, k: bv2)
    ensures BusByte(Swap((Swap(raw) & 0xffff_00ff) | ((v & 0xff) << 8)), k)
         == if k == 1 then ByteOf(v, 0) else BusByte(raw, k)
  {
  }

  lemma MergeByte2(raw: Word, v: Word, k: bv2)
    ensures BusByte(Swap((Swap(raw) & 0xff00_ffff) | ((v & 0xff) << 16)), k)
         == if k == 2 then ByteOf(v, 0) else BusByte(raw, k)
  {
  }

  lemma MergeByte3(raw: Word, v: Word, k: bv2)
    ensures BusByte(Swap((Swap(raw) & 0x00ff_ffff) | ((v & 0xff) << 24)), k)
         == if k == 3 then ByteOf(v, 0) else BusByte(raw, k)
  {
  }

  lemma MergeHalf0(raw: Word, v: Word, k: bv2)
    ensures BusByte(Swap((Swap(raw) & 0xffff_0000) | (v & 0xffff)), k)
         == if k == 0 then ByteOf(v, 0) else if k == 1 then ByteOf(v, 1) else BusByte(raw, k)
  {
  }

  lemma MergeHalf2(raw: Word, v: Word, k: bv2)
    ensures BusByte(Swap((Swap(raw) & 0xffff) | ((v & 0xffff) << 16)), k)
         == if k == 2 then ByteOf(v, 0) else if k == 3 then ByteOf(v, 1) else BusByte(raw, k)
  {
  }

  lemma MergeByte(mar: Word, raw: Word, v: Word, k: bv2)
    ensures BusByte(Swap(StoreByte(mar, Swap(raw), v)), k) == if k == Lane(mar) then ByteOf(v, 0) else BusByte(raw, k)
  {
    hide Swap, BusByte, Lane, ByteOf;
    MergeByte0(raw, v, k);
    MergeByte1(raw, v, k);
    MergeByte2(raw, v, k);
    MergeByte3(raw, v, k);
    LaneIs(mar, 0);
    LaneIs(mar, 1);
    LaneIs(mar, 2);
    LaneIs(mar, 3);
  }

  lemma MergeHalf(mar: Word, raw: Word, v: Word, k: bv2)
    requires mar & 1 == 0
    ensures BusByte(Swap(StoreHalf(mar, Swap(raw), v)), k) ==
              if k == Lane(mar) then ByteOf(v, 0) else if k == Lane(mar) + 1 then ByteOf(v, 1) else BusByte(raw, k)
  {
    hide Swap, BusByte, Lane, ByteOf, Bit;
    HalfLanes(mar);
    MergeHalf0(raw, v, k);
    MergeHalf2(raw, v, k);
  }

  lemma ScatterWord(v: Word, k: bv2)
    ensures BusByte(Swap(v), k) == ByteOf(v, k)
  {
  }

  /** A byte store done as read, merge and write changes one byte and no other. */
  lemma StoreByteMirrors(words: WordMem, mem: ByteMem, a: Word, v: Word)
    requires Mirrors(words, mem)
    ensures Mirrors(SetWord(words, a, Swap(StoreByte(a, Swap(words(Align(a))), v))), StoreValue(mem, a, Byte, v))
  {
    hide Swap, BusByte, Align, Lane, StoreByte, ByteOf;
    var words' := SetWord(words, a, Swap(StoreByte(a, Swap(words(Align(a))), v)));
    forall x: Word
      ensures StoreValue(mem, a, Byte, v)(x) == ByteAt(words', x)
    {
      assert mem(x) == ByteAt(words, x);
      SameAddress(a, x);
      AlignAlign(x);
      MergeByte(a, words(Align(a)), v, Lane(x));
    }
  }

  lemma StoreHalfMirrors(words: WordMem, mem: ByteMem, a: Word, v: Word)
    requires Mirrors(words, mem) && a & 1 == 0
    ensures Mirrors(SetWord(words, a, Swap(StoreHalf(a, Swap(words(Align(a))), v))), StoreValue(mem, a, Half, v))
  {
    hide Swap, BusByte, Align, Lane, StoreHalf, ByteOf;
    var words' := SetWord(words, a, Swap(StoreHalf(a, Swap(words(Align(a))), v)));
    WithinHalf(a);
    forall x: Word
      ensures StoreValue(mem, a, Half, v)(x) == ByteAt(words', x)
    {
      assert mem(x) == ByteAt(words, x);
      SameAddress(a, x);
      AlignAlign(x);
      SameAddress(a + 1, x);
      MergeHalf(a, words(Align(a)), v, Lane(x));
    }
  }

  lemma StoreWordMirrors(words: WordMem, mem: ByteMem, a: Word, v: Word)
    requires Mirrors(words, mem) && a & 3 == 0
    ensures Mirrors(SetWord(words, a, Swap(v)), StoreValue(mem, a, Full, v))
  {
    hide Swap, BusByte, Align, Lane, ByteOf;
    var words' := SetWord(words, a, Swap(v));
    WithinWord(a);
    forall x: Word
      ensures StoreValue(mem, a, Full, v)(x) == ByteAt(words', x)
    {
      assert mem(x) == ByteAt(words, x);
      SameAddress(a, x);
      AlignAlign(x);
      SameAddress(a + 1, x);
      SameAddress(a + 2, x);
      SameAddress(a + 3, x);
      ScatterWord(v, Lane(x));
    }
  }
}
