/** The HDMI packet assembler: five blocks sent side by side, each followed by its own check bits. */
module Packets {
  import opened Lfsr

  /** A packet: the header, and four subpackets sent two bits a clock. */
  datatype Packet = Packet(header: Bits, sub: seq<Bits>)

  ghost predicate Formed(p: Packet) { |p.header| == 24 && |p.sub| == 4 && forall i :: 0 <= i < 4 ==> |p.sub[i]| == 56 }

  /** `parity` has one register for each subpacket and a fifth for the header. */
  datatype Assembler = Assembler(counter: nat, parity: seq<Reg>)

  predicate Sized(s: Assembler) { s.counter < 32 && |s.parity| == 5 }

  const NoParity: seq<Reg> := [0, 0, 0, 0, 0]

  /** One bit into a check register. */
  function NextEcc(ecc: Reg, bit: bool): Reg { Add(Down(ecc), if LowBit(ecc) != bit then 0x83 else 0) }

  lemma NextEccIsStep(ecc: Reg, bit: bool)
    ensures NextEcc(ecc, bit) == Step(ECC8, ecc, bit)
  {
    hide Step, Shift, LowBit, Down, Add, AsBit, NextEcc;
    NextEccIs(ecc, bit);
    StepIs(ECC8, ecc, bit);
    ShiftIs(ECC8, Add(ecc, AsBit(bit)));
    LowBitLinear(ecc, AsBit(bit));
    HalfLinear(ecc, AsBit(bit));
    BitHalf(bit);
    BitLow(bit);
    AddNothing(Down(ecc));
  }

  lemma NextEccIs(ecc: Reg, bit: bool)
    ensures NextEcc(ecc, bit) == if LowBit(ecc) != bit then Add(Down(ecc), 0x83) else Down(ecc)
  {
    hide Add, Down, LowBit;
    AddNothing(Down(ecc));
  }

  /** The check registers once the bits of clock n are in: two for each subpacket, one for the header. */
  function Taken(q: seq<Reg>, n: nat, p: Packet): (r: seq<Reg>)
    requires |q| == 5 && n < 28 && Formed(p)
    ensures |r| == 5
  {
    seq(5, i requires 0 <= i < 5 =>
      if i == 4 then if n < 24 then NextEcc(q[4], p.header[n]) else q[4]
      else NextEcc(NextEcc(q[i], p.sub[i][2 * n]), p.sub[i][2 * n + 1]))
  }

  /** The registers after a clock. */
  function AssemblerStep(s: Assembler, island: bool, p: Packet): (t: Assembler)
    requires Sized(s) && Formed(p)
    ensures Sized(t)
  {
    if !island then s.(parity := NoParity)
    else
      var n := s.counter;
      Assembler((n + 1) % 32, if n < 28 then Taken(s.parity, n, p) else if n == 31 then NoParity else s.parity)
  }

  /** Bit i of a block: its data, then its check bits. */
  function BlockBit(data: Bits, parity: Reg, i: nat): bool
    requires i < |data| + 8
  {
    (data + BitsOf(parity, 8))[i]
  }

  /** What goes out in a clock: a header bit and two bits of each subpacket. */
  function Out(s: Assembler, p: Packet): (r: Bits)
    requires Sized(s) && Formed(p)
    ensures |r| == 9
  {
    [BlockBit(p.header, s.parity[4], s.counter)]
    + seq(4, i requires 0 <= i < 4 => BlockBit(p.sub[i], s.parity[i], 2 * s.counter))
    + seq(4, i requires 0 <= i < 4 => BlockBit(p.sub[i], s.parity[i], 2 * s.counter + 1))
  }

  class PacketAssembler {
    var counter: nat
    const parity: array<Reg>

    ghost predicate Valid()
      reads this, parity
    {
      counter < 32 && parity.Length == 5
    }

    ghost function State(): Assembler
      reads this, parity
    {
      Assembler(counter, parity[..])
    }

    constructor ()
      ensures Valid() && fresh(parity) && State() == Assembler(0, NoParity)
    {
      counter, parity := 0, new Reg[5](_ => 0);
      new;
      assert parity[..] == NoParity;
    }

    method Tick(island: bool, p: Packet)
      requires Valid() && Formed(p)
      modifies this, parity
      ensures Valid() && State() == AssemblerStep(old(State()), island, p)
    {
      hide Taken;
      if !island {
        Clear();
      } else {
        if counter < 28 { TakeBits(counter, p); } else if counter == 31 { Clear(); }
        counter := (counter + 1) % 32;
      }
    }

    method TakeBits(n: nat, p: Packet)
      requires parity.Length == 5 && n < 28 && Formed(p)
      modifies parity
      ensures parity[..] == Taken(old(parity[..]), n, p)
    {
      hide NextEcc;
      var i := 0;
      while i < 4
        invariant 0 <= i <= 4
        invariant forall j :: 0 <= j < i ==>
                  parity[j] == NextEcc(NextEcc(old(parity[j]), p.sub[j][2 * n]), p.sub[j][2 * n + 1])
        invariant forall j :: i <= j < 5 ==> parity[j] == old(parity[j])
      {
        parity[i] := NextEcc(NextEcc(parity[i], p.sub[i][2 * n]), p.sub[i][2 * n + 1]);
        i := i + 1;
      }
      if n < 24 { parity[4] := NextEcc(parity[4], p.header[n]); }
    }

    method Clear()
      requires parity.Length == 5
      modifies parity
      ensures parity[..] == NoParity
    {
      forall i | 0 <= i < 5 { parity[i] := 0; }
    }
  }

  // ---------------------------------------------------------------- one packet

  /** The assembler after n clocks of a packet. */
  function Sending(p: Packet, n: nat): (s: Assembler)
    requires Formed(p)
    ensures Sized(s)
  {
    if n == 0 then Assembler(0, NoParity) else AssemblerStep(Sending(p, n - 1), true, p)
  }

  function Ecc(data: Bits): Reg { Check(ECC8, 0, data) }

  lemma TwoMore(data: Bits, n: nat)
    requires 2 * n + 2 <= |data|
    ensures Ecc(data[..2 * n + 2]) == NextEcc(NextEcc(Ecc(data[..2 * n]), data[2 * n]), data[2 * n + 1])
  {
    hide NextEcc, Step;
    OneMore(data, 2 * n);
    OneMore(data, 2 * n + 1);
  }

  lemma OneMore(data: Bits, n: nat)
    requires n < |data|
    ensures Ecc(data[..n + 1]) == NextEcc(Ecc(data[..n]), data[n])
  {
    hide NextEcc, Step;
    assert data[..n + 1] == data[..n] + [data[n]];
    CheckConcat(ECC8, 0, data[..n], [data[n]]);
    CheckOne(ECC8, Ecc(data[..n]), data[n]);
    NextEccIsStep(Ecc(data[..n]), data[n]);
  }

  /** One register from one clock of a packet to the next. */
  lemma StepAt(s: Assembler, p: Packet, i: nat)
    requires Sized(s) && Formed(p) && i < 4
    ensures var t, n := AssemblerStep(s, true, p), s.counter;
            t.counter == (if n == 31 then 0 else n + 1)
            && t.parity[i] == (if n < 28 then NextEcc(NextEcc(s.parity[i], p.sub[i][2 * n]), p.sub[i][2 * n + 1])
                               else if n == 31 then 0 else s.parity[i])
            && t.parity[4] == if n < 24 then NextEcc(s.parity[4], p.header[n]) else if n == 31 then 0 else s.parity[4]
  {
    hide NextEcc;
  }

  lemma {:induction false} CounterWhileSending(p: Packet, n: nat)
    requires Formed(p) && n <= 31
    ensures Sending(p, n).counter == n
  {
    hide NextEcc, AssemblerStep;
    if n > 0 {
      CounterWhileSending(p, n - 1);
      StepAt(Sending(p, n - 1), p, 0);
    }
  }

  lemma {:induction false} SubParity(p: Packet, i: nat, n: nat)
    requires Formed(p) && i < 4 && n <= 31
    ensures Sending(p, n).parity[i] == Ecc(p.sub[i][..if n < 28 then 2 * n else 56])
  {
    hide NextEcc, Ecc, AssemblerStep;
    if n == 0 {
      NoBitsYet(p);
    } else {
      CounterWhileSending(p, n - 1);
      SubParity(p, i, n - 1);
      StepAt(Sending(p, n - 1), p, i);
      if n <= 28 { TwoMore(p.sub[i], n - 1); }
    }
  }

  lemma {:induction false} HeaderParity(p: Packet, n: nat)
    requires Formed(p) && n <= 31
    ensures Sending(p, n).parity[4] == Ecc(p.header[..if n < 24 then n else 24])
  {
    hide NextEcc, Ecc, AssemblerStep;
    if n == 0 {
      NoBitsYet(p);
    } else {
      CounterWhileSending(p, n - 1);
      HeaderParity(p, n - 1);
      StepAt(Sending(p, n - 1), p, 0);
      if n <= 24 { OneMore(p.header, n - 1); }
    }
  }

  /** While a packet goes out each register holds the check of what its block has sent so far. */
  lemma ParityWhileSending(p: Packet, n: nat)
    requires Formed(p) && n <= 31
    ensures var s := Sending(p, n);
            s.counter == n && s.parity[4] == Ecc(p.header[..if n < 24 then n else 24])
            && forall i :: 0 <= i < 4 ==> s.parity[i] == Ecc(p.sub[i][..if n < 28 then 2 * n else 56])
  {
    hide Ecc, Sending;
    CounterWhileSending(p, n);
    HeaderParity(p, n);
    forall i | 0 <= i < 4
      ensures Sending(p, n).parity[i] == Ecc(p.sub[i][..if n < 28 then 2 * n else 56])
    {
      SubParity(p, i, n);
    }
  }

  lemma NoBitsYet(p: Packet)
    requires Formed(p)
    ensures Ecc(p.header[..0]) == 0 && forall i :: 0 <= i < 4 ==> Ecc(p.sub[i][..0]) == 0
  {
  }

  /** The bits of subpacket i that n clocks send, and of the header. */
  function SubSent(p: Packet, i: nat, n: nat): Bits
    requires Formed(p) && i < 4
  {
    if n == 0 then []
    else var out := Out(Sending(p, n - 1), p); SubSent(p, i, n - 1) + [out[1 + i], out[5 + i]]
  }

  function HeaderSent(p: Packet, n: nat): Bits
    requires Formed(p)
  {
    if n == 0 then [] else HeaderSent(p, n - 1) + [Out(Sending(p, n - 1), p)[0]]
  }

  /** A block as it should go out. */
  function Block(data: Bits): (r: Bits)
    ensures |r| == |data| + 8
  {
    data + BitsOf(Ecc(data), 8)
  }

  /** Data bits do not depend on the register, and by the time check bits are due the register is complete. */
  lemma BlockBitIs(data: Bits, parity: Reg, i: nat)
    requires i < |data| + 8 && (i < |data| || parity == Ecc(data))
    ensures BlockBit(data, parity, i) == Block(data)[i]
  {
    hide Ecc;
  }

  lemma OutAt(s: Assembler, p: Packet, i: nat)
    requires Sized(s) && Formed(p) && i < 4
    ensures var out := Out(s, p);
            out[0] == BlockBit(p.header, s.parity[4], s.counter)
            && out[1 + i] == BlockBit(p.sub[i], s.parity[i], 2 * s.counter)
            && out[5 + i] == BlockBit(p.sub[i], s.parity[i], 2 * s.counter + 1)
  {
    hide BlockBit;
  }

  lemma {:induction false} SubSentIs(p: Packet, i: nat, n: nat)
    requires Formed(p) && i < 4 && n <= 32
    ensures SubSent(p, i, n) == Block(p.sub[i])[..2 * n]
  {
    hide Ecc, BlockBit, Block, Sending, Out;
    if n > 0 {
      OutAt(Sending(p, n - 1), p, i);
      SubSentIs(p, i, n - 1);
      ParityWhileSending(p, n - 1);
      var s := Sending(p, n - 1);
      assert p.sub[i][..56] == p.sub[i];
      BlockBitIs(p.sub[i], s.parity[i], 2 * n - 2);
      BlockBitIs(p.sub[i], s.parity[i], 2 * n - 1);
    }
  }

  lemma {:induction false} HeaderSentIs(p: Packet, n: nat)
    requires Formed(p) && n <= 32
    ensures HeaderSent(p, n) == Block(p.header)[..n]
  {
    hide Ecc, BlockBit, Block, Sending, Out;
    if n > 0 {
      OutAt(Sending(p, n - 1), p, 0);
      HeaderSentIs(p, n - 1);
      ParityWhileSending(p, n - 1);
      assert p.header[..24] == p.header;
      BlockBitIs(p.header, Sending(p, n - 1).parity[4], n - 1);
    }
  }

  lemma EccResidue(data: Bits)
    ensures Ecc(Block(data)) == 0
  {
    ResidueIsZero(ECC8, 0, data);
  }

  lemma PacketDone(p: Packet)
    requires Formed(p)
    ensures Sending(p, 32) == Assembler(0, NoParity)
  {
    CounterWhileSending(p, 31);
  }

  /** Main result: 32 clocks send every block complete with its check bits, so that each leaves a receiver's
      register at zero, and leave the assembler ready for the next packet. */
  lemma PacketSent(p: Packet, i: nat)
    requires Formed(p) && i < 4
    ensures SubSent(p, i, 32) == Block(p.sub[i]) && HeaderSent(p, 32) == Block(p.header)
    ensures Ecc(SubSent(p, i, 32)) == 0 && Ecc(HeaderSent(p, 32)) == 0
    ensures Sending(p, 32) == Assembler(0, NoParity)
  {
    hide Ecc, Block, Out, Sending, SubSent, HeaderSent;
    SubSentIs(p, i, 32);
    HeaderSentIs(p, 32);
    assert Block(p.sub[i])[..64] == Block(p.sub[i]) && Block(p.header)[..32] == Block(p.header);
    EccResidue(p.sub[i]);
    EccResidue(p.header);
    PacketDone(p);
  }
}
