/** Two independent TMDS encoders: balance, transitions, decoding, and that they are the same encoder. */
module Tmds {
  /** Bits, lowest first. A byte has 8, a code word 10. */
  type Bits = seq<bool>

  function Int(b: bool): int { if b then 1 else 0 }

  function Ones(b: Bits): (n: nat)
    ensures n <= |b|
  {
    if b == [] then 0 else Int(b[0]) + Ones(b[1..])
  }

  /** Ones minus zeros. */
  function Disparity(b: Bits): int { 2 * Ones(b) - |b| }

  function Transitions(b: Bits): nat {
    if |b| < 2 then 0 else (if b[0] != b[1] then 1 else 0) + Transitions(b[1..])
  }

  function Not(b: Bits): (r: Bits)
    ensures |r| == |b|
  {
    seq(|b|, i requires 0 <= i < |b| => !b[i])
  }

  type Byte = b: Bits | |b| == 8 witness seq(8, _ => false)

  // ---------------------------------------------------------------- transition minimising

  /** Each bit combined with the one before it in the result; `last` precedes b. */
  function Chain(last: bool, b: Bits, xnor: bool): (r: Bits)
    ensures |r| == |b|
    decreases |b|
  {
    if b == [] then [] else
      var q := (last != b[0]) != xnor;
      [q] + Chain(q, b[1..], xnor)
  }

  function Minimised(d: Byte, xnor: bool): (q: Byte) { [d[0]] + Chain(d[0], d[1..], xnor) }

  predicate UseXnor(d: Byte) { Ones(d) > 4 || (Ones(d) == 4 && !d[0]) }

  /** The lower eight bits of q_m; bit 8 is the negation of UseXnor. */
  function Qm(d: Byte): Byte { Minimised(d, UseXnor(d)) }

  // ---------------------------------------------------------------- the channel encoder

  /** A signed register of five bits. */
  function Signed5(x: int): (r: int)
    ensures -16 <= r < 16
    ensures -16 <= x < 16 ==> r == x
  {
    (x + 16) % 32 - 16
  }

  datatype Coded = Coded(word: Bits, add: int)

  /** The video code word and what it adds to the accumulator. */
  function VideoCoding(acc: int, d: Byte): (c: Coded)
    ensures |c.word| == 10
  {
    var q, q8 := Qm(d), !UseXnor(d);
    var n1 := Ones(q);
    var n0 := 8 - n1;
    if acc == 0 || n1 == n0 then
      if q8 then Coded(q + [q8, !q8], n1 - n0) else Coded(Not(q) + [q8, !q8], n0 - n1)
    else if (acc > 0 && n1 > n0) || (acc < 0 && n1 < n0) then
      Coded(Not(q) + [q8, true], n0 - n1 + if q8 then 2 else 0)
    else
      Coded(q + [q8, false], n1 - n0 - if !q8 then 2 else 0)
  }

  /** The bits of a code word written highest first, as the tables list them. */
  function Word(s: string): (r: Bits)
    ensures |r| == |s|
  {
    if s == "" then [] else Word(s[1..]) + [s[0] == '1']
  }

  /** Control symbols: the two control bits, c1 and c0. */
  function ControlCoding(c1: bool, c0: bool): (r: Bits)
    ensures |r| == 10
  {
    if c1 then Word(if c0 then "1010101011" else "0101010100")
    else Word(if c0 then "0010101011" else "1101010100")
  }

  const TERC4: seq<string> := [
    "1010011100", "1001100011", "1011100100", "1011100010", "0101110001", "0100011110", "0110001110", "0100111100",
    "1011001100", "0100111001", "0110011100", "1011000110", "1010001110", "1001110001", "0101100011", "1011000011"]

  function IslandWord(island: nat): (r: Bits)
    requires island < 16
    ensures |r| == 10
  {
    Word(TERC4[island])
  }

  function VideoGuard(channel: nat): (r: Bits)
    ensures |r| == 10
  {
    Word(if channel == 0 || channel == 2 then "1011001100" else "0100110011")
  }

  function DataGuard(channel: nat, c1: bool, c0: bool): (r: Bits)
    ensures |r| == 10
  {
    if channel == 1 || channel == 2 then Word("0100110011")
    else if c1 then Word(if c0 then "1011000011" else "0101100011")
    else Word(if c0 then "1001110001" else "1010001110")
  }

  class TmdsChannel {
    const channel: nat
    var acc: int
    var tmds: Bits

    constructor (channel: nat)
      ensures this.channel == channel && acc == 0 && tmds == Word("1101010100")
    {
      this.channel, acc, tmds := channel, 0, Word("1101010100");
    }

    /** One pixel clock: mode 0 control, 1 video, 2 video guard, 3 data island, 4 data guard. */
    method Tick(d: Byte, island: nat, c1: bool, c0: bool, mode: nat)
      requires island < 16 && mode < 8
      modifies this
      ensures acc == if mode != 1 then 0 else Signed5(old(acc) + VideoCoding(old(acc), d).add)
      ensures mode == 0 ==> tmds == ControlCoding(c1, c0)
      ensures mode == 1 ==> tmds == VideoCoding(old(acc), d).word
      ensures mode == 2 ==> tmds == VideoGuard(channel)
      ensures mode == 3 ==> tmds == IslandWord(island)
      ensures mode == 4 ==> tmds == DataGuard(channel, c1, c0)
      ensures mode > 4 ==> tmds == old(tmds)
    {
      var coded := VideoCoding(acc, d);
      match mode {
        case 0 => tmds := ControlCoding(c1, c0);
        case 1 => tmds := coded.word;
        case 2 => tmds := VideoGuard(channel);
        case 3 => tmds := IslandWord(island);
        case 4 => tmds := DataGuard(channel, c1, c0);
        case _ =>
      }
      acc := if mode != 1 then 0 else Signed5(acc + coded.add);
    }
  }

  // ---------------------------------------------------------------- the second encoder

  /** Four-bit arithmetic. */
  function Mod16(x: int): (r: nat)
    ensures r < 16
  {
    x % 16
  }

  function Bit3(x: nat): bool { x >= 8 }

  datatype Balanced = Balanced(word: Bits, acc: nat)

  function EncodeBalanced(acc: nat, d: Byte): (r: Balanced)
    requires acc < 16
    ensures r.acc < 16 && |r.word| == 10
  {
    var q, q8 := Qm(d), !UseXnor(d);
    var balance := Mod16(Ones(q) - 4);
    var signEq, even := Bit3(balance) == Bit3(acc), balance == 0 || acc == 0;
    var invert := if even then !q8 else signEq;
    var inc := Mod16(balance - if (q8 != !signEq) && !even then 1 else 0);
    Balanced((if invert then Not(q) else q) + [q8, invert], if invert then Mod16(acc - inc) else Mod16(acc + inc))
  }

  class TmdsEncoder {
    var balanceAcc: nat
    var tmds: Bits

    constructor ()
      ensures balanceAcc == 0 && tmds == seq(10, _ => false)
    {
      balanceAcc, tmds := 0, seq(10, _ => false);
    }

    method Tick(d: Byte, c1: bool, c0: bool, vde: bool)
      requires balanceAcc < 16
      modifies this
      ensures balanceAcc == (if vde then EncodeBalanced(old(balanceAcc), d).acc else 0) && balanceAcc < 16
      ensures tmds == if vde then EncodeBalanced(old(balanceAcc), d).word else ControlCoding(c1, c0)
    {
      var coded := EncodeBalanced(balanceAcc, d);
      tmds := if vde then coded.word else ControlCoding(c1, c0);
      balanceAcc := if vde then coded.acc else 0;
    }
  }

  // ---------------------------------------------------------------- counting

  lemma {:induction false} OnesConcat(a: Bits, b: Bits)
    ensures Ones(a + b) == Ones(a) + Ones(b)
  {
    if a == [] {
      assert a + b == b;
    } else {
      assert (a + b)[1..] == a[1..] + b;
      OnesConcat(a[1..], b);
    }
  }

  lemma {:induction false} OnesNot(a: Bits)
    ensures Ones(Not(a)) == |a| - Ones(a)
  {
    if a != [] {
      assert Not(a)[1..] == Not(a[1..]);
      OnesNot(a[1..]);
    }
  }

  /** What a code word adds to the accumulator is its disparity. */
  lemma AddIsDisparity(acc: int, d: Byte)
    ensures VideoCoding(acc, d).add == Disparity(VideoCoding(acc, d).word)
  {
    hide Qm, UseXnor, Not;
    var q, q8 := Qm(d), !UseXnor(d);
    OnesNot(q);
    forall a, b
      ensures Ones([a, b]) == Int(a) + Int(b)
    {
      assert [a, b][1..] == [b] && [b][1..] == [];
    }
    forall x: Byte, a, b
      ensures Ones(x + [a, b]) == Ones(x) + Int(a) + Int(b)
    {
      OnesConcat(x, [a, b]);
    }
  }

  /** Even, and never further out than eight. */
  predicate Bounded(acc: int) { acc % 2 == 0 && -8 <= acc <= 8 }

  /** What a video word adds, by the number of ones in the minimised byte and its ninth bit. */
  function Added(acc: int, n1: nat, q8: bool): int {
    if acc == 0 || n1 == 4 then (if q8 then 2 * n1 - 8 else 8 - 2 * n1)
    else if (acc > 0 && n1 > 4) || (acc < 0 && n1 < 4) then 8 - 2 * n1 + if q8 then 2 else 0
    else 2 * n1 - 8 - if !q8 then 2 else 0
  }

  lemma VideoAdds(acc: int, d: Byte)
    ensures VideoCoding(acc, d).add == Added(acc, Ones(Qm(d)), !UseXnor(d))
  {
    hide Qm, UseXnor, Not, Ones;
  }

  lemma AddedBounded(acc: int, n1: nat, q8: bool)
    requires Bounded(acc) && n1 <= 8
    ensures Bounded(acc + Added(acc, n1, q8))
  {
  }

  lemma StepBounded(acc: int, d: Byte)
    requires Bounded(acc)
    ensures var next := acc + VideoCoding(acc, d).add; Bounded(next) && Signed5(next) == next
  {
    hide Qm, UseXnor, Ones, VideoCoding, Added;
    VideoAdds(acc, d);
    AddedBounded(acc, Ones(Qm(d)), !UseXnor(d));
  }

  // ---------------------------------------------------------------- the encoders agree

  /** One accumulator is twice the other read as a signed number of four bits. */
  predicate Twice(acc: int, balanceAcc: nat) {
    balanceAcc < 16 && acc == 2 * if balanceAcc < 8 then balanceAcc else balanceAcc - 16
  }

  lemma Mod16Cases(x: int)
    ensures -16 <= x < 0 ==> Mod16(x) == x + 16
    ensures 0 <= x < 16 ==> Mod16(x) == x
    ensures 16 <= x < 32 ==> Mod16(x) == x - 16
  {
  }

  /** The four-bit registers read as the signs the first encoder tests. */
  lemma SignsAgree(acc: int, balanceAcc: nat, n: nat)
    requires Bounded(acc) && Twice(acc, balanceAcc) && n <= 8
    ensures var balance := Mod16(n - 4);
            (balance == 0 <==> n == 4) && (Bit3(balance) <==> n < 4) && (balanceAcc == 0 <==> acc == 0)
            && (Bit3(balanceAcc) <==> acc < 0)
  {
    hide Mod16;
    Mod16Cases(n - 4);
  }

  lemma WordsAgree(acc: int, balanceAcc: nat, d: Byte)
    requires Bounded(acc) && Twice(acc, balanceAcc)
    ensures VideoCoding(acc, d).word == EncodeBalanced(balanceAcc, d).word
  {
    hide Qm, UseXnor, Not, Ones, Mod16, Bit3, Twice, Bounded;
    SignsAgree(acc, balanceAcc, Ones(Qm(d)));
  }

  /** Adding or taking off half of an even step in four bits. */
  lemma HalfStep(acc: int, balanceAcc: nat, inc: int, add: int)
    requires Bounded(acc) && Twice(acc, balanceAcc) && Bounded(acc + add)
    requires -5 <= inc <= 5
    ensures add == 2 * inc ==> Twice(acc + add, Mod16(balanceAcc + Mod16(inc)))
    ensures add == -2 * inc ==> Twice(acc + add, Mod16(balanceAcc - Mod16(inc)))
  {
    hide Mod16;
    Mod16Cases(inc);
    Mod16Cases(balanceAcc + Mod16(inc));
    Mod16Cases(balanceAcc - Mod16(inc));
  }

  lemma IncAgrees(n: nat, q8: bool, even: bool, signEq: bool)
    requires n <= 8
    ensures var down := if (q8 != !signEq) && !even then 1 else 0;
            Mod16(Mod16(n - 4) - down) == Mod16(n - 4 - down) && -5 <= n - 4 - down <= 4
  {
  }

  lemma AccsAgree(acc: int, balanceAcc: nat, d: Byte)
    requires Bounded(acc) && Twice(acc, balanceAcc) && Bounded(acc + VideoCoding(acc, d).add)
    ensures Twice(acc + VideoCoding(acc, d).add, EncodeBalanced(balanceAcc, d).acc)
  {
    hide Qm, UseXnor, Not, Ones, Mod16, Bit3, Twice, Bounded;
    var n: int, q8 := Ones(Qm(d)), !UseXnor(d);
    SignsAgree(acc, balanceAcc, n);
    var balance := Mod16(n - 4);
    var signEq, even := Bit3(balance) == Bit3(balanceAcc), balance == 0 || balanceAcc == 0;
    var down := if (q8 != !signEq) && !even then 1 else 0;
    IncAgrees(n, q8, even, signEq);
    HalfStep(acc, balanceAcc, n - 4 - down, VideoCoding(acc, d).add);
  }

  lemma StepAgrees(acc: int, balanceAcc: nat, d: Byte)
    requires Bounded(acc) && Twice(acc, balanceAcc)
    ensures VideoCoding(acc, d).word == EncodeBalanced(balanceAcc, d).word
    ensures Twice(acc + VideoCoding(acc, d).add, EncodeBalanced(balanceAcc, d).acc)
  {
    hide VideoCoding, EncodeBalanced;
    StepBounded(acc, d);
    WordsAgree(acc, balanceAcc, d);
    AccsAgree(acc, balanceAcc, d);
  }

  // ---------------------------------------------------------------- decoding and transitions

  /** Undoing the chain: each bit with the one before it. */
  function Unchain(last: bool, q: Bits, xnor: bool): (r: Bits)
    ensures |r| == |q|
    decreases |q|
  {
    if q == [] then [] else [(last != q[0]) != xnor] + Unchain(q[0], q[1..], xnor)
  }

  /** A receiver: bit 9 says whether the byte was inverted, bit 8 how it was chained. */
  function DecodeVideo(w: Bits): (d: Byte)
    requires |w| == 10
  {
    var q := if w[9] then Not(w[..8]) else w[..8];
    [q[0]] + Unchain(q[0], q[1..], !w[8])
  }

  lemma {:induction false} UnchainChain(last: bool, b: Bits, xnor: bool)
    ensures Unchain(last, Chain(last, b, xnor), xnor) == b
    decreases |b|
  {
    if b != [] { UnchainChain((last != b[0]) != xnor, b[1..], xnor); }
  }

  /** Whatever the accumulator, a video word decodes to the byte it encodes. */
  lemma VideoRoundTrip(acc: int, d: Byte)
    ensures DecodeVideo(VideoCoding(acc, d).word) == d
  {
    var q, x := Qm(d), UseXnor(d);
    var w := VideoCoding(acc, d).word;
    UnchainChain(d[0], d[1..], x);
    assert Not(Not(q)) == q;
    assert w[8] == !x && w[..8] == if w[9] then Not(q) else q;
    assert q[0] == d[0] && q[1..] == Chain(d[0], d[1..], x);
    assert d == [d[0]] + d[1..];
  }

  /** The chain changes level at every one, or with xnor at every zero. */
  lemma {:induction false} ChainTransitions(last: bool, b: Bits, xnor: bool)
    ensures Transitions([last] + Chain(last, b, xnor)) == if xnor then |b| - Ones(b) else Ones(b)
    decreases |b|
  {
    if b != [] {
      var q := (last != b[0]) != xnor;
      ChainTransitions(q, b[1..], xnor);
      var r := [last] + Chain(last, b, xnor);
      assert r[1..] == [q] + Chain(q, b[1..], xnor);
    }
  }

  lemma QmTransitions(d: Byte)
    ensures Transitions(Qm(d)) <= 3
  {
    ChainTransitions(d[0], d[1..], UseXnor(d));
    assert Ones(d) == Int(d[0]) + Ones(d[1..]);
  }

  lemma {:induction false} TransitionsNot(b: Bits)
    ensures Transitions(Not(b)) == Transitions(b)
  {
    if |b| >= 2 {
      assert Not(b)[1..] == Not(b[1..]);
      TransitionsNot(b[1..]);
    }
  }

  lemma {:induction false} TransitionsTwoMore(b: Bits, x: bool, y: bool)
    requires b != []
    ensures Transitions(b + [x, y]) <= Transitions(b) + 2
  {
    if |b| == 1 {
      assert (b + [x, y])[1..] == [x, y] && [x, y][1..] == [y] && Transitions([x, y]) <= 1;
    } else {
      assert (b + [x, y])[1..] == b[1..] + [x, y];
      TransitionsTwoMore(b[1..], x, y);
    }
  }

  /** A video word has at most five transitions. */
  lemma VideoTransitions(acc: int, d: Byte)
    ensures Transitions(VideoCoding(acc, d).word) <= 5
  {
    hide Qm, UseXnor, Not, Transitions;
    var q, w := Qm(d), VideoCoding(acc, d).word;
    QmTransitions(d);
    TransitionsNot(q);
    TransitionsTwoMore(q, w[8], w[9]);
    TransitionsTwoMore(Not(q), w[8], w[9]);
  }

  // ---------------------------------------------------------------- control symbols

  lemma {:induction false} WordIs(s: string)
    ensures forall i :: 0 <= i < |s| ==> Word(s)[i] == (s[|s| - 1 - i] == '1')
    decreases |s|
  {
    if s != "" { WordIs(s[1..]); }
  }

  lemma TransitionsOfTen(b: Bits)
    requires |b| == 10
    ensures Transitions(b) == Int(b[0] != b[1]) + Int(b[1] != b[2]) + Int(b[2] != b[3]) + Int(b[3] != b[4])
                              + Int(b[4] != b[5]) + Int(b[5] != b[6]) + Int(b[6] != b[7])
                              + Int(b[7] != b[8]) + Int(b[8] != b[9])
  {
    hide Transitions, Int;
    assert b == b[0..];
    PeelThree(b, 0);
    PeelThree(b, 3);
    PeelThree(b, 6);
    NoTransition(b[9..]);
  }

  lemma NoTransition(b: Bits)
    requires |b| == 1
    ensures Transitions(b) == 0
  {
  }

  /** Peeling bits off the front of what follows bit k. */
  lemma PeelThree(b: Bits, k: nat)
    requires k + 3 < |b|
    ensures Transitions(b[k..])
         == Int(b[k] != b[k + 1]) + Int(b[k + 1] != b[k + 2]) + Int(b[k + 2] != b[k + 3]) + Transitions(b[k + 3..])
  {
    hide Transitions, Int;
    PeelOne(b, k);
    PeelOne(b, k + 1);
    PeelOne(b, k + 2);
  }

  lemma PeelOne(b: Bits, k: nat)
    requires k + 1 < |b|
    ensures Transitions(b[k..]) == Int(b[k] != b[k + 1]) + Transitions(b[k + 1..])
  {
    assert b[k..][1..] == b[k + 1..];
  }

  /** A control word has at least seven transitions. */
  lemma ControlTransitions(c1: bool, c0: bool)
    ensures Transitions(ControlCoding(c1, c0)) >= 7
  {
    WordIs("1101010100");
    WordIs("0010101011");
    WordIs("0101010100");
    WordIs("1010101011");
    TransitionsOfTen(ControlCoding(c1, c0));
  }

  // ---------------------------------------------------------------- streams

  datatype Symbol = Video(data: Byte) | Control(c1: bool, c0: bool)

  /** The accumulator of the channel encoder after a stream, its register wrapping as the hardware does. */
  function Acc(ss: seq<Symbol>): int {
    if ss == [] then 0
    else match ss[|ss| - 1]
      case Control(_, _) => 0
      case Video(d) => var a := Acc(ss[..|ss| - 1]); Signed5(a + VideoCoding(a, d).add)
  }

  function BalanceAcc(ss: seq<Symbol>): (r: nat)
    ensures r < 16
  {
    if ss == [] then 0
    else match ss[|ss| - 1]
      case Control(_, _) => 0
      case Video(d) => EncodeBalanced(BalanceAcc(ss[..|ss| - 1]), d).acc
  }

  function Encoded(acc: int, x: Symbol): (r: Bits)
    ensures |r| == 10
  {
    match x case Control(c1, c0) => ControlCoding(c1, c0) case Video(d) => VideoCoding(acc, d).word
  }

  /** The words the channel encoder sends. */
  function Sent(ss: seq<Symbol>): (r: seq<Bits>)
    ensures |r| == |ss| && forall i :: 0 <= i < |r| ==> |r[i]| == 10
  {
    if ss == [] then [] else Sent(ss[..|ss| - 1]) + [Encoded(Acc(ss[..|ss| - 1]), ss[|ss| - 1])]
  }

  function EncodedBalanced(acc: nat, x: Symbol): (r: Bits)
    requires acc < 16
  {
    match x case Control(c1, c0) => ControlCoding(c1, c0) case Video(d) => EncodeBalanced(acc, d).word
  }

  function SentBalanced(ss: seq<Symbol>): (r: seq<Bits>)
    ensures |r| == |ss|
  {
    if ss == [] then []
    else SentBalanced(ss[..|ss| - 1]) + [EncodedBalanced(BalanceAcc(ss[..|ss| - 1]), ss[|ss| - 1])]
  }

  /** Ones minus zeros of the video words at the end of a stream, back to the last control symbol. */
  function Running(ss: seq<Symbol>): int {
    if ss == [] || ss[|ss| - 1].Control? then 0
    else Running(ss[..|ss| - 1]) + Disparity(Sent(ss)[|ss| - 1])
  }

  /** Main result: the accumulator is the running disparity of what was sent; it is even, never leaves -8 to 8,
      and so never wraps. */
  lemma {:induction false} AccIsRunningDisparity(ss: seq<Symbol>)
    ensures Acc(ss) == Running(ss) && Bounded(Acc(ss))
  {
    hide VideoCoding, Signed5, Disparity;
    if ss != [] {
      var before := ss[..|ss| - 1];
      AccIsRunningDisparity(before);
      match ss[|ss| - 1]
      case Control(_, _) =>
      case Video(d) =>
        StepBounded(Acc(before), d);
        AddIsDisparity(Acc(before), d);
    }
  }

  /** Main result: the two encoders send the same words, whatever the stream. */
  lemma {:induction false} EncodersAgree(ss: seq<Symbol>)
    ensures Sent(ss) == SentBalanced(ss) && Twice(Acc(ss), BalanceAcc(ss))
  {
    hide VideoCoding, EncodeBalanced, Signed5;
    if ss != [] {
      var before := ss[..|ss| - 1];
      EncodersAgree(before);
      AccIsRunningDisparity(before);
      match ss[|ss| - 1]
      case Control(_, _) =>
      case Video(d) =>
        StepBounded(Acc(before), d);
        StepAgrees(Acc(before), BalanceAcc(before), d);
    }
  }

  /** A receiver tells control from video by counting transitions. */
  function Decode(w: Bits): Symbol
    requires |w| == 10
  {
    if Transitions(w) <= 6 then Video(DecodeVideo(w))
    else if w == Word("1101010100") then Control(false, false)
    else if w == Word("0010101011") then Control(false, true)
    else if w == Word("0101010100") then Control(true, false)
    else Control(true, true)
  }

  function DecodeAll(ws: seq<Bits>): seq<Symbol>
    requires forall i :: 0 <= i < |ws| ==> |ws[i]| == 10
  {
    if ws == [] then [] else DecodeAll(ws[..|ws| - 1]) + [Decode(ws[|ws| - 1])]
  }

  lemma TopBits(s: string)
    requires |s| == 10
    ensures Word(s)[9] == (s[0] == '1') && Word(s)[8] == (s[1] == '1')
  {
    WordIs(s);
  }

  lemma ControlRoundTrip(c1: bool, c0: bool)
    ensures Decode(ControlCoding(c1, c0)) == Control(c1, c0)
  {
    hide Transitions, Word;
    ControlTransitions(c1, c0);
    TopBits("1101010100");
    TopBits("0010101011");
    TopBits("0101010100");
    TopBits("1010101011");
  }

  /** Every symbol is recovered from its word, whatever the accumulator. */
  lemma SymbolRoundTrip(acc: int, x: Symbol)
    ensures Decode(Encoded(acc, x)) == x
  {
    hide VideoCoding, Transitions, ControlCoding, DecodeVideo, Word;
    match x
    case Control(c1, c0) => ControlRoundTrip(c1, c0);
    case Video(d) =>
      VideoTransitions(acc, d);
      VideoRoundTrip(acc, d);
  }

  /** Main result: every stream of bytes and control symbols is recovered from the words sent for it. */
  lemma {:induction false} StreamRoundTrip(ss: seq<Symbol>)
    ensures DecodeAll(Sent(ss)) == ss
  {
    hide Encoded, Decode, Acc;
    if ss != [] {
      var before := ss[..|ss| - 1];
      StreamRoundTrip(before);
      SymbolRoundTrip(Acc(before), ss[|ss| - 1]);
      assert Sent(ss)[..|ss| - 1] == Sent(before);
    }
  }
}
