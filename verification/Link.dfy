/** The three TMDS channels together: periods of a line, their words, and a receiver that gets all of it back. */
module Link {
  import W = Words
  import opened Tmds

  datatype Three<+T> = Three(ch0: T, ch1: T, ch2: T)

  type Nibble = n: nat | n < 16

  /** The two control bits of a channel. */
  datatype Ctl = Ctl(c1: bool, c0: bool)

  /** What the channels are given for one pixel, by mode. In a data guard channel 0 still sends its control bits. */
  datatype Pixel =
    | Blank(ctl: Three<Ctl>)
    | Picture(data: Three<Byte>)
    | PictureGuard
    | Island(data4: Three<Nibble>)
    | IslandGuard(sync: Ctl)

  type Code = b: Bits | |b| == 10 witness seq(10, _ => false)

  type Triple = Three<Code>

  /** The words of TmdsChannel.Tick for channels 0, 1 and 2. */
  function Send(a: Three<int>, p: Pixel): Triple {
    match p
    case Blank(c) => Three(ControlWord(c.ch0), ControlWord(c.ch1), ControlWord(c.ch2))
    case Picture(d) => Three(PictureWord(a.ch0, d.ch0), PictureWord(a.ch1, d.ch1), PictureWord(a.ch2, d.ch2))
    case PictureGuard => Three(VideoGuard(0), VideoGuard(1), VideoGuard(2))
    case Island(n) => Three(IslandWord(n.ch0), IslandWord(n.ch1), IslandWord(n.ch2))
    case IslandGuard(s) => GuardWords(s)
  }

  function ControlWord(c: Ctl): Code { ControlCoding(c.c1, c.c0) }
  function PictureWord(acc: int, d: Byte): Code { VideoCoding(acc, d).word }

  function GuardWords(s: Ctl): Triple {
    Three(DataGuard(0, s.c1, s.c0), DataGuard(1, s.c1, s.c0), DataGuard(2, s.c1, s.c0))
  }

  /** The words sent for a stream, the accumulators being whatever they are at each pixel. */
  function SendAll(accs: seq<Three<int>>, ps: seq<Pixel>): (r: seq<Triple>)
    requires |accs| == |ps|
    ensures |r| == |ps|
  {
    seq(|ps|, t requires 0 <= t < |ps| => Send(accs[t], ps[t]))
  }

  // ---------------------------------------------------------------- the receiver

  /** A word as a number. */
  function Value(w: Code): nat { Number(w[9], w[8], w[7], w[6], w[5], w[4], w[3], w[2], w[1], w[0]) }

  function Number(b9: bool, b8: bool, b7: bool, b6: bool, b5: bool, b4: bool, b3: bool, b2: bool, b1: bool, b0: bool)
    : nat
  {
    512 * Int(b9) + 256 * Int(b8) + 128 * Int(b7) + 64 * Int(b6) + 32 * Int(b5)
    + 16 * Int(b4) + 8 * Int(b3) + 4 * Int(b2) + 2 * Int(b1) + Int(b0)
  }

  /** The code words of HDMI 1.4, section 5.4.3, in the order of their values. */
  const ISLAND: seq<nat> := [
    0x29c, 0x263, 0x2e4, 0x2e2, 0x171, 0x11e, 0x18e, 0x13c, 0x2cc, 0x139, 0x19c, 0x2c6, 0x28e, 0x271, 0x163, 0x2c3]

  function NibbleFrom(v: nat, k: Nibble): (n: Nibble)
    ensures (exists j :: k <= j < 16 && ISLAND[j] == v) ==> ISLAND[n] == v
    decreases 16 - k
  {
    if ISLAND[k] == v || k == 15 then k else NibbleFrom(v, k + 1)
  }

  function DecodeIsland(w: Code): Nibble
  {
    NibbleFrom(Value(w), 0)
  }

  function DecodeControl(w: Code): Ctl
  {
    var v := Value(w);
    if v == 0x354 then Ctl(false, false) else if v == 0x0ab then Ctl(false, true)
    else if v == 0x154 then Ctl(true, false) else Ctl(true, true)
  }

  /** Channel 0 sends the control bits of a data guard as an island value of twelve or more. */
  function SyncOf(n: Nibble): Ctl { Ctl(n / 2 % 2 == 1, n % 2 == 1) }

  datatype Phase = Blanking | Leading | Active | InIsland

  /** The receiver watches channel 2: control words by their transitions, then the guard words. */
  function Receive(ph: Phase, w: Triple): (r: (Pixel, Phase)) {
    if Transitions(w.ch2) >= 7 then
      (Blank(Three(DecodeControl(w.ch0), DecodeControl(w.ch1), DecodeControl(w.ch2))), Blanking)
    else
      match ph
      case Blanking =>
        if Value(w.ch2) == 0x2cc then (PictureGuard, Leading)
        else (IslandGuard(SyncOf(DecodeIsland(w.ch0))), InIsland)
      case Leading => (PictureGuard, Active)
      case Active => (Picture(Three(DecodeVideo(w.ch0), DecodeVideo(w.ch1), DecodeVideo(w.ch2))), Active)
      case InIsland =>
        if Value(w.ch2) == 0x133 then (IslandGuard(SyncOf(DecodeIsland(w.ch0))), InIsland)
        else (Island(Three(DecodeIsland(w.ch0), DecodeIsland(w.ch1), DecodeIsland(w.ch2))), InIsland)
  }

  function ReceiveAll(ws: seq<Triple>): (r: (seq<Pixel>, Phase)) {
    if ws == [] then ([], Blanking)
    else
      var before := ReceiveAll(ws[..|ws| - 1]);
      var (p, ph) := Receive(before.1, ws[|ws| - 1]);
      (before.0 + [p], ph)
  }

  // ---------------------------------------------------------------- periods

  /** Which pixel may come in a phase, and the phase after it: two guards lead a picture, guards enclose an island,
      and a blank ends either. */
  predicate Fits(ph: Phase, p: Pixel) {
    match p
    case Blank(_) => true
    case Picture(_) => ph == Active
    case PictureGuard => ph == Blanking || ph == Leading
    case Island(_) => ph == InIsland
    case IslandGuard(_) => ph == Blanking || ph == InIsland
  }

  function PhaseAfter(ph: Phase, p: Pixel): Phase {
    match p
    case Blank(_) => Blanking
    case Picture(_) => Active
    case PictureGuard => if ph == Blanking then Leading else Active
    case _ => InIsland
  }

  function PhaseOf(ps: seq<Pixel>): Phase {
    if ps == [] then Blanking else PhaseAfter(PhaseOf(ps[..|ps| - 1]), ps[|ps| - 1])
  }

  predicate LaidOut(ps: seq<Pixel>) {
    ps == [] || (LaidOut(ps[..|ps| - 1]) && Fits(PhaseOf(ps[..|ps| - 1]), ps[|ps| - 1]))
  }

  // ---------------------------------------------------------------- words as numbers

  lemma Digits(s: string)
    requires |s| == 10
    ensures var w := Word(s);
            w[0] == (s[9] == '1') && w[1] == (s[8] == '1') && w[2] == (s[7] == '1') && w[3] == (s[6] == '1')
            && w[4] == (s[5] == '1') && w[5] == (s[4] == '1') && w[6] == (s[3] == '1') && w[7] == (s[2] == '1')
            && w[8] == (s[1] == '1') && w[9] == (s[0] == '1')
  {
    hide Word;
    WordIs(s);
  }

  /** A literal word's number and its changes, read off its digits. */
  lemma WordAsNumber(s: string)
    requires |s| == 10
    ensures Value(Word(s)) == Number(s[0] == '1', s[1] == '1', s[2] == '1', s[3] == '1', s[4] == '1',
                                     s[5] == '1', s[6] == '1', s[7] == '1', s[8] == '1', s[9] == '1')
  {
    hide Word, Number;
    Digits(s);
  }

  lemma WordChanges(s: string)
    requires |s| == 10
    ensures Transitions(Word(s)) == Change(s, 0) + Change(s, 1) + Change(s, 2) + Change(s, 3) + Change(s, 4)
                                    + Change(s, 5) + Change(s, 6) + Change(s, 7) + Change(s, 8)
  {
    hide Word, Int, Transitions;
    Digits(s);
    TransitionsOfTen(Word(s));
  }

  function Change(s: string, i: nat): int
    requires i + 1 < |s|
  {
    Int((s[i + 1] == '1') != (s[i] == '1'))
  }

  lemma IslandValue(n: Nibble)
    ensures Value(IslandWord(n)) == ISLAND[n]
  {
    hide Word, Value;
    WordAsNumber(TERC4[n]);
  }

  lemma IslandChanges(n: Nibble)
    ensures Transitions(IslandWord(n)) <= 5
  {
    hide Word, Transitions;
    WordChanges(TERC4[n]);
  }

  lemma GuardValues(c: Ctl)
    ensures Value(VideoGuard(2)) == 0x2cc && Value(DataGuard(2, c.c1, c.c0)) == 0x133
    ensures Value(VideoGuard(0)) == 0x2cc && Value(VideoGuard(1)) == 0x133 == Value(DataGuard(1, c.c1, c.c0))
    ensures Value(DataGuard(0, c.c1, c.c0)) == ISLAND[12 + 2 * Int(c.c1) + Int(c.c0)]
  {
    hide Word, Value;
    WordAsNumber("1011001100");
    WordAsNumber("0100110011");
    WordAsNumber("1010001110");
    WordAsNumber("1001110001");
    WordAsNumber("0101100011");
    WordAsNumber("1011000011");
  }

  lemma GuardChanges(c: Ctl)
    ensures Transitions(VideoGuard(2)) <= 5 && Transitions(DataGuard(2, c.c1, c.c0)) <= 5
  {
    hide Word, Transitions;
    WordChanges("1011001100");
    WordChanges("0100110011");
  }

  lemma IslandDistinct(i: Nibble, j: Nibble)
    requires ISLAND[i] == ISLAND[j]
    ensures i == j
  {
  }

  lemma NibbleBack(n: Nibble, w: Code)
    requires Value(w) == ISLAND[n]
    ensures DecodeIsland(w) == n && (Value(w) != 0x133)
  {
    hide Value;
    assert NibbleFrom(Value(w), 0) == DecodeIsland(w);
    IslandDistinct(DecodeIsland(w), n);
  }

  lemma ControlBack(c: Ctl)
    ensures DecodeControl(ControlWord(c)) == c
  {
    hide Word, Value;
    WordAsNumber("1101010100");
    WordAsNumber("0010101011");
    WordAsNumber("0101010100");
    WordAsNumber("1010101011");
  }

  lemma SyncBack(c: Ctl)
    ensures SyncOf(DecodeIsland(DataGuard(0, c.c1, c.c0))) == c
  {
    hide Value, DecodeIsland, DataGuard;
    GuardValues(c);
    NibbleBack(12 + 2 * Int(c.c1) + Int(c.c0), DataGuard(0, c.c1, c.c0));
  }

  /** Whatever the accumulators, the receiver in the right phase gets the pixel back. */
  lemma PixelBack(ph: Phase, a: Three<int>, p: Pixel)
    requires Fits(ph, p)
    ensures Receive(ph, Send(a, p)) == (p, PhaseAfter(ph, p))
  {
    hide Value, DecodeIsland, DecodeControl, DecodeVideo, Transitions, DataGuard, VideoGuard, IslandWord,
         ControlWord, VideoCoding, SyncOf;
    match p
    case Blank(c) =>
      ControlBack(c.ch0);
      ControlBack(c.ch1);
      ControlBack(c.ch2);
      ControlMany(c.ch2);
    case Picture(d) =>
      VideoRoundTrip(a.ch0, d.ch0);
      VideoRoundTrip(a.ch1, d.ch1);
      VideoRoundTrip(a.ch2, d.ch2);
      VideoTransitions(a.ch2, d.ch2);
    case PictureGuard =>
      GuardValues(Ctl(false, false));
      GuardChanges(Ctl(false, false));
    case Island(n) =>
      IslandBack(n.ch0);
      IslandBack(n.ch1);
      IslandBack(n.ch2);
      IslandChanges(n.ch2);
    case IslandGuard(s) =>
      GuardValues(s);
      GuardChanges(s);
      SyncBack(s);
  }

  lemma ControlMany(c: Ctl)
    ensures Transitions(ControlWord(c)) >= 7
  {
    ControlTransitions(c.c1, c.c0);
  }

  lemma IslandBack(n: Nibble)
    ensures DecodeIsland(IslandWord(n)) == n && Value(IslandWord(n)) != 0x133
  {
    hide Value, IslandWord, DecodeIsland;
    IslandValue(n);
    NibbleBack(n, IslandWord(n));
  }

  /** Main result: the receiver gets back every laid out stream of blanks, pictures, islands and their guards. */
  lemma {:induction false} LinkRoundTrip(accs: seq<Three<int>>, ps: seq<Pixel>)
    requires |accs| == |ps| && LaidOut(ps)
    ensures ReceiveAll(SendAll(accs, ps)) == (ps, PhaseOf(ps))
    decreases |ps|
  {
    hide Receive, Send, Fits, PhaseAfter;
    if ps != [] {
      var k := |ps| - 1;
      LinkRoundTrip(accs[..k], ps[..k]);
      PixelBack(PhaseOf(ps[..k]), accs[k], ps[k]);
      assert SendAll(accs, ps)[..k] == SendAll(accs[..k], ps[..k]);
      assert ps[..k] + [ps[k]] == ps;
    }
  }

  // ---------------------------------------------------------------- the layout of a line

  /** A frame: clocks to a line, lines, where the screen begins, and the packets sent alongside in a line. */
  datatype Frame = Frame(width: nat, height: nat, startX: nat, startY: nat, packets: nat)

  /** The packets fit in front of the screen with their guards and preambles, as they are counted to. */
  predicate Roomy(f: Frame) {
    3 <= f.startX < f.width && 0 < f.height && (f.packets > 0 ==> 32 * f.packets + 34 <= f.startX)
  }

  /** The mode the channels are given for a position. */
  function Mode(f: Frame, cx: nat, cy: nat): nat {
    if f.packets > 0 && (8 <= cx < 10 || 10 + 32 * f.packets <= cx < 12 + 32 * f.packets) then 4
    else if f.packets > 0 && 10 <= cx < 10 + 32 * f.packets then 3
    else if f.startX - 2 <= cx < f.startX && f.startY <= cy then 2
    else if f.startX <= cx && f.startY <= cy then 1
    else 0
  }

  function ModeOf(p: Pixel): nat {
    match p case Blank(_) => 0 case Picture(_) => 1 case PictureGuard => 2 case Island(_) => 3 case IslandGuard(_) => 4
  }

  /** The pixels of the positions one after another from the first of a frame on. */
  predicate Scanned(f: Frame, ps: seq<Pixel>)
    requires f.width > 0 && f.height > 0
  {
    forall t :: 0 <= t < |ps| ==> ModeOf(ps[t]) == Mode(f, t % f.width, t / f.width % f.height)
  }

  /** The phase a position leaves behind. */
  function PhaseAt(f: Frame, cx: nat, cy: nat): Phase {
    match Mode(f, cx, cy)
    case 0 => Blanking
    case 1 => Active
    case 2 => if cx == f.startX - 2 then Leading else Active
    case _ => InIsland
  }

  lemma FirstFits(f: Frame, p: Pixel, ph: Phase, cy: nat)
    requires Roomy(f) && ModeOf(p) == Mode(f, 0, cy)
    ensures Fits(ph, p) && PhaseAfter(ph, p) == PhaseAt(f, 0, cy)
  {
  }

  lemma NextFits(f: Frame, p: Pixel, cx: nat, cy: nat)
    requires Roomy(f) && ModeOf(p) == Mode(f, cx + 1, cy)
    ensures Fits(PhaseAt(f, cx, cy), p) && PhaseAfter(PhaseAt(f, cx, cy), p) == PhaseAt(f, cx + 1, cy)
  {
  }

  /** Main result: frames scanned one after another are laid out as the receiver expects. */
  lemma {:induction false} FramesAreLaidOut(f: Frame, ps: seq<Pixel>)
    requires Roomy(f) && Scanned(f, ps)
    ensures LaidOut(ps)
    ensures ps != [] ==> var t := |ps| - 1; PhaseOf(ps) == PhaseAt(f, t % f.width, t / f.width % f.height)
    decreases |ps|
  {
    hide Mode, Fits, PhaseAfter, PhaseAt, ModeOf;
    if ps != [] {
      var t := |ps| - 1;
      FramesAreLaidOut(f, ps[..t]);
      assert ModeOf(ps[t]) == Mode(f, t % f.width, t / f.width % f.height);
      if t % f.width == 0 {
        FirstFits(f, ps[t], PhaseOf(ps[..t]), t / f.width % f.height);
      } else {
        W.DivModUnique(t - 1, f.width, t / f.width, t % f.width - 1);
        NextFits(f, ps[t], t % f.width - 1, t / f.width % f.height);
      }
    }
  }
}
