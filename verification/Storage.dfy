/** The block device layer: a byte range read through a cache of one sector. */
module Storage {
  import W = Words

  const SECTOR := 0x200
  const WORDS := 128
  const WIDTH := 0x1_0000_0000

  type Byte = b: int | 0 <= b < 256
  type Disk = seq<Byte>

  /** A little-endian word, and its bytes. */
  function Word(d: Disk, i: nat): nat
    requires 4 * i + 4 <= |d|
  {
    var a: int, b: int, c: int, e: int := d[4 * i], d[4 * i + 1], d[4 * i + 2], d[4 * i + 3];
    a + 0x100 * b + 0x1_0000 * c + 0x100_0000 * e
  }

  function Shifted(w: nat, k: nat): nat
    requires k < 4
  {
    match k case 0 => w case 1 => w / 0x100 case 2 => w / 0x1_0000 case _ => w / 0x100_0000
  }

  function Pick(w: nat, k: nat): Byte
    requires k < 4
  {
    Shifted(w, k) % 256
  }

  lemma PickWord(d: Disk, i: nat, k: nat)
    requires 4 * i + 4 <= |d| && k < 4
    ensures Pick(Word(d, i), k) == d[4 * i + k]
  {
    var a: int, b: int, c: int, e: int := d[4 * i], d[4 * i + 1], d[4 * i + 2], d[4 * i + 3];
    match k
    case 0 => W.DivModUnique(Word(d, i), 0x100, b + 0x100 * c + 0x1_0000 * e, a);
    case 1 =>
      W.DivModUnique(Word(d, i), 0x100, b + 0x100 * c + 0x1_0000 * e, a);
      W.DivModUnique(b + 0x100 * c + 0x1_0000 * e, 0x100, c + 0x100 * e, b);
    case 2 =>
      W.DivModUnique(Word(d, i), 0x1_0000, c + 0x100 * e, a + 0x100 * b);
      W.DivModUnique(c + 0x100 * e, 0x100, e, c);
    case _ =>
      W.DivModUnique(Word(d, i), 0x100_0000, e, a + 0x100 * b + 0x1_0000 * c);
  }

  predicate HasSector(d: Disk, s: nat) { SECTOR * (s + 1) <= |d| }

  function SectorOf(d: Disk, s: nat): (r: seq<nat>)
    requires HasSector(d, s)
    ensures |r| == WORDS
  {
    seq<nat>(WORDS, i requires 0 <= i < WORDS => Word(d, WORDS * s + i))
  }

  function BytesOf(words: seq<nat>): (r: Disk)
    requires |words| == WORDS
    ensures |r| == SECTOR
  {
    seq(SECTOR, i requires 0 <= i < SECTOR => Pick(words[i / 4], i % 4))
  }

  /** The disk with one sector written. */
  function Overlay(d: Disk, s: nat, words: seq<nat>): (r: Disk)
    requires HasSector(d, s) && |words| == WORDS
    ensures |r| == |d|
  {
    d[..SECTOR * s] + BytesOf(words) + d[SECTOR * (s + 1)..]
  }

  /** A word is the sum of its bytes. */
  lemma WordOfBytes(w: nat)
    requires w < WIDTH
    ensures w == Pick(w, 0) + 0x100 * Pick(w, 1) + 0x1_0000 * Pick(w, 2) + 0x100_0000 * Pick(w, 3)
  {
    var a, b, c := w / 0x100, w / 0x1_0000, w / 0x100_0000;
    assert b == a / 0x100 && c == b / 0x100;
    assert w == 0x100 * a + w % 0x100 && a == 0x100 * b + a % 0x100 && b == 0x100 * c + b % 0x100;
    assert c < 0x100;
  }

  /** A sector written reads back as what was written, and the rest of the disk is as before. */
  lemma OverlayReadsBack(d: Disk, s: nat, words: seq<nat>, i: nat)
    requires HasSector(d, s) && |words| == WORDS && forall j :: 0 <= j < WORDS ==> words[j] < WIDTH
    ensures SectorOf(Overlay(d, s, words), s) == words
    ensures i < |d| && i / SECTOR != s ==> Overlay(d, s, words)[i] == d[i]
  {
    hide Pick, Overlay, Word;
    forall j | 0 <= j < WORDS
      ensures SectorOf(Overlay(d, s, words), s)[j] == words[j]
    {
      WrittenWord(d, s, words, j);
    }
    if i < |d| && i / SECTOR != s { Elsewhere(d, s, words, i); }
  }

  lemma Elsewhere(d: Disk, s: nat, words: seq<nat>, i: nat)
    requires HasSector(d, s) && |words| == WORDS && i < |d| && i / SECTOR != s
    ensures Overlay(d, s, words)[i] == d[i]
  {
    hide BytesOf;
    assert i < SECTOR * s || SECTOR * (s + 1) <= i;
  }

  lemma WrittenWord(d: Disk, s: nat, words: seq<nat>, j: nat)
    requires HasSector(d, s) && |words| == WORDS && j < WORDS && words[j] < WIDTH
    ensures Word(Overlay(d, s, words), WORDS * s + j) == words[j]
  {
    hide Pick, Overlay;
    WordOfBytes(words[j]);
    ByteAt(d, s, words, j, 0);
    ByteAt(d, s, words, j, 1);
    ByteAt(d, s, words, j, 2);
    ByteAt(d, s, words, j, 3);
  }

  lemma ByteAt(d: Disk, s: nat, words: seq<nat>, j: nat, k: nat)
    requires HasSector(d, s) && |words| == WORDS && j < WORDS && k < 4
    ensures 4 * (WORDS * s + j) + k < |d| && Overlay(d, s, words)[4 * (WORDS * s + j) + k] == Pick(words[j], k)
  {
    var i := 4 * j + k;
    assert i / 4 == j && i % 4 == k;
    assert 4 * (WORDS * s + j) + k == SECTOR * s + i;
    assert BytesOf(words)[i] == Pick(words[j], k);
  }

  /** How many bytes a read moves: none when the end of the range wraps round. */
  function Moved(seek: nat, bytes: nat): nat { if seek + bytes < WIDTH then bytes else 0 }

  /** The sector of the first byte not read, in 32-bit arithmetic. */
  function LastSector(seek: nat, bytes: nat): nat { (seek + bytes) % WIDTH / SECTOR }

  /** A range that wraps ends no further than the sector it starts in; any other ends no earlier. */
  lemma LastOfRange(seek: nat, bytes: nat)
    requires seek < WIDTH && bytes < WIDTH
    ensures var end := (seek + bytes) % WIDTH;
            if seek + bytes >= WIDTH then end < seek && LastSector(seek, bytes) <= seek / SECTOR
            else end == seek + bytes && LastSector(seek, bytes) >= seek / SECTOR
  {
  }

  class Blk {
    var obtained: bool
    var dirty: bool
    var sector: nat
    const cache: array<nat>
    var disk: Disk

    ghost predicate Valid()
      reads this, cache
    {
      cache.Length == WORDS && (dirty ==> HasSector(disk, sector))
    }

    /** What the device holds, counting a sector changed in the cache only. */
    ghost function Contents(): Disk
      reads this, cache
      requires Valid()
    {
      if dirty then Overlay(disk, sector, cache[..]) else disk
    }

    method WriteBack()
      requires Valid() && HasSector(disk, sector)
      modifies this`disk, this`dirty
      ensures Valid() && !dirty && disk == Overlay(old(disk), sector, cache[..])
    {
      disk := Overlay(disk, sector, cache[..]);
      dirty := false;
    }

    method Load()
      requires cache.Length == WORDS && HasSector(disk, sector) && !dirty
      modifies cache
      ensures Valid() && cache[..] == SectorOf(disk, sector)
    {
      forall i | 0 <= i < WORDS { cache[i] := Word(disk, WORDS * sector + i); }
    }

    /** The bytes first to last of the cached sector go to the buffer from position at on. */
    method CopySector(first: nat, last: nat, buf: array<Byte>, at: nat)
      requires Valid() && !dirty && HasSector(disk, sector) && cache[..] == SectorOf(disk, sector)
      requires first <= last <= SECTOR && at + (last - first) <= buf.Length
      modifies buf
      ensures forall i :: 0 <= i < buf.Length && !(at <= i < at + (last - first)) ==> buf[i] == old(buf[i])
      ensures forall j :: at <= j < at + (last - first) ==> buf[j] == disk[SECTOR * sector + first + (j - at)]
    {
      hide Word, Pick;
      var byte, cnt := first, at;
      while byte < last
        invariant first <= byte <= last && cnt == at + (byte - first)
        invariant cache[..] == SectorOf(disk, sector)
        invariant forall i :: 0 <= i < buf.Length && !(at <= i < cnt) ==> buf[i] == old(buf[i])
        invariant forall j :: at <= j < cnt ==> buf[j] == disk[SECTOR * sector + first + (j - at)]
      {
        assert cache[..][byte / 4] == Word(disk, WORDS * sector + byte / 4);
        PickWord(disk, WORDS * sector + byte / 4, byte % 4);
        assert 4 * (WORDS * sector + byte / 4) + byte % 4 == SECTOR * sector + byte;
        buf[cnt] := Pick(cache[byte / 4], byte % 4);
        byte, cnt := byte + 1, cnt + 1;
      }
    }

    /** Reads bytes from seek on, sector by sector. The last sector is loaded even if none of it is wanted. */
    method SeekAndRead(seek: nat, bytes: nat, buf: array<Byte>) returns (n: int)
      requires Valid() && seek < WIDTH && bytes < WIDTH
      requires LastSector(seek, bytes) >= seek / SECTOR ==> HasSector(disk, LastSector(seek, bytes))
      requires Moved(seek, bytes) <= buf.Length
      modifies this, cache, buf
      ensures Valid() && obtained == old(obtained) && Contents() == old(Contents())
      ensures !obtained ==> n == -1 && buf[..] == old(buf[..])
      ensures obtained ==> n == Moved(seek, bytes) && buf[n..] == old(buf[n..])
      ensures obtained && n > 0 ==> seek + n <= |Contents()| && buf[..n] == Contents()[seek..seek + n]
    {
      if !obtained { return -1; }
      hide Overlay, SectorOf;
      var end := (seek + bytes) % WIDTH;
      var first, last := seek / SECTOR, end / SECTOR;
      if dirty { WriteBack(); }
      ghost var wraps := seek + bytes >= WIDTH;
      LastOfRange(seek, bytes);
      n := 0;
      var sec := first;
      while sec <= last
        invariant Valid() && !dirty && obtained && disk == old(Contents())
        invariant first <= sec && (sec > first ==> sec <= last + 1) && (sec > first && wraps ==> sec == last + 1)
        invariant n == if sec == first || wraps then 0 else if sec == last + 1 then bytes else SECTOR * sec - seek
        invariant 0 <= n <= buf.Length && buf[n..] == old(buf[n..])
        invariant n > 0 ==> seek + n <= |disk| && buf[..n] == disk[seek..seek + n]
        decreases last + 1 - sec
      {
        n := ReadPart(sec, if sec == first then seek % SECTOR else 0,
                      if sec == last then end % SECTOR else SECTOR, seek, buf, n);
        sec := sec + 1;
      }
    }

    /** Loads a sector and appends its bytes a to b, if there are any, to the n read so far from seek. */
    method ReadPart(sec: nat, a: nat, b: nat, seek: nat, buf: array<Byte>, n0: nat) returns (n: nat)
      requires Valid() && !dirty && HasSector(disk, sec) && b <= SECTOR
      requires n0 <= buf.Length && (n0 > 0 ==> seek + n0 <= |disk| && buf[..n0] == disk[seek..seek + n0])
      requires a < b ==> seek + n0 == SECTOR * sec + a && n0 + (b - a) <= buf.Length
      modifies this`sector, cache, buf
      ensures Valid() && n == (if a < b then n0 + (b - a) else n0) && n <= buf.Length && buf[n..] == old(buf[n..])
      ensures n > 0 ==> seek + n <= |disk| && buf[..n] == disk[seek..seek + n]
    {
      sector, n := sec, n0;
      Load();
      if a < b {
        CopySector(a, b, buf, n0);
        n := n0 + (b - a);
        assert forall j :: n0 <= j < n ==> buf[j] == disk[seek + j];
        assert seek + n <= |disk|;
        forall j | 0 <= j < n
          ensures buf[j] == disk[seek + j]
        {
          if j < n0 { assert buf[j] == old(buf[..n0])[j] == disk[seek..seek + n0][j]; }
        }
      }
    }
  }
}
