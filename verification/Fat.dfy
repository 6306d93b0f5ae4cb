/** Reading a file, its directory record given, from a FAT volume: the chain check, and what the read returns. */
module Fat {
  import W = Words
  import opened Storage

  /** Entries from here on end a chain. */
  const END := 0x0fff_ffff

  datatype Volume = Volume(fatBegin: nat, clusterBegin: nat, perCluster: nat)

  function EntryAddress(v: Volume, e: nat): nat { (SECTOR * v.fatBegin + e * 4 % WIDTH) % WIDTH }

  /** The byte address of a cluster, in the machine's arithmetic. */
  function ClusterAddress(v: Volume, c: nat): nat {
    SECTOR * (v.clusterBegin + v.perCluster * ((c - 2) % WIDTH) % WIDTH)
  }

  predicate CanRead(d: Disk, at: nat, bytes: nat) {
    LastSector(at, bytes) >= at / SECTOR ==> HasSector(d, LastSector(at, bytes))
  }

  /** The table entry is on the disk. */
  predicate HasEntry(d: Disk, v: Volume, e: nat) {
    EntryAddress(v, e) + 4 < WIDTH && HasSector(d, (EntryAddress(v, e) + 4) / SECTOR)
  }

  lemma EntryAligned(v: Volume, e: nat)
    ensures EntryAddress(v, e) % 4 == 0
  {
    var x := e * 4;
    W.ModModFactor(x, WIDTH / 4, 4);
    W.DivModUnique(x, 4, e, 0);
    var y := SECTOR * v.fatBegin + x % WIDTH;
    W.ModModFactor(y, WIDTH / 4, 4);
    assert y == x % WIDTH + (0x80 * v.fatBegin) * 4;
    W.ModShift(x % WIDTH, 0x80 * v.fatBegin, 4);
  }

  /** The entry of cluster e. */
  function Next(d: Disk, v: Volume, e: nat): nat
    requires HasEntry(d, v, e)
  {
    Word(d, EntryAddress(v, e) / 4)
  }

  /** Every entry the check looks at is on the disk. */
  ghost predicate Walkable(d: Disk, v: Volume, e: nat)
    decreases END - e
  {
    e < END ==> HasEntry(d, v, e) && (Next(d, v, e) == e + 1 ==> Walkable(d, v, e + 1))
  }

  /** The check: every entry is the following cluster, until one ends the chain. */
  ghost predicate Contiguous(d: Disk, v: Volume, e: nat)
    requires Walkable(d, v, e)
    decreases END - e
  {
    e < END ==> Next(d, v, e) >= END || (Next(d, v, e) == e + 1 && Contiguous(d, v, e + 1))
  }

  /** The size read: all that is asked for, or what is left of the file; sums and differences wrap. */
  function ReadSize(fileSize: nat, seek: nat, size: nat): (r: nat)
    ensures size < WIDTH ==> r < WIDTH
  {
    if fileSize < (seek + size) % WIDTH then (fileSize - seek) % WIDTH else size
  }

  /** What the read returns. */
  ghost function ReadResult(d: Disk, v: Volume, fileCluster: nat, fileSize: nat, seek: nat, size: nat): int
    requires Walkable(d, v, fileCluster)
  {
    if Contiguous(d, v, fileCluster) then AsInt(ReadSize(fileSize, seek, size)) else -1
  }

  /** An unsigned word returned as an int. */
  function AsInt(x: nat): int { if x < 0x8000_0000 then x else x - WIDTH }

  function StartAddress(v: Volume, fileCluster: nat, seek: nat): (r: nat)
    ensures r < WIDTH
  {
    (ClusterAddress(v, fileCluster) + seek) % WIDTH
  }

  method ReadEntry(blk: Blk, v: Volume, e: nat) returns (next: nat)
    requires blk.Valid() && blk.obtained && HasEntry(blk.disk, v, e) && HasEntry(blk.Contents(), v, e)
    modifies blk, blk.cache
    ensures blk.Valid() && blk.obtained && blk.Contents() == old(blk.Contents()) && |blk.disk| == old(|blk.disk|)
    ensures next == Next(blk.Contents(), v, e)
  {
    var entry := new Byte[4];
    EntryAligned(v, e);
    var at := EntryAddress(v, e);
    var n := blk.SeekAndRead(at, 4, entry);
    assert entry[..4][0] == blk.Contents()[at] && entry[..4][1] == blk.Contents()[at + 1];
    assert entry[..4][2] == blk.Contents()[at + 2] && entry[..4][3] == blk.Contents()[at + 3];
    var a: int, b: int, c: int, h: int := entry[0], entry[1], entry[2], entry[3];
    next := a + 0x100 * b + 0x1_0000 * c + 0x100_0000 * h;
  }

  /** The read of a file whose record gives its first cluster and size. */
  method ReadFile(blk: Blk, v: Volume, fileCluster: nat, fileSize: nat, seek: nat, size0: nat, buf: array<Byte>)
    returns (n: int)
    requires blk.Valid() && blk.obtained && fileSize < WIDTH && seek < WIDTH && size0 < WIDTH
    requires Walkable(blk.Contents(), v, fileCluster)
    requires var m, at := ReadSize(fileSize, seek, size0), StartAddress(v, fileCluster, seek);
             Contiguous(blk.Contents(), v, fileCluster) ==> CanRead(blk.disk, at, m) && Moved(at, m) <= buf.Length
    modifies blk, blk.cache, buf
    ensures blk.Valid() && blk.Contents() == old(blk.Contents()) && Walkable(blk.Contents(), v, fileCluster)
    ensures n == ReadResult(blk.Contents(), v, fileCluster, fileSize, seek, size0)
    ensures !Contiguous(blk.Contents(), v, fileCluster) ==> buf[..] == old(buf[..])
    ensures Contiguous(blk.Contents(), v, fileCluster) ==>
              var m, at := ReadSize(fileSize, seek, size0), StartAddress(v, fileCluster, seek);
              var got := Moved(at, m);
              buf[got..] == old(buf[got..])
              && (got > 0 ==> at + got <= |blk.Contents()| && buf[..got] == blk.Contents()[at..at + got])
    ensures ReadsEveryFile(blk.Contents(), v, fileCluster, fileSize, seek, size0, n, old(buf[..]), buf[..])
  {
    hide ReadSize, StartAddress, EntryAddress, ReadsEveryFile;
    ghost var d, before := blk.Contents(), buf[..];
    var entry := fileCluster;
    while entry < END
      invariant blk.Valid() && blk.obtained && blk.Contents() == d && |blk.disk| == |d| && buf[..] == old(buf[..])
      invariant Walkable(d, v, entry) && (Contiguous(d, v, entry) <==> Contiguous(d, v, fileCluster))
      decreases END - entry
    {
      var next := ReadEntry(blk, v, entry);
      if next < END && next != entry + 1 {
        OfEveryChain(d, v, fileCluster, fileSize, seek, size0, -1, buf[..], buf[..]);
        return -1;
      }
      entry := next;
    }
    var size := ReadSize(fileSize, seek, size0);
    var got := blk.SeekAndRead(StartAddress(v, fileCluster, seek), size, buf);
    n := AsInt(size);
    OfEveryChain(d, v, fileCluster, fileSize, seek, size0, n, before, buf[..]);
  }

  lemma OfEveryChain(d: Disk, v: Volume, fileCluster: nat, fileSize: nat, seek: nat, size: nat,
                     n: int, before: seq<Byte>, after: seq<Byte>)
    requires fileSize < WIDTH && |after| == |before| && Walkable(d, v, fileCluster)
    requires n == ReadResult(d, v, fileCluster, fileSize, seek, size)
    requires !Contiguous(d, v, fileCluster) ==> after == before
    requires Contiguous(d, v, fileCluster) ==>
               var m, at := ReadSize(fileSize, seek, size), StartAddress(v, fileCluster, seek);
               var got := Moved(at, m);
               got <= |after| && after[got..] == before[got..]
               && (got > 0 ==> at + got <= |d| && after[..got] == d[at..at + got])
    ensures ReadsEveryFile(d, v, fileCluster, fileSize, seek, size, n, before, after)
  {
    hide ReadResult, ReadSize, StartAddress, ReadsFile, Contiguous, Walkable;
    forall cs | FileChain(d, v, cs) && cs[0] == fileCluster
      ensures ReadsFile(d, v, cs, fileSize, seek, size, n, before, after)
    {
      ReadOfChain(d, v, cs, fileSize, seek, size, n, before, after);
    }
  }

  // ---------------------------------------------------------------- the size

  /** Within the file, the size is the smaller of what is asked for and what is left exactly when the end of
      the range does not wrap, or wraps and is still past the end of the file. */
  lemma ReadSizeExact(fileSize: nat, seek: nat, size: nat)
    requires fileSize < WIDTH && seek <= fileSize && size < WIDTH
    ensures ReadSize(fileSize, seek, size) == (if size < fileSize - seek then size else fileSize - seek)
        <==> seek + size < WIDTH || fileSize < seek + size - WIDTH
  {
    if seek + size < WIDTH {
      W.DivModUnique(seek + size, WIDTH, 0, seek + size);
    } else {
      W.DivModUnique(seek + size, WIDTH, 1, seek + size - WIDTH);
    }
    W.DivModUnique(fileSize - seek, WIDTH, 0, fileSize - seek);
  }

  /** From position 90 of a file of 100 with the greatest count there is: the end of the range wraps to 89, and the
      size is left as asked where ten bytes are left. */
  lemma ReadSizeWraps()
    ensures ReadSize(100, 90, 0xffff_ffff) == 0xffff_ffff
  {
  }

  /** The end of a range as the code compares it with the file's size. */
  function WrappedEnd(seek: nat, size: nat): nat { if seek + size < WIDTH then seek + size else seek + size - WIDTH }

  /** A read from beyond the end of the file returns a negative size exactly when the range is cut and starts
      within 2^31 of the end, or is not cut (its end having wrapped into the file) and asks for 2^31 or more. It
      moves nothing exactly when its first byte does not wrap, or the byte where it ends up does so as well. */
  lemma PastTheEnd(v: Volume, fileCluster: nat, fileSize: nat, seek: nat, size: nat)
    requires fileSize < seek < WIDTH && size < WIDTH
    ensures var m, at := ReadSize(fileSize, seek, size), StartAddress(v, fileCluster, seek);
            var end, base := WrappedEnd(seek, size), ClusterAddress(v, fileCluster) % WIDTH;
            (AsInt(m) < 0 <==> if fileSize < end then seek - fileSize <= 0x8000_0000 else size >= 0x8000_0000)
            && (Moved(at, m) == 0 <==>
                  base + seek < WIDTH || base + (if fileSize < end then fileSize else end) >= WIDTH)
  {
    hide ClusterAddress;
    var a := ClusterAddress(v, fileCluster);
    var base, end := a % WIDTH, WrappedEnd(seek, size);
    EndWraps(seek, size);
    W.DivModUnique(fileSize - seek, WIDTH, -1, fileSize - seek + WIDTH);
    assert StartAddress(v, fileCluster, seek) == if base + seek < WIDTH then base + seek else base + seek - WIDTH by {
      W.ModAdd(a, seek, WIDTH);
      W.DivModUnique(seek, WIDTH, 0, seek);
      EndWraps(base, seek);
    }
  }

  lemma EndWraps(seek: nat, size: nat)
    requires seek < WIDTH && size < WIDTH
    ensures (seek + size) % WIDTH == WrappedEnd(seek, size)
  {
    if seek + size < WIDTH {
      W.DivModUnique(seek + size, WIDTH, 0, seek + size);
    } else {
      W.DivModUnique(seek + size, WIDTH, 1, seek + size - WIDTH);
    }
  }

  /** One byte from the last 32-bit position of an empty file: the read returns one and, unless the file's first
      cluster is at address 0, moves the byte in front of it. */
  lemma PastTheEndMoves(v: Volume, fileCluster: nat)
    requires ClusterAddress(v, fileCluster) % WIDTH > 0
    ensures var m, at := ReadSize(0, 0xffff_ffff, 1), StartAddress(v, fileCluster, 0xffff_ffff);
            AsInt(m) == 1 && Moved(at, m) == 1 && at == ClusterAddress(v, fileCluster) % WIDTH - 1
  {
    hide ClusterAddress;
    var a := ClusterAddress(v, fileCluster);
    W.ModAdd(a, 0xffff_ffff, WIDTH);
    EndWraps(a % WIDTH, 0xffff_ffff);
  }

  /** One byte from just over 2^31 in an empty file: the size comes out positive. */
  lemma PastTheEndPositive()
    ensures AsInt(ReadSize(0, 0x8000_0001, 1)) == 0x7fff_ffff
  {
  }

  // ---------------------------------------------------------------- the chain

  /** The clusters of a file in the order the table links them. */
  ghost predicate IsChain(d: Disk, v: Volume, cs: seq<nat>) {
    cs != [] && (forall i :: 0 <= i < |cs| ==> cs[i] < END && HasEntry(d, v, cs[i]))
    && (forall i :: 0 <= i < |cs| - 1 ==> Next(d, v, cs[i]) == cs[i + 1])
    && Next(d, v, cs[|cs| - 1]) >= END
  }

  predicate Consecutive(cs: seq<nat>) { forall i :: 0 <= i < |cs| - 1 ==> cs[i + 1] == cs[i] + 1 }

  lemma ChainTail(d: Disk, v: Volume, cs: seq<nat>)
    requires IsChain(d, v, cs) && |cs| > 1
    ensures IsChain(d, v, cs[1..]) && (Consecutive(cs) <==> cs[1] == cs[0] + 1 && Consecutive(cs[1..]))
  {
    hide Next, HasEntry;
    var t := cs[1..];
    forall i | 0 <= i < |t| - 1
      ensures Next(d, v, t[i]) == t[i + 1]
    {
      assert Next(d, v, cs[i + 1]) == cs[i + 2];
    }
    ConsecutiveTail(cs);
  }

  /** Of the files whose chains end in an entry the code takes for an end, the check passes exactly those whose
      clusters follow one another. */
  lemma {:induction false} ContiguousIff(d: Disk, v: Volume, cs: seq<nat>)
    requires IsChain(d, v, cs) && Walkable(d, v, cs[0])
    ensures Contiguous(d, v, cs[0]) <==> Consecutive(cs)
    decreases |cs|
  {
    hide Next, HasEntry;
    if |cs| > 1 {
      ChainTail(d, v, cs);
      if cs[1] == cs[0] + 1 { ContiguousIff(d, v, cs[1..]); }
    }
  }

  /** The least entry that ends a chain by the FAT32 convention. */
  const MARK := 0x0fff_fff8

  /** The clusters of a file in the order the table links them, ended by any of the marks in use. */
  ghost predicate IsMarkedChain(d: Disk, v: Volume, cs: seq<nat>) {
    cs != [] && (forall i :: 0 <= i < |cs| ==> cs[i] < MARK && HasEntry(d, v, cs[i]))
    && (forall i :: 0 <= i < |cs| - 1 ==> Next(d, v, cs[i]) == cs[i + 1])
    && MARK <= Next(d, v, cs[|cs| - 1]) <= END
  }

  /** The mark 0x0ffffff8 on a file's only cluster: the check refuses it. */
  lemma StandardMarkRefused(d: Disk, v: Volume, c: nat)
    requires c < MARK - 1 && HasEntry(d, v, c) && Next(d, v, c) == MARK
    ensures IsMarkedChain(d, v, [c]) && Walkable(d, v, c) && !Contiguous(d, v, c)
  {
    hide Next, HasEntry;
  }

  lemma MarkedTail(d: Disk, v: Volume, cs: seq<nat>)
    requires IsMarkedChain(d, v, cs) && |cs| > 1
    ensures IsMarkedChain(d, v, cs[1..]) && (Consecutive(cs) <==> cs[1] == cs[0] + 1 && Consecutive(cs[1..]))
    ensures cs[1..][|cs[1..]| - 1] == cs[|cs| - 1]
  {
    hide Next, HasEntry;
    var t := cs[1..];
    forall i | 0 <= i < |t| - 1
      ensures Next(d, v, t[i]) == t[i + 1]
    {
      assert Next(d, v, cs[i + 1]) == cs[i + 2];
    }
    ConsecutiveTail(cs);
  }

  lemma ConsecutiveTail(cs: seq<nat>)
    requires |cs| > 1
    ensures Consecutive(cs) <==> cs[1] == cs[0] + 1 && Consecutive(cs[1..])
  {
    var t := cs[1..];
    if cs[1] == cs[0] + 1 && Consecutive(t) {
      forall i | 0 <= i < |cs| - 1
        ensures cs[i + 1] == cs[i] + 1
      {
        if i > 0 { assert t[i - 1 + 1] == t[i - 1] + 1; }
      }
    }
    if Consecutive(cs) {
      forall i | 0 <= i < |t| - 1
        ensures t[i + 1] == t[i] + 1
      {
        assert cs[i + 1 + 1] == cs[i + 1] + 1;
      }
    }
  }

  /** Of the files whose chains end in any of the marks 0x0ffffff8 to 0x0fffffff the check passes exactly those
      whose clusters follow one another and whose mark is the last one. Only where the mark 0x0ffffff8 is itself
      the number after the last cluster's does the check go on, reading the mark as a cluster. */
  lemma {:induction false} MarkedContiguousIff(d: Disk, v: Volume, cs: seq<nat>)
    requires IsMarkedChain(d, v, cs) && Walkable(d, v, cs[0])
    ensures var last := cs[|cs| - 1];
            Contiguous(d, v, cs[0]) <==> Consecutive(cs) && MarkAccepted(d, v, last)
    decreases |cs|
  {
    hide Next, HasEntry;
    if |cs| > 1 {
      MarkedTail(d, v, cs);
      if cs[1] == cs[0] + 1 { MarkedContiguousIff(d, v, cs[1..]); }
    }
  }

  /** The check gets past the mark of a chain whose last cluster is `last`. */
  ghost predicate MarkAccepted(d: Disk, v: Volume, last: nat)
    requires HasEntry(d, v, last)
  {
    Next(d, v, last) == END
    || (last == MARK - 1 && Next(d, v, last) == MARK && Walkable(d, v, MARK) && Contiguous(d, v, MARK))
  }

  /** What a read returns for a file whose chain ends in any of the marks. */
  lemma MarkedReadResult(d: Disk, v: Volume, cs: seq<nat>, fileSize: nat, seek: nat, size: nat)
    requires IsMarkedChain(d, v, cs) && Walkable(d, v, cs[0])
    ensures ReadResult(d, v, cs[0], fileSize, seek, size) ==
              if Consecutive(cs) && MarkAccepted(d, v, cs[|cs| - 1]) then AsInt(ReadSize(fileSize, seek, size)) else -1
  {
    hide Next, HasEntry, ReadSize;
    MarkedContiguousIff(d, v, cs);
  }

  // ---------------------------------------------------------------- the data

  function ClusterSize(v: Volume): nat { SECTOR * v.perCluster }

  /** Where a cluster is, without wrapping. */
  function ClusterAt(v: Volume, c: nat): int { SECTOR * (v.clusterBegin + v.perCluster * (c - 2)) }

  predicate OnDisk(d: Disk, v: Volume, c: nat) {
    c >= 2 && 0 <= ClusterAt(v, c) && ClusterAt(v, c) + ClusterSize(v) <= |d| <= WIDTH
  }

  function ClusterData(d: Disk, v: Volume, c: nat): Disk
    requires OnDisk(d, v, c)
  {
    d[ClusterAt(v, c)..ClusterAt(v, c) + ClusterSize(v)]
  }

  /** The bytes of a list of clusters, in its order. */
  function FileData(d: Disk, v: Volume, cs: seq<nat>): (r: Disk)
    requires forall i :: 0 <= i < |cs| ==> OnDisk(d, v, cs[i])
  {
    if cs == [] then []
    else ClusterData(d, v, cs[0]) + FileData(d, v, cs[1..])
  }

  lemma NextClusterFollows(v: Volume, c: nat)
    ensures ClusterAt(v, c + 1) == ClusterAt(v, c) + ClusterSize(v)
  {
    W.MulAssoc(SECTOR, v.perCluster, 1);
    assert v.perCluster * (c + 1 - 2) == v.perCluster * (c - 2) + v.perCluster;
  }

  /** The data of consecutive clusters is one stretch of the disk. */
  lemma {:induction false} ConsecutiveData(d: Disk, v: Volume, cs: seq<nat>)
    requires cs != [] && Consecutive(cs) && forall i :: 0 <= i < |cs| ==> OnDisk(d, v, cs[i])
    ensures 0 <= ClusterAt(v, cs[0]) && ClusterAt(v, cs[0]) + |FileData(d, v, cs)| <= |d|
    ensures FileData(d, v, cs) == d[ClusterAt(v, cs[0])..ClusterAt(v, cs[0]) + |FileData(d, v, cs)|]
    decreases |cs|
  {
    hide ClusterAt, ClusterSize;
    if |cs| > 1 {
      assert cs[0 + 1] == cs[0] + 1;
      forall i | 0 <= i < |cs[1..]| - 1
        ensures cs[1..][i + 1] == cs[1..][i] + 1
      {
        assert cs[i + 1 + 1] == cs[i + 1] + 1;
      }
      ConsecutiveData(d, v, cs[1..]);
      NextClusterFollows(v, cs[0]);
    }
  }

  lemma SliceOfSlice(d: Disk, a: nat, n: nat, seek: nat, m: nat)
    requires a + n <= |d| && seek + m <= n
    ensures d[a..a + n][seek..seek + m] == d[a + seek..a + seek + m]
  {
    var x, y := d[a..a + n][seek..seek + m], d[a + seek..a + seek + m];
    assert |x| == |y|;
    assert forall i :: 0 <= i < m ==> x[i] == d[a + seek + i] == y[i];
  }

  lemma ClusterAddressIs(d: Disk, v: Volume, c: nat)
    requires OnDisk(d, v, c) && c < END
    ensures ClusterAddress(v, c) == ClusterAt(v, c)
  {
    W.DivModUnique(c - 2, WIDTH, 0, c - 2);
    W.MulMonotone(0, c - 2, v.perCluster);
    W.DivModUnique(v.perCluster * (c - 2), WIDTH, 0, v.perCluster * (c - 2));
  }

  /** Main result: for a file whose chain and data are on the disk, what ReadFile moves for a range that starts
      inside the file and does not wrap is that range of the file's data, in the order of its chain. */
  lemma ReadIsFileSlice(d: Disk, v: Volume, cs: seq<nat>, fileSize: nat, seek: nat, size: nat)
    requires IsChain(d, v, cs) && Walkable(d, v, cs[0]) && Contiguous(d, v, cs[0])
    requires forall i :: 0 <= i < |cs| ==> OnDisk(d, v, cs[i])
    requires seek <= fileSize <= |FileData(d, v, cs)| && fileSize < WIDTH && seek + size < WIDTH
    requires ClusterAt(v, cs[0]) + fileSize < WIDTH
    ensures var m, at := ReadSize(fileSize, seek, size), StartAddress(v, cs[0], seek);
            m == (if size < fileSize - seek then size else fileSize - seek) && Moved(at, m) == m
            && at + m <= |d| && d[at..at + m] == FileData(d, v, cs)[seek..seek + m]
  {
    hide ClusterAt, ClusterSize, ClusterAddress, ReadSize, Next, HasEntry;
    ContiguousIff(d, v, cs);
    ConsecutiveData(d, v, cs);
    ClusterAddressIs(d, v, cs[0]);
    ReadSizeExact(fileSize, seek, size);
    var at := ClusterAt(v, cs[0]) + seek;
    W.DivModUnique(at, WIDTH, 0, at);
    SliceOfSlice(d, ClusterAt(v, cs[0]), |FileData(d, v, cs)|, seek,
                 if size < fileSize - seek then size else fileSize - seek);
  }

  // ---------------------------------------------------------------- the chain in the table's bytes

  /** The table entry of a cluster lies on the disk, with the byte after it, below 2^32. */
  predicate EntryOnDisk(d: Disk, v: Volume, c: nat) {
    var after := 512 * v.fatBegin + 4 * c + 4;
    after < 0x1_0000_0000 && after < |d| && 512 * (after / 512 + 1) <= |d|
  }

  /** The entry of a cluster in the table's bytes, least significant first. */
  function TableEntry(d: Disk, v: Volume, c: nat): nat
    requires EntryOnDisk(d, v, c)
  {
    var at := 512 * v.fatBegin + 4 * c;
    d[at] as int + 256 * d[at + 1] as int + 65536 * d[at + 2] as int + 16777216 * d[at + 3] as int
  }

  /** The clusters of a file in the order the table's bytes link them; cluster numbers are below the mark of a bad
      cluster, and the last entry is an end mark. */
  ghost predicate FileChain(d: Disk, v: Volume, cs: seq<nat>) {
    cs != [] && (forall i :: 0 <= i < |cs| ==> cs[i] < 0x0fff_fff7 && EntryOnDisk(d, v, cs[i]))
    && (forall i :: 0 <= i < |cs| - 1 ==> TableEntry(d, v, cs[i]) == cs[i + 1])
    && TableEntry(d, v, cs[|cs| - 1]) >= 0x0fff_fff8
  }

  /** The code's entry is the table's. */
  lemma NextIsTableEntry(d: Disk, v: Volume, c: nat)
    requires EntryOnDisk(d, v, c)
    ensures HasEntry(d, v, c) && Next(d, v, c) == TableEntry(d, v, c)
  {
    W.DivModUnique(4 * c, WIDTH, 0, 4 * c);
    W.DivModUnique(512 * v.fatBegin + 4 * c, WIDTH, 0, 512 * v.fatBegin + 4 * c);
    EntryAligned(v, c);
  }

  /** The clusters of the file follow one another, and the last entry is the mark the check knows, or above. */
  ghost predicate Accepted(d: Disk, v: Volume, cs: seq<nat>)
    requires FileChain(d, v, cs)
  {
    Consecutive(cs) && TableEntry(d, v, cs[|cs| - 1]) >= 0x0fff_ffff
  }

  /** The check passes exactly the files with consecutive clusters and the last of the end marks. */
  lemma {:induction false} CheckPassesIff(d: Disk, v: Volume, cs: seq<nat>)
    requires FileChain(d, v, cs)
    ensures Walkable(d, v, cs[0]) && (Contiguous(d, v, cs[0]) <==> Accepted(d, v, cs))
    decreases |cs|
  {
    hide Next, HasEntry, TableEntry, EntryOnDisk;
    NextIsTableEntry(d, v, cs[0]);
    if |cs| > 1 {
      var t := cs[1..];
      forall i | 0 <= i < |t| - 1
        ensures TableEntry(d, v, t[i]) == t[i + 1]
      {
        assert TableEntry(d, v, cs[i + 1]) == cs[i + 2];
      }
      ConsecutiveTail(cs);
      CheckPassesIff(d, v, t);
    }
  }

  /** The file's data is on the disk, and the range starts in the file and does not wrap. */
  predicate RangeInFile(d: Disk, v: Volume, cs: seq<nat>, fileSize: nat, seek: nat, size: nat) {
    cs != [] && (forall i :: 0 <= i < |cs| ==> OnDisk(d, v, cs[i]))
    && seek <= fileSize <= |FileData(d, v, cs)| && seek + size < 0x1_0000_0000
    && ClusterAt(v, cs[0]) + fileSize < 0x1_0000_0000
  }

  /** What a read does with a file of that chain: refused with the buffer untouched, or the bytes of the file from
      the position on, as many as are asked for or left, counted as an int. */
  ghost predicate ReadsFile(d: Disk, v: Volume, cs: seq<nat>, fileSize: nat, seek: nat, size: nat,
                            n: int, before: seq<Byte>, after: seq<Byte>)
    requires FileChain(d, v, cs)
  {
    if !Accepted(d, v, cs) then n == -1 && after == before
    else RangeInFile(d, v, cs, fileSize, seek, size) ==>
      var m := if size < fileSize - seek then size else fileSize - seek;
      n == (if m < 0x8000_0000 then m else m - 0x1_0000_0000) && m <= |after| == |before|
      && after[..m] == FileData(d, v, cs)[seek..seek + m] && after[m..] == before[m..]
  }

  /** That, whatever chain starts at that cluster. */
  ghost predicate ReadsEveryFile(d: Disk, v: Volume, fileCluster: nat, fileSize: nat, seek: nat, size: nat,
                                 n: int, before: seq<Byte>, after: seq<Byte>)
  {
    forall cs :: FileChain(d, v, cs) && cs[0] == fileCluster ==>
      ReadsFile(d, v, cs, fileSize, seek, size, n, before, after)
  }

  lemma ReadOfChain(d: Disk, v: Volume, cs: seq<nat>, fileSize: nat, seek: nat, size: nat,
                    n: int, before: seq<Byte>, after: seq<Byte>)
    requires FileChain(d, v, cs) && fileSize < WIDTH && |after| == |before|
    requires Walkable(d, v, cs[0]) && n == ReadResult(d, v, cs[0], fileSize, seek, size)
    requires !Contiguous(d, v, cs[0]) ==> after == before
    requires Contiguous(d, v, cs[0]) ==>
               var m, at := ReadSize(fileSize, seek, size), StartAddress(v, cs[0], seek);
               var got := Moved(at, m);
               got <= |after| && after[got..] == before[got..]
               && (got > 0 ==> at + got <= |d| && after[..got] == d[at..at + got])
    ensures ReadsFile(d, v, cs, fileSize, seek, size, n, before, after)
  {
    hide Walkable, Contiguous, FileChain, Accepted, RangeInFile, ReadSize, StartAddress, FileData;
    CheckPassesIff(d, v, cs);
    if Accepted(d, v, cs) && RangeInFile(d, v, cs, fileSize, seek, size) { MovedData(d, v, cs, fileSize, seek, size); }
  }

  lemma MovedData(d: Disk, v: Volume, cs: seq<nat>, fileSize: nat, seek: nat, size: nat)
    requires FileChain(d, v, cs) && Accepted(d, v, cs) && fileSize < WIDTH
    requires RangeInFile(d, v, cs, fileSize, seek, size)
    ensures (forall i :: 0 <= i < |cs| ==> OnDisk(d, v, cs[i])) && seek <= fileSize <= |FileData(d, v, cs)|
    ensures var m, at := ReadSize(fileSize, seek, size), StartAddress(v, cs[0], seek);
            m == (if size < fileSize - seek then size else fileSize - seek) && Moved(at, m) == m
            && at + m <= |d| && d[at..at + m] == FileData(d, v, cs)[seek..seek + m]
  {
    hide Next, HasEntry, TableEntry, EntryOnDisk, ReadSize, StartAddress, ClusterAt, FileData;
    CheckPassesIff(d, v, cs);
    ChainOfBytes(d, v, cs);
    ReadIsFileSlice(d, v, cs, fileSize, seek, size);
  }

  lemma ChainOfBytes(d: Disk, v: Volume, cs: seq<nat>)
    requires FileChain(d, v, cs) && Accepted(d, v, cs)
    ensures IsChain(d, v, cs)
  {
    hide Next, HasEntry, TableEntry, EntryOnDisk;
    forall i | 0 <= i < |cs|
      ensures HasEntry(d, v, cs[i]) && Next(d, v, cs[i]) == TableEntry(d, v, cs[i])
    {
      NextIsTableEntry(d, v, cs[i]);
    }
  }
}
