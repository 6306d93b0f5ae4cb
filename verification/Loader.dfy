/** Loading position-independent images in place: the second segment moved up over itself, and relocations
    patched before the move for the library and after it for programs. */
module Loader {
  import W = Words

  type Word = W.Word
  type Image = seq<Word>

  /** The second segment, in bytes: where it is in the file, where it goes, and its sizes there. */
  datatype Segment = Segment(offset: nat, vaddr: nat, filesz: nat, memsz: nat)

  predicate Aligned(g: Segment) { g.offset % 4 == 0 && g.vaddr % 4 == 0 && g.filesz % 4 == 0 && g.memsz % 4 == 0 }

  /** The segment moves up, and image, copy and cleared words fit in memory. */
  predicate Fits(g: Segment, size: nat) {
    Aligned(g) && g.offset <= g.vaddr && g.filesz <= g.memsz
    && (g.vaddr + g.filesz) / 4 <= size && (g.vaddr + 2 * (g.memsz - g.filesz)) / 4 <= size
  }

  // words of the segment
  function From(g: Segment): nat { g.offset / 4 }
  function To(g: Segment): nat { g.vaddr / 4 }
  function Len(g: Segment): nat { g.filesz / 4 }
  function Bss(g: Segment): nat requires g.filesz <= g.memsz { (g.memsz - g.filesz) / 4 }

  predicate InFile(g: Segment, w: int) { From(g) <= w < From(g) + Len(g) }
  predicate InPlace(g: Segment, w: int) { To(g) <= w < To(g) + Len(g) }

  /** The words the clearing loop writes. */
  predicate IsCleared(g: Segment, w: int)
    requires g.filesz <= g.memsz
  {
    To(g) + Bss(g) <= w < To(g) + 2 * Bss(g)
  }

  function Cleared(m: Image, g: Segment): (r: Image)
    requires g.filesz <= g.memsz
    ensures |r| == |m|
  {
    seq(|m|, w requires 0 <= w < |m| => if IsCleared(g, w) then 0 else m[w])
  }

  function Moved(m: Image, g: Segment): (r: Image)
    requires To(g) + Len(g) <= |m| && From(g) <= To(g)
    ensures |r| == |m|
  {
    seq(|m|, w requires 0 <= w < |m| => if InPlace(g, w) then m[w - To(g) + From(g)] else m[w])
  }

  /** What the second segment's two loops do. */
  function Placed(m: Image, g: Segment): (r: Image)
    requires Fits(g, |m|)
    ensures |r| == |m|
  {
    Moved(Cleared(m, g), g)
  }

  lemma WordsOf(g: Segment, size: nat)
    requires Fits(g, size)
    ensures g.filesz <= g.memsz && From(g) <= To(g) && To(g) + Len(g) <= size && To(g) + 2 * Bss(g) <= size
    ensures g.filesz == 4 * Len(g) && g.memsz - g.filesz == 4 * Bss(g)
    ensures g.vaddr == 4 * To(g) && g.offset == 4 * From(g)
  {
  }

  /** Clears words and then copies the segment backwards, word by word. */
  method PlaceSegment(m: array<Word>, g: Segment)
    requires Fits(g, m.Length)
    modifies m
    ensures m[..] == Placed(old(m[..]), g)
  {
    hide Moved, Cleared;
    WordsOf(g, m.Length);
    ClearWords(m, g);
    CopyBackwards(m, g);
  }

  method ClearWords(m: array<Word>, g: Segment)
    requires Fits(g, m.Length)
    modifies m
    ensures m[..] == Cleared(old(m[..]), g)
  {
    WordsOf(g, m.Length);
    var i := g.memsz - g.filesz - 4;
    ghost var k := Bss(g) - 1;
    while i >= 0
      invariant i == 4 * k && -1 <= k < Bss(g)
      invariant forall w :: 0 <= w < m.Length ==>
                  m[w] == if To(g) + Bss(g) + k < w < To(g) + 2 * Bss(g) then 0 else old(m[w])
    {
      assert (g.vaddr + g.memsz - g.filesz + i) / 4 == To(g) + Bss(g) + k;
      m[(g.vaddr + g.memsz - g.filesz + i) / 4] := 0;
      i, k := i - 4, k - 1;
    }
  }

  method CopyBackwards(m: array<Word>, g: Segment)
    requires Fits(g, m.Length)
    modifies m
    ensures From(g) <= To(g) && To(g) + Len(g) <= m.Length && m[..] == Moved(old(m[..]), g)
  {
    WordsOf(g, m.Length);
    var i := g.filesz - 4;
    ghost var k := Len(g) - 1;
    while i >= 0
      invariant i == 4 * k && -1 <= k < Len(g)
      invariant forall w :: 0 <= w < m.Length ==>
                  m[w] == if To(g) + k < w < To(g) + Len(g) then old(m[w - To(g) + From(g)]) else old(m[w])
    {
      assert (g.vaddr + i) / 4 == To(g) + k && (g.offset + i) / 4 == From(g) + k;
      m[(g.vaddr + i) / 4] := m[(g.offset + i) / 4];
      i, k := i - 4, k - 1;
    }
  }

  // ---------------------------------------------------------------- relocations

  /** A relocation: the byte address of the word to patch, in the moved segment; type and symbol; addend. */
  datatype Rela = Rela(offset: nat, info: nat, addend: int)

  /** Word index of a symbol's value: symbol entries are four words, the value is the second. */
  function SymbolWord(dynsym: nat, info: nat): nat { dynsym + 4 * (info / 0x100) + 1 }

  function Value(m: Image, base: Word, dynsym: nat, r: Rela): Word
    requires SymbolWord(dynsym, r.info) < |m|
  {
    (base + m[SymbolWord(dynsym, r.info)] + r.addend) % 0x1_0000_0000
  }

  /** The relocation is in the file image of the segment, and its symbol is where nothing is written. */
  predicate RelaOk(g: Segment, dynsym: nat, r: Rela, size: nat)
    requires g.filesz <= g.memsz
  {
    r.offset % 4 == 0 && g.vaddr <= r.offset < g.vaddr + g.filesz
    && SymbolWord(dynsym, r.info) < size && Untouched(g, SymbolWord(dynsym, r.info))
  }

  predicate Untouched(g: Segment, w: nat)
    requires g.filesz <= g.memsz
  {
    !InFile(g, w) && !InPlace(g, w) && !IsCleared(g, w)
  }

  predicate AllOk(g: Segment, dynsym: nat, rs: seq<Rela>, size: nat)
    requires g.filesz <= g.memsz
  {
    forall j :: 0 <= j < |rs| ==> RelaOk(g, dynsym, rs[j], size)
  }

  /** Every word patched and every symbol read is in memory. */
  predicate Indexable(rs: seq<Rela>, dynsym: nat, shift: nat, size: nat) {
    forall j :: 0 <= j < |rs| ==>
      shift <= rs[j].offset && (rs[j].offset - shift) / 4 < size && SymbolWord(dynsym, rs[j].info) < size
  }

  /** The relocations patched in order, each address lowered by `shift`. */
  function Patched(m: Image, base: Word, dynsym: nat, rs: seq<Rela>, shift: nat): (r: Image)
    requires Indexable(rs, dynsym, shift, |m|)
    ensures |r| == |m|
  {
    if rs == [] then m
    else
      var p, r := Patched(m, base, dynsym, rs[..|rs| - 1], shift), rs[|rs| - 1];
      p[(r.offset - shift) / 4 := Value(p, base, dynsym, r)]
  }

  /** Each relocation patches a word of its own, and reads a symbol no relocation patches. */
  ghost predicate Apart(rs: seq<Rela>, dynsym: nat, shift: nat) {
    (forall i, j :: 0 <= i < j < |rs| ==> (rs[i].offset - shift) / 4 != (rs[j].offset - shift) / 4)
    && (forall i, j :: 0 <= i < |rs| && 0 <= j < |rs| ==>
          dynsym + 4 * (rs[i].info / 256) + 1 != (rs[j].offset - shift) / 4)
  }

  /** The word at a byte offset holds base, the second word of the symbol's entry in the memory before, and addend. */
  predicate HoldsSum(m: Image, after: Image, offset: nat, base: Word, dynsym: nat, info: nat, addend: int) {
    offset / 4 < |after| && dynsym + 4 * (info / 256) + 1 < |m|
    && after[offset / 4] == (base + m[dynsym + 4 * (info / 256) + 1] + addend) % 0x1_0000_0000
  }

  /** Some relocation patches that word. */
  ghost predicate IsTarget(rs: seq<Rela>, shift: nat, w: int) {
    exists j :: 0 <= j < |rs| && w == (rs[j].offset - shift) / 4
  }

  /** The words patched hold base, symbol and addend; the others are as they were. */
  ghost predicate Relocates(m: Image, after: Image, base: Word, dynsym: nat, rs: seq<Rela>, shift: nat)
    requires Indexable(rs, dynsym, shift, |m|)
  {
    |after| == |m|
    && (forall j :: 0 <= j < |rs| ==>
          HoldsSum(m, after, rs[j].offset - shift, base, dynsym, rs[j].info, rs[j].addend))
    && forall w :: 0 <= w < |m| && !IsTarget(rs, shift, w) ==> after[w] == m[w]
  }

  lemma {:induction false} PatchedRelocates(m: Image, base: Word, dynsym: nat, rs: seq<Rela>, shift: nat)
    requires Indexable(rs, dynsym, shift, |m|) && Apart(rs, dynsym, shift)
    ensures Relocates(m, Patched(m, base, dynsym, rs, shift), base, dynsym, rs, shift)
  {
    if rs != [] {
      var k := |rs| - 1;
      var before, r := rs[..k], rs[k];
      assert forall j :: 0 <= j < k ==> rs[j] == before[j];
      ApartBefore(rs, dynsym, shift);
      PatchedRelocates(m, base, dynsym, before, shift);
      PatchOne(m, Patched(m, base, dynsym, before, shift), base, dynsym, rs, shift);
    }
  }

  lemma ApartBefore(rs: seq<Rela>, dynsym: nat, shift: nat)
    requires rs != [] && Apart(rs, dynsym, shift)
    ensures Apart(rs[..|rs| - 1], dynsym, shift)
  {
    var before := rs[..|rs| - 1];
    assert forall j :: 0 <= j < |before| ==> rs[j] == before[j];
  }

  lemma PatchOne(m: Image, p: Image, base: Word, dynsym: nat, rs: seq<Rela>, shift: nat)
    requires rs != [] && |p| == |m| && Indexable(rs, dynsym, shift, |m|) && Apart(rs, dynsym, shift)
    requires Relocates(m, p, base, dynsym, rs[..|rs| - 1], shift)
    ensures var r := rs[|rs| - 1];
            Relocates(m, p[(r.offset - shift) / 4 := Value(p, base, dynsym, r)], base, dynsym, rs, shift)
  {
    hide Value, IsTarget, HoldsSum;
    var k := |rs| - 1;
    var before, r := rs[..k], rs[k];
    var q := p[(r.offset - shift) / 4 := Value(p, base, dynsym, r)];
    SymbolNoTarget(rs, dynsym, shift);
    SumStored(m, p, base, dynsym, r, shift);
    forall w | 0 <= w < |m| && !IsTarget(rs, shift, w)
      ensures q[w] == m[w]
    {
      TargetBefore(rs, shift, w);
    }
    forall j | 0 <= j < k
      ensures HoldsSum(m, q, rs[j].offset - shift, base, dynsym, rs[j].info, rs[j].addend)
    {
      assert rs[j] == before[j] && (rs[j].offset - shift) / 4 != (r.offset - shift) / 4;
      SumMoves(m, p, q, rs[j].offset - shift, rs[j].offset - shift, base, dynsym, rs[j].info, rs[j].addend);
    }
  }

  lemma SymbolNoTarget(rs: seq<Rela>, dynsym: nat, shift: nat)
    requires rs != [] && Apart(rs, dynsym, shift)
    ensures !IsTarget(rs[..|rs| - 1], shift, dynsym + 4 * (rs[|rs| - 1].info / 256) + 1)
  {
    var before := rs[..|rs| - 1];
    assert forall j :: 0 <= j < |before| ==> rs[j] == before[j];
  }

  lemma SumStored(m: Image, p: Image, base: Word, dynsym: nat, r: Rela, shift: nat)
    requires shift <= r.offset && (r.offset - shift) / 4 < |p| && SymbolWord(dynsym, r.info) < |p| == |m|
    requires p[dynsym + 4 * (r.info / 256) + 1] == m[dynsym + 4 * (r.info / 256) + 1]
    ensures HoldsSum(m, p[(r.offset - shift) / 4 := Value(p, base, dynsym, r)], r.offset - shift, base, dynsym,
                     r.info, r.addend)
  {
  }

  lemma NothingPatched(m: Image, base: Word, dynsym: nat, rs: seq<Rela>, shift: nat)
    requires Indexable(rs, dynsym, shift, |m|)
    ensures Patched(m, base, dynsym, rs[..0], shift) == m
  {
  }

  lemma PatchedNext(m: Image, base: Word, dynsym: nat, rs: seq<Rela>, shift: nat, j: nat)
    requires Indexable(rs, dynsym, shift, |m|) && j < |rs|
    ensures var p := Patched(m, base, dynsym, rs[..j], shift);
            Patched(m, base, dynsym, rs[..j + 1], shift)
            == p[(rs[j].offset - shift) / 4 := Value(p, base, dynsym, rs[j])]
  {
    hide Value;
    assert rs[..j + 1][..j] == rs[..j];
  }

  method PatchAll(m: array<Word>, base: Word, dynsym: nat, rs: seq<Rela>, shift: nat)
    requires Indexable(rs, dynsym, shift, m.Length)
    modifies m
    ensures m[..] == Patched(old(m[..]), base, dynsym, rs, shift)
    ensures Apart(rs, dynsym, shift) ==> Relocates(old(m[..]), m[..], base, dynsym, rs, shift)
  {
    hide Value, Relocates, Apart;
    var j := 0;
    while j < |rs|
      invariant 0 <= j <= |rs| && m[..] == Patched(old(m[..]), base, dynsym, rs[..j], shift)
    {
      assert rs[..j + 1][..j] == rs[..j];
      var r := rs[j];
      m[(r.offset - shift) / 4] := Value(m[..], base, dynsym, r);
      j := j + 1;
    }
    assert rs[..j] == rs;
    if Apart(rs, dynsym, shift) { PatchedRelocates(old(m[..]), base, dynsym, rs, shift); }
  }

  predicate IsJumpSlot(r: Rela) { r.info % 0x100 == 5 }

  /** The relocations before the first that is not a jump slot. Jump slots have no addend. */
  function Slots(rs: seq<Rela>): (r: seq<Rela>)
    ensures |r| <= |rs|
    ensures forall j :: 0 <= j < |r| ==> IsJumpSlot(rs[j]) && r[j] == rs[j].(addend := 0)
    ensures |r| < |rs| ==> !IsJumpSlot(rs[|r|])
  {
    if rs == [] || !IsJumpSlot(rs[0]) then [] else [rs[0].(addend := 0)] + Slots(rs[1..])
  }

  lemma SlotsIndexable(rs: seq<Rela>, dynsym: nat, shift: nat, size: nat)
    requires Indexable(rs, dynsym, shift, size)
    ensures Indexable(Slots(rs), dynsym, shift, size)
  {
    forall j | 0 <= j < |Slots(rs)|
      ensures var r := Slots(rs)[j];
              shift <= r.offset && (r.offset - shift) / 4 < size && SymbolWord(dynsym, r.info) < size
    {
      assert Slots(rs)[j] == rs[j].(addend := 0);
    }
  }

  /** Patches jump slots until one has another type; ok if none has. */
  method PatchSlots(m: array<Word>, base: Word, dynsym: nat, rs: seq<Rela>, shift: nat) returns (ok: bool)
    requires Indexable(rs, dynsym, shift, m.Length)
    modifies m
    ensures Indexable(Slots(rs), dynsym, shift, m.Length)
    ensures m[..] == Patched(old(m[..]), base, dynsym, Slots(rs), shift) && (ok <==> |Slots(rs)| == |rs|)
  {
    hide Value, Patched, Slots;
    SlotsIndexable(rs, dynsym, shift, m.Length);
    NothingPatched(m[..], base, dynsym, Slots(rs), shift);
    var j := 0;
    while j < |rs|
      invariant 0 <= j <= |Slots(rs)| && m[..] == Patched(old(m[..]), base, dynsym, Slots(rs)[..j], shift)
    {
      if !IsJumpSlot(rs[j]) {
        assert Slots(rs)[..j] == Slots(rs);
        return false;
      }
      PatchedNext(old(m[..]), base, dynsym, Slots(rs), shift, j);
      var r := rs[j].(addend := 0);
      m[(r.offset - shift) / 4] := Value(m[..], base, dynsym, r);
      j := j + 1;
    }
    assert Slots(rs)[..j] == Slots(rs);
    return true;
  }

  lemma {:induction false} PatchedConcat(m: Image, base: Word, dynsym: nat, a: seq<Rela>, b: seq<Rela>, shift: nat)
    requires Indexable(a, dynsym, shift, |m|) && Indexable(b, dynsym, shift, |m|)
    ensures Indexable(a + b, dynsym, shift, |m|)
    ensures Patched(Patched(m, base, dynsym, a, shift), base, dynsym, b, shift)
         == Patched(m, base, dynsym, a + b, shift)
  {
    hide Value;
    if b == [] {
      assert a + b == a;
    } else {
      var c := b[..|b| - 1];
      PatchedConcat(m, base, dynsym, a, c, shift);
      assert (a + b)[..|a + b| - 1] == a + c;
    }
  }

  // ---------------------------------------------------------------- libraries

  /** A function of the library, by name. */
  datatype Entry = Entry(name: string, addr: Word)

  /** A shared library: its functions are listed, it is patched where the segment still is, then moved. It gives
      up at a relocation of the wrong type, the segment not moved. */
  method LoadSharedLibrary(m: array<Word>, base: Word, g: Segment, dynsym: nat, names: seq<string>,
                           dyn: seq<Rela>, plt: seq<Rela>)
    returns (status: int, tbl: seq<Entry>)
    requires Fits(g, m.Length)
    requires dynsym + 4 * |names| <= m.Length
    requires Indexable(dyn, dynsym, g.vaddr - g.offset, m.Length)
    requires Indexable(plt, dynsym, g.vaddr - g.offset, m.Length)
    modifies m
    ensures |tbl| == |names|
    ensures forall j :: 0 <= j < |names| ==>
              tbl[j] == Entry(names[j], (base + old(m[dynsym + 4 * j + 1])) % 0x1_0000_0000)
    ensures status == 0 || status == -1
    ensures status == -1 <==> exists j :: 0 <= j < |plt| && plt[j].info % 256 != 5
    ensures Indexable(dyn + Slots(plt), dynsym, g.vaddr - g.offset, m.Length)
    ensures var p := Patched(old(m[..]), base, dynsym, dyn + Slots(plt), g.vaddr - g.offset);
            m[..] == if status == 0 then Placed(p, g) else p
    ensures status == 0 && LoadsApart(g, dynsym, dyn + plt, m.Length)
            ==> LibraryLoaded(old(m[..]), m[..], base, g, dynsym, dyn, plt)
  {
    hide Patched, Placed, Fits, LoadsApart, LibraryLoaded, Indexable;
    ghost var before := m[..];
    tbl := ListFunctions(m, base, dynsym, names);
    WordsOf(g, m.Length);
    var shift := g.vaddr - g.offset;
    PatchAll(m, base, dynsym, dyn, shift);
    var ok := PatchSlots(m, base, dynsym, plt, shift);
    PatchedConcat(before, base, dynsym, dyn, Slots(plt), shift);
    if !ok {
      assert plt[|Slots(plt)|].info % 256 != 5;
      return -1, tbl;
    }
    PlaceSegment(m, g);
    if LoadsApart(g, dynsym, dyn + plt, m.Length) {
      LibraryPlaced(before, base, g, dynsym, dyn, plt);
    }
    return 0, tbl;
  }

  method ListFunctions(m: array<Word>, base: Word, dynsym: nat, names: seq<string>) returns (tbl: seq<Entry>)
    requires dynsym + 4 * |names| <= m.Length
    ensures |tbl| == |names|
    ensures forall j :: 0 <= j < |names| ==> tbl[j] == Entry(names[j], (base + m[dynsym + 4 * j + 1]) % 0x1_0000_0000)
  {
    tbl := [];
    for j := 0 to |names|
      invariant |tbl| == j
      invariant forall i :: 0 <= i < j ==> tbl[i] == Entry(names[i], (base + m[dynsym + 4 * i + 1]) % 0x1_0000_0000)
    {
      tbl := tbl + [Entry(names[j], (base + m[dynsym + 4 * j + 1]) % 0x1_0000_0000)];
    }
  }

  /** Words of the file image, of its place after the move, and those the clearing loop writes. */
  predicate Written(g: Segment, w: int)
    requires g.filesz <= g.memsz
  {
    g.offset / 4 <= w < (g.offset + g.filesz) / 4 || g.vaddr / 4 <= w < (g.vaddr + g.filesz) / 4
    || (g.vaddr + (g.memsz - g.filesz)) / 4 <= w < (g.vaddr + 2 * (g.memsz - g.filesz)) / 4
  }

  /** Relocations of distinct words of the segment's file image, against symbols where nothing is written; and
      the clearing loop misses the image. */
  ghost predicate LoadsApart(g: Segment, dynsym: nat, rs: seq<Rela>, size: nat)
    requires g.filesz <= g.memsz
  {
    ClearsPastImage(g)
    && (forall i, j :: 0 <= i < j < |rs| ==> rs[i].offset != rs[j].offset)
    && forall j :: 0 <= j < |rs| ==>
         rs[j].offset % 4 == 0 && g.vaddr <= rs[j].offset < g.vaddr + g.filesz
         && dynsym + 4 * (rs[j].info / 256) + 1 < size && !Written(g, dynsym + 4 * (rs[j].info / 256) + 1)
  }

  /** Every word but the relocated ones: those of the file in the segment's place, zeros where words are cleared,
      and what was there elsewhere. */
  ghost predicate RestIsFile(m: Image, after: Image, g: Segment, rs: seq<Rela>)
    requires Fits(g, |m|)
  {
    |after| == |m|
    && forall w :: 0 <= w < |m| && !IsTarget(rs, 0, w) ==> RestAt(m, after, g, w)
  }

  predicate RestAt(m: Image, after: Image, g: Segment, w: nat)
    requires Fits(g, |m|) && |after| == |m| && w < |m|
  {
    if g.vaddr <= 4 * w < g.vaddr + g.filesz then after[w] == m[w - (g.vaddr - g.offset) / 4]
    else if Written(g, w) then g.offset <= 4 * w < g.offset + g.filesz || after[w] == 0
    else after[w] == m[w]
  }

  /** A library after loading, in terms of the memory before: relocations of a link against a symbol with an
      addend, jump slots without, and the rest as it was in the file. */
  ghost predicate LibraryLoaded(m: Image, after: Image, base: Word, g: Segment, dynsym: nat,
                                dyn: seq<Rela>, plt: seq<Rela>)
    requires Fits(g, |m|)
  {
    RestIsFile(m, after, g, dyn + plt)
    && (forall j :: 0 <= j < |dyn| ==> HoldsSum(m, after, dyn[j].offset, base, dynsym, dyn[j].info, dyn[j].addend))
    && forall j :: 0 <= j < |plt| ==> HoldsSum(m, after, plt[j].offset, base, dynsym, plt[j].info, 0)
  }

  lemma InPlaceIsRaw(g: Segment, size: nat, w: nat)
    requires Fits(g, size)
    ensures InPlace(g, w) <==> g.vaddr <= 4 * w < g.vaddr + g.filesz
    ensures InFile(g, w) <==> g.offset <= 4 * w < g.offset + g.filesz
    ensures Written(g, w) <==> InFile(g, w) || InPlace(g, w) || IsCleared(g, w)
    ensures To(g) - From(g) == (g.vaddr - g.offset) / 4
    ensures InPlace(g, w) && w < size ==> 0 <= w - To(g) + From(g) < size
  {
    hide Fits;
    WordsOf(g, size);
    assert (g.vaddr + (g.memsz - g.filesz)) / 4 == To(g) + Bss(g);
    assert (g.vaddr + 2 * (g.memsz - g.filesz)) / 4 == To(g) + 2 * Bss(g);
  }

  /** The lowered address of a relocation is its word of the file image. */
  lemma Lowered(g: Segment, size: nat, r: Rela)
    requires Fits(g, size) && r.offset % 4 == 0 && g.vaddr <= r.offset < g.vaddr + g.filesz
    ensures InPlace(g, r.offset / 4) && r.offset / 4 < size && 4 * (r.offset / 4) == r.offset
    ensures (r.offset - (g.vaddr - g.offset)) / 4 == r.offset / 4 - To(g) + From(g)
    ensures InFile(g, r.offset / 4 - To(g) + From(g)) && 0 <= r.offset / 4 - To(g) + From(g) < size
  {
  }

  lemma LoweredApart(g: Segment, dynsym: nat, rs: seq<Rela>, size: nat)
    requires Fits(g, size) && LoadsApart(g, dynsym, rs, size)
    ensures Apart(rs, dynsym, g.vaddr - g.offset) && Apart(rs, dynsym, 0)
  {
    hide Fits, LoadsApart;
    forall i, j | 0 <= i < j < |rs|
      ensures (rs[i].offset - (g.vaddr - g.offset)) / 4 != (rs[j].offset - (g.vaddr - g.offset)) / 4
      ensures rs[i].offset / 4 != rs[j].offset / 4
    {
      TwoTargets(g, dynsym, rs, size, i, j);
    }
    forall i, j | 0 <= i < |rs| && 0 <= j < |rs|
      ensures var sym := dynsym + 4 * (rs[i].info / 256) + 1;
              sym != (rs[j].offset - (g.vaddr - g.offset)) / 4 && sym != rs[j].offset / 4
    {
      SymbolIsElsewhere(g, dynsym, rs, size, i, j);
    }
  }

  lemma TwoTargets(g: Segment, dynsym: nat, rs: seq<Rela>, size: nat, i: nat, j: nat)
    requires Fits(g, size) && LoadsApart(g, dynsym, rs, size) && i < j < |rs|
    ensures (rs[i].offset - (g.vaddr - g.offset)) / 4 != (rs[j].offset - (g.vaddr - g.offset)) / 4
    ensures rs[i].offset / 4 != rs[j].offset / 4
  {
    hide Fits, Written, ClearsPastImage, From, To, InPlace, InFile;
    Lowered(g, size, rs[i]);
    Lowered(g, size, rs[j]);
  }

  lemma SymbolIsElsewhere(g: Segment, dynsym: nat, rs: seq<Rela>, size: nat, i: nat, j: nat)
    requires Fits(g, size) && LoadsApart(g, dynsym, rs, size) && i < |rs| && j < |rs|
    ensures var sym := dynsym + 4 * (rs[i].info / 256) + 1;
            sym != (rs[j].offset - (g.vaddr - g.offset)) / 4 && sym != rs[j].offset / 4
  {
    hide Fits, Written, ClearsPastImage, From, To, InPlace, InFile, IsCleared;
    Lowered(g, size, rs[j]);
    InPlaceIsRaw(g, size, dynsym + 4 * (rs[i].info / 256) + 1);
  }

  lemma LibraryPlaced(m: Image, base: Word, g: Segment, dynsym: nat, dyn: seq<Rela>, plt: seq<Rela>)
    requires Fits(g, |m|) && LoadsApart(g, dynsym, dyn + plt, |m|) && |Slots(plt)| == |plt|
    requires Indexable(dyn + Slots(plt), dynsym, g.vaddr - g.offset, |m|)
    ensures LibraryLoaded(m, Placed(Patched(m, base, dynsym, dyn + Slots(plt), g.vaddr - g.offset), g),
                          base, g, dynsym, dyn, plt)
  {
    hide Fits, Placed, Indexable, Patched, RestIsFile, Relocates, Apart, LoadsApart, HoldsSum, IsJumpSlot;
    var rs, all, shift := dyn + Slots(plt), dyn + plt, g.vaddr - g.offset;
    forall j | 0 <= j < |rs|
      ensures rs[j].offset == all[j].offset && rs[j].info == all[j].info
    {
      if j >= |dyn| { assert rs[j] == plt[j - |dyn|].(addend := 0); }
    }
    WordsOf(g, |m|);
    LoadsApartSame(g, dynsym, all, rs, |m|);
    LoweredApart(g, dynsym, rs, |m|);
    PatchedRelocates(m, base, dynsym, rs, shift);
    var p := Patched(m, base, dynsym, rs, shift);
    var after := Placed(p, g);
    LibraryRest(m, p, base, g, dynsym, rs);
    RestSame(m, after, g, rs, all);
    forall j | 0 <= j < |dyn|
      ensures HoldsSum(m, after, dyn[j].offset, base, dynsym, dyn[j].info, dyn[j].addend)
    {
      LibraryPatch(m, p, base, g, dynsym, rs, j);
    }
    forall j | 0 <= j < |plt|
      ensures HoldsSum(m, after, plt[j].offset, base, dynsym, plt[j].info, 0)
    {
      LibraryPatch(m, p, base, g, dynsym, rs, |dyn| + j);
    }
  }

  lemma LoadsApartSame(g: Segment, dynsym: nat, a: seq<Rela>, b: seq<Rela>, size: nat)
    requires g.filesz <= g.memsz && LoadsApart(g, dynsym, a, size) && |a| == |b|
    requires forall j :: 0 <= j < |a| ==> b[j].offset == a[j].offset && b[j].info == a[j].info
    ensures LoadsApart(g, dynsym, b, size)
  {
    hide Written, ClearsPastImage;
  }

  lemma RestSame(m: Image, after: Image, g: Segment, a: seq<Rela>, b: seq<Rela>)
    requires Fits(g, |m|) && |a| == |b| && forall j :: 0 <= j < |a| ==> a[j].offset == b[j].offset
    ensures RestIsFile(m, after, g, a) ==> RestIsFile(m, after, g, b)
  {
  }

  lemma LibraryRest(m: Image, p: Image, base: Word, g: Segment, dynsym: nat, rs: seq<Rela>)
    requires Fits(g, |m|) && LoadsApart(g, dynsym, rs, |m|) && Indexable(rs, dynsym, g.vaddr - g.offset, |m|)
    requires Relocates(m, p, base, dynsym, rs, g.vaddr - g.offset)
    ensures RestIsFile(m, Placed(p, g), g, rs)
  {
    hide Fits, Placed, Indexable, From, To, InPlace, InFile, IsCleared, Written, ClearsPastImage, IsTarget;
    ClearsOutsideIff(g, |m|);
    forall w | 0 <= w < |m| && !IsTarget(rs, 0, w)
      ensures RestAt(m, Placed(p, g), g, w)
    {
      PlacedIsMove(p, g, w);
      InPlaceIsRaw(g, |m|, w);
      NoTarget(g, dynsym, rs, |m|, w);
      if InPlace(g, w) {
        assert p[w - To(g) + From(g)] == m[w - To(g) + From(g)];
      } else if !InFile(g, w) {
        assert p[w] == m[w];
      }
    }
  }

  lemma NoTarget(g: Segment, dynsym: nat, rs: seq<Rela>, size: nat, w: nat)
    requires Fits(g, size) && LoadsApart(g, dynsym, rs, size) && w < size && !IsTarget(rs, 0, w)
    ensures InPlace(g, w) ==> !IsTarget(rs, g.vaddr - g.offset, w - To(g) + From(g))
    ensures !InFile(g, w) ==> !IsTarget(rs, g.vaddr - g.offset, w)
  {
    hide Fits, From, To, InPlace, InFile, IsCleared, Written, ClearsPastImage;
    forall j | 0 <= j < |rs|
      ensures w - To(g) + From(g) != (rs[j].offset - (g.vaddr - g.offset)) / 4
      ensures !InFile(g, w) ==> w != (rs[j].offset - (g.vaddr - g.offset)) / 4
    {
      Lowered(g, size, rs[j]);
      assert w != (rs[j].offset - 0) / 4;
    }
  }

  lemma LibraryPatch(m: Image, p: Image, base: Word, g: Segment, dynsym: nat, rs: seq<Rela>, j: nat)
    requires Fits(g, |m|) && LoadsApart(g, dynsym, rs, |m|) && Indexable(rs, dynsym, g.vaddr - g.offset, |m|)
    requires Relocates(m, p, base, dynsym, rs, g.vaddr - g.offset) && j < |rs|
    ensures HoldsSum(m, Placed(p, g), rs[j].offset, base, dynsym, rs[j].info, rs[j].addend)
  {
    hide Fits, Placed, Indexable, From, To, InPlace, InFile, ClearsPastImage, Written, HoldsSum, IsTarget;
    ClearsOutsideIff(g, |m|);
    Lowered(g, |m|, rs[j]);
    PlacedIsMove(p, g, rs[j].offset / 4);
    SumMoves(m, p, Placed(p, g), rs[j].offset - (g.vaddr - g.offset), rs[j].offset, base, dynsym,
             rs[j].info, rs[j].addend);
  }

  lemma SumMoves(m: Image, p: Image, q: Image, from: nat, to: nat, base: Word, dynsym: nat, info: nat, addend: int)
    requires HoldsSum(m, p, from, base, dynsym, info, addend) && to / 4 < |q| && from / 4 < |p|
    requires q[to / 4] == p[from / 4]
    ensures HoldsSum(m, q, to, base, dynsym, info, addend)
  {
  }

  // ---------------------------------------------------------------- programs

  /** The address of the first function of that name, or -1. */
  function AddressOf(tbl: seq<Entry>, name: string): (addr: Word)
    ensures (forall i :: 0 <= i < |tbl| ==> tbl[i].name != name) ==> addr == 0xffff_ffff
    ensures forall i :: 0 <= i < |tbl| && tbl[i].name == name && (forall k :: 0 <= k < i ==> tbl[k].name != name)
              ==> addr == tbl[i].addr
  {
    if tbl == [] then 0xffff_ffff else if tbl[0].name == name then tbl[0].addr else AddressOf(tbl[1..], name)
  }

  method FindFunction(tbl: seq<Entry>, name: string) returns (addr: Word)
    ensures addr == AddressOf(tbl, name)
  {
    for i := 0 to |tbl|
      invariant forall k :: 0 <= k < i ==> tbl[k].name != name
    {
      if tbl[i].name == name { return tbl[i].addr; }
    }
    return 0xffff_ffff;
  }

  /** Jump slots set in order to the addresses of the functions named. */
  function Linked(m: Image, plt: seq<Rela>, tbl: seq<Entry>, names: seq<string>): (r: Image)
    requires |names| == |plt| && forall j :: 0 <= j < |plt| ==> plt[j].offset / 4 < |m|
    ensures |r| == |m|
  {
    if plt == [] then m
    else
      var k := |plt| - 1;
      Linked(m, plt[..k], tbl, names[..k])[plt[k].offset / 4 := AddressOf(tbl, names[k])]
  }

  lemma {:induction false} LinkedSlot(m: Image, plt: seq<Rela>, tbl: seq<Entry>, names: seq<string>, j: nat)
    requires |names| == |plt| && forall i :: 0 <= i < |plt| ==> plt[i].offset / 4 < |m|
    requires j < |plt| && forall i :: j < i < |plt| ==> plt[i].offset / 4 != plt[j].offset / 4
    ensures Linked(m, plt, tbl, names)[plt[j].offset / 4] == AddressOf(tbl, names[j])
    decreases |plt|
  {
    hide AddressOf;
    var k := |plt| - 1;
    if j < k { LinkedSlot(m, plt[..k], tbl, names[..k], j); }
  }

  lemma {:induction false} LinkedKeeps(m: Image, plt: seq<Rela>, tbl: seq<Entry>, names: seq<string>, w: nat)
    requires |names| == |plt| && forall j :: 0 <= j < |plt| ==> plt[j].offset / 4 < |m|
    requires w < |m| && !IsTarget(plt, 0, w)
    ensures Linked(m, plt, tbl, names)[w] == m[w]
    decreases |plt|
  {
    hide AddressOf, IsTarget;
    if plt != [] {
      TargetBefore(plt, 0, w);
      LinkedKeeps(m, plt[..|plt| - 1], tbl, names[..|plt| - 1], w);
    }
  }

  lemma TargetBefore(rs: seq<Rela>, shift: nat, w: int)
    requires rs != [] && !IsTarget(rs, shift, w)
    ensures !IsTarget(rs[..|rs| - 1], shift, w) && w != (rs[|rs| - 1].offset - shift) / 4
  {
    var k := |rs| - 1;
    assert w != (rs[k].offset - shift) / 4;
    forall j | 0 <= j < k
      ensures w != (rs[..k][j].offset - shift) / 4
    {
      assert rs[..k][j] == rs[j];
    }
  }

  /** A program after loading, in terms of the memory before: relocations as in a library, and each jump slot the
      address of the library's function of its name. */
  ghost predicate ProgramLoaded(m: Image, after: Image, base: Word, g: Segment, dynsym: nat, dyn: seq<Rela>,
                                plt: seq<Rela>, tbl: seq<Entry>, names: seq<string>)
    requires Fits(g, |m|) && |names| == |plt|
  {
    RestIsFile(m, after, g, dyn + plt)
    && (forall j :: 0 <= j < |dyn| ==> HoldsSum(m, after, dyn[j].offset, base, dynsym, dyn[j].info, dyn[j].addend))
    && forall j :: 0 <= j < |plt| ==>
         var at := plt[j].offset / 4; at < |after| && after[at] == AddressOf(tbl, names[j])
  }

  /** A program: the segment moved, its jump slots set, then patched in place. It gives up at a jump slot of the
      wrong type with nothing written. */
  method LoadDynamicExec(m: array<Word>, base: Word, g: Segment, dynsym: nat, dyn: seq<Rela>,
                         plt: seq<Rela>, tbl: seq<Entry>, names: seq<string>)
    returns (status: int)
    requires Fits(g, m.Length) && Indexable(dyn, dynsym, 0, m.Length)
    requires |names| == |plt| && forall j :: 0 <= j < |plt| ==> plt[j].offset / 4 < m.Length
    modifies m
    ensures status == 0 || status == -1
    ensures status == -1 <==> exists j :: 0 <= j < |plt| && plt[j].info % 256 != 5
    ensures m[..] == if status == 0 then Patched(Linked(Placed(old(m[..]), g), plt, tbl, names), base, dynsym, dyn, 0)
                     else old(m[..])
    ensures status == 0 && LoadsApart(g, dynsym, dyn + plt, m.Length)
            ==> ProgramLoaded(old(m[..]), m[..], base, g, dynsym, dyn, plt, tbl, names)
  {
    hide Patched, Placed, Fits, LoadsApart, ProgramLoaded, Indexable;
    ghost var before := m[..];
    var j := 0;
    while j < |plt|
      invariant 0 <= j <= |plt|
      invariant forall i :: 0 <= i < j ==> plt[i].info % 256 == 5
    {
      if !IsJumpSlot(plt[j]) { return -1; }
      j := j + 1;
    }
    PlaceSegment(m, g);
    ghost var p := m[..];
    j := 0;
    while j < |plt|
      invariant 0 <= j <= |plt| && m[..] == Linked(p, plt[..j], tbl, names[..j])
    {
      assert plt[..j + 1][..j] == plt[..j] && names[..j + 1][..j] == names[..j];
      m[plt[j].offset / 4] := FindFunction(tbl, names[j]);
      j := j + 1;
    }
    assert plt[..j] == plt && names[..j] == names;
    PatchAll(m, base, dynsym, dyn, 0);
    WordsOf(g, m.Length);
    if LoadsApart(g, dynsym, dyn + plt, m.Length) {
      ProgramPlaced(before, base, g, dynsym, dyn, plt, tbl, names);
    }
    return 0;
  }

  lemma ProgramPlaced(m: Image, base: Word, g: Segment, dynsym: nat, dyn: seq<Rela>,
                      plt: seq<Rela>, tbl: seq<Entry>, names: seq<string>)
    requires Fits(g, |m|) && Indexable(dyn, dynsym, 0, |m|) && LoadsApart(g, dynsym, dyn + plt, |m|)
    requires |names| == |plt| && forall j :: 0 <= j < |plt| ==> plt[j].offset / 4 < |m|
    ensures ProgramLoaded(m, Patched(Linked(Placed(m, g), plt, tbl, names), base, dynsym, dyn, 0),
                          base, g, dynsym, dyn, plt, tbl, names)
  {
    hide Fits, Placed, Indexable, Patched, Linked, RestAt, Written, ClearsPastImage, AddressOf;
    hide From, To, InPlace, InFile, IsCleared, HoldsSum, IsTarget;
    WordsOf(g, |m|);
    ClearsOutsideIff(g, |m|);
    var placed := Placed(m, g);
    var linked := Linked(placed, plt, tbl, names);
    var after := Patched(linked, base, dynsym, dyn, 0);
    AllApart(g, dynsym, dyn, plt, |m|);
    forall w | 0 <= w < |m| && !IsTarget(plt, 0, w)
      ensures linked[w] == placed[w]
    {
      LinkedKeeps(placed, plt, tbl, names, w);
    }
    PatchedRelocates(linked, base, dynsym, dyn, 0);
    forall j | 0 <= j < |dyn|
      ensures HoldsSum(m, after, dyn[j].offset, base, dynsym, dyn[j].info, dyn[j].addend)
    {
      assert HoldsSum(linked, after, dyn[j].offset - 0, base, dynsym, dyn[j].info, dyn[j].addend);
      SymbolKept(m, linked, g, dynsym, dyn, plt, j);
      SumSame(m, linked, after, dyn[j].offset, base, dynsym, dyn[j].info, dyn[j].addend);
    }
    forall j | 0 <= j < |plt|
      ensures plt[j].offset / 4 < |after| && after[plt[j].offset / 4] == AddressOf(tbl, names[j])
    {
      LinkedSlot(placed, plt, tbl, names, j);
      assert !IsTarget(dyn, 0, plt[j].offset / 4);
    }
    forall w | 0 <= w < |m| && !IsTarget(dyn + plt, 0, w)
      ensures RestAt(m, after, g, w)
    {
      TargetOfEither(dyn, plt, w);
      assert after[w] == linked[w];
      PlacedIsRest(m, after, g, w);
    }
  }

  lemma TargetOfEither(a: seq<Rela>, b: seq<Rela>, w: int)
    ensures IsTarget(a + b, 0, w) <==> IsTarget(a, 0, w) || IsTarget(b, 0, w)
  {
    if j :| 0 <= j < |a| && w == (a[j].offset - 0) / 4 { assert (a + b)[j] == a[j]; }
    if j :| 0 <= j < |b| && w == (b[j].offset - 0) / 4 { assert (a + b)[|a| + j] == b[j]; }
  }

  lemma SumSame(m: Image, n: Image, after: Image, offset: nat, base: Word, dynsym: nat, info: nat, addend: int)
    requires HoldsSum(n, after, offset, base, dynsym, info, addend) && |m| == |n|
    requires m[dynsym + 4 * (info / 256) + 1] == n[dynsym + 4 * (info / 256) + 1]
    ensures HoldsSum(m, after, offset, base, dynsym, info, addend)
  {
  }

  /** Moving and linking leave the symbols as they were. */
  lemma SymbolKept(m: Image, linked: Image, g: Segment, dynsym: nat, dyn: seq<Rela>, plt: seq<Rela>, j: nat)
    requires Fits(g, |m|) && LoadsApart(g, dynsym, dyn + plt, |m|) && j < |dyn| && |linked| == |m|
    requires forall w :: 0 <= w < |m| && !IsTarget(plt, 0, w) ==> linked[w] == Placed(m, g)[w]
    ensures var sym := dynsym + 4 * (dyn[j].info / 256) + 1; sym < |m| && linked[sym] == m[sym]
  {
    hide Fits, Placed, From, To, InPlace, InFile, IsCleared, Written, ClearsPastImage;
    var sym := dynsym + 4 * (dyn[j].info / 256) + 1;
    assert (dyn + plt)[j] == dyn[j];
    ClearsOutsideIff(g, |m|);
    InPlaceIsRaw(g, |m|, sym);
    PlacedIsMove(m, g, sym);
    AllApart(g, dynsym, dyn, plt, |m|);
  }

  lemma PlacedIsRest(m: Image, after: Image, g: Segment, w: nat)
    requires Fits(g, |m|) && ClearsOutside(g) && |after| == |m| && w < |m| && after[w] == Placed(m, g)[w]
    ensures RestAt(m, after, g, w)
  {
    hide Fits, Placed, From, To, InPlace, InFile, IsCleared, Written;
    PlacedIsMove(m, g, w);
    InPlaceIsRaw(g, |m|, w);
  }

  /** Relocations and jump slots are distinct words, and no symbol is one of them. */
  lemma AllApart(g: Segment, dynsym: nat, dyn: seq<Rela>, plt: seq<Rela>, size: nat)
    requires Fits(g, size) && LoadsApart(g, dynsym, dyn + plt, size)
    ensures Apart(dyn, dynsym, 0)
    ensures forall i, j :: 0 <= i < j < |plt| ==> plt[i].offset / 4 != plt[j].offset / 4
    ensures forall j :: 0 <= j < |plt| ==> !IsTarget(dyn, 0, plt[j].offset / 4)
    ensures forall i :: 0 <= i < |dyn| ==> !IsTarget(plt, 0, dynsym + 4 * (dyn[i].info / 256) + 1)
  {
    hide Fits, LoadsApart;
    var all := dyn + plt;
    LoweredApart(g, dynsym, all, size);
    assert forall j :: 0 <= j < |dyn| ==> all[j] == dyn[j];
    assert forall j :: 0 <= j < |plt| ==> all[|dyn| + j] == plt[j];
    forall j | 0 <= j < |plt|
      ensures !IsTarget(dyn, 0, plt[j].offset / 4)
    {
      assert all[|dyn| + j] == plt[j];
    }
  }

  // ---------------------------------------------------------------- the order does not matter

  /** The part of the file image the moved segment does not cover; nothing refers to it after the move. */
  predicate LeftBehind(g: Segment, w: int) { InFile(g, w) && !InPlace(g, w) }

  /** The clearing loop does not reach into the file image. */
  ghost predicate ClearsOutside(g: Segment)
    requires g.filesz <= g.memsz
  {
    forall w :: InFile(g, w) ==> !IsCleared(g, w)
  }

  lemma AllOkIndexable(g: Segment, dynsym: nat, rs: seq<Rela>, size: nat)
    requires Fits(g, size) && AllOk(g, dynsym, rs, size)
    ensures Indexable(rs, dynsym, g.vaddr - g.offset, size) && Indexable(rs, dynsym, 0, size)
  {
    hide Untouched, SymbolWord, Aligned;
    forall j | 0 <= j < |rs|
      ensures g.vaddr - g.offset <= rs[j].offset
      ensures (rs[j].offset - (g.vaddr - g.offset)) / 4 < size && rs[j].offset / 4 < size
    {
      assert RelaOk(g, dynsym, rs[j], size);
      Targets(g, dynsym, rs[j], size);
    }
  }

  /** The move is right though the places overlap: every word of the file image arrives, and nothing but its
      destination and the cleared words changes. */
  lemma PlacedIsMove(m: Image, g: Segment, w: nat)
    requires Fits(g, |m|) && ClearsOutside(g) && w < |m|
    ensures InPlace(g, w) ==> InFile(g, w - To(g) + From(g)) && Placed(m, g)[w] == m[w - To(g) + From(g)]
    ensures !InPlace(g, w) ==> Placed(m, g)[w] == if IsCleared(g, w) then 0 else m[w]
  {
    WordsOf(g, |m|);
    assert InPlace(g, w) ==> InFile(g, w - To(g) + From(g));
  }

  /** The clearing loop misses the file image: it writes nothing, the image is empty or ends before the words
      cleared begin. */
  predicate ClearsPastImage(g: Segment)
    requires g.filesz <= g.memsz
  {
    g.memsz == g.filesz || g.filesz == 0 || g.offset + g.filesz <= g.vaddr + (g.memsz - g.filesz)
  }

  lemma ClearsOutsideIff(g: Segment, size: nat)
    requires Fits(g, size)
    ensures ClearsOutside(g) <==> ClearsPastImage(g)
  {
    WordsOf(g, size);
    var w := if From(g) > To(g) + Bss(g) then From(g) else To(g) + Bss(g);
    if !ClearsPastImage(g) { assert InFile(g, w) && IsCleared(g, w); }
  }

  /** Every word of the file image arrives. */
  ghost predicate Arrives(m: Image, g: Segment)
    requires Fits(g, |m|)
  {
    forall w :: 0 <= w < |m| && InPlace(g, w) ==>
      0 <= w - To(g) + From(g) < |m| && Placed(m, g)[w] == m[w - To(g) + From(g)]
  }

  /** The move is right for every memory exactly when the clearing loop misses the file image. */
  lemma MoveIsRightIff(g: Segment, size: nat)
    requires Fits(g, size)
    ensures (forall m: Image :: |m| == size ==> Arrives(m, g)) <==> ClearsPastImage(g)
  {
    WordsOf(g, size);
    ClearsOutsideIff(g, size);
    if ClearsPastImage(g) {
      forall m: Image | |m| == size
        ensures Arrives(m, g)
      {
        forall w | 0 <= w < |m| && InPlace(g, w)
          ensures 0 <= w - To(g) + From(g) < |m| && Placed(m, g)[w] == m[w - To(g) + From(g)]
        {
          PlacedIsMove(m, g, w);
        }
      }
    } else {
      ClearedWordArrives(g, size);
    }
  }

  lemma ClearedWordArrives(g: Segment, size: nat)
    requires Fits(g, size) && !ClearsOutside(g)
    ensures exists m: Image :: |m| == size && !Arrives(m, g)
  {
    hide Placed, Fits;
    WordsOf(g, size);
    var x :| InFile(g, x) && IsCleared(g, x);
    var m: Image := seq(size, _ => 1);
    var w := x - From(g) + To(g);
    PlacedClears(m, g, x);
    assert m[x] == 1;
  }

  lemma PlacedClears(m: Image, g: Segment, x: nat)
    requires Fits(g, |m|) && InFile(g, x) && IsCleared(g, x)
    ensures var w := x - From(g) + To(g); 0 <= x < |m| && 0 <= w < |m| && InPlace(g, w) && Placed(m, g)[w] == 0
  {
    WordsOf(g, |m|);
  }

  lemma Targets(g: Segment, dynsym: nat, r: Rela, size: nat)
    requires Fits(g, size) && RelaOk(g, dynsym, r, size)
    ensures var at, file := r.offset / 4, (r.offset - (g.vaddr - g.offset)) / 4;
            InPlace(g, at) && InFile(g, file) && file == at - To(g) + From(g) && at < size && file < size
  {
  }

  /** Both orders agree on every word that is not left behind. */
  predicate Agree(a: Image, b: Image, g: Segment) {
    |a| == |b| && forall w :: 0 <= w < |a| && !LeftBehind(g, w) ==> a[w] == b[w]
  }

  lemma PatchMoves(a: Image, b: Image, base: Word, g: Segment, dynsym: nat, r: Rela)
    requires Fits(g, |a|) && ClearsOutside(g) && RelaOk(g, dynsym, r, |a|) && Agree(Placed(a, g), b, g)
    ensures var at, file := r.offset / 4, (r.offset - (g.vaddr - g.offset)) / 4;
            at < |a| && file < |a|
            && Agree(Placed(a[file := Value(a, base, dynsym, r)], g), b[at := Value(b, base, dynsym, r)], g)
  {
    hide Placed, Aligned, From, To, Len, Bss;
    var at, file := r.offset / 4, (r.offset - (g.vaddr - g.offset)) / 4;
    Targets(g, dynsym, r, |a|);
    var sym := SymbolWord(dynsym, r.info);
    PlacedIsMove(a, g, sym);
    assert !LeftBehind(g, sym) && Placed(a, g)[sym] == b[sym];
    assert Value(a, base, dynsym, r) == Value(b, base, dynsym, r);
    var a1, b1 := a[file := Value(a, base, dynsym, r)], b[at := Value(b, base, dynsym, r)];
    forall w | 0 <= w < |a| && !LeftBehind(g, w)
      ensures Placed(a1, g)[w] == b1[w]
    {
      PlacedIsMove(a, g, w);
      PlacedIsMove(a1, g, w);
      assert Placed(a, g)[w] == b[w];
      if InPlace(g, w) {
        var x := w - To(g) + From(g);
        assert InFile(g, x) && Placed(a, g)[w] == a[x] && Placed(a1, g)[w] == a1[x];
        assert x == file <==> w == at;
      } else {
        assert w != file && w != at;
      }
    }
  }

  /** Main result: patching before the move at the lowered addresses gives the same memory as patching after it,
      but for what the segment leaves behind. */
  lemma {:induction false} PatchingCommutesWithMove(m: Image, base: Word, g: Segment, dynsym: nat, rs: seq<Rela>)
    requires Fits(g, |m|) && ClearsPastImage(g) && AllOk(g, dynsym, rs, |m|)
    ensures Indexable(rs, dynsym, g.vaddr - g.offset, |m|) && Indexable(rs, dynsym, 0, |m|)
    ensures Agree(Placed(Patched(m, base, dynsym, rs, g.vaddr - g.offset), g),
                  Patched(Placed(m, g), base, dynsym, rs, 0), g)
    decreases |rs|
  {
    hide Value, Placed, RelaOk, Aligned;
    AllOkIndexable(g, dynsym, rs, |m|);
    ClearsOutsideIff(g, |m|);
    if rs != [] {
      var before, r := rs[..|rs| - 1], rs[|rs| - 1];
      PatchingCommutesWithMove(m, base, g, dynsym, before);
      PatchMoves(Patched(m, base, dynsym, before, g.vaddr - g.offset), Patched(Placed(m, g), base, dynsym, before, 0),
                 base, g, dynsym, r);
    }
  }

  // ---------------------------------------------------------------- the cleared words

  /** The words between the end of the file image and the end of the segment. */
  predicate IsBss(g: Segment, w: int)
    requires g.filesz <= g.memsz
  {
    To(g) + Len(g) <= w < To(g) + Len(g) + Bss(g)
  }

  ghost predicate BssCleared(m: Image, g: Segment)
    requires Fits(g, |m|)
  {
    forall w :: 0 <= w < |m| && IsBss(g, w) ==> Placed(m, g)[w] == 0
  }

  /** Loading clears the words past the file image, whatever they held, exactly when there are none or they are
      as many as the file image has: the loop starts that far from the segment, not at the image's end. */
  lemma BssClearedIff(g: Segment, size: nat)
    requires Fits(g, size) && (g.vaddr + g.memsz) / 4 <= size
    ensures (forall m: Image :: |m| == size ==> BssCleared(m, g))
         <==> g.memsz == g.filesz || g.memsz - g.filesz == g.filesz
  {
    WordsOf(g, size);
    if Bss(g) == 0 || Bss(g) == Len(g) {
      forall m: Image | |m| == size
        ensures BssCleared(m, g)
      {
      }
    } else {
      NotCleared(g, size);
    }
  }

  lemma NotCleared(g: Segment, size: nat)
    requires Fits(g, size) && (g.vaddr + g.memsz) / 4 <= size && Bss(g) != 0 && Bss(g) != Len(g)
    ensures exists m: Image :: |m| == size && !BssCleared(m, g)
  {
    WordsOf(g, size);
    var m: Image := seq(size, _ => 1);
    var w := if Bss(g) > Len(g) then To(g) + Len(g) else To(g) + Len(g) + Bss(g) - 1;
    assert IsBss(g, w) && !IsCleared(g, w) && !InPlace(g, w);
    assert Placed(m, g)[w] == 1;
    assert !BssCleared(m, g);
  }
}
