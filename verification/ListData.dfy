/** The two comparisons of the benchmark, with their side effects on the data they compare. */
module ListData {
  import opened ListSort
  import opened ListCode

  datatype Item = Item(data16: bv16, idx: int)

  /** The data behind every reference, and the running results of the benchmark. */
  datatype World<R> = World(data: Ref -> Item, res: R)

  function Put<R>(w: World<R>, r: Ref, d: bv16): World<R> {
    w.(data := (x: Ref) => if x == r then Item(d, w.data(x).idx) else w.data(x))
  }

  /** The upper byte is the backup of the lower. */
  function Restore(d: bv16): bv16 { (d & 0xff00) | (0x00ff & (d >> 8)) }

  function Cached(d: bv16, v: bv16): bv16 { (d & 0xff00) | 0x0080 | (v & 0x007f) }

  lemma RestoreBits(d: bv16)
    ensures Restore(d) == (d & 0xff00) | (d >> 8)
  {
  }

  lemma RestoreTwice(d: bv16)
    ensures Restore(Restore(d)) == Restore(d)
  {
  }

  lemma RestoreCached(d: bv16, v: bv16)
    ensures Restore(Cached(d, v)) == Restore(d)
  {
  }

  /** Comparison by index; both items get their data back. */
  function CmpIdx<R>(w: World<R>, a: Ref, b: Ref): Verdict<World<R>> {
    var v := Put(w, a, Restore(w.data(a).data16));
    var u := Put(v, b, Restore(v.data(b).data16));
    Verdict(u.data(a).idx - u.data(b).idx, u)
  }

  /** The benchmark's algorithms, as a function of the results so far and the data. */
  type Work<!R> = (R, bv16) -> (bv16, R)

  datatype Calculated<R> = Calculated(value: int, world: World<R>)

  /** The value of an item: the cached one, or a new one, which is cached. */
  function CalcFunc<R>(work: Work<R>, w: World<R>, a: Ref): Calculated<R> {
    var d := w.data(a).data16;
    if (d >> 7) & 1 == 1 then Calculated((d & 0x007f) as int, w)
    else
      var v := work(w.res, d);
      Calculated((v.0 & 0x007f) as int, Put(w.(res := v.1), a, Cached(d, v.0)))
  }

  function CmpComplex<R>(work: Work<R>): Compare<World<R>, Ref> {
    (w: World<R>, a: Ref, b: Ref) =>
      var x := CalcFunc(work, w, a);
      var y := CalcFunc(work, x.world, b);
      Verdict(x.value - y.value, y.world)
  }

  // ---------------------------------------------------------------- what no comparison changes

  /** The indices and the backups of the data are as before. */
  ghost predicate Kept<R>(w: World<R>, u: World<R>) {
    forall r :: u.data(r).idx == w.data(r).idx && Restore(u.data(r).data16) == Restore(w.data(r).data16)
  }

  ghost predicate Keeps<R(!new)>(cmp: Compare<World<R>, Ref>) {
    forall w, a, b :: Kept(w, cmp(w, a, b).state)
  }

  lemma PutKeeps<R>(w: World<R>, r: Ref, d: bv16)
    requires Restore(d) == Restore(w.data(r).data16)
    ensures Kept(w, Put(w, r, d))
  {
    hide Restore;
  }

  lemma CmpIdxKeeps<R>(w: World<R>, a: Ref, b: Ref)
    ensures Kept(w, CmpIdx(w, a, b).state)
  {
    hide Restore;
    var v := Put(w, a, Restore(w.data(a).data16));
    RestoreTwice(w.data(a).data16);
    PutKeeps(w, a, Restore(w.data(a).data16));
    RestoreTwice(v.data(b).data16);
    PutKeeps(v, b, Restore(v.data(b).data16));
  }

  lemma CalcFuncKeeps<R>(work: Work<R>, w: World<R>, a: Ref)
    ensures Kept(w, CalcFunc(work, w, a).world)
  {
    hide Restore, Cached;
    var v := work(w.res, w.data(a).data16);
    RestoreCached(w.data(a).data16, v.0);
    PutKeeps(w.(res := v.1), a, Cached(w.data(a).data16, v.0));
  }

  lemma CmpComplexKeeps<R>(work: Work<R>, w: World<R>, a: Ref, b: Ref)
    ensures Kept(w, CmpComplex(work)(w, a, b).state)
  {
    hide Restore, CalcFunc;
    CalcFuncKeeps(work, w, a);
    CalcFuncKeeps(work, CalcFunc(work, w, a).world, b);
  }

  lemma KeptTwice<R>(w: World<R>, u: World<R>, v: World<R>)
    requires Kept(w, u) && Kept(u, v)
    ensures Kept(w, v)
  {
    hide Restore;
  }

  lemma KeepsAt<R(!new)>(cmp: Compare<World<R>, Ref>, w: World<R>, a: Ref, b: Ref)
    requires Keeps(cmp)
    ensures Kept(w, cmp(w, a, b).state)
  {
  }

  lemma {:induction false} MergeKeeps<R(!new)>(cmp: Compare<World<R>, Ref>, w: World<R>, ps: seq<Ref>, qs: seq<Ref>)
    requires Keeps(cmp)
    ensures Kept(w, Merge(cmp, w, ps, qs).state)
    decreases |ps| + |qs|
  {
    if ps != [] && qs != [] {
      hide Kept;
      var v := cmp(w, ps[0], qs[0]);
      KeepsAt(cmp, w, ps[0], qs[0]);
      var t := if v.order <= 0 then Merge(cmp, v.state, ps[1..], qs).state else Merge(cmp, v.state, ps, qs[1..]).state;
      if v.order <= 0 { MergeKeeps(cmp, v.state, ps[1..], qs); } else { MergeKeeps(cmp, v.state, ps, qs[1..]); }
      KeptTwice(w, v.state, t);
    }
  }

  lemma {:induction false} PassKeeps<R(!new)>(cmp: Compare<World<R>, Ref>, w: World<R>, xs: seq<Ref>, n: nat)
    requires Keeps(cmp) && n > 0
    ensures Kept(w, Pass(cmp, w, xs, n).state)
    decreases |xs|
  {
    hide Merge;
    if xs != [] {
      hide Kept;
      var a, b := Min(n, |xs|), Min(2 * n, |xs|);
      var m := Merge(cmp, w, xs[..a], xs[a..b]);
      MergeKeeps(cmp, w, xs[..a], xs[a..b]);
      PassKeeps(cmp, m.state, xs[b..], n);
      KeptTwice(w, m.state, Pass(cmp, m.state, xs[b..], n).state);
    }
  }

  /** No sort changes an index or a backup. */
  lemma {:induction false} SortKeeps<R(!new)>(cmp: Compare<World<R>, Ref>, w: World<R>, xs: seq<Ref>, n: nat)
    requires Keeps(cmp) && n > 0
    ensures Kept(w, Sort(cmp, w, xs, n).state)
    decreases |xs| - n
  {
    hide Kept, Pass;
    PassKeeps(cmp, w, xs, n);
    var r := Pass(cmp, w, xs, n);
    if |xs| > 2 * n {
      SortKeeps(cmp, r.state, r.list, 2 * n);
      KeptTwice(w, r.state, Sort(cmp, r.state, r.list, 2 * n).state);
    }
  }

  // ---------------------------------------------------------------- sorting by index

  /** The order of indices, which no comparison changes. */
  function IdxOrder<R>(w: World<R>): Order<Ref> { (a: Ref, b: Ref) => w.data(a).idx <= w.data(b).idx }

  function IdxOf<R>(w: World<R>): Ref -> int { (a: Ref) => w.data(a).idx }

  lemma IdxDecides<R(!new)>(w: World<R>)
    ensures TotalPreorder(IdxOrder(w)) && Decides(CmpIdx<R>, (u: World<R>) => Kept(w, u), IdxOrder(w)) && Kept(w, w)
  {
    hide Restore;
    forall u: World<R>, a, b | Kept(w, u)
      ensures (CmpIdx(u, a, b).order <= 0 <==> IdxOrder(w)(a, b)) && Kept(w, CmpIdx(u, a, b).state)
    {
      CmpIdxKeeps(u, a, b);
      KeptTwice(w, u, CmpIdx(u, a, b).state);
    }
  }

  /** Sorting by index puts the indices in ascending order, ties as they were. */
  lemma SortByIdx<R(!new)>(w: World<R>, xs: seq<Ref>)
    ensures var r := Sort(CmpIdx<R>, w, xs, 1);
            Rising(Map(IdxOf(w), r.list)) && multiset(r.list) == multiset(xs) && Kept(w, r.state)
            && forall x :: Ties(IdxOrder(w), r.list, x) == Ties(IdxOrder(w), xs, x)
  {
    IdxDecides(w);
    MergeSortCorrect(CmpIdx<R>, (u: World<R>) => Kept(w, u), IdxOrder(w), w, xs);
  }

  // ---------------------------------------------------------------- every item is compared

  /** The item's low byte has been restored from its backup. */
  predicate Done<R>(w: World<R>, r: Ref) { Restore(w.data(r).data16) == w.data(r).data16 }

  ghost predicate AllDone<R>(w: World<R>, xs: seq<Ref>) { forall x :: x in xs ==> Done(w, x) }

  /** Once restored, an item stays restored under comparison by index; both items compared are restored. */
  lemma CmpIdxRestores<R>(w: World<R>, a: Ref, b: Ref)
    ensures var u := CmpIdx(w, a, b).state; Done(u, a) && Done(u, b) && forall r :: Done(w, r) ==> Done(u, r)
  {
    hide Restore;
    var v := Put(w, a, Restore(w.data(a).data16));
    RestoreTwice(w.data(a).data16);
    RestoreTwice(v.data(b).data16);
  }

  lemma {:induction false} MergeRestores<R>(w: World<R>, ps: seq<Ref>, qs: seq<Ref>)
    ensures var u := Merge(CmpIdx<R>, w, ps, qs).state;
            (forall r :: Done(w, r) ==> Done(u, r)) && (ps != [] && qs != [] ==> Done(u, ps[0]) && Done(u, qs[0]))
    decreases |ps| + |qs|
  {
    hide Done;
    if ps != [] && qs != [] {
      var v := CmpIdx(w, ps[0], qs[0]);
      CmpIdxRestores(w, ps[0], qs[0]);
      if v.order <= 0 { MergeRestores(v.state, ps[1..], qs); } else { MergeRestores(v.state, ps, qs[1..]); }
    }
  }

  lemma {:induction false} PassStaysRestored<R>(w: World<R>, xs: seq<Ref>, n: nat)
    requires n > 0
    ensures forall r :: Done(w, r) ==> Done(Pass(CmpIdx<R>, w, xs, n).state, r)
    decreases |xs|
  {
    hide Done, Merge;
    if xs != [] {
      var a, b := Min(n, |xs|), Min(2 * n, |xs|);
      MergeRestores(w, xs[..a], xs[a..b]);
      PassStaysRestored(Merge(CmpIdx<R>, w, xs[..a], xs[a..b]).state, xs[b..], n);
    }
  }

  /** Cut into blocks of n, a list of this length ends in a block of one. */
  predicate Loner(len: nat, n: nat)
    requires n > 0
  {
    if len > n then Loner(len - n, n) else len == 1
  }

  /** All restored but perhaps the last item, and that only if it is a block of its own. */
  ghost predicate DoneButLoner<R>(w: World<R>, xs: seq<Ref>, n: nat)
    requires n > 0
  {
    forall i :: 0 <= i < |xs| ==> Done(w, xs[i]) || (i == |xs| - 1 && Loner(|xs|, n))
  }

  lemma PairRestored<R>(w: World<R>, a: Ref, b: Ref)
    ensures var m := Merge(CmpIdx<R>, w, [a], [b]); AllDone(m.state, m.list)
  {
    hide Done, CmpIdx;
    var m := Merge(CmpIdx<R>, w, [a], [b]);
    MergeRestores(w, [a], [b]);
    MergePermutes(CmpIdx<R>, w, [a], [b]);
    OnlyThese(m.list, [a], [b]);
  }

  lemma ShortFirstPass<R>(w: World<R>, xs: seq<Ref>)
    requires |xs| < 2
    ensures var r := Pass(CmpIdx<R>, w, xs, 1); DoneButLoner(r.state, r.list, 2)
  {
    hide Done, CmpIdx;
  }

  /** The first pass compares neighbours. */
  lemma {:induction false} FirstPassRestores<R>(w: World<R>, xs: seq<Ref>)
    ensures var r := Pass(CmpIdx<R>, w, xs, 1); DoneButLoner(r.state, r.list, 2)
    decreases |xs|
  {
    hide Done, CmpIdx, Merge, DoneButLoner, AllDone;
    if |xs| >= 2 {
      var m := Merge(CmpIdx<R>, w, xs[..1], xs[1..2]);
      PairRestored(w, xs[0], xs[1]);
      assert xs[..1] == [xs[0]] && xs[1..2] == [xs[1]];
      FirstPassRestores(m.state, xs[2..]);
      PassStaysRestored(m.state, xs[2..], 1);
      var r := Pass(CmpIdx<R>, m.state, xs[2..], 1);
      StillAllDone(m.state, r.state, m.list);
      DoneInFront(r.state, m.list, r.list, 2);
    } else {
      ShortFirstPass(w, xs);
    }
  }

  lemma OnlyThese(r: seq<Ref>, ps: seq<Ref>, qs: seq<Ref>)
    requires multiset(r) == multiset(ps) + multiset(qs)
    ensures forall x :: x in r ==> x in ps || x in qs
  {
    forall x | x in r
      ensures x in ps || x in qs
    {
      assert x in multiset(r);
    }
  }

  /** Merging two neighbouring blocks, the second perhaps a loner, restores all of them. */
  lemma TwoBlocksRestored<R>(w: World<R>, ps: seq<Ref>, qs: seq<Ref>)
    requires AllDone(w, ps) && ps != [] && qs != [] && (AllDone(w, qs) || |qs| == 1)
    ensures var m := Merge(CmpIdx<R>, w, ps, qs); AllDone(m.state, m.list)
  {
    hide Done, CmpIdx;
    var m := Merge(CmpIdx<R>, w, ps, qs);
    MergeRestores(w, ps, qs);
    MergePermutes(CmpIdx<R>, w, ps, qs);
    OnlyThese(m.list, ps, qs);
  }

  /** What is restored in a list whose blocks of n are cut off one by one. */
  lemma CutLoner<R>(w: World<R>, xs: seq<Ref>, n: nat, b: nat)
    requires n >= 2 && DoneButLoner(w, xs, n) && b <= |xs|
    ensures b < |xs| ==> AllDone(w, xs[..b])
    ensures b == 2 * n ==> DoneButLoner(w, xs[b..], n)
  {
    hide Done;
    if b == 2 * n {
      assert b < |xs| ==> Loner(|xs|, n) == Loner(|xs| - n, n) == Loner(|xs[b..]|, n);
      forall i | 0 <= i < |xs[b..]|
        ensures Done(w, xs[b..][i]) || (i == |xs[b..]| - 1 && Loner(|xs[b..]|, n))
      {
        assert xs[b..][i] == xs[b + i];
      }
    }
  }

  lemma DoneInFront<R>(u: World<R>, front: seq<Ref>, back: seq<Ref>, n: nat)
    requires n >= 2 && AllDone(u, front) && |front| <= n && (back != [] ==> |front| == n) && DoneButLoner(u, back, n)
    ensures DoneButLoner(u, front + back, n)
  {
    hide Done;
  }

  /** A later pass restores the loner unless it is again left over alone. */
  lemma {:induction false} PassRestores<R>(w: World<R>, xs: seq<Ref>, n: nat)
    requires n >= 2 && DoneButLoner(w, xs, n)
    ensures var r := Pass(CmpIdx<R>, w, xs, n); DoneButLoner(r.state, r.list, 2 * n)
    decreases |xs|
  {
    hide Done, CmpIdx, Merge, DoneButLoner, AllDone;
    if |xs| <= n {
      OneBlockPass(w, xs, n);
    } else {
      var b := Min(2 * n, |xs|);
      var m := Merge(CmpIdx<R>, w, xs[..n], xs[n..b]);
      SecondBlock(w, xs, n, b);
      TwoBlocksRestored(w, xs[..n], xs[n..b]);
      CutLoner(w, xs, n, b);
      MergeRestores(w, xs[..n], xs[n..b]);
      StillButLoner(w, m.state, xs[b..], n);
      PassRestores(m.state, xs[b..], n);
      var r := Pass(CmpIdx<R>, m.state, xs[b..], n);
      PassStaysRestored(m.state, xs[b..], n);
      StillAllDone(m.state, r.state, m.list);
      DoneInFront(r.state, m.list, r.list, 2 * n);
    }
  }

  lemma OneBlockPass<R>(w: World<R>, xs: seq<Ref>, n: nat)
    requires n >= 2 && DoneButLoner(w, xs, n) && |xs| <= n
    ensures var r := Pass(CmpIdx<R>, w, xs, n); DoneButLoner(r.state, r.list, 2 * n)
  {
    hide Done, CmpIdx;
    assert xs[..|xs|] == xs;
  }

  lemma SecondBlock<R>(w: World<R>, xs: seq<Ref>, n: nat, b: nat)
    requires n >= 2 && DoneButLoner(w, xs, n) && n < |xs| && b == Min(2 * n, |xs|)
    ensures AllDone(w, xs[..n]) && (AllDone(w, xs[n..b]) || |xs[n..b]| == 1)
    ensures b == |xs| ==> xs[b..] == []
  {
    hide Done;
    if b == |xs| { assert Loner(|xs|, n) == Loner(|xs| - n, n); }
  }

  lemma StillButLoner<R>(w: World<R>, u: World<R>, xs: seq<Ref>, n: nat)
    requires n > 0 && (xs == [] || DoneButLoner(w, xs, n)) && forall r :: Done(w, r) ==> Done(u, r)
    ensures DoneButLoner(u, xs, n)
  {
    hide Done;
  }

  lemma StillAllDone<R>(w: World<R>, u: World<R>, xs: seq<Ref>)
    requires AllDone(w, xs) && forall r :: Done(w, r) ==> Done(u, r)
    ensures AllDone(u, xs)
  {
    hide Done;
  }

  lemma {:induction false} SortRestores<R>(w: World<R>, xs: seq<Ref>, n: nat)
    requires n >= 2 && |xs| >= 2 && DoneButLoner(w, xs, n)
    ensures var r := Sort(CmpIdx<R>, w, xs, n); AllDone(r.state, r.list)
    decreases |xs| - n
  {
    hide Done, Pass;
    PassRestores(w, xs, n);
    var r := Pass(CmpIdx<R>, w, xs, n);
    if |xs| > 2 * n { SortRestores(r.state, r.list, 2 * n); }
  }

  /** Main result: sorting two or more items by index restores the data of every one of them. */
  lemma SortByIdxRestores<R(!new)>(w: World<R>, xs: seq<Ref>)
    requires |xs| >= 2
    ensures var r := Sort(CmpIdx<R>, w, xs, 1);
            forall x :: x in xs ==> var d := w.data(x).data16; r.state.data(x).data16 == (d & 0xff00) | (d >> 8)
  {
    hide Pass, Restore;
    FirstPassRestores(w, xs);
    var p := Pass(CmpIdx<R>, w, xs, 1);
    var r := Sort(CmpIdx<R>, w, xs, 1);
    if |xs| > 2 { SortRestores(p.state, p.list, 2); }
    SortPermutes(CmpIdx<R>, w, xs, 1);
    SortByIdx(w, xs);
    forall x | x in xs
      ensures var d := w.data(x).data16; r.state.data(x).data16 == (d & 0xff00) | (d >> 8)
    {
      RestoreBits(w.data(x).data16);
      assert x in multiset(r.list);
      assert Done(r.state, x);
    }
  }
}
