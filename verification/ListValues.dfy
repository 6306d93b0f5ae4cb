/** The benchmark's first sort: every item's value is computed once, and the values come out in ascending order. */
module ListValues {
  import opened ListSort
  import opened ListCode
  import opened ListData

  /** Bit 7 says that the low seven bits are the item's value. */
  predicate Calculated<R>(w: World<R>, r: Ref) { w.data(r).data16 & 0x0080 != 0 }

  function Value<R>(w: World<R>, r: Ref): int { (w.data(r).data16 & 0x007f) as int }

  /** What has been calculated stays, with the rest of its item. */
  ghost predicate Settled<R>(w: World<R>, u: World<R>) { forall r :: Calculated(w, r) ==> u.data(r) == w.data(r) }

  ghost predicate AllCalculated<R>(w: World<R>, xs: seq<Ref>) { forall x :: x in xs ==> Calculated(w, x) }

  ghost predicate Rises<R>(w: World<R>, xs: seq<Ref>) {
    forall i, j :: 0 <= i < j < |xs| ==> Value(w, xs[i]) <= Value(w, xs[j])
  }

  /** Ascending values; a single item need not have one yet. */
  ghost predicate Ordered<R>(w: World<R>, xs: seq<Ref>) { |xs| >= 2 ==> AllCalculated(w, xs) && Rises(w, xs) }

  // ---------------------------------------------------------------- one comparison

  lemma BitSeven(d: bv16)
    ensures (d >> 7) & 1 == 1 <==> d & 0x0080 != 0
  {
  }

  lemma CachedBits(d: bv16, v: bv16)
    ensures Cached(d, v) & 0x0080 != 0
    ensures Cached(d, v) & 0x007f == v & 0x007f
    ensures Cached(d, v) & 0xff00 == d & 0xff00
  {
  }

  lemma CalcSettles<R>(work: Work<R>, w: World<R>, a: Ref)
    ensures var c := CalcFunc(work, w, a);
            Settled(w, c.world) && Calculated(c.world, a) && c.value == Value(c.world, a)
            && (Calculated(w, a) ==> c.world == w)
  {
    hide Cached;
    BitSeven(w.data(a).data16);
    var v := work(w.res, w.data(a).data16);
    CachedBits(w.data(a).data16, v.0);
  }

  /** A comparison calculates both items and gives the first minus the second; the sign is that of the values. */
  lemma CompareSettles<R>(work: Work<R>, w: World<R>, a: Ref, b: Ref)
    ensures var v := CmpComplex(work)(w, a, b);
            Settled(w, v.state) && Calculated(v.state, a) && Calculated(v.state, b)
            && (v.order <= 0 <==> Value(v.state, a) <= Value(v.state, b))
            && (Calculated(w, a) && Calculated(w, b) ==> v.state == w)
  {
    hide CalcFunc, Calculated, Value;
    CalcSettles(work, w, a);
    var x := CalcFunc(work, w, a);
    CalcSettles(work, x.world, b);
    SameValue(x.world, CalcFunc(work, x.world, b).world, a);
    SettledTwice(w, x.world, CalcFunc(work, x.world, b).world);
  }

  lemma SameValue<R>(w: World<R>, u: World<R>, r: Ref)
    requires Settled(w, u) && Calculated(w, r)
    ensures Calculated(u, r) && Value(u, r) == Value(w, r)
  {
  }

  // ---------------------------------------------------------------- merging

  /** Merging two ascending lists whose values are all calculated changes nothing but their order. */
  lemma {:induction false} MergeCalculated<R>(work: Work<R>, w: World<R>, ps: seq<Ref>, qs: seq<Ref>)
    requires AllCalculated(w, ps) && AllCalculated(w, qs) && Rises(w, ps) && Rises(w, qs)
    ensures var m := Merge(CmpComplex(work), w, ps, qs);
            m.state == w && Rises(w, m.list) && AllCalculated(w, m.list)
    decreases |ps| + |qs|
  {
    hide CmpComplex, Calculated, Value;
    if ps != [] && qs != [] {
      CompareSettles(work, w, ps[0], qs[0]);
      var v := CmpComplex(work)(w, ps[0], qs[0]);
      if v.order <= 0 {
        MergeCalculated(work, w, ps[1..], qs);
        MergePermutes(CmpComplex(work), w, ps[1..], qs);
        InFront(w, ps[0], ps[1..], qs, Merge(CmpComplex(work), w, ps[1..], qs).list);
      } else {
        MergeCalculated(work, w, ps, qs[1..]);
        MergePermutes(CmpComplex(work), w, ps, qs[1..]);
        InFront(w, qs[0], ps, qs[1..], Merge(CmpComplex(work), w, ps, qs[1..]).list);
      }
    }
  }

  /** A least item in front of a merged list. */
  lemma InFront<R>(w: World<R>, a: Ref, ps: seq<Ref>, qs: seq<Ref>, ms: seq<Ref>)
    requires Rises(w, ms) && AllCalculated(w, ms) && Calculated(w, a) && multiset(ms) == multiset(ps) + multiset(qs)
    requires forall i :: 0 <= i < |ps| ==> Value(w, a) <= Value(w, ps[i])
    requires forall i :: 0 <= i < |qs| ==> Value(w, a) <= Value(w, qs[i])
    ensures Rises(w, [a] + ms) && AllCalculated(w, [a] + ms)
  {
    hide Calculated, Value;
    OnlyThese(ms, ps, qs);
    forall i | 0 <= i < |ms|
      ensures Value(w, a) <= Value(w, ms[i])
    {
      assert ms[i] in ms;
    }
  }

  /** Comparing the two first items twice is as comparing them once. */
  lemma MergeAgain<R>(work: Work<R>, w: World<R>, ps: seq<Ref>, qs: seq<Ref>)
    requires ps != [] && qs != []
    ensures var v := CmpComplex(work)(w, ps[0], qs[0]).state;
            Merge(CmpComplex(work), w, ps, qs) == Merge(CmpComplex(work), v, ps, qs)
  {
    hide CmpComplex, Calculated, Value;
    var v := CmpComplex(work)(w, ps[0], qs[0]).state;
    CompareSettles(work, w, ps[0], qs[0]);
    CompareSettles(work, v, ps[0], qs[0]);
  }

  lemma SettledTwice<R>(w: World<R>, u: World<R>, v: World<R>)
    requires Settled(w, u) && Settled(u, v)
    ensures Settled(w, v)
  {
  }

  lemma OrderedStays<R>(w: World<R>, u: World<R>, xs: seq<Ref>)
    requires Settled(w, u) && Ordered(w, xs)
    ensures Ordered(u, xs)
  {
    hide Calculated, Value, Settled;
    if |xs| >= 2 {
      forall i | 0 <= i < |xs|
        ensures Calculated(u, xs[i]) && Value(u, xs[i]) == Value(w, xs[i])
      {
        assert xs[i] in xs;
        SameValue(w, u, xs[i]);
      }
    }
  }

  /** Merging ascending lists gives an ascending list. */
  lemma MergeOrders<R>(work: Work<R>, w: World<R>, ps: seq<Ref>, qs: seq<Ref>)
    requires Ordered(w, ps) && Ordered(w, qs)
    ensures var m := Merge(CmpComplex(work), w, ps, qs); Settled(w, m.state) && Ordered(m.state, m.list)
  {
    hide CmpComplex, Calculated, Value, Ordered;
    if ps != [] && qs != [] {
      var v := CmpComplex(work)(w, ps[0], qs[0]).state;
      CompareSettles(work, w, ps[0], qs[0]);
      OrderedStays(w, v, ps);
      OrderedStays(w, v, qs);
      MergeAgain(work, w, ps, qs);
      OrderedIs(v, ps);
      OrderedIs(v, qs);
      MergeCalculated(work, v, ps, qs);
      OrderedFrom(v, Merge(CmpComplex(work), v, ps, qs).list);
    }
  }

  lemma OrderedIs<R>(w: World<R>, xs: seq<Ref>)
    requires Ordered(w, xs) && xs != [] && Calculated(w, xs[0])
    ensures AllCalculated(w, xs) && Rises(w, xs)
  {
  }

  lemma OrderedFrom<R>(w: World<R>, xs: seq<Ref>)
    requires AllCalculated(w, xs) && Rises(w, xs)
    ensures Ordered(w, xs)
  {
  }

  // ---------------------------------------------------------------- passes

  /** Blocks of n, counted from the left, are ascending. */
  ghost predicate BlocksOrdered<R>(w: World<R>, xs: seq<Ref>, n: nat)
    requires n > 0
    decreases |xs|
  {
    xs != [] ==> Ordered(w, xs[..Min(n, |xs|)]) && BlocksOrdered(w, xs[Min(n, |xs|)..], n)
  }

  lemma {:induction false} BlocksStay<R>(w: World<R>, u: World<R>, xs: seq<Ref>, n: nat)
    requires n > 0 && Settled(w, u) && BlocksOrdered(w, xs, n)
    ensures BlocksOrdered(u, xs, n)
    decreases |xs|
  {
    hide Settled, Ordered;
    if xs != [] {
      OrderedStays(w, u, xs[..Min(n, |xs|)]);
      BlocksStay(w, u, xs[Min(n, |xs|)..], n);
    }
  }

  /** A pass makes ascending blocks of 2n of ascending blocks of n. */
  lemma {:induction false} PassOrders<R>(work: Work<R>, w: World<R>, xs: seq<Ref>, n: nat)
    requires n > 0 && BlocksOrdered(w, xs, n)
    ensures var r := Pass(CmpComplex(work), w, xs, n); Settled(w, r.state) && BlocksOrdered(r.state, r.list, 2 * n)
    decreases |xs|
  {
    hide Merge, CmpComplex, Settled, Ordered;
    if xs == [] {
      NothingSettles(w);
    } else {
      var a, b := Min(n, |xs|), Min(2 * n, |xs|);
      TwoBlocks(w, xs, n);
      MergeOrders(work, w, xs[..a], xs[a..b]);
      var m := Merge(CmpComplex(work), w, xs[..a], xs[a..b]);
      BlocksStay(w, m.state, xs[b..], n);
      PassOrders(work, m.state, xs[b..], n);
      var r := Pass(CmpComplex(work), m.state, xs[b..], n);
      SettledTwice(w, m.state, r.state);
      OrderedStays(m.state, r.state, m.list);
      BlockInFront(r.state, m.list, r.list, 2 * n);
    }
  }

  lemma NothingSettles<R>(w: World<R>)
    ensures Settled(w, w)
  {
  }

  lemma TwoBlocks<R>(w: World<R>, xs: seq<Ref>, n: nat)
    requires n > 0 && xs != [] && BlocksOrdered(w, xs, n)
    ensures var a, b := Min(n, |xs|), Min(2 * n, |xs|);
            Ordered(w, xs[..a]) && Ordered(w, xs[a..b]) && BlocksOrdered(w, xs[b..], n)
  {
    hide Ordered;
    var a, b := Min(n, |xs|), Min(2 * n, |xs|);
    if a == |xs| {
      assert xs[a..b] == [] && xs[b..] == [];
      NoneOrdered(w);
    } else {
      assert xs[a..][..Min(n, |xs| - a)] == xs[a..b];
      assert xs[a..][Min(n, |xs| - a)..] == xs[b..];
    }
  }

  lemma NoneOrdered<R>(w: World<R>)
    ensures Ordered(w, [])
  {
  }

  lemma BlockInFront<R>(w: World<R>, front: seq<Ref>, back: seq<Ref>, n: nat)
    requires n > 0 && front != [] && Ordered(w, front) && BlocksOrdered(w, back, n)
    requires |front| <= n && (back != [] ==> |front| == n)
    ensures BlocksOrdered(w, front + back, n)
  {
    hide Ordered;
    var all := front + back;
    assert Min(n, |all|) == |front|;
    assert all[..|front|] == front && all[|front|..] == back;
  }

  lemma {:induction false} SortOrders<R>(work: Work<R>, w: World<R>, xs: seq<Ref>, n: nat)
    requires n > 0 && BlocksOrdered(w, xs, n)
    ensures var r := Sort(CmpComplex(work), w, xs, n); Settled(w, r.state) && Ordered(r.state, r.list)
    decreases |xs| - n
  {
    hide Pass, Settled, Ordered, CmpComplex;
    PassOrders(work, w, xs, n);
    var r := Pass(CmpComplex(work), w, xs, n);
    if |xs| <= 2 * n {
      if xs == [] { NoneOrdered(r.state); } else { assert r.list[..Min(2 * n, |xs|)] == r.list; }
    } else {
      SortOrders(work, r.state, r.list, 2 * n);
      SettledTwice(w, r.state, Sort(CmpComplex(work), r.state, r.list, 2 * n).state);
    }
  }

  lemma {:induction false} SinglesOrdered<R>(w: World<R>, xs: seq<Ref>)
    ensures BlocksOrdered(w, xs, 1)
    decreases |xs|
  {
    if xs != [] { SinglesOrdered(w, xs[1..]); }
  }

  // ---------------------------------------------------------------- where the values come from

  /** From data d without a value to e, with the value the work computed from d, whatever its results were: in the
      low seven bits, bit 7 set and the upper byte kept. */
  ghost predicate Computed<R(!new)>(work: Work<R>, d: bv16, e: bv16) {
    d & 0x0080 == 0 && e & 0x0080 != 0 && e & 0xff00 == d & 0xff00 && exists s: R :: e & 0x007f == work(s, d).0 & 0x007f
  }

  /** An item is untouched, or its value was computed. */
  ghost predicate ValueFrom<R(!new)>(work: Work<R>, w: World<R>, u: World<R>, r: Ref) {
    u.data(r) == w.data(r) || Computed(work, w.data(r).data16, u.data(r).data16)
  }

  ghost predicate ValuesFrom<R(!new)>(work: Work<R>, w: World<R>, u: World<R>) {
    forall r :: ValueFrom(work, w, u, r)
  }

  lemma ComputedOnce<R(!new)>(work: Work<R>, d: bv16, e: bv16, f: bv16)
    ensures !(Computed(work, d, e) && Computed(work, e, f))
  {
  }

  lemma ValuesTwice<R(!new)>(work: Work<R>, w: World<R>, u: World<R>, v: World<R>)
    requires ValuesFrom(work, w, u) && ValuesFrom(work, u, v)
    ensures ValuesFrom(work, w, v)
  {
    hide Computed;
    forall r
      ensures ValueFrom(work, w, v, r)
    {
      ComputedOnce(work, w.data(r).data16, u.data(r).data16, v.data(r).data16);
      assert ValueFrom(work, w, u, r) && ValueFrom(work, u, v, r);
    }
  }

  lemma Unchanged<R(!new)>(work: Work<R>, w: World<R>)
    ensures ValuesFrom(work, w, w)
  {
    hide Computed;
  }

  lemma CachedIsComputed<R(!new)>(work: Work<R>, s: R, d: bv16)
    requires d & 0x0080 == 0
    ensures Computed(work, d, Cached(d, work(s, d).0))
  {
    hide Cached;
    CachedBits(d, work(s, d).0);
  }

  lemma CalcFrom<R(!new)>(work: Work<R>, w: World<R>, a: Ref)
    ensures ValuesFrom(work, w, CalcFunc(work, w, a).world)
  {
    hide Cached, Computed;
    var d := w.data(a).data16;
    BitSeven(d);
    if d & 0x0080 == 0 { CachedIsComputed(work, w.res, d); }
  }

  lemma CompareFrom<R(!new)>(work: Work<R>, w: World<R>, a: Ref, b: Ref)
    ensures ValuesFrom(work, w, CmpComplex(work)(w, a, b).state)
  {
    hide CalcFunc, ValuesFrom;
    CalcFrom(work, w, a);
    var x := CalcFunc(work, w, a);
    CalcFrom(work, x.world, b);
    ValuesTwice(work, w, x.world, CalcFunc(work, x.world, b).world);
  }

  lemma {:induction false} MergeFrom<R(!new)>(work: Work<R>, w: World<R>, ps: seq<Ref>, qs: seq<Ref>)
    ensures ValuesFrom(work, w, Merge(CmpComplex(work), w, ps, qs).state)
    decreases |ps| + |qs|
  {
    hide CmpComplex, ValuesFrom;
    if ps == [] || qs == [] {
      Unchanged(work, w);
    } else {
      CompareFrom(work, w, ps[0], qs[0]);
      var v := CmpComplex(work)(w, ps[0], qs[0]);
      if v.order <= 0 { MergeFrom(work, v.state, ps[1..], qs); } else { MergeFrom(work, v.state, ps, qs[1..]); }
      ValuesTwice(work, w, v.state, Merge(CmpComplex(work), w, ps, qs).state);
    }
  }

  lemma {:induction false} PassFrom<R(!new)>(work: Work<R>, w: World<R>, xs: seq<Ref>, n: nat)
    requires n > 0
    ensures ValuesFrom(work, w, Pass(CmpComplex(work), w, xs, n).state)
    decreases |xs|
  {
    hide Merge, CmpComplex, ValuesFrom;
    if xs == [] {
      Unchanged(work, w);
    } else {
      var a, b := Min(n, |xs|), Min(2 * n, |xs|);
      MergeFrom(work, w, xs[..a], xs[a..b]);
      var m := Merge(CmpComplex(work), w, xs[..a], xs[a..b]);
      PassFrom(work, m.state, xs[b..], n);
      ValuesTwice(work, w, m.state, Pass(CmpComplex(work), m.state, xs[b..], n).state);
    }
  }

  lemma {:induction false} SortFrom<R(!new)>(work: Work<R>, w: World<R>, xs: seq<Ref>, n: nat)
    requires n > 0
    ensures ValuesFrom(work, w, Sort(CmpComplex(work), w, xs, n).state)
    decreases |xs| - n
  {
    hide Pass, CmpComplex, ValuesFrom;
    PassFrom(work, w, xs, n);
    var r := Pass(CmpComplex(work), w, xs, n);
    if |xs| > 2 * n {
      SortFrom(work, r.state, r.list, 2 * n);
      ValuesTwice(work, w, r.state, Sort(CmpComplex(work), r.state, r.list, 2 * n).state);
    }
  }

  /** Main result: sorting two or more items by value leaves every one of them with a value, the values ascending;
      a value was there before, or the work computed it from the item's data. */
  lemma SortByValue<R(!new)>(work: Work<R>, w: World<R>, xs: seq<Ref>)
    requires |xs| >= 2
    ensures var r := Sort(CmpComplex(work), w, xs, 1);
            var value := (x: Ref) => r.state.data(x).data16 & 0x007f;
            (forall i, j :: 0 <= i < j < |xs| ==> value(r.list[i]) <= value(r.list[j]))
            && (forall x :: x in xs ==> r.state.data(x).data16 & 0x0080 != 0 && ValueFrom(work, w, r.state, x))
            && multiset(r.list) == multiset(xs)
  {
    hide Sort, CmpComplex;
    SinglesOrdered(w, xs);
    SortOrders(work, w, xs, 1);
    SortFrom(work, w, xs, 1);
    SortPermutes(CmpComplex(work), w, xs, 1);
    var r := Sort(CmpComplex(work), w, xs, 1);
    forall x | x in xs
      ensures Calculated(r.state, x)
    {
      assert x in multiset(r.list);
    }
    forall i, j | 0 <= i < j < |xs|
      ensures r.state.data(r.list[i]).data16 & 0x007f <= r.state.data(r.list[j]).data16 & 0x007f
    {
      assert Value(r.state, r.list[i]) <= Value(r.state, r.list[j]);
    }
  }
}
