/** The bottom-up merge sort on plain sequences, for any comparison, even one with side effects. */
module ListSort {
  /** What a comparison says (not positive: the first may come first) and the state it leaves. */
  datatype Verdict<S> = Verdict(order: int, state: S)

  datatype Sorted<S, T> = Sorted(list: seq<T>, state: S)

  type Compare<!S, !T> = (S, T, T) -> Verdict<S>

  function Min(a: nat, b: nat): nat { if a < b then a else b }

  function Merge<S, T>(cmp: Compare<S, T>, s: S, ps: seq<T>, qs: seq<T>): (r: Sorted<S, T>)
    ensures |r.list| == |ps| + |qs|
    decreases |ps| + |qs|
  {
    if ps == [] then Sorted(qs, s)
    else if qs == [] then Sorted(ps, s)
    else
      var v := cmp(s, ps[0], qs[0]);
      if v.order <= 0 then
        var r := Merge(cmp, v.state, ps[1..], qs);
        Sorted([ps[0]] + r.list, r.state)
      else
        var r := Merge(cmp, v.state, ps, qs[1..]);
        Sorted([qs[0]] + r.list, r.state)
  }

  /** One pass: neighbouring blocks of n are merged from left to right. */
  function Pass<S, T>(cmp: Compare<S, T>, s: S, xs: seq<T>, n: nat): (r: Sorted<S, T>)
    requires n > 0
    ensures |r.list| == |xs|
    decreases |xs|
  {
    if xs == [] then Sorted([], s)
    else
      var a, b := Min(n, |xs|), Min(2 * n, |xs|);
      var m := Merge(cmp, s, xs[..a], xs[a..b]);
      var r := Pass(cmp, m.state, xs[b..], n);
      Sorted(m.list + r.list, r.state)
  }

  /** Passes over blocks of doubling size until one merge covers the list. */
  function Sort<S, T>(cmp: Compare<S, T>, s: S, xs: seq<T>, n: nat): (r: Sorted<S, T>)
    requires n > 0
    ensures |r.list| == |xs|
    decreases |xs| - n
  {
    var r := Pass(cmp, s, xs, n);
    if |xs| <= 2 * n then r else Sort(cmp, r.state, r.list, 2 * n)
  }

  // ---------------------------------------------------------------- permutation, whatever the comparison

  lemma {:induction false} MergePermutes<S, T>(cmp: Compare<S, T>, s: S, ps: seq<T>, qs: seq<T>)
    ensures multiset(Merge(cmp, s, ps, qs).list) == multiset(ps) + multiset(qs)
    decreases |ps| + |qs|
  {
    if ps != [] && qs != [] {
      assert ps == [ps[0]] + ps[1..] && qs == [qs[0]] + qs[1..];
      var v := cmp(s, ps[0], qs[0]);
      if v.order <= 0 { MergePermutes(cmp, v.state, ps[1..], qs); } else { MergePermutes(cmp, v.state, ps, qs[1..]); }
    }
  }

  lemma {:induction false} PassPermutes<S, T>(cmp: Compare<S, T>, s: S, xs: seq<T>, n: nat)
    requires n > 0
    ensures multiset(Pass(cmp, s, xs, n).list) == multiset(xs)
    decreases |xs|
  {
    if xs != [] {
      var a, b := Min(n, |xs|), Min(2 * n, |xs|);
      assert xs == xs[..a] + xs[a..b] + xs[b..];
      MergePermutes(cmp, s, xs[..a], xs[a..b]);
      PassPermutes(cmp, Merge(cmp, s, xs[..a], xs[a..b]).state, xs[b..], n);
    }
  }

  lemma {:induction false} SortPermutes<S, T>(cmp: Compare<S, T>, s: S, xs: seq<T>, n: nat)
    requires n > 0
    ensures multiset(Sort(cmp, s, xs, n).list) == multiset(xs)
    decreases |xs| - n
  {
    PassPermutes(cmp, s, xs, n);
    var r := Pass(cmp, s, xs, n);
    if |xs| > 2 * n { SortPermutes(cmp, r.state, r.list, 2 * n); }
  }

  // ---------------------------------------------------------------- order

  type Order<!T> = (T, T) -> bool

  ghost predicate TotalPreorder<T(!new)>(leq: Order<T>) {
    (forall x, y :: leq(x, y) || leq(y, x)) && (forall x, y, z :: leq(x, y) && leq(y, z) ==> leq(x, z))
  }

  /** From any state in inv the comparison decides leq and stays in inv. */
  ghost predicate Decides<S(!new), T(!new)>(cmp: Compare<S, T>, inv: S -> bool, leq: Order<T>) {
    forall s, x, y :: inv(s) ==> (cmp(s, x, y).order <= 0 <==> leq(x, y)) && inv(cmp(s, x, y).state)
  }

  predicate Ascending<T>(leq: Order<T>, xs: seq<T>) {
    forall i, j :: 0 <= i < j < |xs| ==> leq(xs[i], xs[j])
  }

  /** The elements that tie with x, in order. */
  function Ties<T>(leq: Order<T>, xs: seq<T>, x: T): seq<T> {
    if xs == [] then []
    else (if leq(x, xs[0]) && leq(xs[0], x) then [xs[0]] else []) + Ties(leq, xs[1..], x)
  }

  lemma {:induction false} TiesConcat<T>(leq: Order<T>, xs: seq<T>, ys: seq<T>, x: T)
    ensures Ties(leq, xs + ys, x) == Ties(leq, xs, x) + Ties(leq, ys, x)
  {
    if xs == [] {
      assert xs + ys == ys;
    } else {
      assert (xs + ys)[1..] == xs[1..] + ys;
      TiesConcat(leq, xs[1..], ys, x);
    }
  }

  lemma {:induction false} NoTies<T(!new)>(leq: Order<T>, xs: seq<T>, x: T)
    requires forall i :: 0 <= i < |xs| ==> !leq(xs[i], x)
    ensures Ties(leq, xs, x) == []
  {
    if xs != [] { NoTies(leq, xs[1..], x); }
  }

  /** Blocks of n, counted from the left, are ascending. */
  predicate BlocksAscending<T>(leq: Order<T>, xs: seq<T>, n: nat)
    requires n > 0
    decreases |xs|
  {
    xs != [] ==> Ascending(leq, xs[..Min(n, |xs|)]) && BlocksAscending(leq, xs[Min(n, |xs|)..], n)
  }

  lemma {:induction false} MergeSorts<S(!new), T(!new)>(
      cmp: Compare<S, T>, inv: S -> bool, leq: Order<T>, s: S, ps: seq<T>, qs: seq<T>)
    requires TotalPreorder(leq) && Decides(cmp, inv, leq) && inv(s) && Ascending(leq, ps) && Ascending(leq, qs)
    ensures Ascending(leq, Merge(cmp, s, ps, qs).list) && inv(Merge(cmp, s, ps, qs).state)
    decreases |ps| + |qs|
  {
    if ps != [] && qs != [] {
      var v := cmp(s, ps[0], qs[0]);
      var r := Merge(cmp, s, ps, qs).list;
      if v.order <= 0 {
        MergeSorts(cmp, inv, leq, v.state, ps[1..], qs);
        MergePermutes(cmp, v.state, ps[1..], qs);
        FirstBelow(leq, ps[0], ps[1..], qs, r[1..]);
      } else {
        MergeSorts(cmp, inv, leq, v.state, ps, qs[1..]);
        MergePermutes(cmp, v.state, ps, qs[1..]);
        FirstBelow(leq, qs[0], ps, qs[1..], r[1..]);
      }
    }
  }

  lemma FirstBelow<T(!new)>(leq: Order<T>, x: T, ps: seq<T>, qs: seq<T>, r: seq<T>)
    requires multiset(r) == multiset(ps) + multiset(qs)
    requires TotalPreorder(leq)
    requires forall i :: 0 <= i < |ps| ==> leq(x, ps[i])
    requires forall i :: 0 <= i < |qs| ==> leq(x, qs[i])
    ensures forall i :: 0 <= i < |r| ==> leq(x, r[i])
  {
    forall i | 0 <= i < |r|
      ensures leq(x, r[i])
    {
      assert r[i] in multiset(r);
      assert r[i] in ps || r[i] in qs;
    }
  }

  /** Merging keeps ties in order, those of the first list before those of the second. */
  lemma {:induction false} MergeStable<S(!new), T(!new)>(
      cmp: Compare<S, T>, inv: S -> bool, leq: Order<T>, s: S, ps: seq<T>, qs: seq<T>, x: T)
    requires TotalPreorder(leq) && Decides(cmp, inv, leq) && inv(s) && Ascending(leq, ps) && Ascending(leq, qs)
    ensures Ties(leq, Merge(cmp, s, ps, qs).list, x) == Ties(leq, ps, x) + Ties(leq, qs, x)
    decreases |ps| + |qs|
  {
    if ps != [] && qs != [] {
      var v := cmp(s, ps[0], qs[0]);
      if v.order <= 0 {
        MergeStable(cmp, inv, leq, v.state, ps[1..], qs, x);
      } else {
        MergeStable(cmp, inv, leq, v.state, ps, qs[1..], x);
        if leq(qs[0], x) && leq(x, qs[0]) { NoTies(leq, ps, x); }
      }
    }
  }

  /** Dropping the first two blocks of n, or what there is of them. */
  lemma TwoBlocks<T>(leq: Order<T>, xs: seq<T>, n: nat)
    requires n > 0 && BlocksAscending(leq, xs, n) && xs != []
    ensures var a, b := Min(n, |xs|), Min(2 * n, |xs|);
            Ascending(leq, xs[..a]) && Ascending(leq, xs[a..b]) && BlocksAscending(leq, xs[b..], n)
  {
    hide Ascending;
    var a, b := Min(n, |xs|), Min(2 * n, |xs|);
    var ys := xs[a..];
    if ys != [] {
      assert ys[..Min(n, |ys|)] == xs[a..b] && ys[Min(n, |ys|)..] == xs[b..];
    } else {
      assert xs[b..] == [] && xs[a..b] == ys[..0];
      NothingAscends(leq, ys[..0]);
    }
  }

  lemma NothingAscends<T>(leq: Order<T>, xs: seq<T>)
    requires xs == []
    ensures Ascending(leq, xs)
  {
  }

  /** The pass invariant: merging neighbours turns ascending blocks of n into ascending blocks of 2n. */
  lemma {:induction false} PassSorts<S(!new), T(!new)>(
      cmp: Compare<S, T>, inv: S -> bool, leq: Order<T>, s: S, xs: seq<T>, n: nat)
    requires TotalPreorder(leq) && Decides(cmp, inv, leq) && inv(s) && n > 0 && BlocksAscending(leq, xs, n)
    ensures var r := Pass(cmp, s, xs, n); BlocksAscending(leq, r.list, 2 * n) && inv(r.state)
    decreases |xs|
  {
    hide TotalPreorder, Decides, Ascending, BlocksAscending, Merge;
    if xs == [] {
      NoBlocks(leq, n);
    } else {
      var a, b := Min(n, |xs|), Min(2 * n, |xs|);
      TwoBlocks(leq, xs, n);
      MergeSorts(cmp, inv, leq, s, xs[..a], xs[a..b]);
      var m := Merge(cmp, s, xs[..a], xs[a..b]);
      PassSorts(cmp, inv, leq, m.state, xs[b..], n);
      BlockInFront(leq, m.list, Pass(cmp, m.state, xs[b..], n).list, 2 * n);
    }
  }

  lemma NoBlocks<T>(leq: Order<T>, n: nat)
    requires n > 0
    ensures BlocksAscending(leq, [], 2 * n)
  {
  }

  /** A pass over ascending blocks changes no two ties round. */
  lemma {:induction false} PassStable<S(!new), T(!new)>(
      cmp: Compare<S, T>, inv: S -> bool, leq: Order<T>, s: S, xs: seq<T>, n: nat, x: T)
    requires TotalPreorder(leq) && Decides(cmp, inv, leq) && inv(s) && n > 0 && BlocksAscending(leq, xs, n)
    ensures Ties(leq, Pass(cmp, s, xs, n).list, x) == Ties(leq, xs, x)
    decreases |xs|
  {
    hide TotalPreorder, Decides, Ascending, BlocksAscending, Merge, Ties;
    if xs != [] {
      var a, b := Min(n, |xs|), Min(2 * n, |xs|);
      TwoBlocks(leq, xs, n);
      MergeSorts(cmp, inv, leq, s, xs[..a], xs[a..b]);
      MergeStable(cmp, inv, leq, s, xs[..a], xs[a..b], x);
      var m := Merge(cmp, s, xs[..a], xs[a..b]);
      PassStable(cmp, inv, leq, m.state, xs[b..], n, x);
      TiesConcat(leq, m.list, Pass(cmp, m.state, xs[b..], n).list, x);
      TiesConcat(leq, xs[..a], xs[a..b], x);
      TiesConcat(leq, xs[..b], xs[b..], x);
      assert xs == xs[..b] + xs[b..] && xs[..b] == xs[..a] + xs[a..b];
    }
  }

  lemma BlockInFront<T>(leq: Order<T>, block: seq<T>, xs: seq<T>, n: nat)
    requires n > 0 && 0 < |block| <= n && Ascending(leq, block) && BlocksAscending(leq, xs, n)
    requires |block| < n ==> xs == []
    ensures BlocksAscending(leq, block + xs, n)
  {
    var ys := block + xs;
    assert ys[..Min(n, |ys|)] == block && ys[Min(n, |ys|)..] == xs;
  }

  lemma OneBlock<T>(leq: Order<T>, xs: seq<T>, n: nat)
    requires n > 0 && |xs| <= n && BlocksAscending(leq, xs, n)
    ensures Ascending(leq, xs)
  {
    assert xs[..|xs|] == xs;
  }

  lemma {:induction false} SortSorts<S(!new), T(!new)>(
      cmp: Compare<S, T>, inv: S -> bool, leq: Order<T>, s: S, xs: seq<T>, n: nat)
    requires TotalPreorder(leq) && Decides(cmp, inv, leq) && inv(s) && n > 0 && BlocksAscending(leq, xs, n)
    ensures var r := Sort(cmp, s, xs, n);
            Ascending(leq, r.list) && inv(r.state) && forall x :: Ties(leq, r.list, x) == Ties(leq, xs, x)
    decreases |xs| - n
  {
    hide TotalPreorder, Decides, Ascending, Pass, Ties;
    PassSorts(cmp, inv, leq, s, xs, n);
    var r := Pass(cmp, s, xs, n);
    forall x
      ensures Ties(leq, r.list, x) == Ties(leq, xs, x)
    {
      PassStable(cmp, inv, leq, s, xs, n, x);
    }
    if |xs| <= 2 * n {
      OneBlock(leq, r.list, 2 * n);
    } else {
      SortSorts(cmp, inv, leq, r.state, r.list, 2 * n);
    }
  }

  lemma {:induction false} BlocksOfOne<T(!new)>(leq: Order<T>, xs: seq<T>)
    ensures BlocksAscending(leq, xs, 1)
    decreases |xs|
  {
    if xs != [] { BlocksOfOne(leq, xs[1..]); }
  }

  /** Main result: with a comparison that decides a total preorder the list comes out ascending, and ties stay
      in their original order. */
  lemma MergeSortCorrect<S(!new), T(!new)>(cmp: Compare<S, T>, inv: S -> bool, leq: Order<T>, s: S, xs: seq<T>)
    requires TotalPreorder(leq) && Decides(cmp, inv, leq) && inv(s)
    ensures var r := Sort(cmp, s, xs, 1);
            Ascending(leq, r.list) && inv(r.state) && multiset(r.list) == multiset(xs)
            && forall x :: Ties(leq, r.list, x) == Ties(leq, xs, x)
  {
    BlocksOfOne(leq, xs);
    SortSorts(cmp, inv, leq, s, xs, 1);
    SortPermutes(cmp, s, xs, 1);
  }

  // ---------------------------------------------------------------- uniqueness of what is sorted

  function Map<T, U>(f: T -> U, xs: seq<T>): (r: seq<U>)
    ensures |r| == |xs|
  {
    seq(|xs|, i requires 0 <= i < |xs| => f(xs[i]))
  }

  lemma Cancel<T>(x: T, a: multiset<T>, b: multiset<T>)
    requires multiset{x} + a == multiset{x} + b
    ensures a == b
  {
    assert a == (multiset{x} + a) - multiset{x};
    assert b == (multiset{x} + b) - multiset{x};
  }

  lemma {:induction false} MapMultiset<T, U>(f: T -> U, xs: seq<T>, ys: seq<T>)
    requires multiset(xs) == multiset(ys)
    ensures multiset(Map(f, xs)) == multiset(Map(f, ys))
    decreases |xs|
  {
    if xs == [] {
      assert ys == [] by { assert |multiset(ys)| == 0; }
    } else {
      var x, rest := xs[0], xs[1..];
      assert xs == [x] + rest && x in multiset(ys);
      var i :| 0 <= i < |ys| && ys[i] == x;
      assert ys == ys[..i] + [x] + ys[i + 1..];
      assert multiset(ys) == multiset{x} + multiset(ys[..i] + ys[i + 1..]);
      assert multiset(xs) == multiset{x} + multiset(rest);
      Cancel(x, multiset(rest), multiset(ys[..i] + ys[i + 1..]));
      MapMultiset(f, rest, ys[..i] + ys[i + 1..]);
      assert Map(f, xs) == [f(x)] + Map(f, rest);
      assert Map(f, ys) == Map(f, ys[..i]) + [f(x)] + Map(f, ys[i + 1..]);
      assert Map(f, ys[..i] + ys[i + 1..]) == Map(f, ys[..i]) + Map(f, ys[i + 1..]);
    }
  }

  predicate Rising(a: seq<int>) { forall i, j :: 0 <= i < j < |a| ==> a[i] <= a[j] }

  /** Two ascending sequences of the same numbers are equal. */
  lemma {:induction false} RisingUnique(a: seq<int>, b: seq<int>)
    requires multiset(a) == multiset(b) && Rising(a) && Rising(b)
    ensures a == b
    decreases |a|
  {
    assert |a| == |multiset(a)| == |multiset(b)| == |b|;
    if a != [] {
      SameFirst(a, b);
      assert a == [a[0]] + a[1..] && b == [b[0]] + b[1..];
      assert multiset(a) == multiset{a[0]} + multiset(a[1..]) && multiset(b) == multiset{b[0]} + multiset(b[1..]);
      Cancel(a[0], multiset(a[1..]), multiset(b[1..]));
      RisingUnique(a[1..], b[1..]);
    }
  }

  lemma SameFirst(a: seq<int>, b: seq<int>)
    requires multiset(a) == multiset(b) && Rising(a) && Rising(b) && |a| == |b| > 0
    ensures a[0] == b[0]
  {
    assert a[0] in multiset(b) && b[0] in multiset(a);
    assert a[0] in b && b[0] in a;
  }

  // ---------------------------------------------------------------- keys

  /** Comparing elements by a key of theirs. */
  function By<S, A, B>(cmp: Compare<S, B>, f: A -> B): Compare<S, A> { (s: S, x: A, y: A) => cmp(s, f(x), f(y)) }

  lemma MapConcat<A, B>(f: A -> B, xs: seq<A>, ys: seq<A>)
    ensures Map(f, xs + ys) == Map(f, xs) + Map(f, ys)
  {
  }

  lemma {:induction false} MergeByKey<S, A, B>(cmp: Compare<S, B>, f: A -> B, s: S, ps: seq<A>, qs: seq<A>)
    ensures var r, t := Merge(By(cmp, f), s, ps, qs), Merge(cmp, s, Map(f, ps), Map(f, qs));
            Map(f, r.list) == t.list && r.state == t.state
    decreases |ps| + |qs|
  {
    if ps != [] && qs != [] {
      var v := cmp(s, f(ps[0]), f(qs[0]));
      if v.order <= 0 {
        MergeByKey(cmp, f, v.state, ps[1..], qs);
        assert Map(f, ps)[1..] == Map(f, ps[1..]);
        MapConcat(f, [ps[0]], Merge(By(cmp, f), v.state, ps[1..], qs).list);
      } else {
        MergeByKey(cmp, f, v.state, ps, qs[1..]);
        assert Map(f, qs)[1..] == Map(f, qs[1..]);
        MapConcat(f, [qs[0]], Merge(By(cmp, f), v.state, ps, qs[1..]).list);
      }
    }
  }

  lemma {:induction false} PassByKey<S, A, B>(cmp: Compare<S, B>, f: A -> B, s: S, xs: seq<A>, n: nat)
    requires n > 0
    ensures var r, t := Pass(By(cmp, f), s, xs, n), Pass(cmp, s, Map(f, xs), n);
            Map(f, r.list) == t.list && r.state == t.state
    decreases |xs|
  {
    hide Merge;
    if xs != [] {
      var a, b := Min(n, |xs|), Min(2 * n, |xs|);
      MergeByKey(cmp, f, s, xs[..a], xs[a..b]);
      assert Map(f, xs)[..a] == Map(f, xs[..a]) && Map(f, xs)[a..b] == Map(f, xs[a..b])
             && Map(f, xs)[b..] == Map(f, xs[b..]);
      var m := Merge(By(cmp, f), s, xs[..a], xs[a..b]);
      PassByKey(cmp, f, m.state, xs[b..], n);
      MapConcat(f, m.list, Pass(By(cmp, f), m.state, xs[b..], n).list);
    }
  }

  /** Sorting by key and then taking keys is taking keys and then sorting. */
  lemma {:induction false} SortByKey<S, A, B>(cmp: Compare<S, B>, f: A -> B, s: S, xs: seq<A>, n: nat)
    requires n > 0
    ensures var r, t := Sort(By(cmp, f), s, xs, n), Sort(cmp, s, Map(f, xs), n);
            Map(f, r.list) == t.list && r.state == t.state
    decreases |xs| - n
  {
    hide Pass;
    PassByKey(cmp, f, s, xs, n);
    var r := Pass(By(cmp, f), s, xs, n);
    if |xs| > 2 * n { SortByKey(cmp, f, r.state, r.list, 2 * n); }
  }
}
