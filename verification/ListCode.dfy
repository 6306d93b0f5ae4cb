/** The linked list of the benchmark: nodes relinked in place. */
module ListCode {
  import opened ListSort

  /** The address of a list item's data; the data itself is part of the comparison's state. */
  type Ref = int

  class Node {
    var next: Node?
    var info: Ref

    constructor (next: Node?, info: Ref)
      ensures this.next == next && this.info == info
    {
      this.next, this.info := next, info;
    }
  }

  ghost predicate Distinct(ns: seq<Node>) { forall i, j :: 0 <= i < j < |ns| ==> ns[i] != ns[j] }

  /** Each node but the last links to the one after it. */
  ghost predicate Path(ns: seq<Node>)
    reads set n | n in ns
  {
    forall i :: 0 <= i < |ns| - 1 ==> ns[i].next == ns[i + 1]
  }

  /** The null-terminated list from head is ns. */
  ghost predicate List(head: Node?, ns: seq<Node>)
    reads set n | n in ns
  {
    Path(ns) && (if ns == [] then head == null else head == ns[0] && ns[|ns| - 1].next == null)
  }

  /** ns is an open list from head to tail; what the tail links to does not matter. */
  ghost predicate Open(head: Node?, tail: Node?, ns: seq<Node>)
    reads set n | n in ns
  {
    Path(ns) && (if ns == [] then head == null && tail == null else head == ns[0] && tail == ns[|ns| - 1])
  }

  ghost predicate Keyed(key: Node -> Ref, ns: seq<Node>)
    reads set n | n in ns
  {
    forall n :: n in ns ==> n.info == key(n)
  }

  ghost predicate Apart(a: seq<Node>, b: seq<Node>) { forall n :: n in a ==> n !in b }

  /** A merge under way: the merged list so far, what is left of p's block, and everything from q on. */
  ghost predicate Merging(head: Node?, tail: Node?, out: seq<Node>, p: Node?, ps: seq<Node>, q: Node?, rest: seq<Node>)
    reads (set n | n in out) + (set n | n in ps) + (set n | n in rest)
  {
    Open(head, tail, out) && Path(ps) && (ps != [] ==> p == ps[0]) && List(q, rest)
    && Distinct(out) && Distinct(ps) && Distinct(rest) && Apart(out, ps) && Apart(out, rest) && Apart(ps, rest)
  }

  /** Appends node e to the open list. */
  method Append(head: Node?, tail: Node?, e: Node, ghost out: seq<Node>) returns (h: Node?)
    requires Open(head, tail, out) && e !in out && Distinct(out)
    modifies (set n | n in out)`next
    ensures Open(h, e, out + [e])
    ensures forall n: Node :: n in out && n != tail ==> n.next == old(n.next)
  {
    if tail != null {
      tail.next := e;
      h := head;
    } else {
      h := e;
    }
  }

  method TakeFirst(head: Node?, tail: Node?, p: Node, q: Node?,
                   ghost out: seq<Node>, ghost ps: seq<Node>, ghost rest: seq<Node>)
    returns (h: Node?, next: Node?)
    requires ps != [] && Merging(head, tail, out, p, ps, q, rest)
    modifies (set n | n in out)`next
    ensures Merging(h, p, out + [p], next, ps[1..], q, rest)
  {
    next := p.next;
    h := Append(head, tail, p, out);
  }

  method TakeSecond(head: Node?, tail: Node?, p: Node?, q: Node,
                    ghost out: seq<Node>, ghost ps: seq<Node>, ghost rest: seq<Node>)
    returns (h: Node?, next: Node?)
    requires rest != [] && Merging(head, tail, out, p, ps, q, rest)
    modifies (set n | n in out)`next
    ensures Merging(h, q, out + [q], p, ps, next, rest[1..])
  {
    next := q.next;
    h := Append(head, tail, q, out);
  }

  /** The block of p is merged with the first k nodes of `rest`; what comes after them stays. */
  ghost function Outcome<S>(cmp: Compare<S, Node>, s: S, ps: seq<Node>, rest: seq<Node>, k: nat): Sorted<S, Node> {
    Merge(cmp, s, ps, rest[..Min(k, |rest|)])
  }

  function Before<S, T>(x: T, r: Sorted<S, T>): Sorted<S, T> { Sorted([x] + r.list, r.state) }

  lemma OutcomeFirst<S>(cmp: Compare<S, Node>, s: S, ps: seq<Node>, rest: seq<Node>, k: nat)
    requires ps != []
    ensures k == 0 || rest == [] ==> Outcome(cmp, s, ps, rest, k) == Before(ps[0], Outcome(cmp, s, ps[1..], rest, k))
    ensures k > 0 && rest != [] && cmp(s, ps[0], rest[0]).order <= 0 ==>
              var t := cmp(s, ps[0], rest[0]).state;
              Outcome(cmp, s, ps, rest, k) == Before(ps[0], Outcome(cmp, t, ps[1..], rest, k))
  {
    var qs := rest[..Min(k, |rest|)];
    if k == 0 || rest == [] {
      assert qs == [] && ps == [ps[0]] + ps[1..];
    } else {
      assert qs[0] == rest[0];
    }
  }

  lemma OutcomeSecond<S>(cmp: Compare<S, Node>, s: S, ps: seq<Node>, rest: seq<Node>, k: nat)
    requires k > 0 && rest != []
    ensures ps == [] ==> Outcome(cmp, s, ps, rest, k) == Before(rest[0], Outcome(cmp, s, ps, rest[1..], k - 1))
    ensures ps != [] && cmp(s, ps[0], rest[0]).order > 0 ==>
              var t := cmp(s, ps[0], rest[0]).state;
              Outcome(cmp, s, ps, rest, k) == Before(rest[0], Outcome(cmp, t, ps, rest[1..], k - 1))
    ensures rest[Min(k, |rest|)..] == rest[1..][Min(k - 1, |rest| - 1)..]
  {
    var qs := rest[..Min(k, |rest|)];
    assert qs[0] == rest[0] && qs[1..] == rest[1..][..Min(k - 1, |rest| - 1)];
    assert qs == [qs[0]] + qs[1..];
  }

  /** Merges psize nodes from p with at most qsize nodes from q behind the open list. */
  method MergeBlocks<S>(cmp: Compare<S, Ref>, s0: S, head0: Node?, tail0: Node?, p0: Node?, psize0: nat,
                        q0: Node?, qsize0: nat,
                        ghost key: Node -> Ref, ghost out0: seq<Node>, ghost ps0: seq<Node>, ghost rest0: seq<Node>)
    returns (s: S, head: Node?, tail: Node?, q: Node?, ghost out: seq<Node>)
    requires Merging(head0, tail0, out0, p0, ps0, q0, rest0) && Keyed(key, ps0 + rest0) && |ps0| == psize0
    modifies (set n | n in out0 + ps0 + rest0)`next
    ensures var r, k := Outcome(By(cmp, key), s0, ps0, rest0, qsize0), Min(qsize0, |rest0|);
            s == r.state && out == out0 + r.list && Merging(head, tail, out, null, [], q, rest0[k..])
    ensures forall n :: n in out ==> n in out0 + ps0 + rest0
  {
    hide Outcome, Merging;
    s, head, tail, q, out := s0, head0, tail0, q0, out0;
    var p, psize, qsize := p0, psize0, qsize0;
    ghost var ps, rest, f := ps0, rest0, By(cmp, key);
    while psize > 0 || (qsize > 0 && q != null)
      invariant |ps| == psize && Merging(head, tail, out, p, ps, q, rest) && Keyed(key, ps + rest)
      invariant forall n :: n in out + ps + rest ==> n in out0 + ps0 + rest0
      invariant rest[Min(qsize, |rest|)..] == rest0[Min(qsize0, |rest0|)..]
      invariant Outcome(f, s, ps, rest, qsize).state == Outcome(f, s0, ps0, rest0, qsize0).state
      invariant out + Outcome(f, s, ps, rest, qsize).list == out0 + Outcome(f, s0, ps0, rest0, qsize0).list
      decreases psize + |rest|
    {
      MergingHeads(head, tail, out, p, ps, q, rest);
      var first := psize > 0;
      ghost var t := s;
      if psize > 0 && qsize > 0 && q != null {
        var v := cmp(s, p.info, q.info);
        s, first := v.state, v.order <= 0;
      }
      if first {
        OutcomeFirst(f, t, ps, rest, qsize);
        var e := p;
        head, p := TakeFirst(head, tail, p, q, out, ps, rest);
        tail, psize, out, ps := e, psize - 1, out + [ps[0]], ps[1..];
      } else {
        OutcomeSecond(f, t, ps, rest, qsize);
        var e := q;
        head, q := TakeSecond(head, tail, p, q, out, ps, rest);
        tail, qsize, out, rest := e, qsize - 1, out + [rest[0]], rest[1..];
      }
    }
    MergingHeads(head, tail, out, p, ps, q, rest);
    OutcomeDone(f, s, rest, qsize);
    MergingRest(head, tail, out, p, q, rest);
  }

  lemma OutcomeDone<S>(cmp: Compare<S, Node>, s: S, rest: seq<Node>, k: nat)
    requires k == 0 || rest == []
    ensures Outcome(cmp, s, [], rest, k) == Sorted([], s) && rest[Min(k, |rest|)..] == rest
  {
  }

  lemma MergingHeads(head: Node?, tail: Node?, out: seq<Node>, p: Node?, ps: seq<Node>, q: Node?, rest: seq<Node>)
    requires Merging(head, tail, out, p, ps, q, rest)
    ensures (ps != [] ==> p == ps[0]) && (q == null <==> rest == []) && (rest != [] ==> q == rest[0])
  {
  }

  lemma MergingRest(head: Node?, tail: Node?, out: seq<Node>, p: Node?, q: Node?, rest: seq<Node>)
    requires Merging(head, tail, out, p, [], q, rest)
    ensures Merging(head, tail, out, null, [], q, rest)
  {
  }

  // ---------------------------------------------------------------- passes

  /** Steps at most insize nodes along a non-empty list. */
  method StepAlong(p: Node, insize: nat, ghost xs: seq<Node>) returns (q: Node?, psize: nat)
    requires insize > 0 && xs != [] && List(p, xs)
    ensures psize == Min(insize, |xs|) && q == if psize < |xs| then xs[psize] else null
  {
    q, psize := p, 0;
    var i := 0;
    while i < insize
      invariant psize == i <= insize && i < |xs| && q == xs[i]
    {
      psize := psize + 1;
      assert i + 1 < |xs| ==> xs[i].next == xs[i + 1];
      q := q.next;
      if q == null { break; }
      i := i + 1;
    }
  }

  lemma CutList(head: Node?, ns: seq<Node>, k: nat)
    requires List(head, ns) && Distinct(ns) && k <= |ns|
    ensures List(if k < |ns| then ns[k] else null, ns[k..]) && Path(ns[..k])
    ensures Distinct(ns[..k]) && Distinct(ns[k..]) && Apart(ns[..k], ns[k..])
  {
  }

  /** Nodes to go after m merges of two blocks of n, out of `all`. */
  function Left(all: nat, n: nat, m: nat): nat { if all > 2 * n * m then all - 2 * n * m else 0 }

  lemma OneMergeLess(all: nat, n: nat, m: nat)
    requires n > 0
    ensures var l := Left(all, n, m); Left(all, n, m + 1) == l - Min(2 * n, l)
    ensures m == 0 ==> Left(all, n, m) == all
    ensures Left(all, n, m) == 0 && all > 0 ==> m > 0 && (m == 1 ==> all <= 2 * n)
    ensures m > 1 && Left(all, n, m - 1) > 0 ==> all > 2 * n
  {
    assert 2 * n * (m + 1) == 2 * n * m + 2 * n;
    if m > 1 { assert 2 * n * (m - 1) >= 2 * n; }
  }

  lemma SplitSizes(rest: seq<Node>, n: nat, k: nat)
    requires n > 0 && k == Min(n, |rest|)
    ensures var after := rest[k..]; |after[Min(n, |after|)..]| == |rest| - Min(2 * n, |rest|)
    ensures forall x :: x in rest[..k] + rest[k..] <==> x in rest
    ensures var after := rest[k..]; forall x :: x in after[Min(n, |after|)..] ==> x in rest
  {
    assert rest == rest[..k] + rest[k..];
  }

  /** Merges the next two blocks behind the open list. */
  method MergeNext<S>(cmp: Compare<S, Ref>, s0: S, head0: Node?, tail0: Node?, p: Node, insize: nat,
                      ghost key: Node -> Ref, ghost out0: seq<Node>, ghost rest0: seq<Node>)
    returns (s: S, head: Node?, tail: Node?, next: Node?, ghost out: seq<Node>, ghost rest: seq<Node>)
    requires insize > 0 && rest0 != [] && Merging(head0, tail0, out0, null, [], p, rest0) && Keyed(key, rest0)
    modifies (set n | n in out0 + rest0)`next
    ensures Merging(head, tail, out, null, [], next, rest) && out != []
    ensures forall n :: n in out + rest ==> n in out0 + rest0
    ensures forall n :: n in rest ==> n in rest0
    ensures |rest| == |rest0| - Min(2 * insize, |rest0|)
    ensures var r, t := Pass(By(cmp, key), s0, rest0, insize), Pass(By(cmp, key), s, rest, insize);
            r.state == t.state && out0 + r.list == out + t.list
  {
    hide Merging, List, Distinct, Outcome, Pass, Path, Open;
    MergingList(head0, tail0, out0, p, rest0);
    var q, psize := StepAlong(p, insize, rest0);
    ghost var ps, after := rest0[..psize], rest0[psize..];
    CutMerging(head0, tail0, out0, p, rest0, psize);
    SplitSizes(rest0, insize, psize);
    PassUnfolds(By(cmp, key), s0, rest0, insize, ps, after);
    s, head, tail, next, out := MergeBlocks(cmp, s0, head0, tail0, p, psize, q, insize, key, out0, ps, after);
    rest := after[Min(insize, |after|)..];
    OutcomeSize(By(cmp, key), s0, ps, after, insize);
  }

  lemma OutcomeSize<S>(cmp: Compare<S, Node>, s: S, ps: seq<Node>, rest: seq<Node>, k: nat)
    ensures |Outcome(cmp, s, ps, rest, k).list| >= |ps|
  {
  }

  /** One pass over the list with blocks of insize. */
  method MergePass<S>(cmp: Compare<S, Ref>, s0: S, list: Node, insize: nat, ghost key: Node -> Ref, ghost xs: seq<Node>)
    returns (s: S, head: Node?, nmerges: nat, ghost ys: seq<Node>)
    requires insize > 0 && xs != [] && List(list, xs) && Distinct(xs) && Keyed(key, xs)
    modifies (set n | n in xs)`next
    ensures Sorted(ys, s) == Pass(By(cmp, key), s0, xs, insize)
    ensures List(head, ys) && Distinct(ys) && head != null && (nmerges <= 1 <==> |xs| <= 2 * insize)
  {
    hide Merging, List, Distinct, Pass, Path, Open, Left;
    var p: Node?, tail: Node? := list, null;
    s, head, nmerges := s0, null, 0;
    ghost var rest, f := xs, By(cmp, key);
    ys := [];
    MergingStart(list, xs);
    MergingHeads(null, null, [], null, [], p, rest);
    OneMergeLess(|xs|, insize, 0);
    while p != null
      invariant Merging(head, tail, ys, null, [], p, rest) && (p == null <==> rest == [])
      invariant (forall n :: n in ys + rest ==> n in xs) && (forall n :: n in rest ==> n in xs) && Keyed(key, xs)
      invariant var r, t := Pass(f, s0, xs, insize), Pass(f, s, rest, insize);
                r.state == t.state && r.list == ys + t.list
      invariant |rest| == Left(|xs|, insize, nmerges)
      invariant (nmerges > 0 ==> ys != [] && Left(|xs|, insize, nmerges - 1) > 0)
      decreases |rest|
    {
      OneMergeLess(|xs|, insize, nmerges);
      nmerges := nmerges + 1;
      s, head, tail, p, ys, rest := MergeNext(cmp, s, head, tail, p, insize, key, ys, rest);
      MergingHeads(head, tail, ys, null, [], p, rest);
    }
    OneMergeLess(|xs|, insize, nmerges);
    EmptyPass(f, s, insize);
    MergingEnd(head, tail, ys);
    tail.next := null;
    Closed(head, tail, ys);
  }

  lemma EmptyPass<S>(cmp: Compare<S, Node>, s: S, n: nat)
    requires n > 0
    ensures Pass(cmp, s, [], n) == Sorted([], s)
  {
  }

  lemma Closed(head: Node?, tail: Node, out: seq<Node>)
    requires out != [] && head == out[0] && tail == out[|out| - 1] && Path(out) && tail.next == null
    ensures List(head, out)
  {
  }

  lemma PassUnfolds<S>(cmp: Compare<S, Node>, s: S, rest: seq<Node>, n: nat, ps: seq<Node>, after: seq<Node>)
    requires n > 0 && rest != [] && ps == rest[..Min(n, |rest|)] && after == rest[Min(n, |rest|)..]
    ensures var m, k := Outcome(cmp, s, ps, after, n), Min(n, |after|);
            var r, t := Pass(cmp, s, rest, n), Pass(cmp, m.state, after[k..], n);
            r.state == t.state && r.list == m.list + t.list
  {
    var a, b := Min(n, |rest|), Min(2 * n, |rest|);
    var k := Min(n, |after|);
    assert after[..k] == rest[a..b] && after[k..] == rest[b..];
  }

  lemma MergingStart(list: Node?, xs: seq<Node>)
    requires List(list, xs) && Distinct(xs)
    ensures Merging(null, null, [], null, [], list, xs)
  {
  }

  lemma MergingList(head: Node?, tail: Node?, out: seq<Node>, q: Node?, rest: seq<Node>)
    requires Merging(head, tail, out, null, [], q, rest)
    ensures List(q, rest) && Distinct(rest)
  {
  }

  lemma MergingEnd(head: Node?, tail: Node?, out: seq<Node>)
    requires Merging(head, tail, out, null, [], null, []) && out != []
    ensures Path(out) && Distinct(out) && head == out[0] && tail == out[|out| - 1]
  {
  }

  /** Starting the merge of the first block with what follows it. */
  lemma CutMerging(head: Node?, tail: Node?, out: seq<Node>, q: Node, rest: seq<Node>, k: nat)
    requires Merging(head, tail, out, null, [], q, rest) && 0 < k <= |rest|
    ensures Merging(head, tail, out, q, rest[..k], if k < |rest| then rest[k] else null, rest[k..])
  {
    CutList(q, rest, k);
  }

  // ---------------------------------------------------------------- the sort

  lemma SameMembers<T>(a: seq<T>, b: seq<T>)
    requires multiset(a) == multiset(b)
    ensures forall x :: x in a <==> x in b
  {
    forall x
      ensures x in a <==> x in b
    {
      assert x in a <==> x in multiset(a);
      assert x in b <==> x in multiset(b);
    }
  }

  lemma SortUnfolds<S>(cmp: Compare<S, Node>, s: S, xs: seq<Node>, n: nat)
    requires n > 0
    ensures var r := Pass(cmp, s, xs, n);
            Sort(cmp, s, xs, n) == if |xs| <= 2 * n then r else Sort(cmp, r.state, r.list, 2 * n)
  {
  }

  /** Sorts a non-empty list in place: the same nodes, in the order of the sort on sequences. */
  method MergeSort<S>(list: Node, cmp: Compare<S, Ref>, s0: S, ghost key: Node -> Ref, ghost xs: seq<Node>)
    returns (head: Node?, s: S, ghost ys: seq<Node>)
    requires xs != [] && List(list, xs) && Distinct(xs) && Keyed(key, xs)
    modifies (set n | n in xs)`next
    ensures Sorted(ys, s) == Sort(By(cmp, key), s0, xs, 1)
    ensures List(head, ys) && Distinct(ys) && multiset(ys) == multiset(xs)
  {
    hide List, Distinct, Pass, Sort;
    var insize, nmerges := 1, 2;
    ghost var f := By(cmp, key);
    head, s, ys := list, s0, xs;
    SortPermutes(f, s0, xs, 1);
    while nmerges > 1
      invariant insize > 0 && ys != [] && head != null && List(head, ys) && Distinct(ys) && Keyed(key, ys)
      invariant multiset(ys) == multiset(xs) && |ys| == |xs| && forall n :: n in ys ==> n in xs
      invariant nmerges > 1 ==> Sort(f, s, ys, insize) == Sort(f, s0, xs, 1)
      invariant nmerges <= 1 ==> Sorted(ys, s) == Sort(f, s0, xs, 1)
      decreases nmerges > 1, |xs| - insize
    {
      PassPermutes(f, s, ys, insize);
      SortUnfolds(f, s, ys, insize);
      s, head, nmerges, ys := MergePass(cmp, s, head, insize, key, ys);
      SameMembers(ys, xs);
      insize := 2 * insize;
    }
  }
}
