/** The list benchmark: search, reverse, move, sort, remove and put back, sort again; and the list is as before. */
module ListBench {
  import opened ListSort
  import opened ListCode
  import opened ListData

  // ---------------------------------------------------------------- operations

  predicate Matches<R>(w: World<R>, r: Ref, want: Item) {
    if want.idx >= 0 then w.data(r).idx == want.idx else w.data(r).data16 & 0xff == want.data16
  }

  lemma NextInList(head: Node?, ns: seq<Node>, i: nat)
    requires List(head, ns) && i < |ns|
    ensures ns[i].next == if i + 1 < |ns| then ns[i + 1] else null
  {
  }

  /** The first node with the wanted index, or with the wanted data when no index is wanted. */
  method Find<R>(list: Node?, w: World<R>, want: Item, ghost xs: seq<Node>) returns (found: Node?, ghost i: nat)
    requires List(list, xs)
    ensures i <= |xs| && found == if i < |xs| then xs[i] else null
    ensures (i < |xs| ==> Matches(w, xs[i].info, want)) && forall j :: 0 <= j < i ==> !Matches(w, xs[j].info, want)
  {
    if want.idx >= 0 {
      found, i := FindIdx(list, w, want, xs);
    } else {
      found, i := FindData(list, w, want, xs);
    }
  }

  method FindIdx<R>(list: Node?, w: World<R>, want: Item, ghost xs: seq<Node>) returns (found: Node?, ghost i: nat)
    requires List(list, xs)
    ensures i <= |xs| && found == if i < |xs| then xs[i] else null
    ensures (i < |xs| ==> w.data(xs[i].info).idx == want.idx)
    ensures forall j :: 0 <= j < i ==> w.data(xs[j].info).idx != want.idx
  {
    hide List;
    found, i := list, 0;
    ListHead(list, xs);
    while found != null && w.data(found.info).idx != want.idx
      invariant i <= |xs| && found == if i < |xs| then xs[i] else null
      invariant forall j :: 0 <= j < i ==> w.data(xs[j].info).idx != want.idx
      decreases |xs| - i
    {
      NextInList(list, xs, i);
      found, i := found.next, i + 1;
    }
  }

  method FindData<R>(list: Node?, w: World<R>, want: Item, ghost xs: seq<Node>) returns (found: Node?, ghost i: nat)
    requires List(list, xs)
    ensures i <= |xs| && found == if i < |xs| then xs[i] else null
    ensures i < |xs| ==> w.data(xs[i].info).data16 & 0xff == want.data16
    ensures forall j :: 0 <= j < i ==> w.data(xs[j].info).data16 & 0xff != want.data16
  {
    hide List;
    found, i := list, 0;
    ListHead(list, xs);
    while found != null && w.data(found.info).data16 & 0xff != want.data16
      invariant i <= |xs| && found == if i < |xs| then xs[i] else null
      invariant forall j :: 0 <= j < i ==> w.data(xs[j].info).data16 & 0xff != want.data16
      decreases |xs| - i
    {
      NextInList(list, xs, i);
      found, i := found.next, i + 1;
    }
  }

  function Reversed<T>(xs: seq<T>): (r: seq<T>)
    ensures |r| == |xs| && multiset(r) == multiset(xs)
    ensures forall i :: 0 <= i < |xs| ==> r[i] == xs[|xs| - 1 - i]
  {
    if xs == [] then [] else
      assert xs == [xs[0]] + xs[1..];
      Reversed(xs[1..]) + [xs[0]]
  }

  /** Turns the first node of the rest round to head the part already reversed. */
  method TurnOne(list: Node, head: Node?, ghost rest: seq<Node>, ghost done: seq<Node>) returns (next: Node?)
    requires rest != [] && List(list, rest) && Distinct(rest) && List(head, done) && Apart(rest, done)
    modifies list`next
    ensures List(next, rest[1..]) && List(list, [list] + done) && Distinct(rest[1..]) && Apart(rest[1..], [list] + done)
    ensures next == null <==> rest[1..] == []
  {
    assert |rest| > 1 ==> rest[0].next == rest[1];
    assert list in rest && forall n :: n in done ==> n != list;
    next := list.next;
    list.next := head;
    ghost var ns, ms := rest[1..], [list] + done;
    forall j | 0 <= j < |ns| - 1
      ensures ns[j].next == ns[j + 1]
    {
      assert rest[j + 1].next == rest[j + 2];
    }
    assert ns != [] ==> ns[|ns| - 1] == rest[|rest| - 1];
    forall j | 0 <= j < |ms| - 1
      ensures ms[j].next == ms[j + 1]
    {
      assert j > 0 ==> ms[j] in done && done[j - 1].next == done[j];
    }
    assert done != [] ==> ms[|ms| - 1] == done[|done| - 1] && done[|done| - 1] in done;
  }

  method Reverse(list0: Node, ghost xs: seq<Node>) returns (head: Node?)
    requires xs != [] && List(list0, xs) && Distinct(xs)
    modifies (set n | n in xs)`next
    ensures List(head, Reversed(xs)) && head != null && Distinct(Reversed(xs))
  {
    hide List, Apart, Distinct, Reversed;
    var list: Node? := list0;
    head := null;
    ghost var done: seq<Node>, rest := [], xs;
    DistinctByMultiset(xs, Reversed(xs));
    StartReversing(list0, xs);
    while list != null
      invariant List(list, rest) && List(head, done) && Apart(rest, done) && Distinct(rest)
      invariant (list == null <==> rest == []) && (rest != [] ==> list == rest[0]) && (done != [] ==> head != null)
      invariant Reversed(xs) == Reversed(rest) + done && forall n :: n in rest ==> n in xs
      decreases |rest|
    {
      TurnedRound(rest, done);
      var next := TurnOne(list, head, rest, done);
      ListHead(next, rest[1..]);
      head, done, rest, list := list, [rest[0]] + done, rest[1..], next;
    }
    assert Reversed<Node>([]) + done == done;
  }

  lemma ListHead(head: Node?, ns: seq<Node>)
    requires List(head, ns)
    ensures head == if ns == [] then null else ns[0]
  {
  }

  lemma StartReversing(head: Node?, xs: seq<Node>)
    requires List(head, xs)
    ensures List(null, []) && Apart(xs, []) && Reversed(xs) == Reversed(xs) + []
    ensures head == if xs == [] then null else xs[0]
  {
  }

  lemma TurnedRound<T>(rest: seq<T>, done: seq<T>)
    requires rest != []
    ensures Reversed(rest) + done == Reversed(rest[1..]) + ([rest[0]] + done)
  {
  }

  /** The node after xs[i] moves to second place. */
  function Moved<T>(xs: seq<T>, i: nat): (r: seq<T>)
    requires i + 1 < |xs|
    ensures |r| == |xs| && multiset(r) == multiset(xs)
  {
    assert xs == [xs[0]] + xs[1..i + 1] + [xs[i + 1]] + xs[i + 2..];
    [xs[0], xs[i + 1]] + xs[1..i + 1] + xs[i + 2..]
  }

  lemma MovedAt<T>(xs: seq<T>, i: nat)
    requires i + 1 < |xs|
    ensures var r := Moved(xs, i);
            r[0] == xs[0] && r[1] == xs[i + 1] && (forall j :: 2 <= j <= i + 1 ==> r[j] == xs[j - 1])
            && (forall j :: i + 2 <= j < |xs| ==> r[j] == xs[j])
  {
  }

  lemma DistinctByMultiset(xs: seq<Node>, ys: seq<Node>)
    requires Distinct(xs) && multiset(xs) == multiset(ys)
    ensures Distinct(ys)
  {
    forall i, j | 0 <= i < j < |ys|
      ensures ys[i] != ys[j]
    {
      if ys[i] == ys[j] {
        OccursTwice(ys, i, j);
        OccursOnce(xs, ys[i]);
      }
    }
  }

  lemma OccursTwice<T>(ys: seq<T>, i: nat, j: nat)
    requires i < j < |ys| && ys[i] == ys[j]
    ensures multiset(ys)[ys[i]] >= 2
  {
    assert ys == ys[..i] + [ys[i]] + ys[i + 1..j] + [ys[j]] + ys[j + 1..];
  }

  lemma {:induction false} OccursOnce(xs: seq<Node>, x: Node)
    requires Distinct(xs)
    ensures multiset(xs)[x] <= 1
  {
    if xs != [] {
      assert xs == [xs[0]] + xs[1..];
      if xs[0] == x { assert x !in xs[1..]; } else { OccursOnce(xs[1..], x); }
    }
  }

  /** Moves the node after `at` to second place, if there is one. */
  method Cache(list: Node, at: Node, ghost xs: seq<Node>, ghost i: nat) returns (ghost ys: seq<Node>)
    requires List(list, xs) && Distinct(xs) && i < |xs| && at == xs[i]
    modifies (set n | n in xs)`next
    ensures List(list, ys) && multiset(ys) == multiset(xs) && Distinct(ys)
    ensures ys == if i + 1 < |xs| then Moved(xs, i) else xs
  {
    ys := xs;
    assert i + 1 < |xs| ==> xs[i].next == xs[i + 1];
    if at.next != null {
      ys := Moved(xs, i);
      DistinctByMultiset(xs, ys);
      SameMembers(ys, xs);
      var finder := at.next;
      at.next := finder.next;
      finder.next := list.next;
      list.next := finder;
      MovedAt(xs, i);
      assert forall j :: 1 <= j < i ==> xs[j].next == xs[j + 1];
      assert i > 0 ==> xs[0].next == xs[i + 1] && xs[i + 1].next == xs[1];
      assert i == 0 ==> xs[0].next == xs[1];
      forall j | 0 <= j < |ys| - 1
        ensures ys[j].next == ys[j + 1]
      {
      }
    }
  }

  // ---------------------------------------------------------------- remove and put back

  /** Swaps the data of xs[i] with the next node's and unlinks that node. */
  method Remove(item: Node, ghost head: Node, ghost xs: seq<Node>, ghost i: nat) returns (ret: Node)
    requires List(head, xs) && Distinct(xs) && i + 1 < |xs| && item == xs[i]
    modifies item, item.next
    ensures ret == xs[i + 1] && ret.next == null && ret.info == old(item.info) && item.info == old(ret.info)
    ensures List(head, xs[..i + 1] + xs[i + 2..])
  {
    assert xs[i].next == xs[i + 1];
    ret := item.next;
    assert i + 2 < |xs| ==> xs[i + 1].next == xs[i + 2];
    var tmp := item.info;
    item.info := ret.info;
    ret.info := tmp;
    item.next := item.next.next;
    ret.next := null;
  }

  /** Links the removed node back behind the modified one and swaps their data. */
  method UndoRemove(removed: Node, modified: Node, ghost head: Node, ghost ys: seq<Node>, ghost i: nat)
    requires List(head, ys) && Distinct(ys) && i < |ys| && modified == ys[i] && removed !in ys
    modifies removed, modified
    ensures removed.info == old(modified.info) && modified.info == old(removed.info)
    ensures List(head, ys[..i + 1] + [removed] + ys[i + 1..])
  {
    assert i + 1 < |ys| ==> ys[i].next == ys[i + 1];
    var tmp := removed.info;
    removed.info := modified.info;
    modified.info := tmp;
    removed.next := modified.next;
    modified.next := removed;
  }

  // ---------------------------------------------------------------- the benchmark

  ghost function Infos(ns: seq<Node>): (r: seq<Ref>)
    reads set n | n in ns
    ensures |r| == |ns|
  {
    seq(|ns|, i requires 0 <= i < |ns| reads set n | n in ns => ns[i].info)
  }

  /** A 16-bit index goes up by one. */
  function NextIdx(idx: int): int { if idx < 0 then idx else if idx == 32767 then -32768 else idx + 1 }

  /** The position of the first match, or the length. */
  function FirstMatch<R>(w: World<R>, rs: seq<Ref>, want: Item): (i: nat)
    ensures i <= |rs| && (i < |rs| ==> Matches(w, rs[i], want)) && forall j :: 0 <= j < i ==> !Matches(w, rs[j], want)
  {
    if rs == [] || Matches(w, rs[0], want) then 0 else 1 + FirstMatch(w, rs[1..], want)
  }

  /** One round: the list turned round, and the node behind the match, if any, put in second place. */
  function Round<R>(w: World<R>, key: Node -> Ref, xs: seq<Node>, want: Item): (ys: seq<Node>)
    ensures |ys| == |xs| && multiset(ys) == multiset(xs)
  {
    var i, turned := FirstMatch(w, Map(key, xs), want), Reversed(xs);
    if 0 < i < |xs| then Moved(turned, |xs| - 1 - i) else turned
  }

  /** The list after n rounds, and the index wanted next. */
  function Rounds<R>(w: World<R>, key: Node -> Ref, xs: seq<Node>, finderIdx: int, n: nat): (r: (seq<Node>, int)) {
    if n == 0 then (xs, finderIdx)
    else
      var (ys, idx) := Rounds(w, key, xs, finderIdx, n - 1);
      (Round(w, key, ys, Item(((n - 1) % 256) as bv16, idx)), NextIdx(idx))
  }

  /** A round node by node: the node in front of the first match comes second, the others in opposite order. */
  lemma RoundAt<R>(w: World<R>, key: Node -> Ref, xs: seq<Node>, want: Item, i: nat)
    requires 0 < i < |xs| && Matches(w, key(xs[i]), want) && forall j :: 0 <= j < i ==> !Matches(w, key(xs[j]), want)
    ensures var ys := Round(w, key, xs, want);
            ys[0] == xs[|xs| - 1] && ys[1] == xs[i - 1]
            && (forall j :: 2 <= j <= |xs| - i ==> ys[j] == xs[|xs| - j])
            && forall j :: |xs| - i < j < |xs| ==> ys[j] == xs[|xs| - 1 - j]
  {
    hide Reversed, Moved, Matches;
    assert forall j :: 0 <= j < |xs| ==> Map(key, xs)[j] == key(xs[j]);
    assert FirstMatch(w, Map(key, xs), want) == i;
    ReversedMembers(xs);
    MovedAt(Reversed(xs), |xs| - 1 - i);
  }

  /** The index asked for grows with the rounds, up to the greatest 16-bit number, and is negative from then on. */
  lemma {:induction false} IndexAsked<R>(w: World<R>, key: Node -> Ref, xs: seq<Node>, finderIdx: int, n: nat)
    requires finderIdx <= 32767
    ensures Rounds(w, key, xs, finderIdx, n).1 ==
              if finderIdx < 0 then finderIdx else if finderIdx + n <= 32767 then finderIdx + n else -32768
  {
    hide Round;
    if n > 0 { IndexAsked(w, key, xs, finderIdx, n - 1); }
  }

  /** Searches and rearranges the list once for every number below findNum. */
  method SearchAndShuffle<R>(list0: Node, w: World<R>, findNum: int, finderIdx: int,
                             ghost key: Node -> Ref, ghost xs: seq<Node>)
    returns (list: Node, want: Item, ghost ys: seq<Node>)
    requires |xs| >= 3 && List(list0, xs) && Distinct(xs) && Keyed(key, xs)
    modifies (set n | n in xs)`next
    ensures List(list, ys) && Distinct(ys) && multiset(ys) == multiset(xs) && |ys| == |xs|
    ensures (ys, want.idx) == Rounds(w, key, xs, finderIdx, if findNum < 0 then 0 else findNum)
  {
    hide List, Distinct, Rounds, Round;
    list, want, ys := list0, Item(0, finderIdx), xs;
    var i := 0;
    NoRounds(w, key, xs, finderIdx);
    while i < findNum
      invariant 0 <= i && (findNum >= 0 ==> i <= findNum) && (findNum < 0 ==> i == 0)
      invariant List(list, ys) && Distinct(ys) && multiset(ys) == multiset(xs) && |ys| == |xs|
      invariant forall n :: n in ys ==> n in xs
      invariant (ys, want.idx) == Rounds(w, key, xs, finderIdx, i)
      decreases findNum - i
    {
      want := want.(data16 := (i % 256) as bv16);
      RoundsOnce(w, key, xs, finderIdx, i);
      list, ys := SearchOnce(list, w, want, key, ys);
      SameMembers(ys, xs);
      want := want.(idx := NextIdx(want.idx));
      i := i + 1;
    }
  }

  /** One search, and what it does to the list. */
  method SearchOnce<R>(list0: Node, w: World<R>, want: Item, ghost key: Node -> Ref, ghost xs: seq<Node>)
    returns (list: Node, ghost ys: seq<Node>)
    requires xs != [] && List(list0, xs) && Distinct(xs) && Keyed(key, xs)
    modifies (set n | n in xs)`next
    ensures List(list, ys) && Distinct(ys) && ys == Round(w, key, xs, want)
  {
    hide List, Distinct, Reversed, Moved, Matches, FirstMatch;
    var at, j := Find(list0, w, want, xs);
    FoundFirst(w, key, xs, want, j);
    list := Reverse(list0, xs);
    ys := Reversed(xs);
    ReversedMembers(xs);
    if at != null { ys := Cache(list, at, ys, |xs| - 1 - j); }
  }

  lemma NoRounds<R>(w: World<R>, key: Node -> Ref, xs: seq<Node>, finderIdx: int)
    ensures Rounds(w, key, xs, finderIdx, 0) == (xs, finderIdx)
  {
  }

  lemma RoundsOnce<R>(w: World<R>, key: Node -> Ref, xs: seq<Node>, finderIdx: int, i: nat)
    ensures var (ys, idx) := Rounds(w, key, xs, finderIdx, i);
            Rounds(w, key, xs, finderIdx, i + 1) == (Round(w, key, ys, Item((i % 256) as bv16, idx)), NextIdx(idx))
  {
  }

  lemma FoundFirst<R>(w: World<R>, key: Node -> Ref, ys: seq<Node>, want: Item, j: nat)
    requires Keyed(key, ys) && j <= |ys| && (j < |ys| ==> Matches(w, ys[j].info, want))
    requires forall i :: 0 <= i < j ==> !Matches(w, ys[i].info, want)
    ensures FirstMatch(w, Map(key, ys), want) == j
  {
    hide Matches;
    forall i | 0 <= i < |ys|
      ensures Map(key, ys)[i] == ys[i].info
    {
      assert ys[i] in ys;
    }
  }

  lemma ReversedMembers<T>(xs: seq<T>)
    ensures |Reversed(xs)| == |xs| && multiset(Reversed(xs)) == multiset(xs)
    ensures forall i :: 0 <= i < |xs| ==> Reversed(xs)[|xs| - 1 - i] == xs[i]
    ensures forall x :: x in Reversed(xs) <==> x in xs
  {
    SameMembers(Reversed(xs), xs);
  }

  lemma CutDistinct(xs: seq<Node>)
    requires |xs| >= 3 && Distinct(xs)
    ensures Distinct(xs[..2] + xs[3..]) && xs[2] !in xs[..2] + xs[3..]
  {
  }

  /** Removes the third node, searches, and puts it back: the list and its data are as before. */
  method RemoveAndUndo<R>(list: Node, w: World<R>, want: Item, ghost xs: seq<Node>)
    requires |xs| >= 3 && List(list, xs) && Distinct(xs)
    modifies set n | n in xs
    ensures List(list, xs) && forall n :: n in xs ==> n.info == old(n.info)
  {
    hide List, Distinct;
    ListHead(list, xs);
    NextInList(list, xs, 0);
    NextInList(list, xs, 1);
    CutDistinct(xs);
    var remover := Remove(list.next, list, xs, 1);
    ghost var ys := xs[..2] + xs[3..];
    var finder, at := Find(list, w, want, ys);
    NextInList(list, ys, 0);
    UndoRemove(remover, list.next, list, ys, 1);
    assert ys[..2] + [remover] + ys[2..] == xs;
  }

  lemma CmpComplexKeepsAll<R(!new)>(work: Work<R>)
    ensures Keeps(CmpComplex(work))
  {
    hide Kept, CmpComplex;
    forall w, a, b
      ensures Kept(w, CmpComplex(work)(w, a, b).state)
    {
      CmpComplexKeeps(work, w, a, b);
    }
  }

  /** The sort by data, seen from the data: nothing but the cached low bytes has changed. */
  lemma ComplexSortKeeps<R(!new)>(work: Work<R>, key: Node -> Ref, w: World<R>, xs: seq<Node>)
    ensures Kept(w, Sort(By(CmpComplex(work), key), w, xs, 1).state)
  {
    hide Kept, Sort;
    SortByKey(CmpComplex(work), key, w, xs, 1);
    CmpComplexKeepsAll(work);
    SortKeeps(CmpComplex(work), w, Map(key, xs), 1);
  }

  lemma SameIdx<R>(w0: World<R>, w: World<R>, rs: seq<Ref>)
    requires Kept(w0, w)
    ensures Map(IdxOf(w0), rs) == Map(IdxOf(w), rs)
  {
    forall i | 0 <= i < |rs|
      ensures Map(IdxOf(w0), rs)[i] == Map(IdxOf(w), rs)[i]
    {
      var r := rs[i];
      assert w.data(r).idx == w0.data(r).idx;
    }
  }

  /** What the sort by index makes of the list and its data. */
  lemma IdxSortRestores<R(!new)>(key: Node -> Ref, w0: World<R>, w: World<R>, xs: seq<Node>)
    requires Kept(w0, w) && |xs| >= 2
    ensures var r := Sort(By(CmpIdx<R>, key), w, xs, 1);
            Kept(w0, r.state) && Rising(Map(IdxOf(w0), Map(key, r.list)))
            && forall n :: n in xs ==>
                 var d := w0.data(key(n)).data16; r.state.data(key(n)).data16 == (d & 0xff00) | (d >> 8)
  {
    hide Restore, Sort;
    var refs := Map(key, xs);
    SortByKey(CmpIdx<R>, key, w, xs, 1);
    SortByIdx(w, refs);
    SortByIdxRestores(w, refs);
    var r := Sort(By(CmpIdx<R>, key), w, xs, 1);
    KeptTwice(w0, w, r.state);
    SameIdx(w0, w, Map(key, r.list));
    forall n | n in xs
      ensures var d := w0.data(key(n)).data16; r.state.data(key(n)).data16 == (d & 0xff00) | (d >> 8)
    {
      RestoreBits(w.data(key(n)).data16);
      RestoreBits(w0.data(key(n)).data16);
      var i :| 0 <= i < |xs| && xs[i] == n;
      assert refs[i] == key(n);
    }
  }

  lemma {:induction false} MergeKeepsResults<R>(key: Node -> Ref, w: World<R>, ps: seq<Node>, qs: seq<Node>)
    ensures Merge(By(CmpIdx<R>, key), w, ps, qs).state.res == w.res
    decreases |ps| + |qs|
  {
    if ps != [] && qs != [] {
      var v := CmpIdx(w, key(ps[0]), key(qs[0]));
      if v.order <= 0 { MergeKeepsResults(key, v.state, ps[1..], qs); }
      else { MergeKeepsResults(key, v.state, ps, qs[1..]); }
    }
  }

  lemma {:induction false} PassKeepsResults<R>(key: Node -> Ref, w: World<R>, xs: seq<Node>, n: nat)
    requires n > 0
    ensures Pass(By(CmpIdx<R>, key), w, xs, n).state.res == w.res
    decreases |xs|
  {
    hide Merge;
    if xs != [] {
      var a, b := Min(n, |xs|), Min(2 * n, |xs|);
      MergeKeepsResults(key, w, xs[..a], xs[a..b]);
      PassKeepsResults(key, Merge(By(CmpIdx<R>, key), w, xs[..a], xs[a..b]).state, xs[b..], n);
    }
  }

  /** Sorting by index leaves the benchmark's results alone. */
  lemma {:induction false} SortKeepsResults<R>(key: Node -> Ref, w: World<R>, xs: seq<Node>, n: nat)
    requires n > 0
    ensures Sort(By(CmpIdx<R>, key), w, xs, n).state.res == w.res
    decreases |xs| - n
  {
    hide Pass;
    PassKeepsResults(key, w, xs, n);
    var r := Pass(By(CmpIdx<R>, key), w, xs, n);
    if |xs| > 2 * n { SortKeepsResults(key, r.state, r.list, 2 * n); }
  }

  /** Started on a list in order of indices, the benchmark ends with the same sequence of indices; if no index
      occurs twice, with the very same sequence of nodes. */
  lemma SameOrderAgain(before: seq<Node>, after: seq<Node>, idx: Node -> int)
    requires multiset(before) == multiset(after) && Rising(Map(idx, before)) && Rising(Map(idx, after))
    ensures Map(idx, before) == Map(idx, after)
    ensures (forall a, b :: a in before && b in before && idx(a) == idx(b) ==> a == b) ==> before == after
  {
    MapMultiset(idx, before, after);
    RisingUnique(Map(idx, before), Map(idx, after));
    SameMembers(before, after);
    if forall a, b :: a in before && b in before && idx(a) == idx(b) ==> a == b {
      forall i | 0 <= i < |before|
        ensures before[i] == after[i]
      {
        assert Map(idx, before)[i] == Map(idx, after)[i];
        assert before[i] in before && after[i] in after;
      }
    }
  }

  lemma OrderRestored<R>(w0: World<R>, key: Node -> Ref, xs: seq<Node>, ys: seq<Node>,
                         before: seq<Ref>, after: seq<Ref>)
    requires multiset(xs) == multiset(ys) && before == Map(key, xs) && after == Map(key, ys)
    requires Rising(Map(IdxOf(w0), after)) && Rising(Map(IdxOf(w0), before))
    ensures Map(IdxOf(w0), after) == Map(IdxOf(w0), before)
    ensures Injective(Map(IdxOf(w0), before)) ==> xs == ys
  {
    var idx := (n: Node) => w0.data(key(n)).idx;
    assert Map(idx, xs) == Map(IdxOf(w0), before) && Map(idx, ys) == Map(IdxOf(w0), after);
    SameOrderAgain(xs, ys, idx);
    if Injective(Map(IdxOf(w0), before)) {
      forall a, b | a in xs && b in xs && idx(a) == idx(b)
        ensures a == b
      {
        var i :| 0 <= i < |xs| && xs[i] == a;
        var j :| 0 <= j < |xs| && xs[j] == b;
        assert Map(idx, xs)[i] == Map(idx, xs)[j];
      }
    }
  }

  predicate Injective(a: seq<int>) { forall i, j :: 0 <= i < j < |a| ==> a[i] != a[j] }

  /** The list and the data after the searches and, when an index is asked for at first, the sort by value. */
  function Searched<R>(w: World<R>, work: Work<R>, findNum: int, finderIdx: int, key: Node -> Ref, xs: seq<Node>)
    : Sorted<World<R>, Node>
  {
    var ys := Rounds(w, key, xs, finderIdx, if findNum < 0 then 0 else findNum).0;
    if finderIdx > 0 then Sort(By(CmpComplex(work), key), w, ys, 1) else Sorted(ys, w)
  }

  /** All but the last sort: the same nodes in some order, their data references and all indices and backups kept. */
  method Shuffle<R(!new)>(list0: Node, w0: World<R>, work: Work<R>, findNum: int, finderIdx: int,
                          ghost key: Node -> Ref, ghost xs: seq<Node>)
    returns (list: Node?, w: World<R>, ghost ys: seq<Node>)
    requires |xs| >= 3 && List(list0, xs) && Distinct(xs) && Keyed(key, xs)
    modifies set n | n in xs
    ensures list != null && List(list, ys) && Distinct(ys) && multiset(ys) == multiset(xs)
    ensures Keyed(key, ys) && Keyed(key, xs)
    ensures Kept(w0, w)
    ensures Sorted(ys, w) == Searched(w0, work, findNum, finderIdx, key, xs)
  {
    hide List, Distinct, Kept, Sort, CmpComplex, Rounds;
    var head, want, cur := SearchAndShuffle(list0, w0, findNum, finderIdx, key, xs);
    SameMembers(cur, xs);
    w, ys, list := w0, cur, head;
    KeptSelf(w0);
    if finderIdx > 0 {
      ComplexSortKeeps(work, key, w0, cur);
      list, w, ys := MergeSort(head, CmpComplex(work), w0, key, cur);
      SameMembers(ys, xs);
      ListHead(list, ys);
    }
    assert |ys| == |multiset(ys)| == |multiset(xs)|;
    RemoveAndUndo(list, w, want, ys);
  }

  /** Main result: whatever is searched for, cached and computed on the way, the benchmark gives back the same
      nodes with the same data references, in the order of their indices, and every low byte restored. Started on
      a list in that order it ends with the same indices, and if none occurs twice with the same nodes in place. */
  method BenchList<R(!new)>(list0: Node, w0: World<R>, work: Work<R>, findNum: int, finderIdx: int,
                            ghost key: Node -> Ref, ghost xs: seq<Node>)
    returns (list: Node?, w: World<R>, ghost ys: seq<Node>)
    requires |xs| >= 3 && List(list0, xs) && Distinct(xs) && Keyed(key, xs)
    modifies set n | n in xs
    ensures List(list, ys) && Distinct(ys) && multiset(ys) == multiset(xs)
    ensures forall n :: n in xs ==> n.info == old(n.info)
    ensures Kept(w0, w) && Rising(Map(IdxOf(w0), Infos(ys)))
    ensures forall n :: n in xs ==> var d := w0.data(n.info).data16; w.data(n.info).data16 == (d & 0xff00) | (d >> 8)
    ensures Rising(Map(IdxOf(w0), old(Infos(xs)))) ==>
              Map(IdxOf(w0), Infos(ys)) == Map(IdxOf(w0), old(Infos(xs)))
              && (Injective(Map(IdxOf(w0), old(Infos(xs)))) ==> ys == xs)
    ensures var r := Searched(w0, work, findNum, finderIdx, key, xs);
            Sorted(ys, w) == Sort(By(CmpIdx<R>, key), r.state, r.list, 1) && w.res == r.state.res
  {
    hide Searched, List, Distinct, Injective, Kept, Sort, Restore, Rising, CmpIdx, IdxOf;
    ghost var before := Infos(xs);
    assert before == Map(key, xs);
    list, w, ys := Shuffle(list0, w0, work, findNum, finderIdx, key, xs);
    ghost var sorted := ys;
    SameMembers(sorted, xs);
    assert |sorted| == |multiset(sorted)| == |multiset(xs)|;
    IdxSortRestores(key, w0, w, sorted);
    SortKeepsResults(key, w, sorted, 1);
    list, w, ys := MergeSort(list, CmpIdx<R>, w, key, sorted);
    SameMembers(ys, xs);
    assert Infos(ys) == Map(key, ys);
    if Rising(Map(IdxOf(w0), before)) { OrderRestored(w0, key, xs, ys, before, Infos(ys)); }
  }

  lemma KeptSelf<R>(w: World<R>)
    ensures Kept(w, w)
  {
  }
}
