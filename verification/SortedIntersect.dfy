/** Intersection of sorted iterators, as multisets.

    An iterator is the sequence of items it still has to yield. `forward` iterators are
    ascending, the others descending.
 */
module SortedIntersect {

  predicate Before(forward: bool, a: int, b: int) {
    if forward then a <= b else b <= a
  }

  ghost predicate Sorted(forward: bool, s: seq<int>) {
    forall i, j :: 0 <= i < j < |s| ==> Before(forward, s[i], s[j])
  }

  ghost predicate AllSorted(forward: bool, its: seq<seq<int>>) {
    forall i :: 0 <= i < |its| ==> Sorted(forward, its[i])
  }

  /** `n` is the least multiplicity of `v` over the iterators. */
  ghost predicate Least(its: seq<seq<int>>, v: int, n: nat) {
    && (forall i :: 0 <= i < |its| ==> n <= multiset(its[i])[v])
    && (exists i :: 0 <= i < |its| && n == multiset(its[i])[v])
  }

  /** `r` is the intersection: in order, every value as often as in the iterator that has it
      least often. */
  ghost predicate Meets(forward: bool, its: seq<seq<int>>, r: seq<int>) {
    Sorted(forward, r) && forall v :: Least(its, v, multiset(r)[v])
  }

  // -------------------------------------------------------------- uniqueness

  lemma HeadFirst(s: seq<int>, v: int)
    requires s != []
    ensures multiset(s)[v] == multiset(s[1..])[v] + (if s[0] == v then 1 else 0)
  {
    assert s == [s[0]] + s[1..];
  }

  lemma HeadIsFirst(forward: bool, a: seq<int>, v: int)
    requires Sorted(forward, a) && v in a
    ensures Before(forward, a[0], v)
  {
    var i :| 0 <= i < |a| && a[i] == v;
    if i > 0 {
      assert Before(forward, a[0], a[i]);
    }
  }

  lemma SortedHead(forward: bool, a: seq<int>, b: seq<int>)
    requires Sorted(forward, a) && Sorted(forward, b) && multiset(a) == multiset(b) && a != []
    ensures b != [] && a[0] == b[0]
  {
    assert a[0] in multiset(b);
    assert b[0] in multiset(a);
    HeadIsFirst(forward, b, a[0]);
    HeadIsFirst(forward, a, b[0]);
  }

  lemma TailSorted(forward: bool, a: seq<int>)
    requires Sorted(forward, a) && a != []
    ensures Sorted(forward, a[1..])
  {
    var t := a[1..];
    forall i, j | 0 <= i < j < |t|
      ensures Before(forward, t[i], t[j])
    {
      assert Before(forward, a[i + 1], a[j + 1]);
    }
  }

  lemma {:induction false} SortedUnique(forward: bool, a: seq<int>, b: seq<int>)
    requires Sorted(forward, a) && Sorted(forward, b) && multiset(a) == multiset(b)
    ensures a == b
  {
    if a == [] {
      assert |multiset(b)| == |b| && |multiset(a)| == 0;
    } else {
      SortedHead(forward, a, b);
      assert a == [a[0]] + a[1..] && b == [b[0]] + b[1..];
      assert multiset(a[1..]) == multiset(a) - multiset{a[0]};
      assert multiset(b[1..]) == multiset(b) - multiset{b[0]};
      TailSorted(forward, a);
      TailSorted(forward, b);
      SortedUnique(forward, a[1..], b[1..]);
    }
  }

  lemma LeastUnique(its: seq<seq<int>>, v: int, m: nat, n: nat)
    requires Least(its, v, m) && Least(its, v, n)
    ensures m == n
  {
  }

  /** There is only one intersection. */
  lemma MeetUnique(forward: bool, its: seq<seq<int>>, a: seq<int>, b: seq<int>)
    requires Meets(forward, its, a) && Meets(forward, its, b)
    ensures a == b
  {
    forall v
      ensures multiset(a)[v] == multiset(b)[v]
    {
      LeastUnique(its, v, multiset(a)[v], multiset(b)[v]);
    }
    assert multiset(a) == multiset(b);
    SortedUnique(forward, a, b);
  }

  // ------------------------------------------------------------ single steps

  lemma EmptyMeet(forward: bool, its: seq<seq<int>>, k: nat)
    requires k < |its| && its[k] == []
    ensures Meets(forward, its, [])
  {
    forall v
      ensures Least(its, v, multiset([])[v])
    {
      assert multiset(its[k])[v] == 0;
    }
  }

  /** The head of iterator `k` comes first and is not the head of iterator `j`: it is in no
      intersection, so dropping it changes nothing. */
  lemma DropHead(forward: bool, its: seq<seq<int>>, k: nat, j: nat, v: int, n: nat)
    requires AllSorted(forward, its) && k < |its| && j < |its| && its[k] != [] && its[j] != []
    requires Before(forward, its[k][0], its[j][0]) && its[j][0] != its[k][0]
    ensures Least(its, v, n) <==> Least(its[k := its[k][1..]], v, n)
  {
    var its' := its[k := its[k][1..]];
    HeadFirst(its[k], v);
    if v == its[k][0] {
      forall i | 0 <= i < |its[j]|
        ensures its[j][i] != v
      {
        HeadIsFirst(forward, its[j], its[j][i]);
      }
      assert multiset(its[j])[v] == 0 && its'[j] == its[j];
    } else {
      assert forall i :: 0 <= i < |its| ==> multiset(its'[i])[v] == multiset(its[i])[v];
    }
  }

  lemma DropHeadMeets(forward: bool, its: seq<seq<int>>, k: nat, j: nat, r: seq<int>)
    requires AllSorted(forward, its) && k < |its| && j < |its| && its[k] != [] && its[j] != []
    requires Before(forward, its[k][0], its[j][0]) && its[j][0] != its[k][0]
    ensures Meets(forward, its, r) <==> Meets(forward, its[k := its[k][1..]], r)
  {
    forall v
      ensures Least(its, v, multiset(r)[v]) <==> Least(its[k := its[k][1..]], v, multiset(r)[v])
    {
      DropHead(forward, its, k, j, v, multiset(r)[v]);
    }
  }

  function Tails(its: seq<seq<int>>): (r: seq<seq<int>>)
    requires forall i :: 0 <= i < |its| ==> its[i] != []
    ensures |r| == |its| && forall i :: 0 <= i < |its| ==> r[i] == its[i][1..]
  {
    seq(|its|, i requires 0 <= i < |its| => its[i][1..])
  }

  lemma TailsSorted(forward: bool, its: seq<seq<int>>)
    requires AllSorted(forward, its) && forall i :: 0 <= i < |its| ==> its[i] != []
    ensures AllSorted(forward, Tails(its))
  {
    forall i | 0 <= i < |its|
      ensures Sorted(forward, Tails(its)[i])
    {
      TailSorted(forward, its[i]);
    }
  }

  lemma TakeHeadLeast(its: seq<seq<int>>, h: int, r: seq<int>, v: int)
    requires its != [] && forall i :: 0 <= i < |its| ==> its[i] != [] && its[i][0] == h
    requires Least(Tails(its), v, multiset(r)[v])
    ensures Least(its, v, multiset([h] + r)[v])
  {
    var d := if v == h then 1 else 0;
    HeadFirst([h] + r, v);
    assert ([h] + r)[1..] == r;
    forall i | 0 <= i < |its|
      ensures multiset(its[i])[v] == multiset(Tails(its)[i])[v] + d
    {
      HeadFirst(its[i], v);
    }
    var i :| 0 <= i < |its| && multiset(r)[v] == multiset(Tails(its)[i])[v];
    assert multiset([h] + r)[v] == multiset(its[i])[v];
  }

  /** All heads are equal: that item opens the intersection. */
  lemma TakeHead(forward: bool, its: seq<seq<int>>, h: int, r: seq<int>)
    requires AllSorted(forward, its) && its != []
    requires forall i :: 0 <= i < |its| ==> its[i] != [] && its[i][0] == h
    requires Meets(forward, Tails(its), r)
    ensures Meets(forward, its, [h] + r)
  {
    forall v
      ensures Least(its, v, multiset([h] + r)[v])
    {
      TakeHeadLeast(its, h, r, v);
    }
    forall i | 0 <= i < |r|
      ensures Before(forward, h, r[i])
    {
      assert Least(Tails(its), r[i], multiset(r)[r[i]]);
      HeadBeforeTail(forward, its[0], r[i]);
    }
    SortedCons(forward, h, r);
  }

  lemma HeadBeforeTail(forward: bool, s: seq<int>, v: int)
    requires Sorted(forward, s) && s != [] && multiset(s[1..])[v] > 0
    ensures Before(forward, s[0], v)
  {
    assert v in s[1..];
    HeadIsFirst(forward, s, v);
  }

  lemma SortedCons(forward: bool, h: int, s: seq<int>)
    requires Sorted(forward, s) && forall i :: 0 <= i < |s| ==> Before(forward, h, s[i])
    ensures Sorted(forward, [h] + s)
  {
    forall i, j | 0 <= i < j < |[h] + s|
      ensures Before(forward, ([h] + s)[i], ([h] + s)[j])
    {
      if i > 0 {
        assert Before(forward, s[i - 1], s[j - 1]);
      }
    }
  }

  // --------------------------------------------------------------- existence

  function Total(its: seq<seq<int>>): nat {
    if its == [] then 0 else |its[0]| + Total(its[1..])
  }

  lemma {:induction false} TotalUpdate(its: seq<seq<int>>, k: nat, s: seq<int>)
    requires k < |its|
    ensures Total(its[k := s]) + |its[k]| == Total(its) + |s|
  {
    if k == 0 {
      assert its[k := s][1..] == its[1..];
    } else {
      TotalUpdate(its[1..], k - 1, s);
      assert its[k := s][1..] == its[1..][k - 1 := s];
    }
  }

  lemma {:induction false} TotalTails(its: seq<seq<int>>)
    requires forall i :: 0 <= i < |its| ==> its[i] != []
    ensures Total(Tails(its)) + |its| == Total(its)
  {
    if its != [] {
      TotalTails(its[1..]);
      assert Tails(its)[1..] == Tails(its[1..]);
    }
  }

  lemma {:induction false} FirstHead(forward: bool, its: seq<seq<int>>) returns (k: nat)
    requires its != [] && forall i :: 0 <= i < |its| ==> its[i] != []
    ensures k < |its| && forall i :: 0 <= i < |its| ==> Before(forward, its[k][0], its[i][0])
  {
    if |its| == 1 {
      k := 0;
    } else {
      var m := FirstHead(forward, its[1..]);
      k := if Before(forward, its[0][0], its[m + 1][0]) then 0 else m + 1;
      forall i | 1 <= i < |its|
        ensures Before(forward, its[m + 1][0], its[i][0])
      {
        assert its[i] == its[1..][i - 1];
      }
    }
  }

  lemma DropSorted(forward: bool, its: seq<seq<int>>, k: nat)
    requires AllSorted(forward, its) && k < |its| && its[k] != []
    ensures AllSorted(forward, its[k := its[k][1..]])
  {
    TailSorted(forward, its[k]);
  }

  /** Sorted iterators have an intersection. */
  lemma {:induction false} MeetExists(forward: bool, its: seq<seq<int>>) returns (r: seq<int>)
    requires its != [] && AllSorted(forward, its)
    ensures Meets(forward, its, r)
    decreases Total(its)
  {
    if k :| 0 <= k < |its| && its[k] == [] {
      r := [];
      EmptyMeet(forward, its, k);
    } else {
      var k := FirstHead(forward, its);
      if j :| 0 <= j < |its| && its[j][0] != its[k][0] {
        DropSorted(forward, its, k);
        TotalUpdate(its, k, its[k][1..]);
        r := MeetExists(forward, its[k := its[k][1..]]);
        DropHeadMeets(forward, its, k, j, r);
      } else {
        TailsSorted(forward, its);
        TotalTails(its);
        r := MeetExists(forward, Tails(its));
        TakeHead(forward, its, its[k][0], r);
        r := [its[k][0]] + r;
      }
    }
  }

  // ------------------------------------------------------------------ the heap

  type Item = (int, nat)

  /** Sorted so that the item that comes first is last. */
  ghost predicate HeapOrder(forward: bool, heap: seq<Item>) {
    forall i, j :: 0 <= i < j < |heap| ==> Before(forward, heap[j].0, heap[i].0)
  }

  /** Where `x` belongs: behind everything that comes after it. */
  function Place(forward: bool, heap: seq<Item>, x: Item): (p: nat)
    requires HeapOrder(forward, heap)
    ensures p <= |heap|
    ensures forall i :: 0 <= i < p ==> Before(forward, x.0, heap[i].0)
    ensures p < |heap| ==> Before(forward, heap[p].0, x.0)
  {
    if heap == [] || Before(forward, heap[0].0, x.0) then 0 else
    assert forall i :: 1 <= i < |heap| ==> heap[i] == heap[1..][i - 1];
    1 + Place(forward, heap[1..], x)
  }

  lemma PlaceKeepsOrder(forward: bool, heap: seq<Item>, x: Item)
    requires HeapOrder(forward, heap)
    ensures var p := Place(forward, heap, x);
            HeapOrder(forward, heap[..p] + [x] + heap[p..])
  {
    var p := Place(forward, heap, x);
    var r := heap[..p] + [x] + heap[p..];
    forall i, j | 0 <= i < j < |r|
      ensures Before(forward, r[j].0, r[i].0)
    {
      if i == p {
        assert r[j] == heap[j - 1] && (j - 1 == p || Before(forward, heap[j - 1].0, heap[p].0));
      }
    }
  }

  function Insert(forward: bool, heap: seq<Item>, x: Item): (r: seq<Item>)
    requires HeapOrder(forward, heap)
    ensures HeapOrder(forward, r) && multiset(r) == multiset(heap) + multiset{x}
  {
    var p := Place(forward, heap, x);
    PlaceKeepsOrder(forward, heap, x);
    assert heap == heap[..p] + heap[p..];
    heap[..p] + [x] + heap[p..]
  }

  function Heapify(forward: bool, heap: seq<Item>): (r: seq<Item>)
    ensures HeapOrder(forward, r) && multiset(r) == multiset(heap) && |r| == |heap|
  {
    if heap == [] then [] else
    assert heap == heap[..|heap| - 1] + [heap[|heap| - 1]];
    var r := Insert(forward, Heapify(forward, heap[..|heap| - 1]), heap[|heap| - 1]);
    assert |multiset(r)| == |r| && |multiset(heap)| == |heap|;
    r
  }

  function Adjacent(heap: seq<Item>): (eq: bool)
    ensures eq <==> forall i :: 0 <= i < |heap| ==> heap[i].0 == heap[0].0
  {
    |heap| <= 1 || (
      assert heap[1..][0] == heap[1];
      assert forall i :: 1 <= i < |heap| ==> heap[i] == heap[1..][i - 1];
      heap[0].0 == heap[1].0 && Adjacent(heap[1..]))
  }

  /** A hit: every iterator shows the same item. */
  function IsHit(heap: seq<Item>): (hit: bool)
    ensures hit <==> heap != [] && forall i :: 0 <= i < |heap| ==> heap[i].0 == heap[0].0
  {
    heap != [] && Adjacent(heap)
  }

  // -------------------------------------------------------------- the algorithm

  /** The items shown by the heap, one per iterator. */
  function Pairs(heads: seq<int>): (r: seq<Item>)
    ensures |r| == |heads| && forall i :: 0 <= i < |heads| ==> r[i] == (heads[i], i)
  {
    seq(|heads|, i requires 0 <= i < |heads| => (heads[i], i))
  }

  /** What each iterator still holds, including the item on the heap. */
  function Current(heads: seq<int>, its: seq<seq<int>>): (r: seq<seq<int>>)
    requires |heads| == |its|
    ensures |r| == |its| && forall i :: 0 <= i < |its| ==> r[i] == [heads[i]] + its[i]
  {
    seq(|its|, i requires 0 <= i < |its| => [heads[i]] + its[i])
  }

  function Heads(its: seq<seq<int>>): (r: seq<int>)
    requires forall i :: 0 <= i < |its| ==> its[i] != []
    ensures |r| == |its| && forall i :: 0 <= i < |its| ==> r[i] == its[i][0]
  {
    seq(|its|, i requires 0 <= i < |its| => its[i][0])
  }

  lemma CurrentOf(its: seq<seq<int>>)
    requires forall i :: 0 <= i < |its| ==> its[i] != []
    ensures Current(Heads(its), Tails(its)) == its
  {
    forall i | 0 <= i < |its|
      ensures Current(Heads(its), Tails(its))[i] == its[i]
    {
      assert its[i] == [its[i][0]] + its[i][1..];
    }
  }

  ghost predicate Shows(heap: seq<Item>, heads: seq<int>) {
    multiset(heap) == multiset(Pairs(heads)) && |heap| == |heads|
  }

  lemma AdvanceOne(heads: seq<int>, its: seq<seq<int>>, k: nat)
    requires |heads| == |its| && k < |its| && its[k] != []
    ensures var cur := Current(heads, its);
            Current(heads[k := its[k][0]], its[k := its[k][1..]]) == cur[k := cur[k][1..]]
  {
    assert ([heads[k]] + its[k])[1..] == its[k] == [its[k][0]] + its[k][1..];
  }

  /** Advances every iterator once, unless one of them is exhausted. */
  method FillHeap(forward: bool, its: seq<seq<int>>) returns (ok: bool, heap: seq<Item>, rest: seq<seq<int>>)
    ensures !ok ==> exists k :: 0 <= k < |its| && its[k] == []
    ensures ok ==>
              && (forall i :: 0 <= i < |its| ==> its[i] != [])
              && rest == Tails(its)
              && HeapOrder(forward, heap) && |heap| == |its| && Shows(heap, Heads(its))
  {
    heap, rest := [], its;
    for i := 0 to |its|
      invariant |rest| == |its| && |heap| == i
      invariant forall j :: 0 <= j < i ==> its[j] != [] && heap[j] == (its[j][0], j) && rest[j] == its[j][1..]
      invariant forall j :: i <= j < |its| ==> rest[j] == its[j]
    {
      if rest[i] == [] {
        return false, heap, rest;
      }
      heap := heap + [(rest[i][0], i)];
      rest := rest[i := rest[i][1..]];
    }
    assert heap == Pairs(Heads(its));
    assert rest == Tails(its);
    heap := Heapify(forward, heap);
    ok := true;
  }

  lemma ShownItem(heap: seq<Item>, heads: seq<int>, x: Item)
    requires Shows(heap, heads) && x in heap
    ensures x.1 < |heads| && heads[x.1] == x.0
  {
    assert x in multiset(Pairs(heads));
    var i :| 0 <= i < |heads| && Pairs(heads)[i] == x;
  }

  lemma ShownHead(heap: seq<Item>, heads: seq<int>, k: nat) returns (i: nat)
    requires Shows(heap, heads) && k < |heads|
    ensures i < |heap| && heap[i] == (heads[k], k)
  {
    assert Pairs(heads)[k] in multiset(heap);
    i :| 0 <= i < |heap| && heap[i] == (heads[k], k);
  }

  /** The last item of the heap comes first among the heads. */
  lemma TopComesFirst(forward: bool, heap: seq<Item>, heads: seq<int>, i: nat)
    requires Shows(heap, heads) && HeapOrder(forward, heap) && i < |heads|
    ensures Before(forward, heap[|heap| - 1].0, heads[i])
  {
    var j := ShownHead(heap, heads, i);
    if j < |heap| - 1 {
      assert Before(forward, heap[|heap| - 1].0, heap[j].0);
    }
  }

  lemma HitMeansEqual(heap: seq<Item>, heads: seq<int>, i: nat)
    requires Shows(heap, heads) && IsHit(heap) && i < |heads|
    ensures heads[i] == heap[|heap| - 1].0
  {
    var j := ShownHead(heap, heads, i);
  }

  lemma MissMeansOther(heap: seq<Item>, heads: seq<int>) returns (j: nat)
    requires Shows(heap, heads) && heap != [] && !IsHit(heap)
    ensures j < |heads| && heads[j] != heap[|heap| - 1].0
  {
    var i :| 0 <= i < |heap| && heap[i].0 != heap[0].0;
    var x := if heap[0].0 != heap[|heap| - 1].0 then heap[0] else heap[i];
    ShownItem(heap, heads, x);
    j := x.1;
  }

  /** Replacing the popped item by the next one of the same iterator. */
  lemma Replaced(forward: bool, heap: seq<Item>, heads: seq<int>, v: int)
    requires Shows(heap, heads) && heap != []
    ensures var (_, k) := heap[|heap| - 1];
            k < |heads| && Shows(Heapify(forward, heap[..|heap| - 1] + [(v, k)]), heads[k := v])
  {
    var top := heap[|heap| - 1];
    var k := top.1;
    ShownItem(heap, heads, top);
    assert heap == heap[..|heap| - 1] + [top];
    assert Pairs(heads[k := v]) == Pairs(heads)[k := (v, k)];
    var heap' := heap[..|heap| - 1] + [(v, k)];
    assert multiset(heap') == multiset(heap) - multiset{top} + multiset{(v, k)};
  }

  /** `ret` is the first `limit` items of the intersection. */
  ghost predicate FirstItems(forward: bool, its: seq<seq<int>>, limit: nat, ret: seq<int>) {
    exists full :: Meets(forward, its, full) && ret == full[..if limit < |full| then limit else |full|]
  }

  lemma SingleMeet(forward: bool, its: seq<seq<int>>)
    requires |its| == 1 && AllSorted(forward, its)
    ensures Meets(forward, its, its[0])
  {
    forall v
      ensures Least(its, v, multiset(its[0])[v])
    {
    }
  }

  /** The popped iterator had nothing more to give. */
  lemma Exhausted(forward: bool, cur: seq<seq<int>>, k: nat, j: nat, rest: seq<int>)
    requires AllSorted(forward, cur) && Meets(forward, cur, rest)
    requires k < |cur| && j < |cur| && |cur[k]| == 1 && cur[j] != []
    requires Before(forward, cur[k][0], cur[j][0]) && cur[j][0] != cur[k][0]
    ensures rest == []
  {
    DropHeadMeets(forward, cur, k, j, rest);
    var cur' := cur[k := cur[k][1..]];
    EmptyMeet(forward, cur', k);
    MeetUnique(forward, cur', rest, []);
  }

  /** After a hit, the rest of the intersection is that of the advanced iterators. */
  lemma AfterHit(forward: bool, cur: seq<seq<int>>, h: int, rest: seq<int>)
    requires AllSorted(forward, cur) && cur != [] && Meets(forward, cur, rest)
    requires forall i :: 0 <= i < |cur| ==> cur[i] != [] && cur[i][0] == h
    ensures AllSorted(forward, Tails(cur))
    ensures rest != [] && rest[0] == h && Meets(forward, Tails(cur), rest[1..])
  {
    TailsSorted(forward, cur);
    var r := MeetExists(forward, Tails(cur));
    TakeHead(forward, cur, h, r);
    MeetUnique(forward, cur, rest, [h] + r);
    assert rest[1..] == r;
  }

  lemma NoMore(forward: bool, its: seq<seq<int>>, rest: seq<int>)
    requires Meets(forward, its, rest) && exists k :: 0 <= k < |its| && its[k] == []
    ensures rest == []
  {
    var k :| 0 <= k < |its| && its[k] == [];
    EmptyMeet(forward, its, k);
    MeetUnique(forward, its, rest, []);
  }

  /** Between two turns of the loop: the heap shows the heads, what has been returned opens
      the intersection, and what the iterators still hold accounts for the rest. */
  ghost predicate Turn(
    forward: bool, full: seq<int>, ret: seq<int>, heap: seq<Item>, heads: seq<int>, its: seq<seq<int>>)
  {
    && |heap| == |heads| == |its| && its != []
    && HeapOrder(forward, heap) && Shows(heap, heads)
    && AllSorted(forward, Current(heads, its))
    && ret <= full && Meets(forward, Current(heads, its), full[|ret|..])
  }

  lemma Refilled(forward: bool, full: seq<int>, ret: seq<int>, heap: seq<Item>, its: seq<seq<int>>)
    requires its != [] && AllSorted(forward, its) && ret <= full && Meets(forward, its, full[|ret|..])
    requires forall i :: 0 <= i < |its| ==> its[i] != []
    requires |heap| == |its| && HeapOrder(forward, heap) && Shows(heap, Heads(its))
    ensures Turn(forward, full, ret, heap, Heads(its), Tails(its))
    ensures Total(Tails(its)) < Total(its)
  {
    hide Meets, AllSorted, HeapOrder, Shows;
    CurrentOf(its);
    TotalTails(its);
  }

  lemma OnHit(
    forward: bool, full: seq<int>, ret: seq<int>, heap: seq<Item>, heads: seq<int>, its: seq<seq<int>>)
    requires Turn(forward, full, ret, heap, heads, its) && IsHit(heap)
    ensures var ret' := ret + [heap[|heap| - 1].0];
            ret' <= full && AllSorted(forward, its) && Meets(forward, its, full[|ret'|..])
  {
    hide Meets, AllSorted, HeapOrder, Shows, IsHit;
    var cur := Current(heads, its);
    var item := heap[|heap| - 1].0;
    forall i | 0 <= i < |cur|
      ensures cur[i] != [] && cur[i][0] == item
    {
      HitMeansEqual(heap, heads, i);
    }
    AfterHit(forward, cur, item, full[|ret|..]);
    assert full[|ret|..][1..] == full[|ret| + 1..];
    assert Tails(cur) == its;
  }

  lemma OnMiss(
    forward: bool, full: seq<int>, ret: seq<int>, heap: seq<Item>, heads: seq<int>, its: seq<seq<int>>)
    requires Turn(forward, full, ret, heap, heads, its) && !IsHit(heap)
    ensures var (_, k) := heap[|heap| - 1];
            && k < |its|
            && (its[k] == [] ==> ret == full)
            && (its[k] != [] ==>
                  && Turn(forward, full, ret, Heapify(forward, heap[..|heap| - 1] + [(its[k][0], k)]),
                          heads[k := its[k][0]], its[k := its[k][1..]])
                  && Total(its[k := its[k][1..]]) < Total(its))
  {
    hide Meets, AllSorted, HeapOrder, Shows, IsHit, Heapify, Before, Total;
    var cur := Current(heads, its);
    var k := heap[|heap| - 1].1;
    ShownItem(heap, heads, heap[|heap| - 1]);
    var j := MissMeansOther(heap, heads);
    TopComesFirst(forward, heap, heads, j);
    if its[k] == [] {
      Exhausted(forward, cur, k, j, full[|ret|..]);
    } else {
      DropHeadMeets(forward, cur, k, j, full[|ret|..]);
      DropSorted(forward, cur, k);
      Replaced(forward, heap, heads, its[k][0]);
      TotalUpdate(its, k, its[k][1..]);
      AdvanceOne(heads, its, k);
    }
  }

  /** The values present in every iterator, in order, each as often as in the iterator that
      has it least often, and no more than `limit` of them. */
  method SortedIntersect(iters: seq<seq<int>>, limit: nat, forward: bool) returns (ret: seq<int>)
    requires AllSorted(forward, iters)
    ensures iters == [] ==> ret == []
    ensures iters != [] ==> FirstItems(forward, iters, limit, ret)
  {
    hide Meets, AllSorted, HeapOrder, Heapify, Total, IsHit, Shows, Turn;
    ret := [];
    if iters == [] {
      return;
    } else if |iters| == 1 {
      SingleMeet(forward, iters);
      return iters[0][..if limit < |iters[0]| then limit else |iters[0]|];
    }
    ghost var full := MeetExists(forward, iters);
    var ok, heap, its := FillHeap(forward, iters);
    if !ok {
      NoMore(forward, iters, full);
      assert ret == full[..if limit < |full| then limit else |full|];
      return;
    }
    ghost var heads := Heads(iters);
    assert full[|ret|..] == full;
    Refilled(forward, full, ret, heap, iters);
    while |ret| < limit
      invariant Turn(forward, full, ret, heap, heads, its) && |ret| <= limit
      invariant its != [] && heap != [] && |heads| == |its| && ret <= full
      decreases Total(its)
    {
      if IsHit(heap) {
        OnHit(forward, full, ret, heap, heads, its);
        ret := ret + [heap[|heap| - 1].0];
        var rest;
        ok, heap, rest := FillHeap(forward, its);
        if !ok {
          NoMore(forward, its, full[|ret|..]);
          assert ret == full[..if limit < |full| then limit else |full|];
          return;
        }
        Refilled(forward, full, ret, heap, its);
        heads := Heads(its);
        its := rest;
      } else {
        OnMiss(forward, full, ret, heap, heads, its);
        var (_, k) := heap[|heap| - 1];
        if its[k] == [] {
          assert ret == full[..if limit < |full| then limit else |full|];
          return;
        }
        heap := Heapify(forward, heap[..|heap| - 1] + [(its[k][0], k)]);
        heads := heads[k := its[k][0]];
        its := its[k := its[k][1..]];
      }
    }
    assert ret == full[..if limit < |full| then limit else |full|];
  }
}
