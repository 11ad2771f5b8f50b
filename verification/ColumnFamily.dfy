/** A RocksDB column family used as an index: keys in order, read forwards or backwards from
    a position. A key is a fixed-width prefix followed by a message id, both big-endian, so
    byte order is the order of the pair. */
module ColumnFamily {
  import opened SortedIntersect

  type Key = (nat, nat)

  predicate Less(a: Key, b: Key) {
    a.0 < b.0 || (a.0 == b.0 && a.1 < b.1)
  }

  ghost predicate Ordered(cf: seq<Key>) {
    forall i, j :: 0 <= i < j < |cf| ==> Less(cf[i], cf[j])
  }

  function Put(cf: seq<Key>, k: Key): seq<Key> {
    if cf == [] then [k] else
    if k == cf[0] then cf else
    if Less(k, cf[0]) then [k] + cf else
    [cf[0]] + Put(cf[1..], k)
  }

  lemma {:induction false} PutMember(cf: seq<Key>, k: Key, x: Key)
    ensures x in Put(cf, k) <==> x in cf || x == k
  {
    if cf != [] {
      assert x in cf <==> x == cf[0] || x in cf[1..];
      PutMember(cf[1..], k, x);
    }
  }

  lemma {:induction false} PutOrdered(cf: seq<Key>, k: Key)
    requires Ordered(cf)
    ensures Ordered(Put(cf, k))
  {
    if cf != [] && k != cf[0] && !Less(k, cf[0]) {
      var rest := Put(cf[1..], k);
      PutOrdered(cf[1..], k);
      forall j | 0 <= j < |rest|
        ensures Less(cf[0], rest[j])
      {
        PutMember(cf[1..], k, rest[j]);
      }
    }
  }

  /** The entries from `k` on: ascending from it, or descending from it. */
  function Seek(cf: seq<Key>, k: Key, forward: bool): seq<Key> {
    if cf == [] then [] else
    if forward then
      if Less(cf[0], k) then Seek(cf[1..], k, forward) else cf
    else
      if Less(k, cf[|cf| - 1]) then Seek(cf[..|cf| - 1], k, forward)
      else [cf[|cf| - 1]] + Seek(cf[..|cf| - 1], k, forward)
  }

  function WithPrefix(entries: seq<Key>, p: nat): seq<int> {
    if entries == [] || entries[0].0 != p then [] else
    [entries[0].1] + WithPrefix(entries[1..], p)
  }

  /** The ids read from an index: seek to (p, start), follow the direction, stop at the first
      entry with another prefix. */
  function Ids(cf: seq<Key>, p: nat, start: nat, forward: bool): seq<int> {
    WithPrefix(Seek(cf, (p, start), forward), p)
  }

  predicate InRange(x: int, start: nat, forward: bool) {
    if forward then start <= x else 0 <= x <= start
  }

  /** `r` lists, in direction order, every `x` exactly `f(x)` times. */
  ghost predicate Lists(forward: bool, r: seq<int>, f: int -> nat) {
    Sorted(forward, r) && forall x :: multiset(r)[x] == f(x)
  }

  lemma ListsUnique(forward: bool, a: seq<int>, b: seq<int>, f: int -> nat)
    requires Lists(forward, a, f) && Lists(forward, b, f)
    ensures a == b
  {
    assert multiset(a) == multiset(b) by {
      forall x
        ensures multiset(a)[x] == multiset(b)[x]
      {
        assert multiset(a)[x] == f(x);
        assert multiset(b)[x] == f(x);
      }
    }
    SortedUnique(forward, a, b);
  }

  ghost function Holds(cf: seq<Key>, p: nat, start: nat, forward: bool): int -> nat {
    x => if 0 <= x && (p, x) in cf && InRange(x, start, forward) then 1 else 0
  }

  /** In a run of entries in direction order, those with prefix `p` form the front. */
  ghost predicate Run(entries: seq<Key>, p: nat, start: nat, forward: bool) {
    && (forall i, j :: 0 <= i < j < |entries| ==>
          if forward then Less(entries[i], entries[j]) else Less(entries[j], entries[i]))
    && (forall i :: 0 <= i < |entries| ==>
          !(if forward then Less(entries[i], (p, start)) else Less((p, start), entries[i])))
  }

  lemma {:induction false} SeekRun(cf: seq<Key>, p: nat, start: nat, forward: bool)
    requires Ordered(cf)
    ensures Run(Seek(cf, (p, start), forward), p, start, forward)
    ensures forall x :: x in Seek(cf, (p, start), forward) <==>
              x in cf && !(if forward then Less(x, (p, start)) else Less((p, start), x))
    decreases |cf|
  {
    if cf != [] {
      if forward {
        if Less(cf[0], (p, start)) {
          SeekRun(cf[1..], p, start, forward);
          assert forall x :: x in cf <==> x == cf[0] || x in cf[1..];
        }
      } else {
        var n := |cf| - 1;
        SeekRun(cf[..n], p, start, forward);
        assert cf == cf[..n] + [cf[n]];
      }
    }
  }

  lemma RunEnds(entries: seq<Key>, p: nat, start: nat, forward: bool, x: int)
    requires Run(entries, p, start, forward) && entries != [] && entries[0].0 != p && 0 <= x
    ensures (p, x) !in entries
  {
    forall i | 0 <= i < |entries|
      ensures entries[i] != (p, x)
    {
      if i > 0 {
        assert if forward then Less(entries[0], entries[i]) else Less(entries[i], entries[0]);
      }
    }
  }

  lemma RunTail(entries: seq<Key>, p: nat, start: nat, forward: bool)
    requires Run(entries, p, start, forward) && entries != []
    ensures Run(entries[1..], p, start, forward)
    ensures forall x :: x in entries[1..] ==> if forward then Less(entries[0], x) else Less(x, entries[0])
  {
  }

  lemma {:induction false} RunIds(entries: seq<Key>, p: nat, start: nat, forward: bool)
    requires Run(entries, p, start, forward)
    ensures Sorted(forward, WithPrefix(entries, p))
    ensures forall x :: multiset(WithPrefix(entries, p))[x] == if 0 <= x && (p, x) in entries then 1 else 0
    decreases |entries|
  {
    if entries == [] {
    } else if entries[0].0 != p {
      forall x | 0 <= x
        ensures (p, x) !in entries
      {
        RunEnds(entries, p, start, forward, x);
      }
    } else {
      RunTail(entries, p, start, forward);
      RunIds(entries[1..], p, start, forward);
      RunIdsCons(entries, p, start, forward);
    }
  }

  lemma RunIdsCons(entries: seq<Key>, p: nat, start: nat, forward: bool)
    requires Run(entries, p, start, forward) && entries != [] && entries[0].0 == p
    requires Sorted(forward, WithPrefix(entries[1..], p))
    requires forall x :: multiset(WithPrefix(entries[1..], p))[x] == if 0 <= x && (p, x) in entries[1..] then 1 else 0
    ensures Sorted(forward, WithPrefix(entries, p))
    ensures forall x :: multiset(WithPrefix(entries, p))[x] == if 0 <= x && (p, x) in entries then 1 else 0
  {
    RunTail(entries, p, start, forward);
    var rest := WithPrefix(entries[1..], p);
    var all := WithPrefix(entries, p);
    var h := entries[0].1;
    assert all == [h] + rest && all[1..] == rest;
    hide Run, Sorted, WithPrefix;
    forall j | 0 <= j < |rest|
      ensures Before(forward, h, rest[j])
    {
      assert multiset(rest)[rest[j]] > 0;
      assert (p, rest[j]) in entries[1..];
    }
    SortedCons(forward, h, rest);
    forall x
      ensures multiset(all)[x] == if 0 <= x && (p, x) in entries then 1 else 0
    {
      HeadFirst(all, x);
      if 0 <= x {
        TailMember(entries, (p, x));
      }
      if x == h {
        assert (p, h) !in entries[1..];
      }
    }
  }

  lemma TailMember(entries: seq<Key>, k: Key)
    requires entries != []
    ensures k in entries <==> k == entries[0] || k in entries[1..]
  {
  }

  /** Reading an index gives exactly the ids stored under the prefix and in range, in order. */
  lemma IdsExact(cf: seq<Key>, p: nat, start: nat, forward: bool)
    requires Ordered(cf)
    ensures Lists(forward, Ids(cf, p, start, forward), Holds(cf, p, start, forward))
  {
    SeekRun(cf, p, start, forward);
    var entries := Seek(cf, (p, start), forward);
    RunIds(entries, p, start, forward);
    forall x
      ensures multiset(Ids(cf, p, start, forward))[x] == Holds(cf, p, start, forward)(x)
    {
      if 0 <= x {
        assert (p, x) in entries <==> (p, x) in cf && InRange(x, start, forward);
      }
    }
  }

  // -------------------------------------------------------------------- merging

  /** Merging two sorted streams. */
  function Merge(forward: bool, a: seq<int>, b: seq<int>): seq<int>
    decreases |a| + |b|
  {
    if a == [] then b else if b == [] then a else
    if Before(forward, a[0], b[0]) then [a[0]] + Merge(forward, a[1..], b)
    else [b[0]] + Merge(forward, a, b[1..])
  }

  lemma {:induction false} MergeCounts(forward: bool, a: seq<int>, b: seq<int>, x: int)
    ensures multiset(Merge(forward, a, b))[x] == multiset(a)[x] + multiset(b)[x]
    decreases |a| + |b|
  {
    if a != [] && b != [] {
      var m := Merge(forward, a, b);
      HeadFirst(m, x);
      HeadFirst(a, x);
      HeadFirst(b, x);
      if Before(forward, a[0], b[0]) {
        MergeCounts(forward, a[1..], b, x);
        assert m[1..] == Merge(forward, a[1..], b);
      } else {
        MergeCounts(forward, a, b[1..], x);
        assert m[1..] == Merge(forward, a, b[1..]);
      }
    }
  }

  lemma MergeAfter(forward: bool, h: int, a: seq<int>, b: seq<int>)
    requires forall i :: 0 <= i < |a| ==> Before(forward, h, a[i])
    requires forall i :: 0 <= i < |b| ==> Before(forward, h, b[i])
    ensures forall i :: 0 <= i < |Merge(forward, a, b)| ==> Before(forward, h, Merge(forward, a, b)[i])
  {
    var m := Merge(forward, a, b);
    forall i | 0 <= i < |m|
      ensures Before(forward, h, m[i])
    {
      MergeCounts(forward, a, b, m[i]);
      assert m[i] in multiset(m);
      assert m[i] in multiset(a) || m[i] in multiset(b);
    }
  }

  lemma HeadBeforeAll(forward: bool, a: seq<int>, h: int)
    requires Sorted(forward, a) && (a == [] || Before(forward, h, a[0]))
    ensures forall i :: 0 <= i < |a| ==> Before(forward, h, a[i])
  {
    forall i | 0 <= i < |a|
      ensures Before(forward, h, a[i])
    {
      HeadIsFirst(forward, a, a[i]);
    }
  }

  lemma {:induction false} MergeSorted(forward: bool, a: seq<int>, b: seq<int>)
    requires Sorted(forward, a) && Sorted(forward, b)
    ensures Sorted(forward, Merge(forward, a, b))
    decreases |a| + |b|
  {
    if a != [] && b != [] {
      if Before(forward, a[0], b[0]) {
        TailSorted(forward, a);
        MergeSorted(forward, a[1..], b);
        HeadBeforeAll(forward, b, a[0]);
        MergeAfter(forward, a[0], a[1..], b);
        SortedCons(forward, a[0], Merge(forward, a[1..], b));
      } else {
        TailSorted(forward, b);
        MergeSorted(forward, a, b[1..]);
        HeadBeforeAll(forward, a, b[0]);
        MergeAfter(forward, b[0], a, b[1..]);
        SortedCons(forward, b[0], Merge(forward, a, b[1..]));
      }
    }
  }
}
