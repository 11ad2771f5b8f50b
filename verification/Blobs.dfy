/** Raw chunks stored per connection under an offset that a locked cache hands out.

    Reserving an offset and writing under it are separate steps, so threads interleave; a
    restart loses the cache and every write still in flight.
 */
module Blobs {
  import opened Bytes
  import opened ColumnFamily

  const MAX: nat := 0xFFFF_FFFF_FFFF_FFFF
  const CHUNK_HEADER: nat := 18

  /** `keys` is the blob column family, in key order; `pending` are the reserved keys whose
      write has neither happened nor failed. */
  datatype Store = Store(
    cache: map<nat, nat>,
    keys: seq<Key>,
    data: map<Key, seq<byte>>,
    pending: set<Key>)

  datatype Action =
    | Reserve(cn: nat, len: nat)
    | Write(key: Key, bytes: seq<byte>)
    | Fail(key: Key)
    | Restart

  /** One past the last stored offset of a connection, found by one step backwards. */
  function AfterLast(keys: seq<Key>, cn: nat): nat {
    var back := Seek(keys, (cn, MAX), false);
    if back != [] && back[0].0 == cn then back[0].1 + 1 else 0
  }

  /** The offset the next chunk of a connection gets. */
  function Offset(s: Store, cn: nat): nat {
    if cn in s.cache && s.cache[cn] != 0 then s.cache[cn] else AfterLast(s.keys, cn)
  }

  predicate Enabled(s: Store, a: Action) {
    match a
    case Reserve(cn, len) => Offset(s, cn) + len <= MAX
    case Write(key, _) => key in s.pending
    case Fail(key) => key in s.pending
    case Restart => true
  }

  function Next(s: Store, a: Action): Store {
    match a
    case Reserve(cn, len) =>
      var o := Offset(s, cn);
      s.(cache := s.cache[cn := o + len], pending := s.pending + {(cn, o)})
    case Write(key, bytes) =>
      s.(keys := Put(s.keys, key), data := s.data[key := bytes], pending := s.pending - {key})
    case Fail(key) => s.(pending := s.pending - {key})
    case Restart => s.(cache := map[], pending := {})
  }

  ghost predicate Inv(s: Store) {
    && Ordered(s.keys)
    && (forall k :: k in s.keys <==> k in s.data)
    && (forall k :: k in s.keys ==> k.1 <= MAX)
    && (forall k :: k in s.pending ==> k !in s.keys && k.1 <= MAX && k.0 in s.cache && k.1 < s.cache[k.0])
    && (forall k :: k in s.keys && k.0 in s.cache && s.cache[k.0] != 0 ==> k.1 < s.cache[k.0])
  }

  /** Every stored offset of a connection lies before the one found by the backward step. */
  lemma AfterLastIsFresh(keys: seq<Key>, k: Key)
    requires Ordered(keys) && k in keys && k.1 <= MAX
    ensures k.1 < AfterLast(keys, k.0)
  {
    var cn := k.0;
    SeekRun(keys, cn, MAX, false);
    var back := Seek(keys, (cn, MAX), false);
    assert k in back;
    var i :| 0 <= i < |back| && back[i] == k;
    if i > 0 {
      assert Less(back[i], back[0]);
    }
  }

  /** It is right behind the last one: 0 if there is none. */
  lemma AfterLastIsNext(keys: seq<Key>, cn: nat)
    requires Ordered(keys) && forall k :: k in keys ==> k.1 <= MAX
    ensures AfterLast(keys, cn) > 0 ==> (cn, AfterLast(keys, cn) - 1) in keys
    ensures AfterLast(keys, cn) == 0 <==> forall k :: k in keys ==> k.0 != cn
  {
    SeekRun(keys, cn, MAX, false);
    var back := Seek(keys, (cn, MAX), false);
    if back != [] {
      assert back[0] in back;
    }
    forall k | k in keys && k.0 == cn
      ensures k.1 < AfterLast(keys, cn)
    {
      AfterLastIsFresh(keys, k);
    }
  }

  /** A reserved key is new: neither stored nor reserved. */
  lemma ReserveIsFresh(s: Store, cn: nat)
    requires Inv(s)
    ensures (cn, Offset(s, cn)) !in s.keys && (cn, Offset(s, cn)) !in s.pending
    ensures forall k :: (k in s.keys || k in s.pending) && k.0 == cn ==> k.1 < Offset(s, cn)
  {
    if !(cn in s.cache && s.cache[cn] != 0) {
      forall k | k in s.keys && k.0 == cn
        ensures k.1 < Offset(s, cn)
      {
        AfterLastIsFresh(s.keys, k);
      }
    }
  }

  lemma StepKeepsInv(s: Store, a: Action)
    requires Inv(s) && Enabled(s, a) && (a.Reserve? ==> a.len > 0)
    ensures Inv(Next(s, a))
  {
    var s' := Next(s, a);
    match a
    case Reserve(cn, len) => ReserveIsFresh(s, cn);
    case Write(key, bytes) =>
      PutOrdered(s.keys, key);
      forall k
        ensures k in s'.keys <==> k in s.keys || k == key
      {
        PutMember(s.keys, key, k);
      }
    case _ =>
  }

  // -------------------------------------------------------------------- all runs

  /** A run in which every chunk is written through `add_raw`, so with its header. */
  ghost predicate Runs(s: Store, acts: seq<Action>, t: Store)
    decreases acts
  {
    if acts == [] then s == t else
    && Enabled(s, acts[0]) && (acts[0].Reserve? ==> acts[0].len >= CHUNK_HEADER)
    && Runs(Next(s, acts[0]), acts[1..], t)
  }

  function Empty(): Store { Store(map[], [], map[], {}) }

  lemma {:induction false} RunKeepsInv(s: Store, acts: seq<Action>, t: Store)
    requires Inv(s) && Runs(s, acts, t)
    ensures Inv(t)
    decreases acts
  {
    if acts != [] {
      StepKeepsInv(s, acts[0]);
      RunKeepsInv(Next(s, acts[0]), acts[1..], t);
    }
  }

  /** Whatever the interleaving and however often the process restarts, what is stored stays
      stored, unchanged: no later write reaches the same key. */
  lemma {:induction false} WrittenForever(s: Store, acts: seq<Action>, t: Store, key: Key)
    requires Inv(s) && Runs(s, acts, t) && key in s.data
    ensures key in t.data && t.data[key] == s.data[key]
    decreases acts
  {
    if acts != [] {
      StepKeepsInv(s, acts[0]);
      WrittenForever(Next(s, acts[0]), acts[1..], t, key);
    }
  }

  /** Reading drops the chunk header. */
  function Fetch(s: Store, key: Key): Option<seq<byte>> {
    if key in s.data && |s.data[key]| >= CHUNK_HEADER then Some(s.data[key][CHUNK_HEADER..]) else None
  }

  /** Over every run from an empty store: a write always goes to a key never written before,
      and from then on reading that key gives exactly the bytes behind the header. */
  lemma StoredBytesStay(before: seq<Action>, s: Store, key: Key, header: seq<byte>, bytes: seq<byte>,
                        after: seq<Action>, t: Store)
    requires Runs(Empty(), before, s) && Enabled(s, Write(key, header + bytes)) && |header| == CHUNK_HEADER
    requires Runs(Next(s, Write(key, header + bytes)), after, t)
    ensures key !in s.data
    ensures Fetch(t, key) == Some(bytes)
  {
    RunKeepsInv(Empty(), before, s);
    StepKeepsInv(s, Write(key, header + bytes));
    WrittenForever(Next(s, Write(key, header + bytes)), after, t, key);
    assert (header + bytes)[CHUNK_HEADER..] == bytes;
  }

  /** The header matters: two reservations in a row get the same key exactly when the first
      one is for nothing. */
  lemma ReservationsCollide(s: Store, cn: nat, len: nat)
    ensures Offset(Next(s, Reserve(cn, len)), cn) == Offset(s, cn) <==> len == 0
  {
  }

  // ---------------------------------------------------------------- the allocator

  class Allocator {
    var cache: map<nat, nat>
    var keys: seq<Key>
    var data: map<Key, seq<byte>>
    ghost var pending: set<Key>

    ghost function View(): Store
      reads this
    {
      Store(cache, keys, data, pending)
    }

    constructor ()
      ensures View() == Empty() && Inv(View())
    {
      cache, keys, data, pending := map[], [], map[], {};
    }

    /** The part of `put_blob` under the lock. */
    method ReserveOffset(cn: nat, len: nat) returns (offset: nat)
      requires Inv(View()) && len > 0 && Enabled(View(), Reserve(cn, len))
      modifies this
      ensures View() == Next(old(View()), Reserve(cn, len)) && Inv(View())
      ensures (cn, offset) in pending && (cn, offset) !in old(pending) && (cn, offset) !in old(data)
    {
      var position := if cn in cache then cache[cn] else 0;
      if position == 0 {
        var back := Seek(keys, (cn, MAX), false);
        position := if back == [] then 0 else if back[0].0 == cn then back[0].1 + 1 else 0;
      }
      ReserveIsFresh(View(), cn);
      StepKeepsInv(View(), Reserve(cn, len));
      offset := position;
      cache := cache[cn := offset + len];
      pending := pending + {(cn, offset)};
    }

    /** The write itself, after the lock is released. */
    method WriteBlob(cn: nat, offset: nat, bytes: seq<byte>)
      requires Inv(View()) && (cn, offset) in pending
      modifies this
      ensures View() == Next(old(View()), Write((cn, offset), bytes)) && Inv(View())
    {
      StepKeepsInv(View(), Write((cn, offset), bytes));
      keys := Put(keys, (cn, offset));
      data := data[(cn, offset) := bytes];
      pending := pending - {(cn, offset)};
    }

    method Reopen()
      requires Inv(View())
      modifies this
      ensures View() == Next(old(View()), Restart) && Inv(View())
    {
      StepKeepsInv(View(), Restart);
      cache, pending := map[], {};
    }
  }
}
