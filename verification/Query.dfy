/** Messages, their secondary indexes, and queries over them. */
module Query {
  import opened Bytes
  import opened SortedIntersect
  import opened ColumnFamily

  /** What the indexes see of a message. `stream` is the 16-byte code of connection and
      stream id, the other fields are the codes under which they are stored. */
  datatype Message = Message(
    addr: nat, connection: nat, stream: nat, kind: nat, tys: seq<nat>, seconds: nat)

  datatype Db = Db(
    messages: map<nat, Message>,
    ids: seq<Key>,
    byAddr: seq<Key>,
    byConnection: seq<Key>,
    byStream: seq<Key>,
    byKind: seq<Key>,
    byType: seq<Key>,
    connections: set<nat>)

  function PutTypes(cf: seq<Key>, tys: seq<nat>, id: nat): seq<Key>
    decreases tys
  {
    if tys == [] then cf else PutTypes(Put(cf, (tys[0], id)), tys[1..], id)
  }

  function PutMessage(db: Db, id: nat, m: Message): Db {
    Db(db.messages[id := m],
       Put(db.ids, (0, id)),
       Put(db.byAddr, (m.addr, id)),
       Put(db.byConnection, (m.connection, id)),
       Put(db.byStream, (m.stream, id)),
       Put(db.byKind, (m.kind, id)),
       PutTypes(db.byType, m.tys, id),
       db.connections)
  }

  // ------------------------------------------------------------------- indexes

  ghost predicate Sound(db: Db) {
    && Ordered(db.ids) && Ordered(db.byAddr) && Ordered(db.byConnection)
    && Ordered(db.byStream) && Ordered(db.byKind) && Ordered(db.byType)
  }

  /** Index `cf` holds exactly the pairs (code, id) of messages for which `has` holds. */
  ghost predicate Mirrors(cf: seq<Key>, messages: map<nat, Message>, has: (Message, nat) -> bool) {
    forall p: nat, id: nat :: (p, id) in cf <==> id in messages && has(messages[id], p)
  }

  function HasId(): (Message, nat) -> bool { (m: Message, p: nat) => p == 0 }
  function HasAddr(): (Message, nat) -> bool { (m: Message, p: nat) => m.addr == p }
  function HasConnection(): (Message, nat) -> bool { (m: Message, p: nat) => m.connection == p }
  function HasStream(): (Message, nat) -> bool { (m: Message, p: nat) => m.stream == p }
  function HasKind(): (Message, nat) -> bool { (m: Message, p: nat) => m.kind == p }
  function HasType(): (Message, nat) -> bool { (m: Message, p: nat) => p in m.tys }

  /** Every index agrees with the messages. */
  ghost predicate Indexed(db: Db) {
    && Sound(db)
    && Mirrors(db.ids, db.messages, HasId())
    && Mirrors(db.byAddr, db.messages, HasAddr())
    && Mirrors(db.byConnection, db.messages, HasConnection())
    && Mirrors(db.byStream, db.messages, HasStream())
    && Mirrors(db.byKind, db.messages, HasKind())
    && Mirrors(db.byType, db.messages, HasType())
  }

  lemma {:induction false} PutTypesExact(cf: seq<Key>, tys: seq<nat>, id: nat, x: Key)
    requires Ordered(cf)
    ensures Ordered(PutTypes(cf, tys, id))
    ensures x in PutTypes(cf, tys, id) <==> x in cf || (x.1 == id && x.0 in tys)
    decreases tys
  {
    if tys != [] {
      PutOrdered(cf, (tys[0], id));
      PutMember(cf, (tys[0], id), x);
      PutTypesExact(Put(cf, (tys[0], id)), tys[1..], id, x);
      assert x.0 in tys <==> x.0 == tys[0] || x.0 in tys[1..];
    }
  }

  /** A put keeps an index in step exactly when every code the overwritten message had is
      also a code of the new one. */
  lemma MirrorAfterPut(
    cf: seq<Key>, cf': seq<Key>, messages: map<nat, Message>, id: nat, m: Message, has: (Message, nat) -> bool)
    requires Mirrors(cf, messages, has)
    requires forall p: nat, i: nat :: (p, i) in cf' <==> (p, i) in cf || (i == id && has(m, p))
    ensures Mirrors(cf', messages[id := m], has) <==>
            (id in messages ==> forall p: nat :: has(messages[id], p) ==> has(m, p))
  {
    var messages' := messages[id := m];
    if id in messages ==> forall p: nat :: has(messages[id], p) ==> has(m, p) {
      forall p: nat, i: nat
        ensures (p, i) in cf' <==> i in messages' && has(messages'[i], p)
      {
        assert (p, i) in cf <==> i in messages && has(messages[i], p);
      }
    } else {
      var p: nat :| has(messages[id], p) && !has(m, p);
      assert (p, id) in cf;
      assert (p, id) in cf' && !has(messages'[id], p);
    }
  }

  /** The new message keeps every index key of the old one. */
  predicate KeepsKeys(old_: Message, m: Message) {
    && old_.addr == m.addr && old_.connection == m.connection && old_.stream == m.stream
    && old_.kind == m.kind && forall t :: t in old_.tys ==> t in m.tys
  }

  lemma SingleMirror(
    cf: seq<Key>, messages: map<nat, Message>, id: nat, m: Message, has: (Message, nat) -> bool, p: nat)
    requires Ordered(cf) && Mirrors(cf, messages, has) && forall q: nat :: has(m, q) <==> q == p
    ensures Ordered(Put(cf, (p, id)))
    ensures Mirrors(Put(cf, (p, id)), messages[id := m], has) <==>
            (id in messages ==> forall q: nat :: has(messages[id], q) ==> q == p)
  {
    PutOrdered(cf, (p, id));
    forall q: nat, i: nat
      ensures (q, i) in Put(cf, (p, id)) <==> (q, i) in cf || (i == id && has(m, q))
    {
      PutMember(cf, (p, id), (q, i));
    }
    MirrorAfterPut(cf, Put(cf, (p, id)), messages, id, m, has);
  }

  lemma TypesMirror(db: Db, id: nat, m: Message)
    requires Indexed(db)
    ensures Ordered(PutTypes(db.byType, m.tys, id))
    ensures Mirrors(PutTypes(db.byType, m.tys, id), db.messages[id := m], HasType()) <==>
            (id in db.messages ==> forall t :: t in db.messages[id].tys ==> t in m.tys)
  {
    forall q: nat, i: nat
      ensures (q, i) in PutTypes(db.byType, m.tys, id) <==> (q, i) in db.byType || (i == id && HasType()(m, q))
    {
      PutTypesExact(db.byType, m.tys, id, (q, i));
    }
    PutTypesExact(db.byType, m.tys, id, (0, 0));
    MirrorAfterPut(db.byType, PutTypes(db.byType, m.tys, id), db.messages, id, m, HasType());
    if id in db.messages {
      assert forall t: nat :: HasType()(db.messages[id], t) <==> t in db.messages[id].tys;
      assert forall t: nat :: HasType()(m, t) <==> t in m.tys;
    }
  }

  /** Storing a message keeps the indexes exact if and only if its id is new or it carries
      every key of the message it replaces. */
  lemma PutKeepsIndexed(db: Db, id: nat, m: Message)
    requires Indexed(db)
    ensures Indexed(PutMessage(db, id, m)) <==> (id in db.messages ==> KeepsKeys(db.messages[id], m))
  {
    hide Ordered, Put, PutTypes, Mirrors;
    SingleMirror(db.ids, db.messages, id, m, HasId(), 0);
    SingleMirror(db.byAddr, db.messages, id, m, HasAddr(), m.addr);
    SingleMirror(db.byConnection, db.messages, id, m, HasConnection(), m.connection);
    SingleMirror(db.byStream, db.messages, id, m, HasStream(), m.stream);
    SingleMirror(db.byKind, db.messages, id, m, HasKind(), m.kind);
    TypesMirror(db, id, m);
    if id in db.messages {
      var o := db.messages[id];
      assert HasAddr()(o, o.addr) && HasConnection()(o, o.connection);
      assert HasStream()(o, o.stream) && HasKind()(o, o.kind);
    }
  }

  function Empty(connections: set<nat>): Db {
    Db(map[], [], [], [], [], [], [], connections)
  }

  function PutAll(db: Db, puts: seq<(nat, Message)>): Db
    decreases puts
  {
    if puts == [] then db else PutAll(PutMessage(db, puts[0].0, puts[0].1), puts[1..])
  }

  ghost predicate Distinct(puts: seq<(nat, Message)>) {
    forall i, j :: 0 <= i < j < |puts| ==> puts[i].0 != puts[j].0
  }

  /** Any sequence of puts with distinct new ids keeps the indexes exact. */
  lemma {:induction false} PutAllKeepsIndexed(db: Db, puts: seq<(nat, Message)>)
    requires Indexed(db) && Distinct(puts) && forall i :: 0 <= i < |puts| ==> puts[i].0 !in db.messages
    ensures Indexed(PutAll(db, puts))
    decreases puts
  {
    if puts != [] {
      hide Indexed;
      PutKeepsIndexed(db, puts[0].0, puts[0].1);
      PutAllKeepsIndexed(PutMessage(db, puts[0].0, puts[0].1), puts[1..]);
    }
  }

  // ------------------------------------------------------------------- queries

  datatype StreamFilter = ByAddr(addr: nat) | ByConnection(connection: nat) | ByStream(stream: nat)

  datatype KindFilter = Kinds(kinds: seq<nat>) | Types(tys: seq<nat>)

  datatype Params = Params(
    stream: Option<StreamFilter>,
    kind: Option<KindFilter>,
    present: bool,
    start: nat,
    forward: bool,
    limit: nat,
    limitSeconds: Option<nat>)

  predicate OnStream(f: StreamFilter, m: Message) {
    match f
    case ByAddr(a) => m.addr == a
    case ByConnection(c) => m.connection == c
    case ByStream(s) => m.stream == s
  }

  /** How many of the requested kinds, or message types, a message has. */
  function Matches(codes: seq<nat>, has: (Message, nat) -> bool, m: Message): nat {
    if codes == [] then 0 else (if has(m, codes[0]) then 1 else 0) + Matches(codes[1..], has, m)
  }

  function KindMatches(f: KindFilter, m: Message): nat {
    match f
    case Kinds(ks) => Matches(ks, HasKind(), m)
    case Types(ts) => Matches(ts, HasType(), m)
  }

  /** Where reading starts: an unfiltered query without a start reads everything. */
  predicate Started(q: Params, x: int) {
    if q.stream.None? && q.kind.None? && !q.present then true else InRange(x, q.start, q.forward)
  }

  predicate Wanted(db: Db, q: Params, x: int) {
    && 0 <= x && x in db.messages && Started(q, x)
    && (q.stream.Some? ==> OnStream(q.stream.value, db.messages[x]))
    && (q.kind.Some? ==> KindMatches(q.kind.value, db.messages[x]) > 0)
  }

  /** Scanning all messages by id: each wanted one once. */
  ghost function Scan(db: Db, q: Params): int -> nat {
    x => if Wanted(db, q, x) then 1 else 0
  }

  /** What the indexes yield: a query by kinds alone repeats a message once per match. */
  ghost function Yield(db: Db, q: Params): int -> nat {
    x => if !Wanted(db, q, x) then 0 else
         if q.stream.None? && q.kind.Some? then KindMatches(q.kind.value, db.messages[x]) else 1
  }

  /** The message lies past the time limit, as seen in the direction of reading. */
  predicate Beyond(db: Db, q: Params, x: int) {
    q.limitSeconds.Some? && 0 <= x && x in db.messages && (db.messages[x].seconds < q.limitSeconds.value) != q.forward
  }

  predicate Found(db: Db, x: int) {
    0 <= x && x in db.messages && db.messages[x].connection in db.connections
  }

  function TakeWhile(db: Db, q: Params, ids: seq<int>): seq<int> {
    if ids == [] then [] else
    if Beyond(db, q, ids[0]) then [] else [ids[0]] + TakeWhile(db, q, ids[1..])
  }

  function Take(s: seq<int>, n: nat): seq<int> { s[..if n < |s| then n else |s|] }

  /** The limits of the coordinate: stop at the time limit, and after `limit` items. */
  function Limited(db: Db, q: Params, ids: seq<int>): seq<int> {
    Take(TakeWhile(db, q, ids), q.limit)
  }

  /** Looks every id up; a message or connection that is missing is dropped. */
  function Details(db: Db, ids: seq<int>): seq<int> {
    if ids == [] then [] else
    (if Found(db, ids[0]) then [ids[0]] else []) + Details(db, ids[1..])
  }

  // -------------------------------------------------------------------- reading

  function StreamIds(db: Db, f: StreamFilter, start: nat, forward: bool): seq<int> {
    match f
    case ByAddr(a) => Ids(db.byAddr, a, start, forward)
    case ByConnection(c) => Ids(db.byConnection, c, start, forward)
    case ByStream(s) => Ids(db.byStream, s, start, forward)
  }

  function MergedIds(cf: seq<Key>, codes: seq<nat>, start: nat, forward: bool): seq<int> {
    if codes == [] then [] else
    Merge(forward, Ids(cf, codes[0], start, forward), MergedIds(cf, codes[1..], start, forward))
  }

  function KindIds(db: Db, f: KindFilter, start: nat, forward: bool): seq<int> {
    match f
    case Kinds(ks) => MergedIds(db.byKind, ks, start, forward)
    case Types(ts) => MergedIds(db.byType, ts, start, forward)
  }

  function AllIds(db: Db, forward: bool): seq<int> {
    if db.ids == [] then [] else Ids(db.ids, 0, if forward then 0 else db.ids[|db.ids| - 1].1, forward)
  }

  lemma StreamIdsExact(db: Db, f: StreamFilter, start: nat, forward: bool)
    requires Indexed(db)
    ensures Lists(forward, StreamIds(db, f, start, forward),
                  x => if 0 <= x && x in db.messages && InRange(x, start, forward) && OnStream(f, db.messages[x])
                       then 1 else 0)
  {
    match f
    case ByAddr(a) => IdsExact(db.byAddr, a, start, forward);
    case ByConnection(c) => IdsExact(db.byConnection, c, start, forward);
    case ByStream(s) => IdsExact(db.byStream, s, start, forward);
  }

  ghost function Counted(
    messages: map<nat, Message>, codes: seq<nat>, has: (Message, nat) -> bool, start: nat, forward: bool): int -> nat
  {
    x => if 0 <= x && x in messages && InRange(x, start, forward) then Matches(codes, has, messages[x]) else 0
  }

  lemma {:induction false} MergedIdsExact(
    cf: seq<Key>, messages: map<nat, Message>, codes: seq<nat>, has: (Message, nat) -> bool, start: nat, forward: bool)
    requires Ordered(cf) && Mirrors(cf, messages, has)
    ensures Lists(forward, MergedIds(cf, codes, start, forward), Counted(messages, codes, has, start, forward))
    decreases codes
  {
    if codes == [] {
      assert MergedIds(cf, codes, start, forward) == [];
    } else {
      var a := Ids(cf, codes[0], start, forward);
      var b := MergedIds(cf, codes[1..], start, forward);
      IdsExact(cf, codes[0], start, forward);
      MergedIdsExact(cf, messages, codes[1..], has, start, forward);
      MergeSorted(forward, a, b);
      hide Sorted, Ids, Merge, Mirrors;
      forall x
        ensures multiset(Merge(forward, a, b))[x] == Counted(messages, codes, has, start, forward)(x)
      {
        MergeCounts(forward, a, b, x);
        assert multiset(a)[x] == Holds(cf, codes[0], start, forward)(x);
        assert multiset(b)[x] == Counted(messages, codes[1..], has, start, forward)(x);
      }
    }
  }

  lemma IdStored(db: Db, x: nat)
    requires Indexed(db)
    ensures (0, x) in db.ids <==> x in db.messages
  {
    assert (0, x) in db.ids <==> x in db.messages && HasId()(db.messages[x], 0);
  }

  lemma LastId(db: Db, x: nat)
    requires Indexed(db) && (0, x) in db.ids
    ensures x <= db.ids[|db.ids| - 1].1
  {
    var last := db.ids[|db.ids| - 1];
    assert last == (last.0, last.1) && last in db.ids;
    assert HasId()(db.messages[last.1], last.0);
    var i :| 0 <= i < |db.ids| && db.ids[i] == (0, x);
    assert i == |db.ids| - 1 || Less(db.ids[i], last);
  }

  lemma AllIdsExact(db: Db, forward: bool)
    requires Indexed(db)
    ensures Lists(forward, AllIds(db, forward), x => if 0 <= x && x in db.messages then 1 else 0)
  {
    if db.ids == [] {
      forall x: nat
        ensures x !in db.messages
      {
        IdStored(db, x);
      }
    } else {
      var start := if forward then 0 else db.ids[|db.ids| - 1].1;
      IdsExact(db.ids, 0, start, forward);
      AllInRange(db, forward, start);
      hide Indexed, Ids;
    }
  }

  lemma AllInRange(db: Db, forward: bool, start: nat)
    requires Indexed(db) && db.ids != [] && start == if forward then 0 else db.ids[|db.ids| - 1].1
    ensures forall x: int :: Holds(db.ids, 0, start, forward)(x) == if 0 <= x && x in db.messages then 1 else 0
  {
    forall x: int
      ensures Holds(db.ids, 0, start, forward)(x) == if 0 <= x && x in db.messages then 1 else 0
    {
      if 0 <= x {
        IdStored(db, x);
        if (0, x) in db.ids {
          LastId(db, x);
        }
      }
    }
  }

  lemma {:induction false} DetailsAll(db: Db, ids: seq<int>)
    requires forall i :: 0 <= i < |ids| ==> Found(db, ids[i])
    ensures Details(db, ids) == ids
  {
    if ids != [] {
      DetailsAll(db, ids[1..]);
    }
  }

  lemma {:induction false} TakeWhileTake(db: Db, q: Params, s: seq<int>, n: nat)
    ensures TakeWhile(db, q, Take(s, n)) == Take(TakeWhile(db, q, s), n)
  {
    if s != [] && n > 0 && !Beyond(db, q, s[0]) {
      TakeWhileTake(db, q, s[1..], n - 1);
      assert Take(s, n)[1..] == Take(s[1..], n - 1);
      var t := TakeWhile(db, q, s[1..]);
      assert Take([s[0]] + t, n) == [s[0]] + Take(t, n - 1);
    }
  }

  /** Cutting to `limit` before the time limit changes nothing. */
  lemma LimitedTake(db: Db, q: Params, s: seq<int>)
    ensures Limited(db, q, Take(s, q.limit)) == Limited(db, q, s)
  {
    TakeWhileTake(db, q, s, q.limit);
  }

  /** The intersection of a stream's ids with the merged ids of some kinds lists each message
      that is in both exactly once, however often it matches. */
  lemma IntersectionExact(db: Db, q: Params, a: seq<int>, b: seq<int>, full: seq<int>)
    requires Indexed(db) && q.stream.Some? && q.kind.Some?
    requires a == StreamIds(db, q.stream.value, q.start, q.forward)
    requires b == KindIds(db, q.kind.value, q.start, q.forward)
    requires Meets(q.forward, [a, b], full)
    ensures Lists(q.forward, full, Yield(db, q))
  {
    StreamIdsExact(db, q.stream.value, q.start, q.forward);
    KindIdsExact(db, q.kind.value, q.start, q.forward);
    hide Indexed, StreamIds, KindIds, OnStream, KindMatches, Sorted;
    forall x
      ensures multiset(full)[x] == Yield(db, q)(x)
    {
      LeastOfTwo(a, b, x, multiset(full)[x]);
    }
  }

  lemma LeastOfTwo(a: seq<int>, b: seq<int>, x: int, n: nat)
    requires Least([a, b], x, n)
    ensures n == if multiset(a)[x] <= multiset(b)[x] then multiset(a)[x] else multiset(b)[x]
  {
    assert [a, b][0] == a && [a, b][1] == b;
  }

  lemma KindIdsExact(db: Db, f: KindFilter, start: nat, forward: bool)
    requires Indexed(db)
    ensures Lists(forward, KindIds(db, f, start, forward),
                  x => if 0 <= x && x in db.messages && InRange(x, start, forward)
                       then KindMatches(f, db.messages[x]) else 0)
  {
    match f
    case Kinds(ks) => MergedIdsExact(db.byKind, db.messages, ks, HasKind(), start, forward);
    case Types(ts) => MergedIdsExact(db.byType, db.messages, ts, HasType(), start, forward);
  }

  /** Every stored message belongs to a stored connection. */
  ghost predicate Connected(db: Db) {
    forall id :: id in db.messages ==> db.messages[id].connection in db.connections
  }

  /** The second a message was stored with. */
  function Second(db: Db, x: int): nat
    requires 0 <= x && x in db.messages
  {
    db.messages[x].seconds
  }

  /** `r` answers the query out of the listing `full`. It is a beginning of it and no longer than
      the limit. Forward its messages are before the limit second, backward not before it. If it
      ends early, the next message is on the other side of that second. */
  ghost predicate Cut(db: Db, q: Params, full: seq<int>, r: seq<int>) {
    && r <= full && |r| <= q.limit
    && (forall i :: 0 <= i < |full| ==> 0 <= full[i] && full[i] in db.messages)
    && (forall t :: q.limitSeconds == Some(t) ==>
          forall i :: 0 <= i < |r| ==>
            if q.forward then Second(db, full[i]) < t else Second(db, full[i]) >= t)
    && (|r| < |full| && |r| < q.limit ==>
          && q.limitSeconds.Some?
          && if q.forward then Second(db, full[|r|]) >= q.limitSeconds.value
             else Second(db, full[|r|]) < q.limitSeconds.value)
  }

  /** `r` is the listing of `f`, cut as the query asks. */
  ghost predicate Answers(db: Db, q: Params, r: seq<int>, f: int -> nat) {
    exists full :: Lists(q.forward, full, f) && Cut(db, q, full, r)
  }

  lemma {:induction false} TakeWhileCuts(db: Db, q: Params, full: seq<int>)
    requires forall i :: 0 <= i < |full| ==> 0 <= full[i] && full[i] in db.messages
    ensures var t := TakeWhile(db, q, full);
            && t <= full && (forall i :: 0 <= i < |t| ==> !Beyond(db, q, full[i]))
            && (|t| < |full| ==> Beyond(db, q, full[|t|]))
    decreases full
  {
    if full != [] && !Beyond(db, q, full[0]) {
      TakeWhileCuts(db, q, full[1..]);
    }
  }

  /** The limits cut the listing as they should. */
  lemma LimitedCuts(db: Db, q: Params, full: seq<int>)
    requires forall i :: 0 <= i < |full| ==> 0 <= full[i] && full[i] in db.messages
    ensures Cut(db, q, full, Limited(db, q, full))
  {
    hide TakeWhile;
    TakeWhileCuts(db, q, full);
  }

  /** A listing can be cut in one way only. */
  lemma CutUnique(db: Db, q: Params, full: seq<int>, r: seq<int>, r': seq<int>)
    requires Cut(db, q, full, r) && Cut(db, q, full, r')
    ensures r == r'
  {
    assert |r| == |r'|;
  }

  lemma YieldFound(db: Db, q: Params, full: seq<int>)
    requires Connected(db) && Lists(q.forward, full, Yield(db, q))
    ensures forall i :: 0 <= i < |full| ==> Found(db, full[i])
  {
    forall i | 0 <= i < |full|
      ensures Found(db, full[i])
    {
      assert multiset(full)[full[i]] > 0;
      assert Wanted(db, q, full[i]);
    }
  }

  lemma OneIndexExact(db: Db, q: Params)
    requires Indexed(db) && (q.stream.None? || q.kind.None?)
    ensures Lists(q.forward, OneIndex(db, q), Yield(db, q))
  {
    if q.stream.Some? {
      StreamIdsExact(db, q.stream.value, q.start, q.forward);
    } else if q.kind.Some? {
      KindIdsExact(db, q.kind.value, q.start, q.forward);
    } else if q.present {
      PlainIdsExact(db, q);
    } else {
      AllIdsExact(db, q.forward);
    }
  }

  lemma PlainIdsExact(db: Db, q: Params)
    requires Indexed(db) && q.stream.None? && q.kind.None? && q.present
    ensures Lists(q.forward, Ids(db.ids, 0, q.start, q.forward), Yield(db, q))
  {
    IdsExact(db.ids, 0, q.start, q.forward);
    forall x: int
      ensures Holds(db.ids, 0, q.start, q.forward)(x) == Yield(db, q)(x)
    {
      if 0 <= x {
        IdStored(db, x);
      }
    }
  }

  function OneIndex(db: Db, q: Params): seq<int>
    requires q.stream.None? || q.kind.None?
  {
    if q.stream.Some? then StreamIds(db, q.stream.value, q.start, q.forward)
    else if q.kind.Some? then KindIds(db, q.kind.value, q.start, q.forward)
    else if q.present then Ids(db.ids, 0, q.start, q.forward)
    else AllIds(db, q.forward)
  }

  /** The ids a query reads, before details and limits: the whole listing, or its first
      `limit` items when two indexes are intersected. */
  method ReadIndexes(db: Db, q: Params) returns (ids: seq<int>, ghost full: seq<int>)
    requires Indexed(db)
    ensures Lists(q.forward, full, Yield(db, q))
    ensures forall l :: Lists(q.forward, l, Yield(db, q)) ==>
              ids == if q.stream.Some? && q.kind.Some? then Take(l, q.limit) else l
  {
    if q.stream.Some? && q.kind.Some? {
      var a := StreamIds(db, q.stream.value, q.start, q.forward);
      var b := KindIds(db, q.kind.value, q.start, q.forward);
      StreamIdsExact(db, q.stream.value, q.start, q.forward);
      KindIdsExact(db, q.kind.value, q.start, q.forward);
      hide Indexed, StreamIds, KindIds, Yield, Meets, Sorted;
      ids := SortedIntersect.SortedIntersect([a, b], q.limit, q.forward);
      full :| Meets(q.forward, [a, b], full) && ids == full[..if q.limit < |full| then q.limit else |full|];
      IntersectionExact(db, q, a, b, full);
    } else {
      OneIndexExact(db, q);
      ids := OneIndex(db, q);
      full := ids;
    }
    hide Lists, Yield;
    forall l | Lists(q.forward, l, Yield(db, q))
      ensures l == full
    {
      ListsUnique(q.forward, l, full, Yield(db, q));
    }
  }

  /** No wanted message matches two of the requested kinds, or the stream filter decides. */
  ghost predicate OnceEach(db: Db, q: Params) {
    q.stream.Some? || q.kind.None? || forall x :: Wanted(db, q, x) ==> KindMatches(q.kind.value, db.messages[x]) <= 1
  }

  /** The indexes give the scan exactly when no message is listed twice. */
  lemma YieldIsScan(db: Db, q: Params, full: seq<int>)
    requires Lists(q.forward, full, Yield(db, q))
    ensures Lists(q.forward, full, Scan(db, q)) <==> OnceEach(db, q)
  {
    if OnceEach(db, q) {
      forall x
        ensures multiset(full)[x] == Scan(db, q)(x)
      {
        assert multiset(full)[x] == Yield(db, q)(x);
      }
    } else {
      var x :| Wanted(db, q, x) && KindMatches(q.kind.value, db.messages[x]) > 1;
      assert multiset(full)[x] == Yield(db, q)(x) > 1;
    }
  }

  /** A message with two of the requested types is listed twice, and a scan lists it once. */
  lemma TwoTypesListTwice(db: Db, m: Message, t: nat, u: nat)
    requires db == PutMessage(Empty({m.connection}), 0, m) && m.tys == [t, u]
    ensures var q := Params(None, Some(Types([t, u])), false, 0, true, 10, None);
            && Indexed(db) && !OnceEach(db, q)
            && multiset(KindIds(db, q.kind.value, 0, true))[0] == 2 && Scan(db, q)(0) == 1
  {
    var q := Params(None, Some(Types([t, u])), false, 0, true, 10, None);
    PutKeepsIndexed(Empty({m.connection}), 0, m);
    assert [t, u][1..] == [u] && [u][1..] == [];
    assert HasType()(m, t) && HasType()(m, u);
    assert Matches([u], HasType(), m) == 1 && Matches([t, u], HasType(), m) == 2;
    assert Wanted(db, q, 0) && db.messages[0] == m;
    KindIdsExact(db, q.kind.value, 0, true);
  }

  /** A query returns what the indexes yield, and therefore what a scan of all messages with
      the same predicate, start, direction and limits returns, unless a query by kinds alone
      asks for two kinds that one message has. */
  method Fetch(db: Db, q: Params) returns (r: seq<int>)
    requires Indexed(db) && Connected(db)
    ensures Answers(db, q, r, Yield(db, q))
    ensures OnceEach(db, q) ==> Answers(db, q, r, Scan(db, q))
  {
    var ids;
    ghost var full;
    ids, full := ReadIndexes(db, q);
    YieldFound(db, q, full);
    DetailsAll(db, ids);
    LimitedTake(db, q, full);
    LimitedCuts(db, q, full);
    YieldIsScan(db, q, full);
    r := Limited(db, q, Details(db, ids));
  }

  /** Distinct stream kinds never match a message twice. */
  lemma {:induction false} DistinctKindsMatchOnce(ks: seq<nat>, m: Message)
    requires forall i, j :: 0 <= i < j < |ks| ==> ks[i] != ks[j]
    ensures Matches(ks, HasKind(), m) == (if m.kind in ks then 1 else 0)
  {
    if ks != [] {
      DistinctKindsMatchOnce(ks[1..], m);
      assert m.kind in ks <==> m.kind == ks[0] || m.kind in ks[1..];
    }
  }

  lemma DistinctKindsScan(db: Db, q: Params)
    requires q.kind.Some? && q.kind.value.Kinds?
    requires forall i, j :: 0 <= i < j < |q.kind.value.kinds| ==> q.kind.value.kinds[i] != q.kind.value.kinds[j]
    ensures OnceEach(db, q)
  {
    forall x | Wanted(db, q, x)
      ensures KindMatches(q.kind.value, db.messages[x]) <= 1
    {
      DistinctKindsMatchOnce(q.kind.value.kinds, db.messages[x]);
    }
  }
}
