/** Block and transaction statistics derived from gossip: the height being followed, the latency
    of every sighting of a block, and the fate of pooled transactions and snark work. */
module Stats {
  import opened Bytes

  type Hash = nat
  type Peer = nat
  type Time = nat

  // ----------------------------------------------------------------------- pools

  datatype Entry = Entry(time: Time, producer: Peer, messageId: nat)

  /** An entry that a block has included. */
  datatype Report = Report(key: nat, entry: Entry, latency: nat)

  /** Entries waiting for a block, with the history of all that were pooled and reported. */
  datatype Pool = Pool(waiting: map<nat, Entry>, pooled: multiset<(nat, Entry)>, reported: multiset<(nat, Entry)>)

  function EmptyPool(): Pool { Pool(map[], multiset{}, multiset{}) }

  function Elapsed(now: Time, then_: Time): nat { if then_ <= now then now - then_ else 0 }

  /** Only the first sighting of a key is kept while it waits. */
  function AddEntry(p: Pool, key: nat, e: Entry): Pool {
    if key in p.waiting then p else
    Pool(p.waiting[key := e], p.pooled + multiset{(key, e)}, p.reported)
  }

  function AddEntries(p: Pool, keys: seq<nat>, e: Entry): Pool {
    if keys == [] then p else AddEntry(AddEntries(p, keys[..|keys| - 1], e), keys[|keys| - 1], e)
  }

  /** A block takes one key out of the pool, if it is there. The time it has waited is computed
      without regard to `Late`, which ends the program. */
  function TakeEntry(p: Pool, key: nat, now: Time): (Pool, seq<Report>) {
    if key !in p.waiting then (p, []) else
    var e := p.waiting[key];
    (Pool(p.waiting - {key}, p.pooled, p.reported + multiset{(key, e)}), [Report(key, e, Elapsed(now, e.time))])
  }

  function TakeEntries(p: Pool, keys: seq<nat>, now: Time): (Pool, seq<Report>) {
    if keys == [] then (p, []) else
    var (p1, rs) := TakeEntries(p, keys[..|keys| - 1], now);
    var (p2, r) := TakeEntry(p1, keys[|keys| - 1], now);
    (p2, rs + r)
  }

  /** One of the keys was pooled later than now: the program panics on it. */
  predicate Late(p: Pool, keys: seq<nat>, now: Time) {
    exists k :: k in keys && k in p.waiting && p.waiting[k].time > now
  }

  function Items(m: map<nat, Entry>): set<(nat, Entry)> { set k | k in m :: (k, m[k]) }

  /** Every entry ever pooled is either still waiting or has been reported, once. */
  ghost predicate Balanced(p: Pool) {
    p.pooled == p.reported + multiset(Items(p.waiting))
  }

  ghost predicate NotAfter(p: Pool, now: Time) {
    forall k :: k in p.waiting ==> p.waiting[k].time <= now
  }

  lemma ItemsAdd(m: map<nat, Entry>, key: nat, e: Entry)
    requires key !in m
    ensures (key, e) !in Items(m) && Items(m[key := e]) == Items(m) + {(key, e)}
  {
    assert (m[key := e])[key] == e;
    assert forall k :: k in m ==> (m[key := e])[k] == m[k];
  }

  lemma ItemsRemove(m: map<nat, Entry>, key: nat)
    requires key in m
    ensures (key, m[key]) in Items(m) && Items(m - {key}) == Items(m) - {(key, m[key])}
  {
    var m' := m - {key};
    ItemsAdd(m', key, m[key]);
    assert m'[key := m[key]] == m;
  }

  lemma AddKeepsBalance(p: Pool, key: nat, e: Entry)
    requires Balanced(p)
    ensures Balanced(AddEntry(p, key, e))
  {
    if key !in p.waiting {
      ItemsAdd(p.waiting, key, e);
    }
  }

  lemma TakeKeepsBalance(p: Pool, key: nat, now: Time)
    requires Balanced(p)
    ensures Balanced(TakeEntry(p, key, now).0)
  {
    if key in p.waiting {
      ItemsRemove(p.waiting, key);
    }
  }

  lemma {:induction false} AddsKeepBalance(p: Pool, keys: seq<nat>, e: Entry)
    requires Balanced(p)
    ensures Balanced(AddEntries(p, keys, e))
    decreases |keys|
  {
    if keys != [] {
      AddsKeepBalance(p, keys[..|keys| - 1], e);
      AddKeepsBalance(AddEntries(p, keys[..|keys| - 1], e), keys[|keys| - 1], e);
    }
  }

  lemma AddsKeepPool(p: Pool, keys: seq<nat>, e: Entry)
    requires Balanced(p) && NotAfter(p, e.time)
    ensures Balanced(AddEntries(p, keys, e)) && NotAfter(AddEntries(p, keys, e), e.time)
  {
    AddsKeepBalance(p, keys, e);
    FirstSightingKept(p, keys, e);
  }

  /** After a sighting every key waits, with the entry of its first sighting. */
  lemma {:induction false} FirstSightingKept(p: Pool, keys: seq<nat>, e: Entry)
    ensures var p' := AddEntries(p, keys, e);
            && (forall k :: k in p'.waiting <==> k in p.waiting || k in keys)
            && (forall k :: k in p'.waiting ==> p'.waiting[k] == if k in p.waiting then p.waiting[k] else e)
    decreases |keys|
  {
    if keys != [] {
      var n := |keys| - 1;
      FirstSightingKept(p, keys[..n], e);
      assert keys == keys[..n] + [keys[n]];
    }
  }

  function ReportItems(rs: seq<Report>): multiset<(nat, Entry)> {
    if rs == [] then multiset{} else
    ReportItems(rs[..|rs| - 1]) + multiset{(rs[|rs| - 1].key, rs[|rs| - 1].entry)}
  }

  /** The reports of a block are what the pool has lost. */
  lemma {:induction false} TakesAreReported(p: Pool, keys: seq<nat>, now: Time)
    ensures var (p', rs) := TakeEntries(p, keys, now);
            p'.reported == p.reported + ReportItems(rs)
    decreases |keys|
  {
    if keys != [] {
      var (p1, rs) := TakeEntries(p, keys[..|keys| - 1], now);
      TakesAreReported(p, keys[..|keys| - 1], now);
      var r := TakeEntry(p1, keys[|keys| - 1], now).1;
      if r == [] {
        assert rs + r == rs;
      } else {
        assert (rs + r)[..|rs + r| - 1] == rs;
      }
    }
  }

  lemma {:induction false} TakesKeepBalance(p: Pool, keys: seq<nat>, now: Time)
    requires Balanced(p)
    ensures Balanced(TakeEntries(p, keys, now).0) && TakeEntries(p, keys, now).0.pooled == p.pooled
    decreases |keys|
  {
    hide Balanced;
    if keys != [] {
      TakesKeepBalance(p, keys[..|keys| - 1], now);
      TakeKeepsBalance(TakeEntries(p, keys[..|keys| - 1], now).0, keys[|keys| - 1], now);
    }
  }

  /** A block takes exactly its keys out of the pool and reports how long each entry waited,
      unless one of them is late. */
  lemma {:induction false} TakesAreTimed(p: Pool, keys: seq<nat>, now: Time)
    ensures var (p', rs) := TakeEntries(p, keys, now);
            && (forall k :: k in p'.waiting <==> k in p.waiting && k !in keys)
            && (forall k :: k in p'.waiting ==> p'.waiting[k] == p.waiting[k])
            && (!Late(p, keys, now) ==> forall i :: 0 <= i < |rs| ==> rs[i].entry.time + rs[i].latency == now)
    decreases |keys|
  {
    if keys != [] {
      var before := keys[..|keys| - 1];
      TakesAreTimed(p, before, now);
      assert keys == before + [keys[|keys| - 1]];
    }
  }

  /** Settling a block keeps the pool balanced and its times in the past. */
  lemma TakesKeepPool(p: Pool, keys: seq<nat>, now: Time)
    requires Balanced(p) && NotAfter(p, now)
    ensures Balanced(TakeEntries(p, keys, now).0) && NotAfter(TakeEntries(p, keys, now).0, now)
  {
    TakesKeepBalance(p, keys, now);
    TakesAreTimed(p, keys, now);
  }

  // ----------------------------------------------------------------------- state

  datatype Kind = Publish | IHave | IWant | Testing

  datatype Sighting = Sighting(
    producer: Peer, hash: Hash, height: nat, slot: nat, incoming: bool, kind: Kind, messageId: nat, time: Time,
    latency: Option<nat>)

  datatype Description = Description(time: Time, producer: Peer, height: nat, slot: nat)

  datatype TxStat = TxStat(
    time: Time, height: nat, transactions: seq<Report>, snarks: seq<Report>, pending: set<nat>)

  datatype State = State(
    height: nat,
    events: seq<Sighting>,
    first: map<Hash, Description>,
    txs: Pool,
    snarks: Pool,
    txStat: Option<TxStat>)

  function Init(): State { State(0, [], map[], EmptyPool(), EmptyPool(), None) }

  datatype Gossip =
    | NewState(producer: Peer, hash: Hash, height: nat, slot: nat, commands: seq<nat>, works: seq<nat>)
    | TransactionPool(producer: Peer, signatures: seq<nat>)
    | SnarkPool(producer: Peer, work: nat)
    | Control(ihave: seq<Hash>, iwant: seq<Hash>)
    | TestingMessage(producer: Peer, height: nat)
    | Ignored

  /** The message an event came in. */
  datatype Context = Context(messageId: nat, time: Time, incoming: bool)

  function WaitingIds(p: Pool): set<nat> { set k | k in p.waiting :: p.waiting[k].messageId }

  /** A higher block starts everything afresh, except the pools. */
  function Raised(s: State, height: nat): State {
    if s.height < height then s.(height := height, events := [], first := map[], txStat := None) else s
  }

  /** A block seen for the first time settles the entries it includes. */
  function FirstSeen(s: State, c: Context, g: Gossip): State
    requires g.NewState?
  {
    var stat := if s.txStat.Some? then s.txStat.value else TxStat(c.time, g.height, [], [], {});
    var (txs, tr) := TakeEntries(s.txs, g.commands, c.time);
    var (snarks, sr) := TakeEntries(s.snarks, g.works, c.time);
    s.(first := s.first[g.hash := Description(c.time, g.producer, g.height, g.slot)],
       txs := txs, snarks := snarks,
       txStat := Some(stat.(transactions := stat.transactions + tr, snarks := stat.snarks + sr,
                            pending := WaitingIds(txs))))
  }

  function SeeBlock(s0: State, c: Context, g: Gossip): State
    requires g.NewState?
  {
    var s := Raised(s0, g.height);
    if s.height > g.height then s else
    var latency := if g.hash in s.first then Some(Elapsed(c.time, s.first[g.hash].time)) else None;
    var s' := if g.hash in s.first then s else FirstSeen(s, c, g);
    s'.(events := s'.events
        + [Sighting(g.producer, g.hash, g.height, g.slot, c.incoming, Publish, c.messageId, c.time, latency)])
  }

  /** A hash in a control message is recorded if it is that of a block of the current height. */
  function SeeHash(s: State, c: Context, hash: Hash, kind: Kind): State {
    if hash !in s.first || s.first[hash].height != s.height then s else
    var d := s.first[hash];
    s.(events := s.events
       + [Sighting(d.producer, hash, d.height, d.slot, c.incoming, kind, c.messageId, c.time,
                   if d.time <= c.time then Some(c.time - d.time) else None)])
  }

  function SeeHashes(s: State, c: Context, hashes: seq<Hash>, kind: Kind): State {
    if hashes == [] then s else SeeHash(SeeHashes(s, c, hashes[..|hashes| - 1], kind), c, hashes[|hashes| - 1], kind)
  }

  function Observe(s: State, c: Context, g: Gossip): State {
    match g
    case NewState(_, _, _, _, _, _) => SeeBlock(s, c, g)
    case TransactionPool(producer, signatures) =>
      s.(txs := AddEntries(s.txs, signatures, Entry(c.time, producer, c.messageId)))
    case SnarkPool(producer, work) =>
      s.(snarks := AddEntry(s.snarks, work, Entry(c.time, producer, c.messageId)))
    case Control(ihave, iwant) => SeeHashes(SeeHashes(s, c, ihave, IHave), c, iwant, IWant)
    case TestingMessage(producer, height) =>
      s.(events := s.events + [Sighting(producer, 0, height, height, c.incoming, Testing, c.messageId, c.time, None)])
    case Ignored => s
  }

  function ObserveAll(s: State, c: Context, gs: seq<Gossip>): State {
    if gs == [] then s else Observe(ObserveAll(s, c, gs[..|gs| - 1]), c, gs[|gs| - 1])
  }

  // ------------------------------------------------------------------- invariant

  /** Position of the first publication of a hash. */
  function FirstPublish(events: seq<Sighting>, hash: Hash): (r: Option<nat>)
    ensures r.Some? ==> r.value < |events|
  {
    if events == [] then None else
    var earlier := FirstPublish(events[..|events| - 1], hash);
    var e := events[|events| - 1];
    if earlier.Some? then earlier else
    if e.kind.Publish? && e.hash == hash then Some(|events| - 1) else None
  }

  /** The latency a sighting should carry: none for the first publication of its hash, the time
      since that publication for every later one and for every control message. */
  predicate LatencyDue(before: seq<Sighting>, e: Sighting) {
    var i := FirstPublish(before, e.hash);
    match e.kind
    case Publish => e.latency == if i.None? then None else Some(Elapsed(e.time, before[i.value].time))
    case Testing => e.latency == None
    case _ => i.Some? && before[i.value].time <= e.time && e.latency == Some(e.time - before[i.value].time)
  }

  ghost predicate Recorded(s: State) {
    forall i :: 0 <= i < |s.events| ==>
      && LatencyDue(s.events[..i], s.events[i])
      && (!s.events[i].kind.Testing? ==> s.events[i].height == s.height)
  }

  ghost predicate FirstsKnown(s: State, now: Time) {
    forall h ::
      && (h in s.first <==> FirstPublish(s.events, h).Some?)
      && (h in s.first ==>
            && s.first[h].time == s.events[FirstPublish(s.events, h).value].time <= now
            && s.first[h].height == s.height)
  }

  ghost predicate PoolsGood(s: State, now: Time) {
    Balanced(s.txs) && Balanced(s.snarks) && NotAfter(s.txs, now) && NotAfter(s.snarks, now)
  }

  ghost predicate Inv(s: State, now: Time) {
    Recorded(s) && FirstsKnown(s, now) && PoolsGood(s, now)
  }

  lemma FirstPublishAppend(events: seq<Sighting>, e: Sighting, h: Hash)
    ensures FirstPublish(events + [e], h) ==
            if FirstPublish(events, h).Some? then FirstPublish(events, h)
            else if e.kind.Publish? && e.hash == h then Some(|events|) else None
  {
    assert (events + [e])[..|events|] == events;
  }

  /** Recording one more sighting. */
  lemma RecordKeepsInv(s: State, s': State, e: Sighting, now: Time)
    requires Recorded(s) && s'.height == s.height && s'.events == s.events + [e]
    requires LatencyDue(s.events, e) && (!e.kind.Testing? ==> e.height == s.height)
    ensures Recorded(s')
  {
    forall i | 0 <= i < |s'.events|
      ensures LatencyDue(s'.events[..i], s'.events[i])
      ensures !s'.events[i].kind.Testing? ==> s'.events[i].height == s'.height
    {
      assert s'.events[..i] == s.events[..i];
      if i == |s.events| {
        assert s.events[..i] == s.events;
      }
    }
  }

  lemma RaisedKeepsInv(s: State, height: nat, now: Time)
    requires Inv(s, now)
    ensures Inv(Raised(s, height), now)
  {
  }

  lemma SeeHashKeepsInv(s: State, c: Context, hash: Hash, kind: Kind)
    requires Inv(s, c.time) && (kind.IHave? || kind.IWant?)
    ensures Inv(SeeHash(s, c, hash, kind), c.time)
  {
    SeeHashKeepsRecord(s, c, hash, kind);
    hide Recorded, FirstsKnown, Balanced, NotAfter;
  }

  lemma SeeHashKeepsRecord(s: State, c: Context, hash: Hash, kind: Kind)
    requires Recorded(s) && FirstsKnown(s, c.time) && (kind.IHave? || kind.IWant?)
    ensures Recorded(SeeHash(s, c, hash, kind)) && FirstsKnown(SeeHash(s, c, hash, kind), c.time)
  {
    if hash in s.first {
      var s' := SeeHash(s, c, hash, kind);
      var e := s'.events[|s.events|];
      RecordKeepsInv(s, s', e, c.time);
      hide Recorded;
      forall h
        ensures FirstPublish(s'.events, h) == FirstPublish(s.events, h)
      {
        FirstPublishAppend(s.events, e, h);
      }
    }
  }

  lemma {:induction false} SeeHashesKeepsInv(s: State, c: Context, hashes: seq<Hash>, kind: Kind)
    requires Inv(s, c.time) && (kind.IHave? || kind.IWant?)
    ensures Inv(SeeHashes(s, c, hashes, kind), c.time)
    decreases |hashes|
  {
    if hashes != [] {
      SeeHashesKeepsInv(s, c, hashes[..|hashes| - 1], kind);
      SeeHashKeepsInv(SeeHashes(s, c, hashes[..|hashes| - 1], kind), c, hashes[|hashes| - 1], kind);
    }
  }

  lemma SeeBlockKeepsInv(s0: State, c: Context, g: Gossip)
    requires Inv(s0, c.time) && g.NewState?
    ensures Inv(SeeBlock(s0, c, g), c.time)
  {
    hide Recorded, FirstsKnown, TakeEntries, LatencyDue;
    RaisedKeepsInv(s0, g.height, c.time);
    var s := Raised(s0, g.height);
    if s.height == g.height {
      PublishKeepsInv(s, SeeBlock(s0, c, g), c, g);
      TakesKeepPool(s.txs, g.commands, c.time);
      TakesKeepPool(s.snarks, g.works, c.time);
    }
  }

  /** A publication of the current height: the first one of its hash is remembered. */
  lemma PublishKeepsInv(s: State, s': State, c: Context, g: Gossip)
    requires g.NewState? && s.height == g.height == s'.height && Recorded(s) && FirstsKnown(s, c.time)
    requires var known := g.hash in s.first;
             && s'.events == s.events
                + [Sighting(g.producer, g.hash, g.height, g.slot, c.incoming, Publish, c.messageId, c.time,
                            if known then Some(Elapsed(c.time, s.first[g.hash].time)) else None)]
             && s'.first == if known then s.first
                            else s.first[g.hash := Description(c.time, g.producer, g.height, g.slot)]
    ensures Recorded(s') && FirstsKnown(s', c.time)
  {
    var e := s'.events[|s.events|];
    RecordKeepsInv(s, s', e, c.time);
    forall h
      ensures FirstPublish(s'.events, h) ==
              if FirstPublish(s.events, h).Some? then FirstPublish(s.events, h)
              else if g.hash == h then Some(|s.events|) else None
    {
      FirstPublishAppend(s.events, e, h);
    }
  }

  lemma PooledKeepsInv(s: State, txs: Pool, snarks: Pool, now: Time)
    requires Inv(s, now) && Balanced(txs) && Balanced(snarks) && NotAfter(txs, now) && NotAfter(snarks, now)
    ensures Inv(s.(txs := txs, snarks := snarks), now)
  {
  }

  lemma PoolsOf(s: State, now: Time)
    requires Inv(s, now)
    ensures Balanced(s.txs) && Balanced(s.snarks) && NotAfter(s.txs, now) && NotAfter(s.snarks, now)
  {
  }

  lemma TestingKeepsInv(s: State, c: Context, g: Gossip)
    requires Inv(s, c.time) && g.TestingMessage?
    ensures Inv(Observe(s, c, g), c.time)
  {
    var s' := Observe(s, c, g);
    var e := s'.events[|s.events|];
    RecordKeepsInv(s, s', e, c.time);
    forall h
      ensures FirstPublish(s'.events, h) == FirstPublish(s.events, h)
    {
      FirstPublishAppend(s.events, e, h);
    }
  }

  // -------------------------------------------------------------------- all runs

  datatype Message = Message(context: Context, gossip: seq<Gossip>)

  function After(s: State, ms: seq<Message>): State {
    if ms == [] then s else ObserveAll(After(s, ms[..|ms| - 1]), ms[|ms| - 1].context, ms[|ms| - 1].gossip)
  }

  ghost predicate InTime(ms: seq<Message>) {
    forall i, j :: 0 <= i < j < |ms| ==> ms[i].context.time <= ms[j].context.time
  }

  lemma {:induction false} ObserveAllKeepsInv(s: State, c: Context, gs: seq<Gossip>)
    requires Inv(s, c.time)
    ensures Inv(ObserveAll(s, c, gs), c.time)
    decreases |gs|
  {
    hide Inv;
    if gs != [] {
      ObserveAllKeepsInv(s, c, gs[..|gs| - 1]);
      var s1 := ObserveAll(s, c, gs[..|gs| - 1]);
      PoolsOf(s1, c.time);
      hide Balanced, SeeBlock, SeeHashes, AddEntries;
      match gs[|gs| - 1]
      case NewState(_, _, _, _, _, _) => SeeBlockKeepsInv(s1, c, gs[|gs| - 1]);
      case TransactionPool(producer, signatures) =>
        var e := Entry(c.time, producer, c.messageId);
        AddsKeepPool(s1.txs, signatures, e);
        PooledKeepsInv(s1, AddEntries(s1.txs, signatures, e), s1.snarks, c.time);
      case SnarkPool(producer, work) =>
        var e := Entry(c.time, producer, c.messageId);
        AddKeepsBalance(s1.snarks, work, e);
        PooledKeepsInv(s1, s1.txs, AddEntry(s1.snarks, work, e), c.time);
      case Control(ihave, iwant) =>
        SeeHashesKeepsInv(s1, c, ihave, IHave);
        SeeHashesKeepsInv(SeeHashes(s1, c, ihave, IHave), c, iwant, IWant);
      case TestingMessage(_, _) => TestingKeepsInv(s1, c, gs[|gs| - 1]);
      case Ignored =>
    }
  }

  lemma InvLater(s: State, now: Time, later: Time)
    requires Inv(s, now) && now <= later
    ensures Inv(s, later)
  {
  }

  /** In every run with non-decreasing times: recorded events carry the current height and the
      latency due to them, and both pools balance. */
  lemma {:induction false} RunKeepsInv(ms: seq<Message>)
    requires InTime(ms)
    ensures Inv(After(Init(), ms), if ms == [] then 0 else ms[|ms| - 1].context.time)
    decreases |ms|
  {
    if ms == [] {
      assert multiset(Items(map[])) == multiset{};
    } else {
      var before := ms[..|ms| - 1];
      RunKeepsInv(before);
      var c := ms[|ms| - 1].context;
      hide Inv;
      InvLater(After(Init(), before), if before == [] then 0 else before[|before| - 1].context.time, c.time);
      ObserveAllKeepsInv(After(Init(), before), c, ms[|ms| - 1].gossip);
    }
  }

  lemma {:induction false} HashesKeepHeight(s: State, c: Context, hashes: seq<Hash>, kind: Kind)
    ensures SeeHashes(s, c, hashes, kind).height == s.height
    decreases |hashes|
  {
    if hashes != [] {
      HashesKeepHeight(s, c, hashes[..|hashes| - 1], kind);
    }
  }

  lemma {:induction false} ObserveAllRaises(s: State, c: Context, gs: seq<Gossip>)
    ensures s.height <= ObserveAll(s, c, gs).height
    decreases |gs|
  {
    if gs != [] {
      var s' := ObserveAll(s, c, gs[..|gs| - 1]);
      ObserveAllRaises(s, c, gs[..|gs| - 1]);
      var g := gs[|gs| - 1];
      if g.Control? {
        HashesKeepHeight(s', c, g.ihave, IHave);
        HashesKeepHeight(SeeHashes(s', c, g.ihave, IHave), c, g.iwant, IWant);
      }
    }
  }

  /** The height never goes down. */
  lemma {:induction false} HeightNeverFalls(s: State, ms: seq<Message>, k: nat)
    requires k <= |ms|
    ensures After(s, ms[..k]).height <= After(s, ms).height
    decreases |ms|
  {
    if k < |ms| {
      var before := ms[..|ms| - 1];
      HeightNeverFalls(s, before, k);
      assert before[..k] == ms[..k];
      ObserveAllRaises(After(s, before), ms[|ms| - 1].context, ms[|ms| - 1].gossip);
    } else {
      assert ms[..k] == ms;
    }
  }

  // ----------------------------------------------------------- where sightings come from

  /** All events of a run, each with its message. */
  type Told = (Context, Gossip)

  function Pairs(c: Context, gs: seq<Gossip>): (r: seq<Told>)
    ensures |r| == |gs| && forall i :: 0 <= i < |gs| ==> r[i] == (c, gs[i])
  {
    seq(|gs|, i requires 0 <= i < |gs| => (c, gs[i]))
  }

  function Flat(ms: seq<Message>): seq<Told> {
    if ms == [] then [] else Flat(ms[..|ms| - 1]) + Pairs(ms[|ms| - 1].context, ms[|ms| - 1].gossip)
  }

  /** Some publication among the events has this hash and this description. */
  ghost predicate Published(events: seq<Sighting>, hash: Hash, producer: Peer, height: nat, slot: nat) {
    exists i :: 0 <= i < |events| && IsPublication(events[i], hash, producer, height, slot)
  }

  predicate IsPublication(e: Sighting, hash: Hash, producer: Peer, height: nat, slot: nat) {
    e.kind.Publish? && e.hash == hash && e.producer == producer && e.height == height && e.slot == slot
  }

  /** The sighting was made in this event: with its message and direction, and the block it
      publishes; or the hash it announces or asks for, described as that was published. */
  ghost predicate MadeIn(e: Sighting, events: seq<Sighting>, x: Told) {
    var (c, g) := x;
    && e.messageId == c.messageId && e.time == c.time && e.incoming == c.incoming
    && match e.kind
       case Publish => g.NewState? && IsPublication(e, g.hash, g.producer, g.height, g.slot)
       case IHave => g.Control? && e.hash in g.ihave && Published(events, e.hash, e.producer, e.height, e.slot)
       case IWant => g.Control? && e.hash in g.iwant && Published(events, e.hash, e.producer, e.height, e.slot)
       case Testing => g == TestingMessage(e.producer, e.height) && e.slot == e.height && e.hash == 0
  }

  /** Sighting `i` was made in some event so far. */
  ghost predicate MadeAt(events: seq<Sighting>, i: nat, told: seq<Told>)
    requires i < |events|
  {
    exists k :: 0 <= k < |told| && MadeIn(events[i], events, told[k])
  }

  ghost predicate AllMade(s: State, told: seq<Told>) {
    && (forall i: nat :: i < |s.events| ==> MadeAt(s.events, i, told))
    && (forall h :: h in s.first ==>
          Published(s.events, h, s.first[h].producer, s.first[h].height, s.first[h].slot))
  }

  /** Every block of the current height has been sighted, and there is none above. */
  ghost predicate AllSighted(s: State, told: seq<Told>) {
    forall k :: 0 <= k < |told| && told[k].1.NewState? ==>
      && told[k].1.height <= s.height
      && (told[k].1.height == s.height ==> SightedOf(s.events, told[k]))
  }

  ghost predicate SightedOf(events: seq<Sighting>, x: Told) {
    exists i :: 0 <= i < |events| && events[i].kind.Publish? && MadeIn(events[i], events, x)
  }

  lemma PublishedMore(events: seq<Sighting>, e: Sighting, hash: Hash, producer: Peer, height: nat, slot: nat)
    requires Published(events, hash, producer, height, slot)
    ensures Published(events + [e], hash, producer, height, slot)
  {
    var i :| 0 <= i < |events| && IsPublication(events[i], hash, producer, height, slot);
    assert (events + [e])[i] == events[i];
  }

  lemma MadeMore(events: seq<Sighting>, e: Sighting, i: nat, told: seq<Told>)
    requires i < |events| && MadeAt(events, i, told)
    ensures MadeAt(events + [e], i, told)
  {
    hide Published;
    var k :| 0 <= k < |told| && MadeIn(events[i], events, told[k]);
    var x := events[i];
    if x.kind.IHave? || x.kind.IWant? {
      PublishedMore(events, e, x.hash, x.producer, x.height, x.slot);
    }
    assert MadeIn((events + [e])[i], events + [e], told[k]);
  }

  lemma SightedMore(events: seq<Sighting>, e: Sighting, x: Told)
    requires SightedOf(events, x)
    ensures SightedOf(events + [e], x)
  {
    var i :| 0 <= i < |events| && events[i].kind.Publish? && MadeIn(events[i], events, x);
    assert (events + [e])[i] == events[i];
  }

  /** One more sighting. */
  lemma AddSighting(s: State, s': State, e: Sighting, told: seq<Told>, k: nat)
    requires AllMade(s, told) && s'.events == s.events + [e] && k < |told| && MadeIn(e, s'.events, told[k])
    requires forall h :: h in s'.first ==>
               (h in s.first && s'.first[h] == s.first[h])
               || Published(s'.events, h, s'.first[h].producer, s'.first[h].height, s'.first[h].slot)
    ensures AllMade(s', told)
  {
    hide MadeIn, Published;
    forall i: nat | i < |s'.events|
      ensures MadeAt(s'.events, i, told)
    {
      if i < |s.events| {
        MadeMore(s.events, e, i, told);
      }
    }
    forall h | h in s'.first
      ensures Published(s'.events, h, s'.first[h].producer, s'.first[h].height, s'.first[h].slot)
    {
      if h in s.first && s'.first[h] == s.first[h] {
        PublishedMore(s.events, e, h, s.first[h].producer, s.first[h].height, s.first[h].slot);
      }
    }
  }

  lemma MadeLater(s: State, told: seq<Told>, x: Told)
    requires AllMade(s, told)
    ensures AllMade(s, told + [x])
  {
    hide MadeIn;
    forall i: nat | i < |s.events|
      ensures MadeAt(s.events, i, told + [x])
    {
      assert MadeAt(s.events, i, told);
      var k :| 0 <= k < |told| && MadeIn(s.events[i], s.events, told[k]);
      assert (told + [x])[k] == told[k];
    }
  }

  lemma SeeHashMade(s: State, c: Context, g: Gossip, hash: Hash, kind: Kind, told: seq<Told>, k: nat)
    requires AllMade(s, told) && k < |told| && told[k] == (c, g) && g.Control?
    requires (kind.IHave? && hash in g.ihave) || (kind.IWant? && hash in g.iwant)
    ensures AllMade(SeeHash(s, c, hash, kind), told)
  {
    if hash in s.first && s.first[hash].height == s.height {
      hide MadeAt, Published;
      var s' := SeeHash(s, c, hash, kind);
      var e, d := s'.events[|s.events|], s.first[hash];
      PublishedMore(s.events, e, hash, d.producer, d.height, d.slot);
      assert MadeIn(e, s'.events, told[k]);
      AddSighting(s, s', e, told, k);
    }
  }

  lemma {:induction false} SeeHashesMade(
    s: State, c: Context, g: Gossip, hashes: seq<Hash>, kind: Kind, told: seq<Told>, k: nat)
    requires AllMade(s, told) && k < |told| && told[k] == (c, g) && g.Control?
    requires (kind.IHave? && hashes <= g.ihave) || (kind.IWant? && hashes <= g.iwant)
    ensures AllMade(SeeHashes(s, c, hashes, kind), told)
    decreases |hashes|
  {
    if hashes != [] {
      hide AllMade, SeeHash;
      var n := |hashes| - 1;
      SeeHashesMade(s, c, g, hashes[..n], kind, told, k);
      assert hashes[n] in hashes;
      SeeHashMade(SeeHashes(s, c, hashes[..n], kind), c, g, hashes[n], kind, told, k);
    }
  }

  /** A block at the current height. */
  lemma PublishMade(s: State, s': State, e: Sighting, c: Context, g: Gossip, told: seq<Told>, k: nat)
    requires AllMade(s, told) && k < |told| && told[k] == (c, g) && g.NewState?
    requires s'.events == s.events + [e] && e.kind.Publish?
    requires e.messageId == c.messageId && e.time == c.time && e.incoming == c.incoming
    requires IsPublication(e, g.hash, g.producer, g.height, g.slot)
    requires s'.first == s.first ||
             (exists t :: s'.first == s.first[g.hash := Description(t, g.producer, g.height, g.slot)])
    ensures AllMade(s', told) && SightedOf(s'.events, (c, g))
  {
    hide MadeAt;
    assert IsPublication(s'.events[|s.events|], g.hash, g.producer, g.height, g.slot);
    assert MadeIn(s'.events[|s.events|], s'.events, told[k]);
    hide MadeIn;
    AddSighting(s, s', e, told, k);
  }

  lemma RaisedMade(s: State, height: nat, told: seq<Told>)
    requires AllMade(s, told)
    ensures AllMade(Raised(s, height), told)
  {
  }

  lemma SeeBlockMade(s: State, c: Context, g: Gossip, told: seq<Told>, k: nat)
    requires AllMade(s, told) && k < |told| && told[k] == (c, g) && g.NewState?
    ensures AllMade(SeeBlock(s, c, g), told)
    ensures s.height <= g.height ==> SightedOf(SeeBlock(s, c, g).events, (c, g))
  {
    RaisedMade(s, g.height, told);
    var s1, s' := Raised(s, g.height), SeeBlock(s, c, g);
    hide AllMade, SightedOf, TakeEntries;
    if s1.height <= g.height {
      PublishMade(s1, s', s'.events[|s1.events|], c, g, told, k);
    }
  }

  lemma ObserveMade(s: State, c: Context, g: Gossip, told: seq<Told>)
    requires AllMade(s, told)
    ensures AllMade(Observe(s, c, g), told + [(c, g)])
  {
    var told', n := told + [(c, g)], |told|;
    MadeLater(s, told, (c, g));
    match g
    case NewState(_, _, _, _, _, _) =>
      hide AllMade;
      SeeBlockMade(s, c, g, told', n);
    case Control(ihave, iwant) =>
      hide AllMade;
      SeeHashesMade(s, c, g, ihave, IHave, told', n);
      SeeHashesMade(SeeHashes(s, c, ihave, IHave), c, g, iwant, IWant, told', n);
    case TestingMessage(_, _) =>
      var s' := Observe(s, c, g);
      hide MadeAt, Published;
      assert MadeIn(s'.events[|s.events|], s'.events, told'[n]);
      AddSighting(s, s', s'.events[|s.events|], told', n);
    case _ =>
  }

  lemma EventsStay(s: State, c: Context, g: Gossip, x: Told)
    requires SightedOf(s.events, x) && Observe(s, c, g).height == s.height
    ensures SightedOf(Observe(s, c, g).events, x)
  {
    hide SightedOf, TakeEntries;
    match g
    case NewState(_, _, _, _, _, _) =>
      if g.height == s.height {
        SightedMore(s.events, Observe(s, c, g).events[|s.events|], x);
      }
    case Control(ihave, iwant) =>
      HashesStay(s, c, ihave, IHave, x);
      HashesStay(SeeHashes(s, c, ihave, IHave), c, iwant, IWant, x);
    case TestingMessage(_, _) => SightedMore(s.events, Observe(s, c, g).events[|s.events|], x);
    case _ =>
  }

  lemma {:induction false} HashesStay(s: State, c: Context, hashes: seq<Hash>, kind: Kind, x: Told)
    requires SightedOf(s.events, x)
    ensures SightedOf(SeeHashes(s, c, hashes, kind).events, x)
    decreases |hashes|
  {
    if hashes != [] {
      hide SightedOf;
      var n := |hashes| - 1;
      HashesStay(s, c, hashes[..n], kind, x);
      var s1 := SeeHashes(s, c, hashes[..n], kind);
      if hashes[n] in s1.first && s1.first[hashes[n]].height == s1.height {
        SightedMore(s1.events, SeeHash(s1, c, hashes[n], kind).events[|s1.events|], x);
      }
    }
  }

  lemma ObserveSighted(s: State, c: Context, g: Gossip, told: seq<Told>)
    requires AllMade(s, told) && AllSighted(s, told)
    ensures AllSighted(Observe(s, c, g), told + [(c, g)])
  {
    var s', told' := Observe(s, c, g), told + [(c, g)];
    MadeLater(s, told, (c, g));
    if g.NewState? {
      SeeBlockMade(s, c, g, told', |told|);
    }
    ObserveHeight(s, c, g);
    hide AllMade, SightedOf, Observe;
    forall k | 0 <= k < |told'| && told'[k].1.NewState?
      ensures told'[k].1.height <= s'.height && (told'[k].1.height == s'.height ==> SightedOf(s'.events, told'[k]))
    {
      if k < |told| {
        assert told'[k] == told[k];
        if told[k].1.height == s'.height {
          EventsStay(s, c, g, told[k]);
        }
      } else {
        ObserveBlock(s, c, g);
      }
    }
  }

  lemma ObserveBlock(s: State, c: Context, g: Gossip)
    ensures g.NewState? ==> Observe(s, c, g) == SeeBlock(s, c, g)
  {
  }

  lemma ObserveHeight(s: State, c: Context, g: Gossip)
    ensures Observe(s, c, g).height == if g.NewState? && g.height > s.height then g.height else s.height
  {
    if g.Control? {
      HashesKeepHeight(s, c, g.ihave, IHave);
      HashesKeepHeight(SeeHashes(s, c, g.ihave, IHave), c, g.iwant, IWant);
    }
  }

  lemma {:induction false} MessageMade(s: State, c: Context, gs: seq<Gossip>, told: seq<Told>)
    requires AllMade(s, told) && AllSighted(s, told)
    ensures var s', told' := ObserveAll(s, c, gs), told + Pairs(c, gs);
            AllMade(s', told') && AllSighted(s', told')
    decreases |gs|
  {
    hide AllMade, AllSighted, Observe;
    if gs == [] {
      assert told + Pairs(c, gs) == told;
    } else {
      var n := |gs| - 1;
      MessageMade(s, c, gs[..n], told);
      var s1, told1 := ObserveAll(s, c, gs[..n]), told + Pairs(c, gs[..n]);
      ObserveMade(s1, c, gs[n], told1);
      ObserveSighted(s1, c, gs[n], told1);
      assert told + Pairs(c, gs) == told1 + [(c, gs[n])];
    }
  }

  /** Over every run: each sighting was made in an event of the run, with its message, direction
      and block, and every block of the current height has been sighted; there is none above. */
  lemma {:induction false} SightingsAreGossip(ms: seq<Message>)
    ensures AllMade(After(Init(), ms), Flat(ms)) && AllSighted(After(Init(), ms), Flat(ms))
    decreases |ms|
  {
    if ms != [] {
      hide AllMade, AllSighted, ObserveAll;
      SightingsAreGossip(ms[..|ms| - 1]);
      MessageMade(After(Init(), ms[..|ms| - 1]), ms[|ms| - 1].context, ms[|ms| - 1].gossip, Flat(ms[..|ms| - 1]));
    }
  }

  // ------------------------------------------------------- what reaches the database

  type Item = (nat, Entry)

  /** Both pools are treated alike: transactions, and else snark work. */
  function PoolOf(s: State, tx: bool): Pool { if tx then s.txs else s.snarks }

  function KeysOf(g: Gossip, tx: bool): seq<nat>
    requires g.NewState?
  {
    if tx then g.commands else g.works
  }

  function Reports(stat: Option<TxStat>, tx: bool): seq<Report> {
    if stat.None? then [] else if tx then stat.value.transactions else stat.value.snarks
  }

  /** How often a statistics record reports `x`. */
  function InStat(stat: Option<TxStat>, tx: bool, x: Item): nat { ReportItems(Reports(stat, tx))[x] }

  /** How often `x` has left its pool. */
  function Left(s: State, tx: bool, x: Item): nat { PoolOf(s, tx).reported[x] }

  /** How often one event reports `x`. */
  function Made(s: State, c: Context, g: Gossip, tx: bool, x: Item): int {
    Left(Observe(s, c, g), tx, x) - Left(s, tx, x)
  }

  lemma {:induction false} ReportItemsAppend(a: seq<Report>, b: seq<Report>, x: Item)
    ensures ReportItems(a + b)[x] == ReportItems(a)[x] + ReportItems(b)[x]
    decreases |b|
  {
    if b == [] {
      assert a + b == a;
    } else {
      assert (a + b)[..|a + b| - 1] == a + b[..|b| - 1];
      ReportItemsAppend(a, b[..|b| - 1], x);
    }
  }

  /** The block is looked at for the first time, and it is not obsolete. */
  predicate FirstLook(s: State, g: Gossip) {
    g.NewState? && (g.height > s.height || (g.height == s.height && g.hash !in s.first))
  }

  /** The block includes an entry that waits. */
  predicate Includes(s: State, g: Gossip, tx: bool) {
    FirstLook(s, g) && exists k :: k in KeysOf(g, tx) && k in PoolOf(s, tx).waiting
  }

  lemma {:induction false} TakesSome(p: Pool, keys: seq<nat>, now: Time)
    ensures TakeEntries(p, keys, now).1 != [] <==> exists k :: k in keys && k in p.waiting
    ensures TakeEntries(p, keys, now).1 == [] ==> TakeEntries(p, keys, now).0 == p
    decreases |keys|
  {
    if keys != [] {
      var n := |keys| - 1;
      TakesSome(p, keys[..n], now);
      assert keys == keys[..n] + [keys[n]];
    }
  }

  lemma BlockReports(s: State, c: Context, g: Gossip, tx: bool, x: Item)
    requires FirstLook(s, g)
    ensures var s' := SeeBlock(s, c, g);
            var taken := TakeEntries(PoolOf(s, tx), KeysOf(g, tx), c.time).1;
            && Left(s', tx, x) == Left(s, tx, x) + ReportItems(taken)[x]
            && InStat(s'.txStat, tx, x)
               == (if s'.height > s.height then 0 else InStat(s.txStat, tx, x)) + ReportItems(taken)[x]
            && (taken != [] <==> Includes(s, g, tx)) && s'.height == g.height
  {
    hide TakeEntries, ReportItems;
    var s1 := Raised(s, g.height);
    var taken := TakeEntries(PoolOf(s, tx), KeysOf(g, tx), c.time).1;
    TakesAreReported(PoolOf(s, tx), KeysOf(g, tx), c.time);
    TakesSome(PoolOf(s, tx), KeysOf(g, tx), c.time);
    ReportItemsAppend(Reports(s1.txStat, tx), taken, x);
    assert Reports(SeeBlock(s, c, g).txStat, tx) == Reports(s1.txStat, tx) + taken;
    NoReports(x);
  }

  lemma NoReports(x: Item)
    ensures ReportItems([])[x] == 0
  {
  }

  lemma OthersReportNothing(s: State, c: Context, g: Gossip, tx: bool)
    requires !FirstLook(s, g)
    ensures var s' := Observe(s, c, g);
            PoolOf(s', tx).reported == PoolOf(s, tx).reported && s'.txStat == s.txStat && s'.height == s.height
  {
    match g
    case NewState(_, _, _, _, _, _) =>
    case TransactionPool(producer, signatures) =>
      AddsReportNothing(s.txs, signatures, Entry(c.time, producer, c.messageId));
    case SnarkPool(_, _) =>
    case Control(ihave, iwant) =>
      HashesKeepRest(s, c, ihave, IHave);
      HashesKeepRest(SeeHashes(s, c, ihave, IHave), c, iwant, IWant);
    case TestingMessage(_, _) =>
    case Ignored =>
  }

  lemma {:induction false} AddsReportNothing(p: Pool, keys: seq<nat>, e: Entry)
    ensures AddEntries(p, keys, e).reported == p.reported
    decreases |keys|
  {
    if keys != [] {
      AddsReportNothing(p, keys[..|keys| - 1], e);
    }
  }

  lemma {:induction false} HashesKeepRest(s: State, c: Context, hashes: seq<Hash>, kind: Kind)
    ensures SeeHashes(s, c, hashes, kind) == s.(events := SeeHashes(s, c, hashes, kind).events)
    decreases |hashes|
  {
    if hashes != [] {
      HashesKeepRest(s, c, hashes[..|hashes| - 1], kind);
    }
  }

  /** An event adds its reports to the record, after clearing it if it raises the height; it
      reports something exactly if it is a block that includes a waiting entry. */
  lemma ObserveReports(s: State, c: Context, g: Gossip, tx: bool, x: Item)
    ensures var s', made := Observe(s, c, g), Made(s, c, g, tx, x);
            && made >= 0
            && InStat(s'.txStat, tx, x) == (if s'.height > s.height then 0 else InStat(s.txStat, tx, x)) + made
            && (made > 0 ==> Includes(s, g, tx))
            && s'.height == if g.NewState? && g.height > s.height then g.height else s.height
  {
    if FirstLook(s, g) {
      BlockReports(s, c, g, tx, x);
      hide SeeBlock, TakeEntries;
      NoReports(x);
    } else {
      OthersReportNothing(s, c, g, tx);
    }
  }

  lemma IncludedIsReported(s: State, c: Context, g: Gossip, tx: bool) returns (x: Item)
    requires Includes(s, g, tx)
    ensures Made(s, c, g, tx, x) > 0
  {
    var taken := TakeEntries(PoolOf(s, tx), KeysOf(g, tx), c.time).1;
    BlockReports(s, c, g, tx, (0, Entry(0, 0, 0)));
    x := (taken[|taken| - 1].key, taken[|taken| - 1].entry);
    BlockReports(s, c, g, tx, x);
  }

  /** How often a message reports `x` while the height is `h`, the one at its end. */
  function Kept(s: State, c: Context, gs: seq<Gossip>, h: nat, tx: bool, x: Item): int {
    if gs == [] then 0 else
    var before := gs[..|gs| - 1];
    Kept(s, c, before, h, tx, x)
    + if ObserveAll(s, c, gs).height == h then Made(ObserveAll(s, c, before), c, gs[|gs| - 1], tx, x) else 0
  }

  /** How often a message reports `x` while the height is another one. */
  function Lost(s: State, c: Context, gs: seq<Gossip>, h: nat, tx: bool, x: Item): int {
    if gs == [] then 0 else
    var before := gs[..|gs| - 1];
    Lost(s, c, before, h, tx, x)
    + if ObserveAll(s, c, gs).height == h then 0 else Made(ObserveAll(s, c, before), c, gs[|gs| - 1], tx, x)
  }

  /** Everything reported is kept or lost; seen from a greater height, nothing is kept. */
  lemma {:induction false} KeptOrLost(s: State, c: Context, gs: seq<Gossip>, h: nat, tx: bool, x: Item)
    ensures Left(ObserveAll(s, c, gs), tx, x) == Left(s, tx, x) + Kept(s, c, gs, h, tx, x) + Lost(s, c, gs, h, tx, x)
    ensures ObserveAll(s, c, gs).height < h ==> Kept(s, c, gs, h, tx, x) == 0
    ensures Kept(s, c, gs, h, tx, x) >= 0 && Lost(s, c, gs, h, tx, x) >= 0 && s.height <= ObserveAll(s, c, gs).height
    decreases |gs|
  {
    if gs != [] {
      var before := gs[..|gs| - 1];
      ObserveReports(ObserveAll(s, c, before), c, gs[|gs| - 1], tx, x);
      KeptOrLost(s, c, before, h, tx, x);
      hide Observe, Left;
    }
  }

  /** The record at the end of a message holds what is kept, behind the earlier reports of the
      same height. */
  lemma {:induction false} MessageReports(s: State, c: Context, gs: seq<Gossip>, tx: bool, x: Item)
    ensures var s' := ObserveAll(s, c, gs);
            InStat(s'.txStat, tx, x)
            == (if s'.height > s.height then 0 else InStat(s.txStat, tx, x)) + Kept(s, c, gs, s'.height, tx, x)
    decreases |gs|
  {
    if gs != [] {
      hide Observe, Made, InStat, Left;
      var before, g := gs[..|gs| - 1], gs[|gs| - 1];
      var s1, h := ObserveAll(s, c, before), ObserveAll(s, c, gs).height;
      MessageReports(s, c, before, tx, x);
      ObserveReports(s1, c, g, tx, x);
      KeptOrLost(s, c, before, h, tx, x);
      KeptOrLost(s, c, before, s1.height, tx, x);
    }
  }

  /** In one message a block that includes waiting entries is followed by a higher block. */
  ghost predicate Overrun(s: State, c: Context, gs: seq<Gossip>, tx: bool) {
    exists i, j :: 0 <= i < j < |gs| && OverrunAt(s, c, gs, i, j, tx)
  }

  predicate OverrunAt(s: State, c: Context, gs: seq<Gossip>, i: nat, j: nat, tx: bool)
    requires i < j < |gs|
  {
    Includes(ObserveAll(s, c, gs[..i]), gs[i], tx) && gs[j].NewState? && gs[j].height > gs[i].height
  }

  predicate LostAt(s: State, c: Context, gs: seq<Gossip>, i: nat, h: nat, tx: bool)
    requires i < |gs|
  {
    Includes(ObserveAll(s, c, gs[..i]), gs[i], tx) && ObserveAll(s, c, gs[..i + 1]).height != h
  }

  lemma {:induction false} LostSomewhere(s: State, c: Context, gs: seq<Gossip>, h: nat, tx: bool, x: Item)
    returns (i: nat)
    requires Lost(s, c, gs, h, tx, x) > 0
    ensures i < |gs| && LostAt(s, c, gs, i, h, tx)
    decreases |gs|
  {
    hide Observe, Made, Includes;
    var n := |gs| - 1;
    var before := gs[..n];
    if Lost(s, c, before, h, tx, x) > 0 {
      i := LostSomewhere(s, c, before, h, tx, x);
      assert before[..i] == gs[..i] && before[..i + 1] == gs[..i + 1];
    } else {
      i := n;
      ObserveReports(ObserveAll(s, c, before), c, gs[n], tx, x);
      assert gs[..n + 1] == gs;
    }
  }

  lemma {:induction false} LostSomething(s: State, c: Context, gs: seq<Gossip>, h: nat, tx: bool, i: nat)
    returns (x: Item)
    requires i < |gs| && LostAt(s, c, gs, i, h, tx)
    ensures Lost(s, c, gs, h, tx, x) > 0
    decreases |gs|
  {
    hide Observe, Made, Includes;
    var n := |gs| - 1;
    var before := gs[..n];
    if i < n {
      assert before[..i] == gs[..i] && before[..i + 1] == gs[..i + 1];
      x := LostSomething(s, c, before, h, tx, i);
      ObserveReports(ObserveAll(s, c, before), c, gs[n], tx, x);
    } else {
      assert gs[..n + 1] == gs;
      x := IncludedIsReported(ObserveAll(s, c, before), c, gs[n], tx);
      KeptOrLost(s, c, before, h, tx, x);
    }
  }

  /** A block that includes something sets the height. */
  lemma IncludesHeight(s: State, c: Context, gs: seq<Gossip>, i: nat, tx: bool)
    requires i < |gs| && Includes(ObserveAll(s, c, gs[..i]), gs[i], tx)
    ensures gs[i].NewState? && ObserveAll(s, c, gs[..i + 1]).height == gs[i].height
  {
    hide Observe;
    assert gs[..i + 1][..i] == gs[..i];
    ObserveReports(ObserveAll(s, c, gs[..i]), c, gs[i], tx, (0, Entry(0, 0, 0)));
  }

  lemma {:induction false} ReachesHeight(s: State, c: Context, gs: seq<Gossip>, j: nat)
    requires j < |gs| && gs[j].NewState?
    ensures ObserveAll(s, c, gs).height >= gs[j].height
    decreases |gs|
  {
    hide Observe;
    var before := gs[..|gs| - 1];
    ObserveReports(ObserveAll(s, c, before), c, gs[|gs| - 1], true, (0, Entry(0, 0, 0)));
    if j < |gs| - 1 {
      ReachesHeight(s, c, before, j);
    }
  }

  lemma {:induction false} HigherLater(s: State, c: Context, gs: seq<Gossip>, i: nat) returns (j: nat)
    requires i < |gs| && ObserveAll(s, c, gs[..i + 1]).height != ObserveAll(s, c, gs).height
    ensures i < j < |gs| && gs[j].NewState? && gs[j].height > ObserveAll(s, c, gs[..i + 1]).height
    decreases |gs|
  {
    hide Observe;
    var n := |gs| - 1;
    var before := gs[..n];
    assert gs[..n + 1] == gs;
    ObserveReports(ObserveAll(s, c, before), c, gs[n], true, (0, Entry(0, 0, 0)));
    assert before[..i + 1] == gs[..i + 1];
    if ObserveAll(s, c, before).height == ObserveAll(s, c, gs[..i + 1]).height {
      j := n;
    } else {
      j := HigherLater(s, c, before, i);
    }
  }

  /** Some report of the message is not in the record at its end. */
  ghost predicate MessageLoses(s: State, c: Context, gs: seq<Gossip>, tx: bool) {
    exists x :: Lost(s, c, gs, ObserveAll(s, c, gs).height, tx, x) > 0
  }

  /** A message loses reports exactly if a block that includes waiting entries is followed in it
      by a higher block. */
  lemma LostIff(s: State, c: Context, gs: seq<Gossip>, tx: bool)
    ensures MessageLoses(s, c, gs, tx) <==> Overrun(s, c, gs, tx)
  {
    hide Lost, Includes;
    var h := ObserveAll(s, c, gs).height;
    if x :| Lost(s, c, gs, h, tx, x) > 0 {
      var i := LostSomewhere(s, c, gs, h, tx, x);
      var j := HigherLater(s, c, gs, i);
      IncludesHeight(s, c, gs, i, tx);
      assert OverrunAt(s, c, gs, i, j, tx);
    }
    if i, j :| 0 <= i < j < |gs| && OverrunAt(s, c, gs, i, j, tx) {
      IncludesHeight(s, c, gs, i, tx);
      ReachesHeight(s, c, gs, j);
      var x := LostSomething(s, c, gs, h, tx, i);
    }
  }

  /** What the caller does after a message: the record is stored under the height, if there is
      one. The flag that should say whether it changed is always set. */
  function StoreStat(db: map<nat, TxStat>, s: State): map<nat, TxStat> {
    if s.txStat.Some? then db[s.height := s.txStat.value] else db
  }

  /** The records stored over a run. */
  function DbAfter(ms: seq<Message>): map<nat, TxStat> {
    if ms == [] then map[] else
    StoreStat(DbAfter(ms[..|ms| - 1]), After(Init(), ms))
  }

  function LostAfter(ms: seq<Message>, tx: bool, x: Item): int {
    if ms == [] then 0 else
    var before, m := ms[..|ms| - 1], ms[|ms| - 1];
    LostAfter(before, tx, x) + Lost(After(Init(), before), m.context, m.gossip, After(Init(), ms).height, tx, x)
  }

  function Lookup<T>(db: map<nat, T>, h: nat): Option<T> { if h in db then Some(db[h]) else None }

  function StoredAt(db: map<nat, TxStat>, h: nat, tx: bool, x: Item): nat { InStat(Lookup(db, h), tx, x) }

  /** How often the records of heights below `n` report `x`. */
  function StoredBelow(db: map<nat, TxStat>, n: nat, tx: bool, x: Item): nat {
    if n == 0 then 0 else StoredBelow(db, n - 1, tx, x) + StoredAt(db, n - 1, tx, x)
  }

  lemma {:induction false} StoredSame(db: map<nat, TxStat>, db': map<nat, TxStat>, n: nat, tx: bool, x: Item)
    requires forall h: nat :: h < n ==> (h in db <==> h in db') && (h in db ==> db[h] == db'[h])
    ensures StoredBelow(db, n, tx, x) == StoredBelow(db', n, tx, x)
  {
    if n > 0 {
      StoredSame(db, db', n - 1, tx, x);
    }
  }

  lemma {:induction false} StoredGap(db: map<nat, TxStat>, n: nat, m: nat, tx: bool, x: Item)
    requires n <= m && forall h :: h in db ==> h < n
    ensures StoredBelow(db, m, tx, x) == StoredBelow(db, n, tx, x)
    decreases m
  {
    if n < m {
      StoredGap(db, n, m - 1, tx, x);
      NoReports(x);
    }
  }

  /** A record is dropped only for another one. */
  lemma {:induction false} RecordStays(s: State, c: Context, gs: seq<Gossip>)
    ensures var s' := ObserveAll(s, c, gs); s'.txStat.None? ==> s.txStat.None? && s'.height == s.height
    decreases |gs|
  {
    if gs != [] {
      var s1, g := ObserveAll(s, c, gs[..|gs| - 1]), gs[|gs| - 1];
      RecordStays(s, c, gs[..|gs| - 1]);
      if !FirstLook(s1, g) {
        OthersReportNothing(s1, c, g, true);
      }
    }
  }

  /** After every message, the record stored for the height is the current one. */
  lemma {:induction false} RecordIsStored(ms: seq<Message>)
    ensures var s := After(Init(), ms);
            Lookup(DbAfter(ms), s.height) == s.txStat && forall h :: h in DbAfter(ms) ==> h <= s.height
    decreases |ms|
  {
    if ms != [] {
      hide ObserveAll;
      var before, m := ms[..|ms| - 1], ms[|ms| - 1];
      RecordIsStored(before);
      RecordStays(After(Init(), before), m.context, m.gossip);
      ObserveAllRaises(After(Init(), before), m.context, m.gossip);
    }
  }

  /** Storing the record after one message. */
  lemma StoreStep(db: map<nat, TxStat>, s: State, s': State, tx: bool, x: Item, kept: int)
    requires s.height <= s'.height && kept >= 0 && forall h :: h in db ==> h <= s.height
    requires Lookup(db, s.height) == s.txStat
    requires s'.txStat.None? ==> s.txStat.None? && s'.height == s.height
    requires InStat(s'.txStat, tx, x) == (if s'.height > s.height then 0 else InStat(s.txStat, tx, x)) + kept
    ensures StoredBelow(StoreStat(db, s'), s'.height + 1, tx, x) == StoredBelow(db, s.height + 1, tx, x) + kept
  {
    hide ReportItems, PoolOf;
    var db' := StoreStat(db, s');
    NoReports(x);
    StoredSame(db, db', s'.height, tx, x);
    if s'.height > s.height {
      StoredGap(db, s.height + 1, s'.height, tx, x);
    }
  }

  /** The record after a block that is looked at for the first time: it is of the height of the
      block and of the time of the first block of that height, and lists as pending the messages
      of exactly the transactions that wait and are not included. */
  lemma RecordOfBlock(s: State, c: Context, g: Gossip)
    requires FirstLook(s, g)
    ensures var s' := SeeBlock(s, c, g);
            && s'.txStat.Some?
            && (s.txStat.Some? && s.txStat.value.height == s.height ==> s'.txStat.value.height == s'.height)
            && (s.txStat.None? || g.height > s.height ==>
                  s'.txStat.value.height == s'.height && s'.txStat.value.time == c.time)
            && (s.txStat.Some? && g.height == s.height ==> s'.txStat.value.time == s.txStat.value.time)
            && forall id :: id in s'.txStat.value.pending <==>
                 exists k :: k in s.txs.waiting && k !in g.commands && s.txs.waiting[k].messageId == id
  {
    var s' := SeeBlock(s, c, g);
    TakesAreTimed(s.txs, g.commands, c.time);
    hide TakeEntries;
    forall id
      ensures id in s'.txStat.value.pending <==>
              exists k :: k in s.txs.waiting && k !in g.commands && s.txs.waiting[k].messageId == id
    {
      if k :| k in s.txs.waiting && k !in g.commands && s.txs.waiting[k].messageId == id {
        assert k in s'.txs.waiting && s'.txs.waiting[k].messageId == id;
      }
    }
  }

  /** The record of a state is of its height. */
  predicate OwnHeight(s: State) { s.txStat.Some? ==> s.txStat.value.height == s.height }

  lemma {:induction false} MessageKeepsHeight(s: State, c: Context, gs: seq<Gossip>)
    requires OwnHeight(s)
    ensures OwnHeight(ObserveAll(s, c, gs))
    decreases |gs|
  {
    if gs != [] {
      var s1, g := ObserveAll(s, c, gs[..|gs| - 1]), gs[|gs| - 1];
      MessageKeepsHeight(s, c, gs[..|gs| - 1]);
      if FirstLook(s1, g) {
        RecordOfBlock(s1, c, g);
      } else {
        OthersReportNothing(s1, c, g, true);
      }
    }
  }

  /** Every stored record is of the height it is stored under. */
  lemma {:induction false} StoredUnderOwnHeight(ms: seq<Message>)
    ensures OwnHeight(After(Init(), ms))
    ensures forall h :: h in DbAfter(ms) ==> DbAfter(ms)[h].height == h
    decreases |ms|
  {
    if ms != [] {
      hide ObserveAll;
      StoredUnderOwnHeight(ms[..|ms| - 1]);
      MessageKeepsHeight(After(Init(), ms[..|ms| - 1]), ms[|ms| - 1].context, ms[|ms| - 1].gossip);
    }
  }

  /** Over every run: what left a pool is, entry for entry and as often, in the last records
      stored for the heights, or it was lost in a message that went on to a higher block. */
  lemma {:induction false} ReportsAreStored(ms: seq<Message>, tx: bool, x: Item)
    ensures var s := After(Init(), ms);
            && Left(s, tx, x) == StoredBelow(DbAfter(ms), s.height + 1, tx, x) + LostAfter(ms, tx, x)
            && Lookup(DbAfter(ms), s.height) == s.txStat
            && LostAfter(ms, tx, x) >= 0
            && forall h :: h in DbAfter(ms) ==> h <= s.height
    decreases |ms|
  {
    hide *;
    RecordIsStored(ms);
    if ms == [] {
      NoMessage(tx, x);
    } else {
      var before, m := ms[..|ms| - 1], ms[|ms| - 1];
      var s, s' := After(Init(), before), After(Init(), ms);
      LastMessage(ms, tx, x);
      ReportsAreStored(before, tx, x);
      MessageReports(s, m.context, m.gossip, tx, x);
      KeptOrLost(s, m.context, m.gossip, s'.height, tx, x);
      RecordStays(s, m.context, m.gossip);
      StoreStep(DbAfter(before), s, s', tx, x, Kept(s, m.context, m.gossip, s'.height, tx, x));
    }
  }

  lemma NoMessage(tx: bool, x: Item)
    ensures var s := After(Init(), []);
            && Left(s, tx, x) == StoredBelow(DbAfter([]), s.height + 1, tx, x) + LostAfter([], tx, x)
            && LostAfter([], tx, x) == 0
  {
    NoReports(x);
  }

  lemma LastMessage(ms: seq<Message>, tx: bool, x: Item)
    requires ms != []
    ensures var before, m := ms[..|ms| - 1], ms[|ms| - 1];
            var s, s' := After(Init(), before), After(Init(), ms);
            && s' == ObserveAll(s, m.context, m.gossip)
            && DbAfter(ms) == StoreStat(DbAfter(before), s')
            && LostAfter(ms, tx, x) == LostAfter(before, tx, x) + Lost(s, m.context, m.gossip, s'.height, tx, x)
  {
  }

  lemma ObserveKeepsBalance(s: State, c: Context, g: Gossip, tx: bool)
    requires Balanced(PoolOf(s, tx))
    ensures Balanced(PoolOf(Observe(s, c, g), tx))
  {
    hide Balanced, TakeEntries, AddEntries, AddEntry;
    match g
    case NewState(_, _, _, _, _, _) => TakesKeepBalance(PoolOf(s, tx), KeysOf(g, tx), c.time);
    case TransactionPool(producer, signatures) =>
      if tx {
        AddsKeepBalance(s.txs, signatures, Entry(c.time, producer, c.messageId));
      }
    case SnarkPool(producer, work) =>
      if !tx {
        AddKeepsBalance(s.snarks, work, Entry(c.time, producer, c.messageId));
      }
    case Control(ihave, iwant) =>
      HashesKeepRest(s, c, ihave, IHave);
      HashesKeepRest(SeeHashes(s, c, ihave, IHave), c, iwant, IWant);
    case TestingMessage(_, _) =>
    case Ignored =>
  }

  lemma {:induction false} MessageKeepsBalance(s: State, c: Context, gs: seq<Gossip>, tx: bool)
    requires Balanced(PoolOf(s, tx))
    ensures Balanced(PoolOf(ObserveAll(s, c, gs), tx))
    decreases |gs|
  {
    if gs != [] {
      hide Balanced, PoolOf, Observe;
      MessageKeepsBalance(s, c, gs[..|gs| - 1], tx);
      ObserveKeepsBalance(ObserveAll(s, c, gs[..|gs| - 1]), c, gs[|gs| - 1], tx);
    }
  }

  lemma {:induction false} RunKeepsBalance(ms: seq<Message>, tx: bool)
    ensures Balanced(PoolOf(After(Init(), ms), tx))
    decreases |ms|
  {
    if ms == [] {
      assert multiset(Items(map[])) == multiset{};
    } else {
      hide Balanced, PoolOf, ObserveAll;
      RunKeepsBalance(ms[..|ms| - 1], tx);
      MessageKeepsBalance(After(Init(), ms[..|ms| - 1]), ms[|ms| - 1].context, ms[|ms| - 1].gossip, tx);
    }
  }

  /** Every entry ever pooled is still waiting, or in a stored record, or lost; each once for each
      time it was pooled. */
  lemma PooledIsAccountedFor(ms: seq<Message>, tx: bool, x: Item)
    ensures var s := After(Init(), ms);
            PoolOf(s, tx).pooled[x]
            == multiset(Items(PoolOf(s, tx).waiting))[x]
               + StoredBelow(DbAfter(ms), s.height + 1, tx, x) + LostAfter(ms, tx, x)
  {
    hide After, DbAfter, LostAfter, StoredBelow, PoolOf;
    RunKeepsBalance(ms, tx);
    ReportsAreStored(ms, tx, x);
  }

  ghost predicate LosesNothing(ms: seq<Message>, tx: bool) {
    forall x :: LostAfter(ms, tx, x) == 0
  }

  lemma LosesLast(ms: seq<Message>, tx: bool)
    requires ms != []
    ensures var before, m := ms[..|ms| - 1], ms[|ms| - 1];
            LosesNothing(ms, tx) <==>
            LosesNothing(before, tx) && !MessageLoses(After(Init(), before), m.context, m.gossip, tx)
  {
    var before, m := ms[..|ms| - 1], ms[|ms| - 1];
    var s := After(Init(), before);
    var h := ObserveAll(s, m.context, m.gossip).height;
    hide Lost, ObserveAll, StoredBelow, StoredAt, DbAfter, LostAfter, After, Kept;
    forall x
      ensures LostAfter(before, tx, x) >= 0 && Lost(s, m.context, m.gossip, h, tx, x) >= 0
      ensures LostAfter(ms, tx, x) == LostAfter(before, tx, x) + Lost(s, m.context, m.gossip, h, tx, x)
    {
      ReportsAreStored(before, tx, x);
      KeptOrLost(s, m.context, m.gossip, h, tx, x);
      LastMessage(ms, tx, x);
    }
  }

  /** Nothing is lost over a run exactly if none of its messages overruns a block that includes
      waiting entries. */
  lemma {:induction false} NothingLostIff(ms: seq<Message>, tx: bool)
    ensures LosesNothing(ms, tx) <==> forall k: nat :: k < |ms| ==> !OverrunBy(ms, k, tx)
    decreases |ms|
  {
    if ms != [] {
      hide OverrunBy, LosesNothing, MessageLoses, After;
      var n := |ms| - 1;
      NothingLostIff(ms[..n], tx);
      LosesLast(ms, tx);
      OverrunLast(ms, tx);
      forall k: nat | k < n
        ensures OverrunBy(ms[..n], k, tx) == OverrunBy(ms, k, tx)
      {
        OverrunPrefix(ms, n, k, tx);
      }
    }
  }

  /** Message `k` of the run overruns a block that includes waiting entries. */
  ghost predicate OverrunBy(ms: seq<Message>, k: nat, tx: bool)
    requires k < |ms|
  {
    Overrun(After(Init(), ms[..k]), ms[k].context, ms[k].gossip, tx)
  }

  lemma OverrunPrefix(ms: seq<Message>, n: nat, k: nat, tx: bool)
    requires k < n <= |ms|
    ensures OverrunBy(ms[..n], k, tx) == OverrunBy(ms, k, tx)
  {
    assert ms[..n][..k] == ms[..k];
  }

  lemma OverrunLast(ms: seq<Message>, tx: bool)
    requires ms != []
    ensures var n := |ms| - 1;
            OverrunBy(ms, n, tx) == MessageLoses(After(Init(), ms[..n]), ms[n].context, ms[n].gossip, tx)
  {
    var n := |ms| - 1;
    hide MessageLoses, Overrun, After;
    LostIff(After(Init(), ms[..n]), ms[n].context, ms[n].gossip, tx);
  }

  /** Two blocks in one message: a report of the first never reaches the database. */
  lemma TwoBlocksLose(s: State, c: Context, g1: Gossip, g2: Gossip, tx: bool) returns (x: Item)
    requires Includes(s, g1, tx) && g2.NewState? && g2.height > g1.height
    ensures Lost(s, c, [g1, g2], ObserveAll(s, c, [g1, g2]).height, tx, x) > 0
  {
    hide Includes, Lost;
    var gs := [g1, g2];
    assert gs[..0] == [] && ObserveAll(s, c, []) == s;
    assert OverrunAt(s, c, gs, 0, 1, tx);
    LostIff(s, c, gs, tx);
    x :| Lost(s, c, gs, ObserveAll(s, c, gs).height, tx, x) > 0;
  }

  // -------------------------------------------------------------- the block record

  /** The height was raised, or a sighting was recorded at the same height. */
  predicate Ahead(s: State, s': State) {
    s'.height > s.height || (s'.height == s.height && |s'.events| > |s.events|)
  }

  predicate SameBlocks(s: State, s': State) { s'.height == s.height && s'.events == s.events }

  lemma {:induction false} HashesGrow(s: State, c: Context, hashes: seq<Hash>, kind: Kind)
    ensures var s' := SeeHashes(s, c, hashes, kind); Ahead(s, s') || SameBlocks(s, s')
    decreases |hashes|
  {
    if hashes != [] {
      HashesGrow(s, c, hashes[..|hashes| - 1], kind);
    }
  }

  lemma ObserveAhead(s: State, c: Context, g: Gossip)
    ensures Ahead(s, Observe(s, c, g)) || SameBlocks(s, Observe(s, c, g))
  {
    hide TakeEntries;
    if g.Control? {
      HashesGrow(s, c, g.ihave, IHave);
      HashesGrow(SeeHashes(s, c, g.ihave, IHave), c, g.iwant, IWant);
    }
  }

  /** A message goes ahead if and only if it changes the block record. */
  lemma {:induction false} MessageAhead(s: State, c: Context, gs: seq<Gossip>)
    ensures Ahead(s, ObserveAll(s, c, gs)) <==> !SameBlocks(s, ObserveAll(s, c, gs))
    decreases |gs|
  {
    if gs != [] {
      hide Observe;
      MessageAhead(s, c, gs[..|gs| - 1]);
      ObserveAhead(ObserveAll(s, c, gs[..|gs| - 1]), c, gs[|gs| - 1]);
    }
  }

  /** The caller stores the sightings under the height if the message went ahead. */
  function StoreBlock(db: map<nat, seq<Sighting>>, s: State, s': State): map<nat, seq<Sighting>> {
    if Ahead(s, s') then db[s'.height := s'.events] else db
  }

  function BlocksAfter(ms: seq<Message>): map<nat, seq<Sighting>> {
    if ms == [] then map[] else
    var before := ms[..|ms| - 1];
    StoreBlock(BlocksAfter(before), After(Init(), before), After(Init(), ms))
  }

  /** After every message, the sightings stored for the height are the current ones. */
  lemma {:induction false} SightingsAreStored(ms: seq<Message>)
    ensures var s := After(Init(), ms); SameBlocks(Init(), s) || Lookup(BlocksAfter(ms), s.height) == Some(s.events)
    decreases |ms|
  {
    if ms != [] {
      hide ObserveAll;
      var before, m := ms[..|ms| - 1], ms[|ms| - 1];
      SightingsAreStored(before);
      MessageAhead(After(Init(), before), m.context, m.gossip);
    }
  }

  // ------------------------------------------------------------------- late entries

  /** A block, looked at for the first time, includes an entry pooled later than now. */
  predicate Panics(s: State, c: Context, g: Gossip) {
    FirstLook(s, g) && (Late(s.txs, g.commands, c.time) || Late(s.snarks, g.works, c.time))
  }

  /** The message panics at one of its events. */
  ghost predicate MessagePanics(s: State, c: Context, gs: seq<Gossip>) {
    exists i :: 0 <= i < |gs| && PanicsAt(s, c, gs, i)
  }

  predicate PanicsAt(s: State, c: Context, gs: seq<Gossip>, i: nat)
    requires i < |gs|
  {
    Panics(ObserveAll(s, c, gs[..i]), c, gs[i])
  }

  ghost predicate PanicsBy(ms: seq<Message>, k: nat)
    requires k < |ms|
  {
    MessagePanics(After(Init(), ms[..k]), ms[k].context, ms[k].gossip)
  }

  /** No message panics while times do not run backwards. */
  lemma InTimeNeverPanics(ms: seq<Message>, k: nat)
    requires InTime(ms) && k < |ms|
    ensures !PanicsBy(ms, k)
  {
    hide Inv, After, ObserveAll;
    var before, c, gs := ms[..k], ms[k].context, ms[k].gossip;
    var s := After(Init(), before);
    RunKeepsInv(before);
    InvLater(s, if before == [] then 0 else before[|before| - 1].context.time, c.time);
    forall i | 0 <= i < |gs|
      ensures !PanicsAt(s, c, gs, i)
    {
      ObserveAllKeepsInv(s, c, gs[..i]);
      PoolsOf(ObserveAll(s, c, gs[..i]), c.time);
    }
  }

  /** A transaction and then a block that includes it, at an earlier time: the second message
      panics. */
  lemma EarlierBlockPanics(a: Context, b: Context, producer: Peer, key: nat, block: Gossip)
    requires b.time < a.time && block.NewState? && key in block.commands
    ensures PanicsBy([Message(a, [TransactionPool(producer, [key])]), Message(b, [block])], 1)
  {
    var pool, gs := [TransactionPool(producer, [key])], [block];
    var ms := [Message(a, pool), Message(b, gs)];
    OneMessage(a, pool[0]);
    assert ms[..1] == [Message(a, pool)] && gs[..0] == [];
    FirstSightingKept(EmptyPool(), [key], Entry(a.time, producer, a.messageId));
    assert PanicsAt(After(Init(), ms[..1]), b, gs, 0);
  }

  lemma OneMessage(c: Context, g: Gossip)
    ensures After(Init(), [Message(c, [g])]) == Observe(Init(), c, g)
  {
    var ms, gs := [Message(c, [g])], [g];
    assert ms[..0] == [] && gs[..0] == [];
    assert After(Init(), ms[..0]) == Init() && ObserveAll(Init(), c, gs[..0]) == Init();
  }

  // ---------------------------------------------------------------- the collector

  class StatsState {
    var height: nat
    var events: seq<Sighting>
    var first: map<Hash, Description>
    var txs: Pool
    var snarks: Pool
    var txStat: Option<TxStat>

    ghost function View(): State
      reads this
    {
      State(height, events, first, txs, snarks, txStat)
    }

    constructor ()
      ensures View() == Init()
    {
      height, events, first, txs, snarks, txStat := 0, [], map[], EmptyPool(), EmptyPool(), None;
    }

    /** Takes the keys a block includes out of a pool, up to a late one. */
    static method Settle(pool: Pool, keys: seq<nat>, now: Time) returns (panic: bool, p: Pool, rs: seq<Report>)
      ensures panic <==> Late(pool, keys, now)
      ensures !panic ==> p == TakeEntries(pool, keys, now).0 && rs == TakeEntries(pool, keys, now).1
    {
      panic, p, rs := false, pool, [];
      for i := 0 to |keys|
        invariant !Late(pool, keys[..i], now)
        invariant p == TakeEntries(pool, keys[..i], now).0 && rs == TakeEntries(pool, keys[..i], now).1
      {
        assert keys[..i + 1][..i] == keys[..i] && keys[..i + 1] == keys[..i] + [keys[i]];
        TakesAreTimed(pool, keys[..i], now);
        if keys[i] in p.waiting && p.waiting[keys[i]].time > now {
          panic := true;
          return;
        }
        var (q, r) := TakeEntry(p, keys[i], now);
        p, rs := q, rs + r;
      }
      assert keys[..|keys|] == keys;
    }

    /** Says whether the block record changed. */
    method OnBlock(c: Context, g: Gossip) returns (panic: bool, changed: bool)
      requires g.NewState?
      modifies this
      ensures panic <==> Panics(old(View()), c, g)
      ensures !panic ==> View() == SeeBlock(old(View()), c, g)
      ensures !panic ==> (changed <==> Ahead(old(View()), View()))
    {
      panic, changed := false, false;
      if height < g.height {
        first := map[];
        events := [];
        height := g.height;
        txStat := None;
        changed := true;
      }
      if height > g.height {
        return;
      }
      var latency := None;
      if g.hash in first {
        latency := Some(Elapsed(c.time, first[g.hash].time));
      } else {
        first := first[g.hash := Description(c.time, g.producer, g.height, g.slot)];
        var stat := if txStat.Some? then txStat.value else TxStat(c.time, g.height, [], [], {});
        var tr, sr;
        panic, txs, tr := Settle(txs, g.commands, c.time);
        if panic {
          return;
        }
        panic, snarks, sr := Settle(snarks, g.works, c.time);
        if panic {
          return;
        }
        txStat := Some(stat.(transactions := stat.transactions + tr, snarks := stat.snarks + sr,
                             pending := WaitingIds(txs)));
      }
      events := events
        + [Sighting(g.producer, g.hash, g.height, g.slot, c.incoming, Publish, c.messageId, c.time, latency)];
      changed := true;
    }

    method OnHashes(c: Context, hashes: seq<Hash>, kind: Kind) returns (changed: bool)
      modifies this`events
      ensures View() == SeeHashes(old(View()), c, hashes, kind)
      ensures changed <==> Ahead(old(View()), View())
    {
      changed := false;
      for i := 0 to |hashes|
        invariant View() == SeeHashes(old(View()), c, hashes[..i], kind) && |events| >= |old(events)|
        invariant changed <==> Ahead(old(View()), View())
      {
        assert hashes[..i + 1][..i] == hashes[..i];
        var hash := hashes[i];
        if hash in first && first[hash].height == height {
          var d := first[hash];
          events := events
            + [Sighting(d.producer, hash, d.height, d.slot, c.incoming, kind, c.messageId, c.time,
                        if d.time <= c.time then Some(c.time - d.time) else None)];
          changed := true;
        }
      }
      assert hashes[..|hashes|] == hashes;
    }

    method OnControl(c: Context, ihave: seq<Hash>, iwant: seq<Hash>) returns (changed: bool)
      modifies this`events
      ensures View() == SeeHashes(SeeHashes(old(View()), c, ihave, IHave), c, iwant, IWant)
      ensures changed <==> Ahead(old(View()), View())
    {
      hide SeeHashes;
      HashesGrow(View(), c, ihave, IHave);
      changed := OnHashes(c, ihave, IHave);
      HashesGrow(View(), c, iwant, IWant);
      var more := OnHashes(c, iwant, IWant);
      changed := changed || more;
    }

    method OnTransactions(e: Entry, signatures: seq<nat>)
      modifies this`txs
      ensures View() == old(View()).(txs := AddEntries(old(txs), signatures, e))
    {
      for i := 0 to |signatures|
        invariant txs == AddEntries(old(txs), signatures[..i], e)
      {
        assert signatures[..i + 1][..i] == signatures[..i];
        txs := AddEntry(txs, signatures[i], e);
      }
      assert signatures[..|signatures|] == signatures;
    }

    /** One event of a gossip message. */
    method OnEvent(c: Context, g: Gossip) returns (panic: bool, changed: bool)
      modifies this
      ensures panic <==> Panics(old(View()), c, g)
      ensures !panic ==> View() == Observe(old(View()), c, g) && (changed <==> Ahead(old(View()), View()))
    {
      hide SeeBlock, SeeHashes, AddEntries, AddEntry, Late;
      panic, changed := false, false;
      match g {
        case NewState(_, _, _, _, _, _) =>
          panic, changed := OnBlock(c, g);
        case TransactionPool(producer, signatures) =>
          OnTransactions(Entry(c.time, producer, c.messageId), signatures);
        case SnarkPool(producer, work) =>
          snarks := AddEntry(snarks, work, Entry(c.time, producer, c.messageId));
        case Control(ihave, iwant) =>
          changed := OnControl(c, ihave, iwant);
        case TestingMessage(producer, h) =>
          events := events + [Sighting(producer, 0, h, h, c.incoming, Testing, c.messageId, c.time, None)];
          changed := true;
        case Ignored =>
      }
    }

    /** All events of one gossip message, up to one that panics. The flags say whether the block
        record and the transaction record changed; the second is always set. */
    method ObserveMessage(c: Context, gossip: seq<Gossip>) returns (panic: bool, block: bool, tx: bool)
      modifies this
      ensures panic <==> MessagePanics(old(View()), c, gossip)
      ensures !panic ==> View() == ObserveAll(old(View()), c, gossip)
      ensures !panic ==> (block <==> Ahead(old(View()), View())) && tx
    {
      hide Observe, Panics;
      panic, block, tx := false, false, true;
      for i := 0 to |gossip|
        invariant !panic && View() == ObserveAll(old(View()), c, gossip[..i])
        invariant block <==> Ahead(old(View()), View())
        invariant forall j :: 0 <= j < i ==> !PanicsAt(old(View()), c, gossip, j)
      {
        assert gossip[..i + 1][..i] == gossip[..i];
        MessageAhead(old(View()), c, gossip[..i]);
        ObserveAhead(View(), c, gossip[i]);
        assert PanicsAt(old(View()), c, gossip, i) == Panics(View(), c, gossip[i]);
        var changed;
        panic, changed := OnEvent(c, gossip[i]);
        if panic {
          return;
        }
        block := block || changed;
      }
      assert gossip[..|gossip|] == gossip;
    }
  }

  /** The collector of one node together with the records stored for it. */
  class Sink {
    const stats: StatsState
    var blocks: map<nat, seq<Sighting>>
    var stored: map<nat, TxStat>

    constructor ()
      ensures fresh(stats) && stats.View() == Init() && blocks == map[] && stored == map[]
    {
      stats := new StatsState();
      blocks, stored := map[], map[];
    }

    /** One message: observed, and then its records are stored. */
    method OnMessage(m: Message) returns (panic: bool)
      modifies this, stats
      ensures panic <==> MessagePanics(old(stats.View()), m.context, m.gossip)
      ensures panic ==> blocks == old(blocks) && stored == old(stored)
      ensures !panic ==> stats.View() == ObserveAll(old(stats.View()), m.context, m.gossip)
      ensures !panic ==> blocks == StoreBlock(old(blocks), old(stats.View()), stats.View())
      ensures !panic ==> stored == StoreStat(old(stored), stats.View())
    {
      hide MessagePanics, ObserveAll, Ahead;
      var block, tx;
      panic, block, tx := stats.ObserveMessage(m.context, m.gossip);
      if !panic && block {
        blocks := blocks[stats.height := stats.events];
      }
      if !panic && tx && stats.txStat.Some? {
        stored := stored[stats.height := stats.txStat.value];
      }
    }
  }
}
