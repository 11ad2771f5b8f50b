/** Numbering of connections and messages over restarts. Both counters are stored as the last id,
    not as the number of ids, and reloaded on opening: the first connection and the first message
    after a restart take an id that is in use. */
module Restarts {
  import opened Bytes
  import opened ColumnFamily
  import opened Query

  /** The database with its counters. `peers` is the remote address stored for each connection,
      `open` that of the connections opened since the last restart. */
  datatype Log = Log(
    db: Db,
    peers: map<nat, nat>,
    open: map<nat, nat>,
    nextConnection: nat,
    lastConnection: nat,
    nextMessage: nat,
    lastMessage: nat)

  datatype Action = NewConnection(peer: nat) | NewMessage(m: Message) | Restart

  function Init(): Log { Log(Empty({}), map[], map[], 0, 0, 0, 0) }

  /** A message is stored for a connection that is open, under the address of its peer. */
  predicate Enabled(l: Log, a: Action) {
    a.NewMessage? ==> a.m.connection in l.open && l.open[a.m.connection] == a.m.addr
  }

  function Next(l: Log, a: Action): Log {
    match a
    case NewConnection(peer) =>
      var id := l.nextConnection;
      l.(db := l.db.(connections := l.db.connections + {id}), peers := l.peers[id := peer], open := l.open[id := peer],
         nextConnection := id + 1, lastConnection := id)
    case NewMessage(m) =>
      var id := l.nextMessage;
      l.(db := PutMessage(l.db, id, m), nextMessage := id + 1, lastMessage := id)
    case Restart =>
      l.(open := map[], nextConnection := l.lastConnection, nextMessage := l.lastMessage)
  }

  function After(acts: seq<Action>): Log {
    if acts == [] then Init() else Next(After(acts[..|acts| - 1]), acts[|acts| - 1])
  }

  ghost predicate Possible(acts: seq<Action>) {
    forall k :: 0 <= k < |acts| ==> Enabled(After(acts[..k]), acts[k])
  }

  // ----------------------------------------------------------------------- reuse

  /** The ids in use end with the last one, which comes next if the log was just reopened. */
  ghost predicate Numbered(used: set<nat>, next: nat, last: nat, reopened: bool) {
    if used == {} then next == 0 && last == 0 && !reopened
    else last in used && (forall id :: id in used ==> id <= last) && next == if reopened then last else last + 1
  }

  /** Nothing of the kind has been stored since the last restart, and something was before. */
  predicate Reopened(acts: seq<Action>, messages: bool) {
    acts != [] &&
    var before, a := acts[..|acts| - 1], acts[|acts| - 1];
    if Stores(a, messages) then false
    else if a.Restart? then exists k :: 0 <= k < |before| && Stores(before[k], messages)
    else Reopened(before, messages)
  }

  predicate Stores(a: Action, messages: bool) { if messages then a.NewMessage? else a.NewConnection? }

  lemma {:induction false} SomethingStored(acts: seq<Action>, messages: bool)
    ensures var l := After(acts);
            (if messages then l.db.messages.Keys else l.peers.Keys) != {} <==>
            exists k :: 0 <= k < |acts| && Stores(acts[k], messages)
    decreases |acts|
  {
    if acts != [] {
      var n := |acts| - 1;
      SomethingStored(acts[..n], messages);
      assert forall k :: 0 <= k < n ==> acts[..n][k] == acts[k];
      var l := After(acts[..n]);
      match acts[n]
      case NewConnection(_) => assert l.nextConnection in After(acts).peers.Keys;
      case NewMessage(_) => assert l.nextMessage in After(acts).db.messages.Keys;
      case Restart =>
    }
  }

  lemma {:induction false} MessagesAreNumbered(acts: seq<Action>)
    ensures var l := After(acts); Numbered(l.db.messages.Keys, l.nextMessage, l.lastMessage, Reopened(acts, true))
    decreases |acts|
  {
    if acts != [] {
      var n := |acts| - 1;
      MessagesAreNumbered(acts[..n]);
      SomethingStored(acts[..n], true);
      if acts[n].NewMessage? {
        assert After(acts[..n]).nextMessage in After(acts).db.messages.Keys;
      }
    }
  }

  lemma {:induction false} ConnectionsAreNumbered(acts: seq<Action>)
    ensures var l := After(acts);
            && Numbered(l.peers.Keys, l.nextConnection, l.lastConnection, Reopened(acts, false))
            && l.db.connections == l.peers.Keys
            && forall c :: c in l.open ==> c in l.peers && l.peers[c] == l.open[c]
    decreases |acts|
  {
    if acts != [] {
      var n := |acts| - 1;
      ConnectionsAreNumbered(acts[..n]);
      SomethingStored(acts[..n], false);
      if acts[n].NewConnection? {
        assert After(acts[..n]).nextConnection in After(acts).peers.Keys;
      }
    }
  }

  /** The next id is in use exactly if the log was reopened with something in it and nothing has
      been stored since. */
  lemma ReusesIff(acts: seq<Action>)
    ensures var l := After(acts);
            && (l.nextMessage in l.db.messages <==> Reopened(acts, true))
            && (l.nextConnection in l.peers <==> Reopened(acts, false))
  {
    MessagesAreNumbered(acts);
    ConnectionsAreNumbered(acts);
    var l := After(acts);
    assert l.nextMessage in l.db.messages <==> l.nextMessage in l.db.messages.Keys;
    assert l.nextConnection in l.peers <==> l.nextConnection in l.peers.Keys;
  }

  // --------------------------------------------------------------------- indexes

  /** All indexes are exact after the first `k` steps. */
  ghost predicate IndexedAfter(acts: seq<Action>, k: nat)
    requires k <= |acts|
  {
    Indexed(After(acts[..k]).db)
  }

  ghost predicate AlwaysIndexed(acts: seq<Action>) {
    forall k: nat :: k <= |acts| ==> IndexedAfter(acts, k)
  }

  /** Step `k` stores a message under an id in use without some key of the message it replaces. */
  ghost predicate Misfiles(acts: seq<Action>, k: nat)
    requires k < |acts|
  {
    && acts[k].NewMessage? && Reopened(acts[..k], true)
    && var l := After(acts[..k]);
       l.nextMessage in l.db.messages && !KeepsKeys(l.db.messages[l.nextMessage], acts[k].m)
  }

  lemma StepIndexed(acts: seq<Action>, k: nat)
    requires k < |acts| && IndexedAfter(acts, k)
    ensures IndexedAfter(acts, k + 1) <==> !Misfiles(acts, k)
  {
    assert acts[..k + 1][..k] == acts[..k];
    var l := After(acts[..k]);
    ReusesIff(acts[..k]);
    match acts[k]
    case NewConnection(_) => SameIndexes(l.db, l.db.connections + {l.nextConnection});
    case NewMessage(m) => PutKeepsIndexed(l.db, l.nextMessage, m);
    case Restart =>
  }

  lemma SameIndexes(db: Db, connections: set<nat>)
    ensures Indexed(db) == Indexed(db.(connections := connections))
  {
  }

  /** A run keeps all indexes exact throughout if and only if the first message after every
      restart carries all keys of the message whose id it takes. */
  lemma AlwaysIndexedIff(acts: seq<Action>)
    ensures AlwaysIndexed(acts) <==> forall k: nat :: k < |acts| ==> !Misfiles(acts, k)
  {
    NothingIndexed();
    assert acts[..0] == [];
    assert IndexedAfter(acts, 0);
    hide Misfiles, IndexedAfter;
    var good := seq(|acts| + 1, k requires 0 <= k <= |acts| => IndexedAfter(acts, k));
    var bad := seq(|acts|, k requires 0 <= k < |acts| => Misfiles(acts, k));
    forall k: nat | k < |acts| && good[k]
      ensures good[k + 1] <==> !bad[k]
    {
      StepIndexed(acts, k);
    }
    Chain(good, bad);
    if AlwaysIndexed(acts) {
      assert forall k: nat :: k < |good| ==> good[k];
      assert forall k: nat :: k < |acts| ==> bad[k] == Misfiles(acts, k);
    } else {
      var k: nat :| k <= |acts| && !IndexedAfter(acts, k);
      assert !good[k];
      var j: nat :| j < |bad| && bad[j];
      assert Misfiles(acts, j);
    }
  }

  lemma NothingIndexed()
    ensures Indexed(After([]).db)
  {
  }

  /** If the first message after a restart belongs to another connection than the last one before
      it, the old connection's index goes on listing the id. */
  lemma RestartMisfiles(acts: seq<Action>, m: Message)
    requires Reopened(acts, true) && Indexed(After(acts).db) && Enabled(After(acts), NewMessage(m))
    requires var l := After(acts);
             l.nextMessage in l.db.messages ==> m.connection != l.db.messages[l.nextMessage].connection
    ensures var l, l' := After(acts), Next(After(acts), NewMessage(m));
            && l.nextMessage in l.db.messages && !Indexed(l'.db)
            && var f := ByConnection(l.db.messages[l.nextMessage].connection);
               l.nextMessage in StreamIds(l'.db, f, 0, true) && !OnStream(f, l'.db.messages[l.nextMessage])
  {
    ReusesIff(acts);
    var db, id := After(acts).db, After(acts).nextMessage;
    hide After, Reopened;
    PutKeepsIndexed(db, id, m);
    var cn := db.messages[id].connection;
    assert HasConnection()(db.messages[id], cn);
    assert (cn, id) in db.byConnection;
    var cf := Put(db.byConnection, (m.connection, id));
    PutMember(db.byConnection, (m.connection, id), (cn, id));
    PutOrdered(db.byConnection, (m.connection, id));
    IdsExact(cf, cn, 0, true);
    assert multiset(Ids(cf, cn, 0, true))[id] == Holds(cf, cn, 0, true)(id);
  }

  // ----------------------------------------------------------------------- peers

  /** Every stored message is shown with the address of the peer it came from or went to. */
  ghost predicate PeersRight(l: Log) {
    forall id :: id in l.db.messages ==>
      var m := l.db.messages[id];
      m.connection in l.peers && l.peers[m.connection] == m.addr
  }

  predicate RenamesMessage(l: Log, id: nat, peer: nat) {
    id in l.db.messages && l.db.messages[id].connection == l.nextConnection && l.db.messages[id].addr != peer
  }

  /** The new connection takes the id of a stored one that has messages of another peer. */
  ghost predicate Renames(l: Log, a: Action) {
    && a.NewConnection? && l.nextConnection in l.peers
    && exists id :: RenamesMessage(l, id, a.peer)
  }

  /** Every message is shown with its own peer after the first `k` steps. */
  ghost predicate RightAfter(acts: seq<Action>, k: nat)
    requires k <= |acts|
  {
    PeersRight(After(acts[..k]))
  }

  ghost predicate RenamesAt(acts: seq<Action>, k: nat)
    requires k < |acts|
  {
    Renames(After(acts[..k]), acts[k])
  }

  lemma StepPeers(acts: seq<Action>, k: nat)
    requires k < |acts| && Possible(acts) && RightAfter(acts, k)
    ensures RightAfter(acts, k + 1) <==> !RenamesAt(acts, k)
  {
    assert acts[..k + 1][..k] == acts[..k];
    ConnectionsAreNumbered(acts[..k]);
    var l, l' := After(acts[..k]), After(acts[..k + 1]);
    hide After, Reopened;
    match acts[k]
    case NewConnection(peer) =>
      if Renames(l, acts[k]) {
        var id :| RenamesMessage(l, id, peer);
        assert l'.db.messages[id].addr != l'.peers[l'.db.messages[id].connection];
      } else {
        forall id | id in l'.db.messages
          ensures var m := l'.db.messages[id]; m.connection in l'.peers && l'.peers[m.connection] == m.addr
        {
          assert l.nextConnection in l.peers ==> !RenamesMessage(l, id, peer);
        }
      }
    case NewMessage(m) =>
      assert Enabled(l, acts[k]);
    case Restart =>
  }

  ghost predicate AlwaysRight(acts: seq<Action>) {
    forall k: nat :: k <= |acts| ==> RightAfter(acts, k)
  }

  /** A run shows every message with its own peer throughout if and only if no connection takes
      the id of one that has messages of another peer; and an id is taken again only by the first
      connection after a restart. */
  lemma AlwaysRightIff(acts: seq<Action>)
    requires Possible(acts)
    ensures AlwaysRight(acts) <==> forall k: nat :: k < |acts| ==> !RenamesAt(acts, k)
    ensures forall k: nat :: k < |acts| && RenamesAt(acts, k) ==> Reopened(acts[..k], false)
  {
    forall k: nat | k < |acts| && RenamesAt(acts, k)
      ensures Reopened(acts[..k], false)
    {
      ReusesIff(acts[..k]);
    }
    NothingWrong();
    assert acts[..0] == [];
    assert RightAfter(acts, 0);
    hide RenamesAt, RightAfter, Reopened, After;
    var good := seq(|acts| + 1, k requires 0 <= k <= |acts| => RightAfter(acts, k));
    var bad := seq(|acts|, k requires 0 <= k < |acts| => RenamesAt(acts, k));
    forall k: nat | k < |acts| && good[k]
      ensures good[k + 1] <==> !bad[k]
    {
      StepPeers(acts, k);
    }
    Chain(good, bad);
    if AlwaysRight(acts) {
      assert forall k: nat :: k < |good| ==> good[k];
      assert forall k: nat :: k < |acts| ==> bad[k] == RenamesAt(acts, k);
    } else {
      var k: nat :| k <= |acts| && !RightAfter(acts, k);
      assert !good[k];
      var j: nat :| j < |bad| && bad[j];
      assert RenamesAt(acts, j);
    }
  }

  lemma NothingWrong()
    ensures PeersRight(After([]))
  {
  }

  /** The first connection after a restart overwrites the last one before it: a message of that
      one is still found under its own address, and shown with the new one. */
  lemma RestartRenames(acts: seq<Action>, id: nat, peer: nat)
    requires Reopened(acts, false) && Indexed(After(acts).db) && RenamesMessage(After(acts), id, peer)
    ensures var l' := Next(After(acts), NewConnection(peer));
            && After(acts).nextConnection in After(acts).peers && id in l'.db.messages
            && var m := l'.db.messages[id];
               id in StreamIds(l'.db, ByAddr(m.addr), 0, true) && l'.peers[m.connection] == peer != m.addr
  {
    ReusesIff(acts);
    var db := After(acts).db;
    hide After, Reopened;
    var addr := db.messages[id].addr;
    assert HasAddr()(db.messages[id], addr);
    assert (addr, id) in db.byAddr;
    IdsExact(db.byAddr, addr, 0, true);
    assert multiset(Ids(db.byAddr, addr, 0, true))[id] == Holds(db.byAddr, addr, 0, true)(id);
  }

  lemma StoredUnder(db: Db, id: nat, m: Message)
    ensures id in PutMessage(db, id, m).messages && PutMessage(db, id, m).messages[id] == m
  {
  }

  // ------------------------------------------------------------------- the facade

  class Facade {
    var db: Db
    var peers: map<nat, nat>
    var open: map<nat, nat>
    var nextConnection: nat
    var lastConnection: nat
    var nextMessage: nat
    var lastMessage: nat

    ghost function View(): Log
      reads this
    {
      Log(db, peers, open, nextConnection, lastConnection, nextMessage, lastMessage)
    }

    constructor ()
      ensures View() == Init()
    {
      db, peers, open := Empty({}), map[], map[];
      nextConnection, lastConnection, nextMessage, lastMessage := 0, 0, 0, 0;
    }

    method AddConnection(peer: nat) returns (id: nat)
      modifies this
      ensures View() == Next(old(View()), NewConnection(peer)) && id in open && open[id] == peer
    {
      id := nextConnection;
      nextConnection := nextConnection + 1;
      peers, open := peers[id := peer], open[id := peer];
      db := db.(connections := db.connections + {id});
      lastConnection := id;
    }

    method AddMessage(m: Message) returns (id: nat)
      requires Enabled(View(), NewMessage(m))
      modifies this
      ensures View() == Next(old(View()), NewMessage(m)) && id in db.messages && db.messages[id] == m
      ensures old(Indexed(db)) ==>
                (Indexed(db) <==> (id in old(db.messages) ==> KeepsKeys(old(db.messages)[id], m)))
    {
      hide Indexed, KeepsKeys, PutMessage;
      id := nextMessage;
      if Indexed(db) {
        PutKeepsIndexed(db, id, m);
      }
      StoredUnder(db, id, m);
      nextMessage := nextMessage + 1;
      db := PutMessage(db, id, m);
      lastMessage := id;
    }

    method Reopen()
      modifies this
      ensures View() == Next(old(View()), Restart)
    {
      open := map[];
      nextConnection, nextMessage := lastConnection, lastMessage;
    }
  }
}
