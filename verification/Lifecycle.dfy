/** The user-space event loop: which sockets are connections, and which connections the
    recorder keeps a context for. */
module Lifecycle {
  import opened Bytes

  type Addr = nat
  type Key = (nat, nat)  // process and file descriptor

  /** `stored` says whether the database accepts the new connection. */
  datatype Event =
    | OutgoingConnection(key: Key, addr: Addr)
    | GetSockOpt(key: Key, value: seq<byte>, stored: bool)
    | IncomingConnection(key: Key, addr: Addr, stored: bool)
    | Disconnected(key: Key)
    | Data(key: Key, incoming: bool, bytes: seq<byte>)
    | NewSnarkWorker(pid: nat)
    | Unrelated

  /** What the loop asks the recorder to do; `found` says whether a context was there. */
  datatype Call =
    | Connect(key: Key, addr: Addr, incoming: bool, stored: bool)
    | Disconnect(key: Key, addr: Addr, found: bool)
    | Deliver(key: Key, addr: Addr, incoming: bool, bytes: seq<byte>, found: bool)

  datatype State = State(
    connections: map<Key, Addr>,
    unconfirmed: map<Key, Addr>,
    workers: set<nat>,
    live: set<(Key, Addr)>)

  function Init(): State { State(map[], map[], {}, {}) }

  /** A connection opens on `key`; one that was still open there is closed first. */
  function Opened(s: State, key: Key, addr: Addr, incoming: bool, stored: bool): (State, seq<Call>) {
    var closed := if key !in s.connections then [] else
                  [Disconnect(key, s.connections[key], (key, s.connections[key]) in s.live)];
    var live := if key in s.connections then s.live - {(key, s.connections[key])} else s.live;
    (s.(connections := s.connections[key := addr], live := if stored then live + {(key, addr)} else live),
     closed + [Connect(key, addr, incoming, stored)])
  }

  function Step(s: State, e: Event): (State, seq<Call>) {
    match e
    case OutgoingConnection(key, addr) => (s.(unconfirmed := s.unconfirmed[key := addr]), [])
    case GetSockOpt(key, value, stored) =>
      if |value| != 4 || key !in s.unconfirmed then (s, []) else
      var s' := s.(unconfirmed := s.unconfirmed - {key});
      if FromLe(value) != 0 then (s', []) else Opened(s', key, s.unconfirmed[key], false, stored)
    case IncomingConnection(key, addr, stored) => Opened(s, key, addr, true, stored)
    case Disconnected(key) =>
      if key !in s.connections then (s, []) else
      var addr := s.connections[key];
      (s.(connections := s.connections - {key}, live := s.live - {(key, addr)}),
       [Disconnect(key, addr, (key, addr) in s.live)])
    case Data(key, incoming, bytes) =>
      if key.0 in s.workers || key.1 <= 2 || key !in s.connections then (s, []) else
      (s, [Deliver(key, s.connections[key], incoming, bytes, (key, s.connections[key]) in s.live)])
    case NewSnarkWorker(pid) => (s.(workers := s.workers + {pid}), [])
    case Unrelated => (s, [])
  }

  function After(s: State, es: seq<Event>): State {
    if es == [] then s else Step(After(s, es[..|es| - 1]), es[|es| - 1]).0
  }

  function Calls(s: State, es: seq<Event>): seq<Call> {
    if es == [] then [] else
    Calls(s, es[..|es| - 1]) + Step(After(s, es[..|es| - 1]), es[|es| - 1]).1
  }

  // -------------------------------------------------------------------- history

  /** The last connect or disconnect call for a key. */
  function Last(log: seq<Call>, key: Key): (r: Option<Call>)
    ensures r.Some? ==> r.value.key == key && !r.value.Deliver?
  {
    if log == [] then None else
    var c := log[|log| - 1];
    if c.key == key && !c.Deliver? then Some(c) else Last(log[..|log| - 1], key)
  }

  /** The two maps say what the calls made so far say: a socket is a connection exactly when the
      last call for it was a connect, with that address, and its context is live exactly when
      that connect was stored. */
  ghost predicate InStep(s: State, log: seq<Call>) {
    forall key :: KeyInStep(s, Last(log, key), key)
  }

  ghost predicate KeyInStep(s: State, last: Option<Call>, key: Key) {
    && (key in s.connections <==> last.Some? && last.value.Connect?)
    && (key in s.connections ==> last.value.addr == s.connections[key])
    && forall addr :: (key, addr) in s.live <==>
         key in s.connections && s.connections[key] == addr && last.value.stored
  }

  /** A call is made in the right order: a connect when nothing is open on the socket, a
      disconnect or a delivery for the connection that is, with its context found exactly when
      its connect was stored. */
  predicate InOrder(before: Option<Call>, c: Call) {
    match c
    case Connect(_, _, _, _) => before.None? || before.value.Disconnect?
    case Disconnect(_, addr, found) =>
      before.Some? && before.value.Connect? && before.value.addr == addr && found == before.value.stored
    case Deliver(_, addr, _, _, found) =>
      before.Some? && before.value.Connect? && before.value.addr == addr && found == before.value.stored
  }

  ghost predicate WellOrdered(log: seq<Call>) {
    forall i :: 0 <= i < |log| ==> InOrder(Last(log[..i], log[i].key), log[i])
  }

  lemma WellOrderedAppend(log: seq<Call>, c: Call)
    requires WellOrdered(log) && InOrder(Last(log, c.key), c)
    ensures WellOrdered(log + [c])
  {
    var all := log + [c];
    forall i | 0 <= i < |all|
      ensures InOrder(Last(all[..i], all[i].key), all[i])
    {
      assert all[..i] == log[..i];
      if i == |log| {
        assert log[..i] == log;
      }
    }
  }

  lemma LastOne(log: seq<Call>, c: Call, key: Key)
    ensures Last(log + [c], key) == if c.key == key && !c.Deliver? then Some(c) else Last(log, key)
  {
    assert (log + [c])[..|log|] == log;
  }

  /** Closing what is open on a socket. */
  lemma CloseKeepsStep(s: State, log: seq<Call>, key: Key)
    requires InStep(s, log) && WellOrdered(log) && key in s.connections
    ensures var addr := s.connections[key];
            var c := Disconnect(key, addr, (key, addr) in s.live);
            && InStep(s.(connections := s.connections - {key}, live := s.live - {(key, addr)}), log + [c])
            && WellOrdered(log + [c])
  {
    var addr := s.connections[key];
    var c := Disconnect(key, addr, (key, addr) in s.live);
    assert KeyInStep(s, Last(log, key), key);
    WellOrderedAppend(log, c);
    hide WellOrdered;
    var s' := s.(connections := s.connections - {key}, live := s.live - {(key, addr)});
    forall k
      ensures KeyInStep(s', Last(log + [c], k), k)
    {
      LastOne(log, c, k);
      assert KeyInStep(s, Last(log, k), k);
    }
  }

  lemma ConnectKeepsStep(s: State, log: seq<Call>, key: Key, addr: Addr, incoming: bool, stored: bool)
    requires InStep(s, log) && WellOrdered(log) && key !in s.connections
    ensures var c := Connect(key, addr, incoming, stored);
            && InStep(s.(connections := s.connections[key := addr],
                         live := if stored then s.live + {(key, addr)} else s.live), log + [c])
            && WellOrdered(log + [c])
  {
    var c := Connect(key, addr, incoming, stored);
    assert KeyInStep(s, Last(log, key), key);
    WellOrderedAppend(log, c);
    hide WellOrdered;
    var s' := s.(connections := s.connections[key := addr], live := if stored then s.live + {(key, addr)} else s.live);
    forall k
      ensures KeyInStep(s', Last(log + [c], k), k)
    {
      LastOne(log, c, k);
      assert KeyInStep(s, Last(log, k), k);
    }
  }

  lemma OpenKeepsStep(s: State, log: seq<Call>, key: Key, addr: Addr, incoming: bool, stored: bool)
    requires InStep(s, log) && WellOrdered(log)
    ensures var (s', calls) := Opened(s, key, addr, incoming, stored);
            InStep(s', log + calls) && WellOrdered(log + calls)
  {
    hide InStep, WellOrdered;
    if key in s.connections {
      var old_ := s.connections[key];
      var d := Disconnect(key, old_, (key, old_) in s.live);
      var mid := s.(connections := s.connections - {key}, live := s.live - {(key, old_)});
      CloseKeepsStep(s, log, key);
      ConnectKeepsStep(mid, log + [d], key, addr, incoming, stored);
      var c := Connect(key, addr, incoming, stored);
      assert log + [d] + [c] == log + ([d] + [c]);
      assert mid.connections[key := addr] == s.connections[key := addr];
    } else {
      ConnectKeepsStep(s, log, key, addr, incoming, stored);
      var c := Connect(key, addr, incoming, stored);
      assert log + ([] + [c]) == log + [c];
    }
  }

  lemma StepKeepsStep(s: State, log: seq<Call>, e: Event)
    requires InStep(s, log) && WellOrdered(log)
    ensures InStep(Step(s, e).0, log + Step(s, e).1) && WellOrdered(log + Step(s, e).1)
  {
    assert log + [] == log;
    if e.OutgoingConnection? || e.GetSockOpt? || e.NewSnarkWorker? {
      var s' := Step(s, e).0;
      if s'.connections == s.connections && s'.live == s.live {
        SameStep(s, s', log);
      }
    }
    hide WellOrdered, InStep;
    match e
    case GetSockOpt(key, value, stored) =>
      if |value| == 4 && key in s.unconfirmed && FromLe(value) == 0 {
        SameStep(s, s.(unconfirmed := s.unconfirmed - {key}), log);
        OpenKeepsStep(s.(unconfirmed := s.unconfirmed - {key}), log, key, s.unconfirmed[key], false, stored);
      }
    case IncomingConnection(key, addr, stored) => OpenKeepsStep(s, log, key, addr, true, stored);
    case Disconnected(key) =>
      if key in s.connections {
        CloseKeepsStep(s, log, key);
      }
    case Data(key, incoming, bytes) => DeliverKeepsStep(s, log, key, incoming, bytes);
    case _ =>
  }

  lemma SameStep(s: State, s': State, log: seq<Call>)
    requires InStep(s, log) && s'.connections == s.connections && s'.live == s.live
    ensures InStep(s', log)
  {
    forall k
      ensures KeyInStep(s', Last(log, k), k)
    {
      assert KeyInStep(s, Last(log, k), k);
    }
  }

  lemma DeliverKeepsStep(s: State, log: seq<Call>, key: Key, incoming: bool, bytes: seq<byte>)
    requires InStep(s, log) && WellOrdered(log)
    ensures key in s.connections ==>
              var c := Deliver(key, s.connections[key], incoming, bytes, (key, s.connections[key]) in s.live);
              InStep(s, log + [c]) && WellOrdered(log + [c])
  {
    if key in s.connections {
      var c := Deliver(key, s.connections[key], incoming, bytes, (key, s.connections[key]) in s.live);
      assert KeyInStep(s, Last(log, key), key);
      WellOrderedAppend(log, c);
      hide WellOrdered;
      forall k
        ensures KeyInStep(s, Last(log + [c], k), k)
      {
        LastOne(log, c, k);
        assert KeyInStep(s, Last(log, k), k);
      }
    }
  }

  /** Over every event sequence the two maps stay in step and the calls to the recorder are in
      order: connect and disconnect alternate on every socket, always for the same address. */
  lemma {:induction false} LoopStaysInStep(es: seq<Event>)
    ensures InStep(After(Init(), es), Calls(Init(), es))
    ensures WellOrdered(Calls(Init(), es))
    decreases |es|
  {
    if es != [] {
      var before := es[..|es| - 1];
      LoopStaysInStep(before);
      StepKeepsStep(After(Init(), before), Calls(Init(), before), es[|es| - 1]);
    }
  }

  ghost predicate AllStored(es: seq<Event>) {
    forall i :: 0 <= i < |es| ==>
      (es[i].GetSockOpt? ==> es[i].stored) && (es[i].IncomingConnection? ==> es[i].stored)
  }

  lemma {:induction false} CallsStored(es: seq<Event>)
    requires AllStored(es)
    ensures forall i :: 0 <= i < |Calls(Init(), es)| && Calls(Init(), es)[i].Connect? ==> Calls(Init(), es)[i].stored
    decreases |es|
  {
    if es != [] {
      CallsStored(es[..|es| - 1]);
    }
  }

  lemma {:induction false} LastIsCall(log: seq<Call>, key: Key)
    ensures Last(log, key).Some? ==> Last(log, key).value in log
    decreases |log|
  {
    if log != [] {
      LastIsCall(log[..|log| - 1], key);
    }
  }

  /** If the database accepts every connection, the recorder's contexts are exactly the open
      connections, and every chunk it is given finds its context. */
  lemma ContextsAreConnections(es: seq<Event>)
    requires AllStored(es)
    ensures var s := After(Init(), es);
            forall key: Key, addr: Addr :: (key, addr) in s.live <==> key in s.connections && s.connections[key] == addr
    ensures var log := Calls(Init(), es);
            forall i :: 0 <= i < |log| && log[i].Deliver? ==> log[i].found
  {
    LoopStaysInStep(es);
    CallsStored(es);
    var s, log := After(Init(), es), Calls(Init(), es);
    forall key: Key, addr: Addr
      ensures (key, addr) in s.live <==> key in s.connections && s.connections[key] == addr
    {
      LastIsCall(log, key);
      assert KeyInStep(s, Last(log, key), key);
    }
    forall i | 0 <= i < |log| && log[i].Deliver?
      ensures log[i].found
    {
      LastIsCall(log[..i], log[i].key);
    }
  }

  // ------------------------------------------------------- connections from events

  /** Event `i` announces an outgoing connection, and no later one replaces or answers it. */
  predicate Pends(es: seq<Event>, key: Key, i: nat, addr: Addr) {
    && i < |es| && es[i] == OutgoingConnection(key, addr)
    && forall j :: i < j < |es| ==> !Answers(es[j], key) && !(es[j].OutgoingConnection? && es[j].key == key)
  }

  ghost predicate Announced(es: seq<Event>, key: Key, addr: Addr) {
    exists i: nat :: Pends(es, key, i, addr)
  }

  /** The socket's state is asked for, successfully or not. */
  predicate Answers(e: Event, key: Key) {
    e.GetSockOpt? && e.key == key && |e.value| == 4
  }

  /** Event `i` opens a connection: it is accepted, or it was announced and is found to have
      succeeded. */
  ghost predicate Opens(es: seq<Event>, key: Key, i: nat, addr: Addr) {
    && i < |es|
    && ((es[i].IncomingConnection? && es[i].key == key && es[i].addr == addr)
        || (Answers(es[i], key) && es[i].value == [0, 0, 0, 0] && Announced(es[..i], key, addr)))
  }

  ghost predicate OpensAny(es: seq<Event>, key: Key, i: nat) {
    exists a: Addr :: Opens(es, key, i, a)
  }

  /** Event `i` opens the connection to `addr`, and no later event opens or closes one there. */
  ghost predicate OpenSince(es: seq<Event>, key: Key, i: nat, addr: Addr) {
    && Opens(es, key, i, addr)
    && forall j: nat :: i < j < |es| ==> !Closes(es, key, j) && !OpensAny(es, key, j)
  }

  predicate Closes(es: seq<Event>, key: Key, j: nat) {
    j < |es| && es[j] == Disconnected(key)
  }

  lemma ZeroBytes(value: seq<byte>)
    requires |value| == 4
    ensures FromLe(value) == 0 <==> value == [0, 0, 0, 0]
  {
    assert FromLe(value) == value[0] + 256 * FromLe(value[1..]);
    assert FromLe(value[1..]) == value[1] + 256 * FromLe(value[2..]) by { assert value[1..][1..] == value[2..]; }
    assert FromLe(value[2..]) == value[2] + 256 * FromLe(value[3..]) by { assert value[2..][1..] == value[3..]; }
    assert FromLe(value[3..]) == value[3] by { assert value[3..][1..] == []; }
  }

  /** A connection is unconfirmed exactly if it was announced and has not been answered. */
  lemma {:induction false} UnconfirmedIsHistory(es: seq<Event>, key: Key, addr: Addr)
    ensures key in After(Init(), es).unconfirmed && After(Init(), es).unconfirmed[key] == addr <==>
            Announced(es, key, addr)
    decreases |es|
  {
    if es != [] {
      var n := |es| - 1;
      var before, e := es[..n], es[n];
      UnconfirmedIsHistory(before, key, addr);
      PendsLast(es, key, addr);
    } else {
      assert !Announced(es, key, addr);
    }
  }

  lemma PendsLast(es: seq<Event>, key: Key, addr: Addr)
    requires es != []
    ensures var before, e := es[..|es| - 1], es[|es| - 1];
            Announced(es, key, addr) <==>
            if e.OutgoingConnection? && e.key == key then e.addr == addr
            else !Answers(e, key) && Announced(before, key, addr)
  {
    var n := |es| - 1;
    var before, e := es[..n], es[n];
    if e == OutgoingConnection(key, addr) {
      assert Pends(es, key, n, addr);
    }
    forall i: nat | i < n
      ensures Pends(es, key, i, addr) <==>
              Pends(before, key, i, addr) && !Answers(e, key) && !(e.OutgoingConnection? && e.key == key)
    {
      assert forall j :: 0 <= j < n ==> before[j] == es[j];
    }
  }

  lemma OpensPrefix(es: seq<Event>, key: Key, n: nat, i: nat, addr: Addr)
    requires i < n <= |es|
    ensures Opens(es[..n], key, i, addr) == Opens(es, key, i, addr)
  {
    assert es[..n][..i] == es[..i];
  }

  lemma OpensAnyPrefix(es: seq<Event>, key: Key, n: nat, i: nat)
    requires i < n <= |es|
    ensures OpensAny(es[..n], key, i) == OpensAny(es, key, i) && Closes(es[..n], key, i) == Closes(es, key, i)
  {
    hide Opens;
    if a: Addr :| Opens(es, key, i, a) { OpensPrefix(es, key, n, i, a); }
    if a: Addr :| Opens(es[..n], key, i, a) { OpensPrefix(es, key, n, i, a); }
  }

  /** The connections are a function of the events: a socket is connected to `addr` exactly if an
      event opened that connection and none has opened or closed one on the socket since. */
  lemma {:induction false} ConnectionsAreHistory(es: seq<Event>, key: Key, addr: Addr)
    ensures key in After(Init(), es).connections && After(Init(), es).connections[key] == addr <==>
            exists i: nat :: OpenSince(es, key, i, addr)
    decreases |es|
  {
    if es != [] {
      hide Pends, Answers, Opens, OpensAny, OpenSince, Closes;
      var n := |es| - 1;
      ConnectionsAreHistory(es[..n], key, addr);
      OpensLast(es, key);
      OpenSinceLast(es, key, addr);
    } else {
      assert !exists i: nat :: OpenSince(es, key, i, addr);
    }
  }

  /** What the last event does to the connection on a socket. */
  lemma OpensLast(es: seq<Event>, key: Key)
    requires es != []
    ensures var n := |es| - 1;
            var s, s' := After(Init(), es[..n]), After(Init(), es);
            && (forall a: Addr :: Opens(es, key, n, a) ==> key in s'.connections && s'.connections[key] == a)
            && (Closes(es, key, n) ==> key !in s'.connections)
            && (!OpensAny(es, key, n) && !Closes(es, key, n) ==>
                  && (key in s'.connections <==> key in s.connections)
                  && (key in s.connections ==> s'.connections[key] == s.connections[key]))
            && (Closes(es, key, n) ==> !OpensAny(es, key, n))
  {
    var n := |es| - 1;
    var s, e := After(Init(), es[..n]), es[n];
    if Answers(e, key) {
      ZeroBytes(e.value);
      forall a: Addr
        ensures key in s.unconfirmed && s.unconfirmed[key] == a <==> Announced(es[..n], key, a)
      {
        UnconfirmedIsHistory(es[..n], key, a);
      }
      hide Announced, FromLe;
      if e.value == [0, 0, 0, 0] && key in s.unconfirmed {
        assert Opens(es, key, n, s.unconfirmed[key]);
      }
    } else if e.IncomingConnection? && e.key == key {
      assert Opens(es, key, n, e.addr);
    }
  }

  lemma OpenSinceLast(es: seq<Event>, key: Key, addr: Addr)
    requires es != []
    ensures var n := |es| - 1;
            (exists i: nat :: OpenSince(es, key, i, addr)) <==>
            || Opens(es, key, n, addr)
            || (!Closes(es, key, n) && !OpensAny(es, key, n)
                && exists i: nat :: OpenSince(es[..n], key, i, addr))
  {
    var n := |es| - 1;
    if Opens(es, key, n, addr) {
      assert OpenSince(es, key, n, addr);
    }
    forall j: nat | j < n
      ensures OpensAny(es[..n], key, j) == OpensAny(es, key, j) && Closes(es[..n], key, j) == Closes(es, key, j)
    {
      OpensAnyPrefix(es, key, n, j);
    }
    hide Opens, OpensAny, Closes;
    if i: nat :| OpenSince(es, key, i, addr) {
      InRange(es, key, i, addr);
      if i < n {
        OpensPrefix(es, key, n, i, addr);
        assert !Closes(es, key, n) && !OpensAny(es, key, n);
        assert OpenSince(es[..n], key, i, addr);
      }
    }
    if !OpensAny(es, key, n) && !Closes(es, key, n) {
      if i: nat :| OpenSince(es[..n], key, i, addr) {
        InRange(es[..n], key, i, addr);
        OpensPrefix(es, key, n, i, addr);
        assert OpenSince(es, key, i, addr);
      }
    }
  }

  lemma InRange(es: seq<Event>, key: Key, i: nat, addr: Addr)
    requires OpenSince(es, key, i, addr)
    ensures i < |es|
  {
  }

  // ------------------------------------------------------------- calls from events

  /** The process has been announced as a worker. */
  ghost predicate Worker(es: seq<Event>, pid: nat) {
    exists j :: 0 <= j < |es| && es[j] == NewSnarkWorker(pid)
  }

  lemma {:induction false} WorkersAreHistory(es: seq<Event>, pid: nat)
    ensures pid in After(Init(), es).workers <==> Worker(es, pid)
    decreases |es|
  {
    if es != [] {
      var n := |es| - 1;
      WorkersAreHistory(es[..n], pid);
      assert forall j :: 0 <= j < n ==> es[..n][j] == es[j];
    }
  }

  /** The database accepted the connection that event `i` opened. */
  predicate Accepted(es: seq<Event>, i: nat) {
    i < |es| && (es[i].GetSockOpt? || es[i].IncomingConnection?) && es[i].stored
  }

  /** The connection to `addr` is open on the socket; `found` says whether it was accepted. */
  ghost predicate IsOpen(es: seq<Event>, key: Key, addr: Addr, found: bool) {
    exists i: nat :: OpenSince(es, key, i, addr) && Accepted(es, i) == found
  }

  lemma IsOpenLast(es: seq<Event>, key: Key, addr: Addr, found: bool)
    requires es != []
    ensures var n := |es| - 1;
            IsOpen(es, key, addr, found) <==>
            || (Opens(es, key, n, addr) && Accepted(es, n) == found)
            || (!Closes(es, key, n) && !OpensAny(es, key, n) && IsOpen(es[..n], key, addr, found))
  {
    var n := |es| - 1;
    hide Opens, OpensAny, Closes;
    if Opens(es, key, n, addr) {
      OpenedNow(es, key, addr);
    }
    if i: nat :| OpenSince(es, key, i, addr) && Accepted(es, i) == found {
      InRange(es, key, i, addr);
      if i < n {
        OpenSincePrefix(es, key, i, addr);
        assert Accepted(es[..n], i) == found;
      }
    }
    if !OpensAny(es, key, n) && !Closes(es, key, n) {
      if i: nat :| OpenSince(es[..n], key, i, addr) && Accepted(es[..n], i) == found {
        InRange(es[..n], key, i, addr);
        OpenSincePrefix(es, key, i, addr);
        assert Accepted(es, i) == found;
      }
    }
  }

  lemma OpenedNow(es: seq<Event>, key: Key, addr: Addr)
    requires es != [] && Opens(es, key, |es| - 1, addr)
    ensures OpenSince(es, key, |es| - 1, addr)
  {
  }

  lemma OpenSincePrefix(es: seq<Event>, key: Key, i: nat, addr: Addr)
    requires i < |es| - 1
    ensures var n := |es| - 1;
            OpenSince(es, key, i, addr) <==>
            OpenSince(es[..n], key, i, addr) && !Closes(es, key, n) && !OpensAny(es, key, n)
  {
    var n := |es| - 1;
    hide Opens, OpensAny, Closes;
    OpensPrefix(es, key, n, i, addr);
    forall j: nat | j < n
      ensures OpensAny(es[..n], key, j) == OpensAny(es, key, j) && Closes(es[..n], key, j) == Closes(es, key, j)
    {
      OpensAnyPrefix(es, key, n, j);
    }
  }

  /** The address of the connection that the event opens on the socket. */
  function Opening(s: State, e: Event, key: Key): Option<Addr> {
    if e.IncomingConnection? && e.key == key then Some(e.addr)
    else if e.GetSockOpt? && e.key == key && |e.value| == 4 && FromLe(e.value) == 0 && key in s.unconfirmed
    then Some(s.unconfirmed[key])
    else None
  }

  /** Events open connections as history says. */
  lemma OpeningIsHistory(es: seq<Event>, i: nat, key: Key)
    requires i < |es|
    ensures forall a: Addr :: Opens(es, key, i, a) <==> Opening(After(Init(), es[..i]), es[i], key) == Some(a)
    ensures OpensAny(es, key, i) <==> Opening(After(Init(), es[..i]), es[i], key).Some?
  {
    var s, e := After(Init(), es[..i]), es[i];
    forall a: Addr
      ensures key in s.unconfirmed && s.unconfirmed[key] == a <==> Announced(es[..i], key, a)
    {
      UnconfirmedIsHistory(es[..i], key, a);
    }
    hide Announced, After, FromLe;
    if e.GetSockOpt? && |e.value| == 4 {
      ZeroBytes(e.value);
    }
    assert forall a: Addr :: Opens(es, key, i, a) <==> Opening(s, e, key) == Some(a);
    hide Opens, Opening;
    if Opening(s, e, key).Some? {
      assert Opens(es, key, i, Opening(s, e, key).value);
    }
  }

  /** One event and the contexts of a socket. */
  lemma StepLive(s: State, e: Event, key: Key, addr: Addr)
    requires (key, addr) in s.live ==> key in s.connections && s.connections[key] == addr
    ensures var s', a := Step(s, e).0, Opening(s, e, key);
            && (a.Some? ==>
                  && (e.GetSockOpt? || e.IncomingConnection?)
                  && key in s'.connections && s'.connections[key] == a.value
                  && ((key, addr) in s'.live <==> a.value == addr && e.stored))
            && (a.None? && e == Disconnected(key) ==> key !in s'.connections && (key, addr) !in s'.live)
            && (a.None? && e != Disconnected(key) ==>
                  && (key in s'.connections <==> key in s.connections)
                  && (key in s.connections ==> s'.connections[key] == s.connections[key])
                  && ((key, addr) in s'.live <==> (key, addr) in s.live))
  {
    hide FromLe;
  }

  /** A context is live exactly if its connection is open and was accepted. */
  lemma {:induction false} LiveIsHistory(es: seq<Event>, key: Key, addr: Addr)
    ensures var s := After(Init(), es);
            && ((key, addr) in s.live <==> IsOpen(es, key, addr, true))
            && (key in s.connections && s.connections[key] == addr && (key, addr) !in s.live <==>
                IsOpen(es, key, addr, false))
    decreases |es|
  {
    if es == [] {
      assert !IsOpen(es, key, addr, true) && !IsOpen(es, key, addr, false);
    } else {
      var n := |es| - 1;
      LiveIsHistory(es[..n], key, addr);
      LoopStaysInStep(es[..n]);
      assert KeyInStep(After(Init(), es[..n]), Last(Calls(Init(), es[..n]), key), key);
      hide InStep, WellOrdered, Last, KeyInStep, IsOpen;
      IsOpenLast(es, key, addr, true);
      IsOpenLast(es, key, addr, false);
      LiveLast(es, key, addr);
    }
  }

  /** What the last event does to the contexts of a socket. */
  lemma LiveLast(es: seq<Event>, key: Key, addr: Addr)
    requires es != []
    ensures var n := |es| - 1;
            var s, s' := After(Init(), es[..n]), After(Init(), es);
            && (Opens(es, key, n, addr) ==>
                  key in s'.connections && s'.connections[key] == addr && ((key, addr) in s'.live <==> Accepted(es, n)))
            && (OpensAny(es, key, n) && !Opens(es, key, n, addr) ==>
                  key in s'.connections && s'.connections[key] != addr && (key, addr) !in s'.live)
            && (Closes(es, key, n) ==> key !in s'.connections && (key, addr) !in s'.live)
            && (!OpensAny(es, key, n) && !Closes(es, key, n) ==>
                  && (key in s'.connections <==> key in s.connections)
                  && (key in s.connections ==> s'.connections[key] == s.connections[key])
                  && ((key, addr) in s'.live <==> (key, addr) in s.live))
            && (Closes(es, key, n) ==> !OpensAny(es, key, n))
  {
    var n := |es| - 1;
    var s := After(Init(), es[..n]);
    LoopStaysInStep(es[..n]);
    assert KeyInStep(s, Last(Calls(Init(), es[..n]), key), key);
    OpeningIsHistory(es, n, key);
    StepLive(s, es[n], key, addr);
    hide InStep, WellOrdered, Last, Step, Opens, OpensAny, Opening;
  }

  /** A call answers event `i`. A connect answers an event that opens the connection: an accepted
      one is incoming, a confirmed one outgoing. A disconnect answers the end of the connection
      that was open there, or its replacement. A delivery answers data on a descriptor above 2, of
      a process that is no worker, with the address of the connection that is open there, and its
      own direction and bytes. */
  ghost predicate CallFor(es: seq<Event>, i: nat, c: Call) {
    && i < |es|
    && match c
       case Connect(key, addr, incoming, stored) =>
         Opens(es, key, i, addr) && incoming == es[i].IncomingConnection? && stored == Accepted(es, i)
       case Disconnect(key, addr, found) =>
         IsOpen(es[..i], key, addr, found) && (Closes(es, key, i) || OpensAny(es, key, i))
       case Deliver(key, addr, incoming, bytes, found) =>
         && es[i] == Data(key, incoming, bytes) && key.1 > 2 && !Worker(es[..i], key.0)
         && IsOpen(es[..i], key, addr, found)
  }

  datatype Sort = Connects | Disconnects | Deliveries

  predicate OfSort(c: Call, sort: Sort) {
    match sort case Connects => c.Connect? case Disconnects => c.Disconnect? case Deliveries => c.Deliver?
  }

  /** The calls of one sort, in order. */
  function Pick(log: seq<Call>, sort: Sort): seq<Call> {
    if log == [] then [] else
    Pick(log[..|log| - 1], sort) + if OfSort(log[|log| - 1], sort) then [log[|log| - 1]] else []
  }

  lemma {:induction false} PickAppend(a: seq<Call>, b: seq<Call>, sort: Sort)
    ensures Pick(a + b, sort) == Pick(a, sort) + Pick(b, sort)
    decreases |b|
  {
    if b == [] {
      assert a + b == a;
    } else {
      assert (a + b)[..|a + b| - 1] == a + b[..|b| - 1];
      PickAppend(a, b[..|b| - 1], sort);
    }
  }

  lemma PickFew(calls: seq<Call>, sort: Sort)
    requires |calls| <= 2
    ensures |calls| == 1 ==> Pick(calls, sort) == if OfSort(calls[0], sort) then calls else []
    ensures |calls| == 2 ==>
              Pick(calls, sort) == (if OfSort(calls[0], sort) then [calls[0]] else [])
                                   + (if OfSort(calls[1], sort) then [calls[1]] else [])
  {
    if |calls| > 0 {
      assert calls[..1][..0] == [] && Pick([], sort) == [];
      assert calls[..|calls|] == calls;
    }
  }

  /** What the socket of an event is, as the maps say and as history says. */
  lemma SocketIsHistory(es: seq<Event>, key: Key)
    ensures var s := After(Init(), es);
            && (forall a: Addr, found: bool :: IsOpen(es, key, a, found) <==>
                  key in s.connections && s.connections[key] == a && found == ((key, a) in s.live))
            && (key.0 in s.workers <==> Worker(es, key.0))
  {
    var s := After(Init(), es);
    WorkersAreHistory(es, key.0);
    LoopStaysInStep(es);
    assert KeyInStep(s, Last(Calls(Init(), es), key), key);
    hide IsOpen, InStep, WellOrdered, Last, After, Worker;
    forall a: Addr, found: bool
      ensures IsOpen(es, key, a, found) <==>
              key in s.connections && s.connections[key] == a && found == ((key, a) in s.live)
    {
      LiveIsHistory(es, key, a);
    }
  }

  /** An event leads to a call if and only if the call is for it. */
  lemma CallIff(es: seq<Event>, i: nat, c: Call)
    requires i < |es|
    ensures c in Step(After(Init(), es[..i]), es[i]).1 <==> CallFor(es, i, c)
  {
    SocketIsHistory(es[..i], c.key);
    OpeningIsHistory(es, i, c.key);
    hide After, IsOpen, Worker, Opens, OpensAny, FromLe;
  }

  lemma StepShape(s: State, e: Event)
    ensures var calls := Step(s, e).1;
            |calls| <= 2 && (|calls| == 2 ==> calls[0].Disconnect? && calls[1].Connect?)
  {
    hide FromLe;
  }

  lemma StepCalls(s: State, e: Event, sort: Sort)
    ensures var calls := Pick(Step(s, e).1, sort);
            |calls| <= 1 && forall c :: c in calls <==> c in Step(s, e).1 && OfSort(c, sort)
  {
    StepShape(s, e);
    hide Step;
    var calls := Step(s, e).1;
    PickFew(calls, sort);
    if calls != [] {
      assert calls == if |calls| == 1 then [calls[0]] else [calls[0], calls[1]];
    }
  }

  /** One for one: call `n` of the sort is for event `at[n]`, and every event there is such a call
      for is among them. */
  ghost predicate OneForOne(es: seq<Event>, calls: seq<Call>, sort: Sort, at: seq<nat>) {
    && |at| == |calls|
    && (forall n :: 0 <= n < |at| ==> OfSort(calls[n], sort) && CallFor(es, at[n], calls[n]))
    && (forall m, n :: 0 <= m < n < |at| ==> at[m] < at[n])
    && (forall i: nat, c :: OfSort(c, sort) && CallFor(es, i, c) ==> i in at)
  }

  lemma CallForPrefix(es: seq<Event>, n: nat, i: nat, c: Call)
    requires i < n <= |es|
    ensures CallFor(es[..n], i, c) == CallFor(es, i, c)
  {
    hide IsOpen, Worker, Opens, OpensAny, Closes;
    assert es[..n][..i] == es[..i];
    OpensPrefix(es, c.key, n, i, c.addr);
    OpensAnyPrefix(es, c.key, n, i);
  }

  lemma CallForRange(es: seq<Event>, i: nat, c: Call)
    requires CallFor(es, i, c)
    ensures i < |es|
  {
  }

  /** Over every event sequence the connects, the disconnects and the deliveries are each, in order
      and one for one, the calls for the events. */
  lemma {:induction false} CallsAreEvents(es: seq<Event>, sort: Sort) returns (at: seq<nat>)
    ensures OneForOne(es, Pick(Calls(Init(), es), sort), sort, at)
    decreases |es|
  {
    at := [];
    if es != [] {
      hide CallFor, Step, After, OfSort;
      var n := |es| - 1;
      var before := CallsAreEvents(es[..n], sort);
      var log, more := Calls(Init(), es[..n]), Step(After(Init(), es[..n]), es[n]).1;
      PickAppend(log, more, sort);
      StepCalls(After(Init(), es[..n]), es[n], sort);
      at := before + if Pick(more, sort) == [] then [] else [n];
      CallsMore(es, Pick(log, sort), Pick(more, sort), sort, before);
    }
  }

  lemma CallsMore(es: seq<Event>, log: seq<Call>, more: seq<Call>, sort: Sort, at: seq<nat>)
    requires es != [] && OneForOne(es[..|es| - 1], log, sort, at) && |more| <= 1
    requires forall c :: c in more <==> c in Step(After(Init(), es[..|es| - 1]), es[|es| - 1]).1 && OfSort(c, sort)
    ensures OneForOne(es, log + more, sort, at + if more == [] then [] else [|es| - 1])
  {
    hide CallFor, Step, After, OfSort;
    var n := |es| - 1;
    var at' := at + if more == [] then [] else [n];
    forall k | 0 <= k < |at|
      ensures at[k] < n && CallFor(es, at[k], log[k])
    {
      CallForRange(es[..n], at[k], log[k]);
      CallForPrefix(es, n, at[k], log[k]);
    }
    forall c
      ensures c in more <==> CallFor(es, n, c) && OfSort(c, sort)
    {
      CallIff(es, n, c);
    }
    if more != [] {
      assert more[0] in more;
    }
    forall i: nat, c | OfSort(c, sort) && CallFor(es, i, c)
      ensures i in at'
    {
      CallForRange(es, i, c);
      if i < n {
        CallForPrefix(es, n, i, c);
      }
    }
  }

  /** So data is delivered exactly if it comes on a connection: each delivery carries the address,
      the direction and the bytes of its event, and no event is left out or taken twice. */
  lemma DeliveriesAreData(es: seq<Event>) returns (at: seq<nat>)
    ensures var log := Pick(Calls(Init(), es), Deliveries);
            && |at| == |log|
            && (forall n :: 0 <= n < |at| ==>
                  && at[n] < |es| && log[n].Deliver?
                  && es[at[n]] == Data(log[n].key, log[n].incoming, log[n].bytes)
                  && IsOpen(es[..at[n]], log[n].key, log[n].addr, log[n].found))
            && (forall m, n :: 0 <= m < n < |at| ==> at[m] < at[n])
    ensures forall i :: 0 <= i < |es| ==>
              (i in at <==> && es[i].Data? && es[i].key.1 > 2 && !Worker(es[..i], es[i].key.0)
                            && exists addr, found :: IsOpen(es[..i], es[i].key, addr, found))
  {
    hide IsOpen, Worker, Pick, Calls;
    at := CallsAreEvents(es, Deliveries);
    var log := Pick(Calls(Init(), es), Deliveries);
    forall i | 0 <= i < |es|
      ensures i in at <==> && es[i].Data? && es[i].key.1 > 2 && !Worker(es[..i], es[i].key.0)
                           && exists addr, found :: IsOpen(es[..i], es[i].key, addr, found)
    {
      if i in at {
        var n :| 0 <= n < |at| && at[n] == i;
        assert CallFor(es, i, log[n]);
      }
      if es[i].Data? && es[i].key.1 > 2 && !Worker(es[..i], es[i].key.0) {
        if addr, found :| IsOpen(es[..i], es[i].key, addr, found) {
          assert CallFor(es, i, Deliver(es[i].key, addr, es[i].incoming, es[i].bytes, found));
        }
      }
    }
  }

  // ---------------------------------------------------------------------- the loop

  class Loop {
    var connections: map<Key, Addr>
    var unconfirmed: map<Key, Addr>
    var workers: set<nat>
    var live: set<(Key, Addr)>

    ghost function View(): State
      reads this
    {
      State(connections, unconfirmed, workers, live)
    }

    constructor ()
      ensures View() == Init()
    {
      connections, unconfirmed, workers, live := map[], map[], {}, {};
    }

    method OnConnect(key: Key, addr: Addr, incoming: bool, stored: bool) returns (c: Call)
      modifies this`live
      ensures c == Connect(key, addr, incoming, stored)
      ensures live == if stored then old(live) + {(key, addr)} else old(live)
    {
      if stored {
        live := live + {(key, addr)};
      }
      c := Connect(key, addr, incoming, stored);
    }

    method OnDisconnect(key: Key, addr: Addr) returns (c: Call)
      modifies this`live
      ensures c == Disconnect(key, addr, (key, addr) in old(live)) && live == old(live) - {(key, addr)}
    {
      c := Disconnect(key, addr, (key, addr) in live);
      live := live - {(key, addr)};
    }

    method Open(key: Key, addr: Addr, incoming: bool, stored: bool) returns (calls: seq<Call>)
      modifies this
      ensures View() == Opened(old(View()), key, addr, incoming, stored).0
      ensures calls == Opened(old(View()), key, addr, incoming, stored).1
    {
      calls := [];
      var was := if key in connections then Some(connections[key]) else None;
      connections := connections[key := addr];
      if was.Some? {
        var d := OnDisconnect(key, was.value);
        calls := [d];
      }
      var c := OnConnect(key, addr, incoming, stored);
      calls := calls + [c];
    }

    /** One event from the ring buffer. */
    method Handle(e: Event) returns (calls: seq<Call>)
      modifies this
      ensures View() == Step(old(View()), e).0 && calls == Step(old(View()), e).1
    {
      calls := [];
      match e {
        case OutgoingConnection(key, addr) =>
          unconfirmed := unconfirmed[key := addr];
        case GetSockOpt(key, value, stored) =>
          if |value| != 4 || key !in unconfirmed {
            return;
          }
          var addr := unconfirmed[key];
          unconfirmed := unconfirmed - {key};
          if FromLe(value) != 0 {
            return;
          }
          calls := Open(key, addr, false, stored);
        case IncomingConnection(key, addr, stored) =>
          calls := Open(key, addr, true, stored);
        case Disconnected(key) =>
          if key in connections {
            var addr := connections[key];
            connections := connections - {key};
            var d := OnDisconnect(key, addr);
            calls := [d];
          }
        case Data(key, incoming, bytes) =>
          if key.0 !in workers && key.1 > 2 && key in connections {
            var addr := connections[key];
            calls := [Deliver(key, addr, incoming, bytes, (key, addr) in live)];
          }
        case NewSnarkWorker(pid) =>
          workers := workers + {pid};
        case Unrelated =>
      }
    }
  }
}
