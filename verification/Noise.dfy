/** The Noise XX observer: 2-byte chunking, the handshake, and transport decryption.

    The cryptographic primitives are parameters; `Peers` adds what only the two
    honest parties can compute, and `Sound` says that opening undoes sealing.
 */
module Noise {
  import opened Bytes
  import opened Framing

  type SymState = seq<byte>
  type Key = seq<byte>

  datatype Crypto = Crypto(
    start: SymState,
    mixHash: (SymState, seq<byte>) -> SymState,
    mixSecret: (SymState, seq<byte>) -> SymState,
    open: (SymState, seq<byte>) -> Option<(SymState, seq<byte>)>,
    split: SymState -> (Key, Key),
    decrypt: (Key, nat, seq<byte>) -> Option<seq<byte>>,
    dh: (seq<byte>, seq<byte>) -> Option<seq<byte>>)

  /** Decryption works in place: a 16-byte tag goes, every other byte stays. */
  ghost predicate InPlace(c: Crypto) {
    && (forall st: SymState, s: seq<byte> :: c.open(st, s).Some? ==> |c.open(st, s).value.1| + 16 == |s|)
    && (forall k: Key, n: nat, s: seq<byte> :: c.decrypt(k, n, s).Some? ==> |c.decrypt(k, n, s).value| + 16 == |s|)
  }

  // ---------------------------------------------------------------- chunking

  /** Each Noise message is preceded by its length as a big-endian 16-bit number. */
  function ChunkSize(s: seq<byte>): Option<pos> {
    if |s| < 2 then None else Some(ChunkLength(s))
  }

  function ChunkLength(s: seq<byte>): (n: pos)
    requires |s| >= 2
  {
    var hi: int, lo: int := s[0], s[1];
    2 + 256 * hi + lo
  }

  lemma ChunkSizeStable()
    ensures PrefixStable(ChunkSize) && !HasFrame(ChunkSize, [])
  {
  }

  // ------------------------------------------------------------ state machine

  datatype Cipher = Cipher(key: Key, nonce: nat)

  datatype Machine =
    | Start
    | First(st: SymState, iEpk: seq<byte>)
    | Second(st: SymState, rEpk: seq<byte>)
    | Transport(initiator: Cipher, responder: Cipher)

  datatype Noise = Noise(
    machine: Machine,
    initiatorIncoming: bool,
    error: bool,
    decrypted: nat,
    failed: nat,
    storedIn: nat,
    storedOut: nat)

  datatype Outcome =
    | FirstOk
    | SecondOk(payload: seq<byte>)
    | ThirdOk(payload: seq<byte>)
    | Data(payload: seq<byte>)
    | Failed

  /** Whether the other layers agreed on Noise is known when the state is created. */
  function Fresh(named: bool): Noise {
    Noise(Start, false, !named, 0, 0, 0, 0)
  }

  /** One message, as the observer understands it: the next machine and the cleartext. */
  function Receive(c: Crypto, m: Machine, fromInitiator: bool, frame: seq<byte>): Option<(Machine, Outcome)> {
    match m
    case Start =>
      if |frame| != 34 then None else
      var iEpk := frame[2..34];
      Some((First(c.mixHash(c.mixHash(c.mixHash(c.start, []), iEpk), []), iEpk), FirstOk))
    case First(st, iEpk) =>
      if |frame| < 98 then None else
      var rEpk := frame[2..34];
      var ee :- c.dh(rEpk, iEpk);
      var (st1, rSpk) :- c.open(c.mixSecret(c.mixHash(st, rEpk), ee), frame[34..82]);
      var es :- c.dh(rSpk, iEpk);
      var (st2, payload) :- c.open(c.mixSecret(st1, es), frame[82..]);
      Some((Second(st2, rEpk), SecondOk(payload)))
    case Second(st, rEpk) =>
      if |frame| < 98 then None else
      var (st1, iSpk) :- c.open(st, frame[2..50]);
      var se :- c.dh(iSpk, rEpk);
      var (st2, payload) :- c.open(c.mixSecret(st1, se), frame[50..]);
      var (ki, kr) := c.split(st2);
      Some((Transport(Cipher(ki, 0), Cipher(kr, 0)), ThirdOk(payload)))
    case Transport(i, r) =>
      if |frame| < 18 then None else
      var receiver := if fromInitiator then i else r;
      var text :- c.decrypt(receiver.key, receiver.nonce, frame[2..]);
      var next := Cipher(receiver.key, receiver.nonce + 1);
      Some((if fromInitiator then Transport(next, r) else Transport(i, next), Data(text)))
  }

  /** Cleartext bytes counted for an accepted message. */
  function Clear(o: Outcome): nat {
    match o
    case FirstOk => 0
    case Failed => 0
    case _ => |o.payload|
  }

  function Account(n: Noise, incoming: bool, bytes: nat): Noise {
    if incoming then n.(storedIn := n.storedIn + bytes) else n.(storedOut := n.storedOut + bytes)
  }

  function Fail(n: Noise, incoming: bool, bytes: nat): Noise {
    Account(n.(machine := if n.error then n.machine else Start, error := true, failed := n.failed + bytes),
            incoming, bytes)
  }

  function Step(c: Crypto, n: Noise, incoming: bool, frame: seq<byte>): (Noise, Outcome) {
    if n.error then (Fail(n, incoming, |frame|), Failed) else
    var n' := if n.machine.Start? then n.(initiatorIncoming := incoming) else n;
    match Receive(c, n'.machine, incoming == n'.initiatorIncoming, frame)
    case None => (Fail(n', incoming, |frame|), Failed)
    case Some((m, o)) =>
      (Account(n'.(machine := m, decrypted := n'.decrypted + Clear(o)), incoming, Clear(o)), o)
  }

  function After(c: Crypto, n: Noise, es: seq<Event>): Noise
    decreases es
  {
    if es == [] then n else After(c, Step(c, n, es[0].0, es[0].1).0, es[1..])
  }

  function Outcomes(c: Crypto, n: Noise, es: seq<Event>): (os: seq<Outcome>)
    ensures |os| == |es|
    decreases es
  {
    if es == [] then [] else
    var (n', o) := Step(c, n, es[0].0, es[0].1);
    [o] + Outcomes(c, n', es[1..])
  }

  lemma {:induction false} RunAppend(c: Crypto, n: Noise, a: seq<Event>, b: seq<Event>)
    ensures After(c, n, a + b) == After(c, After(c, n, a), b)
    ensures Outcomes(c, n, a + b) == Outcomes(c, n, a) + Outcomes(c, After(c, n, a), b)
    decreases a
  {
    if a == [] {
      assert a + b == b;
    } else {
      assert (a + b)[1..] == a[1..] + b;
      RunAppend(c, Step(c, n, a[0].0, a[0].1).0, a[1..], b);
    }
  }

  class NoiseState {
    const crypto: Crypto
    var machine: Machine
    var initiatorIncoming: bool
    var error: bool
    var decrypted: nat
    var failed: nat
    var storedIn: nat
    var storedOut: nat

    ghost function View(): Noise
      reads this
    {
      Noise(machine, initiatorIncoming, error, decrypted, failed, storedIn, storedOut)
    }

    constructor (c: Crypto, named: bool)
      ensures View() == Fresh(named) && crypto == c
    {
      crypto := c;
      machine, initiatorIncoming, error := Start, false, !named;
      decrypted, failed, storedIn, storedOut := 0, 0, 0, 0;
    }

    method Update(incoming: bool, bytes: nat)
      modifies this`storedIn, this`storedOut
      ensures View() == Account(old(View()), incoming, bytes)
    {
      if incoming {
        storedIn := storedIn + bytes;
      } else {
        storedOut := storedOut + bytes;
      }
    }

    method OnError(incoming: bool, bytes: nat)
      modifies this
      ensures View() == Account(old(View()).(failed := old(failed) + bytes), incoming, bytes)
    {
      failed := failed + bytes;
      Update(incoming, bytes);
    }

    /** One length-delimited message. */
    method OnData(incoming: bool, frame: seq<byte>) returns (o: Outcome)
      modifies this
      ensures (View(), o) == Step(crypto, old(View()), incoming, frame)
    {
      if error {
        OnError(incoming, |frame|);
        return Failed;
      }
      var taken := machine;
      machine := Start;
      if taken.Start? {
        initiatorIncoming := incoming;
      }
      var r := Receive(crypto, taken, incoming == initiatorIncoming, frame);
      if r.None? {
        error := true;
        OnError(incoming, |frame|);
        return Failed;
      }
      o := r.value.1;
      machine := r.value.0;
      decrypted := decrypted + Clear(o);
      Update(incoming, Clear(o));
    }
  }

  class ChunkState {
    const inner: NoiseState
    var accIncoming: seq<byte>
    var accOutgoing: seq<byte>

    constructor (i: NoiseState)
      ensures inner == i && accIncoming == [] && accOutgoing == []
    {
      inner := i;
      accIncoming, accOutgoing := [], [];
    }

    ghost function Acc(incoming: bool): seq<byte>
      reads this
    {
      if incoming then accIncoming else accOutgoing
    }

    /** Hands over every complete frame of `s` and returns what is left. */
    method Drain(incoming: bool, s: seq<byte>) returns (acc: seq<byte>, os: seq<Outcome>)
      modifies inner
      ensures acc == Residual(ChunkSize, s)
      ensures inner.View() == Rest(inner.crypto, old(inner.View()), incoming, s).0
      ensures os == Rest(inner.crypto, old(inner.View()), incoming, s).1
    {
      hide Rest, Residual, Step;
      acc, os := s, [];
      ghost var start := inner.View();
      while |acc| >= 2 && |acc| >= ChunkLength(acc)
        invariant Residual(ChunkSize, s) == Residual(ChunkSize, acc)
        invariant Rest(inner.crypto, inner.View(), incoming, acc).0 == Rest(inner.crypto, start, incoming, s).0
        invariant os + Rest(inner.crypto, inner.View(), incoming, acc).1 == Rest(inner.crypto, start, incoming, s).1
        decreases |acc|
      {
        var n := ChunkLength(acc);
        RestFirst(inner.crypto, inner.View(), incoming, acc);
        var o := inner.OnData(incoming, acc[..n]);
        os := os + [o];
        acc := acc[n..];
      }
      RestNone(inner.crypto, inner.View(), incoming, acc);
    }

    /** However the bytes arrive, the inner state sees exactly the frames of what
        was left over together with the new bytes. */
    method OnData(incoming: bool, bytes: seq<byte>) returns (os: seq<Outcome>)
      modifies this, inner
      ensures var s := old(Acc(incoming)) + bytes;
              && Acc(incoming) == Residual(ChunkSize, s)
              && Acc(!incoming) == old(Acc(!incoming))
              && inner.View() == Rest(inner.crypto, old(inner.View()), incoming, s).0
              && os == Rest(inner.crypto, old(inner.View()), incoming, s).1
    {
      var acc := if incoming then accIncoming else accOutgoing;
      if acc == [] && |bytes| >= 2 && |bytes| == ChunkLength(bytes) {
        assert acc + bytes == bytes;
        SingleFrame(ChunkSize, bytes);
        RunFirst(inner.crypto, inner.View(), incoming, bytes, []);
        assert [bytes] + [] == [bytes] && Tag(incoming, []) == [];
        var o := inner.OnData(incoming, bytes);
        return [o];
      }
      acc, os := Drain(incoming, acc + bytes);
      if incoming {
        accIncoming := acc;
      } else {
        accOutgoing := acc;
      }
    }
  }

  /** What the complete frames of `acc` do to the inner state, and their outcomes. */
  function Rest(c: Crypto, n: Noise, incoming: bool, acc: seq<byte>): (Noise, seq<Outcome>) {
    var es := Tag(incoming, Frames(ChunkSize, acc));
    (After(c, n, es), Outcomes(c, n, es))
  }

  lemma RestNone(c: Crypto, n: Noise, incoming: bool, acc: seq<byte>)
    requires !HasFrame(ChunkSize, acc)
    ensures Rest(c, n, incoming, acc) == (n, []) && Residual(ChunkSize, acc) == acc
  {
  }

  lemma RestFirst(c: Crypto, n: Noise, incoming: bool, acc: seq<byte>)
    requires HasFrame(ChunkSize, acc)
    ensures var k := ChunkLength(acc);
            var (n', o) := Step(c, n, incoming, acc[..k]);
            && Rest(c, n, incoming, acc).0 == Rest(c, n', incoming, acc[k..]).0
            && Rest(c, n, incoming, acc).1 == [o] + Rest(c, n', incoming, acc[k..]).1
            && Residual(ChunkSize, acc) == Residual(ChunkSize, acc[k..])
  {
    hide Step;
    var k := ChunkLength(acc);
    RunFirst(c, n, incoming, acc[..k], Frames(ChunkSize, acc[k..]));
  }

  lemma RunFirst(c: Crypto, n: Noise, incoming: bool, f: seq<byte>, fs: seq<seq<byte>>)
    ensures var (n', o) := Step(c, n, incoming, f);
            && After(c, n, Tag(incoming, [f] + fs)) == After(c, n', Tag(incoming, fs))
            && Outcomes(c, n, Tag(incoming, [f] + fs)) == [o] + Outcomes(c, n', Tag(incoming, fs))
  {
    assert Tag(incoming, [f] + fs)[1..] == Tag(incoming, fs);
  }

  // ------------------------------------------------------------ conservation

  function Total(es: seq<Event>): nat {
    if es == [] then 0 else |es[0].1| + Total(es[1..])
  }

  /** Bytes of an accepted message that are not cleartext. */
  function Overhead(o: Outcome): nat {
    match o
    case FirstOk => 34
    case SecondOk(_) => 98
    case ThirdOk(_) => 66
    case Data(_) => 18
    case Failed => 0
  }

  function TotalOverhead(os: seq<Outcome>): nat {
    if os == [] then 0 else Overhead(os[0]) + TotalOverhead(os[1..])
  }

  lemma StepConserves(c: Crypto, n: Noise, incoming: bool, frame: seq<byte>)
    requires InPlace(c)
    ensures var (n', o) := Step(c, n, incoming, frame);
            && n.decrypted + n.failed + |frame| == n'.decrypted + n'.failed + Overhead(o)
            && n'.storedIn + n'.storedOut - n.storedIn - n.storedOut
               == n'.decrypted + n'.failed - n.decrypted - n.failed
  {
  }

  /** Every byte is counted once: as cleartext, as failed, or as the fixed overhead
      of an accepted message; the stored total is cleartext plus failed. */
  lemma {:induction false} Conservation(c: Crypto, n: Noise, es: seq<Event>)
    requires InPlace(c)
    ensures var n' := After(c, n, es);
            && n.decrypted + n.failed + Total(es)
               == n'.decrypted + n'.failed + TotalOverhead(Outcomes(c, n, es))
            && n'.storedIn + n'.storedOut - n.storedIn - n.storedOut
               == n'.decrypted + n'.failed - n.decrypted - n.failed
    decreases es
  {
    if es != [] {
      StepConserves(c, n, es[0].0, es[0].1);
      Conservation(c, Step(c, n, es[0].0, es[0].1).0, es[1..]);
    }
  }

  /** What is left of the messages that `counts` admits, without the overhead of the accepted
      ones. */
  ghost function Remaining(es: seq<Event>, os: seq<Outcome>, counts: (bool, bool) -> bool): int
    requires |es| == |os|
    decreases es
  {
    if es == [] then 0 else
    (if counts(es[0].0, os[0].Failed?) then |es[0].1| - Overhead(os[0]) else 0) + Remaining(es[1..], os[1..], counts)
  }

  ghost function Incoming(): (bool, bool) -> bool { (incoming, failed) => incoming }

  ghost function Outgoing(): (bool, bool) -> bool { (incoming, failed) => !incoming }

  ghost function Accepting(): (bool, bool) -> bool { (incoming, failed) => !failed }

  ghost function Failing(): (bool, bool) -> bool { (incoming, failed) => failed }

  /** Each counter by itself: the stored totals count the messages of their own direction, and
      the other two the accepted and the failed ones. */
  lemma {:induction false} CountersAreOutcomes(c: Crypto, n: Noise, es: seq<Event>)
    requires InPlace(c)
    ensures var n', os := After(c, n, es), Outcomes(c, n, es);
            && n'.storedIn == n.storedIn + Remaining(es, os, Incoming())
            && n'.storedOut == n.storedOut + Remaining(es, os, Outgoing())
            && n'.decrypted == n.decrypted + Remaining(es, os, Accepting())
            && n'.failed == n.failed + Remaining(es, os, Failing())
    decreases es
  {
    if es != [] {
      StepCounts(c, n, es[0].0, es[0].1);
      hide Step;
      CountersAreOutcomes(c, Step(c, n, es[0].0, es[0].1).0, es[1..]);
      assert Outcomes(c, n, es)[1..] == Outcomes(c, Step(c, n, es[0].0, es[0].1).0, es[1..]);
    }
  }

  lemma StepCounts(c: Crypto, n: Noise, incoming: bool, frame: seq<byte>)
    requires InPlace(c)
    ensures var (n', o) := Step(c, n, incoming, frame);
            var bytes := |frame| - Overhead(o);
            && n'.storedIn == n.storedIn + (if incoming then bytes else 0)
            && n'.storedOut == n.storedOut + (if incoming then 0 else bytes)
            && n'.decrypted == n.decrypted + (if o.Failed? then 0 else bytes)
            && n'.failed == n.failed + (if o.Failed? then bytes else 0)
  {
    StepConserves(c, n, incoming, frame);
    hide Receive;
  }

  function Rank(m: Machine): nat {
    match m case Start => 0 case First(_, _) => 1 case Second(_, _) => 2 case Transport(_, _) => 3
  }

  predicate KindAt(i: nat, o: Outcome) {
    match o
    case FirstOk => i == 0
    case SecondOk(_) => i == 1
    case ThirdOk(_) => i == 2
    case Data(_) => i >= 3
    case Failed => true
  }

  /** From message number `k` on, the handshake in order and then data. */
  predicate InOrder(os: seq<Outcome>, k: nat) {
    forall i :: 0 <= i < |os| ==> KindAt(k + i, os[i])
  }

  predicate AllFailed(os: seq<Outcome>) {
    forall i :: 0 <= i < |os| ==> os[i].Failed?
  }

  predicate FailureSticks(os: seq<Outcome>) {
    forall i :: 0 <= i < |os| && os[i].Failed? ==> AllFailed(os[i..])
  }

  lemma StepShape(c: Crypto, n: Noise, incoming: bool, frame: seq<byte>, k: nat)
    requires n.error || Rank(n.machine) == (if k < 3 then k else 3)
    ensures var (n', o) := Step(c, n, incoming, frame);
            && KindAt(k, o) && (n.error ==> o.Failed?) && (n'.error <==> o.Failed?)
            && (n'.error || Rank(n'.machine) == (if k + 1 < 3 then k + 1 else 3))
  {
  }

  /** A run is the handshake in order, then data, and once a message has failed
      nothing is accepted any more: the machine never starts again. */
  lemma {:induction false} RunShape(c: Crypto, n: Noise, es: seq<Event>, k: nat)
    requires n.error || Rank(n.machine) == (if k < 3 then k else 3)
    ensures InOrder(Outcomes(c, n, es), k)
    ensures FailureSticks(Outcomes(c, n, es))
    ensures n.error ==> AllFailed(Outcomes(c, n, es))
    ensures After(c, n, es).error <==> n.error || Failed in Outcomes(c, n, es)
    decreases es
  {
    if es != [] {
      var n', o := Step(c, n, es[0].0, es[0].1).0, Step(c, n, es[0].0, es[0].1).1;
      StepShape(c, n, es[0].0, es[0].1, k);
      hide Step, Rank;
      RunShape(c, n', es[1..], k + 1);
      var rest := Outcomes(c, n', es[1..]);
      assert Outcomes(c, n, es) == [o] + rest;
      hide InOrder, FailureSticks, AllFailed, KindAt;
      InOrderFirst(o, rest, k);
      FailureFirst(o, rest);
    }
  }

  lemma InOrderFirst(o: Outcome, rest: seq<Outcome>, k: nat)
    requires KindAt(k, o) && InOrder(rest, k + 1)
    ensures InOrder([o] + rest, k)
  {
    var os := [o] + rest;
    forall i | 0 <= i < |os|
      ensures KindAt(k + i, os[i])
    {
      if i > 0 {
        assert KindAt(k + 1 + (i - 1), rest[i - 1]);
      }
    }
  }

  lemma FailureFirst(o: Outcome, rest: seq<Outcome>)
    requires FailureSticks(rest) && (o.Failed? ==> AllFailed(rest))
    ensures FailureSticks([o] + rest) && (AllFailed([o] + rest) <==> o.Failed? && AllFailed(rest))
  {
    var os := [o] + rest;
    forall i | 0 <= i < |os| && os[i].Failed?
      ensures AllFailed(os[i..])
    {
      if i > 0 {
        assert os[i..] == rest[i - 1..];
        assert rest[i - 1].Failed?;
      }
    }
    assert AllFailed(os) ==> o.Failed? && AllFailed(rest) by {
      assert forall i :: 0 <= i < |rest| ==> rest[i] == os[i + 1];
      assert os[0] == o;
    }
  }

  /** After the first failure every later byte is counted as failed. */
  lemma {:induction false} FailureIsFinal(c: Crypto, n: Noise, es: seq<Event>)
    requires n.error
    ensures After(c, n, es).failed == n.failed + Total(es)
    ensures After(c, n, es).decrypted == n.decrypted
    decreases es
  {
    if es != [] {
      FailureIsFinal(c, Step(c, n, es[0].0, es[0].1).0, es[1..]);
    }
  }

  // ------------------------------------------------------------- two peers

  /** What the honest parties compute. */
  datatype Peers = Peers(
    seal: (SymState, seq<byte>) -> (SymState, seq<byte>),
    encrypt: (Key, nat, seq<byte>) -> seq<byte>)

  /** Opening undoes sealing in the same state, decryption undoes encryption under
      the same key and nonce, and a tag is 16 bytes. */
  ghost predicate Sound(c: Crypto, p: Peers) {
    && (forall st: SymState, s: seq<byte> ::
          |p.seal(st, s).1| == |s| + 16 && c.open(st, p.seal(st, s).1) == Some((p.seal(st, s).0, s)))
    && (forall k: Key, n: nat, s: seq<byte> ::
          |p.encrypt(k, n, s)| == |s| + 16 && c.decrypt(k, n, p.encrypt(k, n, s)) == Some(s))
  }

  /** One XX session: public keys, the three shared secrets and the two payloads. */
  datatype Session = Session(
    iEpk: seq<byte>, rEpk: seq<byte>, iSpk: seq<byte>, rSpk: seq<byte>,
    ee: seq<byte>, es: seq<byte>, se: seq<byte>,
    payload2: seq<byte>, payload3: seq<byte>)

  predicate WellSized(x: Session) {
    && |x.iEpk| == |x.rEpk| == |x.iSpk| == |x.rSpk| == 32
    && 96 + |x.payload2| < 65536 && 64 + |x.payload3| < 65536
  }

  /** The observer knows enough secret keys to derive the shared secrets. */
  predicate KeysKnown(c: Crypto, x: Session) {
    && c.dh(x.rEpk, x.iEpk) == Some(x.ee)
    && c.dh(x.rSpk, x.iEpk) == Some(x.es)
    && c.dh(x.iSpk, x.rEpk) == Some(x.se)
  }

  function Framed(body: seq<byte>): seq<byte> {
    [|body| / 256 % 256, |body| % 256] + body
  }

  lemma FramedIsFrame(body: seq<byte>)
    requires |body| < 65536
    ensures ChunkSize(Framed(body)) == Some(|Framed(body)|)
    ensures Framed(body)[2..] == body
  {
  }

  // Message patterns of XX:  -> e   <- e, ee, s, es   -> s, se

  function Hello(c: Crypto, x: Session): SymState {
    c.mixHash(c.mixHash(c.mixHash(c.start, []), x.iEpk), [])
  }

  function Reply(c: Crypto, p: Peers, x: Session): (SymState, seq<byte>) {
    var (st1, s) := p.seal(c.mixSecret(c.mixHash(Hello(c, x), x.rEpk), x.ee), x.rSpk);
    var (st2, payload) := p.seal(c.mixSecret(st1, x.es), x.payload2);
    (st2, x.rEpk + s + payload)
  }

  function Final(c: Crypto, p: Peers, x: Session): (SymState, seq<byte>) {
    var (st1, s) := p.seal(Reply(c, p, x).0, x.iSpk);
    var (st2, payload) := p.seal(c.mixSecret(st1, x.se), x.payload3);
    (st2, s + payload)
  }

  lemma MessageSizes(c: Crypto, p: Peers, x: Session)
    requires Sound(c, p) && WellSized(x)
    ensures |Reply(c, p, x).1| == 96 + |x.payload2|
    ensures |Final(c, p, x).1| == 64 + |x.payload3|
  {
  }

  /** The three handshake messages on the wire. */
  function Handshake(c: Crypto, p: Peers, x: Session, initiator: bool): (es: seq<Event>)
    ensures |es| == 3
  {
    [(initiator, Framed(x.iEpk)), (!initiator, Framed(Reply(c, p, x).1)), (initiator, Framed(Final(c, p, x).1))]
  }

  lemma ReceiveReply(c: Crypto, p: Peers, x: Session)
    requires Sound(c, p) && WellSized(x) && KeysKnown(c, x)
    ensures |Reply(c, p, x).1| < 65536
    ensures Receive(c, First(Hello(c, x), x.iEpk), false, Framed(Reply(c, p, x).1))
            == Some((Second(Reply(c, p, x).0, x.rEpk), SecondOk(x.payload2)))
  {
    MessageSizes(c, p, x);
    var body := Reply(c, p, x).1;
    var frame := Framed(body);
    var (st1, s) := p.seal(c.mixSecret(c.mixHash(Hello(c, x), x.rEpk), x.ee), x.rSpk);
    var (st2, payload) := p.seal(c.mixSecret(st1, x.es), x.payload2);
    assert frame[2..34] == x.rEpk;
    assert frame[34..82] == s;
    assert frame[82..] == payload;
  }

  /** The observer insists on 98 bytes for the third message although its fixed part
      is 66 bytes, so it follows the peers exactly when the payload has 32 or more. */
  lemma ReceiveFinal(c: Crypto, p: Peers, x: Session)
    requires Sound(c, p) && WellSized(x) && KeysKnown(c, x)
    ensures |Final(c, p, x).1| < 65536
    ensures var (ki, kr) := c.split(Final(c, p, x).0);
            Receive(c, Second(Reply(c, p, x).0, x.rEpk), true, Framed(Final(c, p, x).1))
            == if |x.payload3| < 32 then None else
               Some((Transport(Cipher(ki, 0), Cipher(kr, 0)), ThirdOk(x.payload3)))
  {
    MessageSizes(c, p, x);
    var frame := Framed(Final(c, p, x).1);
    var (st1, s) := p.seal(Reply(c, p, x).0, x.iSpk);
    var (st2, payload) := p.seal(c.mixSecret(st1, x.se), x.payload3);
    assert frame[2..50] == s;
    assert frame[50..] == payload;
  }

  /** The observer of an honest handshake ends in transport with the peers' own keys
      if and only if the third payload has at least 32 bytes. */
  lemma HandshakeObserved(c: Crypto, p: Peers, x: Session, initiator: bool)
    requires Sound(c, p) && WellSized(x) && KeysKnown(c, x)
    ensures var n := After(c, Fresh(true), Handshake(c, p, x, initiator));
            var (ki, kr) := c.split(Final(c, p, x).0);
            && (|x.payload3| >= 32 ==>
                  && n.machine == Transport(Cipher(ki, 0), Cipher(kr, 0))
                  && !n.error && n.initiatorIncoming == initiator)
            && (|x.payload3| < 32 ==> n.error)
  {
    ReceiveReply(c, p, x);
    ReceiveFinal(c, p, x);
    var es := Handshake(c, p, x, initiator);
    var n0 := Fresh(true);
    var hello := Framed(x.iEpk);
    assert hello[2..34] == x.iEpk;
    var n1 := Step(c, n0, es[0].0, es[0].1).0;
    assert n1.machine == First(Hello(c, x), x.iEpk) && n1.initiatorIncoming == initiator && !n1.error;
    var n2 := Step(c, n1, es[1].0, es[1].1).0;
    assert n2.machine == Second(Reply(c, p, x).0, x.rEpk) && n2.initiatorIncoming == initiator && !n2.error;
    var n3 := Step(c, n2, es[2].0, es[2].1).0;
    ThreeSteps(c, n0, es[0], es[1], es[2]);
    assert es == [es[0], es[1], es[2]];
  }

  lemma ThreeSteps(c: Crypto, n: Noise, a: Event, b: Event, d: Event)
    ensures var n1 := Step(c, n, a.0, a.1).0;
            var n2 := Step(c, n1, b.0, b.1).0;
            After(c, n, [a, b, d]) == Step(c, n2, d.0, d.1).0
  {
    var n1 := Step(c, n, a.0, a.1).0;
    var n2 := Step(c, n1, b.0, b.1).0;
    assert [a, b, d][1..] == [b, d] && [b, d][1..] == [d] && [d][1..] == [];
    assert After(c, n2, [d]) == Step(c, n2, d.0, d.1).0;
    assert After(c, n1, [b, d]) == After(c, n2, [d]);
  }

  // ---------------------------------------------------------------- transport

  /** The wire form of `texts`: the k-th message uses the k-th nonce. */
  function Wire(p: Peers, k: Cipher, texts: seq<seq<byte>>): seq<seq<byte>>
    decreases texts
  {
    if texts == [] then [] else
    [Framed(p.encrypt(k.key, k.nonce, texts[0]))] + Wire(p, Cipher(k.key, k.nonce + 1), texts[1..])
  }

  predicate Sendable(texts: seq<seq<byte>>) {
    forall i :: 0 <= i < |texts| ==> |texts[i]| + 16 < 65536
  }

  /** The transport cleartexts delivered for one direction. */
  function Delivered(d: bool, es: seq<Event>, os: seq<Outcome>): seq<seq<byte>>
    requires |es| == |os|
  {
    if es == [] then [] else
    (if es[0].0 == d && os[0].Data? then [os[0].payload] else []) + Delivered(d, es[1..], os[1..])
  }

  lemma DeliveredFirst(d: bool, es: seq<Event>, os: seq<Outcome>)
    requires |es| == |os| && es != [] && os[0].Data?
    ensures Delivered(d, es, os) ==
            if es[0].0 == d then [os[0].payload] + Delivered(d, es[1..], os[1..]) else Delivered(d, es[1..], os[1..])
  {
  }

  lemma {:induction false} DeliveredAppend(d: bool, a: seq<Event>, b: seq<Event>, oa: seq<Outcome>, ob: seq<Outcome>)
    requires |a| == |oa| && |b| == |ob|
    ensures Delivered(d, a + b, oa + ob) == Delivered(d, a, oa) + Delivered(d, b, ob)
    decreases a
  {
    if a == [] {
      assert a + b == b && oa + ob == ob;
    } else {
      assert (a + b)[1..] == a[1..] + b && (oa + ob)[1..] == oa[1..] + ob;
      DeliveredAppend(d, a[1..], b, oa[1..], ob);
    }
  }

  /** In transport, whatever the interleaving, each direction's cleartexts come out
      in order. */
  lemma {:induction false} TransportRun(
    c: Crypto, p: Peers, n: Noise, es: seq<Event>, fromI: seq<seq<byte>>, fromR: seq<seq<byte>>)
    requires Sound(c, p) && !n.error && n.machine.Transport?
    requires Sendable(fromI) && Sendable(fromR)
    requires Select(n.initiatorIncoming, es) == Wire(p, n.machine.initiator, fromI)
    requires Select(!n.initiatorIncoming, es) == Wire(p, n.machine.responder, fromR)
    ensures var os := Outcomes(c, n, es);
            && !After(c, n, es).error
            && Delivered(n.initiatorIncoming, es, os) == fromI
            && Delivered(!n.initiatorIncoming, es, os) == fromR
    decreases es
  {
    if es == [] {
      assert |Wire(p, n.machine.initiator, fromI)| == 0;
    } else {
      hide Step, Receive, Wire, Sound, Sendable, Select, Delivered;
      var text, fromI', fromR' := TransportHead(c, p, n, es, fromI, fromR);
      var n' := Step(c, n, es[0].0, es[0].1).0;
      TransportRun(c, p, n', es[1..], fromI', fromR');
      var os := Outcomes(c, n, es);
      assert os[0] == Data(text) && os[1..] == Outcomes(c, n', es[1..]);
      DeliveredFirst(n.initiatorIncoming, es, os);
      DeliveredFirst(!n.initiatorIncoming, es, os);
    }
  }

  lemma TransportHead(
    c: Crypto, p: Peers, n: Noise, es: seq<Event>, fromI: seq<seq<byte>>, fromR: seq<seq<byte>>)
    returns (text: seq<byte>, fromI': seq<seq<byte>>, fromR': seq<seq<byte>>)
    requires Sound(c, p) && !n.error && n.machine.Transport? && es != []
    requires Sendable(fromI) && Sendable(fromR)
    requires Select(n.initiatorIncoming, es) == Wire(p, n.machine.initiator, fromI)
    requires Select(!n.initiatorIncoming, es) == Wire(p, n.machine.responder, fromR)
    ensures var (n', o) := Step(c, n, es[0].0, es[0].1);
            && o == Data(text) && !n'.error && n'.machine.Transport?
            && n'.initiatorIncoming == n.initiatorIncoming
            && Sendable(fromI') && Sendable(fromR')
            && Select(n.initiatorIncoming, es[1..]) == Wire(p, n'.machine.initiator, fromI')
            && Select(!n.initiatorIncoming, es[1..]) == Wire(p, n'.machine.responder, fromR')
    ensures fromI == (if es[0].0 == n.initiatorIncoming then [text] + fromI' else fromI')
    ensures fromR == (if es[0].0 == n.initiatorIncoming then fromR' else [text] + fromR')
  {
    hide Receive, Framed, Step, Sound, Select, Wire;
    var (d, frame) := es[0];
    var first := d == n.initiatorIncoming;
    var mine := if first then fromI else fromR;
    var k := if first then n.machine.initiator else n.machine.responder;
    SelectFirst(d, es);
    SelectFirst(!d, es);
    WireFirst(p, k, mine);
    text := mine[0];
    TransportStep(c, p, n, d, frame, text);
    assert Wire(p, k, mine)[1..] == Select(d, es[1..]);
    assert mine == [text] + mine[1..];
    fromI' := if first then mine[1..] else fromI;
    fromR' := if first then fromR else mine[1..];
  }

  lemma SelectFirst(d: bool, es: seq<Event>)
    requires es != []
    ensures Select(d, es) == (if es[0].0 == d then [es[0].1] + Select(d, es[1..]) else Select(d, es[1..]))
  {
  }

  lemma WireFirst(p: Peers, k: Cipher, texts: seq<seq<byte>>)
    requires Wire(p, k, texts) != []
    ensures texts != []
    ensures Wire(p, k, texts)[0] == Framed(p.encrypt(k.key, k.nonce, texts[0]))
    ensures Wire(p, k, texts)[1..] == Wire(p, Cipher(k.key, k.nonce + 1), texts[1..])
  {
  }

  lemma TransportStep(c: Crypto, p: Peers, n: Noise, d: bool, frame: seq<byte>, text: seq<byte>)
    requires Sound(c, p) && !n.error && n.machine.Transport? && |text| + 16 < 65536
    requires var k := if d == n.initiatorIncoming then n.machine.initiator else n.machine.responder;
             frame == Framed(p.encrypt(k.key, k.nonce, text))
    ensures var (n', o) := Step(c, n, d, frame);
            var k := if d == n.initiatorIncoming then n.machine.initiator else n.machine.responder;
            var k' := Cipher(k.key, k.nonce + 1);
            && o == Data(text) && !n'.error && n'.initiatorIncoming == n.initiatorIncoming
            && n'.machine == if d == n.initiatorIncoming then Transport(k', n.machine.responder)
                                                         else Transport(n.machine.initiator, k')
  {
    var k := if d == n.initiatorIncoming then n.machine.initiator else n.machine.responder;
    FramedIsFrame(p.encrypt(k.key, k.nonce, text));
  }

  lemma {:induction false} WireIsFrames(c: Crypto, p: Peers, k: Cipher, texts: seq<seq<byte>>)
    requires Sound(c, p) && Sendable(texts)
    ensures AllFrames(ChunkSize, Wire(p, k, texts))
    decreases texts
  {
    if texts != [] {
      FramedIsFrame(p.encrypt(k.key, k.nonce, texts[0]));
      WireIsFrames(c, p, Cipher(k.key, k.nonce + 1), texts[1..]);
    }
  }

  /** The observer reads what the peers wrote: for every chunking of the two streams
      and every interleaving in which the three handshake messages complete first,
      each party's cleartexts are delivered exactly, in order. */
  lemma ObserverReadsBothSides(
    c: Crypto, p: Peers, x: Session, initiator: bool,
    chunks: seq<Event>, fromI: seq<seq<byte>>, fromR: seq<seq<byte>>)
    requires Sound(c, p) && WellSized(x) && KeysKnown(c, x) && |x.payload3| >= 32
    requires Sendable(fromI) && Sendable(fromR)
    requires var hs := Handshake(c, p, x, initiator);
             var (ki, kr) := c.split(Final(c, p, x).0);
             && hs <= Events(ChunkSize, Both([], []), chunks)
             && Stream(initiator, chunks) == Flatten([hs[0].1, hs[2].1] + Wire(p, Cipher(ki, 0), fromI))
             && Stream(!initiator, chunks) == Flatten([hs[1].1] + Wire(p, Cipher(kr, 0), fromR))
    ensures var es := Events(ChunkSize, Both([], []), chunks);
            var os := Outcomes(c, Fresh(true), es);
            && !After(c, Fresh(true), es).error
            && Delivered(initiator, es, os) == fromI
            && Delivered(!initiator, es, os) == fromR
  {
    var hs := Handshake(c, p, x, initiator);
    var (ki, kr) := c.split(Final(c, p, x).0);
    var es := Events(ChunkSize, Both([], []), chunks);
    var rest := es[3..];
    assert es == hs + rest;
    var wi, wr := Wire(p, Cipher(ki, 0), fromI), Wire(p, Cipher(kr, 0), fromR);
    HandshakeIsFrames(c, p, x, initiator);
    WireIsFrames(c, p, Cipher(ki, 0), fromI);
    WireIsFrames(c, p, Cipher(kr, 0), fromR);
    HandshakeSelects(c, p, x, initiator);
    TransportFrames(initiator, chunks, hs, [hs[0].1, hs[2].1], wi);
    TransportFrames(!initiator, chunks, hs, [hs[1].1], wr);
    HandshakeObserved(c, p, x, initiator);
    var n := After(c, Fresh(true), hs);
    TransportRun(c, p, n, rest, fromI, fromR);
    RunAppend(c, Fresh(true), hs, rest);
    RunShape(c, Fresh(true), hs, 0);
    DeliveredAfter(c, hs, rest, initiator);
    DeliveredAfter(c, hs, rest, !initiator);
  }

  lemma TransportFrames(d: bool, chunks: seq<Event>, hs: seq<Event>, first: seq<seq<byte>>, wire: seq<seq<byte>>)
    requires AllFrames(ChunkSize, first) && AllFrames(ChunkSize, wire)
    requires Stream(d, chunks) == Flatten(first + wire)
    requires hs <= Events(ChunkSize, Both([], []), chunks) && Select(d, hs) == first
    ensures Select(d, Events(ChunkSize, Both([], []), chunks)[|hs|..]) == wire
  {
    hide *;
    var es := Events(ChunkSize, Both([], []), chunks);
    ChunkSizeStable();
    AllFramesAppend(ChunkSize, first, wire);
    EventsOfFlatten(ChunkSize, d, chunks, first + wire);
    SelectAppend(d, hs, es[|hs|..]);
    assert es == hs + es[|hs|..];
    assert (first + wire)[|first|..] == wire;
  }

  lemma DeliveredAfter(c: Crypto, hs: seq<Event>, rest: seq<Event>, d: bool)
    requires |hs| == 3
    ensures var n := After(c, Fresh(true), hs);
            Delivered(d, hs + rest, Outcomes(c, Fresh(true), hs) + Outcomes(c, n, rest))
            == Delivered(d, rest, Outcomes(c, n, rest))
  {
    var ho := Outcomes(c, Fresh(true), hs);
    RunShape(c, Fresh(true), hs, 0);
    assert KindAt(0 + 0, ho[0]) && KindAt(0 + 1, ho[1]) && KindAt(0 + 2, ho[2]);
    NothingDelivered(d, hs, ho);
    DeliveredAppend(d, hs, rest, ho, Outcomes(c, After(c, Fresh(true), hs), rest));
  }

  lemma HandshakeSelects(c: Crypto, p: Peers, x: Session, initiator: bool)
    requires Sound(c, p) && WellSized(x)
    ensures var hs := Handshake(c, p, x, initiator);
            && Select(initiator, hs) == [hs[0].1, hs[2].1]
            && Select(!initiator, hs) == [hs[1].1]
  {
    var hs := Handshake(c, p, x, initiator);
    assert hs == Tag(initiator, [hs[0].1]) + (Tag(!initiator, [hs[1].1]) + Tag(initiator, [hs[2].1]));
    SelectAppend(initiator, Tag(initiator, [hs[0].1]), Tag(!initiator, [hs[1].1]) + Tag(initiator, [hs[2].1]));
    SelectAppend(!initiator, Tag(initiator, [hs[0].1]), Tag(!initiator, [hs[1].1]) + Tag(initiator, [hs[2].1]));
    SelectAppend(initiator, Tag(!initiator, [hs[1].1]), Tag(initiator, [hs[2].1]));
    SelectAppend(!initiator, Tag(!initiator, [hs[1].1]), Tag(initiator, [hs[2].1]));
    SelectTag(initiator, initiator, [hs[0].1]);
    SelectTag(initiator, initiator, [hs[2].1]);
    SelectTag(initiator, !initiator, [hs[1].1]);
    SelectTag(!initiator, initiator, [hs[0].1]);
    SelectTag(!initiator, initiator, [hs[2].1]);
    SelectTag(!initiator, !initiator, [hs[1].1]);
  }

  lemma HandshakeIsFrames(c: Crypto, p: Peers, x: Session, initiator: bool)
    requires Sound(c, p) && WellSized(x)
    ensures var hs := Handshake(c, p, x, initiator);
            && AllFrames(ChunkSize, [hs[0].1, hs[2].1])
            && AllFrames(ChunkSize, [hs[1].1])
  {
    MessageSizes(c, p, x);
    FramedIsFrame(x.iEpk);
    FramedIsFrame(Reply(c, p, x).1);
    FramedIsFrame(Final(c, p, x).1);
  }

  lemma {:induction false} NothingDelivered(d: bool, es: seq<Event>, os: seq<Outcome>)
    requires |es| == |os| && forall i :: 0 <= i < |os| ==> !os[i].Data?
    ensures Delivered(d, es, os) == []
    decreases es
  {
    if es != [] {
      NothingDelivered(d, es[1..], os[1..]);
    }
  }
}
