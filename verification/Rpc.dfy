/** RPC streams: responses are stored with the tag and version of the query they answer. */
module Rpc {
  import opened Bytes
  import opened Framing
  import Accumulator

  datatype Header = Header(tag: seq<byte>, version: int)

  datatype MessageHeader = Heartbeat | Query(header: Header, id: int) | Response(id: int)

  /** Reading and writing of message headers; reading gives the header and its length. */
  datatype Codec = Codec(
    read: seq<byte> -> Option<(MessageHeader, nat)>,
    write: (Header, int) -> seq<byte>)

  const MENU_ID: int := 4411474

  type Pending = map<int, Header>

  datatype Outcome = Nothing | Emit(bytes: seq<byte>) | ResponseWithoutRequest(id: int)

  /** An 8-byte little-endian length and as many bytes. */
  function MsgSize(s: seq<byte>): Option<pos> {
    if |s| < 8 then None else Some(8 + FromLe(s[..8]))
  }

  lemma MsgSizeStable()
    ensures PrefixStable(MsgSize) && !HasFrame(MsgSize, [])
  {
    forall s: seq<byte>, t: seq<byte> | MsgSize(s).Some?
      ensures MsgSize(s + t) == MsgSize(s)
    {
      assert (s + t)[..8] == s[..8];
    }
  }

  function HeaderOf(c: Codec, msg: seq<byte>): Option<MessageHeader>
    requires |msg| >= 8
  {
    var (h, _) :- c.read(msg[8..]);
    Some(h)
  }

  /** What follows the header. */
  function Payload(c: Codec, msg: seq<byte>): seq<byte>
    requires |msg| >= 8
  {
    match c.read(msg[8..])
    case None => []
    case Some((_, n)) => msg[8..][if n < |msg| - 8 then n else |msg| - 8..]
  }

  /** The stored form of a response: length, the response marker, the query header, payload. */
  function Rewritten(c: Codec, h: Header, id: int, payload: seq<byte>): seq<byte> {
    var body := [2] + c.write(h, id) + payload;
    ToLe(|body|, 8) + body
  }

  function Remembered(pending: Pending, h: Option<MessageHeader>): Pending {
    match h
    case Some(Query(header, id)) => pending[id := header]
    case Some(Response(id)) => pending - {id}
    case _ => pending
  }

  function Processed(c: Codec, pending: Pending, msg: seq<byte>): Outcome
    requires |msg| >= 8
  {
    match HeaderOf(c, msg)
    case None => Nothing
    case Some(Heartbeat) => Nothing
    case Some(Query(_, _)) => Emit(msg)
    case Some(Response(id)) =>
      if id in pending then Emit(Rewritten(c, pending[id], id, Payload(c, msg)))
      else if id != MENU_ID then ResponseWithoutRequest(id)
      else Nothing
  }

  // -------------------------------------------------------------------- history

  type History = seq<Option<MessageHeader>>

  function PendingAfter(pending: Pending, h: History): Pending {
    if h == [] then pending else Remembered(PendingAfter(pending, h[..|h| - 1]), h[|h| - 1])
  }

  predicate Touches(h: Option<MessageHeader>, id: int) {
    h.Some? && !h.value.Heartbeat? && h.value.id == id
  }

  /** Message `j` is the latest query with this id and nothing has answered it since. */
  predicate Unanswered(h: History, id: int, j: nat) {
    && j < |h| && h[j].Some? && h[j].value.Query? && h[j].value.id == id
    && forall k :: j < k < |h| ==> !Touches(h[k], id)
  }

  /** The pending map holds exactly the latest unanswered query of each id. */
  lemma {:induction false} PendingIsHistory(h: History, id: int)
    ensures id in PendingAfter(map[], h) <==> exists j: nat :: Unanswered(h, id, j)
    ensures forall j: nat :: Unanswered(h, id, j) ==> PendingAfter(map[], h)[id] == h[j].value.header
    decreases |h|
  {
    if h != [] {
      var n := |h| - 1;
      var before := h[..n];
      PendingIsHistory(before, id);
      if Touches(h[n], id) {
        if h[n].value.Query? {
          assert Unanswered(h, id, n);
        }
        assert forall j: nat :: Unanswered(h, id, j) ==> j == n;
      } else {
        forall j: nat
          ensures Unanswered(h, id, j) <==> Unanswered(before, id, j)
        {
          SameUnanswered(h, id, j);
        }
      }
    }
  }

  lemma SameUnanswered(h: History, id: int, j: nat)
    requires h != [] && !Touches(h[|h| - 1], id)
    ensures Unanswered(h, id, j) <==> Unanswered(h[..|h| - 1], id, j)
  {
    var before := h[..|h| - 1];
    if Unanswered(before, id, j) {
      forall k | j < k < |h|
        ensures !Touches(h[k], id)
      {
        if k < |h| - 1 {
          assert h[k] == before[k];
        }
      }
    }
    if Unanswered(h, id, j) {
      assert j < |h| - 1 by {
        assert Touches(h[j], id);
      }
    }
  }

  /** A query answers for at most one response: of two responses with one id, the later one
      is matched with a query made after the earlier one. */
  lemma QueryServesOnce(h: History, id: int, r1: nat, r2: nat, j1: nat, j2: nat)
    requires r1 < r2 <= |h| && h[r1] == Some(Response(id))
    requires Unanswered(h[..r1], id, j1) && Unanswered(h[..r2], id, j2)
    ensures j1 < r1 < j2
  {
    assert h[..r2][r1] == h[r1] && Touches(h[..r2][r1], id);
  }

  /** The stored form is one well-formed message whose tail is the original payload. */
  lemma RewrittenIsMessage(c: Codec, h: Header, id: int, payload: seq<byte>)
    requires 1 + |c.write(h, id)| + |payload| < Pow256(8)
    ensures var out := Rewritten(c, h, id, payload);
            && MsgSize(out) == Some(|out|)
            && out[8] == 2 && out[9..] == c.write(h, id) + payload
  {
    hide ToLe, FromLe;
    var body := [2] + c.write(h, id) + payload;
    var out := Rewritten(c, h, id, payload);
    LeRoundTrip(|body|, 8);
    assert out[..8] == ToLe(|body|, 8);
  }

  // ---------------------------------------------------------------- the machine

  /** Every message has its length prefix. */
  predicate AllMessages(msgs: seq<seq<byte>>) {
    forall i :: 0 <= i < |msgs| ==> |msgs[i]| >= 8
  }

  function Headers(c: Codec, msgs: seq<seq<byte>>): (hs: History)
    requires AllMessages(msgs)
    ensures |hs| == |msgs|
  {
    if msgs == [] then [] else Headers(c, msgs[..|msgs| - 1]) + [HeaderOf(c, msgs[|msgs| - 1])]
  }

  /** The outcomes of processing `msgs` in order. */
  function Outcomes(c: Codec, pending: Pending, msgs: seq<seq<byte>>): (os: seq<Outcome>)
    requires AllMessages(msgs)
    ensures |os| == |msgs|
  {
    if msgs == [] then [] else
    var before := msgs[..|msgs| - 1];
    Outcomes(c, pending, before)
    + [Processed(c, PendingAfter(pending, Headers(c, before)), msgs[|msgs| - 1])]
  }

  /** The bytes that are stored. */
  function Stored(os: seq<Outcome>): seq<seq<byte>> {
    if os == [] then [] else
    Stored(os[..|os| - 1]) + if os[|os| - 1].Emit? then [os[|os| - 1].bytes] else []
  }

  lemma {:induction false} OutcomeAt(c: Codec, pending: Pending, msgs: seq<seq<byte>>, r: nat)
    requires r < |msgs| && AllMessages(msgs)
    ensures Outcomes(c, pending, msgs)[r] == Processed(c, PendingAfter(pending, Headers(c, msgs[..r])), msgs[r])
    decreases |msgs|
  {
    var before := msgs[..|msgs| - 1];
    if r < |msgs| - 1 {
      OutcomeAt(c, pending, before, r);
      assert before[..r] == msgs[..r];
    }
  }

  /** In any history a response is stored if and only if a query with its id is unanswered at
      that point, and then with that query's tag and version and its own payload. */
  lemma ResponsesMatchQueries(c: Codec, msgs: seq<seq<byte>>, r: nat, id: int)
    requires r < |msgs| && AllMessages(msgs)
    requires HeaderOf(c, msgs[r]) == Some(Response(id))
    ensures var h := Headers(c, msgs[..r]);
            var o := Outcomes(c, map[], msgs)[r];
            && (o.Emit? <==> exists j: nat :: Unanswered(h, id, j))
            && (forall j: nat :: Unanswered(h, id, j) ==>
                  o == Emit(Rewritten(c, h[j].value.header, id, Payload(c, msgs[r]))))
  {
    OutcomeAt(c, map[], msgs, r);
    PendingIsHistory(Headers(c, msgs[..r]), id);
  }

  // ------------------------------------------------------------- as peers write it

  /** A message as a peer writes it: the length, and the header and what follows it. */
  function Prefixed(body: seq<byte>): (m: seq<byte>)
    ensures |m| >= 8
  {
    ToLe(|body|, 8) + body
  }

  function AllPrefixed(bodies: seq<seq<byte>>): (msgs: seq<seq<byte>>)
    ensures |msgs| == |bodies| && AllMessages(msgs)
    ensures forall i :: 0 <= i < |bodies| ==> msgs[i] == Prefixed(bodies[i])
  {
    seq(|bodies|, i requires 0 <= i < |bodies| => Prefixed(bodies[i]))
  }

  /** The header a peer wrote. */
  function Wrote(c: Codec, body: seq<byte>): Option<MessageHeader> {
    match c.read(body) case None => None case Some((h, _)) => Some(h)
  }

  function AllWrote(c: Codec, bodies: seq<seq<byte>>): (h: History)
    ensures |h| == |bodies| && forall i :: 0 <= i < |bodies| ==> h[i] == Wrote(c, bodies[i])
  {
    seq(|bodies|, i requires 0 <= i < |bodies| => Wrote(c, bodies[i]))
  }

  lemma PrefixedIsMessage(body: seq<byte>)
    requires |body| < Pow256(8)
    ensures MsgSize(Prefixed(body)) == Some(|Prefixed(body)|) && Prefixed(body)[8..] == body
  {
    hide ToLe, FromLe;
    LeRoundTrip(|body|, 8);
    assert Prefixed(body)[..8] == ToLe(|body|, 8);
  }

  lemma {:induction false} HeadersWrote(c: Codec, bodies: seq<seq<byte>>)
    ensures Headers(c, AllPrefixed(bodies)) == AllWrote(c, bodies)
    decreases |bodies|
  {
    if bodies != [] {
      hide Prefixed;
      var n := |bodies| - 1;
      HeadersWrote(c, bodies[..n]);
      assert AllPrefixed(bodies)[..n] == AllPrefixed(bodies[..n]);
      BehindPrefix(bodies[n]);
      assert AllWrote(c, bodies) == AllWrote(c, bodies[..n]) + [Wrote(c, bodies[n])];
    }
  }

  lemma BehindPrefix(body: seq<byte>)
    ensures Prefixed(body)[8..] == body
  {
  }

  /** What becomes of a message as a peer writes it. */
  function Disposed(c: Codec, pending: Pending, body: seq<byte>): Outcome {
    match c.read(body)
    case None => Nothing
    case Some((Heartbeat, _)) => Nothing
    case Some((Query(_, _), _)) => Emit(Prefixed(body))
    case Some((Response(id), n)) =>
      if id in pending then
        Emit(Prefixed([2] + c.write(pending[id], id) + body[if n < |body| then n else |body|..]))
      else if id != MENU_ID then ResponseWithoutRequest(id) else Nothing
  }

  lemma ProcessedAsWritten(c: Codec, pending: Pending, body: seq<byte>)
    ensures Processed(c, pending, Prefixed(body)) == Disposed(c, pending, body)
  {
    BehindPrefix(body);
    hide ToLe;
  }

  /** A message is processed with the queries that are pending then. */
  lemma OutcomeAsWritten(c: Codec, bodies: seq<seq<byte>>, r: nat)
    requires r < |bodies|
    ensures Outcomes(c, map[], AllPrefixed(bodies))[r]
            == Disposed(c, PendingAfter(map[], AllWrote(c, bodies[..r])), bodies[r])
  {
    hide Outcomes, Headers, PendingAfter, Processed, Disposed, Prefixed;
    var msgs := AllPrefixed(bodies);
    OutcomeAt(c, map[], msgs, r);
    assert msgs[..r] == AllPrefixed(bodies[..r]);
    HeadersWrote(c, bodies[..r]);
    ProcessedAsWritten(c, PendingAfter(map[], AllWrote(c, bodies[..r])), bodies[r]);
  }

  lemma ResponseAsWritten(c: Codec, bodies: seq<seq<byte>>, r: nat, id: int, n: nat)
    requires r < |bodies| && c.read(bodies[r]) == Some((Response(id), n))
    ensures var o, h := Outcomes(c, map[], AllPrefixed(bodies))[r], AllWrote(c, bodies[..r]);
            && (forall j: nat :: Unanswered(h, id, j) ==>
                  forall head, body :: bodies[r] == head + body && (|head| == n || (|head| < n && body == [])) ==>
                    o == Emit(Prefixed([2] + c.write(h[j].value.header, id) + body)))
            && ((!exists j: nat :: Unanswered(h, id, j)) ==>
                  o == if id == MENU_ID then Nothing else ResponseWithoutRequest(id))
  {
    hide Outcomes, Prefixed, PendingAfter;
    OutcomeAsWritten(c, bodies, r);
    PendingIsHistory(AllWrote(c, bodies[..r]), id);
    var all := bodies[r];
    assert forall head, body :: all == head + body && (|head| == n || (|head| < n && body == [])) ==>
             all[if n < |all| then n else |all|..] == body;
  }

  /** What is stored of each message in any history of messages that peers write. A query is
      stored as it is. A response is stored if and only if a query with its id is unanswered: as a
      message with the response marker, the header of that query, and exactly what the peer wrote
      behind the header of the response. A heartbeat and what cannot be read yield nothing. */
  lemma StoredAsWritten(c: Codec, bodies: seq<seq<byte>>, r: nat)
    requires r < |bodies|
    ensures var o, h := Outcomes(c, map[], AllPrefixed(bodies))[r], AllWrote(c, bodies[..r]);
            match c.read(bodies[r])
            case None => o == Nothing
            case Some((Heartbeat, _)) => o == Nothing
            case Some((Query(_, _), _)) => o == Emit(Prefixed(bodies[r]))
            case Some((Response(id), n)) =>
              && (forall j: nat :: Unanswered(h, id, j) ==>
                    forall head, body :: bodies[r] == head + body && (|head| == n || (|head| < n && body == [])) ==>
                      o == Emit(Prefixed([2] + c.write(h[j].value.header, id) + body)))
              && ((!exists j: nat :: Unanswered(h, id, j)) ==>
                    o == if id == MENU_ID then Nothing else ResponseWithoutRequest(id))
  {
    OutcomeAsWritten(c, bodies, r);
    hide Outcomes, Prefixed, AllWrote, Unanswered;
    match c.read(bodies[r])
    case Some((Response(id), n)) => ResponseAsWritten(c, bodies, r, id, n);
    case _ =>
  }

  // --------------------------------------------------------------- serving a feed

  /** The messages taken, what is stored of them, and the state they leave. */
  datatype Served = Served(taken: seq<seq<byte>>, stored: seq<seq<byte>>, pending: Pending, unread: seq<byte>) {
    function After(taken': seq<seq<byte>>, stored': seq<seq<byte>>): Served {
      Served(taken' + taken, stored' + stored, pending, unread)
    }
  }

  function Kept(o: Outcome): seq<seq<byte>> { if o.Emit? then [o.bytes] else [] }

  /** One call takes messages until one yields nothing to store, or none is complete. */
  function Serve(c: Codec, pending: Pending, s: seq<byte>): (r: Served)
    ensures AllMessages(r.taken)
    decreases |s|
  {
    if !HasFrame(MsgSize, s) then Served([], [], pending, s) else
    var n := MsgSize(s).value;
    var o := Processed(c, pending, s[..n]);
    var pending' := Remembered(pending, HeaderOf(c, s[..n]));
    (if o.Nothing? then Served([], [], pending', s[n..]) else Serve(c, pending', s[n..])).After([s[..n]], Kept(o))
  }

  lemma {:induction false} HeadersAppend(c: Codec, a: seq<seq<byte>>, b: seq<seq<byte>>)
    requires AllMessages(a) && AllMessages(b)
    ensures Headers(c, a + b) == Headers(c, a) + Headers(c, b)
    decreases |b|
  {
    if b == [] {
      assert a + b == a;
    } else {
      var b' := b[..|b| - 1];
      assert (a + b)[..|a + b| - 1] == a + b';
      HeadersAppend(c, a, b');
      Associate(Headers(c, a), Headers(c, b'), [HeaderOf(c, b[|b| - 1])]);
    }
  }

  lemma {:induction false} PendingAppend(pending: Pending, a: History, b: History)
    ensures PendingAfter(pending, a + b) == PendingAfter(PendingAfter(pending, a), b)
    decreases |b|
  {
    if b == [] {
      assert a + b == a;
    } else {
      assert (a + b)[..|a + b| - 1] == a + b[..|b| - 1];
      PendingAppend(pending, a, b[..|b| - 1]);
    }
  }

  lemma {:induction false} OutcomesAppend(c: Codec, pending: Pending, a: seq<seq<byte>>, b: seq<seq<byte>>)
    requires AllMessages(a) && AllMessages(b)
    ensures Outcomes(c, pending, a + b)
            == Outcomes(c, pending, a) + Outcomes(c, PendingAfter(pending, Headers(c, a)), b)
    decreases |b|
  {
    hide Processed, Headers, PendingAfter;
    if b == [] {
      assert a + b == a;
    } else {
      var b', m := b[..|b| - 1], b[|b| - 1];
      assert (a + b)[..|a + b| - 1] == a + b';
      OutcomesAppend(c, pending, a, b');
      HeadersAppend(c, a, b');
      PendingAppend(pending, Headers(c, a), Headers(c, b'));
      var mid := PendingAfter(pending, Headers(c, a));
      Associate(Outcomes(c, pending, a), Outcomes(c, mid, b'), [Processed(c, PendingAfter(mid, Headers(c, b')), m)]);
    }
  }

  lemma {:induction false} StoredAppend(a: seq<Outcome>, b: seq<Outcome>)
    ensures Stored(a + b) == Stored(a) + Stored(b)
    decreases |b|
  {
    if b == [] {
      assert a + b == a;
    } else {
      assert (a + b)[..|a + b| - 1] == a + b[..|b| - 1];
      StoredAppend(a, b[..|b| - 1]);
      Associate(Stored(a), Stored(b[..|b| - 1]), Kept(b[|b| - 1]));
    }
  }

  /** `r` follows from processing its messages in order, starting with `pending`. */
  ghost predicate Follows(c: Codec, pending: Pending, r: Served) {
    && AllMessages(r.taken)
    && r.pending == PendingAfter(pending, Headers(c, r.taken))
    && r.stored == Stored(Outcomes(c, pending, r.taken))
  }

  lemma FollowsAppend(c: Codec, pending: Pending, r: Served, r': Served)
    requires Follows(c, pending, r) && Follows(c, r.pending, r')
    ensures Follows(c, pending, r'.After(r.taken, r.stored))
  {
    hide Headers, PendingAfter, Outcomes, Stored;
    HeadersAppend(c, r.taken, r'.taken);
    PendingAppend(pending, Headers(c, r.taken), Headers(c, r'.taken));
    OutcomesAppend(c, pending, r.taken, r'.taken);
    StoredAppend(Outcomes(c, pending, r.taken), Outcomes(c, r.pending, r'.taken));
  }

  lemma FollowsOne(c: Codec, pending: Pending, m: seq<byte>, unread: seq<byte>)
    requires |m| >= 8
    ensures Outcomes(c, pending, [m]) == [Processed(c, pending, m)]
    ensures PendingAfter(pending, Headers(c, [m])) == Remembered(pending, HeaderOf(c, m))
    ensures Follows(c, pending,
                    Served([m], Kept(Processed(c, pending, m)), Remembered(pending, HeaderOf(c, m)), unread))
  {
    hide Processed, Remembered, HeaderOf;
    var h := HeaderOf(c, m);
    assert Headers(c, [m]) == [h];
    assert PendingAfter(pending, [h]) == Remembered(pending, h);
    var o := Processed(c, pending, m);
    assert Outcomes(c, pending, [m]) == [o];
    assert Stored([o]) == Kept(o);
  }

  /** What is taken follows from the pending queries, and together with the messages still
      unread it makes up the messages received. */
  lemma {:induction false} ServeTakesMessages(c: Codec, pending: Pending, s: seq<byte>)
    ensures var r := Serve(c, pending, s);
            && Follows(c, pending, r)
            && Frames(MsgSize, s) == r.taken + Frames(MsgSize, r.unread)
            && Residual(MsgSize, s) == Residual(MsgSize, r.unread)
    decreases |s|
  {
    hide MsgSize, Processed, Remembered, HeaderOf, Follows;
    if !HasFrame(MsgSize, s) {
      FollowsNone(c, pending, s);
    } else {
      MessagesAreLong(s);
      var n := MsgSize(s).value;
      var m := s[..n];
      var pending' := Remembered(pending, HeaderOf(c, m));
      FollowsOne(c, pending, m, s[n..]);
      var one := Served([m], Kept(Processed(c, pending, m)), pending', s[n..]);
      if !Processed(c, pending, m).Nothing? {
        ServeTakesMessages(c, pending', s[n..]);
        FollowsAppend(c, pending, one, Serve(c, pending', s[n..]));
        Associate([m], Serve(c, pending', s[n..]).taken, Frames(MsgSize, Serve(c, pending', s[n..]).unread));
      } else {
        assert one.taken == [m] + [] && one.stored == one.stored + [];
      }
    }
  }

  lemma FollowsNone(c: Codec, pending: Pending, s: seq<byte>)
    ensures Follows(c, pending, Served([], [], pending, s))
  {
  }

  lemma MessagesAreLong(s: seq<byte>)
    requires HasFrame(MsgSize, s)
    ensures MsgSize(s).value >= 8
  {
  }

  predicate AnyNothing(os: seq<Outcome>) {
    exists i :: 0 <= i < |os| && os[i].Nothing?
  }

  /** A complete message stays unread after a call if and only if one before it yielded nothing
      to store, such as a heartbeat: it waits for the next call. */
  lemma {:induction false} WaitsIff(c: Codec, pending: Pending, s: seq<byte>)
    ensures AllMessages(Frames(MsgSize, s))
    ensures HasFrame(MsgSize, Serve(c, pending, s).unread) <==>
            Frames(MsgSize, s) != [] &&
            AnyNothing(Outcomes(c, pending, Frames(MsgSize, s))[..|Frames(MsgSize, s)| - 1])
    decreases |s|
  {
    hide MsgSize, Processed, Remembered, HeaderOf, Outcomes, PendingAfter, Headers;
    if HasFrame(MsgSize, s) {
      MessagesAreLong(s);
      var n := MsgSize(s).value;
      var m := s[..n];
      var fs := Frames(MsgSize, s[n..]);
      var pending' := Remembered(pending, HeaderOf(c, m));
      WaitsIff(c, pending', s[n..]);
      FollowsOne(c, pending, m, s[n..]);
      OutcomesAppend(c, pending, [m], fs);
      var o, os := Processed(c, pending, m), Outcomes(c, pending', fs);
      assert Outcomes(c, pending, [m] + fs) == [o] + os;
      assert HasFrame(MsgSize, s[n..]) <==> fs != [];
      if fs != [] {
        assert ([o] + os)[..|fs|] == [o] + os[..|fs| - 1];
        AnyNothingCons(o, os[..|fs| - 1]);
      }
    }
  }

  lemma AnyNothingCons(o: Outcome, os: seq<Outcome>)
    ensures AnyNothing([o] + os) <==> o.Nothing? || AnyNothing(os)
  {
    assert ([o] + os)[0] == o;
    assert forall i :: 0 <= i < |os| ==> ([o] + os)[i + 1] == os[i];
  }

  // -------------------------------------------------------------- whole runs

  lemma CallsAreFrames(s: seq<byte>, taken: seq<seq<byte>>, unread: seq<byte>, bytes: seq<byte>,
                       more: seq<seq<byte>>, unread': seq<byte>)
    requires Frames(MsgSize, s) == taken + Frames(MsgSize, unread)
    requires Residual(MsgSize, s) == Residual(MsgSize, unread)
    requires Frames(MsgSize, unread + bytes) == more + Frames(MsgSize, unread')
    requires Residual(MsgSize, unread + bytes) == Residual(MsgSize, unread')
    ensures Frames(MsgSize, s + bytes) == taken + more + Frames(MsgSize, unread')
    ensures Residual(MsgSize, s + bytes) == Residual(MsgSize, unread')
  {
    hide *;
    MsgSizeStable();
    FramesAppend(MsgSize, s, bytes);
    FramesAppend(MsgSize, unread, bytes);
    Regroup(taken, Frames(MsgSize, unread), Frames(MsgSize, Residual(MsgSize, unread) + bytes),
      more, Frames(MsgSize, unread'));
  }

  lemma Regroup(a: seq<seq<byte>>, x: seq<seq<byte>>, y: seq<seq<byte>>, b: seq<seq<byte>>, z: seq<seq<byte>>)
    requires x + y == b + z
    ensures (a + x) + y == a + b + z
  {
    assert (a + x) + y == a + (x + y);
    assert a + (b + z) == a + b + z;
  }

  /** A sequence of calls, from both directions merged. */
  function Run(c: Codec, pending: Pending, unread: seq<byte>, chunks: seq<seq<byte>>): Served
    decreases chunks
  {
    if chunks == [] then Served([], [], pending, unread) else
    var r := Serve(c, pending, unread + chunks[0]);
    Run(c, r.pending, r.unread, chunks[1..]).After(r.taken, r.stored)
  }

  /** Over every sequence of calls, the messages taken and those still unread are, in order, the
      messages of everything received, and what is stored follows from those taken. */
  lemma {:induction false} RunTakesMessages(c: Codec, pending: Pending, unread: seq<byte>, chunks: seq<seq<byte>>)
    ensures var r := Run(c, pending, unread, chunks);
            var s := unread + Flatten(chunks);
            && Follows(c, pending, r)
            && Frames(MsgSize, s) == r.taken + Frames(MsgSize, r.unread)
            && Residual(MsgSize, s) == Residual(MsgSize, r.unread)
    decreases chunks
  {
    hide MsgSize, Serve, Follows, Frames, Residual;
    if chunks == [] {
      FollowsNone(c, pending, unread);
      assert unread + Flatten(chunks) == unread;
    } else {
      var s := unread + chunks[0];
      var r := Serve(c, pending, s);
      ServeTakesMessages(c, pending, s);
      RunTakesMessages(c, r.pending, r.unread, chunks[1..]);
      var r' := Run(c, r.pending, r.unread, chunks[1..]);
      FollowsAppend(c, pending, r, r');
      CallsAreFrames(s, r.taken, r.unread, Flatten(chunks[1..]), r'.taken, r'.unread);
      Associate(unread, chunks[0], Flatten(chunks[1..]));
    }
  }

  /** Every outcome that is to be stored is, behind those before it. */
  lemma {:induction false} StoredHolds(os: seq<Outcome>, r: nat)
    requires r < |os| && os[r].Emit?
    ensures Stored(os[..r]) + [os[r].bytes] <= Stored(os)
    decreases |os|
  {
    var n := |os| - 1;
    if r < n {
      StoredHolds(os[..n], r);
      assert os[..n][..r] == os[..r];
    }
  }

  /** And nothing else is. */
  lemma {:induction false} StoredComesFrom(os: seq<Outcome>, k: nat) returns (r: nat)
    requires k < |Stored(os)|
    ensures r < |os| && os[r].Emit? && |Stored(os[..r])| == k && Stored(os)[k] == os[r].bytes
    decreases |os|
  {
    var n := |os| - 1;
    if k < |Stored(os[..n])| {
      r := StoredComesFrom(os[..n], k);
      assert os[..n][..r] == os[..r];
    } else {
      r := n;
    }
  }

  /** Messages that peers write, however they are cut: some first ones are taken, the others are
      unread, and what is stored is what `StoredAsWritten` says of those taken. */
  lemma RunStoresAsWritten(c: Codec, bodies: seq<seq<byte>>, chunks: seq<seq<byte>>) returns (n: nat)
    requires forall i :: 0 <= i < |bodies| ==> |bodies[i]| < Pow256(8)
    requires Flatten(chunks) == Flatten(AllPrefixed(bodies))
    ensures var r := Run(c, map[], [], chunks);
            && n <= |bodies| && r.taken == AllPrefixed(bodies[..n])
            && Frames(MsgSize, r.unread) == AllPrefixed(bodies[n..]) && Residual(MsgSize, r.unread) == []
            && r.stored == Stored(Outcomes(c, map[], AllPrefixed(bodies[..n])))
  {
    hide Run, Outcomes, MsgSize, Stored, Prefixed, PendingAfter, Headers, Frames, Residual;
    var msgs := AllPrefixed(bodies);
    forall i | 0 <= i < |msgs|
      ensures MsgSize(msgs[i]) == Some(|msgs[i]|)
    {
      PrefixedIsMessage(bodies[i]);
    }
    MsgSizeStable();
    FramesOfFlatten(MsgSize, msgs, []);
    assert Flatten(msgs) + [] == Flatten(msgs) == [] + Flatten(chunks);
    RunTakesMessages(c, map[], [], chunks);
    var r := Run(c, map[], [], chunks);
    n := |r.taken|;
    assert msgs[..n] == r.taken && msgs[n..] == Frames(MsgSize, r.unread);
    assert msgs[..n] == AllPrefixed(bodies[..n]) && msgs[n..] == AllPrefixed(bodies[n..]);
  }

  /** How the bytes are cut into calls decides only how far the messages have been taken: of two
      cuttings of the same bytes, the one that took fewer stored the beginning of what the other
      stored. */
  lemma ChunkingOnlyDelays(c: Codec, chunks: seq<seq<byte>>, chunks': seq<seq<byte>>)
    requires Flatten(chunks) == Flatten(chunks')
    ensures var r, r' := Run(c, map[], [], chunks), Run(c, map[], [], chunks');
            |r.taken| <= |r'.taken| ==> r.taken <= r'.taken && r.stored <= r'.stored
  {
    hide Run, Outcomes, PendingAfter, Headers, Stored;
    var r, r' := Run(c, map[], [], chunks), Run(c, map[], [], chunks');
    RunTakesMessages(c, map[], [], chunks);
    RunTakesMessages(c, map[], [], chunks');
    if |r.taken| <= |r'.taken| {
      var later := r'.taken[|r.taken|..];
      var fs := Frames(MsgSize, [] + Flatten(chunks));
      assert r.taken == fs[..|r.taken|] && r'.taken == fs[..|r'.taken|];
      assert r'.taken == r.taken + later;
      OutcomesAppend(c, map[], r.taken, later);
      StoredAppend(Outcomes(c, map[], r.taken), Outcomes(c, PendingAfter(map[], Headers(c, r.taken)), later));
    }
  }

  /** A heartbeat and a query: in one chunk the query is not stored, in two it is. */
  lemma HeartbeatDelays(c: Codec, beat: seq<byte>, query: seq<byte>, h: Header, id: int)
    requires MsgSize(beat) == Some(|beat|) && MsgSize(query) == Some(|query|) && |beat| >= 8 && |query| >= 8
    requires HeaderOf(c, beat) == Some(Heartbeat) && HeaderOf(c, query) == Some(Query(h, id))
    ensures Run(c, map[], [], [beat + query]).stored == []
    ensures Run(c, map[], [], [beat, query]).stored == [query]
  {
    hide MsgSize, HeaderOf;
    MsgSizeStable();
    var s := beat + query;
    assert MsgSize(s) == Some(|beat|) && s[..|beat|] == beat;
    var one, two: seq<seq<byte>> := [s], [beat, query];
    assert [] + s == s && one[1..] == [];
    assert [] + beat == beat && beat[..|beat|] == beat && beat[|beat|..] == [];
    assert [] + query == query && query[..|query|] == query && query[|query|..] == [];
    var r := Serve(c, map[], beat);
    assert r.stored == [] && r.pending == map[] && r.unread == [];
    assert Processed(c, map[], query) == Emit(query);
    assert Serve(c, map[], query).stored == [query];
    assert two[1..] == [query] && two[1..][1..] == [];
    var r' := Serve(c, map[], query);
    assert Run(c, r'.pending, r'.unread, two[1..][1..]).stored == [];
    assert Run(c, map[], [], two[1..]).stored == [query] + [];
  }

  /** If every message yields something to store, every cutting takes them all. */
  lemma NothingWaits(c: Codec, chunks: seq<seq<byte>>)
    requires AllMessages(Frames(MsgSize, Flatten(chunks)))
    requires !AnyNothing(Outcomes(c, map[], Frames(MsgSize, Flatten(chunks))))
    ensures var r := Run(c, map[], [], chunks);
            r.taken == Frames(MsgSize, Flatten(chunks)) && r.unread == Residual(MsgSize, Flatten(chunks))
  {
    hide Run, Outcomes, MsgSize;
    var r := Run(c, map[], [], chunks);
    RunTakesMessages(c, map[], [], chunks);
    assert [] + Flatten(chunks) == Flatten(chunks);
    RunWaits(c, map[], [], chunks);
    var later := Frames(MsgSize, r.unread);
    var pending' := PendingAfter(map[], Headers(c, r.taken));
    WaitsIff(c, pending', r.unread);
    OutcomesAppend(c, map[], r.taken, later);
    AnyNothingAppend(Outcomes(c, map[], r.taken), Outcomes(c, pending', later));
    assert !HasFrame(MsgSize, r.unread) && later == [];
  }

  /** After a run, a complete message is unread only if a message taken yielded nothing. */
  lemma {:induction false} RunWaits(c: Codec, pending: Pending, unread: seq<byte>, chunks: seq<seq<byte>>)
    ensures var r := Run(c, pending, unread, chunks);
            && AllMessages(r.taken)
            && (HasFrame(MsgSize, r.unread) ==> HasFrame(MsgSize, unread) || AnyNothing(Outcomes(c, pending, r.taken)))
    decreases chunks
  {
    hide MsgSize, Serve, Outcomes, Headers, PendingAfter;
    RunTakesMessages(c, pending, unread, chunks);
    if chunks != [] {
      var r := Serve(c, pending, unread + chunks[0]);
      ServeTakesMessages(c, pending, unread + chunks[0]);
      ServeWaits(c, pending, unread + chunks[0]);
      RunWaits(c, r.pending, r.unread, chunks[1..]);
      var r' := Run(c, r.pending, r.unread, chunks[1..]);
      OutcomesAppend(c, pending, r.taken, r'.taken);
      AnyNothingAppend(Outcomes(c, pending, r.taken), Outcomes(c, r.pending, r'.taken));
    }
  }

  lemma AnyNothingAppend(a: seq<Outcome>, b: seq<Outcome>)
    ensures AnyNothing(a + b) <==> AnyNothing(a) || AnyNothing(b)
  {
    assert forall i :: 0 <= i < |a| ==> (a + b)[i] == a[i];
    assert forall i :: 0 <= i < |b| ==> (a + b)[|a| + i] == b[i];
  }

  lemma {:induction false} ServeWaits(c: Codec, pending: Pending, s: seq<byte>)
    ensures var r := Serve(c, pending, s);
            HasFrame(MsgSize, r.unread) ==> AnyNothing(Outcomes(c, pending, r.taken))
    decreases |s|
  {
    hide MsgSize, Processed, Remembered, HeaderOf, Outcomes, PendingAfter, Headers;
    if HasFrame(MsgSize, s) {
      MessagesAreLong(s);
      var n := MsgSize(s).value;
      var m := s[..n];
      var pending' := Remembered(pending, HeaderOf(c, m));
      var o := Processed(c, pending, m);
      FollowsOne(c, pending, m, s[n..]);
      if o.Nothing? {
        assert Serve(c, pending, s).taken == [m];
        assert AnyNothing([o]) by { assert [o][0].Nothing?; }
      } else {
        ServeWaits(c, pending', s[n..]);
        OutcomesAppend(c, pending, [m], Serve(c, pending', s[n..]).taken);
        AnyNothingAppend([o], Outcomes(c, pending', Serve(c, pending', s[n..]).taken));
      }
    }
  }

  // ------------------------------------------------------------ the running state

  class State {
    const codec: Codec
    const acc: Accumulator.State
    var pending: Pending

    ghost predicate Valid()
      reads this, acc
    {
      acc.Valid()
    }

    constructor (c: Codec)
      ensures Valid() && fresh(acc) && codec == c && pending == map[] && acc.Unread() == []
    {
      codec := c;
      acc := new Accumulator.State();
      pending := map[];
    }

    method PostProcess(msg: seq<byte>) returns (o: Outcome)
      requires |msg| >= 8
      modifies this`pending
      ensures o == Processed(codec, old(pending), msg)
      ensures pending == Remembered(old(pending), HeaderOf(codec, msg))
    {
      var r := codec.read(msg[8..]);
      if r.None? {
        return Nothing;
      }
      match r.value.0 {
        case Heartbeat =>
          return Nothing;
        case Query(header, id) =>
          pending := pending[id := header];
          return Emit(msg);
        case Response(id) =>
          if id in pending {
            var header := pending[id];
            pending := pending - {id};
            var b := seq(8, _ => 0) + [2];
            b := b + codec.write(header, id);
            var stream := msg[8..];
            var len := if r.value.1 < |stream| then r.value.1 else |stream|;
            b := b + stream[len..];
            var newLen := |b| - 8;
            b := ToLe(newLen, 8) + b[8..];
            assert b == Rewritten(codec, header, id, Payload(codec, msg));
            return Emit(b);
          } else {
            pending := pending - {id};
            if id != MENU_ID {
              return ResponseWithoutRequest(id);
            }
            return Nothing;
          }
      }
    }

    /** Messages are taken in order until one yields nothing or none is complete. */
    method OnData(bytes: seq<byte>) returns (stored: seq<seq<byte>>)
      requires Valid()
      modifies this, acc
      ensures Valid()
      ensures var r := Serve(codec, old(pending), old(acc.Unread()) + bytes);
              stored == r.stored && pending == r.pending && acc.Unread() == r.unread
    {
      hide MsgSize, Serve, Processed, Remembered;
      ghost var s := acc.Unread() + bytes;
      ghost var all := Serve(codec, pending, s);
      stored := [];
      var buffered := acc.Extend(MsgSize, bytes);
      if !buffered {
        assert s == bytes;
        MsgSizeStable();
        MessagesAreLong(bytes);
        ServeSingle(codec, pending, bytes);
        var o := PostProcess(bytes);
        stored := Kept(o);
        return;
      }
      while true
        invariant Valid()
        invariant var r := Serve(codec, pending, acc.Unread());
                  all.stored == stored + r.stored && all.pending == r.pending && all.unread == r.unread
        decreases |acc.Unread()|
      {
        ServeCases(codec, pending, acc.Unread());
        var m := acc.NextMsg(MsgSize);
        if m.None? {
          return;
        }
        var o := PostProcess(m.value);
        Associate(stored, Kept(o), Serve(codec, pending, acc.Unread()).stored);
        stored := stored + Kept(o);
        if o.Nothing? {
          return;
        }
      }
    }
  }

  /** How serving goes on after its first message. */
  lemma ServeCases(c: Codec, pending: Pending, s: seq<byte>)
    ensures var r := Serve(c, pending, s);
            if !HasFrame(MsgSize, s) then r == Served([], [], pending, s) else
            var n := MsgSize(s).value;
            n >= 8 &&
            var o := Processed(c, pending, s[..n]);
            var pending' := Remembered(pending, HeaderOf(c, s[..n]));
            var r' := Serve(c, pending', s[n..]);
            if o.Nothing? then r.stored == Kept(o) && r.pending == pending' && r.unread == s[n..]
            else r.stored == Kept(o) + r'.stored && r.pending == r'.pending && r.unread == r'.unread
  {
  }

  lemma ServeSingle(c: Codec, pending: Pending, m: seq<byte>)
    requires MsgSize(m) == Some(|m|) && |m| >= 8 && !HasFrame(MsgSize, [])
    ensures var r := Serve(c, pending, m);
            && r.stored == Kept(Processed(c, pending, m))
            && r.pending == Remembered(pending, HeaderOf(c, m)) && r.unread == []
  {
    hide MsgSize;
    ServeCases(c, pending, m);
    assert m[..|m|] == m && m[|m|..] == [];
    ServeCases(c, Remembered(pending, HeaderOf(c, m)), []);
  }
}
