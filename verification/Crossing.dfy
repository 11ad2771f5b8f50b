/** Negotiations in which both sides talk at once: plain, with simultaneous connect declined, and
    with simultaneous connect. */
module Crossing {
  import opened Bytes
  import opened Framing
  import opened Multistream
  import opened Negotiation

  // ---------------------------------------------------------------------- what is said

  datatype Kind = Simple | Declined | Simultaneous

  /** How many tokens a side sends before the protocol takes over. */
  function Length(kind: Kind): nat {
    match kind case Simple => 2 case Declined => 3 case Simultaneous => 6
  }

  predicate Greets(t: Token) { t.Text? && MULTISTREAM <= t.name }

  predicate Asks(t: Token) { t.Text? && SIMULTANEOUS <= t.name }

  predicate Selects(t: Token) { t.Text? && SELECT <= t.name }

  predicate Role(t: Token) { t.InitiatorToken? || t.ResponderToken? }

  /** The tokens of one side. If simultaneous connect is declined, one side asks and the other
      answers `na`; otherwise both say the same. */
  predicate Speech(kind: Kind, asks: bool, ts: seq<Token>, protocol: seq<byte>) {
    var name := Text(protocol);
    && Settles(protocol) && |ts| == Length(kind) && Greets(ts[0])
    && match kind
       case Simple => ts[1] == name
       case Declined => (if asks then Asks(ts[1]) else ts[1] == Text(NA)) && ts[2] == name
       case Simultaneous => Asks(ts[1]) && ts[2] == name && Selects(ts[3]) && Role(ts[4]) && ts[5] == name
  }

  /** One direction after its first `i` tokens, with the first `j` of the other one. */
  function SideAt(kind: Kind, asks: bool, i: nat, acc: seq<byte>, j: nat, protocol: seq<byte>): Side {
    Side(acc, Asked(kind, asks, i, j), if Settled(kind, i, j) then Some(protocol) else None)
  }

  predicate Asked(kind: Kind, asks: bool, i: nat, j: nat) {
    match kind
    case Simple => false
    case Declined => asks && i >= 2 && j < 2
    case Simultaneous => 2 <= i < 5
  }

  /** With simultaneous connect, the first name settles until the other side's request arrives. */
  predicate Settled(kind: Kind, i: nat, j: nat) {
    i == Length(kind) || (kind.Simultaneous? && i == 3 && j < 2)
  }

  predicate Unsettled(kind: Kind, i: nat, k: nat, j: nat) {
    forall m :: i <= m < k ==> !Settled(kind, m, j)
  }

  /** A side answers `na` after the request, and draws its role after the other's first name. */
  predicate Allowed(kind: Kind, asks: bool, i: nat, j: nat) {
    match kind
    case Simple => true
    case Declined => if asks then j >= 2 ==> i >= 2 else i >= 2 ==> j >= 2
    case Simultaneous => (i >= 5 ==> j >= 3) && (j >= 5 ==> i >= 3)
  }

  /** One token. */
  lemma StepAt(
    kind: Kind, asks: bool, ts: seq<Token>, protocol: seq<byte>, i: nat, j: nat, s: seq<byte>, s': seq<byte>)
    requires Speech(kind, asks, ts, protocol) && i < Length(kind) && j <= Length(kind) && !Settled(kind, i, j)
    requires Allowed(kind, asks, i, j) && Allowed(kind, asks, i + 1, j)
    ensures React(SideAt(kind, asks, i, s, j, protocol), SideAt(kind, !asks, j, s', i, protocol), ts[i])
            == (SideAt(kind, asks, i + 1, s, j, protocol), SideAt(kind, !asks, j, s', i + 1, protocol))
  {
    if ts[i].Text? {
      Reserved(ts[i].name);
    }
  }

  /** Some tokens, none of which but the last settles. */
  lemma {:induction false} StepsAt(
    kind: Kind, asks: bool, ts: seq<Token>, protocol: seq<byte>, i: nat, k: nat, j: nat, s: seq<byte>, s': seq<byte>)
    requires Speech(kind, asks, ts, protocol) && i <= k <= |ts| && j <= Length(kind)
    requires Allowed(kind, asks, i, j) && Allowed(kind, asks, k, j)
    requires Unsettled(kind, i, k, j)
    ensures var a, b := SideAt(kind, asks, i, s, j, protocol), SideAt(kind, !asks, j, s', i, protocol);
            && Exchange(a, b, ts[i..k])
               == (SideAt(kind, asks, k, s, j, protocol), SideAt(kind, !asks, j, s', k, protocol))
            && SettlesLast(a, b, ts[i..k])
    decreases k - i
  {
    if i < k {
      assert !Settled(kind, i, j);
      StepAt(kind, asks, ts, protocol, i, j, s, s');
      hide React;
      assert ts[i..k][0] == ts[i] && ts[i..k][1..] == ts[i + 1..k];
      StepsAt(kind, asks, ts, protocol, i + 1, k, j, s, s');
    }
  }

  // ---------------------------------------------------------------------- bytes

  lemma CutAt(fs: seq<seq<byte>>, i: nat, n: nat)
    requires i <= n <= |fs|
    ensures Flatten(fs[..n]) == Flatten(fs[..i]) + Flatten(fs[i..n])
    ensures i < n ==> |Flatten(fs[..i])| + |fs[i]| <= |Flatten(fs[..n])|
  {
    assert fs[..n] == fs[..i] + fs[i..n];
    FlattenAppend(fs[..i], fs[i..n]);
  }

  lemma FollowsPart(fs: seq<seq<byte>>, i: nat, n: nat, s: seq<byte>)
    requires i <= n <= |fs| && Follows(fs, Flatten(fs[..i]) + s)
    ensures Follows(fs[i..n], s)
  {
    var a, b, c := Flatten(fs[..i]), Flatten(fs[i..n]), Flatten(fs[n..]);
    CutAt(fs, i, n);
    CutAt(fs, n, |fs|);
    assert fs[..|fs|] == fs && fs[n..|fs|] == fs[n..];
    assert Flatten(fs) == a + b + c;
    assert forall n :: 0 <= n < |s| && n < |b| ==> s[n] == (a + s)[|a| + n] == Flatten(fs)[|a| + n] == b[n];
    if |s| <= |b| {
      assert s == b[..|s|];
    } else {
      assert b == s[..|b|];
    }
  }

  /** The bytes behind token `i`, cut at the last complete token before `n`. */
  lemma CutUpTo(fs: seq<seq<byte>>, i: nat, n: nat, s: seq<byte>) returns (k: nat, tail: seq<byte>)
    requires i < n <= |fs| && Follows(fs, Flatten(fs[..i]) + s)
    ensures i <= k <= n && s == Flatten(fs[i..k]) + tail && Flatten(fs[..i]) + s == Flatten(fs[..k]) + tail
    ensures k < n ==> |tail| < |fs[k]| && tail <= fs[k]
  {
    hide Flatten;
    FollowsPart(fs, i, n, s);
    k, tail := SplitPieces(fs[i..n], s);
    k := i + k;
    assert fs[i..n][..k - i] == fs[i..k];
    CutAt(fs, i, k);
    Associate(Flatten(fs[..i]), Flatten(fs[i..k]), tail);
  }

  /** Draining bytes that complete the tokens from `i` up to `k`. */
  lemma DrainAt(
    utf8: seq<byte> -> bool, kind: Kind, asks: bool, fs: seq<seq<byte>>, ts: seq<Token>, protocol: seq<byte>,
    i: nat, k: nat, s: seq<byte>, tail: seq<byte>, j: nat, s': seq<byte>)
    requires Spells(utf8, fs, ts) && Speech(kind, asks, ts, protocol) && i <= k <= |fs| && j <= Length(kind)
    requires s == Flatten(fs[i..k]) + tail && !Settled(kind, i, j)
    requires Allowed(kind, asks, i, j) && Allowed(kind, asks, k, j)
    requires Unsettled(kind, i, k, j)
    requires Settled(kind, k, j) || (k < |fs| && |tail| < |fs[k]| && tail <= fs[k])
    ensures Drain(utf8, SideAt(kind, asks, i, s, j, protocol), SideAt(kind, !asks, j, s', i, protocol))
            == Drained(SideAt(kind, asks, k, tail, j, protocol), SideAt(kind, !asks, j, s', k, protocol),
                       fs[i..k], ts[i..k], None)
  {
    hide Next, React, Drain, Exchange, SettlesLast, Speech, Allowed, Asked, IsToken;
    StepsAt(kind, asks, ts, protocol, i, k, j, s, s');
    if !Settled(kind, k, j) {
      CutToken(utf8, fs[k], ts[k], tail, fs[k][|tail|..]);
    }
    DrainTurn(utf8, SideAt(kind, asks, i, s, j, protocol), SideAt(kind, !asks, j, s', i, protocol),
      fs[i..k], ts[i..k], tail);
  }

  /** What a peer writes, with its version, nonce and role. */
  function Lines(
    kind: Kind, asks: bool, version: seq<byte>, nonce: seq<byte>, role: seq<byte>, protocol: seq<byte>): seq<seq<byte>>
  {
    var hello, name := Line(MULTISTREAM + version), Line(protocol);
    match kind
    case Simple => [hello, name]
    case Declined => [hello, Line(if asks then SIMULTANEOUS else NA), name]
    case Simultaneous => [hello, Line(SIMULTANEOUS), name, Line(SELECT + nonce), role, name]
  }

  /** So peers that write lines have these negotiations. */
  lemma LinesAreSpeech(
    utf8: seq<byte> -> bool, kind: Kind, asks: bool, version: seq<byte>, nonce: seq<byte>, role: seq<byte>,
    protocol: seq<byte>) returns (ts: seq<Token>)
    requires Plain(utf8, MULTISTREAM + version) && Plain(utf8, SIMULTANEOUS) && Plain(utf8, NA)
    requires Plain(utf8, SELECT + nonce) && (role == INITIATOR || role == RESPONDER)
    requires Plain(utf8, protocol) && Settles(protocol)
    ensures Spells(utf8, Lines(kind, asks, version, nonce, role, protocol), ts) && Speech(kind, asks, ts, protocol)
  {
    hide IsToken, Plain, Line, Settles;
    LineIsToken(utf8, MULTISTREAM + version);
    LineIsToken(utf8, SIMULTANEOUS);
    LineIsToken(utf8, NA);
    LineIsToken(utf8, SELECT + nonce);
    LineIsToken(utf8, protocol);
    RoleTokens(utf8);
    var hello, name := Text(MULTISTREAM + version), Text(protocol);
    var drawn := if role == INITIATOR then InitiatorToken else ResponderToken;
    match kind
    case Simple => ts := [hello, name];
    case Declined => ts := [hello, Text(if asks then SIMULTANEOUS else NA), name];
    case Simultaneous => ts := [hello, Text(SIMULTANEOUS), name, Text(SELECT + nonce), drawn, name];
  }

  // ---------------------------------------------------------------------- whole runs

  /** Who says what: `asker` is the direction that asks for simultaneous connect. */
  datatype Dialogue = Dialogue(
    kind: Kind, asker: bool, incoming: seq<seq<byte>>, outgoing: seq<seq<byte>>, protocol: seq<byte>)
  {
    function Of(d: bool): seq<seq<byte>> { if d then incoming else outgoing }
  }

  ghost predicate Said(utf8: seq<byte> -> bool, w: Dialogue, d: bool) {
    exists ts :: Spells(utf8, w.Of(d), ts) && Speech(w.kind, d == w.asker, ts, w.protocol)
  }

  /** The chunks of one direction. */
  function Only(d: bool, chunks: seq<Event>): seq<Event> {
    if chunks == [] then [] else
    var n := |chunks| - 1;
    Only(d, chunks[..n]) + if chunks[n].0 == d then [chunks[n]] else []
  }

  /** How far a direction has come: tokens taken, bytes in the buffer, bytes handed up. */
  datatype Progress = Progress(i: nat, acc: seq<byte>, up: seq<byte>)

  datatype View = View(incoming: Progress, outgoing: Progress) {
    function Of(d: bool): Progress { if d then incoming else outgoing }
    function With(d: bool, p: Progress): View { if d then View(p, outgoing) else View(incoming, p) }
  }

  /** Direction `d` has received the first `n` tokens. */
  predicate Has(w: Dialogue, d: bool, n: nat, chunks: seq<Event>)
    requires n <= |w.Of(d)|
  {
    |Stream(d, chunks)| >= |Flatten(w.Of(d)[..n])|
  }

  /** A bare `na` answers a request, and a role comes after the other side's first name. */
  predicate Ordered(w: Dialogue, chunks: seq<Event>)
    requires |w.incoming| == |w.outgoing| == Length(w.kind)
  {
    match w.kind
    case Simple => true
    case Declined => Has(w, !w.asker, 2, chunks) ==> Has(w, w.asker, 2, chunks)
    case Simultaneous =>
      && (Has(w, true, 5, chunks) ==> Has(w, false, 3, chunks))
      && (Has(w, false, 5, chunks) ==> Has(w, true, 3, chunks))
  }

  /** Bytes that wait for more: an incomplete token; behind a first name that settled for a while,
      also a selection. */
  predicate Waits(kind: Kind, fs: seq<seq<byte>>, i: nat, acc: seq<byte>)
    requires i < |fs| == Length(kind)
  {
    |acc| < |fs[i]| || (kind.Simultaneous? && i == 3 && |acc| < |fs[3]| + |fs[4]|)
  }

  /** The progress accounts for all bytes received. What follows the last token is handed up if
      the last chunk lies behind it, and is buffered otherwise. */
  ghost predicate Tracks(w: Dialogue, d: bool, chunks: seq<Event>, p: Progress) {
    var fs := w.Of(d);
    && p.i <= |fs| == Length(w.kind)
    && Stream(d, chunks) == Flatten(fs[..p.i]) + (p.up + p.acc)
    && if p.i < |fs| then p.up == [] && Waits(w.kind, fs, p.i, p.acc)
       else if Behind(Only(d, chunks), |p.up + p.acc|) then p.acc == [] else p.up == []
  }

  function SideOf(w: Dialogue, d: bool, v: View): Side {
    SideAt(w.kind, d == w.asker, v.Of(d).i, v.Of(d).acc, v.Of(!d).i, w.protocol)
  }

  /** What the direction has taken and handed up is what the view says. */
  ghost predicate Half(utf8: seq<byte> -> bool, w: Dialogue, d: bool, chunks: seq<Event>, v: View) {
    var items := Items(utf8, Fresh(), d, chunks);
    && Tracks(w, d, chunks, v.Of(d))
    && Tokens(items) == w.Of(d)[..v.Of(d).i] && Up(items) == v.Of(d).up
    && (w.kind.Simultaneous? && v.Of(d).i >= 4 ==> v.Of(!d).i >= 2)
  }

  ghost predicate Right(utf8: seq<byte> -> bool, w: Dialogue, chunks: seq<Event>, v: View) {
    && After(utf8, Fresh(), chunks) == Conn(SideOf(w, true, v), SideOf(w, false, v), false)
    && Half(utf8, w, true, chunks, v) && Half(utf8, w, false, chunks, v)
  }

  /** The tokens received are the tokens taken, except that a selection may wait. */
  lemma Position(w: Dialogue, d: bool, chunks: seq<Event>, p: Progress, n: nat)
    requires Tracks(w, d, chunks, p) && n <= |w.Of(d)| && n != 4
    ensures Has(w, d, n, chunks) <==> p.i >= n
  {
    hide Flatten, Behind, Only;
    var fs := w.Of(d);
    if p.i >= n {
      CutAt(fs, n, p.i);
    } else {
      CutAt(fs, p.i, n);
      CutAt(fs, p.i + 1, n);
      CutAt(fs, p.i, p.i + 1);
      if p.i == 3 {
        CutAt(fs, 4, n);
      }
    }
  }

  lemma PositionsAllowed(w: Dialogue, d: bool, chunks: seq<Event>, v: View)
    requires |w.incoming| == |w.outgoing| == Length(w.kind)
    requires Tracks(w, true, chunks, v.incoming) && Tracks(w, false, chunks, v.outgoing) && Ordered(w, chunks)
    ensures Allowed(w.kind, d == w.asker, v.Of(d).i, v.Of(!d).i)
  {
    hide Tracks, Has;
    if w.kind.Declined? {
      Position(w, true, chunks, v.incoming, 2);
      Position(w, false, chunks, v.outgoing, 2);
    } else if w.kind.Simultaneous? {
      Position(w, true, chunks, v.incoming, 3);
      Position(w, false, chunks, v.outgoing, 3);
      Position(w, true, chunks, v.incoming, 5);
      Position(w, false, chunks, v.outgoing, 5);
    }
  }

  lemma OnlySnoc(d: bool, chunks: seq<Event>, e: bool, b: seq<byte>)
    ensures Only(d, chunks + [(e, b)]) == Only(d, chunks) + if e == d then [(e, b)] else []
  {
    assert (chunks + [(e, b)])[..|chunks|] == chunks;
  }

  lemma Received(w: Dialogue, d: bool, chunks: seq<Event>, b: seq<byte>, p: Progress)
    requires Tracks(w, d, chunks, p) && p.i < |w.Of(d)|
    ensures Stream(d, chunks + [(d, b)]) == Flatten(w.Of(d)[..p.i]) + (p.acc + b)
  {
    hide Flatten, Stream, Behind, Only, Waits;
    StreamSnoc(d, chunks, d, b);
    assert p.up + p.acc == p.acc;
    Associate(Flatten(w.Of(d)[..p.i]), p.acc, b);
  }

  /** Where a direction that is not settled gets to with one more chunk. */
  lemma Reaches(w: Dialogue, d: bool, chunks: seq<Event>, b: seq<byte>, p: Progress, j: nat) returns (p': Progress)
    requires Tracks(w, d, chunks, p) && !Settled(w.kind, p.i, j) && (w.kind.Simultaneous? && p.i >= 4 ==> j >= 2)
    requires Follows(w.Of(d), Stream(d, chunks + [(d, b)]))
    requires w.kind.Simultaneous? && j < 2 ==> |Stream(d, chunks + [(d, b)])| < |Flatten(w.Of(d)[..5])|
    ensures p.i <= p'.i <= |w.Of(d)| && p'.up == [] && p.acc + b == Flatten(w.Of(d)[p.i..p'.i]) + p'.acc
    ensures Unsettled(w.kind, p.i, p'.i, j)
    ensures || Settled(w.kind, p'.i, j)
            || (p'.i < |w.Of(d)| && |p'.acc| < |w.Of(d)[p'.i]| && p'.acc <= w.Of(d)[p'.i])
    ensures w.kind.Simultaneous? && p'.i >= 4 ==> j >= 2
    ensures Stream(d, chunks + [(d, b)]) == Flatten(w.Of(d)[..p'.i]) + p'.acc
  {
    var fs, i := w.Of(d), p.i;
    var n := if w.kind.Simultaneous? && j < 2 then 3 else |fs|;
    Received(w, d, chunks, b, p);
    var k, tail := CutUpTo(fs, i, n, p.acc + b);
    hide Flatten, Stream, Tracks, Follows;
    p' := Progress(k, tail, []);
  }

  /** And that accounts for all bytes again. */
  lemma StillTracks(w: Dialogue, d: bool, chunks: seq<Event>, b: seq<byte>, p: Progress, p': Progress, j: nat)
    requires Tracks(w, d, chunks, p) && p.i < |w.Of(d)|
    requires p'.i <= |w.Of(d)| && p'.up == [] && Stream(d, chunks + [(d, b)]) == Flatten(w.Of(d)[..p'.i]) + p'.acc
    requires w.kind.Simultaneous? && j < 2 ==> |Stream(d, chunks + [(d, b)])| < |Flatten(w.Of(d)[..5])|
    requires Settled(w.kind, p'.i, j) || (p'.i < |w.Of(d)| && |p'.acc| < |w.Of(d)[p'.i]|)
    ensures Tracks(w, d, chunks + [(d, b)], p')
  {
    hide Flatten, Only;
    var fs := w.Of(d);
    assert p'.up + p'.acc == p'.acc;
    if p'.i == |fs| {
      Position(w, d, chunks, p, |fs|);
      StreamSnoc(d, chunks, d, b);
      OnlySnoc(d, chunks, d, b);
    } else if w.kind.Simultaneous? && p'.i == 3 && j < 2 {
      CutAt(fs, 3, 4);
      CutAt(fs, 4, 5);
      assert fs[3..4] == [fs[3]] && fs[4..5] == [fs[4]];
      FlattenSingle(fs[3]);
      FlattenSingle(fs[4]);
    }
  }

  /** A chunk comes for a side whose first name has settled for a while: it is handed up, with a
      selection that was glued to the name, instead of being read. */
  predicate Premature(w: Dialogue, d: bool, chunks: seq<Event>, b: seq<byte>)
    requires |w.incoming| == |w.outgoing| == Length(w.kind)
  {
    && w.kind.Simultaneous? && Has(w, d, 3, chunks) && !Has(w, !d, 2, chunks)
    && |Stream(d, chunks)| + |b| > |Flatten(w.Of(d)[..3])|
  }

  /** The direction that gets no chunk. */
  lemma OtherHalf(utf8: seq<byte> -> bool, w: Dialogue, d: bool, chunks: seq<Event>, b: seq<byte>, v: View, p: Progress)
    requires Half(utf8, w, !d, chunks, v) && p.i >= v.Of(d).i
    ensures Half(utf8, w, !d, chunks + [(d, b)], v.With(d, p))
  {
    hide Items, Poll, Tokens, Up, After, Waits, Behind, Flatten, Stream, Only;
    ItemsSnoc(utf8, !d, chunks, d, b);
    StreamSnoc(!d, chunks, d, b);
    OnlySnoc(!d, chunks, d, b);
    assert Stream(!d, chunks) + [] == Stream(!d, chunks) && Only(!d, chunks) + [] == Only(!d, chunks);
  }

  /** A chunk for a direction that is settled for good. */
  lemma ChunkUp(utf8: seq<byte> -> bool, w: Dialogue, d: bool, chunks: seq<Event>, b: seq<byte>, v: View)
    returns (p: Progress)
    requires Right(utf8, w, chunks, v) && v.Of(d).i == |w.Of(d)| == Length(w.kind)
    ensures Right(utf8, w, chunks + [(d, b)], v.With(d, p))
  {
    hide Items, Poll, Tokens, Up, After, Flatten, Stream, Only;
    var q := v.Of(d);
    p := Progress(q.i, [], q.up + (q.acc + b));
    OtherHalf(utf8, w, d, chunks, b, v, p);
    SettledPoll(utf8, After(utf8, Fresh(), chunks), d, b);
    ItemsSnoc(utf8, d, chunks, d, b);
    StreamSnoc(d, chunks, d, b);
    OnlySnoc(d, chunks, d, b);
    var all := Flatten(w.Of(d)[..q.i]);
    Associate(all, q.up + q.acc, b);
    Associate(q.up, q.acc, b);
    var taken := Tokens(Items(utf8, Fresh(), d, chunks));
    assert p.up + p.acc == p.up && taken + [] == taken;
  }

  /** An empty chunk for a direction that is settled for a while. */
  lemma ChunkEmpty(utf8: seq<byte> -> bool, w: Dialogue, d: bool, chunks: seq<Event>, v: View)
    requires Right(utf8, w, chunks, v) && v.Of(d).i == 3 && v.Of(d).acc == []
    requires w.kind.Simultaneous? && v.Of(!d).i < 2
    ensures Right(utf8, w, chunks + [(d, [])], v)
  {
    hide Items, Poll, Tokens, Up, After, Flatten, Stream, Only;
    OtherHalf(utf8, w, d, chunks, [], v, v.Of(d));
    SettledPoll(utf8, After(utf8, Fresh(), chunks), d, []);
    ItemsSnoc(utf8, d, chunks, d, []);
    StreamSnoc(d, chunks, d, []);
    var items := Items(utf8, Fresh(), d, chunks);
    assert Tokens(items) + [] == Tokens(items) && Stream(d, chunks) + [] == Stream(d, chunks);
  }

  lemma SideAcc(w: Dialogue, d: bool, v: View, s: seq<byte>)
    ensures SideOf(w, d, v).(acc := s) == SideAt(w.kind, d == w.asker, v.Of(d).i, s, v.Of(!d).i, w.protocol)
  {
  }

  /** Reading one chunk. */
  lemma ReadPoll(utf8: seq<byte> -> bool, w: Dialogue, d: bool, c: Conn, b: seq<byte>, v: View, p: Progress)
    requires Said(utf8, w, d) && c == Conn(SideOf(w, true, v), SideOf(w, false, v), false)
    requires v.Of(d).i <= p.i <= |w.Of(d)| && v.Of(!d).i <= Length(w.kind)
    requires v.Of(d).acc + b == Flatten(w.Of(d)[v.Of(d).i..p.i]) + p.acc
    requires !Settled(w.kind, v.Of(d).i, v.Of(!d).i)
    requires Unsettled(w.kind, v.Of(d).i, p.i, v.Of(!d).i)
    requires || Settled(w.kind, p.i, v.Of(!d).i)
             || (p.i < |w.Of(d)| && |p.acc| < |w.Of(d)[p.i]| && p.acc <= w.Of(d)[p.i])
    requires Allowed(w.kind, d == w.asker, v.Of(d).i, v.Of(!d).i) && Allowed(w.kind, d == w.asker, p.i, v.Of(!d).i)
    ensures var (c', _, items) := Poll(utf8, c, d, b);
            var v' := v.With(d, p);
            && c' == Conn(SideOf(w, true, v'), SideOf(w, false, v'), false)
            && Tokens(items) == w.Of(d)[v.Of(d).i..p.i] && Up(items) == []
  {
    hide Poll, Tokens, Up, Flatten, Drain, Spells, Speech, Allowed, Asked;
    var ts :| Spells(utf8, w.Of(d), ts) && Speech(w.kind, d == w.asker, ts, w.protocol);
    UnsettledPoll(utf8, c, d, b);
    SideAcc(w, d, v, v.Of(d).acc + b);
    DrainAt(utf8, w.kind, d == w.asker, w.Of(d), ts, w.protocol,
      v.Of(d).i, p.i, v.Of(d).acc + b, p.acc, v.Of(!d).i, v.Of(!d).acc);
  }

  /** A chunk for a direction that is not settled. */
  lemma ChunkRead(utf8: seq<byte> -> bool, w: Dialogue, d: bool, chunks: seq<Event>, b: seq<byte>, v: View)
    returns (p: Progress)
    requires Said(utf8, w, d) && |w.incoming| == |w.outgoing| == Length(w.kind)
    requires Right(utf8, w, chunks, v) && !Settled(w.kind, v.Of(d).i, v.Of(!d).i)
    requires Follows(w.Of(d), Stream(d, chunks + [(d, b)])) && Ordered(w, chunks) && Ordered(w, chunks + [(d, b)])
    ensures Right(utf8, w, chunks + [(d, b)], v.With(d, p))
  {
    hide Items, Poll, Tokens, Up, After, Flatten, Stream, Only, Said, Allowed, Follows, SideOf, Settled, Ordered,
      Waits, Behind;
    var fs, i, j := w.Of(d), v.Of(d).i, v.Of(!d).i;
    NotFar(utf8, w, d, chunks, b, v);
    TrackedLength(w, d, chunks, v.Of(d), j);
    p := Reaches(w, d, chunks, b, v.Of(d), j);
    StillTracks(w, d, chunks, b, v.Of(d), p, j);
    OtherHalf(utf8, w, d, chunks, b, v, p);
    PositionsAllowed(w, d, chunks, v);
    PositionsAllowed(w, d, chunks + [(d, b)], v.With(d, p));
    ItemsSnoc(utf8, d, chunks, d, b);
    ReadPoll(utf8, w, d, After(utf8, Fresh(), chunks), b, v, p);
    assert fs[..i] + fs[i..p.i] == fs[..p.i];
  }

  lemma TrackedLength(w: Dialogue, d: bool, chunks: seq<Event>, p: Progress, j: nat)
    requires Tracks(w, d, chunks, p) && !Settled(w.kind, p.i, j)
    ensures p.i < |w.Of(d)|
  {
  }

  /** A role cannot come before the other side's request. */
  lemma NotFar(utf8: seq<byte> -> bool, w: Dialogue, d: bool, chunks: seq<Event>, b: seq<byte>, v: View)
    requires |w.incoming| == |w.outgoing| == Length(w.kind)
    requires Right(utf8, w, chunks, v) && Ordered(w, chunks + [(d, b)])
    ensures w.kind.Simultaneous? && v.Of(!d).i < 2 ==>
              |Stream(d, chunks + [(d, b)])| < |Flatten(w.Of(d)[..5])|
  {
    hide Items, Poll, Tokens, Up, After, Flatten, Stream, Only, Tracks;
    if w.kind.Simultaneous? {
      StreamSnoc(!d, chunks, d, b);
      Position(w, !d, chunks, v.Of(!d), 3);
    }
  }

  /** The two peers keep to the dialogue; how they are cut and interleaved is left open. */
  ghost predicate Keeps(utf8: seq<byte> -> bool, w: Dialogue, chunks: seq<Event>) {
    && |w.incoming| == |w.outgoing| == Length(w.kind)
    && Said(utf8, w, true) && Said(utf8, w, false)
    && Follows(w.incoming, Stream(true, chunks)) && Follows(w.outgoing, Stream(false, chunks))
    && forall k :: 0 <= k <= |chunks| ==> Ordered(w, chunks[..k])
  }

  /** After the first `k` chunks, each direction has taken its tokens and handed up nothing else
      than what follows them. */
  ghost predicate RightAfter(utf8: seq<byte> -> bool, w: Dialogue, chunks: seq<Event>, k: nat)
    requires k <= |chunks|
  {
    exists v :: Right(utf8, w, chunks[..k], v)
  }

  ghost predicate PrematureAt(utf8: seq<byte> -> bool, w: Dialogue, chunks: seq<Event>, k: nat)
    requires Keeps(utf8, w, chunks) && k < |chunks|
  {
    Premature(w, chunks[k].0, chunks[..k], chunks[k].1)
  }

  lemma {:induction false} FollowsPrefix(fs: seq<seq<byte>>, d: bool, chunks: seq<Event>, k: nat)
    requires k <= |chunks| && Follows(fs, Stream(d, chunks))
    ensures Follows(fs, Stream(d, chunks[..k]))
    decreases |chunks|
  {
    if k == |chunks| {
      assert chunks[..k] == chunks;
    } else {
      var n := |chunks| - 1;
      hide Flatten, Stream;
      assert chunks == chunks[..n] + [(chunks[n].0, chunks[n].1)];
      StreamSnoc(d, chunks[..n], chunks[n].0, chunks[n].1);
      FollowsPrefix(fs, d, chunks[..n], k);
      assert chunks[..n][..k] == chunks[..k];
    }
  }

  /** A premature chunk is handed up while the direction is still negotiating. */
  lemma PrematureBreaks(
    utf8: seq<byte> -> bool, w: Dialogue, d: bool, chunks: seq<Event>, b: seq<byte>, v: View, v': View)
    requires |w.incoming| == |w.outgoing| == Length(w.kind) && Right(utf8, w, chunks, v) && Premature(w, d, chunks, b)
    ensures !Right(utf8, w, chunks + [(d, b)], v')
  {
    hide Items, Poll, Tokens, Up, After, Flatten, Stream, Only, Behind;
    Position(w, d, chunks, v.Of(d), 3);
    Position(w, !d, chunks, v.Of(!d), 2);
    SettledPoll(utf8, After(utf8, Fresh(), chunks), d, b);
    ItemsSnoc(utf8, d, chunks, d, b);
  }

  lemma NextRight(utf8: seq<byte> -> bool, w: Dialogue, d: bool, chunks: seq<Event>, b: seq<byte>, v: View)
    returns (v': View)
    requires |w.incoming| == |w.outgoing| == Length(w.kind) && Said(utf8, w, d)
    requires Right(utf8, w, chunks, v) && !Premature(w, d, chunks, b)
    requires Follows(w.Of(d), Stream(d, chunks + [(d, b)])) && Ordered(w, chunks) && Ordered(w, chunks + [(d, b)])
    ensures Right(utf8, w, chunks + [(d, b)], v')
  {
    hide Items, Poll, Tokens, Up, After, Flatten, Stream, Only, Behind, Ordered, Said, Follows;
    if v.Of(d).i == Length(w.kind) {
      var p := ChunkUp(utf8, w, d, chunks, b, v);
      v' := v.With(d, p);
    } else if Settled(w.kind, v.Of(d).i, v.Of(!d).i) {
      Position(w, d, chunks, v.Of(d), 3);
      Position(w, !d, chunks, v.Of(!d), 2);
      ChunkEmpty(utf8, w, d, chunks, v);
      v' := v;
    } else {
      var p := ChunkRead(utf8, w, d, chunks, b, v);
      v' := v.With(d, p);
    }
  }

  lemma StepRight(utf8: seq<byte> -> bool, w: Dialogue, chunks: seq<Event>, k: nat)
    requires Keeps(utf8, w, chunks) && k < |chunks| && RightAfter(utf8, w, chunks, k)
    ensures RightAfter(utf8, w, chunks, k + 1) <==> !PrematureAt(utf8, w, chunks, k)
  {
    hide Right, Premature, Said, Follows, Stream, Flatten;
    var (d, b) := chunks[k];
    var before, now := chunks[..k], chunks[..k + 1];
    assert now == before + [(d, b)];
    FollowsPrefix(w.Of(d), d, chunks, k + 1);
    var v :| Right(utf8, w, before, v);
    if Premature(w, d, before, b) {
      forall v'
        ensures !Right(utf8, w, now, v')
      {
        PrematureBreaks(utf8, w, d, before, b, v, v');
      }
    } else {
      var v' := NextRight(utf8, w, d, before, b, v);
    }
  }

  lemma NothingYet(utf8: seq<byte> -> bool, w: Dialogue)
    requires |w.incoming| == |w.outgoing| == Length(w.kind) && Said(utf8, w, true) && Said(utf8, w, false)
    ensures exists v :: Right(utf8, w, [], v)
  {
    var p := Progress(0, [], []);
    hide Half;
    NothingHalf(utf8, w, true);
    NothingHalf(utf8, w, false);
    assert Right(utf8, w, [], View(p, p));
  }

  lemma NothingHalf(utf8: seq<byte> -> bool, w: Dialogue, d: bool)
    requires |w.Of(d)| == Length(w.kind) && Said(utf8, w, d)
    ensures var p := Progress(0, [], []); Half(utf8, w, d, [], View(p, p))
  {
    FirstNotEmpty(utf8, w, d);
    hide Said, Spells, Speech, Behind, Only;
    assert w.Of(d)[..0] == [] && Flatten(w.Of(d)[..0]) == [];
  }

  lemma FirstNotEmpty(utf8: seq<byte> -> bool, w: Dialogue, d: bool)
    requires Said(utf8, w, d)
    ensures forall i :: 0 <= i < |w.Of(d)| ==> w.Of(d)[i] != []
  {
    var ts :| Spells(utf8, w.Of(d), ts) && Speech(w.kind, d == w.asker, ts, w.protocol);
    forall i | 0 <= i < |w.Of(d)|
      ensures w.Of(d)[i] != []
    {
      TokenNotEmpty(utf8, w.Of(d)[i], ts[i]);
    }
  }

  /** Over every run in which the peers keep to the dialogue: both directions take exactly their
      tokens and hand up exactly what follows them, throughout, if and only if no chunk is
      premature. */
  lemma AlwaysRightIff(utf8: seq<byte> -> bool, w: Dialogue, chunks: seq<Event>)
    requires Keeps(utf8, w, chunks)
    ensures (forall k: nat :: k <= |chunks| ==> RightAfter(utf8, w, chunks, k)) <==>
            forall k: nat :: k < |chunks| ==> !PrematureAt(utf8, w, chunks, k)
  {
    assert chunks[..0] == [];
    NothingYet(utf8, w);
    assert RightAfter(utf8, w, chunks, 0);
    hide RightAfter, PrematureAt, Keeps;
    var good := seq(|chunks| + 1, k requires 0 <= k <= |chunks| => RightAfter(utf8, w, chunks, k));
    var bad := seq(|chunks|, k requires 0 <= k < |chunks| => PrematureAt(utf8, w, chunks, k));
    forall k: nat | k < |chunks| && good[k]
      ensures good[k + 1] <==> !bad[k]
    {
      StepRight(utf8, w, chunks, k);
    }
    Chain(good, bad);
    if forall k: nat :: k < |good| ==> good[k] {
      assert forall k: nat :: k <= |chunks| ==> good[k] == RightAfter(utf8, w, chunks, k);
      assert forall k: nat :: k < |chunks| ==> bad[k] == PrematureAt(utf8, w, chunks, k);
    } else {
      var k: nat :| k < |good| && !good[k];
      assert !RightAfter(utf8, w, chunks, k);
      var j: nat :| j < |bad| && bad[j];
      assert PrematureAt(utf8, w, chunks, j);
    }
  }

  ghost predicate NeverPremature(utf8: seq<byte> -> bool, w: Dialogue, chunks: seq<Event>)
    requires Keeps(utf8, w, chunks)
  {
    forall k: nat :: k < |chunks| ==> !PrematureAt(utf8, w, chunks, k)
  }

  /** A side that selects only when the other side's request is there is never premature. */
  lemma InTurnNeverPremature(utf8: seq<byte> -> bool, w: Dialogue, chunks: seq<Event>)
    requires Keeps(utf8, w, chunks) && w.kind.Simultaneous?
    requires forall k, d :: 0 <= k <= |chunks| && |Stream(d, chunks[..k])| > |Flatten(w.Of(d)[..3])| ==>
               Has(w, !d, 2, chunks[..k])
    ensures NeverPremature(utf8, w, chunks)
  {
    hide Flatten, Stream, Keeps;
    forall k: nat | k < |chunks|
      ensures !PrematureAt(utf8, w, chunks, k)
    {
      var (d, b) := chunks[k];
      assert chunks[..k + 1] == chunks[..k] + [(d, b)];
      StreamSnoc(d, chunks[..k], d, b);
      StreamSnoc(!d, chunks[..k], d, b);
    }
  }

  /** So at the end of a run there is a view. */
  lemma RightAtEnd(utf8: seq<byte> -> bool, w: Dialogue, chunks: seq<Event>) returns (v: View)
    requires Keeps(utf8, w, chunks) && NeverPremature(utf8, w, chunks)
    ensures Right(utf8, w, chunks, v)
  {
    hide Right, Keeps, PrematureAt;
    AlwaysRightIff(utf8, w, chunks);
    assert RightAfter(utf8, w, chunks, |chunks|);
    assert chunks[..|chunks|] == chunks;
    v :| Right(utf8, w, chunks, v);
  }

  /** The end of a negotiation of any kind, however the two sides are cut and interleaved, with no
      premature chunk, which only simultaneous connect can have. Each direction has consumed
      exactly its tokens and settled on the protocol. Its payload is handed up, all of it, if the
      last chunk lies behind the last token, and waits otherwise. */
  lemma BothSettle(
    utf8: seq<byte> -> bool, w: Dialogue, chunks: seq<Event>, d: bool, payload: seq<byte>, payload': seq<byte>)
    requires Keeps(utf8, w, chunks) && (w.kind.Simultaneous? ==> NeverPremature(utf8, w, chunks))
    requires Stream(d, chunks) == Flatten(w.Of(d)) + payload && Stream(!d, chunks) == Flatten(w.Of(!d)) + payload'
    ensures var c, os := After(utf8, Fresh(), chunks), Outputs(utf8, Fresh(), d, chunks);
            var up := Behind(Only(d, chunks), |payload|);
            && !c.error && c.Of(d) == Side(if up then [] else payload, false, Some(w.protocol))
            && Spells(utf8, w.Of(d), Reported(os)) && Failed(os).None?
            && Handed(os) == (if up then payload else []) && Under(os, w.protocol)
  {
    assert Said(utf8, w, d);
    hide Items, Tokens, Up, After, Flatten, Stream, Only, Behind, Keeps, Outputs, Handed, Reported, Failed, Said;
    var v := RightAtEnd(utf8, w, chunks);
    AllTaken(w, d, chunks, v.Of(d), payload);
    AllTaken(w, !d, chunks, v.Of(!d), payload');
    SaidOutputs(utf8, w, chunks, d);
  }

  /** What is returned for the tokens of a side. */
  lemma SaidOutputs(utf8: seq<byte> -> bool, w: Dialogue, chunks: seq<Event>, d: bool)
    requires Said(utf8, w, d) && Tokens(Items(utf8, Fresh(), d, chunks)) == w.Of(d)
    ensures var os := Outputs(utf8, Fresh(), d, chunks);
            && Handed(os) == Up(Items(utf8, Fresh(), d, chunks))
            && Spells(utf8, w.Of(d), Reported(os)) && Failed(os).None? && Under(os, w.protocol)
  {
    hide Items, Tokens, Up, Outputs, Handed, Reported, Failed, Under, Spells;
    var ts :| Spells(utf8, w.Of(d), ts) && Speech(w.kind, d == w.asker, ts, w.protocol);
    assert NamesOnly(ts, w.protocol);
    OutputsOf(utf8, d, chunks, w.Of(d), ts, w.protocol);
  }

  lemma AllTaken(w: Dialogue, d: bool, chunks: seq<Event>, p: Progress, payload: seq<byte>)
    requires Tracks(w, d, chunks, p) && Stream(d, chunks) == Flatten(w.Of(d)) + payload
    ensures p.i == |w.Of(d)| && w.Of(d)[..p.i] == w.Of(d) && p.up + p.acc == payload
  {
    hide Flatten, Stream, Only, Behind;
    var fs := w.Of(d);
    assert fs[..|fs|] == fs;
    Position(w, d, chunks, p, |fs|);
    var all := Flatten(fs);
    assert (all + payload)[|all|..] == payload && (all + (p.up + p.acc))[|all|..] == p.up + p.acc;
  }

  /** The two offers, however they are cut and cross, and then everything else, however it is cut
      and interleaved: that keeps to the dialogue, and no chunk is premature. */
  lemma OffersFirst(utf8: seq<byte> -> bool, w: Dialogue, chunks: seq<Event>, m: nat)
    requires w.kind.Simultaneous? && |w.incoming| == |w.outgoing| == 6 && Said(utf8, w, true) && Said(utf8, w, false)
    requires Follows(w.incoming, Stream(true, chunks)) && Follows(w.outgoing, Stream(false, chunks))
    requires m <= |chunks| && Stream(true, chunks[..m]) == Flatten(w.incoming[..3])
    requires Stream(false, chunks[..m]) == Flatten(w.outgoing[..3])
    ensures Keeps(utf8, w, chunks) && NeverPremature(utf8, w, chunks)
  {
    hide Flatten, Stream, Said, Follows, PrematureAt;
    forall k: nat, d: bool | k <= |chunks|
      ensures Has(w, d, 5, chunks[..k]) ==> Has(w, !d, 3, chunks[..k])
      ensures |Stream(d, chunks[..k])| > |Flatten(w.Of(d)[..3])| ==> Has(w, !d, 2, chunks[..k])
    {
      FirstNotEmpty(utf8, w, d);
      CutAt(w.Of(d), 3, 5);
      CutAt(w.Of(!d), 2, 3);
      if k <= m {
        StreamPrefix(d, chunks[..m], k);
        assert chunks[..m][..k] == chunks[..k];
      } else {
        StreamPrefix(!d, chunks[..k], m);
        assert chunks[..k][..m] == chunks[..m];
      }
    }
    InTurnNeverPremature(utf8, w, chunks);
  }

  /** Two crossing offers: however they are cut and cross, no agreement is left. */
  lemma OffersCross(utf8: seq<byte> -> bool, w: Dialogue, chunks: seq<Event>)
    requires w.kind.Simultaneous? && |w.incoming| == |w.outgoing| == 6 && Said(utf8, w, true) && Said(utf8, w, false)
    requires Stream(true, chunks) == Flatten(w.incoming[..3]) && Stream(false, chunks) == Flatten(w.outgoing[..3])
    ensures After(utf8, Fresh(), chunks) == Conn(Side([], true, None), Side([], true, None), false)
  {
    hide Items, Tokens, Up, After, Flatten, Stream, Only, Behind, Said, Keeps, NeverPremature;
    CutAt(w.incoming, 3, 6);
    CutAt(w.outgoing, 3, 6);
    assert w.incoming[..6] == w.incoming && w.outgoing[..6] == w.outgoing && chunks[..|chunks|] == chunks;
    OffersFirst(utf8, w, chunks, |chunks|);
    var v := RightAtEnd(utf8, w, chunks);
    OfferTaken(utf8, w, true, chunks, v.incoming);
    OfferTaken(utf8, w, false, chunks, v.outgoing);
  }

  lemma OfferTaken(utf8: seq<byte> -> bool, w: Dialogue, d: bool, chunks: seq<Event>, p: Progress)
    requires w.kind.Simultaneous? && Said(utf8, w, d) && Tracks(w, d, chunks, p)
    requires Stream(d, chunks) == Flatten(w.Of(d)[..3])
    ensures p.i == 3 && p.acc == []
  {
    hide Flatten, Stream, Only, Behind, Said;
    var fs := w.Of(d);
    FirstNotEmpty(utf8, w, d);
    Position(w, d, chunks, p, 3);
    CutAt(fs, 3, p.i);
  }

  /** A selection in a chunk of its own, before the other side's request: it is handed up as if
      the protocol had sent it. */
  lemma EarlySelection(utf8: seq<byte> -> bool, w: Dialogue, d: bool)
    requires w.kind.Simultaneous? && |w.Of(d)| == 6 && Said(utf8, w, d)
    ensures var chunks := [(d, Flatten(w.Of(d)[..3])), (d, w.Of(d)[3])];
            && Handed(Outputs(utf8, Fresh(), d, chunks)) == w.Of(d)[3] != []
            && After(utf8, Fresh(), chunks).Of(d) == Side([], true, Some(w.protocol))
  {
    hide Next, Drain, After, Items, Tokens, Up, Speech, Poll, Outputs, Handed;
    var fs := w.Of(d);
    var ts :| Spells(utf8, fs, ts) && Speech(w.kind, d == w.asker, ts, w.protocol);
    FirstNotEmpty(utf8, w, d);
    var first, second := [(d, Flatten(fs[..3]))], (d, fs[3]);
    var chunks := first + [second];
    assert chunks == [(d, Flatten(fs[..3])), (d, fs[3])];
    assert first[1..] == [];
    assert Stream(d, first) == Flatten(fs[..3]) + [];
    SpellsPart(utf8, fs, ts, 3);
    StepsAt(w.kind, d == w.asker, ts, w.protocol, 0, 3, 0, [], []);
    assert ts[0..3] == ts[..3];
    Turn(utf8, Fresh(), d, first, fs[..3], ts[..3], []);
    ItemsSnoc(utf8, d, first, d, fs[3]);
    SettledPoll(utf8, After(utf8, Fresh(), first), d, fs[3]);
    OutputsAreItems(utf8, d, chunks);
  }

  lemma SpellsPart(utf8: seq<byte> -> bool, fs: seq<seq<byte>>, ts: seq<Token>, n: nat)
    requires Spells(utf8, fs, ts) && n <= |fs|
    ensures Spells(utf8, fs[..n], ts[..n])
  {
  }
}
