/** What yamux streams get of the frames that two peers write, however these are cut and
    interleaved. */
module YamuxWritten {
  import opened Bytes
  import opened Framing
  import opened Streams
  import opened Yamux
  import opened YamuxData
  import Delivery

  predicate AllProper(ws: seq<Written>) {
    forall i :: 0 <= i < |ws| ==> Proper(ws[i])
  }

  function WireAll(ws: seq<Written>): (fs: seq<seq<byte>>)
    requires AllProper(ws)
    ensures |fs| == |ws| && forall i :: 0 <= i < |ws| ==> fs[i] == Wire(ws[i])
  {
    seq(|ws|, i requires 0 <= i < |ws| => Wire(ws[i]))
  }

  function MeaningsOf(d: bool, ws: seq<Written>): (ms: seq<Frame>)
    ensures |ms| == |ws| && forall i :: 0 <= i < |ws| ==> ms[i] == MeaningOf(d, ws[i])
  {
    seq(|ws|, i requires 0 <= i < |ws| => MeaningOf(d, ws[i]))
  }

  /** The bodies of the data frames for a stream. */
  function BodiesFor(ws: seq<Written>, id: StreamId): seq<seq<byte>> {
    if ws == [] then [] else
    var w := ws[|ws| - 1];
    BodiesFor(ws[..|ws| - 1], id) + if w.ty.Data? && w.stream == id then [w.body] else []
  }

  // ------------------------------------------------------------------- one frame

  /** A data frame carries exactly the body its peer wrote, for the stream it is for; a frame of
      any other type carries nothing. */
  lemma WrittenData(w: Written)
    requires Proper(w)
    ensures Payload(Wire(w)) == if w.ty.Data? then Some(w.body) else None
    ensures StreamIn(Wire(w)) == w.stream
  {
    hide EmitHeader, ParseHeader;
    WrittenFrame(w, true);
    HeaderRoundTrip(HeaderFor(w));
    var f := Wire(w);
    assert f[..12] == EmitHeader(HeaderFor(w)) && f[12..] == w.body;
  }

  lemma {:induction false} DataForWritten(ws: seq<Written>, id: StreamId)
    requires AllProper(ws)
    ensures DataFor(WireAll(ws), id) == BodiesFor(ws, id)
    decreases |ws|
  {
    if ws != [] {
      hide Payload, StreamIn, Wire, DataFor, WireAll, BodiesFor;
      var n := |ws| - 1;
      DataForWritten(ws[..n], id);
      WrittenData(ws[n]);
      DataForLast(WireAll(ws), id);
      BodiesForLast(ws, id);
      assert WireAll(ws)[..n] == WireAll(ws[..n]);
    }
  }

  lemma DataForLast(fs: seq<seq<byte>>, id: StreamId)
    requires fs != []
    ensures var f := fs[|fs| - 1];
            DataFor(fs, id) == DataFor(fs[..|fs| - 1], id)
                               + if Payload(f).Some? && StreamIn(f) == id then [Payload(f).value] else []
  {
  }

  lemma BodiesForLast(ws: seq<Written>, id: StreamId)
    requires ws != []
    ensures var w := ws[|ws| - 1];
            BodiesFor(ws, id) == BodiesFor(ws[..|ws| - 1], id) + if w.ty.Data? && w.stream == id then [w.body] else []
  {
  }

  lemma MeaningsWritten(d: bool, ws: seq<Written>)
    requires AllProper(ws)
    ensures Meanings(d, WireAll(ws)) == MeaningsOf(d, ws)
  {
    hide Meaning, Wire;
    forall i | 0 <= i < |ws|
      ensures Meaning(d, WireAll(ws)[i]) == MeaningOf(d, ws[i])
    {
      WrittenFrame(ws[i], d);
    }
  }

  predicate IsData(frame: seq<byte>, id: StreamId) { Payload(frame).Some? && StreamIn(frame) == id }

  lemma {:induction false} SomeData(fs: seq<seq<byte>>, id: StreamId)
    ensures DataFor(fs, id) != [] <==> exists i :: 0 <= i < |fs| && IsData(fs[i], id)
    decreases |fs|
  {
    if fs != [] {
      var n := |fs| - 1;
      SomeData(fs[..n], id);
      assert DataFor(fs, id) != [] <==> DataFor(fs[..n], id) != [] || IsData(fs[n], id);
      hide IsData, DataFor;
      assert forall i :: 0 <= i < n ==> fs[..n][i] == fs[i];
    }
  }

  // ------------------------------------------------------------------- one chunk

  /** What a chunk that completes the frames `ws` of one peer makes of the streams. They open,
      close and reset streams. Every stream that is there then gets the bodies for it, in order.
      One that is not there comes into being with them, unless it was recently reset. */
  ghost predicate Received(l: Layer, d: bool, ws: seq<Written>, l': Layer) {
    && l'.recent == RecentAfter(l.recent, MeaningsOf(d, ws))
    && forall id :: ReceivedBy(Streams.After(l.inners, MeaningsOf(d, ws)), l'.recent, BodiesFor(ws, id), l'.inners, id)
  }

  predicate ReceivedBy(
    held: Inners, recent: seq<StreamId>, bodies: seq<seq<byte>>, inners: Inners, id: StreamId)
  {
    if id in held then id in inners && inners[id] == Stream(held[id].status, held[id].got + bodies)
    else if bodies == [] || id in recent then id !in inners
    else id in inners && inners[id] == Stream(Duplex, bodies)
  }

  lemma HandAllReceives(held: Inners, recent: seq<StreamId>, fs: seq<seq<byte>>, id: StreamId)
    ensures ReceivedBy(held, recent, DataFor(fs, id), HandAll(held, recent, fs), id)
  {
    hide HandAll, DataFor, Payload, StreamIn;
    HandAllKeys(held, recent, fs, id);
    HandAllGives(held, recent, fs, id);
    SomeData(fs, id);
    var all := HandAll(held, recent, fs);
    if id !in held && DataFor(fs, id) != [] {
      var i :| 0 <= i < |fs| && IsData(fs[i], id);
      assert id !in recent ==> Revives(held, recent, fs[i]);
      assert [] + DataFor(fs, id) == DataFor(fs, id);
    }
  }

  lemma ChunkReceives(l: Layer, d: bool, b: seq<byte>, ws: seq<Written>, rest: seq<byte>)
    requires !l.failed && AllProper(ws) && Terminates(l.acc.Of(d), b)
    requires Frames(Size, l.acc.Of(d) + b) == WireAll(ws) && Residual(Size, l.acc.Of(d) + b) == rest
    requires !Malformed(rest)
    ensures OnChunk(l, d, b).Some?
    ensures var l' := OnChunk(l, d, b).value;
            !l'.failed && l'.acc == l.acc.With(d, rest) && Received(l, d, ws, l')
  {
    hide Frames, Residual, Malformed, Terminates, HandAll, Wire, Meaning, ReceivedBy, Streams.After, RecentAfter;
    var l' := OnChunk(l, d, b).value;
    MeaningsWritten(d, ws);
    forall id
      ensures ReceivedBy(Streams.After(l.inners, MeaningsOf(d, ws)), l'.recent, BodiesFor(ws, id), l'.inners, id)
    {
      DataForWritten(ws, id);
      HandAllReceives(Streams.After(l.inners, MeaningsOf(d, ws)), l'.recent, WireAll(ws), id);
    }
  }

  // --------------------------------------------------------------------- cutting

  /** The beginning of a proper frame is no frame, and no malformed header. */
  lemma PartOfFrame(w: Written, s: seq<byte>)
    requires Proper(w) && s <= Wire(w) && |s| < |Wire(w)|
    ensures !HasFrame(Size, s) && !Malformed(s)
  {
    hide ParseHeader, Wire;
    WrittenFrame(w, true);
    if |s| >= 12 {
      assert s[..12] == Wire(w)[..12];
    }
  }

  lemma WrittenFrames(ws: seq<Written>)
    requires AllProper(ws)
    ensures AllFrames(Size, WireAll(ws))
  {
    hide Size, Wire;
    forall i | 0 <= i < |ws|
      ensures Size(WireAll(ws)[i]) == Some(|WireAll(ws)[i]|)
    {
      WrittenFrame(ws[i], true);
    }
  }

  /** The beginning of what a peer writes consists of whole frames and a beginning of the next. */
  lemma CutWritten(ws: seq<Written>, s: seq<byte>) returns (m: nat, rest: seq<byte>)
    requires AllProper(ws) && s <= Flatten(WireAll(ws))
    ensures m <= |ws| && Frames(Size, s) == WireAll(ws[..m]) && Residual(Size, s) == rest
    ensures s == Flatten(WireAll(ws[..m])) + rest
    ensures if m == |ws| then rest == [] else rest <= Wire(ws[m]) && |rest| < |Wire(ws[m])|
    ensures !HasFrame(Size, rest) && !Malformed(rest)
  {
    hide Size, Wire, Malformed, Flatten, Frames, Residual;
    m, rest := SplitPieces(WireAll(ws), s);
    assert WireAll(ws)[..m] == WireAll(ws[..m]);
    SizeStable();
    if m < |ws| {
      PartOfFrame(ws[m], rest);
    } else {
      assert ws[..m] == ws;
      NothingMalformed();
    }
    WrittenFrames(ws[..m]);
    FramesOfFlatten(Size, WireAll(ws[..m]), rest);
  }

  lemma NothingMalformed()
    ensures !Malformed([])
  {
  }

  // ------------------------------------------------------------------------ runs

  /** What the two peers write. */
  datatype Peers = Peers(incoming: seq<Written>, outgoing: seq<Written>) {
    function Of(d: bool): seq<Written> { if d then incoming else outgoing }
  }

  /** Both peers write proper frames, and the chunks are beginnings of what they write. */
  ghost predicate Writes(peers: Peers, d: bool, chunks: seq<Event>) {
    AllProper(peers.Of(d)) && Framing.Stream(d, chunks) <= Flatten(WireAll(peers.Of(d)))
  }

  /** The frames that the chunks of one direction complete. */
  function Sent(d: bool, chunks: seq<Event>, batches: seq<seq<Written>>): seq<Written>
    requires |batches| == |chunks|
  {
    if chunks == [] then [] else
    var n := |chunks| - 1;
    Sent(d, chunks[..n], batches[..n]) + if chunks[n].0 == d then batches[n] else []
  }

  /** Chunk `k` is received as completing the frames `batches[k]`. */
  ghost predicate ReceivedAt(chunks: seq<Event>, batches: seq<seq<Written>>, k: nat)
    requires k < |chunks| == |batches|
  {
    && YamuxData.After(chunks[..k]).Some? && YamuxData.After(chunks[..k + 1]).Some?
    && Received(YamuxData.After(chunks[..k]).value, chunks[k].0, batches[k], YamuxData.After(chunks[..k + 1]).value)
  }

  ghost predicate AllReceived(chunks: seq<Event>, batches: seq<seq<Written>>) {
    |batches| == |chunks| && forall k: nat :: k < |chunks| ==> ReceivedAt(chunks, batches, k)
  }

  /** The completed frames are the first ones written, and less than one frame is left over. */
  ghost predicate Completed(ws: seq<Written>, sent: seq<Written>, s: seq<byte>, rest: seq<byte>)
    requires AllProper(ws)
  {
    && sent <= ws && AllProper(sent) && s == Flatten(WireAll(sent)) + rest
    && if |sent| == |ws| then rest == [] else rest <= Wire(ws[|sent|]) && |rest| < |Wire(ws[|sent|])|
  }

  /** The batches account for the run so far. */
  ghost predicate Accounts(peers: Peers, chunks: seq<Event>, batches: seq<seq<Written>>)
    requires AllProper(peers.incoming) && AllProper(peers.outgoing)
  {
    && |batches| == |chunks| && YamuxData.After(chunks).Some?
    && var l := YamuxData.After(chunks).value;
       && !l.failed
       && Completed(peers.incoming, Sent(true, chunks, batches), Framing.Stream(true, chunks), l.acc.Of(true))
       && Completed(peers.outgoing, Sent(false, chunks, batches), Framing.Stream(false, chunks), l.acc.Of(false))
  }

  /** More bytes of one direction complete more frames. */
  lemma CompletesMore(ws: seq<Written>, sent: seq<Written>, s: seq<byte>, rest: seq<byte>, b: seq<byte>)
    returns (more: seq<Written>, rest': seq<byte>)
    requires AllProper(ws) && Completed(ws, sent, s, rest) && s + b <= Flatten(WireAll(ws))
    ensures Completed(ws, sent + more, s + b, rest') && AllProper(more)
    ensures Frames(Size, rest + b) == WireAll(more) && Residual(Size, rest + b) == rest' && !Malformed(rest')
  {
    hide Size, Wire, Malformed, Flatten, Frames, Residual;
    var n := |sent|;
    var later := ws[n..];
    assert WireAll(ws) == WireAll(sent) + WireAll(later);
    FlattenAppend(WireAll(sent), WireAll(later));
    var all := Flatten(WireAll(sent));
    Associate(all, rest, b);
    assert rest + b <= Flatten(WireAll(later)) by {
      assert rest + b == Flatten(WireAll(ws))[|all|..|all| + |rest + b|];
    }
    var m;
    m, rest' := CutWritten(later, rest + b);
    more := later[..m];
    assert sent + more == ws[..n + m];
    assert WireAll(sent + more) == WireAll(sent) + WireAll(more);
    FlattenAppend(WireAll(sent), WireAll(more));
    Associate(all, Flatten(WireAll(more)), rest');
  }

  lemma SentLast(d: bool, chunks: seq<Event>, batches: seq<seq<Written>>, e: bool, b: seq<byte>, ws: seq<Written>)
    requires |batches| == |chunks|
    ensures Sent(d, chunks + [(e, b)], batches + [ws]) == Sent(d, chunks, batches) + if e == d then ws else []
  {
    assert (chunks + [(e, b)])[..|chunks|] == chunks && (batches + [ws])[..|chunks|] == batches;
  }

  lemma AfterLast(chunks: seq<Event>, e: bool, b: seq<byte>)
    requires YamuxData.After(chunks).Some?
    ensures YamuxData.After(chunks + [(e, b)]) == OnChunk(YamuxData.After(chunks).value, e, b)
  {
    assert (chunks + [(e, b)])[..|chunks|] == chunks;
  }

  /** One more chunk. */
  lemma AccountsMore(peers: Peers, chunks: seq<Event>, batches: seq<seq<Written>>, d: bool, b: seq<byte>)
    returns (ws: seq<Written>)
    requires AllProper(peers.incoming) && AllProper(peers.outgoing) && Accounts(peers, chunks, batches)
    requires Writes(peers, d, chunks + [(d, b)])
    ensures Accounts(peers, chunks + [(d, b)], batches + [ws])
    ensures Received(YamuxData.After(chunks).value, d, ws, YamuxData.After(chunks + [(d, b)]).value)
  {
    hide Completed, Received, OnChunk, YamuxData.After, Sent, Framing.Stream, Frames, Residual, Malformed, Wire,
      Flatten;
    var l := YamuxData.After(chunks).value;
    StreamSnoc(d, chunks, d, b);
    StreamSnoc(!d, chunks, d, b);
    assert Framing.Stream(!d, chunks) + [] == Framing.Stream(!d, chunks);
    var rest;
    ws, rest := CompletesMore(peers.Of(d), Sent(d, chunks, batches), Framing.Stream(d, chunks), l.acc.Of(d), b);
    ChunkReceives(l, d, b, ws, rest);
    AfterLast(chunks, d, b);
    SentLast(d, chunks, batches, d, b, ws);
    SentLast(!d, chunks, batches, d, b, ws);
    assert Sent(!d, chunks, batches) + [] == Sent(!d, chunks, batches);
  }

  lemma NothingSent(peers: Peers)
    requires AllProper(peers.incoming) && AllProper(peers.outgoing)
    ensures Accounts(peers, [], [])
  {
    hide Wire;
    assert YamuxData.After([]) == Some(YamuxData.Fresh());
    var none: seq<Written> := [];
    assert WireAll(none) == [] && Flatten(WireAll(none)) == [];
    forall d: bool
      ensures Completed(peers.Of(d), [], [], [])
    {
      if peers.Of(d) != [] {
        WireLong(peers.Of(d)[0]);
      }
    }
    assert Completed(peers.Of(true), [], [], []) && Completed(peers.Of(false), [], [], []);
  }

  lemma WireLong(w: Written)
    requires Proper(w)
    ensures |Wire(w)| >= 12
  {
  }

  /** Two peers that write proper frames, however these are cut and interleaved: the loop ends,
      nothing is malformed, each chunk completes the next frames of its peer, and every stream
      gets the bodies that are for it. */
  lemma {:induction false} StreamsGetWhatIsWritten(peers: Peers, chunks: seq<Event>)
    returns (batches: seq<seq<Written>>)
    requires Writes(peers, true, chunks) && Writes(peers, false, chunks)
    ensures AllProper(peers.incoming) && AllProper(peers.outgoing)
    ensures Accounts(peers, chunks, batches) && AllReceived(chunks, batches)
    decreases |chunks|
  {
    hide Accounts, Received, Framing.Stream, Flatten, YamuxData.After, ReceivedAt, Writes, AllReceived, AllProper;
    ProperPeers(peers, chunks);
    if chunks == [] {
      batches := [];
      NothingSent(peers);
      NothingReceived();
    } else {
      var n := |chunks| - 1;
      var before, d, b := chunks[..n], chunks[n].0, chunks[n].1;
      assert before + [(d, b)] == chunks;
      WritesPrefix(peers, true, chunks, n);
      WritesPrefix(peers, false, chunks, n);
      var earlier := StreamsGetWhatIsWritten(peers, before);
      ReceivedLength(peers, before, earlier);
      var ws := AccountsMore(peers, before, earlier, d, b);
      batches := earlier + [ws];
      ReceivedLength(peers, chunks, batches);
      ReceivedMore(before, earlier, d, b, ws);
    }
  }

  lemma NothingReceived()
    ensures AllReceived([], [])
  {
  }

  lemma ProperPeers(peers: Peers, chunks: seq<Event>)
    requires Writes(peers, true, chunks) && Writes(peers, false, chunks)
    ensures AllProper(peers.incoming) && AllProper(peers.outgoing)
  {
  }

  lemma ReceivedMore(chunks: seq<Event>, batches: seq<seq<Written>>, d: bool, b: seq<byte>, ws: seq<Written>)
    requires AllReceived(chunks, batches)
    requires YamuxData.After(chunks).Some? && YamuxData.After(chunks + [(d, b)]).Some?
    requires Received(YamuxData.After(chunks).value, d, ws, YamuxData.After(chunks + [(d, b)]).value)
    ensures AllReceived(chunks + [(d, b)], batches + [ws])
  {
    hide Received, YamuxData.After;
    var all := chunks + [(d, b)];
    forall k: nat | k < |all|
      ensures ReceivedAt(all, batches + [ws], k)
    {
      assert all[..|chunks|] == chunks && all[..|all|] == all;
      if k < |chunks| {
        assert ReceivedAt(chunks, batches, k);
        assert all[..k] == chunks[..k] && all[..k + 1] == chunks[..k + 1];
      }
    }
  }

  lemma ReceivedLength(peers: Peers, chunks: seq<Event>, batches: seq<seq<Written>>)
    requires AllProper(peers.incoming) && AllProper(peers.outgoing) && Accounts(peers, chunks, batches)
    ensures |batches| == |chunks| && YamuxData.After(chunks).Some?
  {
  }

  lemma WritesPrefix(peers: Peers, d: bool, chunks: seq<Event>, n: nat)
    requires Writes(peers, d, chunks) && n <= |chunks|
    ensures Writes(peers, d, chunks[..n])
  {
    hide Framing.Stream, Flatten;
    StreamPrefix(d, chunks, n);
  }

  // ------------------------------------------------------------- what a stream has

  function BodiesOver(batches: seq<seq<Written>>, id: StreamId): seq<seq<byte>> {
    if batches == [] then [] else
    BodiesOver(batches[..|batches| - 1], id) + BodiesFor(batches[|batches| - 1], id)
  }

  predicate Opens(ms: seq<Frame>, id: StreamId) {
    exists i :: 0 <= i < |ms| && ms[i].kind.New? && ms[i].stream == id
  }

  /** Frames alone give a stream nothing; one that they open has nothing. */
  lemma {:induction false} FramesGiveNothing(inners: Inners, ms: seq<Frame>, id: StreamId)
    requires id in Streams.After(inners, ms)
    ensures var now := Streams.After(inners, ms)[id];
            if Opens(ms, id) then now.got == [] else id in inners && now.got == inners[id].got
    decreases |ms|
  {
    if ms != [] {
      var n := |ms| - 1;
      assert forall i :: 0 <= i < n ==> ms[..n][i] == ms[i];
      assert Opens(ms, id) <==> Opens(ms[..n], id) || (ms[n].kind.New? && ms[n].stream == id);
      hide Opens;
      if !(ms[n].kind.New? && ms[n].stream == id) {
        FramesGiveNothing(inners, ms[..n], id);
      }
    }
  }

  /** The stream starts anew in chunk `k`: a frame opens it, or data alone does. */
  ghost predicate Begins(chunks: seq<Event>, batches: seq<seq<Written>>, id: StreamId, k: nat)
    requires k < |chunks| == |batches| && ReceivedAt(chunks, batches, k)
  {
    var ms := MeaningsOf(chunks[k].0, batches[k]);
    Opens(ms, id) || id !in Streams.After(YamuxData.After(chunks[..k]).value.inners, ms)
  }

  /** One chunk for a stream that is there after it. */
  lemma ChunkGives(chunks: seq<Event>, batches: seq<seq<Written>>, id: StreamId, k: nat)
    requires k < |chunks| == |batches| && ReceivedAt(chunks, batches, k)
    requires id in YamuxData.After(chunks[..k + 1]).value.inners
    ensures var l, l' := YamuxData.After(chunks[..k]).value, YamuxData.After(chunks[..k + 1]).value;
            if Begins(chunks, batches, id, k) then l'.inners[id].got == BodiesFor(batches[k], id)
            else id in l.inners && l'.inners[id].got == l.inners[id].got + BodiesFor(batches[k], id)
  {
    hide Streams.After, YamuxData.After, Opens, RecentAfter, BodiesFor;
    var l, l' := YamuxData.After(chunks[..k]).value, YamuxData.After(chunks[..k + 1]).value;
    var ms := MeaningsOf(chunks[k].0, batches[k]);
    var held := Streams.After(l.inners, ms);
    assert ReceivedBy(held, l'.recent, BodiesFor(batches[k], id), l'.inners, id);
    if id in held {
      FramesGiveNothing(l.inners, ms, id);
      assert [] + BodiesFor(batches[k], id) == BodiesFor(batches[k], id);
    }
  }

  /** The stream starts anew in chunk `k` for the last time. */
  ghost predicate BeginsLast(chunks: seq<Event>, batches: seq<seq<Written>>, id: StreamId, k: nat)
    requires AllReceived(chunks, batches)
  {
    && k < |chunks| && Begins(chunks, batches, id, k)
    && forall j: nat :: k < j < |chunks| ==> !Begins(chunks, batches, id, j)
  }

  /** A stream has got exactly the bodies that its peers have written for it, in order, from the
      chunk on in which it was last opened. */
  lemma {:induction false} StreamHasBodies(chunks: seq<Event>, batches: seq<seq<Written>>, id: StreamId)
    returns (k: nat)
    requires AllReceived(chunks, batches)
    requires YamuxData.After(chunks).Some? && id in YamuxData.After(chunks).value.inners
    ensures BeginsLast(chunks, batches, id, k)
    ensures k <= |batches| && YamuxData.After(chunks).value.inners[id].got == BodiesOver(batches[k..], id)
    decreases |chunks|
  {
    hide YamuxData.After, ReceivedAt, Begins, BodiesFor, AllReceived, BeginsLast, BodiesOver;
    LastReceived(chunks, batches, id);
    var n := |chunks| - 1;
    assert chunks[..n + 1] == chunks;
    ReceivedRuns(chunks, batches, n);
    ChunkGives(chunks, batches, id, n);
    if Begins(chunks, batches, id, n) {
      k := n;
      BeginsNow(chunks, batches, id);
      assert batches[n..] == [batches[n]];
      OneBatch(batches[n], id);
    } else {
      AllReceivedPrefix(chunks, batches, n);
      k := StreamHasBodies(chunks[..n], batches[..n], id);
      BeginsStill(chunks, batches, id, k);
      OneMoreBatch(batches[..n], batches[n], k, id);
      assert batches[..n] + [batches[n]] == batches;
    }
  }

  lemma LastReceived(chunks: seq<Event>, batches: seq<seq<Written>>, id: StreamId)
    requires AllReceived(chunks, batches)
    requires YamuxData.After(chunks).Some? && id in YamuxData.After(chunks).value.inners
    ensures chunks != [] && |batches| == |chunks| && ReceivedAt(chunks, batches, |chunks| - 1)
  {
  }

  lemma BeginsNow(chunks: seq<Event>, batches: seq<seq<Written>>, id: StreamId)
    requires AllReceived(chunks, batches) && chunks != [] && Begins(chunks, batches, id, |chunks| - 1)
    ensures BeginsLast(chunks, batches, id, |chunks| - 1)
  {
  }

  lemma OneMoreBatch(batches: seq<seq<Written>>, batch: seq<Written>, k: nat, id: StreamId)
    requires k <= |batches|
    ensures BodiesOver((batches + [batch])[k..], id) == BodiesOver(batches[k..], id) + BodiesFor(batch, id)
  {
    var tail := (batches + [batch])[k..];
    assert tail[..|tail| - 1] == batches[k..];
  }

  lemma AllReceivedPrefix(chunks: seq<Event>, batches: seq<seq<Written>>, n: nat)
    requires AllReceived(chunks, batches) && n <= |chunks|
    ensures AllReceived(chunks[..n], batches[..n])
  {
    hide ReceivedAt;
    forall j: nat | j < n
      ensures ReceivedAt(chunks[..n], batches[..n], j)
    {
      BeginsPrefix(chunks, batches, Handshake, n, j);
    }
  }

  lemma BeginsStill(chunks: seq<Event>, batches: seq<seq<Written>>, id: StreamId, k: nat)
    requires AllReceived(chunks, batches) && chunks != [] && !Begins(chunks, batches, id, |chunks| - 1)
    requires AllReceived(chunks[..|chunks| - 1], batches[..|chunks| - 1])
    requires BeginsLast(chunks[..|chunks| - 1], batches[..|chunks| - 1], id, k)
    ensures BeginsLast(chunks, batches, id, k)
  {
    hide ReceivedAt, Begins;
    var n := |chunks| - 1;
    forall j: nat | j < n
      ensures Begins(chunks[..n], batches[..n], id, j) == Begins(chunks, batches, id, j)
    {
      BeginsPrefix(chunks, batches, id, n, j);
    }
  }

  lemma OneBatch(batch: seq<Written>, id: StreamId)
    ensures BodiesOver([batch], id) == BodiesFor(batch, id)
  {
    var batches := [batch];
    assert batches[..0] == [];
  }

  lemma ReceivedRuns(chunks: seq<Event>, batches: seq<seq<Written>>, k: nat)
    requires k < |chunks| == |batches| && ReceivedAt(chunks, batches, k)
    ensures YamuxData.After(chunks[..k]).Some? && YamuxData.After(chunks[..k + 1]).Some?
  {
  }

  lemma BeginsPrefix(chunks: seq<Event>, batches: seq<seq<Written>>, id: StreamId, n: nat, k: nat)
    requires k < n <= |chunks| == |batches| && ReceivedAt(chunks, batches, k)
    ensures ReceivedAt(chunks[..n], batches[..n], k)
    ensures Begins(chunks[..n], batches[..n], id, k) == Begins(chunks, batches, id, k)
  {
    hide YamuxData.After, Received, Opens;
    assert chunks[..n][..k] == chunks[..k] && chunks[..n][..k + 1] == chunks[..k + 1];
  }
}
