/** Handing data to yamux streams. As with mplex, the frames of a chunk first open, close and
    reset streams, and only then is their data handed over; here data without a stream opens one,
    unless the stream was reset recently. */
module YamuxData {
  import opened Bytes
  import opened Framing
  import opened Streams
  import opened Yamux
  import Delivery

  /** The payload of a data frame. */
  function Payload(frame: seq<byte>): Option<seq<byte>> {
    if |frame| >= 12 && ParseHeader(frame[..12]).Ok? && ParseHeader(frame[..12]).header.ty.Data? then Some(frame[12..])
    else None
  }

  function StreamIn(frame: seq<byte>): StreamId { Meaning(true, frame).stream }

  /** One frame is handed over. */
  function Hand(inners: Inners, recent: seq<StreamId>, frame: seq<byte>): Inners {
    var id := StreamIn(frame);
    match Payload(frame)
    case None => inners
    case Some(body) =>
      if id in inners then Delivery.HandOver(inners, id, body)
      else if id in recent then inners
      else inners[id := Stream(Duplex, [body])]
  }

  function HandAll(inners: Inners, recent: seq<StreamId>, fs: seq<seq<byte>>): Inners {
    if fs == [] then inners else Hand(HandAll(inners, recent, fs[..|fs| - 1]), recent, fs[|fs| - 1])
  }

  /** Data for a stream that is neither there nor recently reset: it comes into being. */
  predicate Revives(inners: Inners, recent: seq<StreamId>, frame: seq<byte>) {
    Payload(frame).Some? && StreamIn(frame) !in inners && StreamIn(frame) !in recent
  }

  ghost predicate Reviving(inners: Inners, recent: seq<StreamId>, fs: seq<seq<byte>>) {
    exists i :: 0 <= i < |fs| && Revives(inners, recent, fs[i])
  }

  /** Handing over adds exactly the streams that come into being, and changes no status. */
  lemma {:induction false} HandAllKeys(inners: Inners, recent: seq<StreamId>, fs: seq<seq<byte>>, id: StreamId)
    ensures id in HandAll(inners, recent, fs) <==>
            id in inners || exists i :: 0 <= i < |fs| && Revives(inners, recent, fs[i]) && StreamIn(fs[i]) == id
    ensures id in inners ==> HandAll(inners, recent, fs)[id].status == inners[id].status
    ensures id in HandAll(inners, recent, fs) && id !in inners ==> HandAll(inners, recent, fs)[id].status == Duplex
    decreases |fs|
  {
    if fs != [] {
      hide Payload, StreamIn;
      var n := |fs| - 1;
      HandAllKeys(inners, recent, fs[..n], id);
      assert forall i :: 0 <= i < n ==> fs[..n][i] == fs[i];
      assert Revives(inners, recent, fs[n]) && StreamIn(fs[n]) == id ==>
             exists i :: 0 <= i < |fs| && Revives(inners, recent, fs[i]) && StreamIn(fs[i]) == id;
    }
  }

  /** The statuses after a chunk are those its frames prescribe if and only if none of its data is
      for a stream that is, at the end of the chunk, neither there nor recently reset. */
  lemma StatusKeptIff(inners: Inners, recent: seq<StreamId>, fs: seq<seq<byte>>)
    ensures Delivery.SameStatus(HandAll(inners, recent, fs), inners) <==> !Reviving(inners, recent, fs)
  {
    hide HandAll, Revives, StreamIn;
    forall id
      ensures id in HandAll(inners, recent, fs) <==>
              id in inners || exists i :: 0 <= i < |fs| && Revives(inners, recent, fs[i]) && StreamIn(fs[i]) == id
      ensures id in inners ==> HandAll(inners, recent, fs)[id].status == inners[id].status
    {
      HandAllKeys(inners, recent, fs, id);
    }
    if i :| 0 <= i < |fs| && Revives(inners, recent, fs[i]) {
      RevivedIsNew(inners, recent, fs[i]);
      assert StreamIn(fs[i]) in HandAll(inners, recent, fs);
    }
  }

  lemma RevivedIsNew(inners: Inners, recent: seq<StreamId>, frame: seq<byte>)
    requires Revives(inners, recent, frame)
    ensures StreamIn(frame) !in inners
  {
  }

  /** What each stream has got: what it had, and then the data of the chunk for it. */
  function DataFor(fs: seq<seq<byte>>, id: StreamId): seq<seq<byte>> {
    if fs == [] then [] else
    var f := fs[|fs| - 1];
    DataFor(fs[..|fs| - 1], id) + if Payload(f).Some? && StreamIn(f) == id then [Payload(f).value] else []
  }

  lemma HandGives(cur: Inners, recent: seq<StreamId>, f: seq<byte>, id: StreamId,
                  had: seq<seq<byte>>, data: seq<seq<byte>>)
    requires id in cur ==> cur[id].got == had + data
    requires id !in cur ==> had == [] && (id in recent || data == [])
    ensures var cur' := Hand(cur, recent, f);
            var data' := data + if Payload(f).Some? && StreamIn(f) == id then [Payload(f).value] else [];
            && (id in cur' ==> cur'[id].got == had + data')
            && (id !in cur' ==> id !in cur && (id in recent || data' == []))
  {
    hide Payload, StreamIn;
    if Payload(f).Some? && StreamIn(f) == id {
      Associate(had, data, [Payload(f).value]);
    } else {
      assert data + [] == data;
    }
  }

  /** Every stream gets all data for it, in order; data is dropped only for a stream that was
      recently reset. */
  lemma {:induction false} HandAllGives(inners: Inners, recent: seq<StreamId>, fs: seq<seq<byte>>, id: StreamId)
    ensures var all := HandAll(inners, recent, fs);
            && (id in all ==> all[id].got == (if id in inners then inners[id].got else []) + DataFor(fs, id))
            && (id !in all ==> id !in inners && (id in recent || DataFor(fs, id) == []))
    decreases |fs|
  {
    if fs != [] {
      hide Hand, Payload, StreamIn;
      var n := |fs| - 1;
      HandAllGives(inners, recent, fs[..n], id);
      HandGives(HandAll(inners, recent, fs[..n]), recent, fs[n], id,
        if id in inners then inners[id].got else [], DataFor(fs[..n], id));
    }
  }

  // --------------------------------------------------------------------- whole runs

  /** The layer between two chunks; `failed` is set by a malformed header and never cleared. */
  datatype Layer = Layer(inners: Inners, recent: seq<StreamId>, acc: Both, failed: bool)

  function Fresh(): Layer { Layer(map[], [], Both([], []), false) }

  /** One chunk; `None` if the processing loop does not end. */
  function OnChunk(l: Layer, d: bool, bytes: seq<byte>): Option<Layer> {
    if l.failed then Some(l)
    else if !Terminates(l.acc.Of(d), bytes) then None
    else
      var h := Handle(d, l.inners, l.recent, l.acc.Of(d) + bytes);
      var bad := Malformed(h.rest);
      Some(Layer(HandAll(h.inners, h.recent, h.out), h.recent, l.acc.With(d, if bad then [] else h.rest), bad))
  }

  /** One chunk of which only the first `stop` frames are handed over, because a stream or the
      database fails on the next one. A malformed header is alone in its chunk, so the latch is
      set all the same. */
  function UpTo(l: Layer, d: bool, bytes: seq<byte>, stop: nat): Option<Layer> {
    match OnChunk(l, d, bytes)
    case None => None
    case Some(l') =>
      if l.failed then Some(l) else
      var h := Handle(d, l.inners, l.recent, l.acc.Of(d) + bytes);
      Some(l'.(inners := HandAll(h.inners, h.recent, First(h.out, stop))))
  }

  function First(fs: seq<seq<byte>>, n: nat): seq<seq<byte>> { if n < |fs| then fs[..n] else fs }

  lemma {:induction false} DataPrefix(fs: seq<seq<byte>>, n: nat, id: StreamId)
    requires n <= |fs|
    ensures DataFor(fs[..n], id) <= DataFor(fs, id)
    decreases |fs|
  {
    hide Payload, StreamIn;
    if n < |fs| {
      DataPrefix(fs[..|fs| - 1], n, id);
      assert fs[..|fs| - 1][..n] == fs[..n];
    } else {
      assert fs[..n] == fs;
    }
  }

  /** A stream after handing over some of the frames is there after all of them, with the same
      status, and what it got by then is a prefix of what it gets. */
  lemma HandSome(inners: Inners, recent: seq<StreamId>, fs: seq<seq<byte>>, n: nat, id: StreamId)
    requires n <= |fs| && id in HandAll(inners, recent, fs[..n])
    ensures var part, all := HandAll(inners, recent, fs[..n]), HandAll(inners, recent, fs);
            id in all && part[id].status == all[id].status && part[id].got <= all[id].got
  {
    hide Hand, Payload, StreamIn, DataFor;
    assert forall i :: 0 <= i < n ==> fs[..n][i] == fs[i];
    HandAllKeys(inners, recent, fs[..n], id);
    HandAllKeys(inners, recent, fs, id);
    hide HandAll;
    HandAllGives(inners, recent, fs[..n], id);
    HandAllGives(inners, recent, fs, id);
    DataPrefix(fs, n, id);
  }

  /** Without an error a chunk is dealt with in full. With one, everything but the streams is the
      same, and each stream that is there has its status and a prefix of what it would have got. */
  lemma ChunkWithoutError(l: Layer, d: bool, bytes: seq<byte>, stop: nat)
    requires OnChunk(l, d, bytes).Some?
    ensures stop >= |Frames(Size, l.acc.Of(d) + bytes)| ==> UpTo(l, d, bytes, stop) == OnChunk(l, d, bytes)
    ensures UpTo(l, d, bytes, stop).Some?
    ensures var part, all := UpTo(l, d, bytes, stop).value, OnChunk(l, d, bytes).value;
            && part == all.(inners := part.inners)
            && forall id :: id in part.inners ==>
                 && id in all.inners && part.inners[id].status == all.inners[id].status
                 && part.inners[id].got <= all.inners[id].got
  {
    hide HandAll, Malformed, Terminates, Frames, Residual, Streams.After, RecentAfter, Meaning;
    var h := Handle(d, l.inners, l.recent, l.acc.Of(d) + bytes);
    if !l.failed && stop < |h.out| {
      forall id | id in UpTo(l, d, bytes, stop).value.inners
        ensures var part, all := UpTo(l, d, bytes, stop).value.inners, OnChunk(l, d, bytes).value.inners;
                id in all && part[id].status == all[id].status && part[id].got <= all[id].got
      {
        HandSome(h.inners, h.recent, h.out, stop, id);
      }
    }
  }

  function After(chunks: seq<Event>): Option<Layer> {
    if chunks == [] then Some(Fresh()) else
    match After(chunks[..|chunks| - 1])
    case None => None
    case Some(l) => OnChunk(l, chunks[|chunks| - 1].0, chunks[|chunks| - 1].1)
  }

  /** A malformed header is final: no chunk of either direction has any effect after it. */
  lemma {:induction false} FailureIsFinal(chunks: seq<Event>, more: seq<Event>)
    requires After(chunks).Some? && After(chunks).value.failed
    ensures After(chunks + more) == After(chunks)
    decreases |more|
  {
    if more == [] {
      assert chunks + more == chunks;
    } else {
      FailureIsFinal(chunks, more[..|more| - 1]);
      assert (chunks + more)[..|chunks + more| - 1] == chunks + more[..|more| - 1];
    }
  }

  /** The frames of a run, as they complete. */
  function History(chunks: seq<Event>): seq<Frame> {
    if chunks == [] then [] else
    var before, (d, b) := chunks[..|chunks| - 1], chunks[|chunks| - 1];
    match After(before)
    case None => History(before)
    case Some(l) => History(before) + if l.failed then [] else Meanings(d, Frames(Size, l.acc.Of(d) + b))
  }

  /** The chunk brings a stream into being that its frames do not open. */
  ghost predicate RevivesIn(l: Layer, d: bool, bytes: seq<byte>) {
    && !l.failed
    && var h := Handle(d, l.inners, l.recent, l.acc.Of(d) + bytes);
       Reviving(h.inners, h.recent, h.out)
  }

  /** Every status is what the history of frames prescribes. */
  ghost predicate AsDue(l: Layer, h: seq<Frame>) {
    && l.recent == RecentAfter([], h)
    && Delivery.SameStatus(l.inners, Streams.After(map[], h))
  }

  lemma ChunkAsDue(l: Layer, h: seq<Frame>, d: bool, bytes: seq<byte>)
    requires AsDue(l, h) && OnChunk(l, d, bytes).Some?
    ensures var h' := h + if l.failed then [] else Meanings(d, Frames(Size, l.acc.Of(d) + bytes));
            AsDue(OnChunk(l, d, bytes).value, h') <==> !RevivesIn(l, d, bytes)
  {
    if l.failed {
      assert h + [] == h;
    } else {
      hide Meaning, ParseHeader, Malformed, Frames, Residual, HandAll, Reviving, Delivery.SameStatus, Terminates,
        Streams.After, RecentAfter;
      var s := l.acc.Of(d) + bytes;
      var fs := Frames(Size, s);
      var ms := Meanings(d, fs);
      var p := Handle(d, l.inners, l.recent, s);
      RecentAppend([], h, ms);
      AfterAppend(map[], h, ms);
      Delivery.AfterSame(l.inners, Streams.After(map[], h), ms);
      var due := Streams.After(map[], h + ms);
      var all := HandAll(p.inners, p.recent, p.out);
      assert Delivery.SameStatus(p.inners, due);
      StatusKeptIff(p.inners, p.recent, p.out);
      if Delivery.SameStatus(all, due) {
        Delivery.SameStatusSym(p.inners, due);
        Delivery.SameStatusTrans(all, due, p.inners);
      } else if Delivery.SameStatus(all, p.inners) {
        Delivery.SameStatusTrans(all, p.inners, due);
      }
    }
  }

  /** After the first `k` chunks every status is as due. */
  ghost predicate DueAfter(chunks: seq<Event>, k: nat)
    requires k <= |chunks|
  {
    After(chunks[..k]).Some? && AsDue(After(chunks[..k]).value, History(chunks[..k]))
  }

  ghost predicate RevivesAt(chunks: seq<Event>, k: nat)
    requires k < |chunks|
  {
    After(chunks[..k]).Some? && RevivesIn(After(chunks[..k]).value, chunks[k].0, chunks[k].1)
  }

  lemma {:induction false} EndsBefore(chunks: seq<Event>, k: nat)
    requires After(chunks).Some? && k <= |chunks|
    ensures After(chunks[..k]).Some?
    decreases |chunks|
  {
    if k < |chunks| {
      hide OnChunk;
      EndsBefore(chunks[..|chunks| - 1], k);
      assert chunks[..|chunks| - 1][..k] == chunks[..k];
    } else {
      assert chunks[..k] == chunks;
    }
  }

  lemma StepDue(chunks: seq<Event>, k: nat)
    requires k < |chunks| && After(chunks).Some? && DueAfter(chunks, k)
    ensures DueAfter(chunks, k + 1) <==> !RevivesAt(chunks, k)
  {
    EndsBefore(chunks, k + 1);
    var before, now := chunks[..k], chunks[..k + 1];
    assert now[..|now| - 1] == before && now[|now| - 1] == chunks[k];
    var l := After(before).value;
    var (d, b) := chunks[k];
    assert After(now) == OnChunk(l, d, b);
    assert History(now) == History(before) + if l.failed then [] else Meanings(d, Frames(Size, l.acc.Of(d) + b));
    hide AsDue, RevivesIn, OnChunk, Frames, After, History;
    ChunkAsDue(l, History(before), d, b);
  }

  /** Over a run, however chunked and interleaved, every stream has throughout the status that its
      history prescribes if and only if no chunk brings a stream into being by data alone. */
  lemma AlwaysDueIff(chunks: seq<Event>)
    requires After(chunks).Some?
    ensures (forall k: nat :: k <= |chunks| ==> DueAfter(chunks, k)) <==>
            forall k: nat :: k < |chunks| ==> !RevivesAt(chunks, k)
  {
    assert chunks[..0] == [];
    assert DueAfter(chunks, 0);
    hide DueAfter, RevivesAt, After, History;
    var good := seq(|chunks| + 1, k requires 0 <= k <= |chunks| => DueAfter(chunks, k));
    var bad := seq(|chunks|, k requires 0 <= k < |chunks| => RevivesAt(chunks, k));
    forall k: nat | k < |chunks| && good[k]
      ensures good[k + 1] <==> !bad[k]
    {
      StepDue(chunks, k);
    }
    Chain(good, bad);
    if forall k: nat :: k < |good| ==> good[k] {
      forall k: nat | k <= |chunks|
        ensures DueAfter(chunks, k) && (k < |chunks| ==> !RevivesAt(chunks, k))
      {
        assert good[k] && (k < |chunks| ==> !bad[k]);
      }
    } else {
      var k: nat :| k < |good| && !good[k];
      assert !DueAfter(chunks, k);
      var j: nat :| j < |bad| && bad[j];
      assert RevivesAt(chunks, j);
    }
  }

  /** Data that carries the second close of its stream brings it back, open both ways. */
  lemma SecondCloseRevives(l: Layer, d: bool, frame: seq<byte>, id: StreamId)
    requires !l.failed && l.acc.Of(d) == [] && Size(frame) == Some(|frame|)
    requires Meaning(d, frame) == Frame(Close, id, d) && Payload(frame).Some?
    requires id in l.inners && !l.inners[id].status.Duplex? && id !in l.recent
    ensures OnChunk(l, d, frame).Some? && id in OnChunk(l, d, frame).value.inners
    ensures OnChunk(l, d, frame).value.inners[id] == Stream(Duplex, [Payload(frame).value])
    ensures id !in Streams.After(l.inners, [Meaning(d, frame)])
  {
    hide ParseHeader;
    SingleFrame(Size, frame);
    assert [] + frame == frame;
    var m := Meaning(d, frame);
    var fs := [frame];
    assert Meanings(d, fs) == [m];
    assert [m][..0] == [] && fs[..0] == [];
    assert Streams.After(l.inners, []) == l.inners && RecentAfter(l.recent, []) == l.recent;
    assert Streams.After(l.inners, [m]) == Apply(l.inners, m);
    assert RecentAfter(l.recent, [m]) == l.recent;
    assert StreamIn(frame) == id;
    var h := Handle(d, l.inners, l.recent, frame);
    assert HandAll(h.inners, h.recent, []) == h.inners;
  }

  // -------------------------------------------------------------------- the machine

  class Demultiplexer {
    const layer: State
    var failed: bool

    ghost function View(): Layer
      reads this, layer
    {
      Layer(layer.inners, layer.recentReset, Both(layer.accIncoming, layer.accOutgoing), failed)
    }

    constructor ()
      ensures fresh(layer) && View() == Fresh()
    {
      layer := new State();
      failed := false;
    }

    /** One chunk; a stream or the database fails on frame `stop`, if there is one. */
    method OnData(incoming: bool, bytes: seq<byte>, stop: nat)
      requires OnChunk(View(), incoming, bytes).Some?
      modifies this, layer
      ensures Some(View()) == UpTo(old(View()), incoming, bytes, stop)
    {
      hide Handle, Malformed, Terminates, Hand;
      if failed {
        return;
      }
      var out, error := layer.Process(incoming, bytes);
      failed := error.Some?;
      ghost var start := layer.inners;
      ghost var other := layer.Acc(!incoming);
      ghost var mine := layer.Acc(incoming);
      for i := 0 to if stop < |out| then stop else |out|
        invariant layer.inners == HandAll(start, layer.recentReset, out[..i])
        invariant layer.Acc(!incoming) == other && layer.Acc(incoming) == mine && failed == error.Some?
        invariant layer.recentReset == Handle(incoming, old(layer.inners), old(layer.recentReset),
                                              old(layer.Acc(incoming)) + bytes).recent
      {
        assert out[..i + 1][..i] == out[..i];
        layer.inners := Hand(layer.inners, layer.recentReset, out[i]);
      }
      assert out[..|out|] == out;
      ghost var l := old(View());
      ghost var h := Handle(incoming, l.inners, l.recent, l.acc.Of(incoming) + bytes);
      assert View().acc == l.acc.With(incoming, if failed then [] else h.rest);
      assert View().inners == HandAll(h.inners, h.recent, First(h.out, stop));
    }
  }
}
