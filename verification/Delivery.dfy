/** Handing the messages of a chunk to their streams. The multiplexer first lets all frames of
    the chunk open, close and reset streams, and only then hands over the messages; compared
    here with handling one frame after the other. */
module Delivery {
  import opened Bytes
  import opened Streams

  datatype Sent = Sent(frame: Frame, body: seq<byte>)

  function FramesOf(xs: seq<Sent>): (fs: seq<Frame>)
    ensures |fs| == |xs| && forall i :: 0 <= i < |xs| ==> fs[i] == xs[i].frame
  {
    seq(|xs|, i requires 0 <= i < |xs| => xs[i].frame)
  }

  /** The streams after the frames `xs` alone, without any message handed over. */
  function Opened(inners: Inners, xs: seq<Sent>): Inners {
    After(inners, FramesOf(xs))
  }

  lemma OpenedLast(inners: Inners, xs: seq<Sent>)
    requires xs != []
    ensures Opened(inners, xs) == Apply(Opened(inners, xs[..|xs| - 1]), xs[|xs| - 1].frame)
  {
    assert FramesOf(xs)[..|xs| - 1] == FramesOf(xs[..|xs| - 1]);
  }

  /** A message its sender may send. */
  predicate Good(inners: Inners, x: Sent) {
    x.frame.kind.Msg? && !Bad(inners, x.frame.stream, x.frame.incoming)
  }

  /** The frame ends the life of whatever stream is open under its id. */
  predicate Ends(inners: Inners, f: Frame) {
    || f.kind.New? || f.kind.Reset?
    || (f.kind.Close? && !(f.stream in inners && inners[f.stream].status.Duplex?))
  }

  function HandOver(inners: Inners, id: StreamId, body: seq<byte>): Inners
    requires id in inners
  {
    inners[id := inners[id].(got := inners[id].got + [body])]
  }

  /** One frame after the other. */
  function Step(inners: Inners, x: Sent): Inners {
    if Good(inners, x) then HandOver(inners, x.frame.stream, x.body) else Apply(inners, x.frame)
  }

  function Steps(inners: Inners, xs: seq<Sent>): Inners {
    if xs == [] then inners else Step(Steps(inners, xs[..|xs| - 1]), xs[|xs| - 1])
  }

  /** The messages to be handed over, as found while the frames of the chunk are processed. */
  function Wanted(inners: Inners, xs: seq<Sent>): seq<(StreamId, seq<byte>)> {
    if xs == [] then [] else
    var before, x := xs[..|xs| - 1], xs[|xs| - 1];
    Wanted(inners, before) + if Good(Opened(inners, before), x) then [(x.frame.stream, x.body)] else []
  }

  lemma WantedLast(inners: Inners, xs: seq<Sent>, x: Sent)
    ensures Wanted(inners, xs + [x])
            == Wanted(inners, xs) + if Good(Opened(inners, xs), x) then [(x.frame.stream, x.body)] else []
  {
    assert (xs + [x])[..|xs + [x]| - 1] == xs;
  }

  /** Hands them over in order; a stream that is gone by then is a panic. */
  function Deliver(inners: Inners, ds: seq<(StreamId, seq<byte>)>): Option<Inners> {
    if ds == [] then Some(inners) else
    var (id, body) := ds[|ds| - 1];
    match Deliver(inners, ds[..|ds| - 1])
    case None => None
    case Some(r) => if id in r then Some(HandOver(r, id, body)) else None
  }

  lemma DeliverLast(inners: Inners, ds: seq<(StreamId, seq<byte>)>, id: StreamId, body: seq<byte>)
    requires Deliver(inners, ds).Some?
    ensures var r := Deliver(inners, ds).value;
            Deliver(inners, ds + [(id, body)]) == if id in r then Some(HandOver(r, id, body)) else None
  {
    hide HandOver;
    assert (ds + [(id, body)])[..|ds + [(id, body)]| - 1] == ds;
  }

  /** A failed lookup is not made good by what follows. */
  lemma {:induction false} DeliverPrefix(
    inners: Inners, ds: seq<(StreamId, seq<byte>)>, ds': seq<(StreamId, seq<byte>)>)
    requires ds <= ds' && Deliver(inners, ds).None?
    ensures Deliver(inners, ds').None?
    decreases |ds'|
  {
    hide HandOver;
    if |ds| < |ds'| {
      DeliverPrefix(inners, ds, ds'[..|ds'| - 1]);
    } else {
      assert ds == ds';
    }
  }

  /** The whole chunk. */
  function Batch(inners: Inners, xs: seq<Sent>): Option<Inners> {
    Deliver(Opened(inners, xs), Wanted(inners, xs))
  }

  /** Some message of the chunk is followed in the chunk by a frame that ends its stream. */
  ghost predicate Overtaken(inners: Inners, xs: seq<Sent>) {
    exists id :: OvertakenOn(inners, xs, id)
  }

  ghost predicate OvertakenOn(inners: Inners, xs: seq<Sent>, id: StreamId) {
    exists i, j :: 0 <= i < j < |xs| && GoodAt(inners, xs, i, id) && EndsAt(inners, xs, j, id)
  }

  predicate GoodAt(inners: Inners, xs: seq<Sent>, i: nat, id: StreamId)
    requires i < |xs|
  {
    xs[i].frame.stream == id && Good(Opened(inners, xs[..i]), xs[i])
  }

  predicate EndsAt(inners: Inners, xs: seq<Sent>, j: nat, id: StreamId)
    requires j < |xs|
  {
    xs[j].frame.stream == id && Ends(Opened(inners, xs[..j]), xs[j].frame)
  }

  // ------------------------------------------------------------ what each stream gets

  ghost predicate SameStatus(a: Inners, b: Inners) {
    forall id :: (id in a <==> id in b) && (id in a ==> a[id].status == b[id].status)
  }

  lemma SameStatusTrans(a: Inners, b: Inners, c: Inners)
    requires SameStatus(a, b) && SameStatus(b, c)
    ensures SameStatus(a, c)
  {
  }

  lemma SameStatusSym(a: Inners, b: Inners)
    requires SameStatus(a, b)
    ensures SameStatus(b, a)
  {
  }

  lemma SameKeys(a: Inners, b: Inners, id: StreamId)
    requires SameStatus(a, b)
    ensures id in a <==> id in b
  {
  }

  lemma ApplySame(a: Inners, b: Inners, f: Frame)
    requires SameStatus(a, b)
    ensures SameStatus(Apply(a, f), Apply(b, f))
  {
  }

  lemma {:induction false} AfterSame(a: Inners, b: Inners, fs: seq<Frame>)
    requires SameStatus(a, b)
    ensures SameStatus(After(a, fs), After(b, fs))
    decreases |fs|
  {
    if fs != [] {
      hide Apply;
      AfterSame(a, b, fs[..|fs| - 1]);
      ApplySame(After(a, fs[..|fs| - 1]), After(b, fs[..|fs| - 1]), fs[|fs| - 1]);
    }
  }

  /** All messages of the chunk for one stream id. */
  function Goods(inners: Inners, xs: seq<Sent>, id: StreamId): seq<seq<byte>> {
    if xs == [] then [] else
    var n := |xs| - 1;
    Goods(inners, xs[..n], id) + if GoodAt(inners, xs, n, id) then [xs[n].body] else []
  }

  /** Those behind the last frame that ends the stream. */
  function Late(inners: Inners, xs: seq<Sent>, id: StreamId): seq<seq<byte>> {
    if xs == [] then [] else
    var n := |xs| - 1;
    if EndsAt(inners, xs, n, id) then []
    else Late(inners, xs[..n], id) + if GoodAt(inners, xs, n, id) then [xs[n].body] else []
  }

  /** Handling the frames one by one opens and closes the same streams as the frames alone. */
  lemma {:induction false} StepsOpen(inners: Inners, xs: seq<Sent>)
    ensures SameStatus(Steps(inners, xs), Opened(inners, xs))
    decreases |xs|
  {
    if xs != [] {
      var before, x := xs[..|xs| - 1], xs[|xs| - 1];
      StepsOpen(inners, before);
      OpenedLast(inners, xs);
      ApplySame(Steps(inners, before), Opened(inners, before), x.frame);
    }
  }

  /** One frame, handled with and without its message. */
  lemma StepGot(a: Inners, b: Inners, x: Sent, id: StreamId, late: seq<seq<byte>>)
    requires SameStatus(a, b) && (id in b ==> a[id].got == b[id].got + late)
    ensures var a', b' := Step(a, x), Apply(b, x.frame);
            id in b' ==>
              && id in a'
              && a'[id].got == b'[id].got + (
                   if x.frame.stream != id then late
                   else if Ends(b, x.frame) then []
                   else late + if Good(b, x) then [x.body] else [])
  {
    if id in b {
      Associate(b[id].got, late, [x.body]);
    }
  }

  lemma {:induction false} StepsGot(inners: Inners, xs: seq<Sent>, id: StreamId)
    ensures id in Opened(inners, xs) ==>
              && id in Steps(inners, xs)
              && Steps(inners, xs)[id].got == Opened(inners, xs)[id].got + Late(inners, xs, id)
    decreases |xs|
  {
    if xs != [] {
      var n := |xs| - 1;
      var before := xs[..n];
      StepsGot(inners, before, id);
      StepsOpen(inners, before);
      OpenedLast(inners, xs);
      hide Opened, Apply, Step, Good, Ends, SameStatus;
      StepGot(Steps(inners, before), Opened(inners, before), xs[n], id, Late(inners, before, id));
    }
  }

  /** A stream that is gone has got nothing since. */
  lemma {:induction false} GoneGetsNothing(inners: Inners, xs: seq<Sent>, id: StreamId)
    requires id !in Opened(inners, xs)
    ensures Late(inners, xs, id) == []
    decreases |xs|
  {
    if xs != [] {
      OpenedLast(inners, xs);
      if !EndsAt(inners, xs, |xs| - 1, id) {
        GoneGetsNothing(inners, xs[..|xs| - 1], id);
      }
    }
  }

  function Bodies(ds: seq<(StreamId, seq<byte>)>, id: StreamId): seq<seq<byte>> {
    if ds == [] then [] else
    Bodies(ds[..|ds| - 1], id) + if ds[|ds| - 1].0 == id then [ds[|ds| - 1].1] else []
  }

  lemma {:induction false} SomeBody(ds: seq<(StreamId, seq<byte>)>, id: StreamId)
    ensures Bodies(ds, id) != [] <==> exists i: nat :: i < |ds| && ds[i].0 == id
    decreases |ds|
  {
    if ds != [] {
      var n := |ds| - 1;
      SomeBody(ds[..n], id);
      assert forall i: nat :: i < n ==> ds[..n][i].0 == ds[i].0;
      assert ds[n].0 == id ==> exists i: nat :: i < |ds| && ds[i].0 == id;
    }
  }

  /** Handing over succeeds exactly when every stream is there, and changes no status. */
  lemma {:induction false} DeliverSucceeds(inners: Inners, ds: seq<(StreamId, seq<byte>)>)
    ensures Deliver(inners, ds).Some? <==> forall i: nat :: i < |ds| ==> ds[i].0 in inners
    ensures Deliver(inners, ds).Some? ==> SameStatus(Deliver(inners, ds).value, inners)
    decreases |ds|
  {
    if ds != [] {
      var n := |ds| - 1;
      DeliverSucceeds(inners, ds[..n]);
      assert forall i: nat :: i < n ==> ds[..n][i].0 == ds[i].0;
      assert (forall i: nat :: i < |ds| ==> ds[i].0 in inners) ==> ds[n].0 in inners;
    }
  }

  lemma {:induction false} DeliverGives(inners: Inners, ds: seq<(StreamId, seq<byte>)>, id: StreamId)
    requires Deliver(inners, ds).Some? && id in inners
    ensures var r := Deliver(inners, ds).value;
            id in r && r[id].got == inners[id].got + Bodies(ds, id)
    decreases |ds|
  {
    if ds != [] {
      var before, d := ds[..|ds| - 1], ds[|ds| - 1];
      DeliverGives(inners, before, id);
      Associate(inners[id].got, Bodies(before, id), if d.0 == id then [d.1] else []);
    }
  }

  lemma DeliverExact(inners: Inners, ds: seq<(StreamId, seq<byte>)>)
    ensures Deliver(inners, ds).Some? <==> forall id :: Bodies(ds, id) != [] ==> id in inners
    ensures Deliver(inners, ds).Some? ==>
              var r := Deliver(inners, ds).value;
              && SameStatus(r, inners)
              && forall id :: id in inners ==> id in r && r[id].got == inners[id].got + Bodies(ds, id)
  {
    hide Deliver, Bodies;
    DeliverSucceeds(inners, ds);
    forall id
      ensures Bodies(ds, id) != [] <==> exists i: nat :: i < |ds| && ds[i].0 == id
    {
      SomeBody(ds, id);
    }
    forall i: nat | i < |ds|
      ensures Bodies(ds, ds[i].0) != []
    {
    }
    if Deliver(inners, ds).Some? {
      forall id | id in inners
        ensures id in Deliver(inners, ds).value
        ensures Deliver(inners, ds).value[id].got == inners[id].got + Bodies(ds, id)
      {
        DeliverGives(inners, ds, id);
      }
    }
  }

  lemma {:induction false} BodiesPrefix(ds: seq<(StreamId, seq<byte>)>, ds': seq<(StreamId, seq<byte>)>, id: StreamId)
    requires ds <= ds'
    ensures Bodies(ds, id) <= Bodies(ds', id)
    decreases |ds'|
  {
    if |ds| < |ds'| {
      BodiesPrefix(ds, ds'[..|ds'| - 1], id);
    } else {
      assert ds == ds';
    }
  }

  lemma {:induction false} WantedBodies(inners: Inners, xs: seq<Sent>, id: StreamId)
    ensures Bodies(Wanted(inners, xs), id) == Goods(inners, xs, id)
    decreases |xs|
  {
    if xs != [] {
      hide Good, Opened;
      WantedBodies(inners, xs[..|xs| - 1], id);
      var w, before := Wanted(inners, xs), Wanted(inners, xs[..|xs| - 1]);
      if Good(Opened(inners, xs[..|xs| - 1]), xs[|xs| - 1]) {
        assert w[..|w| - 1] == before;
      } else {
        assert w == before;
      }
    }
  }

  lemma {:induction false} GoodFound(inners: Inners, xs: seq<Sent>, id: StreamId) returns (i: nat)
    requires Goods(inners, xs, id) != []
    ensures i < |xs| && GoodAt(inners, xs, i, id)
    decreases |xs|
  {
    hide GoodAt;
    var n := |xs| - 1;
    if GoodAt(inners, xs, n, id) {
      i := n;
    } else {
      i := GoodFound(inners, xs[..n], id);
      GoodPrefix(inners, xs, n, i, id);
    }
  }

  lemma {:induction false} GoodCounted(inners: Inners, xs: seq<Sent>, id: StreamId, i: nat)
    requires i < |xs| && GoodAt(inners, xs, i, id)
    ensures Goods(inners, xs, id) != []
    decreases |xs|
  {
    hide GoodAt;
    var n := |xs| - 1;
    if i < n {
      GoodPrefix(inners, xs, n, i, id);
      GoodCounted(inners, xs[..n], id, i);
    }
  }

  lemma GoodPrefix(inners: Inners, xs: seq<Sent>, n: nat, i: nat, id: StreamId)
    requires i < n <= |xs|
    ensures GoodAt(inners, xs[..n], i, id) == GoodAt(inners, xs, i, id)
  {
    assert xs[..n][..i] == xs[..i];
  }

  lemma SomeGood(inners: Inners, xs: seq<Sent>, id: StreamId)
    ensures Goods(inners, xs, id) != [] <==> exists i: nat :: i < |xs| && GoodAt(inners, xs, i, id)
  {
    hide GoodAt, Goods;
    if Goods(inners, xs, id) != [] {
      var i := GoodFound(inners, xs, id);
    }
    if i: nat :| i < |xs| && GoodAt(inners, xs, i, id) {
      GoodCounted(inners, xs, id, i);
    }
  }

  lemma AtPrefix(inners: Inners, xs: seq<Sent>, n: nat, id: StreamId)
    requires n <= |xs|
    ensures forall i :: 0 <= i < n ==> GoodAt(inners, xs[..n], i, id) == GoodAt(inners, xs, i, id)
    ensures forall i :: 0 <= i < n ==> EndsAt(inners, xs[..n], i, id) == EndsAt(inners, xs, i, id)
  {
    assert forall i :: 0 <= i < n ==> xs[..n][..i] == xs[..i];
  }

  lemma OvertakenLast(inners: Inners, xs: seq<Sent>, id: StreamId)
    requires xs != []
    ensures OvertakenOn(inners, xs, id) <==>
            || OvertakenOn(inners, xs[..|xs| - 1], id)
            || (EndsAt(inners, xs, |xs| - 1, id) && Goods(inners, xs[..|xs| - 1], id) != [])
  {
    hide GoodAt, EndsAt, Goods, OvertakenOn;
    var n := |xs| - 1;
    var before := xs[..n];
    SomeGood(inners, before, id);
    if OvertakenOn(inners, xs, id) {
      var i, j := OvertakenBy(inners, xs, id);
      AtPrefix(inners, xs, n, id);
      if j < n {
        OvertakenAt(inners, before, id, i, j);
      } else {
        assert GoodAt(inners, before, i, id);
      }
    }
    if OvertakenOn(inners, before, id) {
      var i, j := OvertakenBy(inners, before, id);
      AtPrefix(inners, xs, n, id);
      OvertakenAt(inners, xs, id, i, j);
    }
    if EndsAt(inners, xs, n, id) && Goods(inners, before, id) != [] {
      var i: nat :| i < |before| && GoodAt(inners, before, i, id);
      AtPrefix(inners, xs, n, id);
      OvertakenAt(inners, xs, id, i, n);
    }
  }

  lemma OvertakenBy(inners: Inners, xs: seq<Sent>, id: StreamId) returns (i: nat, j: nat)
    requires OvertakenOn(inners, xs, id)
    ensures i < j < |xs| && GoodAt(inners, xs, i, id) && EndsAt(inners, xs, j, id)
  {
    i, j :| 0 <= i < j < |xs| && GoodAt(inners, xs, i, id) && EndsAt(inners, xs, j, id);
  }

  lemma OvertakenAt(inners: Inners, xs: seq<Sent>, id: StreamId, i: nat, j: nat)
    requires i < j < |xs| && GoodAt(inners, xs, i, id) && EndsAt(inners, xs, j, id)
    ensures OvertakenOn(inners, xs, id)
  {
  }

  /** A message is overtaken exactly when it is not among those behind the last ending frame. */
  lemma {:induction false} LateOrOvertaken(inners: Inners, xs: seq<Sent>, id: StreamId)
    ensures |Late(inners, xs, id)| <= |Goods(inners, xs, id)|
    ensures if OvertakenOn(inners, xs, id) then |Late(inners, xs, id)| < |Goods(inners, xs, id)|
            else Late(inners, xs, id) == Goods(inners, xs, id)
    decreases |xs|
  {
    if xs != [] {
      hide OvertakenOn, EndsAt, GoodAt;
      LateOrOvertaken(inners, xs[..|xs| - 1], id);
      OvertakenLast(inners, xs, id);
      OneOf(inners, xs, |xs| - 1, id);
    } else {
      assert !OvertakenOn(inners, xs, id);
    }
  }

  lemma OneOf(inners: Inners, xs: seq<Sent>, n: nat, id: StreamId)
    requires n < |xs|
    ensures !(GoodAt(inners, xs, n, id) && EndsAt(inners, xs, n, id))
  {
  }

  // ------------------------------------------------------------------- main results

  /** Handing over panics if and only if a message was good when it came and its stream is gone
      at the end of the chunk. */
  lemma BatchPanicsIff(inners: Inners, xs: seq<Sent>)
    ensures Batch(inners, xs).None? <==>
            exists i: nat :: i < |xs| && GoodAt(inners, xs, i, xs[i].frame.stream)
                             && xs[i].frame.stream !in Opened(inners, xs)
  {
    hide GoodAt, Opened, Wanted, Goods;
    DeliverExact(Opened(inners, xs), Wanted(inners, xs));
    if Batch(inners, xs).None? {
      var id :| Bodies(Wanted(inners, xs), id) != [] && id !in Opened(inners, xs);
      WantedBodies(inners, xs, id);
      SomeGood(inners, xs, id);
      var i: nat :| i < |xs| && GoodAt(inners, xs, i, id);
      GoodOn(inners, xs, i, id);
    }
    if i: nat :| i < |xs| && GoodAt(inners, xs, i, xs[i].frame.stream) && xs[i].frame.stream !in Opened(inners, xs) {
      var id := xs[i].frame.stream;
      SomeGood(inners, xs, id);
      WantedBodies(inners, xs, id);
    }
  }

  lemma GoodOn(inners: Inners, xs: seq<Sent>, i: nat, id: StreamId)
    requires i < |xs| && GoodAt(inners, xs, i, id)
    ensures xs[i].frame.stream == id
  {
  }

  /** Handling a chunk at once gives every stream what handling its frames one by one gives it,
      and does not panic, if and only if no message of the chunk is overtaken. */
  lemma BatchIsStepwise(inners: Inners, xs: seq<Sent>)
    ensures Batch(inners, xs) == Some(Steps(inners, xs)) <==> !Overtaken(inners, xs)
  {
    hide Opened, Wanted, Goods, Late, Steps, OvertakenOn, Deliver;
    var all, ds := Opened(inners, xs), Wanted(inners, xs);
    DeliverExact(all, ds);
    StepsOpen(inners, xs);
    forall id
      ensures Bodies(ds, id) == Goods(inners, xs, id)
      ensures id !in all ==> Late(inners, xs, id) == []
      ensures id in all ==> id in Steps(inners, xs) && Steps(inners, xs)[id].got == all[id].got + Late(inners, xs, id)
      ensures if OvertakenOn(inners, xs, id) then |Late(inners, xs, id)| < |Goods(inners, xs, id)|
              else Late(inners, xs, id) == Goods(inners, xs, id)
    {
      WantedBodies(inners, xs, id);
      LateOrOvertaken(inners, xs, id);
      if id in all { StepsGot(inners, xs, id); } else { GoneGetsNothing(inners, xs, id); }
    }
    if Overtaken(inners, xs) {
      var id :| OvertakenOn(inners, xs, id);
      assert Bodies(ds, id) != [];
      if id in all {
        assert |Steps(inners, xs)[id].got| < |all[id].got + Bodies(ds, id)|;
      }
    } else {
      assert forall id :: !OvertakenOn(inners, xs, id);
      assert Deliver(all, ds).Some?;
      var r := Deliver(all, ds).value;
      forall id | id in r
        ensures r[id] == Steps(inners, xs)[id]
      {
      }
      assert r == Steps(inners, xs);
    }
  }

  /** One frame at a time nothing is overtaken. */
  lemma SingleFrame(inners: Inners, xs: seq<Sent>)
    requires |xs| <= 1
    ensures Batch(inners, xs) == Some(Steps(inners, xs))
  {
    assert !Overtaken(inners, xs);
    BatchIsStepwise(inners, xs);
  }

  /** A message and a reset of its stream in one chunk: the message is lost in a panic. */
  lemma ResetOvertakes(inners: Inners, id: StreamId, incoming: bool, body: seq<byte>)
    requires !Bad(inners, id, incoming)
    ensures Batch(inners, [Sent(Frame(Msg, id, incoming), body), Sent(Frame(Reset, id, incoming), [])]).None?
  {
    var xs := [Sent(Frame(Msg, id, incoming), body), Sent(Frame(Reset, id, incoming), [])];
    assert FramesOf(xs[..0]) == [] && xs[..1] == [xs[0]];
    assert GoodAt(inners, xs, 0, id);
    OpenedLast(inners, xs);
    BatchPanicsIff(inners, xs);
  }

  // ----------------------------------------------------------------------- history

  /** The messages history admits since the stream was last opened. */
  function Admitted(xs: seq<Sent>, id: StreamId): seq<seq<byte>> {
    if xs == [] then [] else
    var before, x := xs[..|xs| - 1], xs[|xs| - 1];
    if x.frame.stream != id then Admitted(before, id)
    else if x.frame.kind.New? then []
    else Admitted(before, id)
         + if x.frame.kind.Msg? && Allows(Due(FramesOf(before), id), x.frame.incoming) then [x.body] else []
  }

  predicate Allows(due: Option<Status>, incoming: bool) {
    match due
    case None => false
    case Some(Duplex) => true
    case Some(IncomingOnly) => incoming
    case Some(OutgoingOnly) => !incoming
  }

  /** Every open stream has got exactly the messages history admits since it was opened, in
      order. */
  lemma {:induction false} StreamsGetTheirs(xs: seq<Sent>, id: StreamId)
    requires id in Steps(map[], xs)
    ensures Steps(map[], xs)[id].got == Admitted(xs, id)
    decreases |xs|
  {
    if xs != [] {
      hide Due, Admitted;
      var before, x := xs[..|xs| - 1], xs[|xs| - 1];
      StepsOpen(map[], before);
      StatusIsHistory(FramesOf(before), id);
      AdmittedLast(xs, id);
      if x.frame.stream != id || !x.frame.kind.New? {
        StreamsGetTheirs(before, id);
      }
    }
  }

  lemma AdmittedLast(xs: seq<Sent>, id: StreamId)
    requires xs != []
    ensures var before, x := xs[..|xs| - 1], xs[|xs| - 1];
            Admitted(xs, id) ==
            if x.frame.stream != id then Admitted(before, id)
            else if x.frame.kind.New? then []
            else Admitted(before, id)
                 + if x.frame.kind.Msg? && Allows(Due(FramesOf(before), id), x.frame.incoming) then [x.body] else []
  {
  }

  lemma {:induction false} StepsAppend(inners: Inners, a: seq<Sent>, b: seq<Sent>)
    ensures Steps(inners, a + b) == Steps(Steps(inners, a), b)
    decreases |b|
  {
    if b == [] {
      assert a + b == a;
    } else {
      hide Step;
      assert (a + b)[..|a + b| - 1] == a + b[..|b| - 1];
      StepsAppend(inners, a, b[..|b| - 1]);
    }
  }
}
