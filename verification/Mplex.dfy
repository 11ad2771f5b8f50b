/** The mplex layer: frames cut out of each direction, stream status, and what is recorded. */
module Mplex {
  import opened Bytes
  import opened Framing
  import opened Streams
  import Delivery
  import Varint

  /** A frame header: `flag` and `number` come from the first varint, then the body length. */
  datatype Header = Incomplete | Panic | Header(flag: nat, number: nat, len: nat, offset: nat)

  /** Tag 7 panics, and so does a length that overflows together with the header size. */
  function ParseHeader(s: seq<byte>): (h: Header)
    ensures h.Header? ==> h.flag < 7 && 2 <= h.offset && h.number < 0x2000_0000_0000_0000
  {
    match Varint.Decode(s)
    case None => Incomplete
    case Some((v, n)) =>
      if v % 8 == 7 then Panic else
      match Varint.Decode(s[n..])
      case None => Incomplete
      case Some((len, k)) =>
        if n + k + len >= U64 then Panic else Header(v % 8, v / 8, len, n + k)
  }

  lemma ParseStable(s: seq<byte>, t: seq<byte>)
    requires !ParseHeader(s).Incomplete?
    ensures ParseHeader(s + t) == ParseHeader(s)
  {
    Varint.DecodeStable(s, t);
    var (v, n) := Varint.Decode(s).value;
    if v % 8 != 7 {
      assert (s + t)[n..] == s[n..] + t;
      Varint.DecodeStable(s[n..], t);
    }
  }

  function Size(s: seq<byte>): Option<pos> {
    var h := ParseHeader(s);
    if h.Header? then Some(h.offset + h.len) else None
  }

  lemma SizeStable()
    ensures PrefixStable(Size) && !HasFrame(Size, [])
  {
    assert ParseHeader([]).Incomplete?;
    hide ParseHeader;
    forall s: seq<byte>, t: seq<byte> | Size(s).Some?
      ensures Size(s + t) == Size(s)
    {
      ParseStable(s, t);
    }
  }

  // --------------------------------------------------------------------- frames

  function KindOf(flag: nat): Kind {
    if flag == 0 then New else if flag <= 2 then Msg else if flag <= 4 then Close else
    if flag <= 6 then Reset else Other
  }

  /** Even flags are used by the side that opened the stream. */
  function StreamOf(incoming: bool, flag: nat, number: nat): StreamId {
    if (flag % 2 == 0) == incoming then Forward(number) else Backward(number)
  }

  function Meaning(incoming: bool, frame: seq<byte>): Frame {
    var h := ParseHeader(frame);
    if h.Header? then Frame(KindOf(h.flag), StreamOf(incoming, h.flag, h.number), incoming)
    else Frame(Other, Handshake, incoming)
  }

  function Meanings(incoming: bool, fs: seq<seq<byte>>): (ms: seq<Frame>)
    ensures |ms| == |fs| && forall i :: 0 <= i < |fs| ==> ms[i] == Meaning(incoming, fs[i])
  {
    seq(|fs|, i requires 0 <= i < |fs| => Meaning(incoming, fs[i]))
  }

  datatype Variant =
    | NewStream(header: nat, name: seq<byte>, alreadyExist: bool)
    | Message(bytes: seq<byte>, badStream: bool)
    | CloseStream(header: nat, error: Option<CloseError>)
    | ResetStream(header: nat)

  datatype Output = Output(stream: StreamId, variant: Variant)

  /** The control header stored for a stream: its number and who acts on it. */
  function ControlHeader(stream: StreamId, forward: nat, backward: nat): nat {
    match stream
    case Handshake => 0xFFFF_FFFF_FFFF_FFFF
    case Forward(n) => forward + n * 8
    case Backward(n) => backward + n * 8
  }

  function Body(frame: seq<byte>): seq<byte> {
    var h := ParseHeader(frame);
    if h.Header? && h.offset <= |frame| then frame[h.offset..] else []
  }

  function Report(incoming: bool, inners: Inners, frame: seq<byte>): Output {
    var m := Meaning(incoming, frame);
    Output(m.stream,
      match m.kind
      case New => NewStream(ControlHeader(m.stream, 0, 0), Body(frame), m.stream in inners)
      case Msg => Message(Body(frame), Bad(inners, m.stream, incoming))
      case Close => CloseStream(ControlHeader(m.stream, 4, 3), Closing(inners, m.stream, incoming))
      case _ => ResetStream(ControlHeader(m.stream, 6, 5)))
  }

  function Reports(incoming: bool, inners: Inners, fs: seq<seq<byte>>): seq<Output>
    decreases fs
  {
    if fs == [] then [] else
    [Report(incoming, inners, fs[0])] + Reports(incoming, Apply(inners, Meaning(incoming, fs[0])), fs[1..])
  }

  /** Cutting a frame out does not change how its header reads. */
  lemma FrameHeader(s: seq<byte>)
    requires HasFrame(Size, s)
    ensures ParseHeader(s[..Size(s).value]) == ParseHeader(s)
  {
    var n := Size(s).value;
    var (v, k) := Varint.Decode(s).value;
    Varint.RawLocal(s, 0, n);
    Varint.RawLocal(s[k..], 0, n - k);
    assert s[..n][k..] == s[k..][..n - k];
  }

  // ----------------------------------------------------------- chunk independence

  lemma NothingAfter(inners: Inners)
    ensures After(inners, []) == inners
  {
  }

  lemma AfterCons(incoming: bool, inners: Inners, f: seq<byte>, fs: seq<seq<byte>>)
    ensures After(inners, Meanings(incoming, [f] + fs))
            == After(Apply(inners, Meaning(incoming, f)), Meanings(incoming, fs))
  {
    hide ParseHeader;
    var m := Meaning(incoming, f);
    assert Meanings(incoming, [f] + fs) == [m] + Meanings(incoming, fs);
    AfterAppend(inners, [m], Meanings(incoming, fs));
    assert After(inners, [m]) == Apply(After(inners, [m][..0]), m);
  }

  lemma ReportsFirst(incoming: bool, inners: Inners, fs: seq<seq<byte>>)
    ensures fs == [] ==> Reports(incoming, inners, fs) == []
    ensures fs != [] ==>
              Reports(incoming, inners, fs)
              == [Report(incoming, inners, fs[0])]
                 + Reports(incoming, Apply(inners, Meaning(incoming, fs[0])), fs[1..])
  {
  }

  lemma {:induction false} ReportsAppend(incoming: bool, inners: Inners, a: seq<seq<byte>>, b: seq<seq<byte>>)
    ensures Reports(incoming, inners, a + b)
            == Reports(incoming, inners, a) + Reports(incoming, After(inners, Meanings(incoming, a)), b)
    decreases a
  {
    hide Reports, Report, Meaning, Apply, After;
    ReportsFirst(incoming, inners, a);
    ReportsFirst(incoming, inners, a + b);
    if a == [] {
      assert a + b == b;
      assert Meanings(incoming, a) == [];
      NothingAfter(inners);
    } else {
      var mid := Apply(inners, Meaning(incoming, a[0]));
      assert (a + b)[1..] == a[1..] + b && (a + b)[0] == a[0] && a == [a[0]] + a[1..];
      ReportsAppend(incoming, mid, a[1..], b);
      AfterCons(incoming, inners, a[0], a[1..]);
      Associate([Report(incoming, inners, a[0])], Reports(incoming, mid, a[1..]),
        Reports(incoming, After(mid, Meanings(incoming, a[1..])), b));
    }
  }

  /** What handling the bytes `s` of one direction amounts to. */
  datatype Handled = Handled(out: seq<Output>, inners: Inners, rest: seq<byte>)

  function Handle(incoming: bool, inners: Inners, s: seq<byte>): Handled {
    var fs := Frames(Size, s);
    Handled(Reports(incoming, inners, fs), After(inners, Meanings(incoming, fs)), Residual(Size, s))
  }

  /** Handling `s` and then what is left of it with `t` reports the same, leaves the same
      status map and the same residue as handling `s + t` at once. */
  lemma ChunkingIrrelevant(incoming: bool, inners: Inners, s: seq<byte>, t: seq<byte>)
    ensures var first := Handle(incoming, inners, s);
            var second := Handle(incoming, first.inners, first.rest + t);
            Handle(incoming, inners, s + t) == Handled(first.out + second.out, second.inners, second.rest)
  {
    hide Frames, Residual, Reports, After, Size;
    SizeStable();
    FramesAppend(Size, s, t);
    var a, b := Frames(Size, s), Frames(Size, Residual(Size, s) + t);
    assert Meanings(incoming, a + b) == Meanings(incoming, a) + Meanings(incoming, b);
    AfterAppend(inners, Meanings(incoming, a), Meanings(incoming, b));
    ReportsAppend(incoming, inners, a, b);
  }

  lemma HandleNone(incoming: bool, inners: Inners, s: seq<byte>)
    requires !HasFrame(Size, s) || ParseHeader(s).Panic?
    ensures Handle(incoming, inners, s) == Handled([], inners, s)
  {
  }

  lemma HandleFirst(incoming: bool, inners: Inners, s: seq<byte>)
    requires HasFrame(Size, s)
    ensures var n := Size(s).value;
            var later := Handle(incoming, Apply(inners, Meaning(incoming, s[..n])), s[n..]);
            Handle(incoming, inners, s)
            == Handled([Report(incoming, inners, s[..n])] + later.out, later.inners, later.rest)
  {
    hide ParseHeader, Report, Meaning, Apply;
    AfterCons(incoming, inners, s[..Size(s).value], Frames(Size, s[Size(s).value..]));
  }

  /** Every frame takes at least two bytes. */
  lemma {:induction false} FramesAreLong(s: seq<byte>)
    ensures 2 * |Frames(Size, s)| + |Residual(Size, s)| <= |s|
    decreases |s|
  {
    if HasFrame(Size, s) {
      FramesAreLong(s[Size(s).value..]);
    }
  }

  /** A stream that panics goes on panicking, after the same frames. */
  lemma PanicIsFinal(s: seq<byte>, t: seq<byte>)
    requires ParseHeader(Residual(Size, s)).Panic?
    ensures ParseHeader(Residual(Size, s + t)).Panic? && Frames(Size, s + t) == Frames(Size, s)
  {
    SizeStable();
    FramesAppend(Size, s, t);
    ParseStable(Residual(Size, s), t);
    assert Frames(Size, s) + [] == Frames(Size, s);
  }

  // --------------------------------------------------------------- handing over

  function Sends(incoming: bool, fs: seq<seq<byte>>): (xs: seq<Delivery.Sent>)
    ensures |xs| == |fs| && forall i :: 0 <= i < |fs| ==> xs[i] == Delivery.Sent(Meaning(incoming, fs[i]), Body(fs[i]))
  {
    seq(|fs|, i requires 0 <= i < |fs| => Delivery.Sent(Meaning(incoming, fs[i]), Body(fs[i])))
  }

  function Asked(o: Output): seq<(StreamId, seq<byte>)> {
    if o.variant.Message? && !o.variant.badStream then [(o.stream, o.variant.bytes)] else []
  }

  /** The messages that a batch of reports asks to hand over. */
  function ToHandOver(out: seq<Output>): seq<(StreamId, seq<byte>)> {
    if out == [] then [] else ToHandOver(out[..|out| - 1]) + Asked(out[|out| - 1])
  }

  lemma {:induction false} HandOverPrefix(out: seq<Output>, n: nat)
    requires n <= |out|
    ensures ToHandOver(out[..n]) <= ToHandOver(out)
    decreases |out|
  {
    if n < |out| {
      HandOverPrefix(out[..|out| - 1], n);
      assert out[..|out| - 1][..n] == out[..n];
    } else {
      assert out[..n] == out;
    }
  }

  lemma NothingToHandOver(inners: Inners)
    ensures Delivery.Deliver(inners, ToHandOver([])) == Some(inners)
  {
  }

  /** The next report, when those before it have been dealt with. */
  lemma HandOverNext(start: Inners, out: seq<Output>, i: nat, inners: Inners)
    requires i < |out| && Delivery.Deliver(start, ToHandOver(out[..i])) == Some(inners)
    ensures var o := out[i];
            Delivery.Deliver(start, ToHandOver(out[..i + 1])) ==
            if Asked(o) == [] then Some(inners)
            else if o.stream in inners then Some(Delivery.HandOver(inners, o.stream, o.variant.bytes))
            else None
  {
    hide ToHandOver, Delivery.HandOver, Delivery.Deliver;
    var o := out[i];
    assert out[..i + 1] == out[..i] + [o];
    HandOverLast(out[..i], o);
    var ds := ToHandOver(out[..i]);
    if Asked(o) == [] {
      assert ds + [] == ds;
    } else {
      Delivery.DeliverLast(start, ds, o.stream, o.variant.bytes);
    }
  }

  /** A failed lookup is not made good by later reports. */
  lemma HandOverFailed(start: Inners, out: seq<Output>, i: nat, n: nat)
    requires i <= n <= |out| && Delivery.Deliver(start, ToHandOver(out[..i])).None?
    ensures Delivery.Deliver(start, ToHandOver(out[..n])).None?
  {
    hide ToHandOver, Delivery.Deliver;
    HandOverPrefix(out[..n], i);
    assert out[..n][..i] == out[..i];
    Delivery.DeliverPrefix(start, ToHandOver(out[..i]), ToHandOver(out[..n]));
  }

  lemma OpenedIsAfter(incoming: bool, inners: Inners, fs: seq<seq<byte>>)
    ensures Delivery.Opened(inners, Sends(incoming, fs)) == After(inners, Meanings(incoming, fs))
  {
    hide Meaning, Body;
    assert Delivery.FramesOf(Sends(incoming, fs)) == Meanings(incoming, fs);
  }

  lemma ReportAsks(incoming: bool, inners: Inners, frame: seq<byte>)
    ensures Asked(Report(incoming, inners, frame)) ==
            var m := Meaning(incoming, frame);
            if Delivery.Good(inners, Delivery.Sent(m, Body(frame))) then [(m.stream, Body(frame))] else []
  {
  }

  lemma ReportsLast(incoming: bool, inners: Inners, fs: seq<seq<byte>>, f: seq<byte>)
    ensures Reports(incoming, inners, fs + [f])
            == Reports(incoming, inners, fs) + [Report(incoming, After(inners, Meanings(incoming, fs)), f)]
  {
    hide Report, Meaning, After;
    ReportsAppend(incoming, inners, fs, [f]);
    var mid := After(inners, Meanings(incoming, fs));
    assert Reports(incoming, mid, [f]) == [Report(incoming, mid, f)];
  }

  lemma SendsLast(incoming: bool, fs: seq<seq<byte>>, f: seq<byte>)
    ensures Sends(incoming, fs + [f]) == Sends(incoming, fs) + [Delivery.Sent(Meaning(incoming, f), Body(f))]
  {
    hide Meaning, Body;
  }

  lemma HandOverLast(out: seq<Output>, o: Output)
    ensures ToHandOver(out + [o]) == ToHandOver(out) + Asked(o)
  {
    assert (out + [o])[..|out + [o]| - 1] == out;
  }

  /** What the reports ask for is what the frames want. */
  lemma {:induction false} ReportsAsk(incoming: bool, inners: Inners, fs: seq<seq<byte>>)
    ensures ToHandOver(Reports(incoming, inners, fs)) == Delivery.Wanted(inners, Sends(incoming, fs))
    decreases |fs|
  {
    if fs != [] {
      hide *;
      var gs, f := fs[..|fs| - 1], fs[|fs| - 1];
      var x := Delivery.Sent(Meaning(incoming, f), Body(f));
      var mid := After(inners, Meanings(incoming, gs));
      assert fs == gs + [f];
      SendsLast(incoming, gs, f);
      ReportsAsk(incoming, inners, gs);
      ReportsLast(incoming, inners, gs, f);
      HandOverLast(Reports(incoming, inners, gs), Report(incoming, mid, f));
      OpenedIsAfter(incoming, inners, gs);
      ReportAsks(incoming, mid, f);
      Delivery.WantedLast(inners, Sends(incoming, gs), x);
    }
  }

  // ---------------------------------------------------------------- the machine

  datatype Poll = Pending | Ready(frame: seq<byte>) | Crash

  /** One call of the accumulator: the result and the buffer afterwards. */
  function Turn(acc: seq<byte>, input: seq<byte>): (Poll, seq<byte>) {
    var s := acc + input;
    if ParseHeader(s).Panic? then (Crash, acc)
    else if HasFrame(Size, s) then (Ready(s[..Size(s).value]), s[Size(s).value..])
    else (Pending, s)
  }

  /** What one turn means for everything that is still to be handled. */
  lemma TurnCases(incoming: bool, inners: Inners, acc: seq<byte>, input: seq<byte>)
    ensures var s := acc + input;
            var h := Handle(incoming, inners, s);
            var (p, acc') := Turn(acc, input);
            match p
            case Pending => h == Handled([], inners, s) && !ParseHeader(s).Panic? && acc' == s
            case Crash => h == Handled([], inners, s) && ParseHeader(s).Panic?
            case Ready(frame) =>
              var later := Handle(incoming, Apply(inners, Meaning(incoming, frame)), acc');
              && h == Handled([Report(incoming, inners, frame)] + later.out, later.inners, later.rest)
              && |acc'| < |s|
  {
    hide ParseHeader, Handle, Report, Meaning, Apply;
    var s := acc + input;
    if HasFrame(Size, s) {
      HandleFirst(incoming, inners, s);
    } else {
      HandleNone(incoming, inners, s);
    }
  }

  class State {
    var accIncoming: seq<byte>
    var accOutgoing: seq<byte>
    var inners: Inners

    ghost function Acc(incoming: bool): seq<byte>
      reads this
    {
      if incoming then accIncoming else accOutgoing
    }

    constructor ()
      ensures accIncoming == [] && accOutgoing == [] && inners == map[]
    {
      accIncoming, accOutgoing, inners := [], [], map[];
    }

    method SetAcc(incoming: bool, acc: seq<byte>)
      modifies this`accIncoming, this`accOutgoing
      ensures Acc(incoming) == acc && Acc(!incoming) == old(Acc(!incoming))
    {
      if incoming {
        accIncoming := acc;
      } else {
        accOutgoing := acc;
      }
    }

    /** At most one frame, straight from `bytes` when nothing is buffered. */
    method Accumulate(incoming: bool, bytes: seq<byte>) returns (p: Poll)
      modifies this`accIncoming, this`accOutgoing
      ensures Acc(!incoming) == old(Acc(!incoming))
      ensures p == Turn(old(Acc(incoming)), bytes).0
      ensures !p.Crash? ==> Acc(incoming) == Turn(old(Acc(incoming)), bytes).1
    {
      hide ParseHeader;
      var acc := if incoming then accIncoming else accOutgoing;
      if acc == [] {
        assert acc + bytes == bytes;
        var h := ParseHeader(bytes);
        if h.Panic? {
          return Crash;
        } else if h.Header? {
          var end := h.offset + h.len;
          if |bytes| < end {
            SetAcc(incoming, bytes);
          } else if |bytes| == end {
            assert bytes[..end] == bytes && bytes[end..] == [];
            return Ready(bytes);
          } else {
            SetAcc(incoming, bytes[end..]);
            return Ready(bytes[..end]);
          }
        } else {
          SetAcc(incoming, bytes);
        }
      } else {
        acc := acc + bytes;
        SetAcc(incoming, acc);
        var h := ParseHeader(acc);
        if h.Panic? {
          return Crash;
        } else if h.Header? {
          var end := h.offset + h.len;
          if |acc| >= end {
            SetAcc(incoming, acc[end..]);
            return Ready(acc[..end]);
          }
        }
      }
      p := Pending;
    }

    /** All complete frames: status map and buffer move to exactly what the frames of the
        buffered and the new bytes prescribe. */
    method Process(incoming: bool, bytes: seq<byte>) returns (out: seq<Output>, crashed: bool)
      modifies this
      ensures Acc(!incoming) == old(Acc(!incoming))
      ensures var h := Handle(incoming, old(inners), old(Acc(incoming)) + bytes);
              && out == h.out && inners == h.inners
              && (crashed <==> ParseHeader(h.rest).Panic?)
              && (!crashed ==> Acc(incoming) == h.rest)
    {
      hide ParseHeader, Handle, Turn, Report, Meaning, Apply;
      out, crashed := [], false;
      var input := bytes;
      ghost var all := Handle(incoming, inners, Acc(incoming) + bytes);
      while true
        invariant Acc(!incoming) == old(Acc(!incoming))
        invariant var h := Handle(incoming, inners, Acc(incoming) + input);
                  all.out == out + h.out && all.inners == h.inners && all.rest == h.rest
        decreases |Acc(incoming)| + |input|
      {
        TurnCases(incoming, inners, Acc(incoming), input);
        var p := Accumulate(incoming, input);
        input := [];
        assert Acc(incoming) + input == Acc(incoming);
        match p {
          case Pending =>
            return;
          case Crash =>
            return out, true;
          case Ready(frame) =>
            ghost var before := out;
            var report := Report(incoming, inners, frame);
            out := out + [report];
            inners := Apply(inners, Meaning(incoming, frame));
            Associate(before, [report], Handle(incoming, inners, Acc(incoming)).out);
        }
      }
    }

    /** One chunk: all its frames are processed, and then its messages are handed over. The call
        ends early if a stream or the database reports an error, after `stop` reports. */
    method OnData(incoming: bool, bytes: seq<byte>, stop: nat) returns (panicked: bool)
      modifies this
      ensures Acc(!incoming) == old(Acc(!incoming))
      ensures var s := old(Acc(incoming)) + bytes;
              var b := BatchUpTo(incoming, old(inners), Frames(Size, s), stop);
              && (panicked <==> ParseHeader(Residual(Size, s)).Panic? || b.None?)
              && (!panicked ==> inners == b.value && Acc(incoming) == Residual(Size, s))
    {
      hide ParseHeader, Size, Reports, Meaning, Apply, After, Frames, Residual, ToHandOver, Delivery.Deliver,
        Delivery.HandOver;
      ghost var fs := Frames(Size, Acc(incoming) + bytes);
      var out, crashed := Process(incoming, bytes);
      if crashed {
        return true;
      }
      ghost var start := inners;
      NothingToHandOver(start);
      var n := if stop < |out| then stop else |out|;
      for i := 0 to n
        invariant Delivery.Deliver(start, ToHandOver(out[..i])) == Some(inners)
        invariant Acc(incoming) == Residual(Size, old(Acc(incoming)) + bytes)
        invariant Acc(!incoming) == old(Acc(!incoming))
      {
        var o := out[i];
        HandOverNext(start, out, i, inners);
        if o.variant.Message? && !o.variant.badStream {
          if o.stream !in inners {
            HandOverFailed(start, out, i + 1, n);
            return true;
          }
          inners := Delivery.HandOver(inners, o.stream, o.variant.bytes);
        }
      }
      panicked := false;
    }
  }

  /** Processing all frames and dealing with the first `stop` reports. */
  function BatchUpTo(incoming: bool, inners: Inners, fs: seq<seq<byte>>, stop: nat): Option<Inners> {
    var out := Reports(incoming, inners, fs);
    Delivery.Deliver(After(inners, Meanings(incoming, fs)), ToHandOver(out[..if stop < |out| then stop else |out|]))
  }

  /** Without an error that is the whole batch; with one, its streams get a prefix. */
  lemma BatchWithoutError(incoming: bool, inners: Inners, fs: seq<seq<byte>>, stop: nat)
    ensures stop >= |fs| ==> BatchUpTo(incoming, inners, fs, stop) == Delivery.Batch(inners, Sends(incoming, fs))
    ensures Delivery.Batch(inners, Sends(incoming, fs)).Some? ==>
              var all := Delivery.Batch(inners, Sends(incoming, fs)).value;
              && BatchUpTo(incoming, inners, fs, stop).Some?
              && var part := BatchUpTo(incoming, inners, fs, stop).value;
                 Delivery.SameStatus(part, all) && forall id :: id in part ==> id in all && part[id].got <= all[id].got
  {
    hide Reports, Meaning, After, ToHandOver, Delivery.Deliver, Delivery.Wanted, Delivery.Opened, Delivery.SameStatus;
    var out, opened_ := Reports(incoming, inners, fs), After(inners, Meanings(incoming, fs));
    ReportsAsk(incoming, inners, fs);
    OpenedIsAfter(incoming, inners, fs);
    ReportsCount(incoming, inners, fs);
    var n := if stop < |out| then stop else |out|;
    assert n == |out| ==> out[..n] == out;
    assert out[..|out|] == out;
    if Delivery.Batch(inners, Sends(incoming, fs)).Some? {
      if Delivery.Deliver(opened_, ToHandOver(out[..n])).None? {
        HandOverFailed(opened_, out, n, |out|);
      }
      HandOverPrefix(out, n);
      var ds, ds' := ToHandOver(out[..n]), ToHandOver(out);
      Delivery.DeliverExact(opened_, ds);
      Delivery.DeliverExact(opened_, ds');
      var part, all := Delivery.Deliver(opened_, ds).value, Delivery.Deliver(opened_, ds').value;
      Delivery.SameStatusSym(all, opened_);
      Delivery.SameStatusTrans(part, opened_, all);
      forall id | id in part
        ensures id in all && part[id].got <= all[id].got
      {
        Delivery.SameKeys(part, opened_, id);
        Delivery.BodiesPrefix(ds, ds', id);
      }
    }
  }

  lemma {:induction false} ReportsCount(incoming: bool, inners: Inners, fs: seq<seq<byte>>)
    ensures |Reports(incoming, inners, fs)| == |fs|
    decreases fs
  {
    if fs != [] {
      hide Report, Apply, Meaning;
      ReportsCount(incoming, Apply(inners, Meaning(incoming, fs[0])), fs[1..]);
    }
  }

  // ------------------------------------------------------------------- whole runs

  function MeaningsOf(es: seq<Event>): (ms: seq<Frame>)
    ensures |ms| == |es| && forall i :: 0 <= i < |es| ==> ms[i] == Meaning(es[i].0, es[i].1)
  {
    seq(|es|, i requires 0 <= i < |es| => Meaning(es[i].0, es[i].1))
  }

  function SendsOf(es: seq<Event>): (xs: seq<Delivery.Sent>)
    ensures |xs| == |es|
    ensures forall i :: 0 <= i < |es| ==> xs[i] == Delivery.Sent(Meaning(es[i].0, es[i].1), Body(es[i].1))
  {
    seq(|es|, i requires 0 <= i < |es| => Delivery.Sent(Meaning(es[i].0, es[i].1), Body(es[i].1)))
  }

  lemma RunFirst(d: bool, fs: seq<seq<byte>>, es: seq<Event>)
    ensures MeaningsOf(Tag(d, fs) + es) == Meanings(d, fs) + MeaningsOf(es)
    ensures SendsOf(Tag(d, fs) + es) == Sends(d, fs) + SendsOf(es)
  {
    hide Meaning, Body;
  }

  /** The streams and the unfinished bytes of both directions. */
  datatype Layer = Layer(inners: Inners, acc: Both)

  /** One chunk, as `OnData` handles it; `None` is a panic. */
  function OnChunk(l: Layer, d: bool, bytes: seq<byte>): Option<Layer> {
    var s := l.acc.Of(d) + bytes;
    var b := Delivery.Batch(l.inners, Sends(d, Frames(Size, s)));
    if ParseHeader(Residual(Size, s)).Panic? || b.None? then None
    else Some(Layer(b.value, l.acc.With(d, Residual(Size, s))))
  }

  function Run(l: Layer, chunks: seq<Event>): Option<Layer>
    decreases chunks
  {
    if chunks == [] then Some(l) else
    match OnChunk(l, chunks[0].0, chunks[0].1)
    case None => None
    case Some(l') => Run(l', chunks[1..])
  }

  /** However the two directions are chunked and interleaved, and whatever is handed over, the
      status of every stream is the one that the frames, in the order in which they complete,
      prescribe. */
  lemma {:induction false} InnersAreHistory(l: Layer, chunks: seq<Event>)
    requires Run(l, chunks).Some?
    ensures Delivery.SameStatus(Run(l, chunks).value.inners, After(l.inners, MeaningsOf(Events(Size, l.acc, chunks))))
    decreases chunks
  {
    if chunks != [] {
      var (d, b) := chunks[0];
      var fs := Frames(Size, l.acc.Of(d) + b);
      var l', rest := FirstChunk(l, chunks);
      hide *;
      ChunkStatus(l, d, b);
      InnersAreHistory(l', chunks[1..]);
      RunFirst(d, fs, rest);
      AfterAppend(l.inners, Meanings(d, fs), MeaningsOf(rest));
      Delivery.AfterSame(l'.inners, After(l.inners, Meanings(d, fs)), MeaningsOf(rest));
      Delivery.SameStatusTrans(Run(l, chunks).value.inners, After(l'.inners, MeaningsOf(rest)),
        After(After(l.inners, Meanings(d, fs)), MeaningsOf(rest)));
    }
  }

  lemma FirstChunk(l: Layer, chunks: seq<Event>) returns (l': Layer, rest: seq<Event>)
    requires Run(l, chunks).Some? && chunks != []
    ensures var (d, b) := chunks[0];
            && OnChunk(l, d, b) == Some(l') && Run(l, chunks) == Run(l', chunks[1..])
            && rest == Events(Size, l'.acc, chunks[1..])
            && Events(Size, l.acc, chunks) == Tag(d, Frames(Size, l.acc.Of(d) + b)) + rest
  {
    hide Delivery.Batch, ParseHeader;
    l' := OnChunk(l, chunks[0].0, chunks[0].1).value;
    rest := Events(Size, l'.acc, chunks[1..]);
  }

  lemma ChunkStatus(l: Layer, d: bool, b: seq<byte>)
    requires OnChunk(l, d, b).Some?
    ensures Delivery.SameStatus(OnChunk(l, d, b).value.inners,
                                After(l.inners, Meanings(d, Frames(Size, l.acc.Of(d) + b))))
  {
    hide ParseHeader, Delivery.Deliver, Delivery.Opened, Delivery.Wanted, Delivery.SameStatus;
    var xs := Sends(d, Frames(Size, l.acc.Of(d) + b));
    Delivery.DeliverSucceeds(Delivery.Opened(l.inners, xs), Delivery.Wanted(l.inners, xs));
    OpenedIsAfter(d, l.inners, Frames(Size, l.acc.Of(d) + b));
  }

  /** In no chunk of the run is a message overtaken by a frame that ends its stream. */
  ghost predicate Calm(l: Layer, chunks: seq<Event>)
    decreases chunks
  {
    chunks == [] ||
    var (d, b) := chunks[0];
    && !Delivery.Overtaken(l.inners, Sends(d, Frames(Size, l.acc.Of(d) + b)))
    && (OnChunk(l, d, b).Some? ==> Calm(OnChunk(l, d, b).value, chunks[1..]))
  }

  /** Then the run leaves every stream as handling its frames one by one leaves it, for every
      chunking and interleaving. */
  lemma {:induction false} CalmRunIsStepwise(l: Layer, chunks: seq<Event>)
    requires Run(l, chunks).Some? && Calm(l, chunks)
    ensures Run(l, chunks).value.inners == Delivery.Steps(l.inners, SendsOf(Events(Size, l.acc, chunks)))
    decreases chunks
  {
    if chunks != [] {
      var (d, b) := chunks[0];
      var fs := Frames(Size, l.acc.Of(d) + b);
      var l', rest := FirstChunk(l, chunks);
      Delivery.BatchIsStepwise(l.inners, Sends(d, fs));
      assert l'.inners == Delivery.Steps(l.inners, Sends(d, fs));
      hide *;
      CalmRunIsStepwise(l', chunks[1..]);
      RunFirst(d, fs, rest);
      Delivery.StepsAppend(l.inners, Sends(d, fs), SendsOf(rest));
    } else {
      assert SendsOf(Events(Size, l.acc, chunks)) == [];
    }
  }

  /** So every stream has got exactly the messages that history admits since it was opened. */
  lemma StreamsGetTheirMessages(chunks: seq<Event>, id: StreamId)
    requires var l := Layer(map[], Both([], [])); Calm(l, chunks) && Run(l, chunks).Some?
    requires id in Run(Layer(map[], Both([], [])), chunks).value.inners
    ensures Run(Layer(map[], Both([], [])), chunks).value.inners[id].got
            == Delivery.Admitted(SendsOf(Events(Size, Both([], []), chunks)), id)
  {
    hide Calm, Run, Events, Delivery.Steps, Delivery.Admitted;
    CalmRunIsStepwise(Layer(map[], Both([], [])), chunks);
    Delivery.StreamsGetTheirs(SendsOf(Events(Size, Both([], []), chunks)), id);
  }

  /** The beginning of a direction that does not panic. */
  predicate Sound(l: Layer, d: bool) {
    !HasFrame(Size, l.acc.Of(d)) && !ParseHeader(l.acc.Of(d)).Panic?
  }

  /** The bytes of one direction end in a header that panics. */
  predicate EndsInPanic(l: Layer, d: bool, chunks: seq<Event>) {
    ParseHeader(Residual(Size, l.acc.Of(d) + Framing.Stream(d, chunks))).Panic?
  }

  lemma NotYet(l: Layer, d: bool)
    requires Sound(l, d)
    ensures !EndsInPanic(l, d, [])
  {
    assert l.acc.Of(d) + [] == l.acc.Of(d);
  }

  /** A calm run panics if and only if the bytes of one direction, however cut, come to a header
      that panics. */
  lemma {:induction false} CalmRunPanicsIff(l: Layer, chunks: seq<Event>)
    requires Calm(l, chunks) && Sound(l, true) && Sound(l, false)
    ensures Run(l, chunks).None? <==> EndsInPanic(l, true, chunks) || EndsInPanic(l, false, chunks)
    decreases chunks
  {
    if chunks == [] {
      NotYet(l, true);
      NotYet(l, false);
    } else {
      hide ParseHeader, Size, Frames, Residual, Framing.Stream, Delivery.Overtaken, Delivery.Batch;
      var (d, b) := chunks[0];
      var s, rest := l.acc.Of(d) + b, Framing.Stream(d, chunks[1..]);
      Delivery.BatchIsStepwise(l.inners, Sends(d, Frames(Size, s)));
      StreamFirst(d, l.acc.Of(d), chunks);
      StreamFirst(!d, l.acc.Of(!d), chunks);
      if ParseHeader(Residual(Size, s)).Panic? {
        PanicIsFinal(s, rest);
        assert EndsInPanic(l, d, chunks);
      } else {
        SizeStable();
        FramesConserve(Size, s);
        FramesAppend(Size, s, rest);
        var l' := OnChunk(l, d, b).value;
        assert Sound(l', d) && Sound(l', !d);
        CalmRunPanicsIff(l', chunks[1..]);
        assert EndsInPanic(l, d, chunks) == EndsInPanic(l', d, chunks[1..]);
        assert EndsInPanic(l, !d, chunks) == EndsInPanic(l', !d, chunks[1..]);
      }
    }
  }

  // ------------------------------------------------------------------- identity

  /** The flag a sender uses: even if it opened the stream. */
  function FlagOf(kind: Kind, initiator: bool): nat {
    match kind
    case New => 0
    case Msg => if initiator then 2 else 1
    case Close => if initiator then 4 else 3
    case _ => if initiator then 6 else 5
  }

  /** A frame as a peer writes it: stream `number` opened by side `opener`, sent by `sender`. */
  function Wire(kind: Kind, opener: bool, number: nat, sender: bool, body: seq<byte>): seq<byte> {
    Varint.Encode(number * 8 + FlagOf(kind, sender == opener)) + Varint.Encode(|body|) + body
  }

  function IdOf(opener: bool, number: nat): StreamId {
    if opener then Forward(number) else Backward(number)
  }

  /** How any two numbers at the front read: as a header, unless the tag is 7 or the header and the
      announced body together take 2^64 bytes or more. */
  lemma HeaderPanicsIff(v: nat, len: nat, rest: seq<byte>)
    requires v < U64 && len < U64
    ensures var a, b := Varint.Encode(v), Varint.Encode(len);
            ParseHeader(a + b + rest)
            == if v % 8 == 7 || |a| + |b| + len >= U64 then Panic else Header(v % 8, v / 8, len, |a| + |b|)
  {
    hide Varint.Encode, Varint.Decode;
    var a, b := Varint.Encode(v), Varint.Encode(len);
    var s := a + b + rest;
    assert s == a + (b + rest);
    Varint.RoundTrip(v, b + rest);
    assert s[|a|..] == b + rest;
    Varint.RoundTrip(len, rest);
  }

  lemma WireHeader(kind: Kind, opener: bool, number: nat, sender: bool, body: seq<byte>)
    requires number < 0x2000_0000_0000_0000
    requires |Wire(kind, opener, number, sender, body)| < U64
    ensures var flag := FlagOf(kind, sender == opener);
            var offset := |Varint.Encode(number * 8 + flag)| + |Varint.Encode(|body|)|;
            ParseHeader(Wire(kind, opener, number, sender, body)) == Header(flag, number, |body|, offset)
  {
    HeaderPanicsIff(number * 8 + FlagOf(kind, sender == opener), |body|, body);
  }

  /** All frames of one logical stream, whichever side sends them, carry one id, and that id
      tells the opener and the number; kind and body come through, and nothing panics. */
  lemma OneStreamOneId(kind: Kind, opener: bool, number: nat, sender: bool, body: seq<byte>)
    requires number < 0x2000_0000_0000_0000
    requires !kind.Other? && (kind.New? ==> sender == opener)
    requires |Wire(kind, opener, number, sender, body)| < U64
    ensures var f := Wire(kind, opener, number, sender, body);
            && Size(f) == Some(|f|)
            && Meaning(sender, f) == Frame(kind, IdOf(opener, number), sender)
            && Body(f) == body
  {
    hide Varint.Encode, Varint.Decode, ParseHeader;
    WireHeader(kind, opener, number, sender, body);
    var a := Varint.Encode(number * 8 + FlagOf(kind, sender == opener));
    var b := Varint.Encode(|body|);
    assert (a + b + body)[|a| + |b|..] == body;
  }

  /** What is reported of a frame as a peer writes it, after any history of frames: its stream and
      body, that a stream is opened again exactly if it is still there, that a message is on a bad
      stream exactly if history forbids its sender, and what is wrong with a close. */
  lemma ReportIsHistory(
    h: seq<Frame>, inners: Inners, kind: Kind, opener: bool, number: nat, sender: bool, body: seq<byte>)
    requires Delivery.SameStatus(inners, After(map[], h))
    requires number < 0x2000_0000_0000_0000
    requires !kind.Other? && (kind.New? ==> sender == opener)
    requires |Wire(kind, opener, number, sender, body)| < U64
    ensures var r, id := Report(sender, inners, Wire(kind, opener, number, sender, body)), IdOf(opener, number);
            var due := Due(h, id);
            && r.stream == id
            && match kind
               case New => r.variant.NewStream? && r.variant.name == body && (r.variant.alreadyExist <==> due.Some?)
               case Msg => r.variant == Message(body, !Delivery.Allows(due, sender))
               case Close =>
                 r.variant.CloseStream? &&
                 r.variant.error == if Delivery.Allows(due, sender) then None
                                    else if due.None? then Some(DoesntExist(sender))
                                    else Some(if sender then OnlyOutgoing else OnlyIncoming)
               case _ => r.variant.ResetStream?
  {
    hide Wire, ParseHeader, Body, Meaning, Due, IdOf;
    OneStreamOneId(kind, opener, number, sender, body);
    var id := IdOf(opener, number);
    StatusIsHistory(h, id);
    Delivery.SameKeys(inners, After(map[], h), id);
  }

  /** The reports of a chunk are those of its frames, each after the ones before it. */
  lemma ReportAt(incoming: bool, inners: Inners, fs: seq<seq<byte>>, i: nat)
    requires i < |fs|
    ensures |Reports(incoming, inners, fs)| == |fs|
    ensures Reports(incoming, inners, fs)[i]
            == Report(incoming, After(inners, Meanings(incoming, fs[..i])), fs[i])
  {
    hide Report, Meaning, Apply, After, Reports;
    ReportsCount(incoming, inners, fs);
    ReportsCount(incoming, inners, fs[..i]);
    assert fs == fs[..i] + fs[i..];
    ReportsAppend(incoming, inners, fs[..i], fs[i..]);
    ReportsFirst(incoming, After(inners, Meanings(incoming, fs[..i])), fs[i..]);
  }

  // -------------------------------------------------------------------- reading

  datatype Detail = WrongSize | UnexpectedHeader | Action(header: nat, stream: nat)

  /** How a stored control record is shown; headers 1, 2 and 7 panic. */
  function ShowControl(record: seq<byte>): Detail {
    if |record| != 8 then WrongSize else
    var v := FromBe(record);
    if v % 8 in {1, 2, 7} then UnexpectedHeader else Action(v % 8, v / 8)
  }

  function RecordedHeader(v: Variant): Option<nat> {
    match v
    case NewStream(h, _, _) => Some(h)
    case Message(_, _) => None
    case CloseStream(h, _) => Some(h)
    case ResetStream(h) => Some(h)
  }

  /** Every control record that is written shows the number of its stream and its kind, never
      the panic, and its stream id survives storage. */
  lemma ControlRecordsReadable(incoming: bool, inners: Inners, frame: seq<byte>)
    requires ParseHeader(frame).Header?
    ensures var r := Report(incoming, inners, frame);
            && Absorb(Streams.Emit(r.stream)) == r.stream && !r.stream.Handshake?
            && (RecordedHeader(r.variant).Some? <==> !Meaning(incoming, frame).kind.Msg?)
            && (RecordedHeader(r.variant).Some? ==>
                  var h := RecordedHeader(r.variant).value;
                  var kind := Meaning(incoming, frame).kind;
                  ShowControl(ToBe(h, 8)) == Action(FlagOf(kind, r.stream.Forward?), r.stream.n))
  {
    hide Absorb, Streams.Emit, ToBe, FromBe, Bad, Closing;
    var m := Meaning(incoming, frame);
    StorageRoundTrip(m.stream);
    if !m.kind.Msg? {
      ShowsControl(FlagOf(m.kind, m.stream.Forward?), m.stream.n);
    }
  }

  /** The role it shows is that of the side that opened the stream, seen from the incoming
      direction, and not that of the sender: the flag shown is the one on the wire if and only if
      the frame opens the stream or is incoming. */
  lemma ShownFlagIff(incoming: bool, inners: Inners, frame: seq<byte>)
    requires ParseHeader(frame).Header? && RecordedHeader(Report(incoming, inners, frame).variant).Some?
    ensures var shown := ShowControl(ToBe(RecordedHeader(Report(incoming, inners, frame).variant).value, 8));
            && shown.Action?
            && (shown.header == ParseHeader(frame).flag <==> incoming || Meaning(incoming, frame).kind.New?)
  {
    hide Absorb, Streams.Emit, ToBe, FromBe, ParseHeader, ShowControl, Bad, Closing;
    ControlRecordsReadable(incoming, inners, frame);
    var m, h := Meaning(incoming, frame), ParseHeader(frame);
    assert h.flag < 7;
    assert m.kind == KindOf(h.flag) && m.stream == StreamOf(incoming, h.flag, h.number);
  }

  lemma ShowsControl(flag: nat, n: nat)
    requires flag in {0, 3, 4, 5, 6} && n < 0x2000_0000_0000_0000
    ensures ShowControl(ToBe(flag + n * 8, 8)) == Action(flag, n)
  {
    hide ToBe, FromBe, Pow256;
    Pow256Values();
    BeRoundTrip(flag + n * 8, 8);
  }
}
