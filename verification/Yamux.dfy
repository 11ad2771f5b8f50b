/** The yamux layer: 12-byte headers, frames, stream status and recent resets. */
module Yamux {
  import opened Bytes
  import opened Framing
  import opened Streams

  // --------------------------------------------------------------------- headers

  datatype Code = Normal | ProtocolError | InternalError

  datatype HeaderType = Data(length: nat) | WindowUpdate(delta: int) | Ping(value: nat) | GoAway(code: Code)

  datatype Header = Header(version: nat, ty: HeaderType, flags: nat, streamId: nat)

  datatype HeaderError =
    | NotSupportedVersion(v: nat)
    | UnknownType(t: nat)
    | UnknownFlags(f: nat)
    | UnknownErrorCode(c: nat)

  datatype Parsed = Ok(header: Header) | Err(error: HeaderError)

  function AsI32(x: nat): int { if x < 0x8000_0000 then x else x - U32 }

  function FromI32(x: int): int { if x < 0 then x + U32 else x }

  function ParseHeader(v: seq<byte>): Parsed
    requires |v| == 12
  {
    if v[0] != 0 then Err(NotSupportedVersion(v[0])) else
    var last := FromBe(v[8..]);
    var ty := v[1];
    if ty > 3 then Err(UnknownType(ty)) else
    if ty == 3 && last > 2 then Err(UnknownErrorCode(last)) else
    var bits := FromBe(v[2..4]);
    if bits > 15 then Err(UnknownFlags(bits)) else
    var t := if ty == 0 then Data(last) else if ty == 1 then WindowUpdate(AsI32(last)) else if ty == 2 then Ping(last)
             else GoAway(if last == 0 then Normal else if last == 1 then ProtocolError else InternalError);
    Ok(Header(v[0], t, bits, FromBe(v[4..8])))
  }

  function TypeCode(ty: HeaderType): byte {
    match ty case Data(_) => 0 case WindowUpdate(_) => 1 case Ping(_) => 2 case GoAway(_) => 3
  }

  function LastField(ty: HeaderType): int {
    match ty
    case Data(length) => length
    case WindowUpdate(delta) => FromI32(delta)
    case Ping(v) => v
    case GoAway(c) => match c case Normal => 0 case ProtocolError => 1 case InternalError => 2
  }

  predicate ValidHeader(h: Header) {
    && h.version == 0 && h.flags < 16 && h.streamId < U32 && 0 <= LastField(h.ty) < U32
    && (h.ty.WindowUpdate? ==> -0x8000_0000 <= h.ty.delta < 0x8000_0000)
  }

  function EmitHeader(h: Header): (v: seq<byte>)
    requires ValidHeader(h)
    ensures |v| == 12
  {
    [0, TypeCode(h.ty)] + ToBe(h.flags, 2) + ToBe(h.streamId, 4) + ToBe(LastField(h.ty), 4)
  }

  /** A written header reads back. */
  lemma HeaderRoundTrip(h: Header)
    requires ValidHeader(h)
    ensures ParseHeader(EmitHeader(h)) == Ok(h)
  {
    hide ToBe, FromBe, Pow256;
    Pow256Values();
    BeRoundTrip(h.flags, 2);
    BeRoundTrip(h.streamId, 4);
    BeRoundTrip(LastField(h.ty), 4);
    var v := EmitHeader(h);
    assert v[2..4] == ToBe(h.flags, 2) && v[4..8] == ToBe(h.streamId, 4) && v[8..] == ToBe(LastField(h.ty), 4);
  }

  lemma FromBeBound(s: seq<byte>)
    ensures FromBe(s) < Pow256(|s|)
  {
    FromLeBound(Reverse(s));
  }

  /** A header that parses is valid, and writing it gives the same twelve bytes. */
  lemma HeaderBytesRoundTrip(v: seq<byte>)
    requires |v| == 12 && ParseHeader(v).Ok?
    ensures ValidHeader(ParseHeader(v).header) && EmitHeader(ParseHeader(v).header) == v
  {
    hide ToBe, FromBe, Pow256;
    Pow256Values();
    var h := ParseHeader(v).header;
    FromBeBound(v[2..4]);
    FromBeBound(v[4..8]);
    FromBeBound(v[8..]);
    BeUnique(v[2..4]);
    BeUnique(v[4..8]);
    BeUnique(v[8..]);
    assert LastField(h.ty) == FromBe(v[8..]);
    assert v == [v[0], v[1]] + v[2..4] + v[4..8] + v[8..];
  }

  // --------------------------------------------------------------------- framing

  function PayloadLength(h: Header): (n: int)
  {
    if h.ty.Data? then h.ty.length else 0
  }

  function Size(s: seq<byte>): Option<pos> {
    if |s| < 12 then None else
    match ParseHeader(s[..12])
    case Err(_) => None
    case Ok(h) => Some(12 + PayloadLength(h))
  }

  /** The stream goes on with twelve bytes that are no header. */
  predicate Malformed(s: seq<byte>) {
    |s| >= 12 && ParseHeader(s[..12]).Err?
  }

  lemma SizeStable()
    ensures PrefixStable(Size) && !HasFrame(Size, [])
  {
    forall s: seq<byte>, t: seq<byte> | Size(s).Some?
      ensures Size(s + t) == Size(s)
    {
      assert (s + t)[..12] == s[..12];
    }
  }

  /** Every frame takes at least twelve bytes. */
  lemma {:induction false} FramesAreLong(s: seq<byte>)
    ensures 12 * |Frames(Size, s)| + |Residual(Size, s)| <= |s|
    decreases |s|
  {
    if HasFrame(Size, s) {
      FramesAreLong(s[Size(s).value..]);
    }
  }

  // ---------------------------------------------------------------------- streams

  function StreamOf(streamId: nat): StreamId {
    if streamId == 0 then Handshake else if streamId % 2 == 0 then Forward(streamId / 2) else Backward(streamId / 2)
  }

  /** The number of a stream on the wire: even ones are counted forward, odd ones backward, and 0
      is the session itself. */
  function NumberOf(id: StreamId): nat {
    match id
    case Handshake => 0
    case Forward(n) => 2 * n
    case Backward(n) => 2 * n + 1
  }

  /** Ids and numbers correspond one to one, and every id survives storage. */
  lemma StreamIdsDistinct(a: nat, id: StreamId)
    requires a < U32 && id != Forward(0)
    ensures NumberOf(StreamOf(a)) == a && StreamOf(NumberOf(id)) == id
    ensures Absorb(Emit(StreamOf(a))) == StreamOf(a)
  {
    StorageRoundTrip(StreamOf(a));
  }

  /** SYN is looked at before FIN, and FIN before RST. */
  function KindOf(flags: nat): Kind {
    if flags % 2 == 1 then New else if flags / 4 % 2 == 1 then Close else if flags / 8 % 2 == 1 then Reset else Other
  }

  function Meaning(incoming: bool, frame: seq<byte>): Frame {
    if |frame| >= 12 && ParseHeader(frame[..12]).Ok? then
      var h := ParseHeader(frame[..12]).header;
      Frame(KindOf(h.flags), StreamOf(h.streamId), incoming)
    else Frame(Other, Handshake, incoming)
  }

  /** The flag field as a peer writes it. */
  function FlagBits(syn: bool, ack: bool, fin: bool, rst: bool): nat {
    (if syn then 1 else 0) + (if ack then 2 else 0) + (if fin then 4 else 0) + (if rst then 8 else 0)
  }

  /** A frame as a peer means it. */
  datatype Written = Written(
    ty: HeaderType, syn: bool, ack: bool, fin: bool, rst: bool, stream: StreamId, body: seq<byte>)

  function HeaderFor(w: Written): Header {
    Header(0, w.ty, FlagBits(w.syn, w.ack, w.fin, w.rst), NumberOf(w.stream))
  }

  predicate Proper(w: Written) {
    w.stream != Forward(0) && ValidHeader(HeaderFor(w)) && |w.body| == if w.ty.Data? then w.ty.length else 0
  }

  function Wire(w: Written): seq<byte>
    requires Proper(w)
  {
    EmitHeader(HeaderFor(w)) + w.body
  }

  function MeaningOf(sender: bool, w: Written): Frame {
    Frame(if w.syn then New else if w.fin then Close else if w.rst then Reset else Other, w.stream, sender)
  }

  /** A frame as a peer writes it is one frame, and its flags open, close or reset its stream in
      that order of precedence; acknowledgement does nothing. */
  lemma WrittenFrame(w: Written, sender: bool)
    requires Proper(w)
    ensures var f := Wire(w);
            Size(f) == Some(|f|) && !Malformed(f) && Meaning(sender, f) == MeaningOf(sender, w)
  {
    hide EmitHeader, ParseHeader;
    HeaderRoundTrip(HeaderFor(w));
    StreamIdsDistinct(0, w.stream);
    assert Wire(w)[..12] == EmitHeader(HeaderFor(w));
  }

  function Meanings(incoming: bool, fs: seq<seq<byte>>): (ms: seq<Frame>)
    ensures |ms| == |fs| && forall i :: 0 <= i < |fs| ==> ms[i] == Meaning(incoming, fs[i])
  {
    seq(|fs|, i requires 0 <= i < |fs| => Meaning(incoming, fs[i]))
  }

  const RECENT: nat := 512

  /** The bounded queue of streams that were reset. */
  function Remember(recent: seq<StreamId>, f: Frame): seq<StreamId> {
    if !f.kind.Reset? then recent else
    (if |recent| == RECENT then recent[1..] else recent) + [f.stream]
  }

  function RecentAfter(recent: seq<StreamId>, fs: seq<Frame>): seq<StreamId> {
    if fs == [] then recent else Remember(RecentAfter(recent, fs[..|fs| - 1]), fs[|fs| - 1])
  }

  /** All streams that were ever reset, in order. */
  function Resets(fs: seq<Frame>): seq<StreamId> {
    if fs == [] then [] else
    Resets(fs[..|fs| - 1]) + if fs[|fs| - 1].kind.Reset? then [fs[|fs| - 1].stream] else []
  }

  /** The queue holds exactly the last 512 resets. */
  lemma {:induction false} RecentIsHistory(h: seq<Frame>)
    ensures var all := Resets(h);
            RecentAfter([], h) == if |all| <= 512 then all else all[|all| - 512..]
    decreases |h|
  {
    if h != [] {
      RecentIsHistory(h[..|h| - 1]);
    }
  }

  lemma {:induction false} RecentAppend(recent: seq<StreamId>, a: seq<Frame>, b: seq<Frame>)
    ensures RecentAfter(recent, a + b) == RecentAfter(RecentAfter(recent, a), b)
    decreases |b|
  {
    if b == [] {
      assert a + b == a;
    } else {
      assert (a + b)[..|a + b| - 1] == a + b[..|b| - 1];
      RecentAppend(recent, a, b[..|b| - 1]);
    }
  }

  // ------------------------------------------------------------ chunk independence

  datatype Handled = Handled(out: seq<seq<byte>>, inners: Inners, recent: seq<StreamId>, rest: seq<byte>)

  function Handle(incoming: bool, inners: Inners, recent: seq<StreamId>, s: seq<byte>): Handled {
    var fs := Frames(Size, s);
    var ms := Meanings(incoming, fs);
    Handled(fs, After(inners, ms), RecentAfter(recent, ms), Residual(Size, s))
  }

  /** Handling `s` and then what is left of it with `t` gives the frames, the status map, the
      reset queue and the residue of handling `s + t` at once. */
  lemma ChunkingIrrelevant(incoming: bool, inners: Inners, recent: seq<StreamId>, s: seq<byte>, t: seq<byte>)
    ensures var first := Handle(incoming, inners, recent, s);
            var second := Handle(incoming, first.inners, first.recent, first.rest + t);
            Handle(incoming, inners, recent, s + t)
            == Handled(first.out + second.out, second.inners, second.recent, second.rest)
  {
    hide Frames, Residual, After, RecentAfter, Size;
    SizeStable();
    FramesAppend(Size, s, t);
    var a, b := Frames(Size, s), Frames(Size, Residual(Size, s) + t);
    assert Meanings(incoming, a + b) == Meanings(incoming, a) + Meanings(incoming, b);
    AfterAppend(inners, Meanings(incoming, a), Meanings(incoming, b));
    RecentAppend(recent, Meanings(incoming, a), Meanings(incoming, b));
  }

  lemma HandleNone(incoming: bool, inners: Inners, recent: seq<StreamId>, s: seq<byte>)
    requires !HasFrame(Size, s)
    ensures Handle(incoming, inners, recent, s) == Handled([], inners, recent, s)
  {
  }

  lemma HandleFirst(incoming: bool, inners: Inners, recent: seq<StreamId>, s: seq<byte>)
    requires HasFrame(Size, s)
    ensures var n := Size(s).value;
            var m := Meaning(incoming, s[..n]);
            var later := Handle(incoming, Apply(inners, m), Remember(recent, m), s[n..]);
            Handle(incoming, inners, recent, s)
            == Handled([s[..n]] + later.out, later.inners, later.recent, later.rest)
  {
    hide ParseHeader, Meaning, Apply, Remember;
    var n := Size(s).value;
    var m := Meaning(incoming, s[..n]);
    var fs := Frames(Size, s[n..]);
    assert Meanings(incoming, [s[..n]] + fs) == [m] + Meanings(incoming, fs);
    AfterAppend(inners, [m], Meanings(incoming, fs));
    RecentAppend(recent, [m], Meanings(incoming, fs));
    assert [m][..0] == [];
    assert After(inners, [m]) == Apply(After(inners, []), m);
    assert RecentAfter(recent, [m]) == Remember(RecentAfter(recent, []), m);
  }

  // ------------------------------------------------------------------ termination

  datatype Poll = Pending | Ready(frame: seq<byte>) | Failure(error: HeaderError)

  /** One call of the accumulator: the result and the buffer afterwards. A malformed header is
      reported without being consumed; with nothing buffered the bytes are dropped. */
  function Turn(acc: seq<byte>, input: seq<byte>): (Poll, seq<byte>) {
    var s := acc + input;
    if Malformed(s) then (Failure(ParseHeader(s[..12]).error), if acc == [] then [] else s)
    else if HasFrame(Size, s) then (Ready(s[..Size(s).value]), s[Size(s).value..])
    else (Pending, s)
  }

  /** Whether the loop ends within `n` turns. */
  predicate Ends(acc: seq<byte>, input: seq<byte>, n: nat)
    decreases n
  {
    n > 0 && (Turn(acc, input).0.Pending? || Ends(Turn(acc, input).1, [], n - 1))
  }

  /** No malformed header behind buffered bytes or behind a frame of the same call. */
  predicate Terminates(acc: seq<byte>, input: seq<byte>) {
    var s := acc + input;
    Malformed(Residual(Size, s)) ==> acc == [] && Frames(Size, s) == []
  }

  lemma {:induction false} StuckNeverEnds(acc: seq<byte>, n: nat)
    requires acc != [] && Malformed(acc)
    ensures !Ends(acc, [], n)
  {
    if n > 0 {
      assert acc + [] == acc;
      StuckNeverEnds(acc, n - 1);
    }
  }

  lemma {:induction false} MalformedNeverEnds(acc: seq<byte>, input: seq<byte>, n: nat)
    requires Malformed(Residual(Size, acc + input)) && (acc != [] || Frames(Size, acc + input) != [])
    ensures !Ends(acc, input, n)
    decreases n
  {
    hide ParseHeader;
    var s := acc + input;
    if n > 0 {
      if HasFrame(Size, s) {
        var r := s[Size(s).value..];
        assert r + [] == r;
        FramesConserve(Size, r);
        assert |Residual(Size, r)| <= |r|;
        MalformedNeverEnds(r, [], n - 1);
      } else {
        assert s + [] == s;
        StuckNeverEnds(s, n - 1);
      }
    }
  }

  lemma {:induction false} WellFormedEnds(acc: seq<byte>, input: seq<byte>)
    requires !Malformed(Residual(Size, acc + input))
    ensures Ends(acc, input, 1 + |Frames(Size, acc + input)|)
    decreases |acc| + |input|
  {
    var s := acc + input;
    if HasFrame(Size, s) {
      var r := s[Size(s).value..];
      assert r + [] == r;
      WellFormedEnds(r, []);
      assert |Frames(Size, s)| == 1 + |Frames(Size, r)|;
    }
  }

  /** With nothing buffered, a malformed header at the very front is reported and dropped. */
  lemma MalformedAloneEnds(input: seq<byte>) returns (n: nat)
    requires Malformed(input)
    ensures Ends([], input, n)
  {
    n := 2;
    assert [] + input == input;
    assert Turn([], input).1 == [];
    assert Turn([], []).0.Pending?;
  }

  /** The loop over the accumulator ends if and only if no malformed header is met with
      something in the buffer. */
  lemma LoopEndsIff(acc: seq<byte>, input: seq<byte>)
    ensures Terminates(acc, input) ==> exists n :: Ends(acc, input, n)
    ensures (exists n :: Ends(acc, input, n)) ==> Terminates(acc, input)
  {
    var s := acc + input;
    if !Malformed(Residual(Size, s)) {
      WellFormedEnds(acc, input);
    } else if Terminates(acc, input) {
      assert s == input && Residual(Size, s) == s;
      var n := MalformedAloneEnds(input);
      assert Ends(acc, input, n);
    } else {
      forall n
        ensures !Ends(acc, input, n)
      {
        MalformedNeverEnds(acc, input, n);
      }
    }
  }

  /** A ping followed in the same chunk by twelve bytes of version 1: the loop never ends. */
  lemma PingThenVersionOne(n: nat)
    ensures !Ends([], [0, 2, 0, 1, 0, 0, 0, 0, 0, 0, 0, 7] + [1, 0, 0, 0, 0, 0, 0, 0, 0, 0, 0, 0], n)
  {
    var ping: seq<byte> := [0, 2, 0, 1, 0, 0, 0, 0, 0, 0, 0, 7];
    var junk: seq<byte> := [1, 0, 0, 0, 0, 0, 0, 0, 0, 0, 0, 0];
    var s := ping + junk;
    assert [] + s == s && s[..12] == ping && s[12..] == junk && junk[..12] == junk;
    assert FromBe(ping[2..4]) == 1 by {
      assert ping[2] == 0 && ping[3] == 1;
      assert ping[2..4] == [ping[2], ping[3]];
      TwoBytes(0, 1);
    }
    assert Size(s) == Some(12);
    assert Malformed(junk) && !HasFrame(Size, junk);
    MalformedNeverEnds([], s, n);
  }

  lemma TwoBytes(a: byte, b: byte)
    ensures FromBe([a, b]) == 256 * a + b
  {
    var r := Reverse([a, b]);
    assert r == [b, a];
    assert r[1..] == [a] && [a][1..] == [];
    assert FromLe([a]) == a;
  }

  // ---------------------------------------------------------------- the machine

  class State {
    var accIncoming: seq<byte>
    var accOutgoing: seq<byte>
    var inners: Inners
    var recentReset: seq<StreamId>

    ghost function Acc(incoming: bool): seq<byte>
      reads this
    {
      if incoming then accIncoming else accOutgoing
    }

    constructor ()
      ensures accIncoming == [] && accOutgoing == [] && inners == map[] && recentReset == []
    {
      accIncoming, accOutgoing, inners, recentReset := [], [], map[], [];
    }

    method SetAcc(incoming: bool, acc: seq<byte>)
      modifies this`accIncoming, this`accOutgoing
      ensures Acc(incoming) == acc && Acc(!incoming) == old(Acc(!incoming))
    {
      if incoming {
        accIncoming := acc;
      } else {
        accOutgoing := acc;
      }
    }

    method Accumulate(incoming: bool, bytes: seq<byte>) returns (p: Poll)
      modifies this`accIncoming, this`accOutgoing
      ensures Acc(!incoming) == old(Acc(!incoming))
      ensures p == Turn(old(Acc(incoming)), bytes).0 && Acc(incoming) == Turn(old(Acc(incoming)), bytes).1
    {
      hide ParseHeader;
      var acc := if incoming then accIncoming else accOutgoing;
      if acc == [] {
        assert acc + bytes == bytes;
        if |bytes| >= 12 {
          var h := ParseHeader(bytes[..12]);
          if h.Err? {
            return Failure(h.error);
          }
          var end: int := 12 + PayloadLength(h.header);
          assert Size(bytes) == Some(end);
          if |bytes| < end {
            SetAcc(incoming, bytes);
          } else if |bytes| == end {
            assert bytes[..end] == bytes && bytes[end..] == [];
            return Ready(bytes);
          } else {
            SetAcc(incoming, bytes[end..]);
            return Ready(bytes[..end]);
          }
        } else {
          SetAcc(incoming, bytes);
        }
      } else {
        acc := acc + bytes;
        SetAcc(incoming, acc);
        if |acc| >= 12 {
          var h := ParseHeader(acc[..12]);
          if h.Err? {
            return Failure(h.error);
          }
          var end: int := 12 + PayloadLength(h.header);
          assert Size(acc) == Some(end);
          if |acc| >= end {
            SetAcc(incoming, acc[end..]);
            return Ready(acc[..end]);
          }
        }
      }
      p := Pending;
    }

    /** All complete frames of the buffered and the new bytes. A malformed header is reported
        once if it is all there is; otherwise the loop would not end, and the caller excludes it. */
    method Process(incoming: bool, bytes: seq<byte>) returns (out: seq<seq<byte>>, error: Option<HeaderError>)
      requires Terminates(Acc(incoming), bytes)
      modifies this
      ensures Acc(!incoming) == old(Acc(!incoming))
      ensures var s := old(Acc(incoming)) + bytes;
              var h := Handle(incoming, old(inners), old(recentReset), s);
              && out == h.out && inners == h.inners && recentReset == h.recent
              && (error.Some? <==> Malformed(h.rest))
              && Acc(incoming) == if error.Some? then [] else h.rest
    {
      hide Size, Handle, Turn, Meaning, Apply, Remember, ParseHeader, Malformed;
      out, error := [], None;
      var input := bytes;
      ghost var all := Handle(incoming, inners, recentReset, Acc(incoming) + bytes);
      OnlyAlone(incoming, inners, recentReset, Acc(incoming), bytes);
      while true
        invariant Acc(!incoming) == old(Acc(!incoming))
        invariant error.None? ==>
                    var h := Handle(incoming, inners, recentReset, Acc(incoming) + input);
                    all.out == out + h.out && all.inners == h.inners && all.recent == h.recent && all.rest == h.rest
        invariant error.None? && Malformed(all.rest) ==> Acc(incoming) == [] && all.rest == input
        invariant error.Some? ==>
                    && Acc(incoming) == [] && input == [] && Malformed(all.rest)
                    && all.out == out && all.inners == inners && all.recent == recentReset
        decreases |Acc(incoming)| + |input|
      {
        ghost var rest := Acc(incoming) + input;
        TurnCases(incoming, inners, recentReset, Acc(incoming), input);
        var p := Accumulate(incoming, input);
        input := [];
        assert Acc(incoming) + input == Acc(incoming);
        match p {
          case Pending =>
            return;
          case Failure(e) =>
            error := Some(e);
          case Ready(frame) =>
            var m := Meaning(incoming, frame);
            ghost var before := out;
            out := out + [frame];
            inners := Apply(inners, m);
            recentReset := Remember(recentReset, m);
            Associate(before, [frame], Handle(incoming, inners, recentReset, Acc(incoming)).out);
        }
      }
    }
  }

  lemma OnlyAlone(incoming: bool, inners: Inners, recent: seq<StreamId>, acc: seq<byte>, input: seq<byte>)
    requires Terminates(acc, input)
    ensures Malformed(Handle(incoming, inners, recent, acc + input).rest) ==>
              acc == [] && Handle(incoming, inners, recent, acc + input).rest == input
  {
  }

  /** What one turn means for everything that is still to be handled. */
  lemma TurnCases(incoming: bool, inners: Inners, recent: seq<StreamId>, acc: seq<byte>, input: seq<byte>)
    ensures var s := acc + input;
            var h := Handle(incoming, inners, recent, s);
            var (p, acc') := Turn(acc, input);
            match p
            case Pending => h == Handled([], inners, recent, s) && !Malformed(s) && acc' == s
            case Failure(_) =>
              && h == Handled([], inners, recent, s) && Malformed(s) && |s| > 0
              && (acc == [] ==> acc' == [])
            case Ready(frame) =>
              var m := Meaning(incoming, frame);
              var later := Handle(incoming, Apply(inners, m), Remember(recent, m), acc');
              && h == Handled([frame] + later.out, later.inners, later.recent, later.rest)
              && |acc'| < |s| && |h.rest| < |s|
  {
    var s := acc + input;
    if HasFrame(Size, s) {
      HandleFirst(incoming, inners, recent, s);
      var later := s[Size(s).value..];
      FramesConserve(Size, later);
      assert |Residual(Size, later)| <= |later|;
    } else {
      HandleNone(incoming, inners, recent, s);
    }
  }
}
