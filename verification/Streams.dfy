/** Logical streams inside a multiplexed connection: their identity, how it is stored, and
    which sides may still send. Shared by mplex and yamux. */
module Streams {
  import opened Bytes

  /** `Forward` streams were opened by the incoming side, `Backward` ones by the outgoing side. */
  datatype StreamId = Handshake | Forward(n: nat) | Backward(n: nat)

  // -------------------------------------------------------------------- storage

  const I64: int := 0x8000_0000_0000_0000

  /** Conversion to a signed 64-bit number wraps around. */
  function AsI64(x: int): (r: int)
    requires -I64 <= x <= U64
    ensures -I64 <= r < I64
  {
    if x < I64 then x else x - U64
  }

  function Emit(id: StreamId): (d: int)
    requires !id.Handshake? ==> id.n < U64
    ensures -I64 <= d < I64
  {
    match id
    case Handshake => -I64
    case Forward(n) => AsI64(n)
    case Backward(n) => AsI64(-AsI64(n + 1))
  }

  function Absorb(d: int): StreamId
    requires -I64 <= d < I64
  {
    if d == -I64 then Handshake else if d >= 0 then Forward(d) else Backward(-d - 1)
  }

  /** A stream id survives storage exactly when its number fits: below 2^63 forwards, one less
      backwards, because the smallest number is taken by the handshake. */
  lemma StorageRoundTrip(id: StreamId)
    requires !id.Handshake? ==> id.n < U64
    ensures Absorb(Emit(id)) == id <==>
            (id.Forward? ==> id.n < 0x8000_0000_0000_0000) && (id.Backward? ==> id.n < 0x7FFF_FFFF_FFFF_FFFF)
  {
  }

  // --------------------------------------------------------------------- status

  datatype Status = Duplex | IncomingOnly | OutgoingOnly

  datatype Kind = New | Msg | Close | Reset | Other

  /** A frame as far as stream status goes: what, on which stream, sent by which side. */
  datatype Frame = Frame(kind: Kind, stream: StreamId, incoming: bool)

  /** A stream as the multiplexer keeps it; `got` is what it has been given since it was opened. */
  datatype Stream = Stream(status: Status, got: seq<seq<byte>>)

  type Inners = map<StreamId, Stream>

  function Apply(inners: Inners, f: Frame): Inners {
    match f.kind
    case New => inners[f.stream := Stream(Duplex, [])]
    case Close =>
      if f.stream in inners && inners[f.stream].status.Duplex?
      then inners[f.stream := inners[f.stream].(status := if f.incoming then OutgoingOnly else IncomingOnly)]
      else inners - {f.stream}
    case Reset => inners - {f.stream}
    case _ => inners
  }

  /** The sender may not use the stream. */
  predicate Bad(inners: Inners, stream: StreamId, incoming: bool) {
    !(stream in inners &&
      match inners[stream].status
      case Duplex => true
      case IncomingOnly => incoming
      case OutgoingOnly => !incoming)
  }

  datatype CloseError = OnlyOutgoing | OnlyIncoming | DoesntExist(incoming: bool)

  function Closing(inners: Inners, stream: StreamId, incoming: bool): Option<CloseError> {
    if stream !in inners then Some(DoesntExist(incoming)) else
    match inners[stream].status
    case Duplex => None
    case IncomingOnly => if incoming then None else Some(OnlyIncoming)
    case OutgoingOnly => if incoming then Some(OnlyOutgoing) else None
  }

  function After(inners: Inners, fs: seq<Frame>): Inners {
    if fs == [] then inners else Apply(After(inners, fs[..|fs| - 1]), fs[|fs| - 1])
  }

  lemma {:induction false} AfterAppend(inners: Inners, a: seq<Frame>, b: seq<Frame>)
    ensures After(inners, a + b) == After(After(inners, a), b)
    decreases |b|
  {
    if b == [] {
      assert a + b == a;
    } else {
      var n := |b| - 1;
      assert (a + b)[..|a + b| - 1] == a + b[..n];
      AfterAppend(inners, a, b[..n]);
    }
  }

  // -------------------------------------------------------------------- history

  /** The frames of a stream since it was last opened, if it ever was. */
  function SinceNew(h: seq<Frame>, stream: StreamId): Option<seq<Frame>> {
    if h == [] then None else
    var f := h[|h| - 1];
    if f.stream != stream then SinceNew(h[..|h| - 1], stream) else
    if f.kind.New? then Some([]) else
    match SinceNew(h[..|h| - 1], stream)
    case None => None
    case Some(fs) => Some(fs + [f])
  }

  /** Who closed, in order. */
  function Closers(fs: seq<Frame>): seq<bool> {
    if fs == [] then [] else
    Closers(fs[..|fs| - 1]) + if fs[|fs| - 1].kind.Close? then [fs[|fs| - 1].incoming] else []
  }

  function WasReset(fs: seq<Frame>): bool {
    fs != [] && (fs[|fs| - 1].kind.Reset? || WasReset(fs[..|fs| - 1]))
  }

  /** What the history of a stream makes of it: open both ways until someone closes, then open
      for the other side only, and gone after a second close or a reset. */
  function Due(h: seq<Frame>, stream: StreamId): Option<Status> {
    match SinceNew(h, stream)
    case None => None
    case Some(fs) =>
      if WasReset(fs) || |Closers(fs)| > 1 then None else
      if Closers(fs) == [] then Some(Duplex) else
      Some(if Closers(fs)[0] then OutgoingOnly else IncomingOnly)
  }

  /** The status map is a function of history. */
  lemma {:induction false} StatusIsHistory(h: seq<Frame>, stream: StreamId)
    ensures (if stream in After(map[], h) then Some(After(map[], h)[stream].status) else None) == Due(h, stream)
    decreases |h|
  {
    if h != [] {
      var f := h[|h| - 1];
      var before := h[..|h| - 1];
      StatusIsHistory(before, stream);
      if f.stream == stream && !f.kind.New? && SinceNew(before, stream).Some? {
        var fs := SinceNew(before, stream).value;
        assert (fs + [f])[..|fs + [f]| - 1] == fs;
        assert Closers(fs + [f]) == Closers(fs) + if f.kind.Close? then [f.incoming] else [];
        assert WasReset(fs + [f]) == (f.kind.Reset? || WasReset(fs));
      }
    }
  }

  /** A message is on a bad stream exactly when the history forbids its sender: the stream was
      never opened, or has since been reset, closed twice, or closed by that very side. */
  lemma BadIsHistory(h: seq<Frame>, stream: StreamId, incoming: bool)
    ensures Bad(After(map[], h), stream, incoming) <==>
            match SinceNew(h, stream)
            case None => true
            case Some(fs) => WasReset(fs) || |Closers(fs)| > 1 || Closers(fs) == [incoming]
    ensures Closing(After(map[], h), stream, incoming) ==
            match Due(h, stream)
            case None => Some(DoesntExist(incoming))
            case Some(Duplex) => None
            case Some(status) =>
              if !Bad(After(map[], h), stream, incoming) then None
              else Some(if incoming then OnlyOutgoing else OnlyIncoming)
  {
    StatusIsHistory(h, stream);
    var s := SinceNew(h, stream);
    if s.Some? && |Closers(s.value)| == 1 {
      assert Closers(s.value) == [Closers(s.value)[0]];
    }
  }
}
