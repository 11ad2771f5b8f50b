/** The record format between the kernel probes and the recorder: how an event is put into
    the ring buffer and how it is read back. */
module Wire {
  import opened Bytes

  datatype Tag =
    | Debug | Close | Connect | Bind | Listen | Accept | Write | Read | Alias | Random | GetSockOpt | SnarkWorker

  datatype Event = Event(fd: nat, pid: nat, tid: nat, ts0: nat, ts1: nat, tag: Tag, size: int)

  const HEADER: nat := 40
  const I32: int := 0x8000_0000

  function TagCode(t: Tag): nat {
    match t
    case Debug => 0 case Close => 1 case Connect => 2 case Bind => 3 case Listen => 4 case Accept => 5
    case Write => 6 case Read => 7 case Alias => 8 case Random => 9 case GetSockOpt => 10 case SnarkWorker => 11
  }

  function TagOf(c: nat): Option<Tag> {
    if c == 0 then Some(Debug) else if c == 1 then Some(Close) else if c == 2 then Some(Connect) else
    if c == 3 then Some(Bind) else if c == 4 then Some(Listen) else if c == 5 then Some(Accept) else
    if c == 6 then Some(Write) else if c == 7 then Some(Read) else if c == 8 then Some(Alias) else
    if c == 9 then Some(Random) else if c == 10 then Some(GetSockOpt) else if c == 11 then Some(SnarkWorker) else None
  }

  predicate Valid(e: Event) {
    && e.fd < U32 && e.pid < U32 && e.tid < U32 && e.ts0 < Pow256(8) && e.ts1 < Pow256(8)
    && -I32 <= e.size < I32
  }

  function Unsigned(x: int): int { if x < 0 then x + U32 else x }

  function Signed(x: nat): int { if x < I32 then x else x - U32 }

  /** The C layout of an event on a little-endian machine, with four bytes of padding. */
  function Encode(e: Event, pad: seq<byte>): (s: seq<byte>)
    requires Valid(e) && |pad| == 4
    ensures |s| == HEADER
  {
    ToLe(e.fd, 4) + ToLe(e.pid, 4) + ToLe(e.tid, 4) + pad + ToLe(e.ts0, 8) + ToLe(e.ts1, 8)
    + ToLe(TagCode(e.tag), 4) + ToLe(Unsigned(e.size), 4)
  }

  function Decode(s: seq<byte>): Option<Event>
    requires |s| >= HEADER
  {
    var tag :- TagOf(FromLe(s[32..36]));
    Some(Event(FromLe(s[0..4]), FromLe(s[4..8]), FromLe(s[8..12]), FromLe(s[16..24]), FromLe(s[24..32]),
               tag, Signed(FromLe(s[36..40]))))
  }

  lemma EventRoundTrip(e: Event, pad: seq<byte>, rest: seq<byte>)
    requires Valid(e) && |pad| == 4
    ensures Decode(Encode(e, pad) + rest) == Some(e)
  {
    hide ToLe, FromLe, Pow256;
    Pow256Values();
    var s := Encode(e, pad) + rest;
    LeRoundTrip(e.fd, 4);
    LeRoundTrip(e.pid, 4);
    LeRoundTrip(e.tid, 4);
    LeRoundTrip(e.ts0, 8);
    LeRoundTrip(e.ts1, 8);
    LeRoundTrip(TagCode(e.tag), 4);
    LeRoundTrip(Unsigned(e.size), 4);
    assert s[0..4] == ToLe(e.fd, 4) && s[4..8] == ToLe(e.pid, 4) && s[8..12] == ToLe(e.tid, 4);
    assert s[16..24] == ToLe(e.ts0, 8) && s[24..32] == ToLe(e.ts1, 8);
    assert s[32..36] == ToLe(TagCode(e.tag), 4) && s[36..40] == ToLe(Unsigned(e.size), 4);
  }

  // -------------------------------------------------------------------- sending

  /** What the kernel helpers do in one call: whether the two reservations succeed, what the
      copy returns, and what the data area then holds. */
  datatype Kernel = Kernel(big: bool, small: bool, result: int, area: seq<byte>, pad: seq<byte>)

  /** Bytes copied for an event of `size` in a class of `cap` bytes. */
  function ToCopy(size: int, cap: nat): nat
    requires 0 < size && cap > 0
  {
    And(size - 1, cap - 1) + 1
  }

  /** The record written for an event in a class of `cap` bytes, if any. */
  function Sized(e: Event, cap: nat, k: Kernel): Option<seq<byte>>
    requires Valid(e) && |k.area| == cap && |k.pad| == 4 && -I32 <= k.result < I32
  {
    if 0 < e.size <= cap then
      if k.big then Some(Encode(if k.result > 0 then e.(size := k.result) else e, k.pad) + k.area)
      else if k.small then Some(Encode(e.(size := -90), k.pad)) else None
    else if k.small then Some(Encode(e, k.pad)) else None
  }

  /** The power-of-two classes tried in turn, from 2^k. */
  function Class(size: int, k: nat): (c: Option<nat>)
    requires k <= 27
    ensures c.Some? ==> c.value >= 1
    decreases 27 - k
  {
    if size <= Pow2(k) then Some(Pow2(k)) else if k == 27 then None else Class(size, k + 1)
  }

  /** Capacity chosen for an event; nothing is sent above 2^27. */
  function Capacity(size: int): Option<nat> {
    if size <= 0 then Some(0) else Class(size, 8)
  }

  lemma {:induction false} ClassFits(size: int, k: nat)
    requires 0 < size && k <= 27
    ensures Class(size, k).Some? <==> size <= Pow2(27)
    ensures Class(size, k).Some? ==>
              && size <= Class(size, k).value
              && And(size - 1, Class(size, k).value - 1) == size - 1
    decreases 27 - k
  {
    hide And, Pow2;
    if size <= Pow2(k) {
      AndMask(size - 1, k);
      ModuloUnique(size - 1, Pow2(k), 0, size - 1);
      PowOrder(k, 27);
    } else if k < 27 {
      ClassFits(size, k + 1);
    }
  }

  lemma {:induction false} PowOrder(i: nat, j: nat)
    requires i <= j
    ensures Pow2(i) <= Pow2(j)
    decreases j
  {
    if i < j {
      PowOrder(i, j - 1);
    }
  }

  /** For every size that is sent, the masked copy length is the size itself. */
  lemma CopiesExactly(size: int)
    requires size > 0
    ensures Capacity(size).Some? <==> size <= Pow2(27)
    ensures Capacity(size).Some? ==> size <= Capacity(size).value && ToCopy(size, Capacity(size).value) == size
  {
    hide And, Pow2, Class;
    ClassFits(size, 8);
  }

  /** The class is the least power of two from 2^8 on that holds the event, and none is needed for
      an event without a body. */
  lemma {:induction false} ClassIsLeast(size: int, k: nat) returns (j: nat)
    requires k <= 27 && Class(size, k).Some?
    ensures k <= j <= 27 && Class(size, k) == Some(Pow2(j)) && size <= Pow2(j) && (j > k ==> size > Pow2(j - 1))
    decreases 27 - k
  {
    hide Pow2;
    if size <= Pow2(k) {
      j := k;
    } else {
      j := ClassIsLeast(size, k + 1);
    }
  }

  /** An event is sent if its class fits, or else if a bare header does; the record is as long as
      the class says, or bare. Without a body only a bare header is tried. */
  lemma SentIff(e: Event, k: Kernel)
    requires Valid(e) && Capacity(e.size).Some? && |k.area| == Capacity(e.size).value && |k.pad| == 4
    requires -I32 <= k.result < I32
    ensures var record := Sized(e, Capacity(e.size).value, k);
            && (record.Some? <==> (e.size > 0 && k.big) || k.small)
            && (record.Some? ==> |record.value| == HEADER + if e.size > 0 && k.big then |k.area| else 0)
  {
    hide Class, Pow2;
    if e.size > 0 {
      CopiesExactly(e.size);
    }
  }

  /** Every event up to 2^27 bytes has a class. */
  lemma HasClass(size: int)
    ensures Capacity(size).Some? <==> size <= Pow2(27)
    ensures size <= 0 ==> Capacity(size) == Some(0)
    ensures Capacity(size).Some? && size > 0 ==>
              exists j: nat :: 8 <= j <= 27 && Capacity(size) == Some(Pow2(j)) && (j > 8 ==> size > Pow2(j - 1))
  {
    hide Class;
    PowOrder(0, 27);
    if size > 0 {
      CopiesExactly(size);
      if Capacity(size).Some? {
        var j := ClassIsLeast(size, 8);
      }
    }
  }

  // -------------------------------------------------------------------- reading

  datatype Address = V4(ip: seq<byte>, port: nat) | V6(ip: seq<byte>, port: nat)

  datatype Variant =
    | NewApp(name: seq<byte>)
    | NewSnarkWorkerApp
    | BindTo(addr: Address)
    | IncomingConnection(addr: Address)
    | OutgoingConnection(addr: Address)
    | Disconnected
    | IncomingData(bytes: seq<byte>)
    | OutgoingData(bytes: seq<byte>)
    | RandomBytes(bytes: seq<byte>)
    | SockOpt(bytes: seq<byte>)
    | Error(tag: Tag, code: int)

  datatype Parsed = Nothing | CannotRecover | Panic | Got(event: Event, variant: Variant)

  /** A socket address: family in host order, port in network order, then the address. */
  function ParseAddress(data: seq<byte>): Option<Option<Address>> {
    if |data| < 4 then None else
    var family := FromLe(data[0..2]);
    var port := FromBe(data[2..4]);
    if family == 2 then
      if |data| < 8 then None else Some(Some(V4(data[4..8], port)))
    else if family == 10 then
      if |data| < 24 then None else Some(Some(V6(data[8..24], port)))
    else Some(None)
  }

  function Interpret(e: Event, body: seq<byte>): Parsed {
    if e.size < 0 then Got(e, Error(e.tag, e.size)) else
    if |body| < e.size then CannotRecover else
    var data := body[..e.size];
    match e.tag
    case Accept =>
      (match ParseAddress(data)
       case None => Panic case Some(None) => Nothing case Some(Some(a)) => Got(e, IncomingConnection(a)))
    case Connect =>
      (match ParseAddress(data)
       case None => Panic case Some(None) => Nothing case Some(Some(a)) => Got(e, OutgoingConnection(a)))
    case Bind =>
      (match ParseAddress(data)
       case None => Panic case Some(None) => Nothing case Some(Some(a)) => Got(e, BindTo(a)))
    case Read => Got(e, IncomingData(data))
    case Write => Got(e, OutgoingData(data))
    case Close => Got(e, Disconnected)
    case Alias => if data == [] then Panic else Got(e, NewApp(data[..|data| - 1]))
    case Random => Got(e, RandomBytes(data))
    case GetSockOpt => Got(e, SockOpt(data))
    case SnarkWorker => Got(e, NewSnarkWorkerApp)
    case _ => Nothing
  }

  function Parse(slice: seq<byte>): Parsed {
    if |slice| < HEADER then Nothing else
    match Decode(slice)
    case None => Nothing
    case Some(e) => Interpret(e, slice[HEADER..])
  }

  lemma ParseRecord(e: Event, pad: seq<byte>, area: seq<byte>)
    requires Valid(e) && |pad| == 4
    ensures Parse(Encode(e, pad) + area) == Interpret(e, area)
  {
    hide Encode, Decode, Interpret;
    EventRoundTrip(e, pad, area);
    assert (Encode(e, pad) + area)[HEADER..] == area;
  }

  /** The event as it is recorded: -90 when there was no room, and a positive result of the
      copy helper replaces the size. */
  function Recorded(e: Event, k: Kernel): Event {
    if e.size <= 0 then e
    else if !k.big then e.(size := -90)
    else if k.result > 0 then e.(size := k.result) else e
  }

  function Body(e: Event, k: Kernel): seq<byte> {
    if e.size > 0 && k.big then k.area else []
  }

  lemma RecordIsInterpreted(e: Event, k: Kernel, record: seq<byte>)
    requires Valid(e) && Capacity(e.size).Some? && |k.area| == Capacity(e.size).value && |k.pad| == 4
    requires -I32 <= k.result < I32
    requires Sized(e, Capacity(e.size).value, k) == Some(record)
    ensures Parse(record) == Interpret(Recorded(e, k), Body(e, k))
    ensures Recorded(e, k).size > |Body(e, k)| <==> e.size > 0 && k.big && k.result > |k.area|
  {
    hide Encode, Decode, Class, Parse, Interpret, ToCopy, Pow2;
    if e.size > 0 {
      CopiesExactly(e.size);
    }
    ParseRecord(Recorded(e, k), k.pad, Body(e, k));
    assert Body(e, k) == [] ==> record + Body(e, k) == record;
  }

  predicate CarriesAddress(t: Tag) { t.Accept? || t.Connect? || t.Bind? }

  /** A socket address of `size` bytes that reading runs past: it lacks family or port, or the
      address that its family calls for. */
  predicate CutOff(size: int, body: seq<byte>) {
    size < 4 || |body| < 2 || (FromLe(body[0..2]) == 2 && size < 8) || (FromLe(body[0..2]) == 10 && size < 24)
  }

  /** A socket address of a family other than 2 and 10. */
  predicate Foreign(body: seq<byte>) {
    |body| >= 2 && FromLe(body[0..2]) != 2 && FromLe(body[0..2]) != 10
  }

  /** The records on which the reader panics. */
  predicate Panics(e: Event, body: seq<byte>) {
    && 0 <= e.size <= |body|
    && ((CarriesAddress(e.tag) && CutOff(e.size, body)) || (e.tag.Alias? && e.size == 0))
  }

  /** The records the reader drops. */
  predicate Drops(e: Event, body: seq<byte>) {
    && 0 <= e.size <= |body|
    && ((CarriesAddress(e.tag) && !CutOff(e.size, body) && Foreign(body)) || e.tag.Debug? || e.tag.Listen?)
  }

  lemma InterpretCases(e: Event, body: seq<byte>)
    ensures var p := Interpret(e, body);
            && (p.CannotRecover? <==> e.size > |body|)
            && (p.Panic? <==> Panics(e, body))
            && (p.Nothing? <==> Drops(e, body))
            && (p.Got? ==> p.event == e && (p.variant == Error(e.tag, e.size) <==> e.size < 0))
            && (0 <= e.size <= |body| && e.tag.Close? ==> p == Got(e, Disconnected))
            && (0 <= e.size <= |body| && e.tag.SnarkWorker? ==> p == Got(e, NewSnarkWorkerApp))
  {
    hide FromLe, FromBe;
    if 0 <= e.size <= |body| && CarriesAddress(e.tag) && e.size >= 4 {
      assert body[..e.size][0..2] == body[0..2];
    }
  }

  /** Every record that is sent reads back as its own event, with four exceptions, each exactly
      characterised. The reader panics on an address that is cut off and on an empty alias. It
      drops addresses of other families, debug and listen records. It reports the error for a
      negative size, also the code -90 for a record that did not fit. It gives up on a record
      that is too short, which needs a copy helper that reports more bytes than the area holds. */
  lemma RecordRoundTrip(e: Event, k: Kernel, record: seq<byte>)
    requires Valid(e) && Capacity(e.size).Some? && |k.area| == Capacity(e.size).value && |k.pad| == 4
    requires -I32 <= k.result < I32
    requires Sized(e, Capacity(e.size).value, k) == Some(record)
    ensures var p, r, body := Parse(record), Recorded(e, k), Body(e, k);
            && (p.CannotRecover? <==> e.size > 0 && k.big && k.result > |k.area|)
            && (p.Panic? <==> Panics(r, body))
            && (p.Nothing? <==> Drops(r, body))
            && (p.Got? ==> p.event == r && (p.variant == Error(e.tag, r.size) <==> r.size < 0))
            && (0 <= r.size <= |body| && r.tag.Close? ==> p == Got(r, Disconnected))
            && (0 <= r.size <= |body| && r.tag.SnarkWorker? ==> p == Got(r, NewSnarkWorkerApp))
  {
    hide Encode, Decode, Class, Parse, Interpret, Sized, Panics, Drops;
    RecordIsInterpreted(e, k, record);
    InterpretCases(Recorded(e, k), Body(e, k));
  }

  /** Binding a Unix socket without a name passes a two-byte address: the reader panics. */
  lemma ShortBindPanics(e: Event, k: Kernel, record: seq<byte>)
    requires Valid(e) && e.tag.Bind? && e.size == 2 && k.big && k.result == 0
    requires Capacity(2).Some? && |k.area| == Capacity(2).value && |k.pad| == 4
    requires Sized(e, Capacity(2).value, k) == Some(record)
    ensures Parse(record) == Panic
  {
    hide Encode, Decode, Class, Parse, Sized;
    CopiesExactly(2);
    RecordRoundTrip(e, k, record);
  }

  /** A socket address as the kernel lays it out, followed by anything. */
  function Layout(a: Address, rest: seq<byte>): seq<byte> {
    match a
    case V4(ip, port) => ToLe(2, 2) + ToBe(port, 2) + ip + rest
    case V6(ip, port) => ToLe(10, 2) + ToBe(port, 2) + [0, 0, 0, 0] + ip + rest
  }

  predicate ValidAddress(a: Address) {
    a.port < 0x1_0000 && |a.ip| == if a.V4? then 4 else 16
  }

  lemma AddressRoundTrip(a: Address, rest: seq<byte>)
    requires ValidAddress(a)
    ensures ParseAddress(Layout(a, rest)) == Some(Some(a))
  {
    hide ToLe, FromLe, ToBe, FromBe;
    var s := Layout(a, rest);
    Pow256Values();
    LeRoundTrip(if a.V4? then 2 else 10, 2);
    BeRoundTrip(a.port, 2);
    assert s[0..2] == ToLe(if a.V4? then 2 else 10, 2) && s[2..4] == ToBe(a.port, 2);
    if a.V4? { assert s[4..8] == a.ip; } else { assert s[8..24] == a.ip; }
  }

  /** The copy helper succeeded: the first `n` bytes of the area are those of the source. */
  predicate Copied(k: Kernel, source: seq<byte>, n: nat) {
    k.result == 0 && n <= |k.area| && n <= |source| && k.area[..n] == source[..n]
  }

  /** A successful copy arrives as exactly the source bytes: a buffer that was read or written
      with its direction, a socket address as the address it lays out. */
  lemma DataArrives(e: Event, k: Kernel, source: seq<byte>, record: seq<byte>)
    requires Valid(e) && e.size > 0 && Capacity(e.size).Some?
    requires k.big && |k.area| == Capacity(e.size).value && |k.pad| == 4
    requires Copied(k, source, ToCopy(e.size, Capacity(e.size).value))
    requires Sized(e, Capacity(e.size).value, k) == Some(record)
    ensures e.size <= |source|
    ensures e.tag.Read? ==> Parse(record) == Got(e, IncomingData(source[..e.size]))
    ensures e.tag.Write? ==> Parse(record) == Got(e, OutgoingData(source[..e.size]))
    ensures e.tag.Random? ==> Parse(record) == Got(e, RandomBytes(source[..e.size]))
    ensures e.tag.GetSockOpt? ==> Parse(record) == Got(e, SockOpt(source[..e.size]))
    ensures e.tag.Alias? ==> Parse(record) == Got(e, NewApp(source[..e.size - 1]))
    ensures forall a, rest :: ValidAddress(a) && source[..e.size] == Layout(a, rest) ==>
              && (e.tag.Accept? ==> Parse(record) == Got(e, IncomingConnection(a)))
              && (e.tag.Connect? ==> Parse(record) == Got(e, OutgoingConnection(a)))
              && (e.tag.Bind? ==> Parse(record) == Got(e, BindTo(a)))
  {
    hide Encode, Decode, Class, ToCopy, Sized, Parse, ParseAddress, Layout, ValidAddress, Pow2;
    CopiesExactly(e.size);
    RecordIsInterpreted(e, k, record);
    assert source[..e.size][..e.size - 1] == source[..e.size - 1];
    forall a, rest | ValidAddress(a) && source[..e.size] == Layout(a, rest)
      ensures ParseAddress(source[..e.size]) == Some(Some(a))
    {
      AddressRoundTrip(a, rest);
    }
  }
}
