/** The BPF ring buffer: a kernel producer and a user-space consumer over shared memory.

    Positions grow without bound; a byte at position `p` lives at `p % |mem|`, and the
    data area is mapped twice in a row so that a record may run past its end.
 */
module RingBuffer {
  import opened Bytes

  const HEADER := 8
  const BUSY := 0x8000_0000
  const DISCARD := 0x4000_0000

  // ------------------------------------------------------------------- memory

  function Read(mem: seq<byte>, p: nat, len: nat): (r: seq<byte>)
    requires mem != []
    ensures |r| == len
  {
    seq(len, k requires 0 <= k => mem[(p + k) % |mem|])
  }

  function Write(mem: seq<byte>, p: nat, bs: seq<byte>): (r: seq<byte>)
    requires mem != []
    ensures |r| == |mem|
  {
    seq(|mem|, i requires 0 <= i < |mem| => if (i - p) % |mem| < |bs| then bs[(i - p) % |mem|] else mem[i])
  }

  lemma ModSubtract(x: int, p: int, n: int)
    requires n > 0
    ensures (x % n - p) % n == (x - p) % n
  {
    var q := (x - p) / n;
    var m := (x - p) % n;
    assert x - p == n * q + m;
    assert x == n * (x / n) + x % n;
    Distribute(n, q, x / n);
    assert x % n - p == n * (q - x / n) + m;
    ModuloUnique(x % n - p, n, q - x / n, m);
  }

  lemma WrittenAt(mem: seq<byte>, p: nat, bs: seq<byte>, k: nat)
    requires k < |bs| <= |mem|
    ensures Write(mem, p, bs)[(p + k) % |mem|] == bs[k]
  {
    var n := |mem|;
    ModSubtract(p + k, p, n);
    ModuloUnique(k, n, 0, k);
  }

  lemma KeptAt(mem: seq<byte>, p: nat, bs: seq<byte>, x: nat)
    requires mem != []
    requires p + |bs| <= x < p + |mem| || (x < p && p + |bs| <= x + |mem|)
    ensures Write(mem, p, bs)[x % |mem|] == mem[x % |mem|]
  {
    var n := |mem|;
    ModSubtract(x, p, n);
    if x >= p {
      ModuloUnique(x - p, n, 0, x - p);
    } else {
      assert x - p == n * -1 + (x - p + n);
      ModuloUnique(x - p, n, -1, x - p + n);
    }
  }

  lemma ReadWritten(mem: seq<byte>, p: nat, bs: seq<byte>, len: nat)
    requires len <= |bs| <= |mem| && mem != []
    ensures Read(Write(mem, p, bs), p, len) == bs[..len]
  {
    forall k | 0 <= k < len
      ensures Read(Write(mem, p, bs), p, len)[k] == bs[k]
    {
      WrittenAt(mem, p, bs, k);
    }
  }

  /** Two stretches of positions inside one window of the ring do not overlap in memory. */
  lemma ReadKept(mem: seq<byte>, p: nat, bs: seq<byte>, q: nat, len: nat)
    requires mem != []
    requires (q + len <= p && p + |bs| <= q + |mem|) || (p + |bs| <= q && q + len <= p + |mem|)
    ensures Read(Write(mem, p, bs), q, len) == Read(mem, q, len)
  {
    forall k | 0 <= k < len
      ensures Read(Write(mem, p, bs), q, len)[k] == Read(mem, q, len)[k]
    {
      KeptAt(mem, p, bs, q + k);
    }
  }

  // ------------------------------------------------------------------ records

  datatype Status = Busy | Committed | Discarded

  /** A reservation: its length, its state, and what its data bytes hold. */
  datatype Record = Record(len: nat, status: Status, payload: seq<byte>)

  function Align(len: nat): (r: nat)
    ensures len <= r < len + 8 && r % 8 == 0
  {
    (len + 7) / 8 * 8
  }

  function Size(len: nat): (r: nat)
    ensures r % 8 == 0
  {
    HEADER + Align(len)
  }

  /** Header word of a record: the length and the two flag bits. */
  function Word(r: Record): nat {
    r.len + match r.status case Busy => BUSY case Committed => 0 case Discarded => DISCARD
  }

  /** Position at which record `i` starts. */
  function Start(log: seq<Record>, i: nat): (p: nat)
    requires i <= |log|
    ensures p % 8 == 0
  {
    if i == 0 then 0 else Start(log, i - 1) + Size(log[i - 1].len)
  }

  lemma {:induction false} StartOrder(log: seq<Record>, i: nat, j: nat)
    requires i < j <= |log|
    ensures Start(log, i) + Size(log[i].len) <= Start(log, j)
    decreases j
  {
    if i < j - 1 {
      StartOrder(log, i, j - 1);
    }
  }

  lemma NextStart(log: seq<Record>, i: nat)
    requires i < |log|
    ensures Start(log, i + 1) == Start(log, i) + Size(log[i].len)
  {
  }

  predicate SameLengths(a: seq<Record>, b: seq<Record>, n: nat) {
    n <= |a| && n <= |b| && forall i :: 0 <= i < n ==> a[i].len == b[i].len
  }

  lemma {:induction false} StartSame(a: seq<Record>, b: seq<Record>, i: nat)
    requires SameLengths(a, b, i)
    ensures Start(a, i) == Start(b, i)
  {
    if i > 0 {
      StartSame(a, b, i - 1);
    }
  }

  // ---------------------------------------------------------------- consumer

  datatype HeaderResult =
    | WouldBlock
    | Overflown
    | Underflow
    | Skip(next: nat)
    | Slice(next: nat, offset: nat, length: nat)

  /** What the consumer concludes from the producer position and the memory. */
  function ReadHeader(cons: nat, pr: nat, mem: seq<byte>): HeaderResult
    requires mem != []
  {
    if cons >= pr then WouldBlock else
    if pr - cons > |mem| then Overflown else
    var header := FromLe(Read(mem, cons % |mem|, 4));
    if header / BUSY % 2 == 1 then WouldBlock else
    var discard := header / DISCARD % 2 == 1;
    var length := if discard then header - DISCARD else header;
    var next := cons + HEADER + Align(length);
    if pr < next then Underflow else
    if discard then Skip(next) else Slice(next, cons % |mem| + HEADER, length)
  }

  // ------------------------------------------------------------ the protocol

  datatype Phase =
    | Idle
    | Loaded(pr: nat, upTo: nat)
    | Parsing(offset: nat, length: nat)
    | Finishing
    | Fault

  /** Shared memory, both positions, the consumer's private state, and the history:
      the reservations made, how many the consumer has passed and how many of those
      it has given back to the kernel. */
  datatype Ring<V> = Ring(
    mem: seq<byte>,
    prod: nat,
    published: nat,
    cons: nat,
    phase: Phase,
    delivered: seq<V>,
    log: seq<Record>,
    passed: nat,
    freed: nat)

  datatype Action =
    | Reserve(len: nat, seen: nat, pageOffset: nat)
    | Fill(i: nat, bytes: seq<byte>)
    | Commit(i: nat, discard: bool)
    | Load
    | Header
    | Parse
    | Finish

  function Init<V>(size: nat): Ring<V> {
    Ring(seq(size, _ => 0), 0, 0, 0, Idle, [], [], 0, 0)
  }

  /** The kernel may reserve when the record fits between the producer position and a
      consumer position it has seen; it may write to and submit busy records, in any order.
      The consumer runs its own program. */
  predicate Enabled<V>(s: Ring<V>, a: Action) {
    match a
    case Reserve(len, seen, _) =>
      len < DISCARD && seen <= s.published && s.prod + Size(len) - seen <= |s.mem| - 1
    case Fill(i, bytes) => i < |s.log| && s.log[i].status.Busy? && |bytes| == s.log[i].len
    case Commit(i, _) => i < |s.log| && s.log[i].status.Busy?
    case Load => s.phase.Idle?
    case Header => s.phase.Loaded?
    case Parse => s.phase.Parsing?
    case Finish => s.phase.Finishing?
  }

  function Next<V>(parse: seq<byte> -> Option<V>, s: Ring<V>, a: Action): Ring<V>
    requires s.mem != [] && Enabled(s, a)
    requires forall i :: 0 <= i < |s.log| ==> |s.log[i].payload| == s.log[i].len
  {
    match a
    case Reserve(len, _, pageOffset) =>
      var mem := Write(s.mem, s.prod, ToLe(len + BUSY, 4) + ToLe(pageOffset, 4));
      s.(mem := mem, prod := s.prod + Size(len),
         log := s.log + [Record(len, Busy, Read(mem, s.prod + HEADER, len))])
    case Fill(i, bytes) =>
      s.(mem := Write(s.mem, Start(s.log, i) + HEADER, bytes), log := s.log[i := s.log[i].(payload := bytes)])
    case Commit(i, discard) =>
      var r := s.log[i].(status := if discard then Discarded else Committed);
      s.(mem := Write(s.mem, Start(s.log, i), ToLe(Word(r), 4)), log := s.log[i := r])
    case Load => s.(phase := Loaded(s.prod, |s.log|))
    case Header =>
      (match ReadHeader(s.cons, s.phase.pr, s.mem)
       case WouldBlock => s.(phase := Idle)
       case Overflown => s.(phase := Fault)
       case Underflow => s.(phase := Fault)
       case Skip(next) => s.(cons := next, phase := Idle, passed := s.passed + 1)
       case Slice(next, offset, length) =>
         s.(cons := next, phase := Parsing(offset, length), passed := s.passed + 1))
    case Parse =>
      var Parsing(offset, length) := s.phase;
      if offset + length > 2 * |s.mem| then s.(phase := Fault) else
      (match parse(Read(s.mem, offset, length))
       case None => s.(phase := Idle)
       case Some(v) => s.(delivered := s.delivered + [v], phase := Finishing))
    case Finish => s.(published := s.cons, freed := s.passed, phase := Idle)
  }

  /** What counts as a fault, in any state: the positions are more than a ring apart, a submitted
      record ends behind the position that was loaded, or a slice leaves the doubled mapping. */
  lemma FaultsAreSeen<V>(parse: seq<byte> -> Option<V>, s: Ring<V>, len: nat)
    requires s.mem != [] && forall i :: 0 <= i < |s.log| ==> |s.log[i].payload| == s.log[i].len
    ensures s.phase.Loaded? && s.cons < s.phase.pr && s.phase.pr - s.cons > |s.mem| ==>
              Next(parse, s, Header).phase.Fault?
    ensures s.phase.Loaded? && s.cons < s.phase.pr && s.phase.pr - s.cons <= |s.mem|
            && len < DISCARD && Read(s.mem, s.cons % |s.mem|, 4) == ToLe(len, 4) && s.cons + Size(len) > s.phase.pr ==>
              Next(parse, s, Header).phase.Fault?
    ensures s.phase.Parsing? && s.phase.offset + s.phase.length > 2 * |s.mem| ==> Next(parse, s, Parse).phase.Fault?
  {
    hide Read, ToLe, FromLe, Align;
    if len < DISCARD {
      Pow256Values();
      LeRoundTrip(len, 4);
    }
  }

  /** The values a consumer should see: committed records that parse, in reservation order. */
  function Expected<V>(parse: seq<byte> -> Option<V>, log: seq<Record>): seq<V> {
    if log == [] then [] else
    var r := log[|log| - 1];
    Expected(parse, log[..|log| - 1])
    + if r.status.Committed? && parse(r.payload).Some? then [parse(r.payload).value] else []
  }

  // --------------------------------------------------------------- invariant

  /** Record `i` is in memory as the history says. */
  ghost predicate InMemory(mem: seq<byte>, log: seq<Record>, i: nat)
    requires mem != [] && i < |log|
  {
    && Read(mem, Start(log, i), 4) == ToLe(Word(log[i]), 4)
    && Read(mem, Start(log, i) + HEADER, log[i].len) == log[i].payload
  }

  ghost predicate Positions<V>(s: Ring<V>) {
    && s.mem != [] && |s.mem| % 8 == 0
    && s.freed <= s.passed <= |s.log|
    && s.prod == Start(s.log, |s.log|)
    && s.cons == Start(s.log, s.passed)
    && s.published == Start(s.log, s.freed)
    && s.prod <= s.published + |s.mem|
  }

  ghost predicate Records<V>(s: Ring<V>)
    requires s.mem != []
  {
    && (forall i :: 0 <= i < |s.log| ==> s.log[i].len < DISCARD && |s.log[i].payload| == s.log[i].len)
    && (forall i :: 0 <= i < s.passed && i < |s.log| ==> !s.log[i].status.Busy?)
    && (forall i :: s.freed <= i < |s.log| ==> InMemory(s.mem, s.log, i))
  }

  ghost predicate Progress<V>(parse: seq<byte> -> Option<V>, s: Ring<V>)
    requires s.mem != [] && s.passed <= |s.log|
  {
    match s.phase
    case Idle => s.delivered == Expected(parse, s.log[..s.passed])
    case Loaded(pr, upTo) =>
      && s.delivered == Expected(parse, s.log[..s.passed])
      && s.passed <= upTo <= |s.log| && pr == Start(s.log, upTo)
    case Parsing(offset, length) =>
      && 0 < s.passed && s.freed < s.passed
      && s.delivered == Expected(parse, s.log[..s.passed - 1])
      && s.log[s.passed - 1].status.Committed?
      && offset == Start(s.log, s.passed - 1) % |s.mem| + HEADER
      && length == s.log[s.passed - 1].len
    case Finishing => s.freed < s.passed && s.delivered == Expected(parse, s.log[..s.passed])
    case Fault => false
  }

  ghost predicate Inv<V>(parse: seq<byte> -> Option<V>, s: Ring<V>) {
    Positions(s) && Records(s) && Progress(parse, s)
  }

  // ------------------------------------------------------------ kernel steps

  lemma InMemoryKept(mem: seq<byte>, log: seq<Record>, j: nat, p: nat, bs: seq<byte>)
    requires mem != [] && j < |log| && InMemory(mem, log, j)
    requires var q, e := Start(log, j), Start(log, j) + Size(log[j].len);
             (e <= p && p + |bs| <= q + |mem|) || (p + |bs| <= q && e <= p + |mem|)
    ensures InMemory(Write(mem, p, bs), log, j)
  {
    hide Align, Start, Read, Write;
    ReadKept(mem, p, bs, Start(log, j), 4);
    ReadKept(mem, p, bs, Start(log, j) + HEADER, log[j].len);
  }

  lemma InMemorySame(mem: seq<byte>, a: seq<Record>, b: seq<Record>, j: nat)
    requires mem != [] && j < |a| && j < |b| && SameLengths(a, b, j) && a[j] == b[j]
    ensures InMemory(mem, a, j) == InMemory(mem, b, j)
  {
    StartSame(a, b, j);
  }

  /** All unfreed records lie between the published and the producer position. */
  lemma Extent<V>(s: Ring<V>, j: nat)
    requires Positions(s) && s.freed <= j < |s.log|
    ensures s.published <= Start(s.log, j)
    ensures Start(s.log, j) + Size(s.log[j].len) <= s.prod
  {
    hide Align, Start;
    StartOrder(s.log, j, |s.log|);
    if s.freed < j {
      StartOrder(s.log, s.freed, j);
    }
  }

  lemma Ordered<V>(s: Ring<V>)
    requires Positions(s)
    ensures s.published <= s.cons <= s.prod
  {
    hide Align, Start;
    if s.freed < s.passed {
      StartOrder(s.log, s.freed, s.passed);
    }
    if s.passed < |s.log| {
      StartOrder(s.log, s.passed, |s.log|);
    }
  }

  lemma ReserveOwn(mem: seq<byte>, log: seq<Record>, len: nat, pageOffset: nat)
    requires Size(len) <= |mem|
    ensures var p := Start(log, |log|);
            var mem' := Write(mem, p, ToLe(len + BUSY, 4) + ToLe(pageOffset, 4));
            InMemory(mem', log + [Record(len, Busy, Read(mem', p + HEADER, len))], |log|)
  {
    hide Align, Start, Read, Write, ToLe;
    var p := Start(log, |log|);
    var head := ToLe(len + BUSY, 4) + ToLe(pageOffset, 4);
    var mem' := Write(mem, p, head);
    StartSame(log, log + [Record(len, Busy, Read(mem', p + HEADER, len))], |log|);
    ReadWritten(mem, p, head, 4);
    assert head[..4] == ToLe(len + BUSY, 4);
  }

  lemma ReserveKeepsRecords<V>(parse: seq<byte> -> Option<V>, s: Ring<V>, a: Action)
    requires Positions(s) && Records(s) && a.Reserve? && Enabled(s, a)
    ensures Records(Next(parse, s, a))
  {
    hide Align, Start, Read, Write, ToLe, InMemory;
    Ordered(s);
    var s' := Next(parse, s, a);
    var head := ToLe(a.len + BUSY, 4) + ToLe(a.pageOffset, 4);
    forall i | s.freed <= i < |s'.log|
      ensures InMemory(s'.mem, s'.log, i)
    {
      if i < |s.log| {
        Extent(s, i);
        InMemoryKept(s.mem, s.log, i, s.prod, head);
        InMemorySame(s'.mem, s.log, s'.log, i);
      } else {
        ReserveOwn(s.mem, s.log, a.len, a.pageOffset);
      }
    }
  }

  lemma ReserveKeepsPositions<V>(parse: seq<byte> -> Option<V>, s: Ring<V>, a: Action)
    requires Positions(s) && Records(s) && a.Reserve? && Enabled(s, a)
    ensures Positions(Next(parse, s, a))
  {
    var s' := Next(parse, s, a);
    StartSame(s.log, s'.log, |s.log|);
    StartSame(s.log, s'.log, s.passed);
    StartSame(s.log, s'.log, s.freed);
  }

  /** Submitting or filling a record touches only that record. */
  lemma OthersKept<V>(s: Ring<V>, i: nat, r: Record, p: nat, bs: seq<byte>, j: nat)
    requires Positions(s) && Records(s) && i < |s.log| && r.len == s.log[i].len
    requires s.freed <= i && s.freed <= j < |s.log| && j != i
    requires Start(s.log, i) <= p && p + |bs| <= Start(s.log, i) + Size(r.len)
    ensures InMemory(Write(s.mem, p, bs), s.log[i := r], j)
  {
    Extent(s, i);
    Extent(s, j);
    if i < j {
      StartOrder(s.log, i, j);
    } else {
      StartOrder(s.log, j, i);
    }
    InMemoryKept(s.mem, s.log, j, p, bs);
    InMemorySame(Write(s.mem, p, bs), s.log, s.log[i := r], j);
  }

  lemma BusyIsUnpassed<V>(s: Ring<V>, i: nat)
    requires Positions(s) && Records(s) && i < |s.log| && s.log[i].status.Busy?
    ensures s.passed <= i
  {
  }

  lemma FillOwn(mem: seq<byte>, log: seq<Record>, i: nat, bytes: seq<byte>)
    requires mem != [] && i < |log| && InMemory(mem, log, i)
    requires |bytes| == log[i].len && Size(log[i].len) <= |mem|
    ensures InMemory(Write(mem, Start(log, i) + HEADER, bytes), log[i := log[i].(payload := bytes)], i)
  {
    hide Align, Start, Read, Write, ToLe;
    var p := Start(log, i) + HEADER;
    var r := log[i].(payload := bytes);
    StartSame(log, log[i := r], i);
    ReadKept(mem, p, bytes, Start(log, i), 4);
    ReadWritten(mem, p, bytes, r.len);
    assert bytes[..r.len] == bytes;
  }

  lemma CommitOwn(mem: seq<byte>, log: seq<Record>, i: nat, status: Status)
    requires mem != [] && i < |log| && InMemory(mem, log, i) && Size(log[i].len) <= |mem|
    ensures var r := log[i].(status := status);
            InMemory(Write(mem, Start(log, i), ToLe(Word(r), 4)), log[i := r], i)
  {
    hide Align, Start, Read, Write, ToLe;
    var p := Start(log, i);
    var r := log[i].(status := status);
    var word := ToLe(Word(r), 4);
    StartSame(log, log[i := r], i);
    ReadKept(mem, p, word, p + HEADER, r.len);
    ReadWritten(mem, p, word, 4);
    assert word[..4] == word;
  }

  /** Filling or submitting record `i` by writing inside it keeps every other record. */
  lemma UpdateKeepsRecords<V>(s: Ring<V>, i: nat, r: Record, p: nat, bs: seq<byte>)
    requires Positions(s) && Records(s) && i < |s.log| && s.log[i].status.Busy?
    requires r.len == s.log[i].len == |r.payload|
    requires Start(s.log, i) <= p && p + |bs| <= Start(s.log, i) + Size(r.len)
    requires InMemory(Write(s.mem, p, bs), s.log[i := r], i)
    ensures Records(s.(mem := Write(s.mem, p, bs), log := s.log[i := r]))
  {
    hide Align, Start, Read, Write, InMemory;
    BusyIsUnpassed(s, i);
    var mem', log' := Write(s.mem, p, bs), s.log[i := r];
    forall j | s.freed <= j < |log'|
      ensures InMemory(mem', log', j)
    {
      if j != i {
        OthersKept(s, i, r, p, bs, j);
      }
    }
  }

  lemma FillKeepsRecords<V>(parse: seq<byte> -> Option<V>, s: Ring<V>, a: Action)
    requires Positions(s) && Records(s) && a.Fill? && Enabled(s, a)
    ensures Records(Next(parse, s, a))
  {
    hide Align, Start, Read, Write, InMemory;
    var i := a.i;
    BusyIsUnpassed(s, i);
    Extent(s, i);
    FillOwn(s.mem, s.log, i, a.bytes);
    UpdateKeepsRecords(s, i, s.log[i].(payload := a.bytes), Start(s.log, i) + HEADER, a.bytes);
  }

  lemma CommitKeepsRecords<V>(parse: seq<byte> -> Option<V>, s: Ring<V>, a: Action)
    requires Positions(s) && Records(s) && a.Commit? && Enabled(s, a)
    ensures Records(Next(parse, s, a))
  {
    hide Align, Start, Read, Write, InMemory;
    var i := a.i;
    var status := if a.discard then Discarded else Committed;
    var r := s.log[i].(status := status);
    BusyIsUnpassed(s, i);
    Extent(s, i);
    CommitOwn(s.mem, s.log, i, status);
    UpdateKeepsRecords(s, i, r, Start(s.log, i), ToLe(Word(r), 4));
  }

  /** A kernel step changes neither the records already passed nor any position the
      consumer holds. */
  lemma KernelKeepsProgress<V>(parse: seq<byte> -> Option<V>, s: Ring<V>, a: Action)
    requires Inv(parse, s) && Enabled(s, a) && (a.Reserve? || a.Fill? || a.Commit?)
    ensures Progress(parse, Next(parse, s, a))
  {
    hide Align, Read, Write, ToLe, InMemory, Expected, Start;
    var s' := Next(parse, s, a);
    if !a.Reserve? {
      BusyIsUnpassed(s, a.i);
    }
    assert s'.log[..s.passed] == s.log[..s.passed];
    match s.phase
    case Loaded(_, upTo) => StartSame(s.log, s'.log, upTo);
    case Parsing(_, _) =>
      assert s'.log[..s.passed - 1] == s.log[..s.passed - 1];
      StartSame(s.log, s'.log, s.passed - 1);
    case _ =>
  }

  lemma UpdateKeepsPositions<V>(s: Ring<V>, log: seq<Record>)
    requires Positions(s) && |log| == |s.log| && SameLengths(s.log, log, |log|)
    ensures Positions(s.(log := log))
  {
    StartSame(s.log, log, |log|);
    StartSame(s.log, log, s.passed);
    StartSame(s.log, log, s.freed);
  }

  lemma KernelStep<V>(parse: seq<byte> -> Option<V>, s: Ring<V>, a: Action)
    requires Inv(parse, s) && Enabled(s, a) && (a.Reserve? || a.Fill? || a.Commit?)
    ensures Inv(parse, Next(parse, s, a))
  {
    KernelKeepsProgress(parse, s, a);
    match a
    case Reserve(_, _, _) =>
      ReserveKeepsRecords(parse, s, a);
      ReserveKeepsPositions(parse, s, a);
    case Fill(_, _) =>
      FillKeepsRecords(parse, s, a);
      UpdateKeepsPositions(s, Next(parse, s, a).log);
    case Commit(_, _) =>
      CommitKeepsRecords(parse, s, a);
      UpdateKeepsPositions(s, Next(parse, s, a).log);
  }

  // ---------------------------------------------------------- consumer steps

  lemma ModTwice(x: nat, k: nat, n: nat)
    requires n > 0
    ensures (x % n + k) % n == (x + k) % n
  {
    var z: int := k;
    ModSubtract(x, -z, n);
  }

  /** Reading through the doubled mapping from a masked position sees the same bytes. */
  lemma ReadMasked(mem: seq<byte>, p: nat, skip: nat, len: nat)
    requires mem != []
    ensures Read(mem, p % |mem| + skip, len) == Read(mem, p + skip, len)
  {
    var a, b := Read(mem, p % |mem| + skip, len), Read(mem, p + skip, len);
    forall k | 0 <= k < len
      ensures a[k] == b[k]
    {
      ModTwice(p, skip + k, |mem|);
    }
  }

  lemma WordFlags(r: Record)
    requires r.len < DISCARD
    ensures Word(r) < Pow256(4)
    ensures Word(r) / BUSY % 2 == (if r.status.Busy? then 1 else 0)
    ensures !r.status.Busy? ==> Word(r) / DISCARD % 2 == (if r.status.Discarded? then 1 else 0)
  {
    Pow256Values();
  }

  lemma HeaderWord<V>(s: Ring<V>)
    requires Positions(s) && Records(s) && s.passed < |s.log|
    ensures FromLe(Read(s.mem, s.cons % |s.mem|, 4)) == Word(s.log[s.passed])
  {
    hide Align, Start, Read, ToLe, FromLe, Word;
    var r := s.log[s.passed];
    assert InMemory(s.mem, s.log, s.passed);
    ReadMasked(s.mem, s.cons, 0, 4);
    WordFlags(r);
    LeRoundTrip(Word(r), 4);
  }

  /** The consumer draws the right conclusion: it waits at the end and at a busy record,
      skips a discarded one, and otherwise gets the record's own bounds; it never sees an
      overflow and never advances past the position it loaded. */
  lemma ReadHeaderExact<V>(s: Ring<V>, pr: nat, upTo: nat)
    requires Positions(s) && Records(s) && s.passed <= upTo <= |s.log| && pr == Start(s.log, upTo)
    ensures ReadHeader(s.cons, pr, s.mem) ==
            if s.passed == upTo then WouldBlock else
            match s.log[s.passed].status
            case Busy => WouldBlock
            case Discarded => Skip(Start(s.log, s.passed + 1))
            case Committed =>
              Slice(Start(s.log, s.passed + 1), Start(s.log, s.passed) % |s.mem| + HEADER, s.log[s.passed].len)
  {
    if s.passed < upTo {
      HeaderWord(s);
      WordFlags(s.log[s.passed]);
      HeaderBounds(s, pr, upTo);
      hide Align, Start, Read, FromLe;
      assert HEADER + Align(s.log[s.passed].len) == Size(s.log[s.passed].len);
    }
  }

  lemma HeaderBounds<V>(s: Ring<V>, pr: nat, upTo: nat)
    requires Positions(s) && s.passed < upTo <= |s.log| && pr == Start(s.log, upTo)
    ensures s.cons < pr && pr - s.cons <= |s.mem|
    ensures Start(s.log, s.passed + 1) == s.cons + Size(s.log[s.passed].len) <= pr
  {
    NextStart(s.log, s.passed);
    hide Align, Start;
    StartOrder(s.log, s.passed, upTo);
    if upTo < |s.log| {
      StartOrder(s.log, upTo, |s.log|);
    }
    if s.freed < s.passed {
      StartOrder(s.log, s.freed, s.passed);
    }
  }

  lemma ExpectedNext<V>(parse: seq<byte> -> Option<V>, log: seq<Record>, n: nat)
    requires n < |log|
    ensures Expected(parse, log[..n + 1]) ==
            Expected(parse, log[..n])
            + if log[n].status.Committed? && parse(log[n].payload).Some? then [parse(log[n].payload).value] else []
  {
    assert log[..n + 1][..n] == log[..n];
  }

  lemma HeaderStep<V>(parse: seq<byte> -> Option<V>, s: Ring<V>)
    requires Inv(parse, s) && s.phase.Loaded?
    ensures Inv(parse, Next(parse, s, Header))
  {
    hide Align, Start, Read, ReadHeader, Expected, InMemory;
    ReadHeaderExact(s, s.phase.pr, s.phase.upTo);
    if s.passed < s.phase.upTo {
      HeaderBounds(s, s.phase.pr, s.phase.upTo);
      ExpectedNext(parse, s.log, s.passed);
    }
  }

  /** The slice handed to the parser is inside the doubled mapping and holds exactly the
      bytes the kernel committed, whatever the kernel has done since. */
  lemma SliceIntact<V>(parse: seq<byte> -> Option<V>, s: Ring<V>)
    requires Inv(parse, s) && s.phase.Parsing?
    ensures s.phase.offset + s.phase.length <= 2 * |s.mem|
    ensures Read(s.mem, s.phase.offset, s.phase.length) == s.log[s.passed - 1].payload
  {
    var i := s.passed - 1;
    Extent(s, i);
    assert InMemory(s.mem, s.log, i);
    ReadMasked(s.mem, Start(s.log, i), HEADER, s.log[i].len);
  }

  lemma ParseStep<V>(parse: seq<byte> -> Option<V>, s: Ring<V>)
    requires Inv(parse, s) && s.phase.Parsing?
    ensures Inv(parse, Next(parse, s, Parse))
  {
    hide Align, Start, Read, Expected, InMemory;
    SliceIntact(parse, s);
    ExpectedNext(parse, s.log, s.passed - 1);
  }

  lemma FinishStep<V>(parse: seq<byte> -> Option<V>, s: Ring<V>)
    requires Inv(parse, s) && s.phase.Finishing?
    ensures Inv(parse, Next(parse, s, Finish))
  {
    Ordered(s);
  }

  // ---------------------------------------------------------------- all runs

  lemma StepKeepsInv<V>(parse: seq<byte> -> Option<V>, s: Ring<V>, a: Action)
    requires Inv(parse, s) && Enabled(s, a)
    ensures Inv(parse, Next(parse, s, a))
  {
    match a
    case Load =>
    case Header => HeaderStep(parse, s);
    case Parse => ParseStep(parse, s);
    case Finish => FinishStep(parse, s);
    case _ => KernelStep(parse, s, a);
  }

  /** `acts` is a possible run of kernel and consumer from `s`, ending in `t`. */
  ghost predicate Runs<V>(parse: seq<byte> -> Option<V>, s: Ring<V>, acts: seq<Action>, t: Ring<V>)
    decreases acts
  {
    if acts == [] then s == t else
    && s.mem != [] && Enabled(s, acts[0])
    && (forall i :: 0 <= i < |s.log| ==> |s.log[i].payload| == s.log[i].len)
    && Runs(parse, Next(parse, s, acts[0]), acts[1..], t)
  }

  lemma {:induction false} RunKeepsInv<V>(parse: seq<byte> -> Option<V>, s: Ring<V>, acts: seq<Action>, t: Ring<V>)
    requires Inv(parse, s) && Runs(parse, s, acts, t)
    ensures Inv(parse, t)
    decreases acts
  {
    if acts != [] {
      StepKeepsInv(parse, s, acts[0]);
      RunKeepsInv(parse, Next(parse, s, acts[0]), acts[1..], t);
    }
  }

  /** Safety of every run from an empty ring: the three positions stay in order, within one
      ring of each other and on 8-byte boundaries; the consumer never faults (no overflow, no
      underflow, no slice past the mapping); and what it has delivered is exactly the committed
      parseable records among those it has passed, in reservation order, each once. */
  lemma RingIsSafe<V>(parse: seq<byte> -> Option<V>, size: nat, acts: seq<Action>, t: Ring<V>)
    requires size > 0 && size % 8 == 0 && Runs(parse, Init(size), acts, t)
    ensures |t.mem| == size && t.published <= t.cons <= t.prod <= t.published + size
    ensures t.published % 8 == t.cons % 8 == t.prod % 8 == 0
    ensures !t.phase.Fault?
    ensures t.passed <= |t.log| && t.cons == Start(t.log, t.passed)
    ensures !t.phase.Parsing? ==> t.delivered == Expected(parse, t.log[..t.passed])
    ensures t.phase.Parsing? ==>
              && 0 < t.passed && t.delivered == Expected(parse, t.log[..t.passed - 1])
              && t.phase.offset + t.phase.length <= 2 * |t.mem|
              && Read(t.mem, t.phase.offset, t.phase.length) == t.log[t.passed - 1].payload
  {
    var s := Init<V>(size);
    RunKeepsInv(parse, s, acts, t);
    RunKeepsSize(parse, s, acts, t);
    Ordered(t);
    if t.phase.Parsing? {
      SliceIntact(parse, t);
    }
  }

  lemma {:induction false} RunKeepsSize<V>(parse: seq<byte> -> Option<V>, s: Ring<V>, acts: seq<Action>, t: Ring<V>)
    requires Runs(parse, s, acts, t)
    ensures |t.mem| == |s.mem|
    decreases acts
  {
    if acts != [] {
      RunKeepsSize(parse, Next(parse, s, acts[0]), acts[1..], t);
    }
  }

  /** An idle consumer facing a submitted record passes it in its next two steps. */
  lemma ConsumerAdvances<V>(parse: seq<byte> -> Option<V>, s: Ring<V>)
    requires Inv(parse, s) && s.phase.Idle? && s.passed < |s.log| && !s.log[s.passed].status.Busy?
    ensures var s1 := Next(parse, s, Load);
            Inv(parse, s1) && Next(parse, s1, Header).passed == s.passed + 1
  {
    StepKeepsInv(parse, s, Load);
    ReadHeaderExact(s, s.prod, |s.log|);
  }

  // ------------------------------------------------------------- the reader

  datatype ReadResult<V> = Blocked | Overflow | Crashed | Got(value: Option<V>, remaining: nat)

  /** The consumer as it runs: one call reads the positions and the memory it is given. */
  class Reader {
    const bits: nat
    var consumerPos: nat
    var previousDistance: nat
    var consumerPage: nat

    constructor (bits: nat)
      ensures this.bits == bits && consumerPos == 0 && previousDistance == 0 && consumerPage == 0
    {
      this.bits := bits;
      consumerPos, previousDistance, consumerPage := 0, 0, 0;
    }

    method ReadSlice<V>(parse: seq<byte> -> Option<V>, producerPos: nat, mem: seq<byte>)
      returns (r: ReadResult<V>)
      requires |mem| == Pow2(bits)
      modifies this`consumerPos, this`previousDistance
      ensures match ReadHeader(old(consumerPos), producerPos, mem)
              case WouldBlock => r == Blocked && consumerPos == old(consumerPos)
              case Overflown => r == Overflow && consumerPos == old(consumerPos)
              case Underflow => r == Crashed
              case Skip(next) => r == Got(None, producerPos - next) && consumerPos == next
              case Slice(next, offset, length) =>
                && consumerPos == next
                && r == if offset + length > 2 * |mem| then Crashed
                        else Got(parse(Read(mem, offset, length)), producerPos - next)
      ensures previousDistance ==
              if old(consumerPos) < producerPos <= old(consumerPos) + |mem|
              then producerPos - old(consumerPos) else old(previousDistance)
    {
      if consumerPos >= producerPos {
        return Blocked;
      }
      var mask := Pow2(bits) - 1;
      var distance := producerPos - consumerPos;
      if distance > mask + 1 {
        return Overflow;
      }
      previousDistance := distance;
      var maskedPos := And(consumerPos, mask);
      AndMask(consumerPos, bits);
      var header := FromLe(Read(mem, maskedPos, 4));
      var dataOffset := maskedPos + HEADER;
      if header / BUSY % 2 == 1 {
        return Blocked;
      }
      var discard := header / DISCARD % 2 == 1;
      var length := if discard then header - DISCARD else header;
      consumerPos := consumerPos + HEADER + Align(length);
      if producerPos < consumerPos {
        return Crashed;
      }
      var remaining := producerPos - consumerPos;
      if discard {
        return Got(None, remaining);
      }
      if dataOffset + length > 2 * (mask + 1) {
        return Crashed;
      }
      r := Got(parse(Read(mem, dataOffset, length)), remaining);
    }

    /** Only a value makes the consumer give its records back to the kernel. */
    method ReadValue<V>(parse: seq<byte> -> Option<V>, producerPos: nat, mem: seq<byte>)
      returns (r: ReadResult<V>)
      requires |mem| == Pow2(bits)
      modifies this
      ensures consumerPage == if r.Got? && r.value.Some? then consumerPos else old(consumerPage)
      ensures r.Got? ==> old(consumerPos) < consumerPos && r.remaining == producerPos - consumerPos
      ensures r.Got? && r.value.Some? ==>
                ReadHeader(old(consumerPos), producerPos, mem).Slice? &&
                var Slice(next, offset, length) := ReadHeader(old(consumerPos), producerPos, mem);
                offset + length <= 2 * |mem| && next == consumerPos && r.value == parse(Read(mem, offset, length))
    {
      r := ReadSlice(parse, producerPos, mem);
      if r.Got? && r.value.Some? {
        consumerPage := consumerPos;
      }
    }
  }
}
