/** When the ring stops for good. The consumer gives records back to the kernel only together with
    a value, so records that yield none can fill the ring for ever. */
module Stall {
  import opened Bytes
  import opened RingBuffer
  import Wire

  /** The kernel reserves records of at least `m` bytes only. */
  predicate AtLeast(acts: seq<Action>, m: nat) {
    forall i :: 0 <= i < |acts| && acts[i].Reserve? ==> acts[i].len >= m
  }

  /** No continuation with such reservations reserves, gives back or delivers anything. */
  ghost predicate Quiet<V(!new)>(parse: seq<byte> -> Option<V>, m: nat, s: Ring<V>) {
    forall acts, t :: Runs(parse, s, acts, t) && AtLeast(acts, m) ==> Unmoved(s, t)
  }

  predicate Unmoved<V(==)>(s: Ring<V>, t: Ring<V>) {
    t.prod == s.prod && t.published == s.published && t.delivered == s.delivered
  }

  /** The record can still yield a value: it has been submitted with one, or it may be. */
  ghost predicate Yields<V>(parse: seq<byte> -> Option<V>, r: Record) {
    match r.status
    case Committed => parse(r.payload).Some?
    case Discarded => false
    case Busy => exists bytes :: |bytes| == r.len && parse(bytes).Some?
  }

  predicate Fits<V>(m: nat, s: Ring<V>) {
    m < DISCARD && s.prod + Size(m) - s.published <= |s.mem| - 1
  }

  /** Nothing fits, no value is about to be given back, and no record that is being parsed or
      still to come can yield a value. */
  ghost predicate Stuck<V>(parse: seq<byte> -> Option<V>, m: nat, s: Ring<V>)
    requires s.passed <= |s.log|
  {
    && !Fits(m, s) && !s.phase.Finishing?
    && (s.phase.Parsing? ==> 0 < s.passed && parse(s.log[s.passed - 1].payload).None?)
    && forall i :: s.passed <= i < |s.log| ==> !Yields(parse, s.log[i])
  }

  lemma SizeGrows(m: nat, len: nat)
    requires m <= len
    ensures Size(m) <= Size(len)
  {
  }

  // ------------------------------------------------------------------ stuck for good

  lemma StuckStep<V>(parse: seq<byte> -> Option<V>, m: nat, s: Ring<V>, a: Action)
    requires Inv(parse, s) && Stuck(parse, m, s) && Enabled(s, a) && (a.Reserve? ==> a.len >= m)
    ensures Stuck(parse, m, Next(parse, s, a)) && Unmoved(s, Next(parse, s, a))
  {
    hide Align, Start, Read, Write, ToLe, InMemory, Expected, ReadHeader, Word;
    match a
    case Reserve(len, _, _) => SizeGrows(m, len);
    case Fill(i, bytes) => BusyIsUnpassed(s, i);
    case Commit(i, _) => BusyIsUnpassed(s, i);
    case Header => ReadHeaderExact(s, s.phase.pr, s.phase.upTo);
    case Parse => SliceIntact(parse, s);
    case _ =>
  }

  lemma {:induction false} StuckForever<V>(
    parse: seq<byte> -> Option<V>, m: nat, s: Ring<V>, acts: seq<Action>, t: Ring<V>)
    requires Inv(parse, s) && Stuck(parse, m, s) && Runs(parse, s, acts, t) && AtLeast(acts, m)
    ensures Unmoved(s, t)
    decreases acts
  {
    if acts != [] {
      hide Inv, Stuck, Next, Enabled;
      StepKeepsInv(parse, s, acts[0]);
      StuckStep(parse, m, s, acts[0]);
      assert forall i :: 0 <= i < |acts[1..]| ==> acts[1..][i] == acts[i + 1];
      StuckForever(parse, m, Next(parse, s, acts[0]), acts[1..], t);
    }
  }

  // ------------------------------------------------------------------ ways out

  lemma RunsCons<V>(parse: seq<byte> -> Option<V>, s: Ring<V>, a: Action, acts: seq<Action>, t: Ring<V>)
    requires Inv(parse, s) && Enabled(s, a) && Runs(parse, Next(parse, s, a), acts, t)
    ensures Runs(parse, s, [a] + acts, t)
  {
    assert ([a] + acts)[1..] == acts;
  }

  predicate NoReserve(acts: seq<Action>) {
    forall i :: 0 <= i < |acts| ==> !acts[i].Reserve?
  }

  /** Record `i` can yield a value and is still to come or being parsed. */
  ghost predicate Pending<V>(parse: seq<byte> -> Option<V>, s: Ring<V>, i: nat) {
    && i < |s.log| && Yields(parse, s.log[i]) && !s.phase.Finishing?
    && (s.passed <= i || (s.phase.Parsing? && s.passed == i + 1))
  }

  function Rank<V>(s: Ring<V>): nat {
    if s.phase.Idle? then if s.passed < |s.log| && s.log[s.passed].status.Busy? then 2 else 1 else 3
  }

  /** What the steps of the consumer and the kernel change, besides memory. */
  lemma ParseMoves<V>(parse: seq<byte> -> Option<V>, s: Ring<V>)
    requires Inv(parse, s) && s.phase.Parsing?
    ensures var t := Next(parse, s, Parse);
            && t.log == s.log && 0 < s.passed == t.passed
            && match parse(s.log[s.passed - 1].payload)
               case None => t.phase.Idle? && t.delivered == s.delivered
               case Some(v) => t.phase.Finishing? && t.delivered == s.delivered + [v]
  {
    SliceIntact(parse, s);
  }

  lemma HeaderMoves<V>(parse: seq<byte> -> Option<V>, s: Ring<V>)
    requires Inv(parse, s) && s.phase.Loaded?
    ensures var t := Next(parse, s, Header);
            && t.log == s.log && t.delivered == s.delivered
            && if s.passed == s.phase.upTo || s.log[s.passed].status.Busy? then t.passed == s.passed && t.phase.Idle?
               else t.passed == s.passed + 1 &&
                    if s.log[s.passed].status.Discarded? then t.phase.Idle? else t.phase.Parsing?
  {
    ReadHeaderExact(s, s.phase.pr, s.phase.upTo);
  }

  lemma LoadMoves<V>(parse: seq<byte> -> Option<V>, s: Ring<V>)
    requires Inv(parse, s) && s.phase.Idle?
    ensures Next(parse, s, Load) == s.(phase := Loaded(s.prod, |s.log|))
  {
  }

  lemma KernelMoves<V>(parse: seq<byte> -> Option<V>, s: Ring<V>, a: Action)
    requires Inv(parse, s) && Enabled(s, a) && (a.Fill? || a.Commit?)
    ensures var t := Next(parse, s, a);
            && t.delivered == s.delivered && t.passed == s.passed && t.phase == s.phase
            && t.prod == s.prod && t.published == s.published && |t.mem| == |s.mem|
            && t.log == s.log[a.i := if a.Fill? then s.log[a.i].(payload := a.bytes)
                                     else s.log[a.i].(status := if a.discard then Discarded else Committed)]
  {
  }

  lemma OneStep<V>(parse: seq<byte> -> Option<V>, s: Ring<V>, a: Action)
    requires Inv(parse, s) && Enabled(s, a)
    ensures Runs(parse, s, [a], Next(parse, s, a)) && Inv(parse, Next(parse, s, a))
  {
    hide Next, Enabled, Start, Expected, InMemory;
    StepKeepsInv(parse, s, a);
    NoStep(parse, Next(parse, s, a));
    RunsCons(parse, s, a, [], Next(parse, s, a));
    assert [a] + [] == [a];
  }

  lemma NoStep<V>(parse: seq<byte> -> Option<V>, s: Ring<V>)
    ensures Runs(parse, s, [], s)
  {
  }

  lemma TwoSteps<V>(parse: seq<byte> -> Option<V>, s: Ring<V>, a: Action, b: Action)
    requires Inv(parse, s) && Enabled(s, a) && Inv(parse, Next(parse, s, a)) && Enabled(Next(parse, s, a), b)
    ensures var t := Next(parse, Next(parse, s, a), b);
            Runs(parse, s, [a, b], t) && Inv(parse, t)
  {
    hide Next, Enabled, Start, Expected, InMemory;
    OneStep(parse, Next(parse, s, a), b);
    RunsCons(parse, s, a, [b], Next(parse, Next(parse, s, a), b));
    assert [a] + [b] == [a, b];
  }

  /** A value has been delivered, or record `i` is closer to being delivered. */
  ghost predicate Closer<V>(parse: seq<byte> -> Option<V>, s: Ring<V>, t: Ring<V>, i: nat) {
    || |t.delivered| > |s.delivered|
    || (&& |t.delivered| == |s.delivered| && Pending(parse, t, i)
        && (t.passed > s.passed || (t.passed == s.passed && Rank(t) < Rank(s))))
  }

  /** The consumer waits for a busy record: the kernel submits it, with a value if that is the
      one, and discards it otherwise. */
  lemma Submit<V>(parse: seq<byte> -> Option<V>, s: Ring<V>, i: nat) returns (acts: seq<Action>, t: Ring<V>)
    requires Inv(parse, s) && Pending(parse, s, i) && s.phase.Idle? && s.log[s.passed].status.Busy?
    ensures Runs(parse, s, acts, t) && Inv(parse, t) && NoReserve(acts) && Closer(parse, s, t, i)
  {
    hide Runs, Align, Start, Read, Write, ToLe, InMemory, Expected, ReadHeader, Word;
    if s.passed < i {
      var a := Commit(s.passed, true);
      acts, t := [a], Next(parse, s, a);
      OneStep(parse, s, a);
      KernelMoves(parse, s, a);
      hide Inv, Next;
    } else {
      var bytes :| |bytes| == s.log[i].len && parse(bytes).Some?;
      var a, b := Fill(i, bytes), Commit(i, false);
      var s1 := Next(parse, s, a);
      StepKeepsInv(parse, s, a);
      KernelMoves(parse, s, a);
      KernelMoves(parse, s1, b);
      TwoSteps(parse, s, a, b);
      acts, t := [a, b], Next(parse, s1, b);
      hide Inv, Next;
    }
  }

  /** The next step towards a value. */
  lemma Towards<V>(parse: seq<byte> -> Option<V>, s: Ring<V>, i: nat) returns (acts: seq<Action>, t: Ring<V>)
    requires Inv(parse, s) && Pending(parse, s, i)
    ensures Runs(parse, s, acts, t) && Inv(parse, t) && NoReserve(acts) && Closer(parse, s, t, i)
  {
    hide Runs, Align, Start, Read, Write, ToLe, InMemory, Expected, ReadHeader, Word;
    NoFault(parse, s);
    if s.phase.Parsing? {
      acts, t := [Parse], Next(parse, s, Parse);
      OneStep(parse, s, Parse);
      ParsedIsSubmitted(parse, s);
      ParseMoves(parse, s);
      hide Inv, Next;
    } else if s.phase.Loaded? {
      acts, t := [Header], Next(parse, s, Header);
      OneStep(parse, s, Header);
      HeaderMoves(parse, s);
      hide Inv, Next;
    } else if s.log[s.passed].status.Busy? {
      acts, t := Submit(parse, s, i);
    } else {
      var s1 := Next(parse, s, Load);
      LoadMoves(parse, s);
      StepKeepsInv(parse, s, Load);
      HeaderMoves(parse, s1);
      TwoSteps(parse, s, Load, Header);
      acts, t := [Load, Header], Next(parse, s1, Header);
      hide Inv, Next;
    }
  }

  lemma NoFault<V>(parse: seq<byte> -> Option<V>, s: Ring<V>)
    requires Inv(parse, s)
    ensures !s.phase.Fault? && s.passed <= |s.log|
  {
  }

  lemma ParsedIsSubmitted<V>(parse: seq<byte> -> Option<V>, s: Ring<V>)
    requires Inv(parse, s) && s.phase.Parsing?
    ensures 0 < s.passed <= |s.log| && s.log[s.passed - 1].status.Committed?
  {
  }

  lemma {:induction false} RunsAppend<V>(
    parse: seq<byte> -> Option<V>, s: Ring<V>, a: seq<Action>, t: Ring<V>, b: seq<Action>, u: Ring<V>)
    requires Runs(parse, s, a, t) && Runs(parse, t, b, u)
    ensures Runs(parse, s, a + b, u)
    decreases a
  {
    if a == [] {
      assert a + b == b;
    } else {
      hide Next, Enabled;
      assert (a + b)[1..] == a[1..] + b;
      RunsAppend(parse, Next(parse, s, a[0]), a[1..], t, b, u);
    }
  }

  /** A record that can yield a value is delivered in some continuation without reservations. */
  lemma {:induction false} CanDeliver<V>(parse: seq<byte> -> Option<V>, s: Ring<V>, i: nat)
    returns (acts: seq<Action>, t: Ring<V>)
    requires Inv(parse, s) && Pending(parse, s, i)
    ensures Runs(parse, s, acts, t) && NoReserve(acts) && |t.delivered| > |s.delivered|
    decreases i + 1 - s.passed, Rank(s)
  {
    hide Inv, Runs, Yields;
    acts, t := Towards(parse, s, i);
    if |t.delivered| == |s.delivered| {
      var more, u := CanDeliver(parse, t, i);
      RunsAppend(parse, s, acts, t, more, u);
      acts, t := acts + more, u;
    }
  }

  /** Finishing gives records back. */
  lemma FinishMoves<V>(parse: seq<byte> -> Option<V>, s: Ring<V>)
    requires Inv(parse, s) && s.phase.Finishing?
    ensures Next(parse, s, Finish).published > s.published
  {
    StartOrder(s.log, s.freed, s.passed);
  }

  /** If the ring is not stuck, some continuation moves it. */
  lemma WayOut<V>(parse: seq<byte> -> Option<V>, m: nat, s: Ring<V>) returns (acts: seq<Action>, t: Ring<V>)
    requires Inv(parse, s) && !Stuck(parse, m, s)
    ensures Runs(parse, s, acts, t) && AtLeast(acts, m) && !Unmoved(s, t)
  {
    hide Runs;
    NoFault(parse, s);
    if Fits(m, s) {
      var a := Reserve(m, s.published, 0);
      acts, t := [a], Next(parse, s, a);
      OneStep(parse, s, a);
    } else if s.phase.Finishing? {
      acts, t := [Finish], Next(parse, s, Finish);
      OneStep(parse, s, Finish);
      FinishMoves(parse, s);
    } else {
      var i := StillPending(parse, m, s);
      acts, t := CanDeliver(parse, s, i);
    }
  }

  lemma StillPending<V>(parse: seq<byte> -> Option<V>, m: nat, s: Ring<V>) returns (i: nat)
    requires Inv(parse, s) && !Stuck(parse, m, s) && !Fits(m, s) && !s.phase.Finishing?
    ensures Pending(parse, s, i)
  {
    if s.phase.Parsing? {
      ParsedIsSubmitted(parse, s);
    }
    if s.phase.Parsing? && parse(s.log[s.passed - 1].payload).Some? {
      i := s.passed - 1;
    } else {
      i :| s.passed <= i < |s.log| && Yields(parse, s.log[i]);
    }
  }

  /** In a reachable state, with a kernel that reserves at least `m` bytes at a time: nothing is
      ever reserved, given back or delivered again if and only if nothing fits, no value is about
      to be given back, and no record being parsed or still to come can yield one. */
  lemma QuietIff<V(!new)>(parse: seq<byte> -> Option<V>, m: nat, s: Ring<V>)
    requires Inv(parse, s)
    ensures s.passed <= |s.log| && (Quiet(parse, m, s) <==> Stuck(parse, m, s))
  {
    NoFault(parse, s);
    if Stuck(parse, m, s) {
      forall acts, t | Runs(parse, s, acts, t) && AtLeast(acts, m)
        ensures Unmoved(s, t)
      {
        StuckForever(parse, m, s, acts, t);
      }
    } else {
      var acts, t := WayOut(parse, m, s);
    }
  }

  // ---------------------------------------------------------------- reaching it

  /** One record of contents `b` comes and goes: the kernel submits or discards it, and the
      consumer passes it without a value. */
  lemma PassOne<V>(parse: seq<byte> -> Option<V>, s: Ring<V>, b: seq<byte>, discard: bool)
    returns (acts: seq<Action>, t: Ring<V>)
    requires Inv(parse, s) && s.phase.Idle? && s.passed == |s.log| && Fits(|b|, s)
    requires discard || parse(b).None?
    ensures Runs(parse, s, acts, t) && Inv(parse, t) && AtLeast(acts, |b|)
    ensures t.phase.Idle? && t.passed == |t.log| && |t.mem| == |s.mem|
    ensures t.prod == s.prod + Size(|b|) && t.published == s.published
    ensures !discard ==> NoDiscards(acts)
  {
    hide Runs, Align, Start, Read, Write, ToLe, InMemory, Expected, ReadHeader, Word;
    var n := |s.log|;
    var a1, a2, a3 := Reserve(|b|, s.published, 0), Fill(n, b), Commit(n, discard);
    var s1 := Next(parse, s, a1);
    OneStep(parse, s, a1);
    ReserveMoves(parse, s, a1);
    var s2 := Next(parse, s1, a2);
    OneStep(parse, s1, a2);
    KernelMoves(parse, s1, a2);
    var s3 := Next(parse, s2, a3);
    OneStep(parse, s2, a3);
    KernelMoves(parse, s2, a3);
    hide Next;
    var s5;
    acts, s5 := PassNext(parse, s3);
    RunsAppend(parse, s, [a1], s1, [a2], s2);
    RunsAppend(parse, s, [a1] + [a2], s2, [a3], s3);
    RunsAppend(parse, s, [a1] + [a2] + [a3], s3, acts, s5);
    acts, t := [a1] + [a2] + [a3] + acts, s5;
    if !discard {
      ParseMoves(parse, s5);
      ParseKeeps(parse, s5);
      OneStep(parse, s5, Parse);
      t := Next(parse, s5, Parse);
      RunsAppend(parse, s, acts, s5, [Parse], t);
      acts := acts + [Parse];
    }
  }

  /** The consumer loads the position and passes a submitted record. */
  lemma PassNext<V>(parse: seq<byte> -> Option<V>, s: Ring<V>) returns (acts: seq<Action>, t: Ring<V>)
    requires Inv(parse, s) && s.phase.Idle? && s.passed < |s.log| && !s.log[s.passed].status.Busy?
    ensures acts == [Load, Header] && Runs(parse, s, acts, t) && Inv(parse, t)
    ensures t.log == s.log && t.passed == s.passed + 1
    ensures t.prod == s.prod && t.published == s.published && t.mem == s.mem
    ensures if s.log[s.passed].status.Discarded? then t.phase.Idle? else t.phase.Parsing?
  {
    hide Runs, Align, Start, Read, Write, ToLe, InMemory, Expected, ReadHeader, Word;
    var s1 := Next(parse, s, Load);
    StepKeepsInv(parse, s, Load);
    LoadMoves(parse, s);
    t := Next(parse, s1, Header);
    HeaderMoves(parse, s1);
    HeaderKeeps(parse, s1);
    TwoSteps(parse, s, Load, Header);
    acts := [Load, Header];
  }

  lemma ReserveMoves<V>(parse: seq<byte> -> Option<V>, s: Ring<V>, a: Action)
    requires Inv(parse, s) && Enabled(s, a) && a.Reserve?
    ensures var t := Next(parse, s, a);
            && t.prod == s.prod + Size(a.len) && t.published == s.published && |t.mem| == |s.mem|
            && t.phase == s.phase && t.passed == s.passed && t.delivered == s.delivered
            && |t.log| == |s.log| + 1 && t.log[|s.log|].len == a.len && t.log[|s.log|].status.Busy?
  {
  }

  predicate NoDiscards(acts: seq<Action>) {
    forall i :: 0 <= i < |acts| ==> !(acts[i].Commit? && acts[i].discard)
  }

  lemma HeaderKeeps<V>(parse: seq<byte> -> Option<V>, s: Ring<V>)
    requires Inv(parse, s) && s.phase.Loaded?
    ensures var t := Next(parse, s, Header);
            t.prod == s.prod && t.published == s.published && t.mem == s.mem
  {
  }

  lemma ParseKeeps<V>(parse: seq<byte> -> Option<V>, s: Ring<V>)
    requires Inv(parse, s) && s.phase.Parsing?
    ensures var t := Next(parse, s, Parse);
            t.prod == s.prod && t.published == s.published && t.mem == s.mem
  {
  }

  /** Bytes that can still be reserved. */
  function Room<V>(s: Ring<V>): int { |s.mem| - 1 - (s.prod - s.published) }

  /** Bytes that are left of a ring of `size` bytes when no other record of `n` bytes fits. */
  function Left(size: nat, n: nat): nat
    requires size > 0
  {
    if n < DISCARD then (size - 1) % Size(n) else size - 1
  }

  lemma OneLess(room: nat, n: nat)
    requires n < DISCARD && Size(n) <= room
    ensures Left(room + 1, n) == Left(room - Size(n) + 1, n)
  {
    ModuloUnique(room - Size(n), Size(n), (room - Size(n)) / Size(n), (room - Size(n)) % Size(n));
    ModuloUnique(room, Size(n), (room - Size(n)) / Size(n) + 1, (room - Size(n)) % Size(n));
  }

  lemma {:induction false} FillUntilStuck<V>(parse: seq<byte> -> Option<V>, s: Ring<V>, b: seq<byte>, discard: bool)
    returns (acts: seq<Action>, t: Ring<V>)
    requires Inv(parse, s) && s.phase.Idle? && s.passed == |s.log| && (discard || parse(b).None?)
    requires Room(s) >= 0
    ensures Runs(parse, s, acts, t) && Inv(parse, t) && AtLeast(acts, |b|) && (!discard ==> NoDiscards(acts))
    ensures t.passed == |t.log| && t.phase.Idle? && Stuck(parse, |b|, t)
    ensures Room(t) == Left(Room(s) + 1, |b|)
    decreases s.published + |s.mem| - s.prod
  {
    hide Runs, Align;
    if Fits(|b|, s) {
      var first, s' := PassOne(parse, s, b, discard);
      OneLess(Room(s), |b|);
      var more;
      more, t := FillUntilStuck(parse, s', b, discard);
      RunsAppend(parse, s, first, s', more, t);
      acts := first + more;
    } else {
      NoStep(parse, s);
      if |b| < DISCARD {
        ModuloUnique(Room(s), Size(|b|), 0, Room(s));
      }
      acts, t := [], s;
    }
  }

  /** A ring with nothing to read is quiet exactly if too little of it is left. */
  lemma FullIsQuiet<V(!new)>(parse: seq<byte> -> Option<V>, t: Ring<V>, m: nat)
    requires Inv(parse, t) && t.passed == |t.log| && t.phase.Idle? && m < DISCARD
    ensures Quiet(parse, m, t) <==> Room(t) < Size(m)
  {
    hide Inv, Quiet, Align;
    QuietIff(parse, m, t);
  }

  /** A ring of any size can be filled with any record that the parser rejects: the kernel just
      submits it again and again, until no other one fits. From then on nothing happens to
      reservations of `m` bytes or more if and only if less than such a record takes is left. */
  lemma StallIsReachable<V(!new)>(parse: seq<byte> -> Option<V>, size: nat, b: seq<byte>)
    returns (acts: seq<Action>, t: Ring<V>)
    requires size > 0 && size % 8 == 0 && parse(b).None?
    ensures Runs(parse, Init(size), acts, t) && AtLeast(acts, |b|) && NoDiscards(acts)
    ensures Inv(parse, t) && t.passed == |t.log| && Stuck(parse, |b|, t)
    ensures forall m: nat :: m < DISCARD ==> (Quiet(parse, m, t) <==> Left(size, |b|) < Size(m))
  {
    assert Inv(parse, Init<V>(size));
    acts, t := FillUntilStuck(parse, Init<V>(size), b, false);
    forall m: nat | m < DISCARD
      ensures Quiet(parse, m, t) <==> Left(size, |b|) < Size(m)
    {
      FullIsQuiet(parse, t, m);
    }
  }

  /** For any parser it can be filled with discarded records. */
  lemma DiscardsStall<V(!new)>(parse: seq<byte> -> Option<V>, size: nat, b: seq<byte>)
    returns (acts: seq<Action>, t: Ring<V>)
    requires size > 0 && size % 8 == 0
    ensures Runs(parse, Init(size), acts, t) && AtLeast(acts, |b|)
    ensures Inv(parse, t) && t.passed == |t.log| && Stuck(parse, |b|, t)
    ensures forall m: nat :: m < DISCARD ==> (Quiet(parse, m, t) <==> Left(size, |b|) < Size(m))
  {
    assert Inv(parse, Init<V>(size));
    acts, t := FillUntilStuck(parse, Init<V>(size), b, true);
    forall m: nat | m < DISCARD
      ensures Quiet(parse, m, t) <==> Left(size, |b|) < Size(m)
    {
      FullIsQuiet(parse, t, m);
    }
  }

  /** The parser of the event loop: a record that is dropped yields no value. */
  function ParseEvent(slice: seq<byte>): Option<(Wire.Event, Wire.Variant)> {
    var p := Wire.Parse(slice);
    if p.Got? then Some((p.event, p.variant)) else None
  }

  /** Size of the scratch record that the program reserves and discards at every exec, and the
      least that it ever reserves. */
  const SCRATCH: nat := 8

  /** Scratch records alone stop a ring of any size for good: nothing the program reserves fits. */
  lemma ScratchStalls(size: nat, b: seq<byte>)
    returns (acts: seq<Action>, t: Ring<(Wire.Event, Wire.Variant)>)
    requires size > 0 && size % 8 == 0 && |b| == SCRATCH
    ensures Runs(ParseEvent, Init(size), acts, t) && AtLeast(acts, SCRATCH) && Inv(ParseEvent, t)
    ensures Quiet(ParseEvent, SCRATCH, t)
  {
    hide Runs, Inv, Quiet;
    acts, t := DiscardsStall(ParseEvent, size, b);
  }

  /** Events that the reader drops, such as binding a Unix socket to a name, fill a ring of any
      size. Whether it then stops depends on what is left. The sender falls back to a bare header
      when a record does not fit, and that yields a value and frees the ring. So the ring is
      stopped for all records that are sent if and only if a bare header does not fit either. */
  lemma DroppedEventsStall(e: Wire.Event, k: Wire.Kernel, record: seq<byte>, size: nat)
    returns (acts: seq<Action>, t: Ring<(Wire.Event, Wire.Variant)>)
    requires size > 0 && size % 8 == 0
    requires Wire.Valid(e) && Wire.Capacity(e.size).Some? && |k.area| == Wire.Capacity(e.size).value && |k.pad| == 4
    requires -Wire.I32 <= k.result < Wire.I32 && Wire.Sized(e, Wire.Capacity(e.size).value, k) == Some(record)
    requires Wire.Drops(Wire.Recorded(e, k), Wire.Body(e, k))
    ensures Runs(ParseEvent, Init(size), acts, t) && AtLeast(acts, |record|) && NoDiscards(acts)
    ensures Inv(ParseEvent, t) && t.passed == |t.log| && Stuck(ParseEvent, |record|, t)
    ensures Quiet(ParseEvent, Wire.HEADER, t) <==> Left(size, |record|) < 48
  {
    hide Runs, Inv, Stuck, Quiet, Wire.Drops, Wire.Parse, Wire.Sized, Wire.Recorded, Wire.Body;
    Wire.RecordRoundTrip(e, k, record);
    acts, t := StallIsReachable(ParseEvent, size, record);
  }

  const RING: nat := 0x800_0000

  /** In the ring of the program, 207 bytes are left after dropped records of 296 bytes, the least
      that carry a body. So a bare header still fits, and the ring has not stopped. */
  lemma BodiesLeaveRoom(record: seq<byte>)
    returns (acts: seq<Action>, t: Ring<(Wire.Event, Wire.Variant)>)
    requires |record| == Wire.HEADER + 256 && ParseEvent(record).None?
    ensures Runs(ParseEvent, Init(RING), acts, t) && AtLeast(acts, |record|) && NoDiscards(acts)
    ensures Left(RING, |record|) == 207 && !Quiet(ParseEvent, Wire.HEADER, t)
  {
    hide Runs, Inv, Stuck, Quiet, ParseEvent;
    acts, t := StallIsReachable(ParseEvent, RING, record);
  }
}
