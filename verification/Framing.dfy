/** Cutting a byte stream into length-delimited frames.

    Every layer of the recorder re-frames a stream that arrives in arbitrary
    chunks. This module defines what the frames of a stream are, independently
    of how it arrives, and proves that the answer does not depend on chunking.
 */
module Framing {
  import opened Bytes

  /** Given the beginning of a stream, the total length of its first frame, or
      `None` while the bytes do not determine it. */
  type Sizer = seq<byte> -> Option<pos>

  /** Once a size is known, more bytes do not change it. */
  ghost predicate PrefixStable(size: Sizer) {
    forall s: seq<byte>, t: seq<byte> :: size(s).Some? ==> size(s + t) == size(s)
  }

  predicate HasFrame(size: Sizer, s: seq<byte>) {
    size(s).Some? && size(s).value <= |s|
  }

  /** The complete frames at the front of `s`, in order. */
  function Frames(size: Sizer, s: seq<byte>): seq<seq<byte>>
    decreases |s|
  {
    if HasFrame(size, s) then
      [s[..size(s).value]] + Frames(size, s[size(s).value..])
    else
      []
  }

  /** What is left of `s` after its complete frames. */
  function Residual(size: Sizer, s: seq<byte>): seq<byte>
    decreases |s|
  {
    if HasFrame(size, s) then Residual(size, s[size(s).value..]) else s
  }

  /** Framing loses nothing, and stops only where no frame is complete. */
  lemma {:induction false} FramesConserve(size: Sizer, s: seq<byte>)
    ensures Flatten(Frames(size, s)) + Residual(size, s) == s
    ensures !HasFrame(size, Residual(size, s))
    decreases |s|
  {
    if HasFrame(size, s) {
      var n := size(s).value;
      FramesConserve(size, s[n..]);
      assert Frames(size, s)[1..] == Frames(size, s[n..]);
      assert s == s[..n] + s[n..];
    }
  }

  /** A stream that is one whole frame. */
  lemma SingleFrame(size: Sizer, s: seq<byte>)
    requires size(s) == Some(|s|)
    ensures Frames(size, s) == [s] && Residual(size, s) == []
  {
    assert s[..|s|] == s && s[|s|..] == [];
    FramesConserve(size, []);
    assert Flatten(Frames(size, [])) + Residual(size, []) == [];
  }

  /** Chunk independence: framing `s` and then what is left of it together with
      `t` gives the frames of `s + t`. */
  lemma {:induction false} FramesAppend(size: Sizer, s: seq<byte>, t: seq<byte>)
    requires PrefixStable(size)
    ensures Frames(size, s + t) == Frames(size, s) + Frames(size, Residual(size, s) + t)
    ensures Residual(size, s + t) == Residual(size, Residual(size, s) + t)
    decreases |s|
  {
    if HasFrame(size, s) {
      var n := size(s).value;
      assert size(s + t) == size(s);
      assert (s + t)[..n] == s[..n];
      assert (s + t)[n..] == s[n..] + t;
      FramesAppend(size, s[n..], t);
    }
  }

  ghost predicate AllFrames(size: Sizer, fs: seq<seq<byte>>) {
    forall i :: 0 <= i < |fs| ==> size(fs[i]) == Some(|fs[i]|)
  }

  lemma AllFramesAppend(size: Sizer, a: seq<seq<byte>>, b: seq<seq<byte>>)
    requires AllFrames(size, a) && AllFrames(size, b)
    ensures AllFrames(size, a + b)
  {
  }

  /** The framing of a stream is unique: whole frames glued together, followed by
      an incomplete tail, come back as exactly those frames and that tail. */
  lemma {:induction false} FramesOfFlatten(size: Sizer, fs: seq<seq<byte>>, tail: seq<byte>)
    requires PrefixStable(size) && AllFrames(size, fs) && !HasFrame(size, tail)
    ensures Frames(size, Flatten(fs) + tail) == fs
    ensures Residual(size, Flatten(fs) + tail) == tail
  {
    if fs == [] {
      assert Flatten(fs) + tail == tail;
    } else {
      var s := Flatten(fs) + tail;
      var rest := Flatten(fs[1..]) + tail;
      assert s == fs[0] + rest;
      assert size(fs[0] + rest) == size(fs[0]);
      assert s[|fs[0]|..] == rest && s[..|fs[0]|] == fs[0];
      FramesOfFlatten(size, fs[1..], tail);
    }
  }

  // ----------------------------------------------------------- two directions

  /** A direction (`true` is incoming) and the bytes that travelled in it. */
  type Event = (bool, seq<byte>)

  function Tag(incoming: bool, fs: seq<seq<byte>>): (es: seq<Event>)
    ensures |es| == |fs| && forall i :: 0 <= i < |fs| ==> es[i] == (incoming, fs[i])
  {
    seq(|fs|, i requires 0 <= i < |fs| => (incoming, fs[i]))
  }

  /** One buffer per direction. */
  datatype Both = Both(incoming: seq<byte>, outgoing: seq<byte>) {
    function Of(d: bool): seq<byte> { if d then incoming else outgoing }

    function With(d: bool, s: seq<byte>): (r: Both)
      ensures r.Of(d) == s && r.Of(!d) == Of(!d)
    {
      if d then Both(s, outgoing) else Both(incoming, s)
    }
  }

  /** The frames that complete over a run of chunks in both directions, in the order
      in which they complete. */
  function Events(size: Sizer, acc: Both, chunks: seq<Event>): seq<Event>
    decreases chunks
  {
    if chunks == [] then [] else
    var (d, b) := chunks[0];
    var s := acc.Of(d) + b;
    Tag(d, Frames(size, s)) + Events(size, acc.With(d, Residual(size, s)), chunks[1..])
  }

  /** Everything sent in one direction. */
  function Stream(d: bool, chunks: seq<Event>): seq<byte> {
    if chunks == [] then [] else
    (if chunks[0].0 == d then chunks[0].1 else []) + Stream(d, chunks[1..])
  }

  function Select(d: bool, es: seq<Event>): seq<seq<byte>> {
    if es == [] then [] else
    (if es[0].0 == d then [es[0].1] else []) + Select(d, es[1..])
  }

  lemma {:induction false} SelectAppend(d: bool, a: seq<Event>, b: seq<Event>)
    ensures Select(d, a + b) == Select(d, a) + Select(d, b)
  {
    if a == [] {
      assert a + b == b;
    } else {
      assert (a + b)[1..] == a[1..] + b;
      SelectAppend(d, a[1..], b);
    }
  }

  lemma {:induction false} SelectTag(d: bool, incoming: bool, fs: seq<seq<byte>>)
    ensures Select(d, Tag(incoming, fs)) == if d == incoming then fs else []
  {
    if fs != [] {
      assert Tag(incoming, fs)[1..] == Tag(incoming, fs[1..]);
      SelectTag(d, incoming, fs[1..]);
    }
  }

  lemma EventsFirst(size: Sizer, d: bool, acc: Both, chunks: seq<Event>)
    requires chunks != []
    ensures var (e, b) := chunks[0];
            var s := acc.Of(e) + b;
            Select(d, Events(size, acc, chunks))
            == (if d == e then Frames(size, s) else [])
               + Select(d, Events(size, acc.With(e, Residual(size, s)), chunks[1..]))
  {
    var (e, b) := chunks[0];
    var s := acc.Of(e) + b;
    SelectTag(d, e, Frames(size, s));
    SelectAppend(d, Tag(e, Frames(size, s)), Events(size, acc.With(e, Residual(size, s)), chunks[1..]));
  }

  lemma StreamFirst(d: bool, a: seq<byte>, chunks: seq<Event>)
    requires chunks != []
    ensures a + Stream(d, chunks)
            == (if chunks[0].0 == d then a + chunks[0].1 else a) + Stream(d, chunks[1..])
  {
    var rest := Stream(d, chunks[1..]);
    if chunks[0].0 == d {
      assert a + (chunks[0].1 + rest) == a + chunks[0].1 + rest;
    } else {
      assert [] + rest == rest;
    }
  }

  /** Per direction, the frames seen are the frames of the whole stream, for every
      chunking and every interleaving. */
  lemma {:induction false} EventsAreFrames(size: Sizer, d: bool, acc: Both, chunks: seq<Event>)
    requires PrefixStable(size) && !HasFrame(size, acc.Of(d))
    ensures Select(d, Events(size, acc, chunks)) == Frames(size, acc.Of(d) + Stream(d, chunks))
    decreases chunks
  {
    if chunks == [] {
      assert acc.Of(d) + [] == acc.Of(d);
    } else {
      var (e, b) := chunks[0];
      var s := acc.Of(e) + b;
      var acc' := acc.With(e, Residual(size, s));
      EventsFirst(size, d, acc, chunks);
      StreamFirst(d, acc.Of(d), chunks);
      if d == e {
        FramesConserve(size, s);
        FramesAppend(size, s, Stream(d, chunks[1..]));
      } else {
        assert acc'.Of(d) == acc.Of(d);
      }
      EventsAreFrames(size, d, acc', chunks[1..]);
    }
  }

  /** If one side sent whole frames glued together, exactly those frames are seen,
      whatever the other side did. */
  lemma EventsOfFlatten(size: Sizer, d: bool, chunks: seq<Event>, fs: seq<seq<byte>>)
    requires PrefixStable(size) && !HasFrame(size, []) && AllFrames(size, fs)
    requires Stream(d, chunks) == Flatten(fs)
    ensures Select(d, Events(size, Both([], []), chunks)) == fs
  {
    FramesOfFlatten(size, fs, []);
    assert Flatten(fs) + [] == [] + Stream(d, chunks);
    EventsAreFrames(size, d, Both([], []), chunks);
  }

  lemma {:induction false} StreamSnoc(d: bool, chunks: seq<Event>, e: bool, b: seq<byte>)
    ensures Stream(d, chunks + [(e, b)]) == Stream(d, chunks) + if e == d then b else []
    decreases chunks
  {
    var all, more := chunks + [(e, b)], if e == d then b else [];
    if chunks == [] {
      assert all[1..] == [];
      assert more + [] == [] + more == more;
    } else {
      assert all[1..] == chunks[1..] + [(e, b)];
      StreamSnoc(d, chunks[1..], e, b);
      Associate(if chunks[0].0 == d then chunks[0].1 else [], Stream(d, chunks[1..]), more);
    }
  }

  lemma {:induction false} StreamPrefix(d: bool, chunks: seq<Event>, k: nat)
    requires k <= |chunks|
    ensures Stream(d, chunks[..k]) <= Stream(d, chunks)
    decreases |chunks|
  {
    if k == |chunks| {
      assert chunks[..k] == chunks;
    } else {
      var n := |chunks| - 1;
      assert chunks == chunks[..n] + [(chunks[n].0, chunks[n].1)];
      StreamSnoc(d, chunks[..n], chunks[n].0, chunks[n].1);
      StreamPrefix(d, chunks[..n], k);
      assert chunks[..n][..k] == chunks[..k];
    }
  }

  // -------------------------------------------------------------- glued pieces

  /** The bytes are the beginning of the glued pieces, or these and more. */
  predicate Follows(fs: seq<seq<byte>>, s: seq<byte>) { s <= Flatten(fs) || Flatten(fs) <= s }

  /** Bytes received so far, cut at the last complete piece. */
  lemma {:induction false} SplitPieces(fs: seq<seq<byte>>, s: seq<byte>) returns (k: nat, tail: seq<byte>)
    requires Follows(fs, s)
    ensures k <= |fs| && s == Flatten(fs[..k]) + tail
    ensures k < |fs| ==> |tail| < |fs[k]| && tail <= fs[k]
  {
    if fs == [] || |s| < |fs[0]| {
      k, tail := 0, s;
      assert fs[..0] == [];
    } else {
      var s' := s[|fs[0]|..];
      assert s == fs[0] + s' by { assert s[..|fs[0]|] == fs[0]; }
      assert Follows(fs[1..], s') by {
        if s <= Flatten(fs) {
          assert s' == Flatten(fs)[|fs[0]|..|s|];
        } else {
          assert Flatten(fs[1..]) == s[|fs[0]|..|Flatten(fs)|];
        }
      }
      k, tail := SplitPieces(fs[1..], s');
      assert fs[..k + 1][0] == fs[0] && fs[..k + 1][1..] == fs[1..][..k];
      Associate(fs[0], Flatten(fs[1..][..k]), tail);
      k := k + 1;
    }
  }
}
