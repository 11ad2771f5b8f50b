/** The shared message accumulator, and the loop that drains it for gossip messages. */
module Accumulator {
  import opened Bytes
  import opened Framing
  import Varint

  class State {
    var pos: nat
    var acc: seq<byte>

    ghost predicate Valid()
      reads this
    {
      pos <= |acc|
    }

    /** The bytes not yet handed out; a consumed prefix may still be in the buffer. */
    ghost function Unread(): seq<byte>
      requires Valid()
      reads this
    {
      acc[pos..]
    }

    constructor ()
      ensures Valid() && Unread() == []
    {
      pos, acc := 0, [];
    }

    /** Buffers the bytes, unless nothing is buffered and they are exactly one message. */
    method Extend(size: Sizer, bytes: seq<byte>) returns (buffered: bool)
      requires Valid()
      modifies this`acc
      ensures Valid()
      ensures !buffered ==> old(Unread()) == [] && size(bytes) == Some(|bytes|) && acc == old(acc)
      ensures buffered ==> Unread() == old(Unread()) + bytes
    {
      if acc == [] && size(bytes) == Some(|bytes|) {
        return false;
      }
      acc := acc + bytes;
      buffered := true;
    }

    method DropBuffer()
      requires Valid()
      modifies this
      ensures Valid() && pos == 0 && Unread() == old(Unread())
    {
      acc := acc[pos..];
      pos := 0;
    }

    /** The next complete message, if there is one. */
    method NextMsg(size: Sizer) returns (m: Option<seq<byte>>)
      requires Valid()
      modifies this
      ensures Valid()
      ensures var u := old(Unread());
              if HasFrame(size, u) then m == Some(u[..size(u).value]) && Unread() == u[size(u).value..]
              else m == None && Unread() == u
    {
      if acc == [] || |acc| == pos {
        ghost var u := Unread();
        DropBuffer();
        assert u == [];
        if size([]).Some? {
          assert size([]).value > |u|;
        }
        return None;
      }
      var bytes := acc[pos..];
      var n := size(bytes);
      if n.None? {
        return None;
      }
      if |bytes| >= n.value {
        var newPos := |acc| - |bytes| + n.value;
        m := Some(acc[pos..newPos]);
        assert acc[pos..newPos] == bytes[..n.value] && acc[newPos..] == bytes[n.value..];
        pos := newPos;
      } else {
        DropBuffer();
        m := None;
      }
    }

    /** One call with new bytes hands out exactly the messages that are now complete. */
    method OnData(size: Sizer, bytes: seq<byte>) returns (msgs: seq<seq<byte>>)
      requires Valid() && !HasFrame(size, Unread())
      modifies this
      ensures Valid() && !HasFrame(size, Unread())
      ensures msgs == Frames(size, old(Unread()) + bytes)
      ensures Unread() == Residual(size, old(Unread()) + bytes)
    {
      ghost var s := Unread() + bytes;
      FramesConserve(size, s);
      var buffered := Extend(size, bytes);
      if !buffered {
        assert s == bytes;
        SingleFrame(size, bytes);
        return [bytes];
      }
      msgs := [];
      while true
        invariant Valid()
        invariant Frames(size, s) == msgs + Frames(size, Unread())
        invariant Residual(size, s) == Residual(size, Unread())
        decreases |Unread()|
      {
        var m := NextMsg(size);
        if m.None? {
          return;
        }
        msgs := msgs + [m.value];
      }
    }
  }

  /** What a sequence of calls hands out. */
  function Drained(size: Sizer, unread: seq<byte>, chunks: seq<seq<byte>>): seq<seq<byte>>
    decreases chunks
  {
    if chunks == [] then [] else
    Frames(size, unread + chunks[0]) + Drained(size, Residual(size, unread + chunks[0]), chunks[1..])
  }

  function Left(size: Sizer, unread: seq<byte>, chunks: seq<seq<byte>>): seq<byte>
    decreases chunks
  {
    if chunks == [] then unread else Left(size, Residual(size, unread + chunks[0]), chunks[1..])
  }

  /** For every chunking, the messages handed out are the messages of the whole input, and
      what stays behind is its residue; in particular the short cut for a chunk that is
      exactly one message is not observable. */
  lemma {:induction false} ChunkingIrrelevant(size: Sizer, unread: seq<byte>, chunks: seq<seq<byte>>)
    requires PrefixStable(size) && !HasFrame(size, unread)
    ensures Drained(size, unread, chunks) == Frames(size, unread + Flatten(chunks))
    ensures Left(size, unread, chunks) == Residual(size, unread + Flatten(chunks))
    decreases chunks
  {
    if chunks == [] {
      assert unread + Flatten(chunks) == unread;
    } else {
      var s := unread + chunks[0];
      assert unread + Flatten(chunks) == s + Flatten(chunks[1..]);
      FramesConserve(size, s);
      FramesAppend(size, s, Flatten(chunks[1..]));
      ChunkingIrrelevant(size, Residual(size, s), chunks[1..]);
    }
  }

  // ------------------------------------------------------------- gossip messages

  /** The protobuf length prefix: up to ten bytes, the tenth at most 1. */
  function Delimiter(s: seq<byte>, i: nat): (r: Option<(nat, nat)>)
    ensures r.Some? ==> 1 <= r.value.1 <= |s|
    decreases |s|
  {
    if s == [] then None else
    var b: int := s[0];
    if i == 9 then (if b < 2 then Some((b, 1)) else None) else
    if b < 128 then Some((b, 1)) else
    var (v, n) :- Delimiter(s[1..], i + 1);
    Some((b - 128 + 128 * v, n + 1))
  }

  function GossipSize(s: seq<byte>): Option<pos> {
    var (len, n) :- Delimiter(s, 0);
    Some(n + len)
  }

  lemma {:induction false} DelimiterStable(s: seq<byte>, t: seq<byte>, i: nat)
    requires Delimiter(s, i).Some?
    ensures Delimiter(s + t, i) == Delimiter(s, i)
    decreases |s|
  {
    if s[0] >= 128 && i != 9 {
      assert (s + t)[1..] == s[1..] + t;
      DelimiterStable(s[1..], t, i + 1);
    }
  }

  lemma {:induction false} DelimiterReads(n: nat, i: nat, t: seq<byte>)
    requires i <= 9 && n < Varint.Pow128(9 - i) * 2
    ensures Delimiter(Varint.Encode(n) + t, i) == Some((n, |Varint.Encode(n)|))
    decreases n
  {
    if n >= 128 {
      assert i < 9 by {
        assert Varint.Pow128(0) == 1;
      }
      assert (Varint.Encode(n) + t)[1..] == Varint.Encode(n / 128) + t;
      assert Varint.Pow128(9 - i) == 128 * Varint.Pow128(9 - (i + 1));
      DelimiterReads(n / 128, i + 1, t);
    }
  }

  /** A length never takes more than 64 bits. */
  lemma {:induction false} DelimiterBound(s: seq<byte>, i: nat)
    requires Delimiter(s, i).Some? && i <= 9
    ensures Delimiter(s, i).value.0 < Varint.Pow128(9 - i) * 2 && i + Delimiter(s, i).value.1 <= 10
    decreases |s|
  {
    if i == 9 {
      assert Varint.Pow128(0) == 1;
    } else {
      assert Varint.Pow128(9 - i) == 128 * Varint.Pow128(9 - (i + 1));
      if s[0] >= 128 {
        DelimiterBound(s[1..], i + 1);
      }
    }
  }

  /** A gossip message as a peer writes it, behind its length, is one message. */
  lemma WrittenGossip(message: seq<byte>, t: seq<byte>)
    requires |message| < U64
    ensures var f := Varint.Encode(|message|) + message;
            GossipSize(f + t) == Some(|f|) && (f + t)[|f| - |message|..|f|] == message
  {
    hide Varint.Encode, Delimiter, Varint.Pow128;
    var prefix := Varint.Encode(|message|);
    TwiceNine();
    DelimiterReads(|message|, 0, message + t);
    assert prefix + message + t == prefix + (message + t);
  }

  lemma TwiceNine()
    ensures Varint.Pow128(9) * 2 == U64
  {
    assert Varint.Pow128(3) == 0x20_0000 by { assert Varint.Pow128(1) == 128 && Varint.Pow128(2) == 16384; }
    assert Varint.Pow128(6) == 0x400_0000_0000 by {
      assert Varint.Pow128(4) == 0x1000_0000 && Varint.Pow128(5) == 0x8_0000_0000;
    }
    assert Varint.Pow128(9) == 0x8000_0000_0000_0000 by {
      assert Varint.Pow128(7) == 0x2_0000_0000_0000 && Varint.Pow128(8) == 0x100_0000_0000_0000;
    }
  }

  /** Gossip framing meets the conditions of chunk independence. */
  lemma GossipSizeStable()
    ensures PrefixStable(GossipSize) && !HasFrame(GossipSize, [])
  {
    forall s: seq<byte>, t: seq<byte> | GossipSize(s).Some?
      ensures GossipSize(s + t) == GossipSize(s)
    {
      DelimiterStable(s, t, 0);
    }
  }
}
