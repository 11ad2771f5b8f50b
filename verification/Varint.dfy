/** Unsigned LEB128 numbers, as the multiformats varint decoder reads them: at most ten bytes,
    no trailing zero byte, the value truncated to 64 bits. */
module Varint {
  import opened Bytes

  /** Value and number of bytes of the number at the front of `s`, which starts at byte `i`
      of its encoding. Every decoding error is `None`. */
  function Raw(s: seq<byte>, i: nat): (r: Option<(nat, nat)>)
    ensures r.Some? ==> 1 <= r.value.1 <= |s|
    decreases |s|
  {
    if s == [] then None else
    var b: int := s[0];
    if b < 128 then
      if b == 0 && i > 0 then None else Some((b, 1))
    else if i == 9 then None
    else
      var (v, n) :- Raw(s[1..], i + 1);
      Some((b - 128 + 128 * v, n + 1))
  }

  function Decode(s: seq<byte>): (r: Option<(nat, nat)>)
    ensures r.Some? ==> r.value.0 < U64 && 1 <= r.value.1 <= |s|
  {
    var (v, n) :- Raw(s, 0);
    Some((v % U64, n))
  }

  lemma {:induction false} RawStable(s: seq<byte>, t: seq<byte>, i: nat)
    requires Raw(s, i).Some?
    ensures Raw(s + t, i) == Raw(s, i)
    decreases |s|
  {
    if s[0] >= 128 {
      assert (s + t)[1..] == s[1..] + t;
      RawStable(s[1..], t, i + 1);
    }
  }

  /** A decoded number does not depend on what follows it. */
  lemma DecodeStable(s: seq<byte>, t: seq<byte>)
    requires Decode(s).Some?
    ensures Decode(s + t) == Decode(s)
  {
    RawStable(s, t, 0);
  }

  /** Nor on being cut off behind it. */
  lemma {:induction false} RawLocal(s: seq<byte>, i: nat, n: nat)
    requires Raw(s, i).Some? && Raw(s, i).value.1 <= n <= |s|
    ensures Raw(s[..n], i) == Raw(s, i)
    decreases |s|
  {
    if s[0] >= 128 {
      RawLocal(s[1..], i + 1, n - 1);
      assert s[..n][1..] == s[1..][..n - 1];
    }
  }

  /** No number takes more than ten bytes. */
  lemma {:induction false} AtMostTen(s: seq<byte>, i: nat)
    requires Raw(s, i).Some? && i <= 9
    ensures i + Raw(s, i).value.1 <= 10
    decreases |s|
  {
    if s[0] >= 128 {
      AtMostTen(s[1..], i + 1);
    }
  }

  function Encode(n: nat): (s: seq<byte>)
    ensures s != []
  {
    if n < 128 then [n] else [n % 128 + 128] + Encode(n / 128)
  }

  function Pow128(k: nat): (p: nat)
    ensures p >= 1
  {
    if k == 0 then 1 else 128 * Pow128(k - 1)
  }

  lemma {:induction false} RawRoundTrip(n: nat, i: nat, t: seq<byte>)
    requires i <= 9 && n < Pow128(10 - i) && (i > 0 ==> n > 0)
    ensures Raw(Encode(n) + t, i) == Some((n, |Encode(n)|))
    decreases n
  {
    if n >= 128 {
      assert i < 9 by {
        assert Pow128(1) == 128 * Pow128(0);
      }
      assert (Encode(n) + t)[1..] == Encode(n / 128) + t;
      assert Pow128(10 - i) == 128 * Pow128(10 - (i + 1));
      RawRoundTrip(n / 128, i + 1, t);
    }
  }

  lemma U64Fits()
    ensures U64 < Pow128(10)
  {
    assert Pow128(2) == 16384 by { assert Pow128(1) == 128; }
    assert Pow128(4) == 0x1000_0000 by { assert Pow128(3) == 128 * Pow128(2); }
    assert Pow128(6) == 0x400_0000_0000 by { assert Pow128(5) == 128 * Pow128(4); }
    assert Pow128(8) == 0x100_0000_0000_0000 by { assert Pow128(7) == 128 * Pow128(6); }
    assert Pow128(10) == 0x40_0000_0000_0000_0000 by { assert Pow128(9) == 128 * Pow128(8); }
  }

  /** Every 64-bit number comes back from its encoding, with anything behind it. */
  lemma RoundTrip(n: nat, t: seq<byte>)
    requires n < U64
    ensures Decode(Encode(n) + t) == Some((n, |Encode(n)|))
  {
    hide Raw, Encode, Pow128;
    U64Fits();
    RawRoundTrip(n, 0, t);
  }
}
