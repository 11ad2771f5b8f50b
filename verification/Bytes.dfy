/** Byte strings, fixed-width numbers, bit masks and a rule about runs, shared by every layer. */
module Bytes {

  type byte = b: int | 0 <= b < 256

  /** A length that is never zero. */
  type pos = n: int | 1 <= n witness 1

  datatype Option<+T> = None | Some(value: T) {
    predicate IsFailure() { None? }

    function PropagateFailure<U>(): Option<U>
      requires None?
    {
      None
    }

    function Extract(): T
      requires Some?
    {
      value
    }
  }

  /** The chunks glued together, in order. */
  function Flatten(chunks: seq<seq<byte>>): seq<byte> {
    if chunks == [] then [] else chunks[0] + Flatten(chunks[1..])
  }

  lemma Associate<T>(a: seq<T>, b: seq<T>, c: seq<T>)
    ensures a + (b + c) == a + b + c
  {
  }

  lemma {:induction false} FlattenAppend(a: seq<seq<byte>>, b: seq<seq<byte>>)
    ensures Flatten(a + b) == Flatten(a) + Flatten(b)
  {
    if a == [] {
      assert a + b == b;
    } else {
      FlattenAppend(a[1..], b);
      assert (a + b)[1..] == a[1..] + b;
      assert a[0] + (Flatten(a[1..]) + Flatten(b)) == a[0] + Flatten(a[1..]) + Flatten(b);
    }
  }

  lemma FlattenSingle(c: seq<byte>)
    ensures Flatten([c]) == c
  {
    assert Flatten([c]) == c + Flatten([]);
  }

  function Pow256(k: nat): (p: nat)
    ensures p >= 1
  {
    if k == 0 then 1 else 256 * Pow256(k - 1)
  }

  const U32: nat := 0x1_0000_0000
  const U64: nat := 0x1_0000_0000_0000_0000

  /** The sizes of the integer widths in use. */
  lemma Pow256Values()
    ensures Pow256(2) == 0x1_0000 && Pow256(4) == U32 && Pow256(8) == U64
  {
    assert Pow256(2) == 0x1_0000 by { assert Pow256(1) == 256; }
    assert Pow256(4) == 0x1_0000_0000 by { assert Pow256(3) == 256 * Pow256(2); }
    assert Pow256(6) == 0x1_0000_0000_0000 by { assert Pow256(5) == 256 * Pow256(4); }
    assert Pow256(8) == 0x1_0000_0000_0000_0000 by { assert Pow256(7) == 256 * Pow256(6); }
  }

  /** Little-endian value of a byte string. */
  function FromLe(s: seq<byte>): nat {
    if s == [] then 0 else s[0] + 256 * FromLe(s[1..])
  }

  /** The low `k` bytes of `n`, little-endian. */
  function ToLe(n: nat, k: nat): (s: seq<byte>)
    ensures |s| == k
  {
    if k == 0 then [] else [n % 256] + ToLe(n / 256, k - 1)
  }

  lemma {:induction false} LeRoundTrip(n: nat, k: nat)
    requires n < Pow256(k)
    ensures FromLe(ToLe(n, k)) == n
  {
    if k > 0 {
      assert n / 256 < Pow256(k - 1);
      LeRoundTrip(n / 256, k - 1);
      assert ToLe(n, k)[1..] == ToLe(n / 256, k - 1);
    }
  }

  lemma {:induction false} FromLeBound(s: seq<byte>)
    ensures FromLe(s) < Pow256(|s|)
  {
    if s != [] {
      FromLeBound(s[1..]);
    }
  }

  /** The only `|s|`-byte encoding of `FromLe(s)` is `s` itself. */
  lemma {:induction false} LeUnique(s: seq<byte>)
    ensures ToLe(FromLe(s), |s|) == s
  {
    if s != [] {
      LeUnique(s[1..]);
      assert FromLe(s) % 256 == s[0] && FromLe(s) / 256 == FromLe(s[1..]);
    }
  }

  function Reverse(s: seq<byte>): (r: seq<byte>)
    ensures |r| == |s|
    ensures forall i :: 0 <= i < |s| ==> r[i] == s[|s| - 1 - i]
  {
    seq(|s|, i requires 0 <= i < |s| => s[|s| - 1 - i])
  }

  function FromBe(s: seq<byte>): nat { FromLe(Reverse(s)) }

  function ToBe(n: nat, k: nat): (s: seq<byte>)
    ensures |s| == k
  {
    Reverse(ToLe(n, k))
  }

  lemma BeRoundTrip(n: nat, k: nat)
    requires n < Pow256(k)
    ensures FromBe(ToBe(n, k)) == n
  {
    LeRoundTrip(n, k);
    assert Reverse(ToBe(n, k)) == ToLe(n, k);
  }

  lemma BeUnique(s: seq<byte>)
    ensures ToBe(FromBe(s), |s|) == s
  {
    LeUnique(Reverse(s));
  }

  function Pow2(k: nat): (p: nat)
    ensures p >= 1
  {
    if k == 0 then 1 else 2 * Pow2(k - 1)
  }

  /** Bitwise and of two natural numbers. */
  function And(a: nat, b: nat): nat
    decreases a
  {
    if a == 0 then 0 else 2 * And(a / 2, b / 2) + (if a % 2 == 1 && b % 2 == 1 then 1 else 0)
  }

  /** Masking with 2^k - 1 keeps the remainder modulo 2^k. */
  lemma {:induction false} AndMask(a: nat, k: nat)
    ensures And(a, Pow2(k) - 1) == a % Pow2(k)
    decreases k
  {
    if k == 0 {
      AndZero(a);
      ModuloUnique(a, 1, a, 0);
    } else {
      var p := Pow2(k - 1);
      assert Pow2(k) == 2 * p;
      AndOdd(a, p);
      AndMask(a / 2, k - 1);
      HalfModulo(a, p);
    }
  }

  lemma AndOdd(a: nat, p: nat)
    requires p >= 1
    ensures And(a, 2 * p - 1) == 2 * And(a / 2, p - 1) + a % 2
  {
    var b := 2 * p - 1;
    assert b / 2 == p - 1 && b % 2 == 1;
  }

  lemma {:induction false} AndZero(a: nat)
    ensures And(a, 0) == 0
  {
    if a > 0 {
      AndZero(a / 2);
    }
  }

  lemma HalfModulo(a: nat, p: nat)
    requires p >= 1
    ensures 2 * ((a / 2) % p) + a % 2 == a % (2 * p)
  {
    var q := (a / 2) / p;
    var m := (a / 2) % p;
    assert a / 2 == p * q + m;
    assert a == (2 * p) * q + (2 * m + a % 2);
    ModuloUnique(a, 2 * p, q, 2 * m + a % 2);
  }

  lemma MulAtLeast(d: int, k: int)
    requires d > 0 && k >= 1
    ensures d * k >= d
  {
  }

  lemma Distribute(d: int, a: int, b: int)
    ensures d * (a - b) == d * a - d * b
  {
  }

  lemma ModuloUnique(a: int, d: int, q: int, m: int)
    requires d > 0 && 0 <= m < d && a == d * q + m
    ensures a % d == m && a / d == q
  {
    QuotientUnique(d, q, m, a / d, a % d);
  }

  lemma QuotientUnique(d: int, q: int, m: int, q': int, m': int)
    requires d > 0 && 0 <= m < d && 0 <= m' < d && d * q + m == d * q' + m'
    ensures q == q' && m == m'
  {
    if q > q' {
      Distribute(d, q, q');
      MulAtLeast(d, q - q');
    } else if q < q' {
      Distribute(d, q', q);
      MulAtLeast(d, q' - q);
    }
  }

  // ------------------------------------------------------------------------ runs

  /** A property that holds at first, and after each step exactly if the step is not bad, holds
      throughout exactly if no step is bad. */
  lemma {:induction false} Chain(good: seq<bool>, bad: seq<bool>)
    requires |good| == |bad| + 1 && good[0]
    requires forall k: nat :: k < |bad| && good[k] ==> (good[k + 1] <==> !bad[k])
    ensures (forall k: nat :: k < |good| ==> good[k]) <==> forall k: nat :: k < |bad| ==> !bad[k]
  {
    if forall k: nat :: k < |good| ==> good[k] {
      forall k: nat | k < |bad|
        ensures !bad[k]
      {
        assert good[k] && good[k + 1];
      }
    }
    if forall k: nat :: k < |bad| ==> !bad[k] {
      forall k: nat | k < |good|
        ensures good[k]
      {
        GoodSoFar(good, bad, k);
      }
    }
  }

  lemma {:induction false} GoodSoFar(good: seq<bool>, bad: seq<bool>, k: nat)
    requires |good| == |bad| + 1 && good[0] && k < |good|
    requires forall k: nat :: k < |bad| && good[k] ==> (good[k + 1] <==> !bad[k])
    requires forall k: nat :: k < |bad| ==> !bad[k]
    ensures good[k]
  {
    if k > 0 {
      GoodSoFar(good, bad, k - 1);
    }
  }
}
