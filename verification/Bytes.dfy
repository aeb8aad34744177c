/** Big-endian byte strings: the fixed-width and minimal encodings of natural numbers. */
module Bytes {

  newtype byte = x: int | 0 <= x < 256

  const TWO_32 := 0x1_0000_0000
  const TWO_63 := 0x8000_0000_0000_0000
  const TWO_64 := 0x1_0000_0000_0000_0000
  const TWO_256 := 0x1_00000000_00000000_00000000_00000000_00000000_00000000_00000000_00000000

  type Hash32 = s: seq<byte> | |s| == 32 witness seq(32, _ => 0)
  type Address = s: seq<byte> | |s| == 20 witness seq(20, _ => 0)

  function Pow256(n: nat): (p: nat)
    ensures p > 0
  {
    if n == 0 then 1 else 256 * Pow256(n - 1)
  }

  /** The number a big-endian byte string denotes (big.Int.SetBytes). */
  function ToNat(s: seq<byte>): nat {
    if s == [] then 0 else 256 * ToNat(s[..|s| - 1]) + s[|s| - 1] as nat
  }

  /** The low `size` bytes of `n`, most significant first. */
  function FixedBytes(n: nat, size: nat): (s: seq<byte>)
    ensures |s| == size
  {
    if size == 0 then [] else FixedBytes(n / 256, size - 1) + [(n % 256) as byte]
  }

  /** The shortest big-endian string for `n`, empty for zero (big.Int.Bytes). */
  function MinimalBytes(n: nat): seq<byte> {
    if n == 0 then [] else MinimalBytes(n / 256) + [(n % 256) as byte]
  }

  lemma DivModSplit(n: nat, k: nat)
    requires k > 0
    ensures (n / 256) % k * 256 + n % 256 == n % (256 * k)
  {
    var q, r := n / 256, n % 256;
    var a, b := q / k, q % k;
    assert n == 256 * (a * k + b) + r;
    assert n == (256 * k) * a + (256 * b + r);
    assert 256 * b + r < 256 * k;
    QuotientUnique(n, 256 * k, a, 256 * b + r);
  }

  lemma MulAtLeast(d: nat, k: nat)
    requires k >= 1
    ensures d * k >= d
  {
  }

  lemma QuotientUnique(n: nat, d: nat, q: nat, r: nat)
    requires d > 0 && r < d && n == d * q + r
    ensures n / d == q && n % d == r
  {
    DivisionUnique(d, q, r, n / d, n % d);
  }

  lemma DivisionUnique(d: nat, q: nat, r: nat, q': nat, r': nat)
    requires r < d && r' < d && d * q + r == d * q' + r'
    ensures q == q' && r == r'
  {
    if q > q' {
      MulAtLeast(d, q - q');
    } else if q < q' {
      MulAtLeast(d, q' - q);
    }
  }

  lemma QuotientAtLeast(n: nat, d: nat, q: nat)
    requires d > 0
    ensures n >= q * d <==> n / d >= q
  {
    assert n == d * (n / d) + n % d;
    if n / d >= q {
      assert n / d * d == q * d + (n / d - q) * d;
    } else {
      MulAtLeast(d, q - n / d);
    }
  }

  /** Decoding a fixed-width encoding gives back the number reduced to that width. */
  lemma {:induction false} FixedRoundTrip(n: nat, size: nat)
    ensures ToNat(FixedBytes(n, size)) == n % Pow256(size)
  {
    if size > 0 {
      var front := FixedBytes(n / 256, size - 1);
      assert FixedBytes(n, size)[..size - 1] == front;
      FixedRoundTrip(n / 256, size - 1);
      DivModSplit(n, Pow256(size - 1));
    }
  }

  /** A byte string is the fixed-width encoding of the number it denotes. */
  lemma {:induction false} FixedOfNat(s: seq<byte>)
    ensures FixedBytes(ToNat(s), |s|) == s
  {
    if s != [] {
      FixedOfNat(s[..|s| - 1]);
      assert s == s[..|s| - 1] + [s[|s| - 1]];
    }
  }

  /** Strings of one length that denote one number are one string. */
  lemma ToNatInjective(s: seq<byte>, t: seq<byte>)
    requires |s| == |t| && ToNat(s) == ToNat(t)
    ensures s == t
  {
    FixedOfNat(s);
    FixedOfNat(t);
  }

  lemma {:induction false} ToNatBound(s: seq<byte>)
    ensures ToNat(s) < Pow256(|s|)
  {
    if s != [] {
      ToNatBound(s[..|s| - 1]);
    }
  }

  lemma {:induction false} FixedZero(size: nat)
    ensures FixedBytes(0, size) == seq(size, _ => 0 as byte)
  {
    if size > 0 {
      FixedZero(size - 1);
    }
  }

  /** Cutting or zero-padding the minimal encoding on the left gives the fixed-width one. */
  lemma {:induction false} MinimalPadsToFixed(n: nat, size: nat)
    ensures var m := MinimalBytes(n);
            FixedBytes(n, size) ==
              if |m| >= size then m[|m| - size..] else seq(size - |m|, _ => 0 as byte) + m
  {
    if n == 0 {
      FixedZero(size);
    } else if size > 0 {
      MinimalPadsToFixed(n / 256, size - 1);
    }
  }

  lemma QuotientTwice(n: nat, k: nat)
    requires k > 0
    ensures n / 256 / k == n / (256 * k)
  {
    DivModSplit(n, k);
    var q := n / 256 / k;
    assert n / 256 == k * q + n / 256 % k;
    assert n == (256 * k) * q + n % (256 * k);
    QuotientUnique(n, 256 * k, q, n % (256 * k));
  }

  /** Which byte stands where: the most significant one first. */
  lemma {:induction false} BigEndian(n: nat, size: nat, i: nat)
    requires i < size
    ensures FixedBytes(n, size)[i] as nat == n / Pow256(size - 1 - i) % 256
  {
    if i < size - 1 {
      BigEndian(n / 256, size - 1, i);
      QuotientTwice(n, Pow256(size - 2 - i));
    }
  }
}
