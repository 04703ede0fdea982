/** Bytes, single bits, shifts and little-endian numbers, as the decoder's loops use them. */
module Bytes {

  type byte = b: int | 0 <= b < 256

  function Pow2(n: nat): (p: nat)
    ensures 0 < p
  {
    if n == 0 then 1 else 2 * Pow2(n - 1)
  }

  /** Bit i of x: what `x & (1 << i) != 0` tests. */
  predicate Bit(x: nat, i: nat)
    decreases i, x
  {
    if i == 0 then x % 2 == 1 else Bit(x / 2, i - 1)
  }

  /** `x << n`. */
  function Shl(x: nat, n: nat): nat
    decreases n, x
  {
    if n == 0 then x else 2 * Shl(x, n - 1)
  }

  /** `x >> n`. */
  function Shr(x: nat, n: nat): nat
    decreases n, x
  {
    if n == 0 then x else Shr(x / 2, n - 1)
  }

  /** The n low bits of x. */
  function Low(x: nat, n: nat): (r: nat)
    ensures r < Pow2(n)
    decreases n, x
  {
    if n == 0 then 0 else x % 2 + 2 * Low(x / 2, n - 1)
  }

  lemma {:induction false} SplitAt(x: nat, n: nat)
    ensures x == Shl(Shr(x, n), n) + Low(x, n)
  {
    if n != 0 {
      SplitAt(x / 2, n - 1);
    }
  }

  lemma {:induction false} SplitUnique(hi: nat, lo: nat, n: nat)
    requires lo < Pow2(n)
    ensures Shr(Shl(hi, n) + lo, n) == hi && Low(Shl(hi, n) + lo, n) == lo
  {
    if n != 0 {
      assert (Shl(hi, n) + lo) / 2 == Shl(hi, n - 1) + lo / 2;
      SplitUnique(hi, lo / 2, n - 1);
    }
  }

  lemma {:induction false} Small(x: nat, n: nat)
    requires x < Pow2(n)
    ensures Low(x, n) == x && Shr(x, n) == 0
  {
    if n != 0 {
      Small(x / 2, n - 1);
    }
  }

  lemma {:induction false} ShlMono(a: nat, b: nat, n: nat)
    requires a <= b
    ensures Shl(a, n) <= Shl(b, n)
  {
    if n != 0 {
      ShlMono(a, b, n - 1);
    }
  }

  lemma {:induction false} ShlOfPow(m: nat, n: nat)
    ensures Shl(Pow2(m), n) == Pow2(m + n)
  {
    if n != 0 {
      ShlOfPow(m, n - 1);
    }
  }

  lemma {:induction false} ShlPred(a: nat, n: nat)
    ensures Shl(a + 1, n) == Shl(a, n) + Pow2(n)
  {
    if n != 0 {
      ShlPred(a, n - 1);
    }
  }

  /** m high bits above n low bits stay below 2^(m+n). */
  lemma JoinBound(hi: nat, m: nat, lo: nat, n: nat)
    requires hi < Pow2(m) && lo < Pow2(n)
    ensures Shl(hi, n) + lo < Pow2(m + n)
  {
    ShlPred(hi, n);
    ShlMono(hi + 1, Pow2(m), n);
    ShlOfPow(m, n);
  }

  lemma {:induction false} ShrShr(x: nat, m: nat, n: nat)
    ensures Shr(Shr(x, m), n) == Shr(x, m + n)
    decreases m
  {
    if m != 0 {
      ShrShr(x / 2, m - 1, n);
    }
  }

  lemma {:induction false} ShrBound(x: nat, m: nat, n: nat)
    requires x < Pow2(m + n)
    ensures Shr(x, n) < Pow2(m)
  {
    if n != 0 {
      ShrBound(x / 2, m, n - 1);
    }
  }

  lemma {:induction false} BitOfJoin(hi: nat, n: nat, lo: nat, i: nat)
    requires lo < Pow2(n)
    ensures Bit(Shl(hi, n) + lo, i) == if i < n then Bit(lo, i) else Bit(hi, i - n)
  {
    if n != 0 {
      assert (Shl(hi, n) + lo) / 2 == Shl(hi, n - 1) + lo / 2;
      if i != 0 {
        BitOfJoin(hi, n - 1, lo / 2, i - 1);
      }
    }
  }

  lemma {:induction false} BitOfLow(x: nat, n: nat, i: nat)
    requires i < n
    ensures Bit(Low(x, n), i) == Bit(x, i)
  {
    if i != 0 {
      BitOfLow(x / 2, n - 1, i - 1);
    }
  }

  lemma {:induction false} BitOfShr(x: nat, n: nat, i: nat)
    ensures Bit(Shr(x, n), i) == Bit(x, n + i)
  {
    if n != 0 {
      BitOfShr(x / 2, n - 1, i);
    }
  }

  lemma {:induction false} AllOnes(m: nat, i: nat)
    requires i < m
    ensures Bit(Pow2(m) - 1, i)
  {
    assert (Pow2(m) - 1) / 2 == Pow2(m - 1) - 1;
    if i != 0 {
      AllOnes(m - 1, i - 1);
    }
  }

  lemma {:induction false} ZeroBits(i: nat)
    ensures !Bit(0, i)
  {
    if i != 0 {
      ZeroBits(i - 1);
    }
  }

  /** Keeping one more low bit adds that bit's weight. */
  lemma {:induction false} LowSnoc(x: nat, n: nat)
    ensures Low(x, n + 1) == Low(x, n) + (if Bit(x, n) then Pow2(n) else 0)
  {
    if n != 0 {
      LowSnoc(x / 2, n - 1);
    }
  }

  /** The powers of two a byte is cut at. */
  function Cut(n: nat): (c: nat)
    ensures 0 < c
  {
    if n == 0 then 1 else if n == 1 then 2 else if n == 2 then 4 else if n == 3 then 8 else if n == 4 then 16
    else if n == 5 then 32 else if n == 6 then 64 else if n == 7 then 128 else 256
  }

  lemma {:induction false} ShlProduct(x: nat, n: nat)
    requires n <= 8
    ensures Shl(x, n) == x * Cut(n)
  {
    if n != 0 {
      ShlProduct(x, n - 1);
    }
  }

  lemma {:induction false} CutIsPow2(n: nat)
    requires n <= 8
    ensures Cut(n) == Pow2(n)
  {
    if n != 0 {
      CutIsPow2(n - 1);
    }
  }

  /** A byte string is determined by its length and its value. */
  lemma {:induction false} FromLEInjective(a: seq<byte>, b: seq<byte>)
    requires |a| == |b| && FromLE(a) == FromLE(b)
    ensures a == b
    decreases |a|
  {
    if a != [] {
      assert a[0] == FromLE(a) % 256 && b[0] == FromLE(b) % 256;
      FromLEInjective(a[1..], b[1..]);
      assert a == [a[0]] + a[1..] && b == [b[0]] + b[1..];
    }
  }

  lemma {:induction false} Pow2Product(m: nat, n: nat, p: nat, q: nat)
    requires p == Pow2(m) && q == Pow2(n)
    ensures Pow2(m + n) == p * q
  {
    if n != 0 {
      Pow2Product(m, n - 1, p, q / 2);
    }
  }

  lemma {:induction false} ShlTimes(x: nat, n: nat, p: nat)
    requires p == Pow2(n)
    ensures Shl(x, n) == x * p
  {
    if n != 0 {
      ShlTimes(x, n - 1, p / 2);
    }
  }

  lemma Euclid(x: nat, c: nat)
    requires 0 < c
    ensures x == x / c * c + x % c && x % c < c
  {
  }

  /** Up to eight low bits, by remainder. */
  lemma LowRemainder(x: nat, n: nat)
    requires n <= 8
    ensures Low(x, n) == x % Cut(n)
  {
    var c := Cut(n);
    Euclid(x, c);
    ShlProduct(x / c, n);
    CutIsPow2(n);
    SplitUnique(x / c, x % c, n);
  }

  lemma {:induction false} ShrQuotient(x: nat, n: nat)
    requires n <= 8
    ensures Shr(x, n) == x / Cut(n)
  {
    if n != 0 {
      ShrQuotient(x / 2, n - 1);
    }
  }

  lemma {:induction false} LowAppend(x: nat, m: nat, n: nat)
    ensures Low(x, m + n) == Low(x, m) + Shl(Low(Shr(x, m), n), m)
    decreases m
  {
    if m != 0 {
      LowAppend(x / 2, m - 1, n);
    }
  }

  lemma LowByte(x: nat, n: nat)
    ensures Low(x, n + 8) == x % 256 + 256 * Low(x / 256, n)
  {
    LowAppend(x, 8, n);
    LowRemainder(x, 8);
    ShrQuotient(x, 8);
    ShlProduct(Low(x / 256, n), 8);
  }

  /** The number whose bytes, least significant first, are s. */
  function FromLE(s: seq<byte>): nat {
    if s == [] then 0 else s[0] + 256 * FromLE(s[1..])
  }

  /** The n low bytes of v, least significant first. */
  function ToLE(v: nat, n: nat): (s: seq<byte>)
    ensures |s| == n
  {
    if n == 0 then [] else [v % 256] + ToLE(v / 256, n - 1)
  }

  /** Writing n little-endian bytes and reading them back keeps the low 8n bits. */
  lemma {:induction false} FromToLE(v: nat, n: nat)
    ensures FromLE(ToLE(v, n)) == Low(v, 8 * n)
  {
    if n != 0 {
      FromToLE(v / 256, n - 1);
      assert ToLE(v, n)[1..] == ToLE(v / 256, n - 1);
      LowByte(v, 8 * (n - 1));
    }
  }
}
