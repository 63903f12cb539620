/** Bits, bytes and fixed-width fields, most significant bit first: the order in which the
    FEC encoder, the frame builder and the symbol mapper put bits on the air. */
module Bits {

  type byte = b: int | 0 <= b < 256

  function Pow2(n: nat): (p: nat)
    ensures p > 0
  {
    if n == 0 then 1 else 2 * Pow2(n - 1)
  }

  /** `(x >> k) & 1`. */
  predicate BitAt(x: nat, k: nat) {
    if k == 0 then x % 2 == 1 else BitAt(x / 2, k - 1)
  }

  /** The low `n` bits of `x`. */
  function ToBits(x: nat, n: nat): (b: seq<bool>)
    ensures |b| == n
  {
    if n == 0 then [] else ToBits(x / 2, n - 1) + [x % 2 == 1]
  }

  lemma {:induction false} ToBitsAt(x: nat, n: nat, i: nat)
    requires i < n
    ensures ToBits(x, n)[i] == BitAt(x, n - 1 - i)
  {
    if i < n - 1 {
      ToBitsAt(x / 2, n - 1, i);
    }
  }

  /** `(x << 1) | bit`. */
  function PushBit(x: nat, b: bool): nat {
    2 * x + if b then 1 else 0
  }

  /** The accumulator after shifting in the given bits from zero. */
  function FromBits(s: seq<bool>): (x: nat)
    ensures x < Pow2(|s|)
  {
    if |s| == 0 then 0 else PushBit(FromBits(s[..|s| - 1]), s[|s| - 1])
  }

  lemma {:induction false} ToBitsOfFromBits(s: seq<bool>)
    ensures ToBits(FromBits(s), |s|) == s
  {
    if |s| > 0 {
      ToBitsOfFromBits(s[..|s| - 1]);
    }
  }

  lemma {:induction false} FromBitsOfToBits(x: nat, n: nat)
    requires x < Pow2(n)
    ensures FromBits(ToBits(x, n)) == x
  {
    if n > 0 {
      var b := ToBits(x, n);
      assert b[..n - 1] == ToBits(x / 2, n - 1);
      FromBitsOfToBits(x / 2, n - 1);
    }
  }

  lemma FromBitsInjective(s: seq<bool>, t: seq<bool>)
    requires |s| == |t| && FromBits(s) == FromBits(t)
    ensures s == t
  {
    ToBitsOfFromBits(s);
    ToBitsOfFromBits(t);
  }

  lemma ToBitsInjective(x: nat, y: nat, n: nat)
    requires x < Pow2(n) && y < Pow2(n) && ToBits(x, n) == ToBits(y, n)
    ensures x == y
  {
    FromBitsOfToBits(x, n);
    FromBitsOfToBits(y, n);
  }

  lemma Pow2Of8()
    ensures Pow2(8) == 256
  {
    assert Pow2(4) == 16;
  }

  /** The eight bits of a byte. */
  function ByteBits(x: byte): (b: seq<bool>)
    ensures |b| == 8
  {
    ToBits(x, 8)
  }

  function ByteOf(s: seq<bool>): (x: byte)
    requires |s| <= 8
    ensures x == FromBits(s)
  {
    Pow2Monotone(|s|, 8);
    Pow2Of8();
    FromBits(s)
  }

  lemma {:induction false} Pow2Monotone(m: nat, n: nat)
    requires m <= n
    ensures Pow2(m) <= Pow2(n)
  {
    if m < n {
      Pow2Monotone(m, n - 1);
    }
  }

  /** All bits of a byte string. */
  function Unpack(bytes: seq<byte>): (b: seq<bool>)
    ensures |b| == 8 * |bytes|
  {
    if |bytes| == 0 then [] else Unpack(bytes[..|bytes| - 1]) + ByteBits(bytes[|bytes| - 1])
  }

  lemma {:induction false} UnpackConcat(a: seq<byte>, b: seq<byte>)
    ensures Unpack(a + b) == Unpack(a) + Unpack(b)
  {
    if |b| == 0 {
      assert a + b == a;
    } else {
      UnpackConcat(a, b[..|b| - 1]);
      assert (a + b)[..|a + b| - 1] == a + b[..|b| - 1];
    }
  }

  lemma {:induction false} UnpackSlice(bytes: seq<byte>, j: nat)
    requires j < |bytes|
    ensures Unpack(bytes)[8 * j..8 * j + 8] == ByteBits(bytes[j])
  {
    var n := |bytes| - 1;
    if j < n {
      UnpackSlice(bytes[..n], j);
      assert Unpack(bytes)[8 * j..8 * j + 8] == Unpack(bytes[..n])[8 * j..8 * j + 8];
    } else {
      assert Unpack(bytes) == Unpack(bytes[..n]) + ByteBits(bytes[n]);
    }
  }

  /** Bit `j` of byte `k`, counted from the most significant. */
  lemma UnpackAt(bytes: seq<byte>, k: nat, j: nat)
    requires k < |bytes| && j < 8
    ensures Unpack(bytes)[8 * k + j] == BitAt(bytes[k], 7 - j)
  {
    UnpackSlice(bytes, k);
    hide Unpack;
    assert Unpack(bytes)[8 * k + j] == Unpack(bytes)[8 * k..8 * k + 8][j];
    ToBitsAt(bytes[k], 8, j);
  }

  lemma {:induction false} UnpackInjective(a: seq<byte>, b: seq<byte>)
    requires Unpack(a) == Unpack(b)
    ensures a == b
  {
    if |a| > 0 {
      var n := |a| - 1;
      var u, v := Unpack(a), Unpack(b);
      assert |b| == n + 1;
      assert u[..8 * n] == Unpack(a[..n]) && v[..8 * n] == Unpack(b[..n]);
      assert u[8 * n..] == ByteBits(a[n]) && v[8 * n..] == ByteBits(b[n]);
      UnpackInjective(a[..n], b[..n]);
      Pow2Of8();
      ToBitsInjective(a[n], b[n], 8);
      assert a == a[..n] + [a[n]] && b == b[..n] + [b[n]];
    }
  }

  /** Zero bits up to the next byte boundary. */
  function PadBits(n: nat): (z: seq<bool>)
    ensures (n + |z|) % 8 == 0 && |z| < 8
  {
    seq((8 - n % 8) % 8, _ => false)
  }

  /** Whole bytes of a bit string whose length is a multiple of eight. */
  function PackWhole(bits: seq<bool>): (bytes: seq<byte>)
    requires |bits| % 8 == 0
    ensures 8 * |bytes| == |bits|
  {
    if |bits| == 0 then []
    else PackWhole(bits[..|bits| - 8]) + [ByteOf(bits[|bits| - 8..])]
  }

  /** Bits packed into bytes; a final partial byte is left-aligned, that is, zero-filled. */
  function Pack(bits: seq<bool>): (bytes: seq<byte>)
    ensures |bytes| == (|bits| + 7) / 8
  {
    PackWhole(bits + PadBits(|bits|))
  }

  lemma {:induction false} UnpackPackWhole(bits: seq<bool>)
    requires |bits| % 8 == 0
    ensures Unpack(PackWhole(bits)) == bits
    decreases |bits|
  {
    hide FromBits, ToBits;
    if |bits| > 0 {
      var n := |bits| - 8;
      UnpackPackWhole(bits[..n]);
      ToBitsOfFromBits(bits[n..]);
      assert PackWhole(bits)[..|PackWhole(bits)| - 1] == PackWhole(bits[..n]);
      assert bits == bits[..n] + bits[n..];
    }
  }

  /** Packing loses nothing: unpacking gives the bits back, then zeros to the byte boundary. */
  lemma UnpackPack(bits: seq<bool>)
    ensures Unpack(Pack(bits)) == bits + PadBits(|bits|)
  {
    UnpackPackWhole(bits + PadBits(|bits|));
  }

  lemma PackUnpack(bytes: seq<byte>)
    ensures PackWhole(Unpack(bytes)) == bytes
  {
    UnpackPackWhole(Unpack(bytes));
    UnpackInjective(PackWhole(Unpack(bytes)), bytes);
  }

  /** Number of positions at which two bit strings of the same length differ. */
  function Hamming(a: seq<bool>, b: seq<bool>): (d: nat)
    requires |a| == |b|
  {
    if |a| == 0 then 0
    else Hamming(a[..|a| - 1], b[..|a| - 1]) + (if a[|a| - 1] != b[|a| - 1] then 1 else 0)
  }

  lemma {:induction false} HammingConcat(a: seq<bool>, b: seq<bool>, c: seq<bool>, d: seq<bool>)
    requires |a| == |b| && |c| == |d|
    ensures Hamming(a + c, b + d) == Hamming(a, b) + Hamming(c, d)
  {
    if |c| == 0 {
      assert a + c == a && b + d == b;
    } else {
      var n := |c| - 1;
      HammingConcat(a, b, c[..n], d[..n]);
      assert (a + c)[..|a + c| - 1] == a + c[..n];
      assert (b + d)[..|a + c| - 1] == b + d[..n];
    }
  }

  lemma {:induction false} HammingZero(a: seq<bool>, b: seq<bool>)
    requires |a| == |b|
    ensures Hamming(a, b) == 0 <==> a == b
  {
    if |a| > 0 {
      var n := |a| - 1;
      HammingZero(a[..n], b[..n]);
      assert a == a[..n] + [a[n]] && b == b[..n] + [b[n]];
    }
  }

  lemma {:induction false} HammingTriangle(a: seq<bool>, b: seq<bool>, c: seq<bool>)
    requires |a| == |b| == |c|
    ensures Hamming(a, c) <= Hamming(a, b) + Hamming(b, c)
  {
    if |a| > 0 {
      var n := |a| - 1;
      HammingTriangle(a[..n], b[..n], c[..n]);
    }
  }

  lemma {:induction false} HammingSymmetric(a: seq<bool>, b: seq<bool>)
    requires |a| == |b|
    ensures Hamming(a, b) == Hamming(b, a)
  {
    if |a| > 0 {
      HammingSymmetric(a[..|a| - 1], b[..|a| - 1]);
    }
  }

  lemma HammingSplit(a: seq<bool>, b: seq<bool>, n: nat)
    requires n <= |a| == |b|
    ensures Hamming(a, b) == Hamming(a[..n], b[..n]) + Hamming(a[n..], b[n..])
  {
    assert a == a[..n] + a[n..] && b == b[..n] + b[n..];
    HammingConcat(a[..n], b[..n], a[n..], b[n..]);
  }

  /** Exclusive or, bit by bit. */
  function Xor(x: nat, y: nat): nat {
    if x == 0 && y == 0 then 0
    else PushBit(Xor(x / 2, y / 2), x % 2 != y % 2)
  }

  lemma {:induction false} XorStep(x: nat, y: nat)
    ensures Xor(x, y) / 2 == Xor(x / 2, y / 2)
    ensures Xor(x, y) % 2 == (x + y) % 2
  {
  }

  lemma {:induction false} XorCommutes(x: nat, y: nat)
    ensures Xor(x, y) == Xor(y, x)
  {
    if x > 0 || y > 0 {
      XorCommutes(x / 2, y / 2);
    }
  }

  lemma {:induction false} XorAssociates(x: nat, y: nat, z: nat)
    ensures Xor(Xor(x, y), z) == Xor(x, Xor(y, z))
    decreases x + y + z
  {
    if x > 0 || y > 0 || z > 0 {
      XorAssociates(x / 2, y / 2, z / 2);
      XorStep(x, y);
      XorStep(y, z);
      XorStep(Xor(x, y), z);
      XorStep(x, Xor(y, z));
    }
  }

  lemma {:induction false} XorZero(x: nat)
    ensures Xor(x, 0) == x == Xor(0, x)
  {
    if x > 0 {
      XorZero(x / 2);
    }
  }

  lemma {:induction false} XorIsZero(x: nat, y: nat)
    ensures Xor(x, y) == 0 <==> x == y
  {
    if x > 0 || y > 0 {
      XorIsZero(x / 2, y / 2);
      XorStep(x, y);
    }
  }

  lemma {:induction false} XorBound(x: nat, y: nat, n: nat)
    requires x < Pow2(n) && y < Pow2(n)
    ensures Xor(x, y) < Pow2(n)
  {
    if n > 0 {
      XorBound(x / 2, y / 2, n - 1);
      XorStep(x, y);
    } else {
      XorZero(0);
    }
  }

  /** Number of one bits. */
  function PopCount(x: nat): nat {
    if x == 0 then 0 else PopCount(x / 2) + x % 2
  }

  lemma {:induction false} PopCountOfXor(x: nat, y: nat, n: nat)
    requires x < Pow2(n) && y < Pow2(n)
    ensures PopCount(Xor(x, y)) == Hamming(ToBits(x, n), ToBits(y, n))
  {
    if n > 0 {
      PopCountOfXor(x / 2, y / 2, n - 1);
      assert ToBits(x, n)[..n - 1] == ToBits(x / 2, n - 1);
      assert ToBits(y, n)[..n - 1] == ToBits(y / 2, n - 1);
      var d := Xor(x, y);
      assert d / 2 == Xor(x / 2, y / 2);
    }
  }

  lemma {:induction false} UnpackPrefix(bytes: seq<byte>, m: nat)
    requires m <= |bytes|
    ensures Unpack(bytes)[..8 * m] == Unpack(bytes[..m])
  {
    UnpackConcat(bytes[..m], bytes[m..]);
    assert bytes == bytes[..m] + bytes[m..];
  }

  /** Bit `k` is a binary digit. */
  lemma {:induction false} BitAtIsDigit(x: nat, k: nat)
    ensures BitAt(x, k) <==> x / Pow2(k) % 2 == 1
  {
    if k > 0 {
      BitAtIsDigit(x / 2, k - 1);
      DivideTwice(x, 2, Pow2(k - 1));
    }
  }

  function Product(a: nat, b: nat): nat { a * b }

  lemma DivMod(x: nat, d: nat)
    requires d > 0
    ensures x == Product(x / d, d) + x % d && x % d < d
  {
  }

  /** One number is another one's quotient: the product and a small rest say so. */
  lemma QuotientIs(x: nat, d: nat, q: nat, r: nat)
    requires d > 0 && r < d && x == Product(q, d) + r
    ensures x / d == q
  {
    hide Product;
    DivMod(x, d);
    if q < x / d { Multiple(q, x / d, d); }
    if x / d < q { Multiple(x / d, q, d); }
  }

  lemma Multiple(a: nat, b: nat, d: nat)
    requires a < b
    ensures Product(a, d) + d <= Product(b, d)
  {
    var c := b - a - 1;
    assert b * d == a * d + d + c * d;
    assert c * d >= 0;
  }

  lemma TimesThree(q: nat, p: nat, r: nat, d: nat)
    ensures Product(Product(q, p) + r, d) == Product(q, Product(p, d)) + Product(r, d)
  {
    assert (q * p) * d == q * (p * d);
  }

  lemma TimesPositive(p: nat, d: nat)
    requires p > 0 && d > 0
    ensures Product(p, d) > 0
  {
  }

  lemma DivideTwice(x: nat, d: nat, p: nat)
    requires d > 0 && p > 0
    ensures Product(p, d) > 0 && x / d / p == x / Product(p, d)
  {
    hide Product;
    TimesPositive(p, d);
    DivMod(x, d);
    DivMod(x / d, p);
    TimesThree(x / d / p, p, x / d % p, d);
    Multiple(x / d % p, p, d);
    QuotientIs(x, Product(p, d), x / d / p, Product(x / d % p, d) + x % d);
  }
}
