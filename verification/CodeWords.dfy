/** The convolutional code by its generators: every transmitted bit as an exclusive or of payload
    bits, with neither a register nor a mask. */
module CodeWords {
  import opened Bits
  import opened ConvCode

  /** The input bit `ago` steps before step `k`; nothing but zeros before the start and behind the end. */
  predicate Tap(bits: seq<bool>, k: nat, ago: nat) {
    ago <= k < |bits| + ago && bits[k - ago]
  }

  function Odd5(a: bool, b: bool, c: bool, d: bool, e: bool): bool { (((a != b) != c) != d) != e }

  /** Generator 171 (octal), 1 + D + D^2 + D^3 + D^6, at step `k`. */
  function First(bits: seq<bool>, k: nat): bool {
    Odd5(Tap(bits, k, 0), Tap(bits, k, 1), Tap(bits, k, 2), Tap(bits, k, 3), Tap(bits, k, 6))
  }

  /** Generator 133 (octal), 1 + D^2 + D^3 + D^5 + D^6, at step `k`. */
  function Second(bits: seq<bool>, k: nat): bool {
    Odd5(Tap(bits, k, 0), Tap(bits, k, 2), Tap(bits, k, 3), Tap(bits, k, 5), Tap(bits, k, 6))
  }

  lemma OutputsOf(r: Reg, a: seq<bool>)
    requires |a| == 7 && Holds(r, a)
    ensures Out0(r) == Odd5(a[0], a[1], a[2], a[3], a[6])
    ensures Out1(r) == Odd5(a[0], a[2], a[3], a[5], a[6])
  {
  }

  /** The two output bits of every step, generator 171 first. */
  lemma ConvTaps(bits: seq<bool>, k: nat)
    requires k < |bits|
    ensures Conv(bits)[2 * k] == First(bits, k)
    ensures Conv(bits)[2 * k + 1] == Second(bits, k)
  {
    hide Conv, Run, Out0, Out1, Holds, Newest, Tap, Odd5;
    var head := bits[..k + 1];
    ConvAt(bits, k);
    RunHoldsNewest(head);
    OutputsOf(Run(head), Newest(head));
    NewestIsTap(bits, k, 0);
    NewestIsTap(bits, k, 1);
    NewestIsTap(bits, k, 2);
    NewestIsTap(bits, k, 3);
    NewestIsTap(bits, k, 5);
    NewestIsTap(bits, k, 6);
  }

  lemma NewestIsTap(bits: seq<bool>, k: nat, ago: nat)
    requires k < |bits| && ago < 7
    ensures Newest(bits[..k + 1])[ago] == Tap(bits, k, ago)
  {
  }

  // ----- the payload's bits -----

  /** Bit `i` of a payload, every byte from its highest bit down; zero behind the end. */
  predicate PayloadBit(data: seq<byte>, i: nat) {
    i < 8 * |data| && data[i / 8] / Pow2(7 - i % 8) % 2 == 1
  }

  lemma UnpackIsPayload(data: seq<byte>, i: nat)
    requires i < 8 * |data|
    ensures Unpack(data)[i] == PayloadBit(data, i)
  {
    hide Unpack;
    UnpackAt(data, i / 8, i % 8);
    BitAtIsDigit(data[i / 8], 7 - i % 8);
  }

  /** Every tap on the encoder's input is a tap on the payload: the tail is zero. */
  lemma TailIsZero(data: seq<byte>, k: nat, ago: nat)
    requires k < 8 * |data| + TAIL_BITS
    ensures Tap(WithTail(data), k, ago) == (ago <= k && PayloadBit(data, k - ago))
  {
    hide Unpack, Pow2;
    if ago <= k < 8 * |data| + ago {
      UnpackIsPayload(data, k - ago);
    }
  }

  // ----- the transmitted bits -----

  /** Generator 171 and generator 133 on the payload, at step `k`. */
  function G171(data: seq<byte>, k: nat): bool {
    Odd5(PayloadBit(data, k), k >= 1 && PayloadBit(data, k - 1), k >= 2 && PayloadBit(data, k - 2),
         k >= 3 && PayloadBit(data, k - 3), k >= 6 && PayloadBit(data, k - 6))
  }

  function G133(data: seq<byte>, k: nat): bool {
    Odd5(PayloadBit(data, k), k >= 2 && PayloadBit(data, k - 2), k >= 3 && PayloadBit(data, k - 3),
         k >= 5 && PayloadBit(data, k - 5), k >= 6 && PayloadBit(data, k - 6))
  }

  lemma StepOutputs(data: seq<byte>, k: nat)
    requires k < 8 * |data| + 6
    ensures |WithTail(data)| == 8 * |data| + 6
    ensures Conv(WithTail(data))[2 * k] == G171(data, k)
    ensures Conv(WithTail(data))[2 * k + 1] == G133(data, k)
  {
    hide WithTail, Tap, PayloadBit, Conv;
    ConvTaps(WithTail(data), k);
    TailIsZero(data, k, 0);
    TailIsZero(data, k, 1);
    TailIsZero(data, k, 2);
    TailIsZero(data, k, 3);
    TailIsZero(data, k, 5);
    TailIsZero(data, k, 6);
  }

  /** Where a transmitted bit sits in the rate-1/2 stream: of every six bits at rate 3/4 the third
      and the sixth are not sent. */
  function SentFrom(rate: CodeRate, j: nat): nat {
    if rate.RATE_1_2? then j
    else 6 * (j / 4) + if j % 4 <= 1 then j % 4 else j % 4 + 1
  }

  /** Position `j` of the punctured stream. */
  lemma SentPosition(rate: CodeRate, j: nat)
    ensures Kept(rate, SentFrom(rate, j)) && KeptCount(rate, SentFrom(rate, j)) == j
  {
    if rate.RATE_1_2? {
      KeptCountHalf(j);
    } else {
      KeptCountThreeQuarters(SentFrom(rate, j));
    }
  }

  lemma SentWithin(rate: CodeRate, n: nat, j: nat)
    ensures j < KeptCount(rate, n) <==> SentFrom(rate, j) < n
  {
    SentPosition(rate, j);
    if SentFrom(rate, j) >= n {
      KeptCountMonotone(rate, n, SentFrom(rate, j));
    } else {
      KeptCountMonotone(rate, SentFrom(rate, j) + 1, n);
    }
  }

  /** Two thirds of an even number of bits are kept, rounded up. */
  lemma TwoThirds(n: nat)
    requires n % 2 == 0
    ensures KeptCount(RATE_3_4, n) == (2 * n + 2) / 3
  {
    hide KeptCount;
    KeptCountThreeQuarters(n);
    Sixths(n / 6, n % 6);
  }

  lemma Sixths(q: nat, r: nat)
    requires r == 0 || r == 2 || r == 4
    ensures q * 4 + KeptInPartial(r) == (2 * (6 * q + r) + 2) / 3
  {
  }

  /** The length of a code word: two bits for every payload bit and for six zero bits of tail, two
      thirds of them at rate 3/4, in whole bytes. */
  lemma EncodedSize(rate: CodeRate, data: seq<byte>)
    ensures var n := 2 * (8 * |data| + 6);
            |Encode(rate, data)| == ((if rate.RATE_1_2? then n else (2 * n + 2) / 3) + 7) / 8
  {
    hide Conv, Puncture, Pack, WithTail, KeptCount;
    StepOutputs(data, 0);
    var n := 2 * (8 * |data| + 6);
    KeptCountHalf(n);
    TwoThirds(n);
  }

  /** Every bit the encoder puts out, at both rates, from the payload alone: generator 171 on even and
      133 on odd positions of the full stream, what puncturing drops left out, and zeros to fill the
      last byte. */
  lemma EncodedBit(rate: CodeRate, data: seq<byte>, j: nat)
    requires j < 8 * |Encode(rate, data)|
    ensures Unpack(Encode(rate, data))[j] ==
            (var i := SentFrom(rate, j);
             i < 2 * (8 * |data| + 6) && if i % 2 == 0 then G171(data, i / 2) else G133(data, i / 2))
  {
    hide Conv, KeptCount, Puncture, G171, G133, Unpack, Pack, Kept, WithTail;
    var full := Conv(WithTail(data));
    var coded := Puncture(rate, full);
    UnpackPack(coded);
    StepOutputs(data, 0);
    SentWithin(rate, |full|, j);
    if j < |coded| {
      var i := SentFrom(rate, j);
      SentPosition(rate, j);
      PunctureAt(rate, full, i);
      StepOutputs(data, i / 2);
    }
  }
}
