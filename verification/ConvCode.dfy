/** The convolutional code shared by the FEC encoder and decoder: constraint length 7,
    generators 171 and 133 (octal), rate 1/2 or punctured to rate 3/4. */
module ConvCode {
  import opened Bits

  datatype CodeRate = RATE_1_2 | RATE_3_4

  const TAIL_BITS := 6
  const GEN_0: bv8 := 0x79
  const GEN_1: bv8 := 0x5B
  const PUNCTURE_PERIOD := 6
  const NUM_REGS := 128

  /** The full shift register; the newest input bit is bit 6. */
  type Reg = r: bv8 | r < 128

  /** The register after one more input bit enters at the top. */
  function Shift(reg: Reg, b: bool): Reg {
    ((reg >> 1) | (if b then 0x40 else 0)) & 0x7F
  }

  /** Parity of `value & mask`, folding the byte onto its lowest bit. */
  function Parity(value: bv8, mask: bv8): bool {
    var v0 := value & mask;
    var v1 := v0 ^ (v0 >> 4);
    var v2 := v1 ^ (v1 >> 2);
    var v3 := v2 ^ (v2 >> 1);
    v3 & 1 == 1
  }

  function Out0(reg: Reg): bool { Parity(reg, GEN_0) }

  function Out1(reg: Reg): bool { Parity(reg, GEN_1) }

  /** Register contents after a whole input sequence, starting from zero. */
  function Run(bits: seq<bool>): Reg {
    if |bits| == 0 then 0 else Shift(Run(bits[..|bits| - 1]), bits[|bits| - 1])
  }

  /** The register, newest input first. */
  predicate Holds(r: Reg, a: seq<bool>)
    requires |a| == 7
  {
    && (r & 0x40 != 0) == a[0] && (r & 0x20 != 0) == a[1] && (r & 0x10 != 0) == a[2] && (r & 0x08 != 0) == a[3]
    && (r & 0x04 != 0) == a[4] && (r & 0x02 != 0) == a[5] && (r & 0x01 != 0) == a[6]
  }

  lemma ShiftHolds(r: Reg, a: seq<bool>, b: bool)
    requires |a| == 7 && Holds(r, a)
    ensures Holds(Shift(r, b), [b] + a[..6])
  {
  }

  /** The last seven inputs, newest first. */
  function Newest(bits: seq<bool>): (a: seq<bool>)
    ensures |a| == 7
  {
    seq(7, j requires 0 <= j => |bits| > j && bits[|bits| - 1 - j])
  }

  lemma {:induction false} RunHoldsNewest(bits: seq<bool>)
    ensures Holds(Run(bits), Newest(bits))
  {
    hide Shift;
    if |bits| > 0 {
      var n := |bits| - 1;
      RunHoldsNewest(bits[..n]);
      ShiftHolds(Run(bits[..n]), Newest(bits[..n]), bits[n]);
      assert Newest(bits) == [bits[n]] + Newest(bits[..n])[..6];
    }
  }

  /** The rate-1/2 output: two bits for every input bit. */
  function Conv(bits: seq<bool>): (c: seq<bool>)
    ensures |c| == 2 * |bits|
  {
    if |bits| == 0 then []
    else Conv(bits[..|bits| - 1]) + [Out0(Run(bits)), Out1(Run(bits))]
  }

  lemma {:induction false} ConvPrefix(bits: seq<bool>, k: nat)
    requires k <= |bits|
    ensures Conv(bits)[..2 * k] == Conv(bits[..k])
  {
    if k < |bits| {
      var shorter := bits[..|bits| - 1];
      ConvPrefix(shorter, k);
      assert shorter[..k] == bits[..k];
      assert Conv(bits)[..2 * k] == Conv(shorter)[..2 * k];
    } else {
      assert bits[..k] == bits;
    }
  }

  lemma ConvLast(bits: seq<bool>)
    requires |bits| > 0
    ensures var n := |bits| - 1;
            Conv(bits)[2 * n] == Out0(Run(bits)) && Conv(bits)[2 * n + 1] == Out1(Run(bits))
  {
    hide Run, Out0, Out1;
  }

  lemma ConvAt(bits: seq<bool>, k: nat)
    requires k < |bits|
    ensures Conv(bits)[2 * k] == Out0(Run(bits[..k + 1]))
    ensures Conv(bits)[2 * k + 1] == Out1(Run(bits[..k + 1]))
  {
    hide Conv, Run, Out0, Out1;
    var head := bits[..k + 1];
    ConvPrefix(bits, k + 1);
    ConvLast(head);
    assert Conv(bits)[2 * k] == Conv(bits)[..2 * (k + 1)][2 * k];
    assert Conv(bits)[2 * k + 1] == Conv(bits)[..2 * (k + 1)][2 * k + 1];
  }

  // ----- puncturing -----

  /** PUNCTURE_PATTERN = 1,1,0,1,1,0 at rate 3/4; every bit is kept at rate 1/2. */
  predicate Kept(rate: CodeRate, i: nat) {
    rate.RATE_1_2? || i % PUNCTURE_PERIOD in {0, 1, 3, 4}
  }

  function Puncture(rate: CodeRate, bits: seq<bool>): (p: seq<bool>)
    ensures |p| == KeptCount(rate, |bits|)
  {
    if |bits| == 0 then []
    else
      var n := |bits| - 1;
      Puncture(rate, bits[..n]) + if Kept(rate, n) then [bits[n]] else []
  }

  /** How many of the first `n` rate-1/2 bits survive puncturing. */
  function KeptCount(rate: CodeRate, n: nat): (c: nat)
    ensures c <= n
  {
    if n == 0 then 0 else KeptCount(rate, n - 1) + if Kept(rate, n - 1) then 1 else 0
  }

  lemma {:induction false} KeptCountMonotone(rate: CodeRate, m: nat, n: nat)
    requires m <= n
    ensures KeptCount(rate, m) <= KeptCount(rate, n)
  {
    if m < n {
      KeptCountMonotone(rate, m, n - 1);
    }
  }

  /** A kept bit appears in the punctured stream at the position counted by KeptCount. */
  lemma {:induction false} PunctureAt(rate: CodeRate, bits: seq<bool>, i: nat)
    requires i < |bits| && Kept(rate, i)
    ensures KeptCount(rate, i) < |Puncture(rate, bits)|
    ensures Puncture(rate, bits)[KeptCount(rate, i)] == bits[i]
  {
    var n := |bits| - 1;
    if i < n {
      PunctureAt(rate, bits[..n], i);
    }
  }

  lemma {:induction false} PunctureHalf(bits: seq<bool>)
    ensures Puncture(RATE_1_2, bits) == bits
  {
    if |bits| > 0 {
      PunctureHalf(bits[..|bits| - 1]);
    }
  }

  lemma {:induction false} KeptCountHalf(n: nat)
    ensures KeptCount(RATE_1_2, n) == n
  {
    if n > 0 {
      KeptCountHalf(n - 1);
    }
  }

  /** Four bits of every complete period, plus those of the partial one. */
  lemma {:induction false} KeptCountThreeQuarters(n: nat)
    ensures KeptCount(RATE_3_4, n) == n / 6 * 4 + KeptInPartial(n % 6)
  {
    if n > 0 {
      KeptCountThreeQuarters(n - 1);
    }
  }

  /** The sum of the first `r` entries of the puncturing pattern. */
  function KeptInPartial(r: nat): nat
    requires r < 6
  {
    if r <= 2 then r else if r == 3 then 2 else r - 1
  }

  // ----- encoding -----

  /** Data bits followed by the zero tail that flushes the register. */
  function WithTail(data: seq<byte>): (bits: seq<bool>)
    ensures |bits| == 8 * |data| + TAIL_BITS
  {
    Unpack(data) + seq(TAIL_BITS, _ => false)
  }

  function CodedBits(rate: CodeRate, data: seq<byte>): seq<bool> {
    Puncture(rate, Conv(WithTail(data)))
  }

  /** The coded byte string of a payload. */
  function Encode(rate: CodeRate, data: seq<byte>): seq<byte> {
    Pack(CodedBits(rate, data))
  }

  /** Number of coded bits, before packing, for a payload of `n` bytes. */
  function CodedBitCount(rate: CodeRate, n: nat): nat {
    KeptCount(rate, 2 * (8 * n + TAIL_BITS))
  }
}
