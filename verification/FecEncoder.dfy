/** The FEC encoder, src/fec_encoder.cpp. */
module FecEncoders {
  import opened Bits
  import opened ConvCode

  class FecEncoder {
    const codeRate: CodeRate

    constructor (rate: CodeRate)
      ensures codeRate == rate
    {
      codeRate := rate;
    }

    /** Coded size in bytes, from the payload size alone. */
    method CodedLength(inputLength: nat) returns (length: nat)
      ensures forall data: seq<byte> :: |data| == inputLength ==> length == |ConvCode.Encode(codeRate, data)|
      ensures length == (CodedBitCount(codeRate, inputLength) + 7) / 8
    {
      var inputBits := inputLength * 8;
      var totalInputBits := inputBits + TAIL_BITS;
      var rateHalfBits := 2 * totalInputBits;
      if codeRate == RATE_1_2 {
        KeptCountHalf(rateHalfBits);
        return (rateHalfBits + 7) / 8;
      }
      var fullPeriods := rateHalfBits / PUNCTURE_PERIOD;
      var remainder := rateHalfBits % PUNCTURE_PERIOD;
      var puncturedBits := fullPeriods * 4;
      var i := 0;
      while i < remainder
        invariant i <= remainder
        invariant puncturedBits == fullPeriods * 4 + KeptInPartial(i)
      {
        puncturedBits := puncturedBits + if Kept(RATE_3_4, i) then 1 else 0;
        i := i + 1;
      }
      KeptCountThreeQuarters(rateHalfBits);
      return (puncturedBits + 7) / 8;
    }

    method Encode(data: seq<byte>) returns (output: seq<byte>)
      ensures output == ConvCode.Encode(codeRate, data)
    {
      var dataBits := UnpackBytes(data);
      var inputBits := AppendTail(dataBits);
      var rateHalf := Convolve(inputBits);
      var codedBits := rateHalf;
      if codeRate == RATE_1_2 {
        PunctureHalf(rateHalf);
      } else {
        codedBits := PunctureBits(rateHalf);
      }
      output := PackBits(codedBits);
    }
  }

  method AppendTail(dataBits: seq<bool>) returns (inputBits: seq<bool>)
    ensures inputBits == dataBits + seq(TAIL_BITS, _ => false)
  {
    inputBits := dataBits;
    var t := 0;
    while t < TAIL_BITS
      invariant t <= TAIL_BITS
      invariant inputBits == dataBits + seq(t, _ => false)
    {
      inputBits := inputBits + [false];
      t := t + 1;
    }
  }

  /** The rate-1/2 convolution, one register shift per input bit. */
  method Convolve(inputBits: seq<bool>) returns (rateHalf: seq<bool>)
    ensures rateHalf == Conv(inputBits)
  {
    var shiftReg: Reg := 0;
    rateHalf := [];
    for i := 0 to |inputBits|
      invariant shiftReg == Run(inputBits[..i])
      invariant rateHalf == Conv(inputBits[..i])
    {
      assert inputBits[..i + 1][..i] == inputBits[..i];
      shiftReg := Shift(shiftReg, inputBits[i]);
      rateHalf := rateHalf + [Parity(shiftReg, GEN_0)];
      rateHalf := rateHalf + [Parity(shiftReg, GEN_1)];
    }
    assert inputBits[..|inputBits|] == inputBits;
  }

  method PunctureBits(rateHalf: seq<bool>) returns (codedBits: seq<bool>)
    ensures codedBits == Puncture(RATE_3_4, rateHalf)
  {
    codedBits := [];
    for i := 0 to |rateHalf|
      invariant codedBits == Puncture(RATE_3_4, rateHalf[..i])
    {
      assert rateHalf[..i + 1][..i] == rateHalf[..i];
      if Kept(RATE_3_4, i) {
        codedBits := codedBits + [rateHalf[i]];
      }
    }
    assert rateHalf[..|rateHalf|] == rateHalf;
  }

  /** Byte string to bits, most significant bit of each byte first. */
  method UnpackBytes(data: seq<byte>) returns (bits: seq<bool>)
    ensures bits == Unpack(data)
  {
    bits := [];
    for i := 0 to |data|
      invariant bits == Unpack(data[..i])
    {
      ghost var before := bits;
      var b := 8;
      while b > 0
        invariant 0 <= b <= 8
        invariant bits == before + ByteBits(data[i])[..8 - b]
      {
        b := b - 1;
        ToBitsAt(data[i], 8, 7 - b);
        bits := bits + [BitAt(data[i], b)];
      }
      assert ByteBits(data[i])[..8] == ByteBits(data[i]);
      assert data[..i + 1][..i] == data[..i];
    }
    assert data[..|data|] == data;
  }

  /** Bits to bytes; the last byte is left-aligned. */
  method PackBits(bits: seq<bool>) returns (output: seq<byte>)
    ensures output == Pack(bits)
  {
    hide PackWhole, FromBits, Pack, PadBits, PushBit;
    output := [];
    var currentByte: nat := 0;
    var bitCount := 0;
    ghost var done := 0;
    NothingPacked(bits);
    for i := 0 to |bits|
      invariant done + bitCount == i && done % 8 == 0 && bitCount < 8
      invariant output == PackWhole(bits[..done])
      invariant currentByte == FromBits(bits[done..i])
    {
      PushNext(bits, done, i);
      currentByte := PushBit(currentByte, bits[i]);
      bitCount := bitCount + 1;
      if bitCount == 8 {
        PackNext(bits, done);
        output := output + [currentByte];
        currentByte := 0;
        bitCount := 0;
        done := i + 1;
      }
    }
    if bitCount > 0 {
      PackLast(bits, done);
      assert bits[done..|bits|] == bits[done..];
      currentByte := ShiftLeft(currentByte, bits[done..], 8 - bitCount);
      output := output + [currentByte];
    } else {
      PackExact(bits);
      assert bits[..done] == bits;
    }
  }

  lemma NothingPacked(bits: seq<bool>)
    ensures PackWhole(bits[..0]) == [] && FromBits(bits[0..0]) == 0
    ensures forall i :: 0 <= i <= |bits| ==> FromBits(bits[i..i]) == 0
  {
  }

  lemma PackExact(bits: seq<bool>)
    requires |bits| % 8 == 0
    ensures Pack(bits) == PackWhole(bits)
  {
    hide PackWhole, PadBits;
    assert |PadBits(|bits|)| == 0;
    assert bits + PadBits(|bits|) == bits;
  }

  lemma PushNext(bits: seq<bool>, done: nat, i: nat)
    requires done <= i < |bits|
    ensures FromBits(bits[done..i + 1]) == PushBit(FromBits(bits[done..i]), bits[i])
  {
    assert bits[done..i + 1][..i - done] == bits[done..i];
  }

  lemma PackNext(bits: seq<bool>, done: nat)
    requires done % 8 == 0 && done + 8 <= |bits|
    ensures FromBits(bits[done..done + 8]) < 256
    ensures PackWhole(bits[..done + 8]) == PackWhole(bits[..done]) + [FromBits(bits[done..done + 8])]
  {
    assert bits[..done + 8][..done] == bits[..done];
    assert bits[..done + 8][done..] == bits[done..done + 8];
    Pow2Of8();
  }

  lemma PackLast(bits: seq<bool>, done: nat)
    requires done % 8 == 0 && done < |bits| < done + 8
    ensures var last := FromBits(bits[done..] + seq(8 - (|bits| - done), _ => false));
            last < 256 && Pack(bits) == PackWhole(bits[..done]) + [last]
  {
    var padded := bits + PadBits(|bits|);
    assert |padded| == done + 8;
    assert padded[..done] == bits[..done];
    assert padded[done..] == bits[done..] + seq(8 - (|bits| - done), _ => false);
    Pow2Of8();
  }

  /** `value << k`: shifting left appends zero bits. */
  method ShiftLeft(value: nat, ghost bits: seq<bool>, k: nat) returns (shifted: nat)
    requires value == FromBits(bits)
    ensures shifted == FromBits(bits + seq(k, _ => false))
  {
    shifted := value;
    var i := 0;
    assert bits + seq(0, _ => false) == bits;
    while i < k
      invariant i <= k
      invariant shifted == FromBits(bits + seq(i, _ => false))
    {
      var longer := bits + seq(i + 1, _ => false);
      assert longer[..|longer| - 1] == bits + seq(i, _ => false);
      shifted := 2 * shifted;
      i := i + 1;
    }
  }
}
