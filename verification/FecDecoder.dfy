/** The FEC decoder, src/fec_decoder.cpp: unpack, depuncture, Viterbi search, pack, count errors. */
module FecDecoders {
  import opened Basics
  import opened Bits
  import opened ConvCode
  import opened Viterbi
  import opened ViterbiTies
  import FecEncoders
  import ViterbiDecoder

  /** The coded bits the decoder looks at: never more than the code has. */
  function TrimmedBits(rate: CodeRate, coded: seq<byte>, n: nat): seq<bool> {
    Unpack(coded)[..Min(8 * |coded|, CodedBitCount(rate, n))]
  }

  /** Depuncturing: a kept position takes the next coded bit while there is one. */
  function DepuncturedSymbol(codedBits: seq<bool>, i: nat): Symbol {
    if Kept(RATE_3_4, i) && KeptCount(RATE_3_4, i) < |codedBits|
    then Known(codedBits[KeptCount(RATE_3_4, i)])
    else ERASURE
  }

  /** The received word for a payload of `n` bytes. At rate 1/2 a short input shortens the word;
      at rate 3/4 it leaves erasures. */
  function Received(rate: CodeRate, coded: seq<byte>, n: nat): seq<Symbol> {
    var codedBits := TrimmedBits(rate, coded, n);
    match rate
    case RATE_1_2 => seq(|codedBits|, i requires 0 <= i < |codedBits| => Known(codedBits[i]))
    case RATE_3_4 => seq(2 * (8 * n + TAIL_BITS), i requires 0 <= i => DepuncturedSymbol(codedBits, i))
  }

  lemma ReceivedIsEven(rate: CodeRate, coded: seq<byte>, n: nat)
    ensures |Received(rate, coded, n)| % 2 == 0
    ensures |Received(rate, coded, n)| <= 2 * (8 * n + TAIL_BITS)
  {
    KeptCountHalf(2 * (8 * n + TAIL_BITS));
  }

  /** The data bits of a decoded path in bytes; a partial last byte keeps its bits low. */
  function OutputBytes(decoded: seq<bool>, n: nat): seq<byte> {
    var data := decoded[..Min(|decoded|, 8 * n)];
    var whole := |data| - |data| % 8;
    PackWhole(data[..whole]) + if whole < |data| then [ByteOf(data[whole..])] else []
  }

  /** What decoding promises: the output is read off the chosen maximum-likelihood path. */
  ghost predicate DecodesTo(rate: CodeRate, coded: seq<byte>, n: nat, output: seq<byte>) {
    exists best: seq<bool> ::
      Chosen(Received(rate, coded, n), best) && output == OutputBytes(best, n)
  }

  /** Decoding is a function: what is received and the announced length decide the output. */
  lemma DecodesToOnce(rate: CodeRate, coded: seq<byte>, n: nat, a: seq<byte>, b: seq<byte>)
    requires DecodesTo(rate, coded, n, a) && DecodesTo(rate, coded, n, b)
    ensures a == b
  {
    hide Chosen, Received, OutputBytes;
    var p :| Chosen(Received(rate, coded, n), p) && a == OutputBytes(p, n);
    var q :| Chosen(Received(rate, coded, n), q) && b == OutputBytes(q, n);
    ChosenIsUnique(Received(rate, coded, n), p, q);
  }

  /** Bit differences over the bytes two strings have in common. */
  function BitErrors(a: seq<byte>, b: seq<byte>): nat {
    var m := Min(|a|, |b|);
    Hamming(Unpack(a[..m]), Unpack(b[..m]))
  }

  class FecDecoder {
    const codeRate: CodeRate
    var correctedErrors: nat

    constructor (rate: CodeRate)
      ensures codeRate == rate && correctedErrors == 0
    {
      codeRate := rate;
      correctedErrors := 0;
    }

    method ResetErrorCount()
      modifies this
      ensures correctedErrors == 0
    {
      correctedErrors := 0;
    }

    /** The metrics cannot reach INF_METRIC for any length a frame header can carry. */
    method Decode(codedData: seq<byte>, originalByteLength: nat) returns (output: seq<byte>)
      modifies this
      ensures 2 * (8 * originalByteLength + TAIL_BITS) < INF_METRIC
              ==> DecodesTo(codeRate, codedData, originalByteLength, output)
      ensures correctedErrors == old(correctedErrors) + BitErrors(ConvCode.Encode(codeRate, output), codedData)
    {
      var originalBits := originalByteLength * 8;
      var totalInputBits := originalBits + TAIL_BITS;
      var rateHalfBits := 2 * totalInputBits;
      var actualCodedBits := ActualCodedBits(codeRate, rateHalfBits);
      var codedBits := UnpackTrimmed(codedData, actualCodedBits);
      var depunctured := Depuncture(codeRate, codedBits, rateHalfBits);
      assert depunctured == Received(codeRate, codedData, originalByteLength);
      ReceivedIsEven(codeRate, codedData, originalByteLength);
      var decoded := ViterbiDecoder.Search(depunctured);
      output := PackOutput(decoded[..], originalByteLength);

      var encoder := new FecEncoders.FecEncoder(codeRate);
      var reEncoded := encoder.Encode(output);
      var errors := CountErrors(reEncoded, codedData);
      correctedErrors := correctedErrors + errors;
    }
  }

  method ActualCodedBits(rate: CodeRate, rateHalfBits: nat) returns (count: nat)
    ensures count == KeptCount(rate, rateHalfBits)
  {
    if rate == RATE_1_2 {
      KeptCountHalf(rateHalfBits);
      return rateHalfBits;
    }
    var remainder := rateHalfBits % PUNCTURE_PERIOD;
    count := rateHalfBits / PUNCTURE_PERIOD * 4;
    var i := 0;
    while i < remainder
      invariant i <= remainder
      invariant count == rateHalfBits / PUNCTURE_PERIOD * 4 + KeptInPartial(i)
    {
      count := count + if Kept(RATE_3_4, i) then 1 else 0;
      i := i + 1;
    }
    KeptCountThreeQuarters(rateHalfBits);
  }

  /** Bytes to bits, stopping as soon as `limit` bits are out. */
  method UnpackTrimmed(codedData: seq<byte>, limit: nat) returns (codedBits: seq<bool>)
    requires limit > 0
    ensures codedBits == Unpack(codedData)[..Min(8 * |codedData|, limit)]
  {
    hide Unpack, BitAt;
    codedBits := [];
    ghost var all := Unpack(codedData);
    for k := 0 to |codedData|
      invariant codedBits == all[..8 * k] && |codedBits| < limit
    {
      var b := 8;
      while b > 0
        invariant 0 <= b <= 8
        invariant codedBits == all[..8 * k + 8 - b] && |codedBits| < limit
      {
        b := b - 1;
        UnpackAt(codedData, k, 7 - b);
        codedBits := codedBits + [BitAt(codedData[k], b)];
        if |codedBits| >= limit { return; }
      }
    }
  }

  method Depuncture(rate: CodeRate, codedBits: seq<bool>, rateHalfBits: nat) returns (depunctured: seq<Symbol>)
    ensures rate.RATE_1_2? ==> depunctured == seq(|codedBits|, i requires 0 <= i < |codedBits| => Known(codedBits[i]))
    ensures rate.RATE_3_4? ==> depunctured == seq(rateHalfBits, i requires 0 <= i => DepuncturedSymbol(codedBits, i))
  {
    if rate == RATE_1_2 {
      return seq(|codedBits|, i requires 0 <= i < |codedBits| => Known(codedBits[i]));
    }
    depunctured := [];
    var codedIdx := 0;
    for i := 0 to rateHalfBits
      invariant codedIdx == Min(KeptCount(RATE_3_4, i), |codedBits|)
      invariant |depunctured| == i
      invariant forall j :: 0 <= j < i ==> depunctured[j] == DepuncturedSymbol(codedBits, j)
    {
      if Kept(RATE_3_4, i) {
        if codedIdx < |codedBits| {
          depunctured := depunctured + [Known(codedBits[codedIdx])];
          codedIdx := codedIdx + 1;
        } else {
          depunctured := depunctured + [ERASURE];
        }
      } else {
        depunctured := depunctured + [ERASURE];
      }
    }
  }

  function FirstBytes(data: seq<bool>, k: nat): seq<byte>
    requires 8 * k <= |data|
  {
    PackWhole(data[..8 * k])
  }

  lemma FirstBytesNext(data: seq<bool>, k: nat)
    requires 8 * k + 8 <= |data|
    ensures FromBits(data[8 * k..8 * k + 8]) < 256
    ensures FirstBytes(data, k + 1) == FirstBytes(data, k) + [FromBits(data[8 * k..8 * k + 8])]
  {
    hide PackWhole;
    FecEncoders.PackNext(data, 8 * k);
  }

  lemma OutputParts(decoded: seq<bool>, n: nat, whole: nat)
    requires 8 * whole <= Min(|decoded|, 8 * n) < 8 * whole + 8
    ensures var data := decoded[..Min(|decoded|, 8 * n)];
            && FirstBytes(data, 0) == []
            && FromBits(data[8 * whole..]) < 256
            && OutputBytes(decoded, n)
               == FirstBytes(data, whole) + if 8 * whole < |data| then [FromBits(data[8 * whole..])] else []
  {
    hide FromBits;
    Pow2Monotone(Min(|decoded|, 8 * n) - 8 * whole, 8);
    Pow2Of8();
  }

  /** One chunk more: a whole byte, or the rest. */
  lemma ChunkDone(decoded: seq<bool>, n: nat, whole: nat, k: nat)
    requires 8 * whole <= Min(|decoded|, 8 * n) < 8 * whole + 8 && k <= whole && 8 * k < Min(|decoded|, 8 * n)
    ensures var data := decoded[..Min(|decoded|, 8 * n)];
            var chunk := decoded[8 * k..Min(8 * k + 8, |data|)];
            && FromBits(chunk) < 256
            && FirstBytes(data, k) + [FromBits(chunk)]
               == if k < whole then FirstBytes(data, k + 1) else OutputBytes(decoded, n)
  {
    var data := decoded[..Min(|decoded|, 8 * n)];
    OutputParts(decoded, n, whole);
    hide FirstBytes, FromBits, OutputBytes;
    if k < whole {
      FirstBytesNext(data, k);
      assert decoded[8 * k..8 * k + 8] == data[8 * k..8 * k + 8];
    } else {
      assert decoded[8 * k..|data|] == data[8 * whole..];
    }
  }

  /** Before the first chunk, and when no partial one is left. */
  lemma NoChunks(decoded: seq<bool>, n: nat, whole: nat)
    requires 8 * whole <= Min(|decoded|, 8 * n) < 8 * whole + 8
    ensures var data := decoded[..Min(|decoded|, 8 * n)];
            FirstBytes(data, 0) == [] && (8 * whole == |data| ==> OutputBytes(decoded, n) == FirstBytes(data, whole))
  {
    OutputParts(decoded, n, whole);
  }

  lemma WholeBytes(bits: nat) returns (whole: nat)
    ensures 8 * whole <= bits < 8 * whole + 8
  {
    whole := bits / 8;
  }

  method PackOutput(decoded: seq<bool>, originalByteLength: nat) returns (output: seq<byte>)
    ensures output == OutputBytes(decoded, originalByteLength)
  {
    hide FirstBytes, FromBits, OutputBytes;
    var originalBits := originalByteLength * 8;
    output := [];
    ghost var data := decoded[..Min(|decoded|, originalBits)];
    ghost var whole := WholeBytes(|data|);
    ghost var k := 0;
    NoChunks(decoded, originalByteLength, whole);
    var i := 0;
    while i < originalBits && i < |decoded|
      invariant i == 8 * k && k <= whole + 1
      invariant output == if k <= whole then FirstBytes(data, k) else OutputBytes(decoded, originalByteLength)
      decreases |decoded| + 8 - i
    {
      ChunkDone(decoded, originalByteLength, whole, k);
      var current := PackChunk(decoded, originalBits, i);
      output := output + [current];
      i := i + 8;
      k := k + 1;
    }
  }

  method PackChunk(decoded: seq<bool>, originalBits: nat, i: nat) returns (current: byte)
    requires i < originalBits && i < |decoded|
    ensures current == FromBits(decoded[i..Min(i + 8, Min(|decoded|, originalBits))])
  {
    var value: nat := 0;
    var b := 0;
    while b < 8 && i + b < |decoded| && i + b < originalBits
      invariant b <= 8 && i + b <= |decoded| && i + b <= originalBits
      invariant value == FromBits(decoded[i..i + b])
    {
      FecEncoders.PushNext(decoded, i, i + b);
      value := PushBit(value, decoded[i + b]);
      b := b + 1;
    }
    Pow2Monotone(b, 8);
    Pow2Of8();
    current := value;
  }

  /** The bit-by-bit count of `diff`. */
  method CountOnes(value: nat) returns (ones: nat)
    ensures ones == PopCount(value)
  {
    ones := 0;
    var diff := value;
    while diff > 0
      invariant ones + PopCount(diff) == PopCount(value)
    {
      ones := ones + diff % 2;
      diff := diff / 2;
    }
  }

  lemma OneByteMore(a: seq<byte>, b: seq<byte>, i: nat)
    requires i < |a| && i < |b|
    ensures Hamming(Unpack(a[..i + 1]), Unpack(b[..i + 1]))
            == Hamming(Unpack(a[..i]), Unpack(b[..i])) + PopCount(Xor(a[i], b[i]))
  {
    hide Hamming, PopCount, Xor;
    Pow2Of8();
    PopCountOfXor(a[i], b[i], 8);
    HammingConcat(Unpack(a[..i]), Unpack(b[..i]), ByteBits(a[i]), ByteBits(b[i]));
    assert a[..i + 1][..i] == a[..i] && b[..i + 1][..i] == b[..i];
  }

  method CountErrors(reEncoded: seq<byte>, codedData: seq<byte>) returns (errors: nat)
    ensures errors == BitErrors(reEncoded, codedData)
  {
    hide Unpack, PopCount, Xor;
    var compareBytes := if |reEncoded| < |codedData| then |reEncoded| else |codedData|;
    errors := 0;
    for i := 0 to compareBytes
      invariant errors == Hamming(Unpack(reEncoded[..i]), Unpack(codedData[..i]))
    {
      OneByteMore(reEncoded, codedData, i);
      var ones := CountOnes(Xor(reEncoded[i], codedData[i]));
      errors := errors + ones;
    }
  }
}
