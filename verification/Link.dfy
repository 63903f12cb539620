/** The bit path of the modem: src/encoder.cpp steps 1 to 8 and `try_decode_frame` of
    src/decoder.cpp, from the frame start on. */
module Link {
  import opened Basics
  import opened Bits
  import opened ConvCode
  import opened Frames
  import opened SymbolMapper
  import opened Phase
  import FecDecoders
  import FecEncoders
  import Viterbi

  const TAIL_SYMBOLS := 6

  function RateValue(rate: CodeRate): nat { if rate == RATE_1_2 then 0 else 1 }

  function RateOf(value: nat): CodeRate
    requires value < 2
  {
    if value == 0 then RATE_1_2 else RATE_3_4
  }

  datatype Config = Config(preamble: seq<bool>, fecEnabled: bool, fecCodeRate: CodeRate, acquisitionSymbols: nat)

  function HeaderFor(cfg: Config, payload: seq<byte>, seqNum: nat): FrameHeader {
    FrameHeader(|payload| % 0x1_0000, 0, cfg.fecEnabled, RateValue(cfg.fecCodeRate), seqNum % 4096)
  }

  /** The payload section on the air: coded bytes when FEC is on. */
  function AirPayload(cfg: Config, payload: seq<byte>): seq<byte> {
    if cfg.fecEnabled then ConvCode.Encode(cfg.fecCodeRate, payload) else payload
  }

  /** Header, payload section and the CRC of the original payload. */
  function AirBits(cfg: Config, payload: seq<byte>, seqNum: nat): (bits: seq<bool>)
    ensures |bits| == HEADER_BITS + 8 * |AirPayload(cfg, payload)| + CRC_BITS
  {
    var h := HeaderFor(cfg, payload, seqNum);
    HeaderBits(h) + Unpack(AirPayload(cfg, payload)) + ToBits(FrameCrc(h, payload), CRC_BITS)
  }

  function AcquisitionPoint(i: nat): Symbol {
    if i % 4 == 0 then Symbol(S, S) else if i % 4 == 1 then Symbol(S, -S)
    else if i % 4 == 2 then Symbol(-S, -S) else Symbol(-S, S)
  }

  function Acquisition(count: nat): seq<Symbol> {
    seq(count, i requires 0 <= i => AcquisitionPoint(i))
  }

  function Tail(): seq<Symbol> {
    seq(TAIL_SYMBOLS, _ => Symbol(0.0, 0.0))
  }

  /** The symbol stream handed to the pulse shaper. */
  function FrameSymbols(cfg: Config, payload: seq<byte>, seqNum: nat): seq<Symbol> {
    Acquisition(cfg.acquisitionSymbols) + BpskMap(cfg.preamble + cfg.preamble)
    + MapBits(AirBits(cfg, payload, seqNum)) + Tail()
  }

  class Encoder {
    const config: Config
    const frameBuilder: FrameBuilder
    const fecEncoder: FecEncoders.FecEncoder
    var framesTransmitted: nat
    var symbolsTransmitted: nat

    ghost predicate Valid() {
      frameBuilder.preamble == config.preamble + config.preamble && fecEncoder.codeRate == config.fecCodeRate
    }

    constructor (config: Config)
      ensures Valid() && this.config == config && fresh(frameBuilder) && frameBuilder.seqNum == 0
    {
      this.config := config;
      frameBuilder := new FrameBuilder(config.preamble + config.preamble);
      fecEncoder := new FecEncoders.FecEncoder(config.fecCodeRate);
      framesTransmitted := 0;
      symbolsTransmitted := 0;
    }

    method Encode(payload: seq<byte>) returns (allSymbols: seq<Symbol>)
      requires Valid()
      modifies this, frameBuilder
      ensures Valid()
      ensures allSymbols == FrameSymbols(config, payload, old(frameBuilder.seqNum))
      ensures frameBuilder.seqNum == (old(frameBuilder.seqNum) + 1) % 4096
      ensures framesTransmitted == old(framesTransmitted) + 1
      ensures symbolsTransmitted == old(symbolsTransmitted) + |allSymbols|
    {
      hide HeaderBits, FrameCrc, ToBits, Unpack, MapBits, ConvCode.Encode;
      ghost var seqNum := frameBuilder.seqNum;
      var preambleBitsCount := |config.preamble| * 2;
      var frameBits := frameBuilder.BuildFrame(payload, 0, config.fecEnabled, RateValue(config.fecCodeRate));
      assert frameBits == frameBuilder.preamble + DataBits(HeaderFor(config, payload, seqNum), payload);
      if config.fecEnabled {
        var codedBytes := fecEncoder.Encode(payload);
        var codedBits := FecEncoders.UnpackBytes(codedBytes);
        var payloadStart := preambleBitsCount + HEADER_BITS;
        frameBits := frameBits[..payloadStart] + codedBits + frameBits[|frameBits| - CRC_BITS..];
      }
      assert frameBits == frameBuilder.preamble + AirBits(config, payload, seqNum);
      var preambleBits := frameBits[..preambleBitsCount];
      var dataBits := frameBits[preambleBitsCount..];
      assert preambleBits == config.preamble + config.preamble;
      assert dataBits == AirBits(config, payload, seqNum);
      var preambleSymbols := BpskMapPreamble(preambleBits);
      var dataSymbols, padding := MapMethod(dataBits);
      allSymbols := Acquisition(config.acquisitionSymbols) + preambleSymbols + dataSymbols + Tail();
      framesTransmitted := framesTransmitted + 1;
      symbolsTransmitted := symbolsTransmitted + |allSymbols|;
    }
  }

  // ----- receiving -----

  const HEADER_SYMBOLS := 18

  /** Payload section length announced by a header, or nothing for an unknown code rate. */
  function PayloadBitCount(headerBits: seq<bool>): Option<nat>
    requires |headerBits| >= HEADER_BITS
  {
    var h := ParsedHeader(headerBits);
    if !h.fecEnabled then Some(8 * h.payloadLength)
    else if h.fecCodeRate >= 2 then None
    else Some(8 * ((CodedBitCount(RateOf(h.fecCodeRate), h.payloadLength) + 7) / 8))
  }

  /** The bits of the frame at the start of a symbol stream, once the whole frame is there. */
  function FrameBitsAt(symbols: seq<Symbol>): Option<seq<bool>> {
    if |symbols| < HEADER_SYMBOLS then None
    else match PayloadBitCount(Demap(symbols[..HEADER_SYMBOLS]))
      case None => None
      case Some(payloadBitCount) =>
        var total := HEADER_BITS + payloadBitCount + CRC_BITS;
        if |symbols| < (total + 1) / 2 then None
        else Some(Demap(symbols[..(total + 1) / 2])[..total])
  }

  /** A coded payload section decodes to `output`, which is returned if the CRC agrees. */
  ghost predicate CodedOutcome(decoderRate: CodeRate, bits: seq<bool>, output: seq<byte>, result: Option<seq<byte>>)
    requires |bits| >= HEADER_BITS + CRC_BITS
  {
    var frame := ParseUncheckedSpec(bits).value;
    && FecDecoders.DecodesTo(decoderRate, frame.payload, frame.header.payloadLength, output)
    && result == if CrcMatches(frame.(payload := output)) then Some(output) else None
  }

  lemma LongEnough(symbols: seq<Symbol>)
    ensures FrameBitsAt(symbols).Some? ==> |FrameBitsAt(symbols).value| >= HEADER_BITS + CRC_BITS
  {
    hide Demap;
  }

  /** What may come out of a complete frame: with FEC the payload is read off some most likely
      path and has to match the CRC; without, the parsed payload is cut to length. */
  ghost predicate FrameMayReturn(decoderRate: CodeRate, bits: seq<bool>, result: Option<seq<byte>>)
    requires |bits| >= HEADER_BITS + CRC_BITS
  {
    if ParsedHeader(bits).fecEnabled then
      exists output: seq<byte> :: CodedOutcome(decoderRate, bits, output, result)
    else match ParseSpec(bits)
      case None => result == None
      case Some(frame) =>
        result == Some(frame.payload[..Min(|frame.payload|, frame.header.payloadLength)])
  }

  /** What `try_decode_frame` may return for data symbols. */
  ghost predicate MayReturn(decoderRate: CodeRate, symbols: seq<Symbol>, result: Option<seq<byte>>) {
    match FrameBitsAt(symbols)
    case None => result == None
    case Some(bits) => FrameMayReturn(decoderRate, bits, result)
  }

  /** Coded bits in which the re-encoded result differs from the received payload section. */
  function CorrectedBits(decoderRate: CodeRate, bits: seq<bool>, output: seq<byte>): nat
    requires |bits| >= HEADER_BITS + CRC_BITS
  {
    FecDecoders.BitErrors(ConvCode.Encode(decoderRate, output), ParseUncheckedSpec(bits).value.payload)
  }

  /** The error count grows by the corrected bits of what was decoded, returned or not. */
  ghost predicate CountsErrors(decoderRate: CodeRate, bits: seq<bool>, result: Option<seq<byte>>, added: int)
    requires |bits| >= HEADER_BITS + CRC_BITS
  {
    exists output: seq<byte> ::
      CodedOutcome(decoderRate, bits, output, result) && added == CorrectedBits(decoderRate, bits, output)
  }

  /** `extract_bits_from_vec`: like ExtractBits, but positions past the end are skipped. */
  method ExtractBitsFromVec(bits: seq<bool>, offset: nat, count: nat) returns (value: nat)
    ensures offset + count <= |bits| ==> value == FromBits(bits[offset..offset + count])
  {
    value := 0;
    for i := 0 to count
      invariant offset + count <= |bits| ==> value == FromBits(bits[offset..offset + i])
    {
      if offset + i < |bits| {
        FecEncoders.PushNext(bits, offset, offset + i);
        value := PushBit(value, bits[offset + i]);
      }
    }
  }

  class Decoder {
    const fecDecoder: FecDecoders.FecDecoder
    const preamble: seq<bool>
    var framesReceived: nat
    var fecErrorsCorrected: nat

    /** The preamble is doubled, as on the sending side. */
    constructor (rate: CodeRate, preamble: seq<bool>)
      ensures fecDecoder.codeRate == rate && fresh(fecDecoder) && this.preamble == preamble + preamble
      ensures framesReceived == 0 && fecErrorsCorrected == 0
    {
      this.preamble := preamble + preamble;
      fecDecoder := new FecDecoders.FecDecoder(rate);
      framesReceived := 0;
      fecErrorsCorrected := 0;
    }

    /** `frameStart` is what the frame synchronizer detected; the phase is taken from the preamble in
        front of it. */
    method TryDecodeFrame(recovered: seq<Symbol>, frameStart: Option<nat>, magnitude: Symbol -> real)
      returns (result: Option<seq<byte>>)
      requires frameStart.Some? ==> frameStart.value <= |recovered|
      modifies this, fecDecoder
      ensures frameStart == None ==> result == None
      ensures frameStart.Some? ==> MayReturn(fecDecoder.codeRate, CorrectedFrom(recovered, frameStart.value, preamble, magnitude), result)
      ensures framesReceived == old(framesReceived) + if result.Some? then 1 else 0
      ensures var bits := if frameStart.Some? then FrameBitsAt(CorrectedFrom(recovered, frameStart.value, preamble, magnitude)) else None;
              if bits.Some? && ParsedHeader(bits.value).fecEnabled then
                && fecErrorsCorrected == fecDecoder.correctedErrors
                && CountsErrors(fecDecoder.codeRate, bits.value, result, fecDecoder.correctedErrors - old(fecDecoder.correctedErrors))
              else
                fecErrorsCorrected == old(fecErrorsCorrected) && fecDecoder.correctedErrors == old(fecDecoder.correctedErrors)
    {
      hide FrameBitsAt, FrameMayReturn, CountsErrors, ParsedHeader, CorrectedFrom;
      if frameStart.Some? { LongEnough(CorrectedFrom(recovered, frameStart.value, preamble, magnitude)); }
      if frameStart.None? { return None; }
      var dataSymbols := CorrectPhase(recovered, frameStart.value, preamble, magnitude);
      var frameBits := ReadFrameBits(dataSymbols);
      if frameBits.None? { return None; }
      var bits := frameBits.value;
      var header := ReadHeader(bits);
      if header.fecEnabled {
        result := DecodeCoded(bits);
      } else {
        result := DecodePlain(bits);
      }
      if result.Some? {
        framesReceived := framesReceived + 1;
      }
    }

    /** FEC on: the CRC was computed over the original payload, so decode first, then verify. */
    method DecodeCoded(bits: seq<bool>) returns (result: Option<seq<byte>>)
      requires |bits| >= HEADER_BITS + CRC_BITS && ParsedHeader(bits).fecEnabled
      modifies this`fecErrorsCorrected, fecDecoder
      ensures FrameMayReturn(fecDecoder.codeRate, bits, result)
      ensures fecErrorsCorrected == fecDecoder.correctedErrors
      ensures CountsErrors(fecDecoder.codeRate, bits, result, fecDecoder.correctedErrors - old(fecDecoder.correctedErrors))
    {
      hide ParseUncheckedSpec, ParsedHeader, CrcMatches, ConvCode.Encode, FecDecoders.DecodesTo, FecDecoders.BitErrors;
      var unchecked := ParseUnchecked(bits);
      UncheckedParts(bits);
      var frame := unchecked.value;
      var decodedPayload := fecDecoder.Decode(frame.payload, frame.header.payloadLength);
      fecErrorsCorrected := fecDecoder.correctedErrors;
      var crcCheckFrame := frame.(payload := decodedPayload);
      var ok := VerifyCrc(crcCheckFrame);
      result := if ok then Some(decodedPayload) else None;
      assert CodedOutcome(fecDecoder.codeRate, bits, decodedPayload, result);
    }
  }

  method DecodePlain(bits: seq<bool>) returns (result: Option<seq<byte>>)
    requires |bits| >= HEADER_BITS + CRC_BITS && !ParsedHeader(bits).fecEnabled
    ensures forall rate :: FrameMayReturn(rate, bits, result)
  {
    hide ParseSpec, ParsedHeader;
    var parsed := Parse(bits);
    if parsed.None? { return None; }
    var decodedPayload := parsed.value.payload;
    if |decodedPayload| > parsed.value.header.payloadLength {
      decodedPayload := decodedPayload[..parsed.value.header.payloadLength];
    }
    assert parsed.value.payload[..|parsed.value.payload|] == parsed.value.payload;
    result := Some(decodedPayload);
  }

  method ReadHeader(bits: seq<bool>) returns (header: FrameHeader)
    requires |bits| >= HEADER_BITS + CRC_BITS
    ensures header == ParsedHeader(bits)
  {
    var frame := ParseUnchecked(bits);
    header := frame.value.header;
  }

  lemma UncheckedParts(bits: seq<bool>)
    requires |bits| >= HEADER_BITS + CRC_BITS
    ensures ParseUncheckedSpec(bits).Some?
    ensures ParseUncheckedSpec(bits).value.header == ParsedHeader(bits)
    ensures ParsedHeader(bits).payloadLength < 0x1_0000
  {
    assert Pow2(16) == 0x1_0000 by { Pow2Of16(); }
  }

  lemma Pow2Of16()
    ensures Pow2(16) == 0x1_0000
  {
    Pow2Of8();
    assert Pow2(10) == 4 * Pow2(8);
    assert Pow2(12) == 4 * Pow2(10);
    assert Pow2(14) == 4 * Pow2(12);
    assert Pow2(16) == 4 * Pow2(14);
  }

  lemma FlagValue(bits: seq<bool>)
    requires |bits| >= HEADER_BITS
    ensures FromBits(bits[20..21]) != 0 <==> bits[20]
  {
    assert bits[20..21][..0] == [] && bits[20..21][0] == bits[20];
  }

  /** Header first, to learn the frame length; then exactly the frame's bits. */
  method ReadFrameBits(dataSymbols: seq<Symbol>) returns (bits: Option<seq<bool>>)
    ensures bits == FrameBitsAt(dataSymbols)
    ensures bits.Some? ==> |bits.value| >= HEADER_BITS + CRC_BITS
  {
    hide Demap, FromBits, CodedBitCount, ConvCode.Encode;
    if |dataSymbols| < HEADER_SYMBOLS { return None; }
    var headerBits := DemapMethod(dataSymbols[..HEADER_SYMBOLS]);
    var frameLength := ExtractBitsFromVec(headerBits, 0, 16);
    var fecFlag := ExtractBitsFromVec(headerBits, 20, 1);
    FlagValue(headerBits);
    var fecRateVal := ExtractBitsFromVec(headerBits, 21, 2);
    var payloadBitCount;
    if fecFlag != 0 {
      if fecRateVal >= 2 { return None; }
      var tempEncoder := new FecEncoders.FecEncoder(RateOf(fecRateVal));
      var codedBytes := tempEncoder.CodedLength(frameLength);
      payloadBitCount := codedBytes * 8;
    } else {
      payloadBitCount := frameLength * 8;
    }
    assert PayloadBitCount(headerBits) == Some(payloadBitCount);
    var totalDataBits := HEADER_BITS + payloadBitCount + CRC_BITS;
    var totalDataSymbols := (totalDataBits + 1) / 2;
    if |dataSymbols| < totalDataSymbols { return None; }
    var frame := DemapMethod(dataSymbols[..totalDataSymbols]);
    if |frame| > totalDataBits {
      frame := frame[..totalDataBits];
    }
    assert frame == Demap(dataSymbols[..totalDataSymbols])[..totalDataBits];
    bits := Some(frame);
  }
}
