/** End to end: what leaves `Encoder.Encode` comes back out of `Decoder.TryDecodeFrame`. */
module LinkTheorems {
  import opened Basics
  import opened Bits
  import opened ConvCode
  import opened Frames
  import opened SymbolMapper
  import opened Link
  import Crc32
  import FecCorrection
  import FecDecoders
  import FrameTheorems

  /** The frame sent, cut into its three sections. */
  lemma AirSections(cfg: Config, payload: seq<byte>, seqNum: nat)
    ensures var air := AirBits(cfg, payload, seqNum);
            var coded := AirPayload(cfg, payload);
            var h := HeaderFor(cfg, payload, seqNum);
            && ValidHeader(h) && |air| == HEADER_BITS + 8 * |coded| + CRC_BITS
            && air[..HEADER_BITS] == HeaderBits(h)
            && air[HEADER_BITS..|air| - CRC_BITS] == Unpack(coded)
            && air[|air| - CRC_BITS..] == ToBits(FrameCrc(h, payload), CRC_BITS)
  {
    hide HeaderBits, Unpack, ToBits, FrameCrc;
  }

  /** A received stream that starts with `bits`, up to hard decisions. */
  predicate StartsWith(symbols: seq<Symbol>, bits: seq<bool>) {
    2 * |symbols| >= |bits| && Demap(symbols)[..|bits|] == bits
  }

  /** If the header arrives intact, the receiver cuts out exactly the frame. */
  lemma FindsFrame(cfg: Config, payload: seq<byte>, seqNum: nat, symbols: seq<Symbol>, got: seq<bool>)
    requires |payload| < 0x1_0000
    requires |got| == |AirBits(cfg, payload, seqNum)| && StartsWith(symbols, got)
    requires got[..HEADER_BITS] == AirBits(cfg, payload, seqNum)[..HEADER_BITS]
    ensures FrameBitsAt(symbols) == Some(got)
    ensures ParsedHeader(got) == HeaderFor(cfg, payload, seqNum)
  {
    hide HeaderBits, ToBits, FrameCrc, ParsedHeader, Demap, Puncture, Conv, KeptCount;
    var h := HeaderFor(cfg, payload, seqNum);
    AirSections(cfg, payload, seqNum);
    var headerBits := Demap(symbols[..HEADER_SYMBOLS]);
    DemapPrefix(symbols, HEADER_SYMBOLS);
    assert headerBits[..HEADER_BITS] == Demap(symbols)[..HEADER_BITS] == got[..HEADER_BITS];
    FrameTheorems.HeaderOfBits(h, headerBits[HEADER_BITS..]);
    assert headerBits == HeaderBits(h) + headerBits[HEADER_BITS..];
    FrameTheorems.HeaderOfBits(h, got[HEADER_BITS..]);
    assert got == HeaderBits(h) + got[HEADER_BITS..];
    assert PayloadBitCount(headerBits) == Some(8 * |AirPayload(cfg, payload)|);
    var total := HEADER_BITS + 8 * |AirPayload(cfg, payload)| + CRC_BITS;
    var n := (total + 1) / 2;
    DemapPrefix(symbols, n);
    assert Demap(symbols[..n])[..total] == Demap(symbols)[..total];
  }

  /** The parsed parts of a received frame whose header and CRC arrived intact. */
  lemma ReceivedParts(cfg: Config, payload: seq<byte>, seqNum: nat, got: seq<bool>)
    requires |payload| < 0x1_0000
    requires var air := AirBits(cfg, payload, seqNum);
             && |got| == |air| && got[..HEADER_BITS] == air[..HEADER_BITS]
             && got[|air| - CRC_BITS..] == air[|air| - CRC_BITS..]
    ensures ParseUncheckedSpec(got).Some?
    ensures var frame := ParseUncheckedSpec(got).value;
            && frame.header == HeaderFor(cfg, payload, seqNum)
            && frame.crc == FrameCrc(frame.header, payload)
            && |frame.payload| == |AirPayload(cfg, payload)|
            && Unpack(frame.payload) == got[HEADER_BITS..|got| - CRC_BITS]
  {
    hide HeaderBits, HeaderBytes, ToBits, FromBits, ParsedHeader, PackWhole, Crc32.Crc;
    var h := HeaderFor(cfg, payload, seqNum);
    AirSections(cfg, payload, seqNum);
    FrameTheorems.HeaderOfBits(h, got[HEADER_BITS..]);
    assert got == HeaderBits(h) + got[HEADER_BITS..];
    assert PayloadBits(got) == got[HEADER_BITS..|got| - CRC_BITS];
    UnpackPackWhole(PayloadBits(got));
    FrameTheorems.CrcIsWord(HeaderBytes(h) + payload);
    FromBitsOfToBits(FrameCrc(h, payload), CRC_BITS);
  }

  /** Clean channel: for FEC off and at both rates, the encoder's data symbols followed by any
      trailing symbols decode to the payload. */
  lemma CleanEndToEnd(cfg: Config, payload: seq<byte>, seqNum: nat, symbols: seq<Symbol>, result: Option<seq<byte>>)
    requires |payload| < 0x1_0000
    requires StartsWith(symbols, AirBits(cfg, payload, seqNum))
    requires MayReturn(cfg.fecCodeRate, symbols, result)
    ensures result == Some(payload)
    ensures FrameBitsAt(symbols) == Some(AirBits(cfg, payload, seqNum))
    ensures cfg.fecEnabled ==> CorrectedBits(cfg.fecCodeRate, AirBits(cfg, payload, seqNum), payload) == 0
  {
    hide AirBits, FrameBitsAt, FrameMayReturn, CorrectedBits;
    var air := AirBits(cfg, payload, seqNum);
    FindsFrame(cfg, payload, seqNum, symbols, air);
    if cfg.fecEnabled {
      CleanCoded(cfg, payload, seqNum, result);
    } else {
      CleanPlain(cfg, payload, seqNum, result);
    }
  }

  lemma CleanPlain(cfg: Config, payload: seq<byte>, seqNum: nat, result: Option<seq<byte>>)
    requires |payload| < 0x1_0000 && !cfg.fecEnabled
    requires ParsedHeader(AirBits(cfg, payload, seqNum)) == HeaderFor(cfg, payload, seqNum)
    requires FrameMayReturn(cfg.fecCodeRate, AirBits(cfg, payload, seqNum), result)
    ensures result == Some(payload)
  {
    hide ParseUncheckedSpec, ParsedHeader, Unpack, Crc32.Crc, HeaderBytes, HeaderBits;
    var air := AirBits(cfg, payload, seqNum);
    AirSections(cfg, payload, seqNum);
    ReceivedParts(cfg, payload, seqNum, air);
    var frame := ParseUncheckedSpec(air).value;
    UnpackInjective(frame.payload, payload);
    assert frame.payload[..|payload|] == payload;
  }

  lemma CleanCoded(cfg: Config, payload: seq<byte>, seqNum: nat, result: Option<seq<byte>>)
    requires |payload| < 0x1_0000 && cfg.fecEnabled
    requires ParsedHeader(AirBits(cfg, payload, seqNum)) == HeaderFor(cfg, payload, seqNum)
    requires FrameMayReturn(cfg.fecCodeRate, AirBits(cfg, payload, seqNum), result)
    ensures result == Some(payload)
    ensures CorrectedBits(cfg.fecCodeRate, AirBits(cfg, payload, seqNum), payload) == 0
  {
    hide AirBits, ParseUncheckedSpec, ParsedHeader, Unpack, Crc32.Crc, HeaderBytes, HeaderBits,
      FecDecoders.DecodesTo, ConvCode.Encode;
    var air := AirBits(cfg, payload, seqNum);
    AirSections(cfg, payload, seqNum);
    ReceivedParts(cfg, payload, seqNum, air);
    var frame := ParseUncheckedSpec(air).value;
    UnpackInjective(frame.payload, AirPayload(cfg, payload));
    var output :| CodedOutcome(cfg.fecCodeRate, air, output, result);
    FecCorrection.CleanRoundTrip(cfg.fecCodeRate, payload, output);
  }

  /** The transmitted symbol stream itself, read from the end of its preamble. */
  lemma TransmittedStartsWith(cfg: Config, payload: seq<byte>, seqNum: nat, trailing: seq<Symbol>)
    ensures var start := cfg.acquisitionSymbols + 2 * |cfg.preamble|;
            var stream := FrameSymbols(cfg, payload, seqNum) + trailing;
            && start <= |stream|
            && StartsWith(stream[start..], AirBits(cfg, payload, seqNum))
  {
    hide AirBits, MapBits, Demap;
    var start := cfg.acquisitionSymbols + 2 * |cfg.preamble|;
    var stream := FrameSymbols(cfg, payload, seqNum) + trailing;
    var air := AirBits(cfg, payload, seqNum);
    DemapOfMap(air, Tail() + trailing);
    assert stream[start..] == MapBits(air) + (Tail() + trailing);
  }

  /** The receiver is a function: the corrected symbols decide what is returned. */
  lemma ResultIsDetermined(rate: CodeRate, symbols: seq<Symbol>, a: Option<seq<byte>>, b: Option<seq<byte>>)
    requires MayReturn(rate, symbols, a) && MayReturn(rate, symbols, b)
    ensures a == b
  {
    hide FrameBitsAt, ParseSpec, ParseUncheckedSpec, ParsedHeader, CrcMatches, FecDecoders.DecodesTo;
    LongEnough(symbols);
    if FrameBitsAt(symbols).Some? {
      var bits := FrameBitsAt(symbols).value;
      if ParsedHeader(bits).fecEnabled {
        UncheckedParts(bits);
        var x: seq<byte> :| CodedOutcome(rate, bits, x, a);
        var y: seq<byte> :| CodedOutcome(rate, bits, y, b);
        var frame := ParseUncheckedSpec(bits).value;
        FecDecoders.DecodesToOnce(rate, frame.payload, frame.header.payloadLength, x, y);
      }
    }
  }

  // ----- damaged payload section -----

  /** What two sections of coded bits look like to the FEC decoder. */
  lemma DamagedSection(cfg: Config, payload: seq<byte>, seqNum: nat, got: seq<bool>)
    requires |payload| < 0x1_0000 && cfg.fecEnabled && cfg.fecCodeRate == RATE_1_2
    requires var air := AirBits(cfg, payload, seqNum);
             && |got| == |air| && got[..HEADER_BITS] == air[..HEADER_BITS]
             && got[|air| - CRC_BITS..] == air[|air| - CRC_BITS..]
    ensures ParseUncheckedSpec(got).Some?
    ensures var frame := ParseUncheckedSpec(got).value;
            && |frame.payload| == |ConvCode.Encode(RATE_1_2, payload)|
            && Hamming(Unpack(ConvCode.Encode(RATE_1_2, payload)), Unpack(frame.payload))
               == Hamming(AirBits(cfg, payload, seqNum), got)
  {
    hide AirBits, ParseUncheckedSpec, ConvCode.Encode, Unpack, HeaderBits, ToBits, FrameCrc;
    var air := AirBits(cfg, payload, seqNum);
    AirSections(cfg, payload, seqNum);
    ReceivedParts(cfg, payload, seqNum, got);
    var end := |air| - CRC_BITS;
    HammingSplit(air, got, HEADER_BITS);
    HammingSplit(air[HEADER_BITS..], got[HEADER_BITS..], end - HEADER_BITS);
    assert air[HEADER_BITS..][..end - HEADER_BITS] == air[HEADER_BITS..end];
    assert got[HEADER_BITS..][..end - HEADER_BITS] == got[HEADER_BITS..end];
    assert air[HEADER_BITS..][end - HEADER_BITS..] == air[end..];
    assert got[HEADER_BITS..][end - HEADER_BITS..] == got[end..];
    HammingZero(air[..HEADER_BITS], got[..HEADER_BITS]);
    HammingZero(air[end..], got[end..]);
  }

  /** One wrong hard decision anywhere in the coded payload section is repaired and counted. */
  lemma OneErrorEndToEnd(cfg: Config, payload: seq<byte>, seqNum: nat, symbols: seq<Symbol>, got: seq<bool>,
                         result: Option<seq<byte>>)
    requires |payload| < 0x1_0000 && cfg.fecEnabled && cfg.fecCodeRate == RATE_1_2
    requires |got| == |AirBits(cfg, payload, seqNum)| && StartsWith(symbols, got)
    requires var air := AirBits(cfg, payload, seqNum);
             && got[..HEADER_BITS] == air[..HEADER_BITS]
             && got[|air| - CRC_BITS..] == air[|air| - CRC_BITS..]
             && Hamming(air, got) == 1
    requires MayReturn(RATE_1_2, symbols, result)
    ensures result == Some(payload)
    ensures FrameBitsAt(symbols) == Some(got) && CorrectedBits(RATE_1_2, got, payload) == 1
  {
    hide AirBits, FrameBitsAt, ParseUncheckedSpec, ParsedHeader, Unpack, Crc32.Crc, HeaderBytes,
      FecDecoders.DecodesTo, ConvCode.Encode, Hamming;
    FindsFrame(cfg, payload, seqNum, symbols, got);
    ReceivedParts(cfg, payload, seqNum, got);
    DamagedSection(cfg, payload, seqNum, got);
    var frame := ParseUncheckedSpec(got).value;
    var output :| CodedOutcome(RATE_1_2, got, output, result);
    FecCorrection.CorrectsOneError(payload, frame.payload, output);
  }

  /** Up to four wrong hard decisions in the coded payload section are repaired or noticed: the
      receiver never returns a wrong payload, because the FEC decoder can then only be wrong in the
      last thirteen bits and the CRC sees that. */
  lemma FourErrorsNeverMislead(cfg: Config, payload: seq<byte>, seqNum: nat, symbols: seq<Symbol>, got: seq<bool>,
                               result: Option<seq<byte>>)
    requires |payload| < 0x1_0000 && cfg.fecEnabled && cfg.fecCodeRate == RATE_1_2
    requires |got| == |AirBits(cfg, payload, seqNum)| && StartsWith(symbols, got)
    requires var air := AirBits(cfg, payload, seqNum);
             && got[..HEADER_BITS] == air[..HEADER_BITS]
             && got[|air| - CRC_BITS..] == air[|air| - CRC_BITS..]
             && Hamming(air, got) <= 4
    requires MayReturn(RATE_1_2, symbols, result)
    ensures result == Some(payload) || result == None
  {
    hide AirBits, FrameBitsAt, ParseUncheckedSpec, ParsedHeader, Unpack, Crc32.Crc, HeaderBytes,
      FecDecoders.DecodesTo, ConvCode.Encode, Hamming;
    FindsFrame(cfg, payload, seqNum, symbols, got);
    ReceivedParts(cfg, payload, seqNum, got);
    DamagedSection(cfg, payload, seqNum, got);
    var frame := ParseUncheckedSpec(got).value;
    var output :| CodedOutcome(RATE_1_2, got, output, result);
    FecCorrection.FewErrorsSpareAllButTheEnd(payload, frame.payload, output);
    if output != payload {
      var n := if |payload| >= 2 then |payload| - 2 else 0;
      if |payload| >= 2 { OnlyTheEndDiffers(payload, output, FecCorrection.ReachOf(Hamming(AirBits(cfg, payload, seqNum), got))); }
      assert payload[..n] == output[..n];
      var head := HeaderBytes(frame.header);
      SameBefore(head, payload, output, n);
      Crc32.DetectsFourByteBurst(head + payload, head + output, |head| + n);
    }
  }

  lemma SameBefore(head: seq<byte>, a: seq<byte>, b: seq<byte>, n: nat)
    requires |a| == |b| && n <= |a| <= n + 2 && a[..n] == b[..n] && a != b
    ensures head + a != head + b
    ensures forall j :: 0 <= j < |head| + |a| && !(|head| + n <= j < |head| + n + 4) ==> (head + a)[j] == (head + b)[j]
  {
    assert (head + a)[|head|..] == a && (head + b)[|head|..] == b;
    forall j | 0 <= j < |head| + |a| && !(|head| + n <= j < |head| + n + 4) ensures (head + a)[j] == (head + b)[j] {
      if j >= |head| { assert a[..n][j - |head|] == b[..n][j - |head|]; }
    }
  }

  lemma OnlyTheEndDiffers(a: seq<byte>, b: seq<byte>, reach: nat)
    requires |a| == |b| >= 2 && reach <= 16 && Unpack(a)[..8 * |a| - reach] == Unpack(b)[..8 * |a| - reach]
    ensures a[..|a| - 2] == b[..|a| - 2]
  {
    var n := |a| - 2;
    UnpackPrefix(a, n);
    UnpackPrefix(b, n);
    var m := 8 * |a| - reach;
    assert Unpack(a)[..m][..8 * n] == Unpack(a)[..8 * n];
    assert Unpack(b)[..m][..8 * n] == Unpack(b)[..8 * n];
    UnpackInjective(a[..n], b[..n]);
  }
}
