/** What is on the air, symbol by symbol and bit by bit: the format every other station has to agree
    on, and the round trip through a channel that turns and scales. */
module AirFormat {
  import opened Basics
  import opened Bits
  import opened ConvCode
  import opened Frames
  import opened SymbolMapper
  import opened Phase
  import opened Link
  import opened LinkTheorems
  import CodeWords
  import Crc32
  import FrameTheorems

  // ----- symbols -----

  /** The second symbol and every later one is its predecessor turned clockwise by a quarter. */
  lemma AcquisitionTurns(cfg: Config, payload: seq<byte>, seqNum: nat, i: nat)
    requires i < cfg.acquisitionSymbols
    ensures var stream := FrameSymbols(cfg, payload, seqNum);
            && i < |stream|
            && (i == 0 ==> stream[i].re == stream[i].im > 0.0)
            && (i > 0 ==> stream[i] == Times(stream[i - 1], Symbol(0.0, -1.0)))
            && NearUnitCircle(stream[i])
  {
    hide AirBits, MapBits, AcquisitionPoint, Times, NearUnitCircle;
    var stream := FrameSymbols(cfg, payload, seqNum);
    PointTurns(i);
    assert stream[i] == AcquisitionPoint(i);
    if i > 0 { assert stream[i - 1] == AcquisitionPoint(i - 1); }
  }

  lemma PointTurns(i: nat)
    ensures NearUnitCircle(AcquisitionPoint(i))
    ensures i == 0 ==> AcquisitionPoint(i).re == AcquisitionPoint(i).im > 0.0
    ensures i > 0 ==> AcquisitionPoint(i) == Times(AcquisitionPoint(i - 1), Symbol(0.0, -1.0))
  {
  }

  /** Both halves of the doubled preamble: in phase, plus one for a zero and minus one for a one. */
  lemma PreambleOnAir(cfg: Config, payload: seq<byte>, seqNum: nat, i: nat)
    requires i < 2 * |cfg.preamble|
    ensures var stream := FrameSymbols(cfg, payload, seqNum);
            var at := cfg.acquisitionSymbols + i;
            && at < |stream| && stream[at].im == 0.0
            && stream[at].re == if cfg.preamble[i % |cfg.preamble|] then -1.0 else 1.0
  {
    hide AirBits, MapBits;
    var n := |cfg.preamble|;
    assert (cfg.preamble + cfg.preamble)[i] == cfg.preamble[i % n];
  }

  /** The data symbols: of the two bits a symbol carries, the first is the sign of the imaginary and the
      second that of the real part. */
  lemma DataOnAir(cfg: Config, payload: seq<byte>, seqNum: nat, k: nat)
    requires 2 * k < |AirBits(cfg, payload, seqNum)|
    ensures var stream := FrameSymbols(cfg, payload, seqNum);
            var air := AirBits(cfg, payload, seqNum);
            var at := cfg.acquisitionSymbols + 2 * |cfg.preamble| + k;
            && at < |stream| && NearUnitCircle(stream[at])
            && (stream[at].im < 0.0 <==> air[2 * k])
            && (stream[at].re < 0.0 <==> 2 * k + 1 < |air| && air[2 * k + 1])
  {
    hide AirBits, MapBits, BpskMap, NearUnitCircle;
    var air := AirBits(cfg, payload, seqNum);
    MappedSymbol(air, k);
    var preface := Acquisition(cfg.acquisitionSymbols) + BpskMap(cfg.preamble + cfg.preamble);
    assert FrameSymbols(cfg, payload, seqNum) == preface + MapBits(air) + Tail();
    assert (preface + MapBits(air) + Tail())[|preface| + k] == MapBits(air)[k];
  }

  /** The stream ends in six symbols of silence. */
  lemma TailOnAir(cfg: Config, payload: seq<byte>, seqNum: nat)
    ensures var stream := FrameSymbols(cfg, payload, seqNum);
            var n := cfg.acquisitionSymbols + 2 * |cfg.preamble| + (|AirBits(cfg, payload, seqNum)| + 1) / 2;
            |stream| == n + 6 && forall i :: n <= i < n + 6 ==> stream[i] == Symbol(0.0, 0.0)
  {
    hide AirBits, MapBits;
  }

  // ----- bits -----

  /** Bit `k` of a number. */
  predicate Digit(x: nat, k: nat) { x / Pow2(k) % 2 == 1 }

  lemma FieldBit(x: nat, n: nat, i: nat)
    requires i < n
    ensures ToBits(x, n)[i] <==> Digit(x, n - 1 - i)
  {
    ToBitsAt(x, n, i);
    BitAtIsDigit(x, n - 1 - i);
  }

  /** The header on the air: 16 bits of length, four zeros, the FEC flag, two bits of code rate with
      zero for rate 1/2 and one for 3/4, and 12 bits of sequence number, each field from its highest
      bit down. */
  lemma HeaderOnAir(cfg: Config, payload: seq<byte>, seqNum: nat, i: nat)
    requires i < 35
    ensures var air := AirBits(cfg, payload, seqNum);
            && |air| >= 67
            && (air[i] <==>
                  if i < 16 then Digit(|payload| % 0x1_0000, 15 - i)
                  else if i < 20 then false
                  else if i == 20 then cfg.fecEnabled
                  else if i == 21 then false
                  else if i == 22 then cfg.fecCodeRate == RATE_3_4
                  else Digit(seqNum % 4096, 34 - i))
  {
    hide Unpack, AirPayload, FrameCrc, ToBits, Pow2;
    var h := HeaderFor(cfg, payload, seqNum);
    assert AirBits(cfg, payload, seqNum)[i] == HeaderBits(h)[i];
    if i < 16 { FieldBit(h.payloadLength, 16, i); }
    else if i < 20 { ZeroField(4); }
    else if i == 20 { }
    else if i < 23 { RateField(cfg.fecCodeRate); }
    else { FieldBit(h.sequenceNumber, 12, i - 23); }
  }

  lemma {:induction false} ZeroField(n: nat)
    ensures ToBits(0, n) == seq(n, _ => false)
  {
    if n > 0 {
      ZeroField(n - 1);
    }
  }

  lemma RateField(rate: CodeRate)
    ensures ToBits(RateValue(rate), 2) == [false, rate == RATE_3_4]
  {
    assert ToBits(0, 1) == [] + [false];
  }

  /** The payload section on the air, without FEC the payload itself, every byte from its highest bit
      down. With FEC it is the code word that CodeWords.EncodedBit spells out. */
  lemma PayloadOnAir(cfg: Config, payload: seq<byte>, seqNum: nat, i: nat)
    requires i < 8 * |AirPayload(cfg, payload)|
    ensures AirBits(cfg, payload, seqNum)[35 + i] ==
            if cfg.fecEnabled then Unpack(ConvCode.Encode(cfg.fecCodeRate, payload))[i] else CodeWords.PayloadBit(payload, i)
  {
    hide Unpack, HeaderBits, FrameCrc, ToBits, Pow2, ConvCode.Encode;
    AirSections(cfg, payload, seqNum);
    if !cfg.fecEnabled { CodeWords.UnpackIsPayload(payload, i); }
  }

  /** The 35 header bits, filled up with five zeros, as bytes. */
  function HeaderPart(bits: seq<bool>): seq<byte>
    requires |bits| >= 35
  {
    PackWhole(bits[..35] + [false, false, false, false, false])
  }

  /** The CRC field, from its highest bit down: over the header, filled up with five zeros, and the
      payload before coding. */
  lemma CrcOnAir(cfg: Config, payload: seq<byte>, seqNum: nat, i: nat)
    requires i < 32
    ensures var air := AirBits(cfg, payload, seqNum);
            && |air| == 67 + 8 * |AirPayload(cfg, payload)|
            && (air[|air| - 32 + i] <==> Digit(Crc32.Crc(HeaderPart(air) + payload), 31 - i))
  {
    hide Unpack, HeaderBits, ToBits, Pow2, HeaderBytes, Crc32.Crc, PackWhole, AirBits, AirPayload;
    var h := HeaderFor(cfg, payload, seqNum);
    var air := AirBits(cfg, payload, seqNum);
    AirSections(cfg, payload, seqNum);
    FrameTheorems.HeaderBytesAreHeaderBits(h);
    PackUnpack(HeaderBytes(h));
    FieldBit(FrameCrc(h, payload), 32, i);
    assert air[|air| - CRC_BITS..][i] == air[|air| - 32 + i];
    assert seq(5, _ => false) == [false, false, false, false, false];
  }

  // ----- the receiver against any phase and gain -----

  /** End to end through a channel that turns the phase by any angle and scales by any gain the
      receiver can measure: with FEC off and at both rates, every payload comes back. */
  lemma AnyPhaseEndToEnd(cfg: Config, payload: seq<byte>, seqNum: nat, trailing: seq<Symbol>, z: Symbol, gain: real,
                         magnitude: Symbol -> real, result: Option<seq<byte>>)
    requires |payload| < 0x1_0000
    requires gain > 0.0 && IsMagnitude(gain, z) && gain * (2 * |cfg.preamble|) as real >= 0.0000000001
    requires var corr := Scaled(z, (2 * |cfg.preamble|) as real); IsMagnitude(magnitude(corr), corr)
    requires var start := cfg.acquisitionSymbols + 2 * |cfg.preamble|;
             var received := Turned(FrameSymbols(cfg, payload, seqNum) + trailing, z);
             && start <= |received|
             && MayReturn(cfg.fecCodeRate, CorrectedFrom(received, start, cfg.preamble + cfg.preamble, magnitude), result)
    ensures result == Some(payload)
  {
    hide *;
    var start := cfg.acquisitionSymbols + 2 * |cfg.preamble|;
    var sent := FrameSymbols(cfg, payload, seqNum) + trailing;
    var doubled := cfg.preamble + cfg.preamble;
    PreambleSection(cfg, payload, seqNum, trailing);
    TransmittedStartsWith(cfg, payload, seqNum, trailing);
    ChannelIsUndone(sent, start, doubled, z, gain, magnitude);
    var symbols := CorrectedFrom(Turned(sent, z), start, doubled, magnitude);
    assert symbols == seq(|sent[start..]|, i requires 0 <= i < |sent[start..]| => Scaled(sent[start..][i], gain));
    DecisionsIgnoreGain(sent[start..], gain);
    SameDecisions(sent[start..], symbols, AirBits(cfg, payload, seqNum));
    CleanEndToEnd(cfg, payload, seqNum, symbols, result);
  }

  lemma SameDecisions(a: seq<Symbol>, b: seq<Symbol>, bits: seq<bool>)
    requires |a| == |b| && Demap(a) == Demap(b) && StartsWith(a, bits)
    ensures StartsWith(b, bits)
  {
  }

  lemma PreambleSection(cfg: Config, payload: seq<byte>, seqNum: nat, trailing: seq<Symbol>)
    ensures var stream := FrameSymbols(cfg, payload, seqNum) + trailing;
            var start := cfg.acquisitionSymbols + 2 * |cfg.preamble|;
            && start <= |stream| && |cfg.preamble + cfg.preamble| == 2 * |cfg.preamble|
            && stream[cfg.acquisitionSymbols..start] == BpskMap(cfg.preamble + cfg.preamble)
  {
    hide AirBits, MapBits, BpskMap;
  }

  /** A header with FEC on and a code rate the program does not know yields no frame. */
  lemma UnknownRateIsRefused(symbols: seq<Symbol>)
    requires |symbols| >= 18 && Demap(symbols)[20] && Demap(symbols)[21]
    ensures FrameBitsAt(symbols) == None
  {
    hide Demap, FromBits;
    DemapPrefix(symbols, 18);
    var headerBits := Demap(symbols[..18]);
    assert headerBits[20] && headerBits[21];
    TwoBits(headerBits[21..23]);
  }

  lemma TwoBits(b: seq<bool>)
    requires |b| == 2
    ensures FromBits(b) >= 2 <==> b[0]
  {
    assert b[..1][..0] == [];
    assert FromBits(b[..1]) == PushBit(0, b[0]);
  }
}
