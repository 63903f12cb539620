/** Frame wire format, src/frame_builder.cpp and src/frame_parser.cpp: 35 header bits, payload,
    CRC-32 over the packed header and the payload. */
module Frames {
  import opened Basics
  import opened Bits
  import opened Crc32
  import FecEncoders

  /** Header fields as they are on the air: 16, 4, 1, 2 and 12 bits. */
  datatype FrameHeader = FrameHeader(payloadLength: nat, paddingBits: nat, fecEnabled: bool,
                                     fecCodeRate: nat, sequenceNumber: nat)

  predicate ValidHeader(h: FrameHeader) {
    && h.payloadLength < 0x1_0000 && h.paddingBits < 16 && h.fecCodeRate < 4 && h.sequenceNumber < 4096
  }

  datatype Frame = Frame(header: FrameHeader, payload: seq<byte>, crc: nat, crcValid: bool)

  const HEADER_BITS := 35
  const CRC_BITS := 32

  /** The header packed into five bytes for the CRC; the last five bits are zero. */
  function HeaderBytes(h: FrameHeader): (bytes: seq<byte>)
    ensures |bytes| == 5
  {
    var fecFlag := if h.fecEnabled then 1 else 0;
    var rateBits := h.fecCodeRate % 4;
    [h.payloadLength / 256 % 256,
     h.payloadLength % 256,
     h.paddingBits % 16 * 16 + fecFlag * 8 + rateBits * 2 + h.sequenceNumber / 2048 % 2,
     h.sequenceNumber / 8 % 256,
     h.sequenceNumber % 8 * 32]
  }

  function HeaderBits(h: FrameHeader): (bits: seq<bool>)
    ensures |bits| == HEADER_BITS
  {
    ToBits(h.payloadLength, 16) + ToBits(h.paddingBits, 4) + [h.fecEnabled] + ToBits(h.fecCodeRate, 2)
    + ToBits(h.sequenceNumber, 12)
  }

  function FrameCrc(h: FrameHeader, payload: seq<byte>): nat {
    Crc(HeaderBytes(h) + payload)
  }

  /** Everything after the preamble. */
  function DataBits(h: FrameHeader, payload: seq<byte>): seq<bool> {
    HeaderBits(h) + Unpack(payload) + ToBits(FrameCrc(h, payload), CRC_BITS)
  }

  class FrameBuilder {
    const preamble: seq<bool>
    var seqNum: nat

    constructor (preamble: seq<bool>)
      ensures this.preamble == preamble && seqNum == 0
    {
      this.preamble := preamble;
      seqNum := 0;
    }

    /** The length field keeps the low 16 bits of the payload size. */
    method BuildFrame(payload: seq<byte>, paddingBits: nat, fecEnabled: bool, fecCodeRate: nat)
      returns (bits: seq<bool>)
      requires fecCodeRate < 4 && paddingBits < 16
      modifies this
      ensures bits == preamble + DataBits(FrameHeader(|payload| % 0x1_0000, paddingBits, fecEnabled,
                                                      fecCodeRate, old(seqNum) % 4096), payload)
      ensures seqNum == (old(seqNum) + 1) % 4096
    {
      hide Crc, HeaderBytes, HeaderBits, ToBits, Unpack, PackWhole;
      var h := FrameHeader(|payload| % 0x1_0000, paddingBits, fecEnabled, fecCodeRate, seqNum % 4096);
      var crc := ComputeCrc32(HeaderBytes(h) + payload);
      bits := PushHeader(preamble, h);
      var payloadBits := FecEncoders.UnpackBytes(payload);
      bits := bits + payloadBits;
      bits := PushField(bits, crc, CRC_BITS);
      assert bits == preamble + DataBits(h, payload);
      seqNum := (seqNum + 1) % 4096;
    }
  }

  method PushHeader(preamble: seq<bool>, h: FrameHeader) returns (bits: seq<bool>)
    ensures bits == preamble + HeaderBits(h)
  {
    bits := preamble;
    bits := PushField(bits, h.payloadLength, 16);
    bits := PushField(bits, h.paddingBits, 4);
    bits := bits + [h.fecEnabled];
    bits := PushField(bits, h.fecCodeRate, 2);
    bits := PushField(bits, h.sequenceNumber, 12);
  }

  /** `for i = n-1 .. 0: push((value >> i) & 1)`. */
  method PushField(bits: seq<bool>, value: nat, n: nat) returns (longer: seq<bool>)
    ensures longer == bits + ToBits(value, n)
  {
    longer := bits;
    var i := n;
    while i > 0
      invariant 0 <= i <= n
      invariant longer == bits + ToBits(value, n)[..n - i]
    {
      i := i - 1;
      ToBitsAt(value, n, n - 1 - i);
      longer := longer + [BitAt(value, i)];
    }
  }

  // ----- parsing -----

  /** The payload bits of a frame: whole bytes only, what is left over is skipped. */
  function PayloadBits(bits: seq<bool>): (p: seq<bool>)
    requires |bits| >= HEADER_BITS + CRC_BITS
    ensures |p| % 8 == 0
  {
    bits[HEADER_BITS..HEADER_BITS + (|bits| - HEADER_BITS - CRC_BITS) / 8 * 8]
  }

  function ParsedHeader(bits: seq<bool>): (h: FrameHeader)
    requires |bits| >= HEADER_BITS
  {
    FrameHeader(FromBits(bits[..16]), FromBits(bits[16..20]), bits[20], FromBits(bits[21..23]), FromBits(bits[23..35]))
  }

  function ParseUncheckedSpec(bits: seq<bool>): Option<Frame> {
    if |bits| < HEADER_BITS + CRC_BITS then None
    else Some(Frame(ParsedHeader(bits), PackWhole(PayloadBits(bits)), FromBits(bits[|bits| - CRC_BITS..]), false))
  }

  predicate CrcMatches(frame: Frame) {
    FrameCrc(frame.header, frame.payload) == frame.crc
  }

  function ParseSpec(bits: seq<bool>): Option<Frame> {
    match ParseUncheckedSpec(bits)
    case None => None
    case Some(frame) => if CrcMatches(frame) then Some(frame.(crcValid := true)) else None
  }

  method ExtractBits(bits: seq<bool>, offset: nat, count: nat) returns (value: nat)
    requires offset + count <= |bits|
    ensures value == FromBits(bits[offset..offset + count])
  {
    value := 0;
    for i := 0 to count
      invariant value == FromBits(bits[offset..offset + i])
    {
      FecEncoders.PushNext(bits, offset, offset + i);
      value := PushBit(value, bits[offset + i]);
    }
  }

  method ParseUnchecked(bits: seq<bool>) returns (frame: Option<Frame>)
    ensures frame == ParseUncheckedSpec(bits)
  {
    hide PackWhole;
    if |bits| < HEADER_BITS + CRC_BITS { return None; }
    var pos := 0;
    var frameLength := ExtractBits(bits, pos, 16);
    pos := pos + 16;
    var paddingBits := ExtractBits(bits, pos, 4);
    pos := pos + 4;
    var fecValue := ExtractBits(bits, pos, 1);
    var fecEnabled := fecValue != 0;
    assert bits[pos..pos + 1][..0] == [];
    pos := pos + 1;
    var rateVal := ExtractBits(bits, pos, 2);
    pos := pos + 2;
    var sequenceNumber := ExtractBits(bits, pos, 12);
    pos := pos + 12;
    var payloadBitCount := |bits| - HEADER_BITS - CRC_BITS;
    var payload;
    payload := ExtractPayload(bits, payloadBitCount / 8);
    pos := pos + payloadBitCount / 8 * 8;
    pos := pos + payloadBitCount % 8;
    var receivedCrc := ExtractBits(bits, pos, 32);
    assert bits[pos..pos + 32] == bits[|bits| - CRC_BITS..];
    frame := Some(Frame(FrameHeader(frameLength, paddingBits, fecEnabled, rateVal, sequenceNumber),
                        payload, receivedCrc, false));
  }

  method ExtractPayload(bits: seq<bool>, payloadBytes: nat) returns (payload: seq<byte>)
    requires HEADER_BITS + 8 * payloadBytes <= |bits|
    ensures payload == PackWhole(bits[HEADER_BITS..HEADER_BITS + 8 * payloadBytes])
  {
    hide PackWhole, FromBits;
    payload := [];
    assert PackWhole([]) == [] by { EmptyPack(); }
    for i := 0 to payloadBytes
      invariant payload == PackWhole(bits[HEADER_BITS..HEADER_BITS + 8 * i])
    {
      var b := ExtractBits(bits, HEADER_BITS + 8 * i, 8);
      NextPayloadByte(bits, i);
      payload := payload + [b];
    }
  }

  lemma EmptyPack()
    ensures PackWhole([]) == []
  {
  }

  lemma NextPayloadByte(bits: seq<bool>, i: nat)
    requires HEADER_BITS + 8 * i + 8 <= |bits|
    ensures var next := FromBits(bits[HEADER_BITS + 8 * i..HEADER_BITS + 8 * i + 8]);
            && next < 256
            && PackWhole(bits[HEADER_BITS..HEADER_BITS + 8 * (i + 1)])
               == PackWhole(bits[HEADER_BITS..HEADER_BITS + 8 * i]) + [next]
  {
    var all := bits[HEADER_BITS..];
    FecEncoders.PackNext(all, 8 * i);
    assert all[..8 * i] == bits[HEADER_BITS..HEADER_BITS + 8 * i];
    assert all[..8 * i + 8] == bits[HEADER_BITS..HEADER_BITS + 8 * (i + 1)];
    assert all[8 * i..8 * i + 8] == bits[HEADER_BITS + 8 * i..HEADER_BITS + 8 * i + 8];
  }

  method VerifyCrc(frame: Frame) returns (ok: bool)
    ensures ok == CrcMatches(frame)
  {
    hide Crc;
    var crc := ComputeCrc32(HeaderBytes(frame.header) + frame.payload);
    ok := crc == frame.crc;
  }

  method Parse(bits: seq<bool>) returns (frame: Option<Frame>)
    ensures frame == ParseSpec(bits)
  {
    frame := ParseUnchecked(bits);
    if frame.None? { return; }
    var valid := VerifyCrc(frame.value);
    frame := if valid then Some(frame.value.(crcValid := true)) else None;
  }
}
