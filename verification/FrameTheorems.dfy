/** Round trip and rejection of the frame format. */
module FrameTheorems {
  import opened Basics
  import opened Bits
  import opened Crc32
  import opened Frames

  /** What the CRC covers, bit by bit: header, five zero bits, payload. */
  function CoveredBits(bits: seq<bool>): (c: seq<bool>)
    requires |bits| >= HEADER_BITS + CRC_BITS
  {
    bits[..HEADER_BITS] + seq(5, _ => false) + PayloadBits(bits)
  }

  /** Bits of a concatenated value. */
  lemma {:induction false} ToBitsJoin(x: nat, y: nat, m: nat, n: nat)
    requires y < Pow2(n)
    ensures ToBits(ShiftUp(x, n) + y, m + n) == ToBits(x, m) + ToBits(y, n)
    decreases n
  {
    if n > 0 {
      ToBitsJoin(x, y / 2, m, n - 1);
      assert (ShiftUp(x, n) + y) / 2 == ShiftUp(x, n - 1) + y / 2;
      assert ToBits(y, n) == ToBits(y / 2, n - 1) + [y % 2 == 1];
    }
  }

  lemma ShiftUpConstants(x: nat)
    ensures ShiftUp(x, 1) == 2 * x && ShiftUp(x, 2) == 4 * x && ShiftUp(x, 3) == 8 * x && ShiftUp(x, 4) == 16 * x
    ensures ShiftUp(x, 5) == 32 * x && ShiftUp(x, 8) == 256 * x && ShiftUp(x, 11) == 2048 * x
  {
    assert ShiftUp(x, 1) == 2 * ShiftUp(x, 0);
    assert ShiftUp(x, 2) == 2 * ShiftUp(x, 1);
    assert ShiftUp(x, 3) == 2 * ShiftUp(x, 2);
    assert ShiftUp(x, 4) == 2 * ShiftUp(x, 3);
    assert ShiftUp(x, 5) == 2 * ShiftUp(x, 4);
    assert ShiftUp(x, 6) == 2 * ShiftUp(x, 5);
    assert ShiftUp(x, 7) == 2 * ShiftUp(x, 6);
    assert ShiftUp(x, 8) == 2 * ShiftUp(x, 7);
    assert ShiftUp(x, 9) == 2 * ShiftUp(x, 8);
    assert ShiftUp(x, 10) == 2 * ShiftUp(x, 9);
    assert ShiftUp(x, 11) == 2 * ShiftUp(x, 10);
  }

  lemma Pow2Constants()
    ensures Pow2(1) == 2 && Pow2(2) == 4 && Pow2(3) == 8 && Pow2(4) == 16 && Pow2(5) == 32
    ensures Pow2(8) == 256 && Pow2(11) == 2048 && Pow2(12) == 4096 && Pow2(16) == 0x1_0000
  {
    assert Pow2(1) == 2 * Pow2(0);
    assert Pow2(2) == 2 * Pow2(1);
    assert Pow2(3) == 2 * Pow2(2);
    assert Pow2(4) == 2 * Pow2(3);
    assert Pow2(5) == 2 * Pow2(4);
    Pow2Plus8(0);
    Pow2Plus8(3);
    Pow2Plus8(4);
    Pow2Plus8(8);
  }

  lemma LengthBytes(x: nat)
    requires x < 0x1_0000
    ensures ByteBits(x / 256 % 256) + ByteBits(x % 256) == ToBits(x, 16)
  {
    hide ToBits, ShiftUp, Pow2;
    ShiftUpConstants(x / 256);
    Pow2Constants();
    ToBitsJoin(x / 256, x % 256, 8, 8);
  }

  lemma SequenceBytes(x: nat)
    requires x < 4096
    ensures ToBits(x / 2048, 1) + ByteBits(x / 8 % 256) + ToBits(x % 8, 3) == ToBits(x, 12)
  {
    hide ToBits, ShiftUp, Pow2;
    var high, low := x / 2048, x % 2048;
    ShiftUpConstants(high);
    Pow2Constants();
    ToBitsJoin(high, low, 1, 11);
    ShiftUpConstants(low / 8);
    ToBitsJoin(low / 8, low % 8, 8, 3);
    assert low / 8 == x / 8 % 256;
  }

  lemma ZeroBits(n: nat)
    ensures ToBits(0, n) == seq(n, _ => false)
  {
  }

  lemma FlagBit(fec: bool)
    ensures ToBits(if fec then 1 else 0, 1) == [fec]
  {
    assert ToBits(0, 0) == [];
  }

  lemma MiddleByte(pad: nat, fec: bool, rate: nat, top: nat)
    requires pad < 16 && rate < 4 && top < 2
    ensures ByteBits(pad * 16 + (if fec then 1 else 0) * 8 + rate * 2 + top)
            == ToBits(pad, 4) + [fec] + ToBits(rate, 2) + ToBits(top, 1)
  {
    hide ToBits, ShiftUp, Pow2;
    var f := if fec then 1 else 0;
    FlagBit(fec);
    Pow2Constants();
    ShiftUpConstants(pad);
    ShiftUpConstants(f);
    ShiftUpConstants(rate);
    ToBitsJoin(rate, top, 2, 1);
    ToBitsJoin(f, rate * 2 + top, 1, 3);
    ToBitsJoin(pad, f * 8 + rate * 2 + top, 4, 4);
  }

  lemma LastByte(x: nat)
    requires x < 8
    ensures ByteBits(x * 32) == ToBits(x, 3) + seq(5, _ => false)
  {
    ZeroBits(5);
    hide ToBits, ShiftUp, Pow2;
    Pow2Constants();
    ShiftUpConstants(x);
    ToBitsJoin(x, 0, 3, 5);
  }

  /** The five packed bytes are the 35 transmitted header bits followed by zeros. */
  lemma HeaderBytesAreHeaderBits(h: FrameHeader)
    requires ValidHeader(h)
    ensures Unpack(HeaderBytes(h)) == HeaderBits(h) + seq(5, _ => false)
  {
    hide ToBits, Unpack, ByteBits;
    var b := HeaderBytes(h);
    var seqNum := h.sequenceNumber;
    LengthBytes(h.payloadLength);
    MiddleByte(h.paddingBits, h.fecEnabled, h.fecCodeRate, seqNum / 2048);
    SequenceBytes(seqNum);
    LastByte(seqNum % 8);
    UnpackFive(b);
  }

  lemma UnpackFive(b: seq<byte>)
    requires |b| == 5
    ensures Unpack(b) == ByteBits(b[0]) + ByteBits(b[1]) + ByteBits(b[2]) + ByteBits(b[3]) + ByteBits(b[4])
  {
    hide ByteBits;
    assert b[..4][..3] == b[..3] && b[..3][..2] == b[..2] && b[..2][..1] == b[..1] && b[..1][..0] == [];
    assert Unpack(b[..1]) == ByteBits(b[0]);
    assert Unpack(b[..2]) == Unpack(b[..1]) + ByteBits(b[1]);
    assert Unpack(b[..3]) == Unpack(b[..2]) + ByteBits(b[2]);
    assert Unpack(b[..4]) == Unpack(b[..3]) + ByteBits(b[3]);
  }

  /** Parsed header fields fit their widths and give the header bits back. */
  lemma ParsedHeaderBits(bits: seq<bool>)
    requires |bits| >= HEADER_BITS
    ensures ValidHeader(ParsedHeader(bits))
    ensures HeaderBits(ParsedHeader(bits)) == bits[..HEADER_BITS]
  {
    hide ToBits, FromBits, Pow2;
    Pow2Constants();
    ToBitsOfFromBits(bits[..16]);
    ToBitsOfFromBits(bits[16..20]);
    ToBitsOfFromBits(bits[21..23]);
    ToBitsOfFromBits(bits[23..35]);
  }

  /** The bytes a parsed frame's CRC is computed over are exactly the covered bits. */
  lemma CoveredBytes(bits: seq<bool>)
    requires |bits| >= HEADER_BITS + CRC_BITS
    ensures var f := ParseUncheckedSpec(bits).value;
            Unpack(HeaderBytes(f.header) + f.payload) == CoveredBits(bits)
  {
    hide HeaderBytes, HeaderBits, ParsedHeader;
    var f := ParseUncheckedSpec(bits).value;
    ParsedHeaderBits(bits);
    HeaderBytesAreHeaderBits(f.header);
    UnpackConcat(HeaderBytes(f.header), f.payload);
    UnpackPackWhole(PayloadBits(bits));
  }

  // ----- round trip -----

  lemma HeaderOfBits(h: FrameHeader, rest: seq<bool>)
    requires ValidHeader(h)
    ensures ParsedHeader(HeaderBits(h) + rest) == h
  {
    hide ToBits, FromBits, Pow2;
    Pow2Constants();
    FromBitsOfToBits(h.payloadLength, 16);
    FromBitsOfToBits(h.paddingBits, 4);
    FromBitsOfToBits(h.fecCodeRate, 2);
    FromBitsOfToBits(h.sequenceNumber, 12);
    var bits := HeaderBits(h) + rest;
    assert bits[..16] == ToBits(h.payloadLength, 16);
    assert bits[16..20] == ToBits(h.paddingBits, 4);
    assert bits[21..23] == ToBits(h.fecCodeRate, 2);
    assert bits[23..35] == ToBits(h.sequenceNumber, 12);
  }

  lemma CrcIsWord(data: seq<byte>)
    ensures Crc(data) < Pow2(32)
  {
    hide Xor, UpdateAll;
    UpdateAllIsWord(INIT, data);
    XorOfWords(UpdateAll(INIT, data), INIT);
    Pow2Of32();
  }

  /** Round trip: parsing a built frame, preamble stripped, recovers every header field and the payload. */
  lemma ParseOfBuilt(h: FrameHeader, payload: seq<byte>)
    requires ValidHeader(h)
    ensures ParseSpec(DataBits(h, payload)) == Some(Frame(h, payload, FrameCrc(h, payload), true))
  {
    hide HeaderBits, HeaderBytes, ParsedHeader, Crc;
    var bits := DataBits(h, payload);
    var crc := FrameCrc(h, payload);
    HeaderOfBits(h, Unpack(payload) + ToBits(crc, CRC_BITS));
    assert bits == HeaderBits(h) + (Unpack(payload) + ToBits(crc, CRC_BITS));
    assert PayloadBits(bits) == Unpack(payload);
    PackUnpack(payload);
    assert bits[|bits| - CRC_BITS..] == ToBits(crc, CRC_BITS);
    CrcIsWord(HeaderBytes(h) + payload);
    FromBitsOfToBits(crc, CRC_BITS);
  }

  // ----- rejection -----

  /** Where a frame bit lands among the covered bits: the payload starts at a byte boundary. */
  function CoveredAt(p: nat): nat {
    if p < HEADER_BITS then p else p + 5
  }

  lemma BytesDifferInWindow(a: seq<byte>, b: seq<byte>, lo: nat, j: nat)
    requires |a| == |b| && j < |a| && a[j] != b[j]
    requires forall k :: 0 <= k < 8 * |a| && !(lo <= k < lo + 25) ==> Unpack(a)[k] == Unpack(b)[k]
    ensures lo / 8 <= j < lo / 8 + 4
  {
    var u, v := Unpack(a), Unpack(b);
    UnpackSlice(a, j);
    UnpackSlice(b, j);
    if !(lo / 8 <= j < lo / 8 + 4) {
      assert 8 * j + 8 <= lo || lo + 25 <= 8 * j;
      assert u[8 * j..8 * j + 8] == v[8 * j..8 * j + 8];
      Pow2Of8();
      ToBitsInjective(a[j], b[j], 8);
    }
  }

  /** A frame whose payload section is whole bytes. */
  lemma RejectsWholeBurst(bits: seq<bool>, damaged: seq<bool>, i: nat)
    requires ParseSpec(bits).Some? && (|bits| - HEADER_BITS - CRC_BITS) % 8 == 0
    requires |damaged| == |bits| && damaged != bits
    requires forall p :: 0 <= p < |bits| && damaged[p] != bits[p] ==> i <= p < i + 20 && p < |bits| - CRC_BITS
    ensures ParseSpec(damaged) == None
  {
    hide Crc, HeaderBytes, Unpack, ParsedHeader, PackWhole, FromBits;
    var f, g := ParseUncheckedSpec(bits).value, ParseUncheckedSpec(damaged).value;
    var a, b := HeaderBytes(f.header) + f.payload, HeaderBytes(g.header) + g.payload;
    CoveredBytes(bits);
    CoveredBytes(damaged);
    CoveredDamage(bits, damaged, i);
    var lo := CoveredAt(i);
    assert bits[|bits| - CRC_BITS..] == damaged[|bits| - CRC_BITS..];
    forall j | 0 <= j < |a| && !(lo / 8 <= j < lo / 8 + 4) ensures a[j] == b[j] {
      if a[j] != b[j] { BytesDifferInWindow(a, b, lo, j); }
    }
    DetectsFourByteBurst(a, b, lo / 8);
  }

  lemma CoveredDamage(bits: seq<bool>, damaged: seq<bool>, i: nat)
    requires |bits| >= HEADER_BITS + CRC_BITS && (|bits| - HEADER_BITS - CRC_BITS) % 8 == 0
    requires |damaged| == |bits| && damaged != bits
    requires forall p :: 0 <= p < |bits| && damaged[p] != bits[p] ==> i <= p < i + 20 && p < |bits| - CRC_BITS
    ensures CoveredBits(damaged) != CoveredBits(bits)
    ensures |CoveredBits(damaged)| == |CoveredBits(bits)|
    ensures forall k :: 0 <= k < |CoveredBits(bits)| && !(CoveredAt(i) <= k < CoveredAt(i) + 25)
                        ==> CoveredBits(damaged)[k] == CoveredBits(bits)[k]
  {
    var c, d := CoveredBits(bits), CoveredBits(damaged);
    var p :| 0 <= p < |bits| && damaged[p] != bits[p];
    assert c[CoveredAt(p)] == bits[p] && d[CoveredAt(p)] == damaged[p];
    forall k | 0 <= k < |c| && !(CoveredAt(i) <= k < CoveredAt(i) + 25) ensures d[k] == c[k] {
      if k < HEADER_BITS {
        assert c[k] == bits[k] && d[k] == damaged[k];
      } else if k >= HEADER_BITS + 5 {
        assert c[k] == bits[k - 5] && d[k] == damaged[k - 5];
      }
    }
  }

  // ----- leftover bits -----

  /** Where the whole payload bytes end. */
  function PayloadEnd(n: nat): nat
    requires n >= HEADER_BITS + CRC_BITS
  {
    HEADER_BITS + (n - HEADER_BITS - CRC_BITS) / 8 * 8
  }

  /** A bit between the last whole payload byte and the CRC: the parser skips it. */
  predicate Leftover(n: nat, i: nat)
    requires n >= HEADER_BITS + CRC_BITS
  {
    PayloadEnd(n) <= i < n - CRC_BITS
  }

  /** The frame without its leftover bits. */
  function Trimmed(bits: seq<bool>): seq<bool>
    requires |bits| >= HEADER_BITS + CRC_BITS
  {
    bits[..PayloadEnd(|bits|)] + bits[|bits| - CRC_BITS..]
  }

  /** Leftover bits make no difference. */
  lemma TrimmedParses(bits: seq<bool>)
    requires |bits| >= HEADER_BITS + CRC_BITS
    ensures ParseSpec(Trimmed(bits)) == ParseSpec(bits)
    ensures |Trimmed(bits)| >= HEADER_BITS + CRC_BITS && (|Trimmed(bits)| - HEADER_BITS - CRC_BITS) % 8 == 0
  {
    hide CrcMatches, ParsedHeader, PackWhole, FromBits;
    var t, k := Trimmed(bits), (|bits| - HEADER_BITS - CRC_BITS) / 8;
    assert |t| - HEADER_BITS - CRC_BITS == 8 * k;
    assert t[..HEADER_BITS] == bits[..HEADER_BITS];
    SameHeader(t, bits);
    assert PayloadBits(t) == PayloadBits(bits);
    assert t[|t| - CRC_BITS..] == bits[|bits| - CRC_BITS..];
  }

  lemma TrimmedAt(bits: seq<bool>, p: nat)
    requires |bits| >= HEADER_BITS + CRC_BITS && p < PayloadEnd(|bits|)
    ensures p < |Trimmed(bits)| && Trimmed(bits)[p] == bits[p] && p < |Trimmed(bits)| - CRC_BITS
  {
  }

  /** Burst rejection: damage within twenty consecutive bits before the CRC field turns any accepted
      frame into a rejected one, unless it touches leftover bits only. */
  lemma RejectsBurst(bits: seq<bool>, damaged: seq<bool>, i: nat, hit: nat)
    requires ParseSpec(bits).Some? && |damaged| == |bits|
    requires forall p :: 0 <= p < |bits| && damaged[p] != bits[p] ==> i <= p < i + 20 && p < |bits| - CRC_BITS
    requires hit < |bits| && damaged[hit] != bits[hit] && !Leftover(|bits|, hit)
    ensures ParseSpec(damaged) == None
  {
    hide CrcMatches, ParsedHeader, PackWhole, FromBits, ParseSpec;
    LongEnough(bits);
    TrimmedParses(bits);
    TrimmedParses(damaged);
    TrimmedAt(bits, hit);
    TrimmedAt(damaged, hit);
    var t, d := Trimmed(bits), Trimmed(damaged);
    forall p | 0 <= p < |t| && d[p] != t[p] ensures i <= p < i + 20 && p < |t| - CRC_BITS {
    }
    RejectsWholeBurst(t, d, i);
  }

  lemma LongEnough(bits: seq<bool>)
    requires ParseSpec(bits).Some?
    ensures |bits| >= HEADER_BITS + CRC_BITS
  {
  }

  /** One flipped bit of an accepted frame is noticed if and only if it is not a leftover bit. */
  lemma FlipRejectedIff(bits: seq<bool>, i: nat)
    requires ParseSpec(bits).Some? && i < |bits|
    ensures |bits| >= HEADER_BITS + CRC_BITS
    ensures ParseSpec(bits[i := !bits[i]]) == None <==> !Leftover(|bits|, i)
    ensures Leftover(|bits|, i) ==> ParseSpec(bits[i := !bits[i]]) == ParseSpec(bits)
  {
    hide ParseSpec;
    LongEnough(bits);
    var damaged := bits[i := !bits[i]];
    if Leftover(|bits|, i) {
      TrimmedParses(bits);
      TrimmedParses(damaged);
      assert Trimmed(damaged) == Trimmed(bits);
    } else if i < |bits| - CRC_BITS {
      RejectsBurst(bits, damaged, i, i);
    } else {
      assert damaged[i] != bits[i];
      RejectsCrcDamage(bits, damaged);
    }
  }

  /** Damage confined to the CRC field, however much of it, is rejected too. */
  lemma RejectsCrcDamage(bits: seq<bool>, damaged: seq<bool>)
    requires ParseSpec(bits).Some? && |damaged| == |bits| && damaged != bits
    requires damaged[..|bits| - CRC_BITS] == bits[..|bits| - CRC_BITS]
    ensures ParseSpec(damaged) == None
  {
    hide Crc, HeaderBytes, PackWhole, FromBits, ParsedHeader;
    var n := |bits| - CRC_BITS;
    assert bits == bits[..n] + bits[n..] && damaged == damaged[..n] + damaged[n..];
    assert bits[..n][..HEADER_BITS] == bits[..HEADER_BITS] && damaged[..n][..HEADER_BITS] == damaged[..HEADER_BITS];
    SameHeader(bits, damaged);
    var hi := HEADER_BITS + (|bits| - HEADER_BITS - CRC_BITS) / 8 * 8;
    assert bits[..n][HEADER_BITS..hi] == PayloadBits(bits);
    assert damaged[..n][HEADER_BITS..hi] == PayloadBits(damaged);
    if FromBits(bits[n..]) == FromBits(damaged[n..]) {
      FromBitsInjective(bits[n..], damaged[n..]);
    }
  }

  lemma SameHeader(bits: seq<bool>, other: seq<bool>)
    requires |bits| >= HEADER_BITS && |other| >= HEADER_BITS && bits[..HEADER_BITS] == other[..HEADER_BITS]
    ensures ParsedHeader(bits) == ParsedHeader(other)
  {
    var b, o := bits[..HEADER_BITS], other[..HEADER_BITS];
    assert b[..16] == bits[..16] && o[..16] == other[..16];
    assert b[16..20] == bits[16..20] && o[16..20] == other[16..20];
    assert b[20] == bits[20] && o[20] == other[20];
    assert b[21..23] == bits[21..23] && o[21..23] == other[21..23];
    assert b[23..35] == bits[23..35] && o[23..35] == other[23..35];
  }

  /** One flipped bit anywhere in a built frame makes `Parse` return nothing. */
  lemma RejectsAnyFlip(h: FrameHeader, payload: seq<byte>, i: nat)
    requires ValidHeader(h) && i < |DataBits(h, payload)|
    ensures var bits := DataBits(h, payload); ParseSpec(bits[i := !bits[i]]) == None
  {
    hide ParseSpec, HeaderBits, FrameCrc, ToBits;
    ParseOfBuilt(h, payload);
    FlipRejectedIff(DataBits(h, payload), i);
  }
}
