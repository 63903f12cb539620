/** `LtpSegment::encode` and `LtpSegment::decode` as they run: bytes appended to a buffer, and an
    offset that moves over the input. */
module LtpSegmentCodec {
  import opened Basics
  import opened Bits
  import opened Ranges
  import opened Sdnv
  import opened LtpSegment

  /** Every number of the segment has the width of its C++ type. */
  predicate FitsWidths(s: Segment) {
    && U64(s.engineId) && U64(s.sessionNumber)
    && (forall e :: e in s.headerExtensions ==> U64(|e.value|))
    && (forall e :: e in s.trailerExtensions ==> U64(|e.value|))
    && ContentNumbersFit(s.content)
  }

  method EncodeSegmentMethod(s: Segment) returns (out: seq<byte>)
    requires ContentFits(s.segmentType, s.content) && FitsWidths(s)
    ensures out == EncodeSegment(s)
  {
    hide Encode, EncodeExtensions, EncodeContent;
    out := [s.version % 16 * 16 + s.segmentType % 16];
    out := EncodeInto(s.engineId, out);
    out := EncodeInto(s.sessionNumber, out);
    out := out + [s.headerExtCount];
    out := out + [s.trailerExtCount];
    out := EncodeExtensionsInto(s.headerExtensions, out);
    out := EncodeContentInto(s, out);
    out := EncodeExtensionsInto(s.trailerExtensions, out);
  }

  method EncodeExtensionsInto(exts: seq<Extension>, out: seq<byte>) returns (longer: seq<byte>)
    requires forall e :: e in exts ==> U64(|e.value|)
    ensures longer == out + EncodeExtensions(exts)
  {
    hide Encode;
    longer := out;
    for i := 0 to |exts|
      invariant out + EncodeExtensions(exts) == longer + EncodeExtensions(exts[i..])
    {
      var ext := exts[i];
      assert exts[i..][0] == ext && exts[i..][1..] == exts[i + 1..];
      longer := longer + [ext.tag];
      longer := EncodeInto(|ext.value|, longer);
      longer := longer + ext.value;
    }
  }

  method EncodeContentInto(s: Segment, out: seq<byte>) returns (longer: seq<byte>)
    requires ContentFits(s.segmentType, s.content) && FitsWidths(s)
    ensures longer == out + EncodeContent(s.segmentType, s.content)
  {
    hide Encode, EncodeClaims;
    var t, c := s.segmentType, s.content;
    longer := out;
    if IsData(t) {
      longer := EncodeInto(c.clientServiceId, longer);
      longer := EncodeInto(c.offset, longer);
      longer := EncodeInto(c.length, longer);
      if HasCheckpoint(t) {
        longer := EncodeInto(ValueOr0(c.checkpointSerial), longer);
        longer := EncodeInto(ValueOr0(c.reportSerial), longer);
      }
      longer := longer + c.data;
    } else if t == REPORT_SEGMENT {
      longer := EncodeInto(c.reportNumber, longer);
      longer := EncodeInto(c.checkpointNumber, longer);
      longer := EncodeInto(c.upperBound, longer);
      longer := EncodeInto(c.lowerBound, longer);
      longer := EncodeInto(|c.claims|, longer);
      longer := EncodeClaimsInto(c.claims, longer);
    } else if t == REPORT_ACK {
      longer := EncodeInto(c.ackedReport, longer);
    } else if IsCancel(t) {
      longer := longer + [c.reasonCode];
    }
  }

  method EncodeClaimsInto(claims: seq<Claim>, out: seq<byte>) returns (longer: seq<byte>)
    requires forall i :: 0 <= i < |claims| ==> U64(claims[i].offset) && U64(claims[i].length)
    ensures longer == out + EncodeClaims(claims)
  {
    hide Encode;
    longer := out;
    for i := 0 to |claims|
      invariant out + EncodeClaims(claims) == longer + EncodeClaims(claims[i..])
    {
      assert claims[i..][0] == claims[i] && claims[i..][1..] == claims[i + 1..];
      longer := EncodeInto(claims[i].offset, longer);
      longer := EncodeInto(claims[i].length, longer);
    }
  }

  // ----- decoding -----

  /** `ok`, `value` and `next` report the parse `p` of the bytes from some offset of `data` on. */
  ghost predicate Reports<T(!new)>(p: Parse<T>, data: seq<byte>, ok: bool, value: Option<T>, next: nat) {
    if p.Ok? then ok && next <= |data| && value == Some(p.value) && data[next..] == p.rest else !ok
  }

  method DecodeExtensionsAt(data: seq<byte>, offset: nat, count: byte)
    returns (ok: bool, exts: seq<Extension>, next: nat)
    requires offset <= |data|
    ensures Reports(DecodeExtensions(data[offset..], count), data, ok, Some(exts), next)
  {
    hide Decode;
    ok, exts, next := false, [], offset;
    ghost var goal := DecodeExtensions(data[offset..], count);
    assert goal.Ok? ==> [] + goal.value == goal.value;
    for i := 0 to count
      invariant next <= |data|
      invariant goal == match DecodeExtensions(data[next..], count - i)
                        case Fail => Fail
                        case Ok(others, rest) => Ok(exts + others, rest)
    {
      if next >= |data| { return; }
      ghost var tail := data[next..];
      var tag := data[next];
      next := next + 1;
      assert tail[1..] == data[next..];
      var good, valLen, after := DecodeAt(data, next);
      if !good { return; }
      next := after;
      if next + valLen > |data| { return; }
      var value := data[next..next + valLen];
      assert data[next..][..valLen] == value && data[next..][valLen..] == data[next + valLen..];
      next := next + valLen;
      assert DecodeExtension(tail) == Ok(Extension(tag, value), data[next..]);
      ExtendParsed(exts, Extension(tag, value), DecodeExtensions(data[next..], count - i - 1));
      exts := exts + [Extension(tag, value)];
    }
    ok := true;
    assert exts + [] == exts;
  }

  /** Prefixing one element at a time or all at once is the same. */
  lemma ExtendParsed<T>(done: seq<T>, x: T, p: Parse<seq<T>>)
    ensures p.Ok? ==> done + ([x] + p.value) == (done + [x]) + p.value
  {
  }

  method DecodeClaimsAt(data: seq<byte>, offset: nat, count: nat) returns (ok: bool, claims: seq<Claim>, next: nat)
    requires offset <= |data|
    ensures Reports(DecodeClaims(data[offset..], count), data, ok, Some(claims), next)
  {
    hide Decode;
    ok, claims, next := false, [], offset;
    ghost var goal := DecodeClaims(data[offset..], count);
    assert goal.Ok? ==> [] + goal.value == goal.value;
    for i := 0 to count
      invariant next <= |data|
      invariant goal == match DecodeClaims(data[next..], count - i)
                        case Fail => Fail
                        case Ok(others, rest) => Ok(claims + others, rest)
    {
      var good, claimOffset, after := DecodeAt(data, next);
      if !good { return; }
      next := after;
      var claimLength;
      good, claimLength, after := DecodeAt(data, next);
      if !good { return; }
      next := after;
      ExtendParsed(claims, Claim(claimOffset, claimLength), DecodeClaims(data[next..], count - i - 1));
      claims := claims + [Claim(claimOffset, claimLength)];
    }
    ok := true;
    assert claims + [] == claims;
  }

  method DecodeDataAt(t: nat, data: seq<byte>, offset: nat) returns (ok: bool, content: Option<Content>, next: nat)
    requires offset <= |data| && IsData(t)
    ensures Reports(DecodeData(t, data[offset..]), data, ok, content, next)
  {
    hide Decode;
    ok, content, next := false, None, offset;
    var good, service, o, length;
    good, service, next := DecodeAt(data, next);
    if !good { return; }
    good, o, next := DecodeAt(data, next);
    if !good { return; }
    good, length, next := DecodeAt(data, next);
    if !good { return; }
    var checkpointSerial, reportSerial := None, None;
    if HasCheckpoint(t) {
      var cp, rs;
      good, cp, next := DecodeAt(data, next);
      if !good { return; }
      good, rs, next := DecodeAt(data, next);
      if !good { return; }
      checkpointSerial, reportSerial := Some(cp), Some(rs);
    }
    if next + length > |data| { return; }
    var bytes := data[next..next + length];
    assert data[next..][..length] == bytes && data[next..][length..] == data[next + length..];
    next := next + length;
    ok, content := true, Some(DataContent(service, o, length, checkpointSerial, reportSerial, bytes));
  }

  method DecodeReportAt(data: seq<byte>, offset: nat) returns (ok: bool, content: Option<Content>, next: nat)
    requires offset <= |data|
    ensures Reports(DecodeReport(data[offset..]), data, ok, content, next)
  {
    hide Decode, DecodeClaims;
    ok, content, next := false, None, offset;
    var good, report, checkpoint, upper, lower, count, claims;
    good, report, next := DecodeAt(data, next);
    if !good { return; }
    good, checkpoint, next := DecodeAt(data, next);
    if !good { return; }
    good, upper, next := DecodeAt(data, next);
    if !good { return; }
    good, lower, next := DecodeAt(data, next);
    if !good { return; }
    good, count, next := DecodeAt(data, next);
    if !good { return; }
    good, claims, next := DecodeClaimsAt(data, next, count);
    if !good { return; }
    ok, content := true, Some(ReportContent(report, checkpoint, upper, lower, claims));
  }

  method DecodeContentAt(t: nat, data: seq<byte>, offset: nat) returns (ok: bool, content: Option<Content>, next: nat)
    requires offset <= |data|
    ensures Reports(DecodeContent(t, data[offset..]), data, ok, content, next)
  {
    hide DecodeData, DecodeReport, Decode;
    ok, content, next := false, None, offset;
    if IsData(t) {
      ok, content, next := DecodeDataAt(t, data, offset);
    } else if t == REPORT_SEGMENT {
      ok, content, next := DecodeReportAt(data, offset);
    } else if t == REPORT_ACK {
      var good, report, after := DecodeAt(data, offset);
      if !good { return; }
      ok, content, next := true, Some(AckContent(report)), after;
    } else if IsCancel(t) {
      if offset >= |data| { return; }
      assert data[offset..][1..] == data[offset + 1..];
      ok, content, next := true, Some(CancelContent(data[offset])), offset + 1;
    } else if IsCancelAck(t) {
      ok, content := true, Some(CancelContent(0));
    }
  }

  /** Bytes after the segment are ignored, as in the program. */
  method DecodeSegmentMethod(data: seq<byte>) returns (segment: Option<Segment>)
    ensures segment == match DecodeSegment(data) case Fail => None case Ok(s, _) => Some(s)
  {
    hide Decode, DecodeExtensions, DecodeContent;
    segment := None;
    if |data| == 0 { return; }
    var control := data[0];
    if control / 16 != 0 { return; }
    if !IsValidType(control % 16) { return; }
    var ok, engineId, sessionNumber, headerExts, trailerExts, content;
    var offset := 1;
    ok, engineId, offset := DecodeAt(data, offset);
    if !ok { return; }
    ok, sessionNumber, offset := DecodeAt(data, offset);
    if !ok { return; }
    if offset + 2 > |data| {
      ShortOfCounts(data[offset..]);
      return;
    }
    var headerExtCount, trailerExtCount := data[offset], data[offset + 1];
    assert data[offset..][1..] == data[offset + 1..] && data[offset + 1..][1..] == data[offset + 2..];
    offset := offset + 2;
    ok, headerExts, offset := DecodeExtensionsAt(data, offset, headerExtCount);
    if !ok { return; }
    ok, content, offset := DecodeContentAt(control % 16, data, offset);
    if !ok { return; }
    ok, trailerExts, offset := DecodeExtensionsAt(data, offset, trailerExtCount);
    if !ok { return; }
    segment := Some(Segment(control / 16, control % 16, engineId, sessionNumber, headerExtCount, trailerExtCount,
                            headerExts, trailerExts, content.value));
  }

  lemma ShortOfCounts(bytes: seq<byte>)
    requires |bytes| < 2
    ensures DecodeByte(bytes).Fail? || DecodeByte(DecodeByte(bytes).rest).Fail?
  {
  }
}
