/** LTP segments and their wire format, include/ltp_cla/ltp_segment.h and src/ltp_cla/ltp_segment.cpp.
    Type numbers and the two extension-count bytes are the program's own. */
module LtpSegment {
  import opened Basics
  import opened Bits
  import opened Ranges
  import opened Sdnv

  const RED_DATA := 0
  const RED_DATA_CP := 1
  const RED_DATA_CP_EORP := 2
  const RED_DATA_CP_EORP_EOB := 3
  const GREEN_DATA := 4
  const GREEN_DATA_EOB := 5
  const REPORT_SEGMENT := 6
  const REPORT_ACK := 7
  const CANCEL_BY_SENDER := 8
  const CANCEL_ACK_TO_SENDER := 9
  const CANCEL_BY_RECEIVER := 12
  const CANCEL_ACK_TO_RECEIVER := 13

  predicate IsValidType(t: nat) { t <= 9 || t == 12 || t == 13 }

  predicate IsData(t: nat) { t <= 5 }

  predicate IsRed(t: nat) { t <= 3 }

  predicate IsGreen(t: nat) { 4 <= t <= 5 }

  predicate HasCheckpoint(t: nat) { 1 <= t <= 3 }

  predicate HasEob(t: nat) { t == 3 || t == 5 }

  predicate IsCancel(t: nat) { t == CANCEL_BY_SENDER || t == CANCEL_BY_RECEIVER }

  predicate IsCancelAck(t: nat) { t == CANCEL_ACK_TO_SENDER || t == CANCEL_ACK_TO_RECEIVER }

  datatype Extension = Extension(tag: byte, value: seq<byte>)

  datatype Content =
    | DataContent(clientServiceId: nat, offset: nat, length: nat,
                  checkpointSerial: Option<nat>, reportSerial: Option<nat>, data: seq<byte>)
    | ReportContent(reportNumber: nat, checkpointNumber: nat, upperBound: nat, lowerBound: nat, claims: seq<Claim>)
    | AckContent(ackedReport: nat)
    | CancelContent(reasonCode: byte)

  datatype Segment = Segment(version: nat, segmentType: nat, engineId: nat, sessionNumber: nat,
                             headerExtCount: byte, trailerExtCount: byte,
                             headerExtensions: seq<Extension>, trailerExtensions: seq<Extension>, content: Content)

  /** The alternative of the content that a segment type calls for. */
  predicate ContentFits(t: nat, c: Content) {
    if IsData(t) then c.DataContent?
    else if t == REPORT_SEGMENT then c.ReportContent?
    else if t == REPORT_ACK then c.AckContent?
    else c.CancelContent?
  }

  function ValueOr0(o: Option<nat>): nat {
    match o case Some(v) => v case None => 0
  }

  // ----- encoding -----

  function EncodeExtensions(exts: seq<Extension>): seq<byte> {
    if |exts| == 0 then []
    else [exts[0].tag] + Encode(|exts[0].value|) + exts[0].value + EncodeExtensions(exts[1..])
  }

  function EncodeClaims(claims: seq<Claim>): seq<byte> {
    if |claims| == 0 then [] else Encode(claims[0].offset) + Encode(claims[0].length) + EncodeClaims(claims[1..])
  }

  function EncodeContent(t: nat, c: Content): seq<byte>
    requires ContentFits(t, c)
  {
    if IsData(t) then
      Encode(c.clientServiceId) + Encode(c.offset) + Encode(c.length)
      + (if HasCheckpoint(t) then Encode(ValueOr0(c.checkpointSerial)) + Encode(ValueOr0(c.reportSerial)) else [])
      + c.data
    else if t == REPORT_SEGMENT then
      Encode(c.reportNumber) + Encode(c.checkpointNumber) + Encode(c.upperBound) + Encode(c.lowerBound)
      + Encode(|c.claims|) + EncodeClaims(c.claims)
    else if t == REPORT_ACK then Encode(c.ackedReport)
    else if IsCancel(t) then [c.reasonCode]
    else []
  }

  function EncodeSegment(s: Segment): (bytes: seq<byte>)
    requires ContentFits(s.segmentType, s.content)
  {
    [s.version % 16 * 16 + s.segmentType % 16]
    + Encode(s.engineId) + Encode(s.sessionNumber)
    + [s.headerExtCount] + [s.trailerExtCount]
    + EncodeExtensions(s.headerExtensions)
    + EncodeContent(s.segmentType, s.content)
    + EncodeExtensions(s.trailerExtensions)
  }

  // ----- decoding -----

  function Take(bytes: seq<byte>, n: nat): Parse<seq<byte>> {
    if n > |bytes| then Fail else Ok(bytes[..n], bytes[n..])
  }

  function DecodeByte(bytes: seq<byte>): Parse<byte> {
    if |bytes| == 0 then Fail else Ok(bytes[0], bytes[1..])
  }

  function DecodeExtension(bytes: seq<byte>): Parse<Extension> {
    var (tag, b1) :- DecodeByte(bytes);
    var (len, b2) :- Decode(b1);
    var (value, b3) :- Take(b2, len);
    Ok(Extension(tag, value), b3)
  }

  function DecodeExtensions(bytes: seq<byte>, count: nat): Parse<seq<Extension>>
    decreases count
  {
    if count == 0 then Ok([], bytes)
    else
      var (first, b1) :- DecodeExtension(bytes);
      var (others, b2) :- DecodeExtensions(b1, count - 1);
      Ok([first] + others, b2)
  }

  function DecodeClaims(bytes: seq<byte>, count: nat): Parse<seq<Claim>>
    decreases count
  {
    if count == 0 then Ok([], bytes)
    else
      var (offset, b1) :- Decode(bytes);
      var (length, b2) :- Decode(b1);
      var (others, b3) :- DecodeClaims(b2, count - 1);
      Ok([Claim(offset, length)] + others, b3)
  }

  function DecodeSerials(t: nat, bytes: seq<byte>): Parse<(Option<nat>, Option<nat>)> {
    if !HasCheckpoint(t) then Ok((None, None), bytes)
    else
      var (cp, b1) :- Decode(bytes);
      var (rs, b2) :- Decode(b1);
      Ok((Some(cp), Some(rs)), b2)
  }

  function DecodeData(t: nat, bytes: seq<byte>): Parse<Content> {
    var (service, b1) :- Decode(bytes);
    var (offset, b2) :- Decode(b1);
    var (length, b3) :- Decode(b2);
    var (serials, b4) :- DecodeSerials(t, b3);
    var (data, b5) :- Take(b4, length);
    Ok(DataContent(service, offset, length, serials.0, serials.1, data), b5)
  }

  function DecodeReport(bytes: seq<byte>): Parse<Content> {
    var (report, b1) :- Decode(bytes);
    var (checkpoint, b2) :- Decode(b1);
    var (upper, b3) :- Decode(b2);
    var (lower, b4) :- Decode(b3);
    var (count, b5) :- Decode(b4);
    var (claims, b6) :- DecodeClaims(b5, count);
    Ok(ReportContent(report, checkpoint, upper, lower, claims), b6)
  }

  function DecodeAck(bytes: seq<byte>): Parse<Content> {
    var (report, b1) :- Decode(bytes);
    Ok(AckContent(report), b1)
  }

  function DecodeCancel(bytes: seq<byte>): Parse<Content> {
    var (reason, b1) :- DecodeByte(bytes);
    Ok(CancelContent(reason), b1)
  }

  function DecodeContent(t: nat, bytes: seq<byte>): Parse<Content> {
    if IsData(t) then DecodeData(t, bytes)
    else if t == REPORT_SEGMENT then DecodeReport(bytes)
    else if t == REPORT_ACK then DecodeAck(bytes)
    else if IsCancel(t) then DecodeCancel(bytes)
    else if IsCancelAck(t) then Ok(CancelContent(0), bytes)
    else Fail
  }

  /** The whole segment and what follows it; version 0 and known types only. */
  function DecodeSegment(bytes: seq<byte>): Parse<Segment> {
    var (control, b0) :- DecodeByte(bytes);
    if control / 16 != 0 || !IsValidType(control % 16) then Fail
    else
      var (engine, b1) :- Decode(b0);
      var (session, b2) :- Decode(b1);
      var (headerCount, b3) :- DecodeByte(b2);
      var (trailerCount, b4) :- DecodeByte(b3);
      var (headers, b5) :- DecodeExtensions(b4, headerCount);
      var (content, b6) :- DecodeContent(control % 16, b5);
      var (trailers, b7) :- DecodeExtensions(b6, trailerCount);
      Ok(Segment(control / 16, control % 16, engine, session, headerCount, trailerCount, headers, trailers, content), b7)
  }

  // ----- well-formed segments -----

  predicate U64(x: nat) { x < TWO_64 }

  /** Every number of the content has the width of its C++ type. */
  predicate ContentNumbersFit(c: Content) {
    match c
    case DataContent(service, offset, length, cp, rs, _) =>
      U64(service) && U64(offset) && U64(length) && U64(ValueOr0(cp)) && U64(ValueOr0(rs))
    case ReportContent(report, cp, upper, lower, claims) =>
      && U64(report) && U64(cp) && U64(upper) && U64(lower) && U64(|claims|)
      && forall i :: 0 <= i < |claims| ==> U64(claims[i].offset) && U64(claims[i].length)
    case AckContent(report) => U64(report)
    case CancelContent(_) => true
  }

  predicate WellFormedExtensions(exts: seq<Extension>, count: byte) {
    |exts| == count && forall i :: 0 <= i < |exts| ==> U64(|exts[i].value|)
  }

  predicate WellFormedSerials(t: nat, c: Content)
    requires c.DataContent?
  {
    if HasCheckpoint(t) then
      c.checkpointSerial.Some? && c.reportSerial.Some? && U64(c.checkpointSerial.value) && U64(c.reportSerial.value)
    else c.checkpointSerial.None? && c.reportSerial.None?
  }

  predicate WellFormedContent(t: nat, c: Content)
    requires ContentFits(t, c)
  {
    if IsData(t) then
      U64(c.clientServiceId) && U64(c.offset) && U64(c.length) && |c.data| == c.length && WellFormedSerials(t, c)
    else if t == REPORT_SEGMENT then
      && U64(c.reportNumber) && U64(c.checkpointNumber) && U64(c.upperBound) && U64(c.lowerBound) && U64(|c.claims|)
      && forall i :: 0 <= i < |c.claims| ==> U64(c.claims[i].offset) && U64(c.claims[i].length)
    else if t == REPORT_ACK then U64(c.ackedReport)
    else if IsCancelAck(t) then c.reasonCode == 0
    else true
  }

  /** Counts match lists, length matches data, checkpoint fields exactly on checkpoint types. */
  predicate WellFormed(s: Segment) {
    && s.version == 0 && IsValidType(s.segmentType) && U64(s.engineId) && U64(s.sessionNumber)
    && WellFormedExtensions(s.headerExtensions, s.headerExtCount)
    && WellFormedExtensions(s.trailerExtensions, s.trailerExtCount)
    && ContentFits(s.segmentType, s.content) && WellFormedContent(s.segmentType, s.content)
  }

  // ----- the round trip -----

  lemma ByteThen(b: byte, rest: seq<byte>)
    ensures DecodeByte([b] + rest) == Ok(b, rest)
  {
    assert ([b] + rest)[1..] == rest;
  }

  lemma TakeThen(a: seq<byte>, rest: seq<byte>)
    ensures Take(a + rest, |a|) == Ok(a, rest)
  {
    assert (a + rest)[..|a|] == a && (a + rest)[|a|..] == rest;
  }

  lemma {:induction false} ExtensionsRoundTrip(exts: seq<Extension>, rest: seq<byte>)
    requires forall i :: 0 <= i < |exts| ==> U64(|exts[i].value|)
    ensures DecodeExtensions(EncodeExtensions(exts) + rest, |exts|) == Ok(exts, rest)
  {
    hide Encode, Decode;
    if |exts| == 0 {
      assert EncodeExtensions(exts) + rest == rest;
    } else {
      var e := exts[0];
      var b3 := EncodeExtensions(exts[1..]) + rest;
      var b2 := e.value + b3;
      var b1 := Encode(|e.value|) + b2;
      assert EncodeExtensions(exts) + rest == [e.tag] + b1;
      ByteThen(e.tag, b1);
      RoundTrip(|e.value|, b2);
      TakeThen(e.value, b3);
      ExtensionsRoundTrip(exts[1..], rest);
      assert exts == [e] + exts[1..];
    }
  }

  lemma {:induction false} ClaimsRoundTrip(claims: seq<Claim>, rest: seq<byte>)
    requires forall i :: 0 <= i < |claims| ==> U64(claims[i].offset) && U64(claims[i].length)
    ensures DecodeClaims(EncodeClaims(claims) + rest, |claims|) == Ok(claims, rest)
  {
    hide Encode, Decode;
    if |claims| == 0 {
      assert EncodeClaims(claims) + rest == rest;
    } else {
      var c := claims[0];
      var b2 := EncodeClaims(claims[1..]) + rest;
      var b1 := Encode(c.length) + b2;
      assert EncodeClaims(claims) + rest == Encode(c.offset) + b1;
      RoundTrip(c.offset, b1);
      RoundTrip(c.length, b2);
      ClaimsRoundTrip(claims[1..], rest);
      assert claims == [c] + claims[1..];
    }
  }

  lemma SerialsRoundTrip(t: nat, c: Content, rest: seq<byte>)
    requires c.DataContent? && WellFormedSerials(t, c)
    ensures DecodeSerials(t, (if HasCheckpoint(t) then Encode(ValueOr0(c.checkpointSerial)) + Encode(ValueOr0(c.reportSerial)) else []) + rest)
            == Ok((c.checkpointSerial, c.reportSerial), rest)
  {
    hide Encode, Decode;
    if HasCheckpoint(t) {
      var cp, rs := Encode(ValueOr0(c.checkpointSerial)), Encode(ValueOr0(c.reportSerial));
      assert cp + rs + rest == cp + (rs + rest);
      RoundTrip(ValueOr0(c.checkpointSerial), rs + rest);
      RoundTrip(ValueOr0(c.reportSerial), rest);
    } else {
      assert [] + rest == rest;
    }
  }

  lemma DataRoundTrip(t: nat, c: Content, rest: seq<byte>)
    requires IsData(t) && ContentFits(t, c) && WellFormedContent(t, c)
    ensures DecodeData(t, EncodeContent(t, c) + rest) == Ok(c, rest)
  {
    hide Encode, Decode, DecodeSerials;
    var serials := if HasCheckpoint(t) then Encode(ValueOr0(c.checkpointSerial)) + Encode(ValueOr0(c.reportSerial)) else [];
    var b4 := c.data + rest;
    var b3 := serials + b4;
    var b2 := Encode(c.length) + b3;
    var b1 := Encode(c.offset) + b2;
    assert EncodeContent(t, c) + rest == Encode(c.clientServiceId) + b1;
    RoundTrip(c.clientServiceId, b1);
    RoundTrip(c.offset, b2);
    RoundTrip(c.length, b3);
    SerialsRoundTrip(t, c, b4);
    TakeThen(c.data, rest);
  }

  lemma ReportRoundTrip(c: Content, rest: seq<byte>)
    requires c.ReportContent? && WellFormedContent(REPORT_SEGMENT, c)
    ensures DecodeReport(EncodeContent(REPORT_SEGMENT, c) + rest) == Ok(c, rest)
  {
    hide Encode, Decode, DecodeClaims, EncodeClaims;
    var b5 := EncodeClaims(c.claims) + rest;
    var b4 := Encode(|c.claims|) + b5;
    var b3 := Encode(c.lowerBound) + b4;
    var b2 := Encode(c.upperBound) + b3;
    var b1 := Encode(c.checkpointNumber) + b2;
    assert EncodeContent(REPORT_SEGMENT, c) + rest == Encode(c.reportNumber) + b1;
    RoundTrip(c.reportNumber, b1);
    RoundTrip(c.checkpointNumber, b2);
    RoundTrip(c.upperBound, b3);
    RoundTrip(c.lowerBound, b4);
    RoundTrip(|c.claims|, b5);
    ClaimsRoundTrip(c.claims, rest);
  }

  lemma ContentRoundTrip(t: nat, c: Content, rest: seq<byte>)
    requires IsValidType(t) && ContentFits(t, c) && WellFormedContent(t, c)
    ensures DecodeContent(t, EncodeContent(t, c) + rest) == Ok(c, rest)
  {
    if IsData(t) {
      DataRoundTrip(t, c, rest);
    } else if t == REPORT_SEGMENT {
      ReportRoundTrip(c, rest);
    } else if t == REPORT_ACK {
      RoundTrip(c.ackedReport, rest);
    } else if IsCancel(t) {
      ByteThen(c.reasonCode, rest);
    } else {
      assert EncodeContent(t, c) + rest == rest;
    }
  }

  /** Round trip: any bytes may follow; decoding an encoded well-formed segment gives that segment
      and exactly those bytes. */
  lemma SegmentRoundTrip(s: Segment, rest: seq<byte>)
    requires WellFormed(s)
    ensures DecodeSegment(EncodeSegment(s) + rest) == Ok(s, rest)
  {
    hide Encode, Decode, DecodeExtensions, EncodeExtensions, DecodeContent, EncodeContent;
    var b6 := EncodeExtensions(s.trailerExtensions) + rest;
    var b5 := EncodeContent(s.segmentType, s.content) + b6;
    var b4 := EncodeExtensions(s.headerExtensions) + b5;
    var b3 := [s.trailerExtCount] + b4;
    var b2 := [s.headerExtCount] + b3;
    var b1 := Encode(s.sessionNumber) + b2;
    var b0 := Encode(s.engineId) + b1;
    assert EncodeSegment(s) + rest == [s.segmentType] + b0;
    ByteThen(s.segmentType, b0);
    RoundTrip(s.engineId, b1);
    RoundTrip(s.sessionNumber, b2);
    ByteThen(s.headerExtCount, b3);
    ByteThen(s.trailerExtCount, b4);
    ExtensionsRoundTrip(s.headerExtensions, b5);
    ContentRoundTrip(s.segmentType, s.content, b6);
    ExtensionsRoundTrip(s.trailerExtensions, rest);
  }

  /** No encoding is a proper prefix of another: whichever segments they encode, if one encoding
      starts with the other, the segments and the encodings are the same. */
  lemma EncodingsArePrefixFree(s: Segment, t: Segment)
    requires WellFormed(s) && WellFormed(t)
    requires EncodeSegment(s) <= EncodeSegment(t)
    ensures s == t
  {
    hide EncodeSegment, DecodeSegment;
    var e, f := EncodeSegment(s), EncodeSegment(t);
    SegmentRoundTrip(s, f[|e|..]);
    SegmentRoundTrip(t, []);
    assert f == e + f[|e|..] && f + [] == f;
  }

  // ----- lists on the wire -----

  /** Claims follow one another, each as offset and length. */
  lemma {:induction false} ClaimsOnWire(claims: seq<Claim>, last: Claim)
    ensures EncodeClaims(claims + [last]) == EncodeClaims(claims) + Encode(last.offset) + Encode(last.length)
  {
    hide Encode;
    if |claims| == 0 {
      assert (claims + [last])[1..] == [];
    } else {
      ClaimsOnWire(claims[1..], last);
      assert (claims + [last])[1..] == claims[1..] + [last];
    }
  }

  /** Extensions follow one another, each as tag, length and value. */
  lemma {:induction false} ExtensionsOnWire(exts: seq<Extension>, last: Extension)
    ensures EncodeExtensions(exts + [last]) == EncodeExtensions(exts) + [last.tag] + Encode(|last.value|) + last.value
  {
    hide Encode;
    if |exts| == 0 {
      assert (exts + [last])[1..] == [];
    } else {
      ExtensionsOnWire(exts[1..], last);
      assert (exts + [last])[1..] == exts[1..] + [last];
    }
  }
}
