/** Segments as octets on the wire: the image of every segment by its content, and the first octets of
    whatever a handler sends, with the numbers that tie answers to what they answer. */
module LtpWire {
  import opened Basics
  import opened Bits
  import opened Ranges
  import opened Sdnv
  import opened LtpSegment
  import opened LtpEngineSpec
  import opened LtpEngineInvariant

  // ----- the wire image -----

  /** The control octet, as encoded; 16 stands for a segment that cannot be encoded. */
  function Octet(s: Segment): nat {
    if ContentFits(s.segmentType, s.content) then EncodeSegment(s)[0] else 16
  }

  lemma OctetIs(s: Segment)
    requires ContentFits(s.segmentType, s.content) && s.version == 0 && s.segmentType < 16
    ensures Octet(s) == s.segmentType
  {
  }

  /** The control octet tells the content: at most 5 for data, 6 for a report, 7 for its acknowledgment,
      and 8, 9, 12 or 13 for a cancel or its acknowledgment. */
  lemma OctetTellsContent(s: Segment)
    requires WellFormed(s)
    ensures Octet(s) <= 5 <==> s.content.DataContent?
    ensures Octet(s) == 6 <==> s.content.ReportContent?
    ensures Octet(s) == 7 <==> s.content.AckContent?
    ensures Octet(s) in {8, 9, 12, 13} <==> s.content.CancelContent?
  {
    OctetIs(s);
  }

  /** The content on the wire: the fields of data, with two serials on checkpoints only, of a report, of
      an acknowledgment, and the reason of a cancel but not of its acknowledgment. */
  function Body(octet: nat, c: Content): seq<byte> {
    match c
    case DataContent(service, offset, length, checkpoint, report, data) =>
      Encode(service) + Encode(offset) + Encode(length)
      + (if octet in {1, 2, 3} then Encode(ValueOr0(checkpoint)) + Encode(ValueOr0(report)) else []) + data
    case ReportContent(report, checkpoint, upper, lower, claims) =>
      Encode(report) + Encode(checkpoint) + Encode(upper) + Encode(lower) + Encode(|claims|) + EncodeClaims(claims)
    case AckContent(report) => Encode(report)
    case CancelContent(reason) => if octet in {8, 12} then [reason] else []
  }

  /** The whole image of a segment: control octet, engine id, session number, the two extension counts,
      header extensions, content, trailer extensions. */
  lemma WireImage(s: Segment)
    requires WellFormed(s)
    ensures EncodeSegment(s)
            == [Octet(s)] + Encode(s.engineId) + Encode(s.sessionNumber) + [s.headerExtCount, s.trailerExtCount]
               + EncodeExtensions(s.headerExtensions) + Body(Octet(s), s.content) + EncodeExtensions(s.trailerExtensions)
  {
    hide Encode, EncodeExtensions, EncodeClaims;
    OctetIs(s);
    assert Body(Octet(s), s.content) == EncodeContent(s.segmentType, s.content);
  }

  // ----- what the handlers send -----

  /** A segment as every handler builds it. */
  lemma MadeOctet(t: nat, engineId: nat, sessionNumber: nat, content: Content)
    requires ContentFits(t, content) && t < 16
    ensures Octet(MakeSegment(t, engineId, sessionNumber, content)) == t
  {
    hide EncodeSegment;
    OctetIs(MakeSegment(t, engineId, sessionNumber, content));
  }

  /** Data pieces: all but the last with one octet, the last with another one. */
  predicate Pieces(segs: seq<Segment>, key: Key, octet: nat, last: nat) {
    forall i :: 0 <= i < |segs| ==>
      Octet(segs[i]) == (if i == |segs| - 1 then last else octet) && KeyOf(segs[i]) == key && segs[i].content.DataContent?
  }

  /** Client service 1; a checkpoint carries its serial, and report serial zero. */
  predicate Serials(segs: seq<Segment>, serial: Option<nat>) {
    forall i :: 0 <= i < |segs| ==>
      var c := segs[i].content;
      && c.DataContent? && c.clientServiceId == 1
      && c.checkpointSerial == (if i == |segs| - 1 then serial else None)
      && c.reportSerial == (if i == |segs| - 1 && serial.Some? then Some(0) else None)
  }

  lemma PieceOctets(s: Session, pieces: seq<Claim>, t: nat, lastType: nat, serial: Option<nat>)
    requires Within(pieces, 0, |s.clientData|) && t <= 5 && lastType <= 5
    ensures Pieces(PieceSegments(s, pieces, t, lastType, serial), Key(s.engineId, s.sessionNumber), t, lastType)
    ensures Serials(PieceSegments(s, pieces, t, lastType, serial), serial)
  {
    hide EncodeSegment, Octet;
    var segs := PieceSegments(s, pieces, t, lastType, serial);
    forall i | 0 <= i < |segs| ensures Octet(segs[i]) == segs[i].segmentType {
      MadeOctet(segs[i].segmentType, s.engineId, s.sessionNumber, segs[i].content);
    }
  }

  /** A block on the wire: red data is type 0 and closes with type 3, green is 4 and closes with 5. Only
      red data asks for a report, with a serial number one above the last. */
  lemma BlockOctets(s: Session, maxSeg: nat)
    requires maxSeg > 0
    ensures var segs := SegmentBlock(s, maxSeg);
            && |segs| > 0
            && Pieces(segs, Key(s.engineId, s.sessionNumber), if s.isRed then 0 else 4, if s.isRed then 3 else 5)
            && Serials(segs, if s.isRed then Some(s.checkpointSerialCounter + 1) else None)
  {
    hide Octet, Pieces, Serials, PieceSegments, Cut, DataSegment;
    var serial := if s.isRed then Some(s.checkpointSerialCounter + 1) else None;
    var lastType := if s.isRed then RED_DATA_CP_EORP_EOB else GREEN_DATA_EOB;
    var t := if s.isRed then RED_DATA else GREEN_DATA;
    if |s.clientData| == 0 {
      OnePiece(s, t, lastType, serial);
    } else {
      CutWithin(0, |s.clientData|, maxSeg);
      PieceOctets(s, Cut(0, |s.clientData|, maxSeg), t, lastType, serial);
    }
  }

  /** The closing piece of an empty block. */
  lemma OnePiece(s: Session, t: nat, lastType: nat, serial: Option<nat>)
    requires t <= 5 && lastType <= 5
    ensures var segs := [DataSegment(s, lastType, Claim(0, 0), serial)];
            Pieces(segs, Key(s.engineId, s.sessionNumber), t, lastType) && Serials(segs, serial)
  {
    hide Octet;
    var seg := DataSegment(s, lastType, Claim(0, 0), serial);
    MadeOctet(lastType, s.engineId, s.sessionNumber, seg.content);
  }

  /** Starting a block: refused with number zero if and only if the engine is full; otherwise the number
      is the next one, and everything sent carries it. */
  lemma StartOctets(e: Engine, data: seq<byte>, reliable: bool)
    requires EngineOk(e)
    ensures var (o, number) := StartSession(e, data, reliable);
            if Full(e) then o == Outcome(e, [], []) && number == 0
            else
              && number == e.sessionCounter + 1 == o.engine.sessionCounter && |o.sent| > 0
              && Pieces(o.sent, Key(e.config.localEngineId, number), if reliable then 0 else 4, if reliable then 3 else 5)
              && Serials(o.sent, if reliable then Some(1) else None)
  {
    hide SegmentBlock, Pieces, Serials, SessionOk, CountSentAll;
    BlockOctets(NewOriginator(e, data, reliable), e.config.maxSegmentSize);
  }

  /** The acknowledgment names the report it answers. */
  predicate Acknowledges(ack: Segment, report: Segment) {
    && ack.content.AckContent? && report.content.ReportContent?
    && Octet(ack) == 7 && KeyOf(ack) == KeyOf(report) && ack.content.ackedReport == report.content.reportNumber
  }

  lemma AckOctet(report: Segment)
    requires report.content.ReportContent?
    ensures Acknowledges(AckFor(report.engineId, report.sessionNumber, report.content.reportNumber), report)
  {
    hide Octet;
    MadeOctet(REPORT_ACK, report.engineId, report.sessionNumber, AckContent(report.content.reportNumber));
  }

  /** A cancel for `key`: type 8 from the block's own engine, type 12 from its receiver. */
  predicate Cancels(e: Engine, seg: Segment, key: Key, reason: byte) {
    && Octet(seg) == (if key.engineId == e.config.localEngineId then 8 else 12)
    && KeyOf(seg) == key && seg.content == CancelContent(reason)
  }

  /** A local cancel: one cancel segment, the failure reported with its reason, the session gone; nothing
      at all for an unknown session. */
  lemma CancelOctets(e: Engine, key: Key, reason: byte)
    requires EngineOk(e)
    ensures var o := CancelSession(e, key, reason);
            if key in e.sessions then
              && |o.sent| == 1 && Cancels(e, o.sent[0], key, reason)
              && o.events == [SessionFailed(key.sessionNumber, reason)] && o.engine.sessions == e.sessions - {key}
            else o == Outcome(e, [], [])
  {
    hide Octet;
    if key in e.sessions {
      assert SessionOk(e, key, e.sessions[key]);
      MadeOctet(CANCEL_BY_SENDER, key.engineId, key.sessionNumber, CancelContent(reason));
      MadeOctet(CANCEL_BY_RECEIVER, key.engineId, key.sessionNumber, CancelContent(reason));
    }
  }

  /** A cancel that arrives: type 9 answers type 8 and type 13 answers type 12, for an unknown session
      too; a known one is gone and its failure reported with the reason given. */
  lemma CancelAnswered(e: Engine, seg: Segment)
    requires EngineOk(e) && seg.content.CancelContent? && seg.version == 0 && IsCancel(seg.segmentType)
    ensures Octet(seg) in {8, 12}
    ensures var o := ReceiveCancel(e, seg);
            var known := KeyOf(seg) in e.sessions;
            && |o.sent| == 1 && Octet(o.sent[0]) == Octet(seg) + 1 && KeyOf(o.sent[0]) == KeyOf(seg)
            && o.events == (if known then [SessionFailed(seg.sessionNumber, seg.content.reasonCode)] else [])
            && o.engine.sessions == (if known then e.sessions - {KeyOf(seg)} else e.sessions)
  {
    hide Octet;
    OctetIs(seg);
    MadeOctet(CANCEL_ACK_TO_SENDER, seg.engineId, seg.sessionNumber, CancelContent(0));
    MadeOctet(CANCEL_ACK_TO_RECEIVER, seg.engineId, seg.sessionNumber, CancelContent(0));
    if KeyOf(seg) in e.sessions { assert SessionOk(e, KeyOf(seg), e.sessions[KeyOf(seg)]); }
  }

  /** A report on a session's tracked ranges that names the checkpoint it answers and has the next number
      of its session. */
  predicate Reports(report: Segment, s: Session, checkpoint: nat, upper: nat) {
    && Octet(report) == 6 && KeyOf(report) == Key(s.engineId, s.sessionNumber)
    && report.content == ReportContent(s.reportSerialCounter + 1, checkpoint, upper, 0, s.ranges)
  }

  lemma ReportOctet(s: Session, checkpoint: nat, upper: nat)
    ensures Reports(ReportFor(s, checkpoint, upper), s, checkpoint, upper)
  {
    hide Octet;
    MadeOctet(REPORT_SEGMENT, s.engineId, s.sessionNumber,
              ReportContent(s.reportSerialCounter + 1, checkpoint, upper, 0, s.ranges));
  }

  /** A data segment is answered if and only if it is accepted and a checkpoint, type 1, 2 or 3, with a
      serial number: by one report that names that number and claims all the session has tracked. */
  lemma CheckpointAnswered(e: Engine, seg: Segment)
    requires EngineOk(e) && FromPeer(e, seg) && IsData(seg.segmentType) && seg.version == 0
    ensures Octet(seg) <= 5
    ensures var sent := ReceiveData(e, seg).sent;
            var s1 := Absorb(ReceiverFor(e, seg), seg);
            if Accepts(e, KeyOf(seg)) && Octet(seg) in {1, 2, 3} && seg.content.checkpointSerial.Some? then
              |sent| == 1 && Reports(sent[0], s1, seg.content.checkpointSerial.value, seg.content.offset + seg.content.length)
            else sent == []
  {
    hide Octet, Absorb, SessionOk, ReceiveData, Reports;
    OctetIs(seg);
    if Accepts(e, KeyOf(seg)) {
      if KeyOf(seg) in e.sessions { StoredIsActive(e, KeyOf(seg)); }
      DataOutcome(e, seg);
      if AsksForReport(seg) {
        ReportOctet(Absorb(ReceiverFor(e, seg), seg), seg.content.checkpointSerial.value, seg.content.offset + seg.content.length);
      }
    } else {
      RefusedData(e, seg);
    }
  }

  lemma StoredIsActive(e: Engine, key: Key)
    requires EngineOk(e) && key in e.sessions
    ensures e.sessions[key].state == ACTIVE
    ensures e.sessions[key].role == (if key.engineId == e.config.localEngineId then ORIGINATOR else RECEIVER)
    ensures Key(e.sessions[key].engineId, e.sessions[key].sessionNumber) == key
  {
    assert SessionOk(e, key, e.sessions[key]);
  }

  lemma RefusedData(e: Engine, seg: Segment)
    requires IsData(seg.segmentType) && seg.content.DataContent? && seg.content.length == |seg.content.data|
    requires !Accepts(e, KeyOf(seg))
    ensures ReceiveData(e, seg) == Outcome(e, [], [])
  {
  }

  /** A report is always acknowledged first, whether its session is known or not. Behind the
      acknowledgment comes nothing, or one cancel with reason 1, or a retransmission: type 0, closed by
      a checkpoint of type 1 with a serial number one above the last. */
  lemma ReportAnswered(e: Engine, seg: Segment)
    requires EngineOk(e) && Receivable(e, seg) && seg.segmentType == REPORT_SEGMENT
    ensures var sent := ReceiveReport(e, seg).sent;
            var own := Key(e.config.localEngineId, seg.sessionNumber);
            && |sent| > 0 && Acknowledges(sent[0], seg)
            && (|sent| > 1 ==>
                  && own in e.sessions
                  && (|| (|sent| == 2 && Cancels(e, sent[1], own, 1))
                      || (&& Pieces(sent[1..], own, 0, 1)
                          && Serials(sent[1..], Some(e.sessions[own].checkpointSerialCounter + 1)))))
  {
    hide Gaps, CutAll, CountSentAll, SessionOk, Octet, Acknowledges, Pieces, Serials, PieceSegments;
    var own := Key(e.config.localEngineId, seg.sessionNumber);
    AckOctet(seg);
    if own in e.sessions {
      StoredIsActive(e, own);
      MadeOctet(CANCEL_BY_SENDER, own.engineId, own.sessionNumber, CancelContent(1));
      var s := BumpRetransmissions(e.sessions[own]);
      GapsCoverTheRest(seg.content.claims, seg.content.lowerBound, seg.content.upperBound);
      var gaps := Gaps(seg.content.claims, seg.content.lowerBound, seg.content.upperBound);
      CutAllWithin(gaps, e.config.maxSegmentSize, |s.clientData|);
      PieceOctets(s, CutAll(gaps, e.config.maxSegmentSize), RED_DATA, RED_DATA_CP, Some(s.checkpointSerialCounter + 1));
      var ack := AckFor(seg.engineId, seg.sessionNumber, seg.content.reportNumber);
      var again := RetransmitSegments(s, gaps, e.config.maxSegmentSize);
      assert ([ack] + again)[1..] == again;
    }
  }
}
