/** The LTP engine's handlers as functions on engine states, src/ltp_cla/ltp_engine.cpp. Each gives
    the new state, the segments sent and the callbacks fired. */
module LtpEngineSpec {
  import opened Basics
  import opened Bits
  import opened Ranges
  import opened LtpSegment

  datatype Role = ORIGINATOR | RECEIVER

  datatype SessionState = ACTIVE | COMPLETED | CANCELLED

  datatype Key = Key(engineId: nat, sessionNumber: nat)

  datatype Session = Session(engineId: nat, sessionNumber: nat, role: Role, state: SessionState,
                             clientData: seq<byte>, totalDataLength: nat, isRed: bool, ranges: seq<Claim>,
                             checkpointSerialCounter: nat, reportSerialCounter: nat, retransmissionCount: nat)

  datatype Config = Config(localEngineId: nat, maxSegmentSize: nat, maxRetransmissions: nat, maxConcurrentSessions: nat)

  datatype Diagnostics = Diagnostics(
    sessionsOriginated: nat, sessionsReceived: nat, sessionsCompleted: nat, sessionsCancelled: nat,
    redSegmentsSent: nat, redSegmentsReceived: nat, greenSegmentsSent: nat, greenSegmentsReceived: nat,
    checkpointsSent: nat, reportsReceived: nat, reportsSent: nat, reportAcksSent: nat, reportAcksReceived: nat,
    retransmissions: nat, cancelSegmentsSent: nat, cancelSegmentsReceived: nat)

  datatype Engine = Engine(config: Config, sessionCounter: nat, sessions: map<Key, Session>, diag: Diagnostics)

  /** Callbacks to the application. A delivery also names its session and what the tracker held. */
  datatype Event =
    | Delivered(key: Key, red: bool, data: seq<byte>, tracked: seq<Claim>)
    | SessionComplete(number: nat)
    | SessionFailed(failedNumber: nat, reason: byte)

  datatype Outcome = Outcome(engine: Engine, sent: seq<Segment>, events: seq<Event>)

  datatype TimerType = CHECKPOINT_TIMER | REPORT_TIMER | CANCEL_TIMER

  datatype TimerEvent = TimerEvent(timerType: TimerType, engineId: nat, sessionNumber: nat, serialNumber: nat)

  // ----- building and counting segments -----

  function MakeSegment(t: nat, engineId: nat, sessionNumber: nat, content: Content): Segment {
    Segment(0, t, engineId, sessionNumber, 0, 0, [], [], content)
  }

  function CountSent(d: Diagnostics, seg: Segment): Diagnostics {
    var t := seg.segmentType;
    if IsRed(t) then
      d.(redSegmentsSent := d.redSegmentsSent + 1,
         checkpointsSent := d.checkpointsSent + if HasCheckpoint(t) then 1 else 0)
    else if IsGreen(t) then d.(greenSegmentsSent := d.greenSegmentsSent + 1)
    else if t == REPORT_SEGMENT then d.(reportsSent := d.reportsSent + 1)
    else if t == REPORT_ACK then d.(reportAcksSent := d.reportAcksSent + 1)
    else if IsCancel(t) then d.(cancelSegmentsSent := d.cancelSegmentsSent + 1)
    else d
  }

  function CountSentAll(d: Diagnostics, segs: seq<Segment>): Diagnostics {
    if |segs| == 0 then d else CountSent(CountSentAll(d, segs[..|segs| - 1]), segs[|segs| - 1])
  }

  /** Cut [offset, offset + remaining) into pieces of at most `maxSeg` bytes. */
  function Cut(offset: nat, remaining: nat, maxSeg: nat): seq<Claim>
    requires maxSeg > 0
    decreases remaining
  {
    if remaining == 0 then []
    else
      var chunk := Min(maxSeg, remaining);
      [Claim(offset, chunk)] + Cut(offset + chunk, remaining - chunk, maxSeg)
  }

  function CutAll(gaps: seq<Claim>, maxSeg: nat): seq<Claim>
    requires maxSeg > 0
  {
    if |gaps| == 0 then []
    else CutAll(gaps[..|gaps| - 1], maxSeg) + Cut(gaps[|gaps| - 1].offset, gaps[|gaps| - 1].length, maxSeg)
  }

  function DataSegment(s: Session, t: nat, piece: Claim, serial: Option<nat>): Segment
    requires piece.End() <= |s.clientData|
  {
    MakeSegment(t, s.engineId, s.sessionNumber,
                DataContent(1, piece.offset, piece.length, serial, if serial.Some? then Some(0) else None,
                            s.clientData[piece.offset..piece.End()]))
  }

  /** One segment per piece; the last has its own type and, possibly, a checkpoint serial. */
  function PieceSegments(s: Session, pieces: seq<Claim>, t: nat, lastType: nat, serial: Option<nat>): (segs: seq<Segment>)
    requires Within(pieces, 0, |s.clientData|)
    ensures |segs| == |pieces|
  {
    seq(|pieces|, i requires 0 <= i < |pieces| =>
      if i == |pieces| - 1 then DataSegment(s, lastType, pieces[i], serial) else DataSegment(s, t, pieces[i], None))
  }

  lemma {:induction false} CutWithin(offset: nat, remaining: nat, maxSeg: nat)
    requires maxSeg > 0
    ensures Within(Cut(offset, remaining, maxSeg), offset, offset + remaining)
    ensures remaining > 0 ==> |Cut(offset, remaining, maxSeg)| > 0
    decreases remaining
  {
    if remaining > 0 {
      var chunk := Min(maxSeg, remaining);
      CutWithin(offset + chunk, remaining - chunk, maxSeg);
    }
  }

  lemma {:induction false} CutAllWithin(gaps: seq<Claim>, maxSeg: nat, upper: nat)
    requires maxSeg > 0 && Within(gaps, 0, upper)
    ensures Within(CutAll(gaps, maxSeg), 0, upper)
  {
    if |gaps| > 0 {
      CutAllWithin(gaps[..|gaps| - 1], maxSeg, upper);
      CutWithin(gaps[|gaps| - 1].offset, gaps[|gaps| - 1].length, maxSeg);
    }
  }

  /** Segmentation of a whole block; an empty block is one empty closing segment. */
  function SegmentBlock(s: Session, maxSeg: nat): (segs: seq<Segment>)
    requires maxSeg > 0
  {
    var serial := if s.isRed then Some(s.checkpointSerialCounter + 1) else None;
    var lastType := if s.isRed then RED_DATA_CP_EORP_EOB else GREEN_DATA_EOB;
    if |s.clientData| == 0 then [DataSegment(s, lastType, Claim(0, 0), serial)]
    else
      CutWithin(0, |s.clientData|, maxSeg);
      PieceSegments(s, Cut(0, |s.clientData|, maxSeg), if s.isRed then RED_DATA else GREEN_DATA, lastType, serial)
  }

  /** The session after segmentation: a red block used one checkpoint serial. */
  function AfterSegmentation(s: Session): Session {
    if s.isRed then s.(checkpointSerialCounter := s.checkpointSerialCounter + 1) else s
  }

  // ----- handlers -----

  predicate Full(e: Engine) { |e.sessions| >= e.config.maxConcurrentSessions }

  function NewOriginator(e: Engine, data: seq<byte>, reliable: bool): Session {
    Session(e.config.localEngineId, e.sessionCounter + 1, ORIGINATOR, ACTIVE, data, |data|, reliable, [], 0, 0, 0)
  }

  function StartSession(e: Engine, data: seq<byte>, reliable: bool): (Outcome, nat)
    requires e.config.maxSegmentSize > 0
  {
    if Full(e) then (Outcome(e, [], []), 0)
    else
      var sn := e.sessionCounter + 1;
      var key := Key(e.config.localEngineId, sn);
      var session := NewOriginator(e, data, reliable);
      var segs := SegmentBlock(session, e.config.maxSegmentSize);
      var d := CountSentAll(e.diag.(sessionsOriginated := e.diag.sessionsOriginated + 1), segs);
      if reliable then
        (Outcome(e.(sessionCounter := sn, sessions := e.sessions[key := AfterSegmentation(session)], diag := d), segs, []), sn)
      else
        (Outcome(e.(sessionCounter := sn, sessions := e.sessions - {key},
                    diag := d.(sessionsCompleted := d.sessionsCompleted + 1)), segs, []), sn)
  }

  function NewReceiver(seg: Segment): Session {
    Session(seg.engineId, seg.sessionNumber, RECEIVER, ACTIVE, [], 0, IsRed(seg.segmentType), [], 0, 0, 0)
  }

  function Zeros(n: nat): (z: seq<byte>)
    ensures |z| == n && forall i :: 0 <= i < n ==> z[i] == 0
  {
    seq(n, _ => 0)
  }

  /** Grow the buffer with zeros if needed, then copy the data in. */
  function Store(buffer: seq<byte>, offset: nat, data: seq<byte>): (r: seq<byte>)
    ensures |r| == Max(|buffer|, offset + |data|)
    ensures forall i :: 0 <= i < |r| ==>
              r[i] == if offset <= i < offset + |data| then data[i - offset] else if i < |buffer| then buffer[i] else 0
  {
    var end := offset + |data|;
    var b := if end > |buffer| then buffer + Zeros(end - |buffer|) else buffer;
    b[..offset] + data + b[end..]
  }

  /** The receiver session after a data segment: buffer, tracker, and the length once EOB is seen. */
  function Absorb(s: Session, seg: Segment): Session
    requires seg.content.DataContent?
  {
    var c := seg.content;
    s.(clientData := Store(s.clientData, c.offset, c.data),
       ranges := AddRange(s.ranges, c.offset, c.length),
       totalDataLength := if HasEob(seg.segmentType) then c.offset + c.length else s.totalDataLength)
  }

  function ReportFor(s: Session, checkpointSerial: nat, upper: nat): Segment {
    MakeSegment(REPORT_SEGMENT, s.engineId, s.sessionNumber,
                ReportContent(s.reportSerialCounter + 1, checkpointSerial, upper, 0, s.ranges))
  }

  function AfterReport(s: Session): Session {
    s.(reportSerialCounter := s.reportSerialCounter + 1)
  }

  function KeyOf(seg: Segment): Key { Key(seg.engineId, seg.sessionNumber) }

  /** Whether a data segment is taken in: its session exists or there is room for it. */
  predicate Accepts(e: Engine, key: Key) { key in e.sessions || !Full(e) }

  function CountReceived(d: Diagnostics, t: nat): Diagnostics {
    if IsRed(t) then d.(redSegmentsReceived := d.redSegmentsReceived + 1)
    else d.(greenSegmentsReceived := d.greenSegmentsReceived + 1)
  }

  /** What an active session does with a data segment. */
  function IntoSession(e: Engine, seg: Segment, s0: Session, d0: Diagnostics): Outcome
    requires seg.content.DataContent? && seg.content.length == |seg.content.data|
  {
    var key := KeyOf(seg);
    var c := seg.content;
    var s1 := Absorb(s0, seg);
    var d1 := CountReceived(d0, seg.segmentType);
    var reports := HasCheckpoint(seg.segmentType) && c.checkpointSerial.Some?;
    var sent := if reports then [ReportFor(s1, c.checkpointSerial.value, c.offset + c.length)] else [];
    var s2 := if reports then AfterReport(s1) else s1;
    var d2 := CountSentAll(d1, sent);
    if IsGreen(seg.segmentType) && HasEob(seg.segmentType) then
      Outcome(e.(sessions := e.sessions - {key}, diag := d2.(sessionsCompleted := d2.sessionsCompleted + 1)), sent,
              [Delivered(key, false, s2.clientData[..s2.totalDataLength], s2.ranges)])
    else Outcome(e.(sessions := e.sessions[key := s2], diag := d2), sent, [])
  }

  function ReceiveData(e: Engine, seg: Segment): Outcome
    requires IsData(seg.segmentType) && seg.content.DataContent?
    requires seg.content.length == |seg.content.data|
  {
    var key := KeyOf(seg);
    if !Accepts(e, key) then Outcome(e, [], [])
    else
      var isNew := key !in e.sessions;
      var d0 := if isNew then e.diag.(sessionsReceived := e.diag.sessionsReceived + 1) else e.diag;
      var s0 := if isNew then NewReceiver(seg) else e.sessions[key];
      if s0.state != ACTIVE then Outcome(e.(sessions := e.sessions[key := s0], diag := d0), [], [])
      else IntoSession(e, seg, s0, d0)
  }

  function AckFor(engineId: nat, sessionNumber: nat, reportSerial: nat): Segment {
    MakeSegment(REPORT_ACK, engineId, sessionNumber, AckContent(reportSerial))
  }

  /** The claim test of `receive_report_segment`. */
  predicate FullyReceived(s: Session, claims: seq<Claim>) {
    s.totalDataLength == 0
    || (|claims| == 1 && claims[0].offset == 0 && claims[0].length >= s.totalDataLength)
  }

  /** The selective retransmission: every gap again, the last segment as a checkpoint. */
  function RetransmitSegments(s: Session, gaps: seq<Claim>, maxSeg: nat): seq<Segment>
    requires maxSeg > 0 && Within(gaps, 0, |s.clientData|)
  {
    CutAllWithin(gaps, maxSeg, |s.clientData|);
    PieceSegments(s, CutAll(gaps, maxSeg), RED_DATA, RED_DATA_CP, Some(s.checkpointSerialCounter + 1))
  }

  function AfterRetransmission(s: Session, gaps: seq<Claim>, maxSeg: nat): Session
    requires maxSeg > 0
  {
    if |CutAll(gaps, maxSeg)| > 0 then s.(checkpointSerialCounter := s.checkpointSerialCounter + 1) else s
  }

  /** `++retransmission_count`, an 8-bit counter. */
  function BumpRetransmissions(s: Session): Session {
    s.(retransmissionCount := (s.retransmissionCount + 1) % 256)
  }

  function ReceiveReport(e: Engine, seg: Segment): Outcome
    requires e.config.maxSegmentSize > 0 && seg.content.ReportContent?
    requires var key := Key(e.config.localEngineId, seg.sessionNumber);
             key in e.sessions && e.sessions[key].role == ORIGINATOR ==> seg.content.upperBound <= |e.sessions[key].clientData|
  {
    var rs := seg.content;
    var key := Key(e.config.localEngineId, seg.sessionNumber);
    var ack := AckFor(seg.engineId, seg.sessionNumber, rs.reportNumber);
    var d0 := e.diag.(reportsReceived := e.diag.reportsReceived + 1);
    var e0 := e.(diag := d0);
    if key !in e.sessions then Outcome(e0.(diag := CountSent(d0, ack)), [ack], [])
    else
      var s := e.sessions[key];
      if s.role != ORIGINATOR || s.state != ACTIVE then Outcome(e0, [], [])
      else
        var d1 := CountSent(d0, ack);
        if FullyReceived(s, rs.claims) then
          Outcome(e.(sessions := e.sessions - {key}, diag := d1.(sessionsCompleted := d1.sessionsCompleted + 1)),
                  [ack], [SessionComplete(s.sessionNumber)])
        else
          var gaps := Gaps(rs.claims, rs.lowerBound, rs.upperBound);
          GapsCoverTheRest(rs.claims, rs.lowerBound, rs.upperBound);
          if |gaps| == 0 then Outcome(e.(diag := d1), [ack], [])
          else
            var s1 := BumpRetransmissions(s);
            if s1.retransmissionCount > e.config.maxRetransmissions then
              var cancelled := CancelSession(e.(sessions := e.sessions[key := s1], diag := d1), Key(s1.engineId, s1.sessionNumber), 1);
              cancelled.(sent := [ack] + cancelled.sent)
            else
              var d2 := d1.(retransmissions := d1.retransmissions + 1);
              var segs := RetransmitSegments(s1, gaps, e.config.maxSegmentSize);
              var s2 := AfterRetransmission(s1, gaps, e.config.maxSegmentSize);
              Outcome(e.(sessions := e.sessions[key := s2], diag := CountSentAll(d2, segs)), [ack] + segs, [])
  }

  function CancelSession(e: Engine, key: Key, reason: byte): Outcome {
    if key !in e.sessions then Outcome(e, [], [])
    else
      var s := e.sessions[key];
      var seg := MakeSegment(if s.role == ORIGINATOR then CANCEL_BY_SENDER else CANCEL_BY_RECEIVER,
                             key.engineId, key.sessionNumber, CancelContent(reason));
      var d := CountSent(e.diag, seg);
      Outcome(e.(sessions := e.sessions - {key}, diag := d.(sessionsCancelled := d.sessionsCancelled + 1)), [seg],
              [SessionFailed(key.sessionNumber, reason)])
  }

  function ReceiveReportAck(e: Engine, seg: Segment): Outcome
    requires seg.content.AckContent?
    requires KeyOf(seg) in e.sessions ==> e.sessions[KeyOf(seg)].totalDataLength <= |e.sessions[KeyOf(seg)].clientData|
  {
    var key := KeyOf(seg);
    var d := e.diag.(reportAcksReceived := e.diag.reportAcksReceived + 1);
    if key !in e.sessions then Outcome(e.(diag := d), [], [])
    else
      var s := e.sessions[key];
      if s.role != RECEIVER || !IsComplete(s.ranges, s.totalDataLength) then Outcome(e.(diag := d), [], [])
      else
        Outcome(e.(sessions := e.sessions - {key}, diag := d.(sessionsCompleted := d.sessionsCompleted + 1)), [],
                [Delivered(key, true, s.clientData[..s.totalDataLength], s.ranges)])
  }

  function ReceiveCancel(e: Engine, seg: Segment): Outcome
    requires IsCancel(seg.segmentType) && seg.content.CancelContent?
  {
    var ack := MakeSegment(if seg.segmentType == CANCEL_BY_SENDER then CANCEL_ACK_TO_SENDER else CANCEL_ACK_TO_RECEIVER,
                           seg.engineId, seg.sessionNumber, CancelContent(0));
    var key := KeyOf(seg);
    var d := e.diag.(cancelSegmentsReceived := e.diag.cancelSegmentsReceived + 1);
    if key !in e.sessions then Outcome(e.(diag := d), [ack], [])
    else
      Outcome(e.(sessions := e.sessions - {key}, diag := d.(sessionsCancelled := d.sessionsCancelled + 1)), [ack],
              [SessionFailed(e.sessions[key].sessionNumber, seg.content.reasonCode)])
  }

  function ReceiveCancelAck(e: Engine, seg: Segment): Outcome {
    var key := KeyOf(seg);
    if key in e.sessions && e.sessions[key].state == CANCELLED then Outcome(e.(sessions := e.sessions - {key}), [], [])
    else Outcome(e, [], [])
  }

  /** What the handlers need of a segment: the content its type calls for, data of the stated
      length, and reports that stay within the block they are about. */
  predicate Receivable(e: Engine, seg: Segment) {
    && ContentFits(seg.segmentType, seg.content)
    && (IsData(seg.segmentType) ==> seg.content.length == |seg.content.data|)
    && (seg.segmentType == REPORT_SEGMENT ==>
          var key := Key(e.config.localEngineId, seg.sessionNumber);
          key in e.sessions && e.sessions[key].role == ORIGINATOR ==> seg.content.upperBound <= |e.sessions[key].clientData|)
    && (seg.segmentType == REPORT_ACK && KeyOf(seg) in e.sessions ==>
          e.sessions[KeyOf(seg)].totalDataLength <= |e.sessions[KeyOf(seg)].clientData|)
  }

  function ReceiveSegment(e: Engine, seg: Segment): Outcome
    requires e.config.maxSegmentSize > 0 && Receivable(e, seg)
  {
    if IsData(seg.segmentType) then ReceiveData(e, seg)
    else if seg.segmentType == REPORT_SEGMENT then ReceiveReport(e, seg)
    else if seg.segmentType == REPORT_ACK then ReceiveReportAck(e, seg)
    else if IsCancel(seg.segmentType) then ReceiveCancel(e, seg)
    else if IsCancelAck(seg.segmentType) then ReceiveCancelAck(e, seg)
    else Outcome(e, [], [])
  }

  function CheckpointExpired(e: Engine, sessionNumber: nat): Outcome
    requires e.config.maxSegmentSize > 0
  {
    var key := Key(e.config.localEngineId, sessionNumber);
    if key !in e.sessions || e.sessions[key].state != ACTIVE || e.sessions[key].role != ORIGINATOR then Outcome(e, [], [])
    else
      var s := BumpRetransmissions(e.sessions[key]);
      if s.retransmissionCount > e.config.maxRetransmissions then
        CancelSession(e.(sessions := e.sessions[key := s]), Key(s.engineId, s.sessionNumber), 1)
      else
        var segs := SegmentBlock(s, e.config.maxSegmentSize);
        var d := CountSentAll(e.diag.(retransmissions := e.diag.retransmissions + 1), segs);
        Outcome(e.(sessions := e.sessions[key := AfterSegmentation(s)], diag := d), segs, [])
  }

  function ReportExpired(e: Engine, key: Key, serial: nat): Outcome {
    if key !in e.sessions || e.sessions[key].state != ACTIVE || e.sessions[key].role != RECEIVER then Outcome(e, [], [])
    else
      var s := e.sessions[key];
      var d := e.diag.(retransmissions := e.diag.retransmissions + 1);
      if s.totalDataLength == 0 then Outcome(e.(diag := d), [], [])
      else
        var report := ReportFor(s, serial, s.totalDataLength);
        Outcome(e.(sessions := e.sessions[key := AfterReport(s)], diag := CountSent(d, report)), [report], [])
  }

  function TimerExpired(e: Engine, event: TimerEvent): Outcome
    requires e.config.maxSegmentSize > 0
  {
    match event.timerType
    case CHECKPOINT_TIMER => CheckpointExpired(e, event.sessionNumber)
    case REPORT_TIMER => ReportExpired(e, Key(event.engineId, event.sessionNumber), event.serialNumber)
    case CANCEL_TIMER => Outcome(e, [], [])
  }
}
