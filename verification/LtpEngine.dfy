/** The LTP engine object, src/ltp_cla/ltp_engine.cpp: session table, counters and handlers that
    update them in place. Every handler is proved against its function in LtpEngineSpec. */
module LtpEngines {
  import opened Basics
  import opened Bits
  import opened Ranges
  import opened LtpSegment
  import opened LtpEngineSpec
  import ReceptionTrackers

  class LtpEngine {
    const config: Config
    var sessionCounter: nat
    var sessions: map<Key, Session>
    var diagnostics: Diagnostics
    /** What the send and application callbacks received, in order. */
    var outbox: seq<Segment>
    var notifications: seq<Event>

    function View(): Engine
      reads this
    {
      Engine(config, sessionCounter, sessions, diagnostics)
    }

    constructor (config: Config)
      ensures View() == Engine(config, 0, map[], Diagnostics(0, 0, 0, 0, 0, 0, 0, 0, 0, 0, 0, 0, 0, 0, 0, 0))
      ensures outbox == [] && notifications == []
    {
      this.config := config;
      sessionCounter := 0;
      sessions := map[];
      diagnostics := Diagnostics(0, 0, 0, 0, 0, 0, 0, 0, 0, 0, 0, 0, 0, 0, 0, 0);
      outbox := [];
      notifications := [];
    }

    method StartSession(data: seq<byte>, reliable: bool) returns (sn: nat)
      requires config.maxSegmentSize > 0
      modifies this
      ensures var (o, number) := LtpEngineSpec.StartSession(old(View()), data, reliable);
              View() == o.engine && sn == number
              && outbox == old(outbox) + o.sent && notifications == old(notifications) + o.events
    {
      hide SegmentBlock;
      if |sessions| >= config.maxConcurrentSessions { return 0; }
      sessionCounter := sessionCounter + 1;
      sn := sessionCounter;
      var key := Key(config.localEngineId, sn);
      var session := Session(config.localEngineId, sn, ORIGINATOR, ACTIVE, data, |data|, reliable, [], 0, 0, 0);
      diagnostics := diagnostics.(sessionsOriginated := diagnostics.sessionsOriginated + 1);
      var segments, counter := SegmentData(session, config.maxSegmentSize);
      sessions := sessions[key := session.(checkpointSerialCounter := counter)];
      SendAll(segments);
      if !reliable {
        sessions := sessions - {key};
        diagnostics := diagnostics.(sessionsCompleted := diagnostics.sessionsCompleted + 1);
        assert sessions == old(sessions) - {key};
      }
    }

    method SendSegment(seg: Segment)
      modifies this`diagnostics, this`outbox
      ensures diagnostics == CountSent(old(diagnostics), seg)
      ensures outbox == old(outbox) + [seg]
    {
      var t := seg.segmentType;
      if IsRed(t) {
        diagnostics := diagnostics.(redSegmentsSent := diagnostics.redSegmentsSent + 1);
        if HasCheckpoint(t) {
          diagnostics := diagnostics.(checkpointsSent := diagnostics.checkpointsSent + 1);
        }
      } else if IsGreen(t) {
        diagnostics := diagnostics.(greenSegmentsSent := diagnostics.greenSegmentsSent + 1);
      } else if t == REPORT_SEGMENT {
        diagnostics := diagnostics.(reportsSent := diagnostics.reportsSent + 1);
      } else if t == REPORT_ACK {
        diagnostics := diagnostics.(reportAcksSent := diagnostics.reportAcksSent + 1);
      } else if IsCancel(t) {
        diagnostics := diagnostics.(cancelSegmentsSent := diagnostics.cancelSegmentsSent + 1);
      }
      outbox := outbox + [seg];
    }

    method SendAll(segs: seq<Segment>)
      modifies this`diagnostics, this`outbox
      ensures diagnostics == CountSentAll(old(diagnostics), segs)
      ensures outbox == old(outbox) + segs
    {
      for i := 0 to |segs|
        invariant diagnostics == CountSentAll(old(diagnostics), segs[..i])
        invariant outbox == old(outbox) + segs[..i]
      {
        assert segs[..i + 1][..i] == segs[..i];
        SendSegment(segs[i]);
      }
      assert segs[..|segs|] == segs;
    }

    method ReceiveSegment(seg: Segment)
      requires config.maxSegmentSize > 0 && Receivable(View(), seg)
      modifies this
      ensures var o := LtpEngineSpec.ReceiveSegment(old(View()), seg);
              View() == o.engine && outbox == old(outbox) + o.sent && notifications == old(notifications) + o.events
    {
      hide LtpEngineSpec.ReceiveData, LtpEngineSpec.ReceiveReport, LtpEngineSpec.ReceiveReportAck,
        LtpEngineSpec.ReceiveCancel, LtpEngineSpec.ReceiveCancelAck;
      if IsData(seg.segmentType) {
        ReceiveDataSegment(seg);
      } else if seg.segmentType == REPORT_SEGMENT {
        ReceiveReportSegment(seg);
      } else if seg.segmentType == REPORT_ACK {
        ReceiveReportAck(seg);
      } else if IsCancel(seg.segmentType) {
        ReceiveCancelSegment(seg);
      } else if IsCancelAck(seg.segmentType) {
        ReceiveCancelAck(seg);
      }
    }

    method ReceiveDataSegment(seg: Segment)
      requires IsData(seg.segmentType) && seg.content.DataContent? && seg.content.length == |seg.content.data|
      modifies this
      ensures var o := ReceiveData(old(View()), seg);
              View() == o.engine && outbox == old(outbox) + o.sent && notifications == old(notifications) + o.events
    {
      if KeyOf(seg) !in sessions { NewSessionFirst(View(), seg); }
      hide ReceiveData, NewReceiver;
      var key := Key(seg.engineId, seg.sessionNumber);
      if key !in sessions {
        if |sessions| >= config.maxConcurrentSessions { return; }
        sessions := sessions[key := NewReceiver(seg)];
        diagnostics := diagnostics.(sessionsReceived := diagnostics.sessionsReceived + 1);
      }
      ReceiveInSession(key, seg);
    }

    method ReceiveInSession(key: Key, seg: Segment)
      requires IsData(seg.segmentType) && seg.content.DataContent? && seg.content.length == |seg.content.data|
      requires key == KeyOf(seg) && key in sessions
      modifies this
      ensures var o := ReceiveData(old(View()), seg);
              View() == o.engine && outbox == old(outbox) + o.sent && notifications == old(notifications) + o.events
    {
      TakenData(View(), seg);
      hide ReceiveData, Absorb, ReportFor, CountSentAll, CountReceived, AfterReport, HasEob, HasCheckpoint, IsGreen;
      var session := sessions[key];
      if session.state != ACTIVE { return; }
      diagnostics := CountReceived(diagnostics, seg.segmentType);
      session := TakeIn(session, seg);
      sessions := sessions[key := session];
      if IsGreen(seg.segmentType) && HasEob(seg.segmentType) {
        diagnostics := diagnostics.(sessionsCompleted := diagnostics.sessionsCompleted + 1);
        notifications := notifications
          + [Delivered(key, false, session.clientData[..session.totalDataLength], session.ranges)];
        sessions := sessions - {key};
        assert sessions == old(sessions) - {key};
      }
    }

    /** Buffer, tracker, total length, and the report a checkpoint asks for. */
    method TakeIn(session: Session, seg: Segment) returns (after: Session)
      requires seg.content.DataContent? && seg.content.length == |seg.content.data|
      modifies this`diagnostics, this`outbox
      ensures var reports := HasCheckpoint(seg.segmentType) && seg.content.checkpointSerial.Some?;
              var absorbed := Absorb(session, seg);
              var sent := if reports then [ReportFor(absorbed, seg.content.checkpointSerial.value, seg.content.offset + seg.content.length)] else [];
              && after == (if reports then AfterReport(absorbed) else absorbed)
              && outbox == old(outbox) + sent && diagnostics == CountSentAll(old(diagnostics), sent)
    {
      var ds := seg.content;
      var segEnd := ds.offset + ds.length;
      after := session.(clientData := Store(session.clientData, ds.offset, ds.data));
      after := after.(ranges := AddRange(session.ranges, ds.offset, ds.length));
      if HasEob(seg.segmentType) {
        after := after.(totalDataLength := segEnd);
      }
      if HasCheckpoint(seg.segmentType) && ds.checkpointSerial.Some? {
        after := GenerateReport(after, ds.checkpointSerial.value, segEnd);
      }
    }

    method GenerateReport(session: Session, checkpointSerial: nat, upperBound: nat) returns (after: Session)
      modifies this`diagnostics, this`outbox
      ensures after == AfterReport(session)
      ensures outbox == old(outbox) + [ReportFor(session, checkpointSerial, upperBound)]
      ensures diagnostics == CountSentAll(old(diagnostics), [ReportFor(session, checkpointSerial, upperBound)])
      ensures diagnostics == CountSent(old(diagnostics), ReportFor(session, checkpointSerial, upperBound))
    {
      after := session.(reportSerialCounter := session.reportSerialCounter + 1);
      var report := MakeSegment(REPORT_SEGMENT, session.engineId, session.sessionNumber,
                                ReportContent(after.reportSerialCounter, checkpointSerial, upperBound, 0, session.ranges));
      SendSegment(report);
      CountOne(old(diagnostics), report);
    }

    method ReceiveReportSegment(seg: Segment)
      requires config.maxSegmentSize > 0 && seg.content.ReportContent?
      requires var key := Key(config.localEngineId, seg.sessionNumber);
               key in sessions && sessions[key].role == ORIGINATOR ==> seg.content.upperBound <= |sessions[key].clientData|
      modifies this
      ensures var o := ReceiveReport(old(View()), seg);
              View() == o.engine && outbox == old(outbox) + o.sent && notifications == old(notifications) + o.events
    {
      hide Gaps, LtpEngineSpec.CancelSession, RetransmitSegments, CutAll;
      diagnostics := diagnostics.(reportsReceived := diagnostics.reportsReceived + 1);
      var rs := seg.content;
      var key := Key(config.localEngineId, seg.sessionNumber);
      if key !in sessions {
        SendReportAck(seg.engineId, seg.sessionNumber, rs.reportNumber);
        return;
      }
      var session := sessions[key];
      if session.role != ORIGINATOR { return; }
      if session.state != ACTIVE { return; }
      SendReportAck(seg.engineId, seg.sessionNumber, rs.reportNumber);
      var fullyReceived := false;
      if session.totalDataLength == 0 {
        fullyReceived := true;
      } else if |rs.claims| == 1 && rs.claims[0].offset == 0 && rs.claims[0].length >= session.totalDataLength {
        fullyReceived := true;
      }
      if fullyReceived {
        diagnostics := diagnostics.(sessionsCompleted := diagnostics.sessionsCompleted + 1);
        notifications := notifications + [SessionComplete(session.sessionNumber)];
        sessions := sessions - {key};
        return;
      }
      var gaps := ReceptionTrackers.WalkGaps(rs.claims, rs.lowerBound, rs.upperBound);
      if |gaps| == 0 { return; }
      GapsCoverTheRest(rs.claims, rs.lowerBound, rs.upperBound);
      session := BumpRetransmissions(session);
      sessions := sessions[key := session];
      if session.retransmissionCount > config.maxRetransmissions {
        CancelSession(session.engineId, session.sessionNumber, 1);
        return;
      }
      diagnostics := diagnostics.(retransmissions := diagnostics.retransmissions + 1);
      var after := RetransmitGaps(session, gaps);
      sessions := sessions[key := after];
      assert sessions == old(sessions)[key := after];
    }

    /** Every gap again, cut into segments; the very last becomes a checkpoint. */
    method RetransmitGaps(session: Session, gaps: seq<Claim>) returns (after: Session)
      requires config.maxSegmentSize > 0 && Within(gaps, 0, |session.clientData|)
      modifies this`diagnostics, this`outbox
      ensures after == AfterRetransmission(session, gaps, config.maxSegmentSize)
      ensures outbox == old(outbox) + RetransmitSegments(session, gaps, config.maxSegmentSize)
      ensures diagnostics == CountSentAll(old(diagnostics), RetransmitSegments(session, gaps, config.maxSegmentSize))
    {
      CutAllWithin(gaps, config.maxSegmentSize, |session.clientData|);
      var segments := GapSegments(session, gaps, config.maxSegmentSize);
      ghost var pieces := CutAll(gaps, config.maxSegmentSize);
      after := session;
      if |segments| > 0 {
        after := session.(checkpointSerialCounter := session.checkpointSerialCounter + 1);
        var last := segments[|segments| - 1];
        var lastDs := last.content.(checkpointSerial := Some(after.checkpointSerialCounter), reportSerial := Some(0));
        segments := segments[|segments| - 1 := last.(segmentType := RED_DATA_CP, content := lastDs)];
      }
      assert segments == RetransmitSegments(session, gaps, config.maxSegmentSize);
      SendAll(segments);
    }

    method SendReportAck(engineId: nat, sessionNumber: nat, reportSerial: nat)
      modifies this`diagnostics, this`outbox
      ensures diagnostics == CountSent(old(diagnostics), AckFor(engineId, sessionNumber, reportSerial))
      ensures outbox == old(outbox) + [AckFor(engineId, sessionNumber, reportSerial)]
    {
      SendSegment(MakeSegment(REPORT_ACK, engineId, sessionNumber, AckContent(reportSerial)));
    }

    method ReceiveReportAck(seg: Segment)
      requires seg.content.AckContent?
      requires KeyOf(seg) in sessions ==> sessions[KeyOf(seg)].totalDataLength <= |sessions[KeyOf(seg)].clientData|
      modifies this
      ensures var o := LtpEngineSpec.ReceiveReportAck(old(View()), seg);
              View() == o.engine && outbox == old(outbox) + o.sent && notifications == old(notifications) + o.events
    {
      diagnostics := diagnostics.(reportAcksReceived := diagnostics.reportAcksReceived + 1);
      var key := Key(seg.engineId, seg.sessionNumber);
      if key !in sessions { return; }
      var session := sessions[key];
      if session.role != RECEIVER { return; }
      if IsComplete(session.ranges, session.totalDataLength) {
        diagnostics := diagnostics.(sessionsCompleted := diagnostics.sessionsCompleted + 1);
        notifications := notifications
          + [Delivered(key, true, session.clientData[..session.totalDataLength], session.ranges)];
        sessions := sessions - {key};
      }
    }

    method HandleTimerExpiry(event: TimerEvent)
      requires config.maxSegmentSize > 0
      modifies this
      ensures var o := TimerExpired(old(View()), event);
              View() == o.engine && outbox == old(outbox) + o.sent && notifications == old(notifications) + o.events
    {
      hide SegmentBlock, LtpEngineSpec.CancelSession;
      if event.timerType == CHECKPOINT_TIMER {
        var key := Key(config.localEngineId, event.sessionNumber);
        if key !in sessions { return; }
        var session := sessions[key];
        if session.state != ACTIVE { return; }
        if session.role != ORIGINATOR { return; }
        session := BumpRetransmissions(session);
        sessions := sessions[key := session];
        if session.retransmissionCount > config.maxRetransmissions {
          CancelSession(session.engineId, session.sessionNumber, 1);
          return;
        }
        diagnostics := diagnostics.(retransmissions := diagnostics.retransmissions + 1);
        var segments, counter := SegmentData(session, config.maxSegmentSize);
        sessions := sessions[key := session.(checkpointSerialCounter := counter)];
        assert sessions == old(sessions)[key := session.(checkpointSerialCounter := counter)];
        SendAll(segments);
      } else if event.timerType == REPORT_TIMER {
        var key := Key(event.engineId, event.sessionNumber);
        if key !in sessions { return; }
        var session := sessions[key];
        if session.state != ACTIVE { return; }
        if session.role != RECEIVER { return; }
        diagnostics := diagnostics.(retransmissions := diagnostics.retransmissions + 1);
        if session.totalDataLength > 0 {
          var after := GenerateReport(session, event.serialNumber, session.totalDataLength);
          sessions := sessions[key := after];
        }
      }
    }

    method CancelSession(engineId: nat, sessionNumber: nat, reason: byte)
      modifies this
      ensures var o := LtpEngineSpec.CancelSession(old(View()), Key(engineId, sessionNumber), reason);
              View() == o.engine && outbox == old(outbox) + o.sent && notifications == old(notifications) + o.events
    {
      var key := Key(engineId, sessionNumber);
      if key !in sessions { return; }
      var session := sessions[key];
      SendSegment(MakeSegment(if session.role == ORIGINATOR then CANCEL_BY_SENDER else CANCEL_BY_RECEIVER,
                              engineId, sessionNumber, CancelContent(reason)));
      diagnostics := diagnostics.(sessionsCancelled := diagnostics.sessionsCancelled + 1);
      notifications := notifications + [SessionFailed(sessionNumber, reason)];
      sessions := sessions - {key};
    }

    method ReceiveCancelSegment(seg: Segment)
      requires IsCancel(seg.segmentType) && seg.content.CancelContent?
      modifies this
      ensures var o := ReceiveCancel(old(View()), seg);
              View() == o.engine && outbox == old(outbox) + o.sent && notifications == old(notifications) + o.events
    {
      diagnostics := diagnostics.(cancelSegmentsReceived := diagnostics.cancelSegmentsReceived + 1);
      SendSegment(MakeSegment(if seg.segmentType == CANCEL_BY_SENDER then CANCEL_ACK_TO_SENDER else CANCEL_ACK_TO_RECEIVER,
                              seg.engineId, seg.sessionNumber, CancelContent(0)));
      var key := Key(seg.engineId, seg.sessionNumber);
      if key !in sessions { return; }
      var session := sessions[key];
      diagnostics := diagnostics.(sessionsCancelled := diagnostics.sessionsCancelled + 1);
      notifications := notifications + [SessionFailed(session.sessionNumber, seg.content.reasonCode)];
      sessions := sessions - {key};
    }

    method ReceiveCancelAck(seg: Segment)
      modifies this
      ensures var o := LtpEngineSpec.ReceiveCancelAck(old(View()), seg);
              View() == o.engine && outbox == old(outbox) + o.sent && notifications == old(notifications) + o.events
    {
      var key := Key(seg.engineId, seg.sessionNumber);
      if key in sessions && sessions[key].state == CANCELLED {
        sessions := sessions - {key};
      }
    }
  }

  lemma CountOne(d: Diagnostics, seg: Segment)
    ensures CountSentAll(d, [seg]) == CountSent(d, seg)
  {
    assert [seg][..0] == [];
  }

  /** A data segment without a session is refused, or creates one and is then received in it. */
  lemma NewSessionFirst(e: Engine, seg: Segment)
    requires IsData(seg.segmentType) && seg.content.DataContent? && seg.content.length == |seg.content.data|
    requires KeyOf(seg) !in e.sessions
    ensures ReceiveData(e, seg)
            == if Full(e) then Outcome(e, [], [])
               else ReceiveData(e.(sessions := e.sessions[KeyOf(seg) := NewReceiver(seg)],
                                   diag := e.diag.(sessionsReceived := e.diag.sessionsReceived + 1)), seg)
  {
    hide IntoSession;
    var d := e.diag.(sessionsReceived := e.diag.sessionsReceived + 1);
    OwnEntryIsReplaced(e, seg, NewReceiver(seg), d);
  }

  /** What is stored for the segment's own session makes no difference to the new state. */
  lemma OwnEntryIsReplaced(e: Engine, seg: Segment, s: Session, d: Diagnostics)
    requires seg.content.DataContent? && seg.content.length == |seg.content.data|
    ensures IntoSession(e, seg, s, d) == IntoSession(e.(sessions := e.sessions[KeyOf(seg) := s], diag := d), seg, s, d)
  {
    hide CountSentAll, CountReceived, ReportFor, AddRange, Store, IsGreen, HasEob, HasCheckpoint;
    var key, s1 := KeyOf(seg), Absorb(s, seg);
    var s2 := AfterReport(s1);
    assert e.sessions[key := s][key := s1] == e.sessions[key := s1];
    assert e.sessions[key := s][key := s2] == e.sessions[key := s2];
    assert e.sessions[key := s] - {key} == e.sessions - {key};
  }

  /** A data segment of an existing session. */
  lemma TakenData(e: Engine, seg: Segment)
    requires IsData(seg.segmentType) && seg.content.DataContent? && seg.content.length == |seg.content.data|
    requires KeyOf(seg) in e.sessions
    ensures var s := e.sessions[KeyOf(seg)];
            ReceiveData(e, seg) == if s.state == ACTIVE then IntoSession(e, seg, s, e.diag) else Outcome(e, [], [])
  {
    hide IntoSession;
    assert e.sessions[KeyOf(seg) := e.sessions[KeyOf(seg)]] == e.sessions;
  }

  /** `segment_data_impl`: walk the block, the last chunk closes it. */
  method SegmentData(session: Session, maxSeg: nat) returns (segments: seq<Segment>, counter: nat)
    requires maxSeg > 0
    ensures segments == SegmentBlock(session, maxSeg)
    ensures session.(checkpointSerialCounter := counter) == AfterSegmentation(session)
  {
    hide DataSegment, Cut, SegmentBlock;
    counter := session.checkpointSerialCounter;
    var serial := None;
    if session.isRed {
      counter := counter + 1;
      serial := Some(counter);
    }
    var lastType := if session.isRed then RED_DATA_CP_EORP_EOB else GREEN_DATA_EOB;
    if |session.clientData| == 0 {
      EmptyBlock(session, maxSeg);
      return [DataSegment(session, lastType, Claim(0, 0), serial)], counter;
    }
    segments := [];
    var offset := 0;
    var remaining: nat := |session.clientData|;
    ghost var all := Cut(0, remaining, maxSeg);
    CutWithin(0, remaining, maxSeg);
    ghost var n := 0;
    assert all[0..] == all;
    while remaining > 0
      invariant offset + remaining == |session.clientData|
      invariant n <= |all| && all[n..] == Cut(offset, remaining, maxSeg)
      invariant |segments| == n
      invariant remaining == 0 ==> n == |all| > 0
      invariant forall k :: 0 <= k < n && (remaining > 0 || k < n - 1) ==>
                  segments[k] == DataSegment(session, if session.isRed then RED_DATA else GREEN_DATA, all[k], None)
      invariant remaining == 0 ==> segments[n - 1] == DataSegment(session, lastType, all[n - 1], serial)
    {
      CutStep(offset, remaining, maxSeg);
      var chunk := if maxSeg < remaining then maxSeg else remaining;
      var isLast := chunk == remaining;
      var t := if isLast then lastType else if session.isRed then RED_DATA else GREEN_DATA;
      assert all[n..][0] == all[n] && all[n..][1..] == all[n + 1..];
      segments := segments + [DataSegment(session, t, Claim(offset, chunk), if isLast then serial else None)];
      n := n + 1;
      offset := offset + chunk;
      remaining := remaining - chunk;
    }
    BlockSegments(session, maxSeg);
  }

  lemma EmptyBlock(s: Session, maxSeg: nat)
    requires maxSeg > 0 && |s.clientData| == 0
    ensures var serial := if s.isRed then Some(s.checkpointSerialCounter + 1) else None;
            SegmentBlock(s, maxSeg)
            == [DataSegment(s, if s.isRed then RED_DATA_CP_EORP_EOB else GREEN_DATA_EOB, Claim(0, 0), serial)]
  {
  }

  lemma CutStep(offset: nat, remaining: nat, maxSeg: nat)
    requires maxSeg > 0 && remaining > 0
    ensures var chunk := Min(maxSeg, remaining);
            && |Cut(offset, remaining, maxSeg)| > 0
            && Cut(offset, remaining, maxSeg)[0] == Claim(offset, chunk)
            && Cut(offset, remaining, maxSeg)[1..] == Cut(offset + chunk, remaining - chunk, maxSeg)
            && (chunk == remaining ==> |Cut(offset, remaining, maxSeg)| == 1)
  {
  }

  lemma BlockSegments(s: Session, maxSeg: nat)
    requires maxSeg > 0 && |s.clientData| > 0
    requires Within(Cut(0, |s.clientData|, maxSeg), 0, |s.clientData|)
    ensures var serial := if s.isRed then Some(s.checkpointSerialCounter + 1) else None;
            SegmentBlock(s, maxSeg)
            == PieceSegments(s, Cut(0, |s.clientData|, maxSeg), if s.isRed then RED_DATA else GREEN_DATA,
                             if s.isRed then RED_DATA_CP_EORP_EOB else GREEN_DATA_EOB, serial)
  {
    hide Cut, PieceSegments;
  }

  /** The segments of all gaps, not yet marked. */
  method GapSegments(session: Session, gaps: seq<Claim>, maxSeg: nat) returns (segments: seq<Segment>)
    requires maxSeg > 0 && Within(gaps, 0, |session.clientData|)
    requires Within(CutAll(gaps, maxSeg), 0, |session.clientData|)
    ensures |segments| == |CutAll(gaps, maxSeg)|
    ensures forall k :: 0 <= k < |segments| ==> segments[k] == DataSegment(session, RED_DATA, CutAll(gaps, maxSeg)[k], None)
  {
    hide DataSegment;
    segments := [];
    for g := 0 to |gaps|
      invariant Within(CutAll(gaps[..g], maxSeg), 0, |session.clientData|)
      invariant |segments| == |CutAll(gaps[..g], maxSeg)|
      invariant forall k :: 0 <= k < |segments| ==>
                  segments[k] == DataSegment(session, RED_DATA, CutAll(gaps[..g], maxSeg)[k], None)
    {
      assert gaps[..g + 1][..g] == gaps[..g];
      CutWithin(gaps[g].offset, gaps[g].length, maxSeg);
      var more := ChunkSegments(session, gaps[g], maxSeg);
      segments := segments + more;
    }
    assert gaps[..|gaps|] == gaps;
  }

  method ChunkSegments(session: Session, gap: Claim, maxSeg: nat) returns (segments: seq<Segment>)
    requires maxSeg > 0 && gap.End() <= |session.clientData|
    requires Within(Cut(gap.offset, gap.length, maxSeg), 0, |session.clientData|)
    ensures |segments| == |Cut(gap.offset, gap.length, maxSeg)|
    ensures forall k :: 0 <= k < |segments| ==>
              segments[k] == DataSegment(session, RED_DATA, Cut(gap.offset, gap.length, maxSeg)[k], None)
  {
    hide DataSegment;
    segments := [];
    var offset, remaining: nat := gap.offset, gap.length;
    ghost var pieces: seq<Claim> := [];
    while remaining > 0
      invariant offset + remaining == gap.End()
      invariant Cut(gap.offset, gap.length, maxSeg) == pieces + Cut(offset, remaining, maxSeg)
      invariant |segments| == |pieces| && Within(pieces, 0, |session.clientData|)
      invariant forall k :: 0 <= k < |pieces| ==> segments[k] == DataSegment(session, RED_DATA, pieces[k], None)
    {
      var chunk := if maxSeg < remaining then maxSeg else remaining;
      segments := segments + [DataSegment(session, RED_DATA, Claim(offset, chunk), None)];
      pieces := pieces + [Claim(offset, chunk)];
      offset := offset + chunk;
      remaining := remaining - chunk;
    }
  }
}
