/** What every handler keeps in one engine: the session count balances the counters, every stored
    session is active and consistent, and no originator is past its retransmission limit. */
module LtpEngineInvariant {
  import opened Basics
  import opened Bits
  import opened Ranges
  import opened LtpSegment
  import opened LtpEngineSpec

  ghost predicate SessionOk(e: Engine, k: Key, s: Session) {
    && s.engineId == k.engineId && s.sessionNumber == k.sessionNumber && s.state == ACTIVE
    && (s.role == ORIGINATOR <==> k.engineId == e.config.localEngineId)
    && s.totalDataLength <= |s.clientData|
    && Canonical(s.ranges) && Within(s.ranges, 0, |s.clientData|)
    && (s.role == ORIGINATOR ==>
          && 1 <= k.sessionNumber <= e.sessionCounter && s.isRed
          && s.totalDataLength == |s.clientData| && s.retransmissionCount <= e.config.maxRetransmissions)
  }

  /** Sessions opened minus sessions closed, by the diagnostics. */
  function Balance(d: Diagnostics): int {
    d.sessionsOriginated + d.sessionsReceived - d.sessionsCompleted - d.sessionsCancelled
  }

  ghost predicate EngineOk(e: Engine) {
    && e.config.maxSegmentSize > 0 && e.config.maxRetransmissions < 256
    && |e.sessions| <= e.config.maxConcurrentSessions
    && Balance(e.diag) == |e.sessions|
    && forall k :: k in e.sessions ==> SessionOk(e, k, e.sessions[k])
  }

  /** Segments that can come off the wire: data never carries the receiving engine's own id. */
  ghost predicate FromPeer(e: Engine, seg: Segment) {
    Receivable(e, seg) && (IsData(seg.segmentType) ==> seg.engineId != e.config.localEngineId)
  }

  lemma {:induction false} CountingKeepsBalance(d: Diagnostics, segs: seq<Segment>)
    ensures Balance(CountSentAll(d, segs)) == Balance(d)
  {
    if |segs| > 0 {
      CountingKeepsBalance(d, segs[..|segs| - 1]);
    }
  }

  lemma InitialEngineOk(config: Config)
    requires config.maxSegmentSize > 0 && config.maxRetransmissions < 256
    ensures EngineOk(Engine(config, 0, map[], Diagnostics(0, 0, 0, 0, 0, 0, 0, 0, 0, 0, 0, 0, 0, 0, 0, 0)))
  {
  }

  /** A closed session: one entry fewer, one closing count more. */
  lemma RemoveKeepsOk(e: Engine, k: Key, after: Engine)
    requires EngineOk(e) && k in e.sessions
    requires after.config == e.config && after.sessionCounter == e.sessionCounter
    requires after.sessions == e.sessions - {k} && Balance(after.diag) == Balance(e.diag) - 1
    ensures EngineOk(after)
  {
    assert after.sessions.Keys == e.sessions.Keys - {k};
    forall j | j in after.sessions ensures SessionOk(after, j, after.sessions[j]) {
      assert SessionOk(e, j, e.sessions[j]);
    }
  }

  lemma ReplaceKeepsOk(e: Engine, k: Key, s: Session, after: Engine)
    requires EngineOk(e) && k in e.sessions && SessionOk(e, k, s)
    requires after.config == e.config && after.sessionCounter == e.sessionCounter
    requires after.sessions == e.sessions[k := s] && Balance(after.diag) == Balance(e.diag)
    ensures EngineOk(after)
  {
    assert after.sessions.Keys == e.sessions.Keys;
    forall j | j in after.sessions ensures SessionOk(after, j, after.sessions[j]) {
      if j != k { assert SessionOk(e, j, e.sessions[j]); }
    }
  }

  lemma AddKeepsOk(e: Engine, k: Key, s: Session, after: Engine)
    requires EngineOk(e) && k !in e.sessions && !Full(e)
    requires after.config == e.config && after.sessionCounter >= e.sessionCounter && SessionOk(after, k, s)
    requires after.sessions == e.sessions[k := s] && Balance(after.diag) == Balance(e.diag) + 1
    ensures EngineOk(after)
  {
    assert after.sessions.Keys == e.sessions.Keys + {k};
    forall j | j in after.sessions ensures SessionOk(after, j, after.sessions[j]) {
      if j != k { assert SessionOk(e, j, e.sessions[j]); }
    }
  }

  /** Growing the buffer covers whatever is added to the tracker. */
  lemma AbsorbKeepsRanges(s: Session, seg: Segment)
    requires seg.content.DataContent? && seg.content.length == |seg.content.data|
    requires Canonical(s.ranges) && Within(s.ranges, 0, |s.clientData|) && s.totalDataLength <= |s.clientData|
    ensures var a := Absorb(s, seg);
            && Canonical(a.ranges) && Within(a.ranges, 0, |a.clientData|) && a.totalDataLength <= |a.clientData|
            && |a.clientData| == Max(|s.clientData|, seg.content.offset + seg.content.length)
            && forall x: nat :: Covers(a.ranges, x) <==>
                 Covers(s.ranges, x) || seg.content.offset <= x < seg.content.offset + seg.content.length
  {
    hide AddRange;
    var c := seg.content;
    var a := Absorb(s, seg);
    AddRangeRefinesSet(s.ranges, c.offset, c.length);
    var n := |a.clientData|;
    forall i | 0 <= i < |a.ranges| ensures a.ranges[i].End() <= n {
      assert a.ranges[i].Has(a.ranges[i].End() - 1);
      assert Covers(a.ranges, a.ranges[i].End() - 1);
      CoveredBelow(s.ranges, a.ranges[i].End() - 1, |s.clientData|);
    }
  }

  lemma CoveredBelow(r: seq<Claim>, x: nat, n: nat)
    requires Within(r, 0, n)
    ensures Covers(r, x) ==> x < n
  {
  }

  lemma StartOutcome(e: Engine, data: seq<byte>, reliable: bool)
    requires e.config.maxSegmentSize > 0 && !Full(e)
    ensures var after := StartSession(e, data, reliable).0.engine;
            var key := Key(e.config.localEngineId, e.sessionCounter + 1);
            && after.config == e.config && after.sessionCounter == e.sessionCounter + 1
            && after.sessions == (if reliable then e.sessions[key := AfterSegmentation(NewOriginator(e, data, reliable))]
                                  else e.sessions - {key})
            && Balance(after.diag) == Balance(e.diag) + if reliable then 1 else 0
    ensures StartSession(e, data, reliable).0.sent == SegmentBlock(NewOriginator(e, data, reliable), e.config.maxSegmentSize)
    ensures StartSession(e, data, reliable).0.events == []
  {
    hide SegmentBlock, CountSentAll;
    var segs := SegmentBlock(NewOriginator(e, data, reliable), e.config.maxSegmentSize);
    CountingKeepsBalance(e.diag.(sessionsOriginated := e.diag.sessionsOriginated + 1), segs);
  }

  lemma StartKeepsOk(e: Engine, data: seq<byte>, reliable: bool)
    requires EngineOk(e)
    ensures EngineOk(StartSession(e, data, reliable).0.engine)
  {
    var after := StartSession(e, data, reliable).0.engine;
    if Full(e) {
      assert after == e;
    } else {
      StartOutcome(e, data, reliable);
      hide StartSession;
      var key := Key(e.config.localEngineId, e.sessionCounter + 1);
      NextKeyIsFree(e);
      if reliable {
        AddKeepsOk(e, key, AfterSegmentation(NewOriginator(e, data, reliable)), after);
      } else {
        CounterMayGrow(e, after);
      }
    }
  }

  /** The next session number has never been used. */
  lemma NextKeyIsFree(e: Engine)
    requires EngineOk(e)
    ensures Key(e.config.localEngineId, e.sessionCounter + 1) !in e.sessions
  {
    forall k | k in e.sessions ensures k != Key(e.config.localEngineId, e.sessionCounter + 1) {
      assert SessionOk(e, k, e.sessions[k]);
    }
  }

  lemma CounterMayGrow(e: Engine, after: Engine)
    requires EngineOk(e) && after.config == e.config && after.sessionCounter >= e.sessionCounter
    requires after.sessions == e.sessions && Balance(after.diag) == Balance(e.diag)
    ensures EngineOk(after)
  {
    forall j | j in after.sessions ensures SessionOk(after, j, after.sessions[j]) {
      assert SessionOk(e, j, e.sessions[j]);
    }
  }

  /** The receiver session a data segment finds or creates. */
  function ReceiverFor(e: Engine, seg: Segment): Session {
    if KeyOf(seg) in e.sessions then e.sessions[KeyOf(seg)] else NewReceiver(seg)
  }

  predicate AsksForReport(seg: Segment)
    requires seg.content.DataContent?
  {
    HasCheckpoint(seg.segmentType) && seg.content.checkpointSerial.Some?
  }

  function ReportsSent(s: Session, seg: Segment): seq<Segment>
    requires seg.content.DataContent?
  {
    if AsksForReport(seg)
    then [ReportFor(s, seg.content.checkpointSerial.value, seg.content.offset + seg.content.length)] else []
  }

  /** An accepted data segment in an active session, spelled out. */
  lemma DataOutcome(e: Engine, seg: Segment)
    requires IsData(seg.segmentType) && seg.content.DataContent? && seg.content.length == |seg.content.data|
    requires Accepts(e, KeyOf(seg)) && ReceiverFor(e, seg).state == ACTIVE
    ensures var o := ReceiveData(e, seg);
            var key := KeyOf(seg);
            var s1 := Absorb(ReceiverFor(e, seg), seg);
            var s2 := if AsksForReport(seg) then AfterReport(s1) else s1;
            var closes := IsGreen(seg.segmentType) && HasEob(seg.segmentType);
            && o.engine.config == e.config && o.engine.sessionCounter == e.sessionCounter
            && o.engine.sessions == (if closes then e.sessions - {key} else e.sessions[key := s2])
            && o.sent == ReportsSent(s1, seg)
            && s2.totalDataLength == s1.totalDataLength && (closes ==> s2.totalDataLength <= |s2.clientData|)
            && o.events == (if closes then [Delivered(key, false, s2.clientData[..s2.totalDataLength], s2.ranges)] else [])
            && Balance(o.engine.diag) == Balance(e.diag) + (if key in e.sessions then 0 else 1) - (if closes then 1 else 0)
  {
    hide AddRange, Store, CountSentAll;
    var s1 := Absorb(ReceiverFor(e, seg), seg);
    var isNew := KeyOf(seg) !in e.sessions;
    var d0 := if isNew then e.diag.(sessionsReceived := e.diag.sessionsReceived + 1) else e.diag;
    CountingKeepsBalance(CountReceived(d0, seg.segmentType), ReportsSent(s1, seg));
  }

  lemma ReceiveDataKeepsOk(e: Engine, seg: Segment)
    requires EngineOk(e) && FromPeer(e, seg) && IsData(seg.segmentType)
    ensures EngineOk(ReceiveData(e, seg).engine)
  {
    var key := KeyOf(seg);
    var after := ReceiveData(e, seg).engine;
    if !Accepts(e, key) {
      assert after == e;
    } else {
      var s0 := ReceiverFor(e, seg);
      if key in e.sessions { assert SessionOk(e, key, s0); }
      DataOutcome(e, seg);
      hide ReceiveData, Absorb, Balance;
      AbsorbKeepsRanges(s0, seg);
      AbsorbKeepsIdentity(s0, seg);
      if IsGreen(seg.segmentType) && HasEob(seg.segmentType) {
        if key in e.sessions { RemoveKeepsOk(e, key, after); } else { CounterMayGrow(e, after); }
      } else {
        var s2 := after.sessions[key];
        assert SessionOk(after, key, s2);
        if key in e.sessions { ReplaceKeepsOk(e, key, s2, after); } else { AddKeepsOk(e, key, s2, after); }
      }
    }
  }

  lemma AbsorbKeepsIdentity(s: Session, seg: Segment)
    requires seg.content.DataContent?
    ensures var a := Absorb(s, seg);
            && a.engineId == s.engineId && a.sessionNumber == s.sessionNumber && a.role == s.role && a.state == s.state
            && a.retransmissionCount == s.retransmissionCount && a.isRed == s.isRed
            && a.totalDataLength == (if HasEob(seg.segmentType) then seg.content.offset + seg.content.length else s.totalDataLength)
  {
  }

  lemma CancelKeepsOk(e: Engine, key: Key, reason: byte)
    requires EngineOk(e)
    ensures EngineOk(CancelSession(e, key, reason).engine)
  {
    if key in e.sessions {
      RemoveKeepsOk(e, key, CancelSession(e, key, reason).engine);
    }
  }

  /** Cancelling right after the counter went up: the over-the-limit session never stays. */
  lemma BumpAndCancelKeepsOk(e: Engine, d: Diagnostics, key: Key)
    requires EngineOk(e) && key in e.sessions && Balance(d) == Balance(e.diag)
    ensures var s := BumpRetransmissions(e.sessions[key]);
            var bumped := e.(sessions := e.sessions[key := s], diag := d);
            EngineOk(CancelSession(bumped, Key(s.engineId, s.sessionNumber), 1).engine)
  {
    var s := BumpRetransmissions(e.sessions[key]);
    assert SessionOk(e, key, e.sessions[key]);
    var bumped := e.(sessions := e.sessions[key := s], diag := d);
    var after := CancelSession(bumped, key, 1).engine;
    assert after.sessions == e.sessions - {key};
    RemoveKeepsOk(e, key, after);
  }

  lemma ReceiveReportKeepsOk(e: Engine, seg: Segment)
    requires EngineOk(e) && FromPeer(e, seg) && seg.segmentType == REPORT_SEGMENT
    ensures EngineOk(ReceiveReport(e, seg).engine)
  {
    hide Gaps, CutAll, RetransmitSegments, CountSentAll, CancelSession;
    var rs := seg.content;
    var key := Key(e.config.localEngineId, seg.sessionNumber);
    var after := ReceiveReport(e, seg).engine;
    var d0 := e.diag.(reportsReceived := e.diag.reportsReceived + 1);
    var d1 := CountSent(d0, AckFor(seg.engineId, seg.sessionNumber, rs.reportNumber));
    assert Balance(d1) == Balance(e.diag);
    if key in e.sessions {
      var s := e.sessions[key];
      assert SessionOk(e, key, s);
      if FullyReceived(s, rs.claims) {
        RemoveKeepsOk(e, key, after);
      } else {
        var gaps := Gaps(rs.claims, rs.lowerBound, rs.upperBound);
        GapsCoverTheRest(rs.claims, rs.lowerBound, rs.upperBound);
        if |gaps| > 0 {
          var s1 := BumpRetransmissions(s);
          if s1.retransmissionCount > e.config.maxRetransmissions {
            BumpAndCancelKeepsOk(e, d1, key);
          } else {
            CountingKeepsBalance(d1.(retransmissions := d1.retransmissions + 1),
                                 RetransmitSegments(s1, gaps, e.config.maxSegmentSize));
            ReplaceKeepsOk(e, key, AfterRetransmission(s1, gaps, e.config.maxSegmentSize), after);
          }
        } else {
          SameSessionsOk(e, after);
        }
      }
    } else {
      SameSessionsOk(e, after);
    }
  }

  lemma SameSessionsOk(e: Engine, after: Engine)
    requires EngineOk(e) && after.config == e.config && after.sessionCounter == e.sessionCounter
    requires after.sessions == e.sessions && Balance(after.diag) == Balance(e.diag)
    ensures EngineOk(after)
  {
    forall j | j in after.sessions ensures SessionOk(after, j, after.sessions[j]) {
      assert SessionOk(e, j, e.sessions[j]);
    }
  }

  lemma ReceiveKeepsOk(e: Engine, seg: Segment)
    requires EngineOk(e) && FromPeer(e, seg)
    ensures EngineOk(ReceiveSegment(e, seg).engine)
  {
    hide ReceiveData, ReceiveReport;
    var after := ReceiveSegment(e, seg).engine;
    var key := KeyOf(seg);
    if IsData(seg.segmentType) {
      ReceiveDataKeepsOk(e, seg);
    } else if seg.segmentType == REPORT_SEGMENT {
      ReceiveReportKeepsOk(e, seg);
    } else if after.sessions == e.sessions {
      SameSessionsOk(e, after);
    } else {
      assert SessionOk(e, key, e.sessions[key]);
      RemoveKeepsOk(e, key, after);
    }
  }

  lemma TimerKeepsOk(e: Engine, event: TimerEvent)
    requires EngineOk(e)
    ensures EngineOk(TimerExpired(e, event).engine)
  {
    hide SegmentBlock, CountSentAll, CancelSession;
    var after := TimerExpired(e, event).engine;
    match event.timerType
    case CHECKPOINT_TIMER =>
      var key := Key(e.config.localEngineId, event.sessionNumber);
      if key in e.sessions {
        assert SessionOk(e, key, e.sessions[key]);
        var s := BumpRetransmissions(e.sessions[key]);
        if s.retransmissionCount > e.config.maxRetransmissions {
          BumpAndCancelKeepsOk(e, e.diag, key);
          assert e.(sessions := e.sessions[key := s]) == e.(sessions := e.sessions[key := s], diag := e.diag);
        } else {
          CountingKeepsBalance(e.diag.(retransmissions := e.diag.retransmissions + 1), SegmentBlock(s, e.config.maxSegmentSize));
          ReplaceKeepsOk(e, key, AfterSegmentation(s), after);
        }
      }
    case REPORT_TIMER =>
      var key := Key(event.engineId, event.sessionNumber);
      if key in e.sessions {
        assert SessionOk(e, key, e.sessions[key]);
        if after.sessions == e.sessions {
          SameSessionsOk(e, after);
        } else {
          ReplaceKeepsOk(e, key, AfterReport(e.sessions[key]), after);
        }
      }
    case CANCEL_TIMER =>
  }

  // ----- the retransmission limit and its 8-bit counter -----

  function ExpireTimes(e: Engine, sessionNumber: nat, n: nat): Engine
    requires e.config.maxSegmentSize > 0
    ensures ExpireTimes(e, sessionNumber, n).config == e.config
    decreases n
  {
    if n == 0 then e else ExpireTimes(CheckpointExpired(e, sessionNumber).engine, sessionNumber, n - 1)
  }

  lemma ExpiryOf(e: Engine, key: Key)
    requires EngineOk(e) && key in e.sessions && key.engineId == e.config.localEngineId
    ensures var after := CheckpointExpired(e, key.sessionNumber).engine;
            var bumped := (e.sessions[key].retransmissionCount + 1) % 256;
            && EngineOk(after) && after.config == e.config
            && (bumped > e.config.maxRetransmissions ==> key !in after.sessions)
            && (bumped <= e.config.maxRetransmissions ==>
                  key in after.sessions && after.sessions[key].retransmissionCount == bumped)
  {
    hide SegmentBlock;
    TimerKeepsOk(e, TimerEvent(CHECKPOINT_TIMER, 0, key.sessionNumber, 0));
    assert SessionOk(e, key, e.sessions[key]);
  }

  /** With a limit of 254 or less, an unanswered session is cancelled by the expiry that exceeds
      the limit and by none before it. */
  lemma {:induction false} LimitReached(e: Engine, key: Key, n: nat)
    requires EngineOk(e) && key in e.sessions && key.engineId == e.config.localEngineId
    requires e.config.maxRetransmissions <= 254
    requires n <= e.config.maxRetransmissions + 1 - e.sessions[key].retransmissionCount
    ensures key in ExpireTimes(e, key.sessionNumber, n).sessions
            <==> n <= e.config.maxRetransmissions - e.sessions[key].retransmissionCount
    decreases n
  {
    hide CheckpointExpired;
    assert SessionOk(e, key, e.sessions[key]);
    if n > 0 {
      ExpiryOf(e, key);
      var after := CheckpointExpired(e, key.sessionNumber).engine;
      if key in after.sessions {
        LimitReached(after, key, n - 1);
      }
    }
  }

  /** With a limit of 255 the 8-bit counter wraps before it can exceed the limit, and the session
      survives any number of expiries. */
  lemma {:induction false} LimitNeverReached(e: Engine, key: Key, n: nat)
    requires EngineOk(e) && key in e.sessions && key.engineId == e.config.localEngineId
    requires e.config.maxRetransmissions == 255
    ensures key in ExpireTimes(e, key.sessionNumber, n).sessions
    decreases n
  {
    hide CheckpointExpired;
    if n > 0 {
      ExpiryOf(e, key);
      LimitNeverReached(CheckpointExpired(e, key.sessionNumber).engine, key, n - 1);
    }
  }

  /** The limit works if and only if it is below 255. */
  lemma LimitWorksIff(e: Engine, key: Key)
    requires EngineOk(e) && key in e.sessions && key.engineId == e.config.localEngineId
    ensures (exists n: nat :: key !in ExpireTimes(e, key.sessionNumber, n).sessions)
            <==> e.config.maxRetransmissions <= 254
  {
    assert SessionOk(e, key, e.sessions[key]);
    if e.config.maxRetransmissions <= 254 {
      var n := e.config.maxRetransmissions + 1 - e.sessions[key].retransmissionCount;
      LimitReached(e, key, n);
    } else {
      forall n: nat ensures key in ExpireTimes(e, key.sessionNumber, n).sessions {
        LimitNeverReached(e, key, n);
      }
    }
  }
}
