/** The other diagnostics: what was received, by kind, the sessions opened at either end, and the
    retransmissions. */
module LtpIntake {
  import opened Basics
  import opened Bits
  import opened Ranges
  import opened LtpSegment
  import opened LtpEngineSpec
  import opened LtpEngineInvariant
  import opened LtpWire
  import opened LtpSystem
  import opened LtpSystemSafety
  import opened LtpRuns
  import opened LtpRounds

  /** Segments received by kind, sessions opened by a start and by data, and retransmissions. */
  datatype Intake = Intake(red: nat, green: nat, reports: nat, acks: nat, cancels: nat, originated: nat, entered: nat, again: nat)

  function IntakeBy(d: Diagnostics): Intake {
    Intake(d.redSegmentsReceived, d.greenSegmentsReceived, d.reportsReceived, d.reportAcksReceived, d.cancelSegmentsReceived,
           d.sessionsOriginated, d.sessionsReceived, d.retransmissions)
  }

  function One(b: bool): nat { if b then 1 else 0 }

  /** A report timer of a stored receiver session. */
  predicate ResendsReport(e: Engine, a: Action) {
    && a.Expire? && a.event.timerType == REPORT_TIMER && Key(a.event.engineId, a.event.sessionNumber) in e.sessions
    && a.event.engineId != e.config.localEngineId
  }

  /** What an action at engine `e` should add, given what it makes the engine send. */
  function IntakeOf(e: Engine, a: Action, sent: seq<Segment>): Intake {
    var octet := if a.Deliver? then Octet(a.seg) else 16;
    var taken := a.Deliver? && Accepts(e, KeyOf(a.seg));
    Intake(One(octet <= 3 && taken), One(4 <= octet <= 5 && taken), One(octet == 6), One(octet == 7), One(octet == 8 || octet == 12),
           One(a.Start? && !Full(e)), One(octet <= 5 && taken && a.Deliver? && KeyOf(a.seg) !in e.sessions),
           One(!a.Start? && DataKeys(sent) != {}) + One(ResendsReport(e, a)))
  }

  function Plus(a: Intake, b: Intake): Intake {
    Intake(a.red + b.red, a.green + b.green, a.reports + b.reports, a.acks + b.acks, a.cancels + b.cancels,
           a.originated + b.originated, a.entered + b.entered, a.again + b.again)
  }

  /** The diagnostics grow by what the action took in. */
  ghost predicate TakenIn(e: Engine, a: Action, o: Outcome) {
    IntakeBy(o.engine.diag) == Plus(IntakeBy(e.diag), IntakeOf(e, a, o.sent))
  }

  lemma {:induction false} SendingTakesNothing(d: Diagnostics, segs: seq<Segment>)
    ensures IntakeBy(CountSentAll(d, segs)) == IntakeBy(d)
  {
    if |segs| > 0 {
      SendingTakesNothing(d, segs[..|segs| - 1]);
    }
  }

  lemma StartTakes(e: Engine, a: Action)
    requires EngineOk(e) && a.Start?
    ensures TakenIn(e, a, StartSession(e, a.data, a.reliable).0)
  {
    hide SegmentBlock, CountSentAll, SessionOk, DataKeys;
    if !Full(e) {
      SendingTakesNothing(e.diag.(sessionsOriginated := e.diag.sessionsOriginated + 1),
                          SegmentBlock(NewOriginator(e, a.data, a.reliable), e.config.maxSegmentSize));
    }
  }

  lemma DataTakes(e: Engine, a: Action)
    requires EngineOk(e) && a.Deliver? && FromPeer(e, a.seg) && IsData(a.seg.segmentType) && a.seg.version == 0
    ensures TakenIn(e, a, ReceiveData(e, a.seg))
  {
    hide Absorb, SessionOk, CountSentAll, Octet, DataKeys;
    var seg := a.seg;
    OctetIs(seg);
    NoData([]);
    if Accepts(e, KeyOf(seg)) {
      if KeyOf(seg) in e.sessions { StoredIsActive(e, KeyOf(seg)); }
      var s1 := Absorb(ReceiverFor(e, seg), seg);
      var d0 := if KeyOf(seg) in e.sessions then e.diag else e.diag.(sessionsReceived := e.diag.sessionsReceived + 1);
      SendingTakesNothing(CountReceived(d0, seg.segmentType), ReportsSent(s1, seg));
      NoData(ReportsSent(s1, seg));
    }
  }

  lemma ReportTakes(e: Engine, a: Action)
    requires EngineOk(e) && a.Deliver? && Receivable(e, a.seg) && a.seg.segmentType == REPORT_SEGMENT && a.seg.version == 0
    ensures TakenIn(e, a, ReceiveReport(e, a.seg))
  {
    hide Gaps, CutAll, RetransmitSegments, CountSentAll, SessionOk, Octet, DataKeys, FullyReceived;
    var seg := a.seg;
    OctetIs(seg);
    var rs := seg.content;
    var own := Key(e.config.localEngineId, seg.sessionNumber);
    var ack := AckFor(seg.engineId, seg.sessionNumber, rs.reportNumber);
    NoData([]);
    NoData([ack]);
    if own in e.sessions {
      StoredIsActive(e, own);
      var s := BumpRetransmissions(e.sessions[own]);
      var cancel := MakeSegment(CANCEL_BY_SENDER, own.engineId, own.sessionNumber, CancelContent(1));
      NoData([ack] + [cancel]);
      var gaps := Gaps(rs.claims, rs.lowerBound, rs.upperBound);
      GapsCoverTheRest(rs.claims, rs.lowerBound, rs.upperBound);
      if |gaps| > 0 {
        GapsHaveBytes(rs.claims, rs.lowerBound, rs.upperBound);
        RetransmissionIsData(s, gaps, e.config.maxSegmentSize);
        var again := RetransmitSegments(s, gaps, e.config.maxSegmentSize);
        DataAfterControl(ack, again);
        var d1 := CountSent(e.diag.(reportsReceived := e.diag.reportsReceived + 1), ack);
        SendingTakesNothing(d1.(retransmissions := d1.retransmissions + 1), again);
      }
    }
  }

  lemma OthersTake(e: Engine, a: Action)
    requires EngineOk(e) && a.Deliver? && Receivable(e, a.seg) && IsValidType(a.seg.segmentType) && a.seg.version == 0
    requires !IsData(a.seg.segmentType) && a.seg.segmentType != REPORT_SEGMENT
    ensures TakenIn(e, a, ReceiveSegment(e, a.seg))
  {
    hide Octet, DataKeys, IsComplete, SessionOk;
    OctetIs(a.seg);
    NoData(ReceiveSegment(e, a.seg).sent);
  }

  lemma TimerTakes(e: Engine, a: Action)
    requires EngineOk(e) && a.Expire?
    ensures TakenIn(e, a, TimerExpired(e, a.event))
  {
    hide SegmentBlock, CountSentAll, SessionOk, DataKeys;
    NoData([]);
    match a.event.timerType
    case CHECKPOINT_TIMER =>
      var key := Key(e.config.localEngineId, a.event.sessionNumber);
      if key in e.sessions {
        StoredIsActive(e, key);
        var s := BumpRetransmissions(e.sessions[key]);
        var segs := SegmentBlock(s, e.config.maxSegmentSize);
        SendingTakesNothing(e.diag.(retransmissions := e.diag.retransmissions + 1), segs);
        BlockIsData(s, e.config.maxSegmentSize);
        NoData([MakeSegment(CANCEL_BY_SENDER, key.engineId, key.sessionNumber, CancelContent(1))]);
      }
    case REPORT_TIMER =>
      var key := Key(a.event.engineId, a.event.sessionNumber);
      if key in e.sessions {
        StoredIsActive(e, key);
        NoData([ReportFor(e.sessions[key], a.event.serialNumber, e.sessions[key].totalDataLength)]);
      }
    case CANCEL_TIMER =>
  }

  lemma CancelTakes(e: Engine, a: Action)
    requires a.Cancel?
    ensures TakenIn(e, a, CancelSession(e, a.key, a.reason))
  {
    hide DataKeys;
    NoData(CancelSession(e, a.key, a.reason).sent);
  }

  /** One step: the receiving, opening and retransmission counters of the engine it happens at grow by
      exactly what it takes in, and no counter of the other engine moves. */
  lemma StepTakesIn(sys: System, a: Action, i: nat)
    requires Inv(sys) && Shaped(sys) && i < 2 && Enabled(sys, a)
    ensures sys.engines[a.who].config.maxSegmentSize > 0 && (a.Deliver? ==> Receivable(sys.engines[a.who], a.seg))
    ensures var e, next := sys.engines[i], Step(sys, a);
            && |next.engines| == 2
            && if i == a.who then IntakeBy(next.engines[i].diag) == Plus(IntakeBy(e.diag), IntakeOf(e, a, Handle(sys, a).sent))
               else next.engines[i] == e
  {
    hide Inv, NextLive, NextRounds, NextBlocks, NextArrivals, Logged, Receiving, EngineOk, IntakeBy, IntakeOf,
      SessionsFit, SentFits, LiveFits, ReceiveData, ReceiveReport, StartSession, TimerExpired, CancelSession, ReceiveSegment;
    PartsOfInv(sys, a.who);
    if a.Deliver? {
      InFlightIsReceivable(sys, a.who, a.seg);
      InFlightIsValid(sys, a.who, a.seg);
    }
    HandlerTakes(sys, a);
  }

  lemma InFlightIsValid(sys: System, i: nat, seg: Segment)
    requires Inv(sys) && i < 2 && seg in sys.sent[1 - i]
    ensures IsValidType(seg.segmentType) && seg.version == 0
  {
    FlightFits(sys, 1 - i, seg);
  }

  lemma HandlerTakes(sys: System, a: Action)
    requires Shaped(sys) && a.who < 2 && EngineOk(sys.engines[a.who]) && sys.engines[a.who].config.maxSegmentSize > 0
    requires a.Deliver? ==> FromPeer(sys.engines[a.who], a.seg) && IsValidType(a.seg.segmentType) && a.seg.version == 0
    ensures TakenIn(sys.engines[a.who], a, Handle(sys, a))
  {
    hide EngineOk, TakenIn, ReceiveData, ReceiveReport, StartSession, TimerExpired, CancelSession;
    var e := sys.engines[a.who];
    match a
    case Start(_, _, _) => StartTakes(e, a);
    case Deliver(_, seg) =>
      if IsData(seg.segmentType) { DataTakes(e, a); }
      else if seg.segmentType == REPORT_SEGMENT { ReportTakes(e, a); }
      else { OthersTake(e, a); }
    case Expire(_, _) => TimerTakes(e, a);
    case Cancel(_, _, _) => CancelTakes(e, a);
  }
}
