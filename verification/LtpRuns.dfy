/** Safety over whole runs of the two-engine system. */
module LtpRuns {
  import opened Bits
  import opened Ranges
  import opened LtpSegment
  import Sdnv
  import opened LtpSegmentCodec
  import opened LtpEngineSpec
  import opened LtpEngineInvariant
  import opened LtpSystem
  import opened LtpSystemSafety

  lemma HandlerKeepsConfig(sys: System, a: Action)
    requires Inv(sys) && Enabled(sys, a)
    requires a.Deliver? ==> FromPeer(sys.engines[a.who], a.seg)
    ensures sys.engines[a.who].config.maxSegmentSize > 0
    ensures var e, after := sys.engines[a.who], Handle(sys, a).engine;
            && EngineOk(after) && after.config == e.config && after.sessionCounter >= e.sessionCounter
            && (a.Start? && !Full(e) ==> after.sessionCounter == e.sessionCounter + 1)
  {
    hide SegmentBlock, CountSentAll, SessionOk, Gaps, CutAll, RetransmitSegments, SessionsFit, SentFits, BlocksFit,
      EobFits, LogFits, Absorb, Balance;
    var e := sys.engines[a.who];
    assert EngineOk(e);
    match a
    case Start(_, data, reliable) => StartKeepsOk(e, data, reliable);
    case Deliver(_, seg) => ReceiveKeepsOk(e, seg);
    case Expire(_, event) => TimerKeepsOk(e, event);
    case Cancel(_, key, reason) => CancelKeepsOk(e, key, reason);
  }

  /** What the pieces of `Next` are, with the handler's outcome named. */
  ghost predicate IsStep(sys: System, a: Action, o: Outcome, next: System)
    requires Shaped(sys) && a.who < 2
  {
    && next.engines == sys.engines[a.who := o.engine]
    && next.sent == sys.sent[a.who := sys.sent[a.who] + (set seg | seg in o.sent)]
    && next.blocks == NextBlocks(sys, a) && next.arrivals == NextArrivals(sys, a)
    && next.live == NextLive(sys, a)
    && next.eob == (set k | k in Marked(sys, a).eob && Receiving(next.engines, k))
    && next.rounds == NextRounds(sys, a, o.sent)
    && next.log == sys.log + Logged(IdOf(sys, a.who), Marked(sys, a), o.events)
  }

  lemma StepShape(sys: System, a: Action, o: Outcome, next: System)
    requires Inv(sys) && a.who < 2 && IsStep(sys, a, o, next) && o.engine.config == sys.engines[a.who].config
    ensures Shaped(next) && IdOf(next, 0) == IdOf(sys, 0) && IdOf(next, 1) == IdOf(sys, 1) && Extends(sys, next)
    ensures MarksAgree(next, a.who, Marked(sys, a), o.engine.sessions)
    ensures EobFits(next) && LiveFits(next)
  {
    hide NextBlocks, NextArrivals, NextLive, NextRounds, LiveFits, Logged, EngineOk, SessionsFit, SentFits, LogFits, Extends;
    HistoryExtends(sys, a, next);
    LiveStaysFit(sys, a, next);
  }

  /** Marks of sessions the other engine stores are not touched. */
  lemma PeerMarksAgree(sys: System, a: Action, o: Outcome, next: System)
    requires Inv(sys) && Enabled(sys, a) && IsStep(sys, a, o, next) && Shaped(next)
    requires IdOf(next, 1 - a.who) == IdOf(sys, 1 - a.who)
    ensures MarksAgree(next, 1 - a.who, Now(sys), sys.engines[1 - a.who].sessions)
  {
    hide Inv, NextBlocks, NextArrivals, NextRounds, Logged, SegmentFits, EngineOk, SessionsFit, SentFits, LiveFits;
    PartsOfInv(sys, 0);
    EobOfInv(sys);
    if a.Deliver? {
      FlightFits(sys, 1 - a.who, a.seg);
      DataSender(sys, 1 - a.who, a.seg);
    }
  }

  lemma EobOfInv(sys: System)
    requires Inv(sys)
    ensures Shaped(sys) && EobFits(sys)
  {
    hide EngineOk, SessionsFit, SentFits, BlocksFit, LiveFits, LogFits;
  }

  lemma DataSender(sys: System, i: nat, seg: Segment)
    requires Shaped(sys) && i < 2 && SegmentFits(sys, i, seg)
    ensures IsData(seg.segmentType) ==> seg.engineId == IdOf(sys, i)
  {
  }

  /** If the handler's outcome fits the history after the step, the whole invariant holds again. */
  lemma OutcomeGivesInv(sys: System, a: Action, o: Outcome, next: System)
    requires Inv(sys) && Enabled(sys, a) && IsStep(sys, a, o, next)
    requires EngineOk(o.engine) && o.engine.config == sys.engines[a.who].config
    requires o.engine.sessionCounter >= sys.engines[a.who].sessionCounter
    requires a.Start? && !Full(sys.engines[a.who]) ==> o.engine.sessionCounter == sys.engines[a.who].sessionCounter + 1
    requires Shaped(next) && OutcomeFits(next, a.who, o, Marked(sys, a))
    ensures Inv(next)
  {
    hide EngineOk, SessionFits, SegmentFits, EntryFits, NextBlocks, NextArrivals, Marked, Logged, Receiving,
      BlocksFit, EobFits, LiveFits, MarksAgree, Extends;
    StepShape(sys, a, o, next);
    PeerMarksAgree(sys, a, o, next);
    var peer := 1 - a.who;
    SameSessionsStillFit(sys, peer, next);
    SentStaysFit(sys, a, o, next);
    LogStaysFit(sys, a, o, next);
    BlocksStayFit(sys, a, o, next);
    assert next.engines[peer] == sys.engines[peer];
  }

  lemma SentStaysFit(sys: System, a: Action, o: Outcome, next: System)
    requires Inv(sys) && Enabled(sys, a) && IsStep(sys, a, o, next) && Extends(sys, next) && AllFit(next, a.who, o.sent)
    ensures SentFits(next, 0) && SentFits(next, 1)
  {
    hide EngineOk, SegmentFits, NextBlocks, NextArrivals, Marked, Logged, Receiving, BlocksFit, EobFits, LiveFits, LogFits, SessionsFit;
    forall i, seg | 0 <= i < 2 && seg in next.sent[i] ensures SegmentFits(next, i, seg) {
      if seg in sys.sent[i] {
        SegmentStillFits(sys, next, i, seg);
      }
    }
  }

  lemma LogStaysFit(sys: System, a: Action, o: Outcome, next: System)
    requires Inv(sys) && Enabled(sys, a) && IsStep(sys, a, o, next) && Extends(sys, next)
    requires EntriesFit(next, Logged(IdOf(next, a.who), Marked(sys, a), o.events))
    ensures LogFits(next)
  {
    hide EngineOk, EntryFits, NextBlocks, NextArrivals, Marked, Logged, Receiving, BlocksFit, EobFits, SentFits, SessionsFit;
    forall j | 0 <= j < |next.log| ensures EntryFits(next, next.log[j]) {
      if j < |sys.log| {
        EntryStillFits(sys, next, sys.log[j]);
      } else {
        assert next.log[j] == Logged(IdOf(next, a.who), Marked(sys, a), o.events)[j - |sys.log|];
      }
    }
  }

  lemma BlocksStayFit(sys: System, a: Action, o: Outcome, next: System)
    requires Inv(sys) && Enabled(sys, a) && IsStep(sys, a, o, next)
    requires Shaped(next) && IdOf(next, 0) == IdOf(sys, 0) && IdOf(next, 1) == IdOf(sys, 1)
    requires o.engine.sessionCounter >= sys.engines[a.who].sessionCounter
    requires a.Start? && !Full(sys.engines[a.who]) ==> o.engine.sessionCounter == sys.engines[a.who].sessionCounter + 1
    ensures BlocksFit(next)
  {
    hide EngineOk, NextArrivals, Marked, Logged, Receiving, EobFits, SentFits, SessionsFit, LogFits;
  }

  /** Every handler's outcome fits, whichever action it is. */
  lemma HandlerOutcomeFits(sys: System, a: Action, next: System)
    requires Inv(sys) && Enabled(sys, a) && (a.Deliver? ==> FromPeer(sys.engines[a.who], a.seg))
    requires sys.engines[a.who].config.maxSegmentSize > 0
    requires var o := Handle(sys, a); o.engine.config == sys.engines[a.who].config && IsStep(sys, a, o, next)
    requires Shaped(next)
    ensures OutcomeFits(next, a.who, Handle(sys, a), Marked(sys, a))
  {
    hide Inv, OutcomeFits, StartSession, ReceiveData, ReceiveReport, LtpEngineSpec.ReceiveReportAck, TimerExpired,
      CancelSession, ReceiveCancel, LtpEngineSpec.ReceiveCancelAck, NextBlocks, NextArrivals, Logged, MarksAgree, EobFits,
      Extends, Receiving, SimilarSessions, EngineOk, SessionsFit, SentFits;
    PartsOfInv(sys, a.who);
    var o, e := Handle(sys, a), sys.engines[a.who];
    StepShape(sys, a, o, next);
    match a
    case Start(_, data, reliable) =>
      StartFits(sys, a, next);
    case Deliver(_, seg) =>
      if IsData(seg.segmentType) {
        DataStepFits(sys, a, next);
      } else if seg.segmentType == REPORT_SEGMENT {
        ReportStepFits(sys, a.who, seg, next);
      } else if seg.segmentType == REPORT_ACK {
        AckStepFits(sys, a.who, seg, next);
      } else {
        CancelTrafficOutcome(e, seg);
        CancelStepFits(sys, a.who, o, next);
      }
    case Expire(_, event) =>
      TimerStepFits(sys, a.who, event, next);
    case Cancel(_, key, reason) =>
      CancelOutcome(e, key, reason);
      CancelStepFits(sys, a.who, o, next);
  }

  lemma CancelOutcome(e: Engine, key: Key, reason: byte)
    ensures var o := CancelSession(e, key, reason);
            && SimilarSessions(e.sessions, o.engine.sessions)
            && (forall seg :: seg in o.sent ==> IsControl(seg))
            && (o.events == [] || (|o.events| == 1 && o.events[0].SessionFailed?))
  {
  }

  lemma CancelTrafficOutcome(e: Engine, seg: Segment)
    requires Receivable(e, seg) && e.config.maxSegmentSize > 0
    requires !IsData(seg.segmentType) && seg.segmentType != REPORT_SEGMENT && seg.segmentType != REPORT_ACK
    ensures var o := ReceiveSegment(e, seg);
            && SimilarSessions(e.sessions, o.engine.sessions)
            && (forall t :: t in o.sent ==> IsControl(t))
            && (o.events == [] || (|o.events| == 1 && o.events[0].SessionFailed?))
  {
  }

  /** One step keeps the invariant, whatever the action. */
  lemma StepKeepsInv(sys: System, a: Action)
    requires Inv(sys)
    ensures Inv(Step(sys, a))
  {
    hide Inv, Handle, NextLive, NextRounds, NextBlocks, NextArrivals, Logged, Receiving, OutcomeFits, EngineOk, Extends, MarksAgree,
      EobFits, SessionsFit, SentFits, Receivable;
    PartsOfInv(sys, 0);
    if Enabled(sys, a) {
      PartsOfInv(sys, a.who);
      if a.Deliver? { InFlightIsReceivable(sys, a.who, a.seg); }
      HandlerKeepsConfig(sys, a);
      var o, next := Handle(sys, a), Next(sys, a);
      assert IsStep(sys, a, o, next);
      StepShape(sys, a, o, next);
      HandlerOutcomeFits(sys, a, next);
      OutcomeGivesInv(sys, a, o, next);
    }
  }

  // ----- runs -----

  function Run(sys: System, actions: seq<Action>): (after: System)
    requires Inv(sys)
    ensures Inv(after)
    decreases |actions|
  {
    if |actions| == 0 then sys
    else
      StepKeepsInv(sys, actions[0]);
      Run(Step(sys, actions[0]), actions[1..])
  }

  /** Distinct engine ids, a segment size of at least one, 8-bit retransmission limits. */
  predicate Configured(c0: Config, c1: Config) {
    && c0.localEngineId != c1.localEngineId && c0.maxSegmentSize > 0 && c1.maxSegmentSize > 0
    && c0.maxRetransmissions < 256 && c1.maxRetransmissions < 256
  }

  /** The state after any sequence of starts, deliveries, expiries and cancels from two new engines. */
  function After(c0: Config, c1: Config, actions: seq<Action>): (sys: System)
    requires Configured(c0, c1)
    ensures Inv(sys) && Shaped(sys)
  {
    hide Inv, Initial, Run;
    InitialInv(c0, c1);
    var sys := Run(Initial(c0, c1), actions);
    PartsOfInv(sys, 0);
    sys
  }

  /** What a reader wants to know about the receiver sessions of engine `i`. */
  ghost predicate BuffersSafe(sys: System, i: nat)
    requires Shaped(sys) && i < 2
  {
    forall k :: k in sys.engines[i].sessions && sys.engines[i].sessions[k].role == RECEIVER ==>
      BufferSafe(sys, k, sys.engines[i].sessions[k])
  }

  ghost predicate BufferSafe(sys: System, k: Key, s: Session) {
    && k in sys.blocks && |s.clientData| <= |sys.blocks[k].data| && Within(s.ranges, 0, |sys.blocks[k].data|)
    && (forall x: nat :: x < |s.clientData| ==> s.clientData[x] == if Covers(s.ranges, x) then sys.blocks[k].data[x] else 0)
    && (forall x: nat :: Covers(s.ranges, x) <==> Covers(LiveIn(sys.live, k), x))
  }

  /** LTP data safety, in every run: a receiver's buffer equals the originator's block on every
      tracked byte, is zero elsewhere, and its tracker stays within the block. */
  lemma ReceiverBuffersAreSafe(c0: Config, c1: Config, actions: seq<Action>, i: nat)
    requires Configured(c0, c1) && i < 2
    ensures BuffersSafe(After(c0, c1, actions), i)
  {
    hide After, Inv, EngineOk, SentFits, Covers, Within;
    var sys := After(c0, c1, actions);
    PartsOfInv(sys, i);
    forall k | k in sys.engines[i].sessions && sys.engines[i].sessions[k].role == RECEIVER
      ensures BufferSafe(sys, k, sys.engines[i].sessions[k])
    {
      SessionNumberOf(sys.engines[i], k);
      assert SessionFits(sys, i, k, sys.engines[i].sessions[k]);
    }
  }

  /** Every delivery ever made: red after EOB exactly the block, red before EOB empty, green as long
      as the block with every byte its session took in and zeros elsewhere; and that did arrive. */
  ghost predicate DeliverySafe(sys: System, d: LogEntry)
    requires d.DeliveryLogged?
  {
    && d.key in sys.blocks
    && (d.red && d.sawEob ==> d.data == sys.blocks[d.key].data)
    && (d.red && !d.sawEob ==> d.data == [])
    && (!d.red ==> GreenFits(sys.blocks[d.key], d.data, d.tracked, d.taken))
    && AllArrived(sys, d.key, d.taken)
  }

  lemma InvLog(sys: System)
    requires Inv(sys)
    ensures LogFits(sys)
  {
    hide EngineOk, SessionsFit, SentFits, BlocksFit, EobFits, LiveFits, LogFits, Shaped;
  }

  lemma DeliveriesAreSafe(c0: Config, c1: Config, actions: seq<Action>, d: LogEntry)
    requires Configured(c0, c1) && d in After(c0, c1, actions).log && d.DeliveryLogged?
    ensures DeliverySafe(After(c0, c1, actions), d)
  {
    hide After, Inv, GreenFits, Arrived;
    var sys := After(c0, c1, actions);
    InvLog(sys);
    var j :| 0 <= j < |sys.log| && sys.log[j] == d;
    assert EntryFits(sys, sys.log[j]);
  }

  /** Completion soundness, in every run: when an originator has been told that a session is
      complete, every byte of its block has been received by the peer. */
  lemma CompletionIsSound(c0: Config, c1: Config, actions: seq<Action>, done: LogEntry, x: nat)
    requires Configured(c0, c1) && done in After(c0, c1, actions).log && done.CompletionLogged?
    ensures var sys := After(c0, c1, actions);
            done.completed in sys.blocks
            && (x < |sys.blocks[done.completed].data| ==> Covers(Arrived(sys, done.completed), x))
  {
    hide After, Inv, Covers, Arrived;
    var sys := After(c0, c1, actions);
    InvLog(sys);
    var j :| 0 <= j < |sys.log| && sys.log[j] == done;
    assert EntryFits(sys, sys.log[j]);
  }

  /** Session conservation, in every run: opened sessions are completed, cancelled or still stored;
      stored ones are active, no more than allowed, and within their retransmission limit. */
  ghost predicate Conserved(e: Engine) {
    && e.diag.sessionsOriginated + e.diag.sessionsReceived
       == e.diag.sessionsCompleted + e.diag.sessionsCancelled + |e.sessions|
    && |e.sessions| <= e.config.maxConcurrentSessions
    && (forall k :: k in e.sessions ==> e.sessions[k].state == ACTIVE)
    && (forall k :: k in e.sessions && e.sessions[k].role == ORIGINATOR ==>
          e.sessions[k].retransmissionCount <= e.config.maxRetransmissions)
  }

  lemma SessionsAreConserved(c0: Config, c1: Config, actions: seq<Action>, i: nat)
    requires Configured(c0, c1) && i < 2
    ensures Conserved(After(c0, c1, actions).engines[i])
  {
    hide After, Inv, SentFits, SessionsFit;
    var sys := After(c0, c1, actions);
    PartsOfInv(sys, i);
    var e := sys.engines[i];
    forall k | k in e.sessions
      ensures e.sessions[k].state == ACTIVE
      ensures e.sessions[k].role == ORIGINATOR ==> e.sessions[k].retransmissionCount <= e.config.maxRetransmissions
    {
      assert SessionOk(e, k, e.sessions[k]);
    }
  }

  /** Working on segments instead of bytes loses nothing: whatever is in flight in any run is
      decoded by the peer to the segment that was sent, as long as its numbers fit their fields. */
  lemma InFlightSurvivesTheWire(c0: Config, c1: Config, actions: seq<Action>, i: nat, seg: Segment)
    requires Configured(c0, c1) && i < 2 && seg in After(c0, c1, actions).sent[i] && FitsWidths(seg)
    ensures WellFormed(seg) && DecodeSegment(EncodeSegment(seg)) == Sdnv.Ok(seg, [])
  {
    hide After, Inv, EngineOk, SessionsFit, DataFits, ReportFits, EncodeSegment, DecodeSegment;
    var sys := After(c0, c1, actions);
    PartsOfInv(sys, i);
    assert SegmentFits(sys, i, seg);
    SegmentRoundTrip(seg, []);
    assert EncodeSegment(seg) + [] == EncodeSegment(seg);
  }
}
