/** The diagnostics tell the truth: in every run each counter of sent segments is the number of segments
    of its kind sent, and the closing counters are what the application was told. */
module LtpTally {
  import opened Basics
  import opened Bits
  import opened Ranges
  import opened LtpSegment
  import opened LtpEngineSpec
  import opened LtpEngineInvariant
  import opened LtpSystem
  import opened LtpSystemSafety
  import opened LtpRuns
  import opened LtpWire

  /** How many of the segments have one of these control octets. */
  function Count(segs: seq<Segment>, octets: set<nat>): nat {
    if |segs| == 0 then 0
    else Count(segs[..|segs| - 1], octets) + if Octet(segs[|segs| - 1]) in octets then 1 else 0
  }

  /** The counters of sent segments: red data, checkpoints, green data, reports, acknowledgments, cancels. */
  datatype Sent = Sent(red: nat, checkpoints: nat, green: nat, reports: nat, acks: nat, cancels: nat)

  function SentBy(d: Diagnostics): Sent {
    Sent(d.redSegmentsSent, d.checkpointsSent, d.greenSegmentsSent, d.reportsSent, d.reportAcksSent, d.cancelSegmentsSent)
  }

  /** Segments counted by kind, from their control octets. */
  function Kinds(segs: seq<Segment>): Sent {
    Sent(Count(segs, {0, 1, 2, 3}), Count(segs, {1, 2, 3}), Count(segs, {4, 5}), Count(segs, {6}), Count(segs, {7}), Count(segs, {8, 12}))
  }

  function Add(a: Sent, b: Sent): Sent {
    Sent(a.red + b.red, a.checkpoints + b.checkpoints, a.green + b.green, a.reports + b.reports, a.acks + b.acks, a.cancels + b.cancels)
  }

  function Completions(events: seq<Event>): nat {
    if |events| == 0 then 0 else (if events[0].SessionFailed? then 0 else 1) + Completions(events[1..])
  }

  function Failures(events: seq<Event>): nat {
    if |events| == 0 then 0 else (if events[0].SessionFailed? then 1 else 0) + Failures(events[1..])
  }

  /** Everything sent is counted by kind; completions and failures are what was told, except that a
      green block is complete once it is sent. */
  ghost predicate Tallied(e: Engine, o: Outcome, greenStarts: nat) {
    && o.engine.config == e.config
    && SentBy(o.engine.diag) == Add(SentBy(e.diag), Kinds(o.sent))
    && o.engine.diag.sessionsCompleted == e.diag.sessionsCompleted + Completions(o.events) + greenStarts
    && o.engine.diag.sessionsCancelled == e.diag.sessionsCancelled + Failures(o.events)
  }

  // ----- counting what is sent -----

  /** Segments whose octet is their type. */
  predicate Plain(segs: seq<Segment>) {
    forall seg :: seg in segs ==> Octet(seg) == seg.segmentType
  }

  lemma CountOneMore(segs: seq<Segment>, seg: Segment, octets: set<nat>)
    ensures Count(segs + [seg], octets) == Count(segs, octets) + if Octet(seg) in octets then 1 else 0
  {
    assert (segs + [seg])[..|segs|] == segs;
  }

  lemma KindsOneMore(segs: seq<Segment>, seg: Segment)
    ensures Kinds(segs + [seg]) == Add(Kinds(segs), KindOf(Octet(seg)))
  {
    hide Count, Octet;
    CountOneMore(segs, seg, {0, 1, 2, 3});
    CountOneMore(segs, seg, {1, 2, 3});
    CountOneMore(segs, seg, {4, 5});
    CountOneMore(segs, seg, {6});
    CountOneMore(segs, seg, {7});
    CountOneMore(segs, seg, {8, 12});
  }

  function KindOf(octet: nat): Sent {
    Sent(if octet <= 3 then 1 else 0, if 1 <= octet <= 3 then 1 else 0, if 4 <= octet <= 5 then 1 else 0,
         if octet == 6 then 1 else 0, if octet == 7 then 1 else 0, if octet == 8 || octet == 12 then 1 else 0)
  }

  lemma CountsOne(d: Diagnostics, seg: Segment)
    requires Octet(seg) == seg.segmentType
    ensures SentBy(CountSent(d, seg)) == Add(SentBy(d), KindOf(Octet(seg)))
    ensures SameOtherwise(d, CountSent(d, seg))
  {
    hide Octet;
  }

  /** Counting sent segments touches no other counter. */
  predicate SameOtherwise(d: Diagnostics, d2: Diagnostics) {
    && d2.sessionsOriginated == d.sessionsOriginated && d2.sessionsReceived == d.sessionsReceived
    && d2.sessionsCompleted == d.sessionsCompleted && d2.sessionsCancelled == d.sessionsCancelled
    && d2.redSegmentsReceived == d.redSegmentsReceived && d2.greenSegmentsReceived == d.greenSegmentsReceived
    && d2.reportsReceived == d.reportsReceived && d2.reportAcksReceived == d.reportAcksReceived
    && d2.retransmissions == d.retransmissions && d2.cancelSegmentsReceived == d.cancelSegmentsReceived
  }

  lemma {:induction false} CountsAll(d: Diagnostics, segs: seq<Segment>)
    requires Plain(segs)
    ensures SentBy(CountSentAll(d, segs)) == Add(SentBy(d), Kinds(segs))
    ensures SameOtherwise(d, CountSentAll(d, segs))
  {
    hide *;
    if |segs| == 0 {
      NoKinds();
      CountsNothing(d, segs);
    } else {
      var n := |segs| - 1;
      PlainPrefix(segs);
      CountsAll(d, segs[..n]);
      var before := CountSentAll(d, segs[..n]);
      CountsOne(before, segs[n]);
      CountsLast(d, segs);
      KindsOneMore(segs[..n], segs[n]);
      AddAssociates(SentBy(d), Kinds(segs[..n]), KindOf(Octet(segs[n])));
      SameTwice(d, before, CountSentAll(d, segs));
      assert segs[..n] + [segs[n]] == segs;
    }
  }

  lemma PlainPrefix(segs: seq<Segment>)
    requires Plain(segs) && |segs| > 0
    ensures Plain(segs[..|segs| - 1]) && Octet(segs[|segs| - 1]) == segs[|segs| - 1].segmentType
  {
    hide Octet;
  }

  lemma CountsNothing(d: Diagnostics, segs: seq<Segment>)
    requires segs == []
    ensures SentBy(CountSentAll(d, segs)) == Add(SentBy(d), Sent(0, 0, 0, 0, 0, 0)) && SameOtherwise(d, CountSentAll(d, segs))
  {
  }

  lemma CountsLast(d: Diagnostics, segs: seq<Segment>)
    requires |segs| > 0
    ensures CountSentAll(d, segs) == CountSent(CountSentAll(d, segs[..|segs| - 1]), segs[|segs| - 1])
  {
    hide CountSent;
  }

  lemma AddAssociates(a: Sent, b: Sent, c: Sent)
    ensures Add(Add(a, b), c) == Add(a, Add(b, c))
  {
  }

  lemma SameTwice(d: Diagnostics, d1: Diagnostics, d2: Diagnostics)
    requires SameOtherwise(d, d1) && SameOtherwise(d1, d2)
    ensures SameOtherwise(d, d2)
  {
  }

  lemma NoKinds()
    ensures Kinds([]) == Sent(0, 0, 0, 0, 0, 0)
  {
  }

  lemma {:induction false} CountConcat(a: seq<Segment>, c: seq<Segment>, octets: set<nat>)
    ensures Count(a + c, octets) == Count(a, octets) + Count(c, octets)
  {
    hide Octet;
    if |c| == 0 {
      assert a + c == a;
    } else {
      assert (a + c)[..|a + c| - 1] == a + c[..|c| - 1];
      CountConcat(a, c[..|c| - 1], octets);
    }
  }

  lemma KindsConcat(a: seq<Segment>, c: seq<Segment>)
    ensures Kinds(a + c) == Add(Kinds(a), Kinds(c))
  {
    hide Count;
    CountConcat(a, c, {0, 1, 2, 3});
    CountConcat(a, c, {1, 2, 3});
    CountConcat(a, c, {4, 5});
    CountConcat(a, c, {6});
    CountConcat(a, c, {7});
    CountConcat(a, c, {8, 12});
  }

  /** The count of a single segment, as the handlers make it. */
  lemma CountsSingle(d: Diagnostics, seg: Segment)
    requires Octet(seg) == seg.segmentType
    ensures SentBy(CountSent(d, seg)) == Add(SentBy(d), Kinds([seg])) && SameOtherwise(d, CountSent(d, seg))
    ensures CountSent(d, seg) == CountSentAll(d, [seg])
  {
    hide Octet, CountSent, Kinds;
    CountsOne(d, seg);
    NoKinds();
    KindsOneMore([], seg);
    assert [] + [seg] == [seg] && [seg][..0] == [];
  }

  lemma MadePlain(t: nat, engineId: nat, sessionNumber: nat, content: Content)
    requires ContentFits(t, content) && t < 16
    ensures Plain([MakeSegment(t, engineId, sessionNumber, content)])
  {
    hide Octet;
    MadeOctet(t, engineId, sessionNumber, content);
  }

  lemma PiecesArePlain(s: Session, pieces: seq<Claim>, t: nat, lastType: nat, serial: Option<nat>)
    requires Within(pieces, 0, |s.clientData|) && t <= 5 && lastType <= 5
    ensures Plain(PieceSegments(s, pieces, t, lastType, serial))
  {
    hide Octet;
    var segs := PieceSegments(s, pieces, t, lastType, serial);
    forall i | 0 <= i < |segs| ensures Octet(segs[i]) == segs[i].segmentType {
      MadeOctet(segs[i].segmentType, s.engineId, s.sessionNumber, segs[i].content);
    }
  }

  lemma BlockIsPlain(s: Session, maxSeg: nat)
    requires maxSeg > 0
    ensures Plain(SegmentBlock(s, maxSeg))
  {
    hide Octet;
    if |s.clientData| == 0 {
      var seg := SegmentBlock(s, maxSeg)[0];
      MadeOctet(seg.segmentType, s.engineId, s.sessionNumber, seg.content);
    } else {
      CutWithin(0, |s.clientData|, maxSeg);
      PiecesArePlain(s, Cut(0, |s.clientData|, maxSeg), if s.isRed then RED_DATA else GREEN_DATA,
                     if s.isRed then RED_DATA_CP_EORP_EOB else GREEN_DATA_EOB,
                     if s.isRed then Some(s.checkpointSerialCounter + 1) else None);
    }
  }

  // ----- the handlers -----

  lemma NothingTold()
    ensures Completions([]) == 0 && Failures([]) == 0
  {
  }

  lemma OneTold(event: Event)
    ensures Completions([event]) == (if event.SessionFailed? then 0 else 1)
    ensures Failures([event]) == if event.SessionFailed? then 1 else 0
  {
    assert [event][1..] == [];
  }

  lemma StartTallies(e: Engine, data: seq<byte>, reliable: bool)
    requires EngineOk(e)
    ensures Tallied(e, StartSession(e, data, reliable).0, if Full(e) || reliable then 0 else 1)
  {
    hide SegmentBlock, CountSentAll, SessionOk, Kinds, Completions, Failures, Plain;
    NothingTold();
    NoKinds();
    if !Full(e) {
      var segs := SegmentBlock(NewOriginator(e, data, reliable), e.config.maxSegmentSize);
      BlockIsPlain(NewOriginator(e, data, reliable), e.config.maxSegmentSize);
      CountsAll(e.diag.(sessionsOriginated := e.diag.sessionsOriginated + 1), segs);
    }
  }

  lemma DataTallies(e: Engine, seg: Segment)
    requires EngineOk(e) && Receivable(e, seg) && IsData(seg.segmentType)
    ensures Tallied(e, ReceiveData(e, seg), 0)
  {
    hide Absorb, SessionOk, Kinds, Completions, Failures, CountSentAll, CountSent, Plain;
    NothingTold();
    NoKinds();
    if Accepts(e, KeyOf(seg)) {
      if KeyOf(seg) in e.sessions { StoredIsActive(e, KeyOf(seg)); }
      var s1 := Absorb(ReceiverFor(e, seg), seg);
      var d0 := if KeyOf(seg) in e.sessions then e.diag else e.diag.(sessionsReceived := e.diag.sessionsReceived + 1);
      var sent := ReportsSent(s1, seg);
      if AsksForReport(seg) {
        MadePlain(REPORT_SEGMENT, s1.engineId, s1.sessionNumber, sent[0].content);
      } else {
        NothingIsPlain();
      }
      CountsAll(CountReceived(d0, seg.segmentType), sent);
      var events := ReceiveData(e, seg).events;
      if events != [] {
        assert events == [events[0]];
        OneTold(events[0]);
      }
    }
  }

  lemma NothingIsPlain()
    ensures Plain([])
  {
  }

  lemma CancelTallies(e: Engine, key: Key, reason: byte)
    ensures Tallied(e, CancelSession(e, key, reason), 0)
  {
    hide Kinds, Completions, Failures, CountSent, Octet;
    NothingTold();
    NoKinds();
    if key in e.sessions {
      var o := CancelSession(e, key, reason);
      MadeOctet(CANCEL_BY_SENDER, key.engineId, key.sessionNumber, CancelContent(reason));
      MadeOctet(CANCEL_BY_RECEIVER, key.engineId, key.sessionNumber, CancelContent(reason));
      CountsSingle(e.diag, o.sent[0]);
      OneTold(o.events[0]);
    }
  }

  /** Acknowledgments of cancels are not counted. */
  lemma CancelAckKinds(t: nat, engineId: nat, sessionNumber: nat)
    requires t == 9 || t == 13
    ensures Kinds([MakeSegment(t, engineId, sessionNumber, CancelContent(0))]) == Sent(0, 0, 0, 0, 0, 0)
  {
    hide *;
    var ack := MakeSegment(t, engineId, sessionNumber, CancelContent(0));
    CancelContentFits(t);
    MadeOctet(t, engineId, sessionNumber, CancelContent(0));
    NoKinds();
    KindsOneMore([], ack);
    Uncounted(t);
    assert [] + [ack] == [ack];
  }

  lemma CancelContentFits(t: nat)
    requires t == 9 || t == 13
    ensures ContentFits(t, CancelContent(0))
  {
  }

  lemma Uncounted(t: nat)
    requires t == 9 || t == 13
    ensures Add(Sent(0, 0, 0, 0, 0, 0), KindOf(t)) == Sent(0, 0, 0, 0, 0, 0)
  {
    hide *;
    NoKind(t);
    var none := Sent(0, 0, 0, 0, 0, 0);
    AddNothing(none);
  }

  lemma NoKind(t: nat)
    requires t > 8 && t != 12
    ensures KindOf(t) == Sent(0, 0, 0, 0, 0, 0)
  {
    hide Count, Kinds, Octet;
  }

  lemma AddNothing(a: Sent)
    ensures Add(a, Sent(0, 0, 0, 0, 0, 0)) == a
  {
  }

  lemma CancelSegmentTallies(e: Engine, seg: Segment)
    requires IsCancel(seg.segmentType) && seg.content.CancelContent?
    ensures Tallied(e, ReceiveCancel(e, seg), 0)
  {
    hide Kinds, Completions, Failures, MakeSegment;
    NothingTold();
    CancelAckKinds(CANCEL_ACK_TO_SENDER, seg.engineId, seg.sessionNumber);
    CancelAckKinds(CANCEL_ACK_TO_RECEIVER, seg.engineId, seg.sessionNumber);
    if KeyOf(seg) in e.sessions { OneTold(ReceiveCancel(e, seg).events[0]); }
  }

  lemma TimerTallies(e: Engine, event: TimerEvent)
    requires EngineOk(e)
    ensures Tallied(e, TimerExpired(e, event), 0)
  {
    hide SegmentBlock, CountSentAll, CountSent, SessionOk, Kinds, Completions, Failures, Plain, CancelSession, Octet;
    NothingTold();
    NoKinds();
    match event.timerType
    case CHECKPOINT_TIMER =>
      var key := Key(e.config.localEngineId, event.sessionNumber);
      if key in e.sessions {
        StoredIsActive(e, key);
        var s := BumpRetransmissions(e.sessions[key]);
        CancelTallies(e.(sessions := e.sessions[key := s]), Key(s.engineId, s.sessionNumber), 1);
        BlockIsPlain(s, e.config.maxSegmentSize);
        CountsAll(e.diag.(retransmissions := e.diag.retransmissions + 1), SegmentBlock(s, e.config.maxSegmentSize));
      }
    case REPORT_TIMER =>
      var key := Key(event.engineId, event.sessionNumber);
      if key in e.sessions {
        var s := e.sessions[key];
        var report := ReportFor(s, event.serialNumber, s.totalDataLength);
        MadeOctet(REPORT_SEGMENT, s.engineId, s.sessionNumber, report.content);
        CountsSingle(e.diag.(retransmissions := e.diag.retransmissions + 1), report);
      }
    case CANCEL_TIMER =>
  }

  lemma ReportTallies(e: Engine, seg: Segment)
    requires EngineOk(e) && Receivable(e, seg) && seg.segmentType == REPORT_SEGMENT
    ensures Tallied(e, ReceiveReport(e, seg), 0)
  {
    hide Gaps, CutAll, CountSentAll, CountSent, SessionOk, Octet, Plain, PieceSegments, Kinds, Completions, Failures, CancelSession;
    NothingTold();
    NoKinds();
    var ack := AckFor(seg.engineId, seg.sessionNumber, seg.content.reportNumber);
    MadeOctet(REPORT_ACK, seg.engineId, seg.sessionNumber, ack.content);
    MadePlain(REPORT_ACK, seg.engineId, seg.sessionNumber, ack.content);
    var d0 := e.diag.(reportsReceived := e.diag.reportsReceived + 1);
    CountsSingle(d0, ack);
    var own := Key(e.config.localEngineId, seg.sessionNumber);
    if own in e.sessions {
      StoredIsActive(e, own);
      OneTold(SessionComplete(e.sessions[own].sessionNumber));
      var s := BumpRetransmissions(e.sessions[own]);
      var d1 := CountSent(d0, ack);
      var cut := e.(sessions := e.sessions[own := s], diag := d1);
      CancelTallies(cut, own, 1);
      KindsConcat([ack], CancelSession(cut, own, 1).sent);
      GapsCoverTheRest(seg.content.claims, seg.content.lowerBound, seg.content.upperBound);
      var gaps := Gaps(seg.content.claims, seg.content.lowerBound, seg.content.upperBound);
      CutAllWithin(gaps, e.config.maxSegmentSize, |s.clientData|);
      PiecesArePlain(s, CutAll(gaps, e.config.maxSegmentSize), RED_DATA, RED_DATA_CP, Some(s.checkpointSerialCounter + 1));
      var again := RetransmitSegments(s, gaps, e.config.maxSegmentSize);
      CountsAll(d1.(retransmissions := d1.retransmissions + 1), again);
      KindsConcat([ack], again);
    }
  }

  lemma OthersTally(e: Engine, seg: Segment)
    requires Receivable(e, seg) && e.config.maxSegmentSize > 0
    requires !IsData(seg.segmentType) && seg.segmentType != REPORT_SEGMENT && !IsCancel(seg.segmentType)
    ensures Tallied(e, ReceiveSegment(e, seg), 0)
  {
    hide Kinds, Completions, Failures, IsComplete;
    NothingTold();
    NoKinds();
    var o := ReceiveSegment(e, seg);
    if o.events != [] {
      assert o.events == [o.events[0]];
      OneTold(o.events[0]);
    }
  }

  // ----- every run -----

  /** The action starts a green block. */
  predicate StartsGreen(sys: System, a: Action)
    requires Shaped(sys)
  {
    a.who < 2 && a.Start? && !a.reliable && !Full(sys.engines[a.who])
  }

  lemma HandlerTallies(sys: System, a: Action)
    requires Inv(sys) && Enabled(sys, a) && (a.Deliver? ==> Receivable(sys.engines[a.who], a.seg))
    requires sys.engines[a.who].config.maxSegmentSize > 0
    ensures Tallied(sys.engines[a.who], Handle(sys, a), if StartsGreen(sys, a) then 1 else 0)
  {
    hide Inv, EngineOk, Tallied, ReceiveData, ReceiveReport, StartSession, TimerExpired, CancelSession, ReceiveCancel,
      LtpEngineSpec.ReceiveReportAck, SessionsFit, SentFits, LiveFits;
    PartsOfInv(sys, a.who);
    var e := sys.engines[a.who];
    match a
    case Start(_, data, reliable) => StartTallies(e, data, reliable);
    case Deliver(_, seg) =>
      if IsData(seg.segmentType) {
        DataTallies(e, seg);
      } else if seg.segmentType == REPORT_SEGMENT {
        ReportTallies(e, seg);
      } else if IsCancel(seg.segmentType) {
        CancelSegmentTallies(e, seg);
      } else {
        OthersTally(e, seg);
      }
    case Expire(_, event) => TimerTallies(e, event);
    case Cancel(_, key, reason) => CancelTallies(e, key, reason);
  }

  /** What one action makes engine `i` send and tell. */
  function Output(sys: System, a: Action, i: nat): (seq<Segment>, seq<Event>)
    requires Inv(sys)
  {
    if Enabled(sys, a) && a.who == i then
      (if a.Deliver? then InFlightIsReceivable(sys, a.who, a.seg); (Handle(sys, a).sent, Handle(sys, a).events)
       else (Handle(sys, a).sent, Handle(sys, a).events))
    else ([], [])
  }

  /** One step counts what it does, and only at the engine that does it. */
  lemma StepTallies(sys: System, a: Action, i: nat)
    requires Inv(sys) && i < 2
    ensures var next := Step(sys, a);
            var (sent, events) := Output(sys, a, i);
            && Shaped(sys) && Shaped(next) && next.engines[i].config == sys.engines[i].config
            && SentBy(next.engines[i].diag) == Add(SentBy(sys.engines[i].diag), Kinds(sent))
            && next.engines[i].diag.sessionsCompleted == sys.engines[i].diag.sessionsCompleted + Completions(events)
               + (if StartsGreen(sys, a) && a.who == i then 1 else 0)
            && next.engines[i].diag.sessionsCancelled == sys.engines[i].diag.sessionsCancelled + Failures(events)
  {
    hide Inv, Handle, NextLive, NextRounds, NextBlocks, NextArrivals, Logged, Receiving, EngineOk, Receivable, Kinds, Completions,
      Failures, SessionsFit, SentFits, LiveFits, Full;
    PartsOfInv(sys, i);
    NothingTold();
    NoKinds();
    if Enabled(sys, a) {
      PartsOfInv(sys, a.who);
      if a.Deliver? { InFlightIsReceivable(sys, a.who, a.seg); }
      HandlerKeepsConfig(sys, a);
      HandlerTallies(sys, a);
    }
  }

  /** Everything engine `i` sends and tells in a run, in order. */
  function Sends(sys: System, actions: seq<Action>, i: nat): seq<Segment>
    requires Inv(sys)
    decreases |actions|
  {
    if |actions| == 0 then []
    else
      StepKeepsInv(sys, actions[0]);
      Output(sys, actions[0], i).0 + Sends(Step(sys, actions[0]), actions[1..], i)
  }

  lemma {:induction false} RunTallies(sys: System, actions: seq<Action>, i: nat)
    requires Inv(sys) && i < 2
    ensures var after := Run(sys, actions);
            && Shaped(sys) && Shaped(after)
            && SentBy(after.engines[i].diag) == Add(SentBy(sys.engines[i].diag), Kinds(Sends(sys, actions, i)))
    decreases |actions|
  {
    hide Inv, Step, Kinds, Output;
    PartsOfInv(sys, i);
    if |actions| == 0 {
      NoKinds();
    } else {
      StepKeepsInv(sys, actions[0]);
      StepTallies(sys, actions[0], i);
      RunTallies(Step(sys, actions[0]), actions[1..], i);
      KindsConcat(Output(sys, actions[0], i).0, Sends(Step(sys, actions[0]), actions[1..], i));
    }
  }

  /** In every run the counters of sent segments are the numbers of segments sent, kind by kind. */
  lemma CountersTellTheTruth(c0: Config, c1: Config, actions: seq<Action>, i: nat)
    requires Configured(c0, c1) && i < 2
    ensures Inv(Initial(c0, c1))
    ensures var after := After(c0, c1, actions);
            Shaped(after) && SentBy(after.engines[i].diag) == Kinds(Sends(Initial(c0, c1), actions, i))
  {
    hide Inv, Initial, Run, Kinds, Sends;
    InitialInv(c0, c1);
    var sys := Initial(c0, c1);
    RunTallies(sys, actions, i);
    NothingCounted(c0, c1, sys, i);
  }

  lemma NothingCounted(c0: Config, c1: Config, sys: System, i: nat)
    requires sys == Initial(c0, c1) && i < 2
    ensures SentBy(sys.engines[i].diag) == Sent(0, 0, 0, 0, 0, 0)
  {
  }
}
