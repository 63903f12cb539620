/** Retransmission rounds, counted from what the originator sends: no block is ever retransmitted
    more often than the limit allows, if and only if the limit fits the 8-bit counter with room to spare. */
module LtpRounds {
  import opened Basics
  import opened Ranges
  import opened LtpSegment
  import opened LtpEngineSpec
  import opened LtpEngineInvariant
  import opened LtpSystem
  import opened LtpSystemSafety
  import opened LtpRuns

  // ----- what one handler does -----

  /** An outcome that is not a start: data goes out only for stored blocks of the engine's own that
      are below the limit, and the counters of the sessions that stay go up by exactly that. */
  ghost predicate Counted(e: Engine, o: Outcome) {
    && o.engine.config == e.config && o.engine.sessionCounter == e.sessionCounter
    && (forall k :: k in DataKeys(o.sent) ==>
          && k.engineId == e.config.localEngineId && k in e.sessions
          && e.sessions[k].retransmissionCount < e.config.maxRetransmissions)
    && (forall k :: k in o.engine.sessions && k.engineId == e.config.localEngineId ==> CountedSession(e, o, k))
  }

  ghost predicate CountedSession(e: Engine, o: Outcome, k: Key)
    requires k in o.engine.sessions
  {
    && k in e.sessions
    && o.engine.sessions[k].retransmissionCount
       == e.sessions[k].retransmissionCount + if k in DataKeys(o.sent) then 1 else 0
  }

  lemma NoData(sent: seq<Segment>)
    requires forall seg :: seg in sent ==> !IsData(seg.segmentType)
    ensures DataKeys(sent) == {}
  {
  }

  lemma PiecesAreData(s: Session, pieces: seq<Claim>, t: nat, lastType: nat, serial: Option<nat>)
    requires Within(pieces, 0, |s.clientData|) && |pieces| > 0 && IsData(t) && IsData(lastType)
    ensures DataKeys(PieceSegments(s, pieces, t, lastType, serial)) == {Key(s.engineId, s.sessionNumber)}
  {
    var segs := PieceSegments(s, pieces, t, lastType, serial);
    assert segs[0] in segs && IsData(segs[0].segmentType);
    assert KeyOf(segs[0]) == Key(s.engineId, s.sessionNumber);
    forall k | k in DataKeys(segs) ensures k == Key(s.engineId, s.sessionNumber) {
      var seg :| seg in segs && IsData(seg.segmentType) && KeyOf(seg) == k;
      var j :| 0 <= j < |segs| && segs[j] == seg;
    }
    assert Key(s.engineId, s.sessionNumber) in DataKeys(segs);
  }

  lemma BlockIsData(s: Session, maxSeg: nat)
    requires maxSeg > 0
    ensures DataKeys(SegmentBlock(s, maxSeg)) == {Key(s.engineId, s.sessionNumber)}
  {
    if |s.clientData| == 0 {
      var segs := SegmentBlock(s, maxSeg);
      assert segs == [segs[0]] && IsData(segs[0].segmentType) && KeyOf(segs[0]) == Key(s.engineId, s.sessionNumber);
      assert segs[0] in segs;
    } else {
      CutWithin(0, |s.clientData|, maxSeg);
      hide DataKeys;
      PiecesAreData(s, Cut(0, |s.clientData|, maxSeg), if s.isRed then RED_DATA else GREEN_DATA,
                    if s.isRed then RED_DATA_CP_EORP_EOB else GREEN_DATA_EOB,
                    if s.isRed then Some(s.checkpointSerialCounter + 1) else None);
    }
  }

  /** Gaps are never empty, so there is always something to cut. */
  lemma {:induction false} GapsHaveBytes(claims: seq<Claim>, cursor: nat, upper: nat)
    ensures forall i :: 0 <= i < |Gaps(claims, cursor, upper)| ==> Gaps(claims, cursor, upper)[i].length > 0
    decreases |claims|
  {
    if cursor < upper && |claims| > 0 {
      var c := claims[0];
      GapsHaveBytes(claims[1..], if c.End() <= cursor then cursor else c.End(), upper);
    }
  }

  lemma CutHasPieces(gaps: seq<Claim>, maxSeg: nat)
    requires maxSeg > 0 && |gaps| > 0 && gaps[|gaps| - 1].length > 0
    ensures |CutAll(gaps, maxSeg)| > 0
  {
    CutWithin(gaps[|gaps| - 1].offset, gaps[|gaps| - 1].length, maxSeg);
  }

  lemma RetransmissionIsData(s: Session, gaps: seq<Claim>, maxSeg: nat)
    requires maxSeg > 0 && Within(gaps, 0, |s.clientData|) && |gaps| > 0 && gaps[|gaps| - 1].length > 0
    ensures DataKeys(RetransmitSegments(s, gaps, maxSeg)) == {Key(s.engineId, s.sessionNumber)}
  {
    hide DataKeys, CutAll;
    CutAllWithin(gaps, maxSeg, |s.clientData|);
    CutHasPieces(gaps, maxSeg);
    PiecesAreData(s, CutAll(gaps, maxSeg), RED_DATA, RED_DATA_CP, Some(s.checkpointSerialCounter + 1));
  }

  lemma DataAfterControl(control: Segment, segs: seq<Segment>)
    requires !IsData(control.segmentType)
    ensures DataKeys([control] + segs) == DataKeys(segs)
  {
    forall seg | seg in segs ensures seg in [control] + segs {
    }
  }

  /** No wrap below 255. */
  lemma BumpIsPlusOne(e: Engine, k: Key)
    requires EngineOk(e) && k in e.sessions && k.engineId == e.config.localEngineId && e.config.maxRetransmissions <= 254
    ensures BumpRetransmissions(e.sessions[k]).retransmissionCount == e.sessions[k].retransmissionCount + 1
    ensures BumpRetransmissions(e.sessions[k]).engineId == k.engineId && BumpRetransmissions(e.sessions[k]).sessionNumber == k.sessionNumber
  {
    assert SessionOk(e, k, e.sessions[k]);
  }

  lemma ReportIsCounted(e: Engine, seg: Segment)
    requires EngineOk(e) && Receivable(e, seg) && seg.segmentType == REPORT_SEGMENT && e.config.maxRetransmissions <= 254
    ensures Counted(e, ReceiveReport(e, seg))
  {
    hide Gaps, CutAll, RetransmitSegments, CountSentAll, SessionOk, BumpRetransmissions, FullyReceived;
    var rs := seg.content;
    var key := Key(e.config.localEngineId, seg.sessionNumber);
    var ack := AckFor(seg.engineId, seg.sessionNumber, rs.reportNumber);
    var gaps := Gaps(rs.claims, rs.lowerBound, rs.upperBound);
    GapsCoverTheRest(rs.claims, rs.lowerBound, rs.upperBound);
    var o := ReceiveReport(e, seg);
    NoData([]);
    NoData([ack]);
    if key in e.sessions {
      SessionNumberOf(e, key);
      BumpIsPlusOne(e, key);
      var s := BumpRetransmissions(e.sessions[key]);
      assert s.role == e.sessions[key].role && s.clientData == e.sessions[key].clientData by { BumpKeeps(e.sessions[key]); }
      if !FullyReceived(e.sessions[key], rs.claims) && |gaps| > 0 {
        if s.retransmissionCount <= e.config.maxRetransmissions {
          GapsHaveBytes(rs.claims, rs.lowerBound, rs.upperBound);
          RetransmissionIsData(s, gaps, e.config.maxSegmentSize);
          DataAfterControl(ack, RetransmitSegments(s, gaps, e.config.maxSegmentSize));
        } else {
          NoData(o.sent);
        }
      }
    }
  }

  lemma BumpKeeps(s: Session)
    ensures BumpRetransmissions(s).role == s.role && BumpRetransmissions(s).clientData == s.clientData
  {
  }

  lemma CheckpointIsCounted(e: Engine, number: nat)
    requires EngineOk(e) && e.config.maxRetransmissions <= 254
    ensures Counted(e, CheckpointExpired(e, number))
  {
    hide SegmentBlock, CountSentAll, SessionOk, BumpRetransmissions;
    var key := Key(e.config.localEngineId, number);
    var o := CheckpointExpired(e, number);
    NoData([]);
    if key in e.sessions {
      SessionNumberOf(e, key);
      BumpIsPlusOne(e, key);
      var s := BumpRetransmissions(e.sessions[key]);
      if s.retransmissionCount <= e.config.maxRetransmissions {
        BlockIsData(s, e.config.maxSegmentSize);
      } else {
        NoData(o.sent);
      }
    }
  }

  lemma DataIsCounted(e: Engine, seg: Segment)
    requires EngineOk(e) && FromPeer(e, seg) && IsData(seg.segmentType)
    ensures Counted(e, ReceiveData(e, seg))
  {
    hide Absorb, SessionOk, Balance;
    var key := KeyOf(seg);
    NoData([]);
    if Accepts(e, key) {
      if key in e.sessions { SessionNumberOf(e, key); }
      DataOutcome(e, seg);
      hide ReceiveData;
      NoData(ReportsSent(Absorb(ReceiverFor(e, seg), seg), seg));
    }
  }

  /** The remaining handlers send no data and change no counter. */
  lemma OthersAreCounted(e: Engine, o: Outcome)
    requires o.engine.config == e.config && o.engine.sessionCounter == e.sessionCounter
    requires forall seg :: seg in o.sent ==> !IsData(seg.segmentType)
    requires forall k :: k in o.engine.sessions ==>
               k in e.sessions && o.engine.sessions[k].retransmissionCount == e.sessions[k].retransmissionCount
    ensures Counted(e, o)
  {
    NoData(o.sent);
  }

  lemma HandlerIsCounted(sys: System, a: Action)
    requires Inv(sys) && Enabled(sys, a) && !a.Start?
    requires a.Deliver? ==> FromPeer(sys.engines[a.who], a.seg)
    requires sys.engines[a.who].config.maxRetransmissions <= 254 && sys.engines[a.who].config.maxSegmentSize > 0
    ensures Counted(sys.engines[a.who], Handle(sys, a))
  {
    hide Inv, EngineOk, Counted, ReceiveData, ReceiveReport, CheckpointExpired, SessionsFit, SentFits, LiveFits, IsComplete;
    PartsOfInv(sys, a.who);
    var e, o := sys.engines[a.who], Handle(sys, a);
    match a
    case Deliver(_, seg) =>
      if IsData(seg.segmentType) {
        DataIsCounted(e, seg);
      } else if seg.segmentType == REPORT_SEGMENT {
        ReportIsCounted(e, seg);
      } else {
        OthersAreCounted(e, o);
      }
    case Expire(_, event) =>
      if event.timerType == CHECKPOINT_TIMER {
        CheckpointIsCounted(e, event.sessionNumber);
      } else {
        OthersAreCounted(e, o);
      }
    case Cancel(_, key, reason) =>
      OthersAreCounted(e, o);
  }

  // ----- every run -----

  /** The rounds made for the blocks of engine `i`. */
  ghost predicate RoundsFitAt(sys: System, i: nat)
    requires Shaped(sys) && i < 2
  {
    && (forall k: Key :: k.engineId == IdOf(sys, i) ==> RoundsOf(sys, k) <= sys.engines[i].config.maxRetransmissions)
    && (forall k: Key :: k.engineId == IdOf(sys, i) && k in sys.engines[i].sessions ==>
          RoundsOf(sys, k) == sys.engines[i].sessions[k].retransmissionCount)
    && (forall k: Key :: k.engineId == IdOf(sys, i) && k.sessionNumber > sys.engines[i].sessionCounter ==> RoundsOf(sys, k) == 0)
  }

  lemma RoundsGrow(sys: System, a: Action, sent: seq<Segment>, next: System, k: Key)
    requires next.rounds == NextRounds(sys, a, sent)
    ensures RoundsOf(next, k) == RoundsOf(sys, k) + if !a.Start? && k in DataKeys(sent) then 1 else 0
  {
  }

  lemma SenderRounds(sys: System, a: Action, next: System)
    requires Inv(sys) && Enabled(sys, a) && (a.Deliver? ==> FromPeer(sys.engines[a.who], a.seg))
    requires sys.engines[a.who].config.maxSegmentSize > 0 && sys.engines[a.who].config.maxRetransmissions <= 254
    requires RoundsFitAt(sys, a.who) && IsStep(sys, a, Handle(sys, a), next)
    requires Shaped(next) && next.engines[a.who].config == sys.engines[a.who].config
    ensures RoundsFitAt(next, a.who)
  {
    hide Inv, EngineOk, NextRounds, Handle, RoundsOf, DataKeys, NextBlocks, NextArrivals, NextLive, Logged, Receiving;
    PartsOfInv(sys, a.who);
    var i, o := a.who, Handle(sys, a);
    var e := sys.engines[i];
    forall k: Key ensures RoundsOf(next, k) == RoundsOf(sys, k) + if !a.Start? && k in DataKeys(o.sent) then 1 else 0 {
      RoundsGrow(sys, a, o.sent, next, k);
    }
    if a.Start? {
      StartedRounds(sys, a);
    } else {
      HandlerIsCounted(sys, a);
      OwnNumbersAreUsed(e);
    }
  }

  lemma OwnNumbersAreUsed(e: Engine)
    requires EngineOk(e)
    ensures forall k :: k in e.sessions && k.engineId == e.config.localEngineId ==> k.sessionNumber <= e.sessionCounter
  {
    forall k | k in e.sessions && k.engineId == e.config.localEngineId ensures k.sessionNumber <= e.sessionCounter {
      assert SessionOk(e, k, e.sessions[k]);
    }
  }

  /** A start adds at most one session, with a new number and a counter of zero. */
  lemma StartedRounds(sys: System, a: Action)
    requires Inv(sys) && Enabled(sys, a) && a.Start? && sys.engines[a.who].config.maxSegmentSize > 0
    ensures var e, after := sys.engines[a.who], Handle(sys, a).engine;
            && after.config == e.config && after.sessionCounter >= e.sessionCounter
            && forall k :: k in after.sessions ==>
                 || (k in e.sessions && after.sessions[k].retransmissionCount == e.sessions[k].retransmissionCount)
                 || (k.sessionNumber > e.sessionCounter && after.sessions[k].retransmissionCount == 0)
  {
    hide SegmentBlock, CountSentAll, Inv;
  }

  /** Data carries the id of its sender, so the peer's rounds stay what they are. */
  lemma PeerRounds(sys: System, a: Action, next: System)
    requires Inv(sys) && Enabled(sys, a) && (a.Deliver? ==> FromPeer(sys.engines[a.who], a.seg))
    requires sys.engines[a.who].config.maxSegmentSize > 0
    requires RoundsFitAt(sys, 1 - a.who) && IsStep(sys, a, Handle(sys, a), next) && Shaped(next) && Inv(next)
    requires IdOf(next, 0) == IdOf(sys, 0) && IdOf(next, 1) == IdOf(sys, 1)
    ensures RoundsFitAt(next, 1 - a.who)
  {
    hide Inv, EngineOk, NextRounds, Handle, RoundsOf, DataKeys, NextBlocks, NextArrivals, NextLive, Logged, Receiving, SegmentFits;
    PartsOfInv(sys, a.who);
    var o := Handle(sys, a);
    forall k: Key | k.engineId == IdOf(sys, 1 - a.who) ensures RoundsOf(next, k) == RoundsOf(sys, k) {
      RoundsGrow(sys, a, o.sent, next, k);
      if k in DataKeys(o.sent) {
        var seg := DataOf(o.sent, k);
        FlightFits(next, a.who, seg);
        DataSender(next, a.who, seg);
      }
    }
  }

  lemma DataOf(sent: seq<Segment>, k: Key) returns (seg: Segment)
    requires k in DataKeys(sent)
    ensures seg in sent && IsData(seg.segmentType) && KeyOf(seg) == k
  {
    seg :| seg in sent && IsData(seg.segmentType) && KeyOf(seg) == k;
  }

  /** Rounds fit wherever the limit is below 255. */
  ghost predicate RoundsFit(sys: System) {
    && Shaped(sys)
    && (sys.engines[0].config.maxRetransmissions <= 254 ==> RoundsFitAt(sys, 0))
    && (sys.engines[1].config.maxRetransmissions <= 254 ==> RoundsFitAt(sys, 1))
  }

  lemma StepKeepsRounds(sys: System, a: Action)
    requires Inv(sys) && RoundsFit(sys)
    ensures RoundsFit(Step(sys, a))
    ensures Shaped(Step(sys, a)) && forall i :: 0 <= i < 2 ==> Step(sys, a).engines[i].config == sys.engines[i].config
  {
    hide Inv, Handle, RoundsFitAt, NextLive, NextRounds, NextBlocks, NextArrivals, Logged, Receiving, EngineOk, Receivable;
    PartsOfInv(sys, 0);
    if Enabled(sys, a) {
      PartsOfInv(sys, a.who);
      if a.Deliver? { InFlightIsReceivable(sys, a.who, a.seg); }
      HandlerKeepsConfig(sys, a);
      StepKeepsInv(sys, a);
      var o, next := Handle(sys, a), Next(sys, a);
      assert IsStep(sys, a, o, next);
      if sys.engines[a.who].config.maxRetransmissions <= 254 { SenderRounds(sys, a, next); }
      if sys.engines[1 - a.who].config.maxRetransmissions <= 254 { PeerRounds(sys, a, next); }
    }
  }

  lemma {:induction false} RunKeepsRounds(sys: System, actions: seq<Action>)
    requires Inv(sys) && RoundsFit(sys)
    ensures var after := Run(sys, actions);
            RoundsFit(after) && forall i :: 0 <= i < 2 ==> after.engines[i].config == sys.engines[i].config
    decreases |actions|
  {
    hide Inv, RoundsFitAt, Step;
    if |actions| > 0 {
      StepKeepsInv(sys, actions[0]);
      StepKeepsRounds(sys, actions[0]);
      RunKeepsRounds(Step(sys, actions[0]), actions[1..]);
    }
  }

  /** In every run: for a limit of at most 254, no block is ever retransmitted in more rounds than
      the limit, and the counter of a stored session is the number of its rounds. */
  lemma RoundsWithinLimit(c0: Config, c1: Config, actions: seq<Action>, i: nat, k: Key)
    requires Configured(c0, c1) && i < 2
    requires var c := if i == 0 then c0 else c1;
             k.engineId == c.localEngineId && c.maxRetransmissions <= 254
    ensures var sys := After(c0, c1, actions);
            && RoundsOf(sys, k) <= (if i == 0 then c0 else c1).maxRetransmissions
            && (k in sys.engines[i].sessions ==> RoundsOf(sys, k) == sys.engines[i].sessions[k].retransmissionCount)
  {
    hide Inv;
    InitialInv(c0, c1);
    RunKeepsRounds(Initial(c0, c1), actions);
  }

  // ----- a limit of 255 -----

  /** `n` expiries of the checkpoint timer of session `number`. */
  function Expiries(number: nat, n: nat): seq<Action> {
    seq(n, _ => Expire(0, TimerEvent(CHECKPOINT_TIMER, 0, number, 0)))
  }

  /** With a limit of 255 every expiry is one more round, for ever. */
  lemma {:induction false} EveryExpiryIsARound(sys: System, key: Key, n: nat)
    requires Inv(sys) && key.engineId == IdOf(sys, 0) && key in sys.engines[0].sessions
    requires sys.engines[0].config.maxRetransmissions == 255
    ensures RoundsOf(Run(sys, Expiries(key.sessionNumber, n)), key) == RoundsOf(sys, key) + n
    decreases n
  {
    hide Inv, Step, RoundsOf;
    if n > 0 {
      var a := Expire(0, TimerEvent(CHECKPOINT_TIMER, 0, key.sessionNumber, 0));
      var actions := Expiries(key.sessionNumber, n);
      StepKeepsInv(sys, a);
      OneMoreRound(sys, key, a);
      assert actions[1..] == Expiries(key.sessionNumber, n - 1);
      EveryExpiryIsARound(Step(sys, a), key, n - 1);
    }
  }

  lemma OneMoreRound(sys: System, key: Key, a: Action)
    requires Inv(sys) && key.engineId == IdOf(sys, 0) && key in sys.engines[0].sessions
    requires sys.engines[0].config.maxRetransmissions == 255
    requires a == Expire(0, TimerEvent(CHECKPOINT_TIMER, 0, key.sessionNumber, 0))
    ensures Inv(Step(sys, a))
    ensures var next := Step(sys, a);
            && RoundsOf(next, key) == RoundsOf(sys, key) + 1
            && key in next.engines[0].sessions && IdOf(next, 0) == IdOf(sys, 0)
            && next.engines[0].config == sys.engines[0].config
  {
    StepKeepsInv(sys, a);
    PartsOfInv(sys, 0);
    hide Inv, SegmentBlock, CountSentAll, NextRounds, RoundsOf, DataKeys, EngineOk, SessionsFit, SentFits, LiveFits;
    var e := sys.engines[0];
    SessionNumberOf(e, key);
    BlockIsData(BumpRetransmissions(e.sessions[key]), e.config.maxSegmentSize);
    RoundsGrow(sys, a, Handle(sys, a).sent, Step(sys, a), key);
  }

  lemma StartStores(sys: System)
    requires Inv(sys) && Shaped(sys) && !Full(sys.engines[0])
    ensures var key := Key(IdOf(sys, 0), sys.engines[0].sessionCounter + 1);
            var started := Step(sys, Start(0, [], true));
            && Inv(started) && IdOf(started, 0) == IdOf(sys, 0) && started.engines[0].config == sys.engines[0].config
            && key in started.engines[0].sessions && RoundsOf(started, key) == RoundsOf(sys, key)
  {
    var a := Start(0, [], true);
    StepKeepsInv(sys, a);
    PartsOfInv(sys, 0);
    hide Inv, SegmentBlock, CountSentAll, NextRounds, RoundsOf, DataKeys, EngineOk, SessionsFit, SentFits, LiveFits;
    RoundsGrow(sys, a, Handle(sys, a).sent, Step(sys, a), Key(IdOf(sys, 0), sys.engines[0].sessionCounter + 1));
  }

  lemma FreshEngine(c0: Config, c1: Config, sys: System)
    requires sys == Initial(c0, c1)
    ensures |sys.engines| == 2 && sys.engines[0].config == c0 && sys.engines[0].sessionCounter == 0
    ensures |sys.engines[0].sessions| == 0 && sys.rounds == map[]
  {
  }

  /** A run in which one block is retransmitted `n` times. */
  lemma RoundsUnboundedAt255(c0: Config, c1: Config, n: nat)
    requires Configured(c0, c1) && c0.maxRetransmissions == 255 && c0.maxConcurrentSessions > 0
    ensures RoundsOf(After(c0, c1, [Start(0, [], true)] + Expiries(1, n)), Key(c0.localEngineId, 1)) == n
  {
    hide Inv, Initial, Step;
    InitialInv(c0, c1);
    var sys := Initial(c0, c1);
    FreshEngine(c0, c1, sys);
    PartsOfInv(sys, 0);
    var first := Start(0, [], true);
    StartStores(sys);
    var actions := [first] + Expiries(1, n);
    assert actions[0] == first && actions[1..] == Expiries(1, n);
    EveryExpiryIsARound(Step(sys, first), Key(c0.localEngineId, 1), n);
  }

  /** So the limit bounds the rounds of every block in every run if and only if it is below 255. */
  lemma LimitBoundsRoundsIff(c0: Config, c1: Config)
    requires Configured(c0, c1) && c0.maxConcurrentSessions > 0
    ensures (forall actions: seq<Action>, k: Key :: k.engineId == c0.localEngineId ==>
               RoundsOf(After(c0, c1, actions), k) <= c0.maxRetransmissions)
            <==> c0.maxRetransmissions <= 254
  {
    hide After, RoundsOf;
    if c0.maxRetransmissions <= 254 {
      forall actions: seq<Action>, k: Key | k.engineId == c0.localEngineId
        ensures RoundsOf(After(c0, c1, actions), k) <= c0.maxRetransmissions
      {
        RoundsWithinLimit(c0, c1, actions, 0, k);
      }
    } else {
      RoundsUnboundedAt255(c0, c1, 256);
    }
  }
}
